/** Provider configurations kept one per file, name.yaml or the older name.yml
    (runtime/internal/llmproviders/file_providers_config_service.go).  YAML is
    exact: a file is its configuration, or broken. */
module ProviderFiles {
  import opened Wrappers
  import opened Text

  const OPENAI_COMPATIBLE := "openai-compatible"

  datatype Model = Model(name: string, displayName: string, summarization: bool)

  datatype Config = Config(
    name: string, kind: string, displayName: string, baseUrl: string, apiKey: string, models: seq<Model>,
    createdAt: int, updatedAt: int)

  datatype Entry = Broken | Stored(config: Config)

  type Files = map<string, Entry>

  datatype CreateParams = CreateParams(
    name: string, kind: string, displayName: string, baseUrl: string, apiKey: string, models: seq<Model>)

  datatype UpdateParams = UpdateParams(displayName: string, baseUrl: string, apiKey: string, models: seq<Model>)

  datatype ProviderError = InvalidName | UnsupportedType | NameConflict | NotFound | Unparseable

  // ----- File names -----

  function YamlFile(name: string): string { name + ".yaml" }

  function YmlFile(name: string): string { name + ".yml" }

  predicate HasSuffix(s: string, suffix: string) {
    |s| >= |suffix| && s[|s| - |suffix|..] == suffix
  }

  function StemOf(file: string): Option<string> {
    if HasSuffix(file, ".yaml") then Some(file[..|file| - 5])
    else if HasSuffix(file, ".yml") then Some(file[..|file| - 4])
    else None
  }

  lemma StemMeans(file: string, name: string)
    ensures StemOf(file) == Some(name) <==> file == YamlFile(name) || file == YmlFile(name)
    ensures HasSuffix(file, ".yaml") && StemOf(file) == Some(name) ==> file == YamlFile(name)
    ensures !HasSuffix(file, ".yaml") && StemOf(file) == Some(name) ==> file == YmlFile(name)
  {
    if file == YamlFile(name) {
      assert file[|file| - 5..] == ".yaml" && file[..|file| - 5] == name;
    }
    if file == YmlFile(name) {
      assert file[|file| - 4..] == ".yml" && file[..|file| - 4] == name;
      assert file[|file| - 4] == '.';
      if |file| >= 5 { assert file[|file| - 5..][1] == file[|file| - 4]; }
    }
    if HasSuffix(file, ".yaml") { assert file == file[..|file| - 5] + ".yaml"; }
    if HasSuffix(file, ".yml") { assert file == file[..|file| - 4] + ".yml"; }
  }

  lemma FilesDiffer(a: string, b: string)
    ensures YamlFile(a) != YmlFile(b)
    ensures YamlFile(a) == YamlFile(b) <==> a == b
    ensures YmlFile(a) == YmlFile(b) <==> a == b
  {
    StemMeans(YamlFile(a), a);
    StemMeans(YmlFile(b), b);
    StemMeans(YamlFile(b), b);
    StemMeans(YmlFile(a), a);
    assert YamlFile(a)[|a|..] == ".yaml";
    assert HasSuffix(YamlFile(a), ".yaml");
  }

  // ----- Lookup -----

  /** The file that stands for a name; .yaml goes before .yml. */
  function ResolveReadPath(files: Files, name: string): Option<string> {
    if YamlFile(name) in files then Some(YamlFile(name))
    else if YmlFile(name) in files then Some(YmlFile(name))
    else None
  }

  function Read(files: Files, path: string): Result<Config, ProviderError>
    requires path in files
  {
    match files[path] case Broken => Err(Unparseable) case Stored(config) => Ok(config)
  }

  function Lookup(files: Files, name: string): Result<Config, ProviderError> {
    match ResolveReadPath(files, name) case None => Err(NotFound) case Some(path) => Read(files, path)
  }

  /** The names with a file. */
  function Names(files: Files): set<string> {
    set file | file in files && StemOf(file).Some? :: StemOf(file).value
  }

  lemma NamesMeans(files: Files, name: string)
    ensures name in Names(files) <==> ResolveReadPath(files, name).Some?
  {
    StemMeans(YamlFile(name), name);
    StemMeans(YmlFile(name), name);
    if name in Names(files) {
      var file :| file in files && StemOf(file) == Some(name);
      StemMeans(file, name);
    }
  }

  /** What the directory means: a map from names to entries. */
  function View(files: Files): map<string, Entry> {
    map name | name in Names(files) :: Visible(files, name)
  }

  function Visible(files: Files, name: string): Entry
    requires name in Names(files)
  {
    NamesMeans(files, name);
    files[ResolveReadPath(files, name).value]
  }

  predicate HasBoth(files: Files, name: string) {
    YamlFile(name) in files && YmlFile(name) in files
  }

  ghost predicate OneFileEach(files: Files) {
    forall name :: !HasBoth(files, name)
  }

  // ----- Operations on the files -----

  datatype Op =
    | Create(params: CreateParams, now: int)
    | Update(name: string, changes: UpdateParams, now: int)
    | Delete(name: string)
    | Get(name: string)

  datatype Response = Done | Failed(error: ProviderError) | Given(config: Config)

  function Created(params: CreateParams, now: int): Config {
    Config(params.name, params.kind, params.displayName, params.baseUrl, params.apiKey, params.models, now, now)
  }

  function Changed(config: Config, changes: UpdateParams, now: int): Config {
    config.(displayName := changes.displayName, baseUrl := changes.baseUrl,
            apiKey := if changes.apiKey != "" then changes.apiKey else config.apiKey,
            models := changes.models, updatedAt := now)
  }

  function Step(files: Files, op: Op): (Files, Response) {
    match op
    case Create(params, now) =>
      if !IsSlug(params.name) then (files, Failed(InvalidName))
      else if params.kind != OPENAI_COMPATIBLE then (files, Failed(UnsupportedType))
      else if ResolveReadPath(files, params.name).Some? then (files, Failed(NameConflict))
      else (files[YamlFile(params.name) := Stored(Created(params, now))], Given(Created(params, now)))
    case Update(name, changes, now) =>
      (match Lookup(files, name)
       case Err(e) => (files, Failed(e))
       case Ok(config) =>
         var updated := Changed(config, changes, now);
         var written := files[YamlFile(name) := Stored(updated)];
         (if YamlFile(name) in files then written else written - {YmlFile(name)}, Given(updated)))
    case Delete(name) =>
      (match ResolveReadPath(files, name)
       case None => (files, Failed(NotFound))
       case Some(path) => (files - {path}, Done))
    case Get(name) =>
      (match Lookup(files, name) case Err(e) => (files, Failed(e)) case Ok(config) => (files, Given(config)))
  }

  /** The same operations on a map. */
  function MapStep(m: map<string, Entry>, op: Op): (map<string, Entry>, Response) {
    match op
    case Create(params, now) =>
      if !IsSlug(params.name) then (m, Failed(InvalidName))
      else if params.kind != OPENAI_COMPATIBLE then (m, Failed(UnsupportedType))
      else if params.name in m then (m, Failed(NameConflict))
      else (m[params.name := Stored(Created(params, now))], Given(Created(params, now)))
    case Update(name, changes, now) =>
      if name !in m then (m, Failed(NotFound))
      else if m[name].Broken? then (m, Failed(Unparseable))
      else
        var updated := Changed(m[name].config, changes, now);
        (m[name := Stored(updated)], Given(updated))
    case Delete(name) => if name in m then (m - {name}, Done) else (m, Failed(NotFound))
    case Get(name) =>
      if name !in m then (m, Failed(NotFound))
      else if m[name].Broken? then (m, Failed(Unparseable)) else (m, Given(m[name].config))
  }

  /** Two directories that differ at most in the files of one name show the
      same for every other name. */
  lemma OthersAsBefore(files: Files, files': Files, name: string, other: string)
    requires other != name
    requires forall f :: f != YamlFile(name) && f != YmlFile(name) ==> (f in files <==> f in files')
    requires forall f :: f in files && f in files' && f != YamlFile(name) && f != YmlFile(name) ==>
               files[f] == files'[f]
    ensures other in View(files) <==> other in View(files')
    ensures other in View(files) ==> View(files)[other] == View(files')[other]
  {
    FilesDiffer(other, name);
    FilesDiffer(name, other);
    NamesMeans(files, other);
    NamesMeans(files', other);
  }

  /** Every operation but one is the map's, whatever files there are; deleting
      is the map's exactly when the name has not both files. */
  lemma StepIsMapStepIff(files: Files, op: Op)
    ensures (View(Step(files, op).0), Step(files, op).1) == MapStep(View(files), op)
            <==> !(op.Delete? && HasBoth(files, op.name))
  {
    hide IsSlug, View, StemOf;
    var name := if op.Create? then op.params.name else op.name;
    var files' := Step(files, op).0;
    ViewAt(files, name);
    ViewAt(files', name);
    FilesDiffer(name, name);
    var m := MapStep(View(files), op).0;
    forall other | other != name
      ensures other in View(files') <==> other in m
      ensures other in m ==> View(files')[other] == m[other]
    {
      OthersAsBefore(files, files', name, other);
    }
    if op.Delete? && HasBoth(files, op.name) {
      assert name in View(files') && name !in m;
    } else {
      assert name in View(files') <==> name in m;
      assert View(files') == m;
    }
  }

  lemma ViewAt(files: Files, name: string)
    ensures name in View(files) <==> ResolveReadPath(files, name).Some?
    ensures name in View(files) ==> View(files)[name] == files[ResolveReadPath(files, name).value]
  {
    NamesMeans(files, name);
  }

  lemma StepKeepsOneFileEach(files: Files, op: Op)
    requires OneFileEach(files)
    ensures OneFileEach(Step(files, op).0)
  {
    hide IsSlug;
    var files' := Step(files, op).0;
    var name := if op.Create? then op.params.name else op.name;
    forall n ensures !HasBoth(files', n) {
      FilesDiffer(n, name);
      FilesDiffer(name, n);
      assert !HasBoth(files, n);
    }
  }

  // ----- Runs -----

  function Run(files: Files, ops: seq<Op>): (Files, seq<Response>)
    decreases |ops|
  {
    if ops == [] then (files, [])
    else
      var (files', response) := Step(files, ops[0]);
      var (end, responses) := Run(files', ops[1..]);
      (end, [response] + responses)
  }

  function MapRun(m: map<string, Entry>, ops: seq<Op>): (map<string, Entry>, seq<Response>)
    decreases |ops|
  {
    if ops == [] then (m, [])
    else
      var (m', response) := MapStep(m, ops[0]);
      var (end, responses) := MapRun(m', ops[1..]);
      (end, [response] + responses)
  }

  /** Started with at most one file a name, the store keeps that, and over any
      run is a map: the same responses, and the map's content in the end. */
  lemma {:induction false} StoreIsAMap(files: Files, ops: seq<Op>)
    requires OneFileEach(files)
    ensures OneFileEach(Run(files, ops).0)
    ensures (View(Run(files, ops).0), Run(files, ops).1) == MapRun(View(files), ops)
    decreases |ops|
  {
    hide Step, MapStep, View, HasBoth;
    if ops != [] {
      StepIsMapStepIff(files, ops[0]);
      StepKeepsOneFileEach(files, ops[0]);
      if ops[0].Delete? { assert !HasBoth(files, ops[0].name); }
      StoreIsAMap(Step(files, ops[0]).0, ops[1..]);
    }
  }

  /** With both files a deleted provider is back, as the older file has it. */
  lemma DeleteCanResurface(name: string, newer: Config, older: Config)
    ensures var files := map[YamlFile(name) := Stored(newer), YmlFile(name) := Stored(older)];
            && Step(files, Get(name)).1 == Given(newer)
            && Step(files, Delete(name)).1 == Done
            && Step(Step(files, Delete(name)).0, Get(name)).1 == Given(older)
  {
    FilesDiffer(name, name);
  }

  /** Why an operation fails: the name, then the type, then a file of either
      kind that is there or is not, then one that cannot be read.  A failed
      operation changes nothing. */
  lemma FailsIff(files: Files, op: Op)
    ensures var (files', response) := Step(files, op);
            var name := if op.Create? then op.params.name else op.name;
            var there := YamlFile(name) in files || YmlFile(name) in files;
            && (response == Failed(InvalidName) <==> op.Create? && !IsSlug(name))
            && (response == Failed(UnsupportedType) <==>
                  op.Create? && IsSlug(name) && op.params.kind != "openai-compatible")
            && (response == Failed(NameConflict) <==>
                  op.Create? && IsSlug(name) && op.params.kind == "openai-compatible" && there)
            && (response == Failed(NotFound) <==> !op.Create? && !there)
            && (response == Failed(Unparseable) <==>
                  (op.Get? || op.Update?) && there
                  && files[if YamlFile(name) in files then YamlFile(name) else YmlFile(name)].Broken?)
            && (response.Failed? ==> files' == files)
  {
    hide IsSlug;
  }

  /** A created provider is read back with what it was created with. */
  lemma CreatedIsRead(files: Files, params: CreateParams, now: int)
    ensures var (files', response) := Step(files, Create(params, now));
            response.Given? ==>
              && Step(files', Get(params.name)).1 == response
              && var c := response.config;
                 c.name == params.name && c.kind == params.kind && c.displayName == params.displayName
                 && c.baseUrl == params.baseUrl && c.apiKey == params.apiKey && c.models == params.models
                 && c.createdAt == now && c.updatedAt == now
  {
    hide IsSlug;
  }

  /** An update changes what can be changed: an empty key keeps the old one,
      and name, type and creation time stay.  The older file goes only if it
      was the one that stood for the name; other files are as before. */
  lemma UpdatedIsRead(files: Files, name: string, changes: UpdateParams, now: int)
    requires Lookup(files, name).Ok?
    ensures var (files', response) := Step(files, Update(name, changes, now));
            && response.Given? && Step(files', Get(name)).1 == response
            && var was, c := Lookup(files, name).value, response.config;
               c.name == was.name && c.kind == was.kind && c.createdAt == was.createdAt
               && c.displayName == changes.displayName && c.baseUrl == changes.baseUrl && c.models == changes.models
               && c.apiKey == (if changes.apiKey == "" then was.apiKey else changes.apiKey) && c.updatedAt == now
    ensures var files' := Step(files, Update(name, changes, now)).0;
            && (YmlFile(name) in files' <==> YmlFile(name) in files && YamlFile(name) in files)
            && forall f :: f != YamlFile(name) && f in files' ==> f in files && files'[f] == files[f]
  {
    FilesDiffer(name, name);
  }

  /** The key after a run of updates: the last one given. */
  function LastKey(key: string, ops: seq<Op>, name: string): string
    decreases |ops|
  {
    if ops == [] then key
    else
      var op := ops[0];
      LastKey(if op.Update? && op.name == name && op.changes.apiKey != "" then op.changes.apiKey else key,
              ops[1..], name)
  }

  /** While it is not deleted, a provider keeps its creation time, name and
      type, and the last API key that an update gave. */
  lemma {:induction false} IdentityOverRuns(files: Files, ops: seq<Op>, name: string)
    requires Lookup(files, name).Ok? && Delete(name) !in ops
    ensures Lookup(Run(files, ops).0, name).Ok?
    ensures var before, after := Lookup(files, name).value, Lookup(Run(files, ops).0, name).value;
            && after.createdAt == before.createdAt && after.name == before.name && after.kind == before.kind
            && after.apiKey == LastKey(before.apiKey, ops, name)
    decreases |ops|
  {
    hide Step, Lookup;
    if ops != [] {
      StepKeepsIdentity(files, ops[0], name);
      assert ops[0] in ops && forall op :: op in ops[1..] ==> op in ops;
      IdentityOverRuns(Step(files, ops[0]).0, ops[1..], name);
    }
  }

  lemma StepKeepsIdentity(files: Files, op: Op, name: string)
    requires Lookup(files, name).Ok? && op != Delete(name)
    ensures Lookup(Step(files, op).0, name).Ok?
    ensures var before, after := Lookup(files, name).value, Lookup(Step(files, op).0, name).value;
            && after.createdAt == before.createdAt && after.name == before.name && after.kind == before.kind
            && after.apiKey == LastKey(before.apiKey, [op], name)
  {
    hide IsSlug;
    var touched := if op.Create? then op.params.name else op.name;
    FilesDiffer(name, touched);
    FilesDiffer(touched, name);
    assert [op][1..] == [];
  }
}
