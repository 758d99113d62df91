/** The provider file store as the source writes it: methods that change files
    in place
    (runtime/internal/llmproviders/file_providers_config_service.go), proved
    against the steps of ProviderFiles. */
module ProviderStore {
  import opened Wrappers
  import opened Text
  import opened ProviderFiles

  predicate OldestFirst(configs: seq<Config>) {
    forall j, k :: 0 <= j < k < |configs| ==> configs[j].createdAt <= configs[k].createdAt
  }

  /** The k-th configuration is what the k-th name looks up. */
  ghost predicate Agree(files: Files, names: seq<string>, configs: seq<Config>) {
    |names| == |configs| && forall k :: 0 <= k < |names| ==> Lookup(files, names[k]) == Ok(configs[k])
  }

  /** Each of the names once. */
  ghost predicate Enumerates(names: seq<string>, all: set<string>) {
    && (forall name :: name in names <==> name in all)
    && forall j, k :: 0 <= j < k < |names| ==> names[j] != names[k]
  }

  class FileProvidersConfigService {
    var files: Files

    constructor (files: Files)
      ensures this.files == files
    {
      this.files := files;
    }

    method GetConfig(name: string) returns (r: Result<Config, ProviderError>)
      ensures r == Lookup(files, name)
    {
      var path := ResolveReadPath(files, name);
      if path.None? { return Err(NotFound); }
      r := Read(files, path.value);
    }

    method CreateConfig(params: CreateParams, now: int) returns (r: Result<Config, ProviderError>)
      modifies this
      ensures (files, ResponseOf(r)) == Step(old(files), Create(params, now))
    {
      hide IsSlug;
      if !IsSlug(params.name) { return Err(InvalidName); }
      if params.kind != OPENAI_COMPATIBLE { return Err(UnsupportedType); }
      var path := YamlFile(params.name);
      if path in files { return Err(NameConflict); }
      if YmlFile(params.name) in files { return Err(NameConflict); }
      var config := Config(params.name, params.kind, params.displayName, params.baseUrl, params.apiKey,
                           params.models, now, now);
      files := files[path := Stored(config)];
      r := Ok(config);
    }

    /** Writes name.yaml, then removes the name.yml it was read from. */
    method UpdateConfig(name: string, changes: UpdateParams, now: int) returns (r: Result<Config, ProviderError>)
      modifies this
      ensures (files, ResponseOf(r)) == Step(old(files), Update(name, changes, now))
    {
      FilesDiffer(name, name);
      var readPath := ResolveReadPath(files, name);
      if readPath.None? { return Err(NotFound); }
      var existing := Read(files, readPath.value);
      if existing.Err? { return Err(existing.error); }
      var writePath := YamlFile(name);
      var config := existing.value.(displayName := changes.displayName, baseUrl := changes.baseUrl);
      if changes.apiKey != "" { config := config.(apiKey := changes.apiKey); }
      config := config.(models := changes.models, updatedAt := now);
      files := files[writePath := Stored(config)];
      assert YmlFile(name)[|name|..] == ".yml";
      if readPath.value != writePath && HasSuffix(readPath.value, ".yml") {
        files := files - {readPath.value};
      }
      r := Ok(config);
    }

    method DeleteConfig(name: string) returns (error: Option<ProviderError>)
      modifies this
      ensures (files, match error case None => Done case Some(e) => Failed(e)) == Step(old(files), Delete(name))
    {
      var path := ResolveReadPath(files, name);
      if path.None? { return Some(NotFound); }
      files := files - {path.value};
      error := None;
    }

    /** Every provider once, oldest first, each as a lookup by its name gives
        it; one broken file that a lookup would read fails the whole list. */
    method List() returns (r: Result<seq<Config>, ProviderError>, ghost names: seq<string>)
      ensures r.Ok? ==> Enumerates(names, Names(files)) && Agree(files, names, r.value) && OldestFirst(r.value)
      ensures r.Ok? <==> forall name :: name in Names(files) ==> Lookup(files, name).Ok?
    {
      var yamlByStem, ymlByStem := Stems();
      var paths;
      paths, names := PathsOf(yamlByStem, ymlByStem);
      var configs: seq<Config> := [];
      var i := 0;
      while i < |paths|
        invariant 0 <= i <= |paths| && |configs| == i
        invariant forall k :: 0 <= k < i ==> Lookup(files, names[k]) == Ok(configs[k])
      {
        assert names[i] in Names(files);
        var config := Read(files, paths[i]);
        if config.Err? { return Err(config.error), names; }
        configs := configs + [config.value];
        i := i + 1;
      }
      forall name | name in Names(files) ensures Lookup(files, name).Ok? {
        assert name in names;
      }
      configs, names := SortByCreatedAt(configs, names, files);
      r := Ok(configs);
    }

    /** The directory's stems, by extension. */
    method Stems() returns (yamlByStem: map<string, string>, ymlByStem: map<string, string>)
      ensures forall name :: name in yamlByStem <==> YamlFile(name) in files
      ensures forall name :: name in ymlByStem <==> YmlFile(name) in files
      ensures forall name :: name in yamlByStem ==> yamlByStem[name] == YamlFile(name)
      ensures forall name :: name in ymlByStem ==> ymlByStem[name] == YmlFile(name)
    {
      hide HasSuffix, StemOf;
      yamlByStem, ymlByStem := map[], map[];
      var rest := files.Keys;
      ghost var seen: set<string> := {};
      while rest != {}
        invariant seen + rest == files.Keys && seen !! rest
        invariant forall name :: name in yamlByStem <==> YamlFile(name) in seen
        invariant forall name :: name in ymlByStem <==> YmlFile(name) in seen
        invariant forall name :: name in yamlByStem ==> yamlByStem[name] == YamlFile(name)
        invariant forall name :: name in ymlByStem ==> ymlByStem[name] == YmlFile(name)
        decreases rest
      {
        var file :| file in rest;
        var stem := StemOf(file);
        forall name ensures (file == YamlFile(name) || file == YmlFile(name)) <==> stem == Some(name) {
          StemMeans(file, name);
        }
        if stem.Some? {
          StemMeans(file, stem.value);
          FilesDiffer(stem.value, stem.value);
          if HasSuffix(file, ".yaml") {
            yamlByStem := yamlByStem[stem.value := file];
          } else {
            ymlByStem := ymlByStem[stem.value := file];
          }
        }
        seen, rest := seen + {file}, rest - {file};
      }
    }

    /** One path a name, .yaml before .yml. */
    method PathsOf(yamlByStem: map<string, string>, ymlByStem: map<string, string>)
      returns (paths: seq<string>, ghost names: seq<string>)
      requires forall name :: name in yamlByStem <==> YamlFile(name) in files
      requires forall name :: name in ymlByStem <==> YmlFile(name) in files
      requires forall name :: name in yamlByStem ==> yamlByStem[name] == YamlFile(name)
      requires forall name :: name in ymlByStem ==> ymlByStem[name] == YmlFile(name)
      ensures Enumerates(names, Names(files)) && |paths| == |names|
      ensures forall k :: 0 <= k < |names| ==> ResolveReadPath(files, names[k]) == Some(paths[k])
    {
      paths, names := [], [];
      var rest := yamlByStem.Keys;
      while rest != {}
        invariant rest <= yamlByStem.Keys && |paths| == |names|
        invariant Enumerates(names, yamlByStem.Keys - rest)
        invariant forall k :: 0 <= k < |names| ==> ResolveReadPath(files, names[k]) == Some(paths[k])
        decreases rest
      {
        var stem :| stem in rest;
        OneMore(names, yamlByStem.Keys - rest, stem);
        paths, names := paths + [yamlByStem[stem]], names + [stem];
        rest := rest - {stem};
        assert yamlByStem.Keys - rest == (yamlByStem.Keys - (rest + {stem})) + {stem};
      }
      assert yamlByStem.Keys - rest == yamlByStem.Keys;
      var more := ymlByStem.Keys;
      while more != {}
        invariant more <= ymlByStem.Keys && |paths| == |names|
        invariant Enumerates(names, yamlByStem.Keys + (ymlByStem.Keys - more))
        invariant forall k :: 0 <= k < |names| ==> ResolveReadPath(files, names[k]) == Some(paths[k])
        decreases more
      {
        var stem :| stem in more;
        ghost var before := yamlByStem.Keys + (ymlByStem.Keys - more);
        more := more - {stem};
        assert yamlByStem.Keys + (ymlByStem.Keys - more) == before + {stem};
        if stem in yamlByStem {
          assert before + {stem} == before;
        } else {
          OneMore(names, before, stem);
          paths, names := paths + [ymlByStem[stem]], names + [stem];
        }
      }
      assert yamlByStem.Keys + (ymlByStem.Keys - more) == Names(files) by {
        forall name ensures name in Names(files) <==> name in yamlByStem || name in ymlByStem {
          NamesMeans(files, name);
        }
      }
    }
  }

  function ResponseOf(r: Result<Config, ProviderError>): Response {
    match r case Ok(config) => Given(config) case Err(e) => Failed(e)
  }

  function Elements(names: seq<string>): set<string> {
    set name | name in names
  }

  lemma OneMore(names: seq<string>, all: set<string>, name: string)
    requires Enumerates(names, all) && name !in all
    ensures Enumerates(names + [name], all + {name})
  {
  }

  /** Sorting by insertion stands for the library's sort, which like this
      promises a sorted rearrangement. */
  method SortByCreatedAt(configs: seq<Config>, ghost names: seq<string>, ghost files: Files)
    returns (sorted: seq<Config>, ghost sortedNames: seq<string>)
    requires Agree(files, names, configs) && Enumerates(names, Names(files))
    ensures Agree(files, sortedNames, sorted) && Enumerates(sortedNames, Names(files)) && OldestFirst(sorted)
  {
    sorted, sortedNames := [], [];
    var i := 0;
    while i < |configs|
      invariant 0 <= i <= |configs| && OldestFirst(sorted) && Agree(files, sortedNames, sorted)
      invariant Enumerates(sortedNames, Elements(names[..i]))
    {
      var at := InsertionPoint(sorted, configs[i].createdAt);
      ghost var done := Elements(names[..i]);
      assert names[..i + 1] == names[..i] + [names[i]];
      assert names[i] !in done;
      InsertOne(sortedNames, done, names[i], at);
      sorted := sorted[..at] + [configs[i]] + sorted[at..];
      sortedNames := sortedNames[..at] + [names[i]] + sortedNames[at..];
      assert Elements(names[..i + 1]) == done + {names[i]};
      i := i + 1;
    }
    assert names[..i] == names;
    assert Elements(names) == Names(files);
  }

  method InsertionPoint(sorted: seq<Config>, createdAt: int) returns (at: nat)
    requires OldestFirst(sorted)
    ensures at <= |sorted|
    ensures forall k :: 0 <= k < at ==> sorted[k].createdAt <= createdAt
    ensures forall k :: at <= k < |sorted| ==> createdAt <= sorted[k].createdAt
  {
    at := |sorted|;
    while at > 0 && sorted[at - 1].createdAt > createdAt
      invariant at <= |sorted| && forall k :: at <= k < |sorted| ==> createdAt <= sorted[k].createdAt
    {
      at := at - 1;
    }
  }

  lemma InsertOne(names: seq<string>, all: set<string>, name: string, at: nat)
    requires Enumerates(names, all) && name !in all && at <= |names|
    ensures Enumerates(names[..at] + [name] + names[at..], all + {name})
  {
    var longer := names[..at] + [name] + names[at..];
    forall n ensures n in longer <==> n in all + {name} {
      assert names == names[..at] + names[at..];
    }
    forall j, k | 0 <= j < k < |longer| ensures longer[j] != longer[k] {
      assert names[..at] + names[at..] == names;
    }
  }
}
