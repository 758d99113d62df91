/** Profiles as Markdown files with YAML front matter
    (runtime/internal/agentprofiles/file_agent_profiles_service.go). */
module ProfileMarkdown {
  import opened Wrappers
  import opened Text
  import opened AgentProfiles

  // ----- Front matter -----

  datatype ExecutionFrontmatter = ExecutionFrontmatter(
    mode: string, defaultModel: string, agentCommand: Option<AgentCommand>, cwd: string)

  datatype Frontmatter = Frontmatter(
    name: string, displayName: string, role: string, model: string, tools: seq<string>,
    execution: Option<ExecutionFrontmatter>)

  /** The YAML library. */
  datatype Yaml = Yaml(encode: Frontmatter -> string, decode: string -> Option<Frontmatter>)

  /** Decoding what was written, blanks trimmed, gives it back, and no line of
      it begins with the delimiter. */
  ghost predicate ExactOn(yaml: Yaml, f: Frontmatter) {
    var text := TrimSpace(yaml.encode(f));
    yaml.decode(text) == Some(f) && forall k :: 0 <= k < |text| && text[k] == '\n' ==> !("---" <= text[k + 1..])
  }

  // ----- The delimiters -----

  /** ^---[ \t]*\r?\n(.*?)\r?\n---[ \t]*\r?\n?(.*)$ with . for any
      character: the parts in parentheses. */
  function MatchMarkdown(text: string): Option<(string, string)> {
    if !("---" <= text) then None
    else
      match DropNewline(DropBlanks(text[3..]))
      case None => None
      case Some(rest) =>
        match FindCloser(rest, 0)
        case None => None
        case Some(k) =>
          var after := DropBlanks(rest[k + CloserLength(rest[k..])..]);
          Some((rest[..k], DropOptionalNewline(after)))
  }

  function DropBlanks(s: string): string {
    if s != "" && (s[0] == ' ' || s[0] == '\t') then DropBlanks(s[1..]) else s
  }

  function DropNewline(s: string): Option<string> {
    if "\r\n" <= s then Some(s[2..]) else if "\n" <= s then Some(s[1..]) else None
  }

  /** \r?\n?, each taken when it is there. */
  function DropOptionalNewline(s: string): string {
    var t := if "\r" <= s then s[1..] else s;
    if "\n" <= t then t[1..] else t
  }

  predicate IsCloser(s: string) {
    "\r\n---" <= s || "\n---" <= s
  }

  function CloserLength(s: string): (n: nat)
    requires IsCloser(s)
    ensures n <= |s|
  {
    if "\r\n---" <= s then 5 else 4
  }

  /** The first place from `k` on where a closing delimiter begins. */
  function FindCloser(s: string, k: nat): (r: Option<nat>)
    requires k <= |s|
    ensures r.Some? ==> k <= r.value <= |s| && IsCloser(s[r.value..])
    ensures r.Some? ==> forall j :: k <= j < r.value ==> !IsCloser(s[j..])
    ensures r.None? ==> forall j :: k <= j <= |s| ==> !IsCloser(s[j..])
    decreases |s| - k
  {
    if IsCloser(s[k..]) then Some(k) else if k == |s| then None else FindCloser(s, k + 1)
  }

  // ----- Reading -----

  datatype ReadError =
    | NoFrontmatter
    | BadYaml
    | MissingName
    | MissingRole
    | MissingModel
    | MissingInstructions
    | NameMismatch
    | Invalid(error: ProfileError)

  function ExecutionRead(f: Frontmatter): ExecutionSettings {
    match f.execution
    case None => ExecutionSettings("", f.model, AgentCommand("", []), "")
    case Some(e) =>
      ExecutionSettings(e.mode, e.defaultModel, e.agentCommand.UnwrapOr(AgentCommand("", [])), e.cwd)
  }

  /** `stem` is the file's name without .md. */
  function ParseProfileMarkdown(yaml: Yaml, stem: string, text: string): Result<Profile, ReadError> {
    match MatchMarkdown(text)
    case None => Err(NoFrontmatter)
    case Some((front, body)) =>
      match yaml.decode(front)
      case None => Err(BadYaml)
      case Some(f) =>
        if TrimSpace(f.name) == "" then Err(MissingName)
        else if TrimSpace(f.role) == "" then Err(MissingRole)
        else if TrimSpace(f.model) == "" && f.execution.None? then Err(MissingModel)
        else if TrimSpace(body) == "" then Err(MissingInstructions)
        else if TrimSpace(f.name) != stem then Err(NameMismatch)
        else
          match Normalized(Profile(f.name, f.displayName, f.role, TrimSpace(body), f.tools, ExecutionRead(f)))
          case Err(e) => Err(Invalid(e))
          case Ok(p) => Ok(p)
  }

  predicate IsBlanks(s: string) {
    forall k :: 0 <= k < |s| ==> s[k] == ' ' || s[k] == '\t'
  }

  predicate IsNewline(s: string) {
    s == "\n" || s == "\r\n"
  }

  /** The line with the opening delimiter, and the rest. */
  ghost predicate OpensWith(text: string, rest: string) {
    exists blanks, n :: IsBlanks(blanks) && IsNewline(n) && text == "---" + (blanks + (n + rest))
  }

  /** The line with the closing delimiter, and the body. */
  ghost predicate ClosesWith(text: string, body: string) {
    exists n, blanks, end ::
      IsNewline(n) && IsBlanks(blanks) && IsLineEnd(end) && text == n + "---" + (blanks + (end + body))
  }

  predicate IsLineEnd(s: string) {
    s == "" || s == "\n" || s == "\r" || s == "\r\n"
  }

  lemma {:induction false} BlanksDropped(s: string)
    ensures |DropBlanks(s)| <= |s| && DropBlanks(s) == s[|s| - |DropBlanks(s)|..]
    ensures IsBlanks(s[..|s| - |DropBlanks(s)|])
    decreases |s|
  {
    if s != "" && (s[0] == ' ' || s[0] == '\t') {
      BlanksDropped(s[1..]);
      var n := |s[1..]| - |DropBlanks(s[1..])|;
      assert s[..n + 1] == [s[0]] + s[1..][..n];
    }
  }

  lemma NewlineDropped(s: string)
    ensures DropNewline(s).Some? ==> exists n :: IsNewline(n) && s == n + DropNewline(s).value
  {
    if "\r\n" <= s {
      assert s == "\r\n" + s[2..] && IsNewline("\r\n");
    } else if "\n" <= s {
      assert s == "\n" + s[1..] && IsNewline("\n");
    }
  }

  lemma OptionalNewlineDropped(s: string) returns (end: string)
    ensures IsLineEnd(end) && s == end + DropOptionalNewline(s)
  {
    var t := if "\r" <= s then s[1..] else s;
    end := (if "\r" <= s then "\r" else "") + (if "\n" <= t then "\n" else "");
    assert s == (if "\r" <= s then "\r" else "") + t;
    assert t == (if "\n" <= t then "\n" else "") + DropOptionalNewline(s);
  }

  lemma CloserFound(s: string) returns (n: string)
    requires IsCloser(s)
    ensures IsNewline(n) && s == n + "---" + s[CloserLength(s)..]
  {
    n := s[..CloserLength(s) - 3];
    if "\r\n---" <= s {
      assert s[..5] == "\r\n---" && n == "\r\n";
    } else {
      assert s[..4] == "\n---" && n == "\n";
    }
  }

  lemma OpeningFound(text: string)
    requires "---" <= text && DropNewline(DropBlanks(text[3..])).Some?
    ensures OpensWith(text, DropNewline(DropBlanks(text[3..])).value)
  {
    hide DropBlanks, DropNewline, IsBlanks, IsNewline;
    var line := text[3..];
    var end := DropBlanks(line);
    BlanksDropped(line);
    var blanks := line[..|line| - |end|];
    NewlineDropped(end);
    var n :| IsNewline(n) && end == n + DropNewline(end).value;
    assert line == blanks + end && text == "---" + line;
  }

  lemma ClosingFound(text: string)
    requires IsCloser(text)
    ensures ClosesWith(text, DropOptionalNewline(DropBlanks(text[CloserLength(text)..])))
  {
    hide DropBlanks, DropOptionalNewline, CloserLength, IsCloser, IsBlanks, IsNewline, IsLineEnd;
    var n := CloserFound(text);
    var line := text[CloserLength(text)..];
    var end := DropBlanks(line);
    BlanksDropped(line);
    var blanks := line[..|line| - |end|];
    var newline := OptionalNewlineDropped(end);
    assert line == blanks + end;
  }

  /** What the pattern matches is front matter between the delimiters, closed
      at the first place where it can be, and the body. */
  lemma MatchIsDelimited(text: string)
    requires MatchMarkdown(text).Some?
    ensures var (front, body) := MatchMarkdown(text).value;
            exists rest :: OpensWith(text, rest) && front <= rest && ClosesWith(rest[|front|..], body)
                           && forall k :: 0 <= k < |front| ==> !IsCloser(rest[k..])
  {
    hide DropBlanks, DropNewline, DropOptionalNewline, FindCloser, CloserLength, IsCloser, OpensWith, ClosesWith;
    OpeningFound(text);
    var rest := DropNewline(DropBlanks(text[3..])).value;
    var k := FindCloser(rest, 0).value;
    ClosingFound(rest[k..]);
    assert rest[k..][CloserLength(rest[k..])..] == rest[k + CloserLength(rest[k..])..];
  }

  /** A closing delimiter begins here. */
  ghost predicate ClosesAt(text: string, k: int) {
    0 <= k <= |text| && exists n :: IsNewline(n) && n + "---" <= text[k..]
  }

  lemma CloserIff(text: string, k: nat)
    requires k <= |text|
    ensures IsCloser(text[k..]) <==> ClosesAt(text, k)
  {
    if IsCloser(text[k..]) {
      var n := if "\r\n---" <= text[k..] then "\r\n" else "\n";
      assert IsNewline(n) && n + "---" <= text[k..];
    }
  }

  lemma {:induction false} BlanksThenNewline(blanks: string, n: string, rest: string)
    requires IsBlanks(blanks) && IsNewline(n)
    ensures DropBlanks(blanks + (n + rest)) == n + rest && DropNewline(n + rest) == Some(rest)
    decreases |blanks|
  {
    var s := blanks + (n + rest);
    if blanks == "" {
      assert s == n + rest && (n + rest)[|n|..] == rest;
    } else {
      assert s[1..] == blanks[1..] + (n + rest);
      BlanksThenNewline(blanks[1..], n, rest);
    }
  }

  /** The pattern matches exactly the texts with an opening delimiter line and,
      somewhere after it, a closing delimiter at the start of a line; the front
      matter ends at the first such place. */
  lemma MatchesIff(text: string)
    ensures MatchMarkdown(text).Some? <==> exists rest, k :: OpensWith(text, rest) && ClosesAt(rest, k)
    ensures forall rest, k :: OpensWith(text, rest) && ClosesAt(rest, k)
                              && (forall j :: 0 <= j < k ==> !ClosesAt(rest, j)) ==>
              MatchMarkdown(text).Some? && MatchMarkdown(text).value.0 == rest[..k]
  {
    hide DropBlanks, DropNewline, DropOptionalNewline, CloserLength, IsCloser, OpensWith, ClosesAt, FindCloser;
    if MatchMarkdown(text).Some? {
      OpeningFound(text);
      var rest := DropNewline(DropBlanks(text[3..])).value;
      CloserIff(rest, FindCloser(rest, 0).value);
    }
    forall rest, k | ClosesAt(rest, k) ensures 0 <= k <= |rest| {
      ClosesWithin(rest, k);
    }
    forall rest, k | OpensWith(text, rest) && ClosesAt(rest, k)
      ensures MatchMarkdown(text).Some?
      ensures (forall j :: 0 <= j < k ==> !ClosesAt(rest, j)) ==> MatchMarkdown(text).value.0 == rest[..k]
    {
      OpensUniquely(text, rest);
      var found := FindCloser(rest, 0);
      CloserIff(rest, k);
      if found.Some? {
        CloserIff(rest, found.value);
      }
    }
  }

  lemma ClosesWithin(text: string, k: int)
    requires ClosesAt(text, k)
    ensures 0 <= k <= |text|
  {
  }

  lemma OpensUniquely(text: string, rest: string)
    requires OpensWith(text, rest)
    ensures "---" <= text && DropNewline(DropBlanks(text[3..])) == Some(rest)
  {
    hide DropBlanks, DropNewline, IsBlanks, IsNewline;
    var blanks, n :| IsBlanks(blanks) && IsNewline(n) && text == "---" + (blanks + (n + rest));
    assert text[3..] == blanks + (n + rest);
    BlanksThenNewline(blanks, n, rest);
  }

  /** The faults of a file, in the order in which they are looked for; what
      passes them all is the profile's normal form. */
  lemma ReadFaults(yaml: Yaml, stem: string, text: string)
    ensures var r := ParseProfileMarkdown(yaml, stem, text);
            if MatchMarkdown(text).None? then r == Err(NoFrontmatter)
            else
              var (front, body) := MatchMarkdown(text).value;
              if yaml.decode(front).None? then r == Err(BadYaml)
              else
                var f := yaml.decode(front).value;
                && (r == Err(MissingName) <==> IsBlankText(f.name))
                && (r == Err(MissingRole) <==> !IsBlankText(f.name) && IsBlankText(f.role))
                && (IsBlankText(f.name) || IsBlankText(f.role) ==> r.Err?)
                && (!IsBlankText(f.name) && !IsBlankText(f.role) ==>
                      && (r == Err(MissingModel) <==> IsBlankText(f.model) && f.execution.None?)
                      && (!(IsBlankText(f.model) && f.execution.None?) ==>
                            && (r == Err(MissingInstructions) <==> IsBlankText(body))
                            && (!IsBlankText(body) ==> (r == Err(NameMismatch) <==> TrimSpace(f.name) != stem))
                            && (!IsBlankText(body) && TrimSpace(f.name) == stem ==>
                                  (r.Ok? <==> IsNormal(ProfileRead(f, body)))
                                  && (r.Ok? ==> r.value == ProfileRead(f, body)))))
  {
    hide TrimSpace, MatchMarkdown, Normalized, TrimmedProfile, IsNormal, IsSpace;
    if MatchMarkdown(text).Some? {
      var (front, body) := MatchMarkdown(text).value;
      if yaml.decode(front).Some? {
        var f := yaml.decode(front).value;
        TrimSpaceEmptyIff(f.name);
        TrimSpaceEmptyIff(f.role);
        TrimSpaceEmptyIff(f.model);
        TrimSpaceEmptyIff(body);
        NormalizedIsTrimmed(Profile(f.name, f.displayName, f.role, TrimSpace(body), f.tools, ExecutionRead(f)));
      }
    }
  }

  /** The trimmed profile that a file's two parts describe. */
  function ProfileRead(f: Frontmatter, body: string): Profile {
    TrimmedProfile(Profile(f.name, f.displayName, f.role, TrimSpace(body), f.tools, ExecutionRead(f)))
  }

  // ----- Writing -----

  function ExecutionWritten(s: ExecutionSettings): Option<ExecutionFrontmatter> {
    if ModeOrDefault(s.mode) == REGULAR then
      if s.mode == "" then None else Some(ExecutionFrontmatter(s.mode, s.defaultModel, None, ""))
    else if ModeOrDefault(s.mode) == ACP_STDIO then
      Some(ExecutionFrontmatter(s.mode, "", Some(s.agentCommand), s.cwd))
    else None
  }

  function FrontmatterOf(p: Profile): Frontmatter {
    Frontmatter(p.name, p.displayName, p.role, if p.execution.mode == "" then p.execution.defaultModel else "",
                p.toolRefs, ExecutionWritten(p.execution))
  }

  function Written(yaml: Yaml, p: Profile): string {
    "---\n" + (TrimSpace(yaml.encode(FrontmatterOf(p))) + ("\n---\n" + (TrimSpace(p.instructions) + "\n")))
  }

  /** Fills the buffer that becomes the file. */
  method WriteProfileFile(yaml: Yaml, p: Profile) returns (markdown: string)
    ensures markdown == Written(yaml, p)
  {
    hide TrimSpace;
    var frontmatter := Frontmatter(p.name, p.displayName, p.role, "", p.toolRefs, None);
    var mode := ModeOrDefault(p.execution.mode);
    if mode == REGULAR {
      if p.execution.mode == "" {
        frontmatter := frontmatter.(model := p.execution.defaultModel);
      } else {
        frontmatter := frontmatter.(
          execution := Some(ExecutionFrontmatter(p.execution.mode, p.execution.defaultModel, None, "")));
      }
    } else if mode == ACP_STDIO {
      frontmatter := frontmatter.(
        execution := Some(ExecutionFrontmatter(p.execution.mode, "", Some(p.execution.agentCommand), p.execution.cwd)));
    }
    ModesAreTrimmed();
    TrimmedIsFixed("");
    assert frontmatter == FrontmatterOf(p);
    var front, instructions := TrimSpace(yaml.encode(frontmatter)), TrimSpace(p.instructions);
    markdown := "---";
    markdown := markdown + "\n";
    markdown := markdown + front;
    markdown := markdown + "\n";
    markdown := markdown + "---";
    markdown := markdown + "\n";
    markdown := markdown + instructions;
    markdown := markdown + "\n";
    assert markdown == "---\n" + (front + ("\n---\n" + (instructions + "\n")));
  }

  /** What is written of a normal profile besides its instructions: in regular
      mode the model, in a block with the mode only if that is named; otherwise
      a block with mode, command and directory. */
  lemma FrontmatterHas(p: Profile)
    requires IsNormal(p)
    ensures var f := FrontmatterOf(p);
            && f.name == p.name && f.displayName == p.displayName && f.role == p.role && f.tools == p.toolRefs
            && (p.execution.mode == "" ==> f.model == p.execution.defaultModel && f.execution.None?)
            && (p.execution.mode != "" ==> f.model == "" && f.execution.Some?)
            && (p.execution.mode == "regular" ==>
                  f.execution == Some(ExecutionFrontmatter("regular", p.execution.defaultModel, None, "")))
            && (p.execution.mode == "acp-stdio" ==>
                  f.execution == Some(ExecutionFrontmatter("acp-stdio", "", Some(p.execution.agentCommand),
                                                           p.execution.cwd)))
  {
    hide TrimSpace, IsSlug, IsSpace;
    ModesAreTrimmed();
    TrimmedIsFixed("");
    TrimmedIsFixed(REGULAR);
    TrimmedIsFixed(ACP_STDIO);
  }

  // ----- Round trip -----

  /** What reading makes of the command of a regular profile. */
  function CommandDropped(p: Profile): Profile {
    if p.execution.mode == ACP_STDIO then p
    else p.(execution := p.execution.(agentCommand := p.execution.agentCommand.(command := "")))
  }

  lemma OpensWhatFollows(rest: string)
    ensures "---" <= "---\n" + rest && DropNewline(DropBlanks(("---\n" + rest)[3..])) == Some(rest)
  {
    var line := "\n" + rest;
    assert ("---\n" + rest)[3..] == line;
    assert line[0] == '\n' && line[1..] == rest;
  }

  lemma ClosesAfter(front: string, body: string)
    requires Trimmed(front)
    requires forall k :: 0 <= k < |front| && front[k] == '\n' ==> !("---" <= front[k + 1..])
    ensures var rest := front + ("\n---\n" + body);
            && FindCloser(rest, 0) == Some(|front|)
            && CloserLength(rest[|front|..]) == 4 && rest[|front| + 4..] == "\n" + body
  {
    hide Trimmed;
    var rest := front + ("\n---\n" + body);
    var tail := rest[|front|..];
    assert tail == "\n---\n" + body;
    assert tail[..4] == "\n---" && tail[4..] == "\n" + body && tail[0] == '\n';
    assert IsCloser(tail) && CloserLength(tail) == 4;
    forall k | 0 <= k < |front| ensures !IsCloser(rest[k..]) {
      NoCloserInside(front, "\n---\n" + body, k);
    }
  }

  /** The parts written are the parts matched. */
  lemma MatchesWhatWasWritten(front: string, body: string)
    requires Trimmed(front)
    requires forall k :: 0 <= k < |front| && front[k] == '\n' ==> !("---" <= front[k + 1..])
    ensures MatchMarkdown("---\n" + (front + ("\n---\n" + body))) == Some((front, body))
  {
    hide Trimmed, IsCloser, FindCloser, CloserLength, DropNewline;
    var rest := front + ("\n---\n" + body);
    OpensWhatFollows(rest);
    ClosesAfter(front, body);
    assert ("\n" + body)[1..] == body && ("\n" + body)[0] == '\n';
    assert rest[..|front|] == front;
  }

  lemma NoCloserInside(front: string, tail: string, k: nat)
    requires Trimmed(front) && k < |front| && |tail| >= 4 && tail[..4] == "\n---"
    requires forall j :: 0 <= j < |front| && front[j] == '\n' ==> !("---" <= front[j + 1..])
    ensures !IsCloser((front + tail)[k..])
  {
    var rest := (front + tail)[k..];
    if "\n---" <= rest { NoNewlineCloser(front, tail, k); }
    if "\r\n---" <= rest {
      assert rest[0] == front[k] == '\r';
      assert k + 1 < |front|;
      assert (front + tail)[k + 1..] == rest[1..];
      assert "\r\n---"[1..] == "\n---";
      NoNewlineCloser(front, tail, k + 1);
    }
  }

  lemma DashesIff(s: string, k: nat)
    requires k + 3 <= |s|
    ensures "---" <= s[k..] <==> s[k] == s[k + 1] == s[k + 2] == '-'
  {
    var rest := s[k..];
    assert rest[0] == s[k] && rest[1] == s[k + 1] && rest[2] == s[k + 2];
    if s[k] == s[k + 1] == s[k + 2] == '-' { assert rest[..3] == "---"; }
  }

  lemma NoNewlineCloser(front: string, tail: string, k: nat)
    requires Trimmed(front) && k < |front| && |tail| >= 4 && tail[..4] == "\n---"
    requires forall j :: 0 <= j < |front| && front[j] == '\n' ==> !("---" <= front[j + 1..])
    ensures !("\n---" <= (front + tail)[k..])
  {
    var rest := (front + tail)[k..];
    assert rest[0] == front[k];
    if front[k] == '\n' {
      if k + 4 <= |front| {
        DashesIff(front, k + 1);
        assert rest[1] == front[k + 1] && rest[2] == front[k + 2] && rest[3] == front[k + 3];
      } else {
        assert rest[|front| - k] == tail[0] == '\n';
      }
    }
  }

  /** Reading a written profile gives it back, but for a blank command left in
      a regular profile. */
  lemma ReadAfterWrite(yaml: Yaml, p: Profile)
    requires IsNormal(p) && ExactOn(yaml, FrontmatterOf(p))
    ensures ParseProfileMarkdown(yaml, p.name, Written(yaml, p)) == Ok(CommandDropped(p))
  {
    hide TrimSpace, IsSpace, IsSlug, Normalized, MatchMarkdown;
    var f := FrontmatterOf(p);
    var front := TrimSpace(yaml.encode(f));
    TrimmedIsFixed(p.instructions);
    MatchesWhatWasWritten(front, p.instructions + "\n");
    TrimTrailingNewline(p.instructions);
    SlugIsTrimmed(p.name);
    assert p.name != "" by { SlugIsNotEmpty(p.name); }
    TrimmedIsFixed(p.role);
    ModesAreTrimmed();
    TrimmedIsFixed("");
    TrimmedIsFixed(REGULAR);
    TrimmedIsFixed(p.execution.defaultModel);
    ExecutionReadBack(p);
    var q := CommandDropped(p);
    assert IsNormal(q);
    NormalIffFixed(q);
    assert Profile(f.name, f.displayName, f.role, p.instructions, f.tools, ExecutionRead(f)) == q;
  }

  lemma SlugIsNotEmpty(s: string)
    requires IsSlug(s)
    ensures s != ""
  {
  }

  lemma TrimTrailingNewline(s: string)
    requires Trimmed(s) && s != ""
    ensures TrimSpace(s + "\n") == s
  {
    assert (s + "\n")[0] == s[0];
    assert TrimLeft(s + "\n", IsSpace) == s + "\n";
    assert (s + "\n")[..|s|] == s;
  }

  lemma ExecutionReadBack(p: Profile)
    requires IsNormal(p)
    ensures ExecutionRead(FrontmatterOf(p)) == CommandDropped(p).execution
  {
    hide TrimSpace, IsSlug, IsSpace;
    ModesAreTrimmed();
    TrimmedIsFixed("");
    TrimmedIsFixed(REGULAR);
    TrimmedIsFixed(ACP_STDIO);
  }

  /** A normal profile survives being written and read exactly when, in regular
      mode, its agent command is empty and not merely blank. */
  lemma RoundTripIff(yaml: Yaml, p: Profile)
    requires IsNormal(p) && ExactOn(yaml, FrontmatterOf(p))
    ensures ParseProfileMarkdown(yaml, p.name, Written(yaml, p)) == Ok(p)
            <==> (p.execution.mode == ACP_STDIO || p.execution.agentCommand.command == "")
  {
    ReadAfterWrite(yaml, p);
  }

  const BLANK_COMMAND := Profile("a", "", "r", "i", [], ExecutionSettings("", "m", AgentCommand(" ", []), ""))

  /** A profile with a blank command can be created, yet is not what is read
      back. */
  lemma BlankCommandIsLost(yaml: Yaml)
    requires ExactOn(yaml, FrontmatterOf(BLANK_COMMAND))
    ensures Normalized(BLANK_COMMAND) == Ok(BLANK_COMMAND)
    ensures ParseProfileMarkdown(yaml, "a", Written(yaml, BLANK_COMMAND)) != Ok(BLANK_COMMAND)
  {
    hide ParseProfileMarkdown, Written, Normalized, IsNormal, ExactOn, FrontmatterOf;
    BlankCommandIsNormal();
    NormalIffFixed(BLANK_COMMAND);
    RoundTripIff(yaml, BLANK_COMMAND);
  }

  lemma BlankCommandIsNormal()
    ensures IsNormal(BLANK_COMMAND)
  {
    assert IsSlugChar("a"[0]);
  }
}
