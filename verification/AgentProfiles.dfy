/** Normalising agent profiles
    (runtime/internal/agentprofiles/agent_profiles.go). */
module AgentProfiles {
  import opened Wrappers
  import opened Text

  const REGULAR := "regular"
  const ACP_STDIO := "acp-stdio"

  datatype AgentCommand = AgentCommand(command: string, args: seq<string>)

  datatype ExecutionSettings = ExecutionSettings(
    mode: string, defaultModel: string, agentCommand: AgentCommand, cwd: string)

  /** A profile without its timestamps; the parameters of a create call have
      the same fields. */
  datatype Profile = Profile(
    name: string, displayName: string, role: string, instructions: string, toolRefs: seq<string>,
    execution: ExecutionSettings)

  datatype ProfileError =
    | InvalidName
    | EmptyToolRef
    | ModelRequired
    | AcpSettingsInRegularMode
    | ModelInAcpMode
    | CommandRequired
    | ControlCharsInCommand
    | EmptyArg
    | ControlCharsInArgs
    | DuplicateArg
    | ControlCharsInCwd
    | UnknownMode
    | RoleRequired
    | InstructionsRequired

  // ----- Lists -----

  function TrimAll(values: seq<string>): (trimmed: seq<string>)
    ensures |trimmed| == |values|
    ensures forall k :: 0 <= k < |values| ==> trimmed[k] == TrimSpace(values[k])
  {
    seq(|values|, k requires 0 <= k < |values| => TrimSpace(values[k]))
  }

  predicate AllTrimmed(values: seq<string>) {
    forall k :: 0 <= k < |values| ==> Trimmed(values[k])
  }

  ghost predicate Distinct(values: seq<string>) {
    forall j, k :: 0 <= j < k < |values| ==> values[j] != values[k]
  }

  lemma TrimAllFixed(values: seq<string>)
    requires AllTrimmed(values)
    ensures TrimAll(values) == values
  {
    forall k | 0 <= k < |values| ensures TrimAll(values)[k] == values[k] {
      TrimmedIsFixed(values[k]);
    }
  }

  function FirstOccurrences(values: seq<string>): seq<string> {
    if values == [] then []
    else
      var before, last := values[..|values| - 1], values[|values| - 1];
      FirstOccurrences(before) + if last in before then [] else [last]
  }

  lemma FirstOccurrencesOf(values: seq<string>)
    ensures values == [] ==> FirstOccurrences(values) == []
    ensures values != [] ==>
              var before, last := values[..|values| - 1], values[|values| - 1];
              FirstOccurrences(values) == FirstOccurrences(before) + if last in before then [] else [last]
  {
  }

  /** First occurrences are the same values, each once. */
  lemma {:induction false} FirstOccurrencesMeaning(values: seq<string>)
    ensures forall v :: v in FirstOccurrences(values) <==> v in values
    ensures Distinct(FirstOccurrences(values))
    ensures Distinct(values) ==> FirstOccurrences(values) == values
    decreases |values|
  {
    if values != [] {
      var before, last := values[..|values| - 1], values[|values| - 1];
      FirstOccurrencesMeaning(before);
      assert values == before + [last];
      if Distinct(values) { assert last !in before; }
    }
  }

  /** Trims, rejects blanks and drops repetitions. */
  method NormalizeToolRefs(toolRefs: seq<string>) returns (r: Result<seq<string>, ProfileError>)
    ensures r == ToolRefsOf(toolRefs)
  {
    hide TrimSpace, FirstOccurrences;
    var normalized: seq<string> := [];
    var i := 0;
    ghost var all := TrimAll(toolRefs);
    FirstOccurrencesOf([]);
    while i < |toolRefs|
      invariant 0 <= i <= |toolRefs| && "" !in all[..i]
      invariant normalized == FirstOccurrences(all[..i])
    {
      var trimmed := TrimSpace(toolRefs[i]);
      assert all[i] == trimmed && all[..i + 1][..i] == all[..i];
      if trimmed == "" { return Err(EmptyToolRef); }
      FirstOccurrencesMeaning(all[..i]);
      FirstOccurrencesOf(all[..i + 1]);
      if trimmed !in normalized { normalized := normalized + [trimmed]; }
      i := i + 1;
    }
    assert all[..i] == all;
    r := Ok(normalized);
  }

  function ToolRefsOf(toolRefs: seq<string>): Result<seq<string>, ProfileError> {
    if "" in TrimAll(toolRefs) then Err(EmptyToolRef) else Ok(FirstOccurrences(TrimAll(toolRefs)))
  }

  predicate HasControl(s: string) {
    exists k :: 0 <= k < |s| && IsControl(s[k])
  }

  function ArgFault(arg: string, before: seq<string>): Option<ProfileError> {
    if arg == "" then Some(EmptyArg)
    else if HasControl(arg) then Some(ControlCharsInArgs)
    else if arg in before then Some(DuplicateArg)
    else None
  }

  /** The fault of the first argument that has one. */
  function ArgsFault(args: seq<string>): Option<ProfileError> {
    if args == [] then None
    else
      var before := args[..|args| - 1];
      if ArgsFault(before).Some? then ArgsFault(before) else ArgFault(args[|args| - 1], before)
  }

  function CommandOf(command: AgentCommand): Result<AgentCommand, ProfileError> {
    var name := TrimSpace(command.command);
    if name == "" then Err(CommandRequired)
    else if HasControl(name) then Err(ControlCharsInCommand)
    else
      match ArgsFault(TrimAll(command.args))
      case Some(e) => Err(e)
      case None => Ok(AgentCommand(name, TrimAll(command.args)))
  }

  ghost predicate GoodArgs(args: seq<string>) {
    Distinct(args) && forall k :: 0 <= k < |args| ==> args[k] != "" && !HasControl(args[k])
  }

  lemma {:induction false} ArgsFaultIff(args: seq<string>)
    ensures ArgsFault(args).None? <==> GoodArgs(args)
    decreases |args|
  {
    hide HasControl;
    if args != [] {
      var before, last := args[..|args| - 1], args[|args| - 1];
      ArgsFaultIff(before);
      assert args == before + [last];
      if last in before {
        var j :| 0 <= j < |before| && before[j] == last;
        assert args[j] == args[|args| - 1];
      }
    }
  }

  lemma ArgsFaultOf(args: seq<string>)
    ensures args == [] ==> ArgsFault(args).None?
    ensures args != [] && ArgsFault(args[..|args| - 1]).None? ==>
              ArgsFault(args) == ArgFault(args[|args| - 1], args[..|args| - 1])
  {
  }

  lemma {:induction false} EarlyFault(args: seq<string>, k: nat)
    requires k <= |args| && ArgsFault(args[..k]).Some?
    ensures ArgsFault(args) == ArgsFault(args[..k])
    decreases |args|
  {
    if k == |args| {
      assert args[..k] == args;
    } else {
      var before := args[..|args| - 1];
      assert before[..k] == args[..k];
      EarlyFault(before, k);
    }
  }

  method NormalizeAgentCommand(command: AgentCommand) returns (r: Result<AgentCommand, ProfileError>)
    ensures r == CommandOf(command)
  {
    hide HasControl, TrimSpace, ArgsFault;
    var name := TrimSpace(command.command);
    if name == "" { return Err(CommandRequired); }
    if HasControl(name) { return Err(ControlCharsInCommand); }
    var normalizedArgs: seq<string> := [];
    var i := 0;
    ghost var all := TrimAll(command.args);
    ArgsFaultOf([]);
    while i < |command.args|
      invariant 0 <= i <= |command.args| && normalizedArgs == all[..i] && ArgsFault(all[..i]).None?
    {
      var trimmed := TrimSpace(command.args[i]);
      assert all[i] == trimmed && all[..i + 1][..i] == all[..i];
      ArgsFaultOf(all[..i + 1]);
      if ArgsFault(all[..i + 1]).Some? { EarlyFault(all, i + 1); }
      if trimmed == "" { return Err(EmptyArg); }
      if HasControl(trimmed) { return Err(ControlCharsInArgs); }
      if trimmed in normalizedArgs { return Err(DuplicateArg); }
      normalizedArgs := normalizedArgs + [trimmed];
      i := i + 1;
    }
    assert all[..i] == all;
    r := Ok(AgentCommand(name, normalizedArgs));
  }

  // ----- Profiles -----

  function ModeOrDefault(mode: string): string {
    if TrimSpace(mode) == "" then REGULAR else mode
  }

  function ExecutionOf(settings: ExecutionSettings): Result<ExecutionSettings, ProfileError> {
    var s := settings.(mode := TrimSpace(settings.mode), defaultModel := TrimSpace(settings.defaultModel),
                       cwd := TrimSpace(settings.cwd));
    var mode := ModeOrDefault(s.mode);
    if mode == REGULAR then
      if s.defaultModel == "" then Err(ModelRequired)
      else if TrimSpace(s.agentCommand.command) != "" || s.agentCommand.args != [] || s.cwd != ""
      then Err(AcpSettingsInRegularMode)
      else Ok(s)
    else if mode == ACP_STDIO then
      if s.defaultModel != "" then Err(ModelInAcpMode)
      else
        match CommandOf(s.agentCommand)
        case Err(e) => Err(e)
        case Ok(command) =>
          if HasControl(s.cwd) then Err(ControlCharsInCwd) else Ok(s.(agentCommand := command))
    else Err(UnknownMode)
  }

  function RoleAndInstructionsOf(role: string, instructions: string): Result<(string, string), ProfileError> {
    if TrimSpace(role) == "" then Err(RoleRequired)
    else if TrimSpace(instructions) == "" then Err(InstructionsRequired)
    else Ok((TrimSpace(role), TrimSpace(instructions)))
  }

  function Normalized(p: Profile): Result<Profile, ProfileError> {
    var name := TrimSpace(p.name);
    if !IsSlug(name) then Err(InvalidName)
    else
      match ToolRefsOf(p.toolRefs)
      case Err(e) => Err(e)
      case Ok(toolRefs) =>
        match ExecutionOf(p.execution)
        case Err(e) => Err(e)
        case Ok(execution) =>
          match RoleAndInstructionsOf(p.role, p.instructions)
          case Err(e) => Err(e)
          case Ok(text) => Ok(Profile(name, TrimSpace(p.displayName), text.0, text.1, toolRefs, execution))
  }

  method NormalizeExecutionSettings(settings: ExecutionSettings) returns (r: Result<ExecutionSettings, ProfileError>)
    ensures r == ExecutionOf(settings)
  {
    var s := settings.(mode := TrimSpace(settings.mode), defaultModel := TrimSpace(settings.defaultModel),
                       cwd := TrimSpace(settings.cwd));
    var mode := ModeOrDefault(s.mode);
    if mode == REGULAR {
      if s.defaultModel == "" { return Err(ModelRequired); }
      if TrimSpace(s.agentCommand.command) != "" || s.agentCommand.args != [] || s.cwd != "" {
        return Err(AcpSettingsInRegularMode);
      }
      return Ok(s);
    }
    if mode != ACP_STDIO { return Err(UnknownMode); }
    if s.defaultModel != "" { return Err(ModelInAcpMode); }
    var command := NormalizeAgentCommand(s.agentCommand);
    if command.Err? { return Err(command.error); }
    if HasControl(s.cwd) { return Err(ControlCharsInCwd); }
    r := Ok(s.(agentCommand := command.value));
  }

  method NormalizeCreateParams(p: Profile) returns (r: Result<Profile, ProfileError>)
    ensures r == Normalized(p)
  {
    var name := TrimSpace(p.name);
    if !IsSlug(name) { return Err(InvalidName); }
    var toolRefs := NormalizeToolRefs(p.toolRefs);
    if toolRefs.Err? { return Err(toolRefs.error); }
    var execution := NormalizeExecutionSettings(p.execution);
    if execution.Err? { return Err(execution.error); }
    var text := RoleAndInstructionsOf(p.role, p.instructions);
    if text.Err? { return Err(text.error); }
    r := Ok(p.(name := name, displayName := TrimSpace(p.displayName), role := text.value.0,
               instructions := text.value.1, toolRefs := toolRefs.value, execution := execution.value));
  }

  // ----- Normal forms -----

  /** A normal profile, said without normalising.  In regular mode the command
      may still be blank: nobody trims it. */
  ghost predicate IsNormal(p: Profile) {
    && IsSlug(p.name)
    && Trimmed(p.displayName) && p.role != "" && Trimmed(p.role) && p.instructions != "" && Trimmed(p.instructions)
    && AllTrimmed(p.toolRefs) && Distinct(p.toolRefs) && "" !in p.toolRefs
    && IsNormalExecution(p.execution)
  }

  ghost predicate IsNormalExecution(s: ExecutionSettings) {
    && Trimmed(s.defaultModel) && Trimmed(s.cwd)
    && if s.mode == ACP_STDIO then
         && s.defaultModel == "" && !HasControl(s.cwd)
         && s.agentCommand.command != "" && Trimmed(s.agentCommand.command) && !HasControl(s.agentCommand.command)
         && AllTrimmed(s.agentCommand.args) && GoodArgs(s.agentCommand.args)
       else
         && (s.mode == "" || s.mode == REGULAR)
         && s.defaultModel != "" && s.cwd == "" && s.agentCommand.args == []
         && forall k :: 0 <= k < |s.agentCommand.command| ==> IsSpace(s.agentCommand.command[k])
  }

  lemma NormalizedExecutionIsNormal(s: ExecutionSettings)
    requires ExecutionOf(s).Ok?
    ensures IsNormalExecution(ExecutionOf(s).value)
  {
    hide TrimSpace, HasControl, IsSpace;
    var command := s.agentCommand;
    TrimSpaceEmptyIff(command.command);
    ArgsFaultIff(TrimAll(command.args));
    TrimSpaceTwice(s.mode);
  }

  lemma ModesAreTrimmed()
    ensures Trimmed("") && Trimmed(REGULAR) && Trimmed(ACP_STDIO)
  {
    assert |REGULAR| == 7 && REGULAR[6] == 'r' && |ACP_STDIO| == 9 && ACP_STDIO[8] == 'o';
  }

  lemma NormalExecutionIsFixed(s: ExecutionSettings)
    requires IsNormalExecution(s)
    ensures ExecutionOf(s) == Ok(s)
  {
    ModesAreTrimmed();
    hide TrimSpace, HasControl, IsSpace;
    TrimmedIsFixed(s.mode);
    TrimmedIsFixed(s.defaultModel);
    TrimmedIsFixed(s.cwd);
    if s.mode == ACP_STDIO {
      TrimmedIsFixed(s.agentCommand.command);
      TrimAllFixed(s.agentCommand.args);
      ArgsFaultIff(s.agentCommand.args);
    } else {
      TrimSpaceEmptyIff(s.agentCommand.command);
    }
  }

  /** What normalisation returns is normal. */
  lemma NormalizedIsNormal(p: Profile)
    requires Normalized(p).Ok?
    ensures IsNormal(Normalized(p).value)
  {
    hide TrimSpace, IsNormalExecution, ExecutionOf, IsSlug;
    NormalizedExecutionIsNormal(p.execution);
    FirstOccurrencesMeaning(TrimAll(p.toolRefs));
    var refs := FirstOccurrences(TrimAll(p.toolRefs));
    forall k | 0 <= k < |refs| ensures Trimmed(refs[k]) {
      assert refs[k] in TrimAll(p.toolRefs);
    }
  }

  /** Normal profiles are exactly those that normalisation leaves alone. */
  lemma NormalIffFixed(p: Profile)
    ensures IsNormal(p) <==> Normalized(p) == Ok(p)
  {
    hide TrimSpace, IsNormalExecution, ExecutionOf;
    if Normalized(p) == Ok(p) { NormalizedIsNormal(p); }
    if IsNormal(p) {
      SlugIsTrimmed(p.name);
      TrimmedIsFixed(p.displayName);
      TrimmedIsFixed(p.role);
      TrimmedIsFixed(p.instructions);
      TrimAllFixed(p.toolRefs);
      FirstOccurrencesMeaning(p.toolRefs);
      NormalExecutionIsFixed(p.execution);
    }
  }

  /** Normalising twice is normalising once. */
  lemma NormalizeIsIdempotent(p: Profile)
    requires Normalized(p).Ok?
    ensures Normalized(Normalized(p).value) == Normalized(p)
  {
    NormalizedIsNormal(p);
    NormalIffFixed(Normalized(p).value);
  }

  // ----- What is accepted, and what it becomes -----

  function TrimmedExecution(s: ExecutionSettings): ExecutionSettings {
    ExecutionSettings(TrimSpace(s.mode), TrimSpace(s.defaultModel),
      if TrimSpace(s.mode) == ACP_STDIO
      then AgentCommand(TrimSpace(s.agentCommand.command), TrimAll(s.agentCommand.args)) else s.agentCommand,
      TrimSpace(s.cwd))
  }

  /** Every text trimmed, and each tool once. */
  function TrimmedProfile(p: Profile): Profile {
    Profile(TrimSpace(p.name), TrimSpace(p.displayName), TrimSpace(p.role), TrimSpace(p.instructions),
            FirstOccurrences(TrimAll(p.toolRefs)), TrimmedExecution(p.execution))
  }

  lemma ExecutionIsTrimmed(s: ExecutionSettings)
    ensures ExecutionOf(s).Ok? <==> IsNormalExecution(TrimmedExecution(s))
    ensures ExecutionOf(s).Ok? ==> ExecutionOf(s).value == TrimmedExecution(s)
  {
    hide TrimSpace, HasControl, IsSpace;
    var command := s.agentCommand;
    TrimSpaceEmptyIff(command.command);
    ArgsFaultIff(TrimAll(command.args));
    TrimSpaceTwice(s.mode);
    ModesAreTrimmed();
  }

  /** A profile is accepted exactly when trimming makes it normal, and then it
      becomes what trimming makes of it. */
  lemma NormalizedIsTrimmed(p: Profile)
    ensures Normalized(p).Ok? <==> IsNormal(TrimmedProfile(p))
    ensures Normalized(p).Ok? ==> Normalized(p).value == TrimmedProfile(p)
  {
    hide TrimSpace, ExecutionOf, IsNormalExecution, IsSlug, TrimmedExecution;
    ExecutionIsTrimmed(p.execution);
    var all, refs := TrimAll(p.toolRefs), FirstOccurrences(TrimAll(p.toolRefs));
    FirstOccurrencesMeaning(all);
    forall k | 0 <= k < |refs| ensures Trimmed(refs[k]) {
      assert refs[k] in all;
    }
  }

  /** The fault reported is the first in the order name, tools, execution,
      role, instructions. */
  lemma FaultsInOrder(p: Profile)
    requires Normalized(p).Err?
    ensures var t, error := TrimmedProfile(p), Normalized(p).error;
            if !IsSlug(t.name) then error == InvalidName
            else if "" in t.toolRefs then error == EmptyToolRef
            else if !IsNormalExecution(t.execution) then IsExecutionFault(t.execution, error)
            else error == if t.role == "" then RoleRequired else InstructionsRequired
  {
    hide TrimSpace, ExecutionOf, IsNormalExecution, IsSlug, TrimmedExecution, IsExecutionFault;
    ExecutionIsTrimmed(p.execution);
    if ExecutionOf(p.execution).Err? { ExecutionFaults(p.execution); }
    FirstOccurrencesMeaning(TrimAll(p.toolRefs));
  }

  /** What is wrong with trimmed settings, the first fault of each mode. */
  ghost predicate IsExecutionFault(s: ExecutionSettings, error: ProfileError) {
    if s.mode == "" || s.mode == REGULAR then
      error == if s.defaultModel == "" then ModelRequired else AcpSettingsInRegularMode
    else if s.mode != ACP_STDIO then error == UnknownMode
    else if s.defaultModel != "" then error == ModelInAcpMode
    else if s.agentCommand.command == "" then error == CommandRequired
    else if HasControl(s.agentCommand.command) then error == ControlCharsInCommand
    else if GoodArgs(s.agentCommand.args) then error == ControlCharsInCwd
    else exists k :: FirstBadArg(s.agentCommand.args, k, error)
  }

  /** The arguments before the `k`-th are good, and what is wrong with it. */
  ghost predicate FirstBadArg(args: seq<string>, k: int, error: ProfileError) {
    && 0 <= k < |args| && GoodArgs(args[..k]) && !GoodArgs(args[..k + 1])
    && error == if args[k] == "" then EmptyArg else if HasControl(args[k]) then ControlCharsInArgs else DuplicateArg
  }

  lemma {:induction false} ArgsFaultIsFirst(args: seq<string>) returns (k: nat)
    requires ArgsFault(args).Some?
    ensures FirstBadArg(args, k, ArgsFault(args).value)
    decreases |args|
  {
    hide HasControl, GoodArgs;
    var n := |args| - 1;
    ArgsFaultIff(args[..n]);
    ArgsFaultIff(args);
    assert args[..n + 1] == args;
    if ArgsFault(args[..n]).Some? {
      k := ArgsFaultIsFirst(args[..n]);
      assert args[..n][..k] == args[..k] && args[..n][..k + 1] == args[..k + 1];
    } else {
      k := n;
    }
  }

  lemma ExecutionFaults(s: ExecutionSettings)
    requires ExecutionOf(s).Err?
    ensures IsExecutionFault(TrimmedExecution(s), ExecutionOf(s).error)
  {
    hide TrimSpace, HasControl, IsSpace, ArgsFault, GoodArgs, FirstBadArg;
    TrimSpaceTwice(s.mode);
    ModesAreTrimmed();
    var args := TrimAll(s.agentCommand.args);
    ArgsFaultIff(args);
    if ArgsFault(args).Some? {
      var k := ArgsFaultIsFirst(args);
    }
  }

  // ----- Updates -----

  function Updated(existing: Profile, params: Profile): Result<Profile, ProfileError> {
    match ToolRefsOf(params.toolRefs)
    case Err(e) => Err(e)
    case Ok(toolRefs) =>
      match ExecutionOf(params.execution)
      case Err(e) => Err(e)
      case Ok(execution) =>
        match RoleAndInstructionsOf(params.role, params.instructions)
        case Err(e) => Err(e)
        case Ok(text) =>
          Ok(existing.(displayName := TrimSpace(params.displayName), role := text.0, instructions := text.1,
                       toolRefs := toolRefs, execution := execution))
  }

  /** An update keeps the name and is the creation of the same profile under
      that name; it fails exactly when that creation would. */
  lemma UpdateIsRecreation(existing: Profile, params: Profile)
    requires IsNormal(existing)
    ensures Updated(existing, params) == Normalized(params.(name := existing.name))
    ensures Updated(existing, params).Ok? ==> Updated(existing, params).value.name == existing.name
  {
    hide TrimSpace, ExecutionOf, ToolRefsOf;
    SlugIsTrimmed(existing.name);
  }
}
