/** The check a launch makes of a stored agent command, trimming the caller's
    argument slice in place
    (runtime/internal/acpstdio/opencode_acp_client.go). */
module AcpCommand {
  import opened Wrappers
  import opened Text
  import opened AgentProfiles

  datatype CommandError =
    | CommandMissing
    | ControlInCommand
    | EmptyArgument
    | ControlInArgument
    | RepeatedArgument

  /** strings.ContainsAny(s, "\n\r\t"). */
  predicate HasLineControl(s: string) {
    '\n' in s || '\r' in s || '\t' in s
  }

  ghost predicate LaunchableArg(arg: string) {
    arg != "" && !HasLineControl(arg)
  }

  ghost predicate Launchable(command: AgentCommand) {
    && TrimSpace(command.command) != "" && !HasLineControl(TrimSpace(command.command))
    && (forall k :: 0 <= k < |command.args| ==> LaunchableArg(TrimSpace(command.args[k])))
    && Distinct(TrimAll(command.args))
  }

  /** The first `n` values trimmed, the others as they were. */
  function TrimmedUpTo(values: seq<string>, n: nat): seq<string> {
    seq(|values|, k requires 0 <= k < |values| => if k < n then TrimSpace(values[k]) else values[k])
  }

  /** Whether some value repeats an earlier one. */
  method HasDuplicates(values: array<string>) returns (found: bool)
    ensures found <==> !Distinct(values[..])
  {
    var seen: seq<string> := [];
    var i := 0;
    while i < values.Length
      invariant 0 <= i <= values.Length && seen == values[..i] && Distinct(seen)
    {
      if values[i] in seen {
        var j :| 0 <= j < |seen| && seen[j] == values[i];
        assert values[..][j] == values[..][i];
        return true;
      }
      seen := seen + [values[i]];
      i := i + 1;
    }
    assert values[..] == seen;
    found := false;
  }

  /** Accepts exactly the launchable commands.  The caller's slice is trimmed
      in place: wholly when the command is accepted, and on an error up to and
      including the argument at fault. */
  method NormalizeLaunchCommand(command: string, args: array<string>)
    returns (r: Result<string, CommandError>, ghost trimmed: nat)
    modifies args
    ensures r.Ok? <==> Launchable(AgentCommand(command, old(args[..])))
    ensures r.Ok? ==> r.value == TrimSpace(command) && trimmed == args.Length
    ensures trimmed <= args.Length
    ensures forall k :: 0 <= k < args.Length ==>
              args[k] == if k < trimmed then TrimSpace(old(args[k])) else old(args[k])
    ensures 0 < trimmed < args.Length ==> !LaunchableArg(args[trimmed - 1])
    ensures forall k :: 0 <= k < trimmed - 1 ==> LaunchableArg(args[k])
  {
    hide TrimSpace, HasLineControl, Distinct;
    ghost var was := args[..];
    trimmed := 0;
    assert args[..] == TrimmedUpTo(was, 0);
    var name := TrimSpace(command);
    if name == "" { return Err(CommandMissing), 0; }
    if HasLineControl(name) { return Err(ControlInCommand), 0; }
    var i := 0;
    while i < args.Length
      invariant 0 <= i <= args.Length && trimmed == i && args[..] == TrimmedUpTo(was, i)
      invariant forall k :: 0 <= k < i ==> LaunchableArg(TrimSpace(was[k]))
    {
      assert args[..][i] == was[i];
      args[i] := TrimSpace(args[i]);
      trimmed := i + 1;
      assert args[..] == TrimmedUpTo(was, i + 1);
      assert forall k :: 0 <= k < i ==> args[..][k] == TrimSpace(was[k]);
      if args[i] == "" { return Err(EmptyArgument), i + 1; }
      if HasLineControl(args[i]) { return Err(ControlInArgument), i + 1; }
      i := i + 1;
    }
    assert args[..] == TrimAll(was);
    var repeated := HasDuplicates(args);
    assert forall k :: 0 <= k < i ==> args[..][k] == TrimSpace(was[k]);
    if repeated { return Err(RepeatedArgument), i; }
    r := Ok(name);
  }

  /** A command that a profile stores passes the launch check, and is launched
      as it is stored: the profile's check refuses more characters. */
  lemma StoredCommandLaunches(command: AgentCommand)
    requires CommandOf(command).Ok?
    ensures var stored := CommandOf(command).value;
            Launchable(stored) && TrimSpace(stored.command) == stored.command && TrimAll(stored.args) == stored.args
  {
    hide TrimSpace, IsControl;
    var stored := CommandOf(command).value;
    ArgsFaultIff(TrimAll(command.args));
    TrimSpaceTwice(command.command);
    forall k | 0 <= k < |stored.args|
      ensures TrimSpace(stored.args[k]) == stored.args[k] && LaunchableArg(stored.args[k])
    {
      TrimSpaceTwice(command.args[k]);
      LineControlIsControl(stored.args[k]);
    }
    assert TrimAll(stored.args) == stored.args;
    LineControlIsControl(stored.command);
  }

  lemma LineControlIsControl(s: string)
    requires !HasControl(s)
    ensures !HasLineControl(s)
  {
    forall k | 0 <= k < |s| ensures s[k] != '\n' && s[k] != '\r' && s[k] != '\t' {
      assert !IsControl(s[k]);
    }
  }

  /** The converse fails: the launch check accepts the other control
      characters. */
  lemma LaunchCheckIsWeaker()
    ensures var command := AgentCommand("a\0b", []);
            Launchable(command) && CommandOf(command) == Err(ControlCharsInCommand)
  {
    var name := "a\0b";
    assert Trimmed(name);
    TrimmedIsFixed(name);
    assert IsControl(name[1]);
  }
}
