/** A schedule in which a ReadSession call misses an event that was stored before
    the run registered (runtime/internal/background_runner.go). */
module StaleHistory {
  import opened Wrappers
  import opened SessionEvents
  import opened BusProtocol
  import opened BusSafety
  import opened RunnerProtocol
  import opened RunnerSafety

  function OnBusAll(i: nat, actions: seq<Action>): seq<Event> {
    if actions == [] then [] else [OnBus(i, actions[0])] + OnBusAll(i, actions[1..])
  }

  function WithBus(w: World, i: nat, sys: System): World
    requires i < |w.runs|
  {
    w.(runs := w.runs[i := w.runs[i].(sys := sys)])
  }

  /** What a run's bus does by itself, its run does. */
  lemma {:induction false} BusRuns(w: World, i: nat, actions: seq<Action>)
    requires i < |w.runs| && Exec(w.runs[i].sys, actions).Next?
    requires forall k :: 0 <= k < |actions| ==> FreeOnBus(actions[k])
    ensures Execute(w, OnBusAll(i, actions)) == Moved(WithBus(w, i, Exec(w.runs[i].sys, actions).sys))
    decreases |actions|
  {
    hide Apply;
    if actions == [] {
      assert WithBus(w, i, w.runs[i].sys) == w;
    } else {
      var sys := Apply(w.runs[i].sys, actions[0]).sys;
      assert FreeOnBus(actions[0]);
      assert Step(w, OnBus(i, actions[0])) == Moved(WithBus(w, i, sys));
      assert forall k :: 0 <= k < |actions[1..]| ==> actions[1..][k] == actions[k + 1];
      BusRuns(WithBus(w, i, sys), i, actions[1..]);
      ExecuteThen(w, OnBus(i, actions[0]), OnBusAll(i, actions[1..]));
      assert WithBus(WithBus(w, i, sys), i, Exec(sys, actions[1..]).sys) == WithBus(w, i, Exec(sys, actions[1..]).sys);
    }
  }

  /** Closes a bus with two subscribers and follows the second, a replay
      reader, to its end. */
  const LAST_ACTIONS :=
    [CloseChannel(0), CloseChannel(1), CloseEnd, ReplayOver(1), NoticeClosed(1), FetchError(1), TellError(1)]

  const OPEN_CHANNEL := Channel([], false)
  const CALLER := Reader(false, 0, [], Some(0), None, Live, 0, [], [])
  const JOINER := Reader(true, 0, [], Some(1), None, Replaying, 0, [], [])

  /** The bus of a run that yields nothing: its caller has subscribed, ... */
  function OneReader(): System {
    System(Bus([], {0}, 1, false, false, None, Free, map[0 := OPEN_CHANNEL]), [CALLER])
  }

  /** ... a reader has joined, ... */
  function TwoReaders(): System {
    System(Bus([], {0, 1}, 2, false, false, None, Free, map[0 := OPEN_CHANNEL, 1 := OPEN_CHANNEL]), [CALLER, JOINER])
  }

  /** ... and Close has begun. */
  function QuietBus(): System {
    System(Bus([], {0, 1}, 2, true, false, None, Closing({0, 1}), map[0 := OPEN_CHANNEL, 1 := OPEN_CHANNEL]),
           [CALLER, JOINER])
  }

  lemma QuietBusBegins()
    ensures Apply(NEW_SYSTEM, Subscribe) == Next(OneReader())
    ensures Apply(OneReader(), JoinReplay) == Next(TwoReaders())
    ensures Apply(TwoReaders(), CloseBegin(None)) == Next(QuietBus())
  {
    assert {} + {0} == {0} && {0} + {1} == {0, 1};
  }

  const SHUT_CHANNEL := Channel([], true)

  /** The bus after Close, the joining reader in some phase. */
  function ShutBus(phase: Phase): System {
    System(Bus([], {}, 2, true, true, None, Free, map[0 := SHUT_CHANNEL, 1 := SHUT_CHANNEL]),
           [CALLER, JOINER.(phase := phase)])
  }

  lemma QuietBusCloses()
    ensures Exec(QuietBus(), LAST_ACTIONS[..3]) == Next(ShutBus(Replaying))
  {
    hide Exec;
    var b0 := QuietBus().bus;
    var s1 := QuietBus().(bus := b0.(lock := Closing({1}), channels := map[0 := SHUT_CHANNEL, 1 := OPEN_CHANNEL]));
    var s2 := QuietBus().(bus := b0.(lock := Closing({}), channels := map[0 := SHUT_CHANNEL, 1 := SHUT_CHANNEL]));
    assert {0, 1} - {0} == {1} && {1} - {1} == {};
    assert Apply(QuietBus(), CloseChannel(0)) == Next(s1) by {
      assert b0.channels[0 := SHUT_CHANNEL] == s1.bus.channels;
    }
    assert Apply(s1, CloseChannel(1)) == Next(s2) by {
      assert s1.bus.channels[1 := SHUT_CHANNEL] == s2.bus.channels;
    }
    assert Apply(s2, CloseEnd) == Next(ShutBus(Replaying));
    var actions := LAST_ACTIONS[..3];
    assert actions == [CloseChannel(0), CloseChannel(1), CloseEnd];
    ExecFrom(ShutBus(Replaying), actions, 3);
    ExecFrom(s2, actions, 2);
    ExecFrom(s1, actions, 1);
    ExecFrom(QuietBus(), actions, 0);
    assert actions[0..] == actions;
  }

  lemma ReplayEnds()
    ensures Apply(ShutBus(Replaying), ReplayOver(1)) == Next(ShutBus(Live))
    ensures Apply(ShutBus(Live), NoticeClosed(1)) == Next(ShutBus(SawClosed))
  {
  }

  lemma ErrorIsTold()
    ensures Apply(ShutBus(SawClosed), FetchError(1)) == Next(ShutBus(Holding(None)))
    ensures Apply(ShutBus(Holding(None)), TellError(1)) == Next(ShutBus(Leaving(true)))
  {
  }

  lemma QuietBusEnds()
    ensures Exec(QuietBus(), LAST_ACTIONS) == Next(ShutBus(Leaving(true)))
  {
    hide Exec, Apply, QuietBus, ShutBus;
    QuietBusCloses();
    ReplayEnds();
    ErrorIsTold();
    var actions := LAST_ACTIONS[3..];
    assert actions == [ReplayOver(1), NoticeClosed(1), FetchError(1), TellError(1)];
    ExecFrom(ShutBus(Leaving(true)), actions, 4);
    ExecFrom(ShutBus(Holding(None)), actions, 3);
    ExecFrom(ShutBus(SawClosed), actions, 2);
    ExecFrom(ShutBus(Live), actions, 1);
    ExecFrom(ShutBus(Replaying), actions, 0);
    assert actions[0..] == actions && LAST_ACTIONS[..3] + actions == LAST_ACTIONS;
    ExecConcat(QuietBus(), LAST_ACTIONS[..3], actions);
  }

  lemma {:induction false} ExecConcat(s: System, a: seq<Action>, b: seq<Action>)
    requires Exec(s, a).Next?
    ensures Exec(s, a + b) == Exec(Exec(s, a).sys, b)
    decreases |a|
  {
    hide Apply;
    if a == [] {
      assert a + b == b;
    } else {
      assert (a + b)[0] == a[0] && (a + b)[1..] == a[1..] + b;
      ExecConcat(Apply(s, a[0]).sys, a[1..], b);
    }
  }

  lemma ExecFrom(s: System, actions: seq<Action>, k: nat)
    requires k <= |actions|
    ensures k == |actions| ==> Exec(s, actions[k..]) == Next(s)
    ensures k < |actions| && Apply(s, actions[k]).Next? ==>
              Exec(s, actions[k..]) == Exec(Apply(s, actions[k]).sys, actions[k + 1..])
  {
    hide Apply;
    if k < |actions| { assert actions[k..][1..] == actions[k + 1..]; }
  }

  /** Counting, a store, registering; the caller subscribes, a reader looks the
      run up, reads the counted history and joins; the run ends. */
  function StaleRead(session: SessionId, event: SessionEvent): seq<Event> {
    [CountHistory(session, None), Persist(session, event), TryRegister(0), SubscribeCaller(0), LookUp(session),
     ReadHistory(0, None), JoinLive(0), EndRun(0, None)]
  }

  /** A world with this one run. */
  function StaleWorld(session: SessionId, event: SessionEvent, sys: System, stage: Stage, calls: seq<Read>): World {
    World(map[session := [event]], map[session := 0], [Accepted],
          [Run(session, 0, [event], sys, 0, [], None, stage)], calls)
  }

  lemma {:induction false} ExecuteConcat(w: World, a: seq<Event>, b: seq<Event>)
    requires Execute(w, a).Moved?
    ensures Execute(w, a + b) == Execute(Execute(w, a).world, b)
    decreases |a|
  {
    hide Step;
    if a == [] {
      assert a + b == b;
    } else {
      assert (a + b)[0] == a[0] && (a + b)[1..] == a[1..] + b;
      ExecuteConcat(Step(w, a[0]).world, a[1..], b);
    }
  }

  lemma ExecuteFrom(w: World, events: seq<Event>, k: nat)
    requires k <= |events|
    ensures k == |events| ==> Execute(w, events[k..]) == Moved(w)
    ensures k < |events| && Step(w, events[k]).Moved? ==>
              Execute(w, events[k..]) == Execute(Step(w, events[k]).world, events[k + 1..])
  {
    hide Step;
    if k < |events| { assert events[k..][1..] == events[k + 1..]; }
  }

  lemma StaleRegisters(session: SessionId, event: SessionEvent)
    ensures Execute(NEW_WORLD, [CountHistory(session, None), Persist(session, event), TryRegister(0)])
         == Moved(StaleWorld(session, event, NEW_SYSTEM, Registered, []))
  {
    var events := [CountHistory(session, None), Persist(session, event), TryRegister(0)];
    var w1 := NEW_WORLD.(attempts := [Pending(session, 0)]);
    var w2 := w1.(logs := map[session := [event]]);
    hide Execute;
    assert Step(NEW_WORLD, events[0]) == Moved(w1);
    assert Log(w1, session) + [event] == [event];
    assert Step(w1, events[1]) == Moved(w2);
    assert Step(w2, events[2]) == Moved(StaleWorld(session, event, NEW_SYSTEM, Registered, []));
    ExecuteFrom(StaleWorld(session, event, NEW_SYSTEM, Registered, []), events, 3);
    ExecuteFrom(w2, events, 2);
    ExecuteFrom(w1, events, 1);
    ExecuteFrom(NEW_WORLD, events, 0);
    assert events[0..] == events;
  }

  lemma StaleStep(session: SessionId, event: SessionEvent, sys: System, stage: Stage, e: Event,
                  sys': System, stage': Stage)
    requires e == SubscribeCaller(0) || e == EndRun(0, None)
    requires e.SubscribeCaller? ==> stage == Registered && stage' == Producing && sys.readers == []
    requires e.SubscribeCaller? ==> Apply(sys, Subscribe) == Next(sys')
    requires e.EndRun? ==> stage == Producing && stage' == Ending && Apply(sys, CloseBegin(None)) == Next(sys')
    ensures forall calls ::
              Step(StaleWorld(session, event, sys, stage, calls), e)
                == Moved(StaleWorld(session, event, sys', stage', calls))
  {
    hide Apply;
  }

  lemma StaleCallSteps(session: SessionId, event: SessionEvent)
    ensures var w := StaleWorld(session, event, OneReader(), Producing, []);
            var w1 := w.(calls := [Read(0, LookedUp, [], false)]);
            var w2 := w.(calls := [Read(0, HasHistory([], false, 0), [], false)]);
            && Step(w, LookUp(session)) == Moved(w1)
            && Step(w1, ReadHistory(0, None)) == Moved(w2)
            && Step(w2, JoinLive(0))
                 == Moved(StaleWorld(session, event, TwoReaders(), Producing, [Read(0, Streaming(1), [], false)]))
  {
    hide Apply;
    QuietBusBegins();
    assert [event][..0] == [];
  }

  lemma StaleReadRuns(session: SessionId, event: SessionEvent)
    ensures Execute(NEW_WORLD, StaleRead(session, event))
         == Moved(StaleWorld(session, event, QuietBus(), Ending, [Read(0, Streaming(1), [], false)]))
  {
    hide Execute, Step, Apply, OneReader, TwoReaders, QuietBus;
    QuietBusBegins();
    var call := [Read(0, Streaming(1), [], false)];
    var w0 := StaleWorld(session, event, NEW_SYSTEM, Registered, []);
    var w1 := StaleWorld(session, event, OneReader(), Producing, []);
    var w2 := w1.(calls := [Read(0, LookedUp, [], false)]);
    var w3 := w1.(calls := [Read(0, HasHistory([], false, 0), [], false)]);
    var w4 := StaleWorld(session, event, TwoReaders(), Producing, call);
    var w5 := StaleWorld(session, event, QuietBus(), Ending, call);
    var before := [CountHistory(session, None), Persist(session, event), TryRegister(0)];
    var after := [SubscribeCaller(0), LookUp(session), ReadHistory(0, None), JoinLive(0), EndRun(0, None)];
    StaleRegisters(session, event);
    StaleStep(session, event, NEW_SYSTEM, Registered, SubscribeCaller(0), OneReader(), Producing);
    StaleCallSteps(session, event);
    StaleStep(session, event, TwoReaders(), Producing, EndRun(0, None), QuietBus(), Ending);
    ExecuteFrom(w5, after, 5);
    ExecuteFrom(w4, after, 4);
    ExecuteFrom(w3, after, 3);
    ExecuteFrom(w2, after, 2);
    ExecuteFrom(w1, after, 1);
    ExecuteFrom(w0, after, 0);
    assert after[0..] == after && before + after == StaleRead(session, event);
    ExecuteConcat(NEW_WORLD, before, after);
  }

  /** An event stored between counting and registering is missed by a read that
      follows the run to its end, although it was stored before the run
      registered. */
  lemma CountCanBeStale(session: SessionId, event: SessionEvent)
    ensures var events := StaleRead(session, event) + OnBusAll(0, LAST_ACTIONS);
            && Execute(NEW_WORLD, events).Moved?
            && var w := Execute(NEW_WORLD, events).world;
               && |w.calls| == 1 && w.calls[0].run < |w.runs| && FollowedToTheEnd(w, w.calls[0]) && !w.calls[0].cut
               && w.runs[0].count == 0 && w.runs[0].logAtStart == Log(w, session) == [event]
               && event !in Shown(w, w.calls[0])
  {
    hide Exec, Execute, LAST_ACTIONS, QuietBus;
    var w := StaleWorld(session, event, QuietBus(), Ending, [Read(0, Streaming(1), [], false)]);
    StaleReadRuns(session, event);
    QuietBusEnds();
    LastActionsAreFree();
    BusRuns(w, 0, LAST_ACTIONS);
    ExecuteConcat(NEW_WORLD, StaleRead(session, event), OnBusAll(0, LAST_ACTIONS));
  }

  lemma LastActionsAreFree()
    ensures forall k :: 0 <= k < |LAST_ACTIONS| ==> FreeOnBus(LAST_ACTIONS[k])
  {
  }
}
