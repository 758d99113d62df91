/** What a run counted, produced and ended with, and what a call looked up and
    read, told from the schedule alone (runtime/internal/background_runner.go). */
module RunnerHistory {
  import opened Wrappers
  import opened SessionEvents
  import opened BusProtocol
  import opened BusSafety
  import opened RunnerProtocol
  import opened RunnerSafety
  import opened BackgroundRunnerObject

  // ----- What a schedule stored and produced -----

  /** The events stored for a session, in order. */
  function Stored(events: seq<Event>, session: SessionId): seq<SessionEvent> {
    if events == [] then []
    else
      (if events[0].Persist? && events[0].session == session then [events[0].event] else [])
      + Stored(events[1..], session)
  }

  /** The events a run's underlying runner yielded, in order. */
  function Produced(events: seq<Event>, i: nat): seq<SessionEvent> {
    if events == [] then []
    else
      (if events[0].Produce? && events[0].run == i then [events[0].event] else []) + Produced(events[1..], i)
  }

  /** The error a run ended with, if it has ended. */
  function EndedWith(events: seq<Event>, i: nat, before: Option<Error>): Option<Error>
    decreases |events|
  {
    if events == [] then before
    else EndedWith(events[1..], i, if events[0].EndRun? && events[0].run == i then events[0].err else before)
  }

  function YieldedBy(w: World, i: nat): seq<SessionEvent> {
    if i < |w.runs| then w.runs[i].yielded else []
  }

  function ErrorOf(w: World, i: nat): Option<Error> {
    if i < |w.runs| then w.runs[i].err else None
  }

  lemma StepAccounts(w: World, e: Event, session: SessionId, i: nat)
    requires Step(w, e).Moved?
    ensures var w' := Step(w, e).world;
            && Log(w', session) == Log(w, session) + (if e.Persist? && e.session == session then [e.event] else [])
            && YieldedBy(w', i) == YieldedBy(w, i) + (if e.Produce? && e.run == i then [e.event] else [])
            && ErrorOf(w', i) == if e.EndRun? && e.run == i then e.err else ErrorOf(w, i)
  {
    hide Apply;
  }

  /** In every schedule, a session's log is what was stored for it, a run has
      yielded what its runner produced, and its error is the one it ended
      with. */
  lemma {:induction false} ScheduleAccounts(w: World, events: seq<Event>, session: SessionId, i: nat)
    requires Execute(w, events).Moved?
    ensures var w' := Execute(w, events).world;
            && Log(w', session) == Log(w, session) + Stored(events, session)
            && YieldedBy(w', i) == YieldedBy(w, i) + Produced(events, i)
            && ErrorOf(w', i) == EndedWith(events, i, ErrorOf(w, i))
    decreases |events|
  {
    hide Step, Log, YieldedBy, ErrorOf;
    if events != [] {
      StepAccounts(w, events[0], session, i);
      ScheduleAccounts(Step(w, events[0]).world, events[1..], session, i);
    }
  }

  // ----- The count -----

  /** Nothing about a run's registration ever changes. */
  ghost predicate SameRegistrations(w: World, w': World) {
    && |w.runs| <= |w'.runs|
    && forall i :: 0 <= i < |w.runs| ==>
         && w'.runs[i].session == w.runs[i].session && w'.runs[i].count == w.runs[i].count
         && w'.runs[i].logAtStart == w.runs[i].logAtStart
  }

  lemma StepKeepsRegistrations(w: World, e: Event)
    requires Step(w, e).Moved?
    ensures SameRegistrations(w, Step(w, e).world)
  {
    hide Apply;
  }

  lemma {:induction false} ScheduleKeepsRegistrations(w: World, events: seq<Event>)
    requires Execute(w, events).Moved?
    ensures SameRegistrations(w, Execute(w, events).world)
    decreases |events|
  {
    hide Step;
    if events != [] {
      StepKeepsRegistrations(w, events[0]);
      ScheduleKeepsRegistrations(Step(w, events[0]).world, events[1..]);
    }
  }

  /** How many of the stored events an iterator yields that fails before the
      one at `failAt`, if it fails. */
  function EventsBefore(log: seq<SessionEvent>, failAt: Option<nat>): nat {
    if failAt.Some? && failAt.value < |log| then failAt.value else |log|
  }

  predicate StoresFor(e: Event, session: SessionId) {
    e.Persist? && e.session == session
  }

  /** A Run call that has counted and, as long as it waits for the lock, a log
      that is still what it counted. */
  ghost predicate HasCounted(w: World, k: nat, session: SessionId, count: nat, log: seq<SessionEvent>) {
    && k < |w.attempts|
    && (w.attempts[k].Pending? ==> w.attempts[k] == Pending(session, count) && Log(w, session) == log)
  }

  lemma StepKeepsCounted(w: World, e: Event, k: nat, session: SessionId, count: nat, log: seq<SessionEvent>)
    requires HasCounted(w, k, session, count, log) && Step(w, e).Moved? && !StoresFor(e, session)
    ensures HasCounted(Step(w, e).world, k, session, count, log)
  {
    hide Apply;
  }

  lemma {:induction false} ScheduleKeepsCounted(
    w: World, events: seq<Event>, k: nat, session: SessionId, count: nat, log: seq<SessionEvent>)
    requires HasCounted(w, k, session, count, log) && Execute(w, events).Moved?
    requires forall m :: 0 <= m < |events| ==> !StoresFor(events[m], session)
    ensures HasCounted(Execute(w, events).world, k, session, count, log)
    decreases |events|
  {
    hide Step, HasCounted, StoresFor;
    if events != [] {
      StepKeepsCounted(w, events[0], k, session, count, log);
      assert forall m :: 0 <= m < |events[1..]| ==> events[1..][m] == events[m + 1];
      ScheduleKeepsCounted(Step(w, events[0]).world, events[1..], k, session, count, log);
    }
  }

  /** A Run call from its count to its registration, with nothing stored for
      its session in between: the run registered has counted every event that
      was stored, or those before the count failed. */
  lemma AcceptedRunHasCounted(
    w0: World, session: SessionId, failAt: Option<nat>, between: seq<Event>, w1: World)
    requires Execute(w0, [CountHistory(session, failAt)] + between) == Moved(w1)
    requires forall m :: 0 <= m < |between| ==> !StoresFor(between[m], session)
    requires Step(w1, TryRegister(|w0.attempts|)).Moved?
    ensures var w2 := Step(w1, TryRegister(|w0.attempts|)).world;
            w2.attempts[|w0.attempts|].Accepted? ==>
              && |w2.runs| == |w1.runs| + 1
              && var run := w2.runs[|w1.runs|];
                 run.session == session && run.logAtStart == Log(w0, session)
                 && run.count == EventsBefore(Log(w0, session), failAt)
  {
    hide Execute;
    var log, k := Log(w0, session), |w0.attempts|;
    ExecuteThen(w0, CountHistory(session, failAt), between);
    var w := Step(w0, CountHistory(session, failAt)).world;
    assert HasCounted(w, k, session, EventsBefore(log, failAt), log);
    ScheduleKeepsCounted(w, between, k, session, EventsBefore(log, failAt), log);
  }

  /** With nothing stored for its session between counting and registering, a
      run has counted what was stored when it registered, but for a count that
      failed.  Then, whatever follows, a call on it that is followed to the
      end and whose read did not fail has shown the counted events and the
      whole run: the whole history and the whole run if the count did not
      fail. */
  lemma CountedHistoryIsShown(
    before: seq<Event>, w0: World, session: SessionId, failAt: Option<nat>, between: seq<Event>, w1: World,
    after: seq<Event>, w: World)
    requires Execute(NEW_WORLD, before) == Moved(w0)
    requires Execute(w0, [CountHistory(session, failAt)] + between) == Moved(w1)
    requires forall m :: 0 <= m < |between| ==> !StoresFor(between[m], session)
    requires Step(w1, TryRegister(|w0.attempts|)).Moved?
    requires Step(w1, TryRegister(|w0.attempts|)).world.attempts[|w0.attempts|].Accepted?
    requires Execute(Step(w1, TryRegister(|w0.attempts|)).world, after) == Moved(w)
    ensures |w1.runs| < |w.runs|
    ensures var run, log := w.runs[|w1.runs|], Log(w0, session);
            && run.session == session && run.logAtStart == log && run.count == EventsBefore(log, failAt)
            && forall j :: 0 <= j < |w.calls| && w.calls[j].run == |w1.runs| && FollowedToTheEnd(w, w.calls[j])
                           && !w.calls[j].cut ==>
                 && Shown(w, w.calls[j]) == log[..EventsBefore(log, failAt)] + run.yielded
                 && (failAt.None? ==> Shown(w, w.calls[j]) == log + run.yielded)
  {
    hide Execute, FollowedToTheEnd, Shown, EntriesOk, RunOk;
    var w2 := Step(w1, TryRegister(|w0.attempts|)).world;
    AcceptedRunHasCounted(w0, session, failAt, between, w1);
    ScheduleKeepsRegistrations(w2, after);
    var run, log := w.runs[|w1.runs|], Log(w0, session);
    EmptyWorldOk();
    ExecuteKeepsWorld(NEW_WORLD, before);
    ExecuteKeepsWorld(w0, [CountHistory(session, failAt)] + between);
    StepKeepsWorld(w1, TryRegister(|w0.attempts|));
    ExecuteKeepsWorld(w2, after);
    forall j | 0 <= j < |w.calls| && w.calls[j].run == |w1.runs| && FollowedToTheEnd(w, w.calls[j])
               && !w.calls[j].cut
      ensures Shown(w, w.calls[j]) == log[..EventsBefore(log, failAt)] + run.yielded
      ensures failAt.None? ==> Shown(w, w.calls[j]) == log + run.yielded
    {
      assert CallOk(w, w.calls[j]);
      CallShows(w, w.calls[j]);
      FollowedIsStreaming(w, w.calls[j]);
      assert log[..|log|] == log;
    }
  }

  lemma FollowedIsStreaming(w: World, call: Read)
    requires call.run < |w.runs| && FollowedToTheEnd(w, call)
    ensures call.stage.Streaming?
  {
  }

  /** The counting loop of Run counts what the protocol's step records. */
  lemma CountMatchesProtocol(w: World, session: SessionId, failAt: Option<nat>, err: string)
    ensures var log := Log(w, session);
            var items := Events(log[..EventsBefore(log, failAt)]) + (if failAt.Some? then [Err(err)] else []);
            Step(w, CountHistory(session, failAt))
              == Moved(w.(attempts := w.attempts + [Pending(session, |Leading(items)|)]))
  {
    hide Leading;
    var counted := Log(w, session)[..EventsBefore(Log(w, session), failAt)];
    LeadThenError(counted, err);
    AllLead(counted);
    assert Events(counted) + [] == Events(counted);
  }

  // ----- A run goes on -----

  /** Whenever its bus is free, a run can do what comes next: subscribe its
      caller, publish what it produces or end with any outcome, and once it has
      ended be removed, which frees its session for another run. */
  lemma RunGoesOn(events: seq<Event>, w: World, i: nat, event: SessionEvent, err: Option<Error>)
    requires Execute(NEW_WORLD, events) == Moved(w) && i < |w.runs| && w.runs[i].sys.bus.lock.Free?
    ensures w.runs[i].stage.Registered? ==>
              && Step(w, SubscribeCaller(i)).Moved?
              && Step(w, SubscribeCaller(i)).world.runs[i].stage.Producing?
    ensures w.runs[i].stage.Producing? ==>
              && Step(w, Produce(i, event)).Moved? && Step(w, EndRun(i, err)).Moved?
              && Step(w, EndRun(i, err)).world.runs[i].stage.Ending?
    ensures w.runs[i].stage.Ending? ==>
              && Step(w, RemoveRun(i)).Moved?
              && Step(w, RemoveRun(i)).world.runs[i].stage.Removed?
              && w.runs[i].session !in Step(w, RemoveRun(i)).world.active
  {
    hide Execute, Apply;
    FreeBusTakes(w.runs[i].sys, event, err);
  }

  lemma FreeBusTakes(s: System, event: SessionEvent, err: Option<Error>)
    requires s.bus.lock.Free?
    ensures Apply(s, Subscribe).Next? && Apply(s, PublishBegin(event)).Next? && Apply(s, CloseBegin(err)).Next?
  {
  }

  // ----- What a call looks up and reads -----

  /** A call finds a run exactly when its session has one between registration
      and removal, and then that one. */
  lemma LookUpFindsTheRun(events: seq<Event>, w: World, session: SessionId)
    requires Execute(NEW_WORLD, events) == Moved(w)
    ensures Step(w, LookUp(session)).Moved? <==>
              exists i :: 0 <= i < |w.runs| && w.runs[i].session == session && !w.runs[i].stage.Removed?
    ensures forall i :: 0 <= i < |w.runs| && w.runs[i].session == session && !w.runs[i].stage.Removed? ==>
              Step(w, LookUp(session)) == Moved(w.(calls := w.calls + [Read(i, LookedUp, [], false)]))
  {
    hide Execute, RunOk, CallOk;
    EmptyWorldOk();
    ExecuteKeepsWorld(NEW_WORLD, events);
    if session in w.active {
      var i := w.active[session];
      assert w.runs[i].session == session && !w.runs[i].stage.Removed?;
    }
  }

  /** A read of the history is cut exactly when its iterator fails before the
      counted events are read, and then it has the events before the failure;
      otherwise it has the counted events as stored at registration. */
  lemma ReadIsCutIffItFails(events: seq<Event>, w: World, j: nat, failAt: Option<nat>)
    requires Execute(NEW_WORLD, events) == Moved(w) && j < |w.calls| && w.calls[j].stage.LookedUp?
    ensures w.calls[j].run < |w.runs| && w.runs[w.calls[j].run].count <= |w.runs[w.calls[j].run].logAtStart|
    ensures var run := w.runs[w.calls[j].run];
            var fails := failAt.Some? && failAt.value < run.count;
            var prefix := run.logAtStart[..if fails then failAt.value else run.count];
            Step(w, ReadHistory(j, failAt)) == Moved(w.(calls := w.calls[j :=
              Read(w.calls[j].run, HasHistory(prefix, fails, 0), prefix, fails)]))
  {
    hide Execute, EntriesOk, Readable, FirstN, AttemptOk, Inv;
    EmptyWorldOk();
    ExecuteKeepsWorld(NEW_WORLD, events);
    assert CallOk(w, w.calls[j]);
    var run := w.runs[w.calls[j].run];
    assert RunOk(Log(w, run.session), run);
    AFailedReadIsShort(run.logAtStart, Log(w, run.session), failAt, run.count);
  }

  lemma AFailedReadIsShort(atStart: seq<SessionEvent>, log: seq<SessionEvent>, failAt: Option<nat>, count: nat)
    requires atStart <= log && count <= |atStart|
    ensures var readable := Readable(log, failAt);
            var fails := failAt.Some? && failAt.value < count;
            && (|readable| < count <==> fails)
            && FirstN(readable, count) == atStart[..if fails then failAt.value else count]
  {
  }

  /** While its consumer wants more, a call shows one more event of what it
      read at each step. */
  lemma HistoryGoesOn(events: seq<Event>, w: World, j: nat)
    requires Execute(NEW_WORLD, events) == Moved(w) && j < |w.calls| && w.calls[j].stage.HasHistory?
    ensures w.calls[j].run < |w.runs| && w.calls[j].stage.shown <= |w.calls[j].prefix|
    ensures w.calls[j].stage.shown < |w.calls[j].prefix| ==>
              && Step(w, ShowHistory(j, true)).Moved?
              && var w' := Step(w, ShowHistory(j, true)).world;
                 w'.calls[j].stage.HasHistory? && w'.calls[j].run == w.calls[j].run < |w'.runs|
                 && Shown(w', w'.calls[j]) == Shown(w, w.calls[j]) + [w.calls[j].prefix[w.calls[j].stage.shown]]
  {
    hide Execute, EntriesOk, RunOk, Apply, AttemptOk;
    EmptyWorldOk();
    ExecuteKeepsWorld(NEW_WORLD, events);
    assert CallOk(w, w.calls[j]);
  }

  /** A consumer that wants no more has been shown one event more, and then
      nothing, whatever follows. */
  lemma HistoryStops(events: seq<Event>, w: World, j: nat)
    requires Execute(NEW_WORLD, events) == Moved(w) && j < |w.calls| && w.calls[j].stage.HasHistory?
    requires w.calls[j].stage.shown < |w.calls[j].prefix|
    ensures Step(w, ShowHistory(j, false)).Moved?
    ensures var w' := Step(w, ShowHistory(j, false)).world;
            && w'.calls[j].stage.Stopped? && w'.calls[j].run == w.calls[j].run < |w'.runs|
            && Shown(w', w'.calls[j]) == w.calls[j].prefix[..w.calls[j].stage.shown + 1]
  {
    hide Execute, EntriesOk, RunOk, Apply, AttemptOk;
    EmptyWorldOk();
    ExecuteKeepsWorld(NEW_WORLD, events);
    assert CallOk(w, w.calls[j]);
  }

  lemma StepKeepsStopped(w: World, e: Event, j: nat)
    requires j < |w.calls| && w.calls[j].stage.Stopped? && Step(w, e).Moved?
    ensures j < |Step(w, e).world.calls| && Step(w, e).world.calls[j] == w.calls[j]
  {
    hide Apply;
  }

  lemma {:induction false} StoppedStays(w: World, events: seq<Event>, j: nat)
    requires j < |w.calls| && w.calls[j].stage.Stopped? && Execute(w, events).Moved?
    ensures j < |Execute(w, events).world.calls| && Execute(w, events).world.calls[j] == w.calls[j]
    decreases |events|
  {
    hide Step;
    if events != [] {
      StepKeepsStopped(w, events[0], j);
      StoppedStays(Step(w, events[0]).world, events[1..], j);
    }
  }

  /** When all of it is shown, the call joins the bus as soon as that is free. */
  lemma HistoryGoesLive(events: seq<Event>, w: World, j: nat)
    requires Execute(NEW_WORLD, events) == Moved(w) && j < |w.calls| && w.calls[j].stage.HasHistory?
    requires w.calls[j].stage.shown == |w.calls[j].prefix| && w.calls[j].run < |w.runs|
    requires w.runs[w.calls[j].run].sys.bus.lock.Free?
    ensures Step(w, JoinLive(j)).Moved?
    ensures var w' := Step(w, JoinLive(j)).world;
            && w'.calls[j].stage.Streaming? && w'.calls[j].run == w.calls[j].run < |w'.runs|
            && Shown(w', w'.calls[j]) == w.calls[j].prefix
  {
    hide Execute, Apply;
    JoinsEmptyHanded(w.runs[w.calls[j].run].sys);
  }

  lemma JoinsEmptyHanded(s: System)
    requires s.bus.lock.Free?
    ensures Apply(s, JoinReplay).Next?
    ensures var readers := Apply(s, JoinReplay).sys.readers;
            |readers| == |s.readers| + 1 && Delivered(readers[|s.readers|]) == []
  {
  }
}
