/** What every reachable state of the background runner satisfies: one run per
    session, and a reader's history spliced to the live run without loss or
    repetition. */
module RunnerSafety {
  import opened Wrappers
  import opened SessionEvents
  import opened BusProtocol
  import opened BusSafety
  import opened RunnerProtocol

  // ----- The invariant -----

  /** A run between registration and removal owns its session's entry. */
  ghost predicate EntriesOk(w: World) {
    && (forall session :: session in w.active ==>
          w.active[session] < |w.runs| && w.runs[w.active[session]].session == session
          && !w.runs[w.active[session]].stage.Removed?)
    && (forall i :: 0 <= i < |w.runs| && !w.runs[i].stage.Removed? ==>
          w.runs[i].session in w.active && w.active[w.runs[i].session] == i)
  }

  /** The bus of a run has exactly the events its runner yielded. */
  ghost predicate RunOk(log: seq<SessionEvent>, run: Run) {
    && Inv(run.sys)
    && run.sys.bus.buffer == run.yielded
    && (run.sys.bus.closed <==> run.stage.Ending? || run.stage.Removed?)
    && (run.stage.Ending? || run.stage.Removed? ==> run.sys.bus.finalErr == run.err)
    && (run.stage.Removed? ==> run.sys.bus.lock.Free?)
    && (run.stage.Registered? ==> run.yielded == [])
    && (!run.stage.Registered? ==>
          run.consumer < |run.sys.readers| && !run.sys.readers[run.consumer].replay
          && run.sys.readers[run.consumer].start == 0)
    && run.count <= |run.logAtStart|
    && run.logAtStart <= log
  }

  ghost predicate CallOk(w: World, call: Read) {
    && call.run < |w.runs|
    && var run := w.runs[call.run];
       && (!call.stage.LookedUp? ==>
             && call.prefix <= FirstN(run.logAtStart, run.count)
             && (!call.cut ==> call.prefix == FirstN(run.logAtStart, run.count)))
       && (call.stage.HasHistory? ==> call.stage.prefix == call.prefix && call.stage.shown <= |call.prefix|)
       && (call.stage.Stopped? ==> call.stage.shown <= |call.prefix|)
       && (call.stage.Streaming? ==>
             call.stage.reader < |run.sys.readers| && run.sys.readers[call.stage.reader].replay)
  }

  ghost predicate AttemptOk(w: World, a: Attempt) {
    a.Pending? ==> a.count <= |Log(w, a.session)|
  }

  ghost predicate WorldOk(w: World) {
    && EntriesOk(w)
    && (forall i :: 0 <= i < |w.runs| ==> RunOk(Log(w, w.runs[i].session), w.runs[i]))
    && (forall j :: 0 <= j < |w.calls| ==> CallOk(w, w.calls[j]))
    && (forall k :: 0 <= k < |w.attempts| ==> AttemptOk(w, w.attempts[k]))
  }

  // ----- Steps of one bus keep what the runner relies on -----

  /** Readers are never forgotten and keep how they joined. */
  ghost predicate SameJoiners(s: System, s': System) {
    && |s.readers| <= |s'.readers|
    && forall i :: 0 <= i < |s.readers| ==>
         s'.readers[i].replay == s.readers[i].replay && s'.readers[i].start == s.readers[i].start
  }

  lemma StepKeepsJoiners(s: System, a: Action)
    requires Apply(s, a).Next?
    ensures SameJoiners(s, Apply(s, a).sys)
  {
    hide ReaderStep, BeginPublish, SendTo, BeginClose, CloseOne, EndClose, Register;
    if Apply(s, a) != WriterStep(s, a) && !a.Subscribe? && !a.JoinReplay? { ReaderStepKeepsJoiners(s, a, a.r); }
  }

  lemma ReaderStepKeepsJoiners(s: System, a: Action, i: nat)
    requires ReaderStep(s, a, i).Next?
    ensures SameJoiners(s, ReaderStep(s, a, i).sys)
  {
    hide Remove, Take;
  }

  /** Only PublishBegin extends the buffer and only CloseBegin closes. */
  lemma FreeStepKeepsBuffer(s: System, a: Action)
    requires Apply(s, a).Next? && !a.PublishBegin? && !a.CloseBegin?
    ensures var b := Apply(s, a).sys.bus;
            b.buffer == s.bus.buffer && b.closed == s.bus.closed && b.finalErr == s.bus.finalErr
  {
  }

  lemma ClosedAndFreeStays(s: System, a: Action)
    requires Apply(s, a).Next? && s.bus.closed && s.bus.lock.Free?
    ensures Apply(s, a).sys.bus.lock.Free?
  {
  }

  /** A run whose bus moved by itself. */
  lemma BusMoveKeepsRun(log: seq<SessionEvent>, run: Run, a: Action)
    requires RunOk(log, run) && Apply(run.sys, a).Next? && !a.PublishBegin? && !a.CloseBegin?
    ensures RunOk(log, run.(sys := Apply(run.sys, a).sys))
  {
    StepKeepsInv(run.sys, a);
    StepKeepsJoiners(run.sys, a);
    FreeStepKeepsBuffer(run.sys, a);
    if run.stage.Removed? { ClosedAndFreeStays(run.sys, a); }
  }

  /** The run after each of its own steps. */
  lemma OwnStepKeepsRun(log: seq<SessionEvent>, w: World, e: Event, i: nat)
    requires i < |w.runs| && RunOk(log, w.runs[i]) && RunStep(w, e, i).Moved?
    ensures |RunStep(w, e, i).world.runs| == |w.runs|
    ensures RunOk(log, RunStep(w, e, i).world.runs[i])
    ensures SameJoiners(w.runs[i].sys, RunStep(w, e, i).world.runs[i].sys)
  {
    hide Apply, Inv, RunOk, SameJoiners;
    var run := w.runs[i];
    match e
    case SubscribeCaller(_) => SubscribeKeepsRun(log, run);
    case Produce(_, event) => ProduceKeepsRun(log, run, event);
    case EndRun(_, err) => EndKeepsRun(log, run, err);
    case RemoveRun(_) =>
      RemovalKeepsRun(log, run);
      JoinersStay(run.sys);
    case OnBus(_, a) =>
      BusMoveKeepsRun(log, run, a);
      StepKeepsJoiners(run.sys, a);
    case _ =>
  }

  lemma ProduceKeepsRun(log: seq<SessionEvent>, run: Run, event: SessionEvent)
    requires RunOk(log, run) && run.stage.Producing? && Apply(run.sys, PublishBegin(event)).Next?
    ensures var run' := run.(yielded := run.yielded + [event], sys := Apply(run.sys, PublishBegin(event)).sys);
            RunOk(log, run') && SameJoiners(run.sys, run'.sys)
  {
    hide Inv;
    StepKeepsInv(run.sys, PublishBegin(event));
  }

  lemma EndKeepsRun(log: seq<SessionEvent>, run: Run, err: Option<Error>)
    requires RunOk(log, run) && run.stage.Producing? && Apply(run.sys, CloseBegin(err)).Next?
    ensures var run' := run.(err := err, stage := Ending, sys := Apply(run.sys, CloseBegin(err)).sys);
            RunOk(log, run') && SameJoiners(run.sys, run'.sys)
  {
    hide Inv;
    StepKeepsInv(run.sys, CloseBegin(err));
  }

  lemma RemovalKeepsRun(log: seq<SessionEvent>, run: Run)
    requires RunOk(log, run) && run.stage.Ending? && run.sys.bus.lock.Free?
    ensures RunOk(log, run.(stage := Removed))
  {
    hide Inv;
  }

  lemma SubscribeKeepsRun(log: seq<SessionEvent>, run: Run)
    requires RunOk(log, run) && run.stage.Registered? && Apply(run.sys, Subscribe).Next?
    ensures var run' := run.(stage := Producing, consumer := |run.sys.readers|, sys := Apply(run.sys, Subscribe).sys);
            RunOk(log, run') && SameJoiners(run.sys, run'.sys)
  {
    StepKeepsInv(run.sys, Subscribe);
    StepKeepsJoiners(run.sys, Subscribe);
    FreeStepKeepsBuffer(run.sys, Subscribe);
  }

  // ----- Every step keeps the invariant -----

  lemma PersistKeepsWorld(w: World, session: SessionId, event: SessionEvent)
    requires WorldOk(w)
    ensures Step(w, Persist(session, event)).Moved? && WorldOk(Step(w, Persist(session, event)).world)
  {
    var w' := Step(w, Persist(session, event)).world;
    assert forall s :: Log(w, s) <= Log(w', s);
    forall i | 0 <= i < |w'.runs| ensures RunOk(Log(w', w'.runs[i].session), w'.runs[i]) {
      assert RunOk(Log(w, w.runs[i].session), w.runs[i]);
    }
    forall j | 0 <= j < |w'.calls| ensures CallOk(w', w'.calls[j]) {
      assert CallOk(w, w.calls[j]);
    }
    forall k | 0 <= k < |w'.attempts| ensures AttemptOk(w', w'.attempts[k]) {
      assert AttemptOk(w, w.attempts[k]);
    }
  }

  lemma CountKeepsWorld(w: World, session: SessionId, failAt: Option<nat>)
    requires WorldOk(w)
    ensures Step(w, CountHistory(session, failAt)).Moved? && WorldOk(Step(w, CountHistory(session, failAt)).world)
  {
    var w' := Step(w, CountHistory(session, failAt)).world;
    forall j | 0 <= j < |w'.calls| ensures CallOk(w', w'.calls[j]) {
      assert CallOk(w, w.calls[j]);
    }
    forall i | 0 <= i < |w'.runs| ensures RunOk(Log(w', w'.runs[i].session), w'.runs[i]) {
      assert RunOk(Log(w, w.runs[i].session), w.runs[i]);
    }
    forall k | 0 <= k < |w'.attempts| ensures AttemptOk(w', w'.attempts[k]) {
      assert k < |w.attempts| ==> AttemptOk(w, w.attempts[k]);
    }
  }

  lemma AdmitKeepsEntries(w: World, k: nat)
    requires EntriesOk(w) && k < |w.attempts| && w.attempts[k].Pending?
    ensures EntriesOk(Admit(w, k))
  {
  }

  lemma NewRunOk(log: seq<SessionEvent>, session: SessionId, count: nat)
    requires count <= |log|
    ensures RunOk(log, Run(session, count, log, NEW_SYSTEM, 0, [], None, Registered))
  {
    InitialInv();
  }

  lemma AdmitKeepsWorld(w: World, k: nat)
    requires WorldOk(w) && k < |w.attempts| && w.attempts[k].Pending?
    ensures WorldOk(Admit(w, k))
  {
    hide EntriesOk, RunOk;
    var w' := Admit(w, k);
    assert AttemptOk(w, w.attempts[k]);
    AdmitKeepsEntries(w, k);
    NewRunOk(Log(w, w.attempts[k].session), w.attempts[k].session, w.attempts[k].count);
    forall i | 0 <= i < |w'.runs| ensures RunOk(Log(w', w'.runs[i].session), w'.runs[i]) {
      if i < |w.runs| { assert RunOk(Log(w, w.runs[i].session), w.runs[i]); }
    }
    forall j | 0 <= j < |w'.calls| ensures CallOk(w', w'.calls[j]) {
      assert CallOk(w, w.calls[j]);
      JoinersStay(w.runs[w.calls[j].run].sys);
      CallSurvives(w, w', w.calls[j]);
    }
    forall m | 0 <= m < |w'.attempts| ensures AttemptOk(w', w'.attempts[m]) {
      assert AttemptOk(w, w.attempts[m]);
    }
  }

  /** A call only relies on what never changes about its run. */
  lemma CallSurvives(w: World, w': World, call: Read)
    requires CallOk(w, call) && |w.runs| <= |w'.runs|
    requires w'.runs[call.run].logAtStart == w.runs[call.run].logAtStart
    requires w'.runs[call.run].count == w.runs[call.run].count
    requires SameJoiners(w.runs[call.run].sys, w'.runs[call.run].sys)
    ensures CallOk(w', call)
  {
  }

  lemma RunStepShape(w: World, e: Event, i: nat)
    requires i < |w.runs| && RunStep(w, e, i).Moved?
    ensures var w' := RunStep(w, e, i).world;
            && w'.runs == w.runs[i := w'.runs[i]]
            && w'.runs[i].session == w.runs[i].session
            && w'.runs[i].logAtStart == w.runs[i].logAtStart && w'.runs[i].count == w.runs[i].count
            && w'.calls == w.calls && w'.logs == w.logs && w'.attempts == w.attempts
            && (if w'.runs[i].stage.Removed? && !w.runs[i].stage.Removed?
                then e.RemoveRun? && w'.active == w.active - {w.runs[i].session}
                else w'.active == w.active && (w'.runs[i].stage.Removed? <==> w.runs[i].stage.Removed?))
  {
  }

  lemma RunStepKeepsEntries(w: World, e: Event, i: nat)
    requires EntriesOk(w) && i < |w.runs| && RunStep(w, e, i).Moved?
    ensures EntriesOk(RunStep(w, e, i).world)
  {
    RunStepShape(w, e, i);
  }

  lemma RunStepKeepsWorld(w: World, e: Event, i: nat)
    requires WorldOk(w) && i < |w.runs| && RunStep(w, e, i).Moved?
    ensures WorldOk(RunStep(w, e, i).world)
  {
    hide RunStep, EntriesOk, RunOk, SameJoiners, Apply;
    var w' := RunStep(w, e, i).world;
    RunStepShape(w, e, i);
    RunStepKeepsEntries(w, e, i);
    OwnStepKeepsRun(Log(w, w.runs[i].session), w, e, i);
    forall k | 0 <= k < |w'.runs| ensures RunOk(Log(w', w'.runs[k].session), w'.runs[k]) {
      if k != i { assert RunOk(Log(w, w.runs[k].session), w.runs[k]); }
    }
    forall j | 0 <= j < |w'.calls| ensures CallOk(w', w'.calls[j]) {
      assert CallOk(w, w.calls[j]);
      if w.calls[j].run != i { JoinersStay(w.runs[w.calls[j].run].sys); }
      CallSurvives(w, w', w.calls[j]);
    }
    forall k | 0 <= k < |w'.attempts| ensures AttemptOk(w', w'.attempts[k]) {
      assert AttemptOk(w, w.attempts[k]);
    }
  }

  /** Whatever was appended since, the first `count` stored events are still
      the first `count` events of the log the run started from. */
  lemma PrefixOfGrownLog(atStart: seq<SessionEvent>, log: seq<SessionEvent>, failAt: Option<nat>, count: nat)
    requires atStart <= log && count <= |atStart|
    ensures var readable := Readable(log, failAt);
            && FirstN(readable, count) <= FirstN(atStart, count)
            && (count <= |readable| ==> FirstN(readable, count) == FirstN(atStart, count))
  {
  }

  lemma CallStepKeepsRuns(w: World, e: Event)
    requires WorldOk(w) && ReadStep(w, e).Moved?
    ensures var w' := ReadStep(w, e).world;
            && |w'.runs| == |w.runs| && w'.active == w.active && w'.logs == w.logs && w'.attempts == w.attempts
            && forall i :: 0 <= i < |w.runs| ==>
                 && w'.runs[i] == w.runs[i].(sys := w'.runs[i].sys)
                 && SameJoiners(w.runs[i].sys, w'.runs[i].sys)
                 && RunOk(Log(w', w'.runs[i].session), w'.runs[i])
  {
    hide Apply, RunOk, SameJoiners;
    var w' := ReadStep(w, e).world;
    forall i | 0 <= i < |w.runs|
      ensures w'.runs[i] == w.runs[i].(sys := w'.runs[i].sys)
      ensures SameJoiners(w.runs[i].sys, w'.runs[i].sys)
      ensures RunOk(Log(w', w'.runs[i].session), w'.runs[i])
    {
      var run := w.runs[i];
      assert RunOk(Log(w, run.session), run);
      if e.JoinLive? && i == w.calls[e.read].run {
        BusMoveKeepsRun(Log(w, run.session), run, JoinReplay);
        StepKeepsJoiners(run.sys, JoinReplay);
      } else {
        JoinersStay(run.sys);
      }
    }
  }

  lemma JoinersStay(s: System)
    ensures SameJoiners(s, s)
  {
  }

  lemma ReadHistoryKeepsCall(w: World, j: nat, failAt: Option<nat>)
    requires WorldOk(w) && j < |w.calls| && ReadStep(w, ReadHistory(j, failAt)).Moved?
    ensures CallOk(w, ReadStep(w, ReadHistory(j, failAt)).world.calls[j])
  {
    assert CallOk(w, w.calls[j]);
    var run := w.runs[w.calls[j].run];
    assert RunOk(Log(w, run.session), run);
    PrefixOfGrownLog(run.logAtStart, Log(w, run.session), failAt, run.count);
  }

  lemma ShowHistoryKeepsCall(w: World, j: nat, more: bool)
    requires WorldOk(w) && j < |w.calls| && ReadStep(w, ShowHistory(j, more)).Moved?
    ensures CallOk(w, ReadStep(w, ShowHistory(j, more)).world.calls[j])
  {
    assert CallOk(w, w.calls[j]);
  }

  lemma JoinLiveKeepsCall(w: World, j: nat)
    requires WorldOk(w) && j < |w.calls| && ReadStep(w, JoinLive(j)).Moved?
    ensures CallOk(ReadStep(w, JoinLive(j)).world, ReadStep(w, JoinLive(j)).world.calls[j])
  {
    hide Apply, EntriesOk, RunOk, AttemptOk;
    assert CallOk(w, w.calls[j]);
    JoinReplayAddsReader(w.runs[w.calls[j].run].sys);
  }

  lemma JoinReplayAddsReader(s: System)
    ensures var o := Apply(s, JoinReplay);
            o.Next? ==> |o.sys.readers| == |s.readers| + 1 && o.sys.readers[|s.readers|].replay
  {
  }

  lemma CallStepKeepsCalls(w: World, e: Event, j: nat)
    requires WorldOk(w) && ReadStep(w, e).Moved? && j < |ReadStep(w, e).world.calls|
    ensures CallOk(ReadStep(w, e).world, ReadStep(w, e).world.calls[j])
  {
    hide Apply, Inv, RunOk, AttemptOk, SameJoiners;
    if j < |w.calls| { assert CallOk(w, w.calls[j]); }
    match e
    case LookUp(_) =>
    case ReadHistory(k, failAt) => if k == j { ReadHistoryKeepsCall(w, j, failAt); }
    case ShowHistory(k, more) => if k == j { ShowHistoryKeepsCall(w, j, more); }
    case JoinLive(k) =>
      if k == j {
        JoinLiveKeepsCall(w, j);
      } else {
        CallStepKeepsRuns(w, e);
        CallSurvives(w, ReadStep(w, e).world, w.calls[j]);
      }
    case _ =>
  }

  lemma CallStepKeepsWorld(w: World, e: Event)
    requires WorldOk(w) && ReadStep(w, e).Moved?
    ensures WorldOk(ReadStep(w, e).world)
  {
    var w' := ReadStep(w, e).world;
    CallStepKeepsRuns(w, e);
    forall j | 0 <= j < |w'.calls| ensures CallOk(w', w'.calls[j]) {
      CallStepKeepsCalls(w, e, j);
    }
    forall k | 0 <= k < |w'.attempts| ensures AttemptOk(w', w'.attempts[k]) {
      assert AttemptOk(w, w.attempts[k]);
    }
  }

  lemma RunStepNeverPanics(w: World, e: Event, i: nat)
    requires i < |w.runs| && Inv(w.runs[i].sys)
    ensures !RunStep(w, e, i).Panics?
  {
    hide Inv, Apply;
    var sys := w.runs[i].sys;
    match e
    case Produce(_, event) => StepKeepsInv(sys, PublishBegin(event));
    case EndRun(_, err) => StepKeepsInv(sys, CloseBegin(err));
    case SubscribeCaller(_) => StepKeepsInv(sys, Subscribe);
    case OnBus(_, a) => StepKeepsInv(sys, a);
    case _ =>
  }

  lemma ReadStepNeverPanics(w: World, e: Event)
    requires WorldOk(w)
    ensures !ReadStep(w, e).Panics?
  {
    hide Inv, Apply, EntriesOk, CallOk;
    if e.JoinLive? && e.read < |w.calls| && w.calls[e.read].run < |w.runs| {
      var run := w.runs[w.calls[e.read].run];
      assert RunOk(Log(w, run.session), run);
      StepKeepsInv(run.sys, JoinReplay);
    }
  }

  lemma BusNeverPanics(w: World, e: Event)
    requires WorldOk(w)
    ensures !Step(w, e).Panics?
  {
    hide Inv, ReadStep, RunStep, EntriesOk, CallOk, Admit;
    ReadStepNeverPanics(w, e);
    if e.SubscribeCaller? || e.Produce? || e.EndRun? || e.RemoveRun? || e.OnBus? {
      if e.run < |w.runs| {
        assert RunOk(Log(w, w.runs[e.run].session), w.runs[e.run]);
        RunStepNeverPanics(w, e, e.run);
      }
    }
  }

  lemma StepKeepsWorld(w: World, e: Event)
    requires WorldOk(w)
    ensures !Step(w, e).Panics?
    ensures Step(w, e).Moved? ==> WorldOk(Step(w, e).world)
  {
    BusNeverPanics(w, e);
    if Step(w, e).Moved? {
      match e
      case Persist(session, event) => PersistKeepsWorld(w, session, event);
      case CountHistory(session, failAt) => CountKeepsWorld(w, session, failAt);
      case TryRegister(k) => AdmitKeepsWorld(w, k);
      case LookUp(_) => CallStepKeepsWorld(w, e);
      case ReadHistory(_, _) => CallStepKeepsWorld(w, e);
      case ShowHistory(_, _) => CallStepKeepsWorld(w, e);
      case JoinLive(_) => CallStepKeepsWorld(w, e);
      case _ => RunStepKeepsWorld(w, e, e.run);
    }
  }

  lemma {:induction false} ExecuteKeepsWorld(w: World, events: seq<Event>)
    requires WorldOk(w)
    ensures !Execute(w, events).Panics?
    ensures Execute(w, events).Moved? ==> WorldOk(Execute(w, events).world)
    decreases |events|
  {
    if events != [] {
      StepKeepsWorld(w, events[0]);
      if Step(w, events[0]).Moved? {
        ExecuteKeepsWorld(Step(w, events[0]).world, events[1..]);
      }
    }
  }

  lemma ExecuteThen(w: World, e: Event, rest: seq<Event>)
    requires Step(w, e).Moved?
    ensures Execute(w, [e] + rest) == Execute(Step(w, e).world, rest)
  {
    hide Step;
    assert ([e] + rest)[1..] == rest;
  }

  // ----- What this means for every schedule -----

  /** At most one run per session lies between registration and removal, and
      the table entry is that run's. */
  lemma OneRunPerSession(events: seq<Event>, w: World, i: nat, j: nat)
    requires Execute(NEW_WORLD, events) == Moved(w)
    requires i < |w.runs| && j < |w.runs| && w.runs[i].session == w.runs[j].session
    requires !w.runs[i].stage.Removed? && !w.runs[j].stage.Removed?
    ensures i == j && w.runs[i].session in w.active && w.active[w.runs[i].session] == i
  {
    ExecuteKeepsWorld(NEW_WORLD, events);
  }

  /** Removing a run deletes its own entry and no other. */
  lemma RemovalDeletesOwnEntry(events: seq<Event>, w: World, i: nat)
    requires Execute(NEW_WORLD, events) == Moved(w) && Step(w, RemoveRun(i)).Moved?
    ensures i < |w.runs| && w.runs[i].session in w.active && w.active[w.runs[i].session] == i
    ensures Step(w, RemoveRun(i)).world.active == w.active - {w.runs[i].session}
  {
    ExecuteKeepsWorld(NEW_WORLD, events);
  }

  /** A Run call is rejected exactly when its session has a run between
      registration and removal; then nothing but the call itself changes. */
  lemma RejectedIffBusy(events: seq<Event>, w: World, k: nat)
    requires Execute(NEW_WORLD, events) == Moved(w) && k < |w.attempts| && w.attempts[k].Pending?
    ensures Admit(w, k).attempts[k].Rejected? <==>
              exists i :: 0 <= i < |w.runs| && w.runs[i].session == w.attempts[k].session && !w.runs[i].stage.Removed?
    ensures Admit(w, k).attempts[k].Rejected? ==> Admit(w, k) == w.(attempts := w.attempts[k := Rejected])
  {
    ExecuteKeepsWorld(NEW_WORLD, events);
    if w.attempts[k].session in w.active {
      var i := w.active[w.attempts[k].session];
      assert w.runs[i].session == w.attempts[k].session && !w.runs[i].stage.Removed?;
    }
  }

  /** What a ReadSession call has shown so far. */
  function Shown(w: World, call: Read): seq<SessionEvent>
    requires call.run < |w.runs|
  {
    match call.stage
    case LookedUp => []
    case HasHistory(prefix, _, shown) => FirstN(prefix, shown)
    case Stopped(shown) => FirstN(call.prefix, shown)
    case Streaming(r) =>
      var readers := w.runs[call.run].sys.readers;
      call.prefix + (if r < |readers| then Delivered(readers[r]) else [])
  }

  /** The reader of a call that followed the run to its end. */
  ghost predicate FollowedToTheEnd(w: World, call: Read)
    requires call.run < |w.runs|
  {
    && call.stage.Streaming?
    && call.stage.reader < |w.runs[call.run].sys.readers|
    && Ended(w.runs[call.run].sys.readers[call.stage.reader], true)
  }

  lemma RunReaderShown(run: Run, log: seq<SessionEvent>, r: nat)
    requires RunOk(log, run) && r < |run.sys.readers| && run.sys.readers[r].replay
    ensures Delivered(run.sys.readers[r]) <= run.yielded
    ensures Ended(run.sys.readers[r], true) ==>
              Delivered(run.sys.readers[r]) == run.yielded
              && run.sys.readers[r].errors == if run.err.Some? then [run.err.value] else []
  {
    assert ReaderOk(run.sys.bus, run.sys.readers[r]);
    ReplayReaderDelivered(run.sys.bus, run.sys.readers[r]);
    if Ended(run.sys.readers[r], true) {
      NaturalEndSawEverything(run.sys.bus, run.sys.readers[r]);
    }
  }

  /** What a call reads of the history is a prefix of the first `count` events
      stored when the run registered, and all of them unless the read failed. */
  ghost predicate PrefixOk(run: Run, call: Read) {
    && call.prefix <= FirstN(run.logAtStart, run.count)
    && (!call.cut ==> call.prefix == FirstN(run.logAtStart, run.count))
  }

  lemma CallShows(w: World, call: Read)
    requires WorldOk(w) && CallOk(w, call)
    ensures var run := w.runs[call.run];
            && (!call.stage.LookedUp? ==> PrefixOk(run, call))
            && Shown(w, call) <= call.prefix + run.yielded
            && (FollowedToTheEnd(w, call) ==>
                  && Shown(w, call) == call.prefix + run.yielded
                  && run.sys.readers[call.stage.reader].errors == if run.err.Some? then [run.err.value] else [])
  {
    hide EntriesOk, RunOk, Delivered, Ended;
    var run := w.runs[call.run];
    assert RunOk(Log(w, run.session), run);
    if call.stage.Streaming? {
      RunReaderShown(run, Log(w, run.session), call.stage.reader);
    }
  }

  /** A ReadSession of an active run shows, at every moment, a prefix of what it
      read of the history and then the run's events.  Followed to the end it
      shows exactly that, then the run's error once if there is one, whatever
      the run stored meanwhile and even if it has been removed.  The history
      read is the first `count` events stored when the run registered, cut
      short only by a read that failed. */
  lemma HistoryThenLiveRun(events: seq<Event>, w: World, j: nat)
    requires Execute(NEW_WORLD, events) == Moved(w) && j < |w.calls|
    ensures w.calls[j].run < |w.runs|
    ensures var run := w.runs[w.calls[j].run];
            && (!w.calls[j].stage.LookedUp? ==> PrefixOk(run, w.calls[j]))
            && Shown(w, w.calls[j]) <= w.calls[j].prefix + run.yielded
            && (FollowedToTheEnd(w, w.calls[j]) ==>
                  && Shown(w, w.calls[j]) == w.calls[j].prefix + run.yielded
                  && run.sys.readers[w.calls[j].stage.reader].errors == if run.err.Some? then [run.err.value] else [])
  {
    hide Execute, EntriesOk, RunOk, Shown;
    EmptyWorldOk();
    ExecuteKeepsWorld(NEW_WORLD, events);
    assert CallOk(w, w.calls[j]);
    CallShows(w, w.calls[j]);
  }

  lemma EmptyWorldOk()
    ensures WorldOk(NEW_WORLD)
  {
  }

  /** The whole stored history followed by the whole run: a call followed to
      the end shows it exactly when the count taken before registering was the
      stored length when the run registered. */
  lemma SpliceIsExactIffCountWas(events: seq<Event>, w: World, j: nat)
    requires Execute(NEW_WORLD, events) == Moved(w) && j < |w.calls|
    requires w.calls[j].run < |w.runs| && FollowedToTheEnd(w, w.calls[j]) && !w.calls[j].cut
    ensures var run := w.runs[w.calls[j].run];
            Shown(w, w.calls[j]) == run.logAtStart + run.yielded <==> run.count == |run.logAtStart|
  {
    hide Execute, EntriesOk, Shown;
    HistoryThenLiveRun(events, w, j);
    EmptyWorldOk();
    ExecuteKeepsWorld(NEW_WORLD, events);
    var run := w.runs[w.calls[j].run];
    assert RunOk(Log(w, run.session), run);
    if run.count < |run.logAtStart| {
      assert |FirstN(run.logAtStart, run.count) + run.yielded| < |run.logAtStart + run.yielded|;
    }
  }

  /** The caller of Run, if neither cancelled nor stopped, sees every event of
      the run and then its error exactly once. */
  lemma RunCallerSeesTheRun(events: seq<Event>, w: World, i: nat)
    requires Execute(NEW_WORLD, events) == Moved(w) && i < |w.runs| && !w.runs[i].stage.Registered?
    ensures var run := w.runs[i];
            && run.consumer < |run.sys.readers|
            && var r := run.sys.readers[run.consumer];
               && Delivered(r) <= run.yielded
               && (Ended(r, true) ==>
                     Delivered(r) == run.yielded && r.errors == if run.err.Some? then [run.err.value] else [])
  {
    hide Execute, EntriesOk, RunOk, Delivered, Ended;
    EmptyWorldOk();
    ExecuteKeepsWorld(NEW_WORLD, events);
    assert RunOk(Log(w, w.runs[i].session), w.runs[i]);
    RunConsumerShown(w.runs[i], Log(w, w.runs[i].session));
  }

  lemma RunConsumerShown(run: Run, log: seq<SessionEvent>)
    requires RunOk(log, run) && !run.stage.Registered?
    ensures run.consumer < |run.sys.readers|
    ensures var r := run.sys.readers[run.consumer];
            && Delivered(r) <= run.yielded
            && (Ended(r, true) ==>
                  Delivered(r) == run.yielded && r.errors == if run.err.Some? then [run.err.value] else [])
  {
    var r := run.sys.readers[run.consumer];
    assert ReaderOk(run.sys.bus, r);
    PlainReaderDelivered(run.sys.bus, r);
    assert run.yielded[0..] == run.yielded;
    if Ended(r, true) { NaturalEndSawEverything(run.sys.bus, r); }
  }

  lemma PlainReaderDelivered(b: Bus, r: Reader)
    requires ReaderOk(b, r) && !r.replay
    ensures Delivered(r) == r.received <= b.buffer[r.start..]
  {
    if r.channel.Some? {
      assert r.received <= r.received + b.channels[r.channel.value].queue <= b.buffer[r.start..];
    }
  }

  // ----- Readers that nothing interrupts -----

  /** Cancels a reader of a run, or is its consumer's refusal of more. */
  predicate InterruptsRunReader(e: Event, i: nat, r: nat) {
    e.OnBus? && e.run == i && InterruptsReader(e.action, r)
  }

  ghost predicate NotEndedEarly(w: World, i: nat, r: nat) {
    i < |w.runs| && r < |w.runs[i].sys.readers| ==> !Ended(w.runs[i].sys.readers[r], false)
  }

  lemma RunStepEndsNoneEarly(w: World, e: Event, k: nat, i: nat, r: nat)
    requires k < |w.runs| && RunStep(w, e, k).Moved? && (e.OnBus? ==> e.run == k)
    requires !InterruptsRunReader(e, i, r) && NotEndedEarly(w, i, r)
    ensures NotEndedEarly(RunStep(w, e, k).world, i, r)
  {
    hide Apply;
    RunStepShape(w, e, k);
    if k == i {
      var sys := w.runs[i].sys;
      match e
      case SubscribeCaller(_) => OnlyInterruptsEndEarly(sys, Subscribe, r);
      case Produce(_, event) => OnlyInterruptsEndEarly(sys, PublishBegin(event), r);
      case EndRun(_, err) => OnlyInterruptsEndEarly(sys, CloseBegin(err), r);
      case OnBus(_, a) => OnlyInterruptsEndEarly(sys, a, r);
      case _ =>
    }
  }

  lemma ReadStepEndsNoneEarly(w: World, e: Event, i: nat, r: nat)
    requires ReadStep(w, e).Moved? && NotEndedEarly(w, i, r)
    ensures NotEndedEarly(ReadStep(w, e).world, i, r)
  {
    hide Apply;
    if e.JoinLive? && w.calls[e.read].run == i { OnlyInterruptsEndEarly(w.runs[i].sys, JoinReplay, r); }
  }

  lemma StepEndsNoneEarly(w: World, e: Event, i: nat, r: nat)
    requires Step(w, e).Moved? && !InterruptsRunReader(e, i, r) && NotEndedEarly(w, i, r)
    ensures NotEndedEarly(Step(w, e).world, i, r)
  {
    hide ReadStep, RunStep;
    match e
    case Persist(_, _) =>
    case CountHistory(_, _) =>
    case TryRegister(_) =>
    case LookUp(_) => ReadStepEndsNoneEarly(w, e, i, r);
    case ReadHistory(_, _) => ReadStepEndsNoneEarly(w, e, i, r);
    case ShowHistory(_, _) => ReadStepEndsNoneEarly(w, e, i, r);
    case JoinLive(_) => ReadStepEndsNoneEarly(w, e, i, r);
    case _ => RunStepEndsNoneEarly(w, e, e.run, i, r);
  }

  /** Only an interruption ends a run's reader early, in any schedule. */
  lemma {:induction false} OnlyInterruptsEndRunReader(w: World, events: seq<Event>, i: nat, r: nat)
    requires Execute(w, events).Moved? && NotEndedEarly(w, i, r)
    requires forall k :: 0 <= k < |events| ==> !InterruptsRunReader(events[k], i, r)
    ensures NotEndedEarly(Execute(w, events).world, i, r)
    decreases |events|
  {
    hide Step, NotEndedEarly, InterruptsRunReader;
    if events != [] {
      StepEndsNoneEarly(w, events[0], i, r);
      assert forall k :: 0 <= k < |events[1..]| ==> events[1..][k] == events[k + 1];
      OnlyInterruptsEndRunReader(Step(w, events[0]).world, events[1..], i, r);
    }
  }

  /** A ReadSession call that has ended, with no cancellation and no refusal of
      more in the schedule, has shown what it read of the history, the whole
      run, and the run's error once if there is one. */
  lemma UninterruptedReadSawTheRun(events: seq<Event>, w: World, j: nat)
    requires Execute(NEW_WORLD, events) == Moved(w) && j < |w.calls| && w.calls[j].stage.Streaming?
    requires w.calls[j].run < |w.runs| && w.calls[j].stage.reader < |w.runs[w.calls[j].run].sys.readers|
    requires w.runs[w.calls[j].run].sys.readers[w.calls[j].stage.reader].phase.Gone?
    requires forall k :: 0 <= k < |events| ==>
               !InterruptsRunReader(events[k], w.calls[j].run, w.calls[j].stage.reader)
    ensures FollowedToTheEnd(w, w.calls[j])
    ensures var run := w.runs[w.calls[j].run];
            && PrefixOk(run, w.calls[j]) && Shown(w, w.calls[j]) == w.calls[j].prefix + run.yielded
            && run.sys.readers[w.calls[j].stage.reader].errors == if run.err.Some? then [run.err.value] else []
  {
    hide Execute, Shown, PrefixOk, InterruptsRunReader;
    OnlyInterruptsEndRunReader(NEW_WORLD, events, w.calls[j].run, w.calls[j].stage.reader);
    HistoryThenLiveRun(events, w, j);
  }

  /** So has the caller of Run. */
  lemma UninterruptedCallerSawTheRun(events: seq<Event>, w: World, i: nat)
    requires Execute(NEW_WORLD, events) == Moved(w) && i < |w.runs| && !w.runs[i].stage.Registered?
    requires w.runs[i].consumer < |w.runs[i].sys.readers|
    requires w.runs[i].sys.readers[w.runs[i].consumer].phase.Gone?
    requires forall k :: 0 <= k < |events| ==> !InterruptsRunReader(events[k], i, w.runs[i].consumer)
    ensures var run := w.runs[i];
            && Delivered(run.sys.readers[run.consumer]) == run.yielded
            && run.sys.readers[run.consumer].errors == if run.err.Some? then [run.err.value] else []
  {
    hide Execute, Delivered, InterruptsRunReader;
    OnlyInterruptsEndRunReader(NEW_WORLD, events, i, w.runs[i].consumer);
    RunCallerSeesTheRun(events, w, i);
  }
}
