/** Background runs over many sessions as a transition system: counting
    history, registering, producing events, closing and removing, with
    ReadSession calls joining at any moment
    (runtime/internal/background_runner.go).  Each run has its own event bus. */
module RunnerProtocol {
  import opened Wrappers
  import opened SessionEvents
  import opened BusProtocol

  type SessionId = string

  /** A Run call that has counted history and not yet taken the lock. */
  datatype Attempt = Pending(session: SessionId, count: nat) | Accepted | Rejected

  datatype Stage = Registered | Producing | Ending | Removed

  /** `logAtStart` is the stored log when the run registered; `yielded` is
      what the underlying runner has yielded so far. */
  datatype Run = Run(
    session: SessionId,
    count: nat,
    logAtStart: seq<SessionEvent>,
    sys: System,
    consumer: nat,
    yielded: seq<SessionEvent>,
    err: Option<Error>,
    stage: Stage)

  /** A ReadSession call that found an active run.  `cut` is true when the
      history iterator failed before the count was reached. */
  datatype ReadStage = LookedUp | HasHistory(prefix: seq<SessionEvent>, cut: bool, shown: nat) | Stopped(shown: nat)
    | Streaming(reader: nat)

  datatype Read = Read(run: nat, stage: ReadStage, prefix: seq<SessionEvent>, cut: bool)

  datatype World = World(
    logs: map<SessionId, seq<SessionEvent>>,
    active: map<SessionId, nat>,
    attempts: seq<Attempt>,
    runs: seq<Run>,
    calls: seq<Read>)

  const NEW_WORLD := World(map[], map[], [], [], [])

  function Log(w: World, session: SessionId): seq<SessionEvent> {
    if session in w.logs then w.logs[session] else []
  }

  /** What an iterator over `log` yields before it ends or fails. */
  function Readable(log: seq<SessionEvent>, failAt: Option<nat>): seq<SessionEvent> {
    if failAt.Some? && failAt.value < |log| then log[..failAt.value] else log
  }

  function FirstN(events: seq<SessionEvent>, n: nat): seq<SessionEvent> {
    if n < |events| then events[..n] else events
  }

  datatype Event =
    | Persist(session: SessionId, event: SessionEvent)
    | CountHistory(session: SessionId, failAt: Option<nat>)
    | TryRegister(attempt: nat)
    | SubscribeCaller(run: nat)
    | Produce(run: nat, event: SessionEvent)
    | EndRun(run: nat, err: Option<Error>)
    | RemoveRun(run: nat)
    | OnBus(run: nat, action: Action)
    | LookUp(session: SessionId)
    | ReadHistory(read: nat, failAt: Option<nat>)
    | ShowHistory(read: nat, more: bool)
    | JoinLive(read: nat)

  datatype Result = Moved(world: World) | Waits | Panics

  function Step(w: World, e: Event): Result {
    match e
    case Persist(session, event) => Moved(w.(logs := w.logs[session := Log(w, session) + [event]]))
    case CountHistory(session, failAt) =>
      Moved(w.(attempts := w.attempts + [Pending(session, |Readable(Log(w, session), failAt)|)]))
    case TryRegister(k) => if k < |w.attempts| && w.attempts[k].Pending? then Moved(Admit(w, k)) else Waits
    case LookUp(_) => ReadStep(w, e)
    case ReadHistory(_, _) => ReadStep(w, e)
    case ShowHistory(_, _) => ReadStep(w, e)
    case JoinLive(_) => ReadStep(w, e)
    case _ => if e.run < |w.runs| then RunStep(w, e, e.run) else Waits
  }

  /** The critical section of Run. */
  function Admit(w: World, k: nat): World
    requires k < |w.attempts| && w.attempts[k].Pending?
  {
    var Pending(session, count) := w.attempts[k];
    if session in w.active then w.(attempts := w.attempts[k := Rejected])
    else
      w.(attempts := w.attempts[k := Accepted],
         active := w.active[session := |w.runs|],
         runs := w.runs + [Run(session, count, Log(w, session), NEW_SYSTEM, 0, [], None, Registered)])
  }

  /** Actions a run's bus takes on its own account: the rest of a Publish or
      Close under way, and its readers. */
  predicate FreeOnBus(a: Action) {
    !a.PublishBegin? && !a.CloseBegin? && !a.Subscribe? && !a.JoinReplay?
  }

  /** Run after registration, then runBackground. */
  function RunStep(w: World, e: Event, i: nat): Result
    requires i < |w.runs|
  {
    var run := w.runs[i];
    match e
    case SubscribeCaller(_) =>
      if run.stage.Registered?
      then Lift(w, i, run.(stage := Producing, consumer := |run.sys.readers|), Apply(run.sys, Subscribe)) else Waits
    case Produce(_, event) =>
      if run.stage.Producing?
      then Lift(w, i, run.(yielded := run.yielded + [event]), Apply(run.sys, PublishBegin(event))) else Waits
    case EndRun(_, err) =>
      if run.stage.Producing?
      then Lift(w, i, run.(err := err, stage := Ending), Apply(run.sys, CloseBegin(err))) else Waits
    case RemoveRun(_) =>
      if run.stage.Ending? && run.sys.bus.lock.Free?
      then Moved(w.(active := w.active - {run.session}, runs := w.runs[i := run.(stage := Removed)])) else Waits
    case OnBus(_, a) => if FreeOnBus(a) then Lift(w, i, run, Apply(run.sys, a)) else Waits
    case _ => Waits
  }

  function Lift(w: World, i: nat, run: Run, o: Outcome): Result
    requires i < |w.runs|
  {
    match o
    case Next(sys) => Moved(w.(runs := w.runs[i := run.(sys := sys)]))
    case Blocked => Waits
    case Panic => Panics
  }

  /** ReadSession on an active session: look up under the lock, read at most
      the counted prefix from storage, show it, then replay and follow the
      run's bus. */
  function ReadStep(w: World, e: Event): Result {
    match e
    case LookUp(session) =>
      if session in w.active then Moved(w.(calls := w.calls + [Read(w.active[session], LookedUp, [], false)]))
      else Waits
    case ReadHistory(j, failAt) =>
      if j < |w.calls| && w.calls[j].stage.LookedUp? && w.calls[j].run < |w.runs| then
        var run := w.runs[w.calls[j].run];
        var readable := Readable(Log(w, run.session), failAt);
        var prefix := FirstN(readable, run.count);
        var cut := |readable| < run.count;
        Moved(w.(calls := w.calls[j := w.calls[j].(stage := HasHistory(prefix, cut, 0), prefix := prefix, cut := cut)]))
      else Waits
    case ShowHistory(j, more) =>
      if j < |w.calls| && w.calls[j].stage.HasHistory? && w.calls[j].stage.shown < |w.calls[j].prefix| then
        var stage := w.calls[j].stage;
        Moved(w.(calls := w.calls[j := w.calls[j].(stage :=
          if more then stage.(shown := stage.shown + 1) else Stopped(stage.shown + 1))]))
      else Waits
    case JoinLive(j) =>
      if j < |w.calls| && w.calls[j].stage.HasHistory? && w.calls[j].stage.shown == |w.calls[j].prefix|
         && w.calls[j].run < |w.runs| then
        var i := w.calls[j].run;
        var sys := w.runs[i].sys;
        var w' := w.(calls := w.calls[j := w.calls[j].(stage := Streaming(|sys.readers|))]);
        Lift(w', i, w.runs[i], Apply(sys, JoinReplay))
      else Waits
    case _ => Waits
  }

  function Execute(w: World, events: seq<Event>): Result
    decreases |events|
  {
    if events == [] then Moved(w)
    else
      match Step(w, events[0])
      case Moved(w') => Execute(w', events[1..])
      case other => other
  }
}
