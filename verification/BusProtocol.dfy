/** The event bus of one run as a transition system: every interleaving of
    publishing, subscribing, replaying, unsubscribing, closing and channel
    receives (runtime/internal/event_bus.go).

    A step is what one goroutine does between two points where another can
    run.  Publish and Close take several steps while they hold the lock, since
    receivers do not need the lock to take from a channel. */
module BusProtocol {
  import opened Wrappers
  import opened SessionEvents

  /** Buffer size of a subscriber channel; a send to a full channel waits. */
  const CHANNEL_CAPACITY := 256

  type Error = string

  datatype Channel = Channel(queue: seq<SessionEvent>, closed: bool)

  /** Who holds the mutex across steps, and the subscribers still to visit. */
  datatype Lock =
    | Free
    | Publishing(event: SessionEvent, todo: set<nat>)
    | Closing(todo: set<nat>)

  /** `channels` holds every channel ever made, by the id of its subscriber;
      a channel outlives its entry in `subscribers`. */
  datatype Bus = Bus(
    buffer: seq<SessionEvent>,
    subscribers: set<nat>,
    nextId: nat,
    closed: bool,
    done: bool,
    finalErr: Option<Error>,
    lock: Lock,
    channels: map<nat, Channel>)

  const NEW_BUS := Bus([], {}, 0, false, false, None, Free, map[])

  // ----- What each critical section does to the bus -----

  function BeginPublish(b: Bus, event: SessionEvent): Bus {
    if b.closed then b
    else b.(buffer := b.buffer + [event], lock := Publishing(event, b.subscribers))
  }

  predicate CanSend(b: Bus, id: nat) {
    && b.lock.Publishing? && id in b.lock.todo && id in b.channels
    && |b.channels[id].queue| < CHANNEL_CAPACITY
  }

  function SendTo(b: Bus, id: nat): Bus
    requires CanSend(b, id)
  {
    var ch := b.channels[id];
    b.(channels := b.channels[id := ch.(queue := ch.queue + [b.lock.event])],
       lock := Publishing(b.lock.event, b.lock.todo - {id}))
  }

  function BeginClose(b: Bus, err: Option<Error>): Bus {
    if b.closed then b
    else b.(closed := true, finalErr := err, lock := Closing(b.subscribers))
  }

  function CloseOne(b: Bus, id: nat): Bus
    requires b.lock.Closing? && id in b.channels
  {
    b.(channels := b.channels[id := b.channels[id].(closed := true)],
       lock := Closing(b.lock.todo - {id}))
  }

  function EndClose(b: Bus): Bus {
    b.(subscribers := {}, done := true, lock := Free)
  }

  /** A fresh channel under the id `b.nextId`. */
  function Register(b: Bus): Bus {
    b.(subscribers := b.subscribers + {b.nextId}, nextId := b.nextId + 1,
       channels := b.channels[b.nextId := Channel([], false)])
  }

  function Remove(b: Bus, id: nat): Bus {
    b.(subscribers := b.subscribers - {id})
  }

  function Take(b: Bus, id: nat): Bus
    requires id in b.channels && b.channels[id].queue != []
  {
    b.(channels := b.channels[id := b.channels[id].(queue := b.channels[id].queue[1..])])
  }

  // ----- Readers -----

  /** Where a reader's loop stands.  `natural` is true when the loop ended by
      itself, false when it was cancelled or its consumer stopped it. */
  datatype Phase =
    | Replaying
    | Live
    | SawClosed
    | Holding(err: Option<Error>)
    | Leaving(natural: bool)
    | Gone(natural: bool)

  /** One consumer.  `start` is the buffer length when it registered;
      `snapshot` is its copy of the buffer (empty for a plain subscriber);
      `channel` is None when it arrived after the bus was closed. */
  datatype Reader = Reader(
    replay: bool,
    start: nat,
    snapshot: seq<SessionEvent>,
    channel: Option<nat>,
    closedErr: Option<Error>,
    phase: Phase,
    shown: nat,
    received: seq<SessionEvent>,
    errors: seq<Error>)

  /** Everything the reader has handed to its consumer. */
  function Delivered(r: Reader): seq<SessionEvent> {
    (if r.shown <= |r.snapshot| then r.snapshot[..r.shown] else r.snapshot) + r.received
  }

  datatype System = System(bus: Bus, readers: seq<Reader>)

  const NEW_SYSTEM := System(NEW_BUS, [])

  datatype Action =
    | PublishBegin(event: SessionEvent)
    | PublishSend(id: nat)
    | PublishEnd
    | CloseBegin(err: Option<Error>)
    | CloseChannel(id: nat)
    | CloseEnd
    | Subscribe
    | JoinReplay
    | ShowNext(r: nat, more: bool)
    | ReplayOver(r: nat)
    | Receive(r: nat, more: bool)
    | NoticeClosed(r: nat)
    | FetchError(r: nat)
    | TellError(r: nat)
    | Cancel(r: nat)
    | Leave(r: nat)

  /** `Panic` is Go's run-time panic: a send on a closed channel, or a second
      close of one. */
  datatype Outcome = Next(sys: System) | Blocked | Panic

  function Apply(s: System, a: Action): Outcome {
    match a
    case Subscribe => JoinStep(s, false)
    case JoinReplay => JoinStep(s, true)
    case ShowNext(r, more) => ReaderStep(s, a, r)
    case ReplayOver(r) => ReaderStep(s, a, r)
    case Receive(r, more) => ReaderStep(s, a, r)
    case NoticeClosed(r) => ReaderStep(s, a, r)
    case FetchError(r) => ReaderStep(s, a, r)
    case TellError(r) => ReaderStep(s, a, r)
    case Cancel(r) => ReaderStep(s, a, r)
    case Leave(r) => ReaderStep(s, a, r)
    case _ => WriterStep(s, a)
  }

  /** Publish and Close. */
  function WriterStep(s: System, a: Action): Outcome {
    var b := s.bus;
    match a
    case PublishBegin(event) =>
      if b.lock.Free? then Next(s.(bus := BeginPublish(b, event))) else Blocked
    case PublishSend(id) =>
      if !(b.lock.Publishing? && id in b.lock.todo && id in b.channels) then Blocked
      else if b.channels[id].closed then Panic
      else if CanSend(b, id) then Next(s.(bus := SendTo(b, id)))
      else Blocked
    case PublishEnd =>
      if b.lock.Publishing? && b.lock.todo == {} then Next(s.(bus := b.(lock := Free))) else Blocked
    case CloseBegin(err) =>
      if b.lock.Free? then Next(s.(bus := BeginClose(b, err))) else Blocked
    case CloseChannel(id) =>
      if !(b.lock.Closing? && id in b.lock.todo && id in b.channels) then Blocked
      else if b.channels[id].closed then Panic
      else Next(s.(bus := CloseOne(b, id)))
    case CloseEnd =>
      if !(b.lock.Closing? && b.lock.todo == {}) then Blocked
      else if b.done then Panic
      else Next(s.(bus := EndClose(b)))
    case _ => Blocked
  }

  /** Subscribe, or the atomic copy-and-register of replaySnapshot.  A plain
      Subscribe registers even on a closed bus. */
  function JoinStep(s: System, replay: bool): Outcome {
    var b := s.bus;
    if !b.lock.Free? then Blocked
    else
      var snapshot := if replay then b.buffer else [];
      var phase := if replay then Replaying else Live;
      if replay && b.closed then
        Next(s.(readers := s.readers +
          [Reader(true, |b.buffer|, snapshot, None, b.finalErr, phase, 0, [], [])]))
      else
        Next(System(Register(b), s.readers +
          [Reader(replay, |b.buffer|, snapshot, Some(b.nextId), None, phase, 0, [], [])]))
  }

  /** The loops of ReplayAndSubscribe, yieldLive and busSubscriberIterator. */
  function ReaderStep(s: System, a: Action, i: nat): Outcome {
    if i >= |s.readers| then Blocked
    else
      var b, r := s.bus, s.readers[i];
      match a
      case ShowNext(_, more) =>
        if !(r.phase.Replaying? && r.shown < |r.snapshot|) then Blocked
        else
          var r' := r.(shown := r.shown + 1);
          Put(s, i, if more then r' else r'.(phase := Parting(r, false)))
      case ReplayOver(_) =>
        if !(r.phase.Replaying? && r.shown == |r.snapshot|) then Blocked
        else Put(s, i, r.(phase := if r.channel.Some? then Live else Holding(r.closedErr)))
      case Receive(_, more) =>
        if !(r.phase.Live? && HasChannel(b, r) && b.channels[r.channel.value].queue != []) then Blocked
        else
          var r' := r.(received := r.received + [b.channels[r.channel.value].queue[0]]);
          Put(s.(bus := Take(b, r.channel.value)), i,
              if more then r' else r'.(phase := Leaving(false)))
      case NoticeClosed(_) =>
        if r.phase.Live? && HasChannel(b, r) && b.channels[r.channel.value].queue == []
           && b.channels[r.channel.value].closed
        then Put(s, i, r.(phase := SawClosed)) else Blocked
      case FetchError(_) =>
        if r.phase.SawClosed? && b.lock.Free? then Put(s, i, r.(phase := Holding(b.finalErr)))
        else Blocked
      case TellError(_) =>
        if !r.phase.Holding? then Blocked
        else
          var told := if r.phase.err.Some? then r.errors + [r.phase.err.value] else r.errors;
          Put(s, i, r.(errors := told, phase := Parting(r, true)))
      case Cancel(_) =>
        if r.phase.Live? then Put(s, i, r.(phase := Leaving(false))) else Blocked
      case Leave(_) =>
        if !(r.phase.Leaving? && b.lock.Free? && r.channel.Some?) then Blocked
        else Put(s.(bus := Remove(b, r.channel.value)), i, r.(phase := Gone(r.phase.natural)))
      case _ => Blocked
  }

  predicate HasChannel(b: Bus, r: Reader) {
    r.channel.Some? && r.channel.value in b.channels
  }

  /** A reader without a channel has nothing to unregister. */
  function Parting(r: Reader, natural: bool): Phase {
    if r.channel.Some? then Leaving(natural) else Gone(natural)
  }

  function Put(s: System, i: nat, r: Reader): Outcome
    requires i < |s.readers|
  {
    Next(s.(readers := s.readers[i := r]))
  }

  /** A schedule: any actions by any goroutines, one after the other.  A
      schedule that names a blocked action is not a run. */
  function Exec(s: System, actions: seq<Action>): Outcome
    decreases |actions|
  {
    if actions == [] then Next(s)
    else
      match Apply(s, actions[0])
      case Next(s') => Exec(s', actions[1..])
      case other => other
  }
}
