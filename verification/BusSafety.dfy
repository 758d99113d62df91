/** What every reachable state of the event bus satisfies: no reader misses or
    repeats an event, no goroutine panics on a channel, and the first Close
    decides the error every reader is told. */
module BusSafety {
  import opened Wrappers
  import opened SessionEvents
  import opened BusProtocol

  // ----- The invariant -----

  ghost predicate LockOk(b: Bus) {
    match b.lock
    case Free => b.closed == b.done
    case Publishing(event, todo) =>
      !b.closed && !b.done && todo <= b.subscribers && b.buffer != [] && b.buffer[|b.buffer| - 1] == event
    case Closing(todo) =>
      b.closed && !b.done && todo <= b.subscribers
  }

  /** During Close exactly the visited subscribers have a closed channel; at
      any other time no subscriber has one. */
  ghost predicate SubscriberOk(b: Bus, id: nat) {
    && id in b.channels
    && (b.channels[id].closed <==> b.lock.Closing? && id !in b.lock.todo)
  }

  ghost predicate BusOk(b: Bus) {
    && LockOk(b)
    && (!b.closed ==> b.finalErr.None?)
    && (forall id :: id in b.subscribers ==> SubscriberOk(b, id))
    && (forall id :: id in b.channels ==>
          id < b.nextId && |b.channels[id].queue| <= CHANNEL_CAPACITY && (b.channels[id].closed ==> b.closed))
  }

  predicate Awaits(b: Bus, id: nat) {
    b.lock.Publishing? && id in b.lock.todo
  }

  /** The events a subscriber has been sent: everything published since it
      registered, except that a publish under way may not have reached it. */
  ghost function Sent(b: Bus, r: Reader, id: nat): seq<SessionEvent>
    requires r.start <= |b.buffer|
  {
    if Awaits(b, id) && r.start < |b.buffer| then b.buffer[r.start..|b.buffer| - 1] else b.buffer[r.start..]
  }

  ghost predicate ChannelOk(b: Bus, r: Reader, id: nat)
    requires r.start <= |b.buffer|
  {
    && id in b.channels
    && (Awaits(b, id) ==> r.start < |b.buffer|)
    && (b.closed && !b.lock.Closing? && id in b.subscribers ==> !r.replay && r.start == |b.buffer|)
    && (if r.phase.Gone?
        then id !in b.subscribers
             && r.received + b.channels[id].queue <= b.buffer[r.start..]
             && (r.phase.natural ==> r.received + b.channels[id].queue == b.buffer[r.start..])
        else (id in b.subscribers || b.channels[id].closed)
             && r.received + b.channels[id].queue == Sent(b, r, id))
  }

  /** A reader that ran to its natural end drained a closed channel (or
      replayed a closed bus) and was told the bus's error. */
  ghost predicate PhaseOk(b: Bus, r: Reader) {
    && (r.shown < |r.snapshot| ==> r.received == [] && (r.phase.Replaying? || Ended(r, false)))
    && (r.phase.Replaying? ==> r.received == [])
    && (r.phase.Live? ==> r.channel.Some?)
    && (r.phase.Leaving? ==> r.channel.Some?)
    && (r.phase.Holding? ==> b.closed && r.phase.err == b.finalErr)
    && (r.phase.SawClosed? || r.phase.Holding? || Ended(r, true) ==>
          && b.closed
          && (r.channel.Some? ==> HasChannel(b, r) && b.channels[r.channel.value].closed
                                  && b.channels[r.channel.value].queue == []))
    && r.errors == (if Ended(r, true) && b.finalErr.Some? then [b.finalErr.value] else [])
  }

  predicate Ended(r: Reader, natural: bool) {
    (r.phase.Leaving? || r.phase.Gone?) && r.phase.natural == natural
  }

  ghost predicate ReaderOk(b: Bus, r: Reader) {
    && r.start <= |b.buffer|
    && r.snapshot == (if r.replay then b.buffer[..r.start] else [])
    && r.shown <= |r.snapshot|
    && (r.channel.None? ==>
          r.replay && b.closed && r.closedErr == b.finalErr && r.start == |b.buffer| && r.received == [])
    && (r.channel.Some? ==> ChannelOk(b, r, r.channel.value))
    && PhaseOk(b, r)
  }

  ghost predicate DistinctChannels(readers: seq<Reader>) {
    forall i, j :: 0 <= i < j < |readers| && readers[i].channel.Some? ==> readers[i].channel != readers[j].channel
  }

  ghost predicate Inv(s: System) {
    && BusOk(s.bus)
    && (forall i :: 0 <= i < |s.readers| ==> ReaderOk(s.bus, s.readers[i]))
    && DistinctChannels(s.readers)
  }

  // ----- Every step keeps it -----

  lemma BeginPublishKeepsReader(b: Bus, event: SessionEvent, r: Reader)
    requires BusOk(b) && b.lock.Free? && ReaderOk(b, r)
    ensures ReaderOk(BeginPublish(b, event), r)
  {
    var b' := BeginPublish(b, event);
    if !b.closed {
      assert b'.buffer[..r.start] == b.buffer[..r.start];
      assert b'.buffer[r.start..|b'.buffer| - 1] == b.buffer[r.start..];
      assert b'.buffer[r.start..] == b.buffer[r.start..] + [event];
      if r.channel.Some? && !r.phase.Gone? {
        assert r.channel.value in b.subscribers;
        assert Sent(b', r, r.channel.value) == Sent(b, r, r.channel.value);
      }
    }
  }

  lemma SendKeepsPhase(b: Bus, id: nat, r: Reader)
    requires BusOk(b) && CanSend(b, id) && !b.channels[id].closed && PhaseOk(b, r)
    ensures PhaseOk(SendTo(b, id), r)
  {
  }

  lemma SendKeepsOwnChannel(b: Bus, id: nat, r: Reader)
    requires BusOk(b) && CanSend(b, id) && !b.channels[id].closed && r.start <= |b.buffer| && ChannelOk(b, r, id)
    ensures ChannelOk(SendTo(b, id), r, id)
  {
    assert SubscriberOk(b, id);
    assert b.buffer[r.start..] == b.buffer[r.start..|b.buffer| - 1] + [b.lock.event];
    assert r.received + (b.channels[id].queue + [b.lock.event])
        == r.received + b.channels[id].queue + [b.lock.event];
  }

  lemma SendKeepsOtherChannel(b: Bus, id: nat, r: Reader, other: nat)
    requires BusOk(b) && CanSend(b, id) && other != id && r.start <= |b.buffer| && ChannelOk(b, r, other)
    ensures ChannelOk(SendTo(b, id), r, other)
  {
    assert Awaits(SendTo(b, id), other) == Awaits(b, other);
  }

  lemma SendKeepsReader(b: Bus, id: nat, r: Reader)
    requires BusOk(b) && CanSend(b, id) && !b.channels[id].closed && ReaderOk(b, r)
    ensures ReaderOk(SendTo(b, id), r)
  {
    hide PhaseOk, ChannelOk, BusOk;
    SendKeepsPhase(b, id, r);
    if r.channel.Some? {
      if r.channel.value == id {
        SendKeepsOwnChannel(b, id, r);
      } else {
        SendKeepsOtherChannel(b, id, r, r.channel.value);
      }
    }
  }

  lemma CloseKeepsReader(s: System, a: Action, r: Reader)
    requires BusOk(s.bus) && ReaderOk(s.bus, r) && WriterStep(s, a).Next?
    requires a.CloseBegin? || a.CloseChannel? || a.CloseEnd?
    ensures ReaderOk(WriterStep(s, a).sys.bus, r)
  {
  }

  lemma WriterStepKeepsReader(s: System, a: Action, r: Reader)
    requires BusOk(s.bus) && ReaderOk(s.bus, r) && WriterStep(s, a).Next?
    ensures ReaderOk(WriterStep(s, a).sys.bus, r)
  {
    match a
    case PublishBegin(event) => BeginPublishKeepsReader(s.bus, event, r);
    case PublishSend(id) => SendKeepsReader(s.bus, id, r);
    case PublishEnd =>
    case _ => CloseKeepsReader(s, a, r);
  }

  lemma WriterStepKeepsBus(s: System, a: Action)
    requires BusOk(s.bus)
    ensures !WriterStep(s, a).Panic?
    ensures WriterStep(s, a).Next? ==> BusOk(WriterStep(s, a).sys.bus) && WriterStep(s, a).sys.readers == s.readers
  {
    if a.PublishSend? && s.bus.lock.Publishing? && a.id in s.bus.lock.todo {
      assert SubscriberOk(s.bus, a.id);
    }
    if a.CloseChannel? && s.bus.lock.Closing? && a.id in s.bus.lock.todo {
      assert SubscriberOk(s.bus, a.id);
    }
    if WriterStep(s, a).Next? {
      var b' := WriterStep(s, a).sys.bus;
      forall id | id in b'.subscribers ensures SubscriberOk(b', id) {
        assert SubscriberOk(s.bus, id);
      }
    }
  }

  lemma RegisterKeepsBusOk(b: Bus)
    requires BusOk(b) && b.lock.Free?
    ensures BusOk(Register(b))
  {
    forall id | id in Register(b).subscribers ensures SubscriberOk(Register(b), id) {
      if id != b.nextId { assert SubscriberOk(b, id); }
    }
  }

  lemma RegisterKeepsReader(b: Bus, r: Reader)
    requires BusOk(b) && b.lock.Free? && ReaderOk(b, r)
    ensures ReaderOk(Register(b), r) && r.channel != Some(b.nextId)
  {
  }

  lemma NewReaderOk(s: System, replay: bool)
    requires BusOk(s.bus) && JoinStep(s, replay).Next?
    ensures var s' := JoinStep(s, replay).sys;
            && s'.readers == s.readers + [s'.readers[|s.readers|]]
            && ReaderOk(s'.bus, s'.readers[|s.readers|])
            && (s'.bus == s.bus || s'.bus == Register(s.bus))
            && (s'.readers[|s.readers|].channel.Some? ==>
                  s'.readers[|s.readers|].channel == Some(s.bus.nextId) && s'.bus == Register(s.bus))
  {
    assert s.bus.buffer[|s.bus.buffer|..] == [];
  }

  lemma JoinStepKeepsInv(s: System, replay: bool)
    requires Inv(s) && JoinStep(s, replay).Next?
    ensures Inv(JoinStep(s, replay).sys)
  {
    hide BusOk, ReaderOk;
    var s' := JoinStep(s, replay).sys;
    NewReaderOk(s, replay);
    RegisterKeepsBusOk(s.bus);
    forall i | 0 <= i < |s.readers|
      ensures ReaderOk(s'.bus, s.readers[i]) && s.readers[i].channel != Some(s.bus.nextId)
    {
      RegisterKeepsReader(s.bus, s.readers[i]);
    }
  }

  lemma ReceiveKeepsItself(s: System, a: Action, i: nat)
    requires Inv(s) && a.Receive? && ReaderStep(s, a, i).Next?
    ensures ReaderOk(ReaderStep(s, a, i).sys.bus, ReaderStep(s, a, i).sys.readers[i])
  {
    var b, r := s.bus, s.readers[i];
    assert ReaderOk(b, r);
    var ch := b.channels[r.channel.value];
    var r' := ReaderStep(s, a, i).sys.readers[i];
    assert r'.received + ch.queue[1..] == r.received + ch.queue;
    assert Sent(ReaderStep(s, a, i).sys.bus, r', r.channel.value) == Sent(b, r, r.channel.value);
  }

  lemma LeaveKeepsItself(s: System, i: nat)
    requires Inv(s) && ReaderStep(s, Leave(i), i).Next?
    ensures ReaderOk(ReaderStep(s, Leave(i), i).sys.bus, ReaderStep(s, Leave(i), i).sys.readers[i])
  {
    assert ReaderOk(s.bus, s.readers[i]);
  }

  /** A step that neither takes from a channel nor leaves keeps bus, channel
      and what was received. */
  lemma QuietStepShape(s: System, a: Action, i: nat)
    requires !a.Receive? && !a.Leave? && ReaderStep(s, a, i).Next?
    ensures i < |s.readers| && |ReaderStep(s, a, i).sys.readers| == |s.readers|
    ensures var r, r' := s.readers[i], ReaderStep(s, a, i).sys.readers[i];
            && ReaderStep(s, a, i).sys.bus == s.bus && !r.phase.Gone?
            && r' == r.(phase := r'.phase, shown := r'.shown, errors := r'.errors)
            && (r'.phase.Gone? ==> r.channel.None?)
  {
  }

  lemma QuietStepKeepsPhase(s: System, a: Action, i: nat)
    requires BusOk(s.bus) && !a.Receive? && !a.Leave? && ReaderStep(s, a, i).Next? && ReaderOk(s.bus, s.readers[i])
    ensures PhaseOk(s.bus, ReaderStep(s, a, i).sys.readers[i])
    ensures ReaderStep(s, a, i).sys.readers[i].shown <= |s.readers[i].snapshot|
  {
    hide ChannelOk, SubscriberOk;
  }

  lemma QuietStepKeepsItself(s: System, a: Action, i: nat)
    requires Inv(s) && !a.Receive? && !a.Leave? && ReaderStep(s, a, i).Next?
    ensures ReaderOk(ReaderStep(s, a, i).sys.bus, ReaderStep(s, a, i).sys.readers[i])
  {
    hide ReaderStep, PhaseOk, BusOk, DistinctChannels;
    QuietStepShape(s, a, i);
    var r, r' := s.readers[i], ReaderStep(s, a, i).sys.readers[i];
    assert ReaderOk(s.bus, r);
    QuietStepKeepsPhase(s, a, i);
    if r.channel.Some? { assert Sent(s.bus, r', r.channel.value) == Sent(s.bus, r, r.channel.value); }
  }

  /** The one reader that moves. */
  lemma ReaderStepKeepsItself(s: System, a: Action, i: nat)
    requires Inv(s) && ReaderStep(s, a, i).Next?
    ensures i < |s.readers| && |ReaderStep(s, a, i).sys.readers| == |s.readers|
    ensures ReaderOk(ReaderStep(s, a, i).sys.bus, ReaderStep(s, a, i).sys.readers[i])
  {
    if a.Receive? {
      ReceiveKeepsItself(s, a, i);
    } else if a.Leave? {
      assert ReaderStep(s, a, i) == ReaderStep(s, Leave(i), i);
      LeaveKeepsItself(s, i);
    } else {
      QuietStepKeepsItself(s, a, i);
    }
  }

  /** A reader's step touches the bus only at the reader's own channel. */
  ghost predicate TouchesOnly(b: Bus, b': Bus, ch: Option<nat>) {
    && b' == b.(subscribers := b'.subscribers, channels := b'.channels)
    && forall id :: Some(id) != ch ==>
         && (id in b.subscribers <==> id in b'.subscribers)
         && (id in b.channels <==> id in b'.channels)
         && (id in b.channels ==> b'.channels[id] == b.channels[id])
  }

  lemma ReaderStepShape(s: System, a: Action, i: nat)
    requires ReaderStep(s, a, i).Next?
    ensures i < |s.readers| && |ReaderStep(s, a, i).sys.readers| == |s.readers|
    ensures ReaderStep(s, a, i).sys.readers == s.readers[i := ReaderStep(s, a, i).sys.readers[i]]
    ensures ReaderStep(s, a, i).sys.readers[i].channel == s.readers[i].channel
    ensures TouchesOnly(s.bus, ReaderStep(s, a, i).sys.bus, s.readers[i].channel)
  {
  }

  lemma OtherChannelKept(b: Bus, b': Bus, ch: Option<nat>, r: Reader)
    requires ReaderOk(b, r) && TouchesOnly(b, b', ch) && (r.channel.Some? ==> r.channel != ch)
    ensures ReaderOk(b', r)
  {
    hide BusOk;
    if r.channel.Some? {
      var id := r.channel.value;
      assert Awaits(b', id) == Awaits(b, id);
      assert Sent(b', r, id) == Sent(b, r, id);
    }
  }

  lemma ReaderStepKeepsOthers(s: System, a: Action, i: nat, j: nat)
    requires Inv(s) && ReaderStep(s, a, i).Next? && j < |s.readers| && j != i
    ensures ReaderStep(s, a, i).sys.readers[j] == s.readers[j]
    ensures ReaderOk(ReaderStep(s, a, i).sys.bus, s.readers[j])
  {
    hide ReaderStep, ReaderOk, BusOk, TouchesOnly;
    ReaderStepShape(s, a, i);
    assert ReaderOk(s.bus, s.readers[j]);
    OtherChannelKept(s.bus, ReaderStep(s, a, i).sys.bus, s.readers[i].channel, s.readers[j]);
  }

  lemma ReaderStepKeepsBus(s: System, a: Action, i: nat)
    requires Inv(s) && ReaderStep(s, a, i).Next?
    ensures BusOk(ReaderStep(s, a, i).sys.bus)
  {
    var b' := ReaderStep(s, a, i).sys.bus;
    assert ReaderOk(s.bus, s.readers[i]);
    forall id | id in b'.subscribers ensures SubscriberOk(b', id) {
      assert SubscriberOk(s.bus, id);
    }
  }

  lemma ReaderStepKeepsInv(s: System, a: Action, i: nat)
    requires Inv(s) && ReaderStep(s, a, i).Next?
    ensures Inv(ReaderStep(s, a, i).sys)
  {
    hide ReaderStep, ReaderOk, BusOk, TouchesOnly;
    var s' := ReaderStep(s, a, i).sys;
    ReaderStepShape(s, a, i);
    ReaderStepKeepsItself(s, a, i);
    ReaderStepKeepsBus(s, a, i);
    forall j | 0 <= j < |s'.readers| ensures ReaderOk(s'.bus, s'.readers[j]) {
      if j != i { ReaderStepKeepsOthers(s, a, i, j); }
    }
  }

  /** One step from a good state neither panics nor breaks the invariant. */
  lemma StepKeepsInv(s: System, a: Action)
    requires Inv(s)
    ensures !Apply(s, a).Panic?
    ensures Apply(s, a).Next? ==> Inv(Apply(s, a).sys)
  {
    if a.Subscribe? || a.JoinReplay? {
      if Apply(s, a).Next? { JoinStepKeepsInv(s, a.JoinReplay?); }
    } else if Apply(s, a) == WriterStep(s, a) {
      WriterStepKeepsBus(s, a);
      if Apply(s, a).Next? {
        forall i | 0 <= i < |s.readers| ensures ReaderOk(Apply(s, a).sys.bus, s.readers[i]) {
          WriterStepKeepsReader(s, a, s.readers[i]);
        }
      }
    } else if Apply(s, a).Next? {
      ReaderStepKeepsInv(s, a, a.r);
    }
  }

  lemma {:induction false} RunKeepsInv(s: System, actions: seq<Action>)
    requires Inv(s)
    ensures !Exec(s, actions).Panic?
    ensures Exec(s, actions).Next? ==> Inv(Exec(s, actions).sys)
    decreases |actions|
  {
    if actions != [] {
      StepKeepsInv(s, actions[0]);
      if Apply(s, actions[0]).Next? {
        RunKeepsInv(Apply(s, actions[0]).sys, actions[1..]);
      }
    }
  }

  // ----- What this means for every schedule -----

  lemma InitialInv()
    ensures Inv(NEW_SYSTEM)
  {
  }

  /** No interleaving sends on a closed channel or closes a channel twice. */
  lemma NeverPanics(actions: seq<Action>)
    ensures !Exec(NEW_SYSTEM, actions).Panic?
  {
    RunKeepsInv(NEW_SYSTEM, actions);
  }

  /** What a replay reader has been shown, or will find in its channel. */
  ghost function Owed(b: Bus, r: Reader): seq<SessionEvent>
    requires HasChannel(b, r)
  {
    r.snapshot + r.received + b.channels[r.channel.value].queue
  }

  /** The buffer as far as this reader has been served: a publish under way
      may not have reached it. */
  ghost function ServedPart(b: Bus, r: Reader): seq<SessionEvent> {
    if r.channel.Some? && Awaits(b, r.channel.value) && b.buffer != [] then b.buffer[..|b.buffer| - 1] else b.buffer
  }

  lemma SplitJoin(buffer: seq<SessionEvent>, start: nat, end: nat)
    requires start <= end <= |buffer|
    ensures buffer[..start] + buffer[start..end] == buffer[..end]
  {
  }

  lemma ReplayReaderOwed(b: Bus, r: Reader)
    requires ReaderOk(b, r) && r.replay && r.channel.Some? && !r.phase.Gone?
    ensures HasChannel(b, r) && Owed(b, r) == ServedPart(b, r)
  {
    assert Owed(b, r) == r.snapshot + (r.received + b.channels[r.channel.value].queue);
    SplitJoin(b.buffer, r.start, if Awaits(b, r.channel.value) then |b.buffer| - 1 else |b.buffer|);
  }

  lemma ReplayReaderDelivered(b: Bus, r: Reader)
    requires ReaderOk(b, r) && r.replay
    ensures Delivered(r) <= b.buffer
  {
    if r.shown == |r.snapshot| {
      if r.channel.Some? {
        assert r.received <= r.received + b.channels[r.channel.value].queue <= b.buffer[r.start..];
      }
      SplitJoin(b.buffer, r.start, r.start + |r.received|);
      assert b.buffer[r.start..][..|r.received|] == b.buffer[r.start..r.start + |r.received|];
    }
  }

  /** A registered replay reader misses nothing and repeats nothing: its
      snapshot, what it took and what waits in its channel are the buffer, but
      for the event of a publish that has not reached it yet.  One that left
      has been shown a prefix of the buffer. */
  lemma ReplayThenLiveIsTheBuffer(actions: seq<Action>, s: System, i: nat)
    requires Exec(NEW_SYSTEM, actions) == Next(s) && i < |s.readers| && s.readers[i].replay
    ensures Delivered(s.readers[i]) <= s.bus.buffer
    ensures s.readers[i].channel.Some? && !s.readers[i].phase.Gone? ==>
              HasChannel(s.bus, s.readers[i])
              && Owed(s.bus, s.readers[i]) == ServedPart(s.bus, s.readers[i])
  {
    RunKeepsInv(NEW_SYSTEM, actions);
    ReplayReaderDelivered(s.bus, s.readers[i]);
    if s.readers[i].channel.Some? && !s.readers[i].phase.Gone? {
      ReplayReaderOwed(s.bus, s.readers[i]);
    }
  }

  /** A plain subscriber sees exactly what is published after it registered. */
  lemma SubscriberSeesWhatFollows(actions: seq<Action>, s: System, i: nat)
    requires Exec(NEW_SYSTEM, actions) == Next(s) && i < |s.readers| && !s.readers[i].replay
    ensures var r := s.readers[i];
            && r.start <= |s.bus.buffer|
            && Delivered(r) <= s.bus.buffer[r.start..]
            && (Ended(r, true) ==> Delivered(r) == s.bus.buffer[r.start..])
  {
    RunKeepsInv(NEW_SYSTEM, actions);
    var b, r := s.bus, s.readers[i];
    assert ReaderOk(b, r);
    assert Delivered(r) == r.received;
    assert r.received <= r.received + b.channels[r.channel.value].queue <= b.buffer[r.start..];
    if b.closed { NaturalEndSawEverything(b, r); }
  }

  /** A reader whose loop ended by itself took all that was published. */
  lemma NaturalEndSawEverything(b: Bus, r: Reader)
    requires BusOk(b) && ReaderOk(b, r) && b.closed
    ensures Ended(r, true) ==>
              r.received == b.buffer[r.start..] && r.shown == |r.snapshot|
              && Delivered(r) == if r.replay then b.buffer else b.buffer[r.start..]
  {
    if Ended(r, true) {
      assert r.channel.Some? ==> r.received + [] == r.received;
      assert r.channel.None? ==> b.buffer[r.start..] == [];
      assert b.buffer == b.buffer[..r.start] + b.buffer[r.start..];
    }
  }

  /** A reader that was neither cancelled nor stopped and has finished was
      shown the whole run, then its error exactly once if there was one. */
  lemma FinishedReaderSawTheRun(actions: seq<Action>, s: System, i: nat)
    requires Exec(NEW_SYSTEM, actions) == Next(s) && i < |s.readers|
    requires s.readers[i].phase.Gone? && !Interrupted(actions, i)
    ensures s.bus.closed
    ensures s.readers[i].start <= |s.bus.buffer|
    ensures Delivered(s.readers[i])
         == if s.readers[i].replay then s.bus.buffer else s.bus.buffer[s.readers[i].start..]
    ensures s.readers[i].errors == if s.bus.finalErr.Some? then [s.bus.finalErr.value] else []
  {
    RunKeepsInv(NEW_SYSTEM, actions);
    UninterruptedEndsNaturally(NEW_SYSTEM, actions, i);
    assert ReaderOk(s.bus, s.readers[i]);
    NaturalEndSawEverything(s.bus, s.readers[i]);
  }

  predicate InterruptsReader(a: Action, i: nat) {
    || a == Cancel(i)
    || a == ShowNext(i, false)
    || a == Receive(i, false)
  }

  /** The reader's context was cancelled, or its consumer asked for no more. */
  ghost predicate Interrupted(actions: seq<Action>, i: nat) {
    exists k :: 0 <= k < |actions| && InterruptsReader(actions[k], i)
  }

  lemma OnlyInterruptsEndEarly(s: System, a: Action, i: nat)
    requires !InterruptsReader(a, i) && Apply(s, a).Next?
    requires i < |s.readers| ==> !Ended(s.readers[i], false)
    ensures i < |Apply(s, a).sys.readers| ==> !Ended(Apply(s, a).sys.readers[i], false)
  {
  }

  lemma {:induction false} UninterruptedEndsNaturally(s: System, actions: seq<Action>, i: nat)
    requires !Interrupted(actions, i)
    requires i < |s.readers| ==> !Ended(s.readers[i], false)
    ensures Exec(s, actions).Next? && i < |Exec(s, actions).sys.readers| ==>
              !Ended(Exec(s, actions).sys.readers[i], false)
    decreases |actions|
  {
    if actions != [] && Apply(s, actions[0]).Next? {
      var s' := Apply(s, actions[0]).sys;
      assert !InterruptsReader(actions[0], i);
      OnlyInterruptsEndEarly(s, actions[0], i);
      forall k | 0 <= k < |actions[1..]| ensures !InterruptsReader(actions[1..][k], i) {
        assert actions[1..][k] == actions[k + 1];
      }
      UninterruptedEndsNaturally(s', actions[1..], i);
    }
  }

  /** The buffer only grows, and a closed bus changes neither its buffer nor
      its error. */
  ghost predicate Continues(b: Bus, b': Bus) {
    b.buffer <= b'.buffer && (b.closed ==> b'.closed && b'.buffer == b.buffer && b'.finalErr == b.finalErr)
  }

  lemma StepContinues(s: System, a: Action)
    requires Apply(s, a).Next?
    ensures Continues(s.bus, Apply(s, a).sys.bus)
  {
  }

  /** The first Close decides the error and the events for good. */
  lemma {:induction false} FirstCloseIsFinal(s: System, actions: seq<Action>)
    requires Exec(s, actions).Next?
    ensures Continues(s.bus, Exec(s, actions).sys.bus)
    decreases |actions|
  {
    if actions != [] {
      StepContinues(s, actions[0]);
      FirstCloseIsFinal(Apply(s, actions[0]).sys, actions[1..]);
    }
  }

  predicate OwnStep(a: Action, i: nat) {
    || a == ShowNext(i, true) || a == ReplayOver(i) || a == Receive(i, true) || a == NoticeClosed(i)
    || a == FetchError(i) || a == TellError(i) || a == Leave(i)
  }

  ghost predicate CanMove(s: System, i: nat) {
    exists a :: OwnStep(a, i) && Apply(s, a).Next?
  }

  /** The reader waits on an open, empty channel. */
  predicate WaitsOnOpenChannel(s: System, i: nat)
    requires i < |s.readers|
  {
    s.readers[i].phase.Live? && HasChannel(s.bus, s.readers[i]) && !s.bus.channels[s.readers[i].channel.value].closed
  }

  function NextOwnStep(s: System, i: nat): Action
    requires i < |s.readers|
  {
    var r := s.readers[i];
    match r.phase
    case Replaying => if r.shown < |r.snapshot| then ShowNext(i, true) else ReplayOver(i)
    case Live =>
      if HasChannel(s.bus, r) && s.bus.channels[r.channel.value].queue != [] then Receive(i, true) else NoticeClosed(i)
    case SawClosed => FetchError(i)
    case Holding(_) => TellError(i)
    case _ => Leave(i)
  }

  lemma ReaderMovesUnlessStuck(s: System, i: nat)
    requires i < |s.readers| && ReaderOk(s.bus, s.readers[i])
    requires s.bus.closed && s.bus.lock.Free? && !s.readers[i].phase.Gone?
    ensures CanMove(s, i) <==> !WaitsOnOpenChannel(s, i)
  {
    if WaitsOnOpenChannel(s, i) {
      WaitingReaderIsStuck(s, i);
    } else {
      UnstuckReaderMoves(s, i);
      assert OwnStep(NextOwnStep(s, i), i);
    }
  }

  lemma WaitingReaderIsStuck(s: System, i: nat)
    requires i < |s.readers| && ReaderOk(s.bus, s.readers[i])
    requires s.bus.closed && s.bus.lock.Free? && WaitsOnOpenChannel(s, i)
    ensures !CanMove(s, i)
  {
    var b, r := s.bus, s.readers[i];
    assert b.buffer[r.start..] == [];
    assert r.received + b.channels[r.channel.value].queue == [];
  }

  lemma UnstuckReaderMoves(s: System, i: nat)
    requires i < |s.readers| && ReaderOk(s.bus, s.readers[i])
    requires s.bus.closed && s.bus.lock.Free? && !s.readers[i].phase.Gone? && !WaitsOnOpenChannel(s, i)
    ensures Apply(s, NextOwnStep(s, i)).Next?
  {
  }

  // ----- Which readers wait for ever -----

  /** A reader whose channel, once Close is through, is no subscriber's. */
  ghost predicate Prompt(s: System, i: nat) {
    && i < |s.readers|
    && (s.bus.closed && !s.bus.lock.Closing? && s.readers[i].channel.Some? ==>
          s.readers[i].channel.value !in s.bus.subscribers)
    && (s.readers[i].channel.Some? ==> s.readers[i].channel.value < s.bus.nextId)
  }

  /** A reader with an open channel on a bus that is closed for good. */
  ghost predicate Late(s: System, i: nat) {
    && i < |s.readers| && s.bus.closed && s.bus.lock.Free?
    && HasChannel(s.bus, s.readers[i]) && !s.bus.channels[s.readers[i].channel.value].closed
  }

  lemma StepKeepsPrompt(s: System, a: Action, i: nat)
    requires Prompt(s, i) && BusOk(s.bus) && Apply(s, a).Next?
    ensures Prompt(Apply(s, a).sys, i)
  {
    if Apply(s, a) == WriterStep(s, a) {
      WriterKeepsPrompt(s, a, i);
    } else if !a.Subscribe? && !a.JoinReplay? {
      ReaderKeepsPrompt(s, a, a.r, i);
    }
  }

  lemma WriterKeepsPrompt(s: System, a: Action, i: nat)
    requires Prompt(s, i) && BusOk(s.bus) && WriterStep(s, a).Next?
    ensures Prompt(WriterStep(s, a).sys, i)
  {
  }

  lemma ReaderKeepsPrompt(s: System, a: Action, r: nat, i: nat)
    requires Prompt(s, i) && ReaderStep(s, a, r).Next?
    ensures Prompt(ReaderStep(s, a, r).sys, i)
  {
  }

  lemma StepKeepsLate(s: System, a: Action, i: nat)
    requires Late(s, i) && BusOk(s.bus) && Apply(s, a).Next?
    ensures Late(Apply(s, a).sys, i)
  {
  }

  lemma {:induction false} RunKeepsPromptAndLate(s: System, actions: seq<Action>, i: nat)
    requires Inv(s) && Exec(s, actions).Next?
    ensures Prompt(s, i) ==> Prompt(Exec(s, actions).sys, i)
    ensures Late(s, i) ==> Late(Exec(s, actions).sys, i)
    decreases |actions|
  {
    hide Prompt, Late, Apply;
    if actions != [] {
      StepKeepsInv(s, actions[0]);
      if Prompt(s, i) { StepKeepsPrompt(s, actions[0], i); }
      if Late(s, i) { StepKeepsLate(s, actions[0], i); }
      RunKeepsPromptAndLate(Apply(s, actions[0]).sys, actions[1..], i);
    }
  }

  /** How a reader stands right after it joined. */
  lemma JoinedPromptOrLate(s: System, join: Action)
    requires Inv(s) && (join.Subscribe? || join.JoinReplay?) && Apply(s, join).Next?
    ensures var s' := Apply(s, join).sys;
            if join.Subscribe? && s.bus.closed then Late(s', |s.readers|) else Prompt(s', |s.readers|)
  {
  }

  /** Once Close has returned, a reader that has not left can go on by itself,
      however the schedule went on, unless it called Subscribe on a bus that
      was already closed and has not been cancelled: then it waits for ever. */
  lemma StuckOnlyIfSubscribedTooLate(pre: seq<Action>, join: Action, post: seq<Action>, s0: System, s: System, i: nat)
    requires Exec(NEW_SYSTEM, pre) == Next(s0) && i == |s0.readers|
    requires (join.Subscribe? || join.JoinReplay?) && Apply(s0, join).Next?
    requires Exec(Apply(s0, join).sys, post) == Next(s)
    requires s.bus.closed && s.bus.lock.Free?
    ensures i < |s.readers|
    ensures !s.readers[i].phase.Gone? ==>
              (CanMove(s, i) <==> !(join.Subscribe? && s0.bus.closed && s.readers[i].phase.Live?))
  {
    hide CanMove, Apply, Exec;
    InitialInv();
    RunKeepsInv(NEW_SYSTEM, pre);
    var s1 := Apply(s0, join).sys;
    StepKeepsInv(s0, join);
    JoinedPromptOrLate(s0, join);
    RunKeepsPromptAndLate(s1, post, i);
    RunKeepsInv(s1, post);
    assert ReaderOk(s.bus, s.readers[i]);
    if !s.readers[i].phase.Gone? { ReaderMovesUnlessStuck(s, i); }
  }

  /** Closing and then subscribing leaves such a reader, whatever follows. */
  lemma LateSubscriberWaits(post: seq<Action>)
    requires Exec(NEW_SYSTEM, [CloseBegin(None), CloseEnd, Subscribe] + post).Next?
    ensures var s := Exec(NEW_SYSTEM, [CloseBegin(None), CloseEnd, Subscribe] + post).sys;
            0 < |s.readers| && (s.readers[0].phase.Live? ==> !CanMove(s, 0))
  {
    hide CanMove;
    var pre := [CloseBegin(None), CloseEnd];
    var s0 := System(NEW_BUS.(closed := true, done := true), []);
    var between := NEW_SYSTEM.(bus := NEW_BUS.(closed := true, lock := Closing({})));
    assert pre[1..] == [CloseEnd] && [CloseEnd][1..] == [];
    assert Exec(between, [CloseEnd]) == Exec(s0, []);
    assert Exec(NEW_SYSTEM, pre) == Exec(between, [CloseEnd]);
    var all := [CloseBegin(None), CloseEnd, Subscribe] + post;
    assert all[1..][1..] == [Subscribe] + post && ([Subscribe] + post)[1..] == post;
    assert Exec(NEW_SYSTEM, all) == Exec(between, all[1..]);
    assert Exec(between, all[1..]) == Exec(s0, [Subscribe] + post);
    assert Exec(s0, [Subscribe] + post) == Exec(Apply(s0, Subscribe).sys, post);
    var s := Exec(NEW_SYSTEM, all).sys;
    StaysClosed(s0, post);
    StuckOnlyIfSubscribedTooLate(pre, Subscribe, post, s0, s, 0);
  }

  lemma StaysClosed(s0: System, post: seq<Action>)
    requires Inv(s0) && s0.bus.closed && s0.bus.lock.Free? && Exec(Apply(s0, Subscribe).sys, post).Next?
    requires Apply(s0, Subscribe).Next?
    ensures var s := Exec(Apply(s0, Subscribe).sys, post).sys; s.bus.closed && s.bus.lock.Free?
  {
    hide Exec;
    StepKeepsInv(s0, Subscribe);
    JoinedPromptOrLate(s0, Subscribe);
    RunKeepsPromptAndLate(Apply(s0, Subscribe).sys, post, |s0.readers|);
  }
}
