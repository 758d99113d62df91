/** The event bus as the source writes it: an object that appends to its
    buffer and sends on shared channels under a mutex
    (runtime/internal/event_bus.go).  Each method is proved against the
    transition functions of BusProtocol, so what BusSafety proves of every
    schedule is about this code. */
module EventBusObject {
  import opened Wrappers
  import opened SessionEvents
  import opened BusProtocol
  import opened BusSafety

  /** A buffered Go channel. */
  class Chan {
    var queue: seq<SessionEvent>
    var closed: bool

    constructor ()
      ensures queue == [] && !closed
    {
      queue, closed := [], false;
    }

    /** A send that waits while the buffer is full; false means it still
        waits.  Sending on a closed channel panics, which NeverPanics rules
        out. */
    method TrySend(event: SessionEvent) returns (sent: bool)
      requires !closed
      modifies this
      ensures sent <==> |old(queue)| < CHANNEL_CAPACITY
      ensures queue == if sent then old(queue) + [event] else old(queue)
      ensures !closed
    {
      sent := |queue| < CHANNEL_CAPACITY;
      if sent { queue := queue + [event]; }
    }

    method Close()
      requires !closed
      modifies this
      ensures closed && queue == old(queue)
    {
      closed := true;
    }
  }

  /** Every channel in `served` has been sent the event. */
  ghost function Broadcast(channels: map<nat, Channel>, served: set<nat>, event: SessionEvent): map<nat, Channel> {
    map id | id in channels ::
      if id in served then channels[id].(queue := channels[id].queue + [event]) else channels[id]
  }

  ghost function AllClosed(channels: map<nat, Channel>, visited: set<nat>): map<nat, Channel> {
    map id | id in channels :: if id in visited then channels[id].(closed := true) else channels[id]
  }

  /** A publish under way that has reached all subscribers but `todo`. */
  ghost function Served(b: Bus, todo: set<nat>): Bus
    requires b.lock.Publishing?
  {
    b.(lock := Publishing(b.lock.event, todo), channels := Broadcast(b.channels, b.lock.todo - todo, b.lock.event))
  }

  lemma ServedNone(b: Bus)
    requires b.lock.Publishing?
    ensures Served(b, b.lock.todo) == b
  {
    assert b.lock.todo - b.lock.todo == {};
    assert Broadcast(b.channels, {}, b.lock.event) == b.channels;
  }

  lemma ServedOne(b: Bus, todo: set<nat>, id: nat)
    requires b.lock.Publishing? && todo <= b.lock.todo && CanSend(Served(b, todo), id)
    ensures SendTo(Served(b, todo), id) == Served(b, todo - {id})
  {
    assert b.lock.todo - (todo - {id}) == (b.lock.todo - todo) + {id};
    assert SendTo(Served(b, todo), id).channels == Served(b, todo - {id}).channels;
  }

  lemma ServedAll(b: Bus, event: SessionEvent)
    requires b.lock.Free? && !b.closed
    ensures Served(BeginPublish(b, event), {}).(lock := Free)
         == b.(buffer := b.buffer + [event], channels := Broadcast(b.channels, b.subscribers, event))
  {
    assert b.subscribers - {} == b.subscribers;
  }

  /** A close under way that has reached all subscribers but `todo`. */
  ghost function Shut(b: Bus, todo: set<nat>): Bus
    requires b.lock.Closing?
  {
    b.(lock := Closing(todo), channels := AllClosed(b.channels, b.lock.todo - todo))
  }

  lemma ShutNone(b: Bus)
    requires b.lock.Closing?
    ensures Shut(b, b.lock.todo) == b
  {
    assert b.lock.todo - b.lock.todo == {};
    assert AllClosed(b.channels, {}) == b.channels;
  }

  lemma ShutAll(b: Bus, err: Option<Error>)
    requires b.lock.Free? && !b.closed
    ensures EndClose(Shut(BeginClose(b, err), {}))
         == b.(closed := true, done := true, finalErr := err, subscribers := {},
               channels := AllClosed(b.channels, b.subscribers))
  {
    assert b.subscribers - {} == b.subscribers;
  }

  lemma ShutOne(b: Bus, todo: set<nat>, id: nat)
    requires b.lock.Closing? && id in todo && todo <= b.lock.todo && id in b.channels
    ensures CloseOne(Shut(b, todo), id) == Shut(b, todo - {id})
  {
    assert b.lock.todo - (todo - {id}) == (b.lock.todo - todo) + {id};
    assert CloseOne(Shut(b, todo), id).channels == Shut(b, todo - {id}).channels;
  }

  lemma BusOkAt(b: Bus, id: nat)
    requires BusOk(b)
    ensures id in b.channels ==> id < b.nextId
    ensures id in b.subscribers ==> SubscriberOk(b, id)
    ensures b.lock.Publishing? && id in b.lock.todo ==> id in b.subscribers && !b.channels[id].closed
    ensures b.lock.Closing? && id in b.lock.todo ==> id in b.subscribers && !b.channels[id].closed
  {
    if id in b.subscribers { assert SubscriberOk(b, id); }
  }

  lemma RemoveKeepsBus(b: Bus, id: nat)
    requires BusOk(b) && b.lock.Free?
    ensures BusOk(Remove(b, id))
  {
    forall i | i in Remove(b, id).subscribers ensures SubscriberOk(Remove(b, id), i) {
      assert SubscriberOk(b, i);
    }
  }

  class EventBus {
    var buffer: seq<SessionEvent>
    var subscribers: map<nat, Chan>
    var nextId: nat
    var closed: bool
    var done: bool
    var finalErr: Option<Error>
    var lock: Lock
    /** Every channel handed out; receivers keep theirs after it leaves
        `subscribers`. */
    ghost var handedOut: map<nat, Chan>

    ghost predicate Valid()
      reads this, handedOut.Values
    {
      && subscribers.Keys <= handedOut.Keys
      && (forall id :: id in subscribers ==> subscribers[id] == handedOut[id])
      && (forall i, j :: i in handedOut && j in handedOut && i != j ==> handedOut[i] != handedOut[j])
      && BusOk(View())
    }

    ghost function View(): Bus
      reads this, handedOut.Values
    {
      Bus(buffer, subscribers.Keys, nextId, closed, done, finalErr, lock, ChannelsView())
    }

    ghost function ChannelsView(): map<nat, Channel>
      reads this, handedOut.Values
    {
      map id | id in handedOut :: Channel(handedOut[id].queue, handedOut[id].closed)
    }

    lemma ChannelAt(id: nat)
      ensures id in View().channels <==> id in handedOut
      ensures id in handedOut ==> View().channels[id] == Channel(handedOut[id].queue, handedOut[id].closed)
    {
    }

    /** At most one channel, old or new, has changed. */
    twostate lemma OneChannelChanged(id: nat)
      requires id in handedOut && old(handedOut).Keys <= handedOut.Keys
      requires forall i :: i in handedOut && i != id ==>
                 i in old(handedOut) && handedOut[i] == old(handedOut)[i] && unchanged(handedOut[i])
      ensures ChannelsView() == old(ChannelsView())[id := Channel(handedOut[id].queue, handedOut[id].closed)]
    {
    }

    twostate lemma NoChannelChanged()
      requires handedOut == old(handedOut) && forall i :: i in handedOut ==> unchanged(handedOut[i])
      ensures ChannelsView() == old(ChannelsView())
    {
    }

    constructor ()
      ensures Valid() && View() == NEW_BUS
    {
      buffer, subscribers, nextId := [], map[], 0;
      closed, done, finalErr, lock := false, false, None, Free;
      handedOut := map[];
    }

    /** Takes the lock and, unless the bus is closed, appends the event; then
        sends to one subscriber after another.  `stuck` means a send waits for
        a full channel, with the lock still held. */
    method Publish(event: SessionEvent) returns (stuck: bool)
      requires Valid() && lock.Free?
      modifies this, subscribers.Values
      ensures Valid() && handedOut == old(handedOut)
      ensures old(closed) ==> !stuck && View() == old(View())
      ensures !old(closed) && !stuck ==>
                View() == old(View()).(buffer := old(buffer) + [event],
                                       channels := Broadcast(old(View()).channels, old(View()).subscribers, event))
      ensures stuck ==> !old(closed) && lock.Publishing? && lock.todo <= old(subscribers.Keys)
                        && View() == Served(BeginPublish(old(View()), event), lock.todo)
                        && exists id :: id in lock.todo && ChannelFull(id)
    {
      hide ChannelsView, BusOk, Broadcast;
      if closed { return false; }
      ServedAll(View(), event);
      StartPublish(event);
      stuck := SendPending();
      if !stuck { FinishPublish(); }
    }

    method StartPublish(event: SessionEvent)
      requires Valid() && lock.Free? && !closed
      modifies `buffer, `lock
      ensures Valid() && View() == BeginPublish(old(View()), event)
    {
      WriterStepKeepsBus(System(View(), []), PublishBegin(event));
      buffer := buffer + [event];
      lock := Publishing(event, subscribers.Keys);
      assert View() == BeginPublish(old(View()), event);
    }

    method FinishPublish()
      requires Valid() && lock.Publishing? && lock.todo == {}
      modifies `lock
      ensures Valid() && View() == old(View()).(lock := Free)
    {
      WriterStepKeepsBus(System(View(), []), PublishEnd);
      lock := Free;
      assert View() == old(View()).(lock := Free);
    }

    ghost predicate ChannelFull(id: nat)
      reads this, subscribers.Values
    {
      id in subscribers && |subscribers[id].queue| >= CHANNEL_CAPACITY
    }

    /** The sending loop of Publish.  Go visits a map in no fixed order. */
    method SendPending() returns (stuck: bool)
      requires Valid() && lock.Publishing?
      modifies `lock, subscribers.Values
      ensures Valid() && lock.Publishing? && lock.todo <= old(lock).todo
      ensures View() == Served(old(View()), lock.todo)
      ensures !stuck ==> lock.todo == {}
      ensures stuck ==> exists id :: id in lock.todo && ChannelFull(id)
    {
      ghost var b0 := View();
      ServedNone(b0);
      while lock.todo != {}
        invariant Valid() && lock.Publishing? && lock.todo <= b0.lock.todo
        invariant View() == Served(b0, lock.todo)
        decreases lock.todo
      {
        var id :| id in lock.todo;
        ghost var todo := lock.todo;
        var sent := SendOne(id);
        if !sent {
          assert ChannelFull(id);
          return true;
        }
        ServedOne(b0, todo, id);
      }
      stuck := false;
    }

    method SendOne(id: nat) returns (sent: bool)
      requires Valid() && lock.Publishing? && id in lock.todo
      modifies `lock, subscribers.Values
      ensures Valid() && sent == CanSend(old(View()), id)
      ensures sent ==> View() == SendTo(old(View()), id)
      ensures !sent ==> View() == old(View()) && ChannelFull(id)
    {
      hide ChannelsView, BusOk;
      ghost var b := View();
      BusOkAt(b, id);
      ChannelAt(id);
      WriterStepKeepsBus(System(b, []), PublishSend(id));
      sent := subscribers[id].TrySend(lock.event);
      if sent { lock := Publishing(lock.event, lock.todo - {id}); }
      OneChannelChanged(id);
      if sent {
        assert View() == SendTo(b, id);
      } else {
        assert b.channels[id := b.channels[id]] == b.channels;
        assert View() == b;
      }
    }

    method Subscribe() returns (id: nat, ch: Chan)
      requires Valid() && lock.Free?
      modifies this
      ensures Valid() && fresh(ch) && id == old(nextId)
      ensures handedOut == old(handedOut)[id := ch] && subscribers == old(subscribers)[id := ch]
      ensures View() == Register(old(View()))
    {
      hide ChannelsView, BusOk;
      ghost var b := View();
      BusOkAt(b, nextId);
      ChannelAt(nextId);
      RegisterKeepsBusOk(b);
      id := nextId;
      nextId := nextId + 1;
      ch := new Chan();
      subscribers := subscribers[id := ch];
      handedOut := handedOut[id := ch];
      OneChannelChanged(id);
      assert View() == Register(b);
    }

    method Unsubscribe(id: nat)
      requires Valid() && lock.Free?
      modifies this
      ensures Valid() && View() == Remove(old(View()), id) && handedOut == old(handedOut)
    {
      hide ChannelsView, BusOk;
      RemoveKeepsBus(View(), id);
      subscribers := subscribers - {id};
      NoChannelChanged();
      assert View() == Remove(old(View()), id);
    }

    /** Closes every subscriber's channel and the Done channel; a second Close
        changes nothing. */
    method Close(err: Option<Error>)
      requires Valid() && lock.Free?
      modifies this, subscribers.Values
      ensures Valid() && handedOut == old(handedOut)
      ensures View() == if old(closed) then old(View()) else
                old(View()).(closed := true, done := true, finalErr := err, subscribers := {},
                             channels := AllClosed(old(View()).channels, old(View()).subscribers))
    {
      if closed { return; }
      ShutAll(View(), err);
      StartClose(err);
      CloseChannels();
      FinishClose();
    }

    method StartClose(err: Option<Error>)
      requires Valid() && lock.Free? && !closed
      modifies `closed, `finalErr, `lock
      ensures Valid() && View() == BeginClose(old(View()), err)
    {
      WriterStepKeepsBus(System(View(), []), CloseBegin(err));
      closed := true;
      finalErr := err;
      lock := Closing(subscribers.Keys);
      assert View() == BeginClose(old(View()), err);
    }

    method FinishClose()
      requires Valid() && lock.Closing? && lock.todo == {}
      modifies `subscribers, `done, `lock
      ensures Valid() && View() == EndClose(old(View()))
    {
      WriterStepKeepsBus(System(View(), []), CloseEnd);
      subscribers := map[];
      done := true;
      lock := Free;
      assert View() == EndClose(old(View()));
    }

    method CloseChannels()
      requires Valid() && lock.Closing?
      modifies `lock, subscribers.Values
      ensures Valid() && lock.Closing? && View() == Shut(old(View()), {})
    {
      ghost var b0 := View();
      ShutNone(b0);
      while lock.todo != {}
        invariant Valid() && lock.Closing? && lock.todo <= b0.lock.todo
        invariant View() == Shut(b0, lock.todo)
        decreases lock.todo
      {
        var id :| id in lock.todo;
        ghost var b := View();
        assert SubscriberOk(b, id);
        WriterStepKeepsBus(System(b, []), CloseChannel(id));
        ShutOne(b0, lock.todo, id);
        CloseChannelOf(id);
      }
    }

    method CloseChannelOf(id: nat)
      requires Valid() && lock.Closing? && id in lock.todo
      modifies `lock, subscribers.Values
      ensures Valid() && lock.Closing? && View() == CloseOne(old(View()), id)
    {
      hide ChannelsView, BusOk;
      ghost var b := View();
      BusOkAt(b, id);
      ChannelAt(id);
      WriterStepKeepsBus(System(b, []), CloseChannel(id));
      subscribers[id].Close();
      lock := Closing(lock.todo - {id});
      OneChannelChanged(id);
      assert View() == CloseOne(b, id);
    }

    /** The atomic copy-and-register of a late subscriber. */
    method ReplaySnapshot() returns (snapshot: seq<SessionEvent>, liveCh: Option<Chan>, closedErr: Option<Error>)
      requires Valid() && lock.Free?
      modifies this
      ensures Valid() && snapshot == old(buffer)
      ensures old(closed) ==> liveCh.None? && closedErr == old(finalErr) && View() == old(View())
      ensures !old(closed) ==>
                && liveCh.Some? && fresh(liveCh.value) && closedErr.None?
                && View() == Register(old(View()))
                && handedOut == old(handedOut)[old(nextId) := liveCh.value]
    {
      snapshot := buffer;
      if closed { return snapshot, None, finalErr; }
      var id, ch := Subscribe();
      liveCh, closedErr := Some(ch), None;
    }

    /** Finds the id under which a channel is registered, if any, and drops
        it. */
    method RemoveSubscriber(target: Chan, ghost id: nat)
      requires Valid() && lock.Free? && id in handedOut && handedOut[id] == target
      modifies this
      ensures Valid() && View() == Remove(old(View()), id) && handedOut == old(handedOut)
    {
      var rest := subscribers.Keys;
      while rest != {}
        invariant rest <= subscribers.Keys
        invariant forall i :: i in subscribers && i !in rest ==> subscribers[i] != target
        decreases rest
      {
        var i :| i in rest;
        if subscribers[i] == target {
          assert i == id;
          Unsubscribe(i);
          return;
        }
        rest := rest - {i};
      }
      assert id !in subscribers;
      assert View() == Remove(old(View()), id);
    }
  }

  // ----- A whole Publish is a run of the protocol -----

  /** The steps of one Publish that visits its subscribers in the given order. */
  function PublishSteps(event: SessionEvent, order: seq<nat>): seq<Action> {
    [PublishBegin(event)] + Sends(order) + [PublishEnd]
  }

  function Sends(order: seq<nat>): seq<Action> {
    if order == [] then [] else [PublishSend(order[0])] + Sends(order[1..])
  }

  ghost predicate VisitsOnce(order: seq<nat>, ids: set<nat>) {
    && (forall k :: 0 <= k < |order| ==> order[k] in ids)
    && (forall id :: id in ids ==> id in order)
    && (forall k, l :: 0 <= k < l < |order| ==> order[k] != order[l])
  }

  lemma {:induction false} SendsServeAll(s: System, order: seq<nat>, rest: seq<Action>)
    requires BusOk(s.bus) && s.bus.lock.Publishing? && VisitsOnce(order, s.bus.lock.todo)
    requires forall id :: id in s.bus.lock.todo ==> |s.bus.channels[id].queue| < CHANNEL_CAPACITY
    ensures Exec(s, Sends(order) + rest) == Exec(s.(bus := Served(s.bus, {})), rest)
    decreases |order|
  {
    hide Broadcast, VisitsOnce, Apply, BusOk, SubscriberOk;
    var b := s.bus;
    NextVisit(order, b.lock.todo);
    if order == [] {
      ServedNone(b);
      assert Sends(order) + rest == rest;
    } else {
      var id := order[0];
      SendIsAStep(s, id);
      var s' := s.(bus := SendTo(b, id));
      var acts := Sends(order) + rest;
      assert acts[0] == PublishSend(id) && acts[1..] == Sends(order[1..]) + rest;
      VisitsRest(order, b.lock.todo);
      SendsServeAll(s', order[1..], rest);
      ServedAfterOne(b, id);
    }
  }

  lemma NextVisit(order: seq<nat>, ids: set<nat>)
    requires VisitsOnce(order, ids)
    ensures if order == [] then ids == {} else order[0] in ids
  {
  }

  lemma SendIsAStep(s: System, id: nat)
    requires BusOk(s.bus) && s.bus.lock.Publishing? && id in s.bus.lock.todo
    requires id in s.bus.channels ==> |s.bus.channels[id].queue| < CHANNEL_CAPACITY
    ensures CanSend(s.bus, id) && Apply(s, PublishSend(id)) == Next(s.(bus := SendTo(s.bus, id)))
    ensures BusOk(SendTo(s.bus, id))
  {
    assert SubscriberOk(s.bus, id);
    WriterStepKeepsBus(s, PublishSend(id));
  }

  lemma VisitsRest(order: seq<nat>, ids: set<nat>)
    requires VisitsOnce(order, ids) && order != []
    ensures VisitsOnce(order[1..], ids - {order[0]})
  {
    forall i | i in ids - {order[0]} ensures i in order[1..] {
      assert i in order;
    }
  }

  lemma ServedAfterOne(b: Bus, id: nat)
    requires CanSend(b, id)
    ensures Served(SendTo(b, id), {}) == Served(b, {})
  {
    assert Served(SendTo(b, id), {}).channels == Served(b, {}).channels;
  }

  /** Run without interruption and with room in every channel, the protocol's
      steps of a Publish reach the state the method promises, whatever the
      order of the sends. */
  lemma PublishIsARun(s: System, event: SessionEvent, order: seq<nat>)
    requires BusOk(s.bus) && s.bus.lock.Free? && !s.bus.closed && VisitsOnce(order, s.bus.subscribers)
    requires forall id :: id in s.bus.subscribers ==> |s.bus.channels[id].queue| < CHANNEL_CAPACITY
    ensures Exec(s, PublishSteps(event, order))
         == Next(s.(bus := s.bus.(buffer := s.bus.buffer + [event],
                  channels := Broadcast(s.bus.channels, s.bus.subscribers, event))))
  {
    var steps := PublishSteps(event, order);
    var s1 := s.(bus := BeginPublish(s.bus, event));
    assert steps[0] == PublishBegin(event) && steps[1..] == Sends(order) + [PublishEnd];
    WriterStepKeepsBus(s, PublishBegin(event));
    SendsServeAll(s1, order, [PublishEnd]);
    var s2 := s1.(bus := Served(s1.bus, {}));
    var s3 := s.(bus := s2.bus.(lock := Free));
    assert Apply(s2, PublishEnd) == Next(s3) && [PublishEnd][1..] == [];
    assert Exec(s2, [PublishEnd]) == Exec(s3, []);
    assert s1.bus.lock.todo - {} == s.bus.subscribers;
  }
}
