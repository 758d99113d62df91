/** What the event bus does when it can: publishing and closing take effect,
    readers are handed what waits for them, and a reader that is cancelled or
    stopped is handed nothing more (runtime/internal/event_bus.go). */
module BusProgress {
  import opened Wrappers
  import opened SessionEvents
  import opened BusProtocol
  import opened BusSafety

  // ----- Publishing and closing -----

  /** The events published before the first Close. */
  function Published(actions: seq<Action>): seq<SessionEvent> {
    if actions == [] || actions[0].CloseBegin? then []
    else (if actions[0].PublishBegin? then [actions[0].event] else []) + Published(actions[1..])
  }

  predicate Closes(actions: seq<Action>) {
    actions != [] && (actions[0].CloseBegin? || Closes(actions[1..]))
  }

  /** The error of the first Close. */
  function FirstError(actions: seq<Action>): Option<Error>
    requires Closes(actions)
  {
    if actions[0].CloseBegin? then actions[0].err else FirstError(actions[1..])
  }

  lemma StepAccounts(s: System, a: Action)
    requires Apply(s, a).Next?
    ensures var b, b' := s.bus, Apply(s, a).sys.bus;
            if b.closed then b'.closed && b'.buffer == b.buffer && b'.finalErr == b.finalErr
            else if a.CloseBegin? then b'.closed && b'.buffer == b.buffer && b'.finalErr == a.err
            else !b'.closed && b'.buffer == b.buffer + if a.PublishBegin? then [a.event] else []
  {
  }

  /** In every schedule the buffer is what was published before the first
      Close, in order, and the error is that of the first Close. */
  lemma {:induction false} BusAccounts(s: System, actions: seq<Action>)
    requires Exec(s, actions).Next? && !s.bus.closed
    ensures var b' := Exec(s, actions).sys.bus;
            && b'.buffer == s.bus.buffer + Published(actions)
            && (b'.closed <==> Closes(actions))
            && (Closes(actions) ==> b'.finalErr == FirstError(actions))
    decreases |actions|
  {
    hide Apply;
    if actions != [] {
      StepAccounts(s, actions[0]);
      if actions[0].CloseBegin? {
        FirstCloseIsFinal(Apply(s, actions[0]).sys, actions[1..]);
      } else {
        BusAccounts(Apply(s, actions[0]).sys, actions[1..]);
      }
    }
  }

  /** A publish hands its event to the channel of each subscriber it still has
      to visit, and waits exactly for one that holds 256 events. */
  lemma SendWaitsIffFull(s: System, id: nat)
    requires Inv(s) && s.bus.lock.Publishing? && id in s.bus.lock.todo
    ensures id in s.bus.channels && |s.bus.channels[id].queue| <= 256
    ensures Apply(s, PublishSend(id)).Blocked? <==> |s.bus.channels[id].queue| == 256
    ensures |s.bus.channels[id].queue| < 256 ==>
              && Apply(s, PublishSend(id)).Next?
              && var b' := Apply(s, PublishSend(id)).sys.bus;
                 id in b'.channels && b'.channels[id].queue == s.bus.channels[id].queue + [s.bus.lock.event]
                 && b'.lock == Publishing(s.bus.lock.event, s.bus.lock.todo - {id})
  {
    assert SubscriberOk(s.bus, id);
  }

  /** What a panic is: a send on a closed channel, or a second close of a
      channel or of Done. */
  lemma PanicsIff(s: System, a: Action)
    ensures Apply(s, a).Panic? <==>
              || (a.PublishSend? && s.bus.lock.Publishing? && a.id in s.bus.lock.todo && a.id in s.bus.channels
                  && s.bus.channels[a.id].closed)
              || (a.CloseChannel? && s.bus.lock.Closing? && a.id in s.bus.lock.todo && a.id in s.bus.channels
                  && s.bus.channels[a.id].closed)
              || (a.CloseEnd? && s.bus.lock == Closing({}) && s.bus.done)
  {
  }

  lemma CloseOneMore(s: System, id: nat)
    requires Inv(s) && s.bus.lock.Closing? && id in s.bus.lock.todo
    ensures Apply(s, CloseChannel(id)).Next?
    ensures Apply(s, CloseChannel(id)).sys.bus.lock == Closing(s.bus.lock.todo - {id})
  {
    assert SubscriberOk(s.bus, id);
  }

  /** A Close that has begun never waits: its own steps lead to its end, and
      then nobody is subscribed and the bus is done. */
  lemma {:induction false} CloseFinishes(s: System) returns (actions: seq<Action>)
    requires Inv(s) && s.bus.lock.Closing?
    ensures forall k :: 0 <= k < |actions| ==> actions[k].CloseChannel? || actions[k].CloseEnd?
    ensures Exec(s, actions).Next?
    ensures var b := Exec(s, actions).sys.bus; b.lock.Free? && b.done && b.closed && b.subscribers == {}
    decreases s.bus.lock.todo
  {
    hide Inv, Exec;
    var todo := s.bus.lock.todo;
    if todo == {} {
      assert LockOk(s.bus) by { InvHasLock(s); }
      actions := [CloseEnd];
      ExecOne(s, CloseEnd);
    } else {
      var id :| id in todo;
      CloseOneMore(s, id);
      StepKeepsInv(s, CloseChannel(id));
      var rest := CloseFinishes(Apply(s, CloseChannel(id)).sys);
      actions := [CloseChannel(id)] + rest;
      ExecStep(s, CloseChannel(id), rest);
    }
  }

  lemma InvHasLock(s: System)
    requires Inv(s)
    ensures LockOk(s.bus)
  {
  }

  lemma ExecStep(s: System, a: Action, rest: seq<Action>)
    requires Apply(s, a).Next?
    ensures Exec(s, [a] + rest) == Exec(Apply(s, a).sys, rest)
  {
    hide Apply;
    assert ([a] + rest)[1..] == rest;
  }

  lemma ExecOne(s: System, a: Action)
    requires Apply(s, a).Next?
    ensures Exec(s, [a]) == Apply(s, a)
  {
    hide Apply;
    assert [a][1..] == [] && Exec(Apply(s, a).sys, []) == Next(Apply(s, a).sys);
  }

  // ----- Readers -----

  /** What a reader is handed next: the next event of its snapshot, or the
      first that waits in its channel. */
  lemma ReaderTakesNext(s: System, i: nat, more: bool)
    requires Inv(s) && i < |s.readers|
    ensures var r := s.readers[i];
            r.phase.Replaying? && r.shown < |r.snapshot| ==>
              && Apply(s, ShowNext(i, more)).Next?
              && i < |Apply(s, ShowNext(i, more)).sys.readers|
              && Delivered(Apply(s, ShowNext(i, more)).sys.readers[i]) == Delivered(r) + [r.snapshot[r.shown]]
    ensures var r := s.readers[i];
            r.phase.Live? && HasChannel(s.bus, r) && s.bus.channels[r.channel.value].queue != [] ==>
              && Apply(s, Receive(i, more)).Next?
              && i < |Apply(s, Receive(i, more)).sys.readers|
              && Delivered(Apply(s, Receive(i, more)).sys.readers[i])
                   == Delivered(r) + [s.bus.channels[r.channel.value].queue[0]]
  {
    var r := s.readers[i];
    assert ReaderOk(s.bus, r);
    if r.phase.Replaying? && r.shown < |r.snapshot| {
      assert r.snapshot[..r.shown + 1] + [] == r.snapshot[..r.shown] + [] + [r.snapshot[r.shown]];
    }
  }

  /** A cancellation is noticed by any reader that follows the live events; it,
      or a consumer that wants no more, ends the reader early. */
  lemma InterruptEndsReader(s: System, a: Action, i: nat)
    requires i < |s.readers|
    ensures s.readers[i].phase.Live? ==> Apply(s, Cancel(i)).Next?
    ensures InterruptsReader(a, i) && Apply(s, a).Next? ==>
              i < |Apply(s, a).sys.readers| && Ended(Apply(s, a).sys.readers[i], false)
  {
  }

  lemma StepKeepsEnded(s: System, a: Action, i: nat, natural: bool)
    requires i < |s.readers| && Ended(s.readers[i], natural) && Apply(s, a).Next?
    ensures i < |Apply(s, a).sys.readers| && Ended(Apply(s, a).sys.readers[i], natural)
    ensures Delivered(Apply(s, a).sys.readers[i]) == Delivered(s.readers[i])
    ensures Apply(s, a).sys.readers[i].errors == s.readers[i].errors
  {
    hide Remove, Take, SendTo, CloseOne, EndClose, Register, BeginPublish, BeginClose;
  }

  /** A reader that has ended is handed nothing more, neither event nor error,
      whatever follows. */
  lemma {:induction false} EndedStays(s: System, actions: seq<Action>, i: nat, natural: bool)
    requires i < |s.readers| && Ended(s.readers[i], natural) && Exec(s, actions).Next?
    ensures i < |Exec(s, actions).sys.readers|
    ensures var r := Exec(s, actions).sys.readers[i];
            Ended(r, natural) && Delivered(r) == Delivered(s.readers[i]) && r.errors == s.readers[i].errors
    decreases |actions|
  {
    hide Apply, Ended, Delivered;
    if actions != [] {
      StepKeepsEnded(s, actions[0], i, natural);
      EndedStays(Apply(s, actions[0]).sys, actions[1..], i, natural);
    }
  }
}
