/** The background runner as the source writes it: a table of active runs
    changed under a lock, and loops that drive event iterators
    (runtime/internal/background_runner.go).  An iterator is the list of what
    it yields, an error being its last useful item. */
module BackgroundRunnerObject {
  import opened Wrappers
  import opened SessionEvents
  import opened RunnerProtocol
  import opened RunnerSafety

  type Item = Wrappers.Result<SessionEvent, string>

  /** The events an iterator yields before its first error. */
  function Leading(items: seq<Item>): (events: seq<SessionEvent>)
    ensures |events| <= |items|
    ensures forall k :: 0 <= k < |events| ==> items[k] == Ok(events[k])
    ensures |events| < |items| ==> items[|events|].Err?
  {
    if items == [] || items[0].Err? then [] else [items[0].value] + Leading(items[1..])
  }

  /** An iterator's items up to and including its first error. */
  function UpToError(items: seq<Item>): seq<Item> {
    items[..if |Leading(items)| < |items| then |Leading(items)| + 1 else |items|]
  }

  /** Two iterators one after the other, ending at the first error. */
  function Chained(first: seq<Item>, second: seq<Item>): seq<Item> {
    if |Leading(first)| < |first| then UpToError(first) else first + UpToError(second)
  }

  function Events(events: seq<SessionEvent>): (items: seq<Item>)
    ensures |items| == |events| && forall k :: 0 <= k < |items| ==> items[k] == Ok(events[k])
  {
    seq(|events|, k requires 0 <= k < |events| => Ok(events[k]))
  }

  /** The counting loop of Run. */
  method CountEvents(items: seq<Item>) returns (count: nat)
    ensures count == |Leading(items)|
  {
    hide Leading;
    count := 0;
    for k := 0 to |items|
      invariant count == k && k <= |Leading(items)|
    {
      if items[k].Err? { break; }
      count := count + 1;
    }
  }

  /** At most `n` events, stopping at the first error. */
  method MaterializePrefix(items: seq<Item>, n: int) returns (out: seq<SessionEvent>)
    ensures out == if n <= 0 then [] else FirstN(Leading(items), n)
  {
    hide Leading;
    if n <= 0 { return []; }
    out := [];
    for k := 0 to |items|
      invariant |out| == k && k < n && out <= Leading(items)
    {
      if items[k].Err? { break; }
      out := out + [items[k].value];
      if |out| >= n { break; }
    }
  }

  /** One of the two copying loops: hands items to a consumer that takes
      `wanted` more of them.  `more` tells whether to go on with the next. */
  method Forward(before: seq<Item>, items: seq<Item>, wanted: nat) returns (taken: seq<Item>, more: bool)
    ensures taken == before + (if wanted < |UpToError(items)| then UpToError(items)[..wanted] else UpToError(items))
    ensures more <==> |Leading(items)| == |items| <= wanted
  {
    hide Leading;
    taken := before;
    for k := 0 to |items|
      invariant k <= wanted && k <= |Leading(items)| && taken == before + items[..k]
    {
      if wanted == k { return taken, false; }
      taken := taken + [items[k]];
      if items[k].Err? { return taken, false; }
    }
    more := true;
  }

  /** Hands the first iterator's items to a consumer that takes `wanted` of
      them, then the second's; stops after an error. */
  method ChainIters(first: seq<Item>, second: seq<Item>, wanted: nat) returns (taken: seq<Item>)
    ensures var chained := Chained(first, second);
            taken == if wanted < |chained| then chained[..wanted] else chained
  {
    hide Leading;
    var more: bool;
    taken, more := Forward([], first, wanted);
    if more {
      assert taken == first;
      taken, more := Forward(taken, second, wanted - |first|);
    }
  }

  /** The table of active runs.  A run is named by its index in the world of
      RunnerProtocol, where the source holds a reference. */
  class BackgroundRunner {
    var activeRuns: map<SessionId, nat>

    constructor ()
      ensures activeRuns == map[]
    {
      activeRuns := map[];
    }

    /** The critical section of Run: exactly Admit's change to the table. */
    method Register(session: SessionId, run: nat, ghost w: World, ghost k: nat) returns (ok: bool)
      requires k < |w.attempts| && w.attempts[k].Pending? && w.attempts[k].session == session
      requires run == |w.runs| && activeRuns == w.active
      modifies this
      ensures activeRuns == Admit(w, k).active
      ensures ok <==> Admit(w, k).attempts[k].Accepted?
    {
      if session in activeRuns { return false; }
      activeRuns := activeRuns[session := run];
      ok := true;
    }

    method RemoveActiveRun(session: SessionId)
      modifies this
      ensures activeRuns == old(activeRuns) - {session}
    {
      activeRuns := activeRuns - {session};
    }

    /** An active session's stream is the counted prefix of its history chained
        to the bus of its entry's run; an idle session's is its whole history.
        `counts` and `streams` are the fields of the runs: the counted events,
        and what following the bus yields. */
    method ReadSession(
      session: SessionId, history: seq<Item>, counts: seq<nat>, streams: seq<seq<Item>>, ghost w: World)
      returns (active: bool, stream: seq<Item>)
      requires EntriesOk(w) && activeRuns == w.active && |counts| == |streams| == |w.runs|
      requires forall i :: 0 <= i < |counts| ==> counts[i] == w.runs[i].count
      ensures active <==> exists i :: 0 <= i < |w.runs| && w.runs[i].session == session && !w.runs[i].stage.Removed?
      ensures !active ==> stream == history
      ensures forall i :: 0 <= i < |w.runs| && w.runs[i].session == session && !w.runs[i].stage.Removed? ==>
                stream == Events(FirstN(Leading(history), w.runs[i].count)) + UpToError(streams[i])
    {
      active := session in activeRuns;
      if !active { return active, history; }
      var run := activeRuns[session];
      assert w.runs[run].session == session;
      var prefix := MaterializePrefix(history, counts[run]);
      AllLead(prefix);
      stream := ChainIters(Events(prefix), streams[run], |prefix| + |streams[run]|);
    }
  }

  lemma {:induction false} AllLead(events: seq<SessionEvent>)
    ensures Leading(Events(events)) == events
    decreases |events|
  {
    if events != [] {
      assert Events(events)[1..] == Events(events[1..]);
      AllLead(events[1..]);
    }
  }

  /** What leads an iterator, told from outside. */
  lemma LeadingIs(items: seq<Item>, events: seq<SessionEvent>)
    requires |events| <= |items| && forall k :: 0 <= k < |events| ==> items[k] == Ok(events[k])
    requires |events| < |items| ==> items[|events|].Err?
    ensures Leading(items) == events
  {
    hide Leading;
    var leading := Leading(items);
    assert |leading| == |events|;
    assert forall k :: 0 <= k < |events| ==> Item.Ok(leading[k]) == items[k];
  }

  lemma LeadingConcat(first: seq<Item>, second: seq<Item>)
    requires |Leading(first)| == |first|
    ensures Leading(first + second) == Leading(first) + Leading(second)
  {
    hide Leading;
    LeadingIs(first + second, Leading(first) + Leading(second));
  }

  /** An iterator cut after its first error yields the same events, and the
      error if there is one. */
  lemma UpToErrorMeans(items: seq<Item>)
    ensures UpToError(items) <= items && Leading(UpToError(items)) == Leading(items)
    ensures (forall item :: item in items ==> item.Ok?) ==> UpToError(items) == items
    ensures (exists item :: item in items && item.Err?) ==>
              UpToError(items) != [] && UpToError(items)[|UpToError(items)| - 1].Err?
  {
    hide Leading;
    AllOkIff(items);
    LeadingIs(UpToError(items), Leading(items));
  }

  /** Chained iterators yield the events of both, or those of the first and its
      error if it fails, and nothing after an error. */
  lemma ChainedMeans(first: seq<Item>, second: seq<Item>)
    ensures (forall item :: item in first ==> item.Ok?) ==>
              && Chained(first, second) == first + UpToError(second)
              && Leading(Chained(first, second)) == Leading(first) + Leading(second)
    ensures (exists item :: item in first && item.Err?) ==>
              Chained(first, second) == UpToError(first) && Leading(Chained(first, second)) == Leading(first)
  {
    hide Leading;
    UpToErrorMeans(first);
    UpToErrorMeans(second);
    AllOkIff(first);
    if |Leading(first)| == |first| { LeadingConcat(first, UpToError(second)); }
  }

  lemma AllOkIff(items: seq<Item>)
    ensures |Leading(items)| == |items| <==> forall item :: item in items ==> item.Ok?
  {
    hide Leading;
    if |Leading(items)| < |items| { assert items[|Leading(items)|] in items; }
  }

  /** When the history read does not fail first, the stream of an active
      session is the first `count` stored events, then the live items, with
      nothing in between: what HistoryThenLiveRun assumes of a call. */
  lemma StreamMatchesProtocol(log: seq<SessionEvent>, failAt: Option<nat>, count: nat, err: string)
    ensures var items := Events(Readable(log, failAt)) + (if failAt.Some? then [Err(err)] else []);
            FirstN(Leading(items), count) == FirstN(Readable(log, failAt), count)
  {
    LeadThenError(Readable(log, failAt), err);
    AllLead(Readable(log, failAt));
    assert Events(Readable(log, failAt)) + [] == Events(Readable(log, failAt));
  }

  lemma {:induction false} LeadThenError(events: seq<SessionEvent>, err: string)
    ensures Leading(Events(events) + [Err(err)]) == events
    decreases |events|
  {
    if events != [] {
      assert (Events(events) + [Err(err)])[1..] == Events(events[1..]) + [Err(err)];
      LeadThenError(events[1..], err);
    }
  }
}
