/** The part of a session's log that Get returns: the most recent events, cut
    by a binary search on time (runtime/internal/sessions/file.go). */
module RecentEvents {
  import opened Wrappers
  import opened SessionEvents
  import opened SessionState

  /** A stored ADK event, as far as storage looks at it. */
  datatype LogEvent = LogEvent(partial: bool, timestamp: int, stateDelta: State, content: Option<Content>)

  predicate NotBefore(e: LogEvent, after: int) {
    after <= e.timestamp
  }

  /** Go's sort.Search: halves [i, j) towards the first index that passes. */
  function SearchFrom(log: seq<LogEvent>, after: int, i: nat, j: nat): (k: nat)
    requires i <= j <= |log|
    ensures i <= k <= j
    decreases j - i
  {
    if i == j then i
    else
      var h := (i + j) / 2;
      if NotBefore(log[h], after) then SearchFrom(log, after, i, h) else SearchFrom(log, after, h + 1, j)
  }

  method Search(log: seq<LogEvent>, after: int) returns (k: nat)
    ensures k <= |log| && k == SearchFrom(log, after, 0, |log|)
  {
    var i, j := 0, |log|;
    while i < j
      invariant i <= j <= |log|
      invariant SearchFrom(log, after, i, j) == SearchFrom(log, after, 0, |log|)
      decreases j - i
    {
      var h := (i + j) / 2;
      if NotBefore(log[h], after) { j := h; } else { i := h + 1; }
    }
    k := i;
  }

  function LastN(log: seq<LogEvent>, n: int): seq<LogEvent> {
    if 0 < n < |log| then log[|log| - n..] else log
  }

  function Cut(log: seq<LogEvent>, n: int, after: Option<int>): seq<LogEvent> {
    var recent := LastN(log, n);
    if after.Some? && recent != [] then recent[SearchFrom(recent, after.value, 0, |recent|)..] else recent
  }

  /** Get's filter. */
  method FilterEvents(log: seq<LogEvent>, n: int, after: Option<int>) returns (out: seq<LogEvent>)
    ensures out == Cut(log, n, after)
    ensures after.None? && (n <= 0 || |log| <= n) ==> out == log
    ensures after.None? && 0 < n < |log| ==> out == log[|log| - n..]
  {
    out := log;
    if n > 0 {
      var start := if |out| - n > 0 then |out| - n else 0;
      out := out[start..];
    }
    if after.Some? && |out| > 0 {
      var k := Search(out, after.value);
      out := out[k..];
    }
  }

  // ----- What it is meant to return -----

  /** The events that are not before a time, in order. */
  function Since(log: seq<LogEvent>, after: int): seq<LogEvent> {
    if log == [] then []
    else (if NotBefore(log[0], after) then [log[0]] else []) + Since(log[1..], after)
  }

  /** Once an event is not before the time, no later one is. */
  ghost predicate Splits(log: seq<LogEvent>, after: int) {
    forall i, j :: 0 <= i < j < |log| && NotBefore(log[i], after) ==> NotBefore(log[j], after)
  }

  ghost predicate InTimeOrder(log: seq<LogEvent>) {
    forall i, j :: 0 <= i < j < |log| ==> log[i].timestamp <= log[j].timestamp
  }

  lemma {:induction false} SearchFindsFirst(log: seq<LogEvent>, after: int, i: nat, j: nat)
    requires i <= j <= |log| && Splits(log, after)
    requires forall m :: 0 <= m < i ==> !NotBefore(log[m], after)
    requires forall m :: j <= m < |log| ==> NotBefore(log[m], after)
    ensures var k := SearchFrom(log, after, i, j);
            && (forall m :: 0 <= m < k ==> !NotBefore(log[m], after))
            && (forall m :: k <= m < |log| ==> NotBefore(log[m], after))
    decreases j - i
  {
    if i < j {
      var h := (i + j) / 2;
      if NotBefore(log[h], after) {
        SearchFindsFirst(log, after, i, h);
      } else {
        forall m | 0 <= m < h + 1 ensures !NotBefore(log[m], after) {
        }
        SearchFindsFirst(log, after, h + 1, j);
      }
    }
  }

  /** A list's matching events are its tail from `k` exactly when the tail is
      what matches. */
  lemma {:induction false} SinceIsTailIff(log: seq<LogEvent>, after: int, k: nat)
    requires k <= |log|
    ensures |Since(log, after)| <= |log|
    ensures Since(log, after) == log[k..] <==>
              (forall m :: 0 <= m < k ==> !NotBefore(log[m], after))
              && (forall m :: k <= m < |log| ==> NotBefore(log[m], after))
    decreases |log|
  {
    if log != [] {
      var rest := log[1..];
      SinceIsTailIff(rest, after, if k == 0 then 0 else k - 1);
      if k == 0 {
        assert rest[0..] == rest && log[0..] == log;
        assert forall m :: 1 <= m < |log| ==> log[m] == rest[m - 1];
        if NotBefore(log[0], after) {
          assert Since(log, after)[1..] == Since(rest, after);
        }
      } else {
        assert log[k..] == rest[k - 1..];
        assert forall m :: 1 <= m < |log| ==> log[m] == rest[m - 1];
        if NotBefore(log[0], after) {
          SinceIsLonger(log, after, k);
        }
      }
    }
  }

  lemma {:induction false} SinceAllMatch(log: seq<LogEvent>, after: int)
    ensures forall e :: e in Since(log, after) ==> NotBefore(e, after)
    decreases |log|
  {
    if log != [] { SinceAllMatch(log[1..], after); }
  }

  /** A matching first event makes the matches longer than any tail without
      it that matches throughout. */
  lemma SinceIsLonger(log: seq<LogEvent>, after: int, k: nat)
    requires 0 < k <= |log| && NotBefore(log[0], after)
    ensures Since(log, after) != log[k..]
  {
    if Since(log, after) == log[k..] {
      SinceAllMatch(log, after);
      assert forall m :: k <= m < |log| ==> log[m] in log[k..];
      TailMatchesCount(log[1..], after, k - 1);
      }
  }

  lemma {:induction false} TailMatchesCount(log: seq<LogEvent>, after: int, k: nat)
    requires k <= |log| && forall m :: k <= m < |log| ==> NotBefore(log[m], after)
    ensures |Since(log, after)| >= |log| - k
    decreases |log|
  {
    if log != [] { TailMatchesCount(log[1..], after, if k == 0 then 0 else k - 1); }
  }

  /** The cut returns exactly the events of the last `n` that are not before
      `after` -- if and only if, among those, no event before `after` follows
      one that is not. */
  lemma CutIsExactIffSplit(log: seq<LogEvent>, n: int, after: int)
    ensures Cut(log, n, Some(after)) == Since(LastN(log, n), after) <==> Splits(LastN(log, n), after)
  {
    var recent := LastN(log, n);
    if recent != [] {
      var k := SearchFrom(recent, after, 0, |recent|);
      SinceIsTailIff(recent, after, k);
      if Splits(recent, after) { SearchFindsFirst(recent, after, 0, |recent|); }
    }
  }

  /** On a log in time order the cut is exact: those of the last `n` events
      that are not before the time, and a suffix of the log. */
  lemma CutOfOrderedLog(log: seq<LogEvent>, n: int, after: int)
    requires InTimeOrder(log)
    ensures Cut(log, n, Some(after)) == Since(if 0 < n < |log| then log[|log| - n..] else log, after)
    ensures |Cut(log, n, Some(after))| <= |log|
    ensures Cut(log, n, Some(after)) == log[|log| - |Cut(log, n, Some(after))|..]
  {
    CutIsExactIffSplit(log, n, after);
    CutIsSuffix(log, n, Some(after));
  }

  /** What `Since` selects, said of each event: those not before the time, and
      no other, each as often as it is there. */
  lemma {:induction false} SinceSelects(log: seq<LogEvent>, after: int, e: LogEvent)
    ensures multiset(Since(log, after))[e] == if after <= e.timestamp then multiset(log)[e] else 0
    decreases |log|
  {
    if log != [] {
      assert log == [log[0]] + log[1..];
      SinceSelects(log[1..], after, e);
    }
  }

  lemma CutIsSuffix(log: seq<LogEvent>, n: int, after: Option<int>)
    ensures |Cut(log, n, after)| <= |log|
    ensures Cut(log, n, after) == log[|log| - |Cut(log, n, after)|..]
  {
    hide SearchFrom;
  }

  /** Storage accepts events in any order, and then the cut can drop an event
      that should have been kept. */
  lemma CutCanLoseEvents()
    ensures exists log: seq<LogEvent> ::
              Cut(log, 0, Some(5)) == [] && Since(log, 5) != []
  {
    var early, late := LogEvent(false, 1, map[], None), LogEvent(false, 9, map[], None);
    var log := [late, early, early];
    assert SearchFrom(log, 5, 2, 3) == 3;
    assert Cut(log, 0, Some(5)) == [];
    assert Since(log, 5)[0] == late;
  }
}
