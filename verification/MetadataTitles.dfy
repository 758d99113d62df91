/** Appends that overlap and the records they save: each stores its event, then
    finds the session's record, then saves it again
    (runtime/internal/sessions/metadata_sync.go).  Finding is one step: the
    record is read from a single page. */
module MetadataTitles {
  import opened Wrappers
  import opened SessionFiles
  import opened SessionMetadata
  import opened MetadataSync
  import opened RecentEvents

  /** An append under way; `existing` is the record it found. */
  datatype Call = Stored(key: Key, event: LogEvent) | Found(key: Key, event: LogEvent, existing: Option<Meta>)

  datatype Titles = Titles(records: map<Key, Meta>, calls: map<nat, Call>)

  /** The parts of an append, named by its number, and the changes that
      creations and deletions make. */
  datatype Action =
    | StoreEvent(id: nat, key: Key, event: LogEvent)
    | Find(id: nat)
    | Save(id: nat, key: Key, clock: int, summary: Option<string>)
    | SaveNew(key: Key, clock: int)
    | Drop(key: Key)

  function SavedMeta(call: Call, clock: int, summary: Option<string>): Meta
    requires call.Found?
  {
    Meta(call.key, TitleAfterAppend(call.existing, call.event, summary),
         if call.existing.Some? then call.existing.value.createdAt else clock, clock)
  }

  /** None is a part that cannot be taken. */
  function Act(s: Titles, a: Action): Option<Titles> {
    match a
    case StoreEvent(id, key, event) =>
      if id in s.calls then None else Some(s.(calls := s.calls[id := Stored(key, event)]))
    case Find(id) =>
      if id in s.calls && s.calls[id].Stored? then
        var call := s.calls[id];
        Some(s.(calls := s.calls[id := Found(call.key, call.event, Existing(s.records, call.key))]))
      else None
    case Save(id, key, clock, summary) =>
      if id in s.calls && s.calls[id].Found? && s.calls[id].key == key then
        Some(Titles(Put(s.records, SavedMeta(s.calls[id], clock, summary), false), s.calls - {id}))
      else None
    case SaveNew(key, clock) => Some(s.(records := Put(s.records, Meta(key, "", clock, clock), false)))
    case Drop(key) => Some(s.(records := s.records - {key}))
  }

  function Run(s: Titles, actions: seq<Action>): Option<Titles>
    decreases |actions|
  {
    if actions == [] then Some(s)
    else match Act(s, actions[0]) case None => None case Some(s') => Run(s', actions[1..])
  }

  predicate Changes(a: Action, key: Key) {
    (a.Save? || a.SaveNew? || a.Drop?) && a.key == key
  }

  /** A record under its key, created when it was and, once it has a title,
      called as it was. */
  ghost predicate Keeps(before: Meta, after: Meta) {
    && after.key == before.key && after.createdAt == before.createdAt
    && (before.title != "" ==> after.title == before.title)
  }

  // ----- The wrapper's calls -----

  /** An append with nothing in between changes the records as the wrapper
      does; so do the changes of a creation and a deletion that took effect. */
  lemma AloneIsTheWrapper(s: Titles, id: nat, key: Key, event: LogEvent, clock: int, faults: Faults)
    requires id !in s.calls
    ensures Run(s, [StoreEvent(id, key, event)] + ([Find(id)] + [Save(id, key, clock, faults.summary)]))
         == Some(s.(records := Put(s.records, MetaAfterAppend(s.records, key, event, clock, faults), false)))
  {
    hide Run, TitleAfterAppend, Existing, Put;
    var s1 := s.(calls := s.calls[id := Stored(key, event)]);
    var s2 := s.(calls := s.calls[id := Found(key, event, Existing(s.records, key))]);
    assert s1.calls[id := s2.calls[id]] == s2.calls && s2.calls - {id} == s.calls;
    RunConcat(s, [StoreEvent(id, key, event)], [Find(id)] + [Save(id, key, clock, faults.summary)]);
    RunOne(s, StoreEvent(id, key, event));
    RunConcat(s1, [Find(id)], [Save(id, key, clock, faults.summary)]);
    RunOne(s1, Find(id));
    RunOne(s2, Save(id, key, clock, faults.summary));
  }

  lemma ChangesAreTheWrappers(s: Titles, op: Op, reply: Reply, clock: int, faults: Faults)
    requires Complete(op.key) && !faults.save && !faults.delete
    ensures op.Create? && reply.Session? ==>
              Act(s, SaveNew(op.key, clock)) == Some(s.(records := RecordsAfter(s.records, op, reply, clock, faults)))
    ensures op.Delete? && reply.Done? ==>
              Act(s, Drop(op.key)) == Some(s.(records := RecordsAfter(s.records, op, reply, clock, faults)))
  {
  }

  // ----- Between finding and saving -----

  lemma UndisturbedStep(s: Titles, a: Action, key: Key)
    requires !Changes(a, key) && Act(s, a).Some?
    ensures Existing(Act(s, a).value.records, key) == Existing(s.records, key)
    ensures forall id :: id in s.calls && s.calls[id].Found? && s.calls[id].key == key ==>
              id in Act(s, a).value.calls && Act(s, a).value.calls[id] == s.calls[id]
  {
  }

  /** While nothing changes a session's record, what was found of it stays what
      there is. */
  lemma {:induction false} UndisturbedRun(s: Titles, actions: seq<Action>, key: Key, id: nat)
    requires forall k :: 0 <= k < |actions| ==> !Changes(actions[k], key)
    requires Run(s, actions).Some? && id in s.calls && s.calls[id].Found? && s.calls[id].key == key
    ensures Existing(Run(s, actions).value.records, key) == Existing(s.records, key)
    ensures id in Run(s, actions).value.calls && Run(s, actions).value.calls[id] == s.calls[id]
    decreases |actions|
  {
    hide Act, Changes, Existing;
    if actions != [] {
      UndisturbedStep(s, actions[0], key);
      assert forall k :: 0 <= k < |actions[1..]| ==> actions[1..][k] == actions[k + 1];
      UndisturbedRun(Act(s, actions[0]).value, actions[1..], key, id);
    }
  }

  lemma {:induction false} RunConcat(s: Titles, a: seq<Action>, b: seq<Action>)
    ensures Run(s, a + b) == match Run(s, a) case None => None case Some(s') => Run(s', b)
    decreases |a|
  {
    hide Act;
    if a == [] {
      assert a + b == b;
    } else {
      assert (a + b)[0] == a[0] && (a + b)[1..] == a[1..] + b;
      if Act(s, a[0]).Some? { RunConcat(Act(s, a[0]).value, a[1..], b); }
    }
  }

  lemma RunOne(s: Titles, a: Action)
    ensures Run(s, [a]) == Act(s, a)
  {
    hide Act;
    assert [a][1..] == [];
  }

  /** A save of what there is keeps creation time and title. */
  lemma CurrentSaveKeeps(s: Titles, a: Action)
    requires a.Save? && Act(s, a).Some? && s.calls[a.id].existing == Existing(s.records, a.key)
    requires a.key in s.records && s.records[a.key].key == a.key
    ensures a.key in Act(s, a).value.records && Keeps(s.records[a.key], Act(s, a).value.records[a.key])
  {
  }

  /** An append keeps creation time and non-empty title of its session's record
      if nothing else saves or drops that record between its finding and its
      saving, whatever other appends do in between. */
  lemma KeptIfUndisturbed(s: Titles, id: nat, middle: seq<Action>, save: Action)
    requires id in s.calls && s.calls[id].Stored? && save.Save? && save.id == id && save.key == s.calls[id].key
    requires save.key in s.records && s.records[save.key].key == save.key
    requires forall k :: 0 <= k < |middle| ==> !Changes(middle[k], save.key)
    requires Run(s, [Find(id)] + (middle + [save])).Some?
    ensures var s' := Run(s, [Find(id)] + (middle + [save])).value;
            save.key in s'.records && Keeps(s.records[save.key], s'.records[save.key])
  {
    hide Run, Changes, Keeps;
    RunConcat(s, [Find(id)], middle + [save]);
    RunOne(s, Find(id));
    var s1 := Act(s, Find(id)).value;
    RunConcat(s1, middle, [save]);
    UndisturbedRun(s1, middle, save.key, id);
    var s2 := Run(s1, middle).value;
    RunOne(s2, save);
    CurrentSaveKeeps(s2, save);
  }

  /** Whatever the time and the summary, a save keeps creation time and title
      of the record there is now if and only if what its append found has
      them already. */
  lemma SaveIsSafeIff(call: Call, now: Meta)
    requires call.Found? && now.key == call.key && (call.existing.Some? ==> call.existing.value.key == call.key)
    ensures (forall clock, summary :: Keeps(now, SavedMeta(call, clock, summary)))
            <==> (call.existing.Some? && Keeps(now, call.existing.value))
  {
    hide UserMessageText;
    var meta := SavedMeta(call, now.createdAt + 1, None);
    if forall clock, summary :: Keeps(now, SavedMeta(call, clock, summary)) {
      assert Keeps(now, meta);
    }
  }

  // ----- Whole runs -----

  /** Every save of the session finds the record as its append found it. */
  ghost predicate SavesCurrent(s: Titles, actions: seq<Action>, key: Key)
    decreases |actions|
  {
    actions != [] && Act(s, actions[0]).Some? ==>
      && (actions[0].Save? && actions[0].key == key ==> s.calls[actions[0].id].existing == Existing(s.records, key))
      && SavesCurrent(Act(s, actions[0]).value, actions[1..], key)
  }

  lemma StepKeeps(s: Titles, a: Action, key: Key)
    requires key in s.records && s.records[key].key == key && Act(s, a).Some?
    requires !(a.SaveNew? && a.key == key) && !(a.Drop? && a.key == key)
    requires a.Save? && a.key == key ==> s.calls[a.id].existing == Existing(s.records, key)
    ensures key in Act(s, a).value.records && Keeps(s.records[key], Act(s, a).value.records[key])
  {
    hide Act;
    if a.Save? && a.key == key { CurrentSaveKeeps(s, a); } else { UndisturbedStep(s, a, key); }
  }

  /** Over any interleaving in which every save of a session meets the record
      as its append found it, and the session is neither created again nor
      deleted, creation time and non-empty title stay. */
  lemma {:induction false} IdentityOverOverlaps(s: Titles, actions: seq<Action>, key: Key)
    requires key in s.records && s.records[key].key == key
    requires Run(s, actions).Some? && SavesCurrent(s, actions, key)
    requires forall k :: 0 <= k < |actions| ==> actions[k].SaveNew? || actions[k].Drop? ==> actions[k].key != key
    ensures key in Run(s, actions).value.records && Keeps(s.records[key], Run(s, actions).value.records[key])
    decreases |actions|
  {
    hide Act, Existing;
    if actions != [] {
      StepKeeps(s, actions[0], key);
      assert forall k :: 0 <= k < |actions[1..]| ==> actions[1..][k] == actions[k + 1];
      IdentityOverOverlaps(Act(s, actions[0]).value, actions[1..], key);
    }
  }

  // ----- What can go wrong -----

  predicate TitledAfter(s: Titles, actions: seq<Action>, key: Key, title: string) {
    && Run(s, actions).Some?
    && key in Run(s, actions).value.records && Run(s, actions).value.records[key].title == title
  }

  function TwoAppends(key: Key, event: LogEvent, clock: int, first: string, second: string): seq<Action> {
    [StoreEvent(1, key, event), StoreEvent(2, key, event), Find(1), Find(2), Save(1, key, clock, Some(first)),
     Save(2, key, clock, Some(second))]
  }

  /** Two appends that both find an untitled record: the second save replaces
      the title of the first. */
  lemma OverlapReplacesTitle(meta: Meta, event: LogEvent, clock: int, first: string, second: string)
    requires Complete(meta.key) && meta.title == "" && UserMessageText(event) != ""
    ensures var actions, s := TwoAppends(meta.key, event, clock, first, second), Titles(map[meta.key := meta], map[]);
            TitledAfter(s, actions[..5], meta.key, first) && TitledAfter(s, actions, meta.key, second)
  {
    hide UserMessageText, Run;
    var key := meta.key;
    var actions, s := TwoAppends(key, event, clock, first, second), Titles(map[key := meta], map[]);
    var s1 := Act(s, actions[0]).value;
    var s2 := Act(s1, actions[1]).value;
    var s3 := Act(s2, actions[2]).value;
    var s4 := Act(s3, actions[3]).value;
    var s5 := Act(s4, actions[4]).value;
    var s6 := Act(s5, actions[5]).value;
    RunTo(s, actions, 0, s);
    RunTo(s, actions, 1, s1);
    RunTo(s, actions, 2, s2);
    RunTo(s, actions, 3, s3);
    RunTo(s, actions, 4, s4);
    RunTo(s, actions, 5, s5);
    assert actions[..6] == actions;
    assert s4.calls[1] == s4.calls[2] == Found(key, event, Some(meta));
    assert s5.records[key].title == first && s6.records[key].title == second;
  }

  /** A run one action longer. */
  lemma RunTo(s: Titles, actions: seq<Action>, k: nat, at: Titles)
    requires k < |actions| && ((k == 0 && at == s) || Run(s, actions[..k]) == Some(at))
    ensures Run(s, actions[..k + 1]) == Act(at, actions[k])
  {
    hide Act;
    assert actions[..k + 1] == actions[..k] + [actions[k]];
    RunConcat(s, actions[..k], [actions[k]]);
    RunOne(at, actions[k]);
  }

  /** A search that needs a second page can miss its record: when the newest
      record is deleted between the pages, the one at the boundary is on
      neither. */
  lemma DeletionHidesRecord(listing: seq<Meta>)
    requires UniqueKeys(listing) && |listing| > LIST_PAGE_SIZE
    ensures var hidden := listing[LIST_PAGE_SIZE];
            && hidden in listing[1..]
            && hidden !in PageOf(listing, LIST_PAGE_SIZE, 0).sessions
            && hidden !in PageOf(listing[1..], LIST_PAGE_SIZE, LIST_PAGE_SIZE).sessions
  {
    var hidden, later := listing[LIST_PAGE_SIZE], listing[1..];
    assert later[LIST_PAGE_SIZE - 1] == hidden;
    var first := PageOf(listing, LIST_PAGE_SIZE, 0).sessions;
    var second := PageOf(later, LIST_PAGE_SIZE, LIST_PAGE_SIZE).sessions;
    forall k | 0 <= k < |first| ensures first[k] != hidden {
      assert first[k] == listing[k];
    }
    forall k | 0 <= k < |second| ensures second[k] != hidden {
      assert second[k] == listing[LIST_PAGE_SIZE + 1 + k];
    }
  }
}
