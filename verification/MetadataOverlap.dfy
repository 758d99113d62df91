/** Calls of the metadata wrapper that overlap: each stores the session under
    one lock and changes its record later under another
    (runtime/internal/sessions/metadata_sync.go). */
module MetadataOverlap {
  import opened Wrappers
  import opened SessionFiles
  import opened SessionMetadata
  import opened MetadataSync
  import opened RecentEvents
  import R = SessionRefinement

  /** What a call has still to do once its session is stored. */
  datatype Pending = SaveOf(key: Key) | DropOf(key: Key)

  datatype Shared = Shared(disk: Disk, records: map<Key, Meta>, pending: seq<Pending>)

  /** A call takes two steps.  Title and times of the record saved are left
      open: they depend on what paging finds meanwhile. */
  datatype Event = Begin(op: Op) | Finish(i: nat, meta: Meta)

  function Follow(op: Op, reply: Reply): seq<Pending> {
    match op
    case Create(key, _, _) => if reply.Session? then [SaveOf(key)] else []
    case Append(key, event, _) =>
      if reply.Done? && !event.partial && key.app != "" && key.user != "" then [SaveOf(key)] else []
    case Delete(key) => if reply.Done? then [DropOf(key)] else []
    case Get(_, _, _) => []
  }

  /** None is a step that cannot be taken. */
  function Step(s: Shared, e: Event): Option<Shared> {
    match e
    case Begin(op) =>
      var (disk, reply) := DiskStep(s.disk, op);
      Some(Shared(disk, s.records, s.pending + Follow(op, reply)))
    case Finish(i, meta) =>
      if i >= |s.pending| || meta.key != s.pending[i].key then None
      else
        var records :=
          match s.pending[i]
          case SaveOf(_) => Put(s.records, meta, false)
          case DropOf(key) => s.records - {key};
        Some(Shared(s.disk, records, s.pending[..i] + s.pending[i + 1..]))
  }

  function Run(s: Shared, events: seq<Event>): Option<Shared>
    decreases |events|
  {
    if events == [] then Some(s)
    else match Step(s, events[0]) case None => None case Some(s') => Run(s', events[1..])
  }

  predicate IsPending(s: Shared, key: Key) {
    exists i :: 0 <= i < |s.pending| && s.pending[i].key == key
  }

  // ----- When the pending changes agree with the disk -----

  ghost predicate InStepAt(s: Shared, key: Key) {
    SessionPath(key) in s.disk <==> key in s.records
  }

  /** What is still to be done about a session is what its file asks for: to
      save its record if it is stored, and to drop it if it is not. */
  ghost predicate Agrees(s: Shared, key: Key) {
    forall i :: 0 <= i < |s.pending| && s.pending[i].key == key ==>
      (s.pending[i].SaveOf? <==> SessionPath(key) in s.disk)
  }

  /** Calls that save and calls that drop do not mix: whatever a call will do
      about its session's record, the calls under way on that session are
      saves if and only if it is no deletion. */
  ghost predicate NoClash(s: Shared, op: Op) {
    Follow(op, DiskStep(s.disk, op).1) != [] ==>
      forall i :: 0 <= i < |s.pending| && s.pending[i].key == op.key ==> (s.pending[i].SaveOf? <==> !op.Delete?)
  }

  /** A record is kept or made only of a session whose names are complete; of
      another nothing ever changes. */
  ghost predicate KeyOk(s: Shared, key: Key) {
    && Agrees(s, key)
    && (!IsPending(s, key) || !Complete(key) ==> InStepAt(s, key))
  }

  ghost predicate SharedOk(s: Shared) {
    forall key: Key :: key.app != USER_DIR ==> KeyOk(s, key)
  }

  lemma FollowedKeys(pending: seq<Pending>, op: Op, reply: Reply, key: Key)
    ensures var after := pending + Follow(op, reply);
            && |pending| <= |after| <= |pending| + 1
            && (|after| > |pending| ==> after[|pending|].key == op.key && (after[|pending|].SaveOf? <==> !op.Delete?))
            && ((exists i :: 0 <= i < |after| && after[i].key == key) <==>
                  (exists i :: 0 <= i < |pending| && pending[i].key == key)
                  || (Follow(op, reply) != [] && key == op.key))
  {
    var after := pending + Follow(op, reply);
    if i :| 0 <= i < |pending| && pending[i].key == key { assert after[i].key == key; }
    if Follow(op, reply) != [] { assert after[|pending|].key == op.key; }
  }

  /** What a call makes of the presence of its own session, when it leaves
      something to be done. */
  lemma FollowMeansPresence(disk: Disk, op: Op)
    requires Normal(op)
    ensures var (disk', reply) := DiskStep(disk, op);
            && (Follow(op, reply) != [] ==> !op.Get?)
            && (Follow(op, reply) != [] ==>
                  (SessionPath(op.key) in disk' <==> !op.Delete?) && (SessionPath(op.key) in disk <==> !op.Create?))
            && (Follow(op, reply) == [] ==> (SessionPath(op.key) in disk' <==> SessionPath(op.key) in disk))
            && (!Complete(op.key) ==> (SessionPath(op.key) in disk' <==> SessionPath(op.key) in disk))
  {
    hide DiskStep, SessionPath;
    DiskStepPresence(disk, op, op.key);
    ReplyShape(disk, op);
    if op.Append? && !op.event.partial && DiskStep(disk, op).1.Done? { AppendNeedsSession(disk, op); }
    EffectNeeds(disk, op);
  }

  /** Only a new session is created, only a stored one deleted. */
  lemma EffectNeeds(disk: Disk, op: Op)
    ensures op.Create? && DiskStep(disk, op).1.Session? ==> SessionPath(op.key) !in disk
    ensures op.Delete? && DiskStep(disk, op).1.Done? ==> SessionPath(op.key) in disk
  {
    hide SessionPath, AddToLayers, CanAddToLayers, CanWrite;
  }

  /** Agreement at a session is kept by a call on it that leaves something to
      be done if and only if the call does not clash. */
  lemma BeginKeepsAgreementIff(s: Shared, op: Op)
    requires Normal(op) && Agrees(s, op.key) && Follow(op, DiskStep(s.disk, op).1) != []
    ensures Agrees(Step(s, Begin(op)).value, op.key) <==> NoClash(s, op)
  {
    hide DiskStep, SessionPath, Follow;
    var s' := Step(s, Begin(op)).value;
    FollowMeansPresence(s.disk, op);
    FollowedKeys(s.pending, op, DiskStep(s.disk, op).1, op.key);
    forall i | 0 <= i < |s.pending| ensures s'.pending[i] == s.pending[i] {
    }
  }

  /** An append never clashes; a creation or deletion that takes effect does so
      exactly when any call on its session is under way. */
  lemma ClashesIffPending(s: Shared, op: Op)
    requires Normal(op) && Agrees(s, op.key) && Follow(op, DiskStep(s.disk, op).1) != []
    ensures NoClash(s, op) <==> op.Append? || !IsPending(s, op.key)
  {
    hide DiskStep, SessionPath, Follow;
    FollowMeansPresence(s.disk, op);
    if IsPending(s, op.key) {
      var i :| 0 <= i < |s.pending| && s.pending[i].key == op.key;
      assert s.pending[i].SaveOf? <==> SessionPath(op.key) in s.disk;
    }
  }

  /** One that leaves nothing to be done keeps it anyway. */
  lemma IdleBeginKeepsAgreement(s: Shared, op: Op)
    requires Normal(op) && Agrees(s, op.key) && Follow(op, DiskStep(s.disk, op).1) == []
    ensures Agrees(Step(s, Begin(op)).value, op.key)
  {
    hide DiskStep, SessionPath;
    FollowMeansPresence(s.disk, op);
  }

  lemma BeginKeepsOwnKey(s: Shared, op: Op)
    requires Normal(op) && KeyOk(s, op.key) && NoClash(s, op)
    ensures KeyOk(Step(s, Begin(op)).value, op.key)
  {
    hide DiskStep, SessionPath, Agrees, Complete, NoClash, Follow;
    FollowMeansPresence(s.disk, op);
    FollowedKeys(s.pending, op, DiskStep(s.disk, op).1, op.key);
    if Follow(op, DiskStep(s.disk, op).1) != [] {
      BeginKeepsAgreementIff(s, op);
    } else {
      IdleBeginKeepsAgreement(s, op);
    }
  }

  lemma BeginKeepsOtherKey(s: Shared, op: Op, key: Key)
    requires Normal(op) && KeyOk(s, key) && key != op.key && key.app != USER_DIR
    ensures KeyOk(Step(s, Begin(op)).value, key)
  {
    hide DiskStep, SessionPath, Complete, Follow;
    var s' := Step(s, Begin(op)).value;
    DiskStepPresence(s.disk, op, key);
    FollowedKeys(s.pending, op, DiskStep(s.disk, op).1, key);
    forall i | 0 <= i < |s.pending| ensures s'.pending[i] == s.pending[i] {
    }
  }

  // ----- Finishing -----

  /** What is pending after one change was made. */
  lemma FinishPending(s: Shared, i: nat, meta: Meta, key: Key)
    requires Step(s, Finish(i, meta)).Some?
    ensures var s' := Step(s, Finish(i, meta)).value;
            && s'.disk == s.disk && |s'.pending| == |s.pending| - 1
            && (forall j :: 0 <= j < |s'.pending| ==> s'.pending[j] == s.pending[if j < i then j else j + 1])
            && (IsPending(s', key) ==> IsPending(s, key))
            && (key != s.pending[i].key && IsPending(s, key) ==> IsPending(s', key))
  {
    var s' := Step(s, Finish(i, meta)).value;
    if key != s.pending[i].key && IsPending(s, key) {
      var j :| 0 <= j < |s.pending| && s.pending[j].key == key;
      assert s'.pending[if j < i then j else j - 1].key == key;
    }
  }

  lemma FinishKeepsKey(s: Shared, i: nat, meta: Meta, key: Key)
    requires KeyOk(s, key) && Step(s, Finish(i, meta)).Some?
    ensures KeyOk(Step(s, Finish(i, meta)).value, key)
  {
    hide SessionPath, IsPending;
    FinishPending(s, i, meta, key);
  }

  /** No call of the run clashes with those under way when it begins. */
  ghost predicate NeverClashes(s: Shared, events: seq<Event>)
    decreases |events|
  {
    events != [] ==>
      && (events[0].Begin? ==> Normal(events[0].op) && NoClash(s, events[0].op))
      && (Step(s, events[0]).Some? ==> NeverClashes(Step(s, events[0]).value, events[1..]))
  }

  lemma StepKeepsShared(s: Shared, e: Event)
    requires SharedOk(s) && Step(s, e).Some?
    requires e.Begin? ==> Normal(e.op) && NoClash(s, e.op)
    ensures SharedOk(Step(s, e).value)
  {
    hide Step, KeyOk, NoClash;
    forall key: Key | key.app != USER_DIR ensures KeyOk(Step(s, e).value, key) {
      match e
      case Begin(op) => if key == op.key { BeginKeepsOwnKey(s, op); } else { BeginKeepsOtherKey(s, op, key); }
      case Finish(i, meta) => FinishKeepsKey(s, i, meta, key);
    }
  }

  /** Calls may overlap in any way, appends of one session among them: if none
      clashes, what is pending agrees with the files, and the index holds
      exactly the stored sessions, but for those with a call under way. */
  lemma {:induction false} OverlapKeepsInStep(s: Shared, events: seq<Event>)
    requires SharedOk(s) && NeverClashes(s, events) && Run(s, events).Some?
    ensures SharedOk(Run(s, events).value)
    decreases |events|
  {
    hide Step, SharedOk, NoClash;
    if events != [] {
      StepKeepsShared(s, events[0]);
      OverlapKeepsInStep(Step(s, events[0]).value, events[1..]);
    }
  }

  /** When nothing is under way any more, the index is in step. */
  lemma QuietIsInStep(disk: Disk, records: map<Key, Meta>, events: seq<Event>)
    requires InStep(Store(disk, records)) && NeverClashes(Shared(disk, records, []), events)
    requires Run(Shared(disk, records, []), events).Some?
    ensures var s := Run(Shared(disk, records, []), events).value;
            s.pending == [] ==> InStep(Store(s.disk, s.records))
  {
    hide SessionPath, Run, NeverClashes;
    var s0 := Shared(disk, records, []);
    assert SharedOk(s0);
    OverlapKeepsInStep(s0, events);
    var s := Run(s0, events).value;
    if s.pending == [] {
      forall key: Key | key.app != USER_DIR ensures SessionPath(key) in s.disk <==> key in s.records {
        assert KeyOk(s, key);
      }
    }
  }

  // ----- The exact condition -----

  /** The events make all pending changes, in some order, and nothing else. */
  ghost predicate Drains(s: Shared, events: seq<Event>) {
    && (forall k :: 0 <= k < |events| ==> events[k].Finish?)
    && Run(s, events).Some? && Run(s, events).value.pending == []
  }

  ghost predicate EveryFinishIsInStep(s: Shared, key: Key) {
    forall events :: Drains(s, events) ==> InStepAt(Run(s, events).value, key)
  }

  lemma {:induction false} DrainsInStep(s: Shared, events: seq<Event>, key: Key)
    requires KeyOk(s, key) && Drains(s, events)
    ensures InStepAt(Run(s, events).value, key)
    decreases |events|
  {
    hide Step, SessionPath;
    if events == [] {
      assert !IsPending(s, key);
    } else {
      assert events[0].Finish?;
      FinishKeepsKey(s, events[0].i, events[0].meta, key);
      assert forall k :: 0 <= k < |events[1..]| ==> events[1..][k] == events[k + 1];
      DrainsInStep(Step(s, events[0]).value, events[1..], key);
    }
  }

  function BlankMeta(key: Key): Meta {
    Meta(key, "", 0, 0)
  }

  lemma DrainsAll(s: Shared, events: seq<Event>)
    requires Drains(s, events)
    ensures Run(s, events).Some? && Run(s, events).value.pending == []
  {
  }

  lemma DrainsNone(s: Shared)
    requires s.pending == []
    ensures Drains(s, []) && Run(s, []) == Some(s)
  {
  }

  lemma DrainsThen(s: Shared, first: Event, rest: seq<Event>)
    requires first.Finish? && Step(s, first).Some? && Drains(Step(s, first).value, rest)
    ensures Drains(s, [first] + rest) && Run(s, [first] + rest) == Run(Step(s, first).value, rest)
  {
    hide Step;
    assert ([first] + rest)[1..] == rest;
  }

  /** An order that makes the change at `i` last. */
  lemma {:induction false} FinishLast(s: Shared, i: nat) returns (events: seq<Event>)
    requires i < |s.pending| && Complete(s.pending[i].key)
    ensures Drains(s, events) && Run(s, events).Some? && Run(s, events).value.disk == s.disk
    ensures s.pending[i].key in Run(s, events).value.records <==> s.pending[i].SaveOf?
    decreases |s.pending|
  {
    hide Complete, Run, Drains;
    var j := if |s.pending| == 1 then i else if i == 0 then 1 else 0;
    var first := Finish(j, BlankMeta(s.pending[j].key));
    var s' := Step(s, first).value;
    FinishPending(s, j, first.meta, s.pending[i].key);
    if |s.pending| == 1 {
      DrainsNone(s');
      DrainsThen(s, first, []);
      events := [first] + [];
    } else {
      var last := if i == 0 then 0 else i - 1;
      assert s'.pending[last] == s.pending[i];
      var rest := FinishLast(s', last);
      DrainsThen(s, first, rest);
      events := [first] + rest;
    }
  }

  /** Whatever the order in which the pending changes are made, the index ends
      in step at a session -- if and only if they agree with its file. */
  lemma EveryFinishIsInStepIff(s: Shared, key: Key)
    requires Complete(key) && (!IsPending(s, key) ==> InStepAt(s, key))
    ensures EveryFinishIsInStep(s, key) <==> Agrees(s, key)
  {
    hide SessionPath, Complete, Drains, Step;
    if Agrees(s, key) {
      forall events | Drains(s, events) ensures Run(s, events).Some? && InStepAt(Run(s, events).value, key) {
        DrainsAll(s, events);
        DrainsInStep(s, events, key);
      }
    } else {
      var i :| 0 <= i < |s.pending| && s.pending[i].key == key
               && !(s.pending[i].SaveOf? <==> SessionPath(key) in s.disk);
      var events := FinishLast(s, i);
      assert !InStepAt(Run(s, events).value, key);
    }
  }

  /** A call that leaves something to be done keeps the index safe, whatever
      finishes first, if and only if it does not clash with those under way. */
  lemma OverlapIsSafeIff(s: Shared, op: Op)
    requires SharedOk(s) && Normal(op) && Complete(op.key) && Follow(op, DiskStep(s.disk, op).1) != []
    ensures EveryFinishIsInStep(Step(s, Begin(op)).value, op.key) <==> NoClash(s, op)
  {
    hide NoClash, Complete, EveryFinishIsInStep, Agrees, SharedOk, Follow, DiskStep, IsPending;
    SharedAgrees(s, op.key);
    BeginKeepsAgreementIff(s, op);
    BegunIsPending(s, op);
    EveryFinishIsInStepIff(Step(s, Begin(op)).value, op.key);
  }

  lemma SharedAgrees(s: Shared, key: Key)
    requires SharedOk(s) && key.app != USER_DIR
    ensures Agrees(s, key)
  {
    assert KeyOk(s, key);
  }

  lemma BegunIsPending(s: Shared, op: Op)
    requires Follow(op, DiskStep(s.disk, op).1) != []
    ensures IsPending(Step(s, Begin(op)).value, op.key)
  {
    hide DiskStep, Follow;
    FollowedKeys(s.pending, op, DiskStep(s.disk, op).1, op.key);
  }

  /** An append and a deletion of one session that overlap can leave its
      record without the session. */
  lemma OverlapCanLeaveRecord(s: Shared, key: Key, event: LogEvent, now: int, meta: Meta)
    requires R.Tidy(s.disk) && R.Clear(key) && SessionPath(key) in s.disk && Complete(key) && s.pending == []
    requires !event.partial && meta.key == key
    ensures var events := [Begin(Append(key, event, now)), Begin(Delete(key)), Finish(1, meta), Finish(0, meta)];
            && Run(s, events).Some?
            && Run(s, events).value.pending == []
            && SessionPath(key) !in Run(s, events).value.disk && key in Run(s, events).value.records
  {
    hide DiskStep, SessionPath;
    var events := [Begin(Append(key, event, now)), Begin(Delete(key)), Finish(1, meta), Finish(0, meta)];
    R.AppendIsAnswered(s.disk, key, event, now);
    var s1 := Step(s, events[0]).value;
    DiskStepPresence(s.disk, Append(key, event, now), key);
    DeleteIsAnswered(s1.disk, key);
    var s2 := Step(s1, events[1]).value;
    DiskStepPresence(s1.disk, Delete(key), key);
    assert s2.pending == [SaveOf(key), DropOf(key)];
    var s3 := Step(s2, events[2]).value;
    assert s3.pending == [SaveOf(key)];
    var s4 := Step(s3, events[3]).value;
    RunFour(s, events);
  }

  lemma DeleteIsAnswered(disk: Disk, key: Key)
    requires SessionPath(key) in disk && Complete(key)
    ensures DiskStep(disk, Delete(key)).1.Done?
  {
  }

  lemma RunFour(s: Shared, events: seq<Event>)
    requires |events| == 4 && Step(s, events[0]).Some?
    requires var s1 := Step(s, events[0]).value;
             Step(s1, events[1]).Some?
             && var s2 := Step(s1, events[1]).value;
                Step(s2, events[2]).Some? && Step(Step(s2, events[2]).value, events[3]).Some?
    ensures var s2 := Step(Step(s, events[0]).value, events[1]).value;
            Run(s, events) == Step(Step(s2, events[2]).value, events[3])
  {
    hide Step;
    var s1 := Step(s, events[0]).value;
    var s2 := Step(s1, events[1]).value;
    var s3 := Step(s2, events[2]).value;
    assert Run(s3, events[3..]) == Step(s3, events[3]) by { assert events[3..][1..] == []; }
    assert events[2..][1..] == events[3..] && events[1..][1..] == events[2..];
    assert Run(s2, events[2..]) == Run(s3, events[3..]);
    assert Run(s1, events[1..]) == Run(s2, events[2..]);
  }

  /** A call alone is its two steps. */
  lemma CallIsTwoSteps(s: Store, op: Op, clock: int, faults: Faults)
    requires Fine(faults) && Normal(op)
    ensures var s0 := Shared(s.disk, s.records, []);
            var s1 := Step(s0, Begin(op)).value;
            var after := SyncStep(s, op, clock, faults).0;
            && s1.disk == after.disk
            && (s1.pending == [] ==> s1.records == after.records)
            && (s1.pending != [] ==>
                  exists meta :: Step(s1, Finish(0, meta)) == Some(Shared(after.disk, after.records, [])))
  {
    hide DiskStep, TitleAfterAppend;
    var s0 := Shared(s.disk, s.records, []);
    var s1 := Step(s0, Begin(op)).value;
    var after := SyncStep(s, op, clock, faults).0;
    ReplyShape(s.disk, op);
    if s1.pending != [] {
      var meta := match op
        case Create(key, _, _) => Meta(key, "", clock, clock)
        case Append(key, event, _) => MetaAfterAppend(s.records, key, event, clock, faults)
        case _ => Meta(op.key, "", 0, 0);
      assert |s1.pending| == 1 && s1.pending[..0] + s1.pending[1..] == [];
      assert Step(s1, Finish(0, meta)) == Some(Shared(after.disk, after.records, []));
    }
  }
}
