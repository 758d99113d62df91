/** The wrapper that keeps listing metadata in step with stored sessions, over
    the file backend (runtime/internal/sessions/metadata_sync.go and the index
    files of runtime/internal/sessions/file.go). */
module MetadataSync {
  import opened Wrappers
  import opened SessionEvents
  import opened SessionState
  import opened RecentEvents
  import opened SessionFiles
  import opened SessionMetadata
  import R = SessionRefinement
  import Text

  // ----- Titles -----

  /** Appends the non-empty text parts, separated by single spaces. */
  function AddTexts(built: string, parts: seq<Part>): string
    decreases |parts|
  {
    if parts == [] then built
    else
      var next := if parts[0].TextPart? && parts[0].text != ""
                  then (if built != "" then built + " " else built) + parts[0].text else built;
      AddTexts(next, parts[1..])
  }

  function UserMessageText(event: LogEvent): string {
    if event.content.None? || event.content.value.role != "user" then ""
    else Text.TrimSpace(AddTexts("", event.content.value.parts))
  }

  /** An existing title stays; otherwise the first user message is summarised.
      `summary` is None when the summariser fails. */
  function TitleAfterAppend(existing: Option<Meta>, event: LogEvent, summary: Option<string>): string {
    if existing.Some? && existing.value.title != "" then existing.value.title
    else if UserMessageText(event) == "" || summary.None? then ""
    else summary.value
  }

  method BuildUserMessageText(event: LogEvent) returns (text: string)
    ensures text == UserMessageText(event)
  {
    if event.content.None? || event.content.value.role != "user" { return ""; }
    var parts := event.content.value.parts;
    var built := "";
    for i := 0 to |parts|
      invariant AddTexts(built, parts[i..]) == AddTexts("", parts)
    {
      assert parts[i..][1..] == parts[i + 1..];
      if parts[i].TextPart? && parts[i].text != "" {
        if |built| > 0 { built := built + " "; }
        built := built + parts[i].text;
      }
    }
    text := Text.TrimSpace(built);
  }

  // ----- One call, as a function -----

  /** Which metadata calls fail, and what the summariser answers. */
  datatype Faults = Faults(list: bool, save: bool, delete: bool, summary: Option<string>)

  datatype Store = Store(disk: Disk, records: map<Key, Meta>)

  function Put(records: map<Key, Meta>, meta: Meta, fails: bool): map<Key, Meta> {
    if fails || !Complete(meta.key) then records else records[meta.key := meta]
  }

  function Existing(records: map<Key, Meta>, key: Key): Option<Meta> {
    if key in records then Some(records[key]) else None
  }

  function MetaAfterAppend(records: map<Key, Meta>, key: Key, event: LogEvent, clock: int, faults: Faults): Meta {
    var existing := Existing(records, key);
    Meta(key, TitleAfterAppend(existing, event, faults.summary),
         if existing.Some? then existing.value.createdAt else clock, clock)
  }

  function RecordsAfter(records: map<Key, Meta>, op: Op, reply: Reply, clock: int, faults: Faults): map<Key, Meta> {
    match op
    case Create(key, _, _) =>
      if reply.Session? then Put(records, Meta(key, "", clock, clock), faults.save) else records
    case Append(key, event, _) =>
      if reply.Refused? || event.partial || faults.list || key.app == "" || key.user == "" then records
      else Put(records, MetaAfterAppend(records, key, event, clock, faults), faults.save)
    case Delete(key) => if reply.Done? && !faults.delete && Complete(key) then records - {key} else records
    case Get(_, _, _) => records
  }

  function SyncStep(s: Store, op: Op, clock: int, faults: Faults): (Store, Reply) {
    var (disk, reply) := DiskStep(s.disk, op);
    (Store(disk, RecordsAfter(s.records, op, reply, clock, faults)), reply)
  }

  // ----- The index files -----

  function Entries(index: map<(string, string), seq<Meta>>, app: string, user: string): seq<Meta> {
    if (app, user) in index then index[(app, user)] else []
  }

  /** One index file per application and user. */
  class FileSessionMetadataStore {
    var index: map<(string, string), seq<Meta>>
    const sort: Sorter
    ghost var records: map<Key, Meta>

    ghost predicate Valid()
      reads this
    {
      forall app, user :: Holds(Entries(index, app, user), Sub(records, app, user))
    }

    constructor (sort: Sorter)
      ensures Valid() && records == map[] && this.sort == sort
    {
      index, records := map[], map[];
      this.sort := sort;
    }

    /** Within one index file session identifiers tell records apart. */
    method Save(meta: Meta) returns (ok: bool)
      requires Valid()
      modifies this
      ensures Valid() && ok == Complete(meta.key)
      ensures records == Put(old(records), meta, false)
    {
      hide Holds, Upsert;
      if !Complete(meta.key) { return false; }
      var app, user := meta.key.app, meta.key.user;
      assert Holds(Entries(index, app, user), Sub(records, app, user));
      UpsertIsUpdate(Entries(index, app, user), Sub(records, app, user), meta);
      var entries := Saved(Entries(index, app, user), meta);
      index := index[(app, user) := entries];
      records := records[meta.key := meta];
      forall a, u ensures Holds(Entries(index, a, u), Sub(records, a, u)) {
        if (a, u) == (app, user) {
          assert Sub(records, a, u) == Sub(old(records), a, u)[meta.key := meta];
        } else {
          assert Sub(records, a, u) == Sub(old(records), a, u);
          assert Holds(Entries(old(index), a, u), Sub(old(records), a, u));
        }
      }
      ok := true;
    }

    /** A page of the listing of the user's records, filtered once more after
        reading the file. */
    method List(app: string, user: string, limit: int, offset: int) returns (page: Option<Page>)
      requires Valid() && Sorts(sort)
      ensures page.Some? <==> app != "" && user != "" && 1 <= limit <= 100 && offset >= 0
      ensures var listing := sort(Matching(Entries(index, app, user), app, user));
              Lists(listing, Sub(records, app, user)) && (page.Some? ==> page.value == PageOf(listing, limit, offset))
    {
      hide Holds, Lists;
      var entries := Entries(index, app, user);
      assert Holds(entries, Sub(records, app, user));
      SortedLists(entries, Sub(records, app, user), sort, app, user);
      SubTwice(records, app, user);
      if !ListParamsOk(app, user, limit, offset) { return None; }
      var matched := Matched(entries, app, user);
      page := Some(PageOf(sort(matched), limit, offset));
    }

    /** A file is rewritten only when it loses a record. */
    method Delete(key: Key) returns (ok: bool)
      requires Valid()
      modifies this
      ensures Valid() && ok == Complete(key)
      ensures records == if ok then old(records) - {key} else old(records)
    {
      hide Holds, Without;
      if !Complete(key) { return false; }
      var app, user := key.app, key.user;
      var before := Entries(index, app, user);
      assert Holds(before, Sub(records, app, user));
      WithoutIsRemoval(before, Sub(records, app, user), key);
      var entries := Compacted(before, key);
      if |entries| != |before| { index := index[(app, user) := entries]; } else { WithoutSameLength(before, key); }
      records := records - {key};
      forall a, u ensures Holds(Entries(index, a, u), Sub(records, a, u)) {
        if (a, u) == (app, user) {
          assert Sub(records, a, u) == Sub(old(records), a, u) - {key};
        } else {
          assert Sub(records, a, u) == Sub(old(records), a, u);
          assert Holds(Entries(old(index), a, u), Sub(old(records), a, u));
        }
      }
      ok := true;
    }
  }

  lemma SubTwice(records: map<Key, Meta>, app: string, user: string)
    ensures Sub(Sub(records, app, user), app, user) == Sub(records, app, user)
  {
  }

  lemma {:induction false} WithoutSameLength(data: seq<Meta>, key: Key)
    ensures |Without(data, key)| <= |data|
    ensures |Without(data, key)| == |data| ==> Without(data, key) == data
    decreases |data|
  {
    if data != [] {
      WithoutSameLength(data[1..], key);
      assert data == [data[0]] + data[1..];
    }
  }

  // ----- The wrapper -----

  class MetadataSyncStorage {
    const files: FileSessionService
    const meta: FileSessionMetadataStore

    ghost predicate Valid()
      reads this, meta
    {
      meta.Valid() && Sorts(meta.sort)
    }

    ghost function View(): Store
      reads files, meta
    {
      Store(files.disk, meta.records)
    }

    constructor (files: FileSessionService, meta: FileSessionMetadataStore)
      requires meta.Valid() && Sorts(meta.sort)
      ensures Valid() && this.files == files && this.meta == meta
    {
      this.files, this.meta := files, meta;
    }

    method CreateSession(app: string, user: string, id: string, newId: string, state: State, now: int,
                         clock: int, faults: Faults) returns (reply: Reply)
      requires Valid()
      modifies files, meta
      ensures Valid()
      ensures var key := Key(app, user, if id == "" then newId else id);
              (View(), reply) == SyncStep(old(View()), Create(key, state, now), clock, faults)
    {
      hide DiskStep;
      var sess;
      sess, reply := files.CreateSession(app, user, id, newId, state, now);
      if sess.None? { return; }
      if !faults.save {
        var _ := meta.Save(Meta(sess.value.key, "", clock, clock));
      }
    }

    method DeleteSession(key: Key, clock: int, faults: Faults) returns (reply: Reply)
      requires Valid()
      modifies files, meta
      ensures Valid() && (View(), reply) == SyncStep(old(View()), Delete(key), clock, faults)
    {
      hide DiskStep;
      reply := files.DeleteSession(key);
      if reply.Done? && !faults.delete { var _ := meta.Delete(key); }
    }

    /** Finds the session's record by paging, then saves it again with the
        title and times it should have. */
    method AppendEvent(sess: FileSession, event: LogEvent, now: int, clock: int, faults: Faults) returns (reply: Reply)
      requires Valid()
      modifies files, meta, sess
      ensures Valid() && (View(), reply) == SyncStep(old(View()), Append(sess.key, event, now), clock, faults)
    {
      hide DiskStep, Holds;
      reply := files.AppendEvent(sess, event, now);
      if reply.Refused? || event.partial || faults.list { return; }
      var key := sess.key;
      var entries := Entries(meta.index, key.app, key.user);
      var ok, existing := FindSessionMetadata(entries, meta.sort, key);
      if !ok { return; }
      assert Holds(entries, Sub(meta.records, key.app, key.user));
      FoundIsLookup(entries, Sub(meta.records, key.app, key.user), key, existing);
      assert existing == Existing(meta.records, key);
      var createdAt := clock;
      if existing.Some? { createdAt := existing.value.createdAt; }
      var title := ChooseTitle(existing, event, faults.summary);
      if !faults.save {
        var _ := meta.Save(Meta(key, title, createdAt, clock));
      }
    }

    method ChooseTitle(existing: Option<Meta>, event: LogEvent, summary: Option<string>) returns (title: string)
      ensures title == TitleAfterAppend(existing, event, summary)
    {
      if existing.Some? && existing.value.title != "" { return existing.value.title; }
      var text := BuildUserMessageText(event);
      if text == "" || summary.None? { return ""; }
      title := summary.value;
    }
  }

  // ----- What the wrapper guarantees -----

  /** The index lists exactly the stored sessions. */
  ghost predicate InStep(s: Store) {
    forall key: Key :: key.app != USER_DIR ==> (SessionPath(key) in s.disk <==> key in s.records)
  }

  /** Not of application `_user`; a session created without an identifier has
      been given one. */
  ghost predicate Normal(op: Op) {
    op.key.app != USER_DIR && (op.Create? ==> op.key.id != "")
  }

  predicate Fine(f: Faults) {
    !f.list && !f.save && !f.delete
  }

  /** A call leaves the presence of every other session alone. */
  lemma DiskStepPresence(disk: Disk, op: Op, key: Key)
    requires op.key.app != USER_DIR && key.app != USER_DIR
    ensures var (disk', reply) := DiskStep(disk, op);
            SessionPath(key) in disk' <==>
              if key != op.key then SessionPath(key) in disk
              else (op.Create? && reply.Session?) || (SessionPath(key) in disk && !(op.Delete? && reply.Done?))
  {
    hide Layer, SessionLayer, Merged, WithoutTemp, AppPath, UserPath, SessionPath, Cut;
    R.PathsInjective(op.key, key);
    R.PathsInjective(key, op.key);
    R.SessionMeetsUserFileIff(key, op.key.app, op.key.user);
  }

  lemma AppendNeedsSession(disk: Disk, op: Op)
    requires op.Append? && !op.event.partial && DiskStep(disk, op).1.Done?
    ensures SessionPath(op.key) in disk
  {
  }

  /** With no failing metadata call the index stays in step with the sessions
      after every Create, AppendEvent and Delete. */
  lemma SyncKeepsInStep(s: Store, op: Op, clock: int, faults: Faults)
    requires InStep(s) && Normal(op) && Fine(faults)
    ensures InStep(SyncStep(s, op, clock, faults).0)
  {
    hide DiskStep, SessionPath, TitleAfterAppend;
    var s' := SyncStep(s, op, clock, faults).0;
    ReplyShape(s.disk, op);
    forall key: Key | key.app != USER_DIR
      ensures SessionPath(key) in s'.disk <==> key in s'.records
    {
      DiskStepPresence(s.disk, op, key);
      if op.Append? && !op.event.partial && DiskStep(s.disk, op).1.Done? { AppendNeedsSession(s.disk, op); }
    }
  }

  lemma ReplyShape(disk: Disk, op: Op)
    ensures op.Append? || op.Delete? ==> !DiskStep(disk, op).1.Session?
    ensures op.Create? ==> !DiskStep(disk, op).1.Done?
    ensures op.Create? && DiskStep(disk, op).1.Session? ==> op.key.app != "" && op.key.user != ""
    ensures op.Delete? && DiskStep(disk, op).1.Done? ==> Complete(op.key)
  {
  }

  /** Whatever metadata calls fail, an append to a session with a record
      never changes when it was created, nor a title it already has, and no
      append changes another session's record. */
  lemma AppendKeepsIdentity(s: Store, key: Key, event: LogEvent, now: int, clock: int, faults: Faults)
    requires key in s.records && s.records[key].key == key
    ensures var s' := SyncStep(s, Append(key, event, now), clock, faults).0;
            && key in s'.records
            && s'.records[key].createdAt == s.records[key].createdAt
            && (s.records[key].title != "" ==> s'.records[key].title == s.records[key].title)
            && (forall k :: k in s.records && k != key ==> k in s'.records && s'.records[k] == s.records[k])
  {
    hide DiskStep;
  }

  // ----- Whole runs -----

  datatype Call = Call(op: Op, clock: int, faults: Faults)

  function RunCalls(s: Store, calls: seq<Call>): Store
    decreases |calls|
  {
    if calls == [] then s
    else RunCalls(SyncStep(s, calls[0].op, calls[0].clock, calls[0].faults).0, calls[1..])
  }

  lemma {:induction false} IndexStaysInStep(s: Store, calls: seq<Call>)
    requires InStep(s)
    requires forall k :: 0 <= k < |calls| ==> Normal(calls[k].op) && Fine(calls[k].faults)
    ensures InStep(RunCalls(s, calls))
    decreases |calls|
  {
    hide SyncStep, InStep;
    if calls != [] {
      SyncKeepsInStep(s, calls[0].op, calls[0].clock, calls[0].faults);
      assert forall k :: 0 <= k < |calls[1..]| ==> calls[1..][k] == calls[k + 1];
      IndexStaysInStep(SyncStep(s, calls[0].op, calls[0].clock, calls[0].faults).0, calls[1..]);
    }
  }

  /** A run of calls ends with what its last call does. */
  lemma {:induction false} LastCallIsLast(s: Store, calls: seq<Call>, last: Call)
    ensures RunCalls(s, []) == s
    ensures RunCalls(s, calls + [last]) == SyncStep(RunCalls(s, calls), last.op, last.clock, last.faults).0
    decreases |calls|
  {
    hide SyncStep;
    if calls == [] {
      assert calls + [last] == [last] && [last][1..] == [];
    } else {
      assert (calls + [last])[1..] == calls[1..] + [last];
      LastCallIsLast(SyncStep(s, calls[0].op, calls[0].clock, calls[0].faults).0, calls[1..], last);
    }
  }

  ghost predicate KeysMatch(records: map<Key, Meta>) {
    forall key :: key in records ==> records[key].key == key
  }

  /** Until a session is created again or deleted, no run of calls, with any
      metadata failures, moves its creation time or replaces its title. */
  lemma {:induction false} IdentityOverRuns(s: Store, calls: seq<Call>, key: Key)
    requires key in s.records && KeysMatch(s.records)
    requires forall k :: 0 <= k < |calls| ==> calls[k].op.key == key ==> !calls[k].op.Create? && !calls[k].op.Delete?
    ensures var s' := RunCalls(s, calls);
            && key in s'.records
            && s'.records[key].createdAt == s.records[key].createdAt
            && (s.records[key].title != "" ==> s'.records[key].title == s.records[key].title)
    decreases |calls|
  {
    if calls != [] {
      StepKeepsIdentity(s, calls[0], key);
      assert forall k :: 0 <= k < |calls[1..]| ==> calls[1..][k] == calls[k + 1];
      IdentityOverRuns(SyncStep(s, calls[0].op, calls[0].clock, calls[0].faults).0, calls[1..], key);
    }
  }

  lemma StepKeepsIdentity(s: Store, call: Call, key: Key)
    requires key in s.records && KeysMatch(s.records)
    requires call.op.key == key ==> !call.op.Create? && !call.op.Delete?
    ensures var s' := SyncStep(s, call.op, call.clock, call.faults).0;
            && KeysMatch(s'.records) && key in s'.records
            && s'.records[key].createdAt == s.records[key].createdAt
            && (s.records[key].title != "" ==> s'.records[key].title == s.records[key].title)
  {
    hide DiskStep;
    if call.op.Append? && call.op.key in s.records {
      AppendKeepsIdentity(s, call.op.key, call.op.event, call.op.now, call.clock, call.faults);
    }
  }
}
