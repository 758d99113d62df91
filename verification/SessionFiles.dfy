/** File-backed session storage: one file per session, one per application and
    one per user, all rewritten whole under a lock
    (runtime/internal/sessions/file.go).

    A path is the list of its components, so names are single path components;
    a file is the JSON object both kinds of file share, a state file having no
    events.  The directories are those that files lie in: one left empty is
    removed. */
module SessionFiles {
  import opened Wrappers
  import opened SessionEvents
  import opened SessionState
  import opened RecentEvents

  type Path = seq<string>

  datatype File = File(state: State, updatedAt: int, events: seq<LogEvent>)

  type Disk = map<Path, File>

  datatype Key = Key(app: string, user: string, id: string)

  const JSON_EXT := ".json"
  const APP_DIR := "_app"
  const USER_DIR := "_user"

  function AppPath(app: string): Path { [APP_DIR, app + JSON_EXT] }

  function UserPath(app: string, user: string): Path { [USER_DIR, app, user + JSON_EXT] }

  function SessionPath(key: Key): Path { [key.app, key.user, key.id + JSON_EXT] }

  predicate IsDirectory(disk: Disk, path: Path) {
    exists q :: q in disk && path < q
  }

  /** The way to the path leads through a file. */
  predicate IsCutOff(disk: Disk, path: Path) {
    exists q :: q in disk && q < path
  }

  predicate CanWrite(disk: Disk, path: Path) {
    !IsDirectory(disk, path) && !IsCutOff(disk, path)
  }

  /** A missing state file reads as the empty state. */
  function ReadState(disk: Disk, path: Path): State {
    if path in disk then disk[path].state else map[]
  }

  function AddToState(disk: Disk, path: Path, delta: State, now: int): Disk {
    if delta == map[] then disk else disk[path := File(ReadState(disk, path) + delta, now, [])]
  }

  predicate CanAdd(disk: Disk, path: Path, delta: State) {
    delta == map[] || CanWrite(disk, path)
  }

  function AddToApp(disk: Disk, app: string, delta: State, now: int): Disk {
    AddToState(disk, AppPath(app), Layer(delta, APP_PREFIX), now)
  }

  function AddToLayers(disk: Disk, app: string, user: string, delta: State, now: int): Disk {
    AddToState(AddToApp(disk, app, delta, now), UserPath(app, user), Layer(delta, USER_PREFIX), now)
  }

  predicate CanAddToApp(disk: Disk, app: string, delta: State) {
    CanAdd(disk, AppPath(app), Layer(delta, APP_PREFIX))
  }

  predicate CanAddToUser(disk: Disk, app: string, user: string, delta: State, now: int) {
    CanAdd(AddToApp(disk, app, delta, now), UserPath(app, user), Layer(delta, USER_PREFIX))
  }

  predicate CanAddToLayers(disk: Disk, app: string, user: string, delta: State, now: int) {
    CanAddToApp(disk, app, delta) && CanAddToUser(disk, app, user, delta, now)
  }

  /** What is written when one of the two layers cannot be. */
  function AddedBeforeFailure(disk: Disk, app: string, delta: State, now: int): Disk {
    if CanAddToApp(disk, app, delta) then AddToApp(disk, app, delta, now) else disk
  }

  /** The stored form of an event: without its temporary state. */
  function Trim(event: LogEvent): LogEvent {
    event.(stateDelta := WithoutTemp(event.stateDelta))
  }

  // ----- The operations on the disk -----

  datatype Op =
    | Create(key: Key, state: State, now: int)
    | Get(key: Key, n: int, after: Option<int>)
    | Append(key: Key, event: LogEvent, now: int)
    | Delete(key: Key)

  datatype Reason = NameMissing | AlreadyExists | NotFound | IoFailed

  datatype Reply =
    | Session(state: State, events: seq<LogEvent>, updatedAt: int)
    | Done
    | Refused(reason: Reason)

  /** Why a file that is not there cannot be read or removed. */
  function Missing(disk: Disk, path: Path): Reason {
    if CanWrite(disk, path) then NotFound else IoFailed
  }

  function DiskStep(disk: Disk, op: Op): (Disk, Reply) {
    match op
    case Create(key, state, now) => DiskCreate(disk, key, state, now)
    case Get(key, n, after) => (disk, DiskGet(disk, key, n, after))
    case Append(key, event, now) => DiskAppend(disk, key, event, now)
    case Delete(key) =>
      if key.app == "" || key.user == "" || key.id == "" then (disk, Refused(NameMissing))
      else if SessionPath(key) !in disk then (disk, Refused(Missing(disk, SessionPath(key))))
      else (disk - {SessionPath(key)}, Done)
  }

  /** A session file freezes a copy of all three layers. */
  function DiskCreate(disk: Disk, key: Key, state: State, now: int): (Disk, Reply) {
    if key.app == "" || key.user == "" then (disk, Refused(NameMissing))
    else if SessionPath(key) in disk then (disk, Refused(AlreadyExists))
    else if !CanAddToLayers(disk, key.app, key.user, state, now) then
      (AddedBeforeFailure(disk, key.app, state, now), Refused(IoFailed))
    else if !CanWrite(AddToLayers(disk, key.app, key.user, state, now), SessionPath(key)) then
      (AddToLayers(disk, key.app, key.user, state, now), Refused(IoFailed))
    else
      var layered := AddToLayers(disk, key.app, key.user, state, now);
      var merged := Merged(ReadState(layered, AppPath(key.app)), ReadState(layered, UserPath(key.app, key.user)),
                           SessionLayer(state));
      (layered[SessionPath(key) := File(merged, now, [])], Session(merged, [], now))
  }

  function DiskGet(disk: Disk, key: Key, n: int, after: Option<int>): Reply {
    if key.app == "" || key.user == "" || key.id == "" then Refused(NameMissing)
    else if SessionPath(key) !in disk then Refused(Missing(disk, SessionPath(key)))
    else
      var file := disk[SessionPath(key)];
      Session(Merged(ReadState(disk, AppPath(key.app)), ReadState(disk, UserPath(key.app, key.user)),
                     SessionLayer(file.state)),
              Cut(file.events, n, after), file.updatedAt)
  }

  function DiskAppend(disk: Disk, key: Key, event: LogEvent, now: int): (Disk, Reply) {
    if event.partial then (disk, Done)
    else if SessionPath(key) !in disk then (disk, Refused(Missing(disk, SessionPath(key))))
    else if !CanAddToLayers(disk, key.app, key.user, Trim(event).stateDelta, now) then
      (AddedBeforeFailure(disk, key.app, Trim(event).stateDelta, now), Refused(IoFailed))
    else
      var stored := disk[SessionPath(key)];
      var trimmed := Trim(event);
      var layered := AddToLayers(disk, key.app, key.user, trimmed.stateDelta, now);
      (layered[SessionPath(key) := File(stored.state + SessionLayer(trimmed.stateDelta), event.timestamp,
                                        stored.events + [trimmed])], Done)
  }

  // ----- The service object -----

  /** A session handle: what Create and Get return and AppendEvent updates. */
  class FileSession {
    const key: Key
    var state: State
    var events: seq<LogEvent>
    var updatedAt: int

    constructor (key: Key, state: State, events: seq<LogEvent>, updatedAt: int)
      ensures this.key == key && this.state == state && this.events == events && this.updatedAt == updatedAt
    {
      this.key, this.state, this.events, this.updatedAt := key, state, events, updatedAt;
    }

    function Snapshot(): Reply
      reads this
    {
      Session(state, events, updatedAt)
    }
  }

  class FileSessionService {
    var disk: Disk

    constructor ()
      ensures disk == map[]
    {
      disk := map[];
    }

    /** Adds to a state file; an empty delta writes nothing. */
    method UpdateStateFile(path: Path, delta: State, now: int) returns (ok: bool)
      modifies this
      ensures ok == CanAdd(old(disk), path, delta)
      ensures disk == if ok then AddToState(old(disk), path, delta, now) else old(disk)
    {
      ok := true;
      if |delta| > 0 {
        if !CanWrite(disk, path) { return false; }
        var state := if path in disk then disk[path].state else map[];
        state := state + delta;
        disk := disk[path := File(state, now, [])];
      }
    }

    /** Splits a delta and writes its app and user layers, stopping at the first
        that cannot be written. */
    method UpdateLayers(app: string, user: string, delta: State, now: int) returns (ok: bool, own: State)
      modifies this
      ensures ok == CanAddToLayers(old(disk), app, user, delta, now)
      ensures disk == if ok then AddToLayers(old(disk), app, user, delta, now)
                      else AddedBeforeFailure(old(disk), app, delta, now)
      ensures own == SessionLayer(delta)
    {
      hide Layer, SessionLayer, CanWrite, AppPath, UserPath;
      var appDelta, userDelta, sessionDelta := ExtractStateDeltas(delta);
      own := sessionDelta;
      ok := UpdateStateFile(AppPath(app), appDelta, now);
      if ok { ok := UpdateStateFile(UserPath(app, user), userDelta, now); }
    }

    /** `newId` is the identifier generated for a request without one. */
    method CreateSession(app: string, user: string, id: string, newId: string, state: State, now: int)
      returns (sess: Option<FileSession>, reply: Reply)
      modifies this
      ensures var key := Key(app, user, if id == "" then newId else id);
              && (disk, reply) == DiskStep(old(disk), Create(key, state, now))
              && (sess.Some? <==> reply.Session?)
              && (sess.Some? ==> fresh(sess.value) && sess.value.key == key && sess.value.Snapshot() == reply)
    {
      if app == "" || user == "" { return None, Refused(NameMissing); }
      var key := Key(app, user, if id == "" then newId else id);
      if SessionPath(key) in disk { return None, Refused(AlreadyExists); }
      hide SessionLayer, Merged, CanWrite, CanAddToLayers, AddToLayers, AddedBeforeFailure, SessionPath;
      var ok, sessionDelta := UpdateLayers(app, user, state, now);
      if !ok { return None, Refused(IoFailed); }
      var merged := MergeStates(ReadState(disk, AppPath(app)), ReadState(disk, UserPath(app, user)), sessionDelta);
      if !CanWrite(disk, SessionPath(key)) { return None, Refused(IoFailed); }
      disk := disk[SessionPath(key) := File(merged, now, [])];
      var s := new FileSession(key, merged, [], now);
      sess, reply := Some(s), Session(merged, [], now);
    }

    method GetSession(key: Key, n: int, after: Option<int>) returns (sess: Option<FileSession>, reply: Reply)
      ensures (disk, reply) == DiskStep(disk, Get(key, n, after))
      ensures sess.Some? <==> reply.Session?
      ensures sess.Some? ==> fresh(sess.value) && sess.value.key == key && sess.value.Snapshot() == reply
    {
      if key.app == "" || key.user == "" || key.id == "" { return None, Refused(NameMissing); }
      if SessionPath(key) !in disk { return None, Refused(Missing(disk, SessionPath(key))); }
      hide Layer, SessionLayer, Merged, Cut;
      var stored := disk[SessionPath(key)];
      var _, _, sessionState := ExtractStateDeltas(stored.state);
      var merged := MergeStates(ReadState(disk, AppPath(key.app)), ReadState(disk, UserPath(key.app, key.user)),
                                sessionState);
      var events := FilterEvents(stored.events, n, after);
      var s := new FileSession(key, merged, events, stored.updatedAt);
      sess, reply := Some(s), s.Snapshot();
    }

    /** Appends through any handle: the stored session is read again, so what
        the handle remembers never reaches the disk. */
    method AppendEvent(sess: FileSession, event: LogEvent, now: int) returns (reply: Reply)
      modifies this, sess
      ensures (disk, reply) == DiskStep(old(disk), Append(sess.key, event, now))
      ensures sess.Snapshot() ==
                if event.partial || reply.Refused? then old(sess.Snapshot())
                else Session(old(sess.state) + SessionLayer(Trim(event).stateDelta),
                             old(sess.events) + [Trim(event)], event.timestamp)
    {
      hide SessionLayer, WithoutTemp, CanWrite, CanAddToLayers, AddToLayers, AddedBeforeFailure, SessionPath, Missing;
      if event.partial { return Done; }
      if SessionPath(sess.key) !in disk { return Refused(Missing(disk, SessionPath(sess.key))); }
      var stored := disk[SessionPath(sess.key)];
      var trimmed := Trim(event);
      var ok, sessionDelta := UpdateLayers(sess.key.app, sess.key.user, trimmed.stateDelta, now);
      if !ok { return Refused(IoFailed); }
      sess.events := sess.events + [trimmed];
      sess.updatedAt := trimmed.timestamp;
      sess.state := sess.state + sessionDelta;
      disk := disk[SessionPath(sess.key) := File(stored.state + sessionDelta, trimmed.timestamp,
                                                 stored.events + [trimmed])];
      reply := Done;
    }

    method DeleteSession(key: Key) returns (reply: Reply)
      modifies this
      ensures (disk, reply) == DiskStep(old(disk), Delete(key))
    {
      if key.app == "" || key.user == "" || key.id == "" { return Refused(NameMissing); }
      if SessionPath(key) !in disk { return Refused(Missing(disk, SessionPath(key))); }
      disk := disk - {SessionPath(key)};
      reply := Done;
    }
  }
}
