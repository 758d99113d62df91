/** File-backed storage behaves as three live layers and one log per session:
    what callers observe never depends on the copies of the layers that
    session files keep. */
module SessionRefinement {
  import opened Wrappers
  import opened SessionEvents
  import opened SessionState
  import opened RecentEvents
  import opened SessionFiles

  // ----- The simple model -----

  datatype Record = Record(state: State, log: seq<LogEvent>, updatedAt: int)

  datatype Model = Model(
    app: map<string, State>,
    user: map<(string, string), State>,
    sessions: map<Key, Record>)

  const EMPTY_MODEL := Model(map[], map[], map[])

  function AppState(m: Model, app: string): State {
    if app in m.app then m.app[app] else map[]
  }

  function UserState(m: Model, app: string, user: string): State {
    if (app, user) in m.user then m.user[(app, user)] else map[]
  }

  function AddApp(m: Model, app: string, layer: State): Model {
    m.(app := m.app[app := AppState(m, app) + layer])
  }

  function AddUser(m: Model, app: string, user: string, layer: State): Model {
    m.(user := m.user[(app, user) := UserState(m, app, user) + layer])
  }

  function ApplyDelta(m: Model, key: Key, delta: State): Model {
    AddUser(AddApp(m, key.app, Layer(delta, APP_PREFIX)), key.app, key.user, Layer(delta, USER_PREFIX))
  }

  /** What a caller sees of a session: the layers as they are now. */
  function LiveState(m: Model, key: Key, own: State): State {
    Merged(AppState(m, key.app), UserState(m, key.app, key.user), own)
  }

  function ModelStep(m: Model, op: Op): (Model, Reply) {
    match op
    case Create(key, state, now) =>
      if key.app == "" || key.user == "" then (m, Refused(NameMissing))
      else if key in m.sessions then (m, Refused(AlreadyExists))
      else
        var m' := ApplyDelta(m, key, state);
        (m'.(sessions := m'.sessions[key := Record(SessionLayer(state), [], now)]),
         Session(LiveState(m', key, SessionLayer(state)), [], now))
    case Get(key, n, after) =>
      if key.app == "" || key.user == "" || key.id == "" then (m, Refused(NameMissing))
      else if key !in m.sessions then (m, Refused(NotFound))
      else
        var r := m.sessions[key];
        (m, Session(LiveState(m, key, r.state), Cut(r.log, n, after), r.updatedAt))
    case Append(key, event, _) =>
      if event.partial then (m, Done)
      else if key !in m.sessions then (m, Refused(NotFound))
      else
        var r := m.sessions[key];
        var delta := Trim(event).stateDelta;
        var m' := ApplyDelta(m, key, delta);
        (m'.(sessions := m'.sessions[key :=
           Record(r.state + SessionLayer(delta), r.log + [Trim(event)], event.timestamp)]), Done)
    case Delete(key) =>
      if key.app == "" || key.user == "" || key.id == "" then (m, Refused(NameMissing))
      else if key !in m.sessions then (m, Refused(NotFound))
      else (m.(sessions := m.sessions - {key}), Done)
  }

  // ----- Paths -----

  lemma ExtInjective(a: string, b: string)
    ensures a + JSON_EXT == b + JSON_EXT <==> a == b
  {
    if a + JSON_EXT == b + JSON_EXT {
      assert (a + JSON_EXT)[..|a|] == a && (b + JSON_EXT)[..|b|] == b;
    }
  }

  lemma PathsInjective(k1: Key, k2: Key)
    ensures SessionPath(k1) == SessionPath(k2) <==> k1 == k2
    ensures AppPath(k1.app) == AppPath(k2.app) <==> k1.app == k2.app
    ensures UserPath(k1.app, k1.user) == UserPath(k2.app, k2.user) <==> k1.app == k2.app && k1.user == k2.user
    ensures AppPath(k1.app) != SessionPath(k2) && AppPath(k1.app) != UserPath(k2.app, k2.user)
  {
    ExtInjective(k1.app, k2.app);
    ExtInjective(k1.user, k2.user);
    ExtInjective(k1.id, k2.id);
    assert SessionPath(k1)[2] == k1.id + JSON_EXT && SessionPath(k2)[2] == k2.id + JSON_EXT;
    assert UserPath(k1.app, k1.user)[2] == k1.user + JSON_EXT && UserPath(k2.app, k2.user)[2] == k2.user + JSON_EXT;
    assert AppPath(k1.app)[1] == k1.app + JSON_EXT && AppPath(k2.app)[1] == k2.app + JSON_EXT;
    assert |AppPath(k1.app)| == 2;
  }

  /** A session file and a user state file share a path exactly when the
      application is called like the directory of user state. */
  lemma SessionMeetsUserFileIff(key: Key, app: string, user: string)
    ensures SessionPath(key) == UserPath(app, user) <==> key == Key(USER_DIR, app, user)
  {
    ExtInjective(key.id, user);
    assert SessionPath(key)[0] == key.app && SessionPath(key)[1] == key.user
        && SessionPath(key)[2] == key.id + JSON_EXT;
    assert UserPath(app, user)[0] == USER_DIR && UserPath(app, user)[1] == app
        && UserPath(app, user)[2] == user + JSON_EXT;
  }

  /** The name of a state file. */
  predicate IsJsonName(name: string) {
    |name| >= |JSON_EXT| && name[|name| - |JSON_EXT|..] == JSON_EXT
  }

  lemma ExtIsJsonName(name: string)
    ensures IsJsonName(name + JSON_EXT)
  {
  }

  /** A session lies below an application's state file exactly when its
      application is called like the directory of application state and its
      user like the file. */
  lemma SessionBelowAppFileIff(key: Key, app: string)
    ensures AppPath(app) < SessionPath(key) <==> key.app == APP_DIR && key.user == app + JSON_EXT
  {
    assert SessionPath(key)[..2] == [key.app, key.user];
    assert AppPath(app)[0] == APP_DIR && AppPath(app)[1] == app + JSON_EXT;
  }

  /** Sessions whose files meet no state file. */
  predicate Clear(key: Key) {
    key.app != USER_DIR && !(key.app == APP_DIR && IsJsonName(key.user))
  }

  ghost predicate TidyPath(path: Path) {
    || (|path| == 2 && path[0] == APP_DIR && IsJsonName(path[1]))
    || (|path| == 3 && !(path[0] == APP_DIR && IsJsonName(path[1])))
  }

  /** No file lies where another file needs a directory. */
  ghost predicate Tidy(disk: Disk) {
    forall path :: path in disk ==> TidyPath(path)
  }

  lemma OwnPathsAreTidy(key: Key)
    requires Clear(key)
    ensures TidyPath(AppPath(key.app)) && TidyPath(UserPath(key.app, key.user)) && TidyPath(SessionPath(key))
  {
    ExtIsJsonName(key.app);
  }

  lemma TidyCanWrite(disk: Disk, path: Path)
    requires Tidy(disk) && TidyPath(path)
    ensures CanWrite(disk, path)
  {
    forall q | q in disk ensures !(path < q) && !(q < path) {
      assert TidyPath(q);
    }
  }

  /** On a tidy disk no write of a clear session is refused. */
  lemma NothingInTheWay(disk: Disk, key: Key, delta: State, now: int)
    requires Tidy(disk) && Clear(key)
    ensures CanAddToLayers(disk, key.app, key.user, delta, now)
    ensures Tidy(AddToLayers(disk, key.app, key.user, delta, now))
    ensures CanWrite(disk, SessionPath(key))
    ensures CanWrite(AddToLayers(disk, key.app, key.user, delta, now), SessionPath(key))
    ensures TidyPath(SessionPath(key))
  {
    hide CanWrite, TidyPath, AppPath, UserPath, SessionPath, Layer;
    OwnPathsAreTidy(key);
    var disk1, disk2 := AddToApp(disk, key.app, delta, now), AddToLayers(disk, key.app, key.user, delta, now);
    TidyCanWrite(disk, AppPath(key.app));
    TidyCanWrite(disk, SessionPath(key));
    TidyCanWrite(disk1, UserPath(key.app, key.user));
    TidyCanWrite(disk2, SessionPath(key));
  }

  lemma StepKeepsTidy(disk: Disk, op: Op)
    requires Tidy(disk) && Clear(op.key)
    ensures Tidy(DiskStep(disk, op).0)
  {
    hide CanWrite, TidyPath, AppPath, UserPath, SessionPath, Layer, SessionLayer, Merged, AddToLayers, CanAddToLayers;
    match op
    case Create(key, state, now) => NothingInTheWay(disk, key, state, now);
    case Append(key, event, now) => NothingInTheWay(disk, key, Trim(event).stateDelta, now);
    case _ =>
  }

  // ----- The refinement relation -----

  ghost predicate AppOk(disk: Disk, m: Model, app: string) {
    ReadState(disk, AppPath(app)) == AppState(m, app)
  }

  ghost predicate UserOk(disk: Disk, m: Model, app: string, user: string) {
    ReadState(disk, UserPath(app, user)) == UserState(m, app, user)
  }

  /** The model knows the session's own layer; the file also holds whatever
      app and user keys were current when it was created. */
  ghost predicate SessionOk(disk: Disk, m: Model, key: Key) {
    && (SessionPath(key) in disk <==> key in m.sessions)
    && (key in m.sessions ==>
          m.sessions[key] == Record(SessionLayer(disk[SessionPath(key)].state), disk[SessionPath(key)].events,
                                    disk[SessionPath(key)].updatedAt))
  }

  ghost predicate Refines(disk: Disk, m: Model) {
    && (forall app :: AppOk(disk, m, app))
    && (forall app, user :: UserOk(disk, m, app, user))
    && (forall key: Key :: key.app != USER_DIR ==> SessionOk(disk, m, key))
  }

  lemma AppFileKeepsRefinement(disk: Disk, m: Model, app: string, layer: State, now: int)
    requires Refines(disk, m)
    ensures Refines(AddToState(disk, AppPath(app), layer, now), AddApp(m, app, layer))
  {
    hide AppPath, UserPath, SessionPath, SessionLayer;
    var disk', m' := AddToState(disk, AppPath(app), layer, now), AddApp(m, app, layer);
    assert AppOk(disk, m, app);
    forall k: Key | k.app != USER_DIR ensures SessionOk(disk', m', k) {
      assert SessionOk(disk, m, k);
      PathsInjective(Key(app, "", ""), k);
    }
    forall a ensures AppOk(disk', m', a) {
      assert AppOk(disk, m, a);
      PathsInjective(Key(app, "", ""), Key(a, "", ""));
    }
    forall a, u ensures UserOk(disk', m', a, u) {
      assert UserOk(disk, m, a, u);
      PathsInjective(Key(app, "", ""), Key(a, u, ""));
    }
  }

  lemma UserFileKeepsRefinement(disk: Disk, m: Model, app: string, user: string, layer: State, now: int)
    requires Refines(disk, m)
    ensures Refines(AddToState(disk, UserPath(app, user), layer, now), AddUser(m, app, user, layer))
  {
    hide AppPath, UserPath, SessionPath, SessionLayer;
    var disk', m' := AddToState(disk, UserPath(app, user), layer, now), AddUser(m, app, user, layer);
    assert UserOk(disk, m, app, user);
    forall k: Key | k.app != USER_DIR ensures SessionOk(disk', m', k) {
      assert SessionOk(disk, m, k);
      SessionMeetsUserFileIff(k, app, user);
    }
    forall a ensures AppOk(disk', m', a) {
      assert AppOk(disk, m, a);
      PathsInjective(Key(a, "", ""), Key(app, user, ""));
    }
    forall a, u ensures UserOk(disk', m', a, u) {
      assert UserOk(disk, m, a, u);
      PathsInjective(Key(app, user, ""), Key(a, u, ""));
    }
  }

  lemma LayersKeepRefinement(disk: Disk, m: Model, key: Key, delta: State, now: int)
    requires Refines(disk, m)
    ensures Refines(AddToLayers(disk, key.app, key.user, delta, now), ApplyDelta(m, key, delta))
  {
    hide Layer, AppPath, UserPath, SessionPath, AddToState, AddApp, AddUser, Refines;
    AppFileKeepsRefinement(disk, m, key.app, Layer(delta, APP_PREFIX), now);
    UserFileKeepsRefinement(AddToState(disk, AppPath(key.app), Layer(delta, APP_PREFIX), now),
      AddApp(m, key.app, Layer(delta, APP_PREFIX)), key.app, key.user, Layer(delta, USER_PREFIX), now);
  }

  /** Rewriting or removing one session's file. */
  lemma SessionFileKeepsRefinement(disk: Disk, m: Model, key: Key, file: File)
    requires Refines(disk, m) && key.app != USER_DIR
    ensures Refines(disk[SessionPath(key) := file],
                    m.(sessions := m.sessions[key := Record(SessionLayer(file.state), file.events, file.updatedAt)]))
    ensures Refines(disk - {SessionPath(key)}, m.(sessions := m.sessions - {key}))
  {
    hide SessionLayer, AppPath, UserPath, SessionPath;
    var record := Record(SessionLayer(file.state), file.events, file.updatedAt);
    var put, put' := disk[SessionPath(key) := file], m.(sessions := m.sessions[key := record]);
    var cut, cut' := disk - {SessionPath(key)}, m.(sessions := m.sessions - {key});
    forall k: Key | k.app != USER_DIR ensures SessionOk(put, put', k) && SessionOk(cut, cut', k) {
      assert SessionOk(disk, m, k);
      PathsInjective(key, k);
    }
    forall app ensures AppOk(put, put', app) && AppOk(cut, cut', app) {
      assert AppOk(disk, m, app);
      PathsInjective(Key(app, "", ""), key);
    }
    forall app, user ensures UserOk(put, put', app, user) && UserOk(cut, cut', app, user) {
      assert UserOk(disk, m, app, user);
      SessionMeetsUserFileIff(key, app, user);
    }
  }

  /** Splitting the frozen copy again yields the session's own layer. */
  lemma FrozenCopyIsIgnored(app: State, user: State, own: State)
    requires Plain(own)
    ensures SessionLayer(Merged(app, user, own)) == own
  {
    SplitOfMergeIffPlain(app, user, own);
  }

  lemma OwnLayerGrows(state: State, delta: State)
    ensures SessionLayer(state + SessionLayer(delta)) == SessionLayer(state) + SessionLayer(delta)
  {
    SessionLayerIsPlain(delta);
  }

  lemma CreateRefines(disk: Disk, m: Model, key: Key, state: State, now: int)
    requires Refines(disk, m) && Tidy(disk) && Clear(key)
    ensures DiskCreate(disk, key, state, now).1 == ModelStep(m, Create(key, state, now)).1
    ensures Refines(DiskCreate(disk, key, state, now).0, ModelStep(m, Create(key, state, now)).0)
  {
    hide Layer, SessionLayer, Merged, AppPath, UserPath, SessionPath, CanWrite, CanAddToLayers, AddToLayers;
    assert SessionOk(disk, m, key);
    NothingInTheWay(disk, key, state, now);
    if key.app != "" && key.user != "" && SessionPath(key) !in disk {
      var disk1, m1 := AddToLayers(disk, key.app, key.user, state, now), ApplyDelta(m, key, state);
      LayersKeepRefinement(disk, m, key, state, now);
      assert AppOk(disk1, m1, key.app) && UserOk(disk1, m1, key.app, key.user);
      SessionLayerIsPlain(state);
      var merged := LiveState(m1, key, SessionLayer(state));
      FrozenCopyIsIgnored(AppState(m1, key.app), UserState(m1, key.app, key.user), SessionLayer(state));
      SessionFileKeepsRefinement(disk1, m1, key, File(merged, now, []));
    }
  }

  lemma GetRefines(disk: Disk, m: Model, key: Key, n: int, after: Option<int>)
    requires Refines(disk, m) && Tidy(disk) && Clear(key)
    ensures DiskGet(disk, key, n, after) == ModelStep(m, Get(key, n, after)).1
  {
    hide Layer, SessionLayer, Merged, AppPath, UserPath, SessionPath, Cut, CanWrite;
    NothingInTheWay(disk, key, map[], 0);
    assert SessionOk(disk, m, key) && AppOk(disk, m, key.app) && UserOk(disk, m, key.app, key.user);
  }

  lemma AppendRefines(disk: Disk, m: Model, key: Key, event: LogEvent, now: int)
    requires Refines(disk, m) && Tidy(disk) && Clear(key)
    ensures DiskAppend(disk, key, event, now).1 == ModelStep(m, Append(key, event, now)).1
    ensures Refines(DiskAppend(disk, key, event, now).0, ModelStep(m, Append(key, event, now)).0)
  {
    hide Layer, SessionLayer, WithoutTemp, AppPath, UserPath, SessionPath, CanWrite, CanAddToLayers, AddToLayers;
    assert SessionOk(disk, m, key);
    NothingInTheWay(disk, key, Trim(event).stateDelta, now);
    if !event.partial && SessionPath(key) in disk {
      var delta := Trim(event).stateDelta;
      var stored := disk[SessionPath(key)];
      LayersKeepRefinement(disk, m, key, delta, now);
      OwnLayerGrows(stored.state, delta);
      SessionFileKeepsRefinement(AddToLayers(disk, key.app, key.user, delta, now), ApplyDelta(m, key, delta), key,
        File(stored.state + SessionLayer(delta), event.timestamp, stored.events + [Trim(event)]));
    }
  }

  lemma StepRefines(disk: Disk, m: Model, op: Op)
    requires Refines(disk, m) && Tidy(disk) && Clear(op.key)
    ensures DiskStep(disk, op).1 == ModelStep(m, op).1
    ensures Refines(DiskStep(disk, op).0, ModelStep(m, op).0)
  {
    match op
    case Create(key, state, now) => CreateRefines(disk, m, key, state, now);
    case Get(key, n, after) => GetRefines(disk, m, key, n, after);
    case Append(key, event, now) => AppendRefines(disk, m, key, event, now);
    case Delete(key) =>
      assert SessionOk(disk, m, key);
      NothingInTheWay(disk, key, map[], 0);
      SessionFileKeepsRefinement(disk, m, key, File(map[], 0, []));
  }

  // ----- Whole runs -----

  function DiskReplies(disk: Disk, ops: seq<Op>): seq<Reply>
    decreases |ops|
  {
    if ops == [] then [] else [DiskStep(disk, ops[0]).1] + DiskReplies(DiskStep(disk, ops[0]).0, ops[1..])
  }

  function ModelReplies(m: Model, ops: seq<Op>): seq<Reply>
    decreases |ops|
  {
    hide ModelStep;
    if ops == [] then [] else [ModelStep(m, ops[0]).1] + ModelReplies(ModelStep(m, ops[0]).0, ops[1..])
  }

  ghost predicate AllClear(ops: seq<Op>) {
    forall k :: 0 <= k < |ops| ==> Clear(ops[k].key)
  }

  /** Any calls, through any handles, are answered as the model answers them:
      with the live layers merged, and with the log of every non-partial
      append in lock order. */
  lemma StorageIsTheModel(ops: seq<Op>)
    requires AllClear(ops)
    ensures DiskReplies(map[], ops) == ModelReplies(EMPTY_MODEL, ops)
  {
    RunRefines(map[], EMPTY_MODEL, ops);
  }

  lemma {:induction false} RunRefines(disk: Disk, m: Model, ops: seq<Op>)
    requires Refines(disk, m) && Tidy(disk) && AllClear(ops)
    ensures DiskReplies(disk, ops) == ModelReplies(m, ops)
    decreases |ops|
  {
    hide DiskStep, ModelStep, Refines, Tidy, Clear;
    if ops != [] {
      StepRefines(disk, m, ops[0]);
      StepKeepsTidy(disk, ops[0]);
      assert forall k :: 0 <= k < |ops[1..]| ==> ops[1..][k] == ops[k + 1];
      RunRefines(DiskStep(disk, ops[0]).0, ModelStep(m, ops[0]).0, ops[1..]);
    }
  }

  /** An application name under which storage answers as the model does,
      whatever else is stored. */
  ghost predicate SafeAppName(app: string) {
    forall ops: seq<Op> ::
      (forall k :: 0 <= k < |ops| ==> ops[k].key.app == app || Clear(ops[k].key)) ==>
        DiskReplies(map[], ops) == ModelReplies(EMPTY_MODEL, ops)
  }

  /** Every application name is safe but the two that state directories have:
      sessions of `_user` are looked for among the user state files, and
      those of `_app` may need a directory where there is a state file. */
  lemma AppNameIsSafeIff(app: string)
    ensures SafeAppName(app) <==> app != USER_DIR && app != APP_DIR
  {
    if app != USER_DIR && app != APP_DIR {
      forall ops: seq<Op> | forall k :: 0 <= k < |ops| ==> ops[k].key.app == app || Clear(ops[k].key)
        ensures DiskReplies(map[], ops) == ModelReplies(EMPTY_MODEL, ops)
      {
        StorageIsTheModel(ops);
      }
    } else if app == USER_DIR {
      UserStateReadsAsSession();
    } else {
      AppStateStandsInTheWay();
    }
  }

  /** Two calls whose second fails: a session with app state is created, then
      one of application `_app` whose user is called like the state file. */
  function Colliding(): seq<Op> {
    [Create(Key("a", "u", "s"), map["app:x" := JNull], 0), Create(Key(APP_DIR, "a" + JSON_EXT, "s"), map[], 0)]
  }

  lemma AppStateStandsInTheWay()
    ensures Clear(Colliding()[0].key) && Colliding()[1].key.app == APP_DIR
    ensures DiskReplies(map[], Colliding()) != ModelReplies(EMPTY_MODEL, Colliding())
  {
    hide Layer, SessionLayer, Merged, CanWrite, AddToState, DiskCreate;
    var op1, op2 := Colliding()[0], Colliding()[1];
    var (disk1, _) := DiskStep(map[], op1);
    assert APP_PREFIX + "x" == "app:x";
    HasLayer(op1.state, APP_PREFIX, "x");
    AppStateIsStored(op1.key, op1.state);
    CutOffByAppFile(disk1, "a", op2.key);
    assert SessionPath(op2.key) !in disk1 by { NotStoredBefore(op1.key, op1.state, op2.key); }
    CreateCutOff(disk1, op2.key);
    assert Colliding()[1..] == [op2];
    var (m1, _) := ModelStep(EMPTY_MODEL, op1);
    assert op2.key !in m1.sessions;
    assert DiskReplies(disk1, [op2])[0] == DiskCreate(disk1, op2.key, map[], 0).1 == Refused(IoFailed);
    assert ModelReplies(m1, [op2])[0].Session?;
    assert DiskReplies(map[], Colliding())[1] == DiskReplies(disk1, [op2])[0];
    assert ModelReplies(EMPTY_MODEL, Colliding())[1] == ModelReplies(m1, [op2])[0];
  }

  /** The first session stored keeps the state files written with it. */
  lemma FirstCreateStores(key: Key, state: State)
    requires Clear(key) && key.app != "" && key.user != ""
    ensures AddToLayers(map[], key.app, key.user, state, 0).Keys <= DiskCreate(map[], key, state, 0).0.Keys
  {
    hide Merged, SessionLayer, AddToLayers, CanAddToLayers, CanWrite;
    NothingInTheWay(map[], key, state, 0);
  }

  lemma AppStateIsStored(key: Key, state: State)
    requires Clear(key) && key.app != "" && key.user != "" && Layer(state, APP_PREFIX) != map[]
    ensures AppPath(key.app) in DiskCreate(map[], key, state, 0).0
  {
    hide Layer, DiskCreate;
    FirstCreateStores(key, state);
    assert AppPath(key.app) in AddToLayers(map[], key.app, key.user, state, 0);
  }

  lemma UserStateIsStored(key: Key, state: State)
    requires Clear(key) && key.app != "" && key.user != "" && Layer(state, USER_PREFIX) != map[]
    ensures UserPath(key.app, key.user) in DiskCreate(map[], key, state, 0).0
  {
    hide Layer, DiskCreate;
    FirstCreateStores(key, state);
    assert UserPath(key.app, key.user) in AddToLayers(map[], key.app, key.user, state, 0);
  }

  lemma CreateCutOff(disk: Disk, key: Key)
    requires key.app != "" && key.user != "" && SessionPath(key) !in disk && !CanWrite(disk, SessionPath(key))
    ensures DiskCreate(disk, key, map[], 0).1 == Refused(IoFailed)
  {
    hide Layer, CanWrite;
    EmptyLayers();
    assert Layer(map[], APP_PREFIX) == map[] && Layer(map[], USER_PREFIX) == map[];
  }

  lemma NotStoredBefore(first: Key, state: State, other: Key)
    requires first != other && other.app != USER_DIR
    ensures SessionPath(other) !in DiskCreate(map[], first, state, 0).0
  {
    hide DiskStep;
    OtherSessionsUntouched(map[], Create(first, state, 0), other);
    CreateStep(first, state);
  }

  lemma CreateStep(key: Key, state: State)
    ensures DiskStep(map[], Create(key, state, 0)) == DiskCreate(map[], key, state, 0)
  {
    hide DiskCreate;
  }

  lemma HasLayer(state: State, prefix: string, key: string)
    requires prefix + key in state
    ensures Layer(state, prefix) != map[]
  {
    LayerAt(state, prefix, key);
  }

  lemma CutOffByAppFile(disk: Disk, app: string, key: Key)
    requires AppPath(app) in disk && key.app == APP_DIR && key.user == app + JSON_EXT
    ensures !CanWrite(disk, SessionPath(key))
  {
    SessionBelowAppFileIff(key, app);
  }

  /** Two calls whose second answer differs: a session with user state is
      created, then a session of application `_user` is asked for. */
  function Confusing(): seq<Op> {
    [Create(Key("a", "u", "s"), map["user:x" := JNull], 0), Get(Key(USER_DIR, "a", "u"), 0, None)]
  }

  lemma UserStateReadsAsSession()
    ensures DiskReplies(map[], Confusing()) != ModelReplies(EMPTY_MODEL, Confusing())
  {
    hide Layer, SessionLayer, Merged, DiskGet, DiskCreate;
    var op1, op2 := Confusing()[0], Confusing()[1];
    var (disk1, _) := DiskStep(map[], op1);
    var (m1, _) := ModelStep(EMPTY_MODEL, op1);
    assert op2.key !in m1.sessions;
    assert USER_PREFIX + "x" == "user:x";
    HasLayer(op1.state, USER_PREFIX, "x");
    UserStateIsStored(op1.key, op1.state);
    SessionMeetsUserFileIff(op2.key, "a", "u");
    assert SessionPath(op2.key) in disk1;
    FoundIsNotRefused(disk1, op2.key, 0, None);
    assert Confusing()[1..] == [op2];
    assert DiskReplies(disk1, [op2])[0] == DiskGet(disk1, op2.key, 0, None);
    assert ModelReplies(m1, [op2])[0] == Refused(NotFound);
    assert DiskReplies(map[], Confusing())[1] == DiskReplies(disk1, [op2])[0];
    assert ModelReplies(EMPTY_MODEL, Confusing())[1] == ModelReplies(m1, [op2])[0];
  }

  lemma FoundIsNotRefused(disk: Disk, key: Key, n: int, after: Option<int>)
    requires SessionPath(key) in disk && key.app != "" && key.user != "" && key.id != ""
    ensures DiskGet(disk, key, n, after).Session?
  {
  }

  // ----- What the files hold -----

  function DiskRun(disk: Disk, ops: seq<Op>): Disk
    decreases |ops|
  {
    if ops == [] then disk else DiskRun(DiskStep(disk, ops[0]).0, ops[1..])
  }

  /** The stored form of the appends to one session that were answered, in
      order; a partial event is answered without being stored. */
  function Appended(disk: Disk, ops: seq<Op>, key: Key): seq<LogEvent>
    decreases |ops|
  {
    if ops == [] then []
    else
      (if ops[0].Append? && ops[0].key == key && !ops[0].event.partial && DiskStep(disk, ops[0]).1.Done?
       then [Trim(ops[0].event)] else [])
      + Appended(DiskStep(disk, ops[0]).0, ops[1..], key)
  }

  /** A call through another session leaves the session's file alone. */
  lemma OtherSessionsUntouched(disk: Disk, op: Op, key: Key)
    requires key.app != USER_DIR && op.key != key
    ensures var disk' := DiskStep(disk, op).0;
            && (SessionPath(key) in disk' <==> SessionPath(key) in disk)
            && (SessionPath(key) in disk ==> disk'[SessionPath(key)] == disk[SessionPath(key)])
  {
    hide Layer, SessionLayer, Merged, WithoutTemp, AppPath, UserPath, SessionPath, Cut, CanWrite;
    PathsInjective(op.key, key);
    SessionMeetsUserFileIff(key, op.key.app, op.key.user);
  }

  /** What one call through a session does to its file. */
  lemma OwnFileAfter(disk: Disk, op: Op)
    requires op.key.app != USER_DIR && SessionPath(op.key) in disk && !op.Delete?
    ensures var path, disk' := SessionPath(op.key), DiskStep(disk, op).0;
            && path in disk'
            && disk'[path].events == disk[path].events + Appended(disk, [op], op.key)
  {
    hide Layer, SessionLayer, Merged, WithoutTemp, AppPath, UserPath, SessionPath, Cut, CanWrite;
    PathsInjective(op.key, op.key);
    SessionMeetsUserFileIff(op.key, op.key.app, op.key.user);
    assert [op][1..] == [] && Appended(DiskStep(disk, op).0, [], op.key) == [];
  }

  lemma AppendedStep(disk: Disk, ops: seq<Op>, key: Key)
    ensures ops == [] ==> Appended(disk, ops, key) == []
    ensures ops != [] ==> Appended(disk, ops, key)
                          == Appended(disk, [ops[0]], key) + Appended(DiskStep(disk, ops[0]).0, ops[1..], key)
    ensures ops != [] && ops[0].key != key ==> Appended(disk, [ops[0]], key) == []
  {
    hide DiskStep, Trim;
    if ops != [] {
      assert [ops[0]][1..] == [] && Appended(DiskStep(disk, ops[0]).0, [], key) == [];
    }
  }

  /** Until a session is deleted, the events in its file are those it had and
      then every non-partial append that was answered, in order, whichever
      handle it came through and whatever other sessions do. */
  lemma {:induction false} LogIsEveryAppend(disk: Disk, ops: seq<Op>, key: Key)
    requires key.app != USER_DIR && SessionPath(key) in disk
    requires forall k :: 0 <= k < |ops| ==> !(ops[k].Delete? && ops[k].key == key)
    ensures SessionPath(key) in DiskRun(disk, ops)
    ensures DiskRun(disk, ops)[SessionPath(key)].events == disk[SessionPath(key)].events + Appended(disk, ops, key)
    decreases |ops|
  {
    hide DiskStep, SessionPath, WithoutTemp, Trim, Appended;
    AppendedStep(disk, ops, key);
    if ops != [] {
      var disk' := DiskStep(disk, ops[0]).0;
      if ops[0].key == key { OwnFileAfter(disk, ops[0]); } else { OtherSessionsUntouched(disk, ops[0], key); }
      assert forall k :: 0 <= k < |ops[1..]| ==> ops[1..][k] == ops[k + 1];
      LogIsEveryAppend(disk', ops[1..], key);
    }
  }

  /** On a tidy disk every append to a stored clear session is answered. */
  lemma AppendIsAnswered(disk: Disk, key: Key, event: LogEvent, now: int)
    requires Tidy(disk) && Clear(key) && SessionPath(key) in disk
    ensures DiskStep(disk, Append(key, event, now)).1.Done?
  {
    NothingInTheWay(disk, key, Trim(event).stateDelta, now);
  }

  // ----- Temporary keys -----

  predicate NoTempKeys(state: State) {
    forall key :: key in state ==> !(TEMP_PREFIX <= key)
  }

  predicate NoTempEvents(events: seq<LogEvent>) {
    forall k :: 0 <= k < |events| ==> NoTempKeys(events[k].stateDelta)
  }

  /** No session file holds a temporary key, in its state or in an event. */
  ghost predicate NothingTemporary(disk: Disk) {
    forall key: Key :: key.app != USER_DIR && SessionPath(key) in disk ==> NoTempFile(disk[SessionPath(key)])
  }

  lemma LiveStateHasNoTemp(app: State, user: State, own: State)
    requires Plain(own)
    ensures NoTempKeys(Merged(app, user, own))
  {
    forall key | key in Merged(app, user, own) ensures !(TEMP_PREFIX <= key) {
      MergedAt(app, user, own, key);
      PrefixesDiffer(key);
    }
  }

  ghost predicate NoTempFile(file: File) {
    NoTempKeys(file.state) && NoTempEvents(file.events)
  }

  lemma CreatedFileHasNoTemp(disk: Disk, key: Key, state: State, now: int)
    requires key.app != USER_DIR && SessionPath(key) !in disk && SessionPath(key) in DiskCreate(disk, key, state, now).0
    ensures NoTempFile(DiskCreate(disk, key, state, now).0[SessionPath(key)])
  {
    hide Layer, SessionLayer, Merged, AppPath, UserPath, SessionPath, CanWrite, NoTempKeys;
    PathsInjective(key, key);
    SessionMeetsUserFileIff(key, key.app, key.user);
    SessionLayerIsPlain(state);
    var layered := AddToLayers(disk, key.app, key.user, state, now);
    LiveStateHasNoTemp(ReadState(layered, AppPath(key.app)), ReadState(layered, UserPath(key.app, key.user)),
                       SessionLayer(state));
  }

  lemma AppendedFileHasNoTemp(disk: Disk, key: Key, event: LogEvent, now: int)
    requires key.app != USER_DIR && SessionPath(key) in disk && NoTempFile(disk[SessionPath(key)])
    ensures SessionPath(key) in DiskAppend(disk, key, event, now).0
    ensures NoTempFile(DiskAppend(disk, key, event, now).0[SessionPath(key)])
  {
    hide Layer, AppPath, UserPath, SessionPath, CanWrite;
    PathsInjective(key, key);
    SessionMeetsUserFileIff(key, key.app, key.user);
  }

  /** The file a call leaves at its own session's path. */
  lemma OwnFileHasNoTemp(disk: Disk, op: Op)
    requires op.key.app != USER_DIR && SessionPath(op.key) in DiskStep(disk, op).0
    requires SessionPath(op.key) in disk ==> NoTempFile(disk[SessionPath(op.key)])
    ensures NoTempFile(DiskStep(disk, op).0[SessionPath(op.key)])
  {
    hide DiskAppend, SessionPath, NoTempFile, AddToLayers, AddedBeforeFailure, CanAddToLayers, CanWrite;
    match op
    case Create(key, state, now) => if SessionPath(key) !in disk { CreatedFileHasNoTemp(disk, key, state, now); }
    case Append(key, event, now) =>
      if SessionPath(key) in disk { AppendedFileHasNoTemp(disk, key, event, now); } else { MissingStays(disk, op); }
    case _ =>
  }

  lemma MissingStays(disk: Disk, op: Op)
    requires op.Append? && SessionPath(op.key) !in disk
    ensures DiskStep(disk, op).0 == disk
  {
  }

  lemma ReplyHasNoTemp(disk: Disk, op: Op)
    ensures DiskStep(disk, op).1.Session? ==> NoTempKeys(DiskStep(disk, op).1.state)
  {
    hide Layer, SessionLayer, Merged, AppPath, UserPath, SessionPath, Cut, CanWrite;
    match op
    case Create(key, state, now) =>
      SessionLayerIsPlain(state);
      var layered := AddToLayers(disk, key.app, key.user, state, now);
      LiveStateHasNoTemp(ReadState(layered, AppPath(key.app)), ReadState(layered, UserPath(key.app, key.user)),
                         SessionLayer(state));
    case Get(key, n, after) =>
      if SessionPath(key) in disk {
        var own := SessionLayer(disk[SessionPath(key)].state);
        SessionLayerIsPlain(disk[SessionPath(key)].state);
        LiveStateHasNoTemp(ReadState(disk, AppPath(key.app)), ReadState(disk, UserPath(key.app, key.user)), own);
      }
    case _ =>
  }

  /** Whatever is called, no session file comes to hold a temporary key, and
      no answer has one in its state. */
  lemma TempKeysNeverPersist(disk: Disk, op: Op)
    requires NothingTemporary(disk)
    ensures NothingTemporary(DiskStep(disk, op).0)
    ensures DiskStep(disk, op).1.Session? ==> NoTempKeys(DiskStep(disk, op).1.state)
  {
    hide DiskStep, SessionPath, NoTempKeys, NoTempFile;
    ReplyHasNoTemp(disk, op);
    var disk' := DiskStep(disk, op).0;
    forall key: Key | key.app != USER_DIR && SessionPath(key) in disk'
      ensures NoTempFile(disk'[SessionPath(key)])
    {
      if key == op.key { OwnFileHasNoTemp(disk, op); } else { OtherSessionsUntouched(disk, op, key); }
    }
  }

  /** Over any run, from an empty disk as from any disk without one, no
      temporary key is stored with a session or answered. */
  lemma {:induction false} TempKeysNeverAppear(disk: Disk, ops: seq<Op>)
    requires NothingTemporary(disk)
    ensures NothingTemporary(DiskRun(disk, ops))
    ensures forall reply :: reply in DiskReplies(disk, ops) && reply.Session? ==> NoTempKeys(reply.state)
    decreases |ops|
  {
    hide DiskStep, NothingTemporary, NoTempKeys;
    if ops != [] {
      TempKeysNeverPersist(disk, ops[0]);
      TempKeysNeverAppear(DiskStep(disk, ops[0]).0, ops[1..]);
    }
  }
}
