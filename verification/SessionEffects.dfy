/** What one call to session storage changes of what later calls are answered
    (runtime/internal/sessions/file.go). */
module SessionEffects {
  import opened Wrappers
  import opened SessionEvents
  import opened SessionState
  import opened RecentEvents
  import opened SessionFiles
  import opened SessionRefinement

  /** Whether a state key set through one session is for another one too. */
  predicate Reaches(from: Key, to: Key, name: string) {
    if "app:" <= name then to.app == from.app
    else if "user:" <= name then to.app == from.app && to.user == from.user
    else !("temp:" <= name) && to == from
  }

  /** A key that was added has the value added; another is as it was. */
  predicate IsAfter(now: State, name: string, added: bool, delta: State, was: State)
    requires added ==> name in delta
  {
    if added then name in now && now[name] == delta[name]
    else (name in now <==> name in was) && (name in now ==> now[name] == was[name])
  }

  // ----- The layers -----

  lemma AppStateAfter(disk: Disk, key: Key, delta: State, now: int, app: string)
    ensures ReadState(AddToLayers(disk, key.app, key.user, delta, now), AppPath(app))
         == if app == key.app then ReadState(disk, AppPath(app)) + Layer(delta, APP_PREFIX)
            else ReadState(disk, AppPath(app))
  {
    hide Layer, AppPath, UserPath, SessionPath;
    PathsInjective(Key(app, key.user, ""), key);
    PathsInjective(key, key);
  }

  lemma UserStateAfter(disk: Disk, key: Key, delta: State, now: int, app: string, user: string)
    ensures ReadState(AddToLayers(disk, key.app, key.user, delta, now), UserPath(app, user))
         == if app == key.app && user == key.user then ReadState(disk, UserPath(app, user)) + Layer(delta, USER_PREFIX)
            else ReadState(disk, UserPath(app, user))
  {
    hide Layer, AppPath, UserPath, SessionPath;
    PathsInjective(Key(key.app, "", ""), Key(app, user, ""));
    PathsInjective(Key(app, user, ""), key);
  }

  /** A key of a merged state after each layer grew by its part of a delta, or
      stayed. */
  lemma MergedAfter(app: State, user: State, own: State, delta: State, inApp: bool, inUser: bool, inOwn: bool,
                    name: string)
    requires Plain(own)
    ensures var app' := if inApp then app + Layer(delta, APP_PREFIX) else app;
            var user' := if inUser then user + Layer(delta, USER_PREFIX) else user;
            var own' := if inOwn then own + SessionLayer(delta) else own;
            var added := name in delta && if "app:" <= name then inApp else if "user:" <= name then inUser
                                          else !("temp:" <= name) && inOwn;
            IsAfter(Merged(app', user', own'), name, added, delta, Merged(app, user, own))
  {
    hide Layer, Merged;
    var app' := if inApp then app + Layer(delta, APP_PREFIX) else app;
    var user' := if inUser then user + Layer(delta, USER_PREFIX) else user;
    var own' := if inOwn then own + SessionLayer(delta) else own;
    MergedAt(app, user, own, name);
    MergedAt(app', user', own', name);
    PrefixesDiffer(name);
    if APP_PREFIX <= name {
      AddStrip(APP_PREFIX, name);
      LayerAt(delta, APP_PREFIX, name[|APP_PREFIX|..]);
    } else if USER_PREFIX <= name {
      AddStrip(USER_PREFIX, name);
      LayerAt(delta, USER_PREFIX, name[|USER_PREFIX|..]);
    }
  }

  // ----- Append -----

  /** The file an answered append leaves at its session's path. */
  lemma AppendedFile(disk: Disk, key: Key, event: LogEvent, now: int)
    requires key.app != USER_DIR && !event.partial && DiskAppend(disk, key, event, now).1.Done?
    ensures SessionPath(key) in disk
    ensures DiskAppend(disk, key, event, now).0
         == AddToLayers(disk, key.app, key.user, WithoutTemp(event.stateDelta), now)[SessionPath(key) :=
              File(disk[SessionPath(key)].state + SessionLayer(event.stateDelta), event.timestamp,
                   disk[SessionPath(key)].events + [event.(stateDelta := WithoutTemp(event.stateDelta))])]
  {
    hide Layer, AppPath, UserPath, SessionPath, CanAddToLayers, AddToLayers;
    OwnOfTrimmed(event.stateDelta);
  }

  lemma OwnOfTrimmed(delta: State)
    ensures SessionLayer(WithoutTemp(delta)) == SessionLayer(delta)
  {
  }

  lemma LayerOfTrimmed(delta: State, prefix: string)
    requires prefix == APP_PREFIX || prefix == USER_PREFIX
    ensures Layer(WithoutTemp(delta), prefix) == Layer(delta, prefix)
  {
    hide Layer;
    forall k
      ensures k in Layer(WithoutTemp(delta), prefix) <==> k in Layer(delta, prefix)
      ensures k in Layer(delta, prefix) ==> Layer(WithoutTemp(delta), prefix)[k] == Layer(delta, prefix)[k]
    {
      LayerAt(delta, prefix, k);
      LayerAt(WithoutTemp(delta), prefix, k);
      StripAdd(prefix, k);
      PrefixesDiffer(prefix + k);
    }
  }

  /** After an answered append of a complete event, a Get of any session gives
      every key of the event's delta that is for it the value in the delta,
      and every other key the value it had: `app:` keys are for the sessions
      of the application, `user:` keys for those of the user, plain keys for
      the session itself and `temp:` keys for none. */
  lemma AppendIsSeen(disk: Disk, key: Key, event: LogEvent, now: int, other: Key, n: int, after: Option<int>,
                     name: string)
    requires key.app != USER_DIR && other.app != USER_DIR
    requires !event.partial && DiskStep(disk, Append(key, event, now)).1.Done?
    requires DiskStep(disk, Get(other, n, after)).1.Session?
    ensures var disk' := DiskStep(disk, Append(key, event, now)).0;
            && DiskStep(disk', Get(other, n, after)).1.Session?
            && IsAfter(DiskStep(disk', Get(other, n, after)).1.state, name,
                       name in event.stateDelta && Reaches(key, other, name), event.stateDelta,
                       DiskStep(disk, Get(other, n, after)).1.state)
  {
    hide Layer, SessionLayer, Merged, WithoutTemp, AppPath, UserPath, SessionPath, Cut, DiskAppend, AddToLayers,
         IsAfter;
    var delta := WithoutTemp(event.stateDelta);
    var disk1, disk' := AddToLayers(disk, key.app, key.user, delta, now), DiskAppend(disk, key, event, now).0;
    AppendedFile(disk, key, event, now);
    LayerOfTrimmed(event.stateDelta, APP_PREFIX);
    LayerOfTrimmed(event.stateDelta, USER_PREFIX);
    AppStateAfter(disk, key, delta, now, other.app);
    UserStateAfter(disk, key, delta, now, other.app, other.user);
    StateFilesStay(disk1, key, disk'[SessionPath(key)], other);
    if other != key { OtherSessionsUntouched(disk, Append(key, event, now), other); }
    var own := SessionLayer(disk[SessionPath(other)].state);
    SessionLayerIsPlain(disk[SessionPath(other)].state);
    OwnLayerGrows(disk[SessionPath(key)].state, event.stateDelta);
    MergedAfter(ReadState(disk, AppPath(other.app)), ReadState(disk, UserPath(other.app, other.user)), own,
                event.stateDelta, other.app == key.app, other.app == key.app && other.user == key.user, other == key,
                name);
  }

  lemma StateFilesStay(disk: Disk, key: Key, file: File, other: Key)
    requires key.app != USER_DIR
    ensures ReadState(disk[SessionPath(key) := file], AppPath(other.app)) == ReadState(disk, AppPath(other.app))
    ensures ReadState(disk[SessionPath(key) := file], UserPath(other.app, other.user))
         == ReadState(disk, UserPath(other.app, other.user))
  {
    hide AppPath, UserPath, SessionPath;
    PathsInjective(other, key);
    SessionMeetsUserFileIff(key, other.app, other.user);
  }

  /** The event an answered append stores: the caller's content, time and
      partial flag, and of its delta every key that is not temporary. */
  lemma AppendIsStored(disk: Disk, key: Key, event: LogEvent, now: int)
    requires key.app != USER_DIR && !event.partial && DiskStep(disk, Append(key, event, now)).1.Done?
    ensures var disk', path := DiskStep(disk, Append(key, event, now)).0, SessionPath(key);
            && path in disk && path in disk' && |disk'[path].events| == |disk[path].events| + 1
            && disk'[path].events[..|disk[path].events|] == disk[path].events
            && disk'[path].updatedAt == event.timestamp
            && var stored := disk'[path].events[|disk[path].events|];
               && stored.content == event.content && stored.timestamp == event.timestamp
               && stored.partial == event.partial
               && forall name :: (name in stored.stateDelta <==> name in event.stateDelta && !("temp:" <= name))
                                 && (name in stored.stateDelta ==> stored.stateDelta[name] == event.stateDelta[name])
  {
    hide DiskAppend, AddToLayers, SessionPath;
    AppendedFile(disk, key, event, now);
  }

  // ----- Create -----

  /** A created session is answered, and later read, with the keys of its
      state that are not temporary and the keys that its application and user
      had; other sessions see what is for them. */
  lemma CreateIsSeen(disk: Disk, key: Key, state: State, now: int, other: Key, n: int, after: Option<int>,
                     name: string)
    requires key.app != USER_DIR && other.app != USER_DIR && other != key
    requires DiskStep(disk, Create(key, state, now)).1.Session?
    requires DiskStep(disk, Get(other, n, after)).1.Session?
    ensures var disk' := DiskStep(disk, Create(key, state, now)).0;
            && DiskStep(disk', Get(other, n, after)).1.Session?
            && IsAfter(DiskStep(disk', Get(other, n, after)).1.state, name,
                       name in state && Reaches(key, other, name), state,
                       DiskStep(disk, Get(other, n, after)).1.state)
  {
    hide Layer, SessionLayer, Merged, AppPath, UserPath, SessionPath, Cut, AddToLayers, IsAfter, CanWrite,
         CanAddToLayers;
    var disk1 := AddToLayers(disk, key.app, key.user, state, now);
    var disk' := DiskStep(disk, Create(key, state, now)).0;
    AppStateAfter(disk, key, state, now, other.app);
    UserStateAfter(disk, key, state, now, other.app, other.user);
    StateFilesStay(disk1, key, disk'[SessionPath(key)], other);
    OtherSessionsUntouched(disk, Create(key, state, now), other);
    var own := SessionLayer(disk[SessionPath(other)].state);
    SessionLayerIsPlain(disk[SessionPath(other)].state);
    MergedAfter(ReadState(disk, AppPath(other.app)), ReadState(disk, UserPath(other.app, other.user)), own,
                state, other.app == key.app, other.app == key.app && other.user == key.user, false, name);
  }

  lemma CreatedIsRead(disk: Disk, key: Key, state: State, now: int, n: int, after: Option<int>, name: string)
    requires key.app != USER_DIR && DiskStep(disk, Create(key, state, now)).1.Session?
    ensures var (disk', reply) := DiskStep(disk, Create(key, state, now));
            && reply.events == [] && reply.updatedAt == now
            && (key.id != "" ==> DiskStep(disk', Get(key, n, after)).1 == reply)
            && var shared := Merged(ReadState(disk, AppPath(key.app)), ReadState(disk, UserPath(key.app, key.user)),
                                    map[]);
               IsAfter(reply.state, name, name in state && !("temp:" <= name), state, shared)
  {
    hide Layer, SessionLayer, Merged, AppPath, UserPath, SessionPath, AddToLayers, IsAfter, CanWrite, CanAddToLayers;
    var disk1 := AddToLayers(disk, key.app, key.user, state, now);
    var (disk', reply) := DiskStep(disk, Create(key, state, now));
    AppStateAfter(disk, key, state, now, key.app);
    UserStateAfter(disk, key, state, now, key.app, key.user);
    StateFilesStay(disk1, key, disk'[SessionPath(key)], key);
    SessionLayerIsPlain(state);
    FrozenCopyIsIgnored(ReadState(disk1, AppPath(key.app)), ReadState(disk1, UserPath(key.app, key.user)),
                        SessionLayer(state));
    MergedAfter(ReadState(disk, AppPath(key.app)), ReadState(disk, UserPath(key.app, key.user)), map[],
                state, true, true, true, name);
    PrefixesDiffer(name);
    assert map[] + SessionLayer(state) == SessionLayer(state);
  }

  // ----- Get and Delete -----

  /** A Get without a time gives the whole log, or with a count its last
      events. */
  lemma GetGivesTheLog(disk: Disk, key: Key, n: int)
    requires DiskStep(disk, Get(key, n, None)).1.Session?
    ensures SessionPath(key) in disk
    ensures var log := disk[SessionPath(key)].events;
            DiskStep(disk, Get(key, n, None)).1.events == if 0 < n < |log| then log[|log| - n..] else log
  {
    hide Merged, SessionLayer, AppPath, UserPath, SessionPath;
  }

  /** Why a call is refused.  Names are looked at first; then whether the
      session is there.  On a tidy disk nothing else can stand in the way of a
      clear session, and a partial event is answered without being stored. */
  lemma RefusedIff(disk: Disk, op: Op)
    requires Tidy(disk) && Clear(op.key)
    ensures var (disk', reply) := DiskStep(disk, op);
            var named := op.key.app != "" && op.key.user != "" && (op.Create? || op.key.id != "");
            var there := SessionPath(op.key) in disk;
            && (reply == Refused(NameMissing) <==> !op.Append? && !named)
            && (reply == Refused(AlreadyExists) <==> op.Create? && named && there)
            && (reply == Refused(NotFound) <==>
                  !there && ((op.Append? && !op.event.partial) || ((op.Get? || op.Delete?) && named)))
            && reply != Refused(IoFailed)
            && (reply.Refused? || op.Get? || (op.Append? && op.event.partial) ==> disk' == disk)
            && (op.Append? && op.event.partial ==> reply == Done)
  {
    hide Layer, SessionLayer, Merged, WithoutTemp, AppPath, UserPath, SessionPath, Cut, CanWrite, AddToLayers,
         CanAddToLayers;
    if op.Create? { NothingInTheWay(disk, op.key, op.state, op.now); }
    else if op.Append? { NothingInTheWay(disk, op.key, Trim(op.event).stateDelta, op.now); }
    else { NothingInTheWay(disk, op.key, map[], 0); }
  }

  /** A file where a directory is needed, or the other way round. */
  ghost predicate InTheWay(disk: Disk, path: Path) {
    exists q :: q in disk && (path < q || q < path)
  }

  /** On any disk, a session that is not there cannot be found or, if another
      file is in the way of its own, cannot be read. */
  lemma MissingIff(disk: Disk, op: Op)
    requires !op.Create? && !(op.Append? && op.event.partial) && SessionPath(op.key) !in disk
    requires !op.Append? ==> op.key.app != "" && op.key.user != "" && op.key.id != ""
    ensures DiskStep(disk, op).1 == Refused(if InTheWay(disk, SessionPath(op.key)) then IoFailed else NotFound)
    ensures DiskStep(disk, op).0 == disk
  {
    hide SessionPath, AppPath, UserPath, Merged, SessionLayer, AddToLayers, CanAddToLayers;
  }

  /** A layer that cannot be written fails the call before it comes to the
      session's own file; of the layers only the application's may have been
      written by then. */
  lemma BlockedLayerFails(disk: Disk, op: Op)
    requires op.Create? || op.Append?
    requires op.key.app != USER_DIR && op.key.app != "" && op.key.user != ""
    requires op.Create? <==> SessionPath(op.key) !in disk
    requires op.Append? ==> !op.event.partial
    ensures var delta := if op.Create? then op.state else op.event.stateDelta;
            var (disk', reply) := DiskStep(disk, op);
            if Layer(delta, APP_PREFIX) != map[] && InTheWay(disk, AppPath(op.key.app))
            then reply == Refused(IoFailed) && disk' == disk
            else
              var disk1 := AddToApp(disk, op.key.app, delta, op.now);
              Layer(delta, USER_PREFIX) != map[] && InTheWay(disk1, UserPath(op.key.app, op.key.user)) ==>
                reply == Refused(IoFailed) && disk' == disk1
  {
    hide SessionPath, AppPath, UserPath, Merged, SessionLayer, Layer, WithoutTemp, AddToLayers;
    if op.Append? {
      LayerOfTrimmed(op.event.stateDelta, APP_PREFIX);
      LayerOfTrimmed(op.event.stateDelta, USER_PREFIX);
    }
  }

  /** A deleted session cannot be read, and nothing else changes. */
  lemma DeletedIsGone(disk: Disk, key: Key, other: Key, n: int, after: Option<int>)
    requires key.app != USER_DIR && other.app != USER_DIR && DiskStep(disk, Delete(key)).1.Done?
    ensures var disk' := DiskStep(disk, Delete(key)).0;
            && SessionPath(key) in disk
            && DiskStep(disk', Get(key, n, after)).1.Refused?
            && (other != key && SessionPath(other) in disk ==>
                  DiskStep(disk', Get(other, n, after)).1 == DiskStep(disk, Get(other, n, after)).1)
  {
    hide Merged, SessionLayer, AppPath, UserPath, SessionPath, Cut, CanWrite;
    PathsInjective(key, other);
    PathsInjective(other, key);
    SessionMeetsUserFileIff(key, other.app, other.user);
  }
}
