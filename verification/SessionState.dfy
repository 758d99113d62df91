/** The three layers of session state and the prefixed keys that address them
    (runtime/internal/sessions/file.go).  The prefixes are those of ADK's
    session package. */
module SessionState {
  import opened SessionEvents

  type State = map<string, Json>

  const APP_PREFIX := "app:"
  const USER_PREFIX := "user:"
  const TEMP_PREFIX := "temp:"

  /** The keys under a prefix, without it. */
  function Layer(delta: State, prefix: string): State {
    var stripped := set key | key in delta && prefix <= key :: key[|prefix|..];
    map key | key in stripped && prefix + key in delta :: delta[prefix + key]
  }

  predicate Layered(key: string) {
    APP_PREFIX <= key || USER_PREFIX <= key
  }

  /** The keys of the session itself: neither app, nor user, nor temporary. */
  function SessionLayer(delta: State): State {
    map key | key in delta && !Layered(key) && !(TEMP_PREFIX <= key) :: delta[key]
  }

  function WithoutTemp(delta: State): State {
    map key | key in delta && !(TEMP_PREFIX <= key) :: delta[key]
  }

  function Prefixed(state: State, prefix: string): State {
    var full := set key | key in state :: prefix + key;
    map key | key in full && prefix <= key && key[|prefix|..] in state :: state[key[|prefix|..]]
  }

  function Merged(app: State, user: State, sess: State): State {
    sess + Prefixed(app, APP_PREFIX) + Prefixed(user, USER_PREFIX)
  }

  // ----- One key at a time -----

  lemma StripAdd(prefix: string, key: string)
    ensures prefix <= prefix + key && (prefix + key)[|prefix|..] == key
  {
  }

  lemma AddStrip(prefix: string, key: string)
    requires prefix <= key
    ensures prefix + key[|prefix|..] == key
  {
  }

  lemma LayerAt(delta: State, prefix: string, key: string)
    ensures key in Layer(delta, prefix) <==> prefix + key in delta
    ensures key in Layer(delta, prefix) ==> Layer(delta, prefix)[key] == delta[prefix + key]
  {
    StripAdd(prefix, key);
    if prefix + key in delta {
      assert (prefix + key)[|prefix|..] in (set k | k in delta && prefix <= k :: k[|prefix|..]);
    }
  }

  lemma PrefixedAt(state: State, prefix: string, key: string)
    ensures prefix + key in Prefixed(state, prefix) <==> key in state
    ensures key in state ==> Prefixed(state, prefix)[prefix + key] == state[key]
  {
    StripAdd(prefix, key);
    if key in state {
      assert prefix + key in (set k | k in state :: prefix + k);
    }
  }

  lemma PrefixedHas(state: State, prefix: string, full: string)
    ensures full in Prefixed(state, prefix) <==> prefix <= full && full[|prefix|..] in state
    ensures full in Prefixed(state, prefix) ==> Prefixed(state, prefix)[full] == state[full[|prefix|..]]
  {
    if prefix <= full {
      AddStrip(prefix, full);
      PrefixedAt(state, prefix, full[|prefix|..]);
    }
  }

  lemma LayerInsertAt(delta: State, key: string, value: Json, prefix: string, k: string)
    requires key !in delta
    ensures var before, after := Layer(delta, prefix), Layer(delta[key := value], prefix);
            var hit := prefix <= key && k == key[|prefix|..];
            && (k in after <==> k in before || hit)
            && (k in after ==> after[k] == if hit then value else before[k])
  {
    LayerAt(delta, prefix, k);
    LayerAt(delta[key := value], prefix, k);
    if prefix <= key { AddStrip(prefix, key); }
    StripAdd(prefix, k);
  }

  lemma LayerInsert(delta: State, key: string, value: Json, prefix: string)
    requires key !in delta
    ensures Layer(delta[key := value], prefix)
         == if prefix <= key then Layer(delta, prefix)[key[|prefix|..] := value] else Layer(delta, prefix)
  {
    hide Layer;
    var after := Layer(delta[key := value], prefix);
    var expected := if prefix <= key then Layer(delta, prefix)[key[|prefix|..] := value] else Layer(delta, prefix);
    forall k
      ensures k in after <==> k in expected
      ensures k in after ==> after[k] == expected[k]
    {
      LayerInsertAt(delta, key, value, prefix, k);
    }
  }

  lemma SessionLayerInsert(delta: State, key: string, value: Json)
    requires key !in delta
    ensures SessionLayer(delta[key := value])
         == if !Layered(key) && !(TEMP_PREFIX <= key) then SessionLayer(delta)[key := value] else SessionLayer(delta)
  {
  }

  lemma PrefixedInsert(state: State, key: string, value: Json, prefix: string)
    requires key !in state
    ensures Prefixed(state[key := value], prefix) == Prefixed(state, prefix)[prefix + key := value]
  {
    var after, expected := Prefixed(state[key := value], prefix), Prefixed(state, prefix)[prefix + key := value];
    StripAdd(prefix, key);
    forall full
      ensures full in after <==> full in expected
      ensures full in after ==> after[full] == expected[full]
    {
      PrefixedHas(state, prefix, full);
      PrefixedHas(state[key := value], prefix, full);
      if prefix <= full { AddStrip(prefix, full); }
    }
  }

  /** No key has both an app and a user prefix, nor either and the temporary
      one. */
  lemma PrefixesDiffer(key: string)
    ensures !(APP_PREFIX <= key && USER_PREFIX <= key)
    ensures Layered(key) ==> !(TEMP_PREFIX <= key)
  {
    if APP_PREFIX <= key { assert key[0] == 'a'; }
    if USER_PREFIX <= key { assert key[0] == 'u'; }
    if TEMP_PREFIX <= key { assert key[0] == 't'; }
  }

  // ----- The loops -----

  lemma EmptyLayers()
    ensures forall prefix :: Layer(map[], prefix) == map[]
    ensures SessionLayer(map[]) == map[]
    ensures forall prefix :: Prefixed(map[], prefix) == map[]
  {
  }

  /** The splitting loop: one pass over the keys. */
  method ExtractStateDeltas(delta: State) returns (app: State, user: State, sess: State)
    ensures app == Layer(delta, APP_PREFIX)
    ensures user == Layer(delta, USER_PREFIX)
    ensures sess == SessionLayer(delta)
  {
    hide Layer, SessionLayer;
    app, user, sess := map[], map[], map[];
    EmptyLayers();
    var rest := delta.Keys;
    ghost var seen: State := map[];
    while rest != {}
      invariant rest <= delta.Keys && seen.Keys == delta.Keys - rest
      invariant forall key :: key in seen ==> seen[key] == delta[key]
      invariant app == Layer(seen, APP_PREFIX) && user == Layer(seen, USER_PREFIX) && sess == SessionLayer(seen)
      decreases rest
    {
      var key :| key in rest;
      LayerInsert(seen, key, delta[key], APP_PREFIX);
      LayerInsert(seen, key, delta[key], USER_PREFIX);
      SessionLayerInsert(seen, key, delta[key]);
      PrefixesDiffer(key);
      if APP_PREFIX <= key {
        app := app[key[|APP_PREFIX|..] := delta[key]];
      } else if USER_PREFIX <= key {
        user := user[key[|USER_PREFIX|..] := delta[key]];
      } else if !(TEMP_PREFIX <= key) {
        sess := sess[key := delta[key]];
      }
      seen := seen[key := delta[key]];
      rest := rest - {key};
    }
    assert seen == delta;
  }

  /** Copies a layer into a state under its prefix: one of the two merging
      loops. */
  method CopyPrefixed(base: State, layer: State, prefix: string) returns (merged: State)
    ensures merged == base + Prefixed(layer, prefix)
  {
    hide Prefixed;
    merged := base;
    EmptyLayers();
    var rest := layer.Keys;
    ghost var seen: State := map[];
    while rest != {}
      invariant rest <= layer.Keys && seen.Keys == layer.Keys - rest
      invariant forall key :: key in seen ==> seen[key] == layer[key]
      invariant merged == base + Prefixed(seen, prefix)
      decreases rest
    {
      var key :| key in rest;
      PrefixedInsert(seen, key, layer[key], prefix);
      merged := merged[prefix + key := layer[key]];
      seen := seen[key := layer[key]];
      rest := rest - {key};
    }
    assert seen == layer;
  }

  method MergeStates(app: State, user: State, sess: State) returns (merged: State)
    ensures merged == Merged(app, user, sess)
  {
    merged := CopyPrefixed(sess, app, APP_PREFIX);
    merged := CopyPrefixed(merged, user, USER_PREFIX);
  }

  // ----- What splitting and merging mean to each other -----

  /** Which layer a key of a merged state comes from. */
  lemma MergedAt(app: State, user: State, sess: State, key: string)
    ensures APP_PREFIX <= key ==>
              && (key[|APP_PREFIX|..] in app || key in sess <==> key in Merged(app, user, sess))
              && (key[|APP_PREFIX|..] in app ==> Merged(app, user, sess)[key] == app[key[|APP_PREFIX|..]])
    ensures USER_PREFIX <= key ==>
              && (key[|USER_PREFIX|..] in user || key in sess <==> key in Merged(app, user, sess))
              && (key[|USER_PREFIX|..] in user ==> Merged(app, user, sess)[key] == user[key[|USER_PREFIX|..]])
    ensures !Layered(key) ==>
              (key in Merged(app, user, sess) <==> key in sess)
              && (key in sess ==> Merged(app, user, sess)[key] == sess[key])
  {
    PrefixedHas(app, APP_PREFIX, key);
    PrefixedHas(user, USER_PREFIX, key);
    PrefixesDiffer(key);
  }

  /** The session's own keys carry no prefix that splitting would strip. */
  predicate Plain(sess: State) {
    forall key :: key in sess ==> !Layered(key) && !(TEMP_PREFIX <= key)
  }

  lemma LayerOfMerged(app: State, user: State, sess: State, key: string)
    requires Plain(sess)
    ensures var m := Merged(app, user, sess);
            && (key in Layer(m, APP_PREFIX) <==> key in app)
            && (key in app ==> Layer(m, APP_PREFIX)[key] == app[key])
            && (key in Layer(m, USER_PREFIX) <==> key in user)
            && (key in user ==> Layer(m, USER_PREFIX)[key] == user[key])
  {
    var m := Merged(app, user, sess);
    LayerAt(m, APP_PREFIX, key);
    LayerAt(m, USER_PREFIX, key);
    StripAdd(APP_PREFIX, key);
    StripAdd(USER_PREFIX, key);
    MergedAt(app, user, sess, APP_PREFIX + key);
    MergedAt(app, user, sess, USER_PREFIX + key);
  }

  lemma SessionLayerOfMerged(app: State, user: State, sess: State)
    requires Plain(sess)
    ensures SessionLayer(Merged(app, user, sess)) == sess
  {
    hide Merged, Prefixed;
    var m := Merged(app, user, sess);
    forall key
      ensures key in SessionLayer(m) <==> key in sess
      ensures key in sess ==> SessionLayer(m)[key] == sess[key]
    {
      MergedAt(app, user, sess, key);
    }
  }

  /** Splitting a merged state gives the layers back exactly when the session
      layer is plain. */
  lemma SplitOfMergeIffPlain(app: State, user: State, sess: State)
    ensures Plain(sess) <==>
              && Layer(Merged(app, user, sess), APP_PREFIX) == app
              && Layer(Merged(app, user, sess), USER_PREFIX) == user
              && SessionLayer(Merged(app, user, sess)) == sess
  {
    hide Layer, Merged, Prefixed;
    var m := Merged(app, user, sess);
    if Plain(sess) {
      SessionLayerOfMerged(app, user, sess);
      forall key
        ensures key in Layer(m, APP_PREFIX) <==> key in app
        ensures key in app ==> Layer(m, APP_PREFIX)[key] == app[key]
        ensures key in Layer(m, USER_PREFIX) <==> key in user
        ensures key in user ==> Layer(m, USER_PREFIX)[key] == user[key]
      {
        LayerOfMerged(app, user, sess, key);
      }
    } else {
      var key :| key in sess && (Layered(key) || TEMP_PREFIX <= key);
      assert key !in SessionLayer(m);
    }
  }

  lemma MergeOfSplitAt(delta: State, key: string)
    ensures var m := Merged(Layer(delta, APP_PREFIX), Layer(delta, USER_PREFIX), SessionLayer(delta));
            && (key in m <==> key in WithoutTemp(delta))
            && (key in m ==> m[key] == WithoutTemp(delta)[key])
  {
    hide Layer, Merged, Prefixed;
    MergedAt(Layer(delta, APP_PREFIX), Layer(delta, USER_PREFIX), SessionLayer(delta), key);
    PrefixesDiffer(key);
    if APP_PREFIX <= key {
      AddStrip(APP_PREFIX, key);
      LayerAt(delta, APP_PREFIX, key[|APP_PREFIX|..]);
    }
    if USER_PREFIX <= key {
      AddStrip(USER_PREFIX, key);
      LayerAt(delta, USER_PREFIX, key[|USER_PREFIX|..]);
    }
  }

  /** Merging what was split loses the temporary keys and nothing else. */
  lemma MergeOfSplit(delta: State)
    ensures Merged(Layer(delta, APP_PREFIX), Layer(delta, USER_PREFIX), SessionLayer(delta)) == WithoutTemp(delta)
  {
    hide Layer, Merged, Prefixed, SessionLayer, WithoutTemp;
    var m := Merged(Layer(delta, APP_PREFIX), Layer(delta, USER_PREFIX), SessionLayer(delta));
    forall key
      ensures key in m <==> key in WithoutTemp(delta)
      ensures key in m ==> m[key] == WithoutTemp(delta)[key]
    {
      MergeOfSplitAt(delta, key);
    }
  }

  lemma SessionLayerIsPlain(delta: State)
    ensures Plain(SessionLayer(delta))
  {
  }
}
