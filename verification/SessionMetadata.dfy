/** Session metadata records: the in-memory store, the file index, and paging
    (runtime/internal/sessions/memory.go, runtime/internal/sessions/file.go). */
module SessionMetadata {
  import opened Wrappers
  import opened SessionFiles

  datatype Meta = Meta(key: Key, title: string, createdAt: int, updatedAt: int)

  /** A listing order: newest first, ties in any order, the same input always
      sorted the same way. */
  type Sorter = seq<Meta> -> seq<Meta>

  ghost predicate NewestFirst(s: seq<Meta>) {
    forall i, j :: 0 <= i < j < |s| ==> s[i].updatedAt >= s[j].updatedAt
  }

  ghost predicate Sorts(sort: Sorter) {
    forall s :: multiset(sort(s)) == multiset(s) && NewestFirst(sort(s))
  }

  function Matching(data: seq<Meta>, app: string, user: string): seq<Meta> {
    if data == [] then []
    else (if data[0].key.app == app && data[0].key.user == user then [data[0]] else [])
         + Matching(data[1..], app, user)
  }

  datatype Page = Page(sessions: seq<Meta>, total: nat)

  predicate ListParamsOk(app: string, user: string, limit: int, offset: int) {
    app != "" && user != "" && 1 <= limit <= 100 && offset >= 0
  }

  function PageOf(sorted: seq<Meta>, limit: int, offset: int): Page
    requires 1 <= limit && 0 <= offset
  {
    var start := if offset < |sorted| then offset else |sorted|;
    var end := if start + limit < |sorted| then start + limit else |sorted|;
    Page(sorted[start..end], |sorted|)
  }

  /** Replaces the first record with the same key, or appends. */
  function Upsert(data: seq<Meta>, meta: Meta): seq<Meta> {
    if data == [] then [meta]
    else if data[0].key == meta.key then [meta] + data[1..]
    else [data[0]] + Upsert(data[1..], meta)
  }

  function Without(data: seq<Meta>, key: Key): seq<Meta> {
    if data == [] then []
    else (if data[0].key == key then [] else [data[0]]) + Without(data[1..], key)
  }

  predicate Complete(key: Key) {
    key.id != "" && key.app != "" && key.user != ""
  }

  // ----- A list of records as a map -----

  ghost predicate UniqueKeys(data: seq<Meta>) {
    forall i, j :: 0 <= i < j < |data| ==> data[i].key != data[j].key
  }

  /** The list holds exactly the records of the map, one each. */
  ghost predicate Holds(data: seq<Meta>, records: map<Key, Meta>) {
    && UniqueKeys(data)
    && (forall i :: 0 <= i < |data| ==> data[i].key in records && records[data[i].key] == data[i])
    && (forall key :: key in records ==> records[key] in data && records[key].key == key)
  }

  lemma {:induction false} UpsertAt(data: seq<Meta>, meta: Meta)
    ensures meta in Upsert(data, meta)
    ensures forall m :: m in data && m.key != meta.key ==> m in Upsert(data, meta)
    ensures UniqueKeys(data) ==> forall m :: m in Upsert(data, meta) ==> m == meta || (m in data && m.key != meta.key)
    decreases |data|
  {
    if data != [] && data[0].key != meta.key {
      UpsertAt(data[1..], meta);
      assert data == [data[0]] + data[1..];
    } else if data != [] {
      assert Upsert(data, meta) == [meta] + data[1..];
      assert forall m :: m in data[1..] ==> exists i :: 1 <= i < |data| && data[i] == m;
      assert data == [data[0]] + data[1..];
    }
  }

  lemma {:induction false} UpsertUnique(data: seq<Meta>, meta: Meta)
    requires UniqueKeys(data)
    ensures UniqueKeys(Upsert(data, meta))
    decreases |data|
  {
    if data != [] {
      var rest := data[1..];
      assert forall i :: 0 <= i < |rest| ==> rest[i] == data[i + 1];
      if data[0].key != meta.key {
        UpsertUnique(rest, meta);
        UpsertAt(rest, meta);
        var up := Upsert(rest, meta);
        forall j | 0 <= j < |up| ensures up[j].key != data[0].key {
          assert up[j] in up;
          if up[j] != meta { assert up[j] in rest; }
        }
      }
    }
  }

  /** Saving is an update of the map. */
  lemma UpsertIsUpdate(data: seq<Meta>, records: map<Key, Meta>, meta: Meta)
    requires Holds(data, records)
    ensures Holds(Upsert(data, meta), records[meta.key := meta])
  {
    UpsertAt(data, meta);
    UpsertUnique(data, meta);
    var up := Upsert(data, meta);
    forall i | 0 <= i < |up|
      ensures up[i].key in records[meta.key := meta] && records[meta.key := meta][up[i].key] == up[i]
    {
      assert up[i] in up;
    }
  }

  lemma {:induction false} WithoutAt(data: seq<Meta>, key: Key)
    ensures forall m :: m in Without(data, key) <==> m in data && m.key != key
    ensures UniqueKeys(data) ==> UniqueKeys(Without(data, key))
    decreases |data|
  {
    if data != [] {
      var rest := data[1..];
      WithoutAt(rest, key);
      assert data == [data[0]] + rest;
      assert forall i :: 0 <= i < |rest| ==> rest[i] == data[i + 1];
      if UniqueKeys(data) && data[0].key != key {
        var w := Without(rest, key);
        forall j | 0 <= j < |w| ensures w[j].key != data[0].key {
          assert w[j] in w && w[j] in rest;
        }
      }
    }
  }

  /** Deleting removes the key from the map. */
  lemma WithoutIsRemoval(data: seq<Meta>, records: map<Key, Meta>, key: Key)
    requires Holds(data, records)
    ensures Holds(Without(data, key), records - {key})
  {
    WithoutAt(data, key);
    var w := Without(data, key);
    forall i | 0 <= i < |w|
      ensures w[i].key in records - {key} && (records - {key})[w[i].key] == w[i]
    {
      assert w[i] in w;
    }
  }

  lemma {:induction false} MatchingAt(data: seq<Meta>, app: string, user: string)
    ensures forall m :: m in Matching(data, app, user) <==> m in data && m.key.app == app && m.key.user == user
    decreases |data|
  {
    if data != [] {
      MatchingAt(data[1..], app, user);
      assert data == [data[0]] + data[1..];
    }
  }

  /** The records of one application and user. */
  function Sub(records: map<Key, Meta>, app: string, user: string): map<Key, Meta> {
    map key | key in records && key.app == app && key.user == user :: records[key]
  }

  /** A listing has every record exactly once, newest first. */
  ghost predicate Lists(listing: seq<Meta>, records: map<Key, Meta>) {
    && NewestFirst(listing) && UniqueKeys(listing)
    && forall m :: m in listing <==> m.key in records && records[m.key] == m
  }

  lemma {:induction false} MatchingUnique(data: seq<Meta>, app: string, user: string)
    requires UniqueKeys(data)
    ensures UniqueKeys(Matching(data, app, user))
    decreases |data|
  {
    if data != [] {
      var rest := data[1..];
      assert forall i :: 0 <= i < |rest| ==> rest[i] == data[i + 1];
      MatchingUnique(rest, app, user);
      MatchingAt(rest, app, user);
      var matching := Matching(rest, app, user);
      forall j | 0 <= j < |matching| ensures matching[j].key != data[0].key {
        assert matching[j] in matching && matching[j] in rest;
      }
    }
  }

  lemma {:induction false} UniqueOccursOnce(s: seq<Meta>, m: Meta)
    requires UniqueKeys(s)
    ensures multiset(s)[m] <= 1
    decreases |s|
  {
    if s != [] {
      var rest := s[1..];
      assert s == [s[0]] + rest && forall i :: 0 <= i < |rest| ==> rest[i] == s[i + 1];
      UniqueOccursOnce(rest, m);
      if s[0] == m { assert m !in rest; }
    }
  }

  lemma OccursTwice(s: seq<Meta>, i: nat, j: nat)
    requires i < j < |s| && s[i] == s[j]
    ensures multiset(s)[s[i]] >= 2
  {
    assert s == s[..j] + [s[j]] + s[j + 1..];
    assert s[i] in s[..j];
  }

  /** What both stores sort and cut into pages lists the user's records. */
  lemma SortedLists(data: seq<Meta>, records: map<Key, Meta>, sort: Sorter, app: string, user: string)
    requires Holds(data, records) && Sorts(sort)
    ensures Lists(sort(Matching(data, app, user)), Sub(records, app, user))
  {
    var matching := Matching(data, app, user);
    var sorted := sort(matching);
    MatchingAt(data, app, user);
    MatchingUnique(data, app, user);
    assert multiset(sorted) == multiset(matching);
    forall m ensures m in sorted <==> m in matching {
      assert m in sorted <==> m in multiset(sorted);
      assert m in matching <==> m in multiset(matching);
    }
    forall m ensures m in matching <==> m.key in Sub(records, app, user) && Sub(records, app, user)[m.key] == m {
      if m in matching { var i :| 0 <= i < |data| && data[i] == m; }
    }
    forall i, j | 0 <= i < j < |sorted| ensures sorted[i].key != sorted[j].key {
      assert sorted[i] in sorted && sorted[j] in sorted;
      if sorted[i] == sorted[j] {
        OccursTwice(sorted, i, j);
        UniqueOccursOnce(matching, sorted[i]);
      }
    }
  }

  lemma MatchingStep(data: seq<Meta>, i: nat, app: string, user: string)
    requires i <= |data|
    ensures i < |data| ==>
              Matching(data[i..], app, user)
                == (if data[i].key.app == app && data[i].key.user == user then [data[i]] else [])
                   + Matching(data[i + 1..], app, user)
    ensures i == |data| ==> Matching(data[i..], app, user) == []
  {
    if i < |data| { assert data[i..][1..] == data[i + 1..]; }
  }

  /** The filter loop of both stores. */
  method Matched(data: seq<Meta>, app: string, user: string) returns (matched: seq<Meta>)
    ensures matched == Matching(data, app, user)
  {
    hide Matching;
    matched := [];
    assert data[0..] == data;
    for i := 0 to |data|
      invariant matched + Matching(data[i..], app, user) == Matching(data, app, user)
    {
      MatchingStep(data, i, app, user);
      if data[i].key.app == app && data[i].key.user == user {
        matched := matched + [data[i]];
      } else {
        assert [] + Matching(data[i + 1..], app, user) == Matching(data[i + 1..], app, user);
      }
    }
    MatchingStep(data, |data|, app, user);
  }

  // ----- The in-memory store -----

  class MemorySessionMetadataStore {
    var data: seq<Meta>
    const sort: Sorter
    ghost var records: map<Key, Meta>

    ghost predicate Valid()
      reads this
    {
      Holds(data, records)
    }

    constructor (sort: Sorter)
      ensures Valid() && records == map[] && this.sort == sort
    {
      data, records := [], map[];
      this.sort := sort;
    }

    /** Upserts by application, user and session. */
    method Save(meta: Meta) returns (ok: bool)
      requires Valid()
      modifies this
      ensures Valid() && ok == Complete(meta.key)
      ensures records == if ok then old(records)[meta.key := meta] else old(records)
      ensures data == if ok then Upsert(old(data), meta) else old(data)
    {
      if !Complete(meta.key) { return false; }
      UpsertIsUpdate(data, records, meta);
      records := records[meta.key := meta];
      data := Saved(data, meta);
      ok := true;
    }

    /** A page of the listing of the user's records. */
    method List(app: string, user: string, limit: int, offset: int) returns (page: Option<Page>)
      requires Valid() && Sorts(sort)
      ensures page.Some? <==> app != "" && user != "" && 1 <= limit <= 100 && offset >= 0
      ensures var listing := sort(Matching(data, app, user));
              Lists(listing, Sub(records, app, user)) && (page.Some? ==> page.value == PageOf(listing, limit, offset))
    {
      SortedLists(data, records, sort, app, user);
      if !ListParamsOk(app, user, limit, offset) { return None; }
      var matched := Matched(data, app, user);
      page := Some(PageOf(sort(matched), limit, offset));
    }

    /** Compacts in place: kept records move down over the deleted one. */
    method Delete(key: Key) returns (ok: bool)
      requires Valid()
      modifies this
      ensures Valid() && ok == Complete(key)
      ensures records == if ok then old(records) - {key} else old(records)
      ensures data == if ok then Without(old(data), key) else old(data)
    {
      if !Complete(key) { return false; }
      WithoutIsRemoval(data, records, key);
      data := Compacted(data, key);
      records := records - {key};
      ok := true;
    }
  }

  lemma WithoutStep(data: seq<Meta>, i: nat, key: Key)
    requires i <= |data|
    ensures i < |data| ==>
              Without(data[i..], key) == (if data[i].key == key then [] else [data[i]]) + Without(data[i + 1..], key)
    ensures i == |data| ==> Without(data[i..], key) == []
  {
    if i < |data| { assert data[i..][1..] == data[i + 1..]; }
  }

  /** One step of compaction: everything below `i` has been looked at, and what
      was kept of it lies below `kept`. */
  ghost predicate PartlyCompacted(data: seq<Meta>, key: Key, out: seq<Meta>, kept: nat, i: nat) {
    && kept <= i <= |data| == |out|
    && out[i..] == data[i..]
    && out[..kept] + Without(data[i..], key) == Without(data, key)
  }

  lemma CompactionStep(data: seq<Meta>, key: Key, out: seq<Meta>, kept: nat, i: nat)
    requires PartlyCompacted(data, key, out, kept, i) && i < |data|
    ensures out[i] == data[i]
    ensures data[i].key == key ==> PartlyCompacted(data, key, out, kept, i + 1)
    ensures data[i].key != key ==> PartlyCompacted(data, key, out[kept := out[i]], kept + 1, i + 1)
  {
    hide Without;
    WithoutStep(data, i, key);
    assert out[i] == out[i..][0] && data[i] == data[i..][0];
    assert out[i + 1..] == out[i..][1..] && data[i + 1..] == data[i..][1..];
    if data[i].key != key {
      var moved := out[kept := out[i]];
      assert moved[i + 1..] == out[i + 1..];
      assert moved[..kept + 1] == out[..kept] + [data[i]];
      assert moved[..kept + 1] + Without(data[i + 1..], key) == out[..kept] + ([data[i]] + Without(data[i + 1..], key));
    } else {
      assert [] + Without(data[i + 1..], key) == Without(data[i + 1..], key);
    }
  }

  method Compacted(data: seq<Meta>, key: Key) returns (out: seq<Meta>)
    ensures out == Without(data, key)
  {
    out := data;
    var kept := 0;
    assert data[0..] == data && PartlyCompacted(data, key, out, kept, 0);
    for i := 0 to |data|
      invariant PartlyCompacted(data, key, out, kept, i)
    {
      CompactionStep(data, key, out, kept, i);
      if out[i].key != key {
        out := out[kept := out[i]];
        kept := kept + 1;
      }
    }
    WithoutStep(data, |data|, key);
    out := out[..kept];
  }

  lemma UpsertStep(data: seq<Meta>, i: nat, meta: Meta)
    requires i <= |data|
    ensures i < |data| ==>
              Upsert(data[i..], meta)
                == if data[i].key == meta.key then [meta] + data[i + 1..] else [data[i]] + Upsert(data[i + 1..], meta)
    ensures i == |data| ==> Upsert(data[i..], meta) == [meta]
  {
    if i < |data| { assert data[i..][1..] == data[i + 1..]; }
  }

  /** The upsert loop of both stores. */
  method Saved(data: seq<Meta>, meta: Meta) returns (out: seq<Meta>)
    ensures out == Upsert(data, meta)
  {
    hide Upsert;
    assert data[..0] == [] && data[0..] == data;
    for i := 0 to |data|
      invariant data[..i] + Upsert(data[i..], meta) == Upsert(data, meta)
    {
      UpsertStep(data, i, meta);
      if data[i].key == meta.key {
        assert data[i := meta] == data[..i] + ([meta] + data[i + 1..]);
        return data[i := meta];
      }
      assert data[..i + 1] + Upsert(data[i + 1..], meta) == data[..i] + ([data[i]] + Upsert(data[i + 1..], meta));
    }
    UpsertStep(data, |data|, meta);
    assert data[..|data|] == data;
    out := data + [meta];
  }

  // ----- Finding a record by paging -----

  const LIST_PAGE_SIZE := 100

  /** Reads page after page of an unchanging store until the session turns up
      or the pages are used up. */
  method FindSessionMetadata(data: seq<Meta>, sort: Sorter, key: Key) returns (ok: bool, found: Option<Meta>)
    requires Sorts(sort)
    ensures ok <==> key.app != "" && key.user != ""
    ensures found.Some? ==> ok && found.value in data && found.value.key == key
    ensures ok && found.None? ==> forall m :: m in data ==> m.key != key
  {
    if !ListParamsOk(key.app, key.user, LIST_PAGE_SIZE, 0) { return false, None; }
    ok := true;
    ghost var sorted := sort(Matching(data, key.app, key.user));
    SortedMatching(data, sort, key.app, key.user);
    var offset := 0;
    while true
      invariant offset <= |sorted|
      invariant forall i :: 0 <= i < offset ==> sorted[i].key.id != key.id
      decreases |sorted| - offset
    {
      var page := PageOf(sort(Matching(data, key.app, key.user)), LIST_PAGE_SIZE, offset);
      for i := 0 to |page.sessions|
        invariant forall j :: 0 <= j < i ==> page.sessions[j].key.id != key.id
      {
        if page.sessions[i].key.id == key.id {
          assert page.sessions[i] == sorted[offset + i] && sorted[offset + i] in sorted;
          return ok, Some(page.sessions[i]);
        }
      }
      if offset + |page.sessions| >= page.total {
        assert forall i :: 0 <= i < |sorted| ==> i < offset || sorted[i] == page.sessions[i - offset];
        return ok, None;
      }
      assert forall i :: offset <= i < offset + |page.sessions| ==> sorted[i] == page.sessions[i - offset];
      offset := offset + |page.sessions|;
    }
  }

  lemma SortedMatching(data: seq<Meta>, sort: Sorter, app: string, user: string)
    requires Sorts(sort)
    ensures forall m :: m in sort(Matching(data, app, user)) <==> m in data && m.key.app == app && m.key.user == user
  {
    var matching := Matching(data, app, user);
    MatchingAt(data, app, user);
    assert multiset(sort(matching)) == multiset(matching);
    forall m ensures m in sort(matching) <==> m in matching {
      assert m in sort(matching) <==> m in multiset(sort(matching));
      assert m in matching <==> m in multiset(matching);
    }
  }

  /** Finding agrees with the map: exactly the record under the key, if any. */
  lemma FoundIsLookup(data: seq<Meta>, records: map<Key, Meta>, key: Key, found: Option<Meta>)
    requires Holds(data, records)
    requires found.Some? ==> found.value in data && found.value.key == key
    requires found.None? ==> forall m :: m in data ==> m.key != key
    ensures found == if key in records then Some(records[key]) else None
  {
    if found.Some? {
      var i :| 0 <= i < |data| && data[i] == found.value;
    }
  }

  /** A page has the records from its offset on, at most as many as asked for
      and all there are below that, and tells how many there are in all. */
  lemma PageHolds(sorted: seq<Meta>, limit: int, offset: int)
    requires 1 <= limit && 0 <= offset
    ensures var page := PageOf(sorted, limit, offset);
            && page.total == |sorted| && |page.sessions| <= limit
            && (|page.sessions| < limit && offset <= |sorted| ==> offset + |page.sessions| == |sorted|)
            && (offset >= |sorted| ==> page.sessions == [])
            && forall k :: 0 <= k < |page.sessions| ==>
                 offset + k < |sorted| && page.sessions[k] == sorted[offset + k]
  {
  }

  /** Pages at the offsets the loop uses cut the sorted list into its parts. */
  function PagesFrom(sorted: seq<Meta>, limit: int, offset: int): seq<Meta>
    requires 1 <= limit && 0 <= offset <= |sorted|
    decreases |sorted| - offset
  {
    var page := PageOf(sorted, limit, offset).sessions;
    if offset + |page| >= |sorted| then page else page + PagesFrom(sorted, limit, offset + |page|)
  }

  lemma {:induction false} PagesPartition(sorted: seq<Meta>, limit: int, offset: int)
    requires 1 <= limit && 0 <= offset <= |sorted|
    ensures PagesFrom(sorted, limit, offset) == sorted[offset..]
    decreases |sorted| - offset
  {
    var page := PageOf(sorted, limit, offset).sessions;
    if offset + |page| < |sorted| {
      PagesPartition(sorted, limit, offset + |page|);
      assert sorted[offset..] == sorted[offset..offset + |page|] + sorted[offset + |page|..];
    }
  }
}
