/** The recursive directory listing with a depth limit and one budget of nodes
    for the whole tree (tools/workspacefs/internal/workspacefs/tree.go). */
module DirectoryTree {
  import opened Wrappers

  /** What the file system holds; it does not change during a call. */
  datatype Node =
    | File(name: string)
    | Dir(name: string, readable: bool, entries: seq<Node>)

  datatype TreeNode = TreeNode(name: string, isDirectory: bool, children: seq<TreeNode>)

  const DEFAULT_MAX_DEPTH := 20
  const MAX_DEPTH_HARD_CAP := 100

  // ----- Order of children -----

  /** Byte order of strings. */
  predicate Before(a: string, b: string) {
    b != "" && (a == "" || a[0] < b[0] || (a[0] == b[0] && Before(a[1..], b[1..])))
  }

  /** It is a strict order of all strings. */
  lemma {:induction false} BeforeIsOrder(a: string, b: string, c: string)
    ensures Before(a, b) || Before(b, a) <==> a != b
    ensures !(Before(a, b) && Before(b, a))
    ensures Before(a, b) && Before(b, c) ==> Before(a, c)
    decreases |a|
  {
    if a != "" && b != "" {
      var c' := if c == "" then "" else c[1..];
      BeforeIsOrder(a[1..], b[1..], c');
      assert a == [a[0]] + a[1..] && b == [b[0]] + b[1..];
    }
  }

  /** Sorting by lower-cased name; names equal but for case may come in any
      order, always the same for the same directory. */
  datatype Sorting = Sorting(lower: string -> string, sort: seq<Node> -> seq<Node>)

  ghost predicate Sorts(s: Sorting) {
    forall nodes :: multiset(s.sort(nodes)) == multiset(nodes) && NodesInOrder(s, s.sort(nodes))
  }

  predicate NodesInOrder(s: Sorting, nodes: seq<Node>) {
    forall i, j :: 0 <= i < j < |nodes| ==> !Before(s.lower(nodes[j].name), s.lower(nodes[i].name))
  }

  lemma SortKeeps(s: Sorting, nodes: seq<Node>)
    requires Sorts(s)
    ensures |s.sort(nodes)| == |nodes|
    ensures forall n :: n in s.sort(nodes) <==> n in nodes
  {
    assert multiset(s.sort(nodes)) == multiset(nodes);
    assert |multiset(s.sort(nodes))| == |multiset(nodes)|;
    forall n ensures n in s.sort(nodes) <==> n in nodes {
      assert n in s.sort(nodes) <==> n in multiset(s.sort(nodes));
      assert n in nodes <==> n in multiset(nodes);
    }
  }

  // ----- The cut tree -----

  /** The tree below a node, `depth` levels down; a directory at the limit is
      listed without children. */
  function Cut(s: Sorting, n: Node, depth: nat): TreeNode
    decreases depth, 1, 0
  {
    match n
    case File(name) => TreeNode(name, false, [])
    case Dir(name, _, entries) =>
      TreeNode(name, true, if depth == 0 then [] else CutAll(s, s.sort(entries), depth))
  }

  function CutAll(s: Sorting, nodes: seq<Node>, depth: nat): (trees: seq<TreeNode>)
    requires depth > 0
    ensures |trees| == |nodes|
    ensures forall k :: 0 <= k < |nodes| ==> trees[k] == Cut(s, nodes[k], depth - 1)
    decreases depth, 0, |nodes|
  {
    if nodes == [] then [] else [Cut(s, nodes[0], depth - 1)] + CutAll(s, nodes[1..], depth)
  }

  function Size(t: TreeNode): nat {
    1 + ForestSize(t.children)
  }

  function ForestSize(trees: seq<TreeNode>): nat {
    if trees == [] then 0 else Size(trees[0]) + ForestSize(trees[1..])
  }

  /** Every directory the walk opens can be read. */
  predicate Opens(s: Sorting, n: Node, depth: nat)
    decreases depth
  {
    n.Dir? && depth > 0 ==>
      n.readable && forall k :: 0 <= k < |s.sort(n.entries)| ==> Opens(s, s.sort(n.entries)[k], depth - 1)
  }

  lemma {:induction false} ForestSizeConcat(a: seq<TreeNode>, b: seq<TreeNode>)
    ensures ForestSize(a + b) == ForestSize(a) + ForestSize(b)
    decreases |a|
  {
    if a == [] {
      assert a + b == b;
    } else {
      assert (a + b)[1..] == a[1..] + b;
      ForestSizeConcat(a[1..], b);
    }
  }

  lemma {:induction false} ForestSizeAtLeast(trees: seq<TreeNode>)
    ensures ForestSize(trees) >= |trees|
    decreases |trees|
  {
    if trees != [] { ForestSizeAtLeast(trees[1..]); }
  }

  lemma ForestSizeOne(tree: TreeNode)
    ensures ForestSize([tree]) == Size(tree)
  {
    assert [tree][1..] == [];
  }

  lemma ForestSizeSplit(trees: seq<TreeNode>, k: nat)
    requires k < |trees|
    ensures ForestSize(trees[..k + 1]) == ForestSize(trees[..k]) + Size(trees[k])
    ensures ForestSize(trees) >= ForestSize(trees[..k]) + Size(trees[k])
  {
    ForestSizeOne(trees[k]);
    hide ForestSize, Size;
    assert trees[..k + 1] == trees[..k] + [trees[k]];
    ForestSizeConcat(trees[..k], [trees[k]]);
    assert trees == trees[..k + 1] + trees[k + 1..];
    ForestSizeConcat(trees[..k + 1], trees[k + 1..]);
  }

  lemma NoTrees()
    ensures ForestSize([]) == 0
  {
  }

  lemma ChildrenAreCut(s: Sorting, n: Node, depth: nat)
    requires n.Dir? && depth > 0
    ensures var trees, entries := Cut(s, n, depth).children, s.sort(n.entries);
            |trees| == |entries| && forall k :: 0 <= k < |entries| ==> trees[k] == Cut(s, entries[k], depth - 1)
  {
  }

  // ----- The walk -----

  /** The node counter shared by the whole recursion. */
  class Counter {
    var used: nat

    constructor ()
      ensures used == 0
    {
      used := 0;
    }
  }

  class Service {
    const maxListEntries: nat
    const sorting: Sorting

    constructor (maxListEntries: nat, sorting: Sorting)
      ensures this.maxListEntries == maxListEntries && this.sorting == sorting
    {
      this.maxListEntries, this.sorting := maxListEntries, sorting;
    }

    method BumpTreeUsed(counter: Counter) returns (ok: bool)
      modifies counter
      ensures counter.used == old(counter.used) + 1
      ensures ok <==> counter.used <= maxListEntries
    {
      counter.used := counter.used + 1;
      ok := counter.used <= maxListEntries;
    }

    /** Builds the node of a file or of a directory whose children are still to
        be listed, and everything below it. */
    method BuildDirectoryTree(n: Node, depth: nat, counter: Counter) returns (tree: Option<TreeNode>)
      requires Sorts(sorting) && depth > 0
      modifies counter
      ensures tree.Some? <==>
                Opens(sorting, n, depth) && old(counter.used) + Size(Cut(sorting, n, depth)) <= maxListEntries
      ensures tree.Some? ==>
                tree.value == Cut(sorting, n, depth)
                && counter.used == old(counter.used) + Size(Cut(sorting, n, depth))
      decreases depth
    {
      hide ForestSize, Before, Sorts, CutAll;
      ghost var whole := Cut(sorting, n, depth);
      ghost var before := counter.used;
      NoTrees();
      var ok := BumpTreeUsed(counter);
      if !ok { return None; }
      if n.File? { return Some(TreeNode(n.name, false, [])); }
      if !n.readable { return None; }
      ghost var trees := whole.children;
      SortKeeps(sorting, n.entries);
      ChildrenAreCut(sorting, n, depth);
      ForestSizeAtLeast(trees);
      if |n.entries| > maxListEntries { return None; }
      var entries := sorting.sort(n.entries);
      var children: seq<TreeNode> := [];
      for k := 0 to |entries|
        invariant children == trees[..k]
        invariant counter.used == before + 1 + ForestSize(trees[..k]) <= maxListEntries
        invariant forall j :: 0 <= j < k ==> Opens(sorting, entries[j], depth - 1)
      {
        ForestSizeSplit(trees, k);
        var child := BuildChild(entries[k], depth, counter);
        if child.None? { return None; }
        children := children + [child.value];
        assert trees[..k + 1] == trees[..k] + [trees[k]];
      }
      assert trees[..|entries|] == trees;
      tree := Some(TreeNode(n.name, true, children));
    }

    /** A child directory at the depth limit is only named. */
    method BuildChild(e: Node, depth: nat, counter: Counter) returns (tree: Option<TreeNode>)
      requires Sorts(sorting) && depth > 0
      modifies counter
      ensures tree.Some? <==>
                Opens(sorting, e, depth - 1)
                && old(counter.used) + Size(Cut(sorting, e, depth - 1)) <= maxListEntries
      ensures tree.Some? ==>
                tree.value == Cut(sorting, e, depth - 1)
                && counter.used == old(counter.used) + Size(Cut(sorting, e, depth - 1))
      decreases depth, 0
    {
      if e.Dir? && depth > 1 {
        tree := BuildDirectoryTree(e, depth - 1, counter);
        return;
      }
      var ok := BumpTreeUsed(counter);
      if !ok { return None; }
      tree := Some(TreeNode(e.name, e.Dir?, []));
    }

    /** The whole call: checks the depth, starts a fresh count. */
    method DirectoryTree(root: Node, maxDepth: Option<int>) returns (tree: Option<TreeNode>)
      requires Sorts(sorting)
      ensures maxDepth.Some? && maxDepth.value < 1 ==> tree.None?
      ensures maxDepth.None? || maxDepth.value >= 1 ==>
                var depth := if maxDepth.None? then 20 else if maxDepth.value > 100 then 100 else maxDepth.value;
                && (tree.Some? <==>
                      root.Dir? && Opens(sorting, root, depth) && Size(Cut(sorting, root, depth)) <= maxListEntries)
                && (tree.Some? ==> tree.value == Cut(sorting, root, depth))
    {
      var depth: int := DEFAULT_MAX_DEPTH;
      if maxDepth.Some? {
        if maxDepth.value < 1 { return None; }
        depth := maxDepth.value;
      }
      if depth > MAX_DEPTH_HARD_CAP { depth := MAX_DEPTH_HARD_CAP; }
      if root.File? { return None; }
      var counter := new Counter();
      tree := BuildDirectoryTree(root, depth, counter);
    }
  }

  // ----- What the cut tree contains -----

  /** The file system has a node of this kind at this path below `n`. */
  ghost predicate HasPath(n: Node, path: seq<string>, isDirectory: bool)
    decreases |path|
  {
    if path == [] then n.Dir? == isDirectory
    else n.Dir? && exists e :: e in n.entries && e.name == path[0] && HasPath(e, path[1..], isDirectory)
  }

  ghost predicate Lists(t: TreeNode, path: seq<string>, isDirectory: bool)
    decreases |path|
  {
    if path == [] then t.isDirectory == isDirectory
    else exists c :: c in t.children && c.name == path[0] && Lists(c, path[1..], isDirectory)
  }

  lemma CutShape(s: Sorting, n: Node, depth: nat)
    ensures Cut(s, n, depth).name == n.name && Cut(s, n, depth).isDirectory == n.Dir?
  {
  }

  lemma ChildFrom(s: Sorting, n: Node, depth: nat, c: TreeNode) returns (e: Node)
    requires Sorts(s) && c in Cut(s, n, depth).children
    ensures n.Dir? && depth > 0 && e in n.entries && c == Cut(s, e, depth - 1)
  {
    SortKeeps(s, n.entries);
    var children := Cut(s, n, depth).children;
    var k :| 0 <= k < |children| && children[k] == c;
    e := s.sort(n.entries)[k];
  }

  lemma ChildOf(s: Sorting, n: Node, depth: nat, e: Node)
    requires Sorts(s) && n.Dir? && depth > 0 && e in n.entries
    ensures Cut(s, e, depth - 1) in Cut(s, n, depth).children
  {
    SortKeeps(s, n.entries);
    var sorted := s.sort(n.entries);
    assert e in sorted;
    var k :| 0 <= k < |sorted| && sorted[k] == e;
    assert Cut(s, n, depth).children[k] == Cut(s, e, depth - 1);
  }

  /** The cut tree lists exactly the paths of the file tree that are no longer
      than the depth, each as what it is. */
  lemma {:induction false} CutListsExactlyShortPaths(
    s: Sorting, n: Node, depth: nat, path: seq<string>, isDirectory: bool)
    requires Sorts(s)
    ensures Lists(Cut(s, n, depth), path, isDirectory) <==> |path| <= depth && HasPath(n, path, isDirectory)
    decreases |path|
  {
    hide Cut, CutAll, Sorts;
    CutShape(s, n, depth);
    if path != [] {
      if Lists(Cut(s, n, depth), path, isDirectory) {
        var c :| c in Cut(s, n, depth).children && c.name == path[0] && Lists(c, path[1..], isDirectory);
        var e := ChildFrom(s, n, depth, c);
        CutShape(s, e, depth - 1);
        CutListsExactlyShortPaths(s, e, depth - 1, path[1..], isDirectory);
      }
      if |path| <= depth && HasPath(n, path, isDirectory) {
        var e :| e in n.entries && e.name == path[0] && HasPath(e, path[1..], isDirectory);
        ChildOf(s, n, depth, e);
        CutShape(s, e, depth - 1);
        CutListsExactlyShortPaths(s, e, depth - 1, path[1..], isDirectory);
      }
    }
  }

  /** The file system has a directory at this path below `n` that cannot be
      read. */
  ghost predicate UnreadableAt(n: Node, path: seq<string>)
    decreases |path|
  {
    n.Dir? && if path == [] then !n.readable
              else exists e :: e in n.entries && e.name == path[0] && UnreadableAt(e, path[1..])
  }

  lemma {:induction false} OpenedIsReadable(s: Sorting, n: Node, depth: nat, path: seq<string>)
    requires Sorts(s) && Opens(s, n, depth) && |path| < depth
    ensures !UnreadableAt(n, path)
    decreases |path|
  {
    if path != [] && UnreadableAt(n, path) {
      SortKeeps(s, n.entries);
      var e :| e in n.entries && e.name == path[0] && UnreadableAt(e, path[1..]);
      assert e in s.sort(n.entries);
      var k :| 0 <= k < |s.sort(n.entries)| && s.sort(n.entries)[k] == e;
      OpenedIsReadable(s, e, depth - 1, path[1..]);
    }
  }

  lemma {:induction false} UnopenedIsFound(s: Sorting, n: Node, depth: nat) returns (path: seq<string>)
    requires Sorts(s) && !Opens(s, n, depth)
    ensures |path| < depth && UnreadableAt(n, path)
    decreases depth
  {
    path := [];
    if n.readable {
      SortKeeps(s, n.entries);
      var k :| 0 <= k < |s.sort(n.entries)| && !Opens(s, s.sort(n.entries)[k], depth - 1);
      var e := s.sort(n.entries)[k];
      assert e in s.sort(n.entries);
      var rest := UnopenedIsFound(s, e, depth - 1);
      path := [e.name] + rest;
      assert path[0] == e.name && path[1..] == rest;
    }
  }

  /** The walk gets through exactly if no directory above the depth limit is
      unreadable; what lies at the limit is not opened. */
  lemma OpensMeans(s: Sorting, n: Node, depth: nat)
    requires Sorts(s)
    ensures Opens(s, n, depth) <==> forall path: seq<string> :: |path| < depth ==> !UnreadableAt(n, path)
  {
    hide Opens, Sorts, UnreadableAt;
    if Opens(s, n, depth) {
      forall path: seq<string> | |path| < depth ensures !UnreadableAt(n, path) {
        OpenedIsReadable(s, n, depth, path);
      }
    } else {
      var path := UnopenedIsFound(s, n, depth);
    }
  }

  ghost predicate TreeInOrder(s: Sorting, t: TreeNode) {
    && (forall i, j :: 0 <= i < j < |t.children| ==>
          !Before(s.lower(t.children[j].name), s.lower(t.children[i].name)))
    && forall k :: 0 <= k < |t.children| ==> TreeInOrder(s, t.children[k])
  }

  lemma ChildrenInOrder(s: Sorting, n: Node, depth: nat)
    requires Sorts(s)
    ensures var children := Cut(s, n, depth).children;
            forall i, j :: 0 <= i < j < |children| ==> !Before(s.lower(children[j].name), s.lower(children[i].name))
  {
    hide Before;
    if n.Dir? && depth > 0 {
      var entries, children := s.sort(n.entries), Cut(s, n, depth).children;
      assert NodesInOrder(s, entries);
      forall k | 0 <= k < |children| ensures children[k].name == entries[k].name {
        CutShape(s, entries[k], depth - 1);
      }
    }
  }

  /** Children are in order of their lower-cased names at every level. */
  lemma {:induction false} CutIsInOrder(s: Sorting, n: Node, depth: nat)
    requires Sorts(s)
    ensures TreeInOrder(s, Cut(s, n, depth))
    decreases depth
  {
    hide Cut, CutAll, Sorts, Before;
    ChildrenInOrder(s, n, depth);
    var children := Cut(s, n, depth).children;
    forall k | 0 <= k < |children| ensures TreeInOrder(s, children[k]) {
      var e := ChildFrom(s, n, depth, children[k]);
      CutIsInOrder(s, e, depth - 1);
    }
  }
}
