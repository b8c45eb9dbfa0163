/** The roadmap table's tree: a node holds an item, its child nodes and its indentation
    depth. Sibling lists are ordered by score, highest first, with a missing score counted as
    zero; the order among equal scores is the order the lists were built in. */
module RoadmapTree {
  import opened Wrappers
  import opened Collections
  import opened Schema

  datatype TreeNode = TreeNode(item: RoadmapItem, children: seq<TreeNode>, depth: nat)

  // ─── The items a tree holds ──────────────────────────────

  /** The items of a tree, the node first, then its children's, in order. */
  function TreeItems(t: TreeNode): seq<RoadmapItem>
    decreases t, 1
  {
    [t.item] + ForestItems(t.children)
  }

  /** The items of a list of trees, tree after tree. */
  function ForestItems(ns: seq<TreeNode>): seq<RoadmapItem>
    decreases ns, 0
  {
    if ns == [] then [] else ForestItems(ns[..|ns| - 1]) + TreeItems(ns[|ns| - 1])
  }

  lemma {:induction false} ForestItemsAppend(a: seq<TreeNode>, b: seq<TreeNode>)
    ensures ForestItems(a + b) == ForestItems(a) + ForestItems(b)
    decreases |b|
  {
    if b == [] {
      assert a + b == a;
    } else {
      var b' := b[..|b| - 1];
      assert (a + b)[..|a + b| - 1] == a + b';
      ForestItemsAppend(a, b');
    }
  }

  // ─── Ordering by score ───────────────────────────────────

  /** The sort key: the item's score, a missing score counting as zero. */
  function ScoreKey(n: TreeNode): int {
    n.item.score.GetOr(0)
  }

  predicate SortedByScore(ns: seq<TreeNode>) {
    forall i, j | 0 <= i < j < |ns| :: ScoreKey(ns[i]) >= ScoreKey(ns[j])
  }

  /** Place `x` after every node of the sorted list whose key is at least its own. */
  function InsertByScore(r: seq<TreeNode>, x: TreeNode): seq<TreeNode>
    decreases |r|
  {
    if r == [] || ScoreKey(r[|r| - 1]) >= ScoreKey(x) then r + [x]
    else InsertByScore(r[..|r| - 1], x) + [r[|r| - 1]]
  }

  /** Sorting siblings by score, a missing score counting as zero, highest first. The
      comparator orders by that key and the sort the language provides is stable. */
  function SortByScore(ns: seq<TreeNode>): seq<TreeNode>
    decreases |ns|
  {
    if ns == [] then [] else InsertByScore(SortByScore(ns[..|ns| - 1]), ns[|ns| - 1])
  }

  /** The nodes whose key is `k`, in order. */
  function WithKey(ns: seq<TreeNode>, k: int): seq<TreeNode>
    decreases |ns|
  {
    if ns == [] then []
    else WithKey(ns[..|ns| - 1], k) + (if ScoreKey(ns[|ns| - 1]) == k then [ns[|ns| - 1]] else [])
  }

  lemma WithKeySnoc(ns: seq<TreeNode>, x: TreeNode, k: int)
    ensures WithKey(ns + [x], k) == WithKey(ns, k) + (if ScoreKey(x) == k then [x] else [])
  {
    assert (ns + [x])[..|ns|] == ns;
  }

  lemma {:induction false} InsertByScoreKeeps(r: seq<TreeNode>, x: TreeNode)
    ensures multiset(InsertByScore(r, x)) == multiset(r) + multiset{x}
    decreases |r|
  {
    if !(r == [] || ScoreKey(r[|r| - 1]) >= ScoreKey(x)) {
      var init := r[..|r| - 1];
      assert r == init + [r[|r| - 1]];
      InsertByScoreKeeps(init, x);
    }
  }

  lemma {:induction false} InsertByScoreSorted(r: seq<TreeNode>, x: TreeNode)
    requires SortedByScore(r)
    ensures SortedByScore(InsertByScore(r, x))
    decreases |r|
  {
    if r == [] || ScoreKey(r[|r| - 1]) >= ScoreKey(x) {
      SortedSnoc(r, x);
    } else {
      var init := r[..|r| - 1];
      var last := r[|r| - 1];
      InsertByScoreSorted(init, x);
      InsertByScoreKeeps(init, x);
      var m := InsertByScore(init, x);
      forall y | y in m ensures ScoreKey(y) >= ScoreKey(last) {
        assert y in multiset(m);
        if y != x {
          assert y in init;
        }
      }
      SortedSnoc(m, last);
    }
  }

  /** A sorted list stays sorted when extended by a node no larger than any in it. */
  lemma SortedSnoc(r: seq<TreeNode>, x: TreeNode)
    requires SortedByScore(r) && forall y | y in r :: ScoreKey(y) >= ScoreKey(x)
    ensures SortedByScore(r + [x])
  {
    var r' := r + [x];
    forall i, j | 0 <= i < j < |r'| ensures ScoreKey(r'[i]) >= ScoreKey(r'[j]) {
      assert r'[i] == r[i];
      if j < |r| {
        assert r'[j] == r[j];
      }
    }
  }

  lemma {:induction false} InsertByScoreStable(r: seq<TreeNode>, x: TreeNode, k: int)
    ensures WithKey(InsertByScore(r, x), k) == WithKey(r, k) + (if ScoreKey(x) == k then [x] else [])
    decreases |r|
  {
    if r == [] || ScoreKey(r[|r| - 1]) >= ScoreKey(x) {
      WithKeySnoc(r, x, k);
    } else {
      var init := r[..|r| - 1];
      var last := r[|r| - 1];
      var xs: seq<TreeNode> := if ScoreKey(x) == k then [x] else [];
      var ls: seq<TreeNode> := if ScoreKey(last) == k then [last] else [];
      assert InsertByScore(r, x) == InsertByScore(init, x) + [last];
      InsertByScoreStable(init, x, k);
      WithKeySnoc(InsertByScore(init, x), last, k);
      var w := WithKey(init, k);
      assert WithKey(InsertByScore(r, x), k) == w + xs + ls;
      assert WithKey(r, k) == w + ls;
      if ls == [] {
        assert w + ls == w && w + xs + ls == w + xs;
      } else {
        assert xs == [];
        assert w + xs == w;
      }
    }
  }

  /** The sort orders by key, keeps every node, and keeps the order of nodes with equal keys. */
  lemma {:induction false} SortByScoreSound(ns: seq<TreeNode>)
    ensures SortedByScore(SortByScore(ns))
    ensures multiset(SortByScore(ns)) == multiset(ns)
    ensures forall k ::
      WithKey(SortByScore(ns), k) == WithKey(ns, k)
    decreases |ns|
  {
    if ns != [] {
      var init := ns[..|ns| - 1];
      var last := ns[|ns| - 1];
      assert ns == init + [last];
      SortByScoreSound(init);
      InsertByScoreSorted(SortByScore(init), last);
      InsertByScoreKeeps(SortByScore(init), last);
      forall k ensures WithKey(SortByScore(ns), k) == WithKey(ns, k) {
        InsertByScoreStable(SortByScore(init), last, k);
      }
    }
  }

  lemma ForestItemsSnoc(ns: seq<TreeNode>, x: TreeNode)
    ensures ForestItems(ns + [x]) == ForestItems(ns) + TreeItems(x)
  {
    assert (ns + [x])[..|ns|] == ns;
  }

  /** The items of the sorted list are the items of the list, counted with multiplicity. */
  lemma {:induction false} InsertByScoreItems(r: seq<TreeNode>, x: TreeNode)
    ensures multiset(ForestItems(InsertByScore(r, x))) == multiset(ForestItems(r)) + multiset(TreeItems(x))
    decreases |r|
  {
    if r == [] || ScoreKey(r[|r| - 1]) >= ScoreKey(x) {
      ForestItemsSnoc(r, x);
    } else {
      var init := r[..|r| - 1];
      var last := r[|r| - 1];
      var m := InsertByScore(init, x);
      assert InsertByScore(r, x) == m + [last];
      assert r == init + [last];
      InsertByScoreItems(init, x);
      ForestItemsSnoc(m, last);
      ForestItemsSnoc(init, last);
      calc {
        multiset(ForestItems(m + [last]));
        multiset(ForestItems(m)) + multiset(TreeItems(last));
        multiset(ForestItems(init)) + multiset(TreeItems(x)) + multiset(TreeItems(last));
        multiset(ForestItems(init + [last])) + multiset(TreeItems(x));
      }
    }
  }

  lemma {:induction false} SortByScoreItems(ns: seq<TreeNode>)
    ensures multiset(ForestItems(SortByScore(ns))) == multiset(ForestItems(ns))
    decreases |ns|
  {
    if ns != [] {
      var init := ns[..|ns| - 1];
      SortByScoreItems(init);
      InsertByScoreItems(SortByScore(init), ns[|ns| - 1]);
    }
  }

  // ─── sortChildren ────────────────────────────────────────

  /** `sortChildren(nodes)`: sort the list, then each node's children, all the way down. */
  function SortForest(ns: seq<TreeNode>): (r: seq<TreeNode>)
    decreases ns, 0
  {
    var sorted := SortByScore(ns);
    SortByScoreSound(ns);
    seq(|sorted|, i requires 0 <= i < |sorted| => assert sorted[i] in multiset(ns); SortTree(sorted[i]))
  }

  function SortTree(t: TreeNode): TreeNode
    decreases t, 1
  {
    TreeNode(t.item, SortForest(t.children), t.depth)
  }

  /** Every sibling list, at every level, is ordered by score. */
  predicate TreeSorted(t: TreeNode)
    decreases t, 1
  {
    ForestSorted(t.children)
  }

  predicate ForestSorted(ns: seq<TreeNode>)
    decreases ns, 0
  {
    SortedByScore(ns) && forall i | 0 <= i < |ns| :: TreeSorted(ns[i])
  }

  /** Lists whose trees hold the same items, tree by tree, hold the same items. */
  lemma {:induction false} ForestItemsPointwise(a: seq<TreeNode>, b: seq<TreeNode>)
    requires |a| == |b| && forall i | 0 <= i < |a| :: multiset(TreeItems(a[i])) == multiset(TreeItems(b[i]))
    ensures multiset(ForestItems(a)) == multiset(ForestItems(b))
    decreases |a|
  {
    if a != [] {
      ForestItemsPointwise(a[..|a| - 1], b[..|b| - 1]);
    }
  }

  /** Node `i` of the sorted list is node `i` of the score order, its subtree sorted. */
  lemma SortForestAt(ns: seq<TreeNode>)
    ensures |SortForest(ns)| == |SortByScore(ns)| == |ns|
    ensures forall i | 0 <= i < |ns| ::
      SortByScore(ns)[i] in ns && SortForest(ns)[i] == SortTree(SortByScore(ns)[i])
  {
    SortByScoreSound(ns);
    var sorted := SortByScore(ns);
    assert |multiset(sorted)| == |multiset(ns)|;
    forall i | 0 <= i < |ns| ensures sorted[i] in ns {
      assert sorted[i] in multiset(ns);
    }
  }

  /** `sortChildren` orders every sibling list by score, all the way down. */
  lemma {:induction false} SortForestSorted(ns: seq<TreeNode>)
    ensures ForestSorted(SortForest(ns))
    decreases ns, 0
  {
    SortForestAt(ns);
    SortByScoreSound(ns);
    var sorted := SortByScore(ns);
    var r := SortForest(ns);
    forall i | 0 <= i < |r| ensures TreeSorted(r[i]) {
      SortTreeSorted(sorted[i]);
    }
    forall i, j | 0 <= i < j < |r| ensures ScoreKey(r[i]) >= ScoreKey(r[j]) {
      assert ScoreKey(r[i]) == ScoreKey(sorted[i]);
      assert ScoreKey(r[j]) == ScoreKey(sorted[j]);
    }
  }

  lemma {:induction false} SortTreeSorted(t: TreeNode)
    ensures TreeSorted(SortTree(t))
    decreases t, 1
  {
    SortForestSorted(t.children);
  }

  /** `sortChildren` keeps every item of the tree, counted with multiplicity. */
  lemma {:induction false} SortForestItems(ns: seq<TreeNode>)
    ensures multiset(ForestItems(SortForest(ns))) == multiset(ForestItems(ns))
    decreases ns, 0
  {
    SortForestAt(ns);
    SortByScoreItems(ns);
    var sorted := SortByScore(ns);
    var r := SortForest(ns);
    forall i | 0 <= i < |r| ensures multiset(TreeItems(r[i])) == multiset(TreeItems(sorted[i])) {
      SortTreeItems(sorted[i]);
    }
    ForestItemsPointwise(r, sorted);
  }

  lemma {:induction false} SortTreeItems(t: TreeNode)
    ensures multiset(TreeItems(SortTree(t))) == multiset(TreeItems(t))
    decreases t, 1
  {
    SortForestItems(t.children);
  }

  /** The sorted list holds exactly the sorted trees of the list. */
  lemma SortForestMembers(ns: seq<TreeNode>)
    ensures forall t | t in ns :: SortTree(t) in SortForest(ns)
    ensures forall u | u in SortForest(ns) :: exists t | t in ns :: u == SortTree(t)
  {
    SortForestAt(ns);
    SortByScoreSound(ns);
    var sorted := SortByScore(ns);
    var r := SortForest(ns);
    forall t | t in ns ensures SortTree(t) in r {
      assert t in multiset(sorted);
      var i :| 0 <= i < |sorted| && sorted[i] == t;
      assert r[i] == SortTree(t);
    }
  }
}
