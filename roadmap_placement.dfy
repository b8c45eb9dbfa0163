/** Where `buildTree` puts each row: initiatives are the roots at depth 0; an epic sits at
    depth 1 under the initiative its parent names, or among the extras; a feature sits at depth
    2 under the epic its parent names, at depth 1 under the initiative it names, or among the
    extras at depth 2. The roots come first, and every sibling list is sorted by score. */
module RoadmapPlacement {
  import opened Wrappers
  import opened Collections
  import opened Schema
  import opened Justification
  import opened RoadmapTree
  import opened RoadmapBuild

  /** A feature's node: childless, at depth `d`. */
  predicate FeatureLeaf(n: TreeNode, d: nat) {
    n.item.itemType == "feature" && n.children == [] && n.depth == d
  }

  /** An epic's node: depth 1, each child a depth-2 feature whose parent is the epic. */
  predicate EpicPlaced(n: TreeNode) {
    && n.item.itemType == "epic" && n.depth == 1
    && forall c | c in n.children :: FeatureLeaf(c, 2) && ParentIs(c.item, n.item.id)
  }

  /** An initiative's node: depth 0; each child is an epic whose parent is the initiative, or a
      depth-1 feature whose parent is the initiative and names no epic. */
  predicate RootPlaced(items: seq<RoadmapItem>, n: TreeNode) {
    && n.item.itemType == "initiative" && n.depth == 0
    && forall c | c in n.children ::
         ParentIs(c.item, n.item.id) &&
         (EpicPlaced(c) || (FeatureLeaf(c, 1) && !ParentIn(c.item, TypeIds(items, "epic"))))
  }

  /** A top-level extra: an epic whose parent names no initiative, or a depth-2 feature whose
      parent names neither an epic nor an initiative. */
  predicate ExtraPlaced(items: seq<RoadmapItem>, n: TreeNode) {
    || (EpicPlaced(n) && !ParentIn(n.item, TypeIds(items, "initiative")))
    || (FeatureLeaf(n, 2) && !ParentIn(n.item, TypeIds(items, "epic"))
          && !ParentIn(n.item, TypeIds(items, "initiative")))
  }

  // ─── Before sorting ──────────────────────────────────────

  lemma EpicTreePlaced(items: seq<RoadmapItem>, e: RoadmapItem)
    requires e.itemType == "epic"
    ensures EpicPlaced(EpicTree(items, e))
  {
    var fs := FeaturesOf(items, e.id);
    var n := EpicTree(items, e);
    forall c | c in n.children ensures FeatureLeaf(c, 2) && ParentIs(c.item, e.id) {
      var k :| 0 <= k < |n.children| && n.children[k] == c;
      assert c.item == fs[k] && fs[k] in fs;
    }
  }

  lemma InitiativeTreePlaced(items: seq<RoadmapItem>, i: RoadmapItem)
    requires i.itemType == "initiative"
    ensures RootPlaced(items, InitiativeTree(items, i))
  {
    var es := EpicsOf(items, i.id);
    var ls := LegacyFeaturesOf(items, i.id);
    var n := InitiativeTree(items, i);
    var et := EpicTrees(items, es);
    var lt := Leaves(ls, 1);
    forall c | c in n.children
      ensures ParentIs(c.item, i.id)
      ensures EpicPlaced(c) || (FeatureLeaf(c, 1) && !ParentIn(c.item, TypeIds(items, "epic")))
    {
      if c in et {
        var k :| 0 <= k < |et| && et[k] == c;
        assert es[k] in es;
        EpicTreePlaced(items, es[k]);
      } else {
        assert c in lt;
        var k :| 0 <= k < |lt| && lt[k] == c;
        assert ls[k] in ls;
      }
    }
  }

  lemma RootsPlaced(items: seq<RoadmapItem>)
    ensures forall r | r in Roots(items) :: RootPlaced(items, r)
  {
    var inits := Initiatives(items);
    forall r | r in Roots(items) ensures RootPlaced(items, r) {
      var k :| 0 <= k < |inits| && Roots(items)[k] == r;
      assert inits[k] in inits;
      InitiativeTreePlaced(items, inits[k]);
    }
  }

  lemma ExtrasPlaced(items: seq<RoadmapItem>)
    ensures forall n | n in Extras(items) :: ExtraPlaced(items, n)
  {
    var es := LooseEpics(items);
    var fs := LooseFeatures(items);
    var et := EpicTrees(items, es);
    var ft := Leaves(fs, 2);
    forall n | n in Extras(items) ensures ExtraPlaced(items, n) {
      if n in et {
        var k :| 0 <= k < |et| && et[k] == n;
        assert es[k] in es;
        EpicTreePlaced(items, es[k]);
      } else {
        assert n in ft;
        var k :| 0 <= k < |ft| && ft[k] == n;
        assert fs[k] in fs;
      }
    }
  }

  // ─── Sorting keeps the placement ─────────────────────────

  lemma SortLeaf(c: TreeNode, d: nat)
    requires FeatureLeaf(c, d)
    ensures SortTree(c) == c
  {
    SortForestAt(c.children);
  }

  lemma SortEpicPlaced(t: TreeNode)
    requires EpicPlaced(t)
    ensures EpicPlaced(SortTree(t))
  {
    SortForestMembers(t.children);
    forall u | u in SortTree(t).children ensures FeatureLeaf(u, 2) && ParentIs(u.item, t.item.id) {
      var c :| c in t.children && u == SortTree(c);
      SortLeaf(c, 2);
    }
  }

  lemma SortRootPlaced(items: seq<RoadmapItem>, t: TreeNode)
    requires RootPlaced(items, t)
    ensures RootPlaced(items, SortTree(t))
  {
    SortForestMembers(t.children);
    forall u | u in SortTree(t).children
      ensures ParentIs(u.item, t.item.id)
      ensures EpicPlaced(u) || (FeatureLeaf(u, 1) && !ParentIn(u.item, TypeIds(items, "epic")))
    {
      var c :| c in t.children && u == SortTree(c);
      if EpicPlaced(c) {
        SortEpicPlaced(c);
      } else {
        SortLeaf(c, 1);
      }
    }
  }

  lemma SortExtraPlaced(items: seq<RoadmapItem>, t: TreeNode)
    requires ExtraPlaced(items, t)
    ensures ExtraPlaced(items, SortTree(t))
  {
    if EpicPlaced(t) && !ParentIn(t.item, TypeIds(items, "initiative")) {
      SortEpicPlaced(t);
    } else {
      SortLeaf(t, 2);
    }
  }

  // ─── The forest ──────────────────────────────────────────

  lemma SortedRootsPlaced(items: seq<RoadmapItem>)
    ensures forall n | n in SortForest(Roots(items)) :: RootPlaced(items, n)
  {
    RootsPlaced(items);
    SortForestMembers(Roots(items));
    forall n | n in SortForest(Roots(items)) ensures RootPlaced(items, n) {
      var r :| r in Roots(items) && n == SortTree(r);
      SortRootPlaced(items, r);
    }
  }

  lemma SortedExtrasPlaced(items: seq<RoadmapItem>)
    ensures forall n | n in SortForest(Extras(items)) :: ExtraPlaced(items, n)
  {
    ExtrasPlaced(items);
    SortForestMembers(Extras(items));
    forall n | n in SortForest(Extras(items)) ensures ExtraPlaced(items, n) {
      var r :| r in Extras(items) && n == SortTree(r);
      SortExtraPlaced(items, r);
    }
  }

  /** The forest splits after the roots: the sorted roots, then the sorted extras. */
  lemma TreeParts(items: seq<RoadmapItem>)
    ensures var t, m := Tree(items), |Initiatives(items)|;
      m <= |t| && t[..m] == SortForest(Roots(items)) && t[m..] == SortForest(Extras(items))
  {
    SortForestAt(Roots(items));
  }

  /** The first `|Initiatives(items)|` nodes of `buildTree`'s forest are the initiatives,
      placed as above, and every later node is an extra. */
  lemma TreePlacement(items: seq<RoadmapItem>)
    ensures var t, m := Tree(items), |Initiatives(items)|;
      && m <= |t|
      && (forall k | 0 <= k < m :: RootPlaced(items, t[k]))
      && (forall k | m <= k < |t| :: ExtraPlaced(items, t[k]))
  {
    TreeParts(items);
    SortedRootsPlaced(items);
    SortedExtrasPlaced(items);
    PrefixRootsPlaced(items, Tree(items), |Initiatives(items)|, SortForest(Roots(items)));
    SuffixExtrasPlaced(items, Tree(items), |Initiatives(items)|, SortForest(Extras(items)));
  }

  lemma PrefixRootsPlaced(items: seq<RoadmapItem>, t: seq<TreeNode>, m: nat, a: seq<TreeNode>)
    requires m <= |t| && t[..m] == a && forall n | n in a :: RootPlaced(items, n)
    ensures forall k | 0 <= k < m :: RootPlaced(items, t[k])
  {
    forall k | 0 <= k < m ensures RootPlaced(items, t[k]) {
      assert t[k] == a[k] && a[k] in a;
    }
  }

  lemma SuffixExtrasPlaced(items: seq<RoadmapItem>, t: seq<TreeNode>, m: nat, a: seq<TreeNode>)
    requires m <= |t| && t[m..] == a && forall n | n in a :: ExtraPlaced(items, n)
    ensures forall k | m <= k < |t| :: ExtraPlaced(items, t[k])
  {
    forall k | m <= k < |t| ensures ExtraPlaced(items, t[k]) {
      assert t[k] == a[k - m] && a[k - m] in a;
    }
  }

  /** Among the roots, and among the extras, every sibling list at every level is ordered by
      score with a missing score counted as zero. */
  lemma TreeSortedByScore(items: seq<RoadmapItem>)
    ensures var t, m := Tree(items), |Initiatives(items)|;
      m <= |t| && ForestSorted(t[..m]) && ForestSorted(t[m..])
  {
    TreeParts(items);
    SortForestSorted(Roots(items));
    SortForestSorted(Extras(items));
  }

  /** Hence the roots come before every extra: no extra is an initiative. */
  lemma InitiativesFirst(items: seq<RoadmapItem>)
    ensures var t, m := Tree(items), |Initiatives(items)|;
      && m <= |t|
      && (forall k | 0 <= k < |t| :: t[k].item.itemType == "initiative" <==> k < m)
  {
    TreePlacement(items);
  }
}
