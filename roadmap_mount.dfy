/** The roadmap table as it mounts: with initiatives and epics expanded and the tab "all", it
    shows the whole forest in preorder, so every initiative, epic and feature is one row. */
module RoadmapMount {
  import opened Wrappers
  import opened Schema
  import opened RoadmapTree
  import opened RoadmapBuild
  import opened RoadmapCounts
  import opened RoadmapPlacement
  import opened RoadmapView

  lemma LeafExpanded(n: TreeNode, d: nat, expanded: set<Id>)
    requires FeatureLeaf(n, d)
    ensures NodeExpanded(n, expanded)
  {
  }

  lemma EpicExpanded(n: TreeNode, expanded: set<Id>)
    requires EpicPlaced(n) && n.item.id in expanded
    ensures NodeExpanded(n, expanded)
  {
    forall k | 0 <= k < |n.children| ensures NodeExpanded(n.children[k], expanded) {
      assert n.children[k] in n.children;
      LeafExpanded(n.children[k], 2, expanded);
    }
  }

  /** The item of a node, and of each child of it, is among the items of a forest holding it. */
  lemma ItemsOfNode(ns: seq<TreeNode>, n: TreeNode)
    requires n in ns
    ensures n.item in ForestItems(ns)
    ensures forall c | c in n.children :: c.item in ForestItems(ns)
  {
    ForestItemsMember(ns, n.item);
    forall c | c in n.children ensures c.item in ForestItems(ns) {
      ForestItemsMember(n.children, c.item);
      ForestItemsMember(ns, c.item);
    }
  }

  lemma TreeNodesExpanded(items: seq<RoadmapItem>)
    requires DistinctIds(items)
    ensures ParentsExpanded(Tree(items), InitiallyExpanded(items))
  {
    var t, m, ex := Tree(items), |Initiatives(items)|, InitiallyExpanded(items);
    TreePlacement(items);
    TreeHoldsEachItemOnce(items);
    forall k | 0 <= k < |t| ensures NodeExpanded(t[k], ex) {
      var n := t[k];
      assert n in t;
      ItemsOfNode(t, n);
      assert multiset(ForestItems(t))[n.item] > 0;
      if k < m {
        assert RootPlaced(items, n);
        forall j | 0 <= j < |n.children| ensures NodeExpanded(n.children[j], ex) {
          var c := n.children[j];
          assert c in n.children;
          assert multiset(ForestItems(t))[c.item] > 0;
          if EpicPlaced(c) {
            EpicExpanded(c, ex);
          } else {
            LeafExpanded(c, 1, ex);
          }
        }
      } else {
        assert ExtraPlaced(items, n);
        if EpicPlaced(n) {
          EpicExpanded(n, ex);
        } else {
          LeafExpanded(n, 2, ex);
        }
      }
    }
  }

  /** On mount the rows are the preorder walk of `buildTree`'s forest, and each initiative,
      epic and feature is exactly one row. */
  lemma MountShowsEveryItemOnce(items: seq<RoadmapItem>)
    requires DistinctIds(items)
    ensures RowItems(Rows(Tree(items), InitiallyExpanded(items), "all")) == ForestItems(Tree(items))
    ensures forall x ::
      multiset(RowItems(Rows(Tree(items), InitiallyExpanded(items), "all")))[x] ==
        if x in items && KnownType(x.itemType) then 1 else 0
  {
    TreeNodesExpanded(items);
    RowsExpandedIsPreorder(Tree(items), InitiallyExpanded(items));
    TreeHoldsEachItemOnce(items);
  }
}
