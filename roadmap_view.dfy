/** What the roadmap table shows of the forest: the rows `flattenTree` emits for the expanded
    set and the status tab, the set of expanded nodes, and the status actions of a row's
    menu. */
module RoadmapView {
  import opened Wrappers
  import opened Collections
  import opened Schema
  import opened RoadmapTree
  import opened RoadmapBuild

  // ─── hasMatchingDescendant ───────────────────────────────

  /** `hasMatchingDescendant(node, status)`: the node or one below it has the status. */
  predicate HasMatchingDescendant(t: TreeNode, status: string)
    decreases t
  {
    t.item.status == status || exists c | c in t.children :: HasMatchingDescendant(c, status)
  }

  lemma {:induction false} ForestItemsMember(ns: seq<TreeNode>, x: RoadmapItem)
    ensures x in ForestItems(ns) <==> exists c | c in ns :: x in TreeItems(c)
    decreases |ns|
  {
    if ns != [] {
      var init, last := ns[..|ns| - 1], ns[|ns| - 1];
      ForestItemsMember(init, x);
      assert ns == init + [last];
      assert ForestItems(ns) == ForestItems(init) + TreeItems(last);
      if x in ForestItems(init) {
        var c :| c in init && x in TreeItems(c);
        assert c in ns;
      }
      if c :| c in ns && x in TreeItems(c) {
        if c != last {
          assert c in init;
        }
      }
    }
  }

  /** A node has a matching descendant exactly when one of the items of its subtree, itself
      included, has the status. */
  lemma {:induction false} MatchingDescendantIsItem(t: TreeNode, status: string)
    ensures HasMatchingDescendant(t, status) <==> exists x | x in TreeItems(t) :: x.status == status
    decreases t
  {
    forall x | x in ForestItems(t.children) ensures exists c | c in t.children :: x in TreeItems(c) {
      ForestItemsMember(t.children, x);
    }
    forall c | c in t.children
      ensures HasMatchingDescendant(c, status) <==> exists x | x in TreeItems(c) :: x.status == status
    {
      MatchingDescendantIsItem(c, status);
    }
    forall c, x | c in t.children && x in TreeItems(c) ensures x in TreeItems(t) {
      ForestItemsMember(t.children, x);
    }
  }

  // ─── flattenTree ─────────────────────────────────────────

  /** The rows one node contributes: nothing when a status tab is chosen and nothing in its
      subtree has that status; otherwise the node, then, when it is expanded and has children,
      the rows of its children. */
  function NodeRows(t: TreeNode, expanded: set<Id>, statusFilter: string): seq<TreeNode>
    decreases t, 1
  {
    if statusFilter != "all" && !HasMatchingDescendant(t, statusFilter) then []
    else [t] + (if t.item.id in expanded && |t.children| > 0 then Rows(t.children, expanded, statusFilter) else [])
  }

  /** `flattenTree(nodes, expanded, statusFilter)`: the rows of each node, in order. */
  function Rows(ns: seq<TreeNode>, expanded: set<Id>, statusFilter: string): seq<TreeNode>
    decreases ns, 0
  {
    if ns == [] then [] else Rows(ns[..|ns| - 1], expanded, statusFilter) + NodeRows(ns[|ns| - 1], expanded, statusFilter)
  }

  lemma RowsSnoc(ns: seq<TreeNode>, i: nat, expanded: set<Id>, statusFilter: string)
    requires i < |ns|
    ensures Rows(ns[..i + 1], expanded, statusFilter) == Rows(ns[..i], expanded, statusFilter) + NodeRows(ns[i], expanded, statusFilter)
  {
    assert ns[..i + 1][..i] == ns[..i];
  }

  /** `flattenTree`: one pass over the nodes, recursing into each expanded node that has
      children. */
  method FlattenTree(nodes: seq<TreeNode>, expanded: set<Id>, statusFilter: string) returns (result: seq<TreeNode>)
    ensures result == Rows(nodes, expanded, statusFilter)
    decreases nodes
  {
    result := [];
    for i := 0 to |nodes|
      invariant result == Rows(nodes[..i], expanded, statusFilter)
    {
      var node := nodes[i];
      RowsSnoc(nodes, i, expanded, statusFilter);
      if statusFilter != "all" && !HasMatchingDescendant(node, statusFilter) {
        continue;
      }
      result := result + [node];
      if node.item.id in expanded && |node.children| > 0 {
        var below := FlattenTree(node.children, expanded, statusFilter);
        result := result + below;
      }
    }
    assert nodes[..|nodes|] == nodes;
  }

  /** With nothing expanded and no status tab, the rows are the top-level nodes. */
  lemma {:induction false} RowsCollapsed(ns: seq<TreeNode>)
    ensures Rows(ns, {}, "all") == ns
    decreases |ns|
  {
    if ns != [] {
      RowsCollapsed(ns[..|ns| - 1]);
      assert ns == ns[..|ns| - 1] + [ns[|ns| - 1]];
    }
  }

  /** The items of the rows, in order. */
  function RowItems(rs: seq<TreeNode>): (r: seq<RoadmapItem>)
    ensures |r| == |rs| && forall k | 0 <= k < |rs| :: r[k] == rs[k].item
  {
    seq(|rs|, k requires 0 <= k < |rs| => rs[k].item)
  }

  /** Every node that has children, at every level, is expanded. */
  predicate ParentsExpanded(ns: seq<TreeNode>, expanded: set<Id>)
    decreases ns, 0
  {
    forall k | 0 <= k < |ns| :: NodeExpanded(ns[k], expanded)
  }

  predicate NodeExpanded(t: TreeNode, expanded: set<Id>)
    decreases t, 1
  {
    (|t.children| > 0 ==> t.item.id in expanded) && ParentsExpanded(t.children, expanded)
  }

  /** With every node that has children expanded and the tab "all", the rows are the preorder
      walk of the forest: each node before its children, siblings in order. */
  lemma {:induction false} RowsExpandedIsPreorder(ns: seq<TreeNode>, expanded: set<Id>)
    requires ParentsExpanded(ns, expanded)
    ensures RowItems(Rows(ns, expanded, "all")) == ForestItems(ns)
    decreases ns, 0
  {
    if ns != [] {
      var init, t := ns[..|ns| - 1], ns[|ns| - 1];
      assert ForestItems(ns) == ForestItems(init) + TreeItems(t);
      assert ParentsExpanded(init, expanded) by {
        forall k | 0 <= k < |init| ensures NodeExpanded(init[k], expanded) {
          assert init[k] == ns[k];
        }
      }
      RowsExpandedIsPreorder(init, expanded);
      NodeRowsExpandedIsPreorder(t, expanded);
      assert Rows(ns, expanded, "all") == Rows(init, expanded, "all") + NodeRows(t, expanded, "all");
      RowItemsAppend(Rows(init, expanded, "all"), NodeRows(t, expanded, "all"));
    }
  }

  lemma RowItemsAppend(a: seq<TreeNode>, b: seq<TreeNode>)
    ensures RowItems(a + b) == RowItems(a) + RowItems(b)
  {
  }

  lemma {:induction false} NodeRowsExpandedIsPreorder(t: TreeNode, expanded: set<Id>)
    requires NodeExpanded(t, expanded)
    ensures RowItems(NodeRows(t, expanded, "all")) == TreeItems(t)
    decreases t, 1
  {
    if |t.children| > 0 {
      RowsExpandedIsPreorder(t.children, expanded);
      assert RowItems(NodeRows(t, expanded, "all")) == [t.item] + RowItems(Rows(t.children, expanded, "all"));
    } else {
      assert ForestItems(t.children) == [];
    }
  }

  /** Rows are kept in order: the rows of a prefix come first. */
  lemma {:induction false} RowsMember(ns: seq<TreeNode>, expanded: set<Id>, statusFilter: string, u: TreeNode)
    ensures u in Rows(ns, expanded, statusFilter) <==>
      exists t | t in ns :: u in NodeRows(t, expanded, statusFilter)
    decreases |ns|
  {
    if ns != [] {
      var init, last := ns[..|ns| - 1], ns[|ns| - 1];
      RowsMember(init, expanded, statusFilter, u);
      assert ns == init + [last];
      if u in Rows(init, expanded, statusFilter) {
        var t :| t in init && u in NodeRows(t, expanded, statusFilter);
        assert t in ns;
      }
      if t :| t in ns && u in NodeRows(t, expanded, statusFilter) {
        if t != last {
          assert t in init;
        }
      }
    }
  }

  /** A status tab keeps a top-level node exactly when something in its subtree has that
      status; the tab "all" keeps every node. */
  lemma TopLevelKept(ns: seq<TreeNode>, expanded: set<Id>, statusFilter: string, t: TreeNode)
    requires t in ns
    ensures t in Rows(ns, expanded, statusFilter) <==>
      statusFilter == "all" || HasMatchingDescendant(t, statusFilter)
  {
    RowsMember(ns, expanded, statusFilter, t);
    if t in Rows(ns, expanded, statusFilter) {
      var t' :| t' in ns && t in NodeRows(t', expanded, statusFilter);
      if t' != t {
        EmittedMatch(t', expanded, statusFilter);
      }
    }
  }

  /** Every emitted row passes the status tab, and each row below the top level is a child of
      an emitted row that is expanded. */
  lemma {:induction false} EmittedMatch(t: TreeNode, expanded: set<Id>, statusFilter: string)
    ensures forall u | u in NodeRows(t, expanded, statusFilter) ::
      statusFilter == "all" || HasMatchingDescendant(u, statusFilter)
    ensures forall u | u in NodeRows(t, expanded, statusFilter) && u != t ::
      exists p | p in NodeRows(t, expanded, statusFilter) :: p.item.id in expanded && u in p.children
    decreases t, 1
  {
    var below := Rows(t.children, expanded, statusFilter);
    if NodeRows(t, expanded, statusFilter) != [] && t.item.id in expanded && |t.children| > 0 {
      assert NodeRows(t, expanded, statusFilter) == [t] + below;
      forall u | u in below
        ensures statusFilter == "all" || HasMatchingDescendant(u, statusFilter)
        ensures exists p | p in NodeRows(t, expanded, statusFilter) :: p.item.id in expanded && u in p.children
      {
        RowsMember(t.children, expanded, statusFilter, u);
        var c :| c in t.children && u in NodeRows(c, expanded, statusFilter);
        EmittedMatch(c, expanded, statusFilter);
        if u == c {
          assert t in NodeRows(t, expanded, statusFilter);
        } else {
          var p :| p in NodeRows(c, expanded, statusFilter) && p.item.id in expanded && u in p.children;
          RowsMember(t.children, expanded, statusFilter, p);
        }
      }
    }
  }

  /** Every emitted row passes the status tab; every row is a top-level node or a child of an
      emitted, expanded row. */
  lemma RowsSound(ns: seq<TreeNode>, expanded: set<Id>, statusFilter: string)
    ensures forall u | u in Rows(ns, expanded, statusFilter) ::
      statusFilter == "all" || HasMatchingDescendant(u, statusFilter)
    ensures forall u | u in Rows(ns, expanded, statusFilter) && u !in ns ::
      exists p | p in Rows(ns, expanded, statusFilter) :: p.item.id in expanded && u in p.children
  {
    var rs := Rows(ns, expanded, statusFilter);
    forall u | u in rs
      ensures statusFilter == "all" || HasMatchingDescendant(u, statusFilter)
      ensures u !in ns ==> exists p | p in rs :: p.item.id in expanded && u in p.children
    {
      RowsMember(ns, expanded, statusFilter, u);
      var t :| t in ns && u in NodeRows(t, expanded, statusFilter);
      EmittedMatch(t, expanded, statusFilter);
      if u != t {
        var p :| p in NodeRows(t, expanded, statusFilter) && p.item.id in expanded && u in p.children;
        RowsMember(ns, expanded, statusFilter, p);
      }
    }
  }

  /** An emitted row that is expanded brings every child its status tab keeps. */
  lemma {:induction false} ExpandedChildrenShown(ns: seq<TreeNode>, expanded: set<Id>, statusFilter: string,
                                                 p: TreeNode, c: TreeNode)
    requires p in Rows(ns, expanded, statusFilter) && p.item.id in expanded && c in p.children
    requires statusFilter == "all" || HasMatchingDescendant(c, statusFilter)
    ensures c in Rows(ns, expanded, statusFilter)
    decreases ns, 0
  {
    RowsMember(ns, expanded, statusFilter, p);
    var t :| t in ns && p in NodeRows(t, expanded, statusFilter);
    NodeChildrenShown(t, expanded, statusFilter, p, c);
    RowsMember(ns, expanded, statusFilter, c);
  }

  lemma {:induction false} NodeChildrenShown(t: TreeNode, expanded: set<Id>, statusFilter: string,
                                             p: TreeNode, c: TreeNode)
    requires p in NodeRows(t, expanded, statusFilter) && p.item.id in expanded && c in p.children
    requires statusFilter == "all" || HasMatchingDescendant(c, statusFilter)
    ensures c in NodeRows(t, expanded, statusFilter)
    decreases t, 1
  {
    if p == t {
      TopLevelKept(t.children, expanded, statusFilter, c);
    } else {
      ExpandedChildrenShown(t.children, expanded, statusFilter, p, c);
    }
  }

  // ─── The expanded set ────────────────────────────────────

  /** The ids the table starts with expanded: every initiative and every epic. */
  function InitiallyExpanded(items: seq<RoadmapItem>): set<Id> {
    set x | x in items && (x.itemType == "initiative" || x.itemType == "epic") :: x.id
  }

  /** The `useState` initialiser: one pass adding each initiative's and epic's id. */
  method InitialExpanded(items: seq<RoadmapItem>) returns (ids: set<Id>)
    ensures ids == InitiallyExpanded(items)
  {
    ids := {};
    for j := 0 to |items|
      invariant ids == InitiallyExpanded(items[..j])
    {
      assert items[..j + 1] == items[..j] + [items[j]];
      if items[j].itemType == "initiative" || items[j].itemType == "epic" {
        ids := ids + {items[j].id};
      }
    }
    assert items[..|items|] == items;
  }

  /** The table's view state: the status tab and the expanded ids. */
  class TableState {
    var filter: string
    var expanded: set<Id>

    /** The table as it mounts: tab "all", initiatives and epics expanded. */
    constructor (items: seq<RoadmapItem>)
      ensures filter == "all" && expanded == InitiallyExpanded(items)
    {
      filter := "all";
      expanded := InitiallyExpanded(items);
    }

    /** The rows the table shows for `tree`. */
    function ShownRows(tree: seq<TreeNode>): seq<TreeNode>
      reads this
    {
      Rows(tree, expanded, filter)
    }

    /** `toggleExpand(id)`: the expanded set with exactly `id` flipped. */
    method ToggleExpand(id: Id)
      modifies this
      ensures expanded == Toggled(old(expanded), id) && filter == old(filter)
    {
      var next := expanded;
      if id in next {
        next := next - {id};
      } else {
        next := next + {id};
      }
      expanded := next;
    }

    /** `setFilter(value)` from the status tabs. */
    method SetFilter(value: string)
      modifies this
      ensures filter == value && expanded == old(expanded)
    {
      filter := value;
    }
  }

  // ─── The row menu ────────────────────────────────────────

  const MenuStatuses: seq<string> := ["committed", "in-progress", "done"]

  /** The "Mark …" entries of a row's menu: each of committed, in-progress and done, in that
      order, unless the item already has that status. */
  function StatusActions(status: string): (r: seq<string>)
    ensures forall a :: a in r <==> a in MenuStatuses && a != status
    ensures |r| == if status in MenuStatuses then 2 else 3
  {
    (if status != "committed" then ["committed"] else [])
      + (if status != "in-progress" then ["in-progress"] else [])
      + (if status != "done" then ["done"] else [])
  }
}
