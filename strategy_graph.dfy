/** What the strategy graph shows of `GraphData`: the type, status and search filters, the
    objective filter's undirected closure over every edge, the edge prune, and the filter
    bar's state with its toggles, its reset and the flag that shows the reset button. */
module StrategyGraph {
  import opened Wrappers
  import opened Collections
  import opened Text
  import opened Justification
  import opened Schema
  import opened Graph
  import opened GraphShape

  /** The four filters: shown types, shown statuses, selected objectives, search text. */
  datatype FilterSettings = FilterSettings(
    types: set<NodeType>, statuses: set<string>, objectives: set<string>, query: string)

  /** `ALL_TYPES`: the six node types. */
  const AllTypes: set<NodeType> :=
    {ObjectiveNode, InitiativeNode, EpicNode, FeatureNode, ProblemNode, SignalNode}

  /** `ALL_STATUSES`: the truthy statuses carried by the graph's nodes. */
  function AllStatuses(nodes: seq<GraphNode>): (r: set<string>)
    ensures forall n | n in nodes && Present(n.status) :: n.status.value in r
    ensures forall st | st in r :: exists n | n in nodes :: Present(n.status) && n.status.value == st
  {
    set n | n in nodes && Present(n.status) :: n.status.value
  }

  /** The settings `clearFilters` restores. */
  function Cleared(data: GraphData): FilterSettings {
    FilterSettings(AllTypes, AllStatuses(data.nodes), {}, "")
  }

  lemma EveryTypeListed(t: NodeType)
    ensures t in AllTypes
  {
  }

  // ─── The base filter ─────────────────────────────────────

  /** A node passes the base filter: its type is shown; it has no status, or no status is
      selected, or its status is selected; and the search text is empty or occurs in its
      label, both lowercased. */
  predicate PassesBase(n: GraphNode, f: FilterSettings) {
    && n.nodeType in f.types
    && (!Present(n.status) || |f.statuses| == 0 || n.status.value in f.statuses)
    && (f.query == "" || Text.Contains(ToLower(n.name), ToLower(f.query)))
  }

  lemma LowerCharTwice(c: char)
    ensures LowerChar(LowerChar(c)) == LowerChar(c)
  {
  }

  /** Lowercasing is idempotent. */
  lemma ToLowerTwice(s: string)
    ensures ToLower(ToLower(s)) == ToLower(s)
  {
    forall k | 0 <= k < |s| ensures ToLower(ToLower(s))[k] == ToLower(s)[k] {
      LowerCharTwice(s[k]);
    }
  }

  /** The search ignores the case of the query: a lowercased query selects the same nodes. */
  lemma SearchIgnoresCase(n: GraphNode, f: FilterSettings)
    ensures PassesBase(n, f.(query := ToLower(f.query))) == PassesBase(n, f)
  {
    ToLowerTwice(f.query);
    if f.query != "" {
      assert |ToLower(f.query)| == |f.query| > 0;
    }
  }

  /** With no status selected the status filter is off: every node passes it. */
  lemma NoStatusesSelectedShowsEveryStatus(n: GraphNode, f: FilterSettings)
    requires f.statuses == {}
    ensures PassesBase(n, f) <==>
      n.nodeType in f.types && (f.query == "" || Text.Contains(ToLower(n.name), ToLower(f.query)))
  {
  }

  // ─── The objective closure ───────────────────────────────

  /** The ids at either end of some edge. */
  function Endpoints(edges: seq<GraphEdge>): (r: set<string>)
    ensures forall e | e in edges :: e.source in r && e.target in r
  {
    (set e | e in edges :: e.source) + (set e | e in edges :: e.target)
  }

  /** Either both ends of `e` are in `s` or neither is. */
  predicate Balanced(e: GraphEdge, s: set<string>) {
    (e.target in s ==> e.source in s) && (e.source in s ==> e.target in s)
  }

  /** No edge leaves `s` in either direction. */
  predicate Closed(s: set<string>, edges: seq<GraphEdge>) {
    forall e | e in edges :: Balanced(e, s)
  }

  /** The first `i` edges are balanced on `s`. */
  predicate CheckedUpTo(s: set<string>, edges: seq<GraphEdge>, i: int) {
    forall k | 0 <= k < i && k < |edges| :: Balanced(edges[k], s)
  }

  lemma CheckedAllClosed(s: set<string>, edges: seq<GraphEdge>)
    requires CheckedUpTo(s, edges, |edges|)
    ensures Closed(s, edges)
  {
    forall e | e in edges ensures Balanced(e, s) {
      var k :| 0 <= k < |edges| && edges[k] == e;
    }
  }

  /** Adding an id from `u` missing in `ids` shrinks what is left of `u`. */
  lemma Grow(u: set<string>, ids: set<string>, x: string)
    requires x in u && x !in ids
    ensures |u - (ids + {x})| < |u - ids|
  {
    assert u - (ids + {x}) == (u - ids) - {x};
  }

  /** Some edge joins `a` and `b`, in either direction. */
  predicate Adjacent(edges: seq<GraphEdge>, a: string, b: string) {
    exists e | e in edges :: (e.source == a && e.target == b) || (e.target == a && e.source == b)
  }

  /** A walk along edges, ignoring their direction. */
  ghost predicate Walk(edges: seq<GraphEdge>, p: seq<string>) {
    |p| > 0 && forall k | 0 <= k < |p| - 1 :: Adjacent(edges, p[k], p[k + 1])
  }

  /** `x` is reached from a seed by some undirected walk. */
  ghost predicate ReachableFrom(edges: seq<GraphEdge>, seeds: set<string>, x: string) {
    exists p | Walk(edges, p) :: p[0] in seeds && p[|p| - 1] == x
  }

  /** A walk that starts inside an edge-closed set ends inside it. */
  lemma {:induction false} WalkStaysClosed(edges: seq<GraphEdge>, s: set<string>, p: seq<string>)
    requires Closed(s, edges) && Walk(edges, p) && p[0] in s
    ensures p[|p| - 1] in s
    decreases |p|
  {
    if |p| > 1 {
      var q := p[..|p| - 1];
      assert Walk(edges, q) by {
        forall k | 0 <= k < |q| - 1 ensures Adjacent(edges, q[k], q[k + 1]) {
          assert q[k] == p[k] && q[k + 1] == p[k + 1];
        }
      }
      WalkStaysClosed(edges, s, q);
      assert Adjacent(edges, p[|p| - 2], p[|p| - 1]);
    }
  }

  lemma Extend(edges: seq<GraphEdge>, p: seq<string>, x: string)
    requires Walk(edges, p) && Adjacent(edges, p[|p| - 1], x)
    ensures Walk(edges, p + [x]) && (p + [x])[0] == p[0]
  {
    var q := p + [x];
    forall k | 0 <= k < |q| - 1 ensures Adjacent(edges, q[k], q[k + 1]) {
      if k < |p| - 1 {
        assert q[k] == p[k] && q[k + 1] == p[k + 1];
      }
    }
  }

  /** One more edge from a reached id reaches its other end. */
  lemma ReachStep(edges: seq<GraphEdge>, seeds: set<string>, a: string, b: string)
    requires ReachableFrom(edges, seeds, a) && Adjacent(edges, a, b)
    ensures ReachableFrom(edges, seeds, b)
  {
    var p :| Walk(edges, p) && p[0] in seeds && p[|p| - 1] == a;
    Extend(edges, p, b);
    assert (p + [b])[|p + [b]| - 1] == b;
  }

  /** The ids the seeds reach (each is a seed or the end of some edge). */
  ghost function ReachSet(edges: seq<GraphEdge>, seeds: set<string>): set<string> {
    set x | x in seeds + Endpoints(edges) && ReachableFrom(edges, seeds, x)
  }

  /** `ReachSet` holds exactly the ids some walk from a seed reaches. */
  lemma ReachSetIsReachable(edges: seq<GraphEdge>, seeds: set<string>)
    ensures forall x :: x in ReachSet(edges, seeds) <==> ReachableFrom(edges, seeds, x)
  {
    forall x | ReachableFrom(edges, seeds, x) ensures x in seeds + Endpoints(edges) {
      var p :| Walk(edges, p) && p[0] in seeds && p[|p| - 1] == x;
      if |p| > 1 {
        assert Adjacent(edges, p[|p| - 2], p[|p| - 1]);
      }
    }
  }

  /** `ReachSet` holds the seeds and is edge-closed. */
  lemma ReachSetClosed(edges: seq<GraphEdge>, seeds: set<string>)
    ensures seeds <= ReachSet(edges, seeds) && Closed(ReachSet(edges, seeds), edges)
  {
    var r := ReachSet(edges, seeds);
    forall x | x in seeds ensures x in r {
      assert Walk(edges, [x]);
    }
    forall e | e in edges ensures Balanced(e, r) {
      if e.target in r {
        assert Adjacent(edges, e.target, e.source);
        ReachStep(edges, seeds, e.target, e.source);
      }
      if e.source in r {
        assert Adjacent(edges, e.source, e.target);
        ReachStep(edges, seeds, e.source, e.target);
      }
    }
  }

  /** Every edge-closed set holding the seeds holds `ReachSet`: it is the least such set. */
  lemma ReachSetLeast(edges: seq<GraphEdge>, seeds: set<string>, s: set<string>)
    requires seeds <= s && Closed(s, edges)
    ensures ReachSet(edges, seeds) <= s
  {
    forall x | x in ReachSet(edges, seeds) ensures x in s {
      var p :| Walk(edges, p) && p[0] in seeds && p[|p| - 1] == x;
      WalkStaysClosed(edges, s, p);
    }
  }

  /** The `while (changed)` loop: grow `connectedIds` from the seeds by edges in either
      direction until a whole pass adds nothing. The result is edge-closed and stays inside
      any edge-closed set `r` that holds the seeds. */
  method Saturate(edges: seq<GraphEdge>, seeds: set<string>, ghost r: set<string>) returns (ids: set<string>)
    requires seeds <= r && Closed(r, edges)
    ensures seeds <= ids <= r && Closed(ids, edges)
  {
    ids := seeds;
    var changed := true;
    while changed
      invariant seeds <= ids <= r
      invariant !changed ==> Closed(ids, edges)
      decreases |r - ids|, if changed then 1 else 0
    {
      changed := false;
      ghost var start := ids;
      for i := 0 to |edges|
        invariant seeds <= start <= ids <= r
        invariant !changed ==> ids == start && CheckedUpTo(ids, edges, i)
        invariant changed ==> |r - ids| < |r - start|
      {
        var e := edges[i];
        assert Balanced(e, r) by {
          assert e in edges;
        }
        if e.target in ids && e.source !in ids {
          Grow(r, ids, e.source);
          ids := ids + {e.source};
          changed := true;
        }
        if e.source in ids && e.target !in ids {
          Grow(r, ids, e.target);
          ids := ids + {e.target};
          changed := true;
        }
      }
      if !changed {
        CheckedAllClosed(ids, edges);
      }
    }
  }

  /** `connectedIds` once the loop stops: exactly the ids the seeds reach. */
  method Connect(edges: seq<GraphEdge>, seeds: set<string>) returns (ids: set<string>)
    ensures ids == ReachSet(edges, seeds)
  {
    ReachSetClosed(edges, seeds);
    ids := Saturate(edges, seeds, ReachSet(edges, seeds));
    ReachSetLeast(edges, seeds, ids);
  }

  // ─── filteredData ────────────────────────────────────────

  /** The ids of the objective nodes whose objective is selected. */
  function Seeds(data: GraphData, f: FilterSettings): (r: set<string>)
    ensures forall x :: x in r <==>
      exists n | n in data.nodes :: n.nodeType == ObjectiveNode && n.entityId in f.objectives && n.id == x
  {
    set n | n in data.nodes && n.nodeType == ObjectiveNode && n.entityId in f.objectives :: n.id
  }

  /** A node is shown: it passes the base filter and, when objectives are selected, an
      undirected walk over all the graph's edges joins it to a selected objective's node. */
  ghost predicate Visible(data: GraphData, f: FilterSettings, n: GraphNode) {
    PassesBase(n, f) && (f.objectives == {} || n.id in ReachSet(data.edges, Seeds(data, f)))
  }

  /** The shown nodes, in the graph's order. */
  ghost function ShownNodes(data: GraphData, f: FilterSettings): seq<GraphNode> {
    Filter(data.nodes, (n: GraphNode) => Visible(data, f, n))
  }

  /** The edges kept among `nodes`: those with both ends on one of them, in the graph's order. */
  function EdgesAmong(edges: seq<GraphEdge>, nodes: seq<GraphNode>): (r: seq<GraphEdge>)
    ensures forall e | e in r :: e in edges && HasNode(nodes, e.source) && HasNode(nodes, e.target)
    ensures forall e | e in edges && HasNode(nodes, e.source) && HasNode(nodes, e.target) :: e in r
  {
    Filter(edges, (e: GraphEdge) => HasNode(nodes, e.source) && HasNode(nodes, e.target))
  }

  /** The `filteredData` memo. */
  method FilterGraph(data: GraphData, f: FilterSettings) returns (r: GraphData)
    ensures r.nodes == ShownNodes(data, f)
    ensures r.edges == EdgesAmong(data.edges, r.nodes)
  {
    var nodes := FilterNodes(data, f);
    var edges := FilterEdges(data.edges, nodes);
    r := GraphData(nodes, edges);
  }

  /** The node half of `filteredData`: the base filter, then the objective-connected set. */
  method FilterNodes(data: GraphData, f: FilterSettings) returns (nodes: seq<GraphNode>)
    ensures nodes == ShownNodes(data, f)
  {
    nodes := Filter(data.nodes, (n: GraphNode) => PassesBase(n, f));
    if |f.objectives| > 0 {
      var seeds := set n | n in data.nodes && n.nodeType == ObjectiveNode && n.entityId in f.objectives :: n.id;
      assert seeds == Seeds(data, f);
      var connected := Connect(data.edges, seeds);
      nodes := Filter(nodes, (n: GraphNode) => n.id in connected);
      assert f.objectives != {};
      FilterFilter(data.nodes, (n: GraphNode) => PassesBase(n, f), (n: GraphNode) => n.id in connected, (n: GraphNode) => Visible(data, f, n));
    } else {
      FilterCongruent(data.nodes, (n: GraphNode) => PassesBase(n, f), (n: GraphNode) => Visible(data, f, n));
    }
  }

  /** The edge half of `filteredData`: the edges with both ends among the kept nodes' ids. */
  method FilterEdges(edges: seq<GraphEdge>, nodes: seq<GraphNode>) returns (kept: seq<GraphEdge>)
    ensures kept == EdgesAmong(edges, nodes)
  {
    var nodeIds := set n | n in nodes :: n.id;
    kept := Filter(edges, (e: GraphEdge) => e.source in nodeIds && e.target in nodeIds);
    FilterCongruent(edges, (e: GraphEdge) => e.source in nodeIds && e.target in nodeIds,
      (e: GraphEdge) => HasNode(nodes, e.source) && HasNode(nodes, e.target));
  }

  /** A node is shown exactly when it is a node of the graph, passes the base filter and,
      with objectives selected, an undirected walk over all the graph's edges joins a selected
      objective's node to it, whatever the filters hid along the way. */
  lemma ShownIff(data: GraphData, f: FilterSettings, n: GraphNode)
    ensures n in ShownNodes(data, f) <==>
      && n in data.nodes && PassesBase(n, f)
      && (f.objectives != {} ==> ReachableFrom(data.edges, Seeds(data, f), n.id))
  {
    ReachSetIsReachable(data.edges, Seeds(data, f));
  }

  /** With the filters cleared every node is shown. */
  lemma ClearedShowsEveryNode(data: GraphData)
    ensures ShownNodes(data, Cleared(data)) == data.nodes
  {
    forall n | n in data.nodes ensures Visible(data, Cleared(data), n) {
      EveryTypeListed(n.nodeType);
    }
  }

  /** For a store whose references resolve, the cleared filters show the whole projected
      graph: every node and every edge. */
  lemma ClearedShowsWholeGraph(s: Store)
    requires RefsResolve(s)
    ensures var g := GraphOf(s);
      ShownNodes(g, Cleared(g)) == g.nodes && EdgesAmong(g.edges, ShownNodes(g, Cleared(g))) == g.edges
  {
    var g := GraphOf(s);
    ClearedShowsEveryNode(g);
    EdgesResolve(s);
  }

  /** The first render, before the effect fills the status set from the nodes, shows the same
      nodes as the render after it. */
  lemma StatusEffectInvisible(data: GraphData, f: FilterSettings)
    ensures ShownNodes(data, f.(statuses := {})) ==
      ShownNodes(data, f.(statuses := AllStatuses(data.nodes)))
  {
    var f0, f1 := f.(statuses := {}), f.(statuses := AllStatuses(data.nodes));
    assert Seeds(data, f0) == Seeds(data, f1);
    FilterCongruent(data.nodes, (n: GraphNode) => Visible(data, f0, n), (n: GraphNode) => Visible(data, f1, n));
  }

  // ─── The reset button ────────────────────────────────────

  /** `hasActiveFilters` as written: it compares the SIZES of the type and status sets with
      those of the full sets. */
  function HasActiveFiltersBySize(data: GraphData, f: FilterSettings): bool {
    || |f.types| != |AllTypes|
    || |f.statuses| != |AllStatuses(data.nodes)|
    || |f.objectives| > 0
    || |f.query| > 0
  }

  /** `hasActiveFilters` as intended: some filter differs from the cleared settings. */
  function HasActiveFilters(data: GraphData, f: FilterSettings): (r: bool)
    ensures !r <==> f == Cleared(data)
  {
    f.types != AllTypes || f.statuses != AllStatuses(data.nodes) || f.objectives != {} || f.query != ""
  }

  lemma SubsetSameSize<T>(a: set<T>, b: set<T>)
    requires a <= b && |a| == |b|
    ensures a == b
  {
    if a != b {
      var x :| x in b && x !in a;
      SubsetSize(a, b - {x});
    }
  }

  lemma {:induction false} SubsetSize<T>(a: set<T>, b: set<T>)
    requires a <= b
    ensures |a| <= |b|
    decreases |a|
  {
    if a != {} {
      var y :| y in a;
      SubsetSize(a - {y}, b - {y});
    }
  }

  /** The size test is right exactly when the selected statuses are among the graph's; every
      type set is among the six. */
  lemma BySizeAgreesOnSubsets(data: GraphData, f: FilterSettings)
    requires f.statuses <= AllStatuses(data.nodes)
    ensures HasActiveFiltersBySize(data, f) == HasActiveFilters(data, f)
  {
    forall t | t in f.types ensures t in AllTypes {
      EveryTypeListed(t);
    }
    if |f.types| == |AllTypes| {
      SubsetSameSize(f.types, AllTypes);
    }
    if |f.statuses| == |AllStatuses(data.nodes)| {
      SubsetSameSize(f.statuses, AllStatuses(data.nodes));
    }
  }

  /** A graph whose one node is an accepted problem. */
  function AcceptedProblemGraph(): GraphData {
    GraphData([GraphNode("problem-p1", ProblemNode, "p1", "Slow onboarding", Some("accepted"), false)], [])
  }

  /** From the cleared bar, toggling "accepted" off and "draft" on hides the only node, yet the
      size test reports no active filter, so the reset button disappears. */
  lemma BySizeMissesStatusSwap()
    ensures var data := AcceptedProblemGraph();
      var f := Cleared(data).(statuses := Toggled(Toggled(AllStatuses(data.nodes), "accepted"), "draft"));
      && !HasActiveFiltersBySize(data, f)
      && HasActiveFilters(data, f)
      && ShownNodes(data, f) == []
      && ShownNodes(data, Cleared(data)) == data.nodes
  {
    var data := AcceptedProblemGraph();
    var n := data.nodes[0];
    assert AllStatuses(data.nodes) == {"accepted"};
    var f := Cleared(data).(statuses := Toggled(Toggled(AllStatuses(data.nodes), "accepted"), "draft"));
    assert f.statuses == {"draft"};
    assert !Visible(data, f, n);
    assert forall m | m in data.nodes :: m == n;
    ClearedShowsEveryNode(data);
  }

  // ─── The filter bar's state ──────────────────────────────

  /** The filter state of a mounted `StrategyGraph`. */
  class GraphFilterState {
    var activeTypes: set<NodeType>
    var activeStatuses: set<string>
    var activeObjectives: set<string>
    var searchQuery: string

    function Settings(): FilterSettings
      reads this
    {
      FilterSettings(activeTypes, activeStatuses, activeObjectives, searchQuery)
    }

    /** After mounting and the status effect: every type, every status of the graph's nodes,
        no objective, no search text. */
    constructor (data: GraphData)
      ensures Settings() == Cleared(data)
    {
      activeTypes := AllTypes;
      activeStatuses := AllStatuses(data.nodes);
      activeObjectives := {};
      searchQuery := "";
    }

    method ToggleType(t: NodeType)
      modifies this
      ensures Settings() == old(Settings()).(types := Toggled(old(activeTypes), t))
    {
      var next := activeTypes;
      if t in next {
        next := next - {t};
      } else {
        next := next + {t};
      }
      activeTypes := next;
    }

    method ToggleStatus(status: string)
      modifies this
      ensures Settings() == old(Settings()).(statuses := Toggled(old(activeStatuses), status))
    {
      var next := activeStatuses;
      if status in next {
        next := next - {status};
      } else {
        next := next + {status};
      }
      activeStatuses := next;
    }

    method ToggleObjective(id: string)
      modifies this
      ensures Settings() == old(Settings()).(objectives := Toggled(old(activeObjectives), id))
    {
      var next := activeObjectives;
      if id in next {
        next := next - {id};
      } else {
        next := next + {id};
      }
      activeObjectives := next;
    }

    method SearchChange(value: string)
      modifies this
      ensures Settings() == old(Settings()).(query := value)
    {
      searchQuery := value;
    }

    /** `clearFilters`; afterwards no filter is active, by either test. */
    method ClearFilters(data: GraphData)
      modifies this
      ensures Settings() == Cleared(data)
      ensures !HasActiveFilters(data, Settings()) && !HasActiveFiltersBySize(data, Settings())
    {
      activeTypes := AllTypes;
      activeStatuses := AllStatuses(data.nodes);
      activeObjectives := {};
      searchQuery := "";
    }
  }
}
