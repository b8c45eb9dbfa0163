/** The strategy graph: one node per objective, roadmap item, problem and signal, the four
    edge kinds between them, and the orphan flag on each node. */
module Graph {
  import opened Wrappers
  import opened Collections
  import opened Schema
  import opened Justification

  // ─── Types ───────────────────────────────────────────────

  datatype NodeType = ObjectiveNode | InitiativeNode | EpicNode | FeatureNode | ProblemNode | SignalNode

  /** The `GraphNodeType` string. */
  function TypeName(t: NodeType): string {
    match t
    case ObjectiveNode => "objective"
    case InitiativeNode => "initiative"
    case EpicNode => "epic"
    case FeatureNode => "feature"
    case ProblemNode => "problem"
    case SignalNode => "signal"
  }

  datatype EdgeType = AlignsTo | Contains | JustifiedBy | DerivedFrom

  /** A node; the layout `meta` bag is not modelled. */
  datatype GraphNode = GraphNode(
    id: string, nodeType: NodeType, entityId: Id, name: string, status: Option<string>,
    isOrphan: bool)

  datatype GraphEdge = GraphEdge(id: string, source: string, target: string, edgeType: EdgeType)

  datatype GraphData = GraphData(nodes: seq<GraphNode>, edges: seq<GraphEdge>)

  /** A roadmap item's node type: "initiative", "epic", and every other type a feature. */
  function NodeTypeOf(itemType: string): (t: NodeType)
    ensures t in {InitiativeNode, EpicNode, FeatureNode}
    ensures t == InitiativeNode <==> itemType == "initiative"
    ensures t == EpicNode <==> itemType == "epic"
  {
    if itemType == "initiative" then InitiativeNode
    else if itemType == "epic" then EpicNode
    else FeatureNode
  }

  /** `${type}-${entityId}`. */
  function NodeId(t: NodeType, entityId: Id): string {
    TypeName(t) + "-" + entityId
  }

  /** Some node carries the id `nid`. */
  predicate HasNode(nodes: seq<GraphNode>, nid: string) {
    exists n | n in nodes :: n.id == nid
  }

  // ─── The joined link rows the orphan checks read ─────────

  /** A roadmap-item–problem row with its problem joined in (`null` when none matches). */
  datatype ProbLinkView = ProbLinkView(roadmapItemId: Id, problemId: Id, problem: Option<Problem>)

  /** A roadmap-item–objective row, reduced to its two ends. */
  datatype ObjLinkView = ObjLinkView(roadmapItemId: Id, objectiveId: Id)

  /** The `itemMap` entry of an item. */
  datatype ItemEntry = ItemEntry(parentId: Option<Id>, itemType: string)

  function ProbView(s: Store, l: RoadmapItemProblem): ProbLinkView {
    ProbLinkView(l.roadmapItemId, l.problemId, FindProblem(s.problems, l.problemId))
  }

  /** Some item in `items` has the id. */
  predicate HasItemIn(items: seq<RoadmapItem>, id: Id) {
    exists it | it in items :: it.id == id
  }

  /** One item's problem rows, each joined with its problem. */
  function ProbViews(s: Store, links: seq<RoadmapItemProblem>): (r: seq<ProbLinkView>)
    ensures |r| == |links| && forall k | 0 <= k < |links| :: r[k] == ProbView(s, links[k])
  {
    seq(|links|, k requires 0 <= k < |links| => ProbView(s, links[k]))
  }

  /** One item's objective rows, reduced to their ends. */
  function ObjViews(links: seq<RoadmapItemObjective>): (r: seq<ObjLinkView>)
    ensures |r| == |links| &&
      forall k | 0 <= k < |links| :: r[k] == ObjLinkView(links[k].roadmapItemId, links[k].objectiveId)
  {
    seq(|links|, k requires 0 <= k < |links| => ObjLinkView(links[k].roadmapItemId, links[k].objectiveId))
  }

  /** `allRiProbLinks`: each item's problem rows, joined, item after item. */
  function AllProbLinks(s: Store, items: seq<RoadmapItem>): seq<ProbLinkView>
    decreases |items|
  {
    if items == [] then []
    else
      AllProbLinks(s, items[..|items| - 1])
      + ProbViews(s, ProblemLinksOf(s.itemProblems, items[|items| - 1].id))
  }

  /** `allRiObjLinks`: each item's objective rows, item after item. */
  function AllObjLinks(s: Store, items: seq<RoadmapItem>): seq<ObjLinkView>
    decreases |items|
  {
    if items == [] then []
    else
      AllObjLinks(s, items[..|items| - 1])
      + ObjViews(ObjectiveLinksOf(s.itemObjectives, items[|items| - 1].id))
  }

  /** A joined row comes from a stored link row of an item in `items`. */
  lemma {:induction false} AllProbLinksSound(s: Store, items: seq<RoadmapItem>, v: ProbLinkView)
    requires v in AllProbLinks(s, items)
    ensures HasItemIn(items, v.roadmapItemId)
    ensures exists l | l in s.itemProblems :: v == ProbView(s, l)
    decreases |items|
  {
    var init := items[..|items| - 1];
    var last := items[|items| - 1];
    assert items == init + [last];
    var links := ProblemLinksOf(s.itemProblems, last.id);
    if v in AllProbLinks(s, init) {
      AllProbLinksSound(s, init, v);
      var it :| it in init && it.id == v.roadmapItemId;
      assert it in items;
    } else {
      var views := ProbViews(s, links);
      var k :| 0 <= k < |views| && views[k] == v;
      assert links[k] in links;
      assert last in items;
    }
  }

  /** Every stored link row of an item in `items` appears, joined. */
  lemma {:induction false} AllProbLinksComplete(s: Store, items: seq<RoadmapItem>, l: RoadmapItemProblem)
    requires l in s.itemProblems && HasItemIn(items, l.roadmapItemId)
    ensures ProbView(s, l) in AllProbLinks(s, items)
    decreases |items|
  {
    var init := items[..|items| - 1];
    var last := items[|items| - 1];
    assert items == init + [last];
    var links := ProblemLinksOf(s.itemProblems, last.id);
    if l.roadmapItemId == last.id {
      assert l in links;
      var k :| 0 <= k < |links| && links[k] == l;
      assert ProbViews(s, links)[k] == ProbView(s, l);
    } else {
      var it :| it in items && it.id == l.roadmapItemId;
      assert it in init;
      AllProbLinksComplete(s, init, l);
    }
  }

  lemma {:induction false} AllObjLinksSound(s: Store, items: seq<RoadmapItem>, v: ObjLinkView)
    requires v in AllObjLinks(s, items)
    ensures HasItemIn(items, v.roadmapItemId)
    ensures exists l | l in s.itemObjectives :: v == ObjLinkView(l.roadmapItemId, l.objectiveId)
    decreases |items|
  {
    var init := items[..|items| - 1];
    var last := items[|items| - 1];
    assert items == init + [last];
    var links := ObjectiveLinksOf(s.itemObjectives, last.id);
    if v in AllObjLinks(s, init) {
      AllObjLinksSound(s, init, v);
      var it :| it in init && it.id == v.roadmapItemId;
      assert it in items;
    } else {
      var views := ObjViews(links);
      var k :| 0 <= k < |views| && views[k] == v;
      assert links[k] in links;
      assert last in items;
    }
  }

  lemma {:induction false} AllObjLinksComplete(s: Store, items: seq<RoadmapItem>, l: RoadmapItemObjective)
    requires l in s.itemObjectives && HasItemIn(items, l.roadmapItemId)
    ensures ObjLinkView(l.roadmapItemId, l.objectiveId) in AllObjLinks(s, items)
    decreases |items|
  {
    var init := items[..|items| - 1];
    var last := items[|items| - 1];
    assert items == init + [last];
    var links := ObjectiveLinksOf(s.itemObjectives, last.id);
    if l.roadmapItemId == last.id {
      assert l in links;
      var k :| 0 <= k < |links| && links[k] == l;
      assert ObjViews(links)[k] == ObjLinkView(l.roadmapItemId, l.objectiveId);
    } else {
      var it :| it in items && it.id == l.roadmapItemId;
      assert it in init;
      AllObjLinksComplete(s, init, l);
    }
  }

  /** `itemMap`: id to parent and type; a later item with the same id wins. */
  function ItemMapOf(items: seq<RoadmapItem>): (m: map<Id, ItemEntry>)
    ensures forall it | it in items :: it.id in m
    ensures forall x | x in m :: exists it | it in items :: it.id == x && m[x] == ItemEntry(it.parentId, it.itemType)
    decreases |items|
  {
    if items == [] then map[]
    else
      var last := items[|items| - 1];
      var rest := ItemMapOf(items[..|items| - 1]);
      assert items == items[..|items| - 1] + [last];
      rest[last.id := ItemEntry(last.parentId, last.itemType)]
  }

  // ─── Orphan detection ────────────────────────────────────

  /** The joined link names a problem, and that problem is accepted. */
  predicate Accepted(v: ProbLinkView) {
    v.problem.Some? && v.problem.value.status == "accepted"
  }

  /** Some joined row of the item `id` names an accepted problem. */
  predicate AcceptedViewFor(links: seq<ProbLinkView>, id: Id) {
    exists l | l in links :: l.roadmapItemId == id && Accepted(l)
  }

  /** `isOrphanProblem`: an accepted problem no roadmap item links to. */
  predicate IsOrphanProblem(problemId: Id, problemStatus: string, riLinks: seq<ProbLinkView>) {
    if problemStatus != "accepted" then false
    else !exists l | l in riLinks :: l.problemId == problemId
  }

  /** `isOrphanInitiative`: active, and without an objective link or an accepted problem. */
  predicate IsOrphanInitiative(itemId: Id, objLinks: seq<ObjLinkView>, probLinks: seq<ProbLinkView>,
                               status: string) {
    if !ActiveStatus(status) then false
    else
      var hasObjective := exists l | l in objLinks :: l.roadmapItemId == itemId;
      var hasAcceptedProblem := AcceptedViewFor(probLinks, itemId);
      !hasObjective || !hasAcceptedProblem
  }

  /** `isOrphanEpic`: active, and without a parent or an accepted problem on itself or its parent. */
  predicate IsOrphanEpic(item: RoadmapItem, probLinks: seq<ProbLinkView>, allProbLinks: seq<ProbLinkView>) {
    if !ActiveStatus(item.status) then false
    else if !Present(item.parentId) then true
    else
      var directAccepted := AcceptedViewFor(probLinks, item.id);
      var inheritedAccepted := AcceptedViewFor(allProbLinks, item.parentId.value);
      !directAccepted && !inheritedAccepted
  }

  /** `isOrphanFeature`: active, and without a parent or an accepted problem on itself, its
      parent or, through `itemMap`, its grandparent. */
  predicate IsOrphanFeature(item: RoadmapItem, probLinks: seq<ProbLinkView>,
                            allProbLinks: seq<ProbLinkView>, itemMap: map<Id, ItemEntry>) {
    if !ActiveStatus(item.status) then false
    else if !Present(item.parentId) then true
    else if AcceptedViewFor(probLinks, item.id) then false
    else if AcceptedViewFor(allProbLinks, item.parentId.value) then false
    else if item.parentId.value in itemMap && Present(itemMap[item.parentId.value].parentId)
         && AcceptedViewFor(allProbLinks, itemMap[item.parentId.value].parentId.value) then false
    else true
  }

  /** The orphan flag of an item's node, as `getGraphData` and `getOrphanCounts` choose it. */
  predicate ItemOrphan(s: Store, item: RoadmapItem) {
    var probLinks := AllProbLinks(s, s.items);
    match NodeTypeOf(item.itemType)
    case InitiativeNode => IsOrphanInitiative(item.id, AllObjLinks(s, s.items), probLinks, item.status)
    case EpicNode => IsOrphanEpic(item, probLinks, probLinks)
    case _ => IsOrphanFeature(item, probLinks, probLinks, ItemMapOf(s.items))
  }

  predicate ProblemOrphan(s: Store, p: Problem) {
    IsOrphanProblem(p.id, p.status, AllProbLinks(s, s.items))
  }

  // ─── Nodes and edges ─────────────────────────────────────

  function ObjectiveNodeOf(o: Objective): GraphNode {
    GraphNode(NodeId(ObjectiveNode, o.id), ObjectiveNode, o.id, o.name, None, false)
  }

  function ItemNodeOf(s: Store, item: RoadmapItem): GraphNode {
    var t := NodeTypeOf(item.itemType);
    GraphNode(NodeId(t, item.id), t, item.id, item.title, Some(item.status), ItemOrphan(s, item))
  }

  function ProblemNodeOf(s: Store, p: Problem): GraphNode {
    GraphNode(NodeId(ProblemNode, p.id), ProblemNode, p.id, p.title, Some(p.status), ProblemOrphan(s, p))
  }

  /** The customer when it is non-empty, else the source when it is non-empty, else "Signal". */
  function SignalLabel(sig: Signal): string {
    if Present(sig.customer) then sig.customer.value
    else if Present(sig.source) then sig.source.value
    else "Signal"
  }

  function SignalNodeOf(sig: Signal): GraphNode {
    GraphNode(NodeId(SignalNode, sig.id), SignalNode, sig.id, SignalLabel(sig), Some(sig.status), false)
  }

  function ObjectiveNodes(objs: seq<Objective>): (r: seq<GraphNode>)
    ensures forall n | n in r :: n.nodeType == ObjectiveNode && !n.isOrphan
    ensures forall o | o in objs :: HasNode(r, NodeId(ObjectiveNode, o.id))
    decreases |objs|
  {
    if objs == [] then []
    else
      var last := objs[|objs| - 1];
      assert objs == objs[..|objs| - 1] + [last];
      assert ObjectiveNodeOf(last) in ObjectiveNodes(objs[..|objs| - 1]) + [ObjectiveNodeOf(last)];
      ObjectiveNodes(objs[..|objs| - 1]) + [ObjectiveNodeOf(last)]
  }

  function ItemNodes(s: Store, items: seq<RoadmapItem>): (r: seq<GraphNode>)
    ensures forall n | n in r :: n.nodeType in {InitiativeNode, EpicNode, FeatureNode}
    decreases |items|
  {
    if items == [] then []
    else
      var last := items[|items| - 1];
      assert items == items[..|items| - 1] + [last];
      ItemNodes(s, items[..|items| - 1]) + [ItemNodeOf(s, last)]
  }

  function ProblemNodes(s: Store, ps: seq<Problem>): (r: seq<GraphNode>)
    ensures forall n | n in r :: n.nodeType == ProblemNode
    ensures forall p | p in ps :: ProblemNodeOf(s, p) in r
    decreases |ps|
  {
    if ps == [] then []
    else
      var last := ps[|ps| - 1];
      assert ps == ps[..|ps| - 1] + [last];
      ProblemNodes(s, ps[..|ps| - 1]) + [ProblemNodeOf(s, last)]
  }

  function SignalNodes(sigs: seq<Signal>): (r: seq<GraphNode>)
    ensures forall n | n in r :: n.nodeType == SignalNode && !n.isOrphan
    ensures forall g | g in sigs :: HasNode(r, NodeId(SignalNode, g.id))
    decreases |sigs|
  {
    if sigs == [] then []
    else
      var last := sigs[|sigs| - 1];
      assert sigs == sigs[..|sigs| - 1] + [last];
      assert SignalNodeOf(last) in SignalNodes(sigs[..|sigs| - 1]) + [SignalNodeOf(last)];
      SignalNodes(sigs[..|sigs| - 1]) + [SignalNodeOf(last)]
  }

  function AlignsToEdge(source: string, l: RoadmapItemObjective): GraphEdge {
    GraphEdge("edge-alignsto-" + l.id, source, NodeId(ObjectiveNode, l.objectiveId), AlignsTo)
  }

  function JustifiedByEdge(source: string, l: RoadmapItemProblem): GraphEdge {
    GraphEdge("edge-justifiedby-" + l.id, source, NodeId(ProblemNode, l.problemId), JustifiedBy)
  }

  function DerivedFromEdge(source: string, l: SignalProblem): GraphEdge {
    GraphEdge("edge-derivedfrom-" + l.id, source, NodeId(SignalNode, l.signalId), DerivedFrom)
  }

  function AlignsToEdges(source: string, links: seq<RoadmapItemObjective>): (r: seq<GraphEdge>)
    decreases |links|
  {
    if links == [] then []
    else AlignsToEdges(source, links[..|links| - 1]) + [AlignsToEdge(source, links[|links| - 1])]
  }

  function JustifiedByEdges(source: string, links: seq<RoadmapItemProblem>): (r: seq<GraphEdge>)
    decreases |links|
  {
    if links == [] then []
    else JustifiedByEdges(source, links[..|links| - 1]) + [JustifiedByEdge(source, links[|links| - 1])]
  }

  function DerivedFromEdges(source: string, links: seq<SignalProblem>): (r: seq<GraphEdge>)
    decreases |links|
  {
    if links == [] then []
    else DerivedFromEdges(source, links[..|links| - 1]) + [DerivedFromEdge(source, links[|links| - 1])]
  }

  /** The contains edge of an item, when its parent is a known item. */
  function ContainsEdges(s: Store, item: RoadmapItem): seq<GraphEdge> {
    var itemMap := ItemMapOf(s.items);
    if Present(item.parentId) && item.parentId.value in itemMap then
      var parentType := NodeTypeOf(itemMap[item.parentId.value].itemType);
      [GraphEdge("edge-contains-" + item.id, NodeId(NodeTypeOf(item.itemType), item.id),
                 NodeId(parentType, item.parentId.value), Contains)]
    else []
  }

  /** One item's edges, in the order the loop emits them. */
  function ItemEdges(s: Store, item: RoadmapItem): seq<GraphEdge> {
    var source := NodeId(NodeTypeOf(item.itemType), item.id);
    AlignsToEdges(source, ObjectiveLinksOf(s.itemObjectives, item.id))
    + ContainsEdges(s, item)
    + JustifiedByEdges(source, ProblemLinksOf(s.itemProblems, item.id))
  }

  function AllItemEdges(s: Store, items: seq<RoadmapItem>): (r: seq<GraphEdge>)
    decreases |items|
  {
    if items == [] then []
    else
      var last := items[|items| - 1];
      assert items == items[..|items| - 1] + [last];
      AllItemEdges(s, items[..|items| - 1]) + ItemEdges(s, last)
  }

  function AllProblemEdges(s: Store, ps: seq<Problem>): (r: seq<GraphEdge>)
    decreases |ps|
  {
    if ps == [] then []
    else
      var last := ps[|ps| - 1];
      assert ps == ps[..|ps| - 1] + [last];
      AllProblemEdges(s, ps[..|ps| - 1])
      + DerivedFromEdges(NodeId(ProblemNode, last.id), SignalLinksOf(s.signalProblems, last.id))
  }

  /** What `getGraphData` returns: objectives, items, problems, signals, in table order. */
  function GraphOf(s: Store): GraphData {
    GraphData(
      ObjectiveNodes(s.objectives) + ItemNodes(s, s.items) + ProblemNodes(s, s.problems)
        + SignalNodes(s.signals),
      AllItemEdges(s, s.items) + AllProblemEdges(s, s.problems))
  }

  // ─── getGraphData ────────────────────────────────────────

  /** The aligns-to loop of one item. */
  method EmitAlignsTo(source: string, links: seq<RoadmapItemObjective>) returns (edges: seq<GraphEdge>)
    ensures edges == AlignsToEdges(source, links)
  {
    edges := [];
    for j := 0 to |links|
      invariant edges == AlignsToEdges(source, links[..j])
    {
      assert links[..j + 1][..j] == links[..j];
      edges := edges + [AlignsToEdge(source, links[j])];
    }
    assert links[..|links|] == links;
  }

  /** The justified-by loop of one item. */
  method EmitJustifiedBy(source: string, links: seq<RoadmapItemProblem>) returns (edges: seq<GraphEdge>)
    ensures edges == JustifiedByEdges(source, links)
  {
    edges := [];
    for j := 0 to |links|
      invariant edges == JustifiedByEdges(source, links[..j])
    {
      assert links[..j + 1][..j] == links[..j];
      edges := edges + [JustifiedByEdge(source, links[j])];
    }
    assert links[..|links|] == links;
  }

  /** The inner loops of `getGraphData` for one item: aligns-to, contains, justified-by. */
  method EmitItemEdges(s: Store, item: RoadmapItem) returns (edges: seq<GraphEdge>)
    ensures edges == ItemEdges(s, item)
  {
    var source := NodeId(NodeTypeOf(item.itemType), item.id);
    var aligns := EmitAlignsTo(source, ObjectiveLinksOf(s.itemObjectives, item.id));
    var justified := EmitJustifiedBy(source, ProblemLinksOf(s.itemProblems, item.id));
    edges := aligns + ContainsEdges(s, item) + justified;
  }

  /** The inner loop of `getGraphData` for one problem: derived-from. */
  method EmitProblemEdges(s: Store, prob: Problem) returns (edges: seq<GraphEdge>)
    ensures edges == DerivedFromEdges(NodeId(ProblemNode, prob.id), SignalLinksOf(s.signalProblems, prob.id))
  {
    var source := NodeId(ProblemNode, prob.id);
    var sigLinks := SignalLinksOf(s.signalProblems, prob.id);
    edges := [];
    for j := 0 to |sigLinks|
      invariant edges == DerivedFromEdges(source, sigLinks[..j])
    {
      assert sigLinks[..j + 1][..j] == sigLinks[..j];
      edges := edges + [DerivedFromEdge(source, sigLinks[j])];
    }
    assert sigLinks[..|sigLinks|] == sigLinks;
  }

  /** The objective loop of `getGraphData`. */
  method EmitObjectiveNodes(objs: seq<Objective>) returns (nodes: seq<GraphNode>)
    ensures nodes == ObjectiveNodes(objs)
  {
    nodes := [];
    for i := 0 to |objs|
      invariant nodes == ObjectiveNodes(objs[..i])
    {
      assert objs[..i + 1][..i] == objs[..i];
      nodes := nodes + [ObjectiveNodeOf(objs[i])];
    }
    assert objs[..|objs|] == objs;
  }

  /** The roadmap-item loop of `getGraphData`. */
  method EmitItems(s: Store) returns (nodes: seq<GraphNode>, edges: seq<GraphEdge>)
    ensures nodes == ItemNodes(s, s.items) && edges == AllItemEdges(s, s.items)
  {
    nodes, edges := [], [];
    for i := 0 to |s.items|
      invariant nodes == ItemNodes(s, s.items[..i])
      invariant edges == AllItemEdges(s, s.items[..i])
    {
      ItemNodesSnoc(s, s.items, i);
      AllItemEdgesSnoc(s, s.items, i);
      var out := EmitItemEdges(s, s.items[i]);
      nodes := nodes + [ItemNodeOf(s, s.items[i])];
      edges := edges + out;
    }
    assert s.items[..|s.items|] == s.items;
  }

  /** The problem loop of `getGraphData`. */
  method EmitProblems(s: Store) returns (nodes: seq<GraphNode>, edges: seq<GraphEdge>)
    ensures nodes == ProblemNodes(s, s.problems) && edges == AllProblemEdges(s, s.problems)
  {
    nodes, edges := [], [];
    for i := 0 to |s.problems|
      invariant nodes == ProblemNodes(s, s.problems[..i])
      invariant edges == AllProblemEdges(s, s.problems[..i])
    {
      ProblemNodesSnoc(s, s.problems, i);
      AllProblemEdgesSnoc(s, s.problems, i);
      var out := EmitProblemEdges(s, s.problems[i]);
      nodes := nodes + [ProblemNodeOf(s, s.problems[i])];
      edges := edges + out;
    }
    assert s.problems[..|s.problems|] == s.problems;
  }

  /** The signal loop of `getGraphData`. */
  method EmitSignalNodes(sigs: seq<Signal>) returns (nodes: seq<GraphNode>)
    ensures nodes == SignalNodes(sigs)
  {
    nodes := [];
    for i := 0 to |sigs|
      invariant nodes == SignalNodes(sigs[..i])
    {
      assert sigs[..i + 1][..i] == sigs[..i];
      nodes := nodes + [SignalNodeOf(sigs[i])];
    }
    assert sigs[..|sigs|] == sigs;
  }

  /** `getGraphData`: objectives, then items with their edges, then problems with theirs,
      then signals. */
  method GetGraphData(s: Store) returns (g: GraphData)
    ensures g == GraphOf(s)
  {
    var objNodes := EmitObjectiveNodes(s.objectives);
    var itemNodes, itemEdges := EmitItems(s);
    var probNodes, probEdges := EmitProblems(s);
    var sigNodes := EmitSignalNodes(s.signals);
    g := GraphData(objNodes + itemNodes + probNodes + sigNodes, itemEdges + probEdges);
  }

  // ─── getOrphanCounts ─────────────────────────────────────

  /** How many nodes of type `t` carry the orphan flag. */
  function CountOrphans(nodes: seq<GraphNode>, t: NodeType): nat
    decreases |nodes|
  {
    if nodes == [] then 0
    else
      var n := nodes[|nodes| - 1];
      CountOrphans(nodes[..|nodes| - 1], t) + (if n.nodeType == t && n.isOrphan then 1 else 0)
  }

  lemma {:induction false} CountOrphansAppend(a: seq<GraphNode>, b: seq<GraphNode>, t: NodeType)
    ensures CountOrphans(a + b, t) == CountOrphans(a, t) + CountOrphans(b, t)
    decreases |b|
  {
    if b == [] {
      assert a + b == a;
    } else {
      var b' := b[..|b| - 1];
      assert (a + b)[..|a + b| - 1] == a + b';
      CountOrphansAppend(a, b', t);
    }
  }

  lemma CountOrphansSnoc(nodes: seq<GraphNode>, n: GraphNode)
    ensures forall t: NodeType ::
      CountOrphans(nodes + [n], t) == CountOrphans(nodes, t) + (if n.nodeType == t && n.isOrphan then 1 else 0)
  {
    assert (nodes + [n])[..|nodes|] == nodes;
  }

  lemma {:induction false} CountOrphansNone(nodes: seq<GraphNode>, t: NodeType)
    requires forall n | n in nodes :: n.nodeType != t || !n.isOrphan
    ensures CountOrphans(nodes, t) == 0
    decreases |nodes|
  {
    if nodes != [] {
      assert forall n | n in nodes[..|nodes| - 1] :: n in nodes;
      CountOrphansNone(nodes[..|nodes| - 1], t);
    }
  }

  datatype OrphanCounts = OrphanCounts(problems: nat, initiatives: nat, epics: nat, features: nat)

  /** The banner counts as the graph shows them: orphan-flagged nodes of each type. */
  function GraphOrphanCounts(g: GraphData): OrphanCounts {
    OrphanCounts(CountOrphans(g.nodes, ProblemNode), CountOrphans(g.nodes, InitiativeNode),
                 CountOrphans(g.nodes, EpicNode), CountOrphans(g.nodes, FeatureNode))
  }

  /** `getOrphanCounts`: a second pass over problems and items with the same orphan checks.
      Its counts are exactly the orphan flags `getGraphData` shows. */
  method GetOrphanCounts(s: Store) returns (c: OrphanCounts)
    ensures c == GraphOrphanCounts(GraphOf(s))
  {
    var allRiProbLinks := AllProbLinks(s, s.items);
    var allRiObjLinks := AllObjLinks(s, s.items);
    var itemMap := ItemMapOf(s.items);
    var orphanProblems := CountProblemLoop(s, allRiProbLinks);
    var orphanInitiatives, orphanEpics, orphanFeatures := CountItemLoop(s, allRiProbLinks, allRiObjLinks, itemMap);
    c := OrphanCounts(orphanProblems, orphanInitiatives, orphanEpics, orphanFeatures);
    CountsAgree(s, c);
  }

  /** The problem loop of `getOrphanCounts`. */
  method CountProblemLoop(s: Store, allRiProbLinks: seq<ProbLinkView>) returns (orphanProblems: nat)
    requires allRiProbLinks == AllProbLinks(s, s.items)
    ensures orphanProblems == CountOrphans(ProblemNodes(s, s.problems), ProblemNode)
  {
    orphanProblems := 0;
    ghost var nodes: seq<GraphNode> := [];
    for i := 0 to |s.problems|
      invariant nodes == ProblemNodes(s, s.problems[..i])
      invariant orphanProblems == CountOrphans(nodes, ProblemNode)
    {
      var prob := s.problems[i];
      ghost var n := ProblemNodeOf(s, prob);
      ProblemNodesSnoc(s, s.problems, i);
      CountOrphansSnoc(nodes, n);
      if IsOrphanProblem(prob.id, prob.status, allRiProbLinks) {
        orphanProblems := orphanProblems + 1;
      }
      nodes := nodes + [n];
    }
    assert s.problems[..|s.problems|] == s.problems;
  }

  /** The item loop of `getOrphanCounts`: the type test picks the same check the graph uses. */
  method CountItemLoop(s: Store, allRiProbLinks: seq<ProbLinkView>, allRiObjLinks: seq<ObjLinkView>,
                       itemMap: map<Id, ItemEntry>)
    returns (orphanInitiatives: nat, orphanEpics: nat, orphanFeatures: nat)
    requires allRiProbLinks == AllProbLinks(s, s.items) && allRiObjLinks == AllObjLinks(s, s.items)
    requires itemMap == ItemMapOf(s.items)
    ensures orphanInitiatives == CountOrphans(ItemNodes(s, s.items), InitiativeNode)
    ensures orphanEpics == CountOrphans(ItemNodes(s, s.items), EpicNode)
    ensures orphanFeatures == CountOrphans(ItemNodes(s, s.items), FeatureNode)
  {
    orphanInitiatives, orphanEpics, orphanFeatures := 0, 0, 0;
    for i := 0 to |s.items|
      invariant ItemCounts(ItemNodes(s, s.items[..i]), orphanInitiatives, orphanEpics, orphanFeatures)
    {
      ItemNodesSnoc(s, s.items, i);
      ItemCountsSnoc(ItemNodes(s, s.items[..i]), ItemNodeOf(s, s.items[i]),
                     orphanInitiatives, orphanEpics, orphanFeatures);
      orphanInitiatives, orphanEpics, orphanFeatures :=
        CountItem(s, s.items[i], allRiProbLinks, allRiObjLinks, itemMap,
                  orphanInitiatives, orphanEpics, orphanFeatures);
    }
    assert s.items[..|s.items|] == s.items;
  }

  /** The three item counters agree with the orphan flags of `nodes`. */
  predicate ItemCounts(nodes: seq<GraphNode>, initiatives: nat, epics: nat, features: nat) {
    && initiatives == CountOrphans(nodes, InitiativeNode)
    && epics == CountOrphans(nodes, EpicNode)
    && features == CountOrphans(nodes, FeatureNode)
  }

  lemma ItemCountsSnoc(nodes: seq<GraphNode>, n: GraphNode, initiatives: nat, epics: nat, features: nat)
    requires ItemCounts(nodes, initiatives, epics, features)
    ensures ItemCounts(nodes + [n],
                       initiatives + (if n.nodeType == InitiativeNode && n.isOrphan then 1 else 0),
                       epics + (if n.nodeType == EpicNode && n.isOrphan then 1 else 0),
                       features + (if n.nodeType == FeatureNode && n.isOrphan then 1 else 0))
  {
    CountOrphansSnoc(nodes, n);
  }

  lemma ItemNodesSnoc(s: Store, items: seq<RoadmapItem>, i: nat)
    requires i < |items|
    ensures ItemNodes(s, items[..i + 1]) == ItemNodes(s, items[..i]) + [ItemNodeOf(s, items[i])]
  {
    assert items[..i + 1][..i] == items[..i];
  }

  lemma AllItemEdgesSnoc(s: Store, items: seq<RoadmapItem>, i: nat)
    requires i < |items|
    ensures AllItemEdges(s, items[..i + 1]) == AllItemEdges(s, items[..i]) + ItemEdges(s, items[i])
  {
    assert items[..i + 1][..i] == items[..i];
  }

  lemma ProblemNodesSnoc(s: Store, ps: seq<Problem>, i: nat)
    requires i < |ps|
    ensures ProblemNodes(s, ps[..i + 1]) == ProblemNodes(s, ps[..i]) + [ProblemNodeOf(s, ps[i])]
  {
    assert ps[..i + 1][..i] == ps[..i];
  }

  lemma AllProblemEdgesSnoc(s: Store, ps: seq<Problem>, i: nat)
    requires i < |ps|
    ensures AllProblemEdges(s, ps[..i + 1]) ==
      AllProblemEdges(s, ps[..i]) + DerivedFromEdges(NodeId(ProblemNode, ps[i].id), SignalLinksOf(s.signalProblems, ps[i].id))
  {
    assert ps[..i + 1][..i] == ps[..i];
  }

  /** One pass of the item loop: the type test, then that type's check. */
  method CountItem(s: Store, item: RoadmapItem, allRiProbLinks: seq<ProbLinkView>,
                   allRiObjLinks: seq<ObjLinkView>, itemMap: map<Id, ItemEntry>,
                   initiatives: nat, epics: nat, features: nat)
    returns (initiatives': nat, epics': nat, features': nat)
    requires allRiProbLinks == AllProbLinks(s, s.items) && allRiObjLinks == AllObjLinks(s, s.items)
    requires itemMap == ItemMapOf(s.items)
    ensures var n := ItemNodeOf(s, item);
      && initiatives' == initiatives + (if n.nodeType == InitiativeNode && n.isOrphan then 1 else 0)
      && epics' == epics + (if n.nodeType == EpicNode && n.isOrphan then 1 else 0)
      && features' == features + (if n.nodeType == FeatureNode && n.isOrphan then 1 else 0)
  {
    ItemNodeByType(s, item);
    initiatives', epics', features' := initiatives, epics, features;
    if item.itemType == "initiative" {
      if IsOrphanInitiative(item.id, allRiObjLinks, allRiProbLinks, item.status) {
        initiatives' := initiatives + 1;
      }
    } else if item.itemType == "epic" {
      if IsOrphanEpic(item, allRiProbLinks, allRiProbLinks) {
        epics' := epics + 1;
      }
    } else {
      if IsOrphanFeature(item, allRiProbLinks, allRiProbLinks, itemMap) {
        features' := features + 1;
      }
    }
  }

  /** An item node's type and flag, by the type test `getOrphanCounts` makes. */
  lemma ItemNodeByType(s: Store, item: RoadmapItem)
    ensures var n := ItemNodeOf(s, item);
      var probLinks := AllProbLinks(s, s.items);
      if item.itemType == "initiative" then
        n.nodeType == InitiativeNode &&
        n.isOrphan == IsOrphanInitiative(item.id, AllObjLinks(s, s.items), probLinks, item.status)
      else if item.itemType == "epic" then
        n.nodeType == EpicNode && n.isOrphan == IsOrphanEpic(item, probLinks, probLinks)
      else
        n.nodeType == FeatureNode &&
        n.isOrphan == IsOrphanFeature(item, probLinks, probLinks, ItemMapOf(s.items))
  {
  }

  /** The objective, item, problem and signal blocks each contribute only their own types. */
  lemma CountsAgree(s: Store, c: OrphanCounts)
    requires c.problems == CountOrphans(ProblemNodes(s, s.problems), ProblemNode)
    requires c.initiatives == CountOrphans(ItemNodes(s, s.items), InitiativeNode)
    requires c.epics == CountOrphans(ItemNodes(s, s.items), EpicNode)
    requires c.features == CountOrphans(ItemNodes(s, s.items), FeatureNode)
    ensures c == GraphOrphanCounts(GraphOf(s))
  {
    var o, it, p, g := ObjectiveNodes(s.objectives), ItemNodes(s, s.items),
                       ProblemNodes(s, s.problems), SignalNodes(s.signals);
    assert GraphOf(s).nodes == o + it + p + g;
    CountsOfBlocks(o, it, p, g);
  }

  /** Node blocks laid out as `getGraphData` lays them out, each holding only its own types. */
  lemma CountsOfBlocks(o: seq<GraphNode>, it: seq<GraphNode>, p: seq<GraphNode>, g: seq<GraphNode>)
    requires forall n | n in o :: !n.isOrphan
    requires forall n | n in g :: !n.isOrphan
    requires forall n | n in it :: n.nodeType != ProblemNode
    requires forall n | n in p :: n.nodeType == ProblemNode
    ensures CountOrphans(o + it + p + g, ProblemNode) == CountOrphans(p, ProblemNode)
    ensures CountOrphans(o + it + p + g, InitiativeNode) == CountOrphans(it, InitiativeNode)
    ensures CountOrphans(o + it + p + g, EpicNode) == CountOrphans(it, EpicNode)
    ensures CountOrphans(o + it + p + g, FeatureNode) == CountOrphans(it, FeatureNode)
  {
    CountsSplit(o, it, p, g, ProblemNode);
    CountsSplit(o, it, p, g, InitiativeNode);
    CountsSplit(o, it, p, g, EpicNode);
    CountsSplit(o, it, p, g, FeatureNode);
    CountOrphansNone(it, ProblemNode);
    CountOrphansNone(p, InitiativeNode);
    CountOrphansNone(p, EpicNode);
    CountOrphansNone(p, FeatureNode);
  }

  lemma CountsSplit(o: seq<GraphNode>, it: seq<GraphNode>, p: seq<GraphNode>, g: seq<GraphNode>, t: NodeType)
    requires forall n | n in o :: !n.isOrphan
    requires forall n | n in g :: !n.isOrphan
    ensures CountOrphans(o + it + p + g, t) == CountOrphans(it, t) + CountOrphans(p, t)
  {
    CountOrphansAppend(o + it + p, g, t);
    CountOrphansAppend(o + it, p, t);
    CountOrphansAppend(o, it, t);
    CountOrphansNone(o, t);
    CountOrphansNone(g, t);
  }
}
