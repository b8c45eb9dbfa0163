/** The detail panel of a selected graph node: its linked neighbours, the page it links to,
    the link actions it offers, and the dispatch of the "Confirm" button. */
module NodeDetail {
  import opened Wrappers
  import opened Collections
  import opened Schema
  import opened Graph

  // ─── getLinkedNodes ──────────────────────────────────────

  /** A neighbour of the selected node and the kind of the edge that joins them. */
  datatype Linked = Linked(node: GraphNode, edgeType: EdgeType)

  /** The first node whose id is `id`, if there is one. */
  function FindNode(nodes: seq<GraphNode>, id: string): (r: Option<GraphNode>)
    ensures r.Some? <==> HasNode(nodes, id)
    ensures r.Some? ==> r.value.id == id
    ensures r.Some? ==>
      exists k | 0 <= k < |nodes| :: nodes[k] == r.value && forall j | 0 <= j < k :: nodes[j].id != id
    decreases |nodes|
  {
    if nodes == [] then None
    else if nodes[0].id == id then Some(nodes[0])
    else
      var r := FindNode(nodes[1..], id);
      assert forall n | n in nodes[1..] :: n in nodes;
      assert HasNode(nodes, id) ==> HasNode(nodes[1..], id) by {
        if HasNode(nodes, id) {
          var n :| n in nodes && n.id == id;
          var k :| 0 <= k < |nodes| && nodes[k] == n;
          assert nodes[1..][k - 1] == n;
        }
      }
      if r.Some? then
        assert exists k | 0 <= k < |nodes| :: nodes[k] == r.value && forall j | 0 <= j < k :: nodes[j].id != id by {
          var k :| 0 <= k < |nodes[1..]| && nodes[1..][k] == r.value &&
            forall j | 0 <= j < k :: nodes[1..][j].id != id;
          assert nodes[k + 1] == r.value;
          forall j | 0 <= j < k + 1 ensures nodes[j].id != id {
            if j > 0 {
              assert nodes[j] == nodes[1..][j - 1];
            }
          }
        }
        r
      else r
  }

  /** The edge touches the node. */
  predicate Incident(e: GraphEdge, nodeId: string) {
    e.source == nodeId || e.target == nodeId
  }

  /** The end of the edge that is not `nodeId`. */
  function OtherEnd(e: GraphEdge, nodeId: string): string {
    if e.source == nodeId then e.target else e.source
  }

  /** The edge touches the node and its other end is a node of the graph. */
  predicate Resolves(e: GraphEdge, nodeId: string, allNodes: seq<GraphNode>) {
    Incident(e, nodeId) && HasNode(allNodes, OtherEnd(e, nodeId))
  }

  /** The entry a resolving edge contributes. */
  function Via(e: GraphEdge, nodeId: string, allNodes: seq<GraphNode>): (l: Linked)
    requires Resolves(e, nodeId, allNodes)
    ensures l.node in allNodes && l.node.id == OtherEnd(e, nodeId) && l.edgeType == e.edgeType
  {
    var n := FindNode(allNodes, OtherEnd(e, nodeId)).value;
    assert n in allNodes by {
      var k :| 0 <= k < |allNodes| && allNodes[k] == n && forall j | 0 <= j < k :: allNodes[j].id != n.id;
    }
    Linked(n, e.edgeType)
  }

  /** `getLinkedNodes(nodeId, edges, allNodes)`: the incident edges, each mapped to its other
      end looked up in `allNodes`, with the ends that are missing dropped. */
  function LinkedNodes(nodeId: string, edges: seq<GraphEdge>, allNodes: seq<GraphNode>): (r: seq<Linked>)
    ensures |r| <= |edges|
    decreases |edges|
  {
    if edges == [] then []
    else
      var rest := LinkedNodes(nodeId, edges[..|edges| - 1], allNodes);
      var e := edges[|edges| - 1];
      var other := FindNode(allNodes, OtherEnd(e, nodeId));
      if Incident(e, nodeId) && other.Some? then rest + [Linked(other.value, e.edgeType)] else rest
  }

  /** One entry per edge that touches the node and whose other end exists, in edge order,
      holding that other end and tagged with the edge's type. */
  lemma {:induction false} LinkedNodesPerEdge(nodeId: string, edges: seq<GraphEdge>, allNodes: seq<GraphNode>)
    ensures var es := Filter(edges, (e: GraphEdge) => Resolves(e, nodeId, allNodes));
      var r := LinkedNodes(nodeId, edges, allNodes);
      && |r| == |es|
      && forall k | 0 <= k < |r| :: Resolves(es[k], nodeId, allNodes) && r[k] == Via(es[k], nodeId, allNodes)
    decreases |edges|
  {
    var keep := (e: GraphEdge) => Resolves(e, nodeId, allNodes);
    if edges != [] {
      var init := edges[..|edges| - 1];
      var e := edges[|edges| - 1];
      assert edges == init + [e];
      LinkedNodesPerEdge(nodeId, init, allNodes);
      FilterSnoc(init, e, keep);
      var es0 := Filter(init, keep);
      forall k | 0 <= k < |es0| ensures es0[k] in edges {
        assert es0[k] in es0;
      }
    }
  }

  // ─── getDetailLink ───────────────────────────────────────

  /** `getDetailLink(node)`: the page holding the node's entity. Every node type has one, so the
      `default: null` branch of the switch is not reachable. */
  function DetailLink(node: GraphNode): (r: string)
    ensures r == "/roadmap" <==> node.nodeType in {InitiativeNode, EpicNode, FeatureNode}
    ensures node.nodeType == ProblemNode <==> |r| >= 10 && r[..10] == "/problems/"
    ensures node.nodeType == ProblemNode ==> r[10..] == node.entityId
    ensures r == "/objectives" <==> node.nodeType == ObjectiveNode
    ensures r == "/inbox" <==> node.nodeType == SignalNode
  {
    var problemPage := "/problems/" + node.entityId;
    assert problemPage[1] == 'p' && problemPage[..10] == "/problems/";
    match node.nodeType
    case ObjectiveNode => assert "/objectives"[1] == 'o'; "/objectives"
    case InitiativeNode => "/roadmap"
    case EpicNode => "/roadmap"
    case FeatureNode => "/roadmap"
    case ProblemNode => problemPage
    case SignalNode => "/inbox"
  }

  // ─── canLinkTo ───────────────────────────────────────────

  /** The `type` of an offered link. */
  datatype LinkKind = ProblemLink | ObjectiveLink | ParentInitiative | ParentEpic

  /** The position of a kind in the panel, top to bottom. */
  function Rank(k: LinkKind): nat {
    match k
    case ProblemLink => 0
    case ObjectiveLink => 1
    case ParentInitiative => 2
    case ParentEpic => 3
  }

  function KindLabel(k: LinkKind): string {
    match k
    case ProblemLink => "Link Problem"
    case ObjectiveLink => "Link Objective"
    case ParentInitiative => "Set Parent Initiative"
    case ParentEpic => "Set Parent Epic"
  }

  /** One entry of `canLinkTo`: a button and the nodes its picker lists. */
  datatype LinkOffer = LinkOffer(caption: string, kind: LinkKind, options: seq<GraphNode>)

  predicate IsRoadmap(t: NodeType) {
    t == InitiativeNode || t == EpicNode || t == FeatureNode
  }

  /** The entity ids of the neighbours of type `t`. */
  function LinkedEntityIds(linked: seq<Linked>, t: NodeType): set<Id> {
    set l | l in linked && l.node.nodeType == t :: l.node.entityId
  }

  /** The nodes of type `t` whose entity is not already a neighbour, in graph order. */
  function Unlinked(allNodes: seq<GraphNode>, linked: seq<Linked>, t: NodeType): seq<GraphNode> {
    Filter(allNodes, (n: GraphNode) => n.nodeType == t && n.entityId !in LinkedEntityIds(linked, t))
  }

  /** A node is available exactly when it is of type `t` and no neighbour of type `t` carries
      its entity id. */
  lemma UnlinkedIff(allNodes: seq<GraphNode>, linked: seq<Linked>, t: NodeType, n: GraphNode)
    ensures n in Unlinked(allNodes, linked, t) <==>
      && n in allNodes && n.nodeType == t
      && forall l | l in linked && l.node.nodeType == t :: l.node.entityId != n.entityId
  {
    if n in allNodes && n.nodeType == t && n.entityId in LinkedEntityIds(linked, t) {
      var l :| l in linked && l.node.nodeType == t && l.node.entityId == n.entityId;
    }
  }

  /** The nodes of type `t`, in graph order. */
  function OfNodeType(allNodes: seq<GraphNode>, t: NodeType): seq<GraphNode> {
    Filter(allNodes, (n: GraphNode) => n.nodeType == t)
  }

  /** Some neighbour of type `t` is joined by a `contains` edge. */
  predicate HasContainsParent(linked: seq<Linked>, t: NodeType) {
    exists l | l in linked :: l.edgeType == Contains && l.node.nodeType == t
  }

  /** Some offer is of kind `k`. */
  predicate Offered(offers: seq<LinkOffer>, k: LinkKind) {
    exists o | o in offers :: o.kind == k
  }

  /** Who may take a link of kind `k`: any roadmap node a problem; an initiative an objective;
      an epic without an initiative parent an initiative; a feature without an epic parent,
      including a legacy feature under an initiative, an epic. */
  predicate Eligible(node: GraphNode, linked: seq<Linked>, k: LinkKind) {
    match k
    case ProblemLink => IsRoadmap(node.nodeType)
    case ObjectiveLink => node.nodeType == InitiativeNode
    case ParentInitiative => node.nodeType == EpicNode && !HasContainsParent(linked, InitiativeNode)
    case ParentEpic => node.nodeType == FeatureNode && !HasContainsParent(linked, EpicNode)
  }

  /** What the picker of kind `k` lists: the problems or objectives not yet linked, or every
      initiative or epic. */
  function Options(allNodes: seq<GraphNode>, linked: seq<Linked>, k: LinkKind): seq<GraphNode> {
    match k
    case ProblemLink => Unlinked(allNodes, linked, ProblemNode)
    case ObjectiveLink => Unlinked(allNodes, linked, ObjectiveNode)
    case ParentInitiative => OfNodeType(allNodes, InitiativeNode)
    case ParentEpic => OfNodeType(allNodes, EpicNode)
  }

  /** The offer of kind `k`, left out when the node may not take it or nothing is left to pick. */
  function OfferFor(node: GraphNode, allNodes: seq<GraphNode>, linked: seq<Linked>, k: LinkKind): seq<LinkOffer> {
    if Eligible(node, linked, k) && Options(allNodes, linked, k) != [] then
      [LinkOffer(KindLabel(k), k, Options(allNodes, linked, k))]
    else []
  }

  /** The `canLinkTo` list: the offers in the panel's order. */
  function Offers(node: GraphNode, allNodes: seq<GraphNode>, edges: seq<GraphEdge>): seq<LinkOffer> {
    var linked := LinkedNodes(node.id, edges, allNodes);
    OfferFor(node, allNodes, linked, ProblemLink) + OfferFor(node, allNodes, linked, ObjectiveLink)
      + OfferFor(node, allNodes, linked, ParentInitiative) + OfferFor(node, allNodes, linked, ParentEpic)
  }

  /** An offer of kind `k` is captioned by its kind and lists exactly the options of its kind,
      and appears exactly when the node may take it and something is left to pick. */
  lemma OfferForSpec(node: GraphNode, allNodes: seq<GraphNode>, linked: seq<Linked>, k: LinkKind)
    ensures var p := OfferFor(node, allNodes, linked, k);
      && |p| <= 1
      && (p != [] <==> Eligible(node, linked, k) && Options(allNodes, linked, k) != [])
      && forall o | o in p ::
           o.kind == k && o.caption == KindLabel(k) && o.options == Options(allNodes, linked, k)
  {
  }

  /** The kinds come in the panel's order, so each appears at most once. */
  lemma OffersOrdered(node: GraphNode, allNodes: seq<GraphNode>, edges: seq<GraphEdge>)
    ensures var offers := Offers(node, allNodes, edges);
      forall i, j | 0 <= i < j < |offers| :: Rank(offers[i].kind) < Rank(offers[j].kind)
  {
    var linked := LinkedNodes(node.id, edges, allNodes);
    var p, q := OfferFor(node, allNodes, linked, ProblemLink), OfferFor(node, allNodes, linked, ObjectiveLink);
    var r, t := OfferFor(node, allNodes, linked, ParentInitiative), OfferFor(node, allNodes, linked, ParentEpic);
    OfferForSpec(node, allNodes, linked, ProblemLink);
    OfferForSpec(node, allNodes, linked, ObjectiveLink);
    OfferForSpec(node, allNodes, linked, ParentInitiative);
    OfferForSpec(node, allNodes, linked, ParentEpic);
    var offers := p + q + r + t;
    forall i | 0 <= i < |offers|
      ensures Rank(offers[i].kind) ==
        if i < |p| then 0 else if i < |p + q| then 1 else if i < |p + q + r| then 2 else 3
    {
      if i < |p| {
        assert offers[i] in p;
      } else if i < |p + q| {
        assert offers[i] == q[i - |p|] && q[i - |p|] in q;
      } else if i < |p + q + r| {
        assert offers[i] == r[i - |p + q|] && r[i - |p + q|] in r;
      } else {
        assert offers[i] == t[i - |p + q + r|] && t[i - |p + q + r|] in t;
      }
    }
  }

  /** The node is offered kind `k` exactly when it may take it and something is left to pick;
      every offer is captioned by its kind and lists exactly the options of its kind. */
  lemma OffersSpec(node: GraphNode, allNodes: seq<GraphNode>, edges: seq<GraphEdge>, k: LinkKind)
    ensures var offers, linked := Offers(node, allNodes, edges), LinkedNodes(node.id, edges, allNodes);
      && (Offered(offers, k) <==> Eligible(node, linked, k) && Options(allNodes, linked, k) != [])
      && forall o | o in offers && o.kind == k ::
           o.caption == KindLabel(k) && o.options == Options(allNodes, linked, k) && o.options != []
  {
    var linked := LinkedNodes(node.id, edges, allNodes);
    var p, q := OfferFor(node, allNodes, linked, ProblemLink), OfferFor(node, allNodes, linked, ObjectiveLink);
    var r, t := OfferFor(node, allNodes, linked, ParentInitiative), OfferFor(node, allNodes, linked, ParentEpic);
    OfferForSpec(node, allNodes, linked, ProblemLink);
    OfferForSpec(node, allNodes, linked, ObjectiveLink);
    OfferForSpec(node, allNodes, linked, ParentInitiative);
    OfferForSpec(node, allNodes, linked, ParentEpic);
    var mine := OfferFor(node, allNodes, linked, k);
    assert mine == KindPart(p, q, r, t, k);
    PartsOfKinds(p, q, r, t, k);
  }

  /** Of four lists of offers, the one that holds the offers of kind `k`. */
  function KindPart(p: seq<LinkOffer>, q: seq<LinkOffer>, r: seq<LinkOffer>, t: seq<LinkOffer>,
                    k: LinkKind): seq<LinkOffer> {
    match k
    case ProblemLink => p
    case ObjectiveLink => q
    case ParentInitiative => r
    case ParentEpic => t
  }

  /** Four lists, each of one kind in the panel's order: the offers of kind `k` among them all
      are that kind's list. */
  lemma PartsOfKinds(p: seq<LinkOffer>, q: seq<LinkOffer>, r: seq<LinkOffer>, t: seq<LinkOffer>, k: LinkKind)
    requires forall o | o in p :: o.kind == ProblemLink
    requires forall o | o in q :: o.kind == ObjectiveLink
    requires forall o | o in r :: o.kind == ParentInitiative
    requires forall o | o in t :: o.kind == ParentEpic
    ensures forall o | o in p + q + r + t && o.kind == k :: o in KindPart(p, q, r, t, k)
    ensures Offered(p + q + r + t, k) <==> KindPart(p, q, r, t, k) != []
  {
    var mine := KindPart(p, q, r, t, k);
    if mine != [] {
      assert mine[0] in p + q + r + t;
    }
  }

  /** The `canLinkTo` list built by conditional pushes. */
  method CanLinkTo(node: GraphNode, allNodes: seq<GraphNode>, edges: seq<GraphEdge>)
    returns (offers: seq<LinkOffer>)
    ensures offers == Offers(node, allNodes, edges)
  {
    var linked := LinkedNodes(node.id, edges, allNodes);
    offers := [];
    if IsRoadmap(node.nodeType) {
      var available := Unlinked(allNodes, linked, ProblemNode);
      if |available| > 0 {
        offers := offers + [LinkOffer("Link Problem", ProblemLink, available)];
      }
    }
    assert offers == OfferFor(node, allNodes, linked, ProblemLink);
    if node.nodeType == InitiativeNode {
      var available := Unlinked(allNodes, linked, ObjectiveNode);
      if |available| > 0 {
        offers := offers + [LinkOffer("Link Objective", ObjectiveLink, available)];
      }
    }
    assert offers == OfferFor(node, allNodes, linked, ProblemLink) + OfferFor(node, allNodes, linked, ObjectiveLink);
    if node.nodeType == EpicNode {
      var hasParent := exists l | l in linked :: l.edgeType == Contains && l.node.nodeType == InitiativeNode;
      if !hasParent {
        var available := OfNodeType(allNodes, InitiativeNode);
        if |available| > 0 {
          offers := offers + [LinkOffer("Set Parent Initiative", ParentInitiative, available)];
        }
      }
    }
    assert offers == OfferFor(node, allNodes, linked, ProblemLink) + OfferFor(node, allNodes, linked, ObjectiveLink)
      + OfferFor(node, allNodes, linked, ParentInitiative);
    if node.nodeType == FeatureNode {
      var hasParent := exists l | l in linked :: l.edgeType == Contains && l.node.nodeType == EpicNode;
      if !hasParent {
        var available := OfNodeType(allNodes, EpicNode);
        if |available| > 0 {
          offers := offers + [LinkOffer("Set Parent Epic", ParentEpic, available)];
        }
      }
    }
  }

  // ─── handleAddLink ───────────────────────────────────────

  /** The server action the "Confirm" button calls. */
  datatype LinkAction =
    | LinkProblemToItem(itemId: Id, problemId: Id)
    | LinkObjectiveToItem(itemId: Id, objectiveId: Id)
    | SetParent(itemId: Id, parentId: Id)

  /** The call for a chosen kind: link a problem, link an objective, or set the parent. */
  function ActionFor(k: LinkKind, itemId: Id, selectedId: Id): (a: LinkAction)
    ensures a.itemId == itemId
    ensures a.LinkProblemToItem? <==> k == ProblemLink
    ensures a.LinkObjectiveToItem? <==> k == ObjectiveLink
    ensures a.SetParent? <==> k == ParentInitiative || k == ParentEpic
    ensures match a
      case LinkProblemToItem(_, p) => p == selectedId
      case LinkObjectiveToItem(_, o) => o == selectedId
      case SetParent(_, p) => p == selectedId
  {
    match k
    case ProblemLink => LinkProblemToItem(itemId, selectedId)
    case ObjectiveLink => LinkObjectiveToItem(itemId, selectedId)
    case ParentInitiative => SetParent(itemId, selectedId)
    case ParentEpic => SetParent(itemId, selectedId)
  }

  /** The panel's picker state: the open link kind and the picked entity id. */
  class LinkPicker {
    var linkType: Option<LinkKind>
    var selectedId: string

    constructor ()
      ensures linkType == None && selectedId == ""
    {
      linkType := None;
      selectedId := "";
    }

    /** A link button: open its picker, or close it when it is already open; the pick resets. */
    method ChooseKind(k: LinkKind)
      modifies this
      ensures linkType == (if old(linkType) == Some(k) then None else Some(k))
      ensures selectedId == ""
    {
      linkType := if linkType == Some(k) then None else Some(k);
      selectedId := "";
    }

    method Pick(id: string)
      modifies this
      ensures selectedId == id && linkType == old(linkType)
    {
      selectedId := id;
    }

    /** `handleAddLink` on `node`, the call's outcome given as `succeeded`. With no pick or no
        open kind nothing is called and nothing changes; otherwise the call for the open kind
        is made, and on success the picker closes. */
    method AddLink(node: GraphNode, succeeded: bool) returns (call: Option<LinkAction>)
      modifies this
      ensures old(selectedId) == "" || old(linkType).None? ==>
        call == None && linkType == old(linkType) && selectedId == old(selectedId)
      ensures old(selectedId) != "" && old(linkType).Some? ==>
        && call == Some(ActionFor(old(linkType).value, node.entityId, old(selectedId)))
        && (succeeded ==> linkType == None && selectedId == "")
        && (!succeeded ==> linkType == old(linkType) && selectedId == old(selectedId))
    {
      if selectedId == "" || linkType.None? {
        return None;
      }
      call := Some(ActionFor(linkType.value, node.entityId, selectedId));
      if succeeded {
        linkType := None;
        selectedId := "";
      }
    }
  }
}
