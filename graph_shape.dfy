/** The shape of the projected graph: every stored row has its node, every link row its
    edge, and every edge runs between two nodes of the graph. */
module GraphShape {
  import opened Wrappers
  import opened Schema
  import opened Justification
  import opened Graph
  import opened OrphanRules

  // ─── Membership in the recursively built sequences ───────

  lemma {:induction false} ItemNodeIn(s: Store, items: seq<RoadmapItem>, it: RoadmapItem)
    requires it in items
    ensures ItemNodeOf(s, it) in ItemNodes(s, items)
    decreases |items|
  {
    var init := items[..|items| - 1];
    assert items == init + [items[|items| - 1]];
    if it != items[|items| - 1] {
      ItemNodeIn(s, init, it);
    }
  }

  lemma {:induction false} AlignsToEdgesMember(source: string, links: seq<RoadmapItemObjective>, e: GraphEdge)
    ensures e in AlignsToEdges(source, links) <==> exists l | l in links :: e == AlignsToEdge(source, l)
    decreases |links|
  {
    if links != [] {
      var init := links[..|links| - 1];
      assert links == init + [links[|links| - 1]];
      AlignsToEdgesMember(source, init, e);
    }
  }

  lemma {:induction false} JustifiedByEdgesMember(source: string, links: seq<RoadmapItemProblem>, e: GraphEdge)
    ensures e in JustifiedByEdges(source, links) <==> exists l | l in links :: e == JustifiedByEdge(source, l)
    decreases |links|
  {
    if links != [] {
      var init := links[..|links| - 1];
      assert links == init + [links[|links| - 1]];
      JustifiedByEdgesMember(source, init, e);
    }
  }

  lemma {:induction false} DerivedFromEdgesMember(source: string, links: seq<SignalProblem>, e: GraphEdge)
    ensures e in DerivedFromEdges(source, links) <==> exists l | l in links :: e == DerivedFromEdge(source, l)
    decreases |links|
  {
    if links != [] {
      var init := links[..|links| - 1];
      assert links == init + [links[|links| - 1]];
      DerivedFromEdgesMember(source, init, e);
    }
  }

  lemma {:induction false} AllItemEdgesMember(s: Store, items: seq<RoadmapItem>, e: GraphEdge)
    ensures e in AllItemEdges(s, items) <==> exists it | it in items :: e in ItemEdges(s, it)
    decreases |items|
  {
    if items != [] {
      var init := items[..|items| - 1];
      assert items == init + [items[|items| - 1]];
      AllItemEdgesMember(s, init, e);
    }
  }

  lemma {:induction false} AllProblemEdgesMember(s: Store, ps: seq<Problem>, e: GraphEdge)
    ensures e in AllProblemEdges(s, ps) <==>
      exists p | p in ps :: e in DerivedFromEdges(NodeId(ProblemNode, p.id), SignalLinksOf(s.signalProblems, p.id))
    decreases |ps|
  {
    if ps != [] {
      var init := ps[..|ps| - 1];
      assert ps == init + [ps[|ps| - 1]];
      AllProblemEdgesMember(s, init, e);
    }
  }

  // ─── Nodes ───────────────────────────────────────────────

  /** Every stored objective, item, problem and signal has its node, with id
      `type + "-" + entityId`; an item's node carries the traceability verdict. */
  lemma EveryRowHasNode(s: Store)
    requires forall a, b | a in s.items && b in s.items && a.id == b.id :: a == b
    ensures var nodes := GraphOf(s).nodes;
      && (forall o | o in s.objectives :: HasNode(nodes, NodeId(ObjectiveNode, o.id)))
      && (forall it | it in s.items :: ItemNodeOf(s, it) in nodes
            && ItemNodeOf(s, it).id == NodeId(NodeTypeOf(it.itemType), it.id)
            && ItemNodeOf(s, it).isOrphan == Unjustified(s, it))
      && (forall p | p in s.problems :: ProblemNodeOf(s, p) in nodes
            && ProblemNodeOf(s, p).id == NodeId(ProblemNode, p.id))
      && (forall g | g in s.signals :: HasNode(nodes, NodeId(SignalNode, g.id)))
  {
    var g := GraphOf(s);
    forall o | o in s.objectives ensures HasNode(g.nodes, NodeId(ObjectiveNode, o.id)) {
      var n :| n in ObjectiveNodes(s.objectives) && n.id == NodeId(ObjectiveNode, o.id);
      assert n in g.nodes;
    }
    forall it | it in s.items
      ensures ItemNodeOf(s, it) in g.nodes && ItemNodeOf(s, it).isOrphan == Unjustified(s, it)
    {
      ItemNodeIn(s, s.items, it);
      ItemOrphanRule(s, it);
    }
    forall sg | sg in s.signals ensures HasNode(g.nodes, NodeId(SignalNode, sg.id)) {
      var n :| n in SignalNodes(s.signals) && n.id == NodeId(SignalNode, sg.id);
      assert n in g.nodes;
    }
  }

  /** Objective and signal nodes are never orphans; only item and problem nodes can be. */
  lemma OnlyItemsAndProblemsOrphan(s: Store, n: GraphNode)
    requires n in GraphOf(s).nodes && n.isOrphan
    ensures n.nodeType in {InitiativeNode, EpicNode, FeatureNode, ProblemNode}
  {
  }

  // ─── Edges ───────────────────────────────────────────────

  /** With the foreign keys in force, every edge runs from a node of the graph to a node of
      the graph. */
  lemma EdgeEndsAreNodes(s: Store, e: GraphEdge)
    requires RefsResolve(s) && e in GraphOf(s).edges
    ensures HasNode(GraphOf(s).nodes, e.source) && HasNode(GraphOf(s).nodes, e.target)
  {
    if e in AllItemEdges(s, s.items) {
      ItemEdgeEnds(s, e);
    } else {
      ProblemEdgeEnds(s, e);
    }
  }

  lemma ItemEdgeEnds(s: Store, e: GraphEdge)
    requires RefsResolve(s) && e in AllItemEdges(s, s.items)
    ensures HasNode(GraphOf(s).nodes, e.source) && HasNode(GraphOf(s).nodes, e.target)
  {
    var g := GraphOf(s);
    AllItemEdgesMember(s, s.items, e);
    var it :| it in s.items && e in ItemEdges(s, it);
    ItemNodeIn(s, s.items, it);
    var source := NodeId(NodeTypeOf(it.itemType), it.id);
    assert ItemNodeOf(s, it) in g.nodes && ItemNodeOf(s, it).id == source;
    if e in AlignsToEdges(source, ObjectiveLinksOf(s.itemObjectives, it.id)) {
      AlignsTargetIsNode(s, source, it, e);
    } else if e in ContainsEdges(s, it) {
      ContainsTargetIsNode(s, it, e);
    } else {
      JustifiedTargetIsNode(s, source, it, e);
    }
  }

  lemma AlignsTargetIsNode(s: Store, source: string, it: RoadmapItem, e: GraphEdge)
    requires RefsResolve(s) && it in s.items
    requires e in AlignsToEdges(source, ObjectiveLinksOf(s.itemObjectives, it.id))
    ensures e.source == source && HasNode(GraphOf(s).nodes, e.target)
  {
    var objLinks := ObjectiveLinksOf(s.itemObjectives, it.id);
    AlignsToEdgesMember(source, objLinks, e);
    var l :| l in objLinks && e == AlignsToEdge(source, l);
    assert l in s.itemObjectives;
    assert HasObjective(s, l.objectiveId);
    var o :| o in s.objectives && o.id == l.objectiveId;
    var objNodes := ObjectiveNodes(s.objectives);
    assert HasNode(objNodes, NodeId(ObjectiveNode, o.id));
    var n :| n in objNodes && n.id == NodeId(ObjectiveNode, o.id);
    assert GraphOf(s).nodes == objNodes + ItemNodes(s, s.items) + ProblemNodes(s, s.problems) + SignalNodes(s.signals);
    assert n in GraphOf(s).nodes;
  }

  lemma ContainsTargetIsNode(s: Store, it: RoadmapItem, e: GraphEdge)
    requires RefsResolve(s) && it in s.items && e in ContainsEdges(s, it)
    ensures e.source == NodeId(NodeTypeOf(it.itemType), it.id) && HasNode(GraphOf(s).nodes, e.target)
  {
    var m := ItemMapOf(s.items);
    var pid := it.parentId.value;
    var parent :| parent in s.items && parent.id == pid && m[pid] == ItemEntry(parent.parentId, parent.itemType);
    ItemNodeIn(s, s.items, parent);
    assert ItemNodeOf(s, parent) in GraphOf(s).nodes;
  }

  lemma JustifiedTargetIsNode(s: Store, source: string, it: RoadmapItem, e: GraphEdge)
    requires RefsResolve(s) && it in s.items
    requires e in JustifiedByEdges(source, ProblemLinksOf(s.itemProblems, it.id))
    ensures e.source == source && HasNode(GraphOf(s).nodes, e.target)
  {
    var probLinks := ProblemLinksOf(s.itemProblems, it.id);
    JustifiedByEdgesMember(source, probLinks, e);
    var l :| l in probLinks && e == JustifiedByEdge(source, l);
    var q :| q in s.problems && q.id == l.problemId;
    assert ProblemNodeOf(s, q) in GraphOf(s).nodes;
  }

  lemma ProblemEdgeEnds(s: Store, e: GraphEdge)
    requires RefsResolve(s) && e in GraphOf(s).edges && e !in AllItemEdges(s, s.items)
    ensures HasNode(GraphOf(s).nodes, e.source) && HasNode(GraphOf(s).nodes, e.target)
  {
    var g := GraphOf(s);
    assert e in AllProblemEdges(s, s.problems);
    AllProblemEdgesMember(s, s.problems, e);
    var q :| q in s.problems && e in DerivedFromEdges(NodeId(ProblemNode, q.id), SignalLinksOf(s.signalProblems, q.id));
    var source := NodeId(ProblemNode, q.id);
    var links := SignalLinksOf(s.signalProblems, q.id);
    DerivedFromEdgesMember(source, links, e);
    var l :| l in links && e == DerivedFromEdge(source, l);
    assert ProblemNodeOf(s, q) in g.nodes;
    var sg :| sg in s.signals && sg.id == l.signalId;
    var n :| n in SignalNodes(s.signals) && n.id == NodeId(SignalNode, sg.id);
    assert n in g.nodes;
  }

  /** No edge of the graph dangles. */
  lemma EdgesResolve(s: Store)
    requires RefsResolve(s)
    ensures forall e | e in GraphOf(s).edges ::
      HasNode(GraphOf(s).nodes, e.source) && HasNode(GraphOf(s).nodes, e.target)
  {
    forall e | e in GraphOf(s).edges
      ensures HasNode(GraphOf(s).nodes, e.source) && HasNode(GraphOf(s).nodes, e.target)
    {
      EdgeEndsAreNodes(s, e);
    }
  }

  /** Each objective link of an item gives an aligns-to edge from the item's node to the
      objective's node. */
  lemma AlignsToEdgeOfLink(s: Store, it: RoadmapItem, l: RoadmapItemObjective)
    requires it in s.items
    ensures l in s.itemObjectives && l.roadmapItemId == it.id ==>
      AlignsToEdge(NodeId(NodeTypeOf(it.itemType), it.id), l) in GraphOf(s).edges
  {
    if l in s.itemObjectives && l.roadmapItemId == it.id {
      var source := NodeId(NodeTypeOf(it.itemType), it.id);
      var links := ObjectiveLinksOf(s.itemObjectives, it.id);
      AlignsToEdgesMember(source, links, AlignsToEdge(source, l));
      AllItemEdgesMember(s, s.items, AlignsToEdge(source, l));
    }
  }

  /** Each problem link of an item gives a justified-by edge from the item's node to the
      problem's node. */
  lemma JustifiedByEdgeOfLink(s: Store, it: RoadmapItem, l: RoadmapItemProblem)
    requires it in s.items
    ensures l in s.itemProblems && l.roadmapItemId == it.id ==>
      JustifiedByEdge(NodeId(NodeTypeOf(it.itemType), it.id), l) in GraphOf(s).edges
  {
    if l in s.itemProblems && l.roadmapItemId == it.id {
      var source := NodeId(NodeTypeOf(it.itemType), it.id);
      var links := ProblemLinksOf(s.itemProblems, it.id);
      JustifiedByEdgesMember(source, links, JustifiedByEdge(source, l));
      AllItemEdgesMember(s, s.items, JustifiedByEdge(source, l));
    }
  }

  /** Each signal link of a problem gives a derived-from edge from the problem's node to the
      signal's node. */
  lemma DerivedFromEdgeOfLink(s: Store, p: Problem, l: SignalProblem)
    requires p in s.problems
    ensures l in s.signalProblems && l.problemId == p.id ==>
      DerivedFromEdge(NodeId(ProblemNode, p.id), l) in GraphOf(s).edges
  {
    if l in s.signalProblems && l.problemId == p.id {
      var source := NodeId(ProblemNode, p.id);
      var links := SignalLinksOf(s.signalProblems, p.id);
      DerivedFromEdgesMember(source, links, DerivedFromEdge(source, l));
      AllProblemEdgesMember(s, s.problems, DerivedFromEdge(source, l));
    }
  }

  /** Every aligns-to, justified-by and derived-from edge comes from a stored link row whose
      owner is in the store. */
  lemma LinkEdgesComeFromRows(s: Store, e: GraphEdge)
    requires e in GraphOf(s).edges
    ensures e.edgeType == AlignsTo ==>
      exists l, it | l in s.itemObjectives && it in s.items && l.roadmapItemId == it.id ::
        e == AlignsToEdge(NodeId(NodeTypeOf(it.itemType), it.id), l)
    ensures e.edgeType == JustifiedBy ==>
      exists l, it | l in s.itemProblems && it in s.items && l.roadmapItemId == it.id ::
        e == JustifiedByEdge(NodeId(NodeTypeOf(it.itemType), it.id), l)
    ensures e.edgeType == DerivedFrom ==>
      exists l, p | l in s.signalProblems && p in s.problems && l.problemId == p.id ::
        e == DerivedFromEdge(NodeId(ProblemNode, p.id), l)
  {
    if e in AllItemEdges(s, s.items) {
      AllItemEdgesMember(s, s.items, e);
      var it :| it in s.items && e in ItemEdges(s, it);
      var source := NodeId(NodeTypeOf(it.itemType), it.id);
      var objLinks := ObjectiveLinksOf(s.itemObjectives, it.id);
      var probLinks := ProblemLinksOf(s.itemProblems, it.id);
      AlignsToEdgesMember(source, objLinks, e);
      JustifiedByEdgesMember(source, probLinks, e);
      if e in AlignsToEdges(source, objLinks) {
        var l :| l in objLinks && e == AlignsToEdge(source, l);
      } else if e in JustifiedByEdges(source, probLinks) {
        var l :| l in probLinks && e == JustifiedByEdge(source, l);
      }
    } else {
      AllProblemEdgesMember(s, s.problems, e);
      var q :| q in s.problems && e in DerivedFromEdges(NodeId(ProblemNode, q.id), SignalLinksOf(s.signalProblems, q.id));
      var links := SignalLinksOf(s.signalProblems, q.id);
      DerivedFromEdgesMember(NodeId(ProblemNode, q.id), links, e);
      var l :| l in links && e == DerivedFromEdge(NodeId(ProblemNode, q.id), l);
    }
  }

  /** An item has a contains edge exactly when its `parentId` names an item; the edge points
      at that item's node, typed by the parent's own type. */
  lemma ContainsEdgeIffParentKnown(s: Store, it: RoadmapItem)
    requires forall a, b | a in s.items && b in s.items && a.id == b.id :: a == b
    ensures ContainsEdges(s, it) != [] <==> Present(it.parentId) && HasItem(s, it.parentId.value)
    ensures ContainsEdges(s, it) != [] ==>
      var parent := FindItem(s.items, it.parentId.value).value;
      ContainsEdges(s, it) == [GraphEdge("edge-contains-" + it.id, NodeId(NodeTypeOf(it.itemType), it.id),
                                         NodeId(NodeTypeOf(parent.itemType), parent.id), Contains)]
  {
    if Present(it.parentId) {
      ItemMapIsFind(s.items, it.parentId.value);
      if HasItem(s, it.parentId.value) {
        var x :| x in s.items && x.id == it.parentId.value;
        assert FindItem(s.items, it.parentId.value).Some?;
      }
    }
  }
}
