/** The orphan flags of the strategy graph, read against the store: each of the four checks
    says exactly what the traceability rule says, once the joined link rows and the item map
    are unfolded. */
module OrphanRules {
  import opened Wrappers
  import opened Schema
  import opened Justification
  import opened Graph

  /** Within the items, the id determines the row. */
  predicate ItemKeysUnique(items: seq<RoadmapItem>) {
    forall a, b | a in items && b in items && a.id == b.id :: a == b
  }

  /** Some roadmap-item–problem row names the problem. */
  predicate HasProblemLink(s: Store, problemId: Id) {
    exists l | l in s.itemProblems :: l.problemId == problemId
  }

  /** With unique ids the first match is the one row with that id. */
  lemma FindItemIsTheRow(items: seq<RoadmapItem>, it: RoadmapItem)
    requires ItemKeysUnique(items) && it in items
    ensures FindItem(items, it.id) == Some(it)
  {
  }

  lemma FindProblemIsTheRow(problems: seq<Problem>, p: Problem)
    requires (forall a, b | a in problems && b in problems && a.id == b.id :: a == b) && p in problems
    ensures FindProblem(problems, p.id) == Some(p)
  {
  }

  /** With unique ids `itemMap` holds the same entry `findFirst` would read. */
  lemma ItemMapIsFind(items: seq<RoadmapItem>, x: Id)
    requires ItemKeysUnique(items)
    ensures x in ItemMapOf(items) <==> FindItem(items, x).Some?
    ensures x in ItemMapOf(items) ==>
      ItemMapOf(items)[x] == ItemEntry(FindItem(items, x).value.parentId, FindItem(items, x).value.itemType)
  {
    var m := ItemMapOf(items);
    if x in m {
      var it :| it in items && it.id == x && m[x] == ItemEntry(it.parentId, it.itemType);
      FindItemIsTheRow(items, it);
    }
    if FindItem(items, x).Some? {
      assert FindItem(items, x).value in items;
    }
  }

  /** The joined rows show an accepted problem for `id` exactly when the item exists and one
      of its links names an accepted problem. */
  lemma AcceptedViewIsAcceptedOn(s: Store, id: Id)
    ensures AcceptedViewFor(AllProbLinks(s, s.items), id) <==> AcceptedOn(s, id)
  {
    var links := AllProbLinks(s, s.items);
    if AcceptedViewFor(links, id) {
      var v :| v in links && v.roadmapItemId == id && Accepted(v);
      AllProbLinksSound(s, s.items, v);
      var l :| l in s.itemProblems && v == ProbView(s, l);
      assert l.roadmapItemId == id && ProblemAccepted(s, l.problemId);
    }
    if AcceptedOn(s, id) {
      var l :| l in s.itemProblems && l.roadmapItemId == id && ProblemAccepted(s, l.problemId);
      AllProbLinksComplete(s, s.items, l);
      assert ProbView(s, l) in links && Accepted(ProbView(s, l));
    }
  }

  /** For an existing item, the reduced objective rows show a link exactly when the table
      holds one. */
  lemma ObjectiveViewIsLink(s: Store, id: Id)
    requires HasItem(s, id)
    ensures (exists l | l in AllObjLinks(s, s.items) :: l.roadmapItemId == id) <==> HasObjectiveLink(s, id)
  {
    var links := AllObjLinks(s, s.items);
    if exists v | v in links :: v.roadmapItemId == id {
      var v :| v in links && v.roadmapItemId == id;
      AllObjLinksSound(s, s.items, v);
      var l :| l in s.itemObjectives && v == ObjLinkView(l.roadmapItemId, l.objectiveId);
    }
    if HasObjectiveLink(s, id) {
      var l :| l in s.itemObjectives && l.roadmapItemId == id;
      AllObjLinksComplete(s, s.items, l);
      assert ObjLinkView(l.roadmapItemId, l.objectiveId) in links;
    }
  }

  /** The orphan flag of an item's node is the traceability rule: an active initiative is an
      orphan when it lacks an objective link or an accepted problem; an active epic when it
      has no parent or neither it nor its parent carries an accepted problem; an active
      feature (and any other type) when it has no parent or neither it, its parent nor its
      grandparent does. A parent that names no item contributes nothing. */
  lemma ItemOrphanRule(s: Store, item: RoadmapItem)
    requires ItemKeysUnique(s.items) && item in s.items
    ensures ItemOrphan(s, item) <==> Unjustified(s, item)
  {
    if item.itemType == "initiative" {
      InitiativeOrphanRule(s, item);
    } else if item.itemType == "epic" {
      EpicOrphanRule(s, item);
    } else {
      FeatureOrphanRule(s, item);
    }
  }

  lemma InitiativeOrphanRule(s: Store, item: RoadmapItem)
    requires ItemKeysUnique(s.items) && item in s.items && item.itemType == "initiative"
    ensures ItemOrphan(s, item) <==> Unjustified(s, item)
  {
    AcceptedViewIsAcceptedOn(s, item.id);
    ObjectiveViewIsLink(s, item.id);
  }

  lemma EpicOrphanRule(s: Store, item: RoadmapItem)
    requires ItemKeysUnique(s.items) && item in s.items && item.itemType == "epic"
    ensures ItemOrphan(s, item) <==> Unjustified(s, item)
  {
    AcceptedViewIsAcceptedOn(s, item.id);
    OneLevelAncestors(s, item.parentId);
    if Present(item.parentId) {
      AcceptedViewIsAcceptedOn(s, item.parentId.value);
    }
  }

  lemma FeatureOrphanRule(s: Store, item: RoadmapItem)
    requires ItemKeysUnique(s.items) && item in s.items
    requires item.itemType != "initiative" && item.itemType != "epic"
    ensures ItemOrphan(s, item) <==> Unjustified(s, item)
  {
    var links := AllProbLinks(s, s.items);
    assert ItemOrphan(s, item) == IsOrphanFeature(item, links, links, ItemMapOf(s.items));
    if ActiveStatus(item.status) && Present(item.parentId) {
      FeatureWithParentRule(s, item, item.parentId.value);
    }
  }

  /** The two-hop justification of an item whose parent is `p`, spelled out. */
  lemma JustifiedTwoHops(s: Store, id: Id, p: Id)
    requires p != ""
    ensures Justified(s, id, Some(p), 2) <==>
      || AcceptedOn(s, id) || AcceptedOn(s, p)
      || (FindItem(s.items, p).Some? && Present(FindItem(s.items, p).value.parentId)
          && AcceptedOn(s, FindItem(s.items, p).value.parentId.value))
  {
    TwoLevelAncestors(s, Some(p));
  }

  lemma FeatureWithParentRule(s: Store, item: RoadmapItem, p: Id)
    requires ItemKeysUnique(s.items)
    requires item.parentId == Some(p) && p != ""
    ensures var links := AllProbLinks(s, s.items);
      IsOrphanFeature(item, links, links, ItemMapOf(s.items)) <==>
        ActiveStatus(item.status) && !Justified(s, item.id, Some(p), 2)
  {
    var links := AllProbLinks(s, s.items);
    var m := ItemMapOf(s.items);
    JustifiedTwoHops(s, item.id, p);
    AcceptedViewIsAcceptedOn(s, item.id);
    AcceptedViewIsAcceptedOn(s, p);
    ItemMapIsFind(s.items, p);
    if p in m && Present(m[p].parentId) {
      AcceptedViewIsAcceptedOn(s, m[p].parentId.value);
    }
  }

  /** A problem's node is an orphan exactly when the problem is accepted and no roadmap-item
      link names it, provided every link names an existing item (the foreign key). */
  lemma ProblemOrphanRule(s: Store, p: Problem)
    requires forall l | l in s.itemProblems :: HasItem(s, l.roadmapItemId)
    ensures ProblemOrphan(s, p) <==> p.status == "accepted" && !HasProblemLink(s, p.id)
  {
    var links := AllProbLinks(s, s.items);
    if exists v | v in links :: v.problemId == p.id {
      var v :| v in links && v.problemId == p.id;
      AllProbLinksSound(s, s.items, v);
      var l :| l in s.itemProblems && v == ProbView(s, l);
      assert l.problemId == p.id;
    }
    if HasProblemLink(s, p.id) {
      var l :| l in s.itemProblems && l.problemId == p.id;
      AllProbLinksComplete(s, s.items, l);
      assert ProbView(s, l) in links;
    }
  }

  /** Problems outside the accepted status, and items outside the active statuses, are never
      orphans. */
  lemma InactiveNeverOrphan(s: Store, item: RoadmapItem, p: Problem)
    ensures !ActiveStatus(item.status) ==> !ItemOrphan(s, item)
    ensures p.status != "accepted" ==> !ProblemOrphan(s, p)
  {
  }

  /** An active epic without a parent is an orphan even when it carries an accepted problem of
      its own. */
  lemma ParentlessEpicIsOrphan(s: Store, item: RoadmapItem)
    requires item.itemType == "epic" && ActiveStatus(item.status) && !Present(item.parentId)
    ensures ItemOrphan(s, item)
  {
  }
}
