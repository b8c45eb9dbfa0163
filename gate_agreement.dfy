/** The write-side gates against the read-side graph: the commit gate blocks exactly the
    commits after which the item's node would be flagged an orphan, and the accept gate
    exactly the acceptances after which the problem's node would be. Creating and deleting
    are not gated, and can leave orphans behind. */
module GateAgreement {
  import opened Wrappers
  import opened Collections
  import opened Schema
  import opened Validators
  import opened Justification
  import opened Graph
  import opened OrphanRules
  import opened RoadmapItems
  import opened Problems
  import opened Database

  // ─── An update leaves the other rows as they were ────────

  lemma PatchRowsHasPatched(items: seq<RoadmapItem>, e: RoadmapItem, d: ItemFields, score: Option<int>)
    requires e in items
    ensures PatchedItem(e, d, score) in PatchRows(items, e.id, d, score)
  {
    var k :| 0 <= k < |items| && items[k] == e;
    assert PatchRows(items, e.id, d, score)[k] == PatchedItem(e, d, score);
  }

  /** An update of the row `id` changes no other row `findFirst` can return. */
  lemma FindItemAfterPatch(items: seq<RoadmapItem>, id: Id, d: ItemFields, score: Option<int>, x: Id)
    requires ItemKeysUnique(items) && x != id
    ensures FindItem(PatchRows(items, id, d, score), x) == FindItem(items, x)
  {
    if FindItem(items, x).Some? {
      FoundAfterPatch(items, id, d, score, FindItem(items, x).value);
    } else {
      var r := PatchRows(items, id, d, score);
      forall y | y in r ensures y.id != x {
        var k :| 0 <= k < |r| && r[k] == y;
        assert items[k] in items;
      }
    }
  }

  /** A row the update does not name is found, unchanged, after it. */
  lemma FoundAfterPatch(items: seq<RoadmapItem>, id: Id, d: ItemFields, score: Option<int>, it: RoadmapItem)
    requires ItemKeysUnique(items) && it in items && it.id != id
    ensures FindItem(PatchRows(items, id, d, score), it.id) == Some(it)
  {
    var r := PatchRows(items, id, d, score);
    PatchRowsKeepsKeys(items, id, d, score);
    var k :| 0 <= k < |items| && items[k] == it;
    assert r[k] == it;
    FindItemIsTheRow(r, it);
  }

  /** An update keeps every item's accepted problems: it touches neither links nor problems,
      nor which ids exist. */
  lemma AcceptedOnAfterPatch(s: Store, id: Id, d: ItemFields, score: Option<int>, x: Id)
    ensures AcceptedOn(s.(items := PatchRows(s.items, id, d, score)), x) <==> AcceptedOn(s, x)
  {
    PatchRowsKeepsIds(s, id, d, score);
  }

  /** Within a reach of two, the chain above `parent` is read from rows other than `id`'s when
      `parent` is not `id` itself, so the update does not move it. */
  lemma JustifiedAfterPatch(s: Store, id: Id, d: ItemFields, score: Option<int>, parent: Option<Id>, hops: nat)
    requires ItemKeysUnique(s.items) && hops <= 2
    requires Present(parent) ==> parent.value != id
    ensures Justified(s.(items := PatchRows(s.items, id, d, score)), id, parent, hops) <==>
      Justified(s, id, parent, hops)
  {
    var s' := s.(items := PatchRows(s.items, id, d, score));
    if hops == 1 {
      OneLevelAncestors(s, parent);
      OneLevelAncestors(s', parent);
    } else if hops == 2 {
      TwoLevelAncestors(s, parent);
      TwoLevelAncestors(s', parent);
      if Present(parent) {
        FindItemAfterPatch(s.items, id, d, score, parent.value);
      }
    }
    assert AncestorIds(s', parent, hops) == AncestorIds(s, parent, hops);
    forall a ensures AcceptedOn(s', a) <==> AcceptedOn(s, a) {
      AcceptedOnAfterPatch(s, id, d, score, a);
    }
  }

  // ─── The commit gate ─────────────────────────────────────

  /** The commit gate finds nothing missing exactly when, once the update is written, the
      item's node is not an orphan — provided the merged parent is not the item itself. */
  lemma CommitGateMatchesGraph(s: Store, id: Id, d: ItemFields)
    requires ItemKeysUnique(s.items) && FindItem(s.items, id).Some?
    requires d.status == Some("committed")
    requires var parent := d.parentId.Or(FindItem(s.items, id).value.parentId);
      Present(parent) ==> parent.value != id
    ensures var e := FindItem(s.items, id).value;
      var score := MergedScore(e, d);
      var s' := s.(items := PatchRows(s.items, id, d, score));
      var e' := PatchedItem(e, d, score);
      && e' in s'.items
      && (RequiredMissing(s, e, d) == [] <==> !ItemOrphan(s', e'))
  {
    var e := FindItem(s.items, id).value;
    var score := MergedScore(e, d);
    var s' := s.(items := PatchRows(s.items, id, d, score));
    var e' := PatchedItem(e, d, score);
    PatchRowsHasPatched(s.items, e, d, score);
    PatchRowsKeepsKeys(s.items, id, d, score);
    ItemOrphanRule(s', e');
    GateIsRule(s, e, d, score);
    UnjustifiedAfterPatch(s, e, d, score);
  }

  /** The gate's codes are empty exactly when the item, as patched, is justified in the store
      the gate reads. */
  lemma GateIsRule(s: Store, e: RoadmapItem, d: ItemFields, score: Option<int>)
    requires d.status == Some("committed")
    ensures RequiredMissing(s, e, d) == [] <==> !Unjustified(s, PatchedItem(e, d, score))
  {
    var links := ObjectiveLinksOf(s.itemObjectives, e.id);
    if links != [] {
      assert links[0] in links;
    }
    assert links == [] <==> !HasObjectiveLink(s, e.id);
  }

  /** Writing the patch does not change whether the patched item is justified, unless it is
      made its own parent. */
  lemma UnjustifiedAfterPatch(s: Store, e: RoadmapItem, d: ItemFields, score: Option<int>)
    requires ItemKeysUnique(s.items)
    requires var parent := d.parentId.Or(e.parentId); Present(parent) ==> parent.value != e.id
    ensures var e' := PatchedItem(e, d, score);
      Unjustified(s.(items := PatchRows(s.items, e.id, d, score)), e') <==> Unjustified(s, e')
  {
    var e' := PatchedItem(e, d, score);
    AcceptedOnAfterPatch(s, e.id, d, score, e.id);
    JustifiedAfterPatch(s, e.id, d, score, e'.parentId, Reach(e'.itemType));
  }

  /** The precondition above is needed: the gate reads the stored row for the parent, the
      graph the written one. A feature without accepted problems of its own, whose stored
      parent carries one, and whose parent the request moves to itself, passes the gate; the
      graph, reading the new row, finds the item its own parent and grandparent, and flags it. */
  lemma SelfParentDisagrees(s: Store, f: RoadmapItem, d: ItemFields)
    requires ItemKeysUnique(s.items) && f in s.items && f.id != ""
    requires f.itemType == "feature" && d.itemType.None? && d.status == Some("committed")
    requires d.parentId == Some(f.id)
    requires Present(f.parentId) && AcceptedOn(s, f.parentId.value) && !AcceptedOn(s, f.id)
    ensures var score := MergedScore(f, d);
      var s' := s.(items := PatchRows(s.items, f.id, d, score));
      RequiredMissing(s, f, d) == [] && ItemOrphan(s', PatchedItem(f, d, score))
  {
    SelfParentPassesGate(s, f, d);
    SelfParentFlagged(s, f, d, MergedScore(f, d));
  }

  lemma SelfParentPassesGate(s: Store, f: RoadmapItem, d: ItemFields)
    requires ItemKeysUnique(s.items) && f in s.items && f.id != ""
    requires f.itemType == "feature" && d.itemType.None?
    requires d.parentId == Some(f.id)
    requires Present(f.parentId) && AcceptedOn(s, f.parentId.value)
    ensures RequiredMissing(s, f, d) == []
  {
    FindItemIsTheRow(s.items, f);
    TwoLevelAncestors(s, Some(f.id));
    assert f.parentId.value in AncestorIds(s, Some(f.id), 2);
  }

  lemma SelfParentFlagged(s: Store, f: RoadmapItem, d: ItemFields, score: Option<int>)
    requires ItemKeysUnique(s.items) && f in s.items && f.id != ""
    requires f.itemType == "feature" && d.itemType.None? && d.status == Some("committed")
    requires d.parentId == Some(f.id)
    requires !AcceptedOn(s, f.id)
    ensures ItemOrphan(s.(items := PatchRows(s.items, f.id, d, score)), PatchedItem(f, d, score))
  {
    var s' := s.(items := PatchRows(s.items, f.id, d, score));
    var f' := PatchedItem(f, d, score);
    PatchRowsHasPatched(s.items, f, d, score);
    PatchRowsKeepsKeys(s.items, f.id, d, score);
    AcceptedOnAfterPatch(s, f.id, d, score, f.id);
    assert f'.id == f.id && f'.parentId == Some(f.id);
    assert f'.itemType == "feature" && f'.status == "committed";
    SelfParentUnjustified(s', f');
    ItemOrphanRule(s', f');
  }

  /** A committed feature that is its own parent, and has no accepted problem, is unjustified. */
  lemma SelfParentUnjustified(s: Store, f: RoadmapItem)
    requires ItemKeysUnique(s.items) && f in s.items && f.id != ""
    requires f.itemType == "feature" && f.status == "committed" && f.parentId == Some(f.id)
    requires !AcceptedOn(s, f.id)
    ensures Unjustified(s, f)
  {
    FindItemIsTheRow(s.items, f);
    TwoLevelAncestors(s, Some(f.id));
    assert AncestorIds(s, Some(f.id), 2) == [f.id, f.id];
    assert !Justified(s, f.id, Some(f.id), 2);
  }

  // ─── The accept gate ─────────────────────────────────────

  /** The accept gate blocks exactly the acceptances after which the problem's node would be
      an orphan, whatever the problem's current status. */
  lemma AcceptGateMatchesGraph(s: Store, p: Problem, d: ProblemFields)
    requires forall l | l in s.itemProblems :: HasItem(s, l.roadmapItemId)
    requires p in s.problems && d.status == Some("accepted")
    ensures var s' := s.(problems := PatchProblemRows(s.problems, p.id, d));
      && PatchedProblem(p, d) in s'.problems
      && (AcceptBlocked(s, p.id, d) <==> ProblemOrphan(s', PatchedProblem(p, d)))
  {
    var s' := s.(problems := PatchProblemRows(s.problems, p.id, d));
    var k :| 0 <= k < |s.problems| && s.problems[k] == p;
    assert s'.problems[k] == PatchedProblem(p, d);
    ProblemOrphanRule(s', PatchedProblem(p, d));
    ItemLinksOfProblemEmpty(s, p.id);
    var links := ItemLinksOfProblem(s.itemProblems, p.id);
    if links != [] {
      assert links[0] in links;
    }
  }

  // ─── Writes that are not gated ───────────────────────────

  /** `createRoadmapItem` never gates: the new row has no links yet, so an item created in an
      active status is an orphan unless it is no initiative and an ancestor within its reach
      already carries an accepted problem. */
  lemma CreatedItemVerdict(s: Store, newId: Id, d: ItemFields)
    requires Consistent(s) && ValidItemInsert(d) && CanInsertItem(s, NewItem(newId, d))
    ensures var row := NewItem(newId, d);
      var s' := s.(items := s.items + [row]);
      && !AcceptedOn(s', newId) && !HasObjectiveLink(s', newId)
      && (ItemOrphan(s', row) <==>
            && ActiveStatus(row.status)
            && (|| row.itemType == "initiative" || !Present(row.parentId)
                || !exists a | a in AncestorIds(s', row.parentId, Reach(row.itemType)) :: AcceptedOn(s', a)))
  {
    var row := NewItem(newId, d);
    var s' := s.(items := s.items + [row]);
    assert forall l | l in s'.itemProblems :: l.roadmapItemId != newId;
    assert forall l | l in s'.itemObjectives :: l.roadmapItemId != newId;
    ItemOrphanRule(s', row);
  }

  /** In particular an initiative created as committed is flagged at once. */
  lemma CommittedInitiativeCreatedOrphan(s: Store, newId: Id, d: ItemFields)
    requires Consistent(s) && ValidItemInsert(d) && CanInsertItem(s, NewItem(newId, d))
    requires d.itemType == Some("initiative") && d.status == Some("committed")
    ensures ItemOrphan(s.(items := s.items + [NewItem(newId, d)]), NewItem(newId, d))
  {
    CreatedItemVerdict(s, newId, d);
  }

  /** After a problem is deleted, an item keeps an accepted problem exactly when one of its
      links names another accepted problem. */
  lemma AcceptedOnAfterDeleteProblem(s: Store, pid: Id, x: Id)
    requires forall a, b | a in s.problems && b in s.problems && a.id == b.id :: a == b
    ensures AcceptedOn(DeleteProblem(s, pid), x) <==>
      HasItem(s, x) && exists l | l in s.itemProblems ::
        l.roadmapItemId == x && l.problemId != pid && ProblemAccepted(s, l.problemId)
  {
    var r := DeleteProblem(s, pid);
    forall q | q != pid ensures ProblemAccepted(r, q) <==> ProblemAccepted(s, q) {
      if FindProblem(s.problems, q).Some? {
        var p := FindProblem(s.problems, q).value;
        assert p in r.problems;
        FindProblemIsTheRow(r.problems, p);
      }
      if FindProblem(r.problems, q).Some? {
        var p := FindProblem(r.problems, q).value;
        FindProblemIsTheRow(s.problems, p);
      }
    }
    if AcceptedOn(r, x) {
      var l :| l in r.itemProblems && l.roadmapItemId == x && ProblemAccepted(r, l.problemId);
      assert l.problemId != pid;
    }
  }

  /** Deleting the one accepted problem an active initiative relies on leaves that initiative
      an orphan: the cascade removes the link, and nothing gates the delete. */
  lemma DeleteProblemOrphansInitiative(s: Store, pid: Id, it: RoadmapItem)
    requires KeysUnique(s) && it in s.items
    requires it.itemType == "initiative" && ActiveStatus(it.status)
    requires forall l | l in s.itemProblems && l.roadmapItemId == it.id && ProblemAccepted(s, l.problemId) ::
      l.problemId == pid
    ensures ItemOrphan(DeleteProblem(s, pid), it)
  {
    var r := DeleteProblem(s, pid);
    AcceptedOnAfterDeleteProblem(s, pid, it.id);
    ItemOrphanRule(r, it);
  }
}
