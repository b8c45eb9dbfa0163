/** The roadmap-item server actions: create, update behind the commit gate, delete, and the
    problem and objective links. */
module RoadmapItems {
  import opened Wrappers
  import opened Collections
  import opened Schema
  import opened Validators
  import opened Rice
  import opened Justification
  import opened Database
  import opened Text

  // ─── Rows written ────────────────────────────────────────

  /** The stored score agrees with the stored RICE inputs. */
  predicate ScoreInSync(row: RoadmapItem) {
    row.score == RiceTenths(row.reach, row.impact, row.confidence, row.effort)
  }

  /** The row `createRoadmapItem` inserts: the parsed fields, the computed score. The status is
      taken as given, so a new item may start out committed. */
  function NewItem(id: Id, d: ItemFields): (row: RoadmapItem)
    requires ValidItemInsert(d)
    ensures ScoreInSync(row)
    ensures row.id == id && row.itemType == d.itemType.value && row.status == d.status.value
  {
    RoadmapItem(id, d.title.value, d.description, d.rationale, d.itemType.value, d.status.value,
                d.targetMonth, d.effortSize, d.reach, d.impact, d.confidence, d.effort,
                RiceTenths(d.reach, d.impact, d.confidence, d.effort), d.parentId, d.releaseId)
  }

  /** The score an update stores: each RICE input from the request, else from the row. */
  function MergedScore(e: RoadmapItem, d: ItemFields): Option<int> {
    RiceTenths(d.reach.Or(e.reach), d.impact.Or(e.impact), d.confidence.Or(e.confidence),
               d.effort.Or(e.effort))
  }

  /** An update on one row, with the recomputed score: the fields the request gives overwrite, the
      others stay. */
  function PatchedItem(e: RoadmapItem, d: ItemFields, score: Option<int>): RoadmapItem {
    e.(title := d.title.GetOr(e.title), description := d.description.Or(e.description),
       rationale := d.rationale.Or(e.rationale), itemType := d.itemType.GetOr(e.itemType),
       status := d.status.GetOr(e.status), targetMonth := d.targetMonth.Or(e.targetMonth),
       effortSize := d.effortSize.Or(e.effortSize), reach := d.reach.Or(e.reach),
       impact := d.impact.Or(e.impact), confidence := d.confidence.Or(e.confidence),
       effort := d.effort.Or(e.effort), score := score, parentId := d.parentId.Or(e.parentId),
       releaseId := d.releaseId.Or(e.releaseId))
  }

  /** The update applied `where id = id`: every row with that id is patched. */
  function PatchRows(items: seq<RoadmapItem>, id: Id, d: ItemFields, score: Option<int>)
    : (r: seq<RoadmapItem>)
    ensures |r| == |items|
    ensures forall k | 0 <= k < |items| :: r[k].id == items[k].id
  {
    seq(|items|, k requires 0 <= k < |items| =>
      if items[k].id == id then PatchedItem(items[k], d, score) else items[k])
  }

  /** An update recomputes the score from the merged inputs, so it keeps the score in sync,
      and applying the same update twice changes nothing more. */
  lemma PatchKeepsScoreInSync(e: RoadmapItem, d: ItemFields)
    ensures ScoreInSync(PatchedItem(e, d, MergedScore(e, d)))
    ensures var p := PatchedItem(e, d, MergedScore(e, d));
      PatchedItem(p, d, MergedScore(p, d)) == p
  {
  }

  /** An update that names an existing release (or none) keeps the store consistent. */
  lemma PatchRowsConsistent(s: Store, id: Id, d: ItemFields, score: Option<int>)
    requires Consistent(s)
    requires d.releaseId.Some? ==> HasRelease(s, d.releaseId.value)
    ensures Consistent(s.(items := PatchRows(s.items, id, d, score)))
  {
    var r := s.(items := PatchRows(s.items, id, d, score));
    PatchRowsKeepsKeys(s.items, id, d, score);
    PatchRowsKeepsIds(s, id, d, score);
    PatchRowsReleases(s, id, d, score);
    forall l | l in r.itemProblems ensures HasItem(r, l.roadmapItemId) {
      assert HasItem(s, l.roadmapItemId);
    }
    forall l | l in r.itemObjectives ensures HasItem(r, l.roadmapItemId) {
      assert HasItem(s, l.roadmapItemId);
    }
  }

  lemma PatchRowsKeepsKeys(items: seq<RoadmapItem>, id: Id, d: ItemFields, score: Option<int>)
    requires forall a, b | a in items && b in items && a.id == b.id :: a == b
    ensures var r := PatchRows(items, id, d, score);
      forall a, b | a in r && b in r && a.id == b.id :: a == b
  {
    var r := PatchRows(items, id, d, score);
    forall a, b | a in r && b in r && a.id == b.id ensures a == b {
      var i :| 0 <= i < |r| && r[i] == a;
      var j :| 0 <= j < |r| && r[j] == b;
      assert items[i] in items && items[j] in items;
    }
  }

  lemma PatchRowsKeepsIds(s: Store, id: Id, d: ItemFields, score: Option<int>)
    ensures forall x :: HasItem(s.(items := PatchRows(s.items, id, d, score)), x) <==> HasItem(s, x)
  {
    var r := s.(items := PatchRows(s.items, id, d, score));
    forall x ensures HasItem(r, x) <==> HasItem(s, x) {
      if HasItem(s, x) {
        var y :| y in s.items && y.id == x;
        var i :| 0 <= i < |s.items| && s.items[i] == y;
        assert r.items[i] in r.items;
      }
      if HasItem(r, x) {
        var y :| y in r.items && y.id == x;
        var i :| 0 <= i < |r.items| && r.items[i] == y;
        assert s.items[i] in s.items;
      }
    }
  }

  lemma PatchRowsReleases(s: Store, id: Id, d: ItemFields, score: Option<int>)
    requires forall x | x in s.items && x.releaseId.Some? :: HasRelease(s, x.releaseId.value)
    requires d.releaseId.Some? ==> HasRelease(s, d.releaseId.value)
    ensures var r := PatchRows(s.items, id, d, score);
      forall x | x in r && x.releaseId.Some? :: HasRelease(s, x.releaseId.value)
  {
    var r := PatchRows(s.items, id, d, score);
    forall x | x in r && x.releaseId.Some? ensures HasRelease(s, x.releaseId.value) {
      var i :| 0 <= i < |r| && r[i] == x;
      assert s.items[i] in s.items;
    }
  }

  // ─── The commit gate ─────────────────────────────────────

  /** The gate runs when the request moves the item to "committed" from another status. */
  predicate GateApplies(e: RoadmapItem, d: ItemFields) {
    d.status == Some("committed") && e.status != "committed"
  }

  /** Some link row of the item names an accepted problem. */
  predicate SomeAccepted(s: Store, links: seq<RoadmapItemProblem>) {
    exists l | l in links :: ProblemAccepted(s, l.problemId)
  }

  /** The links the item `id` has name an accepted problem exactly when, the item existing,
      it is accepted-on. */
  lemma SomeAcceptedIsAcceptedOn(s: Store, id: Id)
    ensures HasItem(s, id) ==> (SomeAccepted(s, ProblemLinksOf(s.itemProblems, id)) <==> AcceptedOn(s, id))
  {
    if HasItem(s, id) && AcceptedOn(s, id) {
      var l :| l in s.itemProblems && l.roadmapItemId == id && ProblemAccepted(s, l.problemId);
      assert l in ProblemLinksOf(s.itemProblems, id);
    }
  }

  /** The missing-parent code for a non-initiative type. */
  function ParentCode(itemType: string): string {
    if itemType == "epic" then "parentInitiative" else "parentEpic"
  }

  /** What committing still needs, as the design states it: an initiative needs an objective
      link and must be justified on its own; an epic or feature needs a parent and must be
      justified within its reach. Both read the merged type and parent. */
  function RequiredMissing(s: Store, e: RoadmapItem, d: ItemFields): (m: seq<string>)
    ensures |m| <= 2
    ensures forall c | c in m :: c in ["objective", "acceptedProblem", "parentInitiative", "parentEpic"]
  {
    var t := d.itemType.GetOr(e.itemType);
    var parent := d.parentId.Or(e.parentId);
    if t == "initiative" then
      (if ObjectiveLinksOf(s.itemObjectives, e.id) == [] then ["objective"] else [])
      + (if Justified(s, e.id, parent, Reach(t)) then [] else ["acceptedProblem"])
    else
      (if Present(parent) then [] else [ParentCode(t)])
      + (if Justified(s, e.id, parent, Reach(t)) then [] else ["acceptedProblem"])
  }

  /** The gate as the action runs it: look-ups one after another, codes pushed in order. */
  method CommitGate(s: Store, e: RoadmapItem, d: ItemFields) returns (missing: seq<string>)
    requires e in s.items
    ensures missing == RequiredMissing(s, e, d)
  {
    var itemType := d.itemType.GetOr(e.itemType);
    var links := ProblemLinksOf(s.itemProblems, e.id);
    SomeAcceptedIsAcceptedOn(s, e.id);
    var parentId := d.parentId.Or(e.parentId);
    missing := [];
    if itemType == "initiative" {
      if |ObjectiveLinksOf(s.itemObjectives, e.id)| == 0 {
        missing := missing + ["objective"];
      }
      var hasAcceptedProblem := SomeAccepted(s, links);
      if !hasAcceptedProblem {
        missing := missing + ["acceptedProblem"];
      }
    } else if itemType == "epic" {
      if !Present(parentId) {
        missing := missing + ["parentInitiative"];
      }
      var hasDirectAccepted := SomeAccepted(s, links);
      var hasInheritedAccepted := false;
      if Present(parentId) && !hasDirectAccepted {
        var parentItem := FindItem(s.items, parentId.value);
        if parentItem.Some? {
          SomeAcceptedIsAcceptedOn(s, parentItem.value.id);
          hasInheritedAccepted := SomeAccepted(s, ProblemLinksOf(s.itemProblems, parentItem.value.id));
        }
        OneLevelAncestors(s, parentId);
      }
      if !hasDirectAccepted && !hasInheritedAccepted {
        missing := missing + ["acceptedProblem"];
      }
    } else {
      if !Present(parentId) {
        missing := missing + ["parentEpic"];
      }
      var hasDirectAccepted := SomeAccepted(s, links);
      var hasInheritedAccepted := false;
      if Present(parentId) && !hasDirectAccepted {
        var epicItem := FindItem(s.items, parentId.value);
        if epicItem.Some? {
          SomeAcceptedIsAcceptedOn(s, epicItem.value.id);
          hasInheritedAccepted := SomeAccepted(s, ProblemLinksOf(s.itemProblems, epicItem.value.id));
        }
        if !hasInheritedAccepted && epicItem.Some? && Present(epicItem.value.parentId) {
          var initiativeItem := FindItem(s.items, epicItem.value.parentId.value);
          hasInheritedAccepted := false;
          if initiativeItem.Some? {
            SomeAcceptedIsAcceptedOn(s, initiativeItem.value.id);
            hasInheritedAccepted :=
              SomeAccepted(s, ProblemLinksOf(s.itemProblems, initiativeItem.value.id));
          }
        }
        TwoLevelAncestors(s, parentId);
      }
      if !hasDirectAccepted && !hasInheritedAccepted {
        missing := missing + ["acceptedProblem"];
      }
    }
  }

  /** `messages[m]` for one missing code. */
  function Clause(code: string): string {
    if code == "objective" then "Link to at least 1 Objective"
    else if code == "acceptedProblem" then "Link to at least 1 Accepted Problem"
    else if code == "parentInitiative" then "Set a parent Initiative"
    else if code == "parentEpic" then "Set a parent Epic"
    else ""
  }

  /** The message clause of each missing code, in the order of the codes. */
  function Clauses(missing: seq<string>): (r: seq<string>)
    ensures |r| == |missing| && forall k | 0 <= k < |missing| :: r[k] == Clause(missing[k])
  {
    seq(|missing|, k requires 0 <= k < |missing| => Clause(missing[k]))
  }

  /** The gating message: "Before committing: ", the clauses joined by "; ", and a full stop. */
  function GatingMessage(missing: seq<string>): string {
    "Before committing: " + Join(Clauses(missing), "; ") + "."
  }

  // ─── Actions ─────────────────────────────────────────────

  /** `createRoadmapItem`: parse, compute the score, insert. It never gates. */
  method Create(db: Db, newId: Id, d: ItemFields) returns (r: Outcome<RoadmapItem>)
    modifies db
    ensures !ValidItemInsert(d) ==> r == Thrown(InvalidInput) && db.store == old(db.store)
    ensures ValidItemInsert(d) && CanInsertItem(old(db.store), NewItem(newId, d)) ==>
      r == Returned(NewItem(newId, d)) &&
      db.store == old(db.store).(items := old(db.store).items + [NewItem(newId, d)])
    ensures ValidItemInsert(d) && !CanInsertItem(old(db.store), NewItem(newId, d)) ==>
      r == Thrown(ConstraintViolation) && db.store == old(db.store)
  {
    if !ValidItemInsert(d) {
      return Thrown(InvalidInput);
    }
    var row := NewItem(newId, d);
    if !CanInsertItem(db.store, row) {
      return Thrown(ConstraintViolation);
    }
    db.store := db.store.(items := db.store.items + [row]);
    r := Returned(row);
  }

  /** `updateRoadmapItem`: parse; a missing item is a silent success; a move to "committed"
      runs the gate and writes nothing when something is missing; otherwise the patch and the
      recomputed score are written. */
  method Update(db: Db, id: Id, d: ItemFields) returns (r: Outcome<GatingResult>)
    modifies db
    ensures !ValidItemUpdate(d) ==> r == Thrown(InvalidInput) && db.store == old(db.store)
    ensures ValidItemUpdate(d) && FindItem(old(db.store).items, id).None? ==>
      r == Returned(Success) && db.store == old(db.store)
    ensures ValidItemUpdate(d) && FindItem(old(db.store).items, id).Some? ==>
      var s := old(db.store);
      var e := FindItem(s.items, id).value;
      var missing := RequiredMissing(s, e, d);
      if GateApplies(e, d) && missing != [] then
        r == Returned(Gating(missing, GatingMessage(missing))) && db.store == s
      else if d.releaseId.Some? && !HasRelease(s, d.releaseId.value) then
        r == Thrown(ConstraintViolation) && db.store == s
      else
        r == Returned(Success) && db.store == s.(items := PatchRows(s.items, id, d, MergedScore(e, d)))
  {
    if !ValidItemUpdate(d) {
      return Thrown(InvalidInput);
    }
    var existing := FindItem(db.store.items, id);
    if existing.None? {
      return Returned(Success);
    }
    var e := existing.value;
    if d.status == Some("committed") && e.status != "committed" {
      var missing := CommitGate(db.store, e, d);
      if |missing| > 0 {
        return Returned(Gating(missing, GatingMessage(missing)));
      }
    }
    var score := RiceTenths(d.reach.Or(e.reach), d.impact.Or(e.impact),
                            d.confidence.Or(e.confidence), d.effort.Or(e.effort));
    if d.releaseId.Some? && !HasRelease(db.store, d.releaseId.value) {
      return Thrown(ConstraintViolation);
    }
    db.store := db.store.(items := PatchRows(db.store.items, id, d, score));
    r := Returned(Success);
  }

  /** `deleteRoadmapItem`: while a PRD references the item, the foreign key refuses the delete
      and the store is left as it was; otherwise the row goes, its link rows cascade and its
      children keep their dangling `parentId`. */
  method DeleteItem(db: Db, id: Id) returns (r: Outcome<()>)
    modifies db
    ensures PrdNames(old(db.store), id) ==> r == Thrown(ConstraintViolation) && db.store == old(db.store)
    ensures !PrdNames(old(db.store), id) ==> r == Returned(()) && db.store == DeleteRoadmapItem(old(db.store), id)
  {
    if PrdNames(db.store, id) {
      return Thrown(ConstraintViolation);
    }
    db.store := DeleteRoadmapItem(db.store, id);
    r := Returned(());
  }

  /** `linkProblemToRoadmapItem`. */
  method LinkProblem(db: Db, linkId: Id, roadmapItemId: Id, problemId: Id) returns (r: Outcome<()>)
    modifies db
    ensures var row := RoadmapItemProblem(linkId, roadmapItemId, problemId);
      if CanInsertItemProblem(old(db.store), row) then
        r == Returned(()) && db.store == old(db.store).(itemProblems := old(db.store).itemProblems + [row])
      else r == Thrown(ConstraintViolation) && db.store == old(db.store)
  {
    var row := RoadmapItemProblem(linkId, roadmapItemId, problemId);
    if !CanInsertItemProblem(db.store, row) {
      return Thrown(ConstraintViolation);
    }
    db.store := db.store.(itemProblems := db.store.itemProblems + [row]);
    r := Returned(());
  }

  /** `unlinkProblemFromRoadmapItem`: delete the link rows with that id. */
  method UnlinkProblem(db: Db, linkId: Id)
    modifies db
    ensures db.store == old(db.store).(itemProblems :=
      Filter(old(db.store).itemProblems, (l: RoadmapItemProblem) => l.id != linkId))
  {
    db.store := db.store.(itemProblems := Filter(db.store.itemProblems, (l: RoadmapItemProblem) => l.id != linkId));
  }

  /** `linkObjectiveToRoadmapItem`; an omitted impact is stored as null. */
  method LinkObjective(db: Db, linkId: Id, roadmapItemId: Id, objectiveId: Id,
                       impactToObjective: Option<int>) returns (r: Outcome<()>)
    modifies db
    ensures var row := RoadmapItemObjective(linkId, roadmapItemId, objectiveId, impactToObjective);
      if CanInsertItemObjective(old(db.store), row) then
        r == Returned(()) && db.store == old(db.store).(itemObjectives := old(db.store).itemObjectives + [row])
      else r == Thrown(ConstraintViolation) && db.store == old(db.store)
  {
    var row := RoadmapItemObjective(linkId, roadmapItemId, objectiveId, impactToObjective);
    if !CanInsertItemObjective(db.store, row) {
      return Thrown(ConstraintViolation);
    }
    db.store := db.store.(itemObjectives := db.store.itemObjectives + [row]);
    r := Returned(());
  }

  /** `unlinkObjectiveFromRoadmapItem`. */
  method UnlinkObjective(db: Db, linkId: Id)
    modifies db
    ensures db.store == old(db.store).(itemObjectives :=
      Filter(old(db.store).itemObjectives, (l: RoadmapItemObjective) => l.id != linkId))
  {
    db.store := db.store.(itemObjectives := Filter(db.store.itemObjectives, (l: RoadmapItemObjective) => l.id != linkId));
  }
}
