/** The workspace database: one record shape per table, the store as one sequence per
    table (rows in insertion order, which is the order an unordered `findMany` returns),
    the referential integrity the foreign keys keep, and what each delete cascades to. */
module Schema {
  import opened Wrappers
  import opened Collections

  type Id = string

  datatype Signal = Signal(
    id: Id, rawText: string, source: Option<string>, sourceUrl: Option<string>,
    customer: Option<string>, arr: Option<string>, severity: Option<string>,
    frequency: Option<string>, renewalRisk: Option<string>, status: string)

  datatype Problem = Problem(
    id: Id, title: string, statement: string, whoAffected: Option<string>,
    workflowBlock: Option<string>, businessImpact: Option<string>,
    retentionOrGrowth: Option<string>, status: string, frequency: Option<string>,
    severity: Option<string>)

  datatype SignalProblem = SignalProblem(id: Id, signalId: Id, problemId: Id, quote: Option<string>)

  datatype Objective = Objective(
    id: Id, name: string, timeframe: Option<string>, metric: Option<string>, weight: real)

  datatype Release = Release(
    id: Id, name: string, description: Option<string>, targetDate: Option<string>, status: string)

  /** A roadmap item. `score` holds the RICE score in integer tenths (the column holds
      tenths / 10). `parentId` is a plain text column: no foreign key stands behind it. */
  datatype RoadmapItem = RoadmapItem(
    id: Id, title: string, description: Option<string>, rationale: Option<string>,
    itemType: string, status: string, targetMonth: Option<string>, effortSize: Option<string>,
    reach: Option<int>, impact: Option<int>, confidence: Option<int>, effort: Option<int>,
    score: Option<int>, parentId: Option<Id>, releaseId: Option<Id>)

  datatype RoadmapItemProblem = RoadmapItemProblem(id: Id, roadmapItemId: Id, problemId: Id)

  datatype RoadmapItemObjective = RoadmapItemObjective(
    id: Id, roadmapItemId: Id, objectiveId: Id, impactToObjective: Option<int>)

  /** A PRD, reduced to its key and its optional reference to a roadmap item: the one
      foreign key into the roadmap items that neither cascades nor sets null. */
  datatype Prd = Prd(id: Id, roadmapItemId: Option<Id>)

  datatype Store = Store(
    signals: seq<Signal>, problems: seq<Problem>, signalProblems: seq<SignalProblem>,
    objectives: seq<Objective>, releases: seq<Release>, items: seq<RoadmapItem>,
    itemProblems: seq<RoadmapItemProblem>, itemObjectives: seq<RoadmapItemObjective>,
    prds: seq<Prd>)

  // ─── Column defaults ─────────────────────────────────────

  datatype DefaultedColumn = SignalStatus | ProblemStatus | ItemType | ItemStatus | ReleaseStatus

  /** The value `.default(…)` gives a not-null text column when an insert leaves it out. */
  function Default(c: DefaultedColumn): string {
    match c
    case SignalStatus => "new"
    case ProblemStatus => "draft"
    case ItemType => "feature"
    case ItemStatus => "proposed"
    case ReleaseStatus => "planned"
  }

  // ─── Lookups ─────────────────────────────────────────────

  predicate HasSignal(s: Store, id: Id) { exists x :: x in s.signals && x.id == id }
  predicate HasProblem(s: Store, id: Id) { exists x :: x in s.problems && x.id == id }
  predicate HasObjective(s: Store, id: Id) { exists x :: x in s.objectives && x.id == id }
  predicate HasRelease(s: Store, id: Id) { exists x :: x in s.releases && x.id == id }
  predicate HasItem(s: Store, id: Id) { exists x :: x in s.items && x.id == id }

  /** Some PRD references the roadmap item `id`. */
  predicate PrdNames(s: Store, id: Id) { exists p :: p in s.prds && p.roadmapItemId == Some(id) }

  /** `findFirst` by primary key on one table: the first row whose key is `id`. */
  function FindById<T>(rows: seq<T>, key: T -> Id, id: Id): (r: Option<T>)
    ensures r.Some? ==> r.value in rows && key(r.value) == id
    ensures r.None? <==> forall x | x in rows :: key(x) != id
  {
    if rows == [] then None
    else if key(rows[0]) == id then Some(rows[0])
    else FindById(rows[1..], key, id)
  }

  function ItemKey(x: RoadmapItem): Id { x.id }
  function ProblemKey(p: Problem): Id { p.id }

  /** `findFirst` on the roadmap items by id. */
  function FindItem(items: seq<RoadmapItem>, id: Id): (r: Option<RoadmapItem>)
    ensures r.Some? ==> r.value in items && r.value.id == id
    ensures r.None? <==> forall x | x in items :: x.id != id
  {
    FindById(items, ItemKey, id)
  }

  /** `findFirst` on the problems by id (the `problem` a link row is joined with). */
  function FindProblem(problems: seq<Problem>, id: Id): (r: Option<Problem>)
    ensures r.Some? ==> r.value in problems && r.value.id == id
    ensures r.None? <==> forall x | x in problems :: x.id != id
  {
    FindById(problems, ProblemKey, id)
  }

  /** The roadmap-item–problem rows of one item, in row order. */
  function ProblemLinksOf(links: seq<RoadmapItemProblem>, itemId: Id): seq<RoadmapItemProblem> {
    Filter(links, (l: RoadmapItemProblem) => l.roadmapItemId == itemId)
  }

  /** The roadmap-item–objective rows of one item, in row order. */
  function ObjectiveLinksOf(links: seq<RoadmapItemObjective>, itemId: Id): seq<RoadmapItemObjective> {
    Filter(links, (l: RoadmapItemObjective) => l.roadmapItemId == itemId)
  }

  /** The signal–problem rows of one problem, in row order. */
  function SignalLinksOf(links: seq<SignalProblem>, problemId: Id): seq<SignalProblem> {
    Filter(links, (l: SignalProblem) => l.problemId == problemId)
  }

  // ─── Integrity ───────────────────────────────────────────

  /** Primary keys: within each table, the id determines the row. */
  predicate KeysUnique(s: Store) {
    && (forall a, b | a in s.signals && b in s.signals && a.id == b.id :: a == b)
    && (forall a, b | a in s.problems && b in s.problems && a.id == b.id :: a == b)
    && (forall a, b | a in s.signalProblems && b in s.signalProblems && a.id == b.id :: a == b)
    && (forall a, b | a in s.objectives && b in s.objectives && a.id == b.id :: a == b)
    && (forall a, b | a in s.releases && b in s.releases && a.id == b.id :: a == b)
    && (forall a, b | a in s.items && b in s.items && a.id == b.id :: a == b)
    && (forall a, b | a in s.itemProblems && b in s.itemProblems && a.id == b.id :: a == b)
    && (forall a, b | a in s.itemObjectives && b in s.itemObjectives && a.id == b.id :: a == b)
    && (forall a, b | a in s.prds && b in s.prds && a.id == b.id :: a == b)
  }

  /** Foreign keys: every reference a link row or `releaseId` holds names an existing row. */
  predicate RefsResolve(s: Store) {
    && (forall l | l in s.signalProblems :: HasSignal(s, l.signalId) && HasProblem(s, l.problemId))
    && (forall l | l in s.itemProblems :: HasItem(s, l.roadmapItemId) && HasProblem(s, l.problemId))
    && (forall l | l in s.itemObjectives :: HasItem(s, l.roadmapItemId) && HasObjective(s, l.objectiveId))
    && (forall x | x in s.items && x.releaseId.Some? :: HasRelease(s, x.releaseId.value))
    && (forall p | p in s.prds && p.roadmapItemId.Some? :: HasItem(s, p.roadmapItemId.value))
  }

  /** What the database keeps true with foreign keys switched on. */
  predicate Consistent(s: Store) {
    KeysUnique(s) && RefsResolve(s)
  }

  // ─── Deletes and their cascades ──────────────────────────

  /** Deleting a signal cascades to the signal–problem rows that reference it. */
  function DeleteSignal(s: Store, id: Id): (r: Store)
    ensures !HasSignal(r, id)
    ensures forall x | x in s.signals && x.id != id :: x in r.signals
    ensures forall l | l in r.signalProblems :: l in s.signalProblems && l.signalId != id
    ensures forall l | l in s.signalProblems && l.signalId != id :: l in r.signalProblems
    ensures r.(signals := s.signals, signalProblems := s.signalProblems) == s
  {
    s.(signals := Filter(s.signals, (x: Signal) => x.id != id),
       signalProblems := Filter(s.signalProblems, (l: SignalProblem) => l.signalId != id))
  }

  /** Deleting a problem cascades to its signal–problem rows and its roadmap-item–problem rows. */
  function DeleteProblem(s: Store, id: Id): (r: Store)
    ensures !HasProblem(r, id)
    ensures forall x | x in s.problems && x.id != id :: x in r.problems
    ensures forall l | l in r.signalProblems :: l in s.signalProblems && l.problemId != id
    ensures forall l | l in s.signalProblems && l.problemId != id :: l in r.signalProblems
    ensures forall l | l in r.itemProblems :: l in s.itemProblems && l.problemId != id
    ensures forall l | l in s.itemProblems && l.problemId != id :: l in r.itemProblems
    ensures r.(problems := s.problems, signalProblems := s.signalProblems, itemProblems := s.itemProblems) == s
  {
    s.(problems := Filter(s.problems, (x: Problem) => x.id != id),
       signalProblems := Filter(s.signalProblems, (l: SignalProblem) => l.problemId != id),
       itemProblems := Filter(s.itemProblems, (l: RoadmapItemProblem) => l.problemId != id))
  }

  /** Deleting an objective cascades to its roadmap-item–objective rows. */
  function DeleteObjective(s: Store, id: Id): (r: Store)
    ensures !HasObjective(r, id)
    ensures forall x | x in s.objectives && x.id != id :: x in r.objectives
    ensures forall l | l in r.itemObjectives :: l in s.itemObjectives && l.objectiveId != id
    ensures forall l | l in s.itemObjectives && l.objectiveId != id :: l in r.itemObjectives
    ensures r.(objectives := s.objectives, itemObjectives := s.itemObjectives) == s
  {
    s.(objectives := Filter(s.objectives, (x: Objective) => x.id != id),
       itemObjectives := Filter(s.itemObjectives, (l: RoadmapItemObjective) => l.objectiveId != id))
  }

  /** Deleting a roadmap item cascades to its problem rows and its objective rows. Children
      keep their `parentId`, which then names no row. PRDs are left as they are: the database
      refuses the delete while one of them names the item (`PrdBlocksDelete`). */
  function DeleteRoadmapItem(s: Store, id: Id): (r: Store)
    ensures !HasItem(r, id)
    ensures forall x | x in s.items && x.id != id :: x in r.items
    ensures forall x | x in r.items :: x in s.items
    ensures forall l | l in r.itemProblems :: l in s.itemProblems && l.roadmapItemId != id
    ensures forall l | l in s.itemProblems && l.roadmapItemId != id :: l in r.itemProblems
    ensures forall l | l in r.itemObjectives :: l in s.itemObjectives && l.roadmapItemId != id
    ensures forall l | l in s.itemObjectives && l.roadmapItemId != id :: l in r.itemObjectives
    ensures r.(items := s.items, itemProblems := s.itemProblems, itemObjectives := s.itemObjectives) == s
  {
    s.(items := Filter(s.items, (x: RoadmapItem) => x.id != id),
       itemProblems := Filter(s.itemProblems, (l: RoadmapItemProblem) => l.roadmapItemId != id),
       itemObjectives := Filter(s.itemObjectives, (l: RoadmapItemObjective) => l.roadmapItemId != id))
  }

  /** `onDelete: "set null"`: the items that referenced the release lose the reference. */
  function ClearRelease(items: seq<RoadmapItem>, id: Id): (r: seq<RoadmapItem>)
    ensures |r| == |items|
    ensures forall k | 0 <= k < |items| ::
      r[k] == if items[k].releaseId == Some(id) then items[k].(releaseId := None) else items[k]
  {
    seq(|items|, k requires 0 <= k < |items| =>
      if items[k].releaseId == Some(id) then items[k].(releaseId := None) else items[k])
  }

  /** Deleting a release sets `releaseId` to null on the items that referenced it. */
  function DeleteRelease(s: Store, id: Id): (r: Store)
    ensures !HasRelease(r, id)
    ensures forall x | x in s.releases && x.id != id :: x in r.releases
    ensures r.(releases := s.releases, items := s.items) == s
  {
    s.(releases := Filter(s.releases, (x: Release) => x.id != id), items := ClearRelease(s.items, id))
  }

  /** A release delete changes, on each item, its `releaseId` and nothing else: ids, types,
      statuses, parents and scores all stay, and no item still references the release. */
  lemma DeleteReleaseTouchesOnlyReleaseId(s: Store, id: Id)
    ensures var r := DeleteRelease(s, id);
      && |r.items| == |s.items|
      && (forall k | 0 <= k < |s.items| :: r.items[k].(releaseId := s.items[k].releaseId) == s.items[k])
      && (forall k | 0 <= k < |s.items| :: r.items[k].releaseId != Some(id))
      && (forall k | 0 <= k < |s.items| && s.items[k].releaseId != Some(id) :: r.items[k] == s.items[k])
  {
  }

  /** Deleting a signal keeps the database consistent. */
  lemma DeleteSignalConsistent(s: Store, id: Id)
    requires Consistent(s)
    ensures Consistent(DeleteSignal(s, id))
  {
    var r := DeleteSignal(s, id);
    forall l | l in r.signalProblems ensures HasSignal(r, l.signalId) {
      var x :| x in s.signals && x.id == l.signalId;
      assert x in r.signals;
    }
  }

  /** Deleting a problem keeps the database consistent: no link row is left naming it. */
  lemma DeleteProblemConsistent(s: Store, id: Id)
    requires Consistent(s)
    ensures Consistent(DeleteProblem(s, id))
  {
    DeleteProblemKeys(s, id);
    DeleteProblemRefs(s, id);
  }

  lemma DeleteProblemKeys(s: Store, id: Id)
    requires KeysUnique(s)
    ensures KeysUnique(DeleteProblem(s, id))
  {
  }

  lemma DeleteProblemRefs(s: Store, id: Id)
    requires RefsResolve(s)
    ensures RefsResolve(DeleteProblem(s, id))
  {
    var r := DeleteProblem(s, id);
    forall l | l in r.signalProblems ensures HasProblem(r, l.problemId) {
      var x :| x in s.problems && x.id == l.problemId;
      assert x in r.problems;
    }
    forall l | l in r.itemProblems ensures HasProblem(r, l.problemId) {
      var x :| x in s.problems && x.id == l.problemId;
      assert x in r.problems;
    }
  }

  /** Deleting an objective keeps the database consistent. */
  lemma DeleteObjectiveConsistent(s: Store, id: Id)
    requires Consistent(s)
    ensures Consistent(DeleteObjective(s, id))
  {
    var r := DeleteObjective(s, id);
    forall l | l in r.itemObjectives ensures HasObjective(r, l.objectiveId) {
      var x :| x in s.objectives && x.id == l.objectiveId;
      assert x in r.objectives;
    }
  }

  /** Deleting a roadmap item that no PRD names keeps the database consistent (`parentId` is
      no reference). */
  lemma DeleteRoadmapItemConsistent(s: Store, id: Id)
    requires Consistent(s) && !PrdNames(s, id)
    ensures Consistent(DeleteRoadmapItem(s, id))
  {
    DeleteRoadmapItemKeys(s, id);
    DeleteRoadmapItemRefs(s, id);
  }

  lemma DeleteRoadmapItemKeys(s: Store, id: Id)
    requires KeysUnique(s)
    ensures KeysUnique(DeleteRoadmapItem(s, id))
  {
  }

  lemma DeleteRoadmapItemRefs(s: Store, id: Id)
    requires RefsResolve(s) && !PrdNames(s, id)
    ensures RefsResolve(DeleteRoadmapItem(s, id))
  {
    var r := DeleteRoadmapItem(s, id);
    forall p | p in r.prds && p.roadmapItemId.Some? ensures HasItem(r, p.roadmapItemId.value) {
      var x :| x in s.items && x.id == p.roadmapItemId.value;
      assert x in r.items;
    }
    forall l | l in r.itemProblems ensures HasItem(r, l.roadmapItemId) {
      var x :| x in s.items && x.id == l.roadmapItemId;
      assert x in r.items;
    }
    forall l | l in r.itemObjectives ensures HasItem(r, l.roadmapItemId) {
      var x :| x in s.items && x.id == l.roadmapItemId;
      assert x in r.items;
    }
  }

  /** Clearing a release reference keeps the item ids unique. */
  lemma ClearReleaseKeepsKeys(items: seq<RoadmapItem>, id: Id)
    requires forall a, b | a in items && b in items && a.id == b.id :: a == b
    ensures var r := ClearRelease(items, id); forall a, b | a in r && b in r && a.id == b.id :: a == b
  {
    var r := ClearRelease(items, id);
    forall a, b | a in r && b in r && a.id == b.id ensures a == b {
      var i :| 0 <= i < |r| && r[i] == a;
      var j :| 0 <= j < |r| && r[j] == b;
      assert items[i] in items && items[j] in items;
    }
  }

  /** Clearing a release reference keeps every item id present. */
  lemma ClearReleaseKeepsIds(items: seq<RoadmapItem>, id: Id)
    ensures var r := ClearRelease(items, id); forall x | x in items :: exists y :: y in r && y.id == x.id
  {
    var r := ClearRelease(items, id);
    forall x | x in items ensures exists y :: y in r && y.id == x.id {
      var i :| 0 <= i < |items| && items[i] == x;
      assert r[i] in r;
    }
  }

  /** After clearing, a release reference that remains was already there and is not `id`. */
  lemma ClearReleaseRemainingRefs(items: seq<RoadmapItem>, id: Id)
    ensures var r := ClearRelease(items, id);
      forall y | y in r && y.releaseId.Some? ::
        y.releaseId != Some(id) && exists x :: x in items && x.releaseId == y.releaseId
  {
    var r := ClearRelease(items, id);
    forall y | y in r && y.releaseId.Some?
      ensures y.releaseId != Some(id) && exists x :: x in items && x.releaseId == y.releaseId
    {
      var i :| 0 <= i < |r| && r[i] == y;
      assert items[i] in items;
    }
  }

  /** Deleting a release keeps the database consistent: nothing references it afterwards. */
  lemma DeleteReleaseConsistent(s: Store, id: Id)
    requires Consistent(s)
    ensures Consistent(DeleteRelease(s, id))
  {
    DeleteReleaseKeys(s, id);
    DeleteReleaseRefs(s, id);
  }

  lemma DeleteReleaseKeys(s: Store, id: Id)
    requires KeysUnique(s)
    ensures KeysUnique(DeleteRelease(s, id))
  {
    ClearReleaseKeepsKeys(s.items, id);
  }

  lemma DeleteReleaseRefs(s: Store, id: Id)
    requires RefsResolve(s)
    ensures RefsResolve(DeleteRelease(s, id))
  {
    var r := DeleteRelease(s, id);
    ClearReleaseKeepsIds(s.items, id);
    ClearReleaseRemainingRefs(s.items, id);
    forall l | l in r.itemProblems ensures HasItem(r, l.roadmapItemId) {
      var x :| x in s.items && x.id == l.roadmapItemId;
    }
    forall l | l in r.itemObjectives ensures HasItem(r, l.roadmapItemId) {
      var x :| x in s.items && x.id == l.roadmapItemId;
    }
    forall y | y in r.items && y.releaseId.Some? ensures HasRelease(r, y.releaseId.value) {
      var x :| x in s.items && x.releaseId == y.releaseId;
      var rel :| rel in s.releases && rel.id == x.releaseId.value;
      assert rel in r.releases;
    }
  }

  /** The PRD reference is a foreign key without a delete action: on a consistent store the
      item delete keeps every reference resolved exactly when no PRD names the item, which is
      the condition SQLite checks before it lets the delete through. */
  lemma PrdBlocksDelete(s: Store, id: Id)
    requires RefsResolve(s)
    ensures RefsResolve(DeleteRoadmapItem(s, id)) <==> !PrdNames(s, id)
  {
    if PrdNames(s, id) {
      var p :| p in s.prds && p.roadmapItemId == Some(id);
      assert p in DeleteRoadmapItem(s, id).prds;
    } else {
      DeleteRoadmapItemRefs(s, id);
    }
  }

  /** `parentId` carries no foreign key: deleting a parent leaves each child row as it was,
      now naming an item that no longer exists. */
  lemma DeleteParentLeavesChildDangling(s: Store, parent: Id, child: RoadmapItem)
    requires child in s.items && child.id != parent && child.parentId == Some(parent)
    ensures var r := DeleteRoadmapItem(s, parent);
      child in r.items && child.parentId == Some(parent) && FindItem(r.items, parent).None?
  {
  }
}
