/** The problem server actions: create (forced to draft), update behind the accept gate,
    delete, and the signal links. */
module Problems {
  import opened Wrappers
  import opened Collections
  import opened Schema
  import opened Validators
  import opened Database

  /** The row `createProblem` inserts: the parsed fields, status forced to "draft". */
  function NewProblem(id: Id, d: ProblemFields): (row: Problem)
    requires ValidProblemInsert(d)
    ensures row.id == id && row.status == Default(ProblemStatus)
  {
    Problem(id, d.title.value, d.statement.value, d.whoAffected, d.workflowBlock,
            d.businessImpact, d.retentionOrGrowth, "draft", d.frequency, d.severity)
  }

  /** An update on one problem row: the fields the request gives overwrite, the others stay. */
  function PatchedProblem(p: Problem, d: ProblemFields): Problem {
    p.(title := d.title.GetOr(p.title), statement := d.statement.GetOr(p.statement),
       whoAffected := d.whoAffected.Or(p.whoAffected),
       workflowBlock := d.workflowBlock.Or(p.workflowBlock),
       businessImpact := d.businessImpact.Or(p.businessImpact),
       retentionOrGrowth := d.retentionOrGrowth.Or(p.retentionOrGrowth),
       status := d.status.GetOr(p.status), frequency := d.frequency.Or(p.frequency),
       severity := d.severity.Or(p.severity))
  }

  /** The update applied `where id = id`. */
  function PatchProblemRows(problems: seq<Problem>, id: Id, d: ProblemFields): (r: seq<Problem>)
    ensures |r| == |problems|
    ensures forall k | 0 <= k < |problems| :: r[k].id == problems[k].id
  {
    seq(|problems|, k requires 0 <= k < |problems| =>
      if problems[k].id == id then PatchedProblem(problems[k], d) else problems[k])
  }

  /** The roadmap-item–problem rows that name the problem. */
  function ItemLinksOfProblem(links: seq<RoadmapItemProblem>, problemId: Id): seq<RoadmapItemProblem> {
    Filter(links, (l: RoadmapItemProblem) => l.problemId == problemId)
  }

  /** No roadmap-item link names the problem. */
  lemma ItemLinksOfProblemEmpty(s: Store, id: Id)
    ensures ItemLinksOfProblem(s.itemProblems, id) == [] <==>
      forall l | l in s.itemProblems :: l.problemId != id
  {
    var r := ItemLinksOfProblem(s.itemProblems, id);
    if r != [] {
      assert r[0] in r;
    }
  }

  /** The accept gate refuses the request: it sets "accepted" and no link names the problem. */
  predicate AcceptBlocked(s: Store, id: Id, d: ProblemFields) {
    d.status == Some("accepted") && |ItemLinksOfProblem(s.itemProblems, id)| == 0
  }

  const AcceptMessage: string := "Must link to at least one Initiative or Feature before accepting."

  /** A problem patch touches no key and no reference, so it keeps the store consistent. */
  lemma PatchProblemRowsConsistent(s: Store, id: Id, d: ProblemFields)
    requires Consistent(s)
    ensures Consistent(s.(problems := PatchProblemRows(s.problems, id, d)))
  {
    var r := s.(problems := PatchProblemRows(s.problems, id, d));
    PatchProblemRowsKeepsKeys(s.problems, id, d);
    PatchProblemRowsKeepsIds(s, id, d);
    forall l | l in r.itemProblems ensures HasProblem(r, l.problemId) {
      assert HasProblem(s, l.problemId);
    }
    forall l | l in r.signalProblems ensures HasProblem(r, l.problemId) {
      assert HasProblem(s, l.problemId);
    }
  }

  lemma PatchProblemRowsKeepsKeys(problems: seq<Problem>, id: Id, d: ProblemFields)
    requires forall a, b | a in problems && b in problems && a.id == b.id :: a == b
    ensures var r := PatchProblemRows(problems, id, d);
      forall a, b | a in r && b in r && a.id == b.id :: a == b
  {
    var r := PatchProblemRows(problems, id, d);
    forall a, b | a in r && b in r && a.id == b.id ensures a == b {
      var i :| 0 <= i < |r| && r[i] == a;
      var j :| 0 <= j < |r| && r[j] == b;
      assert problems[i] in problems && problems[j] in problems;
    }
  }

  lemma PatchProblemRowsKeepsIds(s: Store, id: Id, d: ProblemFields)
    ensures forall x :: HasProblem(s.(problems := PatchProblemRows(s.problems, id, d)), x) <==> HasProblem(s, x)
  {
    var r := s.(problems := PatchProblemRows(s.problems, id, d));
    forall x ensures HasProblem(r, x) <==> HasProblem(s, x) {
      if HasProblem(s, x) {
        var y :| y in s.problems && y.id == x;
        var i :| 0 <= i < |s.problems| && s.problems[i] == y;
        assert r.problems[i] in r.problems;
      }
      if HasProblem(r, x) {
        var y :| y in r.problems && y.id == x;
        var i :| 0 <= i < |r.problems| && r.problems[i] == y;
        assert s.problems[i] in s.problems;
      }
    }
  }

  /** The quote a link row stores: an empty or missing quote is stored as null. */
  function StoredQuote(quote: Option<string>): (q: Option<string>)
    ensures q.Some? <==> quote.Some? && quote.value != ""
    ensures q.Some? ==> q == quote
  {
    if quote.Some? && quote.value != "" then quote else None
  }

  /** `createProblem`. */
  method Create(db: Db, newId: Id, d: ProblemFields) returns (r: Outcome<Problem>)
    modifies db
    ensures !ValidProblemInsert(d) ==> r == Thrown(InvalidInput) && db.store == old(db.store)
    ensures ValidProblemInsert(d) && CanInsertProblem(old(db.store), NewProblem(newId, d)) ==>
      r == Returned(NewProblem(newId, d)) &&
      db.store == old(db.store).(problems := old(db.store).problems + [NewProblem(newId, d)])
    ensures ValidProblemInsert(d) && !CanInsertProblem(old(db.store), NewProblem(newId, d)) ==>
      r == Thrown(ConstraintViolation) && db.store == old(db.store)
  {
    if !ValidProblemInsert(d) {
      return Thrown(InvalidInput);
    }
    var row := NewProblem(newId, d);
    if !CanInsertProblem(db.store, row) {
      return Thrown(ConstraintViolation);
    }
    db.store := db.store.(problems := db.store.problems + [row]);
    r := Returned(row);
  }

  /** `updateProblem`: accepting needs at least one roadmap-item link naming the problem;
      otherwise the patch is written (to no row, when the id names none). */
  method Update(db: Db, id: Id, d: ProblemFields) returns (r: Outcome<GatingResult>)
    modifies db
    ensures !ValidProblemUpdate(d) ==> r == Thrown(InvalidInput) && db.store == old(db.store)
    ensures ValidProblemUpdate(d) && AcceptBlocked(old(db.store), id, d) ==>
      r == Returned(Gating(["roadmapItem"], AcceptMessage)) && db.store == old(db.store)
    ensures ValidProblemUpdate(d) && !AcceptBlocked(old(db.store), id, d) ==>
      r == Returned(Success) &&
      db.store == old(db.store).(problems := PatchProblemRows(old(db.store).problems, id, d))
  {
    if !ValidProblemUpdate(d) {
      return Thrown(InvalidInput);
    }
    if d.status == Some("accepted") {
      var links := ItemLinksOfProblem(db.store.itemProblems, id);
      if |links| == 0 {
        return Returned(Gating(["roadmapItem"], AcceptMessage));
      }
    }
    db.store := db.store.(problems := PatchProblemRows(db.store.problems, id, d));
    r := Returned(Success);
  }

  /** `deleteProblem`: its signal links and roadmap-item links cascade. */
  method Delete(db: Db, id: Id)
    modifies db
    ensures db.store == DeleteProblem(old(db.store), id)
  {
    db.store := DeleteProblem(db.store, id);
  }

  /** `linkSignalToProblem`. */
  method LinkSignal(db: Db, linkId: Id, problemId: Id, signalId: Id, quote: Option<string>)
    returns (r: Outcome<()>)
    modifies db
    ensures var row := SignalProblem(linkId, signalId, problemId, StoredQuote(quote));
      if CanInsertSignalProblem(old(db.store), row) then
        r == Returned(()) && db.store == old(db.store).(signalProblems := old(db.store).signalProblems + [row])
      else r == Thrown(ConstraintViolation) && db.store == old(db.store)
  {
    var row := SignalProblem(linkId, signalId, problemId, StoredQuote(quote));
    if !CanInsertSignalProblem(db.store, row) {
      return Thrown(ConstraintViolation);
    }
    db.store := db.store.(signalProblems := db.store.signalProblems + [row]);
    r := Returned(());
  }

  /** `unlinkSignalFromProblem`: the problem id only names the page to refresh. */
  method UnlinkSignal(db: Db, linkId: Id, problemId: Id)
    modifies db
    ensures db.store == old(db.store).(signalProblems :=
      Filter(old(db.store).signalProblems, (l: SignalProblem) => l.id != linkId))
  {
    db.store := db.store.(signalProblems := Filter(db.store.signalProblems, (l: SignalProblem) => l.id != linkId));
  }
}
