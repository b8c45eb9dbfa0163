/** The database handle the server actions write through, the outcomes an action can have, and
    the inserts SQLite accepts with primary and foreign keys enforced. */
module Database {
  import opened Wrappers
  import opened Schema

  /** Why an action throws: the input schema rejected the request, or SQLite rejected the
      write (a taken primary key or a foreign key naming no row). */
  datatype Failure = InvalidInput | ConstraintViolation

  /** An action either returns a value or throws. */
  datatype Outcome<T> = Returned(value: T) | Thrown(failure: Failure)

  /** `GatingResult`: `{ success: true }` or a gating error with its missing codes and message. */
  datatype GatingResult = Success | Gating(missing: seq<string>, message: string)

  /** The open database connection; its tables are the one piece of mutable state. */
  class Db {
    var store: Store

    constructor (initial: Store)
      ensures store == initial
    {
      store := initial;
    }
  }

  /** SQLite accepts a new roadmap-item row: its id is unused and a release it names exists. */
  predicate CanInsertItem(s: Store, row: RoadmapItem) {
    !HasItem(s, row.id) && (row.releaseId.Some? ==> HasRelease(s, row.releaseId.value))
  }

  /** SQLite accepts a new problem row: its id is unused. */
  predicate CanInsertProblem(s: Store, row: Problem) {
    !HasProblem(s, row.id)
  }

  /** SQLite accepts a new roadmap-item–problem row: unused id, both ends exist. */
  predicate CanInsertItemProblem(s: Store, row: RoadmapItemProblem) {
    && (forall x | x in s.itemProblems :: x.id != row.id)
    && HasItem(s, row.roadmapItemId) && HasProblem(s, row.problemId)
  }

  /** SQLite accepts a new roadmap-item–objective row: unused id, both ends exist. */
  predicate CanInsertItemObjective(s: Store, row: RoadmapItemObjective) {
    && (forall x | x in s.itemObjectives :: x.id != row.id)
    && HasItem(s, row.roadmapItemId) && HasObjective(s, row.objectiveId)
  }

  /** SQLite accepts a new signal–problem row: unused id, both ends exist. */
  predicate CanInsertSignalProblem(s: Store, row: SignalProblem) {
    && (forall x | x in s.signalProblems :: x.id != row.id)
    && HasSignal(s, row.signalId) && HasProblem(s, row.problemId)
  }

  /** Every insert SQLite accepts keeps the store consistent. */
  lemma InsertItemConsistent(s: Store, row: RoadmapItem)
    requires Consistent(s) && CanInsertItem(s, row)
    ensures Consistent(s.(items := s.items + [row]))
  {
    var r := s.(items := s.items + [row]);
    forall l | l in r.itemProblems ensures HasItem(r, l.roadmapItemId) {
      var x :| x in s.items && x.id == l.roadmapItemId;
      assert x in r.items;
    }
    forall l | l in r.itemObjectives ensures HasItem(r, l.roadmapItemId) {
      var x :| x in s.items && x.id == l.roadmapItemId;
      assert x in r.items;
    }
  }

  lemma InsertProblemConsistent(s: Store, row: Problem)
    requires Consistent(s) && CanInsertProblem(s, row)
    ensures Consistent(s.(problems := s.problems + [row]))
  {
    var r := s.(problems := s.problems + [row]);
    forall l | l in r.itemProblems ensures HasProblem(r, l.problemId) {
      var x :| x in s.problems && x.id == l.problemId;
      assert x in r.problems;
    }
    forall l | l in r.signalProblems ensures HasProblem(r, l.problemId) {
      var x :| x in s.problems && x.id == l.problemId;
      assert x in r.problems;
    }
  }

  lemma InsertItemProblemConsistent(s: Store, row: RoadmapItemProblem)
    requires Consistent(s) && CanInsertItemProblem(s, row)
    ensures Consistent(s.(itemProblems := s.itemProblems + [row]))
  {
    var r := s.(itemProblems := s.itemProblems + [row]);
    assert forall l | l in r.itemProblems :: l in s.itemProblems || l == row;
  }

  lemma InsertItemObjectiveConsistent(s: Store, row: RoadmapItemObjective)
    requires Consistent(s) && CanInsertItemObjective(s, row)
    ensures Consistent(s.(itemObjectives := s.itemObjectives + [row]))
  {
    var r := s.(itemObjectives := s.itemObjectives + [row]);
    assert forall l | l in r.itemObjectives :: l in s.itemObjectives || l == row;
  }

  lemma InsertSignalProblemConsistent(s: Store, row: SignalProblem)
    requires Consistent(s) && CanInsertSignalProblem(s, row)
    ensures Consistent(s.(signalProblems := s.signalProblems + [row]))
  {
    var r := s.(signalProblems := s.signalProblems + [row]);
    assert forall l | l in r.signalProblems :: l in s.signalProblems || l == row;
  }
}
