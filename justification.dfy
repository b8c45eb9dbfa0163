/** The traceability rule the commit gate enforces and the graph's orphan flags report: an
    item in an active status is justified when it, or an ancestor within its type's reach,
    carries a link to an accepted problem. */
module Justification {
  import opened Wrappers
  import opened Schema

  /** JavaScript truthiness of a `string | null` value: present and not empty. */
  predicate Present(p: Option<string>) {
    p.Some? && p.value != ""
  }

  /** The statuses the commit gate guards and the graph checks. */
  predicate ActiveStatus(status: string) {
    status == "committed" || status == "in-progress" || status == "done"
  }

  /** The problem a link names exists and is accepted. */
  predicate ProblemAccepted(s: Store, problemId: Id) {
    var p := FindProblem(s.problems, problemId);
    p.Some? && p.value.status == "accepted"
  }

  /** The item `id` exists and one of its problem links names an accepted problem. */
  predicate AcceptedOn(s: Store, id: Id) {
    HasItem(s, id) &&
    exists l | l in s.itemProblems :: l.roadmapItemId == id && ProblemAccepted(s, l.problemId)
  }

  /** How many levels up an item may inherit an accepted problem: an initiative none, an epic
      its parent, anything else its parent and grandparent. */
  function Reach(itemType: string): (n: nat)
    ensures n <= 2 && (n == 0 <==> itemType == "initiative")
  {
    if itemType == "initiative" then 0 else if itemType == "epic" then 1 else 2
  }

  /** The ids reached by following `parentId` from `parent`, at most `hops` of them. A parent
      that is not an item ends the chain after its own id; a cycle is cut by the bound. */
  function AncestorIds(s: Store, parent: Option<Id>, hops: nat): (r: seq<Id>)
    ensures |r| <= hops
    ensures forall a | a in r :: a != ""
    ensures r != [] <==> hops > 0 && Present(parent)
    ensures r != [] ==> r[0] == parent.value
    decreases hops
  {
    if hops == 0 || !Present(parent) then []
    else
      [parent.value] + match FindItem(s.items, parent.value) {
        case None => []
        case Some(p) => AncestorIds(s, p.parentId, hops - 1)
      }
  }

  /** The item `id`, or one of the ancestors reached from `parent` within `hops`, carries an
      accepted problem. */
  predicate Justified(s: Store, id: Id, parent: Option<Id>, hops: nat) {
    AcceptedOn(s, id) || exists a | a in AncestorIds(s, parent, hops) :: AcceptedOn(s, a)
  }

  /** Some objective link row names the item. */
  predicate HasObjectiveLink(s: Store, id: Id) {
    exists l | l in s.itemObjectives :: l.roadmapItemId == id
  }

  /** The item claims more than its links support: it is in an active status, and it is an
      initiative without an objective link or without an accepted problem of its own, or it is
      another type without a parent or without an accepted problem within its reach. */
  predicate Unjustified(s: Store, item: RoadmapItem) {
    && ActiveStatus(item.status)
    && if item.itemType == "initiative" then !HasObjectiveLink(s, item.id) || !AcceptedOn(s, item.id)
       else !Present(item.parentId) || !Justified(s, item.id, item.parentId, Reach(item.itemType))
  }

  /** Within a reach of two, the ancestors are the parent and, when the parent is an item with a
      parent of its own, the grandparent. */
  lemma {:induction false} TwoLevelAncestors(s: Store, parent: Option<Id>)
    ensures var r := AncestorIds(s, parent, 2);
      && (!Present(parent) ==> r == [])
      && (Present(parent) && FindItem(s.items, parent.value).None? ==> r == [parent.value])
      && (Present(parent) && FindItem(s.items, parent.value).Some? ==>
            var gp := FindItem(s.items, parent.value).value.parentId;
            r == if Present(gp) then [parent.value, gp.value] else [parent.value])
  {
    if Present(parent) && FindItem(s.items, parent.value).Some? {
      var gp := FindItem(s.items, parent.value).value.parentId;
      assert AncestorIds(s, gp, 1) == if Present(gp) then [gp.value] else [] by {
        if Present(gp) {
          assert AncestorIds(s, gp, 1) == [gp.value] + match FindItem(s.items, gp.value) {
            case None => []
            case Some(q) => AncestorIds(s, q.parentId, 0)
          };
        }
      }
    }
  }

  /** Within a reach of one, the only ancestor is the parent itself. */
  lemma OneLevelAncestors(s: Store, parent: Option<Id>)
    ensures AncestorIds(s, parent, 1) == if Present(parent) then [parent.value] else []
  {
    if Present(parent) {
      assert AncestorIds(s, parent, 1) == [parent.value] + match FindItem(s.items, parent.value) {
        case None => []
        case Some(p) => AncestorIds(s, p.parentId, 0)
      };
    }
  }
}
