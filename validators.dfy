/** The value domain the input schemas admit. The roadmap-item schema is modelled field by
    field; the enum lists of the other schemas are lifted as they are. */
module Validators {
  import opened Wrappers
  import opened Schema

  const ItemTypes: seq<string> := ["initiative", "epic", "feature"]
  const ItemStatuses: seq<string> := ["proposed", "committed", "in-progress", "done"]
  const EffortSizes: seq<string> := ["XS", "S", "M", "L", "XL"]

  const SignalStatuses: seq<string> := ["new", "processed", "discarded"]
  const ProblemStatuses: seq<string> := ["draft", "shaped", "proposed", "accepted", "rejected"]
  const ReleaseStatuses: seq<string> := ["planned", "active", "released"]
  const Severities: seq<string> := ["critical", "high", "medium", "low"]
  const Frequencies: seq<string> := ["daily", "weekly", "monthly", "rare"]
  const RetentionOrGrowth: seq<string> := ["retention", "growth", "both"]

  /** The fields of a roadmap-item create or update request; a field the request leaves out
      is `None`. */
  datatype ItemFields = ItemFields(
    title: Option<string>, description: Option<string>, rationale: Option<string>,
    itemType: Option<string>, status: Option<string>, targetMonth: Option<string>,
    effortSize: Option<string>, reach: Option<int>, impact: Option<int>,
    confidence: Option<int>, effort: Option<int>, parentId: Option<Id>, releaseId: Option<Id>)

  /** A RICE input, when given, lies in 1..10. */
  predicate RiceInRange(v: Option<int>) {
    v.None? || 1 <= v.value <= 10
  }

  /** An optional field, when given, is one of `values`. */
  predicate OneOf(v: Option<string>, values: seq<string>) {
    v.None? || v.value in values
  }

  /** What the update schema checks: every field is optional, and a given field obeys its rule. */
  predicate ValidItemUpdate(d: ItemFields) {
    && (d.title.Some? ==> |d.title.value| >= 1)
    && OneOf(d.itemType, ItemTypes)
    && OneOf(d.status, ItemStatuses)
    && OneOf(d.effortSize, EffortSizes)
    && RiceInRange(d.reach) && RiceInRange(d.impact)
    && RiceInRange(d.confidence) && RiceInRange(d.effort)
  }

  /** What the insert schema checks: the update rules, and title, type and status are given. */
  predicate ValidItemInsert(d: ItemFields) {
    ValidItemUpdate(d) && d.title.Some? && d.itemType.Some? && d.status.Some?
  }

  /** The request that carries one field only: a status. */
  function StatusOnly(status: string): ItemFields {
    ItemFields(None, None, None, None, Some(status), None, None, None, None, None, None, None, None)
  }

  /** Every insert request the schema accepts is a valid update, and an update may carry a
      status alone: such a request passes exactly when the status is one of the four. */
  lemma UpdateSchemaIsPartial(d: ItemFields, status: string)
    ensures ValidItemInsert(d) ==> ValidItemUpdate(d)
    ensures ValidItemUpdate(StatusOnly(status)) <==> status in ItemStatuses
    ensures !ValidItemInsert(StatusOnly(status))
  {
  }

  /** The fields of a problem create or update request. */
  datatype ProblemFields = ProblemFields(
    title: Option<string>, statement: Option<string>, whoAffected: Option<string>,
    workflowBlock: Option<string>, businessImpact: Option<string>,
    retentionOrGrowth: Option<string>, frequency: Option<string>, severity: Option<string>,
    status: Option<string>)

  /** What the problem update schema checks. */
  predicate ValidProblemUpdate(d: ProblemFields) {
    && (d.title.Some? ==> |d.title.value| >= 1)
    && (d.statement.Some? ==> |d.statement.value| >= 1)
    && OneOf(d.retentionOrGrowth, RetentionOrGrowth)
    && OneOf(d.frequency, Frequencies)
    && OneOf(d.severity, Severities)
    && OneOf(d.status, ProblemStatuses)
  }

  /** What the problem insert schema checks: title and statement are given; it has no status field. */
  predicate ValidProblemInsert(d: ProblemFields) {
    ValidProblemUpdate(d.(status := None)) && d.title.Some? && d.statement.Some?
  }

  /** Each column default is a value the matching schema admits. */
  lemma DefaultsAreAdmitted()
    ensures Default(ItemType) in ItemTypes && Default(ItemStatus) in ItemStatuses
    ensures Default(ProblemStatus) in ProblemStatuses && Default(SignalStatus) in SignalStatuses
    ensures Default(ReleaseStatus) in ReleaseStatuses
  {
  }
}
