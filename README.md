# Foundry strategy consistency engine, modelled in Dafny

Foundry is a product-strategy workspace. Signals (customer conversations, metrics, feedback,
competitive moves, internal observations) are linked to problems. Problems are linked to
roadmap items: initiatives, epics and features. Roadmap items are aligned to objectives. This
project models the part of the workspace that keeps those links consistent, and proves what
each part promises.

- **Store and schema** (`Schema`, `Database`, `Validators`). The SQLite database is a value
  with one sequence per table. Rows are kept in insertion order, which stands for the order of
  an unordered `findMany`. A `findFirst` by id is an `Option` lookup that returns the first
  match. The foreign keys are enforced, so a link row naming a missing row is refused. Each
  delete carries out exactly the cascades, and the one set-null, that the schema declares.
  A PRD's reference to a roadmap item has no delete action, so an item delete is refused while
  a PRD names the item. `parentId` carries no reference. The handle the server actions write through is the class
  `Database.Db`, whose one field is the store. The column defaults and the input schemas'
  value domain are lifted as predicates.
- **Justification** (`Justification`, `Rice`). An item in an active status (committed,
  in-progress or done) is justified when it carries a link to an accepted problem, or its
  parent or grandparent does. How far up the `parentId` chain this is looked for depends on
  the item's type. The chain is followed step by step, so a cyclic `parentId` is harmless.
  The RICE score is kept as an integer number of tenths: `(20·r·i·c + e) div (2·e)`, which is
  `Math.round(r·i·c/e·10)` rounded half up.
- **Server actions** (`Problems`, `RoadmapItems`). Each action is a method on `Db`: create,
  update behind the gate, delete, link and unlink. The commit gate collects every missing
  requirement in a fixed order and writes nothing when one is missing. The accept gate needs
  at least one roadmap-item link. Fresh ids, which the source draws from `nanoid`, are
  parameters.
- **Graph** (`Graph`, `GraphShape`, `OrphanRules`, `GateAgreement`). `getGraphData` projects
  the store into typed nodes and edges, and sets the orphan flag of each node. The model
  emits them with loops over the tables. `getOrphanCounts` counts per type with loops and
  agrees with the flags. Each orphan check is shown equal to the justification rule.
  `GateAgreement` proves that the commit gate and the accept gate block exactly the writes
  after which the written node would be flagged an orphan. The one exception is an item made
  its own parent: the gate reads the stored record, and the graph reads the patched one.
- **Roadmap table** (`RoadmapTree`, `RoadmapBuild`, `RoadmapCounts`, `RoadmapPlacement`,
  `RoadmapView`, `RoadmapMount`). `buildTree` is three loop passes that fill the child maps,
  followed by a score sort whose order among equal scores is stable. The model proves where
  each item lands and that every initiative, epic and feature appears exactly once.
  `flattenTree`, `hasMatchingDescendant`, the expand state and the status menu are modelled
  as the table uses them. When the table mounts, it shows the whole forest in preorder.
- **Strategy graph view** (`StrategyGraph`, `NodeDetail`). The type, status and search
  filters are modelled, with lowercasing limited to ASCII. So is the objective filter's
  `while (changed)` loop, proved to compute the least edge-closed set that holds the seeds,
  taken over all edges in either direction. The edge prune is modelled too. The filter bar is
  a class with its toggles, `clearFilters` and `hasActiveFilters`. The detail panel covers the
  linked neighbours, the detail link, the `canLinkTo` offers and the `handleAddLink` dispatch.
- **Signal composition** (`ComposeSignal`, `Text`). Each signal type has a composer that emits
  its parts, which are trimmed and joined with a blank line. `composeRawText` dispatches on
  the type, and `validateStructuredFields` checks the required fields. Passing validation is
  shown to give a non-empty text. `trim` uses the ECMAScript white-space set.

## Model

| member | source | states |
|---|---|---|
| Schema.FindById | src/lib/actions/roadmap-items.ts:69-71 | `findFirst` by primary key on any table: a hit is a row of the table whose key is the id; there is no hit exactly when no row has that key |
| Schema.FindItem | src/lib/actions/roadmap-items.ts:69-71 | `findFirst` by id: a hit is an item of the table with that id; there is no hit exactly when no row has that id |
| Schema.FindProblem | src/lib/actions/problems.ts:40-42 | `findFirst` on the problems by id: a hit is a row with that id; there is no hit exactly when no row has that id |
| Schema.DeleteSignal | src/lib/db/schema.ts:37-44 | deleting a signal removes it, keeps every other signal, removes exactly the signal–problem rows naming it, and leaves every other table as it was |
| Schema.DeleteProblem | src/lib/actions/problems.ts:84-86 | deleting a problem removes it and, by the cascades at schema.ts:42-44 and 97-99, exactly the signal–problem and roadmap-item–problem rows naming it; every other row and table stays |
| Schema.DeleteObjective | src/lib/db/schema.ts:103-111 | deleting an objective removes it and exactly the roadmap-item–objective rows naming it (cascade); nothing else changes |
| Schema.DeleteRoadmapItem | src/lib/actions/roadmap-items.ts:204-206 | deleting an item removes that item only (the other items stay, none is added) and exactly its problem and objective link rows, which cascade as schema.ts:94-96 and 105-107 say; every other table stays |
| Schema.ClearRelease | src/lib/db/schema.ts:86 | `onDelete: "set null"`: each item that named the release loses the reference and every other item stays as it was, position by position |
| Schema.DeleteRelease | src/lib/db/schema.ts:60-68 | deleting a release removes it, keeps the other releases and changes nothing else except the items' release references |
| Schema.DeleteReleaseTouchesOnlyReleaseId | src/lib/db/schema.ts:86 | after a release delete each item differs from its old row in `releaseId` alone, no item names the deleted release, and items that did not name it are unchanged |
| Schema.DeleteSignalConsistent | src/lib/db/schema.ts:39-41 | a signal delete keeps the primary keys unique and every foreign key resolving |
| Schema.DeleteProblemConsistent | src/lib/db/schema.ts:97-99 | a problem delete keeps the database consistent: no link row is left naming the deleted problem |
| Schema.DeleteObjectiveConsistent | src/lib/db/schema.ts:108-110 | an objective delete keeps the database consistent |
| Schema.DeleteRoadmapItemConsistent | src/lib/db/schema.ts:94-96 | an item delete that no PRD blocks keeps the database consistent; `parentId` is not a foreign key and is left alone |
| Schema.PrdBlocksDelete | src/lib/db/schema.ts:115-117 | the PRD reference has no delete action: on a store whose references resolve, the cascading item delete keeps them resolved exactly when no PRD names the item |
| Schema.ClearReleaseKeepsKeys | src/lib/db/schema.ts:86 | clearing a release reference keeps the item ids unique |
| Schema.ClearReleaseKeepsIds | src/lib/db/schema.ts:86 | clearing a release reference keeps every item id present |
| Schema.ClearReleaseRemainingRefs | src/lib/db/schema.ts:86 | after clearing, every remaining release reference was already there and is not the deleted release |
| Schema.DeleteReleaseConsistent | src/lib/db/schema.ts:60-68 | a release delete keeps the database consistent: nothing references the deleted release afterwards |
| Schema.DeleteParentLeavesChildDangling | src/lib/db/schema.ts:85 | `parentId` has no foreign key: deleting a parent leaves each child row as it was, naming an item that no longer exists |
| Justification.Reach | src/lib/actions/roadmap-items.ts:105-172 | how far up an item inherits an accepted problem: none for an initiative, at most two levels otherwise |
| Justification.AncestorIds | src/lib/actions/roadmap-items.ts:148-167 | walking `parentId` upward yields at most `hops` non-empty ids, none exactly when there are no hops or no parent given, and the first is the parent |
| Justification.TwoLevelAncestors | src/lib/actions/roadmap-items.ts:148-167 | within a reach of two, a feature's ancestors are its parent and, when the parent row exists and has a parent, the grandparent; nothing else |
| Justification.OneLevelAncestors | src/lib/actions/roadmap-items.ts:125-134 | within a reach of one, an epic's only ancestor is its parent |
| Validators.UpdateSchemaIsPartial | src/lib/validators/roadmap-item.ts:3-19 | every request the insert schema accepts passes the update schema; an update carrying a status alone passes exactly when the status is one of the four, and is not a valid insert |
| Validators.DefaultsAreAdmitted | src/lib/db/schema.ts:71-89 | each column default (item type and status, problem status, signal status, release status) is a value the matching schema admits |
| Rice.FloorDiv | src/lib/actions/roadmap-items.ts:28 | the floor of a quotient, for a divisor of either sign |
| Rice.RiceTenths | src/lib/actions/roadmap-items.ts:21-29 | there is no score exactly when one of the four inputs is null or zero; otherwise the score in tenths is `10 * r * i * c / e` rounded to the nearest integer, halves up |
| Rice.NearestTenthsUnique | src/lib/actions/roadmap-items.ts:28 | that rounding has a single answer, so the score is determined by the four inputs |
| Rice.MulMonotone | src/lib/actions/roadmap-items.ts:28 | multiplying by a non-negative factor keeps order and by a non-positive one reverses it |
| Rice.ValidatedScoreRange | src/lib/validators/roadmap-item.ts:11-14 | with all four inputs in the validated range 1..10 a score exists and lies between 0.1 and 1000.0 |
| Database.Db.constructor | src/lib/db/index.ts:12-16 | the connection opens on the given tables |
| Database.InsertItemConsistent | src/lib/db/index.ts:14 | with foreign keys on, an item insert SQLite accepts (fresh id, existing release) keeps the database consistent |
| Database.InsertProblemConsistent | src/lib/db/index.ts:14 | a problem insert with a fresh id keeps the database consistent |
| Database.InsertItemProblemConsistent | src/lib/db/schema.ts:92-100 | a roadmap-item–problem insert SQLite accepts (fresh id, both ends exist) keeps the database consistent |
| Database.InsertItemObjectiveConsistent | src/lib/db/schema.ts:103-112 | a roadmap-item–objective insert SQLite accepts keeps the database consistent |
| Database.InsertSignalProblemConsistent | src/lib/db/schema.ts:37-46 | a signal–problem insert SQLite accepts keeps the database consistent |
| Problems.NewProblem | src/lib/actions/problems.ts:17-25 | the row `createProblem` inserts carries the new id and status "draft" whatever the request said |
| Problems.PatchProblemRows | src/lib/actions/problems.ts:74-77 | the update leaves the table's size and every row id as they were |
| Problems.ItemLinksOfProblemEmpty | src/lib/actions/problems.ts:61-64 | the gate's link query finds nothing exactly when no roadmap-item–problem row names the problem |
| Problems.PatchProblemRowsConsistent | src/lib/actions/problems.ts:74-77 | a problem update touches no key and no reference, so it keeps the database consistent |
| Problems.PatchProblemRowsKeepsKeys | src/lib/actions/problems.ts:74-77 | a problem update keeps the problem ids unique |
| Problems.PatchProblemRowsKeepsIds | src/lib/actions/problems.ts:74-77 | a problem update keeps exactly the same set of problem ids |
| Problems.StoredQuote | src/lib/actions/problems.ts:98 | `quote \|\| null`: a quote is stored exactly when it is given and not empty, and then unchanged |
| Problems.Create | src/lib/actions/problems.ts:14-29 | an invalid request throws and writes nothing; a valid one appends the draft row and returns it, unless its id is taken, when SQLite rejects it and nothing changes |
| Problems.Update | src/lib/actions/problems.ts:53-82 | an invalid request throws; setting "accepted" with no roadmap-item link naming the problem returns the gating error `["roadmapItem"]` with its message and writes nothing; otherwise the patch is written and the result is success |
| Problems.Delete | src/lib/actions/problems.ts:84-87 | the store after `deleteProblem` is the cascading problem delete of the store before |
| Problems.LinkSignal | src/lib/actions/problems.ts:89-101 | the link row (quote stored as `quote \|\| null`) is appended when its id is fresh and both ends exist; otherwise SQLite rejects it and nothing changes |
| Problems.UnlinkSignal | src/lib/actions/problems.ts:103-106 | exactly the signal–problem rows with that id are removed; the problem id plays no part |
| RoadmapItems.NewItem | src/lib/actions/roadmap-items.ts:40-48 | the inserted row carries the new id, the given type and status, and a score in sync with its RICE inputs |
| RoadmapItems.PatchRows | src/lib/actions/roadmap-items.ts:195-198 | the update leaves the table's size and every row id as they were |
| RoadmapItems.PatchKeepsScoreInSync | src/lib/actions/roadmap-items.ts:189-197 | the score an update writes is the RICE score of the merged inputs, so it is in sync afterwards, and repeating the same update changes nothing more |
| RoadmapItems.PatchRowsConsistent | src/lib/actions/roadmap-items.ts:195-198 | an update whose release (if any) exists keeps the database consistent |
| RoadmapItems.PatchRowsKeepsKeys | src/lib/actions/roadmap-items.ts:195-198 | an update keeps the item ids unique |
| RoadmapItems.PatchRowsKeepsIds | src/lib/actions/roadmap-items.ts:195-198 | an update keeps exactly the same set of item ids |
| RoadmapItems.PatchRowsReleases | src/lib/actions/roadmap-items.ts:195-198 | after an update every release reference still names an existing release |
| RoadmapItems.SomeAcceptedIsAcceptedOn | src/lib/actions/roadmap-items.ts:109-111 | for an existing item, "some link's problem is accepted" holds exactly when the item carries an accepted problem |
| RoadmapItems.RequiredMissing | src/lib/actions/roadmap-items.ts:100-172 | the gate reports at most two codes, each one of "objective", "acceptedProblem", "parentInitiative", "parentEpic" |
| RoadmapItems.CommitGate | src/lib/actions/roadmap-items.ts:101-172 | the codes the gate pushes, look-up by look-up, are exactly the reference rule: an initiative needs an objective link and an accepted problem of its own; an epic a parent and an accepted problem on itself or its parent; a feature a parent and an accepted problem on itself, its parent or its grandparent |
| RoadmapItems.Clauses | src/lib/actions/roadmap-items.ts:175-184 | each missing code maps, in order, to its message clause |
| RoadmapItems.Create | src/lib/actions/roadmap-items.ts:31-52 | an invalid request throws; a valid one appends the row with its computed score and returns it, never gating, unless SQLite rejects it (taken id or missing release), when nothing changes |
| RoadmapItems.Update | src/lib/actions/roadmap-items.ts:84-202 | an invalid request throws; an unknown id is a silent success; a move to "committed" from another status with missing links returns the gating codes and message and writes nothing; a release that does not exist is rejected; otherwise the patch and the score of the merged RICE inputs are written |
| RoadmapItems.DeleteItem | src/lib/actions/roadmap-items.ts:204-207 | while a PRD names the item, SQLite refuses the delete: it throws and the store is unchanged; otherwise nothing is thrown and the store after the delete is the cascading item delete of the store before |
| RoadmapItems.LinkProblem | src/lib/actions/roadmap-items.ts:209-219 | the link row is appended when its id is fresh and both ends exist; otherwise SQLite rejects it and nothing changes |
| RoadmapItems.UnlinkProblem | src/lib/actions/roadmap-items.ts:221-226 | exactly the roadmap-item–problem rows with that id are removed |
| RoadmapItems.LinkObjective | src/lib/actions/roadmap-items.ts:228-240 | the link row (an omitted impact stored as null) is appended when its id is fresh and both ends exist; otherwise nothing changes |
| RoadmapItems.UnlinkObjective | src/lib/actions/roadmap-items.ts:242-247 | exactly the roadmap-item–objective rows with that id are removed |
| Graph.NodeTypeOf | src/lib/actions/graph.ts:186-191 | an item's node type is "initiative" exactly for type "initiative", "epic" exactly for "epic", and "feature" for every other type |
| Graph.ProbViews | src/lib/actions/graph.ts:150-154 | one joined view per problem link row, in row order, each joined with its problem |
| Graph.ObjViews | src/lib/actions/graph.ts:157-160 | one view per objective link row, in row order, holding the row's two ends |
| Graph.AllProbLinksSound | src/lib/actions/graph.ts:149-155 | every entry of `allRiProbLinks` comes from a stored link row of a listed item |
| Graph.AllProbLinksComplete | src/lib/actions/graph.ts:149-155 | every stored problem link row of a listed item appears in `allRiProbLinks`, joined |
| Graph.AllObjLinksSound | src/lib/actions/graph.ts:156-161 | every entry of `allRiObjLinks` comes from a stored objective link row of a listed item |
| Graph.AllObjLinksComplete | src/lib/actions/graph.ts:156-161 | every stored objective link row of a listed item appears in `allRiObjLinks` |
| Graph.ItemMapOf | src/lib/actions/graph.ts:180-182 | `itemMap` has a key for every item, and each entry holds the parent and type of an item with that id |
| Graph.ObjectiveNodes | src/lib/actions/graph.ts:166-177 | each objective has a node `objective-<id>`, and objective nodes are never orphans |
| Graph.ItemNodes | src/lib/actions/graph.ts:185-219 | the item loop emits only initiative, epic and feature nodes |
| Graph.ProblemNodes | src/lib/actions/graph.ts:261-277 | each problem has its node, and the loop emits only problem nodes |
| Graph.SignalNodes | src/lib/actions/graph.ts:290-301 | each signal has a node `signal-<id>`, and signal nodes are never orphans |
| Graph.EmitItemEdges | src/lib/actions/graph.ts:221-258 | the three inner loops for one item emit its aligns-to edges, then its contains edge when the parent is a known item, then its justified-by edges |
| Graph.EmitAlignsTo | src/lib/actions/graph.ts:222-229 | the aligns-to loop pushes one edge per objective link of the item, in row order, from the item's node to `objective-<id>` |
| Graph.EmitJustifiedBy | src/lib/actions/graph.ts:251-258 | the justified-by loop pushes one edge per problem link of the item, in row order, from the item's node to `problem-<id>` |
| Graph.EmitProblemEdges | src/lib/actions/graph.ts:279-287 | the inner loop for one problem emits one derived-from edge per signal link, in row order |
| Graph.EmitObjectiveNodes | src/lib/actions/graph.ts:166-177 | the objective loop emits the objective nodes in table order |
| Graph.EmitItems | src/lib/actions/graph.ts:184-259 | the item loop emits the item nodes and, item by item, their edges |
| Graph.EmitProblems | src/lib/actions/graph.ts:261-288 | the problem loop emits the problem nodes with their orphan flags and their derived-from edges |
| Graph.EmitSignalNodes | src/lib/actions/graph.ts:290-301 | the signal loop emits the signal nodes in table order |
| Graph.GetGraphData | src/lib/actions/graph.ts:133-304 | `getGraphData` returns the objectives, then the items with their edges, then the problems with theirs, then the signals |
| Graph.CountOrphansAppend | src/lib/actions/graph.ts:344-375 | orphan counts add up over concatenated node lists |
| Graph.CountOrphansSnoc | src/lib/actions/graph.ts:344-375 | appending one node adds one to its own type's count when it is flagged, and nothing otherwise |
| Graph.CountOrphansNone | src/lib/actions/graph.ts:344-375 | a list with no flagged node of a type counts none of it |
| Graph.GetOrphanCounts | src/lib/actions/graph.ts:308-383 | the banner counts of `getOrphanCounts` are exactly the numbers of orphan-flagged problem, initiative, epic and feature nodes that `getGraphData` shows |
| Graph.CountProblemLoop | src/lib/actions/graph.ts:344-349 | the problem loop counts exactly the flagged problem nodes |
| Graph.CountItemLoop | src/lib/actions/graph.ts:351-375 | the item loop counts exactly the flagged initiative, epic and feature nodes |
| Graph.ItemNodesSnoc | src/lib/actions/graph.ts:185-219 | the item nodes of a prefix grow by the next item's node |
| Graph.CountItem | src/lib/actions/graph.ts:355-374 | one pass of the count loop adds one to the counter of the item's node type exactly when that node is flagged |
| Graph.ItemNodeByType | src/lib/actions/graph.ts:193-205 | the type test of the count loop on the raw item type picks the same node type and the same orphan check the graph uses |
| Graph.CountsAgree | src/lib/actions/graph.ts:377-382 | counts taken over the item and problem blocks equal the counts over the whole graph, since objective and signal nodes are never flagged |
| OrphanRules.FindItemIsTheRow | src/lib/actions/roadmap-items.ts:126-129 | with unique ids, `findFirst` on an item's id returns that item |
| OrphanRules.FindProblemIsTheRow | src/lib/actions/graph.ts:138 | with unique ids, the problem joined to a link is the one row with that id |
| OrphanRules.ItemMapIsFind | src/lib/actions/graph.ts:119 | with unique ids, `itemMap` has a key exactly when `findFirst` finds the item, and holds that item's parent and type |
| OrphanRules.AcceptedViewIsAcceptedOn | src/lib/actions/graph.ts:81-83 | the joined link rows show an accepted problem for an id exactly when the item exists and one of its links names an accepted problem |
| OrphanRules.ObjectiveViewIsLink | src/lib/actions/graph.ts:62 | for an existing item, the reduced objective rows show a link exactly when the table holds one |
| OrphanRules.ItemOrphanRule | src/lib/actions/graph.ts:54-129 | an item node's orphan flag holds exactly when the item is unjustified: active, and an initiative lacking an objective link or an accepted problem, an epic lacking a parent or an accepted problem on itself or its parent, a feature lacking a parent or an accepted problem on itself, its parent or its grandparent |
| OrphanRules.InitiativeOrphanRule | src/lib/actions/graph.ts:54-67 | for a stored initiative, the graph's orphan flag (active, and lacking an objective link or an accepted problem) agrees with the shared unjustified rule |
| OrphanRules.EpicOrphanRule | src/lib/actions/graph.ts:69-92 | for a stored epic, the graph's orphan flag (active, and no parent or no accepted problem on it or its parent) agrees with the shared unjustified rule |
| OrphanRules.FeatureOrphanRule | src/lib/actions/graph.ts:94-129 | for a stored item of any other type, the graph's orphan flag (active, and no parent or no accepted problem within two hops) agrees with the shared unjustified rule |
| OrphanRules.JustifiedTwoHops | src/lib/actions/roadmap-items.ts:144-170 | within two hops an item whose parent is given is justified exactly when it, its parent, or the parent row's own parent carries an accepted problem |
| OrphanRules.FeatureWithParentRule | src/lib/actions/graph.ts:94-129 | for an item with a parent, the feature check flags it exactly when it is active and not justified within two hops |
| OrphanRules.ProblemOrphanRule | src/lib/actions/graph.ts:45-52 | with the foreign key in force, a problem node is an orphan exactly when the problem is accepted and no roadmap-item link names it |
| OrphanRules.InactiveNeverOrphan | src/lib/actions/graph.ts:60-61 | items outside committed, in-progress and done, and problems other than accepted, are never orphans |
| OrphanRules.ParentlessEpicIsOrphan | src/lib/actions/graph.ts:80 | an active epic without a parent is an orphan even with an accepted problem of its own |
| GraphShape.ItemNodeIn | src/lib/actions/graph.ts:207-219 | every listed item's node is among the item nodes |
| GraphShape.AlignsToEdgesMember | src/lib/actions/graph.ts:222-229 | an edge is among an item's aligns-to edges exactly when it is the edge of one of its objective links |
| GraphShape.JustifiedByEdgesMember | src/lib/actions/graph.ts:251-258 | an edge is among an item's justified-by edges exactly when it is the edge of one of its problem links |
| GraphShape.DerivedFromEdgesMember | src/lib/actions/graph.ts:280-287 | an edge is among a problem's derived-from edges exactly when it is the edge of one of its signal links |
| GraphShape.AllItemEdgesMember | src/lib/actions/graph.ts:185-259 | an edge is among the item block's edges exactly when it is an edge of one of the items |
| GraphShape.AllProblemEdgesMember | src/lib/actions/graph.ts:262-288 | an edge is among the problem block's edges exactly when it is a derived-from edge of one of the problems |
| GraphShape.EveryRowHasNode | src/lib/actions/graph.ts:133-304 | every stored objective, item, problem and signal has its node; an item's node carries the traceability verdict |
| GraphShape.OnlyItemsAndProblemsOrphan | src/lib/actions/graph.ts:174 | only item and problem nodes can carry the orphan flag |
| GraphShape.EdgeEndsAreNodes | src/lib/actions/graph.ts:221-287 | with the foreign keys in force, every edge runs from a node of the graph to a node of the graph |
| GraphShape.EdgesResolve | src/lib/actions/graph.ts:221-287 | no edge of the graph dangles |
| GraphShape.AlignsToEdgeOfLink | src/lib/actions/graph.ts:222-229 | each objective link of an item gives an aligns-to edge from the item's node to the objective's node |
| GraphShape.JustifiedByEdgeOfLink | src/lib/actions/graph.ts:251-258 | each problem link of an item gives a justified-by edge from the item's node to the problem's node |
| GraphShape.DerivedFromEdgeOfLink | src/lib/actions/graph.ts:280-287 | each signal link of a problem gives a derived-from edge from the problem's node to the signal's node |
| GraphShape.LinkEdgesComeFromRows | src/lib/actions/graph.ts:221-287 | every aligns-to, justified-by and derived-from edge comes from a stored link row whose owner is in the store |
| GraphShape.ContainsEdgeIffParentKnown | src/lib/actions/graph.ts:231-248 | an item has a contains edge exactly when its `parentId` names an item, and the edge points at that item's node, typed by the parent's own type |
| GateAgreement.PatchRowsHasPatched | src/lib/actions/roadmap-items.ts:195-198 | the patched row of an existing item is in the table after the update |
| GateAgreement.FindItemAfterPatch | src/lib/actions/roadmap-items.ts:195-198 | with unique ids, an update of one row changes no other row `findFirst` can return |
| GateAgreement.AcceptedOnAfterPatch | src/lib/actions/roadmap-items.ts:195-198 | an item update keeps every item's accepted problems: it touches neither links, problems nor which ids exist |
| GateAgreement.JustifiedAfterPatch | src/lib/actions/roadmap-items.ts:148-167 | within a reach of two, when the parent is not the item itself, the update does not change whether the item is justified |
| GateAgreement.GateIsRule | src/lib/actions/roadmap-items.ts:100-172 | for a move to "committed", the gate reports no missing code exactly when the merged item is not unjustified in the store as it stands before the write |
| GateAgreement.UnjustifiedAfterPatch | src/lib/actions/roadmap-items.ts:195-198 | when the merged parent is not the item itself, writing the update does not change whether the merged item is unjustified |
| GateAgreement.CommitGateMatchesGraph | src/lib/actions/roadmap-items.ts:101-172 | a commit passes the gate exactly when, once the update is written, the item's graph node (graph.ts:193-205) is not an orphan, provided the merged parent is not the item itself |
| GateAgreement.SelfParentDisagrees | src/lib/actions/roadmap-items.ts:140-167 | the proviso is needed: a feature whose stored parent carries an accepted problem, committed with itself as new parent, passes the gate while its node is then flagged |
| GateAgreement.SelfParentPassesGate | src/lib/actions/roadmap-items.ts:140-167 | such a request passes the gate, which reads the stored parent row's links |
| GateAgreement.SelfParentFlagged | src/lib/actions/graph.ts:94-129 | such an item is flagged by the graph once written, since it is its own parent and grandparent |
| GateAgreement.SelfParentUnjustified | src/lib/actions/graph.ts:94-129 | a committed feature that names itself as parent and has no accepted problem of its own is unjustified: its parent and grandparent are itself |
| GateAgreement.AcceptGateMatchesGraph | src/lib/actions/problems.ts:59-72 | the accept gate blocks exactly the acceptances after which the problem's graph node would be an orphan |
| GateAgreement.CreatedItemVerdict | src/lib/actions/roadmap-items.ts:31-52 | a new item has no links, and it is flagged exactly when it is active and is an initiative, has no parent, or has no accepted problem among its ancestors within its reach |
| GateAgreement.CommittedInitiativeCreatedOrphan | src/lib/actions/roadmap-items.ts:31-52 | an initiative created as committed is flagged at once: creation never gates |
| GateAgreement.AcceptedOnAfterDeleteProblem | src/lib/actions/problems.ts:84-87 | after a problem delete, an item carries an accepted problem exactly when one of its links names another accepted problem |
| GateAgreement.DeleteProblemOrphansInitiative | src/lib/actions/problems.ts:84-87 | deleting the only accepted problem an active initiative relies on leaves that initiative an orphan: nothing gates the delete |
| RoadmapTree.ForestItemsAppend | src/components/roadmap/roadmap-table.tsx:138 | the items of two concatenated lists of trees are the items of the first followed by those of the second |
| RoadmapTree.WithKeySnoc | src/components/roadmap/roadmap-table.tsx:128 | the nodes with a given score of an extended list are those of the list, plus the new node if its score matches |
| RoadmapTree.InsertByScoreKeeps | src/components/roadmap/roadmap-table.tsx:128 | inserting a node into a sorted list adds exactly that node |
| RoadmapTree.InsertByScoreSorted | src/components/roadmap/roadmap-table.tsx:128 | inserting into a list ordered by score, highest first, keeps it ordered |
| RoadmapTree.SortedSnoc | src/components/roadmap/roadmap-table.tsx:128 | extending a sorted list by a node no larger than any in it keeps it sorted |
| RoadmapTree.InsertByScoreStable | src/components/roadmap/roadmap-table.tsx:128 | insertion places the new node after every node of equal score |
| RoadmapTree.SortByScoreSound | src/components/roadmap/roadmap-table.tsx:128 | the comparator sort orders by score (a missing score counted as 0), highest first, is a permutation, and is stable: nodes of equal score keep their order |
| RoadmapTree.InsertByScoreItems | src/components/roadmap/roadmap-table.tsx:128 | insertion adds exactly the new tree's items |
| RoadmapTree.SortByScoreItems | src/components/roadmap/roadmap-table.tsx:128 | sorting a list keeps its trees' items, counted with multiplicity |
| RoadmapTree.ForestItemsPointwise | src/components/roadmap/roadmap-table.tsx:129-131 | lists whose trees hold the same items, tree by tree, hold the same items |
| RoadmapTree.SortForestAt | src/components/roadmap/roadmap-table.tsx:127-132 | `sortChildren` keeps the length, and each position holds the sorted subtree of the node the score order puts there |
| RoadmapTree.SortForestSorted | src/components/roadmap/roadmap-table.tsx:127-132 | `sortChildren` orders every sibling list at every level by score |
| RoadmapTree.SortTreeSorted | src/components/roadmap/roadmap-table.tsx:127-132 | a subtree `sortChildren` reaches is sorted at every level |
| RoadmapTree.SortForestItems | src/components/roadmap/roadmap-table.tsx:127-132 | `sortChildren` keeps every item of the forest, counted with multiplicity |
| RoadmapTree.SortTreeItems | src/components/roadmap/roadmap-table.tsx:127-132 | `sortChildren` keeps every item of a subtree |
| RoadmapTree.SortForestMembers | src/components/roadmap/roadmap-table.tsx:127-132 | the sorted list holds exactly the sorted trees of the list |
| RoadmapBuild.TypeIdsSnoc | src/components/roadmap/roadmap-table.tsx:91-95 | the keys recorded after one more item gain that item's id exactly when it has the type |
| RoadmapBuild.Leaves | src/components/roadmap/roadmap-table.tsx:113 | one childless node per item, in order, at the given depth |
| RoadmapBuild.EpicTrees | src/components/roadmap/roadmap-table.tsx:100 | one node per epic |
| RoadmapBuild.InitiativeTrees | src/components/roadmap/roadmap-table.tsx:93 | one node per initiative |
| RoadmapBuild.Roots | src/components/roadmap/roadmap-table.tsx:134 | one root per initiative, in insertion order |
| RoadmapBuild.AttachEpics | src/components/roadmap/roadmap-table.tsx:115 | each epic's node holds, at depth 2, the features recorded for it |
| RoadmapBuild.HangChildStep | src/components/roadmap/roadmap-table.tsx:102-106 | hanging an item under the key its parent names keeps every recorded list equal to the items of that type seen so far whose parent is that key; any other item leaves the lists alone |
| RoadmapBuild.HangLegacyStep | src/components/roadmap/roadmap-table.tsx:116-119 | the same for the legacy features recorded under each initiative |
| RoadmapBuild.CollectInitiatives | src/components/roadmap/roadmap-table.tsx:90-95 | pass 1 collects the initiatives in item order, and exactly their ids |
| RoadmapBuild.CollectStep | src/components/roadmap/roadmap-table.tsx:90-95 | one step of pass 1 appends the item and records its id exactly when it is an initiative |
| RoadmapBuild.PlaceEpics | src/components/roadmap/roadmap-table.tsx:97-108 | pass 2 records under each initiative exactly the epics whose parent names it, in item order, and puts every other epic among the extras; it collects exactly the epic ids |
| RoadmapBuild.PlaceEpicStep | src/components/roadmap/roadmap-table.tsx:97-108 | one step of pass 2 keeps what it has recorded true, branch by branch: under the initiative the parent names, or among the loose epics |
| RoadmapBuild.PlaceFeatures | src/components/roadmap/roadmap-table.tsx:110-124 | pass 3 records under each epic the features whose parent names it, under each initiative the legacy features whose parent names it and no epic, and every other feature among the extras, all in item order |
| RoadmapBuild.PlaceFeatureStep | src/components/roadmap/roadmap-table.tsx:111-123 | one step of pass 3 keeps what it has recorded true, branch by branch |
| RoadmapBuild.PlaceFeature | src/components/roadmap/roadmap-table.tsx:111-123 | the body of pass 3 for one item keeps what the pass has recorded true for the items seen so far plus that item |
| RoadmapBuild.BuildTree | src/components/roadmap/roadmap-table.tsx:85-139 | `buildTree` returns the sorted initiative trees, then the sorted extras (loose epics, then loose features), as the reference forest defines them |
| RoadmapBuild.AttachResolved | src/components/roadmap/roadmap-table.tsx:115 | with the maps as pass 3 leaves them, the resolved epic nodes are the epic trees |
| RoadmapBuild.RootsResolved | src/components/roadmap/roadmap-table.tsx:134 | with the maps as the passes leave them, the resolved roots are the initiative trees |
| RoadmapCounts.LeavesItems | src/components/roadmap/roadmap-table.tsx:113 | a list of leaves holds exactly its items, in order |
| RoadmapCounts.EpicTreesItems | src/components/roadmap/roadmap-table.tsx:100-115 | the epic trees hold each epic followed by its features |
| RoadmapCounts.InitiativeTreeItems | src/components/roadmap/roadmap-table.tsx:93-119 | an initiative's tree holds the initiative, its epics' items and its legacy features |
| RoadmapCounts.InitiativeTreesItems | src/components/roadmap/roadmap-table.tsx:93-119 | the initiative trees hold each initiative followed by what hangs under it |
| RoadmapCounts.TreeItemsSplit | src/components/roadmap/roadmap-table.tsx:134-138 | the forest holds the roots' items, the loose epics' items and the loose features |
| RoadmapCounts.EpicItemsFeature | src/components/roadmap/roadmap-table.tsx:114-115 | a feature occurs under the epics as often as the epic its parent names |
| RoadmapCounts.EpicItemsLooseFeature | src/components/roadmap/roadmap-table.tsx:114 | a feature whose parent names no epic occurs under no epic |
| RoadmapCounts.InitItemsEpic | src/components/roadmap/roadmap-table.tsx:102-103 | an epic occurs under the initiatives as often as the initiative its parent names |
| RoadmapCounts.InitItemsLooseEpic | src/components/roadmap/roadmap-table.tsx:102-105 | an epic whose parent names no initiative occurs under none |
| RoadmapCounts.InitItemsEpicFeature | src/components/roadmap/roadmap-table.tsx:114-115 | a feature under an epic occurs under the initiatives as often as that epic |
| RoadmapCounts.InitItemsLegacy | src/components/roadmap/roadmap-table.tsx:116-119 | a legacy feature occurs under the initiatives as often as the initiative it names |
| RoadmapCounts.InitItemsLooseFeature | src/components/roadmap/roadmap-table.tsx:120-121 | a feature whose parent names neither an epic nor an initiative occurs under none |
| RoadmapCounts.InitItemsNotPlaced | src/components/roadmap/roadmap-table.tsx:92 | a row of another type never occurs under the initiatives |
| RoadmapCounts.EpicOnce | src/components/roadmap/roadmap-table.tsx:97-108 | an epic is either under the initiative its parent names or among the loose epics, exactly once |
| RoadmapCounts.FeatureOnce | src/components/roadmap/roadmap-table.tsx:110-124 | a feature is under its epic, under its initiative (legacy) or among the loose features, exactly once |
| RoadmapCounts.TreeHoldsEachItemOnce | src/components/roadmap/roadmap-table.tsx:85-139 | the forest holds every initiative, epic and feature exactly once and no other row |
| RoadmapPlacement.EpicTreePlaced | src/components/roadmap/roadmap-table.tsx:100-115 | an epic's node is at depth 1 and each child is a childless depth-2 feature whose parent is the epic |
| RoadmapPlacement.InitiativeTreePlaced | src/components/roadmap/roadmap-table.tsx:93-119 | an initiative's node is at depth 0 and each child is an epic whose parent is the initiative, or a depth-1 feature whose parent is the initiative and names no epic |
| RoadmapPlacement.RootsPlaced | src/components/roadmap/roadmap-table.tsx:134 | every root is placed as an initiative |
| RoadmapPlacement.ExtrasPlaced | src/components/roadmap/roadmap-table.tsx:105-121 | every extra is an epic whose parent names no initiative, or a depth-2 feature whose parent names neither an epic nor an initiative |
| RoadmapPlacement.SortLeaf | src/components/roadmap/roadmap-table.tsx:129-131 | sorting leaves a leaf as it is |
| RoadmapPlacement.SortEpicPlaced | src/components/roadmap/roadmap-table.tsx:127-132 | sorting keeps an epic's node placed |
| RoadmapPlacement.SortRootPlaced | src/components/roadmap/roadmap-table.tsx:127-132 | sorting keeps a root placed |
| RoadmapPlacement.SortExtraPlaced | src/components/roadmap/roadmap-table.tsx:127-132 | sorting keeps an extra placed |
| RoadmapPlacement.SortedRootsPlaced | src/components/roadmap/roadmap-table.tsx:135 | every sorted root is placed as an initiative |
| RoadmapPlacement.SortedExtrasPlaced | src/components/roadmap/roadmap-table.tsx:136 | every sorted extra is placed as an extra |
| RoadmapPlacement.TreeParts | src/components/roadmap/roadmap-table.tsx:138 | the forest is the sorted roots followed by the sorted extras |
| RoadmapPlacement.TreePlacement | src/components/roadmap/roadmap-table.tsx:85-139 | the first nodes of the forest, one per initiative, are the initiatives placed as roots, and every later node is an extra |
| RoadmapPlacement.TreeSortedByScore | src/components/roadmap/roadmap-table.tsx:126-136 | among the roots and among the extras, every sibling list at every level is ordered by score, highest first, a missing score counted as 0 |
| RoadmapPlacement.InitiativesFirst | src/components/roadmap/roadmap-table.tsx:138 | the roots come before every extra, and no extra is an initiative |
| RoadmapView.ForestItemsMember | src/components/roadmap/roadmap-table.tsx:61-65 | an item is in a forest exactly when it is in one of its trees |
| RoadmapView.MatchingDescendantIsItem | src/components/roadmap/roadmap-table.tsx:161-164 | `hasMatchingDescendant` holds exactly when some item of the subtree, the node itself included, has the status |
| RoadmapView.RowsSnoc | src/components/roadmap/roadmap-table.tsx:147-157 | the rows of one more node are the rows so far followed by that node's rows |
| RoadmapView.FlattenTree | src/components/roadmap/roadmap-table.tsx:141-159 | `flattenTree` emits, node by node, nothing for a node the status tab rejects, else the node and, when it is expanded and has children, the rows of its children |
| RoadmapView.RowsCollapsed | src/components/roadmap/roadmap-table.tsx:141-159 | with nothing expanded and the tab "all", the rows are the top-level nodes |
| RoadmapView.RowItems | src/components/roadmap/roadmap-table.tsx:293 | the items of the rows, one per row, in order |
| RoadmapView.RowsExpandedIsPreorder | src/components/roadmap/roadmap-table.tsx:141-159 | with every node that has children expanded and the tab "all", the rows are the preorder walk of the forest |
| RoadmapView.NodeRowsExpandedIsPreorder | src/components/roadmap/roadmap-table.tsx:153-156 | for one fully expanded node, its rows are its subtree in preorder |
| RoadmapView.RowsMember | src/components/roadmap/roadmap-table.tsx:147-157 | a node is a row exactly when it is among the rows of one of the top-level nodes |
| RoadmapView.TopLevelKept | src/components/roadmap/roadmap-table.tsx:149-153 | a status tab keeps a top-level node exactly when something in its subtree has that status; "all" keeps every node |
| RoadmapView.EmittedMatch | src/components/roadmap/roadmap-table.tsx:149-156 | every row a node emits passes the status tab, and each row below it is a child of an emitted, expanded row |
| RoadmapView.RowsSound | src/components/roadmap/roadmap-table.tsx:141-159 | every row passes the status tab and is a top-level node or a child of an emitted, expanded row |
| RoadmapView.ExpandedChildrenShown | src/components/roadmap/roadmap-table.tsx:154-156 | an emitted, expanded row brings every child its status tab keeps |
| RoadmapView.NodeChildrenShown | src/components/roadmap/roadmap-table.tsx:154-156 | within one node's rows, an emitted, expanded row brings every child the tab keeps |
| RoadmapView.InitialExpanded | src/components/roadmap/roadmap-table.tsx:175-183 | the initial expanded set is exactly the ids of the initiatives and the epics |
| RoadmapView.TableState.constructor | src/components/roadmap/roadmap-table.tsx:167-183 | the table mounts on the tab "all" with every initiative and epic expanded |
| RoadmapView.TableState.ToggleExpand | src/components/roadmap/roadmap-table.tsx:199-209 | `toggleExpand` flips exactly the given id in the expanded set and keeps the tab |
| RoadmapView.TableState.SetFilter | src/components/roadmap/roadmap-table.tsx:251 | choosing a tab sets the status filter and keeps the expanded set |
| RoadmapView.StatusActions | src/components/roadmap/roadmap-table.tsx:402-422 | a row's menu offers each of committed, in-progress and done except the item's own status: two entries when it has one of them, three otherwise |
| RoadmapMount.MountShowsEveryItemOnce | src/components/roadmap/roadmap-table.tsx:166-197 | on mount, the rows are the preorder walk of the forest and every initiative, epic and feature is exactly one row, and no other row shows |
| RoadmapMount.TreeNodesExpanded | src/components/roadmap/roadmap-table.tsx:175-183 | the initially expanded set covers every node of the forest that has children |
| RoadmapMount.EpicExpanded | src/components/roadmap/roadmap-table.tsx:178 | an expanded epic node counts as fully expanded, since its children are leaves |
| RoadmapMount.LeafExpanded | src/components/roadmap/roadmap-table.tsx:113 | a feature leaf needs no expansion |
| RoadmapMount.ItemsOfNode | src/components/roadmap/roadmap-table.tsx:61-65 | a node's item and its children's items are among the forest's items |
| Collections.Filter | src/components/graph/strategy-graph.tsx:167-176 | `Array.prototype.filter`: the result keeps exactly the elements that pass the test, no more of them than the input holds, and is the input itself when every element passes |
| Collections.FilterCount | src/components/graph/strategy-graph.tsx:208-210 | filtering keeps every copy of an element that passes and no copy of one that fails |
| Collections.Toggled | src/components/graph/strategy-graph.tsx:250-257 | the copy-then-delete-or-add toggle: the toggled element is in the new set exactly when it was not in the old one, and every other element keeps its membership |
| Collections.ToggleTwice | src/components/graph/strategy-graph.tsx:259-266 | toggling the same value twice restores the set |
| Text.TrimStartSpec | src/lib/compose-signal.ts:125-126 | the leading-white-space removal half of `trim`: the result is a suffix of the input, starts with a non-white-space character or is empty, and everything dropped is white space |
| Text.TrimEndSpec | src/lib/compose-signal.ts:125-126 | the trailing half of `trim`: the result is a prefix of the input, ends with a non-white-space character or is empty, and everything dropped is white space |
| Text.TrimSpec | src/lib/compose-signal.ts:125 | `if (s.trim())` fails exactly when every character is white space; otherwise the trimmed text is a non-empty slice of the input that starts and ends with a non-white-space character |
| Text.JoinEmpty | src/lib/compose-signal.ts:140 | `parts.join(sep)` over non-empty parts is `""` exactly when there are no parts |
| Text.JoinStartsWithFirst | src/lib/compose-signal.ts:171 | a non-empty join starts with its first part |
| Text.ToLower | src/components/graph/strategy-graph.tsx:172-173 | `toLowerCase` keeps the length and lowercases each character on its own |
| Text.LowerChar | src/components/graph/strategy-graph.tsx:172-173 | an ASCII capital becomes the lower-case letter 32 code points above it; every other character is kept |
| StrategyGraph.AllStatuses | src/components/graph/strategy-graph.tsx:144-147 | `ALL_STATUSES` holds every truthy status carried by a node, and nothing that no node carries |
| StrategyGraph.EveryTypeListed | src/components/graph/strategy-graph.tsx:132-143 | `ALL_TYPES` lists every node type |
| StrategyGraph.LowerCharTwice | src/components/graph/strategy-graph.tsx:172-173 | lowercasing a lowercased character changes nothing |
| StrategyGraph.ToLowerTwice | src/components/graph/strategy-graph.tsx:172-173 | lowercasing is idempotent on strings |
| StrategyGraph.SearchIgnoresCase | src/components/graph/strategy-graph.tsx:171-174 | a query and its lowercased form let the same nodes through the base filter |
| StrategyGraph.NoStatusesSelectedShowsEveryStatus | src/components/graph/strategy-graph.tsx:168-175 | with no status selected the status test is off: a node passes exactly when its type is shown and the search (if any) matches its label regardless of case |
| StrategyGraph.Endpoints | src/components/graph/strategy-graph.tsx:192-201 | both ends of every edge are among the endpoints, the ids the closure loop can ever add |
| StrategyGraph.CheckedAllClosed | src/components/graph/strategy-graph.tsx:189-202 | a pass over all edges that changed nothing leaves a set no edge leaves in either direction |
| StrategyGraph.Grow | src/components/graph/strategy-graph.tsx:193-199 | each added id shrinks the ids still addable, so the `while (changed)` loop stops |
| StrategyGraph.WalkStaysClosed | src/components/graph/strategy-graph.tsx:188-202 | an undirected walk that starts inside an edge-closed set ends inside it |
| StrategyGraph.Extend | src/components/graph/strategy-graph.tsx:193-199 | a walk extended along one more edge, in either direction, is still a walk from the same start |
| StrategyGraph.ReachStep | src/components/graph/strategy-graph.tsx:193-199 | following one edge in either direction from a reached id reaches its other end |
| StrategyGraph.ReachSetIsReachable | src/components/graph/strategy-graph.tsx:188-202 | the reach set holds exactly the ids some undirected walk from a seed reaches |
| StrategyGraph.ReachSetClosed | src/components/graph/strategy-graph.tsx:188-202 | the reach set holds the seeds and no edge leaves it |
| StrategyGraph.ReachSetLeast | src/components/graph/strategy-graph.tsx:188-202 | every edge-closed set holding the seeds holds the reach set: it is the least fixpoint |
| StrategyGraph.Saturate | src/components/graph/strategy-graph.tsx:188-202 | the `while (changed)` loop ends with a set that holds the seeds, lies within every closed superset given, and is edge-closed |
| StrategyGraph.Connect | src/components/graph/strategy-graph.tsx:179-202 | `connectedIds` after the loop is exactly the set of ids reachable from the selected objectives' nodes by undirected walks |
| StrategyGraph.Seeds | src/components/graph/strategy-graph.tsx:180-186 | `objectiveNodeIds` holds exactly the ids of objective nodes whose entity is a selected objective |
| StrategyGraph.EdgesAmong | src/components/graph/strategy-graph.tsx:207-210 | an edge is kept exactly when it is an edge of the graph with both ends among the shown nodes |
| StrategyGraph.FilterGraph | src/components/graph/strategy-graph.tsx:166-213 | `filteredData`: the nodes are the graph's visible nodes in order and the edges are exactly the graph's edges among them |
| StrategyGraph.FilterNodes | src/components/graph/strategy-graph.tsx:167-205 | the node half of `filteredData`: the nodes that pass the base filter and, with objectives selected, are connected to a selected objective, in graph order |
| StrategyGraph.FilterEdges | src/components/graph/strategy-graph.tsx:207-210 | the edge half: exactly the edges with both ends among the kept nodes, in graph order |
| StrategyGraph.ShownIff | src/components/graph/strategy-graph.tsx:166-205 | a node is shown exactly when it is in the graph and passes the type, status and search tests and, with objectives selected, is reachable from a selected objective over all the graph's edges, including edges to nodes the filters hide |
| StrategyGraph.ClearedShowsEveryNode | src/components/graph/strategy-graph.tsx:277-282 | after `clearFilters` every node of the graph is shown, in order |
| StrategyGraph.ClearedShowsWholeGraph | src/lib/actions/graph.ts:133-304 | for a store whose references resolve, the cleared filters show every node and every edge `getGraphData` returns |
| StrategyGraph.StatusEffectInvisible | src/components/graph/strategy-graph.tsx:158-163 | the first render with an empty status set and the one after the mount effect fills it show the same nodes |
| StrategyGraph.HasActiveFilters | src/components/graph/strategy-graph.tsx:284-288 | no filter is active exactly when the settings equal those `clearFilters` restores |
| StrategyGraph.SubsetSameSize | src/components/graph/strategy-graph.tsx:284-286 | a subset with as many elements as its superset is that superset, the fact a size test relies on |
| StrategyGraph.SubsetSize | src/components/graph/strategy-graph.tsx:284-286 | a subset has at most as many elements as its superset |
| StrategyGraph.BySizeAgreesOnSubsets | src/components/graph/strategy-graph.tsx:284-288 | while the selected statuses are among the graph's own, the size comparison gives the same answer as the comparison with the cleared settings |
| StrategyGraph.BySizeMissesStatusSwap | src/components/graph/strategy-graph.tsx:284-288 | for one accepted problem, toggling "accepted" off and "draft" on hides the node while the size test reports no active filter |
| StrategyGraph.GraphFilterState.constructor | src/components/graph/strategy-graph.tsx:149-163 | after mounting and the status effect the settings are the cleared ones: every type, every status of the graph, no objective, no query |
| StrategyGraph.GraphFilterState.ToggleType | src/components/graph/strategy-graph.tsx:250-257 | the type set is toggled at that type and the other filters are unchanged |
| StrategyGraph.GraphFilterState.ToggleStatus | src/components/graph/strategy-graph.tsx:259-266 | the status set is toggled at that status and the other filters are unchanged |
| StrategyGraph.GraphFilterState.ToggleObjective | src/components/graph/strategy-graph.tsx:268-275 | the objective set is toggled at that id and the other filters are unchanged |
| StrategyGraph.GraphFilterState.SearchChange | src/components/graph/strategy-graph.tsx:301 | `setSearchQuery` replaces the query and nothing else |
| StrategyGraph.GraphFilterState.ClearFilters | src/components/graph/strategy-graph.tsx:277-282 | `clearFilters` restores the cleared settings, after which neither the intended nor the size test reports an active filter |
| NodeDetail.FindNode | src/components/graph/node-detail-panel.tsx:70 | `allNodes.find`: a node is found exactly when some node has the id; the one found has the id and no earlier node does |
| NodeDetail.Via | src/components/graph/node-detail-panel.tsx:68-71 | an incident edge whose other end exists yields that other node, looked up among all nodes, tagged with the edge's type |
| NodeDetail.LinkedNodes | src/components/graph/node-detail-panel.tsx:61-75 | `getLinkedNodes` yields at most one entry per edge |
| NodeDetail.LinkedNodesPerEdge | src/components/graph/node-detail-panel.tsx:61-75 | the entries are, one for one and in edge order, the edges that touch the node and whose other end is a node of the graph, each entry holding that other node and the edge's type; edges to missing nodes are dropped |
| NodeDetail.DetailLink | src/components/graph/node-detail-panel.tsx:77-92 | the link is "/roadmap" exactly for initiatives, epics and features, "/problems/<entity id>" exactly for problems, "/objectives" exactly for objectives and "/inbox" exactly for signals; the `null` default is unreachable |
| NodeDetail.UnlinkedIff | src/components/graph/node-detail-panel.tsx:118-123 | a node is offered for linking exactly when it is a node of the graph of the wanted type and no neighbour of that type carries its entity id |
| NodeDetail.OfferForSpec | src/components/graph/node-detail-panel.tsx:115-179 | each kind yields at most one offer, present exactly when the node may take that kind and its option list is not empty, captioned by the kind's label and listing exactly those options |
| NodeDetail.OffersOrdered | src/components/graph/node-detail-panel.tsx:115-179 | the offers come in the panel's order (problem, objective, parent initiative, parent epic), so no kind appears twice |
| NodeDetail.OffersSpec | src/components/graph/node-detail-panel.tsx:115-179 | a kind is offered exactly when the node may take it (any roadmap node a problem, an initiative an objective, an epic without a `contains` initiative parent an initiative, a feature without a `contains` epic parent an epic) and something is left to pick; the offer lists exactly those options and they are not empty |
| NodeDetail.CanLinkTo | src/components/graph/node-detail-panel.tsx:115-179 | the conditional pushes build exactly the offers of the specification, kind by kind |
| NodeDetail.ActionFor | src/components/graph/node-detail-panel.tsx:186-192 | the call is made on the node's entity with the picked id: a problem link for "problem", an objective link for "objective", and a parent update for either parent kind |
| NodeDetail.LinkPicker.constructor | src/components/graph/node-detail-panel.tsx:96-97 | the panel mounts with no link kind open and nothing picked |
| NodeDetail.LinkPicker.ChooseKind | src/components/graph/node-detail-panel.tsx:311-314 | a link button opens its picker, or closes it when it is already open, and clears the pick |
| NodeDetail.LinkPicker.Pick | src/components/graph/node-detail-panel.tsx:321 | picking a value sets the picked id and leaves the open kind |
| NodeDetail.LinkPicker.AddLink | src/components/graph/node-detail-panel.tsx:181-200 | without a pick or an open kind nothing is called and nothing changes; otherwise the open kind's call is made with the pick, the picker resets when the call succeeds and stays as it was when it fails |
| ComposeSignal.SignalTypesTable | src/lib/compose-signal.ts:31-83 | every signal type has exactly one entry; only the conversation type shows the source field and has no default source; the customer and ARR fields are shown together; only the competitive type relabels the customer field |
| ComposeSignal.JoinedEmpty | src/lib/compose-signal.ts:140 | joining non-empty parts with a blank line gives the empty text exactly when there are no parts |
| ComposeSignal.QuoteLine | src/lib/compose-signal.ts:131-132 | a quote's line is never empty |
| ComposeSignal.QuoteLines | src/lib/compose-signal.ts:129-134 | there are at most as many quote lines as quotes, none is empty, and there are none exactly when every quote is blank |
| ComposeSignal.QuoteLinesSnoc | src/lib/compose-signal.ts:129-134 | one more quote adds its line at the end when it is not blank, and nothing when it is |
| ComposeSignal.Lines | src/lib/compose-signal.ts:131-132 | one line per quote, in order |
| ComposeSignal.QuoteLinesInOrder | src/lib/compose-signal.ts:129-134 | the quote lines are the lines of the non-blank quotes, one each and in order |
| ComposeSignal.PushQuoteLines | src/lib/compose-signal.ts:129-134 | the quote loop pushes exactly the quote lines: one per non-blank quote, in order |
| ComposeSignal.ConversationParts | src/lib/compose-signal.ts:122-141 | no part of a conversation is empty |
| ComposeSignal.ComposeConversation | src/lib/compose-signal.ts:122-141 | the loop's pushes produce the context part, the non-blank quotes' lines and the takeaway part, joined by blank lines |
| ComposeSignal.DataParts | src/lib/compose-signal.ts:143-162 | no part of a data signal is empty |
| ComposeSignal.DataCurrentOnlyWithMetric | src/lib/compose-signal.ts:143-162 | without a metric only the context appears; without a current value the metric line is just the metric; with one, the line continues with it |
| ComposeSignal.FeedbackParts | src/lib/compose-signal.ts:164-183 | no part of a feedback signal is empty |
| ComposeSignal.FeedbackHeaderShape | src/lib/compose-signal.ts:167-172 | the header is left out exactly when there is neither a feedback type nor a score; the untrimmed type comes first and the score follows after a comma |
| ComposeSignal.CompetitiveParts | src/lib/compose-signal.ts:185-205 | no part of a competitive signal is empty |
| ComposeSignal.EventNeedsCompetitor | src/lib/compose-signal.ts:188-194 | without a competitor the chosen event does not change the parts |
| ComposeSignal.InternalParts | src/lib/compose-signal.ts:207-220 | no part of an internal signal is empty |
| ComposeSignal.InternalMetaLines | src/lib/compose-signal.ts:210-213 | with an origin and a reporter the first part is the two tags on two lines |
| ComposeSignal.Parts | src/lib/compose-signal.ts:231-244 | whatever the signal type, no part is empty |
| ComposeSignal.ComposeRawText | src/lib/compose-signal.ts:231-244 | `composeRawText` dispatches to the composer of the input's type and returns its joined parts |
| ComposeSignal.RawTextEmptyIff | src/lib/compose-signal.ts:122-244 | the composed text is empty exactly when every field the composer reads is blank |
| ComposeSignal.Validate | src/lib/compose-signal.ts:248-269 | validation passes exactly when the type's required fields are filled (some non-blank quote; the metric; the verbatim text; the competitor and the details; the observation), and a missing competitor is reported before missing details |
| ComposeSignal.ValidComposesText | src/lib/compose-signal.ts:248-269 | input that passes validation composes to a non-empty text |

## Left out

- Rendering, toasts, dialogs, `revalidatePath`, React's `useMemo`/`useTransition` plumbing and the ELK and dagre layout are not modelled. Only the logic they feed is.
- Database I/O is not modelled: the SQLite file, WAL, migrations and the Drizzle query builder. The store is a value, and each query is a function on it.
- Fresh ids come from `nanoid` in the source. Here they are parameters of the create and link methods.
- Timestamps (`createdAt`, `updatedAt`) are not modelled. They come from the clock, and no rule reads them.
- A PRD is modelled only by its id and its optional roadmap-item reference, because that reference makes SQLite refuse an item delete. Creating, editing and deleting PRDs, and PRD messages and ticket stubs, are not modelled: no other rule of the engine reads them.
- The AI extraction, scoring and chat routes are foreign calls and are not modelled.
- A graph node's `meta` bag is display data and is not modelled.
- `allObjectives` and the other lists that only feed the filter bar's buttons are not modelled.
- `toLowerCase` is modelled on ASCII letters only. Unicode case mapping is not modelled.
- The RICE score is kept as integer tenths. The floating-point division and `Math.round` are replaced by the exact integer formula.
- Rice.RiceTenths: takes whole-number inputs only. The input schema admits any number from 1 to 10, fractions such as 2.5 included (src/lib/validators/roadmap-item.ts:11-14). The model leaves fractions out because the four columns are `integer` columns (src/lib/db/schema.ts:80-83) and the form's number fields keep the default step of 1. The score of a fractional input is not modelled.
- RoadmapBuild.BuildTree: requires distinct item ids, which the primary key guarantees. The sort that follows the three loop passes is modelled as a stable function (`RoadmapTree.SortForest`), not in place. The tree nodes are values, so aliasing between the source's `Map` entries and the arrays is not modelled.
- RoadmapView.FlattenTree: is stated against the recursive preorder function. The rows are values, not the source's shared node objects.
- ComposeSignal.DataParts, ComposeSignal.FeedbackParts, ComposeSignal.CompetitiveParts, ComposeSignal.InternalParts: modelled as functions that build the part list directly. The source's step-by-step `push` and `+=` are modelled as a loop only in `ComposeSignal.ComposeConversation`, the one composer with a `for` loop.
- NodeDetail.LinkPicker.AddLink: the outcome of the awaited server action is a parameter. The transition's pending flag and the toasts are not modelled.
- NodeDetail.CanLinkTo: the free-form `linkType` string is the datatype `LinkKind`, so an unknown link type cannot be passed.
- StrategyGraph.GraphFilterState.constructor: the mount effect that fills the status set is folded into the constructor. `StrategyGraph.StatusEffectInvisible` shows that the render before the effect shows the same nodes.
- Graph.ItemNodes: its own contract only bounds the node types. The node ids, the labels and the orphan flags are stated by `Graph.ItemNodeByType` and `OrphanRules`.
- RoadmapItems.GatingMessage: the message is built from the clauses and is not proved equal to the concrete sentences. The clause list and its order are proved.
- The list queries with `orderBy` (such as `getRoadmapItems`, ordered by score) are not modelled. `RoadmapBuild.BuildTree` takes the items in any order, and the graph reads the tables in insertion order.

## Findings

| source | as written | input that shows it | evidently intended | confidence | as-written member | corrected member |
|---|---|---|---|---|---|---|
| src/components/graph/strategy-graph.tsx:284-288 | `hasActiveFilters` compares the sizes of the type and status sets with those of `ALL_TYPES` and `ALL_STATUSES`. The filter bar (src/components/graph/graph-filters.tsx:19-29) lets a user select any status, including one no node carries. | The graph has one problem node, with status "accepted". From the cleared bar, toggle "accepted" off and "draft" on. Both sets have size 1, so the reset button is hidden while the only node is filtered out. | A filter is active exactly when the settings differ from those `clearFilters` restores. | not executed | StrategyGraph.BySizeMissesStatusSwap | StrategyGraph.HasActiveFilters |
