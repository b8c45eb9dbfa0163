/** `buildTree`: the roadmap table's forest. Initiatives are the roots; an epic hangs under the
    initiative its parent names; a feature hangs under the epic its parent names, or, in the
    legacy shape, directly under an initiative; everything else is a top-level extra. Each
    sibling list is then sorted by score. */
module RoadmapBuild {
  import opened Wrappers
  import opened Collections
  import opened Schema
  import opened Justification
  import opened RoadmapTree

  /** The rows come from a table keyed by id: no id occurs twice. */
  predicate DistinctIds(items: seq<RoadmapItem>) {
    forall i, j | 0 <= i < j < |items| :: items[i].id != items[j].id
  }

  predicate KnownType(t: string) {
    t == "initiative" || t == "epic" || t == "feature"
  }

  /** The item has a non-empty parent id, and that id is among `ids`. */
  predicate ParentIn(x: RoadmapItem, ids: set<Id>) {
    Present(x.parentId) && x.parentId.value in ids
  }

  /** `item.parentId` is truthy and equal to `p`. */
  predicate ParentIs(x: RoadmapItem, p: Id) {
    Present(x.parentId) && x.parentId.value == p
  }

  /** The ids of the items of type `t`: the keys of `initiativeMap` or `epicMap`. */
  function TypeIds(items: seq<RoadmapItem>, t: string): set<Id> {
    set x | x in items && x.itemType == t :: x.id
  }

  lemma TypeIdsSnoc(xs: seq<RoadmapItem>, x: RoadmapItem, t: string)
    ensures TypeIds(xs + [x], t) == TypeIds(xs, t) + (if x.itemType == t then {x.id} else {})
  {
  }

  function OfType(t: string): RoadmapItem -> bool {
    (x: RoadmapItem) => x.itemType == t
  }

  /** The items of type `t` whose parent is `p`. */
  function ChildOf(t: string, p: Id): RoadmapItem -> bool {
    (x: RoadmapItem) => x.itemType == t && ParentIs(x, p)
  }

  /** A legacy feature of the initiative `p`: its parent is `p` and names no epic. */
  function LegacyOf(epicIds: set<Id>, p: Id): RoadmapItem -> bool {
    (x: RoadmapItem) => x.itemType == "feature" && ParentIs(x, p) && !ParentIn(x, epicIds)
  }

  /** An epic whose parent names no initiative. */
  function LooseEpic(initIds: set<Id>): RoadmapItem -> bool {
    (x: RoadmapItem) => x.itemType == "epic" && !ParentIn(x, initIds)
  }

  /** A feature whose parent names neither an epic nor an initiative. */
  function LooseFeature(initIds: set<Id>, epicIds: set<Id>): RoadmapItem -> bool {
    (x: RoadmapItem) => x.itemType == "feature" && !ParentIn(x, epicIds) && !ParentIn(x, initIds)
  }

  // ─── The forest, before sorting ──────────────────────────

  function Initiatives(items: seq<RoadmapItem>): seq<RoadmapItem> {
    Filter(items, OfType("initiative"))
  }

  function EpicsOf(items: seq<RoadmapItem>, p: Id): seq<RoadmapItem> {
    Filter(items, ChildOf("epic", p))
  }

  function FeaturesOf(items: seq<RoadmapItem>, p: Id): seq<RoadmapItem> {
    Filter(items, ChildOf("feature", p))
  }

  function LegacyFeaturesOf(items: seq<RoadmapItem>, p: Id): seq<RoadmapItem> {
    Filter(items, LegacyOf(TypeIds(items, "epic"), p))
  }

  function LooseEpics(items: seq<RoadmapItem>): seq<RoadmapItem> {
    Filter(items, LooseEpic(TypeIds(items, "initiative")))
  }

  function LooseFeatures(items: seq<RoadmapItem>): seq<RoadmapItem> {
    Filter(items, LooseFeature(TypeIds(items, "initiative"), TypeIds(items, "epic")))
  }

  /** Childless nodes for the items, all at depth `d`. */
  function Leaves(xs: seq<RoadmapItem>, d: nat): (r: seq<TreeNode>)
    ensures |r| == |xs|
    ensures forall k | 0 <= k < |xs| :: r[k].item == xs[k] && r[k].children == [] && r[k].depth == d
  {
    seq(|xs|, k requires 0 <= k < |xs| => TreeNode(xs[k], [], d))
  }

  /** An epic's node: depth 1, its features beneath it at depth 2. */
  function EpicTree(items: seq<RoadmapItem>, e: RoadmapItem): TreeNode {
    TreeNode(e, Leaves(FeaturesOf(items, e.id), 2), 1)
  }

  function EpicTrees(items: seq<RoadmapItem>, es: seq<RoadmapItem>): (r: seq<TreeNode>)
    ensures |r| == |es|
  {
    seq(|es|, k requires 0 <= k < |es| => EpicTree(items, es[k]))
  }

  /** An initiative's node: depth 0, its epics, then its legacy features at depth 1. */
  function InitiativeTree(items: seq<RoadmapItem>, i: RoadmapItem): TreeNode {
    TreeNode(i, EpicTrees(items, EpicsOf(items, i.id)) + Leaves(LegacyFeaturesOf(items, i.id), 1), 0)
  }

  function InitiativeTrees(items: seq<RoadmapItem>, inits: seq<RoadmapItem>): (r: seq<TreeNode>)
    ensures |r| == |inits|
  {
    seq(|inits|, k requires 0 <= k < |inits| => InitiativeTree(items, inits[k]))
  }

  /** The values of the initiative map, in the order the initiatives were inserted. */
  function Roots(items: seq<RoadmapItem>): (r: seq<TreeNode>)
    ensures |r| == |Initiatives(items)|
  {
    InitiativeTrees(items, Initiatives(items))
  }

  /** `orphans`: the loose epics in item order, then the loose features in item order. */
  function Extras(items: seq<RoadmapItem>): seq<TreeNode> {
    EpicTrees(items, LooseEpics(items)) + Leaves(LooseFeatures(items), 2)
  }

  /** `buildTree(items)`: the sorted roots, then the sorted extras. */
  function Tree(items: seq<RoadmapItem>): seq<TreeNode> {
    SortForest(Roots(items)) + SortForest(Extras(items))
  }

  // ─── buildTree, pass by pass ─────────────────────────────

  /** The children `buildTree` hangs under an epic, resolved from the features recorded for
      it in pass 3. */
  function AttachEpics(es: seq<RoadmapItem>, epicFeatures: map<Id, seq<RoadmapItem>>): (r: seq<TreeNode>)
    requires forall e | e in es :: e.id in epicFeatures
    ensures |r| == |es|
    ensures forall k | 0 <= k < |es| :: r[k] == TreeNode(es[k], Leaves(epicFeatures[es[k].id], 2), 1)
  {
    seq(|es|, k requires 0 <= k < |es| => TreeNode(es[k], Leaves(epicFeatures[es[k].id], 2), 1))
  }

  /** Appending `x` to the children recorded under the key `p`. */
  function Hang(m: map<Id, seq<RoadmapItem>>, p: Id, x: RoadmapItem): map<Id, seq<RoadmapItem>>
    requires p in m
  {
    m[p := m[p] + [x]]
  }

  /** Hanging an item of type `t` under the key its parent names keeps every recorded list equal
      to the items of type `t` seen so far whose parent is that key. */
  lemma HangChildStep(xs: seq<RoadmapItem>, x: RoadmapItem, m: map<Id, seq<RoadmapItem>>, t: string)
    requires forall k | k in m :: m[k] == Filter(xs, ChildOf(t, k))
    ensures x.itemType == t && ParentIn(x, m.Keys) ==>
      forall k | k in m :: Hang(m, x.parentId.value, x)[k] == Filter(xs + [x], ChildOf(t, k))
    ensures !(x.itemType == t && ParentIn(x, m.Keys)) ==>
      forall k | k in m :: m[k] == Filter(xs + [x], ChildOf(t, k))
  {
    forall k | k in m ensures Filter(xs + [x], ChildOf(t, k)) == m[k] + (if ChildOf(t, k)(x) then [x] else []) {
      FilterSnoc(xs, x, ChildOf(t, k));
    }
  }

  /** The same for the legacy features of each initiative. */
  lemma HangLegacyStep(xs: seq<RoadmapItem>, x: RoadmapItem, m: map<Id, seq<RoadmapItem>>, epicIds: set<Id>)
    requires forall k | k in m :: m[k] == Filter(xs, LegacyOf(epicIds, k))
    ensures x.itemType == "feature" && !ParentIn(x, epicIds) && ParentIn(x, m.Keys) ==>
      forall k | k in m :: Hang(m, x.parentId.value, x)[k] == Filter(xs + [x], LegacyOf(epicIds, k))
    ensures !(x.itemType == "feature" && !ParentIn(x, epicIds) && ParentIn(x, m.Keys)) ==>
      forall k | k in m :: m[k] == Filter(xs + [x], LegacyOf(epicIds, k))
  {
    forall k | k in m ensures Filter(xs + [x], LegacyOf(epicIds, k)) == m[k] + (if LegacyOf(epicIds, k)(x) then [x] else []) {
      FilterSnoc(xs, x, LegacyOf(epicIds, k));
    }
  }

  /** Pass 1: the initiatives, in item order, and their ids. */
  method CollectInitiatives(items: seq<RoadmapItem>) returns (initiatives: seq<RoadmapItem>, initIds: set<Id>)
    ensures initiatives == Initiatives(items)
    ensures initIds == TypeIds(items, "initiative")
  {
    initiatives, initIds := [], {};
    ghost var seen: seq<RoadmapItem> := [];
    for j := 0 to |items|
      invariant seen == items[..j]
      invariant InitiativesCollected(seen, initiatives, initIds)
    {
      var x := items[j];
      CollectStep(seen, x, initiatives, initIds);
      if x.itemType == "initiative" {
        initiatives := initiatives + [x];
        initIds := initIds + {x.id};
      }
      seen := seen + [x];
      assert seen == items[..j + 1];
    }
    assert seen == items;
  }

  /** What pass 1 has recorded once it has seen `seen`. */
  predicate InitiativesCollected(seen: seq<RoadmapItem>, initiatives: seq<RoadmapItem>, initIds: set<Id>) {
    initiatives == Initiatives(seen) && initIds == TypeIds(seen, "initiative")
  }

  /** One step of pass 1. */
  lemma CollectStep(seen: seq<RoadmapItem>, x: RoadmapItem, initiatives: seq<RoadmapItem>, initIds: set<Id>)
    requires InitiativesCollected(seen, initiatives, initIds)
    ensures x.itemType == "initiative" ==> InitiativesCollected(seen + [x], initiatives + [x], initIds + {x.id})
    ensures x.itemType != "initiative" ==> InitiativesCollected(seen + [x], initiatives, initIds)
  {
    FilterSnoc(seen, x, OfType("initiative"));
    TypeIdsSnoc(seen, x, "initiative");
  }

  /** Pass 2: each epic goes under the initiative its parent names, or among the extras. */
  method PlaceEpics(items: seq<RoadmapItem>, initIds: set<Id>)
    returns (initEpics: map<Id, seq<RoadmapItem>>, looseEpics: seq<RoadmapItem>, epicIds: set<Id>)
    requires initIds == TypeIds(items, "initiative")
    ensures initEpics.Keys == initIds
    ensures forall k | k in initIds :: initEpics[k] == EpicsOf(items, k)
    ensures looseEpics == LooseEpics(items)
    ensures epicIds == TypeIds(items, "epic")
  {
    initEpics := map k | k in initIds :: [];
    looseEpics, epicIds := [], {};
    ghost var seen: seq<RoadmapItem> := [];
    for j := 0 to |items|
      invariant seen == items[..j]
      invariant EpicsPlaced(seen, initIds, initEpics, looseEpics, epicIds)
    {
      var x := items[j];
      PlaceEpicStep(seen, x, initIds, initEpics, looseEpics, epicIds);
      if x.itemType == "epic" {
        epicIds := epicIds + {x.id};
        if Present(x.parentId) && x.parentId.value in initEpics {
          initEpics := Hang(initEpics, x.parentId.value, x);
        } else {
          looseEpics := looseEpics + [x];
        }
      }
      seen := seen + [x];
      assert seen == items[..j + 1];
    }
    assert seen == items;
  }

  /** What pass 2 has recorded once it has seen `seen`. */
  predicate EpicsPlaced(seen: seq<RoadmapItem>, initIds: set<Id>, initEpics: map<Id, seq<RoadmapItem>>,
                        looseEpics: seq<RoadmapItem>, epicIds: set<Id>) {
    && initEpics.Keys == initIds
    && (forall k | k in initIds :: initEpics[k] == Filter(seen, ChildOf("epic", k)))
    && looseEpics == Filter(seen, LooseEpic(initIds))
    && epicIds == TypeIds(seen, "epic")
  }

  /** One step of pass 2, branch by branch. */
  lemma PlaceEpicStep(seen: seq<RoadmapItem>, x: RoadmapItem, initIds: set<Id>, ie: map<Id, seq<RoadmapItem>>,
                      le: seq<RoadmapItem>, epicIds: set<Id>)
    requires EpicsPlaced(seen, initIds, ie, le, epicIds)
    ensures x.itemType != "epic" ==> EpicsPlaced(seen + [x], initIds, ie, le, epicIds)
    ensures x.itemType == "epic" && ParentIn(x, ie.Keys) ==>
      EpicsPlaced(seen + [x], initIds, Hang(ie, x.parentId.value, x), le, epicIds + {x.id})
    ensures x.itemType == "epic" && !ParentIn(x, ie.Keys) ==>
      EpicsPlaced(seen + [x], initIds, ie, le + [x], epicIds + {x.id})
  {
    HangChildStep(seen, x, ie, "epic");
    FilterSnoc(seen, x, LooseEpic(initIds));
    TypeIdsSnoc(seen, x, "epic");
  }

  /** Pass 3: each feature goes under the epic its parent names, else under the initiative it
      names (the legacy shape), else among the extras. */
  method PlaceFeatures(items: seq<RoadmapItem>, initIds: set<Id>, epicIds: set<Id>)
    returns (epicFeatures: map<Id, seq<RoadmapItem>>, legacy: map<Id, seq<RoadmapItem>>,
             looseFeatures: seq<RoadmapItem>)
    requires initIds == TypeIds(items, "initiative") && epicIds == TypeIds(items, "epic")
    ensures epicFeatures.Keys == epicIds && legacy.Keys == initIds
    ensures forall k | k in epicIds :: epicFeatures[k] == FeaturesOf(items, k)
    ensures forall k | k in initIds :: legacy[k] == LegacyFeaturesOf(items, k)
    ensures looseFeatures == LooseFeatures(items)
  {
    epicFeatures := map k | k in epicIds :: [];
    legacy := map k | k in initIds :: [];
    looseFeatures := [];
    for j := 0 to |items|
      invariant FeaturesPlaced(items[..j], initIds, epicIds, epicFeatures, legacy, looseFeatures)
    {
      epicFeatures, legacy, looseFeatures := PlaceFeature(items[..j], items[j], initIds, epicIds, epicFeatures, legacy, looseFeatures);
      PrefixSnoc(items, j);
    }
    assert items[..|items|] == items;
    FeaturesPlacedAll(items, initIds, epicIds, epicFeatures, legacy, looseFeatures);
  }

  /** Once pass 3 has seen every item, its maps hold exactly the features under each parent. */
  lemma FeaturesPlacedAll(items: seq<RoadmapItem>, initIds: set<Id>, epicIds: set<Id>,
                          ef: map<Id, seq<RoadmapItem>>, lg: map<Id, seq<RoadmapItem>>, lf: seq<RoadmapItem>)
    requires initIds == TypeIds(items, "initiative") && epicIds == TypeIds(items, "epic")
    requires FeaturesPlaced(items, initIds, epicIds, ef, lg, lf)
    ensures ef.Keys == epicIds && lg.Keys == initIds
    ensures forall k | k in epicIds :: ef[k] == FeaturesOf(items, k)
    ensures forall k | k in initIds :: lg[k] == LegacyFeaturesOf(items, k)
    ensures lf == LooseFeatures(items)
  {
  }

  /** The body of pass 3 for one item `x`, seen after `seen`. */
  method PlaceFeature(ghost seen: seq<RoadmapItem>, x: RoadmapItem, ghost initIds: set<Id>, ghost epicIds: set<Id>,
                      ef: map<Id, seq<RoadmapItem>>, lg: map<Id, seq<RoadmapItem>>, lf: seq<RoadmapItem>)
    returns (ef': map<Id, seq<RoadmapItem>>, lg': map<Id, seq<RoadmapItem>>, lf': seq<RoadmapItem>)
    requires FeaturesPlaced(seen, initIds, epicIds, ef, lg, lf)
    ensures FeaturesPlaced(seen + [x], initIds, epicIds, ef', lg', lf')
  {
    PlaceFeatureStep(seen, x, initIds, epicIds, ef, lg, lf);
    ef', lg', lf' := ef, lg, lf;
    if x.itemType == "feature" {
      if Present(x.parentId) && x.parentId.value in ef {
        ef' := Hang(ef, x.parentId.value, x);
      } else if Present(x.parentId) && x.parentId.value in lg {
        lg' := Hang(lg, x.parentId.value, x);
      } else {
        lf' := lf + [x];
      }
    }
  }

  /** What pass 3 has recorded once it has seen `seen`. */
  predicate FeaturesPlaced(seen: seq<RoadmapItem>, initIds: set<Id>, epicIds: set<Id>,
                           epicFeatures: map<Id, seq<RoadmapItem>>, legacy: map<Id, seq<RoadmapItem>>,
                           looseFeatures: seq<RoadmapItem>) {
    && epicFeatures.Keys == epicIds && legacy.Keys == initIds
    && (forall k | k in epicIds :: epicFeatures[k] == Filter(seen, ChildOf("feature", k)))
    && (forall k | k in initIds :: legacy[k] == Filter(seen, LegacyOf(epicIds, k)))
    && looseFeatures == Filter(seen, LooseFeature(initIds, epicIds))
  }

  /** One step of pass 3, branch by branch. */
  lemma PlaceFeatureStep(seen: seq<RoadmapItem>, x: RoadmapItem, initIds: set<Id>, epicIds: set<Id>,
                         ef: map<Id, seq<RoadmapItem>>, lg: map<Id, seq<RoadmapItem>>, lf: seq<RoadmapItem>)
    requires FeaturesPlaced(seen, initIds, epicIds, ef, lg, lf)
    ensures x.itemType != "feature" ==> FeaturesPlaced(seen + [x], initIds, epicIds, ef, lg, lf)
    ensures x.itemType == "feature" && ParentIn(x, ef.Keys) ==>
      FeaturesPlaced(seen + [x], initIds, epicIds, Hang(ef, x.parentId.value, x), lg, lf)
    ensures x.itemType == "feature" && !ParentIn(x, ef.Keys) && ParentIn(x, lg.Keys) ==>
      FeaturesPlaced(seen + [x], initIds, epicIds, ef, Hang(lg, x.parentId.value, x), lf)
    ensures x.itemType == "feature" && !ParentIn(x, ef.Keys) && !ParentIn(x, lg.Keys) ==>
      FeaturesPlaced(seen + [x], initIds, epicIds, ef, lg, lf + [x])
  {
    HangChildStep(seen, x, ef, "feature");
    HangLegacyStep(seen, x, lg, epicIds);
    FilterSnoc(seen, x, LooseFeature(initIds, epicIds));
  }

  /** `buildTree`: the three passes, then the nodes put together and every level sorted. The
      source pushes node objects into the children of nodes it keeps in maps, so a feature
      pushed into an epic after the epic was hung under its initiative still shows there; here
      the maps record the items hung under each id and the nodes are assembled after pass 3,
      which gives the same forest. The maps are keyed by id, so the rows' ids must be
      distinct, as the table's primary key makes them. */
  method BuildTree(items: seq<RoadmapItem>) returns (forest: seq<TreeNode>)
    requires DistinctIds(items)
    ensures forest == Tree(items)
  {
    var initiatives, initIds := CollectInitiatives(items);
    var initEpics, looseEpics, epicIds := PlaceEpics(items, initIds);
    var epicFeatures, legacy, looseFeatures := PlaceFeatures(items, initIds, epicIds);
    InitiativesResolved(items, initiatives, initEpics, legacy, epicFeatures);
    AttachResolved(items, looseEpics, epicFeatures);
    var roots := seq(|initiatives|, k requires 0 <= k < |initiatives| =>
      TreeNode(initiatives[k],
               AttachEpics(initEpics[initiatives[k].id], epicFeatures)
                 + Leaves(legacy[initiatives[k].id], 1), 0));
    var orphans := AttachEpics(looseEpics, epicFeatures) + Leaves(looseFeatures, 2);
    RootsResolved(items, roots, initEpics, epicFeatures, legacy);
    forest := SortForest(roots) + SortForest(orphans);
  }

  /** Every initiative has its entries in the maps of passes 2 and 3, and so do its epics. */
  lemma InitiativesResolved(items: seq<RoadmapItem>, initiatives: seq<RoadmapItem>,
                            initEpics: map<Id, seq<RoadmapItem>>, legacy: map<Id, seq<RoadmapItem>>,
                            epicFeatures: map<Id, seq<RoadmapItem>>)
    requires initiatives == Initiatives(items)
    requires initEpics.Keys == TypeIds(items, "initiative") && legacy.Keys == TypeIds(items, "initiative")
    requires forall k | k in initEpics :: initEpics[k] == EpicsOf(items, k)
    requires epicFeatures.Keys == TypeIds(items, "epic")
    requires forall k | k in epicFeatures :: epicFeatures[k] == FeaturesOf(items, k)
    ensures forall i | i in initiatives :: i.id in initEpics && i.id in legacy
    ensures forall i | i in initiatives :: i.id in initEpics && forall e | e in initEpics[i.id] :: e.id in epicFeatures
  {
    forall i | i in initiatives ensures i.id in initEpics && i.id in legacy {
      assert i.id in TypeIds(items, "initiative");
    }
    forall i | i in initiatives ensures forall e | e in initEpics[i.id] :: e.id in epicFeatures {
      AttachResolved(items, initEpics[i.id], epicFeatures);
    }
  }

  /** With the maps filled as pass 3 leaves them, the resolved epic nodes are the epic trees. */
  lemma AttachResolved(items: seq<RoadmapItem>, es: seq<RoadmapItem>, epicFeatures: map<Id, seq<RoadmapItem>>)
    requires forall e | e in es :: e in items && e.itemType == "epic"
    requires epicFeatures.Keys == TypeIds(items, "epic")
    requires forall k | k in epicFeatures :: epicFeatures[k] == FeaturesOf(items, k)
    ensures forall e | e in es :: e.id in epicFeatures
    ensures (forall e | e in es :: e.id in epicFeatures) && AttachEpics(es, epicFeatures) == EpicTrees(items, es)
  {
    forall e | e in es ensures e.id in epicFeatures {
      assert e.id in TypeIds(items, "epic");
    }
  }

  lemma RootsResolved(items: seq<RoadmapItem>, roots: seq<TreeNode>, initEpics: map<Id, seq<RoadmapItem>>,
                      epicFeatures: map<Id, seq<RoadmapItem>>, legacy: map<Id, seq<RoadmapItem>>)
    requires initEpics.Keys == TypeIds(items, "initiative") && legacy.Keys == TypeIds(items, "initiative")
    requires forall k | k in initEpics :: initEpics[k] == EpicsOf(items, k)
    requires forall k | k in legacy :: legacy[k] == LegacyFeaturesOf(items, k)
    requires epicFeatures.Keys == TypeIds(items, "epic")
    requires forall k | k in epicFeatures :: epicFeatures[k] == FeaturesOf(items, k)
    requires |roots| == |Initiatives(items)|
    requires forall k | 0 <= k < |roots| ::
      var i := Initiatives(items)[k];
      i.id in initEpics && i.id in legacy && (forall e | e in initEpics[i.id] :: e.id in epicFeatures) &&
      roots[k] == TreeNode(i, AttachEpics(initEpics[i.id], epicFeatures) + Leaves(legacy[i.id], 1), 0)
    ensures roots == Roots(items)
  {
    var inits := Initiatives(items);
    forall k | 0 <= k < |roots| ensures roots[k] == Roots(items)[k] {
      RootResolved(items, inits[k], initEpics, epicFeatures, legacy);
    }
  }

  /** One initiative's node, assembled from the maps, is its initiative tree. */
  lemma RootResolved(items: seq<RoadmapItem>, i: RoadmapItem, initEpics: map<Id, seq<RoadmapItem>>,
                     epicFeatures: map<Id, seq<RoadmapItem>>, legacy: map<Id, seq<RoadmapItem>>)
    requires i.id in initEpics && i.id in legacy
    requires initEpics[i.id] == EpicsOf(items, i.id) && legacy[i.id] == LegacyFeaturesOf(items, i.id)
    requires epicFeatures.Keys == TypeIds(items, "epic")
    requires forall k | k in epicFeatures :: epicFeatures[k] == FeaturesOf(items, k)
    requires forall e | e in initEpics[i.id] :: e.id in epicFeatures
    ensures TreeNode(i, AttachEpics(initEpics[i.id], epicFeatures) + Leaves(legacy[i.id], 1), 0)
      == InitiativeTree(items, i)
  {
    AttachResolved(items, initEpics[i.id], epicFeatures);
  }
}
