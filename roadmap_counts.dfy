/** Every initiative, epic and feature appears in the roadmap table's forest exactly once, and
    nothing else appears in it. The items of the forest are counted level by level: the items
    under an epic, under an initiative, and among the extras. */
module RoadmapCounts {
  import opened Wrappers
  import opened Collections
  import opened Schema
  import opened Justification
  import opened RoadmapTree
  import opened RoadmapBuild

  // ─── The items of the forest, level by level ─────────────

  /** The epics in order, each followed by its features. */
  function EpicItems(items: seq<RoadmapItem>, es: seq<RoadmapItem>): seq<RoadmapItem>
    decreases |es|
  {
    if es == [] then []
    else
      var e := es[|es| - 1];
      EpicItems(items, es[..|es| - 1]) + ([e] + FeaturesOf(items, e.id))
  }

  /** The initiatives in order, each followed by its epics' items and its legacy features. */
  function InitItems(items: seq<RoadmapItem>, inits: seq<RoadmapItem>): seq<RoadmapItem>
    decreases |inits|
  {
    if inits == [] then []
    else
      var i := inits[|inits| - 1];
      InitItems(items, inits[..|inits| - 1]) + InitPart(items, i)
  }

  function InitPart(items: seq<RoadmapItem>, i: RoadmapItem): seq<RoadmapItem> {
    [i] + EpicItems(items, EpicsOf(items, i.id)) + LegacyFeaturesOf(items, i.id)
  }

  lemma {:induction false} LeavesItems(xs: seq<RoadmapItem>, d: nat)
    ensures ForestItems(Leaves(xs, d)) == xs
    decreases |xs|
  {
    if xs != [] {
      var n := |xs| - 1;
      assert Leaves(xs, d)[..n] == Leaves(xs[..n], d);
      LeavesItems(xs[..n], d);
      assert TreeItems(Leaves(xs, d)[n]) == [xs[n]] by {
        assert ForestItems([]) == [];
      }
      assert xs == xs[..n] + [xs[n]];
    }
  }

  lemma {:induction false} EpicTreesItems(items: seq<RoadmapItem>, es: seq<RoadmapItem>)
    ensures ForestItems(EpicTrees(items, es)) == EpicItems(items, es)
    decreases |es|
  {
    if es != [] {
      var n := |es| - 1;
      assert EpicTrees(items, es)[..n] == EpicTrees(items, es[..n]);
      EpicTreesItems(items, es[..n]);
      LeavesItems(FeaturesOf(items, es[n].id), 2);
    }
  }

  lemma InitiativeTreeItems(items: seq<RoadmapItem>, i: RoadmapItem)
    ensures TreeItems(InitiativeTree(items, i))
      == [i] + EpicItems(items, EpicsOf(items, i.id)) + LegacyFeaturesOf(items, i.id)
  {
    var es := EpicTrees(items, EpicsOf(items, i.id));
    var ls := Leaves(LegacyFeaturesOf(items, i.id), 1);
    ForestItemsAppend(es, ls);
    EpicTreesItems(items, EpicsOf(items, i.id));
    LeavesItems(LegacyFeaturesOf(items, i.id), 1);
  }

  lemma {:induction false} InitiativeTreesItems(items: seq<RoadmapItem>, inits: seq<RoadmapItem>)
    ensures ForestItems(InitiativeTrees(items, inits)) == InitItems(items, inits)
    decreases |inits|
  {
    if inits != [] {
      var n := |inits| - 1;
      assert InitiativeTrees(items, inits)[..n] == InitiativeTrees(items, inits[..n]);
      InitiativeTreesItems(items, inits[..n]);
      InitiativeTreeItems(items, inits[n]);
    }
  }

  /** The forest holds the roots' items, the loose epics' items and the loose features. */
  lemma TreeItemsSplit(items: seq<RoadmapItem>)
    ensures multiset(ForestItems(Tree(items))) ==
      multiset(InitItems(items, Initiatives(items))) + multiset(EpicItems(items, LooseEpics(items)))
        + multiset(LooseFeatures(items))
  {
    ForestItemsAppend(SortForest(Roots(items)), SortForest(Extras(items)));
    SortForestItems(Roots(items));
    SortForestItems(Extras(items));
    InitiativeTreesItems(items, Initiatives(items));
    ForestItemsAppend(EpicTrees(items, LooseEpics(items)), Leaves(LooseFeatures(items), 2));
    EpicTreesItems(items, LooseEpics(items));
    LeavesItems(LooseFeatures(items), 2);
  }

  // ─── Distinct ids ────────────────────────────────────────

  lemma SameIdSameItem(items: seq<RoadmapItem>, a: RoadmapItem, b: RoadmapItem)
    requires DistinctIds(items) && a in items && b in items && a.id == b.id
    ensures a == b
  {
    var i :| 0 <= i < |items| && items[i] == a;
    var j :| 0 <= j < |items| && items[j] == b;
    assert i == j;
  }

  lemma {:induction false} OccursOnce(items: seq<RoadmapItem>, x: RoadmapItem)
    requires DistinctIds(items) && x in items
    ensures multiset(items)[x] == 1
    decreases |items|
  {
    var n := |items| - 1;
    var init := items[..n];
    assert items == init + [items[n]];
    assert DistinctIds(init);
    if x == items[n] {
      forall k | 0 <= k < n ensures init[k] != x { assert items[k].id != items[n].id; }
      assert x !in init;
    } else {
      OccursOnce(init, x);
    }
  }

  /** A row that is not in the table, or whose type is none of the three. */
  predicate NotPlaced(items: seq<RoadmapItem>, x: RoadmapItem) {
    x !in items || !KnownType(x.itemType)
  }

  lemma NotPlacedFiltered(items: seq<RoadmapItem>, keep: RoadmapItem -> bool, x: RoadmapItem)
    requires NotPlaced(items, x)
    requires forall y :: keep(y) ==> KnownType(y.itemType)
    ensures multiset(Filter(items, keep))[x] == 0
  {
    FilterCount(items, keep, x);
  }

  // ─── Counting under the epics ────────────────────────────

  predicate AllOfType(items: seq<RoadmapItem>, xs: seq<RoadmapItem>, t: string) {
    forall y | y in xs :: y in items && y.itemType == t
  }

  lemma {:induction false} EpicItemsNonFeature(items: seq<RoadmapItem>, es: seq<RoadmapItem>, x: RoadmapItem)
    requires x.itemType != "feature"
    ensures multiset(EpicItems(items, es))[x] == multiset(es)[x]
    decreases |es|
  {
    if es != [] {
      var n := |es| - 1;
      assert es == es[..n] + [es[n]];
      EpicItemsNonFeature(items, es[..n], x);
      FilterCount(items, ChildOf("feature", es[n].id), x);
    }
  }

  /** A feature occurs under the epics as often as the epic its parent names. */
  lemma {:induction false} EpicItemsFeature(items: seq<RoadmapItem>, es: seq<RoadmapItem>, x: RoadmapItem,
                                            e0: RoadmapItem)
    requires DistinctIds(items) && AllOfType(items, es, "epic")
    requires x in items && x.itemType == "feature" && e0 in items && ParentIs(x, e0.id)
    ensures multiset(EpicItems(items, es))[x] == multiset(es)[e0]
    decreases |es|
  {
    if es != [] {
      var n := |es| - 1;
      var e := es[n];
      assert es == es[..n] + [e];
      EpicItemsFeature(items, es[..n], x, e0);
      assert e in es;
      EpicPartFeature(items, e, x, e0);
      assert multiset(es)[e0] == multiset(es[..n])[e0] + (if e == e0 then 1 else 0);
    }
  }

  /** An epic and its features hold the feature `x` once when the epic is its parent's. */
  lemma EpicPartFeature(items: seq<RoadmapItem>, e: RoadmapItem, x: RoadmapItem, e0: RoadmapItem)
    requires DistinctIds(items) && e in items && e.itemType == "epic"
    requires x in items && x.itemType == "feature" && e0 in items && ParentIs(x, e0.id)
    ensures multiset([e] + FeaturesOf(items, e.id))[x] == if e == e0 then 1 else 0
  {
    FilterCount(items, ChildOf("feature", e.id), x);
    OccursOnce(items, x);
    if e.id == e0.id {
      SameIdSameItem(items, e, e0);
    }
  }

  /** A feature whose parent names no epic occurs under no epic. */
  lemma {:induction false} EpicItemsLooseFeature(items: seq<RoadmapItem>, es: seq<RoadmapItem>, x: RoadmapItem)
    requires AllOfType(items, es, "epic")
    requires x.itemType == "feature" && !ParentIn(x, TypeIds(items, "epic"))
    ensures multiset(EpicItems(items, es))[x] == 0
    decreases |es|
  {
    if es != [] {
      var n := |es| - 1;
      var e := es[n];
      assert es == es[..n] + [e];
      assert e.id in TypeIds(items, "epic");
      EpicItemsLooseFeature(items, es[..n], x);
      FilterCount(items, ChildOf("feature", e.id), x);
    }
  }

  lemma {:induction false} EpicItemsNotPlaced(items: seq<RoadmapItem>, es: seq<RoadmapItem>, x: RoadmapItem)
    requires AllOfType(items, es, "epic") && NotPlaced(items, x)
    ensures multiset(EpicItems(items, es))[x] == 0
    decreases |es|
  {
    if es != [] {
      var n := |es| - 1;
      assert es == es[..n] + [es[n]];
      EpicItemsNotPlaced(items, es[..n], x);
      NotPlacedFiltered(items, ChildOf("feature", es[n].id), x);
    }
  }

  // ─── Counting under the initiatives ──────────────────────

  lemma {:induction false} InitItemsInitiative(items: seq<RoadmapItem>, inits: seq<RoadmapItem>, x: RoadmapItem)
    requires x.itemType == "initiative"
    ensures multiset(InitItems(items, inits))[x] == multiset(inits)[x]
    decreases |inits|
  {
    if inits != [] {
      var n := |inits| - 1;
      var i := inits[n];
      assert inits == inits[..n] + [i];
      InitItemsInitiative(items, inits[..n], x);
      EpicItemsNonFeature(items, EpicsOf(items, i.id), x);
      FilterCount(items, ChildOf("epic", i.id), x);
      FilterCount(items, LegacyOf(TypeIds(items, "epic"), i.id), x);
    }
  }

  lemma InitPartEpic(items: seq<RoadmapItem>, i: RoadmapItem, x: RoadmapItem, i0: RoadmapItem)
    requires DistinctIds(items) && i in items && i.itemType == "initiative"
    requires x in items && x.itemType == "epic" && i0 in items && ParentIs(x, i0.id)
    ensures multiset(InitPart(items, i))[x] == multiset([i])[i0]
  {
    var es := EpicsOf(items, i.id);
    EpicItemsNonFeature(items, es, x);
    FilterCount(items, ChildOf("epic", i.id), x);
    FilterCount(items, LegacyOf(TypeIds(items, "epic"), i.id), x);
    assert !LegacyOf(TypeIds(items, "epic"), i.id)(x);
    assert ChildOf("epic", i.id)(x) <==> i.id == i0.id;
    OccursOnce(items, x);
    if i.id == i0.id {
      SameIdSameItem(items, i, i0);
    }
    assert multiset(InitPart(items, i))[x] ==
      multiset([i])[x] + multiset(EpicItems(items, es))[x] + multiset(LegacyFeaturesOf(items, i.id))[x];
  }

  /** An epic occurs under the initiatives as often as the initiative its parent names. */
  lemma {:induction false} InitItemsEpic(items: seq<RoadmapItem>, inits: seq<RoadmapItem>, x: RoadmapItem,
                                         i0: RoadmapItem)
    requires DistinctIds(items) && AllOfType(items, inits, "initiative")
    requires x in items && x.itemType == "epic" && i0 in items && ParentIs(x, i0.id)
    ensures multiset(InitItems(items, inits))[x] == multiset(inits)[i0]
    decreases |inits|
  {
    if inits != [] {
      var n := |inits| - 1;
      assert inits == inits[..n] + [inits[n]];
      InitItemsEpic(items, inits[..n], x, i0);
      InitPartEpic(items, inits[n], x, i0);
    }
  }

  /** An epic whose parent names no initiative occurs under none. */
  lemma {:induction false} InitItemsLooseEpic(items: seq<RoadmapItem>, inits: seq<RoadmapItem>, x: RoadmapItem)
    requires AllOfType(items, inits, "initiative")
    requires x.itemType == "epic" && !ParentIn(x, TypeIds(items, "initiative"))
    ensures multiset(InitItems(items, inits))[x] == 0
    decreases |inits|
  {
    if inits != [] {
      var n := |inits| - 1;
      var i := inits[n];
      assert inits == inits[..n] + [i];
      assert i.id in TypeIds(items, "initiative");
      InitItemsLooseEpic(items, inits[..n], x);
      EpicItemsNonFeature(items, EpicsOf(items, i.id), x);
      FilterCount(items, ChildOf("epic", i.id), x);
      FilterCount(items, LegacyOf(TypeIds(items, "epic"), i.id), x);
    }
  }

  lemma InitPartEpicFeature(items: seq<RoadmapItem>, i: RoadmapItem, x: RoadmapItem, e0: RoadmapItem)
    requires DistinctIds(items) && i in items && i.itemType == "initiative"
    requires x in items && x.itemType == "feature"
    requires e0 in items && e0.itemType == "epic" && ParentIs(x, e0.id)
    ensures multiset(InitPart(items, i))[x] == multiset(InitPart(items, i))[e0]
  {
    assert ParentIn(x, TypeIds(items, "epic"));
    var es := EpicsOf(items, i.id);
    assert AllOfType(items, es, "epic");
    EpicItemsFeature(items, es, x, e0);
    EpicItemsNonFeature(items, es, e0);
    FilterCount(items, LegacyOf(TypeIds(items, "epic"), i.id), x);
    FilterCount(items, LegacyOf(TypeIds(items, "epic"), i.id), e0);
  }

  /** A feature under an epic occurs under the initiatives as often as that epic. */
  lemma {:induction false} InitItemsEpicFeature(items: seq<RoadmapItem>, inits: seq<RoadmapItem>,
                                                x: RoadmapItem, e0: RoadmapItem)
    requires DistinctIds(items) && AllOfType(items, inits, "initiative")
    requires x in items && x.itemType == "feature"
    requires e0 in items && e0.itemType == "epic" && ParentIs(x, e0.id)
    ensures multiset(InitItems(items, inits))[x] == multiset(InitItems(items, inits))[e0]
    decreases |inits|
  {
    if inits != [] {
      var n := |inits| - 1;
      assert inits == inits[..n] + [inits[n]];
      InitItemsEpicFeature(items, inits[..n], x, e0);
      InitPartEpicFeature(items, inits[n], x, e0);
    }
  }

  lemma InitPartLegacy(items: seq<RoadmapItem>, i: RoadmapItem, x: RoadmapItem, i0: RoadmapItem)
    requires DistinctIds(items) && i in items && i.itemType == "initiative"
    requires x in items && x.itemType == "feature" && !ParentIn(x, TypeIds(items, "epic"))
    requires i0 in items && ParentIs(x, i0.id)
    ensures multiset(InitPart(items, i))[x] == multiset([i])[i0]
  {
    var es := EpicsOf(items, i.id);
    assert AllOfType(items, es, "epic");
    EpicItemsLooseFeature(items, es, x);
    FilterCount(items, LegacyOf(TypeIds(items, "epic"), i.id), x);
    OccursOnce(items, x);
    assert LegacyOf(TypeIds(items, "epic"), i.id)(x) <==> i.id == i0.id;
    if i.id == i0.id {
      SameIdSameItem(items, i, i0);
    }
    assert multiset(InitPart(items, i))[x] ==
      multiset([i])[x] + multiset(EpicItems(items, es))[x] + multiset(LegacyFeaturesOf(items, i.id))[x];
  }

  /** A legacy feature occurs under the initiatives as often as the initiative it names. */
  lemma {:induction false} InitItemsLegacy(items: seq<RoadmapItem>, inits: seq<RoadmapItem>,
                                           x: RoadmapItem, i0: RoadmapItem)
    requires DistinctIds(items) && AllOfType(items, inits, "initiative")
    requires x in items && x.itemType == "feature" && !ParentIn(x, TypeIds(items, "epic"))
    requires i0 in items && ParentIs(x, i0.id)
    ensures multiset(InitItems(items, inits))[x] == multiset(inits)[i0]
    decreases |inits|
  {
    if inits != [] {
      var n := |inits| - 1;
      assert inits == inits[..n] + [inits[n]];
      InitItemsLegacy(items, inits[..n], x, i0);
      InitPartLegacy(items, inits[n], x, i0);
    }
  }

  /** A feature whose parent names neither an epic nor an initiative occurs under none. */
  lemma {:induction false} InitItemsLooseFeature(items: seq<RoadmapItem>, inits: seq<RoadmapItem>, x: RoadmapItem)
    requires AllOfType(items, inits, "initiative")
    requires x.itemType == "feature" && !ParentIn(x, TypeIds(items, "epic"))
    requires !ParentIn(x, TypeIds(items, "initiative"))
    ensures multiset(InitItems(items, inits))[x] == 0
    decreases |inits|
  {
    if inits != [] {
      var n := |inits| - 1;
      var i := inits[n];
      assert inits == inits[..n] + [i];
      assert i.id in TypeIds(items, "initiative");
      InitItemsLooseFeature(items, inits[..n], x);
      EpicItemsLooseFeature(items, EpicsOf(items, i.id), x);
      FilterCount(items, LegacyOf(TypeIds(items, "epic"), i.id), x);
    }
  }

  lemma {:induction false} InitItemsNotPlaced(items: seq<RoadmapItem>, inits: seq<RoadmapItem>, x: RoadmapItem)
    requires AllOfType(items, inits, "initiative") && NotPlaced(items, x)
    ensures multiset(InitItems(items, inits))[x] == 0
    decreases |inits|
  {
    if inits != [] {
      var n := |inits| - 1;
      var i := inits[n];
      assert inits == inits[..n] + [i];
      InitItemsNotPlaced(items, inits[..n], x);
      var es := EpicsOf(items, i.id);
      assert AllOfType(items, es, "epic");
      EpicItemsNotPlaced(items, es, x);
      NotPlacedFiltered(items, LegacyOf(TypeIds(items, "epic"), i.id), x);
    }
  }

  // ─── Exactly once ────────────────────────────────────────

  lemma ListsOfType(items: seq<RoadmapItem>)
    ensures AllOfType(items, Initiatives(items), "initiative")
    ensures AllOfType(items, LooseEpics(items), "epic")
  {
  }

  /** An epic is either under the initiative its parent names or among the loose epics. */
  lemma EpicOnce(items: seq<RoadmapItem>, x: RoadmapItem)
    requires DistinctIds(items) && x in items && x.itemType == "epic"
    ensures multiset(InitItems(items, Initiatives(items)))[x] + multiset(LooseEpics(items))[x] == 1
  {
    ListsOfType(items);
    OccursOnce(items, x);
    FilterCount(items, LooseEpic(TypeIds(items, "initiative")), x);
    if ParentIn(x, TypeIds(items, "initiative")) {
      var i0 :| i0 in items && i0.itemType == "initiative" && i0.id == x.parentId.value;
      InitItemsEpic(items, Initiatives(items), x, i0);
      FilterCount(items, OfType("initiative"), i0);
      OccursOnce(items, i0);
    } else {
      InitItemsLooseEpic(items, Initiatives(items), x);
    }
  }

  /** A feature is under the epic its parent names (which is itself placed once), or under the
      initiative its parent names, or among the loose features. */
  lemma FeatureOnce(items: seq<RoadmapItem>, x: RoadmapItem)
    requires DistinctIds(items) && x in items && x.itemType == "feature"
    ensures multiset(InitItems(items, Initiatives(items)))[x] + multiset(EpicItems(items, LooseEpics(items)))[x]
      + multiset(LooseFeatures(items))[x] == 1
  {
    ListsOfType(items);
    OccursOnce(items, x);
    var initIds, epicIds := TypeIds(items, "initiative"), TypeIds(items, "epic");
    FilterCount(items, LooseFeature(initIds, epicIds), x);
    if ParentIn(x, epicIds) {
      var e0 :| e0 in items && e0.itemType == "epic" && e0.id == x.parentId.value;
      InitItemsEpicFeature(items, Initiatives(items), x, e0);
      EpicItemsFeature(items, LooseEpics(items), x, e0);
      EpicOnce(items, e0);
    } else if ParentIn(x, initIds) {
      var i0 :| i0 in items && i0.itemType == "initiative" && i0.id == x.parentId.value;
      InitItemsLegacy(items, Initiatives(items), x, i0);
      EpicItemsLooseFeature(items, LooseEpics(items), x);
      FilterCount(items, OfType("initiative"), i0);
      OccursOnce(items, i0);
    } else {
      InitItemsLooseFeature(items, Initiatives(items), x);
      EpicItemsLooseFeature(items, LooseEpics(items), x);
    }
  }

  /** `buildTree` returns a forest holding every initiative, epic and feature exactly once, and
      no other row. */
  lemma TreeHoldsEachItemOnce(items: seq<RoadmapItem>)
    requires DistinctIds(items)
    ensures forall x ::
      multiset(ForestItems(Tree(items)))[x] == if x in items && KnownType(x.itemType) then 1 else 0
  {
    TreeItemsSplit(items);
    forall x ensures multiset(ForestItems(Tree(items)))[x] ==
      if x in items && KnownType(x.itemType) then 1 else 0
    {
      PartsCount(items, x);
    }
  }

  /** How often a row occurs in the three parts the forest's items split into. */
  function PartsCountOf(items: seq<RoadmapItem>, x: RoadmapItem): nat {
    multiset(InitItems(items, Initiatives(items)))[x] + multiset(EpicItems(items, LooseEpics(items)))[x]
      + multiset(LooseFeatures(items))[x]
  }

  lemma PartsCount(items: seq<RoadmapItem>, x: RoadmapItem)
    requires DistinctIds(items)
    ensures PartsCountOf(items, x) == if x in items && KnownType(x.itemType) then 1 else 0
  {
    if NotPlaced(items, x) {
      NotPlacedCount(items, x);
    } else if x.itemType == "initiative" {
      InitiativeCount(items, x);
    } else if x.itemType == "epic" {
      EpicCount(items, x);
    } else {
      FeatureOnce(items, x);
    }
  }

  lemma NotPlacedCount(items: seq<RoadmapItem>, x: RoadmapItem)
    requires NotPlaced(items, x)
    ensures PartsCountOf(items, x) == 0
  {
    ListsOfType(items);
    InitItemsNotPlaced(items, Initiatives(items), x);
    EpicItemsNotPlaced(items, LooseEpics(items), x);
    NotPlacedFiltered(items, LooseFeature(TypeIds(items, "initiative"), TypeIds(items, "epic")), x);
  }

  lemma InitiativeCount(items: seq<RoadmapItem>, x: RoadmapItem)
    requires DistinctIds(items) && x in items && x.itemType == "initiative"
    ensures PartsCountOf(items, x) == 1
  {
    var initIds, epicIds := TypeIds(items, "initiative"), TypeIds(items, "epic");
    InitItemsInitiative(items, Initiatives(items), x);
    FilterCount(items, OfType("initiative"), x);
    OccursOnce(items, x);
    assert multiset(InitItems(items, Initiatives(items)))[x] == 1;
    EpicItemsNonFeature(items, LooseEpics(items), x);
    FilterCount(items, LooseEpic(initIds), x);
    assert !LooseEpic(initIds)(x);
    assert multiset(EpicItems(items, LooseEpics(items)))[x] == 0;
    FilterCount(items, LooseFeature(initIds, epicIds), x);
    assert !LooseFeature(initIds, epicIds)(x);
    assert multiset(LooseFeatures(items))[x] == 0;
  }

  lemma EpicCount(items: seq<RoadmapItem>, x: RoadmapItem)
    requires DistinctIds(items) && x in items && x.itemType == "epic"
    ensures PartsCountOf(items, x) == 1
  {
    EpicOnce(items, x);
    EpicItemsNonFeature(items, LooseEpics(items), x);
    FilterCount(items, LooseFeature(TypeIds(items, "initiative"), TypeIds(items, "epic")), x);
  }
}
