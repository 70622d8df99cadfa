/** The encyclopedia of src/features/encyclopedia/RelicBookModal.jsx: which
    catalogue items it lists, the order it lists them in, and the completion
    percentage it shows. */
module RelicBook {
  import opened Content
  import opened State
  import opened Events
  import opened StatusPanel

  /** The book leaves out materials and consumables. */
  predicate Shown(item: ItemDef)
  {
    item.kind != Material && item.kind != Consumable
  }

  function Catalogue(): (items: seq<ItemDef>)
    ensures forall item :: item in items <==> item in ITEMS && Shown(item)
  {
    Select(ITEMS, Shown)
  }

  /** `a.rarity || 10` */
  function RarityKey(item: ItemDef): int
  {
    if item.rarity == 0 then 10 else item.rarity
  }

  /** The sort comparator: found items first, then ascending rarity. */
  function Compare(found: seq<ItemId>, a: ItemDef, b: ItemDef): int
  {
    var aFound := a.id in found;
    var bFound := b.id in found;
    if aFound && !bFound then -1
    else if !aFound && bFound then 1
    else RarityKey(a) - RarityKey(b)
  }

  /** `a` may stand before `b`. */
  predicate Precedes(found: seq<ItemId>, a: ItemDef, b: ItemDef)
  {
    Compare(found, a, b) <= 0
  }

  /** The comparator is a consistent ordering: swapping the arguments flips
      its sign, and `Precedes` is total and transitive. */
  lemma CompareIsOrdering(found: seq<ItemId>, a: ItemDef, b: ItemDef, c: ItemDef)
    ensures Compare(found, a, b) == -Compare(found, b, a)
    ensures Precedes(found, a, b) || Precedes(found, b, a)
    ensures Precedes(found, a, b) && Precedes(found, b, c) ==> Precedes(found, a, c)
  {
  }

  predicate Sorted(found: seq<ItemId>, r: seq<ItemDef>)
  {
    forall i, j :: 0 <= i < j < |r| ==> Precedes(found, r[i], r[j])
  }

  /** Place `x` before the first entry it may precede; on a tie it goes
      first, which keeps the sort stable since `x` came earlier. */
  function Insert(found: seq<ItemId>, x: ItemDef, sorted: seq<ItemDef>): seq<ItemDef>
  {
    if |sorted| == 0 then [x]
    else if Precedes(found, x, sorted[0]) then [x] + sorted
    else [sorted[0]] + Insert(found, x, sorted[1..])
  }

  /** `[...items].sort(compare)`, as a stable sort. */
  function Sort(found: seq<ItemId>, items: seq<ItemDef>): seq<ItemDef>
  {
    if |items| == 0 then [] else Insert(found, items[0], Sort(found, items[1..]))
  }

  /** The order the book lists its items in. */
  function Listing(found: seq<ItemId>): seq<ItemDef>
  {
    Sort(found, Catalogue())
  }

  lemma {:induction false} InsertKeepsItems(found: seq<ItemId>, x: ItemDef, sorted: seq<ItemDef>)
    ensures multiset(Insert(found, x, sorted)) == multiset([x]) + multiset(sorted)
    decreases |sorted|
  {
    if |sorted| > 0 && !Precedes(found, x, sorted[0]) {
      InsertKeepsItems(found, x, sorted[1..]);
      assert sorted == [sorted[0]] + sorted[1..];
    }
  }

  lemma {:induction false} InsertKeepsSorted(found: seq<ItemId>, x: ItemDef, sorted: seq<ItemDef>)
    requires Sorted(found, sorted)
    ensures Sorted(found, Insert(found, x, sorted))
    decreases |sorted|
  {
    if |sorted| == 0 {
      return;
    }
    var r := Insert(found, x, sorted);
    if Precedes(found, x, sorted[0]) {
      forall i, j | 0 <= i < j < |r| ensures Precedes(found, r[i], r[j]) {
        if i == 0 {
          CompareIsOrdering(found, x, sorted[0], sorted[j - 1]);
        }
      }
    } else {
      var tail := sorted[1..];
      assert Sorted(found, tail) by {
        forall i, j | 0 <= i < j < |tail| ensures Precedes(found, tail[i], tail[j]) {
          assert tail[i] == sorted[i + 1] && tail[j] == sorted[j + 1];
        }
      }
      InsertKeepsSorted(found, x, tail);
      InsertKeepsItems(found, x, tail);
      var rest := Insert(found, x, tail);
      CompareIsOrdering(found, x, sorted[0], x);
      forall j | 0 <= j < |rest| ensures Precedes(found, sorted[0], rest[j]) {
        assert rest[j] in multiset(rest);
        assert rest[j] == x || rest[j] in multiset(tail);
        if rest[j] != x {
          var k :| 0 <= k < |tail| && tail[k] == rest[j];
          assert sorted[k + 1] == rest[j];
        }
      }
      assert r == [sorted[0]] + rest;
    }
  }

  /** The sort is a permutation of its input into comparator order. */
  lemma {:induction false} SortIsSortedPermutation(found: seq<ItemId>, items: seq<ItemDef>)
    ensures Sorted(found, Sort(found, items))
    ensures multiset(Sort(found, items)) == multiset(items)
    decreases |items|
  {
    if |items| > 0 {
      SortIsSortedPermutation(found, items[1..]);
      InsertKeepsSorted(found, items[0], Sort(found, items[1..]));
      InsertKeepsItems(found, items[0], Sort(found, items[1..]));
      assert items == [items[0]] + items[1..];
    }
  }

  /** The book lists exactly the shown catalogue items, found ones first,
      and within each group by ascending rarity (absent rarity as 10). */
  lemma ListingOrder(found: seq<ItemId>)
    ensures multiset(Listing(found)) == multiset(Catalogue())
    ensures forall item :: item in Listing(found) <==> item in ITEMS && Shown(item)
    ensures var r := Listing(found);
      forall i, j :: 0 <= i < j < |r| && r[j].id in found ==> r[i].id in found
    ensures var r := Listing(found);
      forall i, j :: 0 <= i < j < |r| && (r[i].id in found <==> r[j].id in found) ==>
        RarityKey(r[i]) <= RarityKey(r[j])
  {
    SortIsSortedPermutation(found, Catalogue());
    var r := Listing(found);
    forall item ensures item in r <==> item in Catalogue() {
      assert item in r <==> item in multiset(r);
      assert item in Catalogue() <==> item in multiset(Catalogue());
    }
  }

  /** `Math.round(found / ITEMS.length * 100)`, with `Math.round` rounding
      halves up. */
  function Completion(foundCount: int): int
  {
    ((foundCount as real) / (|ITEMS| as real) * 100.0 + 0.5).Floor
  }

  /** The percentage passes 100 exactly when more ids were found than the
      catalogue holds; one id too many already shows 106. */
  lemma CompletionOverflows(n: nat)
    ensures Completion(n) > 100 <==> n > |ITEMS|
    ensures Completion(|ITEMS|) == 100 && Completion(|ITEMS| + 1) == 106
  {
    var x := (n as real) / 17.0 * 100.0 + 0.5;
    if n > 17 {
      assert x >= 18.0 / 17.0 * 100.0 + 0.5 > 101.0;
    } else {
      assert x <= 100.5;
    }
    var y := 18.0 / 17.0 * 100.0 + 0.5;
    assert 106.0 <= y < 107.0;
  }

  /** More found ids never lower the percentage. */
  lemma CompletionMonotone(a: int, b: int)
    requires a <= b
    ensures Completion(a) <= Completion(b)
  {
    var x := (a as real) / 17.0 * 100.0 + 0.5;
    var y := (b as real) / 17.0 * 100.0 + 0.5;
    assert x <= y;
  }

  /** A list of distinct ids drawn from a set is no longer than the set. */
  lemma {:induction false} DistinctWithin(xs: seq<ItemId>, bound: set<ItemId>)
    requires NoDuplicates(xs)
    requires forall i :: 0 <= i < |xs| ==> xs[i] in bound
    ensures |xs| <= |bound|
    decreases |xs|
  {
    if |xs| > 0 {
      var last := xs[|xs| - 1];
      var init := xs[..|xs| - 1];
      assert forall i :: 0 <= i < |init| ==> init[i] == xs[i] && i < |xs| - 1;
      DistinctWithin(init, bound - {last});
    }
  }

  /** With the found list filled by descents alone, the book counts at most
      the eight loot ids and the relic's missing id: nine ids, 53%, never
      full. Nine are within reach, one per descent. */
  lemma LootAloneCapsCompletion(found: seq<ItemId>)
    requires NoDuplicates(found)
    requires forall i :: 0 <= i < |found| ==> FoundByLoot(found[i])
    ensures |found| <= |LOOT_IDS| + 1 == 9
    ensures Completion(|found|) <= Completion(|LOOT_IDS| + 1) == 53
  {
    LootIdsCount();
    DistinctWithin(found, LOOT_IDS + {MissingId});
    CompletionMonotone(|found|, 9);
    var x := 9.0 / 17.0 * 100.0 + 0.5;
    assert 53.0 <= x < 54.0;
  }

  /** Appraisal results outside the catalogue are remembered too, so a
      found list with them can outgrow it: eighteen distinct ids show 106%.
      As written no such list arises in play (appraisal is never offered and
      descents remember only loot ids); it needs a loaded save, or the
      corrected appraisal tab together with a source of raw relics. */
  lemma FoundCanOutgrowCatalogue()
    ensures var found := ["scrap", "abyss_dust", "monster_bone", "ration", "medkit", "meat",
                          "cooked_meat", "stone", "relic_shard", "sun_sphere", "dirty_relic",
                          "white_whistle", "abyss_map", "star_compass_broken", "pickaxe",
                          "star_compass", "blaze_reap", "reg_arm"];
      NoDuplicates(found) && Completion(|found|) == 106
  {
    CompletionOverflows(18);
  }
}
