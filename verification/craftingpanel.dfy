/** The workshop of src/features/inventory/CraftingPanel.jsx: the crafting
    test, the craft button and the use button. */
module CraftingPanel {
  import opened Wrappers
  import opened Content
  import opened Inventory
  import opened State
  import opened Reducer

  /** The tally `canCraft` builds: one per backpack entry with that id,
      whatever the entry's count. */
  function Tally(inv: Inv<ItemId>, id: ItemId): (n: nat)
    ensures n <= |inv|
  {
    if |inv| == 0 then 0
    else (if inv[0].id == id then 1 else 0) + Tally(inv[1..], id)
  }

  lemma {:induction false} TallyAbsent(inv: Inv<ItemId>, id: ItemId)
    requires !Has(inv, id)
    ensures Tally(inv, id) == 0
    decreases |inv|
  {
    if |inv| > 0 {
      assert forall i :: 0 <= i < |inv[1..]| ==> inv[1..][i] == inv[i + 1];
      TallyAbsent(inv[1..], id);
    }
  }

  /** Every entry holds at least one unit, so the tally never exceeds the units. */
  lemma {:induction false} TallyBelowUnits(inv: Inv<ItemId>, id: ItemId)
    requires Positive(inv)
    ensures Tally(inv, id) <= Units(inv, id)
    decreases |inv|
  {
    if |inv| > 0 {
      assert Positive(inv[1..]) by {
        forall i | 0 <= i < |inv[1..]| ensures inv[1..][i].count >= 1 {
          assert inv[1..][i] == inv[i + 1];
        }
      }
      TallyBelowUnits(inv[1..], id);
    }
  }

  /** With one stack per id, the tally of any id is 0 or 1. */
  lemma {:induction false} TallyAtMostOne(inv: Inv<ItemId>, id: ItemId)
    requires DistinctIds(inv)
    ensures Tally(inv, id) <= 1
    ensures Tally(inv, id) == 1 <==> Has(inv, id)
    decreases |inv|
  {
    if |inv| == 0 {
      return;
    }
    var tail := inv[1..];
    assert DistinctIds(tail) by {
      forall i, j | 0 <= i < j < |tail| ensures tail[i].id != tail[j].id {
        assert tail[i] == inv[i + 1] && tail[j] == inv[j + 1];
      }
    }
    TallyAtMostOne(tail, id);
    if inv[0].id == id {
      assert forall i :: 0 <= i < |tail| ==> tail[i] == inv[i + 1];
      TallyAbsent(tail, id);
    } else {
      assert Has(inv, id) <==> Has(tail, id) by {
        if Has(inv, id) {
          var i :| 0 <= i < |inv| && inv[i].id == id;
          assert tail[i - 1].id == id;
        }
        if Has(tail, id) {
          var i :| 0 <= i < |tail| && tail[i].id == id;
          assert inv[i + 1].id == id;
        }
      }
    }
  }

  /** `canCraft` as written: every requirement is met by the tally. */
  predicate CanCraftAsWritten(inv: Inv<ItemId>, recipe: Recipe)
  {
    forall k :: 0 <= k < |recipe.req| ==> Tally(inv, recipe.req[k].0) >= recipe.req[k].1
  }

  /** `canCraft` counting units: every requirement is met by the stacks. */
  predicate CanCraft(inv: Inv<ItemId>, recipe: Recipe)
  {
    forall k :: 0 <= k < |recipe.req| ==> Units(inv, recipe.req[k].0) >= recipe.req[k].1
  }

  /** The test as written is sound: it never lets through a craft the stacks cannot pay for. */
  lemma AsWrittenIsSound(inv: Inv<ItemId>, recipe: Recipe)
    requires Positive(inv) && CanCraftAsWritten(inv, recipe)
    ensures CanCraft(inv, recipe)
  {
    forall k | 0 <= k < |recipe.req| ensures Units(inv, recipe.req[k].0) >= recipe.req[k].1 {
      TallyBelowUnits(inv, recipe.req[k].0);
    }
  }

  /** It is not complete: five scrap and two bones in two stacks pay for a
      pickaxe, yet tally as one of each. */
  lemma AsWrittenMissesStacks()
    ensures var inv := [Stack("scrap", 5), Stack("monster_bone", 2)];
      CanCraft(inv, RECIPES[2]) && !CanCraftAsWritten(inv, RECIPES[2])
  {
    var inv := [Stack("scrap", 5), Stack("monster_bone", 2)];
    assert Units(inv, "scrap") == 5 by { assert inv[1..][1..] == []; }
    assert Units(inv, "monster_bone") == 2 by { assert inv[1..][1..] == []; }
    assert Tally(inv, "scrap") == 1 by { assert inv[1..][1..] == []; }
    assert RECIPES[2].req[0] == ("scrap", 5);
  }

  /** With one stack per id, the medical kit (two scrap) and the pickaxe
      (five scrap) can never be crafted through the test as written. */
  lemma ScrapRecipesNeverCraftableAsWritten(inv: Inv<ItemId>, k: int)
    requires DistinctIds(inv) && (k == 1 || k == 2)
    ensures !CanCraftAsWritten(inv, RECIPES[k])
  {
    TallyAtMostOne(inv, "scrap");
    assert RECIPES[k].req[0].0 == "scrap" && RECIPES[k].req[0].1 >= 2;
  }

  /** For a recipe asking one unit of each id, both tests agree. */
  lemma TestsAgreeOnSingleUnits(inv: Inv<ItemId>, recipe: Recipe)
    requires Positive(inv) && DistinctIds(inv)
    requires forall k :: 0 <= k < |recipe.req| ==> recipe.req[k].1 == 1
    ensures CanCraftAsWritten(inv, recipe) <==> CanCraft(inv, recipe)
  {
    if CanCraft(inv, recipe) {
      forall k | 0 <= k < |recipe.req| ensures Tally(inv, recipe.req[k].0) >= 1 {
        var id := recipe.req[k].0;
        TallyAtMostOne(inv, id);
        if !Has(inv, id) { UnitsAbsent(inv, id); }
      }
    } else {
      if CanCraftAsWritten(inv, recipe) { AsWrittenIsSound(inv, recipe); }
    }
  }

  /** `handleCraft` as written. */
  function HandleCraftAsWritten(s: GameState, recipe: Recipe): (acts: seq<Action>)
    ensures acts != [] <==> CanCraftAsWritten(s.inventory, recipe)
    ensures acts != [] ==> acts == [CraftItem(recipe)]
  {
    if CanCraftAsWritten(s.inventory, recipe) then [CraftItem(recipe)] else []
  }

  /** `handleCraft` with the test counting units. */
  function HandleCraft(s: GameState, recipe: Recipe): (acts: seq<Action>)
    ensures acts != [] <==> CanCraft(s.inventory, recipe)
    ensures acts != [] ==> acts == [CraftItem(recipe)]
  {
    if CanCraft(s.inventory, recipe) then [CraftItem(recipe)] else []
  }

  /** No id appears twice among a requirement list's keys, as in an object literal. */
  predicate UniqueKeys(req: seq<(ItemId, int)>)
  {
    forall i, j :: 0 <= i < j < |req| ==> req[i].0 != req[j].0
  }

  lemma RecipesHaveUniqueKeys()
    ensures forall k :: 0 <= k < |RECIPES| ==> UniqueKeys(RECIPES[k].req)
  {
  }

  lemma {:induction false} NeededOfKey(req: seq<(ItemId, int)>, j: int)
    requires UniqueKeys(req) && 0 <= j < |req|
    ensures Needed(req, req[j].0) == Max0(req[j].1)
    decreases |req|
  {
    var tail := req[1..];
    if j == 0 {
      NeededAbsent(tail, req[0].0);
    } else {
      assert UniqueKeys(tail) by {
        forall a, b | 0 <= a < b < |tail| ensures tail[a].0 != tail[b].0 {
          assert tail[a] == req[a + 1] && tail[b] == req[b + 1];
        }
      }
      assert tail[j - 1] == req[j];
      NeededOfKey(tail, j - 1);
    }
  }

  lemma {:induction false} NeededAbsent(req: seq<(ItemId, int)>, id: ItemId)
    requires forall j :: 0 <= j < |req| ==> req[j].0 != id
    ensures Needed(req, id) == 0
    decreases |req|
  {
    if |req| > 0 {
      assert forall j :: 0 <= j < |req[1..]| ==> req[1..][j] == req[j + 1];
      NeededAbsent(req[1..], id);
    }
  }

  /** A craft that passes the unit test consumes every requirement in full,
      adds one unit of the result, and touches no other id. */
  lemma CraftConsumesInFull(s: GameState, recipe: Recipe, x: ItemId)
    requires Positive(s.inventory) && UniqueKeys(recipe.req) && CanCraft(s.inventory, recipe)
    ensures var acts := HandleCraft(s, recipe);
      Runs(s, acts)
      && Units(Run(s, acts).inventory, x)
         == Units(s.inventory, x) - Needed(recipe.req, x) + (if x == recipe.res then 1 else 0)
  {
    RunSingle(s, CraftItem(recipe));
    CraftMovesUnits(s, recipe, x);
    UnitsNonNegative(s.inventory, x);
    if j :| 0 <= j < |recipe.req| && recipe.req[j].0 == x {
      NeededOfKey(recipe.req, j);
    } else {
      NeededAbsent(recipe.req, x);
    }
  }

  /** `handleUse`: only a catalogue consumable is used. */
  function HandleUse(s: GameState, index: int): (acts: seq<Action>)
    requires 0 <= index < |s.inventory|
    ensures acts != [] <==> FindItem(s.inventory[index].id).Some?
                            && FindItem(s.inventory[index].id).value.kind == Consumable
    ensures acts != [] ==> acts == [UseItem(FindItem(s.inventory[index].id).value, index)]
  {
    match FindItem(s.inventory[index].id)
    case Some(item) => if item.kind == Consumable then [UseItem(item, index)] else []
    case None => []
  }

  /** The use button goes out only for the catalogue entry of the stack's own id. */
  lemma UseOnlyConsumables(s: GameState, index: int, item: ItemDef)
    requires 0 <= index < |s.inventory|
    requires HandleUse(s, index) == [UseItem(item, index)]
    ensures item.kind == Consumable && item.id == s.inventory[index].id && item in ITEMS
  {
  }

  /** Using an item (the handler sends the catalogue entry of the stack's
      id) takes one unit from its stack, moves hp and hunger by its effect
      with only the maxima as caps, and logs one combat line. */
  lemma UseOutcome(s: GameState, index: int, item: ItemDef)
    requires 0 <= index < |s.inventory| && Positive(s.inventory)
    ensures var acts := [UseItem(item, index)];
      Runs(s, acts)
      && var t := Run(s, acts);
      var id := s.inventory[index].id;
      var e := item.effect;
      Units(t.inventory, id) == Units(s.inventory, id) - 1
      && (forall x :: x != id ==> Units(t.inventory, x) == Units(s.inventory, x))
      && t.player.hp == (if e.hp != 0 then Min(s.player.maxHp, s.player.hp + e.hp) else s.player.hp)
      && t.player.hunger == (if e.hunger != 0 then Min(s.player.maxHunger, s.player.hunger + e.hunger) else s.player.hunger)
      && |t.status.combatLog| == |s.status.combatLog| + 1
  {
    RunSingle(s, UseItem(item, index));
    var t := UseStep(s, item, index);
    assert Run(s, [UseItem(item, index)]) == t;
    assert TakesOneUnit(s.inventory, index, t.inventory);
  }
}
