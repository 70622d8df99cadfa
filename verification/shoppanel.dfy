/** The surface shop of src/features/tycoon/ShopPanel.jsx: upgrade prices,
    the purchase guards, selling, and the appraisal offer. */
module ShopPanel {
  import opened Wrappers
  import opened Content
  import opened Inventory
  import opened State
  import opened Draws
  import opened Reducer

  datatype Upgrade = Upgrade(id: string, name: string, basePrice: int, multiplier: int)

  const UPGRADES: seq<Upgrade> := [
    Upgrade("excavator", "Escavadeira", 500, 250),
    Upgrade("refinery", "Refinaria", 3000, 2000),
    Upgrade("generator", "Gerador", 5000, 5000),
    Upgrade("balloon", "Balão de Entrega", 1200, 600)
  ]

  /** `getPrice`: the base price plus one multiplier per level owned. */
  function GetPrice(s: GameState, u: Upgrade): int
  {
    u.basePrice + Level(s.machines, u.id) * u.multiplier
  }

  /** Every listed upgrade has a positive base price and multiplier. */
  lemma UpgradesPositive()
    ensures forall k :: 0 <= k < |UPGRADES| ==> UPGRADES[k].basePrice > 0 && UPGRADES[k].multiplier > 0
  {
  }

  /** The price of a listed upgrade strictly increases with its level. */
  lemma PriceRisesWithLevel(s: GameState, t: GameState, k: int)
    requires 0 <= k < |UPGRADES|
    requires Level(s.machines, UPGRADES[k].id) < Level(t.machines, UPGRADES[k].id)
    ensures GetPrice(s, UPGRADES[k]) < GetPrice(t, UPGRADES[k])
  {
    var u := UPGRADES[k];
    var a, b := Level(s.machines, u.id), Level(t.machines, u.id);
    assert (b - a) * u.multiplier > 0;
  }

  /** `buyUpgrade`: the purchase goes out only when the purse covers the price. */
  function BuyUpgradeClick(s: GameState, u: Upgrade): (acts: seq<Action>)
    ensures acts != [] <==> s.resources.gold >= GetPrice(s, u)
    ensures acts != [] ==> acts == [BuyUpgrade(u.id, GetPrice(s, u))]
  {
    var price := GetPrice(s, u);
    if s.resources.gold >= price then [BuyUpgrade(u.id, price)] else []
  }

  /** A bought upgrade leaves the purse non-negative, raises that machine
      by one level and no other, and its next price is one multiplier higher. */
  lemma UpgradeOutcome(s: GameState, u: Upgrade)
    requires s.resources.gold >= GetPrice(s, u)
    ensures var acts := BuyUpgradeClick(s, u);
      Runs(s, acts)
      && var t := Run(s, acts);
      t.resources.gold == s.resources.gold - GetPrice(s, u) >= 0
      && Level(t.machines, u.id) == Level(s.machines, u.id) + 1
      && (forall m :: m != u.id ==> Level(t.machines, m) == Level(s.machines, m))
      && GetPrice(t, u) == GetPrice(s, u) + u.multiplier
  {
    RunSingle(s, BuyUpgrade(u.id, GetPrice(s, u)));
  }

  /** The supplies tab lists the consumables and the equipment. */
  predicate ForSale(item: ItemDef)
  {
    item.kind == Consumable || item.kind == Equip
  }

  function Supplies(): (items: seq<ItemDef>)
    ensures forall item :: item in items <==> item in ITEMS && ForSale(item)
  {
    Select(ITEMS, ForSale)
  }

  /** `buyItem`: the purchase goes out only when the purse covers the price. */
  function BuyItemClick(s: GameState, item: ItemDef): (acts: seq<Action>)
    ensures acts != [] <==> s.resources.gold >= item.price
    ensures acts != [] ==> acts == [BuyItem(item, item.price)]
  {
    if s.resources.gold >= item.price then [BuyItem(item, item.price)] else []
  }

  /** A bought item leaves the purse non-negative and adds one unit of it. */
  lemma BuyItemOutcome(s: GameState, item: ItemDef)
    requires s.resources.gold >= item.price
    ensures var acts := BuyItemClick(s, item);
      Runs(s, acts)
      && var t := Run(s, acts);
      t.resources.gold == s.resources.gold - item.price >= 0
      && Units(t.inventory, item.id) == Units(s.inventory, item.id) + 1
      && t.player == s.player
  {
    RunSingle(s, BuyItem(item, item.price));
  }

  // ----- the catalogue lookup of the sell and appraisal tabs -----

  /** A JavaScript value as the lookup sees it: a backpack entry is an
      object, while catalogue ids are strings. */
  datatype JsValue = JsString(text: string) | JsObject(entry: Stack<ItemId>)

  /** `===`: strings are equal when their text is; a string never equals an object. */
  predicate StrictEquals(a: JsValue, b: JsValue)
  {
    a.JsString? && b.JsString? && a.text == b.text
  }

  /** `ITEMS.find(i => i.id === v)` */
  function FindMatching(items: seq<ItemDef>, v: JsValue): (r: Option<ItemDef>)
    ensures r.Some? ==> r.value in items
  {
    if |items| == 0 then None
    else if StrictEquals(JsString(items[0].id), v) then Some(items[0])
    else FindMatching(items[1..], v)
  }

  /** The lookup with a backpack entry never finds anything. */
  lemma {:induction false} EntryNeverMatches(items: seq<ItemDef>, e: Stack<ItemId>)
    ensures FindMatching(items, JsObject(e)) == None
  {
    if |items| > 0 {
      EntryNeverMatches(items[1..], e);
    }
  }

  /** With a string, the lookup is the catalogue lookup by id: only string
      entries would ever be found. */
  lemma {:induction false} StringMatchesById(items: seq<ItemDef>, id: ItemId)
    ensures FindMatching(items, JsString(id)) == FindItemIn(items, id)
  {
    if |items| > 0 {
      StringMatchesById(items[1..], id);
    }
  }

  const TypeError := "TypeError: Cannot read properties of undefined (reading 'price')"

  /** `sellItem` as written: the lookup passes the whole entry, finds no
      item, and reading its price throws before anything is dispatched. */
  function SellAsWritten(s: GameState, index: int): Result<seq<Action>, string>
    requires 0 <= index < |s.inventory|
  {
    match FindMatching(ITEMS, JsObject(s.inventory[index]))
    case Some(item) => Ok([SellItem(index, item.price / 2)])
    case None => Err(TypeError)
  }

  /** No sale ever goes through as written. */
  lemma SellAlwaysThrows(s: GameState, index: int)
    requires 0 <= index < |s.inventory|
    ensures SellAsWritten(s, index) == Err(TypeError)
  {
    EntryNeverMatches(ITEMS, s.inventory[index]);
  }

  /** What a button of the sell tab shows: a name and a payout. */
  datatype SellLabel = SellLabel(name: string, payout: int)

  /** The label for a lookup result: `item?.name || '???'` and
      `floor((item?.price || 0) * 0.5)`. */
  function LabelFor(found: Option<ItemDef>): (l: SellLabel)
    ensures found.None? ==> l == SellLabel("???", 0)
    ensures found.Some? ==> 2 * l.payout <= found.value.price < 2 * l.payout + 2
  {
    match found
    case None => SellLabel("???", 0)
    case Some(item) => SellLabel(if item.name == "" then "???" else item.name, item.price / 2)
  }

  /** The sell tab's button as written: like `sellItem`, it looks up the
      whole backpack entry. */
  function SellLabelAsWritten(e: Stack<ItemId>): SellLabel
  {
    LabelFor(FindMatching(ITEMS, JsObject(e)))
  }

  /** As written every sell button reads "???" and "+0". */
  lemma SellLabelShowsNothing(e: Stack<ItemId>)
    ensures SellLabelAsWritten(e) == SellLabel("???", 0)
  {
    EntryNeverMatches(ITEMS, e);
  }

  /** The payout the sell button shows once the entry is looked up by its
      id: half the catalogue price rounded down, at least 2 for a catalogue
      item, and 0 for an id outside the catalogue (`item?.price || 0`). */
  function Payout(id: ItemId): (gold: int)
    ensures InCatalogue(id) ==> 2 * gold <= FindItem(id).value.price < 2 * gold + 2
    ensures InCatalogue(id) ==> gold >= 2
    ensures !InCatalogue(id) ==> gold == 0
  {
    var found := FindItem(id);
    if found.Some? then
      CataloguePriceAtLeastFive(found.value);
      LabelFor(found).payout
    else LabelFor(found).payout
  }

  /** The corrected button shows a larger payout than the as-written one
      for every catalogue item. */
  lemma CorrectedLabelPays(e: Stack<ItemId>)
    requires InCatalogue(e.id)
    ensures Payout(e.id) > SellLabelAsWritten(e).payout == 0
  {
    SellLabelShowsNothing(e);
  }

  /** `sellItem` looking the entry up by its id: one unit goes for the
      payout the corrected button shows. An id outside the catalogue still
      finds nothing, and line 43 then reads the price of `undefined`. */
  function Sell(s: GameState, index: int): (r: Result<seq<Action>, string>)
    requires 0 <= index < |s.inventory|
    ensures r.Ok? <==> InCatalogue(s.inventory[index].id)
    ensures r.Ok? ==> r.value == [SellItem(index, Payout(s.inventory[index].id))]
    ensures r.Err? ==> r.error == TypeError
  {
    match FindItem(s.inventory[index].id)
    case Some(item) => Ok([SellItem(index, item.price / 2)])
    case None => Err(TypeError)
  }

  /** A sale of a catalogue item takes one unit of that stack, no other
      units, and pays half the catalogue price, at least 2 gold. */
  lemma SellOutcome(s: GameState, index: int)
    requires 0 <= index < |s.inventory| && Positive(s.inventory)
    ensures Sell(s, index).Ok? ==>
      var acts := Sell(s, index).value;
      Runs(s, acts)
      && var t := Run(s, acts);
      var id := s.inventory[index].id;
      t.resources.gold == s.resources.gold + Payout(id)
      && Payout(id) >= 2
      && Units(t.inventory, id) == Units(s.inventory, id) - 1
      && (forall x :: x != id ==> Units(t.inventory, x) == Units(s.inventory, x))
  {
    var id := s.inventory[index].id;
    if InCatalogue(id) {
      RunSingle(s, SellItem(index, Payout(id)));
    }
  }

  /** The relic a descent finds has no id, so even the corrected sale throws
      for it, as line 43 does. */
  lemma IdlessRelicIsUnsellable(s: GameState, index: int)
    requires 0 <= index < |s.inventory| && s.inventory[index].id == MissingId
    ensures Sell(s, index) == Err(TypeError)
  {
    MissingIdOutsideCatalogue();
  }

  lemma MissingIdOutsideCatalogue()
    ensures !InCatalogue(MissingId)
  {
    assert forall k :: 0 <= k < |ITEMS| ==> ITEMS[k].id != MissingId;
  }

  /** The cheapest catalogue item, the stone, costs 5. */
  lemma CataloguePriceAtLeastFive(item: ItemDef)
    requires item in ITEMS
    ensures item.price >= 5
  {
    assert forall k :: 0 <= k < |ITEMS| ==> ITEMS[k].price >= 5;
  }

  // ----- the appraisal tab -----

  /** The backpack positions the appraisal tab offers as written: those
      whose lookup yields a `relic_raw` item. */
  function AppraisalOfferAsWritten(inv: Inv<ItemId>): (offer: seq<int>)
    ensures forall k :: k in offer ==> 0 <= k < |inv|
  {
    if |inv| == 0 then []
    else
      var rest := AppraisalOfferAsWritten(inv[..|inv| - 1]);
      var found := FindMatching(ITEMS, JsObject(inv[|inv| - 1]));
      if found.Some? && found.value.kind == RelicRaw then rest + [|inv| - 1] else rest
  }

  /** As written, the appraisal tab never offers anything. */
  lemma {:induction false} AppraisalNeverOffered(inv: Inv<ItemId>)
    ensures AppraisalOfferAsWritten(inv) == []
    decreases |inv|
  {
    if |inv| > 0 {
      AppraisalNeverOffered(inv[..|inv| - 1]);
      EntryNeverMatches(ITEMS, inv[|inv| - 1]);
    }
  }

  predicate Appraisable(id: ItemId)
  {
    FindItem(id).Some? && FindItem(id).value.kind == RelicRaw
  }

  /** The positions of the backpack whose id satisfies `p`, in order. */
  function Positions(inv: Inv<ItemId>, p: ItemId -> bool): (r: seq<int>)
    ensures forall k :: k in r <==> 0 <= k < |inv| && p(inv[k].id)
  {
    if |inv| == 0 then []
    else
      var rest := Positions(inv[..|inv| - 1], p);
      assert forall k :: 0 <= k < |inv| - 1 ==> inv[..|inv| - 1][k] == inv[k];
      if p(inv[|inv| - 1].id) then rest + [|inv| - 1] else rest
  }

  /** The positions holding raw relics, looked up by id, in backpack order. */
  function AppraisalOffer(inv: Inv<ItemId>): (offer: seq<int>)
    ensures forall k :: k in offer <==> 0 <= k < |inv| && Appraisable(inv[k].id)
  {
    Positions(inv, Appraisable)
  }

  /** The only raw relic in the catalogue is the dirty relic. */
  lemma OnlyDirtyRelicIsAppraisable(id: ItemId)
    ensures Appraisable(id) <==> id == "dirty_relic"
  {
    if Appraisable(id) {
      AppraisableIsDirty(id);
    } else if id == "dirty_relic" {
      DirtyIsAppraisable();
    }
  }

  lemma AppraisableIsDirty(id: ItemId)
    requires Appraisable(id)
    ensures id == "dirty_relic"
  {
    var item := FindItem(id).value;
    var k :| 0 <= k < |ITEMS| && ITEMS[k] == item;
    RawRelicsAreDirty(k);
  }

  lemma DirtyIsAppraisable()
    ensures Appraisable("dirty_relic")
  {
    var id := "dirty_relic";
    assert ITEMS[10].id == id;
    var item := FindItem(id).value;
    var k :| 0 <= k < |ITEMS| && ITEMS[k] == item;
    ItemIdsDistinct();
    assert k == 10;
  }

  lemma RawRelicsAreDirty(k: int)
    requires 0 <= k < |ITEMS|
    ensures ITEMS[k].kind == RelicRaw <==> k == 10
  {
  }

  /** Clicking an offered relic: the appraisal, with no check of the purse. */
  function AppraiseClick(s: GameState, index: int, roll: real, pick: real): (acts: seq<Action>)
    ensures acts != [] <==> index in AppraisalOffer(s.inventory)
    ensures acts != [] ==> acts == [AppraiseItem(index, roll, pick)]
  {
    if index in AppraisalOffer(s.inventory) then [AppraiseItem(index, roll, pick)] else []
  }

  /** An offered appraisal goes through whatever the purse holds: with less
      than 50 gold it leaves the player in debt. */
  lemma AppraisalOverdraws(s: GameState, index: int, roll: real, pick: real)
    requires index in AppraisalOffer(s.inventory) && IsDraw(roll) && IsDraw(pick)
    ensures var acts := AppraiseClick(s, index, roll, pick);
      Runs(s, acts)
      && Run(s, acts).resources.gold == s.resources.gold - 50
      && (s.resources.gold < 50 ==> Run(s, acts).resources.gold < 0)
  {
    RunSingle(s, AppraiseItem(index, roll, pick));
  }
}
