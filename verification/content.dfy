/** The static content tables of src/lib/constants.js: items, monsters,
    recipes and depth layers, with the facts that relate them. */
module Content {
  import opened Wrappers

  /** Item ids are plain strings: several ids the game hands out (the
      appraisal results) are not in the catalogue. */
  type ItemId = string

  /** Stands for JavaScript's `undefined` where the game uses an item record
      that has no `id` (the relic event's payload). No catalogue id is empty. */
  const MissingId: ItemId := ""

  datatype ItemType = Material | Consumable | Loot | RelicRaw | Relic | Equip

  datatype Slot = Weapon | Body | Charm

  /** The numeric stat deltas of an item's `effect`; an absent field is 0,
      which every reader treats the same way (`x || 0`, or a falsy test). */
  datatype Effect = Effect(hp: int, hunger: int, atk: int, str: int)

  const NoEffect := Effect(0, 0, 0, 0)

  /** `rarity` 0 stands for an absent rarity (`a.rarity || 10` reads both as 10). */
  datatype ItemDef = ItemDef(id: ItemId, name: string, kind: ItemType, price: int,
                             effect: Effect, slot: Option<Slot>, rarity: int)

  function Plain(id: ItemId, name: string, kind: ItemType, price: int): ItemDef
  {
    ItemDef(id, name, kind, price, NoEffect, None, 0)
  }

  const ITEMS: seq<ItemDef> := [
    Plain("scrap", "Sucata", Material, 10),
    Plain("abyss_dust", "Pó do Abismo", Material, 25),
    Plain("monster_bone", "Osso", Material, 15),
    ItemDef("ration", "Ração", Consumable, 25, Effect(0, 25, 0, 0), None, 0),
    ItemDef("medkit", "Kit Médico", Consumable, 100, Effect(50, 0, 0, 0), None, 0),
    ItemDef("meat", "Carne Crua", Consumable, 40, Effect(-5, 40, 0, 0), None, 0),
    ItemDef("cooked_meat", "Bife", Consumable, 60, Effect(10, 60, 0, 0), None, 0),
    Plain("stone", "Pedra", Loot, 5),
    Plain("relic_shard", "Fragmento de Relíquia", Loot, 100),
    Plain("sun_sphere", "Esfera Solar", Loot, 150),
    ItemDef("dirty_relic", "Relíquia Suja", RelicRaw, 50, NoEffect, None, 1),
    Plain("white_whistle", "Apito Branco", Relic, 5000),
    Plain("abyss_map", "Mapa Antigo", Relic, 800),
    Plain("star_compass_broken", "Bússola Quebrada", Relic, 200),
    ItemDef("pickaxe", "Picareta", Equip, 500, Effect(0, 0, 20, 0), Some(Weapon), 0),
    ItemDef("star_compass", "Bússola Estelar", Equip, 1000, NoEffect, Some(Charm), 0),
    ItemDef("blaze_reap", "Blaze Reap", Equip, 2500, Effect(0, 0, 80, 0), Some(Weapon), 0)
  ]

  datatype MonsterDef = MonsterDef(name: string, power: int, drops: seq<ItemId>, chance: real)

  const MONSTERS: seq<MonsterDef> := [
    MonsterDef("Bico de Martelo", 20, ["meat", "monster_bone"], 0.6),
    MonsterDef("Serpente", 50, ["meat", "abyss_dust"], 0.4),
    MonsterDef("Devorador", 120, ["relic_shard", "monster_bone"], 0.3)
  ]

  /** A recipe: its result and the `[id, count]` pairs of its `req` object, in key order. */
  datatype Recipe = Recipe(res: ItemId, req: seq<(ItemId, int)>)

  const RECIPES: seq<Recipe> := [
    Recipe("cooked_meat", [("meat", 1)]),
    Recipe("medkit", [("scrap", 2), ("abyss_dust", 1)]),
    Recipe("pickaxe", [("scrap", 5), ("monster_bone", 2)])
  ]

  datatype Layer = Layer(name: string, min: int, max: int, curse: string)

  const LAYERS: seq<Layer> := [
    Layer("Borda do Abismo", 0, 1350, "Leve Tontura"),
    Layer("Floresta da Tentação", 1351, 2600, "Náusea Intensa"),
    Layer("A Grande Falha", 2601, 7000, "Alucinações"),
    Layer("Cálices de Gigantes", 7001, 12000, "Sangramento"),
    Layer("Mar de Cadáveres", 12001, 13000, "Perda dos Sentidos"),
    Layer("Capital sem Retorno", 13001, 15500, "Perda da Humanidade"),
    Layer("O Turbilhão Final", 15501, 99999, "Morte Certa")
  ]

  /** Whether some catalogue entry has this id. */
  predicate InCatalogue(id: ItemId)
  {
    exists i :: 0 <= i < |ITEMS| && ITEMS[i].id == id
  }

  /** `ITEMS.find(i => i.id === id)`: the first catalogue entry with that id. */
  function FindItem(id: ItemId): (r: Option<ItemDef>)
    ensures r.Some? <==> InCatalogue(id)
    ensures r.Some? ==> r.value in ITEMS && r.value.id == id
  {
    FindItemIn(ITEMS, id)
  }

  function FindItemIn(items: seq<ItemDef>, id: ItemId): (r: Option<ItemDef>)
    ensures r.Some? <==> exists i :: 0 <= i < |items| && items[i].id == id
    ensures r.Some? ==> r.value in items && r.value.id == id
  {
    if |items| == 0 then None
    else if items[0].id == id then Some(items[0])
    else FindItemIn(items[1..], id)
  }

  /** Any catalogue entry is found by its own id. */
  lemma InCatalogueOf(item: ItemDef)
    requires item in ITEMS
    ensures InCatalogue(item.id)
  {
    var k :| 0 <= k < |ITEMS| && ITEMS[k] == item;
  }

  /** `items.filter(p)`: the entries satisfying `p`, in their original order. */
  function Select<T(==,!new)>(items: seq<T>, p: T -> bool): (r: seq<T>)
    ensures |r| <= |items|
    ensures forall x :: x in r <==> x in items && p(x)
  {
    if |items| == 0 then []
    else (if p(items[0]) then [items[0]] else []) + Select(items[1..], p)
  }

  /** All catalogue ids are distinct. */
  lemma ItemIdsDistinct()
    ensures forall i, j :: 0 <= i < j < |ITEMS| ==> ITEMS[i].id != ITEMS[j].id
  {
  }

  /** Every recipe's requirements and result name catalogue items. */
  lemma RecipesUseCatalogueItems()
    ensures forall k :: 0 <= k < |RECIPES| ==> InCatalogue(RECIPES[k].res)
    ensures forall k, j :: 0 <= k < |RECIPES| && 0 <= j < |RECIPES[k].req| ==>
              InCatalogue(RECIPES[k].req[j].0)
  {
    assert ITEMS[6].id == "cooked_meat" && ITEMS[4].id == "medkit" && ITEMS[14].id == "pickaxe";
    assert ITEMS[5].id == "meat" && ITEMS[0].id == "scrap";
    assert ITEMS[1].id == "abyss_dust" && ITEMS[2].id == "monster_bone";
  }

  /** Every monster drop is a catalogue item and every power is positive, so a
      fresh monster (hp = 5 * power) starts with 100, 250 or 600 hp. */
  lemma MonstersWellFormed()
    ensures forall k, j :: 0 <= k < |MONSTERS| && 0 <= j < |MONSTERS[k].drops| ==>
              InCatalogue(MONSTERS[k].drops[j])
    ensures forall k :: 0 <= k < |MONSTERS| ==> MONSTERS[k].power > 0
    ensures [MONSTERS[0].power * 5, MONSTERS[1].power * 5, MONSTERS[2].power * 5] == [100, 250, 600]
  {
    assert ITEMS[5].id == "meat" && ITEMS[2].id == "monster_bone";
    assert ITEMS[1].id == "abyss_dust" && ITEMS[8].id == "relic_shard";
  }

  /** Every `equip` item names its slot, and that slot is `weapon` or `charm`. */
  lemma EquipItemsHaveSlots()
    ensures forall i :: 0 <= i < |ITEMS| && ITEMS[i].kind == Equip ==>
              ITEMS[i].slot == Some(Weapon) || ITEMS[i].slot == Some(Charm)
  {
  }

  /** `meat` is the only catalogue item with a negative effect (hp -5). */
  lemma MeatIsTheOnlyHarmfulItem()
    ensures forall i :: 0 <= i < |ITEMS| && ITEMS[i].id != "meat" ==>
              ITEMS[i].effect.hp >= 0 && ITEMS[i].effect.hunger >= 0
    ensures FindItem("meat").Some? && FindItem("meat").value.effect.hp == -5
  {
    assert ITEMS[5].id == "meat";
    assert forall i :: 0 <= i < |ITEMS| && i != 5 ==> ITEMS[i].effect.hp >= 0 && ITEMS[i].effect.hunger >= 0;
    assert FindItem("meat").value.id == "meat";
    ItemIdsDistinct();
  }

  /** The layers tile 0..99999 without gaps or overlaps. */
  lemma LayersContiguous()
    ensures LAYERS[0].min == 0 && LAYERS[|LAYERS| - 1].max == 99999
    ensures forall k :: 0 <= k < |LAYERS| ==> LAYERS[k].min <= LAYERS[k].max
    ensures forall k :: 0 <= k < |LAYERS| - 1 ==> LAYERS[k].max + 1 == LAYERS[k + 1].min
  {
  }

  predicate InLayer(l: Layer, depth: int)
  {
    l.min <= depth <= l.max
  }

  /** The layer lookup of src/features/exploration/VisualPanel.jsx:
      the first layer whose range holds `depth`, else the first layer. */
  function LayerAt(depth: int): (l: Layer)
    ensures 0 <= depth <= 99999 ==> InLayer(l, depth)
    ensures 0 <= depth <= 99999 ==> forall k :: 0 <= k < |LAYERS| && InLayer(LAYERS[k], depth) ==> LAYERS[k] == l
    ensures !(0 <= depth <= 99999) ==> l == LAYERS[0]
  {
    if 0 <= depth <= 99999 then
      assert InLayer(LAYERS[LayerIndex(depth)], depth);
      LayersDisjoint(depth);
      FindLayer(LAYERS, depth).GetOr(LAYERS[0])
    else
      FindLayer(LAYERS, depth).GetOr(LAYERS[0])
  }

  /** The index of the layer holding a depth in 0..99999. */
  function LayerIndex(depth: int): (k: nat)
    requires 0 <= depth <= 99999
    ensures k < |LAYERS| && InLayer(LAYERS[k], depth)
  {
    if depth <= 1350 then 0
    else if depth <= 2600 then 1
    else if depth <= 7000 then 2
    else if depth <= 12000 then 3
    else if depth <= 13000 then 4
    else if depth <= 15500 then 5
    else 6
  }

  /** No depth lies in two layers. */
  lemma LayersDisjoint(depth: int)
    ensures forall j, k :: 0 <= j < k < |LAYERS| && InLayer(LAYERS[j], depth) ==> !InLayer(LAYERS[k], depth)
  {
    LayersContiguous();
  }

  function FindLayer(ls: seq<Layer>, depth: int): (r: Option<Layer>)
    ensures r.Some? <==> exists k :: 0 <= k < |ls| && InLayer(ls[k], depth)
    ensures r.Some? ==> r.value in ls && InLayer(r.value, depth)
  {
    if |ls| == 0 then None
    else if InLayer(ls[0], depth) then Some(ls[0])
    else FindLayer(ls[1..], depth)
  }
}
