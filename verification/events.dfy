/** The encounter generator `generateEvent(depth)` of src/utils/eventSystem.js,
    with its two `Math.random()` draws passed in. */
module Events {
  import opened Wrappers
  import opened Content
  import opened Draws

  /** What an NPC option charges. Zero fields are skipped (the reducer tests
      each one for truthiness); `humanityAll` is `humanity: 'all'`. */
  datatype NpcCost = NpcCost(gold: int, hp: int, hunger: int, maxHpPercent: real, humanityAll: bool)

  /** What an NPC option grants, by `reward.type`; `OtherReward` is any other type. */
  datatype Reward = BuffStr(val: int) | GiveItem(id: ItemId) | RestoreAll | RevealMap | OtherReward

  datatype NpcOption = NpcOption(id: string, caption: string, cost: NpcCost, reward: Reward)

  /** An NPC record as the generator and the event modal read it. */
  datatype Npc = Npc(id: string, name: string, dialogue: string, minDepth: int, maxDepth: int,
                     options: seq<NpcOption>)

  /** The `{ type, data, text }` records the generator returns. */
  datatype Event =
    | CombatEvent(monster: MonsterDef, text: string)
    | LootEvent(item: ItemDef, text: string)
    | InteractionEvent(npc: Npc, text: string)
    | RelicEvent(name: string, text: string)
    | FlavorEvent(text: string)

  /** The atmosphere lines of the FLAVOR outcome. */
  const ATMOS: seq<string> := [
    "O silêncio é ensurdecedor.",
    "Você ouve gritos distantes.",
    "A pressão aumenta.",
    "Sua lanterna pisca.",
    "Você sente que está sendo observado.",
    "O cheiro de ozônio preenche o ar."
  ]

  /** The error the NPC band raises: the module reads `NPCS` without importing it. */
  const NpcsUndefined := "ReferenceError: NPCS is not defined"

  const RelicName := "Artefato Desconhecido"

  /** Items an expedition can stumble on: loot, materials and cheap consumables. */
  predicate Findable(i: ItemDef)
  {
    i.kind == Loot || i.kind == Material || (i.kind == Consumable && i.price <= 50)
  }

  function LootPool(): (pool: seq<ItemDef>)
    ensures |pool| > 0
    ensures forall x :: x in pool <==> x in ITEMS && Findable(x)
  {
    assert ITEMS[0] in ITEMS && Findable(ITEMS[0]);
    Select(ITEMS, Findable)
  }

  function MonsterEvent(m: MonsterDef): Event
  {
    CombatEvent(m, "Um " + m.name + " apareceu das sombras!")
  }

  function LootEventOf(i: ItemDef): Event
  {
    LootEvent(i, "Você encontrou " + i.name + " escondido.")
  }

  /** The bands after the NPC band: a relic below 2000 m, else atmosphere. */
  function RelicOrFlavor(depth: int, chance: real, pick: real): Event
    requires IsDraw(pick)
  {
    if chance < 0.55 && depth > 2000 then RelicEvent(RelicName, "Um brilho estranho emite calor...")
    else FlavorEvent(ATMOS[Pick(pick, |ATMOS|)])
  }

  /** `generateEvent(depth)` as written: `chance` is the band draw, `pick` the
      draw that selects within the band. The NPC band always fails. */
  function GenerateEvent(depth: int, chance: real, pick: real): (r: Result<Event, string>)
    requires IsDraw(chance) && IsDraw(pick)
    ensures r.Err? <==> 0.4 <= chance < 0.45
    ensures r.Ok? ==> !r.value.InteractionEvent?
  {
    if chance < 0.1 then Ok(MonsterEvent(MONSTERS[Pick(pick, |MONSTERS|)]))
    else if chance < 0.4 then
      var pool := LootPool();
      Ok(LootEventOf(pool[Pick(pick, |pool|)]))
    else if chance < 0.45 then Err(NpcsUndefined)
    else Ok(RelicOrFlavor(depth, chance, pick))
  }

  /** The NPCs whose depth range holds `depth`. */
  function Nearby(npcs: seq<Npc>, depth: int): (r: seq<Npc>)
    ensures forall n :: n in r <==> n in npcs && n.minDepth <= depth <= n.maxDepth
  {
    Select(npcs, (n: Npc) => n.minDepth <= depth <= n.maxDepth)
  }

  /** The generator with the NPC table it evidently meant to import, passed in:
      the NPC band picks among the NPCs in range, and falls through to the
      later bands when there are none. */
  function GenerateEventWith(npcs: seq<Npc>, depth: int, chance: real, pick: real): (e: Event)
    requires IsDraw(chance) && IsDraw(pick)
  {
    if chance < 0.1 then MonsterEvent(MONSTERS[Pick(pick, |MONSTERS|)])
    else if chance < 0.4 then
      var pool := LootPool();
      LootEventOf(pool[Pick(pick, |pool|)])
    else if chance < 0.45 && |Nearby(npcs, depth)| > 0 then
      var near := Nearby(npcs, depth);
      var npc := near[Pick(pick, |near|)];
      InteractionEvent(npc, npc.dialogue)
    else RelicOrFlavor(depth, chance, pick)
  }

  /** Each band of the draw yields its kind of outcome: a monster from the
      whole list below 0.1, a findable catalogue item below 0.4, the failure
      below 0.45, a relic below 0.55 only deeper than 2000, else a fixed
      atmosphere line. */
  lemma GenerateEventBands(depth: int, chance: real, pick: real)
    requires IsDraw(chance) && IsDraw(pick)
    ensures var r := GenerateEvent(depth, chance, pick);
      chance < 0.1 ==> r.Ok? && r.value.CombatEvent? && r.value.monster in MONSTERS
    ensures var r := GenerateEvent(depth, chance, pick);
      0.1 <= chance < 0.4 ==> r.Ok? && r.value.LootEvent? && r.value.item in ITEMS && Findable(r.value.item)
    ensures var r := GenerateEvent(depth, chance, pick);
      (r.Ok? && r.value.RelicEvent?) <==> 0.45 <= chance < 0.55 && depth > 2000
    ensures var r := GenerateEvent(depth, chance, pick);
      (r.Ok? && r.value.FlavorEvent?) <==> 0.45 <= chance && !(chance < 0.55 && depth > 2000)
    ensures var r := GenerateEvent(depth, chance, pick);
      r.Ok? && r.value.FlavorEvent? ==> r.value.text in ATMOS
  {
  }

  /** The monster band draws from the bestiary. */
  lemma MonsterBand(depth: int, chance: real, pick: real)
    requires IsDraw(chance) && IsDraw(pick) && chance < 0.1
    ensures var r := GenerateEvent(depth, chance, pick);
      r.Ok? && r.value.CombatEvent? && r.value.monster in MONSTERS
  {
  }

  /** From 0.45 up the draw is a relic or an atmosphere line. */
  lemma UpperBand(depth: int, chance: real, pick: real)
    requires IsDraw(chance) && IsDraw(pick) && 0.45 <= chance
    ensures GenerateEvent(depth, chance, pick) ==
      if chance < 0.55 && depth > 2000 then Ok(RelicEvent(RelicName, "Um brilho estranho emite calor..."))
      else Ok(FlavorEvent(ATMOS[Pick(pick, |ATMOS|)]))
  {
  }

  /** The loot band draws from the catalogue's findable items, so its ids
      are those of the loot pool. */
  lemma LootBand(depth: int, chance: real, pick: real)
    requires IsDraw(chance) && IsDraw(pick) && 0.1 <= chance < 0.4
    ensures var r := GenerateEvent(depth, chance, pick);
      r.Ok? && r.value.LootEvent? && r.value.item in ITEMS && r.value.item.id in LOOT_IDS
  {
    var pool := LootPool();
    assert pool[Pick(pick, |pool|)] in pool;
    LootPoolIds();
  }

  /** The ids of the findable items: the three materials, the three loot
      items, and the two consumables priced at most 50. */
  const LOOT_IDS: set<ItemId> :=
    {"scrap", "abyss_dust", "monster_bone", "ration", "meat", "stone", "relic_shard", "sun_sphere"}

  /** A catalogue item is findable exactly when its id is one of the eight
      loot ids, so the loot pool yields nothing else. */
  lemma LootPoolIds()
    ensures forall k :: 0 <= k < |ITEMS| ==> (Findable(ITEMS[k]) <==> ITEMS[k].id in LOOT_IDS)
    ensures forall x :: x in LootPool() ==> x.id in LOOT_IDS
  {
    forall k | 0 <= k < |ITEMS|
      ensures Findable(ITEMS[k]) <==> ITEMS[k].id in LOOT_IDS
    {
      FindableByIndex(k);
    }
    forall x | x in LootPool()
      ensures x.id in LOOT_IDS
    {
      var k :| 0 <= k < |ITEMS| && ITEMS[k] == x;
      FindableByIndex(k);
    }
  }

  lemma FindableByIndex(k: int)
    requires 0 <= k < |ITEMS|
    ensures Findable(ITEMS[k]) <==> ITEMS[k].id in LOOT_IDS
  {
  }

  /** Eight loot ids, none of them the missing id of the relic outcome. */
  lemma LootIdsCount()
    ensures |LOOT_IDS| == 8 && MissingId !in LOOT_IDS
  {
  }

  /** Only the NPC and relic bands read the depth: at two depths the same
      draws give the same combat or loot outcome. */
  lemma CombatAndLootIgnoreDepth(d1: int, d2: int, chance: real, pick: real)
    requires IsDraw(chance) && IsDraw(pick) && chance < 0.4
    ensures GenerateEvent(d1, chance, pick) == GenerateEvent(d2, chance, pick)
  {
  }

  /** The NPC band fails at every depth, for every draw in it. */
  lemma NpcBandFails(depth: int, chance: real, pick: real)
    requires IsDraw(pick) && 0.4 <= chance < 0.45
    ensures GenerateEvent(depth, chance, pick) == Err(NpcsUndefined)
  {
  }

  /** With the table supplied, the NPC band yields an NPC in range whenever
      there is one, and agrees with the written generator everywhere else. */
  lemma GenerateEventWithNpcs(npcs: seq<Npc>, depth: int, chance: real, pick: real)
    requires IsDraw(chance) && IsDraw(pick)
    ensures var e := GenerateEventWith(npcs, depth, chance, pick);
      e.InteractionEvent? <==> 0.4 <= chance < 0.45 && exists n :: n in npcs && n.minDepth <= depth <= n.maxDepth
    ensures var e := GenerateEventWith(npcs, depth, chance, pick);
      e.InteractionEvent? ==> e.npc in npcs && e.npc.minDepth <= depth <= e.npc.maxDepth
    ensures var e := GenerateEventWith(npcs, depth, chance, pick);
      !e.InteractionEvent? && !(0.4 <= chance < 0.45) ==> GenerateEvent(depth, chance, pick) == Ok(e)
  {
    var near := Nearby(npcs, depth);
    if 0.4 <= chance < 0.45 && |near| == 0 {
      forall n | n in npcs ensures !(n.minDepth <= depth <= n.maxDepth) {
        assert n !in near;
      }
    }
    if 0.4 <= chance < 0.45 && |near| > 0 {
      assert near[0] in npcs;
    }
  }
}
