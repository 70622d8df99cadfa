/** The exploration handlers of src/features/exploration/StatusPanel.jsx:
    name editing, descending (with the encounter routing), ascending, and
    the surface-only shop button. Each handler is the list of actions it
    dispatches, computed from the state the handler closed over. */
module StatusPanel {
  import opened Wrappers
  import opened Content
  import opened Inventory
  import opened Events
  import opened State
  import opened Draws
  import opened Text
  import opened Reducer

  /** `handleNameSubmit`: a name that is not blank is stored trimmed. */
  function HandleNameSubmit(typed: string): (acts: seq<Action>)
    ensures acts == [] <==> forall i :: 0 <= i < |typed| ==> IsWhite(typed[i])
    ensures acts != [] ==> acts == [SetName(Trim(typed))] && |Trim(typed)| > 0
  {
    var name := Trim(typed);
    if name != "" then [SetName(name)] else []
  }

  /** How `handleDescend` routes a generated event: loot and relics become
      LOOT_FOUND, atmosphere a log line, a monster a pending event, and an
      NPC nothing. A relic has no `id`. */
  function Route(e: Event): (acts: seq<Action>)
    ensures |acts| <= 1
    ensures acts == [] <==> e.InteractionEvent?
  {
    match e
    case LootEvent(item, _) => [LootFound(item.id, item.name)]
    case RelicEvent(name, _) => [LootFound(MissingId, name)]
    case FlavorEvent(text) => [AddLog(text)]
    case CombatEvent(_, _) => [TriggerEvent(e)]
    case InteractionEvent(_, _) => []
  }

  /** What a handler dispatched, and whether it then threw. */
  datatype Handled = Handled(acts: seq<Action>, threw: bool)

  /** `handleDescend`, given what the generator returned for the depth ten
      metres down: DESCEND always goes out first; a generator failure then
      escapes the handler. */
  function HandleDescend(outcome: Result<Event, string>): (h: Handled)
    ensures |h.acts| >= 1 && h.acts[0] == Descend(10, 2)
    ensures h.threw <==> outcome.Err?
    ensures h.threw ==> h.acts == [Descend(10, 2)]
  {
    match outcome
    case Ok(e) => Handled([Descend(10, 2)] + Route(e), false)
    case Err(_) => Handled([Descend(10, 2)], true)
  }

  /** `handleDescend` as the button runs it: the generator is asked for the
      depth ten metres below the current one. It throws exactly in the NPC
      band, and otherwise one routed action follows DESCEND. */
  function OnDescend(s: GameState, chance: real, pick: real): (h: Handled)
    requires IsDraw(chance) && IsDraw(pick)
    ensures |h.acts| >= 1 && h.acts[0] == Descend(10, 2)
    ensures h.threw <==> 0.4 <= chance < 0.45
    ensures h.threw ==> h.acts == [Descend(10, 2)]
    ensures !h.threw ==> |h.acts| == 2
  {
    HandleDescend(GenerateEvent(s.player.depth + 10, chance, pick))
  }

  /** `handleAscend`: nothing at the surface; otherwise the curse deals
      5 to 9 damage, is logged, and the player climbs 50 m at the default cost. */
  function HandleAscend(s: GameState, r: real): (acts: seq<Action>)
    requires IsDraw(r)
    ensures s.player.depth <= 0 <==> acts == []
    ensures acts != [] ==> |acts| == 3 && acts[0].TakeDamage? && 5 <= acts[0].damage <= 9
                           && acts[1].AddLog? && acts[2] == Ascend(50, 0)
  {
    if s.player.depth <= 0 then []
    else
      var damage := Pick(r, 5) + 5;
      [TakeDamage(damage), AddLog(CurseLine(damage)), Ascend(50, 0)]
  }

  function CurseLine(damage: int): string
  {
    "A Maldição do Abismo te atinge! -" + IntToString(damage) + " HP"
  }

  /** The shop button is disabled below the surface. */
  predicate ShopOpen(s: GameState)
  {
    s.player.depth <= 0
  }

  /** A descent lands ten metres down and costs 2 hunger (2 hp per missing
      point). When the generator succeeded, its routed event is applied on
      top; when it failed, only DESCEND took effect. */
  lemma DescendOutcome(s: GameState, out: Result<Event, string>)
    requires out.Ok? ==> !out.value.InteractionEvent?
    ensures var h := HandleDescend(out);
      var t := Step(s, Descend(10, 2));
      Runs(s, h.acts)
      && t.player.depth == s.player.depth + 10
      && t.player.hunger == Max(0, s.player.hunger - 2)
      && t.player.hp == Max(0, s.player.hp - 2 * Max(0, 2 - s.player.hunger))
      && (h.threw ==> Run(s, h.acts) == t)
      && (!h.threw ==> |h.acts| == 2 && Run(s, h.acts) == Step(t, h.acts[1]))
  {
    var h := HandleDescend(out);
    var t := Step(s, Descend(10, 2));
    if out.Ok? {
      var a := Route(out.value)[0];
      assert h.acts == [Descend(10, 2)] + [a];
      RunSingle(t, a);
      RunCons(s, Descend(10, 2), [a]);
    } else {
      RunSingle(s, Descend(10, 2));
    }
  }

  /** The descent's generator runs for the depth ten metres down, never
      yields an NPC, and the handler throws exactly in the NPC band. */
  lemma DescendThrowsInNpcBand(s: GameState, chance: real, pick: real)
    requires IsDraw(chance) && IsDraw(pick)
    ensures var out := GenerateEvent(s.player.depth + 10, chance, pick);
      (out.Ok? ==> !out.value.InteractionEvent?)
      && (HandleDescend(out).threw <==> 0.4 <= chance < 0.45)
  {
  }

  /** Below 0.1 the descent meets a monster, left pending as the event. */
  lemma DescendMeetsMonster(depth: int, chance: real, pick: real)
    requires IsDraw(chance) && IsDraw(pick) && chance < 0.1
    ensures var acts := HandleDescend(GenerateEvent(depth, chance, pick)).acts;
      |acts| == 2 && acts[1].TriggerEvent? && acts[1].event.CombatEvent? && acts[1].event.monster in MONSTERS
  {
    var out := GenerateEvent(depth, chance, pick);
    MonsterBand(depth, chance, pick);
    assert HandleDescend(out).acts == [Descend(10, 2), TriggerEvent(out.value)];
  }

  /** From 0.1 to 0.4 the descent finds a unit of a findable catalogue item. */
  lemma DescendFindsLoot(depth: int, chance: real, pick: real)
    requires IsDraw(chance) && IsDraw(pick) && 0.1 <= chance < 0.4
    ensures var acts := HandleDescend(GenerateEvent(depth, chance, pick)).acts;
      |acts| == 2 && acts[1].LootFound? && InCatalogue(acts[1].id)
  {
    var out := GenerateEvent(depth, chance, pick);
    LootBand(depth, chance, pick);
    InCatalogueOf(out.value.item);
    RouteLoot(out.value);
  }

  lemma RouteLoot(e: Event)
    requires e.LootEvent?
    ensures HandleDescend(Ok(e)).acts == [Descend(10, 2), LootFound(e.item.id, e.item.name)]
  {
  }

  /** From 0.45 to 0.55, deeper than 2000 m, the descent finds the relic,
      which has no id. */
  lemma DescendFindsRelic(depth: int, chance: real, pick: real)
    requires IsDraw(chance) && IsDraw(pick) && 0.45 <= chance < 0.55 && depth > 2000
    ensures HandleDescend(GenerateEvent(depth, chance, pick)).acts == [Descend(10, 2), LootFound(MissingId, RelicName)]
  {
    UpperBand(depth, chance, pick);
  }

  /** Elsewhere in the upper bands the descent only logs an atmosphere line. */
  lemma DescendSeesAtmosphere(depth: int, chance: real, pick: real)
    requires IsDraw(chance) && IsDraw(pick) && 0.45 <= chance && !(chance < 0.55 && depth > 2000)
    ensures var acts := HandleDescend(GenerateEvent(depth, chance, pick)).acts;
      |acts| == 2 && acts[1].AddLog? && acts[1].line in ATMOS
  {
    UpperBand(depth, chance, pick);
    var line := ATMOS[Pick(pick, |ATMOS|)];
    assert HandleDescend(Ok(FlavorEvent(line))).acts == [Descend(10, 2), AddLog(line)];
  }

  /** Below the surface an ascent costs the curse's 5 to 9 hp first, then
      the climb: depth falls by 50 (not below 0), 2 hunger (3 hp per missing
      point), the curse flares to 100 and the player is dead exactly at 0 hp. */
  lemma AscendOutcome(s: GameState, r: real)
    requires IsDraw(r) && s.player.depth > 0
    ensures var acts := HandleAscend(s, r);
      Runs(s, acts)
      && var t := Run(s, acts);
      t.player.depth == Max(0, s.player.depth - 50)
      && t.player.hp <= Max(0, s.player.hp - 5)
      && t.player.hp == Max(0, Max(0, s.player.hp - acts[0].damage) - 3 * Max(0, 2 - s.player.hunger))
      && (s.player.hunger >= 2 ==> t.player.hp >= Max(0, s.player.hp - 9))
      && t.player.hunger == Max(0, s.player.hunger - 2)
      && (t.status.isDead <==> t.player.hp == 0)
      && t.status.curseIntensity == 100
  {
    var acts := HandleAscend(s, r);
    AscendRun(s, r);
    var s1 := TakeDamageStep(s, acts[0].damage);
    var s2 := AddLogStep(s1, acts[1].line);
    assert s2.player == s1.player;
  }

  /** With the NPC table supplied to the generator the descent never throws,
      but an NPC met in range is dropped: the handler has no branch for it,
      so only DESCEND goes out. */
  lemma DescendWithNpcTable(npcs: seq<Npc>, depth: int, chance: real, pick: real)
    requires IsDraw(chance) && IsDraw(pick)
    ensures var h := HandleDescend(Ok(GenerateEventWith(npcs, depth, chance, pick)));
      !h.threw
      && (h.acts == [Descend(10, 2)] <==>
            0.4 <= chance < 0.45 && exists n :: n in npcs && n.minDepth <= depth <= n.maxDepth)
  {
    GenerateEventWithNpcs(npcs, depth, chance, pick);
    var e := GenerateEventWith(npcs, depth, chance, pick);
    assert HandleDescend(Ok(e)).acts == [Descend(10, 2)] + Route(e);
  }

  /** A descent remembers at most one new id, and that id is one of the
      loot pool's or the missing id of the relic: the found list grows
      through descents by nothing else. */
  lemma DescentRemembersOnlyLoot(s: GameState, chance: real, pick: real)
    requires IsDraw(chance) && IsDraw(pick)
    ensures Runs(s, OnDescend(s, chance, pick).acts)
    ensures var found := s.stats.foundRelicIds;
      var f := Run(s, OnDescend(s, chance, pick).acts).stats.foundRelicIds;
      f == found
      || (|f| == |found| + 1 && f[..|found|] == found && (f[|found|] in LOOT_IDS || f[|found|] == MissingId))
  {
    var depth := s.player.depth + 10;
    var out := GenerateEvent(depth, chance, pick);
    var h := HandleDescend(out);
    DescendOutcome(s, out);
    var t := Step(s, Descend(10, 2));
    assert t.stats == s.stats;
    if !h.threw {
      var a := h.acts[1];
      FoundGrowsOnlyByLootOrAppraisal(t, a);
      if 0.1 <= chance < 0.4 {
        LootBand(depth, chance, pick);
        assert a == LootFound(out.value.item.id, out.value.item.name);
      } else if chance < 0.1 {
        MonsterBand(depth, chance, pick);
        assert a.TriggerEvent?;
      } else {
        UpperBand(depth, chance, pick);
        assert a.AddLog? || a == LootFound(MissingId, RelicName);
      }
    }
  }

  /** An id a descent can remember: a loot pool id, or the relic's missing id. */
  predicate FoundByLoot(id: ItemId)
  {
    id in LOOT_IDS || id == MissingId
  }

  /** A found list made only of such ids stays so across a descent. */
  lemma DescentKeepsFoundByLoot(s: GameState, chance: real, pick: real)
    requires IsDraw(chance) && IsDraw(pick)
    requires forall i :: 0 <= i < |s.stats.foundRelicIds| ==> FoundByLoot(s.stats.foundRelicIds[i])
    ensures Runs(s, OnDescend(s, chance, pick).acts)
    ensures var f := Run(s, OnDescend(s, chance, pick).acts).stats.foundRelicIds;
      forall i :: 0 <= i < |f| ==> FoundByLoot(f[i])
  {
    DescentRemembersOnlyLoot(s, chance, pick);
    var found := s.stats.foundRelicIds;
    var f := Run(s, OnDescend(s, chance, pick).acts).stats.foundRelicIds;
    if f != found {
      assert forall i :: 0 <= i < |found| ==> f[i] == found[i];
    }
  }

  /** The shop closes with the first step down from the surface, whatever
      the descent then meets. */
  lemma DescentClosesShop(s: GameState, out: Result<Event, string>)
    requires out.Ok? ==> !out.value.InteractionEvent?
    requires s.player.depth >= 0
    ensures Runs(s, HandleDescend(out).acts) && !ShopOpen(Run(s, HandleDescend(out).acts))
  {
    var h := HandleDescend(out);
    DescendOutcome(s, out);
    if !h.threw {
      var t := Step(s, Descend(10, 2));
      var a := h.acts[1];
      assert a.LootFound? || a.AddLog? || a.TriggerEvent?;
      assert Step(t, a).player.depth == t.player.depth;
    }
  }

  /** An ascent reopens the shop exactly when it starts within 50 m of the surface. */
  lemma ClimbOpensShop(s: GameState, r: real)
    requires IsDraw(r) && s.player.depth > 0
    ensures Runs(s, HandleAscend(s, r))
    ensures ShopOpen(Run(s, HandleAscend(s, r))) <==> s.player.depth <= 50
  {
    AscendOutcome(s, r);
  }

  /** The three dispatches of an ascent, as one composition of steps. */
  lemma AscendRun(s: GameState, r: real)
    requires IsDraw(r) && s.player.depth > 0
    ensures var acts := HandleAscend(s, r);
      Runs(s, acts)
      && Run(s, acts) == AscendStep(AddLogStep(TakeDamageStep(s, acts[0].damage), acts[1].line), 50, 0)
  {
    var d := Pick(r, 5) + 5;
    var a, b, c := TakeDamage(d), AddLog(CurseLine(d)), Ascend(50, 0);
    assert HandleAscend(s, r) == [a, b, c];
    RunThree(s, a, b, c);
  }
}
