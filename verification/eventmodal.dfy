/** The encounter dialog of src/features/exploration/EventModal.jsx: the
    buttons it offers for the pending event and what each dispatches. */
module EventModal {
  import opened Wrappers
  import opened Content
  import opened Inventory
  import opened Events
  import opened State
  import opened Reducer

  /** `handleClose`; the dialog exists only while an event is pending. */
  function HandleClose(s: GameState): (acts: seq<Action>)
    ensures acts != [] <==> s.status.currentEvent.Some?
    ensures acts != [] ==> acts == [ClearEvent]
  {
    if s.status.currentEvent.Some? then [ClearEvent] else []
  }

  /** Whether the dialog shows its action button: not for atmosphere, and
      an NPC shows its options instead. */
  predicate ActionOffered(s: GameState)
  {
    s.status.currentEvent.Some?
    && !s.status.currentEvent.value.FlavorEvent?
    && !s.status.currentEvent.value.InteractionEvent?
  }

  /** `handleAction`: loot is taken for free, a monster is fought, and the
      event is then cleared. */
  function HandleAction(s: GameState): (acts: seq<Action>)
    ensures acts != [] <==> ActionOffered(s)
    ensures acts != [] ==> acts[|acts| - 1] == ClearEvent
    ensures acts != [] && s.status.currentEvent.value.LootEvent? ==>
              acts == [BuyItem(s.status.currentEvent.value.item, 0), ClearEvent]
    ensures acts != [] && s.status.currentEvent.value.CombatEvent? ==>
              acts == [CombatStart(s.status.currentEvent.value.monster), ClearEvent]
    ensures acts != [] && s.status.currentEvent.value.RelicEvent? ==> acts == [ClearEvent]
  {
    if !ActionOffered(s) then []
    else
      match s.status.currentEvent.value
      case LootEvent(item, _) => [BuyItem(item, 0), ClearEvent]
      case CombatEvent(m, _) => [CombatStart(m), ClearEvent]
      case _ => [ClearEvent]
  }

  /** The button of the `k`-th option of a pending NPC: the trade with
      exactly that option's price and reward, then closing. */
  function ChooseOption(s: GameState, k: int): (acts: seq<Action>)
    ensures acts != [] <==> s.status.currentEvent.Some? && s.status.currentEvent.value.InteractionEvent?
                            && 0 <= k < |s.status.currentEvent.value.npc.options|
    ensures acts != [] ==>
              var opt := s.status.currentEvent.value.npc.options[k];
              acts == [InteractNpc(opt.cost, opt.reward), ClearEvent]
  {
    match s.status.currentEvent
    case Some(InteractionEvent(npc, _)) =>
      if 0 <= k < |npc.options| then [InteractNpc(npc.options[k].cost, npc.options[k].reward), ClearEvent] else []
    case _ => []
  }

  /** Taking loot costs nothing and adds exactly one unit of the item; the
      event is gone afterwards. */
  lemma TakeLoot(s: GameState)
    requires s.status.currentEvent.Some? && s.status.currentEvent.value.LootEvent?
    ensures var acts := HandleAction(s);
      Runs(s, acts)
      && var t := Run(s, acts);
      var id := s.status.currentEvent.value.item.id;
      t.resources == s.resources
      && Units(t.inventory, id) == Units(s.inventory, id) + 1
      && (forall x :: x != id ==> Units(t.inventory, x) == Units(s.inventory, x))
      && t.status.currentEvent.None?
  {
    var item := s.status.currentEvent.value.item;
    var t1 := Step(s, BuyItem(item, 0));
    RunSingle(t1, ClearEvent);
    RunCons(s, BuyItem(item, 0), [ClearEvent]);
  }

  /** Fighting starts the combat with the monster at full health, 5 times
      its power, and clears the event. */
  lemma StartFight(s: GameState)
    requires s.status.currentEvent.Some? && s.status.currentEvent.value.CombatEvent?
    ensures var acts := HandleAction(s);
      Runs(s, acts)
      && var t := Run(s, acts);
      var m := s.status.currentEvent.value.monster;
      t.status.inCombat
      && t.status.currentMonster == Some(Monster(m, 5 * m.power, 5 * m.power))
      && t.status.currentEvent.None?
      && t.player == s.player && t.resources == s.resources && t.inventory == s.inventory
  {
    var m := s.status.currentEvent.value.monster;
    var t1 := Step(s, CombatStart(m));
    RunSingle(t1, ClearEvent);
    RunCons(s, CombatStart(m), [ClearEvent]);
  }

  /** Choosing an option applies that option's trade and closes the
      dialog, whether the trade was accepted or refused. */
  lemma TradeThenClose(s: GameState, k: int)
    requires s.status.currentEvent.Some? && s.status.currentEvent.value.InteractionEvent?
    requires 0 <= k < |s.status.currentEvent.value.npc.options|
    ensures var acts := ChooseOption(s, k);
      Runs(s, acts)
      && var opt := s.status.currentEvent.value.npc.options[k];
      Run(s, acts) == Step(s, InteractNpc(opt.cost, opt.reward)).(status := Run(s, acts).status)
      && Run(s, acts).status == Step(s, InteractNpc(opt.cost, opt.reward)).status.(currentEvent := None)
  {
    var opt := s.status.currentEvent.value.npc.options[k];
    var a := InteractNpc(opt.cost, opt.reward);
    RunSingle(Step(s, a), ClearEvent);
    RunCons(s, a, [ClearEvent]);
  }

  /** Closing twice is closing once: the second click finds no dialog. */
  lemma CloseIdempotent(s: GameState)
    ensures var acts := HandleClose(s);
      Runs(s, acts)
      && var t := Run(s, acts);
      t.status.currentEvent.None?
      && t == s.(status := s.status.(currentEvent := None))
      && HandleClose(t) == []
  {
    if s.status.currentEvent.Some? { RunSingle(s, ClearEvent); }
    else { assert Run(s, []) == s; }
  }
}
