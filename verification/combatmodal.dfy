/** The combat dialog of src/features/combat/CombatModal.jsx: the buttons
    it offers, what each dispatches, and the victory trigger. The one-second
    delay before the victory is timing and is not modelled. */
module CombatModal {
  import opened Wrappers
  import opened State
  import opened Draws
  import opened Reducer

  /** The dialog (and so its buttons) is shown only during a fight with a monster. */
  predicate Offered(s: GameState)
  {
    s.status.inCombat && s.status.currentMonster.Some?
  }

  /** `handleAttack`: one attack round; nothing while the dialog is hidden. */
  function HandleAttack(s: GameState, hit: real, blow: real): (acts: seq<Action>)
    ensures acts != [] <==> Offered(s)
    ensures acts != [] ==> acts == [CombatRound(Attack, hit, blow)]
  {
    if Offered(s) then [CombatRound(Attack, hit, blow)] else []
  }

  /** `handleFlee`: a draw above one half escapes; otherwise the player
      waits a round and the monster strikes. */
  function HandleFlee(s: GameState, r: real, hit: real, blow: real): (acts: seq<Action>)
    ensures acts != [] <==> Offered(s)
    ensures Offered(s) && r > 0.5 ==> acts == [CombatFlee]
    ensures Offered(s) && r <= 0.5 ==> acts == [CombatRound(Wait, hit, blow)]
  {
    if !Offered(s) then []
    else if r > 0.5 then [CombatFlee]
    else [CombatRound(Wait, hit, blow)]
  }

  /** The prize the victory effect pays. */
  const Prize := 100

  /** The victory effect: a monster at 0 hp or below is a win worth 100 gold. */
  function WinTrigger(s: GameState): (acts: seq<Action>)
    ensures acts != [] <==> s.status.currentMonster.Some? && s.status.currentMonster.value.hp <= 0
    ensures acts != [] ==> acts == [CombatWin(Prize)]
  {
    match s.status.currentMonster
    case Some(m) => if m.hp <= 0 then [CombatWin(Prize)] else []
    case None => []
  }

  /** An attack lowers the monster's hp by the hit (the floor is 0). If the
      monster survives, the player loses at most half the monster's power;
      if it does not, the player is untouched and the victory trigger fires. */
  lemma AttackOutcome(s: GameState, hit: real, blow: real)
    requires Offered(s) && IsDraw(hit) && IsDraw(blow)
    requires s.status.currentMonster.value.def.power >= 0
    ensures var acts := HandleAttack(s, hit, blow);
      Runs(s, acts)
      && var t := Run(s, acts);
      var m := s.status.currentMonster.value;
      var left := m.hp - HitDamage(s, hit);
      t.status.currentMonster == Some(m.(hp := Max(0, left)))
      && (left <= 0 ==> t.player == s.player && WinTrigger(t) == [CombatWin(Prize)])
      && (left > 0 ==> s.player.hp - m.def.power / 2 <= t.player.hp <= Max(0, s.player.hp)
                       && (t.status.isDead <==> t.player.hp == 0))
  {
    var a := CombatRound(Attack, hit, blow);
    RunSingle(s, a);
    var m := s.status.currentMonster.value;
    var d := BlowDamage(m.def.power, blow);
    assert 2 * d <= m.def.power;
  }

  /** A successful flight ends the fight with its log, event and monster
      dropped, and leaves the player and the purse as they were. */
  lemma FleeEscapes(s: GameState, r: real, hit: real, blow: real)
    requires Offered(s) && r > 0.5
    ensures var acts := HandleFlee(s, r, hit, blow);
      Runs(s, acts)
      && var t := Run(s, acts);
      !t.status.inCombat && t.status.currentMonster.None? && t.status.currentEvent.None?
      && t.status.combatLog == [] && t.player == s.player && t.resources == s.resources
  {
    RunSingle(s, CombatFlee);
  }

  /** A failed flight spends a round: a living monster keeps its hp and the
      player takes at most half its power. */
  lemma FleeWaits(s: GameState, r: real, hit: real, blow: real)
    requires Offered(s) && r <= 0.5 && IsDraw(hit) && IsDraw(blow)
    requires s.status.currentMonster.value.def.power >= 0
    requires s.status.currentMonster.value.hp > 0
    ensures var acts := HandleFlee(s, r, hit, blow);
      Runs(s, acts)
      && var t := Run(s, acts);
      t.status.currentMonster == s.status.currentMonster
      && s.player.hp - s.status.currentMonster.value.def.power / 2 <= t.player.hp <= Max(0, s.player.hp)
  {
    RunSingle(s, CombatRound(Wait, hit, blow));
    WaitRound(s, hit, blow);
  }

  lemma WaitRound(s: GameState, hit: real, blow: real)
    requires s.status.currentMonster.Some? && IsDraw(hit) && IsDraw(blow)
    requires s.status.currentMonster.value.def.power >= 0
    requires s.status.currentMonster.value.hp > 0
    ensures var t := CombatRoundStep(s, Wait, hit, blow);
      t.status.currentMonster == s.status.currentMonster
      && s.player.hp - s.status.currentMonster.value.def.power / 2 <= t.player.hp <= Max(0, s.player.hp)
  {
    var m := s.status.currentMonster.value;
    var d := BlowDamage(m.def.power, blow);
    assert 2 * d <= m.def.power;
    var t := CombatRoundStep(s, Wait, hit, blow);
    assert t.player.hp == Max(0, s.player.hp - d);
    assert m.(hp := m.hp) == m;
  }

  /** The victory pays exactly 100 gold, ends the fight and clears the
      event; nothing else about the player or the backpack changes. */
  lemma WinOutcome(s: GameState)
    requires s.status.currentMonster.Some? && s.status.currentMonster.value.hp <= 0
    ensures var acts := WinTrigger(s);
      Runs(s, acts)
      && var t := Run(s, acts);
      t.resources.gold == s.resources.gold + 100
      && !t.status.inCombat && t.status.currentMonster.None? && t.status.currentEvent.None?
      && t.player == s.player && t.inventory == s.inventory
      && WinTrigger(t) == []
  {
    RunSingle(s, CombatWin(Prize));
  }
}
