/** `gameReducer` of src/context/GameContext.jsx (lines 75-497): one
    constructor of `Action` per `case`, one function per case, and `Step`
    dispatching on the action. `Math.random()` draws travel inside the
    actions that use them. */
module Reducer {
  import opened Wrappers
  import opened Content
  import opened Inventory
  import opened Events
  import opened State
  import opened Draws
  import opened Text

  /** `payload.action` of COMBAT_ROUND; `Wait` is any string other than
      'ATTACK' and 'FLEE' (the combat modal sends 'WAIT'). */
  datatype CombatChoice = Attack | Flee | Wait

  /** The dispatched actions. A `cost` of 0 on DESCEND and ASCEND stands for
      an absent or zero cost (`cost || 2` reads both as 2). */
  datatype Action =
    | SetName(name: string)
    | Descend(amount: int, cost: int)
    | Ascend(amount: int, cost: int)
    | TakeDamage(damage: int)
    | Heal(amount: int)
    | Eat(amount: int)
    | AddGold(amount: int)
    | TickPassive(gold: int)
    | AddLog(line: string)
    | LootFound(id: ItemId, name: string)
    | TriggerEvent(event: Event)
    | ClearEvent
    | BuyUpgrade(machine: string, cost: int)
    | BuyItem(item: ItemDef, cost: int)
    | SellItem(index: int, gold: int)
    | InteractNpc(price: NpcCost, reward: Reward)
    | AppraiseItem(index: int, roll: real, pick: real)
    | CraftItem(recipe: Recipe)
    | UseItem(item: ItemDef, index: int)
    | EquipItem(item: ItemDef, index: int)
    | CombatStart(monster: MonsterDef)
    | CombatRound(choice: CombatChoice, hit: real, blow: real)
    | CombatWin(gold: int)
    | CombatFlee
    | Respawn
    | Unhandled(kind: string)

  /** The `type` strings the reducer has a case for. */
  const HANDLED_KINDS: set<string> := {
    "SET_NAME", "DESCEND", "ASCEND", "TAKE_DAMAGE", "HEAL", "EAT", "ADD_GOLD", "TICK_PASSIVE",
    "ADD_LOG", "LOOT_FOUND", "TRIGGER_EVENT", "CLEAR_EVENT", "BUY_UPGRADE", "BUY_ITEM",
    "SELL_ITEM", "INTERACT_NPC", "APPRAISE_ITEM", "CRAFT_ITEM", "USE_ITEM", "EQUIP_ITEM",
    "COMBAT_START", "COMBAT_ROUND", "COMBAT_WIN", "COMBAT_FLEE", "RESPAWN"
  }

  /** When the reducer returns rather than throwing: COMBAT_ROUND reads
      `currentMonster.hp`, and the index cases read `inventory[index].count`.
      The draws are values `Math.random()` can return. `Unhandled` stands
      only for a type string with no case, such as the market's actions. */
  predicate Defined(s: GameState, a: Action)
  {
    match a
    case SellItem(i, _) => 0 <= i < |s.inventory|
    case UseItem(_, i) => 0 <= i < |s.inventory|
    case EquipItem(_, i) => 0 <= i < |s.inventory|
    case AppraiseItem(i, roll, pick) => 0 <= i < |s.inventory| && IsDraw(roll) && IsDraw(pick)
    case CombatRound(_, hit, blow) => s.status.currentMonster.Some? && IsDraw(hit) && IsDraw(blow)
    case Unhandled(kind) => kind !in HANDLED_KINDS
    case _ => true
  }

  // ----- DESCEND and ASCEND -----

  /** `action.payload.cost || 2` */
  function CostOr2(cost: int): int
  {
    if cost == 0 then 2 else cost
  }

  const StarvingDown := "Você está faminto! A saúde está se deteriorando."
  const StarvingUp := "A subida exige energia! Você está morrendo de fome."

  /** The hunger and health bookkeeping DESCEND and ASCEND share: `k` hp per
      missing hunger point; the warning line is kept only when hp fell. */
  function Travel(s: GameState, cost: int, k: int, warning: string): (t: GameState)
    ensures t.player.hunger == Max(0, s.player.hunger - cost)
    ensures t.player.hp == Max(0, s.player.hp - k * Max(0, cost - s.player.hunger))
    ensures t.status.isDead <==> t.player.hp == 0
    ensures t.status.logs == if t.player.hp < s.player.hp then PushLog(s.status.logs, warning) else s.status.logs
    ensures t == s.(player := t.player, status := t.status)
    ensures t.player == s.player.(hunger := t.player.hunger, hp := t.player.hp)
    ensures t.status == s.status.(isDead := t.status.isDead, logs := t.status.logs)
  {
    var hunger := s.player.hunger - cost;
    var penalty := if hunger < 0 then -hunger * k else 0;
    var logs := if hunger < 0 then PushLog(s.status.logs, warning) else s.status.logs;
    var hp := Max(0, s.player.hp - penalty);
    s.(player := s.player.(hunger := if hunger < 0 then 0 else hunger, hp := hp),
       status := s.status.(isDead := hp <= 0, logs := if hp < s.player.hp then logs else s.status.logs))
  }

  /** DESCEND: travel costs hunger (2 hp per missing point), depth grows by
      `amount` and the record depth follows it. */
  function DescendStep(s: GameState, amount: int, cost: int): (t: GameState)
    ensures t.player.depth == s.player.depth + amount
    ensures t.player.maxDepth == Max(s.player.maxDepth, t.player.depth)
    ensures t.player.hunger == Max(0, s.player.hunger - CostOr2(cost))
    ensures t.player.hp == Max(0, s.player.hp - 2 * Max(0, CostOr2(cost) - s.player.hunger))
    ensures t.status.isDead <==> t.player.hp == 0
    ensures t == s.(player := t.player, status := t.status)
    ensures t.status.curseIntensity == s.status.curseIntensity
  {
    var u := Travel(s, CostOr2(cost), 2, StarvingDown);
    var depth := s.player.depth + amount;
    u.(player := u.player.(depth := depth, maxDepth := Max(s.player.maxDepth, depth)))
  }

  /** ASCEND: travel costs hunger (3 hp per missing point), depth falls by
      `amount` but not below 0, the record depth stays, the curse flares. */
  function AscendStep(s: GameState, amount: int, cost: int): (t: GameState)
    ensures t.player.depth == Max(0, s.player.depth - amount)
    ensures t.player.maxDepth == s.player.maxDepth
    ensures t.player.hunger == Max(0, s.player.hunger - CostOr2(cost))
    ensures t.player.hp == Max(0, s.player.hp - 3 * Max(0, CostOr2(cost) - s.player.hunger))
    ensures t.status.isDead <==> t.player.hp == 0
    ensures t.status.curseIntensity == 100
    ensures t == s.(player := t.player, status := t.status)
  {
    var u := Travel(s, CostOr2(cost), 3, StarvingUp);
    u.(player := u.player.(depth := Max(0, s.player.depth - amount)),
       status := u.status.(curseIntensity := 100))
  }

  // ----- simple player and resource updates -----

  /** TAKE_DAMAGE: hp falls by the damage, not below 0; dead exactly at 0. */
  function TakeDamageStep(s: GameState, damage: int): (t: GameState)
    ensures t.player.hp == Max(0, s.player.hp - damage)
    ensures t.status.isDead <==> t.player.hp == 0
    ensures t == s.(player := s.player.(hp := t.player.hp), status := s.status.(isDead := t.status.isDead))
  {
    var hp := Max(0, s.player.hp - damage);
    s.(player := s.player.(hp := hp), status := s.status.(isDead := hp == 0))
  }

  /** TICK_PASSIVE: income is added and the curse fades by 5, not below 0. */
  function TickStep(s: GameState, gold: int): (t: GameState)
    ensures t.resources.gold == s.resources.gold + gold
    ensures t.status.curseIntensity == Max(0, s.status.curseIntensity - 5)
    ensures t == s.(resources := s.resources.(gold := t.resources.gold),
                    status := s.status.(curseIntensity := t.status.curseIntensity))
  {
    s.(resources := s.resources.(gold := s.resources.gold + gold),
       status := s.status.(curseIntensity := Max(0, s.status.curseIntensity - 5)))
  }

  // ----- log, loot and events -----

  function AddLogStep(s: GameState, line: string): (t: GameState)
    ensures 1 <= |t.status.logs| <= 50 && t.status.logs[0] == line
    ensures t == s.(status := s.status.(logs := t.status.logs))
  {
    s.(status := s.status.(logs := PushLog(s.status.logs, line)))
  }

  /** LOOT_FOUND: one unit of the item, its id remembered, one log line. */
  function LootFoundStep(s: GameState, id: ItemId, name: string): (t: GameState)
    ensures Units(t.inventory, id) == Units(s.inventory, id) + 1
    ensures forall other :: other != id ==> Units(t.inventory, other) == Units(s.inventory, other)
    ensures t.stats.foundRelicIds == Remember(s.stats.foundRelicIds, id)
    ensures t.status.logs == PushLog(s.status.logs, "Você encontrou " + name + ".")
    ensures t == s.(inventory := t.inventory, stats := s.stats.(foundRelicIds := t.stats.foundRelicIds),
                    status := s.status.(logs := t.status.logs))
  {
    AddToStackUnitsAll(s.inventory, id, 1);
    s.(inventory := AddToStack(s.inventory, id, 1),
       stats := s.stats.(foundRelicIds := Remember(s.stats.foundRelicIds, id)),
       status := s.status.(logs := PushLog(s.status.logs, "Você encontrou " + name + ".")))
  }

  lemma AddToStackUnitsAll(inv: Inv<ItemId>, id: ItemId, qty: int)
    ensures Units(AddToStack(inv, id, qty), id) == Units(inv, id) + qty
    ensures forall other :: other != id ==> Units(AddToStack(inv, id, qty), other) == Units(inv, other)
  {
    AddToStackUnits(inv, id, qty, id);
    forall other | other != id
      ensures Units(AddToStack(inv, id, qty), other) == Units(inv, other)
    {
      AddToStackUnits(inv, id, qty, other);
    }
  }

  // ----- the shop cases -----

  /** BUY_UPGRADE: pays `cost` (unchecked) and raises that machine by one level. */
  function BuyUpgradeStep(s: GameState, machine: string, cost: int): (t: GameState)
    ensures t.resources.gold == s.resources.gold - cost
    ensures Level(t.machines, machine) == Level(s.machines, machine) + 1
    ensures forall m :: m != machine ==> Level(t.machines, m) == Level(s.machines, m)
    ensures t == s.(resources := t.resources, machines := t.machines)
    ensures t.resources.humanity == s.resources.humanity
  {
    s.(resources := s.resources.(gold := s.resources.gold - cost),
       machines := s.machines[machine := Level(s.machines, machine) + 1])
  }

  /** BUY_ITEM: pays `cost` (unchecked) and adds one unit of the item. */
  function BuyItemStep(s: GameState, item: ItemDef, cost: int): (t: GameState)
    ensures t.resources.gold == s.resources.gold - cost
    ensures Units(t.inventory, item.id) == Units(s.inventory, item.id) + 1
    ensures forall other :: other != item.id ==> Units(t.inventory, other) == Units(s.inventory, other)
    ensures t == s.(resources := s.resources.(gold := t.resources.gold), inventory := t.inventory)
  {
    AddToStackUnitsAll(s.inventory, item.id, 1);
    s.(resources := s.resources.(gold := s.resources.gold - cost),
       inventory := AddToStack(s.inventory, item.id, 1))
  }

  /** SELL_ITEM: one unit leaves the stack at `index` and `gold` is paid out. */
  function SellItemStep(s: GameState, index: int, gold: int): (t: GameState)
    requires 0 <= index < |s.inventory|
    ensures t.resources.gold == s.resources.gold + gold
    ensures t == s.(resources := s.resources.(gold := t.resources.gold), inventory := t.inventory)
    ensures Positive(s.inventory) ==> TakesOneUnit(s.inventory, index, t.inventory)
  {
    RemoveOneUnit(s.inventory, index);
    s.(inventory := RemoveFromStack(s.inventory, index, 1),
       resources := s.resources.(gold := s.resources.gold + gold))
  }

  /** `after` holds one unit fewer of the id stacked at `index`, and the same
      units of every other id. */
  ghost predicate TakesOneUnit(before: Inv<ItemId>, index: int, after: Inv<ItemId>)
    requires 0 <= index < |before|
  {
    Units(after, before[index].id) == Units(before, before[index].id) - 1 &&
    forall x :: x != before[index].id ==> Units(after, x) == Units(before, x)
  }

  lemma RemoveOneUnit(inv: Inv<ItemId>, index: int)
    requires 0 <= index < |inv|
    ensures Positive(inv) ==> TakesOneUnit(inv, index, RemoveFromStack(inv, index, 1))
  {
    if Positive(inv) {
      RemoveFromStackUnits(inv, index, 1, inv[index].id);
      forall x | x != inv[index].id
        ensures Units(RemoveFromStack(inv, index, 1), x) == Units(inv, x)
      {
        RemoveFromStackUnits(inv, index, 1, x);
      }
    }
  }

  // ----- INTERACT_NPC -----

  const NoGold := "Dinheiro insuficiente!"
  const NoHp := "Vida insuficiente para pagar o preço!"
  const TooHungry := "Fome excessiva para treinar!"

  /** The first affordability test the option fails, if any. A zero cost
      field is not tested. */
  function Refusal(s: GameState, c: NpcCost): Option<string>
  {
    if c.gold != 0 && s.resources.gold < c.gold then Some(NoGold)
    else if c.hp != 0 && s.player.hp <= c.hp then Some(NoHp)
    else if c.hunger != 0 && s.player.hunger < c.hunger then Some(TooHungry)
    else None
  }

  function RewardLine(reward: Reward): string
  {
    match reward
    case BuffStr(_) => "Você se sente mais forte."
    case GiveItem(_) => "Item recebido."
    case RestoreAll => "Vigor restaurado."
    case RevealMap => "Segredos do abismo revelados (Bônus de XP)."
    case OtherReward => "Troca realizada."
  }

  /** The player after paying: each non-zero cost is deducted, and a
      non-zero `maxHp_percent` scales `maxHp` down, rounding toward -∞. */
  function PaidPlayer(p: Player, c: NpcCost): Player
  {
    p.(hp := if c.hp != 0 then p.hp - c.hp else p.hp,
       hunger := if c.hunger != 0 then p.hunger - c.hunger else p.hunger,
       maxHp := if c.maxHpPercent != 0.0 then ((p.maxHp as real) * (1.0 - c.maxHpPercent)).Floor else p.maxHp)
  }

  function Rewarded(p: Player, reward: Reward): Player
  {
    match reward
    case BuffStr(v) => p.(baseAtk := p.baseAtk + v)
    case RestoreAll => p.(hp := p.maxHp, hunger := p.maxHunger)
    case RevealMap => p.(xp := p.xp + 1000)
    case _ => p
  }

  /** INTERACT_NPC: a refused trade only prepends its reason to the log
      (without the 50-line cap); an accepted one pays and grants. */
  function InteractStep(s: GameState, c: NpcCost, reward: Reward): (t: GameState)
    ensures Refusal(s, c).Some? ==>
              t == s.(status := s.status.(logs := [Refusal(s, c).value] + s.status.logs))
    ensures Refusal(s, c).None? ==> t.status.logs == PushLog(s.status.logs, RewardLine(reward))
  {
    match Refusal(s, c)
    case Some(line) => s.(status := s.status.(logs := [line] + s.status.logs))
    case None =>
      var gold := if c.gold != 0 then s.resources.gold - c.gold else s.resources.gold;
      var humanity := if c.humanityAll then 0 else s.resources.humanity;
      s.(player := Rewarded(PaidPlayer(s.player, c), reward),
         resources := Resources(gold, humanity),
         inventory := if reward.GiveItem? then AddToStack(s.inventory, reward.id, 1) else s.inventory,
         status := s.status.(logs := PushLog(s.status.logs, RewardLine(reward))))
  }

  // ----- APPRAISE_ITEM -----

  const AppraisalCost := 50
  const Legendary: seq<ItemId> := ["white_whistle", "abyss_map", "sun_sphere", "blaze_reap"]
  const Rare: seq<ItemId> := ["thousand_men_wedge", "life_stone", "star_compass"]
  const Uncommon: seq<ItemId> := ["star_compass_broken", "fog_weave", "relic_fragment"]
  const Common: seq<ItemId> := ["eternal_torch", "hollow_vessel", "stone", "scrap"]

  /** The tier a roll selects; the top tier is the single id `reg_arm`. */
  function Tier(roll: real): (tier: seq<ItemId>)
    ensures |tier| > 0
  {
    if roll > 0.99 then ["reg_arm"]
    else if roll > 0.95 then Legendary
    else if roll > 0.80 then Rare
    else if roll > 0.50 then Uncommon
    else Common
  }

  /** The identified item: `reg_arm`, or a pick within the rolled tier. */
  function AppraisalResult(roll: real, pick: real): (id: ItemId)
    requires IsDraw(pick)
    ensures id in Tier(roll)
  {
    if roll > 0.99 then "reg_arm" else Tier(roll)[Pick(pick, |Tier(roll)|)]
  }

  const AppraisedLine := "Avaliação completa! Item identificado."

  /** APPRAISE_ITEM: whatever stacks at `index` loses one unit, 50 gold is
      charged without any check, one identified item is added and noted. */
  function AppraiseStep(s: GameState, index: int, roll: real, pick: real): (t: GameState)
    requires 0 <= index < |s.inventory| && IsDraw(pick)
    ensures t.resources.gold == s.resources.gold - AppraisalCost
    ensures t.stats.relicsFound == s.stats.relicsFound + 1
    ensures t.stats.foundRelicIds == Remember(s.stats.foundRelicIds, AppraisalResult(roll, pick))
    ensures t.status.logs == PushLog(s.status.logs, AppraisedLine)
    ensures t == s.(resources := s.resources.(gold := t.resources.gold), inventory := t.inventory,
                    stats := s.stats.(relicsFound := t.stats.relicsFound, foundRelicIds := t.stats.foundRelicIds),
                    status := s.status.(logs := t.status.logs))
  {
    var res := AppraisalResult(roll, pick);
    s.(resources := s.resources.(gold := s.resources.gold - AppraisalCost),
       inventory := AddToStack(RemoveFromStack(s.inventory, index, 1), res, 1),
       stats := s.stats.(relicsFound := s.stats.relicsFound + 1,
                         foundRelicIds := Remember(s.stats.foundRelicIds, res)),
       status := s.status.(logs := PushLog(s.status.logs, AppraisedLine)))
  }

  // ----- CRAFT_ITEM, USE_ITEM, EQUIP_ITEM -----

  /** CRAFT_ITEM: consume each requirement (as far as the stacks go) and add
      one unit of the result. Nothing is checked here. */
  function CraftStep(s: GameState, recipe: Recipe): (t: GameState)
    ensures t == s.(inventory := t.inventory)
    ensures Has(t.inventory, recipe.res)
  {
    s.(inventory := AddToStack(ConsumeAll(s.inventory, recipe.req), recipe.res, 1))
  }

  /** USE_ITEM: non-zero effects move hp and hunger, capped at their maxima
      only; one unit leaves the stack at `index`; the combat log records it. */
  function UseStep(s: GameState, item: ItemDef, index: int): (t: GameState)
    requires 0 <= index < |s.inventory|
    ensures item.effect.hp != 0 ==> t.player.hp == Min(s.player.maxHp, s.player.hp + item.effect.hp)
    ensures item.effect.hp == 0 ==> t.player.hp == s.player.hp
    ensures item.effect.hunger != 0 ==> t.player.hunger == Min(s.player.maxHunger, s.player.hunger + item.effect.hunger)
    ensures item.effect.hunger == 0 ==> t.player.hunger == s.player.hunger
    ensures t.status.combatLog == s.status.combatLog + ["Usou " + item.name + "."]
    ensures t == s.(player := s.player.(hp := t.player.hp, hunger := t.player.hunger),
                    inventory := t.inventory, status := s.status.(combatLog := t.status.combatLog))
    ensures Positive(s.inventory) ==> TakesOneUnit(s.inventory, index, t.inventory)
  {
    var p := s.player;
    var e := item.effect;
    RemoveOneUnit(s.inventory, index);
    s.(player := p.(hp := if e.hp != 0 then Min(p.maxHp, p.hp + e.hp) else p.hp,
                    hunger := if e.hunger != 0 then Min(p.maxHunger, p.hunger + e.hunger) else p.hunger),
       inventory := RemoveFromStack(s.inventory, index, 1),
       status := s.status.(combatLog := s.status.combatLog + ["Usou " + item.name + "."]))
  }

  /** `item.slot || 'weapon'` */
  function SlotOf(item: ItemDef): Slot
  {
    item.slot.GetOr(Weapon)
  }

  /** EQUIP_ITEM: one unit leaves the stack at `index`, the item takes its
      slot, and whatever held that slot goes back to the inventory. */
  function EquipStep(s: GameState, item: ItemDef, index: int): (t: GameState)
    requires 0 <= index < |s.inventory|
    ensures t.equipment.In(SlotOf(item)) == Some(item)
    ensures forall other :: other != SlotOf(item) ==> t.equipment.In(other) == s.equipment.In(other)
    ensures t.status.logs == PushLog(s.status.logs, "Equipou " + item.name + ".")
    ensures t == s.(inventory := t.inventory, equipment := t.equipment, status := s.status.(logs := t.status.logs))
  {
    var slot := SlotOf(item);
    var rest := RemoveFromStack(s.inventory, index, 1);
    var back := s.equipment.In(slot);
    s.(inventory := if back.Some? then AddToStack(rest, back.value.id, 1) else rest,
       equipment := s.equipment.With(slot, item),
       status := s.status.(logs := PushLog(s.status.logs, "Equipou " + item.name + ".")))
  }

  // ----- combat -----

  /** COMBAT_START: the monster enters with hp = maxHp = 5 * power. */
  function CombatStartStep(s: GameState, m: MonsterDef): (t: GameState)
    ensures t.status.inCombat && t.status.currentMonster == Some(Monster(m, 5 * m.power, 5 * m.power))
    ensures t.status.combatLog == ["Um " + m.name + " bloqueia o caminho!"]
    ensures t == s.(status := s.status.(inCombat := true, currentMonster := t.status.currentMonster,
                                        combatLog := t.status.combatLog))
  {
    s.(status := s.status.(inCombat := true, currentMonster := Some(Monster(m, m.power * 5, m.power * 5)),
                           combatLog := ["Um " + m.name + " bloqueia o caminho!"]))
  }

  /** `weapon.atk + charm.atk + 2 * charm.str + baseAtk`, absent parts 0. */
  function AttackBonus(s: GameState): int
  {
    var w := s.equipment.weapon;
    var c := s.equipment.charm;
    (if w.Some? then w.value.effect.atk else 0)
    + (if c.Some? then c.value.effect.atk else 0)
    + (if c.Some? then c.value.effect.str * 2 else 0)
    + s.player.baseAtk
  }

  /** The player's hit: 5 to 14 plus the bonus. */
  function HitDamage(s: GameState, hit: real): (d: int)
    requires IsDraw(hit)
    ensures AttackBonus(s) + 5 <= d <= AttackBonus(s) + 14
  {
    Pick(hit, 10) + 5 + AttackBonus(s)
  }

  /** The monster's blow: `floor(r * power * 0.5)`, between 0 and half the power. */
  function BlowDamage(power: int, blow: real): (d: int)
    requires IsDraw(blow)
    ensures power >= 0 ==> 0 <= 2 * d <= power
  {
    var x := blow * (power as real) * 0.5;
    BlowBounds(power, blow, x);
    x.Floor
  }

  lemma BlowBounds(power: int, blow: real, x: real)
    requires IsDraw(blow) && x == blow * (power as real) * 0.5
    ensures power >= 0 ==> 0 <= 2 * x.Floor <= power
  {
    if power >= 0 {
      var p := power as real;
      var bp := blow * p;
      ProductNonNegative(blow, p);
      ProductNonNegative(1.0 - blow, p);
      assert p - bp == (1.0 - blow) * p;
      assert bp <= p;
      assert x == bp * 0.5;
      assert 0.0 <= x <= p * 0.5;
      assert (x.Floor as real) <= x;
    }
  }

  lemma ProductNonNegative(a: real, b: real)
    requires 0.0 <= a && 0.0 <= b
    ensures 0.0 <= a * b
  {
  }

  function HitLine(s: GameState, d: int): string
  {
    var bonus := AttackBonus(s);
    "Você causou " + IntToString(d) + " de dano"
    + (if bonus > 0 then " (+" + IntToString(bonus) + " bônus)" else "") + "."
  }

  /** COMBAT_ROUND. An attack hits first; a monster brought to 0 or below is
      stored at hp 0, the player is untouched and `isDead` is not recomputed.
      Otherwise the monster strikes back unless the choice is FLEE. */
  function CombatRoundStep(s: GameState, choice: CombatChoice, hit: real, blow: real): (t: GameState)
    requires s.status.currentMonster.Some? && IsDraw(hit) && IsDraw(blow)
    ensures t.status.currentMonster.Some? && t.status.currentMonster.value.def == s.status.currentMonster.value.def
    ensures t.status.currentMonster.value.maxHp == s.status.currentMonster.value.maxHp
    ensures |s.status.combatLog| <= |t.status.combatLog| <= |s.status.combatLog| + 2
    ensures t.status.combatLog[..|s.status.combatLog|] == s.status.combatLog
    ensures t == s.(player := s.player.(hp := t.player.hp),
                    status := s.status.(currentMonster := t.status.currentMonster,
                                        combatLog := t.status.combatLog, isDead := t.status.isDead))
  {
    var m := s.status.currentMonster.value;
    var d := HitDamage(s, hit);
    var mHp := if choice == Attack then m.hp - d else m.hp;
    var hitLog := if choice == Attack then [HitLine(s, d)] else [];
    if mHp > 0 then
      var blowDmg := BlowDamage(m.def.power, blow);
      var pHp := if choice != Flee then Max(0, s.player.hp - blowDmg) else s.player.hp;
      var blowLog := if choice != Flee then [m.def.name + " atacou! -" + IntToString(blowDmg) + " HP."] else [];
      s.(player := s.player.(hp := pHp),
         status := s.status.(currentMonster := Some(m.(hp := mHp)),
                             combatLog := s.status.combatLog + hitLog + blowLog,
                             isDead := pHp == 0))
    else
      s.(status := s.status.(currentMonster := Some(m.(hp := 0)),
                             combatLog := s.status.combatLog + hitLog + [m.def.name + " foi derrotado!"]))
  }

  /** COMBAT_WIN: the fight and its event end and the prize is paid. */
  function CombatWinStep(s: GameState, gold: int): (t: GameState)
    ensures t.resources.gold == s.resources.gold + gold
    ensures !t.status.inCombat && t.status.currentMonster.None? && t.status.currentEvent.None?
    ensures t == s.(resources := s.resources.(gold := t.resources.gold),
                    status := s.status.(inCombat := false, currentMonster := None, currentEvent := None))
  {
    s.(status := s.status.(inCombat := false, currentMonster := None, currentEvent := None),
       resources := s.resources.(gold := s.resources.gold + gold))
  }

  /** COMBAT_FLEE: the fight, its event and its log are dropped. */
  function CombatFleeStep(s: GameState): (t: GameState)
    ensures !t.status.inCombat && t.status.currentMonster.None? && t.status.currentEvent.None?
    ensures t.status.combatLog == []
    ensures t == s.(status := s.status.(inCombat := false, currentMonster := None, currentEvent := None, combatLog := []))
  {
    s.(status := s.status.(inCombat := false, currentMonster := None, currentEvent := None, combatLog := []))
  }

  const RespawnLine := "Você acordou na superfície. Sua mochila ficou para trás..."

  /** RESPAWN: back at the surface, fed and healed, with half the gold
      (rounded toward -∞) and an empty backpack; maxDepth and equipment stay. */
  function RespawnStep(s: GameState): (t: GameState)
    ensures t.player == s.player.(hp := s.player.maxHp, depth := 0, hunger := 100)
    ensures 2 * t.resources.gold <= s.resources.gold < 2 * t.resources.gold + 2
    ensures t.inventory == []
    ensures !t.status.isDead && !t.status.inCombat && t.status.currentMonster.None? && t.status.currentEvent.None?
    ensures t.status.logs == [RespawnLine] + s.status.logs
    ensures t == s.(player := t.player, resources := s.resources.(gold := t.resources.gold), inventory := [],
                    status := s.status.(isDead := false, inCombat := false, currentMonster := None,
                                        currentEvent := None, logs := t.status.logs))
  {
    s.(player := s.player.(hp := s.player.maxHp, depth := 0, hunger := 100),
       resources := s.resources.(gold := s.resources.gold / 2),
       inventory := [],
       status := s.status.(isDead := false, inCombat := false, currentMonster := None, currentEvent := None,
                           logs := [RespawnLine] + s.status.logs))
  }

  // ----- the reducer -----

  /** `gameReducer(state, action)` */
  function Step(s: GameState, a: Action): GameState
    requires Defined(s, a)
  {
    match a
    case SetName(name) => s.(player := s.player.(name := name))
    case Descend(amount, cost) => DescendStep(s, amount, cost)
    case Ascend(amount, cost) => AscendStep(s, amount, cost)
    case TakeDamage(d) => TakeDamageStep(s, d)
    case Heal(n) => s.(player := s.player.(hp := Min(s.player.maxHp, s.player.hp + n)))
    case Eat(n) => s.(player := s.player.(hunger := Min(s.player.maxHunger, s.player.hunger + n)))
    case AddGold(n) => s.(resources := s.resources.(gold := s.resources.gold + n))
    case TickPassive(gold) => TickStep(s, gold)
    case AddLog(line) => AddLogStep(s, line)
    case LootFound(id, name) => LootFoundStep(s, id, name)
    case TriggerEvent(e) => s.(status := s.status.(currentEvent := Some(e)))
    case ClearEvent => s.(status := s.status.(currentEvent := None))
    case BuyUpgrade(machine, cost) => BuyUpgradeStep(s, machine, cost)
    case BuyItem(item, cost) => BuyItemStep(s, item, cost)
    case SellItem(index, gold) => SellItemStep(s, index, gold)
    case InteractNpc(c, reward) => InteractStep(s, c, reward)
    case AppraiseItem(index, roll, pick) => AppraiseStep(s, index, roll, pick)
    case CraftItem(recipe) => CraftStep(s, recipe)
    case UseItem(item, index) => UseStep(s, item, index)
    case EquipItem(item, index) => EquipStep(s, item, index)
    case CombatStart(m) => CombatStartStep(s, m)
    case CombatRound(choice, hit, blow) => CombatRoundStep(s, choice, hit, blow)
    case CombatWin(gold) => CombatWinStep(s, gold)
    case CombatFlee => CombatFleeStep(s)
    case Respawn => RespawnStep(s)
    case Unhandled(_) => s
  }

  /** Every action of the list is defined on the state it meets. */
  predicate Runs(s: GameState, acts: seq<Action>)
    decreases |acts|
  {
    |acts| == 0 || (Defined(s, acts[0]) && Runs(Step(s, acts[0]), acts[1..]))
  }

  /** Dispatching a list of actions in order. */
  function Run(s: GameState, acts: seq<Action>): GameState
    requires Runs(s, acts)
    decreases |acts|
  {
    if |acts| == 0 then s else Run(Step(s, acts[0]), acts[1..])
  }

  // ----- properties of the reducer -----

  lemma AddKeepsShape(inv: Inv<ItemId>, id: ItemId)
    requires Positive(inv) && DistinctIds(inv)
    ensures Positive(AddToStack(inv, id, 1)) && DistinctIds(AddToStack(inv, id, 1))
  {
    AddToStackKeepsShape(inv, id, 1);
  }

  lemma RemoveKeepsShape(inv: Inv<ItemId>, index: int)
    requires 0 <= index < |inv| && Positive(inv) && DistinctIds(inv)
    ensures Positive(RemoveFromStack(inv, index, 1)) && DistinctIds(RemoveFromStack(inv, index, 1))
  {
    RemoveFromStackKeepsShape(inv, index, 1);
  }

  /** Every step keeps the state invariant: no empty or duplicate stacks, no
      repeated found id, a curse within 0..100. */
  lemma StepKeepsValid(s: GameState, a: Action)
    requires Valid(s) && Defined(s, a)
    ensures Valid(Step(s, a))
  {
    var inv := s.inventory;
    match a
    case LootFound(id, _) =>
      AddKeepsShape(inv, id);
      RememberKeepsNoDuplicates(s.stats.foundRelicIds, id);
    case BuyItem(item, _) => AddKeepsShape(inv, item.id);
    case SellItem(index, _) => RemoveKeepsShape(inv, index);
    case InteractNpc(c, reward) =>
      if Refusal(s, c).None? && reward.GiveItem? { AddKeepsShape(inv, reward.id); }
    case AppraiseItem(index, roll, pick) =>
      RemoveKeepsShape(inv, index);
      AddKeepsShape(RemoveFromStack(inv, index, 1), AppraisalResult(roll, pick));
      RememberKeepsNoDuplicates(s.stats.foundRelicIds, AppraisalResult(roll, pick));
    case CraftItem(recipe) =>
      ConsumeAllPositive(inv, recipe.req);
      ConsumeAllDistinct(inv, recipe.req);
      AddKeepsShape(ConsumeAll(inv, recipe.req), recipe.res);
    case UseItem(_, index) => RemoveKeepsShape(inv, index);
    case EquipItem(item, index) =>
      RemoveKeepsShape(inv, index);
      var back := s.equipment.In(SlotOf(item));
      if back.Some? { AddKeepsShape(RemoveFromStack(inv, index, 1), back.value.id); }
    case _ =>
  }

  /** A whole run of dispatches keeps the invariant. */
  lemma {:induction false} RunKeepsValid(s: GameState, acts: seq<Action>)
    requires Valid(s) && Runs(s, acts)
    ensures Valid(Run(s, acts))
    decreases |acts|
  {
    if |acts| > 0 {
      StepKeepsValid(s, acts[0]);
      RunKeepsValid(Step(s, acts[0]), acts[1..]);
    }
  }

  /** Running `a + b` is running `a`, then `b`. */
  lemma {:induction false} RunAppend(s: GameState, a: seq<Action>, b: seq<Action>)
    requires Runs(s, a) && Runs(Run(s, a), b)
    ensures Runs(s, a + b) && Run(s, a + b) == Run(Run(s, a), b)
    decreases |a|
  {
    if |a| > 0 {
      RunAppend(Step(s, a[0]), a[1..], b);
      assert a + b == [a[0]] + (a[1..] + b);
      RunCons(s, a[0], a[1..] + b);
    } else {
      assert a + b == b;
    }
  }

  /** Dispatching a list starting with `a` is stepping with `a`, then the rest. */
  lemma RunCons(s: GameState, a: Action, rest: seq<Action>)
    requires Defined(s, a) && Runs(Step(s, a), rest)
    ensures Runs(s, [a] + rest) && Run(s, [a] + rest) == Run(Step(s, a), rest)
  {
    assert ([a] + rest)[0] == a && ([a] + rest)[1..] == rest;
  }

  /** Dispatching three actions that need no index is three steps. */
  lemma RunThree(s: GameState, a: Action, b: Action, c: Action)
    requires Defined(s, a) && Defined(Step(s, a), b) && Defined(Step(Step(s, a), b), c)
    ensures Runs(s, [a, b, c]) && Run(s, [a, b, c]) == Step(Step(Step(s, a), b), c)
  {
    var s1 := Step(s, a);
    RunSingle(Step(s1, b), c);
    RunCons(s1, b, [c]);
    assert [a, b, c] == [a] + [b, c] && [b, c] == [b] + [c];
    RunCons(s, a, [b, c]);
  }

  /** Dispatching one action is one step. */
  lemma RunSingle(s: GameState, a: Action)
    requires Defined(s, a)
    ensures Runs(s, [a]) && Run(s, [a]) == Step(s, a)
  {
    assert [a][1..] == [];
  }

  /** An action type without a case changes nothing. */
  lemma UnhandledIsNoOp(s: GameState, kind: string)
    requires kind !in HANDLED_KINDS
    ensures Step(s, Unhandled(kind)) == s
  {
  }

  /** Only LOOT_FOUND and APPRAISE_ITEM touch the found-id list; every other
      action leaves it as it was, and those two remember one id each. */
  lemma FoundGrowsOnlyByLootOrAppraisal(s: GameState, a: Action)
    requires Defined(s, a)
    ensures a.LootFound? ==> Step(s, a).stats.foundRelicIds == Remember(s.stats.foundRelicIds, a.id)
    ensures a.AppraiseItem? ==>
      Step(s, a).stats.foundRelicIds == Remember(s.stats.foundRelicIds, AppraisalResult(a.roll, a.pick))
    ensures !a.LootFound? && !a.AppraiseItem? ==> Step(s, a).stats.foundRelicIds == s.stats.foundRelicIds
  {
  }

  /** HEAL and EAT raise hp and hunger by the amount until the maximum
      stops them; SET_NAME and ADD_GOLD change only their own field. */
  lemma SimpleCases(s: GameState, n: int, name: string)
    ensures var t := Step(s, Heal(n));
      t == s.(player := s.player.(hp := t.player.hp))
      && (s.player.hp <= s.player.maxHp && n >= 0 ==> s.player.hp <= t.player.hp <= s.player.maxHp)
      && (t.player.hp < s.player.maxHp ==> t.player.hp == s.player.hp + n)
    ensures var t := Step(s, Eat(n));
      t == s.(player := s.player.(hunger := t.player.hunger))
      && (s.player.hunger <= s.player.maxHunger && n >= 0 ==> s.player.hunger <= t.player.hunger <= s.player.maxHunger)
      && (t.player.hunger < s.player.maxHunger ==> t.player.hunger == s.player.hunger + n)
    ensures Step(s, SetName(name)) == s.(player := s.player.(name := name))
    ensures Step(s, AddGold(n)).resources.gold == s.resources.gold + n
  {
  }

  /** CLEAR_EVENT empties the event slot and touches nothing else; a second
      one changes nothing more. */
  lemma ClearEventIdempotent(s: GameState)
    ensures Step(s, ClearEvent).status.currentEvent.None?
    ensures Step(s, ClearEvent) == s.(status := s.status.(currentEvent := None))
    ensures Step(Step(s, ClearEvent), ClearEvent) == Step(s, ClearEvent)
  {
  }

  /** INTERACT_NPC refuses exactly when a non-zero gold cost exceeds the gold,
      a non-zero hp cost is not below the hp, or a non-zero hunger cost
      exceeds the hunger; a refusal changes only the log. */
  lemma InteractRefusal(s: GameState, c: NpcCost, reward: Reward)
    ensures Refusal(s, c).Some? <==>
              (c.gold != 0 && s.resources.gold < c.gold) || (c.hp != 0 && s.player.hp <= c.hp)
              || (c.hunger != 0 && s.player.hunger < c.hunger)
    ensures Refusal(s, c).Some? ==>
              var t := Step(s, InteractNpc(c, reward));
              t.player == s.player && t.resources == s.resources && t.inventory == s.inventory
              && t.status.logs == [Refusal(s, c).value] + s.status.logs
  {
  }

  /** An accepted trade leaves gold non-negative when a gold price was paid
      (or the purse was not already in debt), leaves at least 1 hp when an hp
      price was paid (unless the reward restores it), and grants its reward. */
  lemma InteractPays(s: GameState, c: NpcCost, reward: Reward)
    requires Refusal(s, c).None?
    ensures var t := Step(s, InteractNpc(c, reward));
      (c.gold > 0 || s.resources.gold >= 0) ==> t.resources.gold >= 0
    ensures var t := Step(s, InteractNpc(c, reward));
      c.hp > 0 && !reward.RestoreAll? ==> t.player.hp >= 1
    ensures var t := Step(s, InteractNpc(c, reward));
      c.hunger > 0 && !reward.RestoreAll? ==> t.player.hunger >= 0
    ensures var t := Step(s, InteractNpc(c, reward));
      reward.RestoreAll? ==> t.player.hp == t.player.maxHp && t.player.hunger == t.player.maxHunger
    ensures var t := Step(s, InteractNpc(c, reward));
      reward.BuffStr? ==> t.player.baseAtk == s.player.baseAtk + reward.val
    ensures var t := Step(s, InteractNpc(c, reward));
      reward.RevealMap? ==> t.player.xp == s.player.xp + 1000
    ensures var t := Step(s, InteractNpc(c, reward));
      reward.GiveItem? ==> Units(t.inventory, reward.id) == Units(s.inventory, reward.id) + 1
    ensures var t := Step(s, InteractNpc(c, reward));
      !reward.GiveItem? ==> t.inventory == s.inventory
  {
    if reward.GiveItem? { AddToStackUnits(s.inventory, reward.id, 1, reward.id); }
  }

  /** The roll picks the tier: above 0.99 `reg_arm`, above 0.95 legendary,
      above 0.80 rare, above 0.50 uncommon, else common. */
  lemma AppraisalTiers(roll: real, pick: real)
    requires IsDraw(pick)
    ensures var id := AppraisalResult(roll, pick);
      (roll > 0.99 ==> id == "reg_arm")
      && (0.95 < roll <= 0.99 ==> id in Legendary)
      && (0.80 < roll <= 0.95 ==> id in Rare)
      && (0.50 < roll <= 0.80 ==> id in Uncommon)
      && (roll <= 0.50 ==> id in Common)
  {
  }

  /** Every id of the rolled tier comes out for some pick. */
  lemma AppraisalReachesTier(roll: real, k: nat)
    requires k < |Tier(roll)|
    ensures var pick := (k as real) / (|Tier(roll)| as real);
      IsDraw(pick) && AppraisalResult(roll, pick) == Tier(roll)[k]
  {
    PickReachesEveryIndex(|Tier(roll)|, k);
  }

  /** Seven of the ids appraisal hands out are not catalogue items. */
  lemma AppraisalLeavesCatalogue()
    ensures !InCatalogue("reg_arm") && !InCatalogue("thousand_men_wedge") && !InCatalogue("life_stone")
    ensures !InCatalogue("fog_weave") && !InCatalogue("relic_fragment")
    ensures !InCatalogue("eternal_torch") && !InCatalogue("hollow_vessel")
  {
  }

  /** Appraisal trades one unit of whatever sits at `index` for one unit of
      the identified item. */
  lemma AppraiseMovesUnits(s: GameState, index: int, roll: real, pick: real, x: ItemId)
    requires Valid(s) && 0 <= index < |s.inventory| && IsDraw(roll) && IsDraw(pick)
    ensures var t := Step(s, AppraiseItem(index, roll, pick));
      Units(t.inventory, x) == Units(s.inventory, x) - (if x == s.inventory[index].id then 1 else 0)
                               + (if x == AppraisalResult(roll, pick) then 1 else 0)
  {
    var rest := RemoveFromStack(s.inventory, index, 1);
    RemoveOneUnit(s.inventory, index);
    AddToStackUnits(rest, AppraisalResult(roll, pick), 1, x);
  }

  /** Nothing checks the purse: with less than 50 gold an appraisal leaves
      the player in debt. */
  lemma AppraisalCanOverdraw(s: GameState, index: int, roll: real, pick: real)
    requires 0 <= index < |s.inventory| && IsDraw(roll) && IsDraw(pick) && s.resources.gold < AppraisalCost
    ensures Step(s, AppraiseItem(index, roll, pick)).resources.gold < 0
  {
  }

  /** Crafting takes what each requirement asks for, down to zero, and adds
      one unit of the result. */
  lemma CraftMovesUnits(s: GameState, recipe: Recipe, x: ItemId)
    requires Positive(s.inventory)
    ensures Units(Step(s, CraftItem(recipe)).inventory, x) ==
            Max0(Units(s.inventory, x) - Needed(recipe.req, x)) + (if x == recipe.res then 1 else 0)
  {
    var used := ConsumeAll(s.inventory, recipe.req);
    ConsumeAllUnits(s.inventory, recipe.req, x);
    AddToStackUnits(used, recipe.res, 1, x);
  }

  /** Equipping trades one unit at `index` for the item that held the slot. */
  lemma EquipMovesUnits(s: GameState, item: ItemDef, index: int, x: ItemId)
    requires Positive(s.inventory) && 0 <= index < |s.inventory|
    ensures var back := s.equipment.In(SlotOf(item));
      Units(Step(s, EquipItem(item, index)).inventory, x) ==
      Units(s.inventory, x) - (if x == s.inventory[index].id then 1 else 0)
      + (if back.Some? && x == back.value.id then 1 else 0)
  {
    var rest := RemoveFromStack(s.inventory, index, 1);
    RemoveOneUnit(s.inventory, index);
    var back := s.equipment.In(SlotOf(item));
    if back.Some? { AddToStackUnits(rest, back.value.id, 1, x); }
  }

  /** One combat round. An attack takes the hit off the monster's hp, stored
      no lower than 0. A monster at 0 or below strikes no blow and the
      player's record is untouched, `isDead` included. A monster still
      standing strikes unless the player flees, and then the player is dead
      exactly at hp 0. */
  lemma CombatRoundOutcome(s: GameState, choice: CombatChoice, hit: real, blow: real)
    requires s.status.currentMonster.Some? && IsDraw(hit) && IsDraw(blow)
    ensures var m := s.status.currentMonster.value;
      var t := Step(s, CombatRound(choice, hit, blow));
      var left := if choice == Attack then m.hp - HitDamage(s, hit) else m.hp;
      t.status.currentMonster.value.hp == Max(0, left)
      && (left <= 0 ==> t.player == s.player && t.status.isDead == s.status.isDead)
      && (left > 0 && choice != Flee ==>
            t.player.hp == Max(0, s.player.hp - BlowDamage(m.def.power, blow)) && (t.status.isDead <==> t.player.hp == 0))
      && (left > 0 && choice == Flee ==> t.player == s.player && (t.status.isDead <==> s.player.hp == 0))
  {
  }

  /** USE_ITEM bounds hp only from above: eating raw meat at 3 hp leaves the
      player at -2 hp and not marked dead. */
  lemma MeatLeavesNegativeHp()
    ensures var s := INITIAL.(player := INITIAL.player.(hp := 3), inventory := [Stack("meat", 1)]);
      var t := Step(s, UseItem(ITEMS[5], 0));
      ITEMS[5].id == "meat" && t.player.hp == -2 && !t.status.isDead && t.inventory == []
  {
    var meat := ITEMS[5];
    assert meat == ItemDef("meat", "Carne Crua", Consumable, 40, Effect(-5, 40, 0, 0), None, 0);
    var inv := [Stack("meat", 1)];
    assert RemoveFromStack(inv, 0, 1) == inv[..0] + inv[1..] == [];
  }
}
