/** The game state record of src/context/GameContext.jsx (`initialState`,
    lines 4-48), the helpers the reducer applies to it, and the sanity
    correction applied to a loaded save. */
module State {
  import opened Wrappers
  import opened Content
  import opened Inventory
  import opened Events

  datatype Player = Player(name: string, depth: int, maxDepth: int, hp: int, maxHp: int,
                           hunger: int, maxHunger: int, xp: int, level: int, canAscend: bool,
                           baseAtk: int)

  datatype Resources = Resources(gold: int, humanity: int)

  /** The three equipment slots; `None` is `null`. */
  datatype Equipment = Equipment(weapon: Option<ItemDef>, body: Option<ItemDef>, charm: Option<ItemDef>)
  {
    function In(slot: Slot): Option<ItemDef>
    {
      match slot
      case Weapon => weapon
      case Body => body
      case Charm => charm
    }

    /** `{ ...equipment, [slot]: item }` */
    function With(slot: Slot, item: ItemDef): (e: Equipment)
      ensures e.In(slot) == Some(item)
      ensures forall other :: other != slot ==> e.In(other) == In(other)
    {
      match slot
      case Weapon => this.(weapon := Some(item))
      case Body => this.(body := Some(item))
      case Charm => this.(charm := Some(item))
    }
  }

  datatype Stats = Stats(monstersKilled: int, relicsFound: int, foundRelicIds: seq<ItemId>)

  /** A monster in combat: its table entry plus `maxHp` and `hp`. */
  datatype Monster = Monster(def: MonsterDef, maxHp: int, hp: int)

  datatype Status = Status(inCombat: bool, isDead: bool, combatLog: seq<string>, curseIntensity: int,
                           logs: seq<string>, currentMonster: Option<Monster>, currentEvent: Option<Event>)

  datatype GameState = GameState(player: Player, resources: Resources, inventory: Inv<ItemId>,
                                 equipment: Equipment, machines: map<string, int>, stats: Stats,
                                 status: Status)

  const WelcomeLine := "Bem-vindo a Orth. Construa sua reputação e explore o desconhecido."

  /** `initialState`. The six machine levels start at 0. */
  const INITIAL: GameState := GameState(
    Player("Explorador", 0, 0, 100, 100, 100, 100, 0, 1, true, 0),
    Resources(100, 0),
    [Stack("ration", 2)],
    Equipment(None, None, None),
    map["excavator" := 0, "refinery" := 0, "balloon" := 0, "kitchen" := 0, "generator" := 0, "bank" := 0],
    Stats(0, 0, []),
    Status(false, false, [], 0, [WelcomeLine], None, None))

  function Max(a: int, b: int): int { if a < b then b else a }

  function Min(a: int, b: int): int { if a < b then a else b }

  /** `machines[id] || 0` */
  function Level(machines: map<string, int>, id: string): int
  {
    if id in machines then machines[id] else 0
  }

  /** `[line, ...logs].slice(0, 50)`: the newest line first, at most 50 kept. */
  function PushLog(logs: seq<string>, line: string): (r: seq<string>)
    ensures 1 <= |r| <= 50 && r[0] == line
    ensures |logs| < 50 ==> r == [line] + logs
    ensures r[1..] == logs[..|r| - 1]
  {
    var all := [line] + logs;
    if |all| <= 50 then all else all[..50]
  }

  /** `if (!ids.includes(id)) ids.push(id)`, as a new list. */
  function Remember(ids: seq<ItemId>, id: ItemId): (r: seq<ItemId>)
    ensures id in r
    ensures forall x :: x in r <==> x in ids || x == id
    ensures id in ids ==> r == ids
    ensures id !in ids ==> |r| == |ids| + 1
  {
    if id in ids then ids else ids + [id]
  }

  predicate NoDuplicates<T(==)>(xs: seq<T>)
  {
    forall i, j :: 0 <= i < j < |xs| ==> xs[i] != xs[j]
  }

  lemma RememberKeepsNoDuplicates(ids: seq<ItemId>, id: ItemId)
    requires NoDuplicates(ids)
    ensures NoDuplicates(Remember(ids, id))
  {
  }

  /** The facts every reducer step keeps: each inventory stack holds at
      least one unit, no id has two stacks, the catalogue of found ids lists
      each id once, and the curse intensity stays within 0..100. */
  predicate Valid(s: GameState)
  {
    Positive(s.inventory) && DistinctIds(s.inventory) && NoDuplicates(s.stats.foundRelicIds)
    && 0 <= s.status.curseIntensity <= 100
  }

  lemma InitialIsValid()
    ensures Valid(INITIAL)
    ensures Units(INITIAL.inventory, "ration") == 2
  {
    assert INITIAL.inventory[1..] == [];
  }

  /** The correction applied to a loaded save (lines 509-510): a negative hp
      becomes 0, and an hp of 0 marks the player dead. */
  function Sanitize(s: GameState): (t: GameState)
    ensures t.player.hp == Max(0, s.player.hp)
    ensures t.status.isDead <==> s.status.isDead || s.player.hp <= 0
    ensures t == s.(player := t.player, status := t.status)
    ensures t.player == s.player.(hp := t.player.hp)
    ensures t.status == s.status.(isDead := t.status.isDead)
  {
    var hp := if s.player.hp < 0 then 0 else s.player.hp;
    s.(player := s.player.(hp := hp),
       status := if hp == 0 then s.status.(isDead := true) else s.status)
  }

  /** Loading twice corrects nothing more. */
  lemma SanitizeIdempotent(s: GameState)
    ensures Sanitize(Sanitize(s)) == Sanitize(s)
  {
  }
}
