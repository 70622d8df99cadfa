# A Dafny model of the miagame core

miagame is a browser game. The player descends into an abyss, meets monsters, loot and
strangers, and climbs back to a surface shop. All game state lives in one record that a
React reducer, `gameReducer`, updates. The panels around it decide which actions to
dispatch. This project models that core as pure Dafny functions and proves what the code
promises:

- `Inventory` models the two stack helpers, `addToStack` and `removeFromStack`, and the
  material loop of `CRAFT_ITEM`.
- `State` models the state record, the 50-line log, the found-id list and the check applied
  to a loaded save.
- `Content` holds the item, monster, recipe and layer tables, with the facts that relate them.
- `Events` models the encounter generator `generateEvent`.
- `Draws` models `Math.random()` and `Math.floor(r * n)`.
- `Reducer` models every case of `gameReducer` as `Step(s, a)`. `Run(s, acts)` dispatches
  a list of actions in order.
- `StatusPanel`, `CombatModal`, `EventModal`, `ShopPanel`, `CraftingPanel`, `GameLoop` and
  `RelicBook` model the controllers. Each handler is a function returning the list of
  actions it dispatches. Lemmas then run that list through the reducer.
- `Text` and `Wrappers` are helpers for strings, `Option` and `Result`.

Every `Math.random()` becomes an explicit `real` draw in `[0, 1)` (`Draws.IsDraw`). Draws
the reducer makes itself travel inside the action that needs them: `AppraiseItem(index,
roll, pick)` and `CombatRound(choice, hit, blow)`. The reducer throws on some inputs:
`COMBAT_ROUND` reads `currentMonster.hp`, and the index cases read `inventory[index]`.
`Reducer.Defined` states when a step does not throw, and `Step` requires it.

Item ids are strings, not an enumeration. Appraisal hands out ids that are not in the
catalogue, such as `reg_arm` and `life_stone`, and the found-id list keeps them.

Where the design description of the game and the code disagree, the model follows the code:

- A purchase or trade is not refused for lack of gold at every layer. The reducer never
  checks gold for `BUY_ITEM`, `BUY_UPGRADE` or `APPRAISE_ITEM`. The shop checks it only for
  the two purchases. With the appraisal tab corrected to offer raw relics, an appraisal
  could leave the player in debt (`ShopPanel.AppraisalOverdraws`). As written the tab
  offers nothing, and no path of the game puts a raw relic in the backpack: the loot pool
  leaves it out, the supplies tab does not sell it, no recipe makes it, and NPC rewards
  are unreachable while the NPC band throws.
- `hp` is not clamped below by `USE_ITEM`. Raw meat can leave a negative hp with `isDead`
  still false (`Reducer.MeatLeavesNegativeHp`).
- The reducer and the generator can throw. A missing monster or a bad index makes the
  reducer throw, so `Step` has a precondition. The NPC band of the generator throws, so
  that outcome is an `Err`.
- The monster draw is not filtered by depth (`Events.MonsterBand`).
- The curse fades on `TICK_PASSIVE`. There is no `TICK_FAST` action.
- The game loop dispatches `ADD_GOLD`, not `TICK_PASSIVE`.
- The descent handler has no branch for an NPC encounter. Even with the NPC table in place, an NPC would be dropped rather than shown (`StatusPanel.DescendWithNpcTable`).
- Forecasts, transformation, vengeance, taming, outposts and bank interest have no code
  behind them in this version.

## Model

| member | source | states |
|---|---|---|
| Inventory.FindIndex | src/context/GameContext.jsx:52 | the first index holding the id, or -1 exactly when no stack has it |
| Inventory.AddToStack | src/context/GameContext.jsx:51-60 | an existing stack of the id grows by `qty` in place while every other entry keeps its place; otherwise `{id, qty}` is appended |
| Inventory.AddToStackUnits | src/context/GameContext.jsx:51-60 | the total units of the id rise by exactly `qty`, and those of every other id stay the same |
| Inventory.AddToStackKeepsShape | src/context/GameContext.jsx:51-60 | adding keeps one stack per id, and keeps every stack non-empty for a positive quantity |
| Inventory.RemoveFromStackEffect | src/context/GameContext.jsx:63-72 | a stack larger than `qty` shrinks in place; otherwise the whole entry goes (even when it held fewer) and later entries move up one place in order |
| Inventory.RemoveFromStackKeepsShape | src/context/GameContext.jsx:63-72 | removal never leaves a zero-count stack and keeps one stack per id |
| Inventory.RemoveFromStackUnits | src/context/GameContext.jsx:63-72 | removal takes `min(count, qty)` units of that stack's id and none of any other id |
| Inventory.ConsumeOneIsRemove | src/context/GameContext.jsx:342-345 | one pass of the crafting loop is `removeFromStack(inv, findIndex(id), 1)`, or no change when the id is absent |
| Inventory.ConsumeOneUnits | src/context/GameContext.jsx:342-345 | one pass takes one unit of the id when there is one, and nothing else |
| Inventory.ConsumeNUnits | src/context/GameContext.jsx:341-346 | `count` passes take `count` units of the id, down to zero, and nothing of other ids |
| Inventory.ConsumeAllUnits | src/context/GameContext.jsx:339-347 | the whole requirement list takes exactly what it asks of each id, down to zero |
| Inventory.ConsumeAllPositive | src/context/GameContext.jsx:339-347 | consuming materials leaves no empty stack |
| Inventory.ConsumeAllDistinct | src/context/GameContext.jsx:339-347 | consuming materials keeps one stack per id |
| State.PushLog | src/context/GameContext.jsx:183 | the new line comes first, at most 50 lines are kept, and the rest are the newest old lines in order |
| State.Remember | src/context/GameContext.jsx:188-189 | the id is present afterwards; the list is unchanged when it already held the id, and otherwise grows by exactly that id |
| State.RememberKeepsNoDuplicates | src/context/GameContext.jsx:188-189 | the found-id list never lists an id twice |
| State.InitialIsValid | src/context/GameContext.jsx:4-48 | the initial state meets the invariant and carries two rations |
| State.Sanitize | src/context/GameContext.jsx:509-510 | a loaded hp below 0 becomes 0, the player is marked dead exactly when the save said so or hp was at most 0, and nothing else changes |
| State.SanitizeIdempotent | src/context/GameContext.jsx:509-510 | correcting a corrected save changes nothing |
| Content.FindItem | src/features/inventory/CraftingPanel.jsx:36 | the catalogue lookup succeeds exactly for catalogue ids and returns an entry with that id |
| Content.ItemIdsDistinct | src/lib/constants.js:1-28 | no two catalogue items share an id |
| Content.RecipesUseCatalogueItems | src/lib/constants.js:36-40 | every recipe result and requirement names a catalogue item |
| Content.MonstersWellFormed | src/lib/constants.js:30-34 | every drop is a catalogue item, every power is positive, and fresh monsters start at 100, 250 and 600 hp |
| Content.EquipItemsHaveSlots | src/lib/constants.js:25-27 | every equipment item names the weapon or the charm slot |
| Content.MeatIsTheOnlyHarmfulItem | src/lib/constants.js:3-27 | raw meat (hp -5) is the only item with a negative effect |
| Content.LayersContiguous | src/lib/constants.js:42-50 | the layers start at 0, end at 99999, and each one's `max + 1` is the next one's `min` |
| Content.LayersDisjoint | src/lib/constants.js:42-50 | no depth lies in two layers |
| Content.LayerAt | src/features/exploration/VisualPanel.jsx:32 | for depths 0..99999 the lookup returns the unique layer holding the depth, and the first layer otherwise |
| Draws.Pick | src/utils/eventSystem.js:10 | `Math.floor(r * n)` is a valid index into a list of `n` entries |
| Draws.PickReachesEveryIndex | src/utils/eventSystem.js:10 | every index is picked by some draw |
| Events.LootPool | src/utils/eventSystem.js:21-25 | the findable items are exactly the catalogue's loot, materials and consumables priced at most 50, and there is at least one |
| Events.GenerateEvent | src/utils/eventSystem.js:4-70 | the generator fails exactly for draws in `[0.4, 0.45)`, and never yields an NPC |
| Events.GenerateEventBands | src/utils/eventSystem.js:4-70 | below 0.1 a monster of the whole list; below 0.4 a findable catalogue item; a relic exactly in `[0.45, 0.55)` deeper than 2000; atmosphere from the fixed list for every other draw from 0.45 up |
| Events.MonsterBand | src/utils/eventSystem.js:8-16 | a draw below 0.1 meets a monster of the bestiary at any depth |
| Events.LootBand | src/utils/eventSystem.js:19-33 | a draw in `[0.1, 0.4)` finds a catalogue item whose id is one of the loot pool's |
| Events.LootPoolIds | src/utils/eventSystem.js:21-25 | a catalogue item is findable exactly when its id is one of eight listed ids, so the pool yields no other id |
| Events.LootIdsCount | src/utils/eventSystem.js:21-25 | there are eight loot ids, and the relic's missing id is not among them |
| Events.UpperBand | src/utils/eventSystem.js:49-69 | from 0.45 up, a relic when the draw is below 0.55 and the depth beyond 2000, else one of the six atmosphere lines |
| Events.CombatAndLootIgnoreDepth | src/utils/eventSystem.js:8-33 | below 0.4 the outcome does not depend on the depth |
| Events.NpcBandFails | src/utils/eventSystem.js:36-37 | every draw in the NPC band raises the undefined-`NPCS` error |
| Events.Nearby | src/utils/eventSystem.js:37 | the NPCs kept are exactly those whose depth range holds the depth |
| Events.GenerateEventWithNpcs | src/utils/eventSystem.js:36-46 | with an NPC table, the band yields an NPC in range exactly when one exists, and every other outcome is the written generator's |
| Reducer.DescendStep | src/context/GameContext.jsx:80-110 | depth grows by the amount and maxDepth follows; hunger drops by `cost \|\| 2`, floored at 0, and each missing point costs 2 hp, floored at 0; dead exactly at 0 hp |
| Reducer.AscendStep | src/context/GameContext.jsx:112-142 | depth falls by the amount, floored at 0; maxDepth stays; hunger as for descending but 3 hp per missing point; dead exactly at 0 hp; the curse goes to 100 |
| Reducer.TakeDamageStep | src/context/GameContext.jsx:144-150 | hp falls by the damage, floored at 0, dead exactly at 0, and nothing else changes |
| Reducer.SimpleCases | src/context/GameContext.jsx:152-168 | HEAL and EAT raise their field by the amount until the maximum stops them (within bounds for a non-negative amount), ADD_GOLD adds the amount, and SET_NAME (line 78) sets only the name |
| Reducer.TickStep | src/context/GameContext.jsx:170-178 | passive income is added, the curse fades by 5 but not below 0, and nothing else changes |
| Reducer.AddLogStep | src/context/GameContext.jsx:180-184 | the line heads a log of at most 50 lines, and nothing else changes |
| Reducer.LootFoundStep | src/context/GameContext.jsx:186-196 | exactly one unit of the found id is added, no other id changes, the id is remembered once, and one line is logged |
| Reducer.ClearEventIdempotent | src/context/GameContext.jsx:204-208 | CLEAR_EVENT empties only the event slot, and a second one changes nothing |
| Reducer.BuyUpgradeStep | src/context/GameContext.jsx:210-215 | the cost is paid without a check, and that machine, and only it, gains one level (from 0 when absent) |
| Reducer.BuyItemStep | src/context/GameContext.jsx:217-222 | the cost is paid without a check, and one unit of the item, and no other, is added |
| Reducer.SellItemStep | src/context/GameContext.jsx:224-229 | one unit of the stack at the index goes, and the payout is added |
| Reducer.InteractStep | src/context/GameContext.jsx:231-292 | a refused trade prepends its reason to the log without the 50-line cap and changes nothing else; an accepted one logs its reward line |
| Reducer.InteractRefusal | src/context/GameContext.jsx:239-250 | a trade is refused exactly when a non-zero gold cost exceeds the gold, a non-zero hp cost is at least the hp, or a non-zero hunger cost exceeds the hunger; a refusal leaves player, resources and inventory alone |
| Reducer.InteractPays | src/context/GameContext.jsx:252-280 | after an accepted trade gold is not negative, and at least 1 hp remains when hp was the price; each reward does what it says, and only an item reward touches the inventory |
| Reducer.Tier | src/context/GameContext.jsx:303-319 | the roll selects a non-empty tier |
| Reducer.AppraisalResult | src/context/GameContext.jsx:301-319 | the identified id belongs to the rolled tier |
| Reducer.AppraisalTiers | src/context/GameContext.jsx:301-319 | above 0.99 `reg_arm`, above 0.95 legendary, above 0.80 rare, above 0.50 uncommon, otherwise common |
| Reducer.AppraisalReachesTier | src/context/GameContext.jsx:304-319 | every id of a tier is the result of some pick |
| Reducer.AppraisalLeavesCatalogue | src/context/GameContext.jsx:303-318 | seven of the ids appraisal hands out are not catalogue items |
| Reducer.AppraiseStep | src/context/GameContext.jsx:294-331 | exactly 50 gold is charged with no check, `relicsFound` rises by 1, the result id is remembered only if new, and one line is logged |
| Reducer.AppraiseMovesUnits | src/context/GameContext.jsx:298-328 | one unit of the appraised stack goes and one unit of the result comes; no other id changes |
| Reducer.AppraisalCanOverdraw | src/context/GameContext.jsx:327 | below 50 gold an appraisal leaves the purse negative |
| Reducer.CraftStep | src/context/GameContext.jsx:333-351 | crafting changes only the inventory and always leaves a stack of the result |
| Reducer.CraftMovesUnits | src/context/GameContext.jsx:333-351 | each id loses what the recipe asks of it, down to zero, and the result gains exactly one unit |
| Reducer.UseStep | src/context/GameContext.jsx:353-366 | a non-zero effect moves hp and hunger, capped only at their maxima; one unit of the stack goes; one combat line is appended |
| Reducer.MeatLeavesNegativeHp | src/context/GameContext.jsx:353-366 | eating raw meat at 3 hp leaves -2 hp, with the player not marked dead |
| Reducer.EquipStep | src/context/GameContext.jsx:368-390 | the item takes its slot (weapon by default), the other slots keep their items, and one line is logged |
| Reducer.EquipMovesUnits | src/context/GameContext.jsx:368-390 | one unit of the stack at the index goes and the item that held the slot comes back |
| Reducer.CombatStartStep | src/context/GameContext.jsx:392-401 | the fight starts with the monster at hp = maxHp = 5 · power and a fresh one-line combat log |
| Reducer.HitDamage | src/context/GameContext.jsx:411-425 | the player's hit is 5 to 14 plus the weapon, charm and base bonus |
| Reducer.BlowDamage | src/context/GameContext.jsx:433 | the monster's blow lies between 0 and half its power |
| Reducer.CombatRoundStep | src/context/GameContext.jsx:403-455 | a round keeps the monster's kind and maximum and appends at most two combat lines; only the player's hp, isDead, the monster and the combat log change |
| Reducer.CombatRoundOutcome | src/context/GameContext.jsx:403-455 | the attack's hit comes off the monster, stored at 0 or more; a beaten monster leaves the player and isDead as they were; a living one strikes unless the choice is FLEE, with the player dead exactly at 0 hp |
| Reducer.CombatWinStep | src/context/GameContext.jsx:457-462 | the prize is added and the fight, monster and event are cleared |
| Reducer.CombatFleeStep | src/context/GameContext.jsx:464-468 | the fight, monster, event and combat log are cleared |
| Reducer.RespawnStep | src/context/GameContext.jsx:470-492 | full hp, depth 0, hunger 100, half the gold rounded down, an empty backpack, no fight or event, maxDepth and equipment kept |
| Reducer.UnhandledIsNoOp | src/context/GameContext.jsx:494-495 | a type string that none of the 25 cases names changes nothing |
| Reducer.FoundGrowsOnlyByLootOrAppraisal | src/context/GameContext.jsx:75-497 | only LOOT_FOUND and APPRAISE_ITEM touch the found-id list, each remembering one id; every other action leaves it unchanged |
| Reducer.StepKeepsValid | src/context/GameContext.jsx:75-497 | every step keeps stacks non-empty and one per id, found ids unique, and the curse within 0..100 |
| Reducer.RunKeepsValid | src/context/GameContext.jsx:75-497 | any sequence of dispatches keeps that invariant |
| Text.Trim | src/features/exploration/StatusPanel.jsx:40-41 | trimming leaves no white space at either end, and yields the empty string exactly for a blank input |
| StatusPanel.HandleNameSubmit | src/features/exploration/StatusPanel.jsx:39-44 | SET_NAME goes out, with the trimmed name, exactly when the typed name is not blank |
| StatusPanel.Route | src/features/exploration/StatusPanel.jsx:59-69 | an event yields at most one dispatch, and none exactly for an NPC |
| StatusPanel.HandleDescend | src/features/exploration/StatusPanel.jsx:54-70 | DESCEND {10, 2} always goes out first, and the handler throws exactly when the generator failed |
| StatusPanel.OnDescend | src/features/exploration/StatusPanel.jsx:54-70 | with the generator run for depth + 10, DESCEND goes out first, the handler throws exactly in the NPC band, and otherwise exactly one routed action follows |
| StatusPanel.DescentRemembersOnlyLoot | src/features/exploration/StatusPanel.jsx:54-70 | a descent leaves the found list as it was or appends one id, which is a loot pool id or the relic's missing id |
| StatusPanel.DescentKeepsFoundByLoot | src/features/exploration/StatusPanel.jsx:54-70 | a found list made only of loot ids and the missing id stays so across a descent |
| StatusPanel.DescendOutcome | src/features/exploration/StatusPanel.jsx:54-58 | a descent lands 10 m down at a cost of 2 hunger (2 hp per missing point); after a generator failure only DESCEND took effect, otherwise the routed event is applied on top |
| StatusPanel.DescendThrowsInNpcBand | src/features/exploration/StatusPanel.jsx:58 | the generator run for depth + 10 never yields an NPC, and the handler throws exactly in the NPC band |
| StatusPanel.DescendMeetsMonster | src/features/exploration/StatusPanel.jsx:64-65 | below 0.1 the monster is left pending as TRIGGER_EVENT |
| StatusPanel.DescendFindsLoot | src/features/exploration/StatusPanel.jsx:59-60 | in `[0.1, 0.4)` the descent finds a catalogue item through LOOT_FOUND |
| StatusPanel.DescendFindsRelic | src/features/exploration/StatusPanel.jsx:66-67 | a relic is handed to LOOT_FOUND, with no id |
| StatusPanel.DescendSeesAtmosphere | src/features/exploration/StatusPanel.jsx:62-63 | the remaining upper draws only log an atmosphere line |
| StatusPanel.HandleAscend | src/features/exploration/StatusPanel.jsx:72-81 | nothing at depth 0 or above; otherwise TAKE_DAMAGE of 5 to 9, its log line, then ASCEND {50} at the default cost |
| StatusPanel.AscendOutcome | src/features/exploration/StatusPanel.jsx:72-81 | an ascent climbs 50 m, floored at 0, after the curse's 5 to 9 damage; hunger drops by 2 (3 hp per missing point); the player is dead exactly at 0 hp; the curse goes to 100 |
| StatusPanel.AscendRun | src/features/exploration/StatusPanel.jsx:76-80 | the three dispatches are TAKE_DAMAGE, then ADD_LOG, then ASCEND, in that order |
| StatusPanel.DescendWithNpcTable | src/features/exploration/StatusPanel.jsx:58-69 | with an NPC table the descent never throws, and only DESCEND goes out exactly when an NPC in range is met, since the handler has no branch for NPCs |
| StatusPanel.DescentClosesShop | src/features/exploration/StatusPanel.jsx:168 | after any descent from the surface the shop button is disabled |
| StatusPanel.ClimbOpensShop | src/features/exploration/StatusPanel.jsx:168 | an ascent re-enables the shop exactly when it starts within 50 m of the surface |
| CombatModal.HandleAttack | src/features/combat/CombatModal.jsx:28-30 | an attack round goes out, and only while the dialog shows a fight with a monster |
| CombatModal.HandleFlee | src/features/combat/CombatModal.jsx:32-38 | a draw above 0.5 sends COMBAT_FLEE, any other draw a WAIT round; nothing while no fight is shown |
| CombatModal.WinTrigger | src/features/combat/CombatModal.jsx:18-26 | COMBAT_WIN with 100 gold goes out exactly when the current monster is at 0 hp or below |
| CombatModal.AttackOutcome | src/features/combat/CombatModal.jsx:28-30 | the monster loses the hit, floored at 0; a beaten monster leaves the player untouched and triggers the win; otherwise the player loses at most half the monster's power and is dead exactly at 0 hp |
| CombatModal.FleeEscapes | src/features/combat/CombatModal.jsx:33-34 | a successful flight ends the fight and clears its log, monster and event, and leaves the player and the purse alone |
| CombatModal.FleeWaits | src/features/combat/CombatModal.jsx:35-37 | a failed flight leaves a living monster as it was, and the player loses at most half its power |
| CombatModal.WaitRound | src/context/GameContext.jsx:431-436 | a WAIT round does not hurt the monster, and its blow costs at most half its power |
| CombatModal.WinOutcome | src/features/combat/CombatModal.jsx:20-23 | the win pays exactly 100 gold, clears the fight and the event, leaves player and backpack alone, and does not fire again |
| EventModal.HandleClose | src/features/exploration/EventModal.jsx:9-13 | only CLEAR_EVENT goes out, and only while an event is pending |
| EventModal.HandleAction | src/features/exploration/EventModal.jsx:15-25 | loot becomes a free BUY_ITEM and a monster COMBAT_START, each followed by CLEAR_EVENT; no button for atmosphere or NPCs |
| EventModal.ChooseOption | src/features/exploration/EventModal.jsx:51-58 | an NPC option sends INTERACT_NPC with exactly that option's cost and reward, then CLEAR_EVENT |
| EventModal.TakeLoot | src/features/exploration/EventModal.jsx:17-18 | taking loot leaves the purse alone, adds exactly one unit of the item and no other, and clears the event |
| EventModal.StartFight | src/features/exploration/EventModal.jsx:21-22 | fighting starts the combat with the monster at 5 · power hp and clears the event; player, purse and backpack stay |
| EventModal.TradeThenClose | src/features/exploration/EventModal.jsx:55-57 | choosing an option applies that trade, accepted or refused, and then clears the event |
| EventModal.CloseIdempotent | src/features/exploration/EventModal.jsx:11-13 | closing clears only the event, and a second close finds no dialog |
| ShopPanel.UpgradesPositive | src/features/tycoon/ShopPanel.jsx:15-20 | every upgrade has a positive base price and multiplier |
| ShopPanel.PriceRisesWithLevel | src/features/tycoon/ShopPanel.jsx:26 | an upgrade's price strictly rises with its machine level |
| ShopPanel.BuyUpgradeClick | src/features/tycoon/ShopPanel.jsx:28-33 | BUY_UPGRADE at the current price goes out exactly when the gold covers it |
| ShopPanel.UpgradeOutcome | src/features/tycoon/ShopPanel.jsx:28-33 | after a purchase the gold is not negative, that machine alone gains a level, and the next price is one multiplier higher |
| ShopPanel.Supplies | src/features/tycoon/ShopPanel.jsx:95 | the supplies tab lists exactly the catalogue's consumables and equipment |
| ShopPanel.BuyItemClick | src/features/tycoon/ShopPanel.jsx:35-39 | BUY_ITEM at the item's price goes out exactly when the gold covers it |
| ShopPanel.BuyItemOutcome | src/features/tycoon/ShopPanel.jsx:35-39 | after a purchase the gold is not negative and the backpack holds one more unit |
| ShopPanel.FindMatching | src/features/tycoon/ShopPanel.jsx:42 | a match is a catalogue entry |
| ShopPanel.EntryNeverMatches | src/features/tycoon/ShopPanel.jsx:42 | comparing ids with a whole backpack entry finds nothing |
| ShopPanel.StringMatchesById | src/features/tycoon/ShopPanel.jsx:42 | with a string the lookup is the lookup by id |
| ShopPanel.SellAlwaysThrows | src/features/tycoon/ShopPanel.jsx:41-44 | as written, selling any stack throws before dispatching |
| ShopPanel.LabelFor | src/features/tycoon/ShopPanel.jsx:206-207 | no item shows "???" and +0; an item shows half its price rounded down |
| ShopPanel.SellLabelShowsNothing | src/features/tycoon/ShopPanel.jsx:194-207 | as written every sell button reads "???" and +0, since the lookup is given the whole entry |
| ShopPanel.Payout | src/features/tycoon/ShopPanel.jsx:207 | with the entry looked up by id, the button shows half the catalogue price rounded down, at least 2 for a catalogue item, and 0 for an id outside the catalogue |
| ShopPanel.CorrectedLabelPays | src/features/tycoon/ShopPanel.jsx:194-207 | for every catalogue item the corrected button shows more than the +0 of the button as written |
| ShopPanel.Sell | src/features/tycoon/ShopPanel.jsx:41-44 | with the entry looked up by id, selling a catalogue item sends SELL_ITEM with the corrected button's payout; an id outside the catalogue still throws the TypeError of line 43 |
| ShopPanel.SellOutcome | src/features/tycoon/ShopPanel.jsx:41-44 | a sale of a catalogue item takes one unit of that stack and none of any other id, and pays at least 2 gold |
| ShopPanel.IdlessRelicIsUnsellable | src/features/tycoon/ShopPanel.jsx:41-44 | the relic a descent finds has no id, so even the corrected sale throws for it |
| ShopPanel.AppraisalOfferAsWritten | src/features/tycoon/ShopPanel.jsx:168-170 | the offered positions are backpack positions |
| ShopPanel.AppraisalNeverOffered | src/features/tycoon/ShopPanel.jsx:168-182 | as written the appraisal tab offers nothing |
| ShopPanel.AppraisalOffer | src/features/tycoon/ShopPanel.jsx:168-172 | the offered positions are exactly those holding a raw relic, looked up by id |
| ShopPanel.OnlyDirtyRelicIsAppraisable | src/lib/constants.js:19 | the dirty relic is the only raw relic in the catalogue |
| ShopPanel.AppraiseClick | src/features/tycoon/ShopPanel.jsx:172 | APPRAISE_ITEM goes out exactly for an offered position, whatever the gold |
| ShopPanel.AppraisalOverdraws | src/features/tycoon/ShopPanel.jsx:172 | an offered appraisal charges 50 gold, and below 50 gold leaves the player in debt |
| CraftingPanel.Tally | src/features/inventory/CraftingPanel.jsx:20-24 | the tally never exceeds the number of entries |
| CraftingPanel.TallyBelowUnits | src/features/inventory/CraftingPanel.jsx:20-24 | with non-empty stacks the tally never exceeds the units |
| CraftingPanel.TallyAtMostOne | src/features/inventory/CraftingPanel.jsx:20-24 | with one stack per id the tally is 0 or 1, and 1 exactly when the id is present |
| CraftingPanel.AsWrittenIsSound | src/features/inventory/CraftingPanel.jsx:19-26 | the test as written never allows a craft the stacks cannot pay for |
| CraftingPanel.AsWrittenMissesStacks | src/features/inventory/CraftingPanel.jsx:19-26 | five scrap and two bones pay for a pickaxe, yet fail the test as written |
| CraftingPanel.ScrapRecipesNeverCraftableAsWritten | src/features/inventory/CraftingPanel.jsx:19-26 | with one stack per id, the medical kit and the pickaxe never pass the test as written |
| CraftingPanel.TestsAgreeOnSingleUnits | src/features/inventory/CraftingPanel.jsx:19-26 | for recipes asking one unit of each id, both tests agree |
| CraftingPanel.HandleCraftAsWritten | src/features/inventory/CraftingPanel.jsx:28-32 | CRAFT_ITEM goes out exactly when the test as written passes |
| CraftingPanel.HandleCraft | src/features/inventory/CraftingPanel.jsx:28-32 | CRAFT_ITEM goes out exactly when the stacks hold every requirement |
| CraftingPanel.RecipesHaveUniqueKeys | src/lib/constants.js:36-40 | no recipe names an id twice |
| CraftingPanel.NeededOfKey | src/lib/constants.js:36-40 | a requirement key asks exactly its count |
| CraftingPanel.CraftConsumesInFull | src/features/inventory/CraftingPanel.jsx:28-32 | a permitted craft consumes every requirement in full, adds one result and touches nothing else |
| CraftingPanel.HandleUse | src/features/inventory/CraftingPanel.jsx:34-40 | USE_ITEM goes out exactly for a catalogue consumable, carrying its catalogue entry |
| CraftingPanel.UseOnlyConsumables | src/features/inventory/CraftingPanel.jsx:34-40 | what is used is the consumable catalogue entry of the stack's own id |
| CraftingPanel.UseOutcome | src/features/inventory/CraftingPanel.jsx:34-40 | using takes one unit of that stack and none of any other id, moves hp and hunger capped only at their maxima, and adds one combat line |
| GameLoop.Tick | src/hooks/useGameLoop.js:28-31 | ADD_GOLD goes out exactly for a positive gain, carrying that gain |
| GameLoop.GainFormula | src/hooks/useGameLoop.js:11-19 | with excavators working the gain is exactly `excavator · (5 + generator)` |
| GameLoop.ScaledIncome | src/hooks/useGameLoop.js:19 | `floor(e · 5 · (1 + g · 0.2))` equals `e · (5 + g)` over exact arithmetic |
| GameLoop.GainMonotone | src/hooks/useGameLoop.js:12-19 | for non-negative levels the gain is non-negative and grows with either machine |
| GameLoop.TickOutcome | src/hooks/useGameLoop.js:28-31 | a tick adds exactly the positive part of the gain and changes nothing else |
| GameLoop.MissingGeneratorPaysNothing | src/hooks/useGameLoop.js:12-19 | excavators without a generator entry make the gain NaN, and nothing is paid |
| GameLoop.FreshGameEarnsNothing | src/hooks/useGameLoop.js:18 | with no excavator the gain is 0 and no tick dispatches |
| RelicBook.Catalogue | src/features/encyclopedia/RelicBookModal.jsx:23 | the book lists exactly the catalogue items that are neither materials nor consumables |
| RelicBook.CompareIsOrdering | src/features/encyclopedia/RelicBookModal.jsx:26-32 | the comparator is antisymmetric, total and transitive |
| RelicBook.SortIsSortedPermutation | src/features/encyclopedia/RelicBookModal.jsx:26-32 | sorting permutes its input into comparator order |
| RelicBook.ListingOrder | src/features/encyclopedia/RelicBookModal.jsx:23-32 | the listing is the shown catalogue, found items first, then by ascending rarity within each group (absent rarity as 10) |
| RelicBook.CompletionOverflows | src/features/encyclopedia/RelicBookModal.jsx:34 | completion passes 100% exactly when more ids were found than the catalogue holds; one too many shows 106% |
| RelicBook.CompletionMonotone | src/features/encyclopedia/RelicBookModal.jsx:34 | more found ids never lower the percentage |
| RelicBook.FoundCanOutgrowCatalogue | src/features/encyclopedia/RelicBookModal.jsx:34 | a list of eighteen distinct ids, appraisal results among them, shows 106%; as written no play reaches it (see `LootAloneCapsCompletion`), only a loaded save or the corrected appraisal tab with a source of raw relics |
| RelicBook.LootAloneCapsCompletion | src/features/encyclopedia/RelicBookModal.jsx:34 | a found list of distinct loot ids and the missing id holds at most nine ids and shows at most 53%, so the book is never full when descents are the only source |

## Left out

- localStorage loading and the 5-second autosave timer in `GameProvider` (I/O and timers). Only the correction applied to a loaded save is modelled.
- Firebase authentication, presence, chat and market (network I/O). The market actions have no reducer case and fall into the unchanged default.
- Rendering: the layout, icons and the outpost, death and leaderboard dialogs. Only the one-line layer lookup of the visual panel is modelled.
- `setInterval` and `setTimeout` scheduling in the game loop and the combat dialog. Only what each tick or callback dispatches is modelled.
- The abyss-dust draw in the game loop. It only enters an empty branch and changes no state.
- JavaScript floating point. Draws and multipliers are exact reals, so `Math.floor(e * 5 * (1 + g * 0.2))` is taken at its exact value.
- Legacy bare-string backpack entries (`typeof item === 'string'`). No reducer path or initial state produces them, so the backpack holds `{id, count}` stacks only.
- In-place mutation of `foundRelicIds` with `push`. It is modelled as a fresh list with the id added when absent; aliasing with earlier states is not modelled.
- The `npcId` and `optionId` fields of INTERACT_NPC. The reducer never reads them.
- The `NPCS` table is not part of this model. The generator never imports it, and the corrected generator takes the table as a parameter.
- Sort stability is modelled by a stable insertion sort. `Array.prototype.sort` guarantees stability, but the engine's own algorithm is not modelled.
- StatusPanel.ShopOpen, GameLoop.TickGain, ShopPanel.GetPrice and RelicBook.Completion carry no contract of their own. Their properties are stated by the lemmas in the table above.
- Reducer.Step, Reducer.Defined, CraftingPanel.CanCraftAsWritten, CraftingPanel.CanCraft, ShopPanel.SellAsWritten, ShopPanel.SellLabelAsWritten, Events.GenerateEventWith and RelicBook.Listing also carry no contract of their own. `Step` (GameContext.jsx:75-497) is described by the per-case rows, `StepKeepsValid` and `RunKeepsValid`. `Defined` states when the reducer returns rather than throws. The two crafting tests (CraftingPanel.jsx:19-26) are compared by `AsWrittenIsSound`, `AsWrittenMissesStacks` and `TestsAgreeOnSingleUnits`. `SellAsWritten` (ShopPanel.jsx:41-44) is described by `SellAlwaysThrows`, `SellLabelAsWritten` (ShopPanel.jsx:194-207) by `SellLabelShowsNothing`, `GenerateEventWith` by `GenerateEventWithNpcs`, and `Listing` (RelicBookModal.jsx:23-32) by `ListingOrder`.
- The claim that descents alone keep the relic book at most 53% is assembled from lemmas rather than stated about whole play sequences. `FoundGrowsOnlyByLootOrAppraisal` says only LOOT_FOUND and APPRAISE_ITEM add ids. `AppraisalNeverOffered` says the shop never offers an appraisal as written. LOOT_FOUND is dispatched only by the descent handler (StatusPanel.jsx:60, 67). `DescentKeepsFoundByLoot` keeps the found list within loot ids, and `LootAloneCapsCompletion` bounds the percentage. A save loaded from storage can hold any list.
- Text.Trim: states only that the result has no white space at either end and is empty exactly for blank input. It does not state that the result is the middle part of the input; `TrimStart` and `TrimEnd` each state their own half.
- ShopPanel.FindMatching: states only that a match is a catalogue entry. `EntryNeverMatches` and `StringMatchesById` give its behaviour for each kind of argument.
- StatusPanel.AscendOutcome: gives the exact hp after the climb, but the lower bound of 9 lost hp only when hunger covers the climb. Starving adds 3 hp per missing point.
- Reducer.StepKeepsValid: the invariant leaves out the 50-line log cap. INTERACT_NPC refusals and RESPAWN prepend lines without the cap.

## Findings

| source | as written | input that shows it | evidently intended | confidence | as-written member | corrected member |
|---|---|---|---|---|---|---|
| src/features/inventory/CraftingPanel.jsx:20-25 | `canCraft` counts backpack entries, not their `count` fields | backpack `[{scrap, 5}, {monster_bone, 2}]` with the pickaxe recipe: the tally is 1 scrap and 1 bone, so the craft is refused | compare the units held with each requirement | high, not executed | CraftingPanel.CanCraftAsWritten (CraftingPanel.AsWrittenMissesStacks, CraftingPanel.ScrapRecipesNeverCraftableAsWritten) | CraftingPanel.CanCraft (CraftingPanel.CraftConsumesInFull) |
| src/features/tycoon/ShopPanel.jsx:42-43 | the sell lookup compares catalogue ids with the whole `{id, count}` entry, finds nothing, and reads `.price` of `undefined` | selling the starting ration stack `{ration, 2}` throws a TypeError, and nothing is sold | look the entry up by its `id` and pay half its price; an id outside the catalogue, such as the relic's, still throws | high, not executed | ShopPanel.SellAsWritten (ShopPanel.SellAlwaysThrows) | ShopPanel.Sell (ShopPanel.SellOutcome, ShopPanel.IdlessRelicIsUnsellable) |
| src/features/tycoon/ShopPanel.jsx:194-207 | the sell tab's buttons look up the whole entry in the same way | the starting ration stack shows "???" and "+0 O" instead of "Ração" and "+12 O" | look the entry up by its `id` and show half its price | high, not executed | ShopPanel.SellLabelAsWritten (ShopPanel.SellLabelShowsNothing) | ShopPanel.Payout (ShopPanel.CorrectedLabelPays) |
| src/features/tycoon/ShopPanel.jsx:168-170 | the appraisal tab looks up the whole entry, so no entry is ever a raw relic | a backpack holding `{dirty_relic, 1}` offers nothing to appraise | offer the positions whose id is a raw relic | high, not executed | ShopPanel.AppraisalOfferAsWritten (ShopPanel.AppraisalNeverOffered) | ShopPanel.AppraisalOffer (ShopPanel.OnlyDirtyRelicIsAppraisable) |
| src/utils/eventSystem.js:1-37 | `NPCS` is read but never imported | any draw in `[0.4, 0.45)` raises a ReferenceError, so the descent handler throws after DESCEND | pick an NPC whose depth range holds the depth, else fall through to the later bands | high, not executed | Events.GenerateEvent (Events.NpcBandFails) | Events.GenerateEventWith (Events.GenerateEventWithNpcs) |
