# RogueProto rules engine in Dafny

This project models the rules engine of RogueProto, a small turn-based deck-building prototype about fighting zombies, and proves properties of that model. The core has four parts:

- **Combat engine** (`Combat`, from `src/engine.js`). It holds:
  - the player's resources: hp, AP, ammo and block;
  - the three card piles: deck, hand and discard pile;
  - the current enemy and its announced intent;
  - a two-state turn machine, player or enemy.

  Card play is checked against the turn and the player's resources. An enemy attack is soaked by block first and the rest comes off hp. The deck is shuffled with a backward Fisher–Yates pass. A draw from an empty deck first reshuffles the discard pile into it.
- **Card catalog** (`Cards`, from `src/cards.js`). Four card factories. Each card's effect is a tagged value: `Damage(n)`, `Block(n)` or `GainAmmo(n)`. `Combat.GameEngine.ApplyEffect` interprets it.
- **Enemy catalog** (`Enemies`, from `src/enemies.js`). Three factories, each building an enemy at full health with no intent.
- **Map generator** (`GameMap`, from `src/map.js`). It builds a layered graph floor by floor:
  - exactly one boss node on the last floor;
  - 2 to 4 nodes on every other floor;
  - one random forward edge from every node;
  - a repair pass that gives every node of the next floor an incoming edge.

  The model proves that every node lies on a walk from a start node (floor 0) to the boss.

`Math.random()` is an input to the model. A `Rand.Random` wraps an arbitrary stream of reals in [0, 1) and consumes one number per call, so every property holds for every possible sequence of rolls. `Wrappers.Option` stands for JavaScript's `null`/`undefined`.

Modelling choices:
- `Enemy`, `GameEngine` and `MapGenerator` are classes, because the source updates their fields in place.
- The player record is a datatype field, reassigned on every change.
- Cards, intents and map nodes are values.
- The piles and the floor lists are sequences, and the node dictionary is a map.

`PlayCard` returns the branch it took, `PlayOutcome`. In the source, `playCard` returns nothing: the turn and not-in-hand checks return silently, and the AP and ammo checks write a message to the log before returning.

`ExecuteEnemyTurn` returns whether the game is over or the next player turn follows. In the source, it either shows the game-over screen or schedules `startPlayerTurn`.

Points where the model follows the code exactly, including where a comment says otherwise:
- Card effects use the fixed amounts in `src/cards.js` (5 damage, 2 damage, 5 block, 2 ammo). Cards have no level.
- Player hp is not kept at or above 0. Enemy damage is subtracted without clamping (`src/engine.js:185`).
- A map with `totalFloors < 1` is an empty map: the generator's loops do not run. It is not rejected.
- The comment at `src/map.js:26` says 1 to 3 nodes per floor. The code draws 2 to 4, and the model follows the code.

## Model

| member | source | states |
|---|---|---|
| Rand.ScaledFloor | src/engine.js:95 | `Math.floor(r * n)` for a roll r in [0, 1) is an index in [0, n) and the floor of r·n |
| Rand.Random.Next | src/engine.js:28 | a `Math.random()` call returns the next number of the stream and advances it by one |
| Rand.Random.Below | src/engine.js:95 | `Math.floor(Math.random() * n)` is below n, is the scaled floor of the next roll, and consumes one roll |
| Cards.Handgun | src/cards.js:4-15 | Handgun: attack, 1 AP, 1 ammo, 5 damage, with the given id |
| Cards.Knife | src/cards.js:16-27 | Combat Knife: attack, 1 AP, no ammo, 2 damage |
| Cards.Evade | src/cards.js:28-39 | Evade: defense, 1 AP, no ammo, 5 block |
| Cards.Scavenge | src/cards.js:40-51 | Scavenge: utility, 2 AP, no ammo, 2 ammo gained |
| Combat.CatalogEffects | src/cards.js:11-49 | Handgun and Knife lower enemy hp by 5 and 2, floored at 0, and leave the player alone. Evade adds exactly 5 block. Scavenge gives min(maxAmmo, ammo + 2) ammo. Neither of the last two touches the enemy |
| Combat.DamagedHp | src/engine.js:44-47 | enemy hp after damage is never negative; it is 0 exactly when the damage reaches hp, otherwise hp − amount; damage never raises hp |
| Combat.Enemy.constructor | src/engine.js:16-23 | a new enemy has maxHp = hp = the given hp and no intent |
| Combat.Enemy.PlanTurn | src/engine.js:26-42 | the intent is always set: an attack of 3 to 6 ("Intends to Bite") exactly when the first roll is below 0.7, with value ⌊4·second roll⌋ + 3; otherwise a block of 5 |
| Combat.Enemy.TakeDamage | src/engine.js:44-47 | hp becomes max(0, hp − amount) |
| Combat.PlayerAfterEffect | src/cards.js:35-49 | only block and ammo change; block grows by exactly the amount; ammo becomes exactly ammo + amount when that is within maxAmmo and otherwise stops at maxAmmo, and never decreases; the resource bounds are kept |
| Combat.EnemyHpAfter | src/cards.js:11-25 | a damage effect floors enemy hp at 0 (0 exactly when the damage reaches hp); other effects leave it unchanged |
| Combat.Pay | src/engine.js:147-148 | AP and ammo drop by exactly the card's costs and stay ≥ 0 when affordable; nothing else changes |
| Combat.AbsorbAttack | src/engine.js:182-185 | for block B and raw damage D: hp loss and block left are ≥ 0 and at most one is non-zero; the block used plus the hp lost equal D |
| Combat.FindCard | src/engine.js:131-132 | `findIndex`: −1 exactly when no hand card has the id, otherwise the first position holding it |
| Combat.ReversedIsPermutation | src/engine.js:164-166 | popping a sequence onto another reverses it, with the same length and the same cards |
| Combat.DiscardingHandKeepsCards | src/engine.js:164-166 | moving the whole hand onto the discard pile keeps the multiset of owned cards |
| Combat.StartingDeck | src/engine.js:79-91 | eight cards with ids card_1 … card_8 in order, all distinct |
| Combat.StartingCard | src/engine.js:82-89 | the k-th starting card has id card_k |
| Combat.CardId | src/engine.js:82-89 | id card_k is "card_" followed by the digit k |
| Combat.StartingDeckComposition | src/engine.js:81-90 | the starting deck holds 3 Handguns, 1 Combat Knife, 2 Evades, 2 Scavenges and nothing else |
| Combat.PlayCheck | src/engine.js:129-144 | the checks of a card play in order: not the player's turn, id not in hand, not enough AP, not enough ammo; each outcome holds exactly when its own condition holds and every earlier check passed (AP is checked before ammo), and the card is played exactly when all pass |
| Combat.Swap | src/engine.js:96 | the destructuring swap exchanges two positions, leaves all others and keeps the multiset |
| Combat.GameEngine.constructor | src/engine.js:51-69 | player 30/30 hp, 3/3 AP, 5/10 ammo, no block; empty piles; no enemy; player's turn |
| Combat.GameEngine.StartCombat | src/engine.js:71-77 | the enemy gets a planned intent; the owned cards become a shuffled starting deck plus the old hand and discard pile; the discard pile is not cleared; the five cards drawn onto the hand and the remaining deck together are exactly the starting deck's cards; AP refilled, block wiped |
| Combat.GameEngine.ShuffleDeck | src/engine.js:93-99 | the deck keeps its length and its multiset of cards |
| Combat.GameEngine.DrawCard | src/engine.js:101-112 | both piles empty: nothing changes. Otherwise the deck's last card, after a reshuffle of the discard pile if the deck was empty, goes to the end of the hand; the discard pile is empty after a reshuffle. Owned cards are kept |
| Combat.GameEngine.Reshuffle | src/engine.js:107-109 | the discard pile becomes the deck with the same cards, and the discard pile is emptied |
| Combat.GameEngine.TakeTop | src/engine.js:111 | the deck's last card is appended to the hand and removed from the deck; owned cards kept |
| Combat.GameEngine.StartPlayerTurn | src/engine.js:114-126 | player's turn, AP = maxAp, block = 0, hand grows by min(5, deck + discard) cards behind the old hand, owned cards kept; with at least five cards in the deck, the five are taken off its end and the discard pile is untouched |
| Combat.GameEngine.DrawFive | src/engine.js:120-122 | the five draws: the hand grows by min(5, deck + discard) behind the old hand, owned cards kept; with at least five cards in the deck, the deck loses exactly its last five and the discard pile is untouched |
| Combat.DrawnFromDeck | src/engine.js:71-77 | when the discard pile is unchanged and owned cards are kept, the cards drawn behind the old hand plus the remaining deck are exactly the earlier deck's cards |
| Combat.GameEngine.ApplyEffect | src/engine.js:151 | the player becomes `PlayerAfterEffect` and the enemy's hp `EnemyHpAfter`; the enemy's intent stays |
| Combat.GameEngine.PlayCard | src/engine.js:128-158 | the outcome is `PlayCheck`. Any rejection changes nothing. A play pays the costs, applies the effect, moves exactly that card from the hand to the end of the discard pile, and clears a dead enemy. Owned cards and resource bounds are kept |
| Combat.GameEngine.PlayAt | src/engine.js:146-157 | paying, effect, hand-to-discard move and win check for the card at a position |
| Combat.GameEngine.DiscardHand | src/engine.js:163-166 | the hand is empty and the discard pile gains the hand in pop order; owned cards kept |
| Combat.GameEngine.EndPlayerTurn | src/engine.js:160-172 | outside the player's turn a no-op; otherwise the hand goes to the discard pile in pop order without losing cards and the enemy's turn begins |
| Combat.GameEngine.ExecuteEnemyTurn | src/engine.js:174-202 | without an enemy nothing happens. An attack of D against block B costs max(0, D − B) hp and leaves max(0, B − D) block; a block intent changes no player state. A new intent is planned. Game over exactly when hp ≤ 0 |
| Combat.GameEngine.CheckWinState | src/engine.js:204-210 | the enemy is cleared exactly when it exists with hp ≤ 0; nothing else changes |
| Enemies.ShamblingZombie | src/enemies.js:4-9 | a fresh "Shambling Zombie" zombie_1 with maxHp = hp = 20 and no intent |
| Enemies.ZombieDog | src/enemies.js:10-15 | a fresh "Infected Dog" dog_1 with maxHp = hp = 10 and no intent |
| Enemies.Licker | src/enemies.js:16-21 | a fresh "Licker Mutant" licker_1 with maxHp = hp = 40 and no intent |
| GameMap.Digits | src/map.js:42 | the decimal numeral of a number is a non-empty string of digits, one digit exactly below 10 |
| GameMap.DigitsRoundTrip | src/map.js:42 | reading the numeral back gives the number |
| GameMap.DigitsInjective | src/map.js:42 | two numbers have the same numeral exactly when they are equal |
| GameMap.NodeId | src/map.js:42 | node ids start with "node_" |
| GameMap.NodeIdInjective | src/map.js:42 | `node_f_n` ids are unique: equal exactly when floor and index are |
| GameMap.SplitAtSeparator | src/map.js:42 | numeral, '_', rest splits back uniquely |
| GameMap.LayNodeKeepsLaid | src/map.js:42-45 | a new node's id is not yet in the dictionary; adding it and its id keeps the dictionary and floor lists consistent |
| GameMap.OpenFloorKeepsLaid | src/map.js:24 | opening an empty floor keeps the layout consistent |
| GameMap.EdgesChangedKeepsRest | src/map.js:50-72 | changing one floor's edges keeps the layout and every other floor's nodes |
| GameMap.UnchangedKeepsIncoming | src/map.js:63 | untouched nodes keep the incoming edges they give |
| GameMap.FloorReadyToLink | src/map.js:50-52 | before floor f is linked, it and floor f + 1 are non-empty and floor f's ids are distinct nodes of floor f without edges |
| GameMap.EdgesChangedTransitive | src/map.js:55-71 | two edge changes on one floor are one |
| GameMap.ConnectedFloorStep | src/map.js:50-72 | once floor f links forward and feeds floor f + 1, the floors up to f are connected and the rest still have no edges |
| GameMap.ForcedEdgeKeepsLinks | src/map.js:66-69 | a forced edge, added only when missing, keeps edge lists duplicate-free and forward, keeps every way in, and gives the orphan one |
| GameMap.GeneratedLinks | src/map.js:18-73 | a generated map has every id present, every floor past 0 entered, every floor but the last exited, and a single-node last floor |
| GameMap.ReachableFromStart | src/map.js:61-71 | every node is reachable by a walk from a node of floor 0 |
| GameMap.ReachesLastFloor | src/map.js:55-58 | from every node a walk leads to the single node of the last floor |
| GameMap.OnStartToBossWalk | src/map.js:18-73 | in a generated map every node lies on a walk from a start node to the boss |
| GameMap.OneBoss | src/map.js:28-34 | the last floor has one node, and a node is of type boss exactly when it is that node |
| GameMap.LaidHasOneBoss | src/map.js:33-34 | with a single-node last floor, that node is the only boss |
| GameMap.MapGenerator.constructor | src/map.js:12-16 | a generator with the given floor count, no nodes and no floors |
| GameMap.MapGenerator.Generate | src/map.js:18-73 | a fresh map (`Generated`). There are max(0, totalFloors) floors, and node n of floor f has id node_f_n, floor f and is not completed. The last floor is one boss node, the others hold 2 to 4 nodes. Floor 0 is all enemies, elites appear from floor 3 on, safe rooms only between the first and last floor. Every edge list before the last floor is non-empty, duplicate-free and points at the next floor; the last floor has no edges. Every node past floor 0 has an incoming edge. No node of an earlier map survives |
| GameMap.MapGenerator.AddFloor | src/map.js:23-47 | appends one floor of the right size, laid out consistently, keeping the floors below |
| GameMap.MapGenerator.RollType | src/map.js:31-40 | boss on the last floor and enemy on floor 0, without a roll. In between: safe exactly when the roll is below 0.15, elite exactly when it is in [0.15, 0.3) on floor 3 or higher |
| GameMap.MapGenerator.ConnectFloor | src/map.js:50-72 | only floor f's edges change; afterwards each node of floor f has a non-empty, duplicate-free edge list into floor f + 1, and every node of floor f + 1 has an incoming edge |
| GameMap.MapGenerator.LinkEach | src/map.js:55-58 | every node of floor f gets exactly one edge, into floor f + 1 |
| GameMap.MapGenerator.RepairOrphans | src/map.js:61-71 | every node of the next floor ends up with an incoming edge; edge lists stay forward and duplicate-free |
| GameMap.MapGenerator.StartNodesAfterGenerate | src/map.js:75-77 | after generation the start nodes are the 2 to 4 enemy nodes of floor 0 (the boss alone for one floor), all present and not completed |
| GameMap.MapGenerator.GetSelectableStartNodes | src/map.js:75-77 | the floor-0 ids looked up in the dictionary, in order |

## Left out

- Logging, rendering and the UI (`ui.log`, `ui.updateAll`, `showGameOver`, `showVictoryModal`): presentation only. The branch a card play takes is returned instead of logged.
- The `setTimeout` delays before the enemy turn and the next player turn: scheduling only. `EndPlayerTurn` and `ExecuteEnemyTurn` are separate steps the caller runs in order.
- The card description text and the enemy sprite icon's display: display only. The icon is kept as a field.
- Statistical uniformity of the shuffle, the intents and the map shape: the random stream is arbitrary, so only range and permutation properties are proved.
- The comparisons `roll < 0.7`, `roll < 0.15` and `roll < 0.3` are on exact reals. Floating-point rounding of `Math.random() * n` is not modelled.
- `startRun`, node travel, drafting and card levels: not defined in `src/engine.js` (`src/main.js:11` calls `startRun`).
- A card effect after the enemy is gone: in the source a damage card then dereferences a null enemy. `PlayCard` and `PlayAt` require an enemy when the card played would deal damage.
- `ExecuteEnemyTurn` requires the engine invariant `Valid`, under which an enemy in combat always has an intent. The source would dereference a null intent for an enemy that never planned.
- Combat.GameEngine.ShuffleDeck: states length and multiset only, not which permutation a given stream of rolls produces.
- GameMap.MapGenerator.GetSelectableStartNodes: the returned nodes are copies, so later changes to a node in the dictionary are not seen through them as they would be through the shared objects in the source.
- GameMap.MapGenerator.GetSelectableStartNodes: requires at least one floor, because the source throws on a missing floor 0.
