# Scoundrel dungeon: a verified model of the game rules, the card layout designer and the combat terrain

This project models the logic of a browser dungeon crawler built on the
Scoundrel solitaire rules. It covers three parts.

- **The rules engine** (`scoundrel-3d.js`):
  - the 44-card deck and its Fisher–Yates shuffle;
  - the dungeon floor of twelve rooms linked by corridor waypoints, with one boss room, one bonfire and one to three merchants;
  - the cellular automaton that carves the cave floor;
  - the encounter state machine over the `game` record: entering a room, picking cards, finishing and avoiding rooms, resting at a bonfire, and the score on death;
  - the small mappings from card values to names, face letters, sprite cells and floor themes.
- **The card designer** (`card-designer.js`):
  - choosing a rarity template from a card value;
  - the two-level merge of an external layout file into the built-in layouts;
  - tuning a single field and picking the layer order;
  - the order in which `draw` renders the layers.
- **The combat terrain** (`combat-mechanics.js`): flattening the floor mesh around a fight, saving every lowered height, and writing the saved heights back.

Each module is one file:

| file | module | models |
|---|---|---|
| `wrappers.dfy` | `Wrappers` | `Option`, `Min`, `Max` |
| `text.dfy` | `Text` | number-to-text conversion, `split`/`join` on one separator |
| `shuffling.dfy` | `Shuffling` | `shuffle` |
| `cards.dfy` | `Cards` | `createDeck`, `getMonsterName`, `getDisplayVal`, `getAssetData`, `getUVForCell`, `getThemeForFloor` |
| `dungeon.dfy` | `Dungeon` | `generateDungeon`, `insertWaypoints` |
| `cave.dfy` | `Cave` | the grid part of `generateFloorCA`, `countNeighbors` |
| `encounter.dfy` | `Encounter` | the `game` record, `finalizeStartDive`, `descendToNextFloor`, `enterRoom`, `pickCard`, `finishRoom`, `avoidRoom`, `handleBonfire`, the `gameOver` score |
| `designer.dfy` | `Designer` | `CardDesigner`: `autoSelectTemplate`, the merge in `loadExternalConfig`, `updateValue`, the layer selector, the layer loop of `draw` |
| `terrain.dfy` | `Terrain` | `CombatTerrain.flattenAround`, `CombatTerrain.restore` |

How the model is built:

- **Mutable JavaScript objects become classes.** `Encounter.Game` holds the fields of the `game` record, `Designer.CardDesigner` holds `currentTemplate` and `config`, and `Terrain.CombatTerrain` holds the saved-heights map.
- **Each method is proved against a function on values.** For example, `Game.PickCard` ends in the state `Pick(old state, idx)`. The rules are then proved as lemmas about those functions.
- **The game invariant is `Encounter.Consistent`.** It says:
  - hp is at most maxHp, which stays 20;
  - a floor has its 34 entries (twelve rooms and 22 waypoints);
  - at most three picks are made in a room;
  - an active room exists whenever cards are on the table;
  - the slain stack only descends and fixes the durability;
  - no card has a negative value.

  Every operation keeps it, and `Game.Valid()` is this invariant on the object.
- **`Math.random` becomes parameters.** Every random draw is passed in as an oracle: a function from the draw's position to a number, reduced the way `Math.floor(Math.random() * n)` picks among `n` choices. The results hold for every choice of draws.
- **Slaying uses `<=`, as the code does.** A weapon can slay a monster when the monster's value is at most the durability. The comment above the weapon case calls for "strictly lower" monsters. The log message of the slaying branch says `<=`.

## Model

| member | source | states |
|---|---|---|
| Shuffling.Swap | scoundrel-3d.js:813 | the two entries trade places and every other entry stays |
| Shuffling.ShuffleFromPermutes | scoundrel-3d.js:810-816 | the remaining passes of the loop keep the length and the multiset of the array |
| Shuffling.ShuffledIsPermutation | scoundrel-3d.js:810-816 | whatever is drawn, `shuffle` returns a permutation of its input |
| Shuffling.Shuffle | scoundrel-3d.js:810-816 | the in-place loop leaves the array in the order `Shuffled` gives for the draws, a permutation of the original |
| Cards.RunCount | scoundrel-3d.js:822-833 | a `for (v = lo; v <= hi)` push loop adds `hi - lo + 1` cards, one of each value in range, of its suit and type |
| Cards.OrderedDeckCounts | scoundrel-3d.js:818-834 | before shuffling the deck has 44 cards: black monsters 2..14, diamond weapons 2..10 and heart potions 2..10, each exactly once, and nothing else |
| Cards.OrderedDeckLength | scoundrel-3d.js:818-834 | before shuffling the deck has 44 cards |
| Cards.PushRun | scoundrel-3d.js:822-824 | the push loop appends the run of values `lo..hi` in increasing order |
| Cards.BuildDeck | scoundrel-3d.js:818-834 | the pushes build clubs monsters, spades monsters, weapons, then potions |
| Cards.CreateDeck | scoundrel-3d.js:818-836 | `createDeck` returns 44 cards, each deck card exactly once, in the shuffled order of the draws |
| Cards.ShuffledDeckCounts | scoundrel-3d.js:818-836 | shuffling keeps exactly the 44 deck cards, each once |
| Cards.ShuffledCounts | scoundrel-3d.js:836 | shuffling a 44-card deck that holds every deck card once gives a 44-card deck that still does |
| Cards.CellIndex | scoundrel-3d.js:1415-1428 | the weighted mapping gives a cell below 9; among card values the cell is 0 exactly for 2 and 3, and 10..14 map to cells 4..8 |
| Cards.MonsterName | scoundrel-3d.js:838-849 | up to 14 the name is the tier of the same cell as the sprite mapping; above 14 it is `Monster (v)` |
| Cards.CellIndexMonotone | scoundrel-3d.js:1415-1428 | a higher value up to the ace never gets an earlier cell |
| Cards.DisplayVal | scoundrel-3d.js:1050-1053 | a letter is shown exactly for 11..14 |
| Cards.DisplayValRoundTrip | scoundrel-3d.js:1050-1053 | the shown face reads back as the value, so two values never show alike |
| Cards.JsRem | scoundrel-3d.js:674 | JavaScript's `%`: the Euclidean remainder for a non-negative dividend, a non-positive remainder for a negative one |
| Cards.UForCell | scoundrel-3d.js:1395-1398 | a cell of the 9-cell strip starts at an offset in [0, 1) |
| Cards.AssetData | scoundrel-3d.js:1400-1435 | the result is a strip exactly when the file is not the rest image; `u` is the offset of the cell; every type except `block` gets a cell of the strip |
| Cards.ThemeForFloor | scoundrel-3d.js:671-676 | floor `f >= 1` gets theme `(f - 1) % 9 + 1`; there is a theme exactly when the JavaScript remainder is not negative; a theme's tile is its id |
| Cards.ThemeCycles | scoundrel-3d.js:671-676 | themes repeat every nine floors |
| Cards.FloorBlockCell | scoundrel-3d.js:760-768 | the block texture of a floor (`theme.tile - 1`) is a cell of the block strip |
| Dungeon.InsertWaypoints | scoundrel-3d.js:119-135 | two cleared waypoints `wp_p_k_a` and `wp_p_k_b` are appended; they link the parent to the new room, and both ends record the link |
| Dungeon.EastmostIndex | scoundrel-3d.js:43-79 | it finds a position whose x is largest |
| Dungeon.SomeNeighbourFree | scoundrel-3d.js:43-79 | some grown room always has a free neighbour, so the frontier never runs out before twelve rooms |
| Dungeon.FirstFree | scoundrel-3d.js:48-51 | it stops at the first direction whose neighbour is free, or at 4 when all are taken |
| Dungeon.ShuffledDirections | scoundrel-3d.js:45 | shuffling the directions keeps all four |
| Dungeon.PickDirection | scoundrel-3d.js:45-77 | a direction is found exactly when the parent is not boxed in, and it leads to a free grid point |
| Dungeon.GrowPass | scoundrel-3d.js:44-78 | one pass either adds a room next to the drawn parent, pushes it on the frontier and marks its point occupied, or leaves the rooms alone and drops the enclosed parent from the frontier |
| Dungeon.AddRoom | scoundrel-3d.js:52-76 | the earlier entries stay, except that the parent gains a link to the first waypoint. Then come the two waypoints, linked parent to child. Last comes the fresh room: uncleared, empty, 3 rests, at the free point one step from the parent, with width and height 2 or 1 as the roll says |
| Dungeon.Grow | scoundrel-3d.js:39-79 | growth ends with twelve linked real rooms on distinct points of the step-4 grid |
| Dungeon.LocatedAdd | scoundrel-3d.js:70-73 | adding the room at a free grid point keeps the rooms on distinct grid points |
| Dungeon.BookkeptAdd | scoundrel-3d.js:72-73 | occupying the point and pushing the room to the frontier keeps `occupied` equal to the room positions |
| Dungeon.BookkeptRemove | scoundrel-3d.js:78 | only a boxed-in room leaves the frontier |
| Dungeon.GrowStep | scoundrel-3d.js:52-76 | appending the waypoints and the room keeps the room list's shape |
| Dungeon.RealAtSlots | scoundrel-3d.js:70-71 | real rooms sit at the indices divisible by 3 and carry the id `index / 3`; waypoints sit between them |
| Dungeon.FarthestIn | scoundrel-3d.js:83-86 | it finds the first real room with the greatest Manhattan distance from the start, or none without real rooms |
| Dungeon.Eligible | scoundrel-3d.js:94 | the candidates are exactly the real rooms other than the start and the boss room, in list order |
| Dungeon.EligibleCount | scoundrel-3d.js:94 | twelve rooms leave exactly ten candidates |
| Dungeon.DistinctCounts | scoundrel-3d.js:95 | a list has no repeats exactly when every element occurs at most once |
| Dungeon.MarkFinal | scoundrel-3d.js:87-91 | marking the boss room keeps the number of rooms |
| Dungeon.ShufflePool | scoundrel-3d.js:95 | the shuffled candidates are a permutation of the candidates, still without repeats |
| Dungeon.PopMerchants | scoundrel-3d.js:105-112 | the merchants are the next `count` rooms popped after the bonfire, as far as the pool goes |
| Dungeon.AssignSpecials | scoundrel-3d.js:81-112 | the farthest room becomes the boss room; the last candidate becomes the bonfire and the next ones become merchants |
| Dungeon.GrownUnderRoles | scoundrel-3d.js:81-112 | changing only role flags keeps the layout |
| Dungeon.FinalAwayFromStart | scoundrel-3d.js:83-86 | the boss room exists and is a real room other than the start |
| Dungeon.MarkedCandidates | scoundrel-3d.js:94 | after marking the boss room the candidates are the ten other real rooms |
| Dungeon.ShuffledPool | scoundrel-3d.js:95 | the shuffled pool holds every candidate once |
| Dungeon.RolesPlaced | scoundrel-3d.js:98-112 | the role flags after step 3: exactly one boss room, one bonfire and the merchants, all distinct non-start real rooms |
| Dungeon.RolesKeepLayout | scoundrel-3d.js:81-112 | assigning roles keeps the positions and the links |
| Dungeon.PlanKept | scoundrel-3d.js:81-91 | the boss room found on the grown layout is the farthest room of the final layout |
| Dungeon.GenerateDungeon | scoundrel-3d.js:27-117 | 34 rooms: twelve real rooms linked by waypoint pairs on distinct grid points; one boss room, the first farthest from the start; one bonfire; exactly `1 + draw % 3` merchants |
| Dungeon.SpecialsLaid | scoundrel-3d.js:86-117 | once the boss room is marked and the bonfire and merchants are popped from the shuffled candidates, the floor plan is laid, the boss room is unique and farthest, and there is one bonfire and exactly `1 + draw % 3` merchants, all distinct real rooms other than the start and the boss room |
| Cave.RowCount | scoundrel-3d.js:776-782 | one row of the neighbour loop counts at most its cells, the centre excluded |
| Cave.RowsCount | scoundrel-3d.js:775-783 | the counted rows give at most three cells per row, less the centre |
| Cave.Neighbours | scoundrel-3d.js:773-784 | `countNeighbors` is at most 8 |
| Cave.NeighboursOnFullGrid | scoundrel-3d.js:773-784 | out-of-grid cells are ignored: on a full grid an inner cell has 8 live neighbours and a corner 3 |
| Cave.StepGrid | scoundrel-3d.js:719-746 | one automaton step keeps the grid's shape |
| Cave.StepGridAt | scoundrel-3d.js:722-743 | each cell of a step follows the rule on its own state, its neighbour count and its protection |
| Cave.Initial | scoundrel-3d.js:695-716 | the seeded grid has the grid's shape |
| Cave.Iterate | scoundrel-3d.js:719-746 | repeated steps keep the grid's shape |
| Cave.StepRules | scoundrel-3d.js:722-743 | a live cell with fewer than 3 live neighbours dies, else lives; a dead cell with more than 4 is born; a cell near a room is alive |
| Cave.RoomsStayOpen | scoundrel-3d.js:695-746 | a cell near a room is alive after seeding and after every step |
| Cave.CountNeighbors | scoundrel-3d.js:773-784 | the loop counts the live neighbours the specification counts |
| Cave.CaStep | scoundrel-3d.js:720-745 | the next grid is a fresh grid holding exactly one step of the automaton |
| Cave.StepRow | scoundrel-3d.js:722-744 | the inner loop rewrites one row and leaves the others |
| Cave.SetCell | scoundrel-3d.js:723-743 | the loop body sets one cell to its next state and leaves the others |
| Cave.Seed | scoundrel-3d.js:695-716 | the seeding loops fill the grid with the seed, forced alive near rooms and corridors |
| Cave.GenerateFloorCa | scoundrel-3d.js:690-746 | the grid is the seed after three steps, and every cell near a room ends alive |
| Encounter.Damage | scoundrel-3d.js:1082-1101 | barehanded damage is the monster's value; with a weapon it is `max(0, val - weapon)`; for non-negative values it is between 0 and the monster's value |
| Encounter.Heal | scoundrel-3d.js:1108 | healing never lifts hp above maxHp, and it is the full amount unless it stops at maxHp |
| Encounter.Dealt | scoundrel-3d.js:951-953 | the room's cards and the rest of the deck together are the carried card followed by the deck; the room gets `min(4, available)` cards |
| Encounter.FindRoom | scoundrel-3d.js:892 | it finds the first room with the id, or none when no room has it |
| Encounter.GiftOffer | scoundrel-3d.js:905-917 | an offer is a red face card (J..A of hearts or diamonds) carrying a weapon or potion gift of the same suit and value |
| Encounter.RepairOffer | scoundrel-3d.js:920-927 | the repair offer carries its own boost, 1..6 |
| Encounter.MerchantGifts | scoundrel-3d.js:903-929 | two gifts, plus a repair when a weapon is held |
| Encounter.MonsterSumAppend | scoundrel-3d.js:1304-1314 | the monster sum of two piles is the sum of their sums |
| Encounter.RoomsMonsterSumUpdate | scoundrel-3d.js:1310-1312 | replacing one room's cards changes the rooms' sum by the difference |
| Encounter.MonsterSumNonNegative | scoundrel-3d.js:1304-1314 | a pile without negative values has a non-negative monster sum |
| Encounter.SlayRule | scoundrel-3d.js:1083-1088 | slaying costs `max(0, val - weapon)` hp, keeps the weapon, sets the durability to the monster's value and stacks the monster |
| Encounter.BreakRule | scoundrel-3d.js:1089-1095 | a monster above the durability still costs `max(0, val - weapon)` hp, and the weapon breaks: no weapon, unlimited durability, empty stack |
| Encounter.BarehandedRule | scoundrel-3d.js:1096-1104 | barehanded, hp drops by the full value and nothing else changes |
| Encounter.FightDamageBounded | scoundrel-3d.js:1076-1104 | a fight never costs more hp than the monster's value and never heals |
| Encounter.FightKeepsTrophies | scoundrel-3d.js:1083-1095 | the slain stack stays descending and fixes the durability; a kept weapon's durability never rises |
| Encounter.Use | scoundrel-3d.js:1067-1118 | a weapon, monster or potion card changes only hp, the weapon, its durability, the slain stack and the potion flag |
| Encounter.PickIgnoredWhenFull | scoundrel-3d.js:1056 | after three picks a pick changes nothing |
| Encounter.EquipRule | scoundrel-3d.js:1068-1075 | a weapon card is equipped with unlimited durability and an empty stack |
| Encounter.PotionRule | scoundrel-3d.js:1107-1118 | the first potion of the turn heals `min(val, maxHp - hp)`; a later one leaves hp alone; either way it is used up and counts as a pick |
| Encounter.RepairRule | scoundrel-3d.js:1131-1137 | a repair raises the weapon to `min(14, val + boost)` and resets durability and stack |
| Encounter.GiftRule | scoundrel-3d.js:1119-1144 | a gift ends the visit without counting a pick: the room is cleared and the other offers vanish. A weapon gift is equipped with unlimited durability and an empty slain stack. A potion gift heals min(val, maxHp - hp) whatever the turn's potion flag says, and leaves that flag as it was |
| Encounter.PickRemovesCard | scoundrel-3d.js:1067-1178 | a weapon, monster or potion pick counts once and removes exactly the picked card; it dies exactly when hp falls to 0 or below, and finishes exactly on a surviving third pick |
| Encounter.SettleRule | scoundrel-3d.js:1167-1178 | after a weapon, monster or potion took effect, the card leaves the table and the count goes up by one; the dive ends exactly when hp is 0 or below; the room is finished exactly on a surviving third pick, and nothing else changes |
| Encounter.ThirdPickCarries | scoundrel-3d.js:1167-1188 | the surviving third pick in a regular room clears it and carries the card left, if any |
| Encounter.FinishRule | scoundrel-3d.js:1180-1222 | the room is cleared and emptied and other rooms stay; a regular room carries the first remaining card, and merchants and bonfires keep the carry; stairs appear exactly in the boss room of a purged floor |
| Encounter.AvoidRefused | scoundrel-3d.js:1225 | after an avoid or a pick, avoiding changes nothing |
| Encounter.AvoidConserves | scoundrel-3d.js:1224-1235 | the room's cards go to the bottom of the deck in order; the multiset of deck plus room is kept; the room is emptied and avoided; the score is unchanged |
| Encounter.DealConserves | scoundrel-3d.js:950-961 | the dealt cards and the rest of the deck are the carry followed by the deck; up to four cards are dealt; the score only gains the carried card's weight |
| Encounter.MerchantPersists | scoundrel-3d.js:899-935 | offers are generated once, stored and shown again on every later visit; the deck and the carry stay |
| Encounter.RestRule | scoundrel-3d.js:1258-1278 | a rest costing more than remains changes nothing; otherwise it spends `cost` rests and heals `min(5 * cost, maxHp - hp)`, and the room is cleared exactly when no rest remains |
| Encounter.RoomsMonsterSumNonNegative | scoundrel-3d.js:1310-1312 | rooms without negative cards have a non-negative monster sum |
| Encounter.ScoreAtMostHp | scoundrel-3d.js:1304-1316 | in a consistent game the death score is at most the hp |
| Encounter.RoomsNonNegativeUpdate | scoundrel-3d.js:952-959 | replacing a room with one without negative cards keeps all rooms free of negative cards |
| Encounter.FinishConsistent | scoundrel-3d.js:1180-1192 | finishing a room keeps the game invariant |
| Encounter.SettleConsistent | scoundrel-3d.js:1167-1178 | removing the picked card and counting the pick keeps the invariant |
| Encounter.GiftConsistent | scoundrel-3d.js:1119-1144 | a gift pick keeps the invariant |
| Encounter.BonfireCardConsistent | scoundrel-3d.js:1145-1165 | a bonfire card pick keeps the invariant |
| Encounter.WeaponPickConsistent | scoundrel-3d.js:1068-1075 | a weapon pick keeps the invariant |
| Encounter.MonsterPickConsistent | scoundrel-3d.js:1076-1105 | a monster pick keeps the invariant |
| Encounter.PotionPickConsistent | scoundrel-3d.js:1107-1118 | a potion pick keeps the invariant, so hp never exceeds maxHp |
| Encounter.PickConsistent | scoundrel-3d.js:1055-1178 | every pick keeps the invariant |
| Encounter.AvoidConsistent | scoundrel-3d.js:1224-1235 | avoiding keeps the invariant |
| Encounter.RestConsistent | scoundrel-3d.js:1258-1278 | resting keeps the invariant, so hp never exceeds maxHp |
| Encounter.MerchantEnterConsistent | scoundrel-3d.js:899-935 | entering a merchant keeps the invariant |
| Encounter.DealEnterConsistent | scoundrel-3d.js:950-961 | entering a regular room keeps the invariant |
| Encounter.EnterConsistent | scoundrel-3d.js:890-961 | entering any room keeps the invariant |
| Encounter.LaidRoomsEmpty | scoundrel-3d.js:27-117 | a new floor has no cards and no stored offers in any room |
| Encounter.NewDeckNonNegative | scoundrel-3d.js:818-836 | every card of a new deck has a non-negative value |
| Encounter.RestartConsistent | scoundrel-3d.js:860-873 | a dive started from the page's record or from any consistent record, with a full deck and a laid floor, satisfies the invariant. Room 0 sits at index 0, and entering it changes nothing, so a carried card waits for the next regular room |
| Encounter.NextFloorConsistent | scoundrel-3d.js:875-888 | descending with a full deck and a laid floor keeps the invariant, and entering the new start room changes nothing |
| Encounter.Game.constructor | scoundrel-3d.js:6-22 | the page's record followed by the first dive gives 20 of 20 hp on floor 1, a shuffled 44-card deck, no weapon, unlimited durability, a laid-out floor, room 0 as the current room and nothing on the table; the invariant holds |
| Encounter.Game.NewDive | scoundrel-3d.js:860-873 | the record is reset as `Restart` says, keeping `maxHp` and the encounter fields; the deck is shuffled, the floor is laid out and the invariant holds |
| Encounter.Game.DescendToNextFloor | scoundrel-3d.js:875-888 | the record moves one floor down as `NextFloor` says, keeping health, weapon and slain stack; the deck is shuffled, the floor is laid out and the invariant holds |
| Encounter.Game.FindRoomIndex | scoundrel-3d.js:892 | the loop finds the room `FindRoom` finds |
| Encounter.Game.GenerateGifts | scoundrel-3d.js:903-929 | the loop builds the merchant's offers |
| Encounter.Game.Deal | scoundrel-3d.js:951-953 | the `while` fill loop moves the carry and the top of the deck into the room, and clears the carry |
| Encounter.DealCards | scoundrel-3d.js:951-953 | the fill loop ends with the carried card and the top of the deck dealt, at most four, and the rest of the deck in order: exactly `Dealt` |
| Encounter.Game.EnterMerchant | scoundrel-3d.js:899-935 | the merchant branch of `enterRoom` on the record |
| Encounter.Game.MerchantOffers | scoundrel-3d.js:902-929 | the stored offers of a merchant room, or on the first visit new ones: two card gifts, and a repair when a weapon is held |
| Encounter.Game.EnterRegular | scoundrel-3d.js:950-961 | the dealing branch of `enterRoom` on the record |
| Encounter.Game.Stock | scoundrel-3d.js:950-957 | an empty regular room other than the start is dealt, the start room is emptied, any other room keeps its cards |
| Encounter.Game.EnterRoom | scoundrel-3d.js:890-961 | the record ends as `Enter` says, and the invariant is kept |
| Encounter.Game.Visit | scoundrel-3d.js:890-961 | the record ends as `Enter` says: waypoints and cleared rooms are only passed through, a cleared boss room is reopened, merchants, bonfires and regular rooms are set up |
| Encounter.Game.AllPurged | scoundrel-3d.js:1200-1207 | the floor is purged exactly when every room is a waypoint, a merchant, a bonfire or cleared |
| Encounter.Game.FinishRoom | scoundrel-3d.js:1180-1222 | the record ends as `Finish` says, and the invariant is kept |
| Encounter.Game.ClearRoom | scoundrel-3d.js:1180-1212 | the record and the stairs flag end as `Finish` says: the room is cleared and emptied, a regular room carries its first leftover card |
| Encounter.Game.FightMonster | scoundrel-3d.js:1076-1105 | the monster branch on the record |
| Encounter.Game.ReceiveGift | scoundrel-3d.js:1120-1137 | the gift effects on the record |
| Encounter.Game.SettlePick | scoundrel-3d.js:1167-1178 | the splice, the count, and death or finishing on the record |
| Encounter.Game.PickCard | scoundrel-3d.js:1055-1178 | the record ends as `Pick` says, and the invariant is kept |
| Encounter.Game.PickAndSettle | scoundrel-3d.js:1067-1118 | a weapon, monster or potion pick on the record |
| Encounter.Game.PickGift | scoundrel-3d.js:1119-1144 | a gift pick on the record |
| Encounter.Game.PickBonfireCard | scoundrel-3d.js:1145-1165 | a bonfire card pick on the record |
| Encounter.Game.AvoidRoom | scoundrel-3d.js:1224-1235 | the record ends as `Avoid` says, and the invariant is kept |
| Encounter.Game.HandleBonfire | scoundrel-3d.js:1258-1278 | the record ends as `Rest` says, and the invariant is kept |
| Encounter.Game.GameOverScore | scoundrel-3d.js:1304-1316 | the loops compute hp less every monster in the deck and in the rooms |
| Designer.IndexSpread | card-designer.js:279 | spreading a string or an array gives its items under the keys `"0"`, `"1"`, ... |
| Designer.MergeProp | card-designer.js:277-284 | an incoming object or `null` is spread over a truthy default; anything else overwrites |
| Designer.MergeLayout | card-designer.js:276-285 | the merged layout has the default's properties and the file's |
| Designer.MergeConfig | card-designer.js:275-288 | the merged configuration has the default rarities and the file's |
| Designer.MergeInsertsNewRarity | card-designer.js:275-288 | a rarity absent from the defaults is inserted whole |
| Designer.MergeKeepsUnmentioned | card-designer.js:275-288 | rarities and properties the file leaves out keep their defaults |
| Designer.MergeNestedObject | card-designer.js:277-280 | a nested object is merged key by key: incoming keys win, and default keys the file leaves out survive |
| Designer.MergeOverwrites | card-designer.js:281-284 | strings, numbers, arrays such as `layers`, and objects without a truthy default overwrite |
| Designer.MergeIdempotent | card-designer.js:275-288 | loading the same file twice gives the layouts of loading it once |
| Designer.MergeLayoutIdempotent | card-designer.js:276-285 | merging the same rarity twice equals merging it once |
| Designer.MergeLayoutSelf | card-designer.js:276-285 | merging a layout into itself changes nothing |
| Designer.MergePropSelf | card-designer.js:277-284 | merging a property with itself changes nothing |
| Designer.MergePropIdempotent | card-designer.js:277-284 | merging the same incoming property twice equals merging it once |
| Designer.SetFieldOnlyChanges | card-designer.js:357-358 | `updateValue` sets the one field to the number and leaves every other rarity, property and field as it was |
| Designer.TemplateFor | card-designer.js:256-259 | 6..10 give uncommon, 11..14 rare, above 14 boss, and everything else (5 and below, negatives included) common, each as an if and only if |
| Designer.Selected | card-designer.js:252-266 | a non-numeric value keeps the template; a number selects the template of its value |
| Designer.TemplateNamesDistinct | card-designer.js:256-259 | the four template names differ |
| Designer.SelectedIdempotent | card-designer.js:261-266 | typing the same value twice selects what typing it once does |
| Designer.Passes | card-designer.js:469-473 | the layer loop makes at most one pass per entry |
| Designer.LayerList | card-designer.js:209-210 | the new `layers` array has one entry per comma-separated piece |
| Designer.PassesOfThree | card-designer.js:469-473 | a three-entry list is drawn entry by entry |
| Designer.LayerChoice | card-designer.js:468-473 | choosing `a,b,c` in the selector draws exactly the passes of `a`, `b` and `c`, in that order |
| Designer.StandardLayers | card-designer.js:139 | the Standard option draws art, then frame, then text |
| Designer.PopOutLayers | card-designer.js:140 | the Pop-out option draws frame, then art, then text |
| Designer.DefaultDrawOrder | card-designer.js:468 | without `layers` the art goes under the frame and the text on top |
| Designer.DefaultConfig | card-designer.js:24-57 | the built-in layouts are exactly the four rarities |
| Designer.CardDesigner.constructor | card-designer.js:19-57 | the designer starts on `common` with the built-in layouts |
| Designer.CardDesigner.AutoSelectTemplate | card-designer.js:252-266 | the template becomes `Selected(old template, value)` |
| Designer.CardDesigner.LoadExternalConfig | card-designer.js:275-288 | the nested loops leave the configuration as `MergeConfig(old configuration, file)` |
| Designer.CardDesigner.LoadRarity | card-designer.js:276-288 | one rarity is merged into a known layout or inserted whole |
| Designer.CardDesigner.MergeRarity | card-designer.js:277-285 | the inner loop computes `MergeLayout` |
| Designer.CardDesigner.MergeProperty | card-designer.js:279-284 | an object spread over a truthy old value, any other value replacing it |
| Designer.CardDesigner.UpdateValue | card-designer.js:357-358 | the configuration becomes `SetField(old configuration, template, group, key, v)` |
| Designer.CardDesigner.SelectLayers | card-designer.js:209-210 | the current template's `layers` becomes the split list and nothing else changes |
| Designer.CardDesigner.Draw | card-designer.js:387-473 | the passes made are `DrawOrder` of the configuration and template |
| Designer.MergedEverything | card-designer.js:275-288 | once every rarity is loaded, the configuration is the whole merge |
| Designer.MergeConfigStep | card-designer.js:275-288 | loading one more rarity extends the merge by that rarity |
| Designer.MergeLayoutStep | card-designer.js:277-285 | merging one more property extends the layout merge by that property |
| Text.NatToString | scoundrel-3d.js:848 | decimal text: non-empty, digits only, and no leading zero from 10 up |
| Text.ParseNatToString | scoundrel-3d.js:848 | the decimal text reads back as the number |
| Text.NatToStringInjective | card-designer.js:279 | distinct indices give distinct keys |
| Text.Split | card-designer.js:210 | `split` gives at least one piece, none holding the separator |
| Text.JoinSplit | card-designer.js:210 | joining the pieces of a split gives back the text |
| Text.SplitJoin | card-designer.js:210 | splitting the join of separator-free pieces gives back the pieces |
| Terrain.Abs | combat-mechanics.js:24 | `Math.abs` is non-negative and equals the argument or its negation |
| Terrain.Flatten | combat-mechanics.js:19-33 | the buffer keeps its length |
| Terrain.Saved | combat-mechanics.js:16-31 | the saved vertices are exactly the lowered ones, each with its height before |
| Terrain.Restored | combat-mechanics.js:46-48 | writing back keeps the buffer's length |
| Terrain.FlattenChanges | combat-mechanics.js:19-31 | an entry changes exactly when it is the height of a lowered vertex, which then becomes -0.5; x and z never change |
| Terrain.FlattenLevelsZone | combat-mechanics.js:24-29 | after flattening no vertex of the zone stands above -0.5 |
| Terrain.SavedExactlyChanged | combat-mechanics.js:27-29 | a vertex is saved exactly when flattening changed its height |
| Terrain.RestoreUndoesFlatten | combat-mechanics.js:11-53 | restoring the saved heights after flattening gives back the buffer exactly |
| Terrain.RestoreNothing | combat-mechanics.js:43 | with nothing saved, restoring changes nothing |
| Terrain.FlattenStep | combat-mechanics.js:19-31 | one vertex of the loop lowers and saves that vertex only when it is in the zone and above -0.5 |
| Terrain.FlattenDone | combat-mechanics.js:19-33 | once every vertex is visited, the buffer and the map are the flattened ones |
| Terrain.RestoreStep | combat-mechanics.js:46-48 | writing back one saved height changes only that vertex's height, and a write past the end is dropped |
| Terrain.RestoreDone | combat-mechanics.js:46-48 | before the loop nothing is written back; after it everything is |
| Terrain.CombatTerrain.constructor | combat-mechanics.js:8 | the saved-heights map starts empty |
| Terrain.CombatTerrain.FlattenAround | combat-mechanics.js:11-39 | the radius defaults to 4.5; with no mesh nothing changes; otherwise the buffer is flattened and the map holds exactly this call's saved heights |
| Terrain.CombatTerrain.Restore | combat-mechanics.js:42-53 | with no mesh or nothing saved nothing changes; otherwise the saved heights go back and the map is emptied |

## Left out

- Rendering and the page: Three.js scenes, meshes, textures, particles, screen shake, sprites, DOM updates, `alert`, `location.reload`, raycasting, `updateCombatVisibility`, `computeVertexNormals` and `needsUpdate`. These are display side effects with no game logic.
- Encounter.Game.NewDive: `activeRoom` is kept as an index. After the "new game" button is pressed mid-encounter, that index names a room of the new floor. In the source it still holds a room object of the discarded floor.
- Encounter.Enter: requires a room id that exists. In the source an unknown id throws at `room.isWaypoint`, and every caller passes an id of the current floor.
- Designer.Spread: a string is spread by Unicode scalar values. JavaScript spreads UTF-16 code units, so a character outside the Basic Multilingual Plane gives two keys in the source and one in the model.
- The launcher `oldVersions/run_game.py`, the shader animation `magic-circle.js` and the audio wrapper `sound-manager.js` are not part of this model. They hold I/O, floating-point graphics and Web Audio calls only.
- Randomness: every `Math.random` draw is a parameter. This covers the shuffle, the growth of the dungeon, the merchant offers, the room sizes and the cave seed.
- Presentation data: card names, log texts, the waypoints' fractional positions and a room's `depth`.
- Dungeon.GenerateDungeon: a room's `isRevealed` flag is left out, because it only drives rendering.
- Cave.Seed: the corridor test is a parameter (`nearCorridor`), because it reads the positions of corridor meshes.
- Cave.GenerateFloorCa: the floor meshes built from the final grid are left out.
- `Math.random() < 0.45` is left to the seed parameter.
- Encounter.Game: `Weapon` is a value, so aliasing is not modelled. In the source the equipped weapon is the card object itself, and a repair changes that object's `val` in place.
- Encounter.Game: the merchant's `combatCards` is a copy of the stored offers. In the source it is the same array as `room.generatedContent`. No modelled operation changes the array in place, so this does not change any result.
- Encounter.Enter: the `restRemaining === undefined` default of the bonfire branch is left out. Every room the dungeon builds has `restRemaining` set, and the start room's missing value is written as 0.
- Encounter.Pick: the card-flip animation of `pickCard` and its `event` argument are left out.
- Encounter.Game.PickCard: requires an index inside `combatCards`. For any other index the source throws when it reads `undefined.type`.
- Encounter.Game.GameOverScore: only the score is modelled, not the alert and the reload that end the game.
- Designer: the parsed file is a map of rarities to maps of properties. A rarity entry that is not an object is left out.
- Designer: prototype keys (a rarity named `toString`, say) and `NaN` are left out. `parseInt` and `parseFloat` are done by the caller and give an optional integer or a real.
- Designer.CardDesigner.UpdateValue: it requires the group to be an object of the current layout. For a missing group, `null` or another primitive, the source's property assignment throws in strict mode. For an array group the source adds a named property to the array; the model's arrays hold no named keys, so that case is left out.
- Designer: `init`, `bindEvents`, `refreshControls`, the canvas drawing, `loadImage`, `exportJSON`, `importJSON`, and the `fetch`/JSON wrapper of `loadExternalConfig` are left out. They are host-API calls.
- Terrain: vertex coordinates are `real`, and the buffer is the position attribute's array. Writes past the end of the array are dropped, as a typed array drops them.
