# keyhopper engine in Dafny

keyhopper is a browser game played on an on-screen keyboard. The player
hops from key to key, towards a target key, with a press of an adjacent
key. Blocked keys cannot be entered. Chasers step greedily towards the
player on every other accepted move. This project models the logical
engine of the `Game` class (game.js) over the constant keyboard layout and
level table (levels.js), and proves its rules.

Module layout:

- `Wrappers`: `Option`.
- `Levels`: `KEYBOARD_LAYOUT` and `LEVELS` as constants, with the facts about
  them: distinct keys, row sizes, no Space key, level ids, legal starts,
  targets, walls and enemies, and the level 6 region partition.
- `Topology`: the key table that `renderKB` builds, in the form of a
  `KeyMap`. A `KeyMap` is the Map's content plus its insertion order, which
  `Map.forEach` follows. It also holds `isAdjacent`, `getNeighbors` and
  `getDistance`.
- `Chase`: the enemy pass of `processEnemyTurn` as pure functions. `Scan`
  is the inner `bestMove`/`minDist` loop, `Step` is one chaser's move,
  `After`/`Pass` are the outer loop. Lemmas cover legality, greediness and
  no-sharing of keys.
- `Rules`: the turn state machine as pure functions on a snapshot of the
  game's logical fields. It includes runs of events (key presses, scheduled
  passes firing, level loads), the 2:1 cadence, and a level 3 scenario.
- `GameEngine`: `class Game` with the source's fields. `renderKB`,
  `loadLevel`, `handleInput`, `tryMove`, `endPlayerTurn`,
  `processEnemyTurn`, `checkCollision`, `checkWinCondition` and
  `getNeighbors` are imperative methods whose postconditions tie the new
  fields or the result to the functions of `Rules`, `Chase` and `Topology`.
  `isAdjacent` and `getDistance` change nothing and are used as the
  `Topology` functions. The ghost counters `moves` and `scheduled` carry the
  cadence as a class invariant (`Valid`).

Distances are exact. `getDistance` computes a Euclidean distance over
visual x positions. A visual x is the column plus a row offset of 0, 1.5,
1.8, 2.3 or 3.5. The model keeps the square of ten times that distance, in
integers, with row offsets 0, 15, 18, 23 and 35. Square root is monotone,
so the model orders any two distances as exact arithmetic does. The
source's floating-point results can differ from that on an exact tie (see
`Chase.Scan` under "## Left out"). The sentinel 999999 for a key that is
not stored becomes `9999990 * 9999990`.

Facts about the code that the model records:

- **Adjacency between rows.** In `isAdjacent`, a key at column c on the
  lower row touches the keys at columns c and c + 1 on the row above
  (game.js:220-225).
- **First pass.** `enemyTurn` starts `true` (game.js:13), so the first
  accepted non-winning move already schedules an enemy pass
  (game.js:146-150), and every second one after it does too
  (`CadenceFromStart`, `LevelThreeFirstMove`).
- **`isPlayerTurn`.** `endPlayerTurn` sets it back to `true` before it
  returns (game.js:154-156), so it is `true` in every state a run reaches
  (`AlwaysPlayersTurn`). The `!this.isPlayerTurn` guard of `handleInput`
  never fires.

## Model

| member | source | states |
|---|---|---|
| Levels.LayoutShape | levels.js:1-7 | the layout has four rows of 14, 14, 13 and 12 keys, 53 keys in all, pairwise distinct, and no "Space" key |
| Levels.LevelIds | levels.js:19-86 | there are six levels and the level at index i has id i + 1 |
| Levels.LevelsWellFormed | levels.js:19-86 | in every level, start and target are unblocked layout keys and every blocked key is a layout key; every enemy starts on an unblocked layout key other than the player's start, and no two enemies of a level share a start |
| Levels.SplitRegionsPartitionLayout | levels.js:65-84 | level 6's two regions have 24 and 29 keys, share no key, and together hold exactly the layout keys |
| Topology.AddRow | game.js:31-41 | storing one row's keys never shortens the insertion order and adds at most one entry per key (the exact order, domain and cells of the whole table are those `AddRowsStores` states) |
| Topology.AddRows | game.js:28-45 | storing rows never shortens the insertion order and adds at most one entry per key of the rows |
| Topology.AddRowsStores | game.js:28-41 | storing rows of distinct keys row by row lists them in row-major order, stores exactly those keys, and gives the key at row r, column c the cell (r, c) |
| Topology.RenderedKeysLayout | game.js:25-46 | the table `renderKB` builds from the layout holds the 53 layout keys in row-major order, each once, each with its own row and column |
| Topology.RenderedCellsInjective | game.js:28-41 | no two keys of the rendered table share a cell |
| Topology.CellsAdjacent | game.js:219-227 | only distinct cells are adjacent, and they are at most one row and one column apart. The rule itself: on one row the columns differ by one; between rows, the lower cell's column is the upper one's or one less |
| Topology.IsAdjacent | game.js:214-228 | two keys are adjacent only when both are stored and their cells differ |
| Topology.AdjacencyFacts | game.js:214-228 | adjacency is symmetric and irreflexive, and false when either key is not in the table |
| Topology.NeighborsAmong | game.js:206-210 | the loop pushes at most one key per scanned key (what it pushes is stated by `NeighborsAmongExact` and `NeighborsAmongOrdered`) |
| Topology.Neighbors | game.js:204-212 | `getNeighbors` returns at most as many keys as the table holds (exactly which, and in what order, is stated by `NeighborsSpec`) |
| Topology.NeighborsAmongExact | game.js:204-212 | a key is pushed by the `getNeighbors` loop exactly when it is a scanned key other than `k` that is adjacent to `k` |
| Topology.NeighborsAmongOrdered | game.js:204-212 | over a duplicate-free scan, the pushed keys appear at strictly increasing scan positions |
| Topology.NeighborsSpec | game.js:204-228 | on a valid table, `getNeighbors(k)` holds exactly the stored keys other than `k` adjacent to `k`, each once, in table (row-major) order |
| Topology.VisualX10 | game.js:235-238 | ten times `getVisualX`: the column plus a row offset of between 0 and 3.5 key widths, which is 0 exactly on the top row |
| Topology.Distance | game.js:230-244 | the sentinel when either key is missing; zero between keys on the same cell; at least 100, one key width squared and scaled, between keys on different rows |
| Topology.DistanceFacts | game.js:230-244 | distance is symmetric, is the sentinel when either key is missing, and is zero from a stored key to itself |
| Topology.DistanceZeroIffSameCell | game.js:235-243 | between stored keys, the distance is zero exactly when the two cells are equal |
| Topology.RenderedDistanceZeroIffSame | game.js:230-244 | on the rendered table, the distance between two keys is zero exactly when they are the same key |
| Chase.Scan | game.js:161-174 | the kept distance never exceeds the chaser's current distance, and the kept key is its own key or one of the candidates |
| Chase.ScanBest | game.js:161-174 | after scanning candidates, the kept distance is that of the kept key; the kept key is the chaser's own key, or a free candidate strictly closer than it; no free candidate is closer than the kept key |
| Chase.ScanPicksFirstClosest | game.js:165-174 | a chaser that moves takes the first free candidate in scan order at the smallest distance: every earlier free candidate is strictly farther |
| Chase.CellsAroundU | game.js:28-41 | in the rendered table "U" is at (1, 7), "H" at (2, 6), "J" at (2, 7) and "N" at (3, 6) |
| Chase.ExactTieNextToU | game.js:214-244 | "H" and "J" are both neighbours of "U" and lie at exactly the same distance from "N" |
| Chase.Step | game.js:165-176 | one chaser's step keeps the number of chasers and that chaser's id, start key and kind |
| Chase.After | game.js:160-177 | any number of steps keeps the number of chasers |
| Chase.Pass | game.js:160-177 | the whole pass keeps the number of chasers (where each one goes is stated by `PassMovesGreedily` and `PassKeepsDistinct`) |
| Chase.AfterLeavesRest | game.js:160-177 | chasers not yet reached by the outer loop still stand where they started |
| Chase.AfterKeepsDone | game.js:160-177 | a chaser that has stepped is never moved again later in the pass |
| Chase.MomentOfStep | game.js:160-177 | when chaser i steps, the earlier chasers stand where the pass leaves them and the later ones where they started; a key is free for it exactly when it is unblocked and none of them is on it |
| Chase.PassMovesGreedily | game.js:159-177 | after a pass, chaser i keeps its id, start and kind. It stays, or it stands on a neighbour of its old key that was unblocked and unoccupied when it stepped. Its distance never grows, and shrinks strictly whenever it moves. No free neighbour was closer, and it took the first closest one in table order |
| Chase.StepKeepsDistinct | game.js:165-176 | a step from pairwise distinct positions keeps them pairwise distinct |
| Chase.AfterKeepsDistinct | game.js:160-177 | any number of steps from pairwise distinct positions keeps them pairwise distinct |
| Chase.PassKeepsDistinct | game.js:160-177 | a full pass from pairwise distinct positions ends with pairwise distinct positions |
| Rules.Spawn | game.js:54 | the chasers copy the enemy literals one for one, in order, each standing on its start key |
| Rules.LoadLevel | game.js:48-56 | an index outside `LEVELS` changes nothing; otherwise the state takes the level and puts the player on its start. Each enemy literal becomes one chaser, in order, with the literal's id, start key and kind, standing on its start key. Play is on and not over, and `enemyTurn` is untouched |
| Rules.LoadedChasersApart | game.js:48-56 | a freshly loaded level has its chasers on pairwise distinct, unblocked keys, none on the player |
| Rules.CheckWin | game.js:196-202 | the game is over afterwards exactly when it was before or the player is on the target; nothing else changes |
| Rules.CheckCollision | game.js:183-186 | the game is over afterwards exactly when it was before or a chaser is on the player; nothing else changes |
| Rules.TryMove | game.js:118-137 | the player moves exactly when the target is unblocked, adjacent and free of chasers; a move puts the player on the target and keeps level and chasers; any other press keeps the state, and it is silent exactly when the target is the player's own unblocked key, and shakes the target otherwise |
| Rules.EndPlayerTurn | game.js:139-157 | after a win nothing changes and no pass is scheduled; otherwise a pass is scheduled exactly when `enemyTurn` was set, `enemyTurn` flips, and it is the player's turn again |
| Rules.HandleInput | game.js:100-137 | a press moves the player exactly when the game is on, it is the player's turn, the key is in the table, and the target is unblocked, adjacent and free of chasers; the state changes only on a move. A press is silent exactly when play is off, the token is unknown, or it is the player's own unblocked key; a shake names the pressed key. A move puts the player on the target, keeps level and chasers, and ends the game exactly on the target key. A winning move neither flips `enemyTurn` nor schedules a pass; any other move schedules one exactly when `enemyTurn` was set, and flips it |
| Rules.EnemyTurn | game.js:159-186 | the pass replaces the chasers by `Pass` of them and changes nothing but the chasers and `gameOver`; the game is over afterwards exactly when it was before or a chaser stands on the player |
| Rules.Apply | game.js:100-181 | one event counts at most one move and schedules a pass only together with it; only a press that leaves the game running counts a move; a pass with none pending changes nothing |
| Rules.Run | game.js:100-181 | a run of events counts at most one move per event, and schedules at most one pass per counted move |
| Rules.ApplyKeepsPace | game.js:139-157 | every press, pass or load keeps the cadence: `enemyTurn` matches the parity of the counted moves, the number of scheduled passes is the matching half of them, and no more passes run than were scheduled |
| Rules.Cadence | game.js:139-157 | after any run, `enemyTurn` has flipped once per accepted non-winning move; those moves scheduled ceil(n/2) passes when `enemyTurn` started set and floor(n/2) when not; passes run never exceed passes scheduled |
| Rules.CadenceFromStart | game.js:7-20 | from construction, n accepted non-winning moves schedule ceil(n/2) passes |
| Rules.AlwaysPlayersTurn | game.js:146-156 | `isPlayerTurn` holds in every state that a run from a playing state reaches |
| Rules.GameOverIsFinal | game.js:100-194 | once the game is over, presses and passes never clear `gameOver`, never move the player and count no move |
| Rules.HomeRowCells | game.js:28-41 | in the rendered table, "F", "G" and "H" sit at row 2, columns 4, 5 and 6 |
| Rules.LevelThreeStart | game.js:48-56 | loading level 3 puts the player on "G" and chasers on "Q" and "P", behind the wall T, Y, H, B, N, target "Enter", play on, `enemyTurn` set |
| Rules.LevelThreeBlockedPress | game.js:118-123 | on level 3's start, pressing the blocked "H" only shakes it and changes nothing |
| Rules.LevelThreeFirstMove | game.js:126-156 | on level 3's start, pressing "F" moves the player there, leaves the chasers, and schedules a pass, since `enemyTurn` starts set |
| GameEngine.Game.constructor | game.js:2-20 | the new game holds the rendered table, level index 0 and the state `loadLevel(0)` gives. It satisfies the cadence invariant with no move counted |
| GameEngine.Game.RenderKB | game.js:25-46 | the nested loops store every layout key with its row and column, giving the table `AddRows` describes |
| GameEngine.Game.LoadLevel | game.js:48-56 | the fields become exactly the state `Rules.LoadLevel` gives |
| GameEngine.Game.HandleInput | game.js:100-116 | the fields and the outcome are exactly those of `Rules.HandleInput`, and the cadence invariant is kept |
| GameEngine.Game.TryMove | game.js:118-137 | the fields and the outcome are exactly those of `Rules.TryMove`, and the cadence invariant is kept |
| GameEngine.Game.EndPlayerTurn | game.js:139-157 | the fields and the scheduled flag are exactly those of `Rules.EndPlayerTurn`, and the cadence invariant is kept |
| GameEngine.Game.CheckWinCondition | game.js:196-202 | the game is over afterwards exactly when it was before or the player is on the target |
| GameEngine.Game.CheckCollision | game.js:183-194 | the game is over afterwards exactly when it was before or a chaser is on the player |
| GameEngine.Game.ProcessEnemyTurn | game.js:159-181 | the fields become exactly the state `Rules.EnemyTurn` gives |
| GameEngine.Game.StepAll | game.js:160-177 | the outer loop returns `Pass` of the chasers: each chaser in list order takes its step, seeing the earlier ones where they moved |
| GameEngine.Game.ChooseMove | game.js:161-176 | the inner loop returns the key `Scan` keeps over the chaser's neighbours |
| GameEngine.Game.GetNeighbors | game.js:204-212 | the loop over the table returns exactly `Neighbors`, the other adjacent keys in table order |

## Left out

- DOM work is not modelled: element creation and labels in `renderKB`, CSS
  classes in `loadLevel` and `updateVisuals`, the message and level
  displays, and `triggerShake`. A shake is visible only as the outcome
  `Shaken(key)`.
- Timers are not modelled. The 100 ms delay before `processEnemyTurn` is an
  event (`PassFires`) that may occur at any later point of a run, so input
  may arrive before the pass runs, as in the source. The shake-clearing
  timeout has no logical effect.
- Key normalisation (`toUpperCase`, the special cases for Space, Enter,
  Backspace, Tab, CapsLock and Shift, `preventDefault`) and the `keydown`
  listeners are left out. `handleInput` takes an already normalised token.
- The restart is left out as an event. The listener that `checkCollision`
  installs calls `location.reload()`, which builds a new `Game`: this is a
  new run from `Initial()`, with `enemyTurn` set again, level index 0 and
  no pending pass. The `Load` event of a run stands for a direct call of
  `loadLevel`, which keeps `enemyTurn` and the pending passes, as
  game.js:48-56 does. `window.onload` is also left out.
- `Math.sqrt` and the float row offsets are replaced by exact squared
  distances on scaled integers.
- Chase.Scan: compares exact distances, so on an exact tie it keeps the
  candidate it scanned first. The source's doubles can order a tie either
  way. A chaser on "U" with the player on "N" has the neighbours 7, 8, Y,
  I, H and J, and H and J tie exactly (`ExactTieNextToU`), so the model keeps
  H. In doubles, 6 + 1.8 - (6 + 2.3) rounds to slightly below -0.5, while
  7 + 1.8 - (6 + 2.3) is 0.5. So J's `getDistance` to N is the smaller one,
  and the strict `d < minDist` of the source takes J. The model does not
  capture this rounding.
- `KEY_LABELS` (levels.js:9-17) is display text and is not modelled.
- Topology.AddRow: its own contract states only sizes; the table it builds is stated by `AddRowsStores`.
- Topology.AddRows: its own contract states only sizes; the table it builds is stated by `AddRowsStores`.
- Topology.NeighborsAmong: its own contract states only a size; what it pushes is stated by `NeighborsAmongExact` and `NeighborsAmongOrdered`.
- Topology.Neighbors: its own contract states only a size; its content and order are stated by `NeighborsSpec`.
- Chase.Step: its own contract states only the size and the kept fields; the move is stated by `PassMovesGreedily`.
- Chase.After: its own contract states only the size; the steps are stated by `AfterLeavesRest`, `AfterKeepsDone` and `MomentOfStep`.
- Chase.Pass: its own contract states only the size; the moves are stated by `PassMovesGreedily` and `PassKeepsDistinct`.
- The split layout, the Space bridge, regions, random or timed enemy kinds
  and advancing to the next level are not implemented by the code. The code
  never reads `type`, `layout` or `regions`, so they are kept only as data.
  The level 6 regions get the partition lemma and nothing else.
- `level` is left unset and `playerPos` is `null` before the first
  `loadLevel`. The constructor model gives them the placeholders `NoLevel`
  and `""` until `loadLevel(0)` replaces them.
- GameEngine.Game.ProcessEnemyTurn: the source assigns `chaser.pos` on chaser
  objects inside `this.chasers` one at a time. The model builds the updated
  list position by position in `StepAll` and stores it when the loop ends.
  Each chooser sees the chasers already moved, as in the source, but not
  the aliasing of individual chaser objects.
- The `keys` Map stores `{ el, row, col, char }`; the model keeps `row` and
  `col`. Rows are limited to 0-4, the entries of the row offset table.
