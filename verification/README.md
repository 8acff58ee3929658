# Ocean: a verified model of the grid and its tick engine

`cpp_ocean` simulates a small ocean on a rectangular grid. Each cell holds one entity, Sand, Algae,
a Herbivore fish or a Predator fish, or holds nothing: before `init` runs, or after `setEntity`
was given no entity. `Ocean::tick` advances the world in three passes. Each pass first takes a
row-major snapshot of the positions it will process and then mutates the grid in place:

1. **Algae pass.** Every Algae of the snapshot turns its in-bounds Sand neighbours into Algae. The
   neighbours are tried east, west, south, north.
2. **Herbivore pass.** Every Herbivore of the snapshot walks a random permutation of the four
   directions and acts on the first neighbour that holds Algae. A coin decides whether that cell
   becomes a Herbivore or Sand. The herbivore's own cell is never written.
3. **Predator pass.** Every Predator of the snapshot picks the nearest food, Manhattan distance
   with the earliest candidate winning ties. It takes one step toward it, along x first, then y.
   The destination receives the predator. The source becomes a new Predator when the predator ate
   a Herbivore and the spawn draw (probability 0.3) succeeds; otherwise it becomes Sand.

The model has two layers:

- **A pure specification of every pass.** Functions over `seq<seq<Cell>>` grids, in modules
  `Growth`, `Grazing`, `Hunting` and `Engine`.
- **The `Ocean` class** (module `Simulation`). Its grid field is updated by methods with the same
  loops as the source. Each method's postcondition says the grid it leaves is the one the
  specification function gives.

Lemmas about the specification state what each pass does cell by cell:

- what changes and what is left alone;
- that an occupied cell never becomes empty;
- how the food list of the predator pass relates to the herbivores on the board.

Scenario lemmas evaluate whole ticks on small boards for every outcome of the random draws.

Randomness is passed in as oracles, so a tick is a function of the board and the draws:

- `shuffle(j)` is the permutation drawn for the j-th herbivore of the snapshot;
- `coin(n)` is the n-th coin of the tick;
- `spawn(n)` is the n-th spawn draw of the tick. It is true when the uniform float fell below 0.3.

The specification functions count draws in `Progress.draws`, so a draw is consumed exactly where
the source makes one:

- a coin only when a herbivore found Algae;
- a spawn draw only when a predator ate, because the source's `ate && ...` short-circuits.

Some consequences of the code that are easy to miss:

- **Food list.** The predator pass hunts `foods = herbi` (src/ocean.cpp:167): the herbivore
  snapshot taken before the herbivore pass, not a fresh snapshot at the start of the predator
  pass. Herbivores born in the herbivore pass are not food in the same tick
  (`Engine.FoodsAtPredatorPass`).
- **Emptiness test.** The food list is never shrunk, so the per-predator `foods.empty()` test
  (line 177) is false for every predator or true for all of them (`Hunting.NoFoodNoHunt`,
  `Engine.NoHerbivoresOnlyGrowth`). Predators keep chasing cells whose herbivore has already been
  eaten.
- **Moving onto another predator.** A predator that steps onto another predator overwrites it
  (line 199; `Scenarios.StaleFoodIsChased`).
- **What is left after eating.** When a predator eats, the destination holds the predator and the
  predator's old cell, not the eaten cell, may become a new Predator (lines 199-205;
  `Scenarios.PredatorEats`).
- **No zero-length steps.** A predator never stands on a food position
  (`Engine.PredatorsNeverOnFood`), so the step of lines 189-191 always has length 1.

## Model

| member | source | states |
|---|---|---|
| Kinds.Symbol | include/entity.hpp:7-10 | a kind's glyph (Sand a space, Algae `~`, Herbivore U+131A1, Predator U+1319C, from the four entity headers) is never the `?` of an empty cell |
| Kinds.Glyph | src/ocean.cpp:93-97 | a cell prints `?` exactly when it holds no entity, otherwise its kind's glyph |
| Kinds.GlyphInjective | src/ocean.cpp:93-97 | two cells that print the same glyph are the same cell value |
| Board.Update | src/ocean.cpp:110 | writing one cell keeps the board's shape, sets that cell and leaves every other cell as it was |
| Board.RowScan | src/ocean.cpp:118-122 | the scan of one row holds exactly the columns of that row with the kind, left to right |
| Board.Rows | src/ocean.cpp:117-123 | the scan of the first y rows holds exactly the on-board cells of those rows with the kind, row-major |
| Board.Positions | src/ocean.cpp:117-123 | a snapshot contains c iff c is on the board and holds the kind, and it is strictly row-major (so each position once) |
| Board.NeighbourIffAdjacent | src/ocean.cpp:116 | the four offsets (+1,0), (-1,0), (0,+1), (0,-1) reach exactly the cells at Manhattan distance 1 |
| Board.NeighboursDistinct | src/ocean.cpp:138 | different directions lead to different neighbours |
| Board.SingletonScan | src/ocean.cpp:117-123 | a row-major snapshot whose only member is q is `[q]` |
| Board.PairScan | src/ocean.cpp:117-123 | a row-major snapshot whose members are exactly a before b is `[a, b]` |
| Board.EmptyScan | src/ocean.cpp:117-123 | the snapshot of a kind is empty iff no cell on the board holds that kind |
| Display.Border | src/ocean.cpp:85-87 | the frame line is `+`, one `-` per column, `+` |
| Display.RowLine | src/ocean.cpp:91-99 | a row line is a bar, each cell's glyph in column order, a bar |
| Display.Render | src/ocean.cpp:83-106 | `print` writes h + 2 lines: a frame line, one line per row top to bottom, a frame line |
| Display.RenderShowsCell | src/ocean.cpp:83-106 | every printed line is w + 2 wide and cell (x, y) is the character at column x + 1 of line y + 1 |
| Display.RenderInjective | src/ocean.cpp:83-106 | two boards of the same size that print alike are equal |
| Growth.Spread | src/ocean.cpp:125-133 | one Algae trying its first i directions on the live grid; the contract only keeps the board's shape, the meaning is `Growth.SpreadAt` |
| Growth.AlgaeSteps | src/ocean.cpp:124-134 | the first j Algae of the snapshot spreading in turn; the contract only keeps the board's shape, the meaning is `Growth.AlgaeStepsAt` |
| Growth.AlgaePass | src/ocean.cpp:115-134 | the algae pass: snapshot, then every Algae spreads; the contract only keeps the board's shape, the meaning is `Growth.AlgaePassAt` and `Growth.AlgaeCellsAfterGrowth` |
| Growth.ReachesIffAdjacent | src/ocean.cpp:125-126 | the four directions of one source reach exactly its adjacent cells |
| Growth.SpreadAt | src/ocean.cpp:125-133 | after a source has tried its first i directions, a cell is Algae because of it iff it was Sand and is one of those i neighbours; nothing else changes |
| Growth.FedIff | src/ocean.cpp:124 | a cell is fed by the first j sources iff one of them is adjacent to it |
| Growth.AlgaeStepsAt | src/ocean.cpp:124-134 | although each source re-reads the live grid, after j sources a cell is Algae by growth iff it was Sand at the start and is adjacent to one of them |
| Growth.AlgaePassAt | src/ocean.cpp:115-134 | after the algae pass a cell is Algae iff it was Algae, or it was Sand with an Algae neighbour when the pass began (growth does not cascade within a pass); other cells are unchanged |
| Growth.AlgaeCellsAfterGrowth | src/ocean.cpp:115-134 | the Algae set only grows, by Sand cells next to Algae, and no non-Sand cell changes |
| Grazing.FirstAlgae | src/ocean.cpp:150-154 | the first index of the shuffled directions whose neighbour is on the board and holds Algae; none iff no direction has one |
| Grazing.Graze | src/ocean.cpp:148-161 | one herbivore acting on its first Algae neighbour; the contract only keeps the board's shape, the meaning is `Grazing.GrazeEffect` |
| Grazing.GrazeEffect | src/ocean.cpp:147-162 | a herbivore changes at most its first Algae neighbour: Herbivore iff the coin is true, Sand iff false; a coin is drawn iff such a neighbour exists; all other cells are unchanged |
| Grazing.GrazeEatsOnlyAlgae | src/ocean.cpp:150-161 | one herbivore only rewrites a cell that held Algae, to Herbivore or Sand |
| Grazing.HerbivoreSteps | src/ocean.cpp:147-163 | at most one coin is drawn per herbivore processed |
| Grazing.HerbivoreStepsEatOnlyAlgae | src/ocean.cpp:147-163 | after any number of herbivores, only cells that held Algae have changed, each to Herbivore or Sand |
| Grazing.HerbivorePassEatsOnlyAlgae | src/ocean.cpp:137-163 | the herbivore pass changes only Algae cells, leaves every other cell as it was, and draws at most one coin per herbivore of the snapshot |
| Grazing.NoAlgaeNoGrazingSteps | src/ocean.cpp:150-160 | with no Algae on the board, no herbivore changes anything or draws a coin |
| Grazing.NoAlgaeNoGrazing | src/ocean.cpp:137-163 | with no Algae on the board the herbivore pass is the identity and draws no coin |
| Grazing.HerbivorePass | src/ocean.cpp:137-163 | the herbivore pass: snapshot, then every herbivore grazes; the contract only keeps the board's shape, the meaning is `Grazing.HerbivorePassEatsOnlyAlgae` and `Grazing.NoAlgaeNoGrazing` |
| Hunting.Nearest | src/ocean.cpp:179-187 | the chosen food is at minimal Manhattan distance from the predator, and strictly closer than every earlier food (the first minimum wins) |
| Hunting.StepToward | src/ocean.cpp:189-193 | a step is one cell long and one closer to the target; it moves along x while the x differ; it stays within the box spanned by predator and target |
| Hunting.StepStaysOnBoard | src/ocean.cpp:193-194 | a step from a cell on the board toward a cell on the board stays on the board |
| Hunting.Hunt | src/ocean.cpp:177-205 | one predator's turn; the contract only keeps the board's shape, the meaning is `Hunting.HuntEffect` |
| Hunting.HuntEffect | src/ocean.cpp:176-205 | a predator moves to an adjacent cell, which receives the predator; the source is Predator iff it ate a Herbivore and the spawn draw succeeded, Sand otherwise; a draw is consumed iff it ate; an off-board step changes nothing; no other cell changes |
| Hunting.HuntSteps | src/ocean.cpp:176-206 | at most one spawn draw is made per predator processed |
| Hunting.NoFoodNoHuntSteps | src/ocean.cpp:177 | with no food, no predator acts |
| Hunting.NoFoodNoHunt | src/ocean.cpp:177 | with an empty food list the predator pass leaves the board alone and draws nothing |
| Hunting.HuntStepsKeepOccupied | src/ocean.cpp:197-205 | after any number of predators, no cell that held an entity is empty |
| Hunting.PredatorPassKeepsOccupied | src/ocean.cpp:166-206 | the predator pass empties no occupied cell and draws at most one spawn per predator of the snapshot |
| Hunting.PredatorPass | src/ocean.cpp:166-206 | the predator pass: snapshot, then every predator hunts `foods`; the contract only keeps the board's shape, the meaning is `Hunting.PredatorPassKeepsOccupied` and `Hunting.NoFoodNoHunt` |
| Engine.Tick | src/ocean.cpp:113-207 | `tick`: the algae pass, the herbivore pass, then the predator pass hunting the herbivore snapshot; the contract only keeps the board's shape, the meaning is `Engine.TickKeepsOccupied`, `Engine.FoodsAtPredatorPass`, `Engine.PredatorsNeverOnFood` and `Engine.NoHerbivoresOnlyGrowth` |
| Engine.AlgaePassKeepsOccupied | src/ocean.cpp:115-134 | the algae pass empties no occupied cell |
| Engine.HerbivorePassKeepsOccupied | src/ocean.cpp:137-163 | the herbivore pass empties no occupied cell |
| Engine.TickKeepsOccupied | src/ocean.cpp:113-207 | a tick empties no occupied cell; a board full after `init` stays full after every tick |
| Engine.PredatorsNeverOnFood | src/ocean.cpp:167-174 | no predator of the predator snapshot stands on a food position |
| Engine.FoodsAtPredatorPass | src/ocean.cpp:167 | every food still holds a Herbivore when the predator pass starts; a Herbivore that is not a food was born on an Algae cell during the herbivore pass |
| Engine.AlgaePassKeepsHerbivores | src/ocean.cpp:115-134 | the algae pass neither creates nor removes a Herbivore |
| Engine.NoHerbivoresOnlyGrowth | src/ocean.cpp:177 | on a board without herbivores a tick is exactly the algae pass |
| Scenarios.SeedGrowsToCross | src/ocean.cpp:115-134 | on a 3 x 3 board with one central Algae, the algae pass gives the cross of five Algae |
| Scenarios.AlgaeGrowsOneStep | src/ocean.cpp:113-207 | on that board a whole tick turns the four orthogonal neighbours into Algae and leaves the corners Sand, whatever the draws |
| Scenarios.NoAlgaeNoChange | src/ocean.cpp:115-163 | without Algae, the algae and herbivore passes change nothing and draw no coin |
| Scenarios.NoAlgaeTick | src/ocean.cpp:113-207 | without Algae, a tick is the predator pass hunting the herbivores present |
| Scenarios.OneRowTick | src/ocean.cpp:113-207 | on a one-row board without Algae and with one Herbivore, a tick is the predator pass hunting that one position |
| Scenarios.PredatorStepsTowardFood | src/ocean.cpp:176-205 | a Predator at (0,0) and a Herbivore at (4,0) on a 5 x 1 board: after a tick the Predator is at (1,0), (0,0) is Sand, the Herbivore stays |
| Scenarios.PredatorEats | src/ocean.cpp:197-205 | a Predator next to the only Herbivore moves onto it; its old cell is a Predator iff the first spawn draw succeeds, else Sand |
| Scenarios.StaleFoodIsChased | src/ocean.cpp:167-205 | with Predator, Herbivore, Predator in a row, the first eats and the second still targets the eaten cell and overwrites the first |
| HuntingExamples.ChaseHunt | src/ocean.cpp:176-205 | the predator pass on the 5 x 1 board moves the Predator one cell and draws nothing |
| HuntingExamples.MealHunt | src/ocean.cpp:176-205 | the predator pass next to one Herbivore eats it and consumes exactly one spawn draw |
| HuntingExamples.RivalsHunt | src/ocean.cpp:176-205 | the predator pass with two predators and one stale food consumes one spawn draw and ends with Predator-or-Sand, Predator, Sand |
| Simulation.SandGrid | src/ocean.cpp:77-81 | the board after `init`: right shape, Sand in every cell |
| Simulation.ChooseTarget | src/ocean.cpp:179-187 | the `bestDist` loop returns the index `Nearest` specifies: minimal distance, first among equals |
| Simulation.Ocean.constructor | src/ocean.cpp:19-29 | `height` rows of `width` cells, every cell empty |
| Simulation.Ocean.Init | src/ocean.cpp:77-81 | after `init` the grid is the Sand board, whatever it held before |
| Simulation.Ocean.SetEntity | src/ocean.cpp:108-111 | rejected iff x >= width or y >= height (the `validate` test at lines 31-34), leaving the grid unchanged; otherwise exactly that cell is overwritten |
| Simulation.Ocean.Snapshot | src/ocean.cpp:117-123 | the nested scan loop returns the row-major snapshot: exactly the on-board cells holding the kind |
| Simulation.Ocean.ScanRow | src/ocean.cpp:118-122 | the inner scan loop returns exactly the cells of the row holding the kind, left to right |
| Simulation.Ocean.GrowAlgae | src/ocean.cpp:115-134 | the algae loops leave the grid `Growth.AlgaePass` gives |
| Simulation.Ocean.MoveHerbivores | src/ocean.cpp:137-163 | the herbivore loops leave the grid `Grazing.HerbivorePass` gives and return the herbivore snapshot |
| Simulation.Ocean.HerbivoreActs | src/ocean.cpp:148-162 | the direction loop with its `break` acts as `Grazing.Graze` and returns the updated coin count |
| Simulation.Ocean.MovePredators | src/ocean.cpp:166-206 | the predator loop, with its `foods.empty()` exit, leaves the grid `Hunting.PredatorPass` gives |
| Simulation.Ocean.PredatorActs | src/ocean.cpp:178-205 | target search, step, bounds skip, move and spawn act as `Hunting.Hunt` and return the updated spawn count |
| Simulation.Ocean.Tick | src/ocean.cpp:113-207 | `tick` leaves the grid `Engine.Tick` gives: algae pass, herbivore pass, then predator pass hunting the herbivore snapshot |

## Left out

- **Driver.** `src/main.cpp` is not part of this model: the loop that places entities, prints and
  sleeps between ticks.
- **Random engine.** The Mersenne twister, its nondeterministic seeding, `std::shuffle`, and the
  integer and float distributions are not modelled. They become the oracle parameters `shuffle`,
  `coin` and `spawn`. The float test `< 0.3f` is folded into the boolean `spawn(n)`.
- **Draws across ticks.** Draw indices start again at 0 in every tick. The single engine shared
  across ticks is left to the caller, who supplies fresh oracles for each tick.
- **Copy and move.** The copy constructor and copy assignment (src/ocean.cpp:36-55, 63-71) and the
  move operations are not modelled. The grid is a value (`seq`), so a copy is an assignment.
- **Entity identity.** Heap ownership through `unique_ptr` is not modelled. A cell holds its kind
  as a value, so "moving" a predator copies its kind.
- **Printing.** `print` writes to `std::cout`. It is modelled as `Display.Render`, which returns
  the lines. Each glyph is one Unicode code point, not the UTF-8 byte string the source prints.
- **Coordinate arithmetic.** Coordinates are unbounded integers. Unsigned wrap-around below 0 is
  modelled by the explicit `0 <=` test in `InBounds`. `SetEntity` takes `nat` coordinates, like
  `std::size_t`. The `int` casts and the signed `int` sum in the distance computation (line 182) are
  taken as exact, so boards with width + height above 2^31 + 1 are not modelled: there the sum
  can overflow.
- **The `bestDist` sentinel.** `SIZE_MAX` is modelled as "no candidate yet" (`None`). This is
  equivalent, since every real distance is smaller.
- Hunting.HuntEffect: does not describe a predator that already stands on a food position (the
  zero-length step). No tick produces one (`Engine.PredatorsNeverOnFood`), and `Hunting.Hunt`
  still defines that case.
- **Degenerate sizes.** Construction with width or height 0 is accepted and gives an empty board,
  as in the source. The source does not validate sizes.
