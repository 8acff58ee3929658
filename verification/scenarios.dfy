/** Whole ticks on small concrete boards, for any outcome of the random draws. */
module Scenarios {
  import opened Kinds
  import opened Board
  import opened Growth
  import opened Grazing
  import opened Hunting
  import opened Engine
  import HuntingExamples
  import opened Cells

  const Seed: Grid := [[S, S, S], [S, A, S], [S, S, S]]
  const Cross: Grid := [[S, A, S], [A, A, A], [S, A, S]]

  lemma SeedHasNoHerbivore()
    ensures Positions(Seed, 3, 3, Herbivore) == []
  {
    forall c: Pos
      ensures c !in Positions(Seed, 3, 3, Herbivore)
    {
      if InBounds(c, 3, 3) {
        assert c.y == 0 || c.y == 1 || c.y == 2;
        assert Seed[c.y] == [S, S, S] || Seed[c.y] == [S, A, S];
      }
    }
    EmptyScan(Seed, 3, 3, Herbivore);
  }

  lemma SeedCellGrows(g: Grid, x: nat, y: nat)
    requires g == Seed && x < 3 && y < 3
    ensures AlgaePass(g, 3, 3)[y][x] == Cross[y][x]
  {
    AlgaePassAt(g, 3, 3, Pos(x, y));
  }

  lemma SeedRowGrows(g: Grid, y: nat)
    requires g == Seed && y < 3
    ensures AlgaePass(g, 3, 3)[y] == Cross[y]
  {
    SeedCellGrows(g, 0, y);
    SeedCellGrows(g, 1, y);
    SeedCellGrows(g, 2, y);
  }

  lemma SeedGrowsToCross(g: Grid)
    requires g == Seed
    ensures AlgaePass(g, 3, 3) == Cross
  {
    SeedRowGrows(g, 0);
    SeedRowGrows(g, 1);
    SeedRowGrows(g, 2);
  }

  /** On a 3 x 3 board with one Algae in the middle, one tick turns its four orthogonal
      neighbours into Algae and leaves the corners Sand. */
  lemma AlgaeGrowsOneStep(shuffle: nat -> Shuffle, coin: nat -> bool, spawn: nat -> bool)
    ensures Tick(Seed, 3, 3, shuffle, coin, spawn) == Cross
  {
    SeedHasNoHerbivore();
    NoHerbivoresOnlyGrowth(Seed, 3, 3, shuffle, coin, spawn);
    SeedGrowsToCross(Seed);
  }

  /** A board without Algae is left alone by the algae and herbivore passes. */
  lemma NoAlgaeNoChange(g: Grid, w: nat, h: nat, shuffle: nat -> Shuffle, coin: nat -> bool)
    requires IsGrid(g, w, h)
    requires forall c :: InBounds(c, w, h) ==> At(g, c) != A
    ensures AlgaePass(g, w, h) == g
    ensures HerbivorePass(g, w, h, shuffle, coin) == Progress(g, 0)
  {
    EmptyScan(g, w, h, Algae);
    NoAlgaeNoGrazing(g, w, h, shuffle, coin);
  }

  /** On a board without Algae a tick is the predator pass alone, hunting the herbivores present. */
  lemma NoAlgaeTick(g: Grid, w: nat, h: nat, shuffle: nat -> Shuffle, coin: nat -> bool, spawn: nat -> bool)
    requires IsGrid(g, w, h)
    requires forall c :: InBounds(c, w, h) ==> At(g, c) != A
    ensures Tick(g, w, h, shuffle, coin, spawn) == PredatorPass(g, w, h, Positions(g, w, h, Herbivore), spawn).grid
  {
    NoAlgaeNoChange(g, w, h, shuffle, coin);
  }

  /** A one-row board without Algae and with a single Herbivore, at column q: a tick is the predator
      pass hunting that one position. */
  lemma OneRowTick(g: Grid, w: nat, q: nat, shuffle: nat -> Shuffle, coin: nat -> bool, spawn: nat -> bool)
    requires IsGrid(g, w, 1) && q < w && g[0][q] == H
    requires forall x :: 0 <= x < w ==> g[0][x] != A
    requires forall x :: 0 <= x < w && x != q ==> g[0][x] != H
    ensures Tick(g, w, 1, shuffle, coin, spawn) == PredatorPass(g, w, 1, [Pos(q, 0)], spawn).grid
  {
    NoAlgaeTick(g, w, 1, shuffle, coin, spawn);
    HuntingExamples.RowScanOne(g, w, Herbivore, q);
  }

  /** On a 5 x 1 board with a Predator at (0, 0) and a Herbivore at (4, 0), one tick moves the
      Predator one cell towards the Herbivore, to (1, 0), and leaves Sand at (0, 0); the Herbivore,
      with no Algae next to it, stays. */
  lemma PredatorStepsTowardFood(g: Grid, shuffle: nat -> Shuffle, coin: nat -> bool, spawn: nat -> bool)
    requires g == HuntingExamples.Chase
    ensures Tick(g, 5, 1, shuffle, coin, spawn) == [[S, P, S, S, H]]
  {
    OneRowTick(g, 5, 4, shuffle, coin, spawn);
    HuntingExamples.ChaseHunt(g, spawn);
  }

  /** A Predator next to the only Herbivore moves onto it and consumes one spawn draw; its old cell
      holds a new Predator when that draw succeeds and Sand otherwise. */
  lemma PredatorEats(g: Grid, shuffle: nat -> Shuffle, coin: nat -> bool, spawn: nat -> bool)
    requires g == HuntingExamples.Meal
    ensures Tick(g, 2, 1, shuffle, coin, spawn) == [[if spawn(0) then P else S, P]]
  {
    OneRowTick(g, 2, 1, shuffle, coin, spawn);
    HuntingExamples.MealHunt(g, spawn);
  }

  /** The food list is never shrunk: two Predators flank one Herbivore; the first eats it, and the
      second still targets the eaten position, moves onto the first Predator and overwrites it. */
  lemma StaleFoodIsChased(g: Grid, shuffle: nat -> Shuffle, coin: nat -> bool, spawn: nat -> bool)
    requires g == HuntingExamples.Rivals
    ensures Tick(g, 3, 1, shuffle, coin, spawn) == [[if spawn(0) then P else S, P, S]]
  {
    OneRowTick(g, 3, 1, shuffle, coin, spawn);
    HuntingExamples.RivalsHunt(g, spawn);
  }
}
