/** The predator pass on small one-row boards, for any outcome of the spawn draws. The one-line
    lemmas about a single target, move or row update are proof scaffolding: each keeps one concrete
    fact apart so that the scenario proofs stay small. */
module HuntingExamples {
  import opened Kinds
  import opened Board
  import opened Hunting
  import opened Cells

  const Chase: Grid := [[P, S, S, S, H]]

  const Meal: Grid := [[P, H]]

  const Rivals: Grid := [[P, H, P]]

  /** On a one-row board, the snapshot of kind k when exactly column q holds it. */
  lemma RowScanOne(g: Grid, w: nat, k: Kind, q: nat)
    requires IsGrid(g, w, 1) && q < w && g[0][q] == Some(k)
    requires forall x :: 0 <= x < w && x != q ==> g[0][x] != Some(k)
    ensures Positions(g, w, 1, k) == [Pos(q, 0)]
  {
    SingletonScan(Positions(g, w, 1, k), Pos(q, 0));
  }

  /** On a one-row board, the snapshot of kind k when exactly columns q1 < q2 hold it. */
  lemma RowScanTwo(g: Grid, w: nat, k: Kind, q1: nat, q2: nat)
    requires IsGrid(g, w, 1) && q1 < q2 < w && g[0][q1] == Some(k) && g[0][q2] == Some(k)
    requires forall x :: 0 <= x < w && x != q1 && x != q2 ==> g[0][x] != Some(k)
    ensures Positions(g, w, 1, k) == [Pos(q1, 0), Pos(q2, 0)]
  {
    PairScan(Positions(g, w, 1, k), Pos(q1, 0), Pos(q2, 0));
  }

  /** Writing a cell of a one-row board rewrites that row. */
  lemma RowUpdate(row: seq<Cell>, x: nat, v: Cell)
    requires x < |row|
    ensures Update([row], Pos(x, 0), v) == [row[x := v]]
  {
  }

  lemma ChasePredators(g: Grid)
    requires g == Chase
    ensures Positions(g, 5, 1, Predator) == [Pos(0, 0)]
  {
    assert forall x :: 0 <= x < 5 && x != 0 ==> g[0][x] != P;
    RowScanOne(g, 5, Predator, 0);
  }

  /** The step of a predator whose target cell holds a Herbivore: it eats, and the spawn draw
      decides what it leaves behind. */
  lemma HuntAte(s: Progress, w: nat, h: nat, foods: seq<Pos>, p: Pos, spawn: nat -> bool, n: Pos)
    requires IsGrid(s.grid, w, h) && InBounds(p, w, h) && |foods| > 0
    requires StepToward(p, foods[Nearest(foods, p, |foods|)]) == n && InBounds(n, w, h)
    requires At(s.grid, n) == Some(Herbivore)
    ensures Hunt(s, w, h, foods, p, spawn) == Progress(Update(Update(s.grid, n, At(s.grid, p)), p, if spawn(s.draws) then P else S), s.draws + 1)
  {
  }

  /** The step of a predator onto a cell without a Herbivore: it leaves Sand and draws nothing. */
  lemma HuntMissed(s: Progress, w: nat, h: nat, foods: seq<Pos>, p: Pos, spawn: nat -> bool, n: Pos)
    requires IsGrid(s.grid, w, h) && InBounds(p, w, h) && |foods| > 0
    requires StepToward(p, foods[Nearest(foods, p, |foods|)]) == n && InBounds(n, w, h)
    requires At(s.grid, n) != Some(Herbivore)
    ensures Hunt(s, w, h, foods, p, spawn) == Progress(Update(Update(s.grid, n, At(s.grid, p)), p, S), s.draws)
  {
  }

  lemma ChaseTarget()
    ensures StepToward(Pos(0, 0), [Pos(4, 0)][Nearest([Pos(4, 0)], Pos(0, 0), 1)]) == Pos(1, 0)
  {
  }

  lemma ChaseMove(g: Grid)
    requires g == Chase
    ensures Update(Update(g, Pos(1, 0), P), Pos(0, 0), S) == [[S, P, S, S, H]]
  {
    RowUpdate(g[0], 1, P);
    assert g[0][1 := P] == [P, P, S, S, H];
    var moved := Update(g, Pos(1, 0), P);
    RowUpdate(moved[0], 0, S);
    assert moved[0][0 := S] == [S, P, S, S, H];
  }

  lemma ChaseHunt(g: Grid, spawn: nat -> bool)
    requires g == Chase
    ensures PredatorPass(g, 5, 1, [Pos(4, 0)], spawn) == Progress([[S, P, S, S, H]], 0)
  {
    ChasePredators(g);
    assert IsGrid(g, 5, 1) && At(g, Pos(1, 0)) == S;
    ChaseMove(g);
    var foods := [Pos(4, 0)];
    var preds := Positions(g, 5, 1, Predator);
    assert PredatorPass(g, 5, 1, foods, spawn) == HuntSteps(g, 5, 1, foods, preds, spawn, 1);
    assert HuntSteps(g, 5, 1, foods, preds, spawn, 0) == Progress(g, 0);
    assert HuntSteps(g, 5, 1, foods, preds, spawn, 1) == Hunt(Progress(g, 0), 5, 1, foods, Pos(0, 0), spawn);
    ChaseTarget();
    HuntMissed(Progress(g, 0), 5, 1, foods, Pos(0, 0), spawn, Pos(1, 0));
  }

  lemma MealPredators(g: Grid)
    requires g == Meal
    ensures Positions(g, 2, 1, Predator) == [Pos(0, 0)]
  {
    RowScanOne(g, 2, Predator, 0);
  }

  lemma MealMove(g: Grid, left: Cell)
    requires g == Meal
    ensures Update(Update(g, Pos(1, 0), P), Pos(0, 0), left) == [[left, P]]
  {
    RowUpdate(g[0], 1, P);
    assert g[0][1 := P] == [P, P];
    var moved := Update(g, Pos(1, 0), P);
    RowUpdate(moved[0], 0, left);
    assert moved[0][0 := left] == [left, P];
  }

  lemma NextCellTarget()
    ensures StepToward(Pos(0, 0), [Pos(1, 0)][Nearest([Pos(1, 0)], Pos(0, 0), 1)]) == Pos(1, 0)
  {
  }

  lemma MealStep(g: Grid, spawn: nat -> bool)
    requires g == Meal
    ensures Hunt(Progress(g, 0), 2, 1, [Pos(1, 0)], Pos(0, 0), spawn) == Progress([[if spawn(0) then P else S, P]], 1)
  {
    assert IsGrid(g, 2, 1) && At(g, Pos(1, 0)) == H;
    MealMove(g, if spawn(0) then P else S);
    NextCellTarget();
    HuntAte(Progress(g, 0), 2, 1, [Pos(1, 0)], Pos(0, 0), spawn, Pos(1, 0));
  }

  lemma MealHunt(g: Grid, spawn: nat -> bool)
    requires g == Meal
    ensures PredatorPass(g, 2, 1, [Pos(1, 0)], spawn) == Progress([[if spawn(0) then P else S, P]], 1)
  {
    MealPredators(g);
    var foods := [Pos(1, 0)];
    var preds := Positions(g, 2, 1, Predator);
    assert PredatorPass(g, 2, 1, foods, spawn) == HuntSteps(g, 2, 1, foods, preds, spawn, 1);
    assert HuntSteps(g, 2, 1, foods, preds, spawn, 0) == Progress(g, 0);
    assert HuntSteps(g, 2, 1, foods, preds, spawn, 1) == Hunt(Progress(g, 0), 2, 1, foods, Pos(0, 0), spawn);
    MealStep(g, spawn);
  }

  lemma RivalsFirstMove(g: Grid, left: Cell)
    requires g == Rivals
    ensures Update(Update(g, Pos(1, 0), P), Pos(0, 0), left) == [[left, P, P]]
  {
    RowUpdate(g[0], 1, P);
    assert g[0][1 := P] == [P, P, P];
    var moved := Update(g, Pos(1, 0), P);
    RowUpdate(moved[0], 0, left);
    assert moved[0][0 := left] == [left, P, P];
  }

  lemma RivalsSecondMove(g: Grid, left: Cell)
    requires g == [[left, P, P]]
    ensures Update(Update(g, Pos(1, 0), P), Pos(2, 0), S) == [[left, P, S]]
  {
    RowUpdate(g[0], 1, P);
    assert g[0][1 := P] == [left, P, P];
    var moved := Update(g, Pos(1, 0), P);
    RowUpdate(moved[0], 2, S);
    assert moved[0][2 := S] == [left, P, S];
  }

  lemma RivalsSecondTarget()
    ensures StepToward(Pos(2, 0), [Pos(1, 0)][Nearest([Pos(1, 0)], Pos(2, 0), 1)]) == Pos(1, 0)
  {
  }

  /** The left predator eats the herbivore between them. */
  lemma RivalsFirst(g: Grid, spawn: nat -> bool)
    requires g == Rivals
    ensures Hunt(Progress(g, 0), 3, 1, [Pos(1, 0)], Pos(0, 0), spawn) == Progress([[if spawn(0) then P else S, P, P]], 1)
  {
    assert IsGrid(g, 3, 1) && At(g, Pos(1, 0)) == H;
    RivalsFirstMove(g, if spawn(0) then P else S);
    NextCellTarget();
    HuntAte(Progress(g, 0), 3, 1, [Pos(1, 0)], Pos(0, 0), spawn, Pos(1, 0));
  }

  /** The right predator still chases the eaten herbivore's cell and overwrites the left one. */
  lemma RivalsSecond(g: Grid, left: Cell, spawn: nat -> bool)
    requires g == [[left, P, P]]
    ensures Hunt(Progress(g, 1), 3, 1, [Pos(1, 0)], Pos(2, 0), spawn) == Progress([[left, P, S]], 1)
  {
    assert IsGrid(g, 3, 1) && At(g, Pos(1, 0)) == P && At(g, Pos(2, 0)) == P;
    RivalsSecondMove(g, left);
    RivalsSecondTarget();
    HuntMissed(Progress(g, 1), 3, 1, [Pos(1, 0)], Pos(2, 0), spawn, Pos(1, 0));
  }

  lemma RivalsHunt(g: Grid, spawn: nat -> bool)
    requires g == Rivals
    ensures PredatorPass(g, 3, 1, [Pos(1, 0)], spawn) == Progress([[if spawn(0) then P else S, P, S]], 1)
  {
    RowScanTwo(g, 3, Predator, 0, 2);
    var foods := [Pos(1, 0)];
    var preds := Positions(g, 3, 1, Predator);
    assert PredatorPass(g, 3, 1, foods, spawn) == HuntSteps(g, 3, 1, foods, preds, spawn, 2);
    assert HuntSteps(g, 3, 1, foods, preds, spawn, 0) == Progress(g, 0);
    var s1 := Hunt(Progress(g, 0), 3, 1, foods, Pos(0, 0), spawn);
    assert HuntSteps(g, 3, 1, foods, preds, spawn, 1) == s1;
    assert HuntSteps(g, 3, 1, foods, preds, spawn, 2) == Hunt(s1, 3, 1, foods, Pos(2, 0), spawn);
    RivalsFirst(g, spawn);
    RivalsSecond(s1.grid, if spawn(0) then P else S, spawn);
  }
}
