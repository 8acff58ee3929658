/** The predator pass of `Ocean::tick`: each predator of the pass's snapshot picks the food position
    nearest to it, takes one step towards it, and leaves behind Sand, or a new Predator when it ate
    and the spawn draw succeeds. The food list is fixed for the whole pass. */
module Hunting {
  import opened Kinds
  import opened Board

  /** The index of the food nearest to p among foods[..n]. The source keeps the best so far and
      replaces it only on a strictly smaller distance, so the earliest of several nearest wins. */
  function Nearest(foods: seq<Pos>, p: Pos, n: nat): (i: nat)
    requires 0 < n <= |foods|
    ensures i < n
    ensures forall j :: 0 <= j < n ==> Distance(foods[i], p) <= Distance(foods[j], p)
    ensures forall j :: 0 <= j < i ==> Distance(foods[i], p) < Distance(foods[j], p)
  {
    if n == 1 then 0
    else
      var i := Nearest(foods, p, n - 1);
      if Distance(foods[n - 1], p) < Distance(foods[i], p) then n - 1 else i
  }

  /** One greedy step from p towards t: along x while the x-coordinates differ, otherwise along y. */
  function StepToward(p: Pos, t: Pos): (n: Pos)
    ensures p != t ==> Adjacent(p, n) && Distance(n, t) + 1 == Distance(p, t)
    ensures p == t ==> n == p
    ensures p.x != t.x ==> n.y == p.y
    ensures (p.x <= n.x <= t.x || t.x <= n.x <= p.x) && (p.y <= n.y <= t.y || t.y <= n.y <= p.y)
  {
    var dx := if t.x != p.x then (if t.x > p.x then 1 else -1) else 0;
    var dy := if t.x != p.x then 0 else if t.y != p.y then (if t.y > p.y then 1 else -1) else 0;
    Pos(p.x + dx, p.y + dy)
  }

  /** A step from a cell on the board towards a food on the board stays on the board. */
  lemma StepStaysOnBoard(p: Pos, t: Pos, w: nat, h: nat)
    requires InBounds(p, w, h) && InBounds(t, w, h)
    ensures InBounds(StepToward(p, t), w, h)
  {
  }

  /** The predator entry at p acts. With no food at all it does nothing (the source's `break`);
      an off-board destination skips it (the source's `continue`). Otherwise the destination
      receives whatever now occupies p, and p receives a new Predator when the destination held a
      Herbivore and the spawn draw succeeds, Sand otherwise; the draw is made only when it ate. */
  function Hunt(s: Progress, w: nat, h: nat, foods: seq<Pos>, p: Pos, spawn: nat -> bool): (r: Progress)
    requires IsGrid(s.grid, w, h) && InBounds(p, w, h)
    ensures IsGrid(r.grid, w, h)
  {
    if |foods| == 0 then s
    else
      var n := StepToward(p, foods[Nearest(foods, p, |foods|)]);
      if !InBounds(n, w, h) then s
      else
        var ate := At(s.grid, n) == Some(Herbivore);
        var moved := Update(s.grid, n, At(s.grid, p));
        var left := if ate && spawn(s.draws) then Some(Predator) else Some(Sand);
        Progress(Update(moved, p, left), if ate then s.draws + 1 else s.draws)
  }

  /** What one predator does, for a predator that does not itself stand on a food position (as in
      every tick): it moves one cell towards its target, the destination receives the occupant of
      its source, the source becomes a Predator exactly when the destination held a Herbivore and the
      spawn draw succeeded and Sand otherwise, a spawn draw is consumed exactly when it ate, and no
      other cell changes. */
  lemma HuntEffect(s: Progress, w: nat, h: nat, foods: seq<Pos>, p: Pos, spawn: nat -> bool)
    requires IsGrid(s.grid, w, h) && InBounds(p, w, h)
    requires |foods| > 0 && p !in foods
    ensures var n := StepToward(p, foods[Nearest(foods, p, |foods|)]);
      var r := Hunt(s, w, h, foods, p, spawn);
      Adjacent(p, n) &&
      (!InBounds(n, w, h) ==> r == s) &&
      (InBounds(n, w, h) ==>
        var ate := At(s.grid, n) == Some(Herbivore);
        At(r.grid, n) == At(s.grid, p) &&
        (At(r.grid, p) == Some(Predator) <==> ate && spawn(s.draws)) &&
        (At(r.grid, p) == Some(Sand) <==> !(ate && spawn(s.draws))) &&
        r.draws == (if ate then s.draws + 1 else s.draws) &&
        forall c :: InBounds(c, w, h) && c != p && c != n ==> At(r.grid, c) == At(s.grid, c))
  {
    var i := Nearest(foods, p, |foods|);
    assert foods[i] in foods;
    assert foods[i] != p;
  }

  /** The grid after the first j predators of the snapshot preds have acted; spawn(n) is the n-th
      spawn draw of the pass. */
  function HuntSteps(g: Grid, w: nat, h: nat, foods: seq<Pos>, preds: seq<Pos>, spawn: nat -> bool,
                     j: nat): (r: Progress)
    requires IsGrid(g, w, h) && j <= |preds|
    requires forall q :: q in preds ==> InBounds(q, w, h)
    ensures IsGrid(r.grid, w, h)
    ensures r.draws <= j
  {
    if j == 0 then Progress(g, 0)
    else
      assert preds[j - 1] in preds;
      Hunt(HuntSteps(g, w, h, foods, preds, spawn, j - 1), w, h, foods, preds[j - 1], spawn)
  }

  /** The predator pass: snapshot the Predator cells row-major, then let each of them act, with the
      food list given by the caller. */
  function PredatorPass(g: Grid, w: nat, h: nat, foods: seq<Pos>, spawn: nat -> bool): (r: Progress)
    requires IsGrid(g, w, h)
    ensures IsGrid(r.grid, w, h)
  {
    var preds := Positions(g, w, h, Predator);
    HuntSteps(g, w, h, foods, preds, spawn, |preds|)
  }

  lemma {:induction false} NoFoodNoHuntSteps(g: Grid, w: nat, h: nat, preds: seq<Pos>, spawn: nat -> bool, j: nat)
    requires IsGrid(g, w, h) && j <= |preds|
    requires forall q :: q in preds ==> InBounds(q, w, h)
    ensures HuntSteps(g, w, h, [], preds, spawn, j) == Progress(g, 0)
  {
    if j > 0 {
      NoFoodNoHuntSteps(g, w, h, preds, spawn, j - 1);
    }
  }

  /** With an empty food list no predator acts and no spawn draw is made. */
  lemma NoFoodNoHunt(g: Grid, w: nat, h: nat, spawn: nat -> bool)
    requires IsGrid(g, w, h)
    ensures PredatorPass(g, w, h, [], spawn) == Progress(g, 0)
  {
    var preds := Positions(g, w, h, Predator);
    NoFoodNoHuntSteps(g, w, h, preds, spawn, |preds|);
  }

  /** No cell that held an entity before the pass is empty after it. */
  ghost predicate KeepsOccupied(g: Grid, r: Grid, w: nat, h: nat)
    requires IsGrid(g, w, h) && IsGrid(r, w, h)
  {
    forall c :: InBounds(c, w, h) && At(g, c).Some? ==> At(r, c).Some?
  }

  lemma {:induction false} HuntStepsKeepOccupied(g: Grid, w: nat, h: nat, foods: seq<Pos>, preds: seq<Pos>,
                                                 spawn: nat -> bool, j: nat)
    requires IsGrid(g, w, h) && j <= |preds|
    requires forall q :: q in preds ==> InBounds(q, w, h) && At(g, q).Some?
    ensures KeepsOccupied(g, HuntSteps(g, w, h, foods, preds, spawn, j).grid, w, h)
  {
    if j > 0 {
      HuntStepsKeepOccupied(g, w, h, foods, preds, spawn, j - 1);
      assert preds[j - 1] in preds;
    }
  }

  /** The predator pass moves occupants and writes fresh ones but never leaves a cell empty that
      held an entity: every predator's source cell still holds something when it moves. */
  lemma PredatorPassKeepsOccupied(g: Grid, w: nat, h: nat, foods: seq<Pos>, spawn: nat -> bool)
    requires IsGrid(g, w, h)
    ensures KeepsOccupied(g, PredatorPass(g, w, h, foods, spawn).grid, w, h)
    ensures PredatorPass(g, w, h, foods, spawn).draws <= |Positions(g, w, h, Predator)|
  {
    var preds := Positions(g, w, h, Predator);
    HuntStepsKeepOccupied(g, w, h, foods, preds, spawn, |preds|);
  }
}
