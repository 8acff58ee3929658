/** The `Ocean` object: a grid it owns and updates in place, and the operations that change it.
    Each pass of `tick` is written as the loops the source runs and proved to leave the grid its
    specification function describes. */
module Simulation {
  import opened Kinds
  import opened Board
  import opened Growth
  import opened Grazing
  import opened Hunting
  import Engine

  /** What `setEntity` reports: the cell was written, or the coordinates were rejected with
      `std::out_of_range` and nothing changed. */
  datatype Outcome = Placed | OutOfRange

  /** The board `init` produces: Sand everywhere. */
  function SandGrid(w: nat, h: nat): (g: Grid)
    ensures IsGrid(g, w, h)
    ensures forall c :: InBounds(c, w, h) ==> At(g, c) == Some(Sand)
  {
    seq(h, _ => seq(w, _ => Some(Sand)))
  }

  /** The index of the food a predator at p targets: the loop of the source with `bestDist`
      starting at "no candidate yet", taking a food only when it is strictly closer. */
  method ChooseTarget(foods: seq<Pos>, p: Pos) returns (i: nat)
    requires |foods| > 0
    ensures i == Nearest(foods, p, |foods|)
    ensures i < |foods| && forall j :: 0 <= j < |foods| ==> Distance(foods[i], p) <= Distance(foods[j], p)
    ensures forall j :: 0 <= j < i ==> Distance(foods[i], p) < Distance(foods[j], p)
  {
    var best: Option<nat> := None;
    i := 0;
    var k := 0;
    while k < |foods|
      invariant k <= |foods|
      invariant best.None? <==> k == 0
      invariant k > 0 ==> i == Nearest(foods, p, k) && best == Some(Distance(foods[i], p))
    {
      var d := Distance(foods[k], p);
      if best.None? || d < best.value {
        best := Some(d);
        i := k;
      }
      k := k + 1;
    }
  }

  class Ocean {
    const width: nat
    const height: nat
    var grid: Grid

    ghost predicate Valid()
      reads this
    {
      IsGrid(grid, width, height)
    }

    /** `height` rows of `width` cells, none of them holding an entity yet. */
    constructor (w: nat, h: nat)
      ensures width == w && height == h && Valid()
      ensures forall c :: InBounds(c, w, h) ==> At(grid, c) == None
    {
      width, height := w, h;
      var rows: Grid := [];
      var y := 0;
      while y < h
        invariant y <= h
        invariant |rows| == y
        invariant forall r :: 0 <= r < y ==> rows[r] == seq(w, _ => None)
      {
        rows := rows + [seq(w, _ => None)];
        y := y + 1;
      }
      grid := rows;
    }

    /** `init`: every cell, row by row, receives a fresh Sand. */
    method Init()
      requires Valid()
      modifies this
      ensures Valid()
      ensures grid == SandGrid(width, height)
    {
      var y := 0;
      while y < height
        invariant y <= height && IsGrid(grid, width, height)
        invariant forall c :: InBounds(c, width, height) ==>
          At(grid, c) == if c.y < y then Some(Sand) else At(old(grid), c)
      {
        var x := 0;
        while x < width
          invariant x <= width && IsGrid(grid, width, height)
          invariant forall c :: InBounds(c, width, height) ==>
            At(grid, c) == if c.y < y || (c.y == y && c.x < x) then Some(Sand) else At(old(grid), c)
        {
          grid := Update(grid, Pos(x, y), Some(Sand));
          x := x + 1;
        }
        y := y + 1;
      }
      GridExt(grid, SandGrid(width, height), width, height);
    }

    /** `setEntity`: out-of-range coordinates are rejected and leave the grid alone; otherwise the
        one cell is overwritten, with an entity or with nothing. */
    method SetEntity(x: nat, y: nat, e: Cell) returns (r: Outcome)
      requires Valid()
      modifies this
      ensures Valid()
      ensures r == OutOfRange <==> x >= width || y >= height
      ensures r == OutOfRange ==> grid == old(grid)
      ensures r == Placed ==> grid == Update(old(grid), Pos(x, y), e)
    {
      if x >= width || y >= height {
        return OutOfRange;
      }
      grid := Update(grid, Pos(x, y), e);
      return Placed;
    }

    /** The snapshot loop each pass of `tick` starts with: the positions of kind k, row by row and
        left to right. */
    method Snapshot(k: Kind) returns (ps: seq<Pos>)
      requires Valid()
      ensures ps == Positions(grid, width, height, k)
      ensures forall c :: c in ps <==> InBounds(c, width, height) && At(grid, c) == Some(k)
      ensures RowMajor(ps)
    {
      ps := [];
      var y := 0;
      while y < height
        invariant y <= height
        invariant ps == Rows(grid, width, height, k, y)
      {
        var row := ScanRow(k, y);
        ps := ps + row;
        y := y + 1;
      }
    }

    /** The inner loop of a snapshot: the positions of kind k in row y, left to right. */
    method ScanRow(k: Kind, y: nat) returns (row: seq<Pos>)
      requires Valid() && y < height
      ensures row == RowScan(grid, width, height, k, y, width)
      ensures forall c :: c in row <==> c.y == y && 0 <= c.x < width && At(grid, c) == Some(k)
    {
      row := [];
      var x := 0;
      while x < width
        invariant x <= width
        invariant row == RowScan(grid, width, height, k, y, x)
      {
        if grid[y][x] == Some(k) {
          row := row + [Pos(x, y)];
        }
        x := x + 1;
      }
    }

    /** The algae pass: each Algae of the snapshot turns its in-bounds Sand neighbours, east, west,
        south, north, into Algae. */
    method GrowAlgae()
      requires Valid()
      modifies this
      ensures Valid()
      ensures grid == AlgaePass(old(grid), width, height)
    {
      var algae := Snapshot(Algae);
      ghost var g0 := grid;
      var j := 0;
      while j < |algae|
        invariant j <= |algae|
        invariant grid == AlgaeSteps(g0, width, height, algae, j)
      {
        var p := algae[j];
        ghost var before := grid;
        var i := 0;
        while i < 4
          invariant i <= 4
          invariant grid == Spread(before, width, height, p, i)
        {
          var n := Neighbour(p, i);
          if InBounds(n, width, height) && At(grid, n) == Some(Sand) {
            grid := Update(grid, n, Some(Algae));
          }
          i := i + 1;
        }
        j := j + 1;
      }
    }

    /** The herbivore pass: each Herbivore of the snapshot tries its shuffled directions and acts on
        the first neighbour holding Algae, which becomes a Herbivore or Sand as the coin falls.
        Returns the snapshot, which the predator pass hunts. */
    method MoveHerbivores(shuffle: nat -> Shuffle, coin: nat -> bool) returns (herbi: seq<Pos>)
      requires Valid()
      modifies this
      ensures Valid()
      ensures herbi == Positions(old(grid), width, height, Herbivore)
      ensures grid == HerbivorePass(old(grid), width, height, shuffle, coin).grid
    {
      herbi := Snapshot(Herbivore);
      ghost var g0 := grid;
      var draws := 0;
      var j := 0;
      while j < |herbi|
        invariant j <= |herbi| && Valid()
        invariant Progress(grid, draws) == HerbivoreSteps(g0, width, height, herbi, shuffle, coin, j)
      {
        draws := HerbivoreActs(herbi[j], shuffle(j), coin, draws);
        j := j + 1;
      }
    }

    /** One herbivore at p with its shuffled directions dirs, `draws` coins having been drawn so
        far in the pass; returns the new count. */
    method HerbivoreActs(p: Pos, dirs: Shuffle, coin: nat -> bool, draws: nat) returns (used: nat)
      requires Valid()
      modifies this
      ensures Valid()
      ensures Progress(grid, used) == Graze(Progress(old(grid), draws), width, height, p, dirs, coin)
    {
      used := draws;
      var i := 0;
      while i < 4
        invariant i <= 4 && grid == old(grid)
        invariant FirstAlgae(grid, width, height, p, dirs, 0) == FirstAlgae(grid, width, height, p, dirs, i)
      {
        var n := Neighbour(p, dirs[i]);
        if InBounds(n, width, height) && At(grid, n) == Some(Algae) {
          grid := Update(grid, n, if coin(draws) then Some(Herbivore) else Some(Sand));
          used := draws + 1;
          return;
        }
        i := i + 1;
      }
    }

    /** The predator pass over the food list `foods`: each Predator of the snapshot acts in turn;
        an empty food list ends the pass. */
    method MovePredators(foods: seq<Pos>, spawn: nat -> bool)
      requires Valid()
      modifies this
      ensures Valid()
      ensures grid == PredatorPass(old(grid), width, height, foods, spawn).grid
    {
      var preds := Snapshot(Predator);
      ghost var g0 := grid;
      var draws := 0;
      var j := 0;
      while j < |preds|
        invariant j <= |preds| && Valid()
        invariant forall q :: q in preds ==> InBounds(q, width, height)
        invariant Progress(grid, draws) == HuntSteps(g0, width, height, foods, preds, spawn, j)
      {
        if |foods| == 0 {
          NoFoodNoHuntSteps(g0, width, height, preds, spawn, j);
          NoFoodNoHuntSteps(g0, width, height, preds, spawn, |preds|);
          break;
        }
        assert preds[j] in preds && InBounds(preds[j], width, height);
        draws := PredatorActs(foods, preds[j], spawn, draws);
        j := j + 1;
      }
    }

    /** One predator at p: one greedy step towards its nearest food, x first; a step off the board
        is skipped; the destination receives the predator and the source becomes a new Predator
        when it ate and the spawn draw succeeds, Sand otherwise. `draws` spawn draws have been
        made so far in the pass; returns the new count. */
    method PredatorActs(foods: seq<Pos>, p: Pos, spawn: nat -> bool, draws: nat) returns (used: nat)
      requires Valid() && InBounds(p, width, height) && |foods| > 0
      modifies this
      ensures Valid()
      ensures Progress(grid, used) == Hunt(Progress(old(grid), draws), width, height, foods, p, spawn)
    {
      used := draws;
      var target := ChooseTarget(foods, p);
      var t := foods[target];
      var dx, dy := 0, 0;
      if t.x != p.x {
        dx := if t.x > p.x then 1 else -1;
      } else if t.y != p.y {
        dy := if t.y > p.y then 1 else -1;
      }
      var n := Pos(p.x + dx, p.y + dy);
      assert n == StepToward(p, t);
      if !InBounds(n, width, height) {
        return;
      }
      var ate := At(grid, n) == Some(Herbivore);
      grid := Update(grid, n, At(grid, p));
      if ate && spawn(draws) {
        grid := Update(grid, p, Some(Predator));
      } else {
        grid := Update(grid, p, Some(Sand));
      }
      if ate {
        used := draws + 1;
      }
    }

    /** `tick`: the algae pass, then the herbivore pass, then the predator pass hunting the
        herbivore snapshot. */
    method Tick(shuffle: nat -> Shuffle, coin: nat -> bool, spawn: nat -> bool)
      requires Valid()
      modifies this
      ensures Valid()
      ensures grid == Engine.Tick(old(grid), width, height, shuffle, coin, spawn)
    {
      GrowAlgae();
      var herbi := MoveHerbivores(shuffle, coin);
      MovePredators(herbi, spawn);
    }
  }
}
