/** The algae pass of `Ocean::tick`: every Algae cell of the pass's snapshot turns its in-bounds
    Sand neighbours into Algae, trying east, west, south, north in turn. */
module Growth {
  import opened Kinds
  import opened Board

  /** The grid after source p has tried its first i directions. */
  function Spread(g: Grid, w: nat, h: nat, p: Pos, i: nat): (r: Grid)
    requires IsGrid(g, w, h) && i <= 4
    ensures IsGrid(r, w, h)
  {
    if i == 0 then g
    else
      var r := Spread(g, w, h, p, i - 1);
      var n := Neighbour(p, i - 1);
      if InBounds(n, w, h) && At(r, n) == Some(Sand) then Update(r, n, Some(Algae)) else r
  }

  /** c is one of the first i neighbours of p. */
  predicate Reaches(p: Pos, c: Pos, i: nat)
    requires i <= 4
  {
    i > 0 && (Reaches(p, c, i - 1) || Neighbour(p, i - 1) == c)
  }

  lemma {:induction false} NotReachedYet(p: Pos, d: Dir, i: nat)
    requires i <= d
    ensures !Reaches(p, Neighbour(p, d), i)
  {
    if i > 0 {
      NotReachedYet(p, d, i - 1);
      NeighboursDistinct(p, i - 1, d);
    }
  }

  lemma ReachesIffAdjacent(p: Pos, c: Pos)
    ensures Reaches(p, c, 4) <==> Adjacent(p, c)
  {
    assert Reaches(p, c, 1) <==> Neighbour(p, 0) == c;
    assert Reaches(p, c, 2) <==> Reaches(p, c, 1) || Neighbour(p, 1) == c;
    assert Reaches(p, c, 3) <==> Reaches(p, c, 2) || Neighbour(p, 2) == c;
    assert Reaches(p, c, 4) <==> Reaches(p, c, 3) || Neighbour(p, 3) == c;
    NeighbourIffAdjacent(p, c);
  }

  /** What one source does to a cell: a Sand cell among its first i neighbours becomes Algae;
      every other cell keeps its occupant. */
  lemma {:induction false} SpreadAt(g: Grid, w: nat, h: nat, p: Pos, i: nat, c: Pos)
    requires IsGrid(g, w, h) && i <= 4 && InBounds(c, w, h)
    ensures At(Spread(g, w, h, p, i), c) ==
      if At(g, c) == Some(Sand) && Reaches(p, c, i) then Some(Algae) else At(g, c)
  {
    if i > 0 {
      var n := Neighbour(p, i - 1);
      SpreadAt(g, w, h, p, i - 1, c);
      if c == n {
        NotReachedYet(p, i - 1, i - 1);
      }
    }
  }

  /** The grid after the first j entries of the snapshot ps have spread. */
  function AlgaeSteps(g: Grid, w: nat, h: nat, ps: seq<Pos>, j: nat): (r: Grid)
    requires IsGrid(g, w, h) && j <= |ps|
    ensures IsGrid(r, w, h)
  {
    if j == 0 then g else Spread(AlgaeSteps(g, w, h, ps, j - 1), w, h, ps[j - 1], 4)
  }

  /** c is adjacent to one of the first j entries of ps. */
  predicate Fed(ps: seq<Pos>, c: Pos, j: nat)
    requires j <= |ps|
  {
    j > 0 && (Fed(ps, c, j - 1) || Adjacent(ps[j - 1], c))
  }

  lemma {:induction false} FedIff(ps: seq<Pos>, c: Pos, j: nat)
    requires j <= |ps|
    ensures Fed(ps, c, j) <==> exists k :: 0 <= k < j && Adjacent(ps[k], c)
  {
    if j > 0 {
      FedIff(ps, c, j - 1);
    }
  }

  /** The sources read the live grid, yet the result depends only on the grid before the pass:
      a Sand cell next to any processed source becomes Algae, nothing else changes. */
  lemma {:induction false} AlgaeStepsAt(g: Grid, w: nat, h: nat, ps: seq<Pos>, j: nat, c: Pos)
    requires IsGrid(g, w, h) && j <= |ps| && InBounds(c, w, h)
    ensures At(AlgaeSteps(g, w, h, ps, j), c) ==
      if At(g, c) == Some(Sand) && Fed(ps, c, j) then Some(Algae) else At(g, c)
  {
    if j > 0 {
      AlgaeStepsAt(g, w, h, ps, j - 1, c);
      SpreadAt(AlgaeSteps(g, w, h, ps, j - 1), w, h, ps[j - 1], 4, c);
      ReachesIffAdjacent(ps[j - 1], c);
    }
  }

  /** The algae pass: snapshot the Algae cells row-major, then let each of them spread. */
  function AlgaePass(g: Grid, w: nat, h: nat): (r: Grid)
    requires IsGrid(g, w, h)
    ensures IsGrid(r, w, h)
  {
    var ps := Positions(g, w, h, Algae);
    AlgaeSteps(g, w, h, ps, |ps|)
  }

  /** Some orthogonal neighbour of c (east, west, south or north) holds Algae. */
  predicate NextToAlgae(g: Grid, w: nat, h: nat, c: Pos)
    requires IsGrid(g, w, h)
  {
    Holds(g, w, h, Neighbour(c, 0), Algae) || Holds(g, w, h, Neighbour(c, 1), Algae) ||
    Holds(g, w, h, Neighbour(c, 2), Algae) || Holds(g, w, h, Neighbour(c, 3), Algae)
  }

  /** The effect of the algae pass, cell by cell, in terms of the grid before the pass: a Sand cell
      becomes Algae exactly when an orthogonal neighbour held Algae before the pass; every other cell
      is unchanged. Growth therefore never cascades: a cell that turns to Algae in this pass does not
      spread until the next tick. */
  lemma AlgaePassAt(g: Grid, w: nat, h: nat, c: Pos)
    requires IsGrid(g, w, h) && InBounds(c, w, h)
    ensures At(AlgaePass(g, w, h), c) ==
      if At(g, c) == Some(Sand) && NextToAlgae(g, w, h, c) then Some(Algae) else At(g, c)
  {
    var ps := Positions(g, w, h, Algae);
    AlgaeStepsAt(g, w, h, ps, |ps|, c);
    FedIff(ps, c, |ps|);
    if Fed(ps, c, |ps|) {
      FedSourceIsNeighbour(g, w, h, c);
    }
    if NextToAlgae(g, w, h, c) {
      NeighbourIsFedSource(g, w, h, c);
    }
  }

  lemma FedSourceIsNeighbour(g: Grid, w: nat, h: nat, c: Pos)
    requires IsGrid(g, w, h)
    requires exists k :: 0 <= k < |Positions(g, w, h, Algae)| && Adjacent(Positions(g, w, h, Algae)[k], c)
    ensures NextToAlgae(g, w, h, c)
  {
    var ps := Positions(g, w, h, Algae);
    var k :| 0 <= k < |ps| && Adjacent(ps[k], c);
    assert ps[k] in ps;
    NeighbourIffAdjacent(c, ps[k]);
  }

  lemma NeighbourIsFedSource(g: Grid, w: nat, h: nat, c: Pos)
    requires IsGrid(g, w, h) && NextToAlgae(g, w, h, c)
    ensures exists k :: 0 <= k < |Positions(g, w, h, Algae)| && Adjacent(Positions(g, w, h, Algae)[k], c)
  {
    var ps := Positions(g, w, h, Algae);
    var d: Dir :=
      if Holds(g, w, h, Neighbour(c, 0), Algae) then 0
      else if Holds(g, w, h, Neighbour(c, 1), Algae) then 1
      else if Holds(g, w, h, Neighbour(c, 2), Algae) then 2
      else 3;
    var n := Neighbour(c, d);
    assert n in ps;
    var k :| 0 <= k < |ps| && ps[k] == n;
    NeighbourBack(c, d);
  }

  /** After the pass the Algae cells are exactly the Algae cells before it plus every Sand cell next
      to one of them, and Algae never disappears. */
  lemma AlgaeCellsAfterGrowth(g: Grid, w: nat, h: nat, c: Pos)
    requires IsGrid(g, w, h) && InBounds(c, w, h)
    ensures At(AlgaePass(g, w, h), c) == Some(Algae) <==>
      At(g, c) == Some(Algae) || (At(g, c) == Some(Sand) && NextToAlgae(g, w, h, c))
    ensures At(g, c) != Some(Sand) ==> At(AlgaePass(g, w, h), c) == At(g, c)
  {
    AlgaePassAt(g, w, h, c);
  }
}
