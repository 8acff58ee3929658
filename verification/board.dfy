/** Positions, the grid of cells, and the row-major snapshot of the cells holding one kind. */
module Board {
  import opened Kinds

  /** A coordinate pair. The source uses unsigned coordinates, where `x + (-1)` at 0 wraps to a huge
      value that the `< width` test then rejects; here coordinates are integers and the bounds
      test checks `0 <=` explicitly. */
  datatype Pos = Pos(x: int, y: int)

  /** `grid_[y][x]`: a sequence of rows, each a sequence of cells. */
  type Grid = seq<seq<Cell>>

  /** The grid has `h` rows of `w` cells each. */
  predicate IsGrid(g: Grid, w: nat, h: nat)
  {
    |g| == h && forall y :: 0 <= y < h ==> |g[y]| == w
  }

  predicate InBounds(c: Pos, w: nat, h: nat)
  {
    0 <= c.x < w && 0 <= c.y < h
  }

  function At(g: Grid, c: Pos): Cell
    requires 0 <= c.y < |g| && 0 <= c.x < |g[c.y]|
  {
    g[c.y][c.x]
  }

  /** c is on the board and holds an entity of kind k. */
  predicate Holds(g: Grid, w: nat, h: nat, c: Pos, k: Kind)
    requires IsGrid(g, w, h)
  {
    InBounds(c, w, h) && At(g, c) == Some(k)
  }

  /** Overwrite one cell. */
  function Update(g: Grid, c: Pos, v: Cell): (r: Grid)
    requires 0 <= c.y < |g| && 0 <= c.x < |g[c.y]|
    ensures |r| == |g| && forall y :: 0 <= y < |g| ==> |r[y]| == |g[y]|
    ensures At(r, c) == v
    ensures forall d: Pos :: 0 <= d.y < |g| && 0 <= d.x < |g[d.y]| && d != c ==> At(r, d) == At(g, d)
  {
    g[c.y := g[c.y][c.x := v]]
  }

  /** Two grids of the same size are equal when they agree on every cell. */
  lemma GridExt(g1: Grid, g2: Grid, w: nat, h: nat)
    requires IsGrid(g1, w, h) && IsGrid(g2, w, h)
    requires forall c :: InBounds(c, w, h) ==> At(g1, c) == At(g2, c)
    ensures g1 == g2
  {
    forall y | 0 <= y < h
      ensures g1[y] == g2[y]
    {
      forall x | 0 <= x < w
        ensures g1[y][x] == g2[y][x]
      {
        assert At(g1, Pos(x, y)) == At(g2, Pos(x, y));
      }
    }
  }

  /** The oracle index of one of the four directions. */
  type Dir = d: int | 0 <= d < 4

  /** Direction offsets in the source's fixed order: east, west, south, north. */
  const DX: seq<int> := [1, -1, 0, 0]
  const DY: seq<int> := [0, 0, 1, -1]

  function Neighbour(c: Pos, d: Dir): Pos
  {
    Pos(c.x + DX[d], c.y + DY[d])
  }

  function Abs(n: int): nat
  {
    if n < 0 then -n else n
  }

  /** Manhattan distance. */
  function Distance(a: Pos, b: Pos): nat
  {
    Abs(a.x - b.x) + Abs(a.y - b.y)
  }

  predicate Adjacent(a: Pos, b: Pos)
  {
    Distance(a, b) == 1
  }

  /** The four neighbours of a cell are exactly the cells adjacent to it, and they are distinct. */
  lemma NeighbourIffAdjacent(a: Pos, b: Pos)
    ensures Adjacent(a, b) <==>
      b == Neighbour(a, 0) || b == Neighbour(a, 1) || b == Neighbour(a, 2) || b == Neighbour(a, 3)
  {
  }

  lemma NeighboursDistinct(c: Pos, d: Dir, e: Dir)
    requires d != e
    ensures Neighbour(c, d) != Neighbour(c, e)
  {
  }

  /** Adjacency is symmetric in direction terms: if b is a's neighbour then a is b's. */
  lemma NeighbourBack(c: Pos, d: Dir)
    ensures Adjacent(c, Neighbour(c, d)) && Adjacent(Neighbour(c, d), c)
  {
  }

  /** Row-major order: the order of the source's nested `for y … for x …` scans. */
  predicate Before(a: Pos, b: Pos)
  {
    a.y < b.y || (a.y == b.y && a.x < b.x)
  }

  predicate RowMajor(ps: seq<Pos>)
  {
    forall i, j :: 0 <= i < j < |ps| ==> Before(ps[i], ps[j])
  }

  lemma ConcatRowMajor(a: seq<Pos>, b: seq<Pos>)
    requires RowMajor(a) && RowMajor(b)
    requires forall u, v :: u in a && v in b ==> Before(u, v)
    ensures RowMajor(a + b)
  {
    forall i, j | 0 <= i < j < |a + b|
      ensures Before((a + b)[i], (a + b)[j])
    {
      if j < |a| {
      } else if i >= |a| {
        assert (a + b)[i] == b[i - |a|] && (a + b)[j] == b[j - |a|];
      } else {
        assert a[i] in a && b[j - |a|] in b;
      }
    }
  }

  /** The cells of kind k in row y, columns [0, x), left to right. */
  function RowScan(g: Grid, w: nat, h: nat, k: Kind, y: nat, x: nat): (ps: seq<Pos>)
    requires IsGrid(g, w, h) && y < h && x <= w
    ensures forall c: Pos :: c in ps <==> c.y == y && 0 <= c.x < x && At(g, c) == Some(k)
    ensures RowMajor(ps)
  {
    if x == 0 then []
    else
      var prefix := RowScan(g, w, h, k, y, x - 1);
      if At(g, Pos(x - 1, y)) == Some(k) then
        ConcatRowMajor(prefix, [Pos(x - 1, y)]);
        prefix + [Pos(x - 1, y)]
      else prefix
  }

  /** The cells of kind k in rows [0, y), row-major. */
  function Rows(g: Grid, w: nat, h: nat, k: Kind, y: nat): (ps: seq<Pos>)
    requires IsGrid(g, w, h) && y <= h
    ensures forall c: Pos :: c in ps <==> InBounds(c, w, y) && At(g, c) == Some(k)
    ensures RowMajor(ps)
  {
    if y == 0 then []
    else
      var prefix := Rows(g, w, h, k, y - 1);
      var row := RowScan(g, w, h, k, y - 1, w);
      ConcatRowMajor(prefix, row);
      prefix + row
  }

  /** The snapshot a pass takes before it changes anything: every position holding kind k,
      in row-major order, each once. */
  function Positions(g: Grid, w: nat, h: nat, k: Kind): (ps: seq<Pos>)
    requires IsGrid(g, w, h)
    ensures forall c: Pos :: c in ps <==> InBounds(c, w, h) && At(g, c) == Some(k)
    ensures RowMajor(ps)
  {
    Rows(g, w, h, k, h)
  }

  /** A row-major list holding exactly one position is that position alone. */
  lemma {:induction false} SingletonScan(ps: seq<Pos>, q: Pos)
    requires RowMajor(ps)
    requires forall c: Pos :: c in ps <==> c == q
    ensures ps == [q]
  {
    assert q in ps;
    forall i | 0 <= i < |ps|
      ensures ps[i] == q
    {
      assert ps[i] in ps;
    }
    assert |ps| >= 2 ==> Before(ps[0], ps[1]);
  }

  /** A row-major list holding exactly two positions lists them in row-major order. */
  lemma {:induction false} PairScan(ps: seq<Pos>, a: Pos, b: Pos)
    requires RowMajor(ps) && Before(a, b)
    requires forall c: Pos :: c in ps <==> c == a || c == b
    ensures ps == [a, b]
  {
    assert a in ps && b in ps;
    var i :| 0 <= i < |ps| && ps[i] == a;
    var j :| 0 <= j < |ps| && ps[j] == b;
    assert i < j;
    assert ps[0] in ps && ps[1] in ps && ps[|ps| - 1] in ps;
  }

  /** The snapshot of kind k is empty exactly when no cell on the board holds k. */
  lemma EmptyScan(g: Grid, w: nat, h: nat, k: Kind)
    requires IsGrid(g, w, h)
    ensures Positions(g, w, h, k) == [] <==> forall c :: InBounds(c, w, h) ==> At(g, c) != Some(k)
  {
    var ps := Positions(g, w, h, k);
    if ps != [] {
      assert ps[0] in ps;
    }
  }

  /** The state a pass threads through its snapshot: the grid so far, and how many random draws
      of the pass's own kind it has consumed. */
  datatype Progress = Progress(grid: Grid, draws: nat)
}
