/** The herbivore pass of `Ocean::tick`: each herbivore of the pass's snapshot walks its shuffled
    directions and acts on the first in-bounds neighbour holding Algae, which becomes a Herbivore
    (coin true) or Sand (coin false). The herbivore's own cell is never written. */
module Grazing {
  import opened Kinds
  import opened Board

  /** A shuffled direction list: the four directions, each once. */
  type Shuffle = s: seq<Dir> | |s| == 4 && forall i, j :: 0 <= i < j < |s| ==> s[i] != s[j]
    witness [0, 1, 2, 3]

  /** The index in dirs, from i on, of the first direction whose neighbour of p holds Algae. */
  function FirstAlgae(g: Grid, w: nat, h: nat, p: Pos, dirs: Shuffle, i: nat): (r: Option<nat>)
    requires IsGrid(g, w, h) && i <= 4
    ensures r.Some? ==> i <= r.value < 4 && Holds(g, w, h, Neighbour(p, dirs[r.value]), Algae)
    ensures r.Some? ==> forall j :: i <= j < r.value ==> !Holds(g, w, h, Neighbour(p, dirs[j]), Algae)
    ensures r.None? <==> forall j :: i <= j < 4 ==> !Holds(g, w, h, Neighbour(p, dirs[j]), Algae)
    decreases 4 - i
  {
    if i == 4 then None
    else if Holds(g, w, h, Neighbour(p, dirs[i]), Algae) then Some(i)
    else FirstAlgae(g, w, h, p, dirs, i + 1)
  }

  /** One herbivore at p, with its shuffled directions; the coin is drawn only when a target is found. */
  function Graze(s: Progress, w: nat, h: nat, p: Pos, dirs: Shuffle, coin: nat -> bool): (r: Progress)
    requires IsGrid(s.grid, w, h)
    ensures IsGrid(r.grid, w, h)
  {
    match FirstAlgae(s.grid, w, h, p, dirs, 0)
    case None => s
    case Some(i) =>
      var born := if coin(s.draws) then Some(Herbivore) else Some(Sand);
      Progress(Update(s.grid, Neighbour(p, dirs[i]), born), s.draws + 1)
  }

  /** A herbivore changes at most one cell: the neighbour, in its shuffled order, that is the first
      one on the board to hold Algae. That cell becomes a Herbivore when the coin comes up true and
      Sand otherwise, and a coin is drawn exactly when such a cell exists. */
  lemma GrazeEffect(s: Progress, w: nat, h: nat, p: Pos, dirs: Shuffle, coin: nat -> bool)
    requires IsGrid(s.grid, w, h)
    ensures var r := Graze(s, w, h, p, dirs, coin);
      match FirstAlgae(s.grid, w, h, p, dirs, 0)
      case None => r == s
      case Some(i) =>
        var t := Neighbour(p, dirs[i]);
        Adjacent(p, t) && Holds(s.grid, w, h, t, Algae) &&
        r.draws == s.draws + 1 &&
        (Holds(r.grid, w, h, t, Herbivore) <==> coin(s.draws)) &&
        (Holds(r.grid, w, h, t, Sand) <==> !coin(s.draws)) &&
        forall c :: InBounds(c, w, h) && c != t ==> At(r.grid, c) == At(s.grid, c)
  {
    match FirstAlgae(s.grid, w, h, p, dirs, 0)
    case None =>
    case Some(i) =>
      NeighbourBack(p, dirs[i]);
  }

  /** The grid after the first j herbivores of the snapshot hs have acted; shuffle(j) is the
      permutation drawn for the j-th of them and coin(n) the n-th coin drawn in the pass. */
  function HerbivoreSteps(g: Grid, w: nat, h: nat, hs: seq<Pos>, shuffle: nat -> Shuffle,
                          coin: nat -> bool, j: nat): (r: Progress)
    requires IsGrid(g, w, h) && j <= |hs|
    ensures IsGrid(r.grid, w, h)
    ensures r.draws <= j
  {
    if j == 0 then Progress(g, 0)
    else Graze(HerbivoreSteps(g, w, h, hs, shuffle, coin, j - 1), w, h, hs[j - 1], shuffle(j - 1), coin)
  }

  /** The herbivore pass: snapshot the Herbivore cells row-major, then let each of them act. */
  function HerbivorePass(g: Grid, w: nat, h: nat, shuffle: nat -> Shuffle, coin: nat -> bool): (r: Progress)
    requires IsGrid(g, w, h)
    ensures IsGrid(r.grid, w, h)
  {
    var hs := Positions(g, w, h, Herbivore);
    HerbivoreSteps(g, w, h, hs, shuffle, coin, |hs|)
  }

  /** r differs from g only in cells that held Algae in g, each now a Herbivore or Sand. */
  ghost predicate OnlyAlgaeEaten(g: Grid, r: Grid, w: nat, h: nat)
    requires IsGrid(g, w, h) && IsGrid(r, w, h)
  {
    forall c :: InBounds(c, w, h) ==>
      At(r, c) == At(g, c) ||
      (At(g, c) == Some(Algae) && (At(r, c) == Some(Herbivore) || At(r, c) == Some(Sand)))
  }

  lemma GrazeEatsOnlyAlgae(s: Progress, w: nat, h: nat, p: Pos, dirs: Shuffle, coin: nat -> bool)
    requires IsGrid(s.grid, w, h)
    ensures OnlyAlgaeEaten(s.grid, Graze(s, w, h, p, dirs, coin).grid, w, h)
  {
    match FirstAlgae(s.grid, w, h, p, dirs, 0)
    case None =>
    case Some(i) =>
  }

  lemma EatOnlyAlgaeTransitive(g: Grid, m: Grid, r: Grid, w: nat, h: nat)
    requires IsGrid(g, w, h) && IsGrid(m, w, h) && IsGrid(r, w, h)
    requires OnlyAlgaeEaten(g, m, w, h) && OnlyAlgaeEaten(m, r, w, h)
    ensures OnlyAlgaeEaten(g, r, w, h)
  {
    forall c | InBounds(c, w, h)
      ensures At(r, c) == At(g, c) ||
        (At(g, c) == Some(Algae) && (At(r, c) == Some(Herbivore) || At(r, c) == Some(Sand)))
    {
    }
  }

  lemma {:induction false} HerbivoreStepsEatOnlyAlgae(g: Grid, w: nat, h: nat, hs: seq<Pos>,
                                                      shuffle: nat -> Shuffle, coin: nat -> bool, j: nat)
    requires IsGrid(g, w, h) && j <= |hs|
    ensures OnlyAlgaeEaten(g, HerbivoreSteps(g, w, h, hs, shuffle, coin, j).grid, w, h)
  {
    if j > 0 {
      var s := HerbivoreSteps(g, w, h, hs, shuffle, coin, j - 1);
      HerbivoreStepsEatOnlyAlgae(g, w, h, hs, shuffle, coin, j - 1);
      GrazeEatsOnlyAlgae(s, w, h, hs[j - 1], shuffle(j - 1), coin);
      EatOnlyAlgaeTransitive(g, s.grid, Graze(s, w, h, hs[j - 1], shuffle(j - 1), coin).grid, w, h);
    }
  }

  /** In the herbivore pass only cells that held Algae when the pass began change, each to a
      Herbivore or to Sand. Every other cell, in particular every herbivore's own cell, keeps its
      occupant, and the pass draws at most one coin per herbivore. */
  lemma HerbivorePassEatsOnlyAlgae(g: Grid, w: nat, h: nat, shuffle: nat -> Shuffle, coin: nat -> bool)
    requires IsGrid(g, w, h)
    ensures OnlyAlgaeEaten(g, HerbivorePass(g, w, h, shuffle, coin).grid, w, h)
    ensures forall c :: InBounds(c, w, h) && At(g, c) != Some(Algae) ==>
      At(HerbivorePass(g, w, h, shuffle, coin).grid, c) == At(g, c)
    ensures HerbivorePass(g, w, h, shuffle, coin).draws <= |Positions(g, w, h, Herbivore)|
  {
    var hs := Positions(g, w, h, Herbivore);
    HerbivoreStepsEatOnlyAlgae(g, w, h, hs, shuffle, coin, |hs|);
  }

  lemma {:induction false} NoAlgaeNoGrazingSteps(g: Grid, w: nat, h: nat, hs: seq<Pos>,
                                                 shuffle: nat -> Shuffle, coin: nat -> bool, j: nat)
    requires IsGrid(g, w, h) && j <= |hs|
    requires forall c :: InBounds(c, w, h) ==> At(g, c) != Some(Algae)
    ensures HerbivoreSteps(g, w, h, hs, shuffle, coin, j) == Progress(g, 0)
  {
    if j > 0 {
      NoAlgaeNoGrazingSteps(g, w, h, hs, shuffle, coin, j - 1);
      assert FirstAlgae(g, w, h, hs[j - 1], shuffle(j - 1), 0).None?;
    }
  }

  /** Without Algae on the board no herbivore acts and no coin is drawn. */
  lemma NoAlgaeNoGrazing(g: Grid, w: nat, h: nat, shuffle: nat -> Shuffle, coin: nat -> bool)
    requires IsGrid(g, w, h)
    requires forall c :: InBounds(c, w, h) ==> At(g, c) != Some(Algae)
    ensures HerbivorePass(g, w, h, shuffle, coin) == Progress(g, 0)
  {
    var hs := Positions(g, w, h, Herbivore);
    NoAlgaeNoGrazingSteps(g, w, h, hs, shuffle, coin, |hs|);
  }
}
