/** `Ocean::tick` as a function of the grid: the algae pass, then the herbivore pass, then the
    predator pass, each over a snapshot it takes when it starts. The food list of the predator pass
    is the herbivore snapshot of the herbivore pass, taken before any herbivore acted. */
module Engine {
  import opened Kinds
  import opened Board
  import opened Growth
  import opened Grazing
  import opened Hunting

  /** One tick. shuffle(j) is the direction permutation drawn for the j-th herbivore of the snapshot,
      coin(n) the n-th coin and spawn(n) the n-th spawn draw of this tick. */
  function Tick(g: Grid, w: nat, h: nat, shuffle: nat -> Shuffle, coin: nat -> bool,
                spawn: nat -> bool): (r: Grid)
    requires IsGrid(g, w, h)
    ensures IsGrid(r, w, h)
  {
    var grown := AlgaePass(g, w, h);
    var herbi := Positions(grown, w, h, Herbivore);
    var grazed := HerbivorePass(grown, w, h, shuffle, coin);
    PredatorPass(grazed.grid, w, h, herbi, spawn).grid
  }

  /** Every cell of the board holds an entity: the state `init` establishes. */
  ghost predicate Full(g: Grid, w: nat, h: nat)
    requires IsGrid(g, w, h)
  {
    forall c :: InBounds(c, w, h) ==> At(g, c).Some?
  }

  lemma AlgaePassKeepsOccupied(g: Grid, w: nat, h: nat)
    requires IsGrid(g, w, h)
    ensures KeepsOccupied(g, AlgaePass(g, w, h), w, h)
  {
    forall c | InBounds(c, w, h) && At(g, c).Some?
      ensures At(AlgaePass(g, w, h), c).Some?
    {
      AlgaePassAt(g, w, h, c);
    }
  }

  lemma HerbivorePassKeepsOccupied(g: Grid, w: nat, h: nat, shuffle: nat -> Shuffle, coin: nat -> bool)
    requires IsGrid(g, w, h)
    ensures KeepsOccupied(g, HerbivorePass(g, w, h, shuffle, coin).grid, w, h)
  {
    HerbivorePassEatsOnlyAlgae(g, w, h, shuffle, coin);
  }

  /** A tick keeps the board's dimensions and never empties a cell: every write installs a fresh
      entity or one moved from an occupied cell. So a full board stays full. */
  lemma TickKeepsOccupied(g: Grid, w: nat, h: nat, shuffle: nat -> Shuffle, coin: nat -> bool,
                          spawn: nat -> bool)
    requires IsGrid(g, w, h)
    ensures KeepsOccupied(g, Tick(g, w, h, shuffle, coin, spawn), w, h)
    ensures Full(g, w, h) ==> Full(Tick(g, w, h, shuffle, coin, spawn), w, h)
  {
    var grown := AlgaePass(g, w, h);
    var herbi := Positions(grown, w, h, Herbivore);
    var grazed := HerbivorePass(grown, w, h, shuffle, coin);
    AlgaePassKeepsOccupied(g, w, h);
    HerbivorePassKeepsOccupied(grown, w, h, shuffle, coin);
    PredatorPassKeepsOccupied(grazed.grid, w, h, herbi, spawn);
  }

  /** No predator of the predator pass's snapshot stands on a food position: the foods are cells
      that held a Herbivore before the herbivore pass, and that pass writes only cells that held
      Algae. Every predator's target is therefore another cell, and its step is a real move. */
  lemma PredatorsNeverOnFood(g: Grid, w: nat, h: nat, shuffle: nat -> Shuffle, coin: nat -> bool)
    requires IsGrid(g, w, h)
    ensures var grown := AlgaePass(g, w, h);
      var grazed := HerbivorePass(grown, w, h, shuffle, coin);
      forall p :: p in Positions(grazed.grid, w, h, Predator) ==> p !in Positions(grown, w, h, Herbivore)
  {
    var grown := AlgaePass(g, w, h);
    HerbivorePassEatsOnlyAlgae(grown, w, h, shuffle, coin);
  }

  /** The food list the predator pass receives is the herbivore snapshot taken before the
      herbivore pass. Every food still holds a Herbivore when the predator pass starts, and a
      Herbivore that is not a food was born in the herbivore pass on a cell that held Algae. */
  lemma FoodsAtPredatorPass(g: Grid, w: nat, h: nat, shuffle: nat -> Shuffle, coin: nat -> bool)
    requires IsGrid(g, w, h)
    ensures var grown := AlgaePass(g, w, h);
      var grazed := HerbivorePass(grown, w, h, shuffle, coin).grid;
      var foods := Positions(grown, w, h, Herbivore);
      (forall f :: f in foods ==> InBounds(f, w, h) && At(grazed, f) == Some(Herbivore)) &&
      (forall c :: InBounds(c, w, h) && At(grazed, c) == Some(Herbivore) && c !in foods ==>
        At(grown, c) == Some(Algae))
  {
    var grown := AlgaePass(g, w, h);
    HerbivorePassEatsOnlyAlgae(grown, w, h, shuffle, coin);
  }

  /** A tick leaves the herbivore positions of the board where the algae pass found them alone
      until the predator pass: the algae pass only turns Sand into Algae. */
  lemma AlgaePassKeepsHerbivores(g: Grid, w: nat, h: nat)
    requires IsGrid(g, w, h)
    ensures forall c :: InBounds(c, w, h) ==>
      (At(AlgaePass(g, w, h), c) == Some(Herbivore) <==> At(g, c) == Some(Herbivore))
  {
    forall c | InBounds(c, w, h)
      ensures At(AlgaePass(g, w, h), c) == Some(Herbivore) <==> At(g, c) == Some(Herbivore)
    {
      AlgaePassAt(g, w, h, c);
    }
  }

  /** The predator pass's `foods.empty()` test holds only when the board held no herbivore when the
      tick began; the tick then only grows algae. */
  lemma NoHerbivoresOnlyGrowth(g: Grid, w: nat, h: nat, shuffle: nat -> Shuffle, coin: nat -> bool,
                               spawn: nat -> bool)
    requires IsGrid(g, w, h)
    requires Positions(g, w, h, Herbivore) == []
    ensures Tick(g, w, h, shuffle, coin, spawn) == AlgaePass(g, w, h)
  {
    var grown := AlgaePass(g, w, h);
    AlgaePassKeepsHerbivores(g, w, h);
    forall c: Pos
      ensures c !in Positions(grown, w, h, Herbivore)
    {
      if InBounds(c, w, h) {
        assert c !in Positions(g, w, h, Herbivore);
      }
    }
    EmptyScan(grown, w, h, Herbivore);
    NoFoodNoHunt(grown, w, h, spawn);
  }
}
