/** The closed set of entity kinds that can occupy a cell of the ocean, and how each prints. */
module Kinds {

  datatype Option<T> = None | Some(value: T)

  /** Entity::Type: every entity is identified by its kind alone; entities carry no other state. */
  datatype Kind = Sand | Algae | Herbivore | Predator

  /** A grid cell owns at most one entity; it is empty before `init`, or after
      `setEntity` with no entity. */
  type Cell = Option<Kind>

  /** The glyph an entity prints as (its `symbol()`), one Unicode scalar each. */
  function Symbol(k: Kind): (ch: char)
    ensures ch != '?'
  {
    match k
    case Sand => ' '
    case Algae => '~'
    case Herbivore => '\U{131A1}'
    case Predator => '\U{1319C}'
  }

  /** The glyph a cell prints as: its entity's symbol, or '?' for an empty cell. */
  function Glyph(c: Cell): (ch: char)
    ensures ch == '?' <==> c.None?
  {
    match c
    case None => '?'
    case Some(k) => Symbol(k)
  }

  /** Distinct cells print distinctly, so a rendering determines the board. */
  lemma GlyphInjective(a: Cell, b: Cell)
    requires Glyph(a) == Glyph(b)
    ensures a == b
  {
  }
}

/** One-letter names for the cells of the small example boards. */
module Cells {
  import opened Kinds

  const S: Cell := Some(Sand)
  const A: Cell := Some(Algae)
  const H: Cell := Some(Herbivore)
  const P: Cell := Some(Predator)
}
