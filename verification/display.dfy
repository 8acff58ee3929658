/** `Ocean::print`, as the lines it writes (each without its trailing newline). */
module Display {
  import opened Kinds
  import opened Board

  /** The frame line: '+', one '-' per column, '+'. */
  function Border(w: nat): (line: string)
    ensures |line| == w + 2 && line[0] == '+' && line[w + 1] == '+'
    ensures forall i :: 1 <= i <= w ==> line[i] == '-'
  {
    "+" + seq(w, _ => '-') + "+"
  }

  /** One board row: '|', each cell's glyph left to right, '|'. */
  function RowLine(row: seq<Cell>): (line: string)
    ensures |line| == |row| + 2 && line[0] == '|' && line[|row| + 1] == '|'
    ensures forall x :: 0 <= x < |row| ==> line[x + 1] == Glyph(row[x])
  {
    "|" + seq(|row|, x requires 0 <= x < |row| => Glyph(row[x])) + "|"
  }

  /** The bordered text block: a frame line, the rows top to bottom, a frame line. */
  function Render(g: Grid, w: nat, h: nat): (lines: seq<string>)
    requires IsGrid(g, w, h)
    ensures |lines| == h + 2
    ensures lines[0] == Border(w) && lines[h + 1] == Border(w)
    ensures forall y :: 0 <= y < h ==> lines[y + 1] == RowLine(g[y])
  {
    [Border(w)] + seq(h, y requires 0 <= y < h => RowLine(g[y])) + [Border(w)]
  }

  /** Every line of the block is `w + 2` characters wide, and the cell at (x, y) shows as the
      character at column x + 1 of line y + 1. */
  lemma RenderShowsCell(g: Grid, w: nat, h: nat, c: Pos)
    requires IsGrid(g, w, h) && InBounds(c, w, h)
    ensures forall i :: 0 <= i < h + 2 ==> |Render(g, w, h)[i]| == w + 2
    ensures Render(g, w, h)[c.y + 1][c.x + 1] == Glyph(At(g, c))
  {
    var lines := Render(g, w, h);
    forall i | 0 <= i < h + 2
      ensures |lines[i]| == w + 2
    {
      if 0 < i < h + 1 {
        assert lines[i] == RowLine(g[i - 1]);
      }
    }
  }

  /** The rendering loses nothing: two boards of the same size that print alike are equal. */
  lemma RenderInjective(g1: Grid, g2: Grid, w: nat, h: nat)
    requires IsGrid(g1, w, h) && IsGrid(g2, w, h)
    requires Render(g1, w, h) == Render(g2, w, h)
    ensures g1 == g2
  {
    forall y | 0 <= y < h
      ensures g1[y] == g2[y]
    {
      forall x | 0 <= x < w
        ensures g1[y][x] == g2[y][x]
      {
        RenderShowsCell(g1, w, h, Pos(x, y));
        RenderShowsCell(g2, w, h, Pos(x, y));
        GlyphInjective(g1[y][x], g2[y][x]);
      }
    }
  }
}
