/** Piece positions: the value type every board is made of.
    A piece has no identity of its own; it is the cell it stands on. */
module Vertex {

  /** A piece at row `row`, column `col` of the grid. */
  datatype Pos = Pos(row: nat, col: nat)

  /** Number of columns the compact integer label is built for. */
  const Columns: nat := 7

  /** Equality of pieces compares both coordinates and nothing else. */
  function Equal(a: Pos, b: Pos): (r: bool)
    ensures r <==> a == b
  {
    a.row == b.row && a.col == b.col
  }

  /** Inequality is the exact negation of equality. */
  function NotEqual(a: Pos, b: Pos): (r: bool)
    ensures r <==> !Equal(a, b)
  {
    a.row != b.row || a.col != b.col
  }

  /** `a` comes strictly before `b` in row-major (lexicographic) order. */
  predicate Precedes(a: Pos, b: Pos)
  {
    a.row < b.row || (a.row == b.row && a.col < b.col)
  }

  /** Three-way comparison: -1, 0 or 1 as `a` comes before, equals or follows `b`. */
  function Compare(a: Pos, b: Pos): (c: int)
    ensures c == -1 || c == 0 || c == 1
    ensures c == 0 <==> Equal(a, b)
    ensures c == -1 <==> Precedes(a, b)
    ensures c == 1 <==> Precedes(b, a)
  {
    if a.row < b.row then -1
    else if a.row == b.row then
      if a.col < b.col then -1
      else if a.col == b.col then 0
      else 1
    else 1
  }

  /** Swapping the arguments negates the comparison. */
  lemma CompareAntisymmetric(a: Pos, b: Pos)
    ensures Compare(b, a) == -Compare(a, b)
  {
  }

  /** The comparison is transitive, so it is a total order on positions. */
  lemma CompareTransitive(a: Pos, b: Pos, c: Pos)
    requires Compare(a, b) <= 0 && Compare(b, c) <= 0
    ensures Compare(a, c) <= 0
    ensures Compare(a, c) == 0 ==> a == b && b == c
  {
  }

  /** The compact label of a piece, row-major on a grid of `Columns` columns. */
  function Hash(p: Pos): (h: nat)
    ensures h % Columns == p.col % Columns
  {
    p.row * Columns + p.col
  }

  /** The piece a label stands for (integer division and remainder by `Columns`). */
  function FromHash(h: nat): (p: Pos)
    ensures p.col < Columns
    ensures Hash(p) == h
  {
    Pos(h / Columns, h % Columns)
  }

  /** Decoding a label gives back the piece exactly when the piece lies inside the 7 columns. */
  lemma FromHashOfHash(p: Pos)
    ensures FromHash(Hash(p)) == p <==> p.col < Columns
  {
    if p.col < Columns {
      HashDivMod(p);
    }
  }

  lemma HashDivMod(p: Pos)
    requires p.col < Columns
    ensures Hash(p) / Columns == p.row && Hash(p) % Columns == p.col
  {
  }

  /** Inside the 7 columns the label identifies the piece. */
  lemma HashInjective(a: Pos, b: Pos)
    requires a.col < Columns && b.col < Columns
    requires Hash(a) == Hash(b)
    ensures a == b
  {
    HashDivMod(a);
    HashDivMod(b);
  }

  /** Inside the 7 columns, label order is the comparison order. */
  lemma HashOrder(a: Pos, b: Pos)
    requires a.col < Columns && b.col < Columns
    ensures Compare(a, b) == -1 <==> Hash(a) < Hash(b)
  {
    if a.row < b.row {
      assert a.row * Columns + Columns <= b.row * Columns;
    } else if a.row > b.row {
      assert b.row * Columns + Columns <= a.row * Columns;
    }
  }
}
