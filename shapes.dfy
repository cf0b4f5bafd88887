/** The seven piece silhouettes: 0/1 matrices, their derived sizes, the
    filled-cell count and the clockwise quarter turn used by rotation. */
module Shapes {

  /** The one-letter name of a piece. A board cell holding one of these is settled. */
  type Symbol = c: char | c in "ijlostz" witness 'i'

  /** Rows of cells, top row first; 1 is a filled cell, 0 an empty one. */
  type Silhouette = seq<seq<int>>

  /** Every row holds exactly `w` cells. */
  predicate RowsOfWidth(s: Silhouette, w: int)
  {
    forall k :: 0 <= k < |s| ==> |s[k]| == w
  }

  /** A non-empty matrix of non-empty rows of equal length, as all seven silhouettes are. */
  predicate Rectangular(s: Silhouette)
  {
    |s| > 0 && |s[0]| > 0 && RowsOfWidth(s, |s[0]|)
  }

  /** Every cell is 0 or 1. */
  predicate Binary(s: Silhouette)
  {
    forall k, c :: 0 <= k < |s| && 0 <= c < |s[k]| ==> s[k][c] == 0 || s[k][c] == 1
  }

  /** The GAME_ELEMENTS table, one silhouette per symbol. */
  const IShape: Silhouette := [[1], [1], [1], [1]]
  const JShape: Silhouette := [[1, 0, 0], [1, 1, 1]]
  const LShape: Silhouette := [[0, 0, 1], [1, 1, 1]]
  const OShape: Silhouette := [[1, 1], [1, 1]]
  const SShape: Silhouette := [[0, 1, 1], [1, 1, 0]]
  const TShape: Silhouette := [[0, 1, 0], [1, 1, 1]]
  const ZShape: Silhouette := [[1, 1, 0], [0, 1, 1]]

  /** The silhouette a symbol stands for: four filled cells in a 0/1 rectangle. */
  function ShapeOf(sym: Symbol): (s: Silhouette)
    ensures Rectangular(s) && Binary(s)
    ensures CellCount(s) == 4
  {
    match sym
    case 'i' => IShape
    case 'j' => JShape
    case 'l' => LShape
    case 'o' => OShape
    case 's' => SShape
    case 't' => TShape
    case _ => ZShape
  }

  /** The length of the longest row: `len(max(rows, key=len))`. */
  function Width(s: Silhouette): (w: nat)
    requires |s| > 0
    ensures forall k :: 0 <= k < |s| ==> |s[k]| <= w
    ensures exists k :: 0 <= k < |s| && |s[k]| == w
  {
    if |s| == 1 then |s[0]|
    else
      var rest := Width(s[1..]);
      assert forall k :: 1 <= k < |s| ==> s[k] == s[1..][k - 1];
      if |s[0]| >= rest then |s[0]| else rest
  }

  /** Of a rectangular silhouette the width is the length of any row. */
  lemma RectangularWidth(s: Silhouette)
    requires Rectangular(s)
    ensures Width(s) == |s[0]|
  {
  }

  /** Sum of one row (`sum(row)`). */
  function RowSum(r: seq<int>): int
  {
    if r == [] then 0 else r[0] + RowSum(r[1..])
  }

  /** Number of filled cells (`sum([sum(i) for i in silhouette])`, the piece's `__len__`). */
  function CellCount(s: Silhouette): int
  {
    if s == [] then 0 else RowSum(s[0]) + CellCount(s[1..])
  }

  /** `zip(*s[::-1])` over the rows of a non-empty `s` of width `w`: row i of the result
      is column i of `s` read from the bottom row up. */
  function Turn(s: Silhouette, w: nat): (t: Silhouette)
    requires RowsOfWidth(s, w)
    ensures |t| == w && RowsOfWidth(t, |s|)
  {
    seq(w, i requires 0 <= i < w => seq(|s|, j requires 0 <= j < |s| => s[|s| - 1 - j][i]))
  }

  /** The clockwise quarter turn of `rotate`: height and width swap and
      cell (i, j) of the result is cell (h-1-j, i) of the original. */
  function Rotate(s: Silhouette): (t: Silhouette)
    requires Rectangular(s)
    ensures Rectangular(t) && |t| == Width(s) && Width(t) == |s|
    ensures forall i, j :: 0 <= i < |t| && 0 <= j < |t[i]| ==> t[i][j] == s[|s| - 1 - j][i]
  {
    var t := Turn(s, |s[0]|);
    RectangularWidth(s);
    RectangularWidth(t);
    t
  }

  /** A quarter turn keeps the cells 0/1. */
  lemma RotateBinary(s: Silhouette)
    requires Rectangular(s) && Binary(s)
    ensures Binary(Rotate(s))
  {
  }

  /** Two quarter turns are a half turn: the matrix read backwards in both directions. */
  lemma {:induction false} HalfTurn(s: Silhouette)
    requires Rectangular(s)
    ensures var t := Rotate(Rotate(s));
            |t| == |s| && RowsOfWidth(t, |s[0]|) &&
            forall i, j :: 0 <= i < |s| && 0 <= j < |s[0]| ==> t[i][j] == s[|s| - 1 - i][|s[0]| - 1 - j]
  {
    var r := Rotate(s);
    var t := Rotate(r);
    forall i, j | 0 <= i < |s| && 0 <= j < |s[0]|
      ensures t[i][j] == s[|s| - 1 - i][|s[0]| - 1 - j]
    {
      assert t[i][j] == r[|r| - 1 - j][i];
    }
  }

  /** Four accepted quarter turns give back the original silhouette. */
  lemma {:induction false} FourTurns(s: Silhouette)
    requires Rectangular(s)
    ensures Rotate(Rotate(Rotate(Rotate(s)))) == s
  {
    var h := Rotate(Rotate(s));
    HalfTurn(s);
    HalfTurn(h);
    var t := Rotate(Rotate(h));
    forall i | 0 <= i < |s|
      ensures t[i] == s[i]
    {
      forall j | 0 <= j < |s[i]|
        ensures t[i][j] == s[i][j]
      {
        assert t[i][j] == h[|h| - 1 - i][|h[0]| - 1 - j];
      }
    }
  }

  /** `sum(row + [x]) == sum(row) + x`. */
  lemma {:induction false} RowSumAppend(r: seq<int>, x: int)
    ensures RowSum(r + [x]) == RowSum(r) + x
  {
    if r != [] {
      assert (r + [x])[1..] == r[1..] + [x];
      RowSumAppend(r[1..], x);
    }
  }

  /** Appending one cell to every row adds the sum of the appended column. */
  lemma {:induction false} AppendColumnCount(m: Silhouette, col: seq<int>)
    requires |col| == |m|
    ensures CellCount(seq(|m|, i requires 0 <= i < |m| => m[i] + [col[i]])) == CellCount(m) + RowSum(col)
  {
    var a := seq(|m|, i requires 0 <= i < |m| => m[i] + [col[i]]);
    if m != [] {
      var rest := seq(|m| - 1, i requires 0 <= i < |m| - 1 => m[1..][i] + [col[1..][i]]);
      assert a[1..] == rest;
      AppendColumnCount(m[1..], col[1..]);
      RowSumAppend(m[0], col[0]);
    }
  }

  /** The turned matrix holds the same cells, so the same filled-cell count. */
  lemma {:induction false} TurnCount(s: Silhouette, w: nat)
    requires RowsOfWidth(s, w)
    ensures CellCount(Turn(s, w)) == CellCount(s)
  {
    var t := Turn(s, w);
    if s == [] {
      if w > 0 {
        assert t[1..] == Turn([], w - 1);
        TurnCount([], w - 1);
      }
    } else {
      var top := s[0];
      var below := s[1..];
      var u := Turn(below, w);
      forall i | 0 <= i < w
        ensures t[i] == u[i] + [top[i]]
      {
        forall j | 0 <= j < |s|
          ensures t[i][j] == (u[i] + [top[i]])[j]
        {
          if j < |s| - 1 {
            assert t[i][j] == s[|s| - 1 - j][i] == below[|below| - 1 - j][i];
          }
        }
      }
      assert t == seq(|u|, i requires 0 <= i < |u| => u[i] + [top[i]]);
      AppendColumnCount(u, top);
      TurnCount(below, w);
    }
  }

  /** A quarter turn keeps the filled-cell count (`__len__`). */
  lemma RotatePreservesCount(s: Silhouette)
    requires Rectangular(s)
    ensures CellCount(Rotate(s)) == CellCount(s)
  {
    TurnCount(s, |s[0]|);
  }

  /** The cell opposite (i, j) through the centre of the matrix. */
  function Opposite(s: Silhouette, i: int, j: int): int
    requires Rectangular(s) && 0 <= i < |s| && 0 <= j < |s[0]|
  {
    s[|s| - 1 - i][|s[0]| - 1 - j]
  }

  /** A matrix that reads the same backwards in both directions. */
  predicate PointSymmetric(s: Silhouette)
    requires Rectangular(s)
  {
    forall i, j :: 0 <= i < |s| && 0 <= j < |s[0]| ==> s[i][j] == Opposite(s, i, j)
  }

  /** A half turn leaves a point-symmetric matrix unchanged. */
  lemma {:induction false} HalfTurnFixesSymmetric(s: Silhouette)
    requires Rectangular(s) && PointSymmetric(s)
    ensures Rotate(Rotate(s)) == s
  {
    HalfTurn(s);
    var t := Rotate(Rotate(s));
    forall i | 0 <= i < |s|
      ensures t[i] == s[i]
    {
      forall j | 0 <= j < |s[i]|
        ensures t[i][j] == s[i][j]
      {
        assert t[i][j] == Opposite(s, i, j);
      }
    }
  }

  /** ... and only those: a matrix that a half turn leaves unchanged is point-symmetric. */
  lemma {:induction false} HalfTurnFixesOnlySymmetric(s: Silhouette)
    requires Rectangular(s) && Rotate(Rotate(s)) == s
    ensures PointSymmetric(s)
  {
    HalfTurn(s);
    forall i, j | 0 <= i < |s| && 0 <= j < |s[0]|
      ensures s[i][j] == Opposite(s, i, j)
    {
      assert Rotate(Rotate(s))[i][j] == s[|s| - 1 - i][|s[0]| - 1 - j];
    }
  }

  /** The rotation "undo" of the up key is a second quarter turn, i.e. a half turn in all:
      it restores the I, O, S and Z silhouettes ... */
  lemma HalfTurnRestoresSymmetricShapes(sym: Symbol)
    requires sym in "iosz"
    ensures Rotate(Rotate(ShapeOf(sym))) == ShapeOf(sym)
  {
    var s := ShapeOf(sym);
    assert PointSymmetric(s);
    HalfTurnFixesSymmetric(s);
  }

  /** ... but leaves J, L and T upside down. */
  lemma {:induction false} HalfTurnMovesAsymmetricShapes(sym: Symbol)
    requires sym in "jlt"
    ensures Rotate(Rotate(ShapeOf(sym))) != ShapeOf(sym)
  {
    var s := ShapeOf(sym);
    HalfTurn(s);
    var t := Rotate(Rotate(s));
    if sym == 'j' || sym == 'l' {
      assert t[0][1] == s[1][1] == 1 != s[0][1];
    } else {
      assert t[0][0] == s[1][2] == 1 != s[0][0];
    }
  }
}
