/** The board (`Board`): a grid of one-letter cells in which 'x' is empty, the
    row-completeness test, the line clear and the merge of a piece into a copy. */
module Boards {
  import opened Shapes
  import opened Pieces

  /** The cell value of an empty cell. */
  const Empty: char := 'x'

  /** The board is 20 rows of 10 cells whatever its constructor is passed. */
  const BoardHeight: int := 20
  const BoardWidth: int := 10

  /** Rows of cells, top row first. */
  type Field = seq<seq<char>>

  /** The grid `generate_board` builds and every later update keeps: 20 rows of 10 cells. */
  predicate Generated(f: Field)
  {
    |f| == BoardHeight && forall k :: 0 <= k < |f| ==> |f[k]| == BoardWidth
  }

  /** Before `generate_board` the grid is the empty list. */
  predicate WellShaped(f: Field)
  {
    f == [] || Generated(f)
  }

  function EmptyRow(): (r: seq<char>)
    ensures |r| == BoardWidth && forall c :: 0 <= c < |r| ==> r[c] == Empty
  {
    seq(BoardWidth, _ => Empty)
  }

  /** `k` empty rows. */
  function EmptyRows(k: nat): (f: Field)
    ensures |f| == k && forall i :: 0 <= i < k ==> f[i] == EmptyRow()
  {
    if k == 0 then [] else [EmptyRow()] + EmptyRows(k - 1)
  }

  /** The grid of `generate_board`: every cell empty. */
  function EmptyField(): (f: Field)
    ensures Generated(f)
    ensures forall i, j :: 0 <= i < |f| && 0 <= j < |f[i]| ==> f[i][j] == Empty
  {
    EmptyRows(BoardHeight)
  }

  /** `_line_done`: no cell of the row is empty. */
  function LineDone(line: seq<char>): (done: bool)
    ensures done <==> forall c :: 0 <= c < |line| ==> line[c] != Empty
  {
    if line == [] then true
    else
      assert forall c :: 1 <= c < |line| ==> line[c] == line[1..][c - 1];
      line[0] != Empty && LineDone(line[1..])
  }

  /** The number of complete rows. */
  function CountDone(f: Field): (n: nat)
    ensures n <= |f|
  {
    if f == [] then 0 else (if LineDone(f[0]) then 1 else 0) + CountDone(f[1..])
  }

  /** `[i for i in field if not line_done(i)]`: the incomplete rows, in order. */
  function Incomplete(f: Field): (g: Field)
    ensures |g| + CountDone(f) == |f|
    ensures forall k :: 0 <= k < |g| ==> !LineDone(g[k]) && g[k] in f
  {
    if f == [] then []
    else (if LineDone(f[0]) then [] else [f[0]]) + Incomplete(f[1..])
  }

  /** The positions in `f` of its incomplete rows, in increasing order. */
  function Kept(f: Field): seq<nat>
  {
    if f == [] then []
    else
      var shifted := Shifted(Kept(f[1..]));
      if LineDone(f[0]) then shifted else [0] + shifted
  }

  function Shifted(ks: seq<nat>): (r: seq<nat>)
    ensures |r| == |ks| && forall k :: 0 <= k < |ks| ==> r[k] == ks[k] + 1
  {
    seq(|ks|, k requires 0 <= k < |ks| => ks[k] + 1)
  }

  /** The rows the line clear keeps are the incomplete ones in their original order:
      `Kept(f)` picks exactly the rows of `Incomplete(f)` (this lemma), in increasing
      positions (`KeptIncreasing`), and misses no incomplete row (`KeptComplete`). */
  lemma {:induction false} KeptMatches(f: Field)
    ensures |Kept(f)| == |Incomplete(f)|
    ensures forall k :: 0 <= k < |Kept(f)| ==> Kept(f)[k] < |f| && Incomplete(f)[k] == f[Kept(f)[k]]
  {
    if f != [] {
      var rest := f[1..];
      KeptMatches(rest);
      var tail := Kept(rest);
      var ks := Kept(f);
      var inc := Incomplete(f);
      forall k | 0 <= k < |ks| ensures ks[k] < |f| && inc[k] == f[ks[k]] {
        if !LineDone(f[0]) && k == 0 {
        } else {
          var k' := if LineDone(f[0]) then k else k - 1;
          assert ks[k] == tail[k'] + 1;
          assert inc[k] == Incomplete(rest)[k'];
        }
      }
    }
  }

  lemma {:induction false} KeptIncreasing(f: Field)
    ensures forall a, b :: 0 <= a < b < |Kept(f)| ==> Kept(f)[a] < Kept(f)[b]
  {
    if f != [] {
      KeptIncreasing(f[1..]);
    }
  }

  lemma {:induction false} KeptComplete(f: Field)
    ensures forall i :: 0 <= i < |f| && !LineDone(f[i]) ==> i in Kept(f)
  {
    if f != [] {
      var rest := f[1..];
      KeptComplete(rest);
      var shifted := Shifted(Kept(rest));
      forall i | 1 <= i < |f| && !LineDone(f[i]) ensures i in shifted {
        assert rest[i - 1] == f[i];
        var k :| 0 <= k < |Kept(rest)| && Kept(rest)[k] == i - 1;
        assert shifted[k] == i;
      }
    }
  }

  /** A grid has no complete row exactly when its count of complete rows is 0. */
  lemma {:induction false} NoneDone(f: Field)
    ensures CountDone(f) == 0 <==> forall k :: 0 <= k < |f| ==> !LineDone(f[k])
  {
    if f != [] {
      NoneDone(f[1..]);
      assert forall k :: 1 <= k < |f| ==> f[k] == f[1..][k - 1];
    }
  }

  /** With no complete row, filtering keeps every row. */
  lemma {:induction false} NothingToFilter(f: Field)
    requires CountDone(f) == 0
    ensures Incomplete(f) == f
  {
    if f != [] {
      NothingToFilter(f[1..]);
    }
  }

  /** `check_matches` as a value: the complete rows are dropped, as many empty rows
      are put on top, and the count of dropped rows is returned. */
  function Cleared(f: Field): (r: (Field, nat))
    requires Generated(f)
    ensures r.1 == CountDone(f) && Generated(r.0)
  {
    var kept := Incomplete(f);
    var lines := BoardHeight - |kept|;
    (EmptyRows(lines) + kept, lines)
  }

  /** The cleared grid is the removed rows' count of empty rows above the incomplete
      rows in their order, and no row of it is complete. */
  lemma ClearedShape(f: Field)
    requires Generated(f)
    ensures var (g, n) := Cleared(f);
            g[..n] == EmptyRows(n) && g[n..] == Incomplete(f) && CountDone(g) == 0
  {
    var kept := Incomplete(f);
    var lines := BoardHeight - |kept|;
    var g := EmptyRows(lines) + kept;
    assert forall k :: 0 <= k < |g| ==> !LineDone(g[k]) by {
      forall k | 0 <= k < |g| ensures !LineDone(g[k]) {
        if k < lines {
          assert g[k][0] == Empty;
        }
      }
    }
    NoneDone(g);
    assert g[..lines] == EmptyRows(lines) && g[lines..] == kept;
  }

  /** Clearing once leaves nothing to clear: a second clear changes nothing and removes 0. */
  lemma ClearIdempotent(f: Field)
    requires Generated(f)
    ensures Cleared(Cleared(f).0) == (Cleared(f).0, 0)
  {
    var g := Cleared(f).0;
    ClearedShape(f);
    NothingToFilter(g);
    assert EmptyRows(0) + g == g;
  }

  /** A grid with no complete row comes out of the clear unchanged, with 0 removed. */
  lemma ClearWithoutCompleteRows(f: Field)
    requires Generated(f) && forall k :: 0 <= k < |f| ==> !LineDone(f[k])
    ensures Cleared(f) == (f, 0)
  {
    NoneDone(f);
    NothingToFilter(f);
    assert EmptyRows(0) + f == f;
  }

  /** One full row on an otherwise empty board: one line is removed and the board
      comes back empty. */
  lemma {:induction false} ClearSingleFullRow(f: Field, full: nat)
    requires Generated(f) && full < |f|
    requires LineDone(f[full])
    requires forall i :: 0 <= i < |f| && i != full ==> f[i] == EmptyRow()
    ensures Cleared(f) == (EmptyField(), 1)
  {
    var kept := Incomplete(f);
    var ks := Kept(f);
    KeptMatches(f);
    KeptComplete(f);
    assert EmptyRow()[0] == Empty;
    assert forall i :: 0 <= i < |f| && i != full ==> !LineDone(f[i]);
    assert full !in ks;
    forall i | 0 <= i < |f| && i != full ensures i in ks {
    }
    assert forall k :: 0 <= k < |kept| ==> kept[k] == EmptyRow();
    OneDone(f, full);
    assert |kept| == BoardHeight - 1;
    var g := Cleared(f).0;
    assert g == EmptyRows(1) + kept;
    assert forall i :: 0 <= i < |g| ==> g[i] == EmptyRow();
    assert g == EmptyField();
  }

  /** Exactly one complete row counts as one. */
  lemma {:induction false} OneDone(f: Field, full: nat)
    requires full < |f| && LineDone(f[full])
    requires forall i :: 0 <= i < |f| && i != full ==> !LineDone(f[i])
    ensures CountDone(f) == 1
  {
    if full == 0 {
      assert forall k :: 0 <= k < |f[1..]| ==> !LineDone(f[1..][k]) by {
        forall k | 0 <= k < |f[1..]| ensures !LineDone(f[1..][k]) {
          assert f[1..][k] == f[k + 1];
        }
      }
      NoneDone(f[1..]);
    } else {
      forall i | 0 <= i < |f[1..]| && i != full - 1 ensures !LineDone(f[1..][i]) {
        assert f[1..][i] == f[i + 1];
      }
      OneDone(f[1..], full - 1);
    }
  }

  /** What `merge_map` returns: `None` when the piece reaches below the grid, a failure
      when a filled cell lands exactly one column past the end of its row (the guard
      `len(row) >= column` lets that write through and Python raises IndexError), and
      otherwise the stamped copy. */
  datatype Merge = NoFit | ColumnOverflow | Merged(field: Field)

  /** Cell (i, j) of the grid lies under a filled cell of the silhouette placed at (posY, posX). */
  predicate Covers(sil: Silhouette, posY: int, posX: int, i: int, j: int)
  {
    posY <= i < posY + |sil| && posX <= j < posX + |sil[i - posY]| && sil[i - posY][j - posX] == 1
  }

  /** Filled cell (r, c) of the silhouette falls exactly on the end of its grid row. */
  predicate OverflowCell(f: Field, sil: Silhouette, posY: int, posX: int, r: int, c: int)
  {
    0 <= r < |sil| && 0 <= c < |sil[r]| && 0 <= posY + r < |f| &&
    sil[r][c] == 1 && posX + c == |f[posY + r]|
  }

  /** The copy with every covered in-row cell set to `sym`. */
  function Stamp(f: Field, sil: Silhouette, posY: int, posX: int, sym: Symbol): Field
  {
    seq(|f|, i requires 0 <= i < |f| =>
      seq(|f[i]|, j requires 0 <= j < |f[i]| => if Covers(sil, posY, posX, i, j) then sym else f[i][j]))
  }

  /** `merge_map(element)` as a value. */
  function MergeOf(f: Field, e: Figure): (m: Merge)
    requires e.posY >= 0 && e.posX >= 0
    ensures m.NoFit? <==> e.posY + |e.silhouette| > |f|
    ensures m.ColumnOverflow? <==>
              e.posY + |e.silhouette| <= |f| &&
              exists r, c :: OverflowCell(f, e.silhouette, e.posY, e.posX, r, c)
    ensures m.Merged? ==> |m.field| == |f| && forall i :: 0 <= i < |f| ==> |m.field[i]| == |f[i]|
    ensures m.Merged? ==>
              forall r, c ::
                (0 <= r < |e.silhouette| && 0 <= c < |e.silhouette[r]| &&
                 e.silhouette[r][c] == 1 && e.posX + c < |f[e.posY + r]|) ==>
                m.field[e.posY + r][e.posX + c] == e.symbol
    ensures m.Merged? ==>
              forall i, j :: 0 <= i < |f| && 0 <= j < |f[i]| && !Covers(e.silhouette, e.posY, e.posX, i, j) ==>
                m.field[i][j] == f[i][j]
  {
    if e.posY + |e.silhouette| > |f| then NoFit
    else if exists r, c :: 0 <= r < |e.silhouette| && 0 <= c < |e.silhouette[r]| &&
                          OverflowCell(f, e.silhouette, e.posY, e.posX, r, c) then ColumnOverflow
    else
      var g := Stamp(f, e.silhouette, e.posY, e.posX, e.symbol);
      assert forall r, c ::
               (0 <= r < |e.silhouette| && 0 <= c < |e.silhouette[r]| &&
                e.silhouette[r][c] == 1 && e.posX + c < |f[e.posY + r]|) ==>
               Covers(e.silhouette, e.posY, e.posX, e.posY + r, e.posX + c);
      Merged(g)
  }

  /** A piece lying on a generated grid and inside its right edge always merges,
      and the merged grid is again a generated one. */
  lemma MergeInsideBoard(f: Field, e: Figure)
    requires Generated(f) && Placed(e)
    requires e.posY + |e.silhouette| <= BoardHeight
    requires e.posX + Width(e.silhouette) <= BoardWidth
    ensures MergeOf(f, e).Merged? && Generated(MergeOf(f, e).field)
  {
  }

  /** The board object; `field` plays `_field`. */
  class Board {
    var field: Field

    ghost predicate Valid()
      reads this
    {
      WellShaped(field)
    }

    /** The arguments are ignored: the board is always 20 by 10. */
    constructor (height: int, width: int)
      ensures Valid() && field == []
    {
      field := [];
    }

    method GenerateBoard() returns (f: Field)
      modifies this
      ensures Valid() && Generated(field)
      ensures field == EmptyField() && f == field
    {
      field := EmptyField();
      f := field;
    }

    /** Row-wise overwrite: row e of the grid becomes row e of `boardField`. */
    method UpdateBoard(boardField: Field) returns (f: Field)
      requires Valid()
      requires |boardField| <= |field|
      requires forall k :: 0 <= k < |boardField| ==> |boardField[k]| == BoardWidth
      modifies this
      ensures Valid()
      ensures field == boardField + old(field)[|boardField|..]
      ensures f == field
    {
      for e := 0 to |boardField|
        invariant |field| == |old(field)|
        invariant field == boardField[..e] + old(field)[e..]
      {
        field := field[e := boardField[e]];
      }
      f := field;
    }

    /** The line clear: returns the number of complete rows removed. */
    method CheckMatches() returns (linesRemoved: int)
      requires Valid() && Generated(field)
      modifies this
      ensures Valid() && Generated(field)
      ensures linesRemoved == CountDone(old(field))
      ensures (field, linesRemoved) == Cleared(old(field))
    {
      var newBoard := Incomplete(field);
      linesRemoved := BoardHeight - |newBoard|;
      for i := 0 to linesRemoved
        invariant newBoard == EmptyRows(i) + Incomplete(old(field))
      {
        newBoard := [EmptyRow()] + newBoard;
      }
      var _ := UpdateBoard(newBoard);
      assert field == newBoard;
    }

    /** The merge into a copy of the grid; the grid itself is not changed. */
    method MergeMap(element: GameElement) returns (m: Merge)
      requires Valid() && element.Valid()
      ensures m == MergeOf(field, element.Value())
    {
      var sil := element.silhouette;
      var posY, posX := element.posY, element.posX;
      var f := field;
      if posY + |sil| > |f| {
        return NoFit;
      }
      for r := 0 to |sil|
        invariant |f| == |field| && forall i :: 0 <= i < |f| ==> |f[i]| == |field[i]|
        invariant forall i, j :: 0 <= i < |f| && 0 <= j < |f[i]| ==>
                    f[i][j] == if i < posY + r && Covers(sil, posY, posX, i, j) then element.symbol else field[i][j]
        invariant forall rr, c :: 0 <= rr < r ==> !OverflowCell(field, sil, posY, posX, rr, c)
      {
        var line := f[posY + r];
        for c := 0 to |sil[r]|
          invariant |line| == |field[posY + r]|
          invariant forall j :: 0 <= j < |line| ==>
                      line[j] == if posX <= j < posX + c && sil[r][j - posX] == 1 then element.symbol else field[posY + r][j]
          invariant forall cc :: 0 <= cc < c ==> !OverflowCell(field, sil, posY, posX, r, cc)
        {
          if sil[r][c] == 1 {
            var column := posX + c;
            if |line| >= column {
              if column == |line| {
                assert OverflowCell(field, sil, posY, posX, r, c);
                return ColumnOverflow;
              }
              line := line[column := element.symbol];
            }
          }
        }
        f := f[posY + r := line];
      }
      var stamped := Stamp(field, sil, posY, posX, element.symbol);
      forall i | 0 <= i < |f| ensures f[i] == stamped[i] {
      }
      m := Merged(f);
    }
  }
}
