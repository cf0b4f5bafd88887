/** The collision rules of `Game`: the cell test `check_if_intersect` and the one-row
    look-ahead `check_intersection`. Both only read. */
module Collision {
  import opened Shapes
  import opened Boards

  /** A board cell and a silhouette cell collide when the board cell is settled and the
      silhouette cell is filled (any other silhouette value never collides). */
  function CheckIfIntersect(boardCell: char, element: int): (hit: bool)
    ensures hit <==> boardCell != Empty && element == 1
  {
    if boardCell != Empty then
      if element == 0 then false
      else if element == 1 then true
      else false
    else false
  }

  /** Python's `row[from:to]` for `0 <= from <= to`: clamped to the row. */
  function Slice(row: seq<char>, from: int, to: int): (s: seq<char>)
    requires 0 <= from <= to
    ensures |s| == (if to <= from || |row| <= from then 0 else (if to < |row| then to else |row|) - from)
    ensures forall k :: 0 <= k < |s| ==> s[k] == row[from + k]
  {
    if to <= from || |row| <= from then []
    else row[from..if to < |row| then to else |row|]
  }

  /** `any(check_if_intersect(*p) for p in zip(cells, shapeRow))`. */
  function PairHits(cells: seq<char>, shapeRow: seq<int>): (hit: bool)
    ensures hit <==> exists c :: 0 <= c < |cells| && c < |shapeRow| && CheckIfIntersect(cells[c], shapeRow[c])
  {
    if cells == [] || shapeRow == [] then false
    else if CheckIfIntersect(cells[0], shapeRow[0]) then true
    else
      var hit := PairHits(cells[1..], shapeRow[1..]);
      assert hit ==> exists c :: 0 <= c < |cells| && c < |shapeRow| && CheckIfIntersect(cells[c], shapeRow[c]) by {
        if hit {
          var c :| 0 <= c < |cells[1..]| && c < |shapeRow[1..]| && CheckIfIntersect(cells[1..][c], shapeRow[1..][c]);
          assert CheckIfIntersect(cells[c + 1], shapeRow[c + 1]);
        }
      }
      assert (exists c :: 0 <= c < |cells| && c < |shapeRow| && CheckIfIntersect(cells[c], shapeRow[c])) ==> hit by {
        if c :| 0 <= c < |cells| && c < |shapeRow| && CheckIfIntersect(cells[c], shapeRow[c]) {
          assert c > 0;
          assert CheckIfIntersect(cells[1..][c - 1], shapeRow[1..][c - 1]);
        }
      }
      hit
  }

  /** Filled silhouette cell (r, c) of a piece at (posY, posX) sits directly above a
      settled board cell, inside that board row. */
  predicate LookAheadHit(field: Field, sil: Silhouette, posY: int, posX: int, r: int, c: int)
  {
    0 <= r < |sil| && 0 <= c < |sil[r]| && 0 <= posY + r + 1 < |field| &&
    0 <= posX + c < |field[posY + r + 1]| &&
    sil[r][c] == 1 && field[posY + r + 1][posX + c] != Empty
  }

  /** The loop of `check_intersection` from reversed row `number` on: reversed row
      `number` is silhouette row h-1-number, compared with board row bottom-number,
      where bottom = posY + h. */
  function RowsHit(field: Field, sil: Silhouette, posY: int, posX: int, number: nat): bool
    requires Rectangular(sil) && posY >= 0 && posX >= 0
    requires posY + |sil| < |field|
    requires number <= |sil|
    decreases |sil| - number
  {
    if number == |sil| then false
    else
      var fieldRow := posY + |sil| - number;
      var rowSlice := Slice(field[fieldRow], posX, posX + Width(sil));
      PairHits(rowSlice, sil[|sil| - 1 - number]) || RowsHit(field, sil, posY, posX, number + 1)
  }

  /** `check_intersection(board, element)` on a board of height `boardHeight` whose grid
      is `field` (empty before `generate_board`, otherwise `boardHeight` rows). */
  function CheckIntersection(field: Field, boardHeight: int, sil: Silhouette, posY: int, posX: int): bool
    requires Rectangular(sil) && posY >= 0 && posX >= 0
    requires field == [] || |field| == boardHeight
  {
    var elementCompletePath := posY + |sil|;
    if elementCompletePath == boardHeight then true
    else if field != [] && elementCompletePath <= boardHeight - 1 then RowsHit(field, sil, posY, posX, 0)
    else false
  }

  /** One examined row collides exactly when one of the filled cells of the shape row
      lies above a settled cell of the board row, counted from column `posX`. */
  lemma SliceHits(row: seq<char>, shapeRow: seq<int>, posX: nat)
    ensures PairHits(Slice(row, posX, posX + |shapeRow|), shapeRow) <==>
            exists c :: 0 <= c < |shapeRow| && posX + c < |row| && shapeRow[c] == 1 && row[posX + c] != Empty
  {
    var rowSlice := Slice(row, posX, posX + |shapeRow|);
    if c :| 0 <= c < |shapeRow| && posX + c < |row| && shapeRow[c] == 1 && row[posX + c] != Empty {
      assert c < |rowSlice| && rowSlice[c] == row[posX + c];
      assert CheckIfIntersect(rowSlice[c], shapeRow[c]);
    }
  }

  /** The rows examined from `number` on collide exactly when some filled cell of the
      silhouette rows 0 .. h-1-number lies directly above a settled cell. */
  lemma {:induction false} RowsHitSpec(field: Field, sil: Silhouette, posY: int, posX: int, number: nat)
    requires Rectangular(sil) && posY >= 0 && posX >= 0
    requires posY + |sil| < |field|
    requires number <= |sil|
    ensures RowsHit(field, sil, posY, posX, number) <==>
            exists r, c :: r < |sil| - number && LookAheadHit(field, sil, posY, posX, r, c)
    decreases |sil| - number
  {
    if number < |sil| {
      RowsHitSpec(field, sil, posY, posX, number + 1);
      var r := |sil| - 1 - number;
      var row := field[posY + r + 1];
      var here := PairHits(Slice(row, posX, posX + Width(sil)), sil[r]);
      assert RowsHit(field, sil, posY, posX, number) == (here || RowsHit(field, sil, posY, posX, number + 1)) by {
        assert posY + |sil| - number == posY + r + 1;
      }
      assert here <==> exists c :: LookAheadHit(field, sil, posY, posX, r, c) by {
        RectangularWidth(sil);
        SliceHits(row, sil[r], posX);
        if here {
          var c :| 0 <= c < |sil[r]| && posX + c < |row| && sil[r][c] == 1 && row[posX + c] != Empty;
          assert LookAheadHit(field, sil, posY, posX, r, c);
        }
      }
      if r', c :| r' < |sil| - number && LookAheadHit(field, sil, posY, posX, r', c) {
        if r' != r {
          assert r' < |sil| - (number + 1);
        }
      }
    }
  }

  /** The three cases of `check_intersection`: on the floor it always reports contact;
      above the last row of a generated board it reports contact exactly when some filled
      cell (r, c) has a settled board cell at (posY + r + 1, posX + c); otherwise never. */
  lemma IntersectionCases(field: Field, boardHeight: int, sil: Silhouette, posY: int, posX: int)
    requires Rectangular(sil) && posY >= 0 && posX >= 0
    requires field == [] || |field| == boardHeight
    ensures posY + |sil| == boardHeight ==> CheckIntersection(field, boardHeight, sil, posY, posX)
    ensures field != [] && posY + |sil| <= boardHeight - 1 ==>
              (CheckIntersection(field, boardHeight, sil, posY, posX) <==>
               exists r, c :: LookAheadHit(field, sil, posY, posX, r, c))
    ensures posY + |sil| != boardHeight && (field == [] || posY + |sil| > boardHeight - 1) ==>
              !CheckIntersection(field, boardHeight, sil, posY, posX)
  {
    if field != [] && posY + |sil| <= boardHeight - 1 {
      RowsHitSpec(field, sil, posY, posX, 0);
    }
  }

  /** On an empty grid only the floor counts as contact. */
  lemma EmptyBoardContact(sil: Silhouette, posY: int, posX: int)
    requires Rectangular(sil) && posY >= 0 && posX >= 0
    ensures CheckIntersection(EmptyField(), BoardHeight, sil, posY, posX) <==> posY + |sil| == BoardHeight
  {
    IntersectionCases(EmptyField(), BoardHeight, sil, posY, posX);
  }
}
