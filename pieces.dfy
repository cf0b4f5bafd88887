/** The falling piece (`GameElement`): its value, the pure moves it makes, and the
    mutable object whose methods perform them in place. */
module Pieces {
  import opened Shapes

  /** The state of a piece: its symbol, current silhouette, top-left position and
      the position recorded before its last horizontal (resp. vertical) move. */
  datatype Figure = Figure(symbol: Symbol, silhouette: Silhouette,
                           posY: int, posX: int, posXHistory: int, posYHistory: int)

  /** What every piece of the game satisfies: a rectangular silhouette, and a position
      and recorded column that no move can make negative. */
  predicate Placed(f: Figure)
  {
    Rectangular(f.silhouette) && f.posY >= 0 && f.posX >= 0 && f.posXHistory >= 0
  }

  /** A new piece of the given symbol at (y, x); `generate_figure` with its random
      choice replaced by the argument. */
  function Spawn(sym: Symbol, y: int, x: int): (f: Figure)
    ensures y >= 0 && x >= 0 ==> Placed(f)
    ensures f.symbol == sym && f.silhouette == ShapeOf(sym) && f.posY == y && f.posX == x
    ensures CellCount(f.silhouette) == 4 && f.posXHistory == f.posX && f.posYHistory == f.posY
  {
    Figure(sym, ShapeOf(sym), y, x, x, y)
  }

  /** `move_right`: one column right when the piece's right edge stays inside the board. */
  function ShiftedRight(f: Figure, boardWidth: int): (g: Figure)
    requires Placed(f)
    ensures Placed(g)
    ensures g.posX == f.posX + 1 || g == f
    ensures g.posX == f.posX + 1 <==> f.posX + Width(f.silhouette) <= boardWidth - 1
    ensures g.posX != f.posX ==> g.posX + Width(g.silhouette) <= boardWidth && g.posXHistory == f.posX
    ensures g.(posX := f.posX, posXHistory := f.posXHistory) == f
  {
    if f.posX + Width(f.silhouette) <= boardWidth - 1 then f.(posXHistory := f.posX, posX := f.posX + 1)
    else f
  }

  /** `move_left`: one column left unless the piece is at column 0. */
  function ShiftedLeft(f: Figure): (g: Figure)
    requires Placed(f)
    ensures Placed(g)
    ensures g.posX == f.posX - 1 || g == f
    ensures g.posX == f.posX - 1 <==> f.posX > 0
    ensures g.posX != f.posX ==> g.posXHistory == f.posX
    ensures g.(posX := f.posX, posXHistory := f.posXHistory) == f
  {
    if f.posX > 0 then f.(posXHistory := f.posX, posX := f.posX - 1) else f
  }

  /** `move_down`: one row down while the bottom edge is above the last board row. */
  function Lowered(f: Figure, boardHeight: int): (g: Figure)
    requires Placed(f)
    ensures Placed(g)
    ensures g.posY == f.posY + 1 || g == f
    ensures g.posY == f.posY + 1 <==> f.posY + |f.silhouette| <= boardHeight - 1
    ensures f.posY + |f.silhouette| <= boardHeight - 1 ==> g.posY + |g.silhouette| <= boardHeight
    ensures g.posY != f.posY ==> g.posYHistory == f.posY
    ensures g.(posY := f.posY, posYHistory := f.posYHistory) == f
  {
    if f.posY + |f.silhouette| <= boardHeight - 1 then f.(posYHistory := f.posY, posY := f.posY + 1)
    else f
  }

  /** `set_down`: one row down with no bound check (the gravity tick checks first). */
  function Dropped(f: Figure): (g: Figure)
    requires Placed(f)
    ensures Placed(g)
    ensures g.posY == f.posY + 1 && g.posYHistory == f.posY
    ensures g.(posY := f.posY, posYHistory := f.posYHistory) == f
  {
    f.(posYHistory := f.posY, posY := f.posY + 1)
  }

  /** `reset_position`: back to the column recorded before the last horizontal move
      that happened, which a move that was a no-op did not update. */
  function Restored(f: Figure): (g: Figure)
    requires Placed(f)
    ensures Placed(g)
    ensures g.posX == f.posXHistory
    ensures g.(posX := f.posX) == f
  {
    f.(posX := f.posXHistory)
  }

  /** `rotate`: the clockwise quarter turn, accepted only when the turned silhouette's
      width (the old height) still fits between the piece's column and the board width. */
  function Turned(f: Figure, boardWidth: int): (g: Figure)
    requires Placed(f)
    ensures Placed(g)
    ensures f.posX + |f.silhouette| <= boardWidth ==>
              g.silhouette == Rotate(f.silhouette) && f.posX + Width(g.silhouette) <= boardWidth
    ensures f.posX + |f.silhouette| > boardWidth ==> g == f
    ensures g.(silhouette := f.silhouette) == f
    ensures |g.silhouette| * Width(g.silhouette) == |f.silhouette| * Width(f.silhouette)
    ensures CellCount(g.silhouette) == CellCount(f.silhouette)
  {
    var rotated := Rotate(f.silhouette);
    RotatePreservesCount(f.silhouette);
    if f.posX + Width(rotated) <= boardWidth then f.(silhouette := rotated) else f
  }

  /** A left move followed by a right move, away from both walls, is back where it started. */
  lemma LeftThenRight(f: Figure, boardWidth: int)
    requires Placed(f) && f.posX > 0 && f.posX + Width(f.silhouette) <= boardWidth
    ensures ShiftedRight(ShiftedLeft(f), boardWidth).posX == f.posX
    ensures ShiftedRight(ShiftedLeft(f), boardWidth).posXHistory == f.posX - 1
  {
  }

  /** Four accepted rotations give back the original silhouette. */
  lemma {:induction false} FourRotations(f: Figure, boardWidth: int)
    requires Placed(f)
    requires f.posX + |f.silhouette| <= boardWidth && f.posX + Width(f.silhouette) <= boardWidth
    ensures Turned(Turned(Turned(Turned(f, boardWidth), boardWidth), boardWidth), boardWidth) == f
  {
    var s := f.silhouette;
    RectangularWidth(s);
    var g1 := Turned(f, boardWidth);
    assert g1.silhouette == Rotate(s);
    var g2 := Turned(g1, boardWidth);
    assert g2.silhouette == Rotate(Rotate(s));
    HalfTurn(s);
    var g3 := Turned(g2, boardWidth);
    assert g3.silhouette == Rotate(Rotate(Rotate(s)));
    var g4 := Turned(g3, boardWidth);
    assert g4.silhouette == Rotate(Rotate(Rotate(Rotate(s))));
    FourTurns(s);
  }

  /** The piece object. Its methods change its position, recorded positions and
      silhouette in place; the symbol never changes. */
  class GameElement {
    const symbol: Symbol
    var silhouette: Silhouette
    var posY: int
    var posX: int
    var posXHistory: int
    var posYHistory: int

    /** The piece's current value. */
    function Value(): Figure
      reads this
    {
      Figure(symbol, silhouette, posY, posX, posXHistory, posYHistory)
    }

    ghost predicate Valid()
      reads this
    {
      Placed(Value())
    }

    constructor (symbol: Symbol, silhouette: Silhouette, posY: int, posX: int)
      requires Rectangular(silhouette) && posY >= 0 && posX >= 0
      ensures Valid()
      ensures Value() == Figure(symbol, silhouette, posY, posX, posX, posY)
    {
      this.symbol := symbol;
      this.silhouette := silhouette;
      this.posX := posX;
      this.posY := posY;
      this.posXHistory := posX;
      this.posYHistory := posY;
    }

    /** `generate_figure(y, x)`, with the symbol the random choice would make passed in. */
    constructor Generate(sym: Symbol, y: int, x: int)
      requires y >= 0 && x >= 0
      ensures Valid()
      ensures Value() == Spawn(sym, y, x)
    {
      symbol := sym;
      silhouette := ShapeOf(sym);
      posX := x;
      posY := y;
      posXHistory := x;
      posYHistory := y;
    }

    method MoveRight(boardWidth: int)
      requires Valid()
      modifies this
      ensures Valid()
      ensures Value() == ShiftedRight(old(Value()), boardWidth)
    {
      if posX + Width() <= boardWidth - 1 {
        posXHistory := posX;
        posX := posX + 1;
      }
    }

    method MoveLeft()
      requires Valid()
      modifies this
      ensures Valid()
      ensures Value() == ShiftedLeft(old(Value()))
    {
      if posX > 0 {
        posXHistory := posX;
        posX := posX - 1;
      }
    }

    method MoveDown(boardHight: int)
      requires Valid()
      modifies this
      ensures Valid()
      ensures Value() == Lowered(old(Value()), boardHight)
    {
      if posY + |silhouette| <= boardHight - 1 {
        posYHistory := posY;
        posY := posY + 1;
      }
    }

    method SetDown()
      requires Valid()
      modifies this
      ensures Valid()
      ensures Value() == Dropped(old(Value()))
    {
      posYHistory := posY;
      posY := posY + 1;
    }

    method ResetPosition()
      requires Valid()
      modifies this
      ensures Valid()
      ensures Value() == Restored(old(Value()))
    {
      posX := posXHistory;
    }

    /** The board height is accepted and ignored, as in the source. */
    method Rotate(boardWidth: int, boardHight: int)
      requires Valid()
      modifies this
      ensures Valid()
      ensures Value() == Turned(old(Value()), boardWidth)
    {
      var rotated := Shapes.Rotate(silhouette);
      var newMaxWidth := Shapes.Width(rotated);
      if posX + newMaxWidth <= boardWidth {
        silhouette := rotated;
      }
    }

    function Height(): nat
      reads this
    {
      |silhouette|
    }

    function Width(): nat
      reads this
      requires |silhouette| > 0
    {
      Shapes.Width(silhouette)
    }

    /** `__len__`: the number of filled cells. */
    function Len(): int
      reads this
    {
      CellCount(silhouette)
    }
  }
}
