/** The rules of `Game`: key handling, the gravity tick, scoring, restart and quit,
    and the body of the `start_game` loop, first as functions on a value of the whole
    game state and then as the `Game` object whose methods perform them in place. */
module Games {
  import opened Shapes
  import opened Pieces
  import opened Boards
  import opened Collision

  /** Where every new piece appears. */
  const StartY: int := 0
  const StartX: int := 4

  /** `auto_drop_threshold` at the start of `start_game`. */
  const InitialThreshold: int := 12

  /** The key read in one loop iteration: the four arrows, 'r', 'q', and anything else
      (including the no-key value the 100 ms timeout produces). */
  datatype Key = Up | Left | Right | Down | Restart | Quit | Other

  /** The symbols the random choices of one iteration would make: the two pieces a
      restart generates and the next piece a settle generates. */
  datatype Picks = Picks(restartFigure: Symbol, restartNext: Symbol, spawn: Symbol)

  /** What one iteration of the game loop reads from outside. */
  datatype Input = Input(key: Key, picks: Picks)

  /** The grid, the falling and the next piece, the two flags and the counters. */
  datatype GameState = GameState(field: Field, figure: Figure, next: Figure,
                                 gameEnd: bool, gameRunning: bool,
                                 round: int, score: int, iterations: int)

  predicate Consistent(s: GameState)
  {
    WellShaped(s.field) && Placed(s.figure) && Placed(s.next)
  }

  /** `check_intersection(self._board, figure)`. */
  function Contact(field: Field, f: Figure): bool
    requires WellShaped(field) && Placed(f)
  {
    CheckIntersection(field, BoardHeight, f.silhouette, f.posY, f.posX)
  }

  /** `restart_round`: the counters go back to 0, the loop is told to stop, and two new
      pieces replace both the falling and the next one; the grid and `_game_end` stay. */
  function Restarted(s: GameState, first: Symbol, second: Symbol): (t: GameState)
    requires Consistent(s)
    ensures Consistent(t)
    ensures !t.gameRunning && t.round == 0 && t.score == 0 && t.iterations == 0
    ensures t.gameEnd == s.gameEnd && t.field == s.field
    ensures t.figure == Spawn(first, StartY, StartX) && t.next == Spawn(second, StartY, StartX)
  {
    s.(gameRunning := false, round := 0, score := 0, iterations := 0,
       figure := Spawn(first, StartY, StartX), next := Spawn(second, StartY, StartX))
  }

  /** `quit` and the flag part of `game_over`: the loop stops and the game ends. */
  function Stopped(s: GameState): (t: GameState)
    ensures t.gameEnd && !t.gameRunning
    ensures t.(gameEnd := s.gameEnd, gameRunning := s.gameRunning) == s
  {
    s.(gameEnd := true, gameRunning := false)
  }

  /** `Game.move_down`: one row down (bounded by `move_down` of the piece) unless the
      look-ahead already reports contact. */
  function SoftDrop(s: GameState): (t: GameState)
    requires Consistent(s)
    ensures Consistent(t)
    ensures Contact(s.field, s.figure) ==> t == s
    ensures !Contact(s.field, s.figure) ==> t == s.(figure := Lowered(s.figure, BoardHeight))
  {
    if Contact(s.field, s.figure) then s else s.(figure := Lowered(s.figure, BoardHeight))
  }

  /** `_get_keyboard_input(event)`. */
  function KeyStep(s: GameState, key: Key, picks: Picks): (t: GameState)
    requires Consistent(s)
    ensures Consistent(t)
    ensures !key.Restart? ==>
              t.field == s.field && t.next == s.next && t.round == s.round &&
              t.score == s.score && t.iterations == s.iterations
    ensures !key.Restart? && !key.Quit? ==> t.gameRunning == s.gameRunning && t.gameEnd == s.gameEnd
    ensures !key.Restart? ==>
              t.figure.symbol == s.figure.symbol &&
              CellCount(t.figure.silhouette) == CellCount(s.figure.silhouette)
    ensures key.Left? || key.Right? ==> t.figure.silhouette == s.figure.silhouette && t.figure.posY == s.figure.posY
    ensures key.Other? ==> t == s
  {
    match key
    case Up =>
      var f := s.figure;
      if f.posY + |f.silhouette| <= BoardHeight - 1 then
        var g := Turned(f, BoardWidth);
        if Contact(s.field, g) && g.posY + |g.silhouette| <= BoardHeight - 1 then
          s.(figure := Turned(g, BoardWidth))
        else s.(figure := g)
      else s
    case Left =>
      var g := ShiftedLeft(s.figure);
      if Contact(s.field, g) then s.(figure := Restored(g)) else s.(figure := g)
    case Right =>
      var g := ShiftedRight(s.figure, BoardWidth);
      if Contact(s.field, g) then s.(figure := Restored(g)) else s.(figure := g)
    case Down => SoftDrop(s)
    case Restart => Restarted(s, picks.restartFigure, picks.restartNext)
    case Quit => Stopped(s)
    case Other => s
  }

  /** After a left or right key the piece is where the move put it unless the look-ahead
      then reports contact; in that case it goes to the recorded column, which is the
      column at the key press only if the move actually happened, and otherwise the
      column recorded by an earlier move (or the spawn column). */
  lemma HorizontalRollback(s: GameState, key: Key, picks: Picks)
    requires Consistent(s) && (key.Left? || key.Right?)
    ensures var f := s.figure;
            var g := if key.Left? then ShiftedLeft(f) else ShiftedRight(f, BoardWidth);
            var moved := g.posX != f.posX;
            KeyStep(s, key, picks).figure.posX ==
              if !Contact(s.field, g) then g.posX
              else if moved then f.posX
              else f.posXHistory
  {
  }

  /** With a stale recorded column, a left key can move the piece to the right. */
  lemma LeftKeyCanMoveRight(picks: Picks)
    ensures var o := Figure('o', ShapeOf('o'), 18, 0, 1, 18);
            var s := GameState(EmptyField(), o, o, false, true, 1, 0, 0);
            KeyStep(s, Left, picks).figure.posX == 1
  {
    var o := Figure('o', ShapeOf('o'), 18, 0, 1, 18);
    IntersectionCases(EmptyField(), BoardHeight, o.silhouette, o.posY, o.posX);
  }

  /** With a stale recorded column, a right key against the right wall can put the piece
      one column past it, and the merge then writes one cell past the row's end (where
      the source raises IndexError). The state is reachable: a J piece turned upright,
      moved to column 8, moved left to 7 (recording 8), turned flat again, and dropped
      onto the floor. */
  lemma RightKeyCanPushPastWall(picks: Picks)
    ensures var j := Figure('j', Rotate(Rotate(ShapeOf('j'))), 18, 7, 8, 17);
            var s := GameState(EmptyField(), j, j, false, true, 1, 0, 0);
            var t := KeyStep(s, Right, picks);
            t.figure.posX + Width(t.figure.silhouette) == BoardWidth + 1 &&
            MergeOf(t.field, t.figure) == ColumnOverflow
  {
    var sil := Rotate(Rotate(ShapeOf('j')));
    HalfTurn(ShapeOf('j'));
    RectangularWidth(sil);
    assert sil[0][2] == 1;
    var f := Figure('j', sil, 18, 8, 8, 17);
    IntersectionCases(EmptyField(), BoardHeight, sil, 18, 7);
    assert OverflowCell(EmptyField(), sil, 18, 8, 0, 2);
  }

  /** The up key checks only the width of the turned piece, so turning a flat I piece
      on row 18 pushes its bottom to row 22, past the floor; the merge then has nothing
      to return (where the source hands `None` to the renderer). */
  lemma UpKeyCanPushBelowFloor(picks: Picks)
    ensures var i := Figure('i', Rotate(ShapeOf('i')), 18, 4, 4, 17);
            var s := GameState(EmptyField(), i, i, false, true, 1, 0, 0);
            var t := KeyStep(s, Up, picks);
            t.figure.posY + |t.figure.silhouette| == BoardHeight + 2 &&
            MergeOf(t.field, t.figure) == NoFit
  {
    var flat := Rotate(ShapeOf('i'));
    assert |flat| == 1;
    var up := Rotate(flat);
    assert |up| == 4;
    IntersectionCases(EmptyField(), BoardHeight, up, 18, 4);
  }

  /** The up key turns the piece a quarter, and when the turned piece reports contact it
      turns it once more instead of back: the result is the original, or the quarter
      turn, or the half turn. */
  lemma RotationUndoIsHalfTurn(s: GameState, picks: Picks)
    requires Consistent(s)
    ensures var sil := s.figure.silhouette;
            var t := KeyStep(s, Up, picks).figure;
            t.silhouette == sil || t.silhouette == Rotate(sil) || t.silhouette == Rotate(Rotate(sil))
    ensures var f := s.figure;
            var g := Turned(f, BoardWidth);
            f.posY + |f.silhouette| <= BoardHeight - 1 && g.silhouette == Rotate(f.silhouette) &&
            Contact(s.field, g) && g.posY + |g.silhouette| <= BoardHeight - 1 &&
            f.posX + Width(f.silhouette) <= BoardWidth ==>
              KeyStep(s, Up, picks).figure.silhouette == Rotate(Rotate(f.silhouette))
  {
    var f := s.figure;
    var g := Turned(f, BoardWidth);
    if g.silhouette == Rotate(f.silhouette) {
      RectangularWidth(f.silhouette);
      assert |g.silhouette| == Width(f.silhouette);
    }
  }

  /** `next_round(board)`: the next piece becomes the falling one, a new next piece is
      generated, the merged grid is written back and cleared, and ten points are added
      per removed row; the round counter goes up by one. */
  function Settled(s: GameState, merged: Field, pick: Symbol): (t: GameState)
    requires Consistent(s) && Generated(merged)
    ensures Consistent(t) && Generated(t.field)
    ensures t.figure == s.next && t.next == Spawn(pick, StartY, StartX)
    ensures t.field == Cleared(merged).0
    ensures t.score == s.score + CountDone(merged) * BoardWidth && t.round == s.round + 1
    ensures t.gameEnd == s.gameEnd && t.gameRunning == s.gameRunning && t.iterations == s.iterations
  {
    var (cleared, linesRemoved) := Cleared(merged);
    s.(figure := s.next, next := Spawn(pick, StartY, StartX), field := cleared,
       score := s.score + linesRemoved * BoardWidth, round := s.round + 1)
  }

  /** The gravity tick, once `auto_drop` reaches the threshold, given the contact seen
      after the key and the merged copy of the grid. */
  function Tick(s: GameState, contact: bool, merged: Field, pick: Symbol): (t: GameState)
    requires Consistent(s) && Generated(merged)
    ensures Consistent(t)
    // no contact and room below: down exactly one row, nothing else changes
    ensures !contact && s.figure.posY + |s.figure.silhouette| <= BoardHeight - 1 ==>
              t == s.(figure := s.figure.(posY := s.figure.posY + 1, posYHistory := s.figure.posY))
    // contact near the spawn rows: the game is over
    ensures contact && 0 <= s.figure.posY <= 2 ==> t == s.(gameRunning := false, gameEnd := true)
    // otherwise the piece settles
    ensures !(!contact && s.figure.posY + |s.figure.silhouette| <= BoardHeight - 1) &&
            !(contact && 0 <= s.figure.posY <= 2) ==>
              t.figure == s.next && t.next == Spawn(pick, StartY, StartX) &&
              t.field == Cleared(merged).0 && t.round == s.round + 1 &&
              t.score == s.score + CountDone(merged) * BoardWidth + 1 &&
              t.gameEnd == s.gameEnd && t.gameRunning == s.gameRunning && t.iterations == s.iterations
  {
    if !contact && s.figure.posY + |s.figure.silhouette| <= BoardHeight - 1 then
      s.(figure := Dropped(s.figure))
    else if contact && 0 <= s.figure.posY <= 2 then
      Stopped(s)
    else
      var t := Settled(s, merged, pick);
      t.(score := t.score + 1)
  }

  /** The local state of `start_game` between iterations: the game, `auto_drop`,
      `auto_drop_threshold`, and whether the iteration raised (see `Iterate`). */
  datatype Loop = Loop(state: GameState, autoDrop: int, threshold: int, crashed: bool)

  /** The threshold step at the end of each iteration. */
  function NextThreshold(round: int, threshold: int): (r: int)
    ensures r <= threshold && (threshold >= 4 ==> r >= 4)
    ensures r < threshold <==> round % 5 == 0 && threshold >= 5
    ensures r >= threshold - 1
  {
    if round % 5 == 0 && threshold >= 5 then threshold - 1 else threshold
  }

  /** The part of an iteration after the merge: when the counter reaches the threshold,
      count the iteration, run the gravity tick and restart the counter; then the
      threshold step. */
  function Gravity(s: GameState, contact: bool, merged: Field, pick: Symbol,
                   autoDrop: int, threshold: int): (r: Loop)
    requires Consistent(s) && Generated(merged)
    ensures Consistent(r.state) && !r.crashed
    ensures autoDrop != threshold ==> r.state == s && r.autoDrop == autoDrop
    ensures autoDrop == threshold ==>
              r.autoDrop == 0 && r.state == Tick(s.(iterations := s.iterations + 1), contact, merged, pick)
    ensures r.threshold <= threshold && (threshold >= 4 ==> r.threshold >= 4)
    ensures r.threshold < threshold ==> r.threshold == threshold - 1 && r.state.round % 5 == 0
  {
    var t := if autoDrop == threshold then Tick(s.(iterations := s.iterations + 1), contact, merged, pick) else s;
    Loop(t, if autoDrop == threshold then 0 else autoDrop, NextThreshold(t.round, threshold), false)
  }

  /** One iteration of the `start_game` loop, without rendering: count the tick, apply
      the key, take the look-ahead contact and the merged copy, then `Gravity`. When the
      merge returns no grid the source raises (in `merge_map`, or when the renderer is
      handed `None`), and the iteration stops there with `crashed` set. */
  function Iterate(l: Loop, input: Input): (r: Loop)
    requires Consistent(l.state)
    ensures Consistent(r.state)
    ensures var s1 := KeyStep(l.state, input.key, input.picks);
            var m := MergeOf(s1.field, s1.figure);
            (r.crashed <==> !m.Merged?) &&
            (r.crashed ==> r.state == s1 && r.autoDrop == l.autoDrop + 1 && r.threshold == l.threshold) &&
            (!r.crashed && l.autoDrop + 1 != l.threshold ==> r.state == s1 && r.autoDrop == l.autoDrop + 1) &&
            (!r.crashed && l.autoDrop + 1 == l.threshold ==>
               r.autoDrop == 0 &&
               r.state == Tick(s1.(iterations := s1.iterations + 1), Contact(s1.field, s1.figure), m.field, input.picks.spawn))
    ensures !r.crashed ==> r.threshold == NextThreshold(r.state.round, l.threshold)
    ensures r.threshold <= l.threshold && (l.threshold >= 4 ==> r.threshold >= 4)
  {
    var s1 := KeyStep(l.state, input.key, input.picks);
    var board := MergeOf(s1.field, s1.figure);
    if !board.Merged? then Loop(s1, l.autoDrop + 1, l.threshold, true)
    else Gravity(s1, Contact(s1.field, s1.figure), board.field, input.picks.spawn, l.autoDrop + 1, l.threshold)
  }

  /** The `start_game` loop over a script of inputs: it runs while the game is running,
      no iteration has raised, and inputs remain. */
  function Play(l: Loop, inputs: seq<Input>): (r: Loop)
    requires Consistent(l.state)
    ensures Consistent(r.state)
    decreases |inputs|
  {
    if !l.state.gameRunning || l.crashed || inputs == [] then l
    else Play(Iterate(l, inputs[0]), inputs[1..])
  }

  /** The drop threshold never increases and, from 12, never gets below 4. */
  lemma {:induction false} PlayKeepsThreshold(l: Loop, inputs: seq<Input>)
    requires Consistent(l.state) && 4 <= l.threshold
    ensures 4 <= Play(l, inputs).threshold <= l.threshold
    decreases |inputs|
  {
    if l.state.gameRunning && !l.crashed && inputs != [] {
      PlayKeepsThreshold(Iterate(l, inputs[0]), inputs[1..]);
    }
  }

  /** Without a restart key the score and the round counter never go down. */
  lemma {:induction false} PlayKeepsScore(l: Loop, inputs: seq<Input>)
    requires Consistent(l.state)
    requires forall k :: 0 <= k < |inputs| ==> !inputs[k].key.Restart?
    ensures Play(l, inputs).state.score >= l.state.score
    ensures Play(l, inputs).state.round >= l.state.round
    decreases |inputs|
  {
    if l.state.gameRunning && !l.crashed && inputs != [] {
      var next := Iterate(l, inputs[0]);
      assert next.state.score >= l.state.score && next.state.round >= l.state.round;
      PlayKeepsScore(next, inputs[1..]);
    }
  }

  /** An iteration with no key, a piece that merges, and a counter that does not reach
      the threshold changes nothing but the counter and the threshold. */
  lemma QuietIteration(l: Loop, input: Input)
    requires Consistent(l.state) && input.key.Other?
    requires MergeOf(l.state.field, l.state.figure).Merged? && l.autoDrop + 1 != l.threshold
    ensures Iterate(l, input) == Loop(l.state, l.autoDrop + 1, NextThreshold(l.state.round, l.threshold), false)
  {
    assert KeyStep(l.state, input.key, input.picks) == l.state;
  }

  /** The counter and threshold pairs that a round which is a multiple of 5 visits from
      (0, 12) when gravity does not fire: the two move towards each other one step each
      until the threshold reaches its floor 4, and the counter is then already past it.
      `start_game` begins at (0, 12), which is one of them. */
  predicate Stalled(autoDrop: int, threshold: int)
  {
    (0 <= autoDrop <= 8 && threshold == 12 - autoDrop) || (autoDrop >= 8 && threshold == 4)
  }

  /** The threshold step runs on every iteration, not only when gravity fires. In a round
      that is a multiple of 5, with no key, the counter never meets the threshold: the
      iteration leaves the game as it is and the pair stays `Stalled`, so from (0, 12)
      the piece never falls. The `Game` constructor leaves the round at 0, so a
      `start_game` that is not preceded by `run` (which sets the round to 1) stalls. */
  lemma GravityStallsInRoundZero(l: Loop, input: Input)
    requires Consistent(l.state) && l.state.round % 5 == 0 && input.key.Other?
    requires MergeOf(l.state.field, l.state.figure).Merged?
    requires Stalled(l.autoDrop, l.threshold)
    ensures Iterate(l, input).state == l.state && !Iterate(l, input).crashed
    ensures Stalled(Iterate(l, input).autoDrop, Iterate(l, input).threshold)
  {
    QuietIteration(l, input);
  }

  /** Once the game is over or quit, the loop does nothing more. */
  lemma PlayStopsWhenEnded(l: Loop, inputs: seq<Input>)
    requires Consistent(l.state) && !l.state.gameRunning
    ensures Play(l, inputs) == l
  {
  }

  /** On an empty board an O piece at column 4 falls freely from row 0 through row 17
      and reports contact when its bottom reaches the floor (row 18, bottom 20). */
  lemma OPieceFallsToFloor(y: nat)
    requires y <= 18
    ensures Contact(EmptyField(), Figure('o', ShapeOf('o'), y, 4, 4, 0)) <==> y == 18
  {
    EmptyBoardContact(ShapeOf('o'), y, 4);
  }

  /** Settling a piece that completes the one full row of an otherwise empty board
      removes that row and adds 10 + 1 points. */
  lemma SingleLineSettleScore(s: GameState, merged: Field, full: nat, pick: Symbol)
    requires Consistent(s) && Generated(merged) && Contact(s.field, s.figure) && s.figure.posY > 2
    requires full < |merged| && LineDone(merged[full])
    requires forall i :: 0 <= i < |merged| && i != full ==> merged[i] == EmptyRow()
    ensures Tick(s, true, merged, pick).score == s.score + 11
    ensures Tick(s, true, merged, pick).field == EmptyField()
  {
    ClearSingleFullRow(merged, full);
  }

  /** The game object: `board`, `figure` and `nextFigure` are `_board`, `_figure` and
      `_next_figure`; `Repr` collects the objects it owns. */
  class Game {
    var board: Board
    var figure: GameElement
    var nextFigure: GameElement
    var gameEnd: bool
    var gameRunning: bool
    var round: int
    var score: int
    var iterations: int
    ghost var Repr: set<object>

    ghost predicate Valid()
      reads this, Repr
    {
      this in Repr && board in Repr && figure in Repr && nextFigure in Repr &&
      figure != nextFigure && board.Valid() && figure.Valid() && nextFigure.Valid()
    }

    function State(): GameState
      reads this, board, figure, nextFigure
    {
      GameState(board.field, figure.Value(), nextFigure.Value(), gameEnd, gameRunning, round, score, iterations)
    }

    /** `Game.__init__` with the two random choices passed in; the renderer and the
        window are not part of the model. */
    constructor (first: Symbol, second: Symbol)
      ensures Valid() && fresh(Repr)
      ensures State() == GameState([], Spawn(first, StartY, StartX), Spawn(second, StartY, StartX),
                                   false, true, 0, 0, 0)
    {
      board := new Board(20, 10);
      figure := new GameElement.Generate(first, StartY, StartX);
      nextFigure := new GameElement.Generate(second, StartY, StartX);
      gameEnd := false;
      gameRunning := true;
      round := 0;
      score := 0;
      iterations := 0;
      Repr := {this, board, figure, nextFigure};
    }

    method IncrementScore(value: int)
      requires Valid()
      modifies this
      ensures Valid() && Repr == old(Repr)
      ensures State() == old(State()).(score := old(score) + value)
    {
      score := score + value;
    }

    method Quit()
      requires Valid()
      modifies this
      ensures Valid() && Repr == old(Repr)
      ensures State() == Stopped(old(State()))
    {
      gameEnd := true;
      gameRunning := false;
    }

    /** The flags of `game_over`; drawing the final score is not part of the model. */
    method GameOver()
      requires Valid()
      modifies this
      ensures Valid() && Repr == old(Repr)
      ensures State() == Stopped(old(State()))
    {
      gameRunning := false;
      gameEnd := true;
    }

    method RestartRound(first: Symbol, second: Symbol)
      requires Valid()
      modifies this
      ensures Valid() && fresh(Repr - old(Repr))
      ensures State() == Restarted(old(State()), first, second)
    {
      gameRunning := false;
      round := 0;
      score := 0;
      iterations := 0;
      figure := new GameElement.Generate(first, StartY, StartX);
      nextFigure := new GameElement.Generate(second, StartY, StartX);
      Repr := Repr + {figure, nextFigure};
    }

    method MoveDown()
      requires Valid()
      modifies figure
      ensures Valid()
      ensures State() == SoftDrop(old(State()))
    {
      var contactDetected := Contact(board.field, figure.Value());
      if !contactDetected {
        figure.MoveDown(BoardHeight);
      }
    }

    method NextIteration()
      requires Valid()
      modifies figure
      ensures Valid()
      ensures State() == old(State()).(figure := Dropped(old(figure.Value())))
    {
      figure.SetDown();
    }

    method NextRound(merged: Field, pick: Symbol)
      requires Valid() && Generated(board.field) && Generated(merged)
      modifies this, board
      ensures Valid() && fresh(Repr - old(Repr))
      ensures State() == Settled(old(State()), merged, pick)
    {
      figure := nextFigure;
      nextFigure := new GameElement.Generate(pick, StartY, StartX);
      Repr := Repr + {nextFigure};
      var _ := board.UpdateBoard(merged);
      assert board.field == merged;
      var linesRemoved := board.CheckMatches();
      IncrementScore(linesRemoved * BoardWidth);
      round := round + 1;
    }

    /** `_get_keyboard_input(event)`, the random choices of a restart passed in. */
    method HandleKey(event: Key, picks: Picks)
      requires Valid()
      modifies Repr
      ensures Valid() && fresh(Repr - old(Repr))
      ensures State() == KeyStep(old(State()), event, picks)
    {
      match event
      case Up =>
        if figure.posY + figure.Height() <= BoardHeight - 1 {
          figure.Rotate(BoardWidth, BoardHeight);
          if Contact(board.field, figure.Value()) && figure.posY + figure.Height() <= BoardHeight - 1 {
            figure.Rotate(BoardWidth, BoardHeight);
          }
        }
      case Left =>
        figure.MoveLeft();
        if Contact(board.field, figure.Value()) {
          figure.ResetPosition();
        }
      case Right =>
        figure.MoveRight(BoardWidth);
        if Contact(board.field, figure.Value()) {
          figure.ResetPosition();
        }
      case Down =>
        MoveDown();
      case Restart =>
        RestartRound(picks.restartFigure, picks.restartNext);
      case Quit =>
        Quit();
      case Other =>
    }

    /** The gravity tick of a loop iteration (see `Tick`), counting the iteration. */
    method GravityTick(contactDetected: bool, merged: Field, pick: Symbol)
      requires Valid() && Generated(board.field) && Generated(merged)
      modifies this, board, figure
      ensures Valid() && fresh(Repr - old(Repr))
      ensures State() == Tick(old(State()).(iterations := old(iterations) + 1), contactDetected, merged, pick)
    {
      iterations := iterations + 1;
      if !contactDetected && figure.posY + figure.Height() <= BoardHeight - 1 {
        NextIteration();
      } else if contactDetected && 0 <= figure.posY <= 2 {
        GameOver();
      } else {
        NextRound(merged, pick);
        IncrementScore(1);
      }
    }

    /** The gravity part of a loop iteration (see `Gravity`). */
    method ApplyGravity(contactDetected: bool, merged: Field, pick: Symbol, autoDrop: int, autoDropThreshold: int)
      returns (autoDrop': int, autoDropThreshold': int)
      requires Valid() && Generated(board.field) && Generated(merged)
      modifies this, board, figure
      ensures Valid() && fresh(Repr - old(Repr))
      ensures Loop(State(), autoDrop', autoDropThreshold', false) ==
              Gravity(old(State()), contactDetected, merged, pick, autoDrop, autoDropThreshold)
    {
      autoDrop' := autoDrop;
      if autoDrop' == autoDropThreshold {
        autoDrop' := 0;
        GravityTick(contactDetected, merged, pick);
      }
      autoDropThreshold' := autoDropThreshold;
      if round % 5 == 0 && autoDropThreshold' >= 5 {
        autoDropThreshold' := autoDropThreshold' - 1;
      }
    }

    /** One iteration of the `start_game` loop (see `Iterate`). */
    method Iteration(event: Key, picks: Picks, autoDrop: int, autoDropThreshold: int)
      returns (autoDrop': int, autoDropThreshold': int, crashed: bool)
      requires Valid()
      modifies Repr
      ensures Valid() && fresh(Repr - old(Repr))
      ensures Loop(State(), autoDrop', autoDropThreshold', crashed) ==
              Iterate(Loop(old(State()), autoDrop, autoDropThreshold, false), Input(event, picks))
    {
      HandleKey(event, picks);
      var contactDetected := Contact(board.field, figure.Value());
      var board' := board.MergeMap(figure);
      if !board'.Merged? {
        return autoDrop + 1, autoDropThreshold, true;
      }
      assert Generated(board.field) && Generated(board'.field);
      autoDrop', autoDropThreshold' := ApplyGravity(contactDetected, board'.field, picks.spawn, autoDrop + 1, autoDropThreshold);
      crashed := false;
    }

    /** `start_game` over a script of inputs: build the empty grid, start the counter
        at 0 and the threshold at 12, and iterate while the game runs, no iteration has
        raised and inputs remain. */
    method StartGame(inputs: seq<Input>) returns (crashed: bool)
      requires Valid()
      modifies Repr
      ensures Valid() && fresh(Repr - old(Repr))
      ensures var final := Play(Loop(old(State()).(field := EmptyField()), 0, InitialThreshold, false), inputs);
              State() == final.state && crashed == final.crashed
    {
      var _ := board.GenerateBoard();
      var autoDrop, autoDropThreshold := 0, InitialThreshold;
      crashed := false;
      ghost var start := Loop(State(), autoDrop, autoDropThreshold, crashed);
      var i := 0;
      while gameRunning && !crashed && i < |inputs|
        invariant 0 <= i <= |inputs|
        invariant Valid() && fresh(Repr - old(Repr))
        invariant 4 <= autoDropThreshold <= InitialThreshold
        invariant Play(Loop(State(), autoDrop, autoDropThreshold, crashed), inputs[i..]) == Play(start, inputs)
        decreases |inputs| - i
      {
        assert inputs[i..][1..] == inputs[i + 1..];
        autoDrop, autoDropThreshold, crashed := Iteration(inputs[i].key, inputs[i].picks, autoDrop, autoDropThreshold);
        i := i + 1;
      }
    }
  }
}
