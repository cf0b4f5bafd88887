# A verified model of the terminal Tetris engine (`tetris.py`)

The program is a curses Tetris game.

- A falling piece (`GameElement`) carries a 0/1 silhouette and a top-left position.
- It also records the column and row it had before its last horizontal and vertical move.
- The `Board` is always 20 rows by 10 columns. Each cell holds a one-letter piece symbol, and `x` marks an empty cell.
- `Game` holds the rules: the one-row look-ahead collision test, key handling, the gravity tick (drop, settle or game over), line clearing and scoring, and the drop-speed threshold of the `start_game` loop.

The model has five modules, in the program's own structure:

- `Shapes`: the seven silhouettes (the `GAME_ELEMENTS` table), width, filled-cell count (`__len__`) and the clockwise quarter turn of `rotate`.
- `Pieces`: the value `Figure` of a piece and the pure moves it makes. `class GameElement` has the source's fields, and its methods update them in place. Each method is proved to produce exactly the pure move of the old value.
- `Boards`: the grid as `seq<seq<char>>`, with `_line_done`, the line clear (`Cleared`) and `merge_map` as a value (`MergeOf`). `class Board` has `generate_board`, its `update_board` loop, `check_matches` with its insert loop and `merge_map` with its nested loops. Each Board method is proved against those functions.
- `Collision`: `check_if_intersect` and `check_intersection`, which are pure in the source.
- `Games`: the whole game state as a value `GameState` and the rule functions on it: the key step, the gravity tick, settling, the loop iteration (`Iterate`) and the loop (`Play`). `class Game` owns a `Board` and two `GameElement`s. Its methods (`_get_keyboard_input`, `next_round`, `restart_round`, one loop iteration and `start_game` itself) are proved to move `State()` exactly as those functions say.

Board cells are `char` rather than one-letter strings. The random piece choice is passed in as an argument:

- `Picks` in each iteration;
- the symbol arguments of the constructors.

The key read by `getch` is an argument of type `Key`.

Two paths on which the source raises an exception are modelled as outcomes, not excluded by preconditions.

- `merge_map` guards its write with `len(row) >= column`. A filled cell exactly one column past the end of a row therefore raises `IndexError`; the model's outcome is `ColumnOverflow`. A cell further right is skipped.
- When the piece reaches below the grid, `merge_map` returns `None`. `draw_board(None)` then raises `TypeError`; the model's outcome is `NoFit`.

An iteration that meets either outcome stops the loop with `crashed` set. Both can be reached in play:

- `Games.RightKeyCanPushPastWall` reaches the overflow through a stale `pos_x_history`.
- `Games.UpKeyCanPushBelowFloor` reaches `None`: the up key checks only the turned width, so a flat I piece on row 18 turned upright reaches row 22.

For this reason the model does not assume `pos_x + width <= 10` before a merge.

## Model

| member | source | states |
|---|---|---|
| Shapes.ShapeOf | tetris.py:12-20 | each of the seven silhouettes is a non-empty rectangular 0/1 matrix with exactly four filled cells |
| Shapes.Width | tetris.py:94-95 | the width is the length of the longest row: no row is longer and some row has that length |
| Shapes.RectangularWidth | tetris.py:94-95 | for a rectangular silhouette the width is the length of every row |
| Shapes.Turn | tetris.py:85-86 | `zip(*s[::-1])` of an h-by-w matrix has w rows of length h |
| Shapes.Rotate | tetris.py:84-87 | the quarter turn swaps height and width and cell (i, j) of the result is cell (h-1-j, i) of the original |
| Shapes.RotateBinary | tetris.py:85-86 | a quarter turn keeps every cell 0 or 1 |
| Shapes.TurnCount | tetris.py:85-86 | the turned matrix has the same filled-cell sum |
| Shapes.RotatePreservesCount | tetris.py:84-86 | a quarter turn keeps `__len__` (the filled-cell count, modelled by `Shapes.CellCount`) |
| Shapes.HalfTurn | tetris.py:84-86 | two quarter turns read the matrix backwards in both directions (a 180 degree turn) |
| Shapes.FourTurns | tetris.py:84-86 | four quarter turns give back the original matrix |
| Shapes.HalfTurnFixesSymmetric | tetris.py:84-86 | a half turn leaves a point-symmetric matrix unchanged |
| Shapes.HalfTurnFixesOnlySymmetric | tetris.py:84-86 | conversely, a matrix that a half turn leaves unchanged is point-symmetric |
| Shapes.HalfTurnRestoresSymmetricShapes | tetris.py:13-19 | the second turn of the up key's "undo" restores the I, O, S and Z silhouettes |
| Shapes.HalfTurnMovesAsymmetricShapes | tetris.py:14-18 | the same second turn leaves J, L and T upside down, so the undo is not an undo |
| Pieces.Spawn | tetris.py:47-59 | a new piece has the table's silhouette at the given position, four filled cells, and records its spawn column |
| Pieces.ShiftedRight | tetris.py:62-65 | moves one column right exactly when `pos_x + width <= board_width - 1`, after which the piece ends inside the board and records the old column; otherwise nothing changes |
| Pieces.ShiftedLeft | tetris.py:67-70 | moves one column left exactly when `pos_x > 0` (so never to a negative column) and records the old column; otherwise nothing changes |
| Pieces.Lowered | tetris.py:72-75 | moves one row down exactly when the bottom is at most `board_hight - 1`, so the bottom stays within the board; records the old row |
| Pieces.Dropped | tetris.py:77-79 | moves exactly one row down unconditionally and records the old row |
| Pieces.Restored | tetris.py:81-82 | the column becomes the recorded column, and nothing else changes |
| Pieces.Turned | tetris.py:84-89 | accepts the quarter turn exactly when the turned width fits (`pos_x + new_width <= board_width`), otherwise leaves the piece unchanged; area and `__len__` are kept either way |
| Pieces.LeftThenRight | tetris.py:62-70 | away from the walls a left then a right move returns to the original column, with the recorded column one to the left |
| Pieces.FourRotations | tetris.py:84-89 | four accepted rotations give back the original piece |
| Pieces.GameElement.constructor | tetris.py:47-53 | the fields hold the arguments and both recorded positions equal the start position |
| Pieces.GameElement.Generate | tetris.py:55-59 | `generate_figure` produces `Spawn` of the chosen symbol |
| Pieces.GameElement.MoveRight | tetris.py:62-65 | the object's new value is `ShiftedRight` of its old value |
| Pieces.GameElement.MoveLeft | tetris.py:67-70 | the object's new value is `ShiftedLeft` of its old value |
| Pieces.GameElement.MoveDown | tetris.py:72-75 | the object's new value is `Lowered` of its old value |
| Pieces.GameElement.SetDown | tetris.py:77-79 | the object's new value is `Dropped` of its old value |
| Pieces.GameElement.ResetPosition | tetris.py:81-82 | the object's new value is `Restored` of its old value |
| Pieces.GameElement.Rotate | tetris.py:84-89 | the object's new value is `Turned` of its old value; the height argument is ignored |
| Boards.EmptyRow | tetris.py:109 | a row of 10 empty cells |
| Boards.EmptyRows | tetris.py:118-119 | k rows, each an empty row |
| Boards.EmptyField | tetris.py:108-110 | the generated grid is 20 rows of 10 cells, every cell empty |
| Boards.LineDone | tetris.py:112-113 | a row is complete exactly when none of its cells is empty |
| Boards.CountDone | tetris.py:116-117 | the number of complete rows is at most the number of rows |
| Boards.Incomplete | tetris.py:116 | the filter keeps as many rows as are not complete, none of them complete, all taken from the grid |
| Boards.KeptMatches | tetris.py:116 | the kept rows are exactly the grid's rows at the kept positions |
| Boards.KeptIncreasing | tetris.py:116 | the kept positions are strictly increasing, so the original order is kept |
| Boards.KeptComplete | tetris.py:116 | every incomplete row's position is kept |
| Boards.NoneDone | tetris.py:112-117 | the complete-row count is 0 exactly when no row is complete |
| Boards.NothingToFilter | tetris.py:116 | with no complete row the filter keeps the grid as it is |
| Boards.Cleared | tetris.py:115-121 | the clear returns the number of complete rows and a grid of 20 rows of 10 cells |
| Boards.ClearedShape | tetris.py:115-121 | after the clear the first k rows are empty, followed by the incomplete rows in their original order, and no row is complete |
| Boards.ClearIdempotent | tetris.py:115-121 | clearing a cleared grid changes nothing and removes 0 rows |
| Boards.ClearWithoutCompleteRows | tetris.py:115-121 | with no complete row the grid is unchanged and the result is 0 |
| Boards.ClearSingleFullRow | tetris.py:115-121 | one full row on an otherwise empty grid gives back the empty grid and 1 |
| Boards.OneDone | tetris.py:116-117 | exactly one complete row counts as one |
| Boards.MergeOf | tetris.py:123-133 | `None` exactly when the piece reaches below the grid; the IndexError exactly when it fits and a filled cell falls one column past its row's end; and otherwise a copy of the same shape in which every filled cell inside its row holds the symbol and every other cell is unchanged |
| Boards.MergeInsideBoard | tetris.py:123-133 | a placed piece inside the bottom and right edges of a generated grid always merges, into a generated grid |
| Boards.Board.constructor | tetris.py:103-106 | the arguments are ignored and the grid starts as the empty list |
| Boards.Board.GenerateBoard | tetris.py:108-110 | the grid becomes the empty 20-by-10 grid, which is also returned |
| Boards.Board.UpdateBoard | tetris.py:135-138 | the first rows are overwritten by the given rows and the remaining rows are kept |
| Boards.Board.CheckMatches | tetris.py:115-121 | the grid becomes `Cleared` of the old grid and the returned count is the number of complete rows |
| Boards.Board.MergeMap | tetris.py:123-133 | the nested loops over a copy compute `MergeOf` of the grid and the piece, and the grid is not changed |
| Collision.CheckIfIntersect | tetris.py:214-220 | a board cell and a silhouette cell collide exactly when the board cell is settled and the silhouette cell is 1 |
| Collision.Slice | tetris.py:237 | Python's clamped slice `row[from:to]` for `0 <= from <= to`, the only bounds the look-ahead passes: its length and its cells |
| Collision.PairHits | tetris.py:238-241 | `any` over the zipped pairs holds exactly when some position within both lists collides |
| Collision.SliceHits | tetris.py:235-239 | one compared row collides exactly when a filled shape cell lies above a settled cell of the board row, counted from `pos_x` |
| Collision.RowsHitSpec | tetris.py:232-241 | `Collision.RowsHit`, the loop over the reversed rows, finds a collision exactly when some filled cell (r, c) has a settled board cell at (pos_y + r + 1, pos_x + c), the row directly beneath it |
| Collision.IntersectionCases | tetris.py:227-242 | the three cases of `Collision.CheckIntersection`, the model of `check_intersection`: always contact when the bottom is on the floor; on a generated board with the bottom above the last row, contact exactly when some filled cell lies directly above a settled cell; otherwise never |
| Collision.EmptyBoardContact | tetris.py:227-242 | on an empty grid only the floor is contact |
| Games.Restarted | tetris.py:269-275 | `restart_round` resets round, score and iterations to 0, stops the loop, and replaces both pieces by new spawns; grid and end flag are kept |
| Games.Stopped | tetris.py:265-267 | `quit` and `game_over` set the end flag, clear the running flag, and change nothing else |
| Games.SoftDrop | tetris.py:222-225 | `Game.move_down` lowers the piece only when there is no contact (`Games.Contact`, the game's call of `check_intersection` on its own board), otherwise changes nothing |
| Games.KeyStep | tetris.py:244-263 | every key keeps the grid well formed and both pieces placed; keys other than `r` keep the grid, next piece and counters, and keep the symbol and filled-cell count of the piece; the arrows left and right never change the silhouette or the row; an unknown key changes nothing |
| Games.HorizontalRollback | tetris.py:250-257 | after left or right the column is where the move put it, or on contact the recorded column, which is the column at the key press only if the move happened and otherwise an older recorded column |
| Games.LeftKeyCanMoveRight | tetris.py:250-253 | a piece at column 0 on the floor, with recorded column 1, is moved right by the left key |
| Games.RightKeyCanPushPastWall | tetris.py:254-257 | a flat J piece against the right wall on the floor, whose recorded column is one further right, is pushed one column past the wall by the right key, and the merge then raises IndexError |
| Games.UpKeyCanPushBelowFloor | tetris.py:245-249 | a flat I piece on row 18 turned by the up key reaches row 22, and the merge returns `None` |
| Games.RotationUndoIsHalfTurn | tetris.py:245-249 | the up key leaves the silhouette unturned, turned a quarter, or turned a half; when the first turn is accepted, reports contact and the second turn fits, the result is the half turn |
| Games.Settled | tetris.py:283-289 | `next_round`: the next piece falls, a new next piece spawns, the grid becomes the cleared merged grid, the score rises by 10 per removed row and the round by 1 |
| Games.Tick | tetris.py:309-318 | the three gravity outcomes: no contact and room below drops the piece exactly one row; contact with `pos_y` in 0..2 ends the game; otherwise the piece settles and the score rises by `lines_removed * 10 + 1` and the round by 1 |
| Games.NextThreshold | tetris.py:319-320 | the threshold goes down by one exactly when the round is a multiple of 5 and it is at least 5, so it never increases and never goes from 4 or more to below 4 |
| Games.Gravity | tetris.py:309-320 | below the threshold the iteration keeps the state and the counter; at the threshold the counter restarts, the iteration is counted and `Tick` runs; the threshold then takes its step |
| Games.Iterate | tetris.py:299-320 | one loop iteration crashes exactly when the merge after the key step does not return a grid; otherwise below the threshold only the key acts, and at the threshold the counter restarts and `Tick` runs on the keyed state; the threshold takes its step every iteration |
| Games.Play | tetris.py:299-320 | the loop keeps the grid well formed and both pieces placed |
| Games.PlayKeepsThreshold | tetris.py:298 | from 12 the loop's threshold never increases and never drops below 4 |
| Games.PlayKeepsScore | tetris.py:283-289 | without the `r` key the score and the round never go down |
| Games.QuietIteration | tetris.py:299-320 | with no key, a merging piece and the counter short of the threshold, an iteration changes only the counter and the threshold |
| Games.GravityStallsInRoundZero | tetris.py:309-320 | in a round that is a multiple of 5, with no key pressed, from counter 0 and threshold 12, the threshold step overtakes the counter without meeting it, so gravity never fires |
| Games.PlayStopsWhenEnded | tetris.py:299 | once the running flag is off the loop does nothing |
| Games.OPieceFallsToFloor | tetris.py:227-231 | an O piece at column 4 on an empty grid reports `Games.Contact` at rows 0 to 18 exactly at row 18 |
| Games.SingleLineSettleScore | tetris.py:283-289 | settling onto a grid whose only filled row is complete empties the grid and adds 11 points |
| Games.Game.constructor | tetris.py:197-209 | the game starts with an empty board list, two spawned pieces at (0, 4), running, not ended, round, score and iterations 0 |
| Games.Game.IncrementScore | tetris.py:211-212 | the score rises by the value and nothing else changes |
| Games.Game.Quit | tetris.py:265-267 | the new state is `Stopped` of the old one |
| Games.Game.GameOver | tetris.py:278-281 | the new state is `Stopped` of the old one |
| Games.Game.RestartRound | tetris.py:269-275 | the new state is `Restarted` of the old one with fresh piece objects |
| Games.Game.MoveDown | tetris.py:222-225 | the new state is `SoftDrop` of the old one |
| Games.Game.NextIteration | tetris.py:291-292 | only the piece changes, to `Dropped` of its old value |
| Games.Game.NextRound | tetris.py:283-289 | the new state is `Settled` of the old one |
| Games.Game.HandleKey | tetris.py:244-263 | the new state is `KeyStep` of the old one |
| Games.Game.GravityTick | tetris.py:311-318 | the new state is `Tick` of the old one with the iteration counted |
| Games.Game.ApplyGravity | tetris.py:309-320 | the new state, counter and threshold are `Gravity` of the old ones |
| Games.Game.Iteration | tetris.py:300-320 | the new state, counter and threshold, and whether the iteration raised, are `Iterate` of the old ones |
| Games.Game.StartGame | tetris.py:294-320 | after generating the empty grid and starting the counter at 0 and the threshold at 12, the loop ends in the state `Play` predicts and reports whether an iteration raised |

## Left out

- The `Render` class, the colour tables and all curses setup in `main` and `__main__` are left out. They are terminal drawing; `game_over`'s drawing and five-second pause are left out with them.
- `window.getch()` and the 100 ms timeout become the `Key` argument of each iteration. `Other` stands for any key that is not an arrow, `r` or `q`, including the no-key value.
- The choice in `generate_figure` becomes an explicit symbol argument. There is no model of randomness.
- The `board != prev_board` redraw test is left out; only rendering depends on it. The model keeps the one effect that the rendering has on the state: `draw_board(None)` raises.
- The outer `run` loop is left out. It sets running, score 0, round 1 and iterations 0, and calls `start_game` again after a restart; `Games.GravityStallsInRoundZero` shows why its round 1 matters.
- `StartGame` runs over a finite script of inputs. It also stops when the script runs out, where the source would go on iterating with no-key input.
- An iteration that raises stops the model's loop with `crashed` set. What follows the exception (unwinding through `run`, restoring the terminal) is not modelled.
- Boards.Board.UpdateBoard: requires the new grid to have no more rows than the old one, and rows of width 10. With more rows the source raises IndexError, which the model does not represent. Every caller passes a 20-row grid of 10-cell rows.
- Games.Game.NextRound: requires the board to be generated and the merged grid to have 20 rows of 10 cells. The only caller passes the merge of the generated 20×10 grid, so the requires always holds there; with more rows than `_field` (including a `_field` that is still `[]`) the source's `update_board` would raise IndexError.
- `pos_y_history` is recorded by `move_down` and `set_down`, as in the source, but nothing reads it.
- `GameElement.height`, `width` and `__len__` are the functions `Height`, `Width` and `Len`. Their properties are stated on `Shapes.Width`, `Shapes.RectangularWidth` and `Shapes.RotatePreservesCount`.
- Board cells are `char`s instead of one-letter strings; `'x'` is the empty cell.
- The model only handles rectangular 0/1 silhouettes (`Rectangular`, `Placed`). Every silhouette of the table is one, and rotation keeps that shape.
