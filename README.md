# Kuba rules engine in Dafny

This project models `KubaGame.py`, the rules engine of Kuba, a two-player game in which
marbles are pushed on a 7×7 board. A `KubaGame` object holds:

- the board of white (`W`), black (`B`) and red (`R`) marbles and empty cells (`X`);
- the name of the player to move (`""` before the first move);
- the board as it was before the last committed move, for the Ko rule;
- a count of the red marbles each player has captured;
- the winner;
- a table from player names to colours.

`make_move` checks its guards in order: game over, wrong turn, off-board cell, and
`is_valid_move`, which runs the opening test, `row_col_full` and the own-marble test. It then
pushes the line from the chosen cell to the edge on a scratch copy of the board and credits a
red capture that the push loop meets at the edge. Next it refuses a board equal to the prior
snapshot (the Ko rule). Otherwise it commits the new board, declares the mover the winner at
seven captures, and passes the turn on.

The project has four modules.

- `Board` (`board.dfy`) holds the cells, the board, its starting layout and the marble
  multiset of a board. It also holds the geometry of a push line: `Line` gives the cells from
  the chosen cell to the edge, and `Edge` gives the edge cell.
- `Push` (`push.dfy`) defines the push as a pure one-dimensional shift, `Shift`, which is
  written back onto the board as `PushResult`. `CaptureCredited` says when the loop credits a
  capture. The source has one loop per direction (KubaGame.py:102-155); `SimulatePush` folds
  the four into a single loop that steps by a direction vector, and it is proved to compute
  both. The frame, conservation and capture lemmas of the push are in this module too.
- `Rules` (`rules.dfy`) states the game as a value `State`. `ValidMove` is what
  `is_valid_move` answers, and `Move` is the whole effect of one `make_move` call: the answer
  and the new state. The lemmas about guards, the Ko rule, turns, captures, the win and
  marble conservation are stated about `Move`.
- `Game` (`game.dfy`) is the class `KubaGame`, whose fields are the source's fields. It has:
  - the getters and setters;
  - the loops of `get_marble_count`, `row_col_full` and `is_valid_move`;
  - `MakeMove`, which updates the fields in place.

  Each method is proved against the functions of `Rules`. For example, `MakeMove` ensures
  `(ok, Abstract()) == Move(old(Abstract()), …)`.

The behaviour of the code is kept as written, including these quirks.

- The opening test for a push to the right or backward looks at the neighbour only when its
  index is above 0 (`OpeningBlocked`).
- `row_col_full` answers yes only for a row or column with no marble at all (`LineVacant`).
  A direction other than `L`, `R`, `F` and `B` is refused only through that answer.
- Nothing checks that the chosen cell holds the mover's marble. Moving an empty cell leaves
  the board as it was but still hands the turn over. It can even earn a capture: when the chosen
  empty cell is one step from an edge cell holding a red marble, the loop reaches the edge and
  credits it (`EmptyCellMoveIsPass`, `EmptyCellCapture`).
- The capture test runs before the loop's stop test. A red marble at the edge is therefore
  credited whenever the loop reaches the edge, even when it stays on the board
  (`CaptureCredited`, `PhantomCapture`).
- The capture is counted before the Ko test. A move refused by the Ko rule keeps the capture
  it was credited (`RejectionAtomic`, `KoRejects`).
- A player named `""` hands over an empty turn, so turns stop alternating
  (`EmptyNameOpensTurn`).

The written rules of Kuba differ from the code in four places, and the model follows the
code each time:

- A rejected move does leave a capture behind on the Ko path.
- A full row is not what `row_col_full` refuses; an empty one is.
- Ownership of the chosen marble is never checked.
- A red marble can be credited without leaving the board.

## Model

| member | source | states |
|---|---|---|
| Board.InitialBoard | KubaGame.py:24-30 | the starting layout is a 7×7 board of cells |
| Board.InitialCounts | KubaGame.py:24-30 | the starting layout holds 8 white, 8 black and 13 red marbles and 20 empty cells |
| Board.CountsSum | KubaGame.py:298-312 | on a board of 7-cell rows the white, black, red and empty counts add up to all of its cells |
| Board.LineAt | KubaGame.py:100-155 | cell j of the push line is the board cell j steps from the chosen cell along the direction, and it lies on the board |
| Board.Edge | KubaGame.py:228-249 | the edge cell the own-marble test reads (`[row][0]`, `[row][6]`, `[0][col]`, `[6][col]`) is the last cell of the push line |
| Push.Carry | KubaGame.py:102-155 | carrying a marble into the rest of the line keeps its length (cell by cell in `CarryAt`) |
| Push.Shift | KubaGame.py:102-155 | the pushed line has the line's length and an empty first cell, the chosen cell's marble having been carried on (cell by cell in `ShiftAt`) |
| Push.ShiftAt | KubaGame.py:102-155 | cell j of the pushed line: the chosen cell becomes empty; a later cell takes the previous cell's content while no empty cell lies before it, and keeps its own once one has |
| Push.ShiftTail | KubaGame.py:110-111 | once an empty cell has stopped the push, every later cell of the line keeps its content |
| Push.ShiftMultiset | KubaGame.py:93-155 | the pushed line has the same marbles as the line when it holds an empty cell; otherwise it has lost the edge marble and gained one empty cell |
| Push.PushResult | KubaGame.py:93-155 | the board after the push is again a 7×7 board (cell by cell in `PushFrame`) |
| Push.CaptureCredited | KubaGame.py:103-151 | a credit needs a red marble in the edge cell; when the line has no empty cell, the credit is given exactly when the edge cell is red |
| Push.PushFrame | KubaGame.py:93-155 | the push changes only cells of the line from the chosen cell to the edge: the chosen cell becomes empty, each later cell takes its predecessor's marble until an empty cell stops the push, and every cell off the line is unchanged |
| Push.PushConservation | KubaGame.py:93-155 | the board's cells are unchanged as a multiset when the line holds an empty cell; otherwise exactly the edge marble is traded for an empty cell, so the number of empty cells grows by 0 or 1 |
| Push.CaptureRemovesRed | KubaGame.py:103-109 | when a capture is credited and the line has no empty cell, the board has one red marble fewer |
| Push.EmptyOriginIsPass | KubaGame.py:93-155 | pushing an empty cell leaves the board unchanged |
| Push.EmptyCellCapture | KubaGame.py:102-115 | on the row R X X X X X X, moving the empty cell (0, 1) left credits a capture and leaves the board unchanged |
| Push.PhantomCapture | KubaGame.py:102-115 | on the row R X W X X X X, pushing the white marble left credits a capture although the red marble stays at column 0 |
| Push.SimulatePush | KubaGame.py:93-155 | the step-vector loop with its `prev`/`temp` swaps and early break produces exactly the pushed board, and it credits a capture exactly when the loop reaches the edge holding a red marble |
| Rules.ColorOf | KubaGame.py:40 | playerA's name gets playerA's colour; any other name gets playerB's colour |
| Rules.NextTurn | KubaGame.py:173-177 | after playerA it is playerB's turn; after anyone else it is playerA's |
| Rules.CapturedAfter | KubaGame.py:103-149 | the same two players stay in the capture table; the mover's count rises by one exactly when the push loop credits a capture; every other count is unchanged |
| Rules.InitialState | KubaGame.py:14-40 | a new game has a capture count of zero for exactly the two names, and is well formed when the names differ |
| Rules.OpeningBlocked | KubaGame.py:200-207 | the opening test blocks exactly when the neighbour one step back against the push is on the board and occupied, except that for a push right or backward the neighbour in column or row 0 is never looked at; an unknown direction is never blocked |
| Rules.LineVacant | KubaGame.py:355-370 | an unknown direction always counts as a vacant line; a line through an occupied chosen cell is never vacant |
| Rules.PushesOwnMarble | KubaGame.py:213-250 | the own-marble test fires only for a known direction, an occupied chosen cell and an edge cell of the mover's colour |
| Rules.OwnMarbleLost | KubaGame.py:213-250 | a push the own-marble test refuses would cost the mover one marble of their colour |
| Rules.ValidMove | KubaGame.py:181-250 | no move in an unknown direction is valid |
| Rules.Admitted | KubaGame.py:75-90 | a move passes the guards only with no winner, a cell on the board and a known direction |
| Rules.Move | KubaGame.py:61-179 | every call leaves a well-formed game (a 7×7 board, a 7×7 or empty prior board, counts for exactly the two players) with the same players |
| Rules.InitialStateFacts | KubaGame.py:14-40 | a new game has the counts (8, 8, 13), 20 empty cells, no turn, no winner, no prior board and zero captures for both players |
| Rules.MoveAccepted | KubaGame.py:61-179 | `make_move` answers True exactly when there is no winner, it is the player's turn or no turn is set, the cell is on the board, the move is valid, and the pushed board differs from the prior snapshot |
| Rules.GameOverLocks | KubaGame.py:75-77 | once a winner is set, every move is refused and nothing changes |
| Rules.TurnGuard | KubaGame.py:79-82 | once a turn is set, a move by the other player is refused and nothing changes |
| Rules.OutOfBoundsRejected | KubaGame.py:84-86 | a cell off the board is refused and nothing changes |
| Rules.UnknownDirectionRejected | KubaGame.py:355-370 | a direction other than the four is refused, and nothing changes |
| Rules.Refused | KubaGame.py:75-90 | a move stopped by any guard before the push is refused and changes nothing |
| Rules.RejectionAtomic | KubaGame.py:85-161 | a refused move changes nothing but the capture counts, and those only when every guard passed and the pushed board equals the prior snapshot |
| Rules.KoRejects | KubaGame.py:157-161 | a push back into the prior snapshot is refused even when every guard passes; only the capture the loop credited remains |
| Rules.KoRule | KubaGame.py:157-167 | a committed move never produces the prior snapshot; afterwards the prior snapshot is the board before the move and the board is the pushed one |
| Rules.PlayOutcome | KubaGame.py:93-179 | the steps after the guards, taken one at a time (push, credit, Ko test, commit), end in the same answer and state as `Move` |
| Rules.TurnAfterCommit | KubaGame.py:173-177 | a committed move passes the turn to playerB after playerA and to playerA otherwise |
| Rules.StrictAlternation | KubaGame.py:79-82 | with non-empty names, no player commits two moves in a row |
| Rules.EmptyNameOpensTurn | KubaGame.py:173-177 | when playerA's name is empty, a move by playerB leaves the turn unset, so anyone may move next |
| Rules.CaptureBound | KubaGame.py:103-149 | a move raises only the mover's capture count, by at most one, and only when the edge cell of the line held a red marble; the opponent's count is unchanged |
| Rules.WinThreshold | KubaGame.py:169-171 | a committed move sets the winner to the mover exactly when the mover has seven or more captures, and to none otherwise; a refused move leaves the winner alone |
| Rules.MoveConservesMarbles | KubaGame.py:93-155 | a committed move adds an empty cell only when the line has none, and otherwise keeps their number; the mover never loses a marble of their own colour |
| Rules.EmptyCellMoveIsPass | KubaGame.py:93-177 | an admitted move of an empty cell leaves the board as it was and passes the turn, unless the board equals the prior snapshot; the capture counts still change as the push loop credits |
| Rules.OpeningSkipsIndexZero | KubaGame.py:200-202 | on the starting board (0, 1) may be pushed right although (0, 0) is occupied, while (0, 5) may not be pushed left because (0, 6) is occupied |
| Rules.FirstMoveScenario | KubaGame.py:377 | from the start, white's push of (6, 5) forward commits, moves column 5's two white marbles up one cell, keeps the counts (8, 8, 13), captures nothing and hands the turn to PlayerB |
| Game.KubaGame.constructor | KubaGame.py:14-40 | a new object is a well-formed game equal to the initial state |
| Game.KubaGame.ColorTable | KubaGame.py:40 | the colour table gives each registered name that player's colour |
| Game.KubaGame.GetCurrentTurn | KubaGame.py:42-51 | none exactly while the stored turn is empty, the stored name otherwise |
| Game.KubaGame.SetCurrentTurn | KubaGame.py:53-59 | only the turn changes, and the game stays well formed |
| Game.KubaGame.GetWinner | KubaGame.py:252-259 | the game's winner |
| Game.KubaGame.SetWinner | KubaGame.py:261-267 | only the winner changes, to the given name |
| Game.KubaGame.GetCaptured | KubaGame.py:269-276 | the given player's capture count |
| Game.KubaGame.IncrementCaptured | KubaGame.py:323-331 | only the given player's capture count changes, by one |
| Game.KubaGame.GetMarble | KubaGame.py:278-288 | the content of the given board cell |
| Game.KubaGame.GetGameBoard | KubaGame.py:314-321 | the current board |
| Game.KubaGame.GetMarbleCount | KubaGame.py:290-312 | the nested loops return the numbers of white, black and red marbles on the board |
| Game.KubaGame.RowColFull | KubaGame.py:340-370 | the counting loop answers yes exactly when the row (sideways push) or column (forward or backward push) holds no marble, and always for another direction |
| Game.KubaGame.SpaceOnLine | KubaGame.py:218-248 | the walk from the chosen cell to the edge reports whether the line holds an empty cell |
| Game.KubaGame.IsValidMove | KubaGame.py:181-250 | the answer is `ValidMove`: not blocked by the opening test, not a vacant line, and not a push of the mover's own marble off the edge without an empty cell on the way |
| Game.KubaGame.CreditCapture | KubaGame.py:103-149 | the mover's count rises by one exactly when the push loop credited a capture, and nothing else changes |
| Game.KubaGame.Commit | KubaGame.py:163-177 | the old board becomes the prior one and the pushed board the current one; the mover wins at seven captures; the turn passes; nothing else changes |
| Game.KubaGame.PlayAdmitted | KubaGame.py:93-179 | after the guards, the push, capture credit, Ko test and commit give the answer and new state of `Move` |
| Game.KubaGame.MakeMove | KubaGame.py:61-179 | the answer and the new fields are exactly those of `Move` applied to the fields before the call, and the game stays well formed |

## Left out

- `display_board` (KubaGame.py:333-338) and the `print("Moving RIGHT!")` line (KubaGame.py:117) only write to the console.
- `main` (KubaGame.py:373-438) is a scripted demonstration. Only its first move is replayed, by `Rules.FirstMoveScenario`.
- Game.KubaGame.GetCaptured: requires a registered player name. An unregistered name raises `KeyError` in the source (KubaGame.py:276).
- Game.KubaGame.IncrementCaptured: requires a registered player name. An unregistered name raises `KeyError` in the source (KubaGame.py:331).
- Game.KubaGame.IsValidMove: requires a registered player name. An unregistered name raises `KeyError` in the source (KubaGame.py:215) once the opening and `row_col_full` tests pass.
- Game.KubaGame.MakeMove: requires a registered player name. An unregistered name raises `KeyError` (KubaGame.py:215) only after the winner guard, the bounds test, the opening test and `row_col_full` have passed; this precondition also excludes the calls by an unregistered name that end earlier with False (KubaGame.py:76-77, 85-86, 200-207, 210-211), including those in an unknown direction.
- Game.KubaGame.GetMarble: requires a cell on the board. Python's negative-index wrap-around and the `IndexError` for other indices are not modelled.
- Game.KubaGame.IsValidMove: returns a `bool`. The source returns `None` for a valid move and `make_move` only tests `is False`, so the observable answer is the same.
- Game.KubaGame.GetGameBoard: returns the board as a value. The caller of the source gets the live list and could change the game through it; that aliasing is not modelled.
- Game.KubaGame.constructor: requires two distinct names. The source's dictionaries would merge two equal names into one entry.
- Game.KubaGame.constructor: a player's colour is one of the cell values. The source accepts any string as a colour.
- Game.KubaGame.PlayAdmitted: the source increments the capture count inside the push loop. Here the loop returns a flag and the count is raised right after it, still before the Ko test, so the observable order is the same.
- The board is a value `seq<seq<Cell>>` that the fields are assigned to. The source's deep copies (KubaGame.py:93, 164, 167) become plain value assignments, because values cannot alias.
- Direction strings other than `L`, `R`, `F` and `B` are all one value, `Other`, since the source treats every such string the same way.
