/** The `KubaGame` object: the fields the game updates in place, its getters and setters, the
    loop-based checks and counts over the board, and `make_move`, each proved against the pure
    rules of module Rules. */
module Game {
  import opened Board
  import opened Push
  import opened Rules

  class KubaGame {
    const playerA: Player
    const playerB: Player
    const playerColor: map<string, Cell>
    var gameBoard: seq<seq<Cell>>
    var currentTurn: string
    var priorBoardState: seq<seq<Cell>>
    var marblesCaptured: map<string, nat>
    var winner: Option<string>

    /** The game as a value of the rules' state type. */
    function Abstract(): State
      reads this
    {
      State(playerA, playerB, gameBoard, currentTurn, priorBoardState, marblesCaptured, winner)
    }

    /** The object is a well-formed game whose colour table is the one built from the players. */
    ghost predicate Valid()
      reads this
    {
      WellFormed(Abstract()) &&
      playerColor == map[playerA.name := playerA.color, playerB.name := playerB.color]
    }

    /** The colour table agrees with the players' colours. */
    lemma ColorTable(name: string)
      requires Valid() && IsPlayer(Abstract(), name)
      ensures name in playerColor && playerColor[name] == ColorOf(Abstract(), name)
    {
    }

    constructor (a: Player, b: Player)
      requires a.name != b.name
      ensures Valid() && Abstract() == InitialState(a, b)
    {
      playerA := a;
      playerB := b;
      gameBoard := InitialBoard();
      currentTurn := "";
      priorBoardState := [];
      marblesCaptured := map[a.name := 0, b.name := 0];
      winner := None;
      playerColor := map[a.name := a.color, b.name := b.color];
    }

    /** `get_current_turn`: no one before the first move, the stored name afterwards. */
    function GetCurrentTurn(): (t: Option<string>)
      reads this
      ensures t.None? <==> currentTurn == ""
      ensures t.Some? ==> t.value == currentTurn
    {
      if currentTurn == "" then None else Some(currentTurn)
    }

    /** `set_current_turn`: stores any name as the player to move; nothing else changes. */
    method SetCurrentTurn(name: string)
      requires Valid()
      modifies this
      ensures Valid() && Abstract() == old(Abstract()).(turn := name)
    {
      currentTurn := name;
    }

    /** `get_winner`. */
    function GetWinner(): (w: Option<string>)
      reads this
      ensures w == Abstract().winner
    {
      winner
    }

    /** `set_winner`: records the name as the winner; nothing else changes. */
    method SetWinner(name: string)
      requires Valid()
      modifies this
      ensures Valid() && Abstract() == old(Abstract()).(winner := Some(name))
    {
      winner := Some(name);
    }

    /** `get_captured`: the red marbles a registered player has captured. */
    function GetCaptured(name: string): (n: nat)
      reads this
      requires Valid() && IsPlayer(Abstract(), name)
      ensures n == Abstract().captured[name]
    {
      marblesCaptured[name]
    }

    /** `increment_captured`: one more red marble for a registered player; nothing else
        changes. */
    method IncrementCaptured(name: string)
      requires Valid() && IsPlayer(Abstract(), name)
      modifies this
      ensures Valid()
      ensures Abstract() == old(Abstract()).(captured := old(marblesCaptured)[name := old(marblesCaptured)[name] + 1])
    {
      marblesCaptured := marblesCaptured[name := marblesCaptured[name] + 1];
    }

    /** `get_marble`: the content of a cell on the board. */
    function GetMarble(r: int, c: int): (v: Cell)
      reads this
      requires Valid() && InBounds(r, c)
      ensures v == Abstract().board[r][c]
    {
      gameBoard[r][c]
    }

    /** `get_game_board` (as a value: see the notes on aliasing). */
    function GetGameBoard(): (b: seq<seq<Cell>>)
      reads this
      ensures b == Abstract().board
    {
      gameBoard
    }

    /** `get_marble_count`: the white, black and red marbles on the board, counted cell by cell. */
    method GetMarbleCount() returns (white: int, black: int, red: int)
      requires Valid()
      ensures (white, black, red) == MarbleCount(gameBoard)
    {
      white, black, red := 0, 0, 0;
      for row := 0 to 7
        invariant white == Cells(gameBoard[..row])[W]
        invariant black == Cells(gameBoard[..row])[B]
        invariant red == Cells(gameBoard[..row])[R]
      {
        ghost var done := Cells(gameBoard[..row]);
        for col := 0 to 7
          invariant white == done[W] + multiset(gameBoard[row][..col])[W]
          invariant black == done[B] + multiset(gameBoard[row][..col])[B]
          invariant red == done[R] + multiset(gameBoard[row][..col])[R]
        {
          assert gameBoard[row][..col + 1] == gameBoard[row][..col] + [gameBoard[row][col]];
          if gameBoard[row][col] == W {
            white := white + 1;
          }
          if gameBoard[row][col] == B {
            black := black + 1;
          }
          if gameBoard[row][col] == R {
            red := red + 1;
          }
        }
        assert gameBoard[row][..7] == gameBoard[row];
        assert gameBoard[..row + 1][..row] == gameBoard[..row];
      }
      assert gameBoard[..7] == gameBoard;
    }

    /** `row_col_full`: counts the marbles of the row (sideways push) or column (push forward
        or backward) and answers yes exactly when there are none. */
    method RowColFull(r: int, c: int, d: Direction) returns (full: bool)
      requires Valid() && InBounds(r, c)
      ensures full == LineVacant(gameBoard, r, c, d)
    {
      var count := 0;
      if d == Left || d == Right {
        for i := 0 to 7
          invariant count == 0 <==> forall j :: 0 <= j < i ==> gameBoard[r][j] == X
        {
          if gameBoard[r][i] != X {
            count := count + 1;
          }
        }
      }
      if d == Forward || d == Backward {
        for i := 0 to 7
          invariant count == 0 <==> forall j :: 0 <= j < i ==> gameBoard[j][c] == X
        {
          if gameBoard[i][c] != X {
            count := count + 1;
          }
        }
      }
      full := count == 0;
    }

    /** `is_valid_move`: the opening test, `row_col_full`, and a walk from the chosen cell to
        the edge looking for an empty cell before comparing the edge with the mover's colour. */
    method IsValidMove(name: string, r: int, c: int, d: Direction) returns (valid: bool)
      requires Valid() && IsPlayer(Abstract(), name) && InBounds(r, c)
      ensures valid == ValidMove(gameBoard, r, c, d, ColorOf(Abstract(), name))
    {
      if d == Left && c + 1 < 7 && gameBoard[r][c + 1] != X {
        return false;
      } else if d == Right && c - 1 > 0 && gameBoard[r][c - 1] != X {
        return false;
      } else if d == Forward && r + 1 < 7 && gameBoard[r + 1][c] != X {
        return false;
      } else if d == Backward && r - 1 > 0 && gameBoard[r - 1][c] != X {
        return false;
      }
      assert !OpeningBlocked(gameBoard, r, c, d);
      var full := RowColFull(r, c, d);
      if full {
        return false;
      }
      ColorTable(name);
      var playerColor := playerColor[name];
      var spaceEncountered := SpaceOnLine(r, c, d);
      valid := !(Edge(gameBoard, r, c, d) == playerColor && !spaceEncountered);
      assert valid == !PushesOwnMarble(gameBoard, r, c, d, playerColor);
    }

    /** The walk of `is_valid_move` from the chosen cell to the edge: whether it meets an
        empty cell. */
    method SpaceOnLine(r: int, c: int, d: Direction) returns (spaceEncountered: bool)
      requires Valid() && InBounds(r, c) && d != Other
      ensures spaceEncountered == (X in Line(gameBoard, r, c, d))
    {
      ghost var line := Line(gameBoard, r, c, d);
      spaceEncountered := false;
      var row, col := r, c;
      var k := Steps(r, c, d);
      for i := 0 to k + 1
        invariant row == Pos(r, c, d, i).0 && col == Pos(r, c, d, i).1
        invariant spaceEncountered == (X in line[..i])
      {
        LineAt(gameBoard, r, c, d, i);
        assert line[..i + 1] == line[..i] + [line[i]];
        if gameBoard[row][col] == X {
          spaceEncountered := true;
        }
        row, col := row + StepOf(d).0, col + StepOf(d).1;
      }
      assert line[..k + 1] == line;
    }

    /** `make_move`: the guards in the source's order, the push on a copy of the board, the
        capture credited by the push loop, the Ko test, and the commit of board, prior board,
        winner and turn. The answer and the new game are exactly those of the rules' Move. */
    method MakeMove(name: string, r: int, c: int, d: Direction) returns (ok: bool)
      requires Valid() && IsPlayer(Abstract(), name)
      modifies this
      ensures Valid() && (ok, Abstract()) == Move(old(Abstract()), name, r, c, d)
    {
      ghost var s := Abstract();
      if GetWinner().Some? {
        Refused(s, name, r, c, d);
        return false;
      }
      var turn := GetCurrentTurn();
      if turn.Some? && turn.value != name {
        Refused(s, name, r, c, d);
        return false;
      }
      if r < 0 || r > 6 || c < 0 || c > 6 {
        Refused(s, name, r, c, d);
        return false;
      }
      var valid := IsValidMove(name, r, c, d);
      if !valid {
        Refused(s, name, r, c, d);
        return false;
      }
      assert Admitted(s, name, r, c, d);
      ok := PlayAdmitted(name, r, c, d);
    }

    /** The part of `make_move` after its guards: the push on a copy of the board, the capture
        the push loop credits, the Ko test, and the commit of board, prior board, winner and
        turn. */
    method PlayAdmitted(name: string, r: int, c: int, d: Direction) returns (ok: bool)
      requires Valid() && IsPlayer(Abstract(), name) && Admitted(Abstract(), name, r, c, d)
      modifies this
      ensures Valid() && (ok, Abstract()) == Move(old(Abstract()), name, r, c, d)
    {
      ghost var s := Abstract();
      var tempBoard, credited := SimulatePush(gameBoard, r, c, d);
      CreditCapture(name, credited);
      ghost var m := marblesCaptured;
      if tempBoard == priorBoardState {
        ok := false;
      } else {
        Commit(name, tempBoard);
        ok := true;
      }
      PlayOutcome(s, name, r, c, d, tempBoard, credited, m, ok, Abstract());
    }

    /** The capture the push loop credits, added to the mover's count. */
    method CreditCapture(name: string, credited: bool)
      requires Valid() && IsPlayer(Abstract(), name)
      modifies this
      ensures Valid()
      ensures Abstract() == old(Abstract()).(captured := if credited then old(marblesCaptured)[name := old(marblesCaptured)[name] + 1]
                                                           else old(marblesCaptured))
    {
      if credited {
        IncrementCaptured(name);
      }
    }

    /** The commit of `make_move`: the current board becomes the prior one, the pushed board
        the current one, the mover wins at seven captures, and the turn passes on. */
    method Commit(name: string, tempBoard: seq<seq<Cell>>)
      requires Valid() && IsPlayer(Abstract(), name) && IsBoard(tempBoard) && winner.None?
      modifies this
      ensures Valid()
      ensures Abstract() ==
        old(Abstract()).(board := tempBoard, prior := old(gameBoard),
                         winner := if old(marblesCaptured)[name] >= 7 then Some(name) else None,
                         turn := NextTurn(old(Abstract()), name))
    {
      priorBoardState := gameBoard;
      gameBoard := tempBoard;
      if GetCaptured(name) >= 7 {
        SetWinner(name);
      }
      if playerA.name == name {
        SetCurrentTurn(playerB.name);
      } else {
        SetCurrentTurn(playerA.name);
      }
    }
  }
}
