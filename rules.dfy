/** The rules of a Kuba game as pure functions over a game state: the validity test of
    `is_valid_move` and `row_col_full`, and the whole effect of `make_move` as one function
    `Move` from the state before the call to the answer and the state after it. */
module Rules {
  import opened Board
  import opened Push

  datatype Option<T> = None | Some(value: T)

  /** A player as the game is built from it: a name and the colour of the player's marbles. */
  datatype Player = Player(name: string, color: Cell)

  /** Everything a game holds: the two players, the board, whose turn it is ("" before the
      first move), the board before the last committed move ([] before any), the red marbles
      each player has captured, and the winner. */
  datatype State = State(playerA: Player, playerB: Player, board: seq<seq<Cell>>, turn: string,
                         prior: seq<seq<Cell>>, captured: map<string, nat>, winner: Option<string>)

  /** The shape every game keeps: two distinct names, a 7×7 board, a 7×7 (or still empty)
      prior snapshot, and a capture count for exactly the two players. */
  predicate WellFormed(s: State)
  {
    s.playerA.name != s.playerB.name &&
    IsBoard(s.board) &&
    (s.prior == [] || IsBoard(s.prior)) &&
    s.captured.Keys == {s.playerA.name, s.playerB.name}
  }

  predicate IsPlayer(s: State, name: string)
  {
    name == s.playerA.name || name == s.playerB.name
  }

  /** The marble colour registered for a player's name. */
  function ColorOf(s: State, name: string): (color: Cell)
    requires IsPlayer(s, name)
    ensures name == s.playerA.name ==> color == s.playerA.color
    ensures name != s.playerA.name ==> color == s.playerB.color
  {
    if name == s.playerA.name then s.playerA.color else s.playerB.color
  }

  /** The player who moves after `name`: playerB after playerA, playerA after anyone else. */
  function NextTurn(s: State, name: string): (next: string)
    ensures name == s.playerA.name ==> next == s.playerB.name
    ensures name != s.playerA.name ==> next == s.playerA.name
  {
    if s.playerA.name == name then s.playerB.name else s.playerA.name
  }

  /** A new game: the starting layout, no turn, no prior board, nothing captured, no winner. */
  function InitialState(a: Player, b: Player): (s: State)
    ensures a.name != b.name ==> WellFormed(s)
    ensures s.captured.Keys == {a.name, b.name}
    ensures forall n :: n in s.captured ==> s.captured[n] == 0
  {
    State(a, b, InitialBoard(), "", [], map[a.name := 0, b.name := 0], None)
  }

  /** The opening test: the cell behind the chosen one, against the push, is occupied.
      For a push to the right or backward the neighbour is only looked at when its index is
      above 0, so a marble in column 0 or row 0 never blocks those pushes. */
  predicate OpeningBlocked(b: seq<seq<Cell>>, r: int, c: int, d: Direction): (blocked: bool)
    requires IsBoard(b) && InBounds(r, c)
    ensures blocked <==>
      d != Other && InBounds(Pos(r, c, d, -1).0, Pos(r, c, d, -1).1) &&
      b[Pos(r, c, d, -1).0][Pos(r, c, d, -1).1] != X &&
      !(d == Right && c == 1) && !(d == Backward && r == 1)
  {
    match d
    case Left => c + 1 < 7 && b[r][c + 1] != X
    case Right => c - 1 > 0 && b[r][c - 1] != X
    case Forward => r + 1 < 7 && b[r + 1][c] != X
    case Backward => r - 1 > 0 && b[r - 1][c] != X
    case Other => false
  }

  /** What `row_col_full` answers: the row (for a sideways push) or the column (for a push
      forward or backward) holds no marble at all. Any other direction counts nothing, so the
      answer for it is always yes. */
  predicate LineVacant(b: seq<seq<Cell>>, r: int, c: int, d: Direction): (vacant: bool)
    requires IsBoard(b) && InBounds(r, c)
    ensures d == Other ==> vacant
    ensures d != Other && b[r][c] != X ==> !vacant
  {
    match d
    case Left => forall i :: 0 <= i < 7 ==> b[r][i] == X
    case Right => forall i :: 0 <= i < 7 ==> b[r][i] == X
    case Forward => forall i :: 0 <= i < 7 ==> b[i][c] == X
    case Backward => forall i :: 0 <= i < 7 ==> b[i][c] == X
    case Other => true
  }

  /** The push would shove the player's own marble off the board: the edge cell has the
      player's colour and no empty cell lies between the chosen cell and the edge. */
  predicate PushesOwnMarble(b: seq<seq<Cell>>, r: int, c: int, d: Direction, color: Cell): (own: bool)
    requires IsBoard(b) && InBounds(r, c)
    ensures own ==>
      d != Other && b[r][c] != X &&
      b[Pos(r, c, d, Steps(r, c, d)).0][Pos(r, c, d, Steps(r, c, d)).1] == color
  {
    if d == Other then false
    else
      LineAt(b, r, c, d, 0);
      LineAt(b, r, c, d, Steps(r, c, d));
      Edge(b, r, c, d) == color && X !in Line(b, r, c, d)
  }

  /** Pushing one's own marble off the board, were it allowed, would cost the player a
      marble of their colour: the reason `is_valid_move` refuses it. */
  lemma OwnMarbleLost(b: seq<seq<Cell>>, r: int, c: int, d: Direction, color: Cell)
    requires IsBoard(b) && InBounds(r, c) && color != X
    requires PushesOwnMarble(b, r, c, d, color)
    ensures Cells(PushResult(b, r, c, d))[color] + 1 == Cells(b)[color]
  {
    PushConservation(b, r, c, d);
    var o := PushResult(b, r, c, d);
    assert Cells(o) + multiset{color} == Cells(b) + multiset{X};
    assert (Cells(o) + multiset{color})[color] == (Cells(b) + multiset{X})[color];
  }

  /** `is_valid_move`: none of its three rejections applies. */
  predicate ValidMove(b: seq<seq<Cell>>, r: int, c: int, d: Direction, color: Cell): (valid: bool)
    requires IsBoard(b) && InBounds(r, c)
    ensures valid ==> d != Other
  {
    !OpeningBlocked(b, r, c, d) && !LineVacant(b, r, c, d) && !PushesOwnMarble(b, r, c, d, color)
  }

  /** Whether `make_move` gets past its guards to the push: no winner yet, the player's turn
      (or no turn yet), the cell on the board, and `is_valid_move` not rejecting. */
  predicate Admitted(s: State, name: string, r: int, c: int, d: Direction): (admitted: bool)
    requires WellFormed(s) && IsPlayer(s, name)
    ensures admitted ==> s.winner.None? && InBounds(r, c) && d != Other
  {
    s.winner.None? && (s.turn == "" || s.turn == name) && InBounds(r, c) &&
    ValidMove(s.board, r, c, d, ColorOf(s, name))
  }

  /** The capture counts after the push of an admitted move: the mover gains one when the
      push loop credited a red marble at the edge. */
  function CapturedAfter(s: State, name: string, r: int, c: int, d: Direction): (m: map<string, nat>)
    requires WellFormed(s) && IsPlayer(s, name) && Admitted(s, name, r, c, d)
    ensures m.Keys == s.captured.Keys
    ensures m[name] == s.captured[name] + (if CaptureCredited(s.board, r, c, d) then 1 else 0)
    ensures forall n :: n in m && n != name ==> m[n] == s.captured[n]
  {
    if CaptureCredited(s.board, r, c, d) then s.captured[name := s.captured[name] + 1] else s.captured
  }

  /** `make_move`: the answer and the game after the call. A rejection before the push leaves
      the game as it was; a rejection by the Ko rule keeps a capture the push loop already
      counted; a committed move stores the old board as the prior one, installs the pushed
      board, declares the mover the winner at seven captures, and passes the turn on. */
  function Move(s: State, name: string, r: int, c: int, d: Direction): (res: (bool, State))
    requires WellFormed(s) && IsPlayer(s, name)
    ensures WellFormed(res.1)
    ensures res.1.playerA == s.playerA && res.1.playerB == s.playerB
  {
    if !Admitted(s, name, r, c, d) then (false, s)
    else
      var next := PushResult(s.board, r, c, d);
      var captured := CapturedAfter(s, name, r, c, d);
      if next == s.prior then (false, s.(captured := captured))
      else
        (true, s.(board := next, prior := s.board, captured := captured,
                  winner := if captured[name] >= 7 then Some(name) else None,
                  turn := NextTurn(s, name)))
  }

  /** A new game has the starting marbles (8 white, 8 black, 13 red, 20 empty cells), no turn,
      no winner, and no captures. */
  lemma InitialStateFacts(a: Player, b: Player)
    requires a.name != b.name
    ensures var s := InitialState(a, b);
      WellFormed(s) && MarbleCount(s.board) == (8, 8, 13) && Cells(s.board)[X] == 20 &&
      s.turn == "" && s.winner == None && s.prior == [] &&
      s.captured[a.name] == 0 && s.captured[b.name] == 0
  {
    InitialCounts();
  }

  /** When `make_move` answers True: exactly when every guard passes and the pushed board
      differs from the prior snapshot. */
  lemma MoveAccepted(s: State, name: string, r: int, c: int, d: Direction)
    requires WellFormed(s) && IsPlayer(s, name)
    ensures Move(s, name, r, c, d).0 <==>
      s.winner.None? && (s.turn == "" || s.turn == name) && InBounds(r, c) &&
      ValidMove(s.board, r, c, d, ColorOf(s, name)) &&
      PushResult(s.board, r, c, d) != s.prior
  {
  }

  /** Once a winner is declared, every move is refused and nothing changes. */
  lemma GameOverLocks(s: State, name: string, r: int, c: int, d: Direction)
    requires WellFormed(s) && IsPlayer(s, name) && s.winner.Some?
    ensures Move(s, name, r, c, d) == (false, s)
  {
  }

  /** Once a turn is set, a move by the other player is refused and nothing changes. */
  lemma TurnGuard(s: State, name: string, r: int, c: int, d: Direction)
    requires WellFormed(s) && IsPlayer(s, name) && s.turn != "" && s.turn != name
    ensures Move(s, name, r, c, d) == (false, s)
  {
  }

  /** A cell off the board is refused and nothing changes. */
  lemma OutOfBoundsRejected(s: State, name: string, r: int, c: int, d: Direction)
    requires WellFormed(s) && IsPlayer(s, name) && !InBounds(r, c)
    ensures Move(s, name, r, c, d) == (false, s)
  {
  }

  /** A direction other than the four is refused, through `row_col_full`. */
  lemma UnknownDirectionRejected(s: State, name: string, r: int, c: int)
    requires WellFormed(s) && IsPlayer(s, name)
    ensures Move(s, name, r, c, Other) == (false, s)
  {
  }

  /** A refused move changes nothing but, on the Ko path only, the capture counts. */
  lemma RejectionAtomic(s: State, name: string, r: int, c: int, d: Direction)
    requires WellFormed(s) && IsPlayer(s, name)
    ensures var (ok, t) := Move(s, name, r, c, d);
      !ok ==> t == s.(captured := t.captured)
    ensures var (ok, t) := Move(s, name, r, c, d);
      !ok && t.captured != s.captured ==>
        Admitted(s, name, r, c, d) && PushResult(s.board, r, c, d) == s.prior
  {
  }

  /** The Ko rule: a committed move never recreates the prior snapshot; afterwards the prior
      snapshot is the board before the move and the board is the pushed one. */
  lemma KoRule(s: State, name: string, r: int, c: int, d: Direction)
    requires WellFormed(s) && IsPlayer(s, name)
    ensures var (ok, t) := Move(s, name, r, c, d);
      ok ==> InBounds(r, c) && d != Other &&
             t.board != s.prior && t.prior == s.board && t.board == PushResult(s.board, r, c, d)
  {
  }

  /** A move stopped by a guard before the push is refused and changes nothing. */
  lemma Refused(s: State, name: string, r: int, c: int, d: Direction)
    requires WellFormed(s) && IsPlayer(s, name) && !Admitted(s, name, r, c, d)
    ensures Move(s, name, r, c, d) == (false, s)
  {
  }

  /** Pushing the board back into the prior snapshot is refused, even when every guard passes;
      only the capture the push loop counted survives. */
  lemma KoRejects(s: State, name: string, r: int, c: int, d: Direction)
    requires WellFormed(s) && IsPlayer(s, name) && Admitted(s, name, r, c, d)
    requires PushResult(s.board, r, c, d) == s.prior
    ensures Move(s, name, r, c, d) == (false, s.(captured := CapturedAfter(s, name, r, c, d)))
  {
  }

  /** The steps of `make_move` after its guards, taken one at a time (the push and its credit,
      the counts after crediting, the Ko test, the commit), end where Move does. */
  lemma PlayOutcome(s: State, name: string, r: int, c: int, d: Direction, temp: seq<seq<Cell>>,
                    credited: bool, m: map<string, nat>, ok: bool, t: State)
    requires WellFormed(s) && IsPlayer(s, name) && Admitted(s, name, r, c, d)
    requires temp == PushResult(s.board, r, c, d) && credited == CaptureCredited(s.board, r, c, d)
    requires m == if credited then s.captured[name := s.captured[name] + 1] else s.captured
    requires ok == (temp != s.prior)
    requires !ok ==> t == s.(captured := m)
    requires ok ==> t == s.(captured := m).(board := temp, prior := s.board,
                                            winner := if m[name] >= 7 then Some(name) else None,
                                            turn := NextTurn(s, name))
    ensures (ok, t) == Move(s, name, r, c, d)
  {
    var res := Move(s, name, r, c, d);
    assert m == CapturedAfter(s, name, r, c, d);
    assert res.0 == ok;
    assert res.1 == t;
  }

  /** A committed move passes the turn: to playerB after playerA, to playerA otherwise. */
  lemma TurnAfterCommit(s: State, name: string, r: int, c: int, d: Direction)
    requires WellFormed(s) && IsPlayer(s, name)
    ensures var (ok, t) := Move(s, name, r, c, d);
      ok ==> t.turn == (if name == s.playerA.name then s.playerB.name else s.playerA.name)
  {
  }

  /** With non-empty names, two committed moves in a row are by different players. */
  lemma {:induction false} StrictAlternation(s: State, n1: string, r1: int, c1: int, d1: Direction,
                                             n2: string, r2: int, c2: int, d2: Direction)
    requires WellFormed(s) && IsPlayer(s, n1) && IsPlayer(s, n2)
    requires s.playerA.name != "" && s.playerB.name != ""
    requires Move(s, n1, r1, c1, d1).0
    ensures Move(Move(s, n1, r1, c1, d1).1, n2, r2, c2, d2).0 ==> n2 != n1
  {
    var t := Move(s, n1, r1, c1, d1).1;
    TurnAfterCommit(s, n1, r1, c1, d1);
    assert t.turn != "" && t.turn != n1;
    if n2 == n1 {
      TurnGuard(t, n2, r2, c2, d2);
    }
  }

  /** A player named "" hands over an empty turn, so after the other player's move anyone may
      move next, the other player included. */
  lemma EmptyNameOpensTurn(s: State, r: int, c: int, d: Direction)
    requires WellFormed(s) && s.playerA.name == "" && Move(s, s.playerB.name, r, c, d).0
    ensures Move(s, s.playerB.name, r, c, d).1.turn == ""
  {
  }

  /** A move raises only the mover's capture count, by at most one, and only when the edge
      cell of the line held a red marble. */
  lemma CaptureBound(s: State, name: string, r: int, c: int, d: Direction)
    requires WellFormed(s) && IsPlayer(s, name)
    ensures var t := Move(s, name, r, c, d).1;
      t.captured.Keys == s.captured.Keys &&
      s.captured[name] <= t.captured[name] <= s.captured[name] + 1 &&
      t.captured[NextTurn(s, name)] == s.captured[NextTurn(s, name)]
    ensures var t := Move(s, name, r, c, d).1;
      t.captured[name] == s.captured[name] + 1 ==>
        InBounds(r, c) && d != Other && Edge(s.board, r, c, d) == R
  {
    MoveCaptures(s, name, r, c, d);
    if Admitted(s, name, r, c, d) && CaptureCredited(s.board, r, c, d) {
      assert Line(s.board, r, c, d)[Steps(r, c, d)] == R;
    }
  }

  /** The capture counts a move leaves: those of the push loop when the guards pass. */
  lemma MoveCaptures(s: State, name: string, r: int, c: int, d: Direction)
    requires WellFormed(s) && IsPlayer(s, name)
    ensures Move(s, name, r, c, d).1.captured ==
      if Admitted(s, name, r, c, d) then CapturedAfter(s, name, r, c, d) else s.captured
  {
  }

  /** The winner is declared exactly by a committed move that leaves the mover with seven or
      more captures, and it is the mover; a refused move leaves the winner alone. */
  lemma WinThreshold(s: State, name: string, r: int, c: int, d: Direction)
    requires WellFormed(s) && IsPlayer(s, name)
    ensures var (ok, t) := Move(s, name, r, c, d);
      ok ==> t.winner == if t.captured[name] >= 7 then Some(name) else None
    ensures var (ok, t) := Move(s, name, r, c, d);
      !ok ==> t.winner == s.winner
  {
  }

  /** A committed move keeps the number of marbles, or loses exactly one when no empty cell
      lies between the chosen cell and the edge; the mover never loses a marble of their own
      colour. */
  lemma MoveConservesMarbles(s: State, name: string, r: int, c: int, d: Direction)
    requires WellFormed(s) && IsPlayer(s, name)
    ensures var (ok, t) := Move(s, name, r, c, d);
      ok ==> d != Other && InBounds(r, c) &&
             Cells(t.board)[X] == Cells(s.board)[X] + (if X in Line(s.board, r, c, d) then 0 else 1)
    ensures var (ok, t) := Move(s, name, r, c, d);
      ok && ColorOf(s, name) != X ==> Cells(t.board)[ColorOf(s, name)] == Cells(s.board)[ColorOf(s, name)]
  {
    var (ok, t) := Move(s, name, r, c, d);
    if ok {
      var color := ColorOf(s, name);
      PushConservation(s.board, r, c, d);
      if X !in Line(s.board, r, c, d) {
        assert Edge(s.board, r, c, d) != color;
        var e := Edge(s.board, r, c, d);
        assert Cells(t.board) + multiset{e} == Cells(s.board) + multiset{X};
        assert (Cells(t.board) + multiset{e})[X] == (Cells(s.board) + multiset{X})[X];
        assert (Cells(t.board) + multiset{e})[color] == (Cells(s.board) + multiset{X})[color];
      }
    }
  }

  /** Moving an empty cell that passes the guards changes no cell yet still counts as a move:
      the turn passes on (unless the unchanged board equals the prior snapshot, when the Ko
      rule refuses it), and the mover is still credited a capture when the push loop reaches
      a red marble at the edge (Push.EmptyCellCapture shows such a board). */
  lemma EmptyCellMoveIsPass(s: State, name: string, r: int, c: int, d: Direction)
    requires WellFormed(s) && IsPlayer(s, name) && Admitted(s, name, r, c, d)
    requires s.board[r][c] == X
    ensures var (ok, t) := Move(s, name, r, c, d);
      ok == (s.board != s.prior) &&
      (ok ==> t.board == s.board && t.prior == s.board && t.turn == NextTurn(s, name))
    ensures Move(s, name, r, c, d).1.captured == CapturedAfter(s, name, r, c, d)
  {
    EmptyOriginIsPass(s.board, r, c, d);
  }

  /** The opening test for a push to the right never looks at column 0: on the starting
      board the white marble at (0, 1) may be pushed right although (0, 0) holds a marble,
      whereas the black marble at (0, 5) may not be pushed left, (0, 6) being occupied. */
  lemma OpeningSkipsIndexZero()
    ensures InitialBoard()[0][0] != X && ValidMove(InitialBoard(), 0, 1, Right, W)
    ensures InitialBoard()[0][6] != X && !ValidMove(InitialBoard(), 0, 5, Left, B)
  {
    var b := InitialBoard();
    LineAt(b, 0, 1, Right, 1);
    assert Line(b, 0, 1, Right)[1] == X;
    assert !LineVacant(b, 0, 1, Right) by { assert b[0][0] != X; }
  }

  /** The opening move of the demonstration game: white pushes (6, 5) forward; the two white
      marbles in column 5 move up one cell into the gap, nothing else changes, and the turn
      passes to the other player. */
  lemma FirstMoveScenario()
    ensures var s := InitialState(Player("PlayerA", W), Player("PlayerB", B));
      var (ok, t) := Move(s, "PlayerA", 6, 5, Forward);
      ok && t.turn == "PlayerB" && t.prior == s.board &&
      t.board[6][5] == X && t.board[5][5] == W && t.board[4][5] == W && t.board[3][5] == R &&
      MarbleCount(t.board) == (8, 8, 13) && t.captured == s.captured && t.winner == None
  {
    FirstMoveCommits();
    FirstPushCells();
    InitialCounts();
  }

  /** The first move commits: the pushed board replaces the starting one, the turn passes
      to the other player, and nothing is captured. */
  lemma FirstMoveCommits()
    ensures var s := InitialState(Player("PlayerA", W), Player("PlayerB", B));
      Move(s, "PlayerA", 6, 5, Forward) ==
        (true, s.(board := PushResult(s.board, 6, 5, Forward), prior := s.board, turn := "PlayerB"))
  {
    var s := InitialState(Player("PlayerA", W), Player("PlayerB", B));
    FirstPushAdmitted();
    assert Admitted(s, "PlayerA", 6, 5, Forward);
  }

  /** The first push is valid for white and credits no capture. */
  lemma FirstPushAdmitted()
    ensures ValidMove(InitialBoard(), 6, 5, Forward, W) && !CaptureCredited(InitialBoard(), 6, 5, Forward)
  {
    var b := InitialBoard();
    LineAt(b, 6, 5, Forward, 2);
    assert X in Line(b, 6, 5, Forward) by { assert Line(b, 6, 5, Forward)[2] == X; }
    assert !LineVacant(b, 6, 5, Forward) by { assert b[0][5] != X; }
  }

  /** The cells of column 5 after the first push, and its unchanged marble multiset. */
  lemma FirstPushCells()
    ensures var b := InitialBoard(); var p := PushResult(b, 6, 5, Forward);
      p[6][5] == X && p[5][5] == W && p[4][5] == W && p[3][5] == R && Cells(p) == Cells(b)
  {
    var b := InitialBoard();
    var line := Line(b, 6, 5, Forward);
    LineAt(b, 6, 5, Forward, 0);
    LineAt(b, 6, 5, Forward, 1);
    LineAt(b, 6, 5, Forward, 2);
    LineAt(b, 6, 5, Forward, 3);
    assert line[0] == W && line[1] == W && line[2] == X;
    PushFrame(b, 6, 5, Forward, 6, 5);
    PushFrame(b, 6, 5, Forward, 5, 5);
    PushFrame(b, 6, 5, Forward, 4, 5);
    PushFrame(b, 6, 5, Forward, 3, 5);
    assert NoGapBefore(line, 1) && NoGapBefore(line, 2) && !NoGapBefore(line, 3);
    PushConservation(b, 6, 5, Forward);
  }
}
