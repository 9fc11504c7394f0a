/** Cells, the 7x7 Kuba board, its starting layout, marble counting and the
    geometry of a push line (the cells from a chosen marble to the board edge). */
module Board {

  /** One cell of the board: a white, black or red marble, or empty ('X'). */
  datatype Cell = W | B | R | X

  /** A push direction. Left and Right move along a row, Forward towards row 0
      and Backward towards row 6; Other stands for any other direction string. */
  datatype Direction = Left | Right | Forward | Backward | Other

  predicate InBounds(r: int, c: int)
  {
    0 <= r < 7 && 0 <= c < 7
  }

  /** A board has exactly 7 rows of 7 cells. */
  predicate IsBoard(b: seq<seq<Cell>>)
  {
    |b| == 7 && forall x :: 0 <= x < 7 ==> |b[x]| == 7
  }

  /** The layout a new game starts from: white and black corners and a red diamond. */
  function InitialBoard(): (b: seq<seq<Cell>>)
    ensures IsBoard(b)
  {
    [[W, W, X, X, X, B, B],
     [W, W, X, R, X, B, B],
     [X, X, R, R, R, X, X],
     [X, R, R, R, R, R, X],
     [X, X, R, R, R, X, X],
     [B, B, X, R, X, W, W],
     [B, B, X, X, X, W, W]]
  }

  /** Every cell value on a board, with multiplicity, collected row by row. */
  function Cells(b: seq<seq<Cell>>): (cells: multiset<Cell>)
  {
    if b == [] then multiset{} else Cells(b[..|b| - 1]) + multiset(b[|b| - 1])
  }

  /** The (white, black, red) marble counts of a board. */
  function MarbleCount(b: seq<seq<Cell>>): (counts: (int, int, int))
  {
    (Cells(b)[W], Cells(b)[B], Cells(b)[R])
  }

  /** Writing one cell replaces exactly one element of the board's multiset. */
  lemma {:induction false} CellsUpdate(b: seq<seq<Cell>>, x: int, y: int, v: Cell)
    requires 0 <= x < |b| && 0 <= y < |b[x]|
    ensures Cells(b[x := b[x][y := v]]) + multiset{b[x][y]} == Cells(b) + multiset{v}
  {
    var n := |b| - 1;
    var b' := b[x := b[x][y := v]];
    if x == n {
      assert b'[..n] == b[..n];
    } else {
      CellsUpdate(b[..n], x, y, v);
      assert b'[..n] == b[..n][x := b[x][y := v]];
      calc {
        Cells(b') + multiset{b[x][y]};
        Cells(b'[..n]) + multiset(b[n]) + multiset{b[x][y]};
        (Cells(b'[..n]) + multiset{b[x][y]}) + multiset(b[n]);
        Cells(b[..n]) + multiset{v} + multiset(b[n]);
        Cells(b) + multiset{v};
      }
    }
  }

  lemma {:induction false} RowCountsSum(s: seq<Cell>)
    ensures multiset(s)[W] + multiset(s)[B] + multiset(s)[R] + multiset(s)[X] == |s|
  {
    if s != [] {
      var n := |s| - 1;
      RowCountsSum(s[..n]);
      assert s == s[..n] + [s[n]];
      var m := multiset(s[..n]);
      assert multiset(s) == m + multiset{s[n]};
      match s[n]
      case W => assert multiset(s)[W] == m[W] + 1;
      case B => assert multiset(s)[B] == m[B] + 1;
      case R => assert multiset(s)[R] == m[R] + 1;
      case X => assert multiset(s)[X] == m[X] + 1;
    }
  }

  /** White, black, red and empty cells together fill the board: 49 cells. */
  lemma {:induction false} CountsSum(b: seq<seq<Cell>>)
    requires forall x :: 0 <= x < |b| ==> |b[x]| == 7
    ensures Cells(b)[W] + Cells(b)[B] + Cells(b)[R] + Cells(b)[X] == 7 * |b|
  {
    if b != [] {
      var n := |b| - 1;
      CountsSum(b[..n]);
      RowCountsSum(b[n]);
    }
  }

  /** The starting layout has 8 white, 8 black and 13 red marbles and 20 empty cells. */
  lemma InitialCounts()
    ensures MarbleCount(InitialBoard()) == (8, 8, 13)
    ensures Cells(InitialBoard())[X] == 20
  {
    AllInitialRows();
    InitialCount(W);
    InitialCount(B);
    InitialCount(R);
    InitialCount(X);
  }

  /** How often v occurs on the starting board, as the sum of its rows' counts. */
  lemma InitialCount(v: Cell)
    ensures var b := InitialBoard();
      Cells(b)[v] == multiset(b[0])[v] + multiset(b[1])[v] + multiset(b[2])[v] + multiset(b[3])[v]
                     + multiset(b[4])[v] + multiset(b[5])[v] + multiset(b[6])[v]
  {
    CellsRows(InitialBoard(), v);
  }

  lemma AllInitialRows()
    ensures RowHas(InitialBoard()[0], 2, 2, 0, 3) && RowHas(InitialBoard()[1], 2, 2, 1, 2)
    ensures RowHas(InitialBoard()[2], 0, 0, 3, 4) && RowHas(InitialBoard()[3], 0, 0, 5, 2)
    ensures RowHas(InitialBoard()[4], 0, 0, 3, 4) && RowHas(InitialBoard()[5], 2, 2, 1, 2)
    ensures RowHas(InitialBoard()[6], 2, 2, 0, 3)
  {
    InitialRow0();
    InitialRow1();
    InitialRow2();
    InitialRow3();
    InitialRow4();
    InitialRow5();
    InitialRow6();
  }

  predicate RowHas(s: seq<Cell>, w: int, bl: int, rd: int, e: int)
  {
    var m := multiset(s);
    m[W] == w && m[B] == bl && m[R] == rd && m[X] == e
  }

  lemma InitialRow0()
    ensures RowHas(InitialBoard()[0], 2, 2, 0, 3)
  {
  }

  lemma InitialRow1()
    ensures RowHas(InitialBoard()[1], 2, 2, 1, 2)
  {
  }

  lemma InitialRow2()
    ensures RowHas(InitialBoard()[2], 0, 0, 3, 4)
  {
  }

  lemma InitialRow3()
    ensures RowHas(InitialBoard()[3], 0, 0, 5, 2)
  {
  }

  lemma InitialRow4()
    ensures RowHas(InitialBoard()[4], 0, 0, 3, 4)
  {
  }

  lemma InitialRow5()
    ensures RowHas(InitialBoard()[5], 2, 2, 1, 2)
  {
  }

  lemma InitialRow6()
    ensures RowHas(InitialBoard()[6], 2, 2, 0, 3)
  {
  }

  /** How often v occurs on a seven-row board, row by row. */
  lemma CellsRows(b: seq<seq<Cell>>, v: Cell)
    requires |b| == 7
    ensures Cells(b)[v] == multiset(b[0])[v] + multiset(b[1])[v] + multiset(b[2])[v] + multiset(b[3])[v]
                           + multiset(b[4])[v] + multiset(b[5])[v] + multiset(b[6])[v]
  {
    assert Cells(b[..1]) == multiset(b[0]) by { assert b[..1][..0] == []; }
    assert Cells(b[..2]) == Cells(b[..1]) + multiset(b[1]) by { assert b[..2][..1] == b[..1]; }
    assert Cells(b[..3]) == Cells(b[..2]) + multiset(b[2]) by { assert b[..3][..2] == b[..2]; }
    assert Cells(b[..4]) == Cells(b[..3]) + multiset(b[3]) by { assert b[..4][..3] == b[..3]; }
    assert Cells(b[..5]) == Cells(b[..4]) + multiset(b[4]) by { assert b[..5][..4] == b[..4]; }
    assert Cells(b[..6]) == Cells(b[..5]) + multiset(b[5]) by { assert b[..6][..5] == b[..5]; }
    assert Cells(b) == Cells(b[..6]) + multiset(b[6]);
  }

  /** Number of steps from (r, c) to the edge in direction d; the push line has
      Steps + 1 cells (the loop bounds `range(col + 1)`, `range(7 - col)`, ...). */
  function Steps(r: int, c: int, d: Direction): (n: int)
  {
    match d
    case Left => c
    case Right => 6 - c
    case Forward => r
    case Backward => 6 - r
    case Other => 0
  }

  /** The unit step of direction d as (row delta, column delta). */
  function StepOf(d: Direction): (delta: (int, int))
  {
    match d
    case Left => (0, -1)
    case Right => (0, 1)
    case Forward => (-1, 0)
    case Backward => (1, 0)
    case Other => (0, 0)
  }

  /** The cell i steps from (r, c) in direction d. */
  function Pos(r: int, c: int, d: Direction, i: int): (p: (int, int))
  {
    match d
    case Left => (r, c - i)
    case Right => (r, c + i)
    case Forward => (r - i, c)
    case Backward => (r + i, c)
    case Other => (r, c)
  }

  /** How many steps (x, y) lies from (r, c) along direction d. */
  function Index(r: int, c: int, d: Direction, x: int, y: int): (i: int)
  {
    match d
    case Left => c - y
    case Right => y - c
    case Forward => r - x
    case Backward => x - r
    case Other => 0
  }

  /** Whether (x, y) lies on the push line: from (r, c) to the edge in direction d. */
  predicate OnLine(r: int, c: int, d: Direction, x: int, y: int)
  {
    match d
    case Left | Right => x == r && 0 <= Index(r, c, d, x, y) <= Steps(r, c, d)
    case Forward | Backward => y == c && 0 <= Index(r, c, d, x, y) <= Steps(r, c, d)
    case Other => false
  }

  lemma PosOnLine(r: int, c: int, d: Direction, i: int)
    requires InBounds(r, c) && d != Other && 0 <= i <= Steps(r, c, d)
    ensures InBounds(Pos(r, c, d, i).0, Pos(r, c, d, i).1)
    ensures OnLine(r, c, d, Pos(r, c, d, i).0, Pos(r, c, d, i).1)
    ensures Index(r, c, d, Pos(r, c, d, i).0, Pos(r, c, d, i).1) == i
  {
  }

  lemma OnLinePos(r: int, c: int, d: Direction, x: int, y: int)
    requires OnLine(r, c, d, x, y)
    ensures Pos(r, c, d, Index(r, c, d, x, y)) == (x, y)
  {
  }

  /** The cells of the push line, from the chosen cell (index 0) to the edge. */
  function Line(b: seq<seq<Cell>>, r: int, c: int, d: Direction): (line: seq<Cell>)
    requires IsBoard(b) && InBounds(r, c) && d != Other
    ensures |line| == Steps(r, c, d) + 1
  {
    LineFrom(b, r, c, d, 0)
  }

  /** The cells of the push line from step i to the edge. */
  function LineFrom(b: seq<seq<Cell>>, r: int, c: int, d: Direction, i: nat): (line: seq<Cell>)
    requires IsBoard(b) && InBounds(r, c) && d != Other && i <= Steps(r, c, d) + 1
    ensures |line| == Steps(r, c, d) + 1 - i
    decreases Steps(r, c, d) + 1 - i
  {
    if i == Steps(r, c, d) + 1 then []
    else
      PosOnLine(r, c, d, i);
      [b[Pos(r, c, d, i).0][Pos(r, c, d, i).1]] + LineFrom(b, r, c, d, i + 1)
  }

  lemma {:induction false} LineFromAt(b: seq<seq<Cell>>, r: int, c: int, d: Direction, i: nat, j: int)
    requires IsBoard(b) && InBounds(r, c) && d != Other && i <= j <= Steps(r, c, d)
    ensures InBounds(Pos(r, c, d, j).0, Pos(r, c, d, j).1)
    ensures LineFrom(b, r, c, d, i)[j - i] == b[Pos(r, c, d, j).0][Pos(r, c, d, j).1]
    decreases j - i
  {
    PosOnLine(r, c, d, j);
    if i < j {
      LineFromAt(b, r, c, d, i + 1, j);
    }
  }

  /** Cell j of the push line is the board cell j steps from the chosen cell. */
  lemma LineAt(b: seq<seq<Cell>>, r: int, c: int, d: Direction, j: int)
    requires IsBoard(b) && InBounds(r, c) && d != Other && 0 <= j <= Steps(r, c, d)
    ensures InBounds(Pos(r, c, d, j).0, Pos(r, c, d, j).1)
    ensures Line(b, r, c, d)[j] == b[Pos(r, c, d, j).0][Pos(r, c, d, j).1]
  {
    LineFromAt(b, r, c, d, 0, j);
  }

  /** The edge cell of the push line, read the way the source reads it
      (`board[row][0]`, `board[row][6]`, `board[0][col]`, `board[6][col]`). */
  function Edge(b: seq<seq<Cell>>, r: int, c: int, d: Direction): (e: Cell)
    requires IsBoard(b) && InBounds(r, c) && d != Other
    ensures e == Line(b, r, c, d)[Steps(r, c, d)]
  {
    LineAt(b, r, c, d, Steps(r, c, d));
    match d
    case Left => b[r][0]
    case Right => b[r][6]
    case Forward => b[0][c]
    case Backward => b[6][c]
  }

  /** Whether (row, col) is the edge cell the push loop looks for (`col == 0`, ...). */
  predicate IsEdge(row: int, col: int, d: Direction)
  {
    match d
    case Left => col == 0
    case Right => col == 6
    case Forward => row == 0
    case Backward => row == 6
    case Other => false
  }
}
