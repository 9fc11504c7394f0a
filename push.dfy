/** The push of make_move: the one-dimensional shift of the cells from the
    chosen marble to the edge, its effect on the whole board, whether it
    credits a red capture, and the step-vector loop that simulates it on a
    scratch copy of the board. */
module Push {
  import opened Board

  /** No cell before index j of the line is empty. */
  predicate NoGapBefore(line: seq<Cell>, j: int)
  {
    forall i :: 0 <= i < j && i < |line| ==> line[i] != X
  }

  /** The rest of a line after the carried marble `carry` has been pushed into
      it: an empty carry stops the push; otherwise the carry takes the next cell
      and that cell's content is carried on, and a carry left over at the end
      falls off the edge. */
  function Carry(carry: Cell, rest: seq<Cell>): (out: seq<Cell>)
    ensures |out| == |rest|
    decreases rest
  {
    if rest == [] || carry == X then rest else [carry] + Carry(rest[0], rest[1..])
  }

  /** The pushed line: the chosen cell becomes empty and its content is carried
      towards the edge. */
  function Shift(line: seq<Cell>): (out: seq<Cell>)
    ensures |out| == |line|
    ensures line != [] ==> out[0] == X
  {
    if line == [] then [] else [X] + Carry(line[0], line[1..])
  }

  lemma {:induction false} CarryAt(carry: Cell, rest: seq<Cell>, j: int)
    requires 0 <= j < |rest|
    ensures Carry(carry, rest)[j] ==
      if carry != X && NoGapBefore(rest, j) then ([carry] + rest)[j] else rest[j]
    decreases rest
  {
    if carry != X && j > 0 {
      CarryAt(rest[0], rest[1..], j - 1);
      assert NoGapBefore(rest, j) <==> rest[0] != X && NoGapBefore(rest[1..], j - 1) by {
        if rest[0] != X && NoGapBefore(rest[1..], j - 1) {
          forall i | 0 <= i < j && i < |rest| ensures rest[i] != X {
            if i > 0 { assert rest[i] == rest[1..][i - 1]; }
          }
        }
      }
    }
  }

  /** Cell j of the pushed line: the chosen cell is emptied; a later cell takes
      its predecessor's content while no empty cell lies before it, and keeps
      its own content once the push has stopped at an empty cell. */
  lemma ShiftAt(line: seq<Cell>, j: int)
    requires 0 <= j < |line|
    ensures Shift(line)[j] ==
      if j == 0 then X else if NoGapBefore(line, j) then line[j - 1] else line[j]
  {
    if j > 0 {
      CarryAt(line[0], line[1..], j - 1);
      assert NoGapBefore(line, j) <==> line[0] != X && NoGapBefore(line[1..], j - 1) by {
        if line[0] != X && NoGapBefore(line[1..], j - 1) {
          forall i | 0 <= i < j && i < |line| ensures line[i] != X {
            if i > 0 { assert line[i] == line[1..][i - 1]; }
          }
        }
      }
    }
  }

  lemma NoGapExtend(line: seq<Cell>, i: int)
    requires 1 <= i <= |line| && NoGapBefore(line, i - 1) && line[i - 1] != X
    ensures NoGapBefore(line, i)
  {
  }

  /** Once an empty cell has stopped the push, the cells after it keep their contents. */
  lemma ShiftTail(line: seq<Cell>, n: int)
    requires 1 <= n <= |line| && line[n - 1] == X
    ensures forall j :: n <= j < |line| ==> Shift(line)[j] == line[j]
  {
    forall j | n <= j < |line| ensures Shift(line)[j] == line[j] {
      ShiftAt(line, j);
    }
  }

  lemma {:induction false} CarryMultiset(carry: Cell, rest: seq<Cell>)
    ensures X in [carry] + rest ==>
      multiset(Carry(carry, rest)) + multiset{X} == multiset(rest) + multiset{carry}
    ensures X !in [carry] + rest ==>
      multiset(Carry(carry, rest)) + multiset{([carry] + rest)[|rest|]} == multiset(rest) + multiset{carry}
    decreases rest
  {
    if rest != [] && carry != X {
      var tail := Carry(rest[0], rest[1..]);
      CarryMultiset(rest[0], rest[1..]);
      assert multiset(Carry(carry, rest)) == multiset{carry} + multiset(tail) by {
        assert Carry(carry, rest) == [carry] + tail;
      }
      assert multiset(rest) == multiset{rest[0]} + multiset(rest[1..]) by {
        assert rest == [rest[0]] + rest[1..];
      }
      assert ([carry] + rest)[|rest|] == ([rest[0]] + rest[1..])[|rest[1..]|] by {
        assert rest == [rest[0]] + rest[1..];
      }
      assert X in [carry] + rest <==> X in [rest[0]] + rest[1..] by {
        assert rest == [rest[0]] + rest[1..];
      }
      if X in [rest[0]] + rest[1..] {
        CarryAlgebra(multiset(tail), multiset(rest[1..]), rest[0], carry, X);
      } else {
        CarryAlgebra(multiset(tail), multiset(rest[1..]), rest[0], carry, ([carry] + rest)[|rest|]);
      }
    }
  }

  /** Adding the carried value to both sides of the tail's equation. */
  lemma CarryAlgebra(tail: multiset<Cell>, rest: multiset<Cell>, first: Cell, carry: Cell, e: Cell)
    requires tail + multiset{e} == rest + multiset{first}
    ensures (multiset{carry} + tail) + multiset{e} == (multiset{first} + rest) + multiset{carry}
  {
    forall v ensures ((multiset{carry} + tail) + multiset{e})[v] == ((multiset{first} + rest) + multiset{carry})[v] {
      assert (tail + multiset{e})[v] == (rest + multiset{first})[v];
    }
  }

  /** The push keeps every marble on the line when the line has an empty cell,
      and otherwise loses exactly the edge marble, which leaves an extra empty cell. */
  lemma ShiftMultiset(line: seq<Cell>)
    requires line != []
    ensures X in line ==> multiset(Shift(line)) == multiset(line)
    ensures X !in line ==>
      multiset(Shift(line)) + multiset{line[|line| - 1]} == multiset(line) + multiset{X}
  {
    var rest := line[1..];
    var tail := Carry(line[0], rest);
    CarryMultiset(line[0], rest);
    assert line == [line[0]] + rest;
    assert multiset(line) == multiset(rest) + multiset{line[0]};
    assert Shift(line) == [X] + tail;
    assert multiset(Shift(line)) == multiset{X} + multiset(tail);
  }

  /** The board with the first |vals| cells of the push line replaced by vals,
      written one cell at a time from the chosen cell outwards. */
  function Overlay(b: seq<seq<Cell>>, r: int, c: int, d: Direction, vals: seq<Cell>): (o: seq<seq<Cell>>)
    requires IsBoard(b) && InBounds(r, c) && d != Other && |vals| <= Steps(r, c, d) + 1
    ensures IsBoard(o)
    decreases |vals|
  {
    if vals == [] then b
    else
      var n := |vals| - 1;
      var o := Overlay(b, r, c, d, vals[..n]);
      var p := Pos(r, c, d, n);
      PosOnLine(r, c, d, n);
      o[p.0 := o[p.0][p.1 := vals[n]]]
  }

  /** Cell (x, y) of an overlay: the written value on the line, the board's own cell elsewhere. */
  lemma {:induction false} OverlayAt(b: seq<seq<Cell>>, r: int, c: int, d: Direction, vals: seq<Cell>,
                                     x: int, y: int)
    requires IsBoard(b) && InBounds(r, c) && d != Other && |vals| <= Steps(r, c, d) + 1
    requires InBounds(x, y)
    ensures Overlay(b, r, c, d, vals)[x][y] ==
      if OnLine(r, c, d, x, y) && Index(r, c, d, x, y) < |vals| then vals[Index(r, c, d, x, y)] else b[x][y]
    decreases |vals|
  {
    if vals != [] {
      var n := |vals| - 1;
      OverlayAt(b, r, c, d, vals[..n], x, y);
      PosOnLine(r, c, d, n);
      if OnLine(r, c, d, x, y) {
        OnLinePos(r, c, d, x, y);
      }
    }
  }

  /** Writing one more value of the line is a single cell update. */
  lemma OverlaySnoc(b: seq<seq<Cell>>, r: int, c: int, d: Direction, vals: seq<Cell>, v: Cell)
    requires IsBoard(b) && InBounds(r, c) && d != Other && |vals| + 1 <= Steps(r, c, d) + 1
    ensures InBounds(Pos(r, c, d, |vals|).0, Pos(r, c, d, |vals|).1)
    ensures var p := Pos(r, c, d, |vals|);
            var o := Overlay(b, r, c, d, vals);
            Overlay(b, r, c, d, vals + [v]) == o[p.0 := o[p.0][p.1 := v]]
  {
    PosOnLine(r, c, d, |vals|);
    var w := vals + [v];
    assert |w| - 1 == |vals| && w[..|vals|] == vals && w[|vals|] == v;
  }

  /** Values equal to the cells already on the line change nothing. */
  lemma OverlayTail(b: seq<seq<Cell>>, r: int, c: int, d: Direction, vals: seq<Cell>, n: int)
    requires IsBoard(b) && InBounds(r, c) && d != Other && |vals| <= Steps(r, c, d) + 1
    requires 0 <= n <= |vals|
    requires forall j :: n <= j < |vals| ==> vals[j] == Line(b, r, c, d)[j]
    ensures Overlay(b, r, c, d, vals[..n]) == Overlay(b, r, c, d, vals)
  {
    var o := Overlay(b, r, c, d, vals[..n]);
    var o' := Overlay(b, r, c, d, vals);
    forall x | 0 <= x < 7 ensures o[x] == o'[x] {
      forall y | 0 <= y < 7 ensures o[x][y] == o'[x][y] {
        OverlayAt(b, r, c, d, vals[..n], x, y);
        OverlayAt(b, r, c, d, vals, x, y);
        if OnLine(r, c, d, x, y) {
          OnLinePos(r, c, d, x, y);
          LineAt(b, r, c, d, Index(r, c, d, x, y));
        }
      }
    }
  }

  /** Writing values onto the line swaps the line's old cells for them in the
      board's multiset of cells. */
  lemma {:induction false} OverlayCells(b: seq<seq<Cell>>, r: int, c: int, d: Direction, vals: seq<Cell>)
    requires IsBoard(b) && InBounds(r, c) && d != Other && |vals| <= Steps(r, c, d) + 1
    ensures Cells(Overlay(b, r, c, d, vals)) + multiset(Line(b, r, c, d)[..|vals|])
            == Cells(b) + multiset(vals)
  {
    var line := Line(b, r, c, d);
    if vals != [] {
      var n := |vals| - 1;
      var front := vals[..n];
      var o := Overlay(b, r, c, d, front);
      var after := Cells(Overlay(b, r, c, d, vals));
      OverlayCells(b, r, c, d, front);
      assert after + multiset{line[n]} == Cells(o) + multiset{vals[n]} by {
        assert vals == front + [vals[n]];
        OverlayCellsStep(b, r, c, d, front, vals[n]);
      }
      PrefixSnoc(line, n);
      PrefixSnoc(vals, n);
      SwapAlgebra(Cells(o), after, multiset(line[..n]), line[n], Cells(b), multiset(front), vals[n]);
    }
  }

  /** The multiset of a prefix one element longer. */
  lemma PrefixSnoc(s: seq<Cell>, n: int)
    requires 0 <= n < |s|
    ensures multiset(s[..n + 1]) == multiset(s[..n]) + multiset{s[n]}
    ensures n + 1 == |s| ==> multiset(s) == multiset(s[..n]) + multiset{s[n]}
  {
    assert s[..n + 1] == s[..n] + [s[n]];
    assert s[..|s|] == s;
  }

  /** Writing one more value of the line swaps one old cell of the line for it. */
  lemma OverlayCellsStep(b: seq<seq<Cell>>, r: int, c: int, d: Direction, front: seq<Cell>, v: Cell)
    requires IsBoard(b) && InBounds(r, c) && d != Other && |front| + 1 <= Steps(r, c, d) + 1
    ensures Cells(Overlay(b, r, c, d, front + [v])) + multiset{Line(b, r, c, d)[|front|]}
            == Cells(Overlay(b, r, c, d, front)) + multiset{v}
  {
    var o := Overlay(b, r, c, d, front);
    var p := Pos(r, c, d, |front|);
    OverlaySnoc(b, r, c, d, front, v);
    OverlayNext(b, r, c, d, front);
    CellsUpdate(o, p.0, p.1, v);
  }

  lemma SwapAlgebra(before: multiset<Cell>, after: multiset<Cell>, old_: multiset<Cell>, o: Cell,
                    base: multiset<Cell>, written: multiset<Cell>, v: Cell)
    requires after + multiset{o} == before + multiset{v}
    requires before + old_ == base + written
    ensures after + (old_ + multiset{o}) == base + (written + multiset{v})
  {
    forall e ensures (after + (old_ + multiset{o}))[e] == (base + (written + multiset{v}))[e] {
      assert (after + multiset{o})[e] == (before + multiset{v})[e];
      assert (before + old_)[e] == (base + written)[e];
    }
  }

  /** The board after pushing the marble at (r, c) in direction d. */
  function PushResult(b: seq<seq<Cell>>, r: int, c: int, d: Direction): (o: seq<seq<Cell>>)
    requires IsBoard(b) && InBounds(r, c) && d != Other
    ensures IsBoard(o)
  {
    Overlay(b, r, c, d, Shift(Line(b, r, c, d)))
  }

  /** Whether the push credits the mover with a red capture. The loop tests the
      edge cell for a red marble before it tests whether to stop, so the credit
      is given whenever the loop reaches the edge: when every cell before the
      one next to the edge is occupied, even if that one is empty. */
  predicate CaptureCredited(b: seq<seq<Cell>>, r: int, c: int, d: Direction): (credited: bool)
    requires IsBoard(b) && InBounds(r, c) && d != Other
    ensures credited ==> Edge(b, r, c, d) == R
    ensures X !in Line(b, r, c, d) ==> (credited <==> Edge(b, r, c, d) == R)
  {
    var line := Line(b, r, c, d);
    line[|line| - 1] == R && NoGapBefore(line, |line| - 2)
  }

  /** The push changes only the cells of the line from the chosen cell to the
      edge: the chosen cell is emptied, each later cell takes the marble before
      it until an empty cell has absorbed one, and every other cell is unchanged. */
  lemma PushFrame(b: seq<seq<Cell>>, r: int, c: int, d: Direction, x: int, y: int)
    requires IsBoard(b) && InBounds(r, c) && d != Other && InBounds(x, y)
    ensures !OnLine(r, c, d, x, y) ==> PushResult(b, r, c, d)[x][y] == b[x][y]
    ensures (x, y) == (r, c) ==> PushResult(b, r, c, d)[x][y] == X
    ensures OnLine(r, c, d, x, y) && Index(r, c, d, x, y) > 0 ==>
      PushResult(b, r, c, d)[x][y] ==
        if NoGapBefore(Line(b, r, c, d), Index(r, c, d, x, y))
        then Line(b, r, c, d)[Index(r, c, d, x, y) - 1]
        else b[x][y]
  {
    var line := Line(b, r, c, d);
    OverlayAt(b, r, c, d, Shift(line), x, y);
    if OnLine(r, c, d, x, y) {
      OnLinePos(r, c, d, x, y);
      LineAt(b, r, c, d, Index(r, c, d, x, y));
      ShiftAt(line, Index(r, c, d, x, y));
    }
  }

  /** Marble conservation: a push keeps every marble on the board when its line
      holds an empty cell, and otherwise removes exactly the edge marble. */
  lemma PushConservation(b: seq<seq<Cell>>, r: int, c: int, d: Direction)
    requires IsBoard(b) && InBounds(r, c) && d != Other
    ensures X in Line(b, r, c, d) ==> Cells(PushResult(b, r, c, d)) == Cells(b)
    ensures X !in Line(b, r, c, d) ==>
      Cells(PushResult(b, r, c, d)) + multiset{Edge(b, r, c, d)} == Cells(b) + multiset{X}
    ensures Cells(PushResult(b, r, c, d))[X] == Cells(b)[X] + (if X in Line(b, r, c, d) then 0 else 1)
  {
    if X in Line(b, r, c, d) {
      PushKeepsCells(b, r, c, d);
    } else {
      PushDropsEdge(b, r, c, d);
    }
  }

  /** The pushed board's cells trade the line's old cells for the shifted ones. */
  lemma PushSwapsLine(b: seq<seq<Cell>>, r: int, c: int, d: Direction)
    requires IsBoard(b) && InBounds(r, c) && d != Other
    ensures Cells(PushResult(b, r, c, d)) + multiset(Line(b, r, c, d))
            == Cells(b) + multiset(Shift(Line(b, r, c, d)))
  {
    var line := Line(b, r, c, d);
    OverlayCells(b, r, c, d, Shift(line));
    assert line[..|line|] == line;
  }

  lemma PushKeepsCells(b: seq<seq<Cell>>, r: int, c: int, d: Direction)
    requires IsBoard(b) && InBounds(r, c) && d != Other && X in Line(b, r, c, d)
    ensures Cells(PushResult(b, r, c, d)) == Cells(b)
  {
    var line := Line(b, r, c, d);
    PushSwapsLine(b, r, c, d);
    ShiftMultiset(line);
    CancelLine(Cells(PushResult(b, r, c, d)), Cells(b), multiset(line));
  }

  lemma PushDropsEdge(b: seq<seq<Cell>>, r: int, c: int, d: Direction)
    requires IsBoard(b) && InBounds(r, c) && d != Other && X !in Line(b, r, c, d)
    ensures Cells(PushResult(b, r, c, d)) + multiset{Edge(b, r, c, d)} == Cells(b) + multiset{X}
    ensures Cells(PushResult(b, r, c, d))[X] == Cells(b)[X] + 1
  {
    var line := Line(b, r, c, d);
    var e := Edge(b, r, c, d);
    PushSwapsLine(b, r, c, d);
    ShiftMultiset(line);
    assert e == line[|line| - 1] && e != X;
    DropEdge(Cells(PushResult(b, r, c, d)), Cells(b), multiset(line), multiset(Shift(line)), e);
  }

  lemma CancelLine(after: multiset<Cell>, before: multiset<Cell>, m: multiset<Cell>)
    requires after + m == before + m
    ensures after == before
  {
    forall e ensures after[e] == before[e] {
      assert (after + m)[e] == (before + m)[e];
    }
  }

  lemma DropEdge(after: multiset<Cell>, before: multiset<Cell>, line: multiset<Cell>,
                 shifted: multiset<Cell>, e: Cell)
    requires after + line == before + shifted
    requires shifted + multiset{e} == line + multiset{X}
    requires e != X
    ensures after + multiset{e} == before + multiset{X}
    ensures after[X] == before[X] + 1
  {
    forall v ensures (after + multiset{e})[v] == (before + multiset{X})[v] {
      assert (after + line)[v] == (before + shifted)[v];
      assert (shifted + multiset{e})[v] == (line + multiset{X})[v];
    }
    assert (after + multiset{e})[X] == (before + multiset{X})[X];
  }

  /** A credited capture removes a red marble from the board when the line has
      no empty cell. */
  lemma CaptureRemovesRed(b: seq<seq<Cell>>, r: int, c: int, d: Direction)
    requires IsBoard(b) && InBounds(r, c) && d != Other
    requires CaptureCredited(b, r, c, d) && X !in Line(b, r, c, d)
    ensures Cells(PushResult(b, r, c, d))[R] + 1 == Cells(b)[R]
  {
    PushConservation(b, r, c, d);
    var after := Cells(PushResult(b, r, c, d));
    assert Edge(b, r, c, d) == R;
    assert (after + multiset{R})[R] == (Cells(b) + multiset{X})[R];
  }

  /** Pushing an empty cell is a pass: the board is unchanged. */
  lemma EmptyOriginIsPass(b: seq<seq<Cell>>, r: int, c: int, d: Direction)
    requires IsBoard(b) && InBounds(r, c) && d != Other && b[r][c] == X
    ensures PushResult(b, r, c, d) == b
  {
    var line := Line(b, r, c, d);
    ShiftTail(line, 1);
    ShiftAt(line, 0);
    OverlayTail(b, r, c, d, Shift(line), 0);
  }

  /** Moving an empty cell changes nothing on the board yet may still credit a
      capture: on the row R X X X X X X, "pushing" the empty cell (0, 1) left
      reaches the red marble at the edge with nothing carried. */
  lemma EmptyCellCapture()
    ensures var b := [[R, X, X, X, X, X, X]] + seq(6, _ => [X, X, X, X, X, X, X]);
      IsBoard(b) && CaptureCredited(b, 0, 1, Left) && PushResult(b, 0, 1, Left) == b
  {
    var b := [[R, X, X, X, X, X, X]] + seq(6, _ => [X, X, X, X, X, X, X]);
    assert IsBoard(b);
    assert Line(b, 0, 1, Left) == [X, R];
    EmptyOriginIsPass(b, 0, 1, Left);
  }

  /** A red marble credited as captured may stay on the board: on the row
      R X W X X X X, pushing the white marble left credits a capture and leaves
      R W X X X X X. */
  lemma PhantomCapture()
    ensures var b := [[R, X, W, X, X, X, X]] + seq(6, _ => [X, X, X, X, X, X, X]);
      IsBoard(b) && CaptureCredited(b, 0, 2, Left) && PushResult(b, 0, 2, Left)[0][0] == R
  {
    var b := [[R, X, W, X, X, X, X]] + seq(6, _ => [X, X, X, X, X, X, X]);
    assert IsBoard(b);
    var line := Line(b, 0, 2, Left);
    assert line == [W, X, R];
    PushFrame(b, 0, 2, Left, 0, 0);
    assert !NoGapBefore(line, 2);
  }

  /** One step of the push loop that does not stop: the current cell still
      holds its original content, and writing the carried marble into it
      extends the written prefix of the pushed line by one. */
  lemma PushStep(board: seq<seq<Cell>>, r: int, c: int, d: Direction, i: int, prev: Cell,
                 tempBoard: seq<seq<Cell>>)
    requires IsBoard(board) && InBounds(r, c) && d != Other && 0 <= i <= Steps(r, c, d)
    requires prev == if i == 0 then X else Line(board, r, c, d)[i - 1]
    requires NoGapBefore(Line(board, r, c, d), i - 1) && (i == 0 || prev != X)
    requires tempBoard == Overlay(board, r, c, d, Shift(Line(board, r, c, d))[..i])
    ensures var p := Pos(r, c, d, i);
      && InBounds(p.0, p.1)
      && NoGapBefore(Line(board, r, c, d), i)
      && tempBoard[p.0 := tempBoard[p.0][p.1 := prev]]
         == Overlay(board, r, c, d, Shift(Line(board, r, c, d))[..i + 1])
  {
    var line := Line(board, r, c, d);
    var shifted := Shift(line);
    OverlaySnoc(board, r, c, d, shifted[..i], prev);
    if i > 0 {
      NoGapExtend(line, i);
    }
    ShiftAt(line, i);
    assert shifted[i] == prev;
    assert shifted[..i + 1] == shifted[..i] + [shifted[i]];
  }

  /** The loop's position (row, col), i steps along the line, is on the board,
      is the edge exactly at the last step, and advances by the step vector. */
  lemma PosFacts(r: int, c: int, d: Direction, i: int, row: int, col: int, dr: int, dc: int)
    requires InBounds(r, c) && d != Other && 0 <= i <= Steps(r, c, d)
    requires row == Pos(r, c, d, i).0 && col == Pos(r, c, d, i).1
    requires dr == StepOf(d).0 && dc == StepOf(d).1
    ensures InBounds(row, col)
    ensures IsEdge(row, col, d) <==> i == Steps(r, c, d)
    ensures row + dr == Pos(r, c, d, i + 1).0 && col + dc == Pos(r, c, d, i + 1).1
  {
  }

  /** The cell just after the written prefix of the line is still untouched. */
  lemma OverlayNext(b: seq<seq<Cell>>, r: int, c: int, d: Direction, vals: seq<Cell>)
    requires IsBoard(b) && InBounds(r, c) && d != Other && |vals| <= Steps(r, c, d)
    ensures var p := Pos(r, c, d, |vals|);
      InBounds(p.0, p.1) && Overlay(b, r, c, d, vals)[p.0][p.1] == Line(b, r, c, d)[|vals|]
  {
    PosOnLine(r, c, d, |vals|);
    LineAt(b, r, c, d, |vals|);
    OverlayAt(b, r, c, d, vals, Pos(r, c, d, |vals|).0, Pos(r, c, d, |vals|).1);
  }

  /** The push loop ran to the edge: the whole pushed line has been written. */
  lemma PushDone(board: seq<seq<Cell>>, r: int, c: int, d: Direction, tempBoard: seq<seq<Cell>>)
    requires IsBoard(board) && InBounds(r, c) && d != Other
    requires tempBoard == Overlay(board, r, c, d, Shift(Line(board, r, c, d))[..Steps(r, c, d) + 1])
    ensures tempBoard == PushResult(board, r, c, d)
  {
    var shifted := Shift(Line(board, r, c, d));
    assert shifted[..Steps(r, c, d) + 1] == shifted;
  }

  /** The push loop stops at an empty carried cell: what has been written so
      far is already the whole pushed board. */
  lemma PushStop(board: seq<seq<Cell>>, r: int, c: int, d: Direction, i: int, tempBoard: seq<seq<Cell>>)
    requires IsBoard(board) && InBounds(r, c) && d != Other && 1 <= i <= Steps(r, c, d)
    requires Line(board, r, c, d)[i - 1] == X
    requires tempBoard == Overlay(board, r, c, d, Shift(Line(board, r, c, d))[..i])
    ensures tempBoard == PushResult(board, r, c, d)
  {
    var line := Line(board, r, c, d);
    ShiftTail(line, i);
    OverlayTail(board, r, c, d, Shift(line), i);
  }

  /** The state of the push loop before step i, as (row, col, prev, tempBoard, credited):
      (row, col) is the cell i steps along the line, prev carries the line's cell i - 1 (the
      empty cell before the first step), the first i cells of the pushed line are written, and
      a capture is credited only once the loop has passed the edge holding a red marble. */
  ghost function PushState(board: seq<seq<Cell>>, r: int, c: int, d: Direction, i: int)
    : (state: (int, int, Cell, seq<seq<Cell>>, bool))
    requires IsBoard(board) && InBounds(r, c) && d != Other && 0 <= i <= Steps(r, c, d) + 1
  {
    var line := Line(board, r, c, d);
    (Pos(r, c, d, i).0, Pos(r, c, d, i).1,
     if i == 0 then X else line[i - 1],
     Overlay(board, r, c, d, Shift(line)[..i]),
     i == Steps(r, c, d) + 1 && line[Steps(r, c, d)] == R)
  }

  /** The loop state tuple, component by component. */
  lemma PushStateParts(board: seq<seq<Cell>>, r: int, c: int, d: Direction, i: int, row: int, col: int,
                       prev: Cell, tempBoard: seq<seq<Cell>>, credited: bool)
    requires IsBoard(board) && InBounds(r, c) && d != Other && 0 <= i <= Steps(r, c, d) + 1
    ensures (row, col, prev, tempBoard, credited) == PushState(board, r, c, d, i) <==>
      (row == Pos(r, c, d, i).0 && col == Pos(r, c, d, i).1 &&
       prev == (if i == 0 then X else Line(board, r, c, d)[i - 1]) &&
       tempBoard == Overlay(board, r, c, d, Shift(Line(board, r, c, d))[..i]) &&
       credited == (i == Steps(r, c, d) + 1 && Line(board, r, c, d)[Steps(r, c, d)] == R))
  {
  }

  /** The cell the push loop is at, before step i. */
  lemma PushLoopCell(board: seq<seq<Cell>>, r: int, c: int, d: Direction, i: int, row: int, col: int,
                     prev: Cell, tempBoard: seq<seq<Cell>>, credited: bool)
    requires IsBoard(board) && InBounds(r, c) && d != Other && 0 <= i <= Steps(r, c, d)
    requires (row, col, prev, tempBoard, credited) == PushState(board, r, c, d, i)
    ensures InBounds(row, col) && IsBoard(tempBoard)
    ensures tempBoard[row][col] == Line(board, r, c, d)[i]
    ensures IsEdge(row, col, d) <==> i == Steps(r, c, d)
  {
    PosFacts(r, c, d, i, row, col, StepOf(d).0, StepOf(d).1);
    OverlayNext(board, r, c, d, Shift(Line(board, r, c, d))[..i]);
  }

  /** The push loop stops at an empty carried cell: the push is finished and the credit is
      decided. */
  lemma PushLoopStop(board: seq<seq<Cell>>, r: int, c: int, d: Direction, i: int, row: int, col: int,
                     prev: Cell, tempBoard: seq<seq<Cell>>, credited: bool, credited': bool)
    requires IsBoard(board) && InBounds(r, c) && d != Other && 1 <= i <= Steps(r, c, d)
    requires NoGapBefore(Line(board, r, c, d), i - 1)
    requires (row, col, prev, tempBoard, credited) == PushState(board, r, c, d, i)
    requires prev == X
    requires credited' == (credited || (i == Steps(r, c, d) && Line(board, r, c, d)[i] == R))
    ensures tempBoard == PushResult(board, r, c, d) && credited' == CaptureCredited(board, r, c, d)
  {
    PushStop(board, r, c, d, i, tempBoard);
    CreditStop(Line(board, r, c, d), i, credited');
  }

  /** The push loop has swapped prev into cell i - 1 and moved on to cell i. */
  lemma PushLoopNext(board: seq<seq<Cell>>, r: int, c: int, d: Direction, i: int,
                     row0: int, col0: int, prev0: Cell, tempBoard0: seq<seq<Cell>>, credited0: bool,
                     row: int, col: int, prev: Cell, tempBoard: seq<seq<Cell>>, credited: bool)
    requires IsBoard(board) && InBounds(r, c) && d != Other && 1 <= i <= Steps(r, c, d) + 1
    requires NoGapBefore(Line(board, r, c, d), i - 2)
    requires (row0, col0, prev0, tempBoard0, credited0) == PushState(board, r, c, d, i - 1)
    requires i == 1 || prev0 != X
    requires InBounds(row0, col0) && IsBoard(tempBoard0)
    requires row == row0 + StepOf(d).0 && col == col0 + StepOf(d).1
    requires prev == tempBoard0[row0][col0]
    requires tempBoard == tempBoard0[row0 := tempBoard0[row0][col0 := prev0]]
    requires credited == (credited0 || (i - 1 == Steps(r, c, d) && Line(board, r, c, d)[i - 1] == R))
    ensures NoGapBefore(Line(board, r, c, d), i - 1)
    ensures (row, col, prev, tempBoard, credited) == PushState(board, r, c, d, i)
  {
    PushStateParts(board, r, c, d, i - 1, row0, col0, prev0, tempBoard0, credited0);
    PosFacts(r, c, d, i - 1, row0, col0, StepOf(d).0, StepOf(d).1);
    OverlayNext(board, r, c, d, Shift(Line(board, r, c, d))[..i - 1]);
    PushStep(board, r, c, d, i - 1, prev0, tempBoard0);
    PushStateParts(board, r, c, d, i, row, col, prev, tempBoard, credited);
  }

  /** The push loop ran past the edge: the push is finished and the credit is decided. */
  lemma PushLoopDone(board: seq<seq<Cell>>, r: int, c: int, d: Direction, row: int, col: int,
                     prev: Cell, tempBoard: seq<seq<Cell>>, credited: bool)
    requires IsBoard(board) && InBounds(r, c) && d != Other
    requires NoGapBefore(Line(board, r, c, d), Steps(r, c, d))
    requires (row, col, prev, tempBoard, credited) == PushState(board, r, c, d, Steps(r, c, d) + 1)
    ensures tempBoard == PushResult(board, r, c, d) && credited == CaptureCredited(board, r, c, d)
  {
    PushDone(board, r, c, d, tempBoard);
    assert NoGapBefore(Line(board, r, c, d), Steps(r, c, d) - 1);
  }

  /** The push loop stops early at an empty carried cell: it credited a capture exactly when
      it stopped at the edge with a red marble there, which is the credited condition. */
  lemma CreditStop(line: seq<Cell>, i: int, credited: bool)
    requires 1 <= i < |line| && line[i - 1] == X && NoGapBefore(line, i - 1)
    requires credited == (i == |line| - 1 && line[|line| - 1] == R)
    ensures credited == (line[|line| - 1] == R && NoGapBefore(line, |line| - 2))
  {
  }

  /** Simulates the push on a copy of the board, one cell at a time along the
      step vector, and reports whether it credits a red capture. */
  method SimulatePush(board: seq<seq<Cell>>, r: int, c: int, d: Direction)
    returns (tempBoard: seq<seq<Cell>>, credited: bool)
    requires IsBoard(board) && InBounds(r, c) && d != Other
    ensures tempBoard == PushResult(board, r, c, d)
    ensures credited == CaptureCredited(board, r, c, d)
  {
    var k := Steps(r, c, d);
    var dr, dc := StepOf(d).0, StepOf(d).1;
    tempBoard := board;
    credited := false;
    var prev := X;
    var row, col := r, c;
    var i := 0;
    assert Shift(Line(board, r, c, d))[..0] == [];
    while i <= k
      invariant 0 <= i <= k + 1
      invariant NoGapBefore(Line(board, r, c, d), i - 1)
      invariant (row, col, prev, tempBoard, credited) == PushState(board, r, c, d, i)
      decreases k + 1 - i
    {
      PushLoopCell(board, r, c, d, i, row, col, prev, tempBoard, credited);
      ghost var row0, col0, prev0, tempBoard0, credited0 := row, col, prev, tempBoard, credited;
      var temp := tempBoard[row][col];
      credited := credited || (IsEdge(row, col, d) && temp == R);
      if i != 0 && prev == X {
        PushLoopStop(board, r, c, d, i, row, col, prev, tempBoard, credited0, credited);
        break;
      }
      tempBoard := tempBoard[row := tempBoard[row][col := prev]];
      prev := temp;
      row, col := row + dr, col + dc;
      i := i + 1;
      PushLoopNext(board, r, c, d, i, row0, col0, prev0, tempBoard0, credited0, row, col, prev, tempBoard, credited);
    }
    if i == k + 1 {
      PushLoopDone(board, r, c, d, row, col, prev, tempBoard, credited);
    }
  }
}
