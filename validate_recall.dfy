// The validation screen (src/ValidateRecall.jsx): rebuilding the test board
// from the saved test moves, and comparing each test move with the projected
// board of the training screen.

module ValidateRecall {
  import opened Wrappers
  import opened NumberText
  import opened Board
  import opened TestRecall

  const NoMoves: string := "No moves to validate"
  const AllMatch: string := "All moves match! \U{1F389}"

  // ---------------------------------------------------------------------------
  // Rebuilding the test board (loadTestMoves)
  // ---------------------------------------------------------------------------

  /** A move the rebuild writes: both coordinates present and on the board. */
  predicate Writes(m: TestMove) {
    m.x.Some? && m.y.Some? && InRange(m.x.value, m.y.value)
  }

  /** The board after the first k test moves have been written. */
  function Rebuilt(moves: seq<TestMove>, k: nat): (g: Grid)
    requires k <= |moves|
    ensures IsBoard(g)
  {
    if k == 0 then EmptyBoard()
    else
      var m := moves[k - 1];
      var g := Rebuilt(moves, k - 1);
      if Writes(m) then Put(g, m.x.value, m.y.value, Stone(m.sign, Some(m.moveNumber))) else g
  }

  /** The last of the first k moves that writes cell (x, y). */
  function LastWriteAt(moves: seq<TestMove>, k: nat, x: int, y: int): (r: Option<nat>)
    requires k <= |moves|
    ensures r.Some? ==> r.value < k && Writes(moves[r.value]) && moves[r.value].x == Some(x) && moves[r.value].y == Some(y)
    ensures r.Some? ==> forall j :: r.value < j < k ==> !(Writes(moves[j]) && moves[j].x == Some(x) && moves[j].y == Some(y))
    ensures r.None? ==> forall j :: 0 <= j < k ==> !(Writes(moves[j]) && moves[j].x == Some(x) && moves[j].y == Some(y))
  {
    if k == 0 then None
    else if Writes(moves[k - 1]) && moves[k - 1].x == Some(x) && moves[k - 1].y == Some(y) then Some(k - 1)
    else LastWriteAt(moves, k - 1, x, y)
  }

  /** Each cell holds the sign and number of the last move written to it, and
      is empty when no move with integer on-board coordinates names it. */
  lemma {:induction false} RebuiltCell(moves: seq<TestMove>, k: nat, x: int, y: int)
    requires k <= |moves| && InRange(x, y)
    ensures Rebuilt(moves, k)[y][x] ==
      match LastWriteAt(moves, k, x, y)
      case None => Empty
      case Some(i) => Stone(moves[i].sign, Some(moves[i].moveNumber))
  {
    if k > 0 {
      RebuiltCell(moves, k - 1, x, y);
    }
  }

  /** The `forEach` of `loadTestMoves` writing cells of a fresh board. */
  method RebuildTestBoard(moves: seq<TestMove>) returns (board: Grid)
    ensures board == Rebuilt(moves, |moves|)
  {
    board := EmptyBoard();
    var i := 0;
    while i < |moves|
      invariant 0 <= i <= |moves|
      invariant board == Rebuilt(moves, i)
    {
      var m := moves[i];
      if m.x.Some? && m.y.Some? && 0 <= m.x.value < Size && 0 <= m.y.value < Size {
        board := Put(board, m.x.value, m.y.value, Stone(m.sign, Some(m.moveNumber)));
      }
      i := i + 1;
    }
  }

  /** The moves a recall test records rebuild its board without the setup
      stones: a numbered cell comes back as it was, every other cell is empty. */
  lemma RebuiltMatchesTest(s: RecallState, x: int, y: int)
    requires Inv(s) && InRange(x, y)
    ensures var c := s.board[y][x];
      Rebuilt(s.moves, |s.moves|)[y][x] == (if c.Stone? && c.number.Some? then c else Empty)
  {
    RebuiltCell(s.moves, |s.moves|, x, y);
    var c := s.board[y][x];
    assert NumberedOk(s, x, y);
    assert c.Stone? && c.number.Some? ==> PlacedOk(s, c.number.value - 1);
    var last := LastWriteAt(s.moves, |s.moves|, x, y);
    if last.Some? {
      assert PlacedOk(s, last.value);
    }
  }

  // ---------------------------------------------------------------------------
  // Comparing with the projected board (validate)
  // ---------------------------------------------------------------------------

  /** A cell of the projected board carries the move number n. */
  predicate HasNumber(c: Cell, n: int) {
    c.Stone? && c.number == Some(n)
  }

  /** Some cell of the board, in any row of any length, carries number n. */
  predicate NumberOnBoard(g: Grid, n: int) {
    exists r, c :: 0 <= r < |g| && 0 <= c < |g[r]| && HasNumber(g[r][c], n)
  }

  /** The nested search for a pass move's number, leaving both loops once found. */
  method SearchMoveNumber(g: Grid, n: int) returns (found: bool)
    ensures found <==> NumberOnBoard(g, n)
  {
    found := false;
    var r := 0;
    while r < |g| && !found
      invariant 0 <= r <= |g|
      invariant found ==> NumberOnBoard(g, n)
      invariant !found ==> forall r', c :: 0 <= r' < r && 0 <= c < |g[r']| ==> !HasNumber(g[r'][c], n)
    {
      var c := 0;
      while c < |g[r]|
        invariant 0 <= c <= |g[r]|
        invariant found ==> NumberOnBoard(g, n)
        invariant !found ==> forall c' :: 0 <= c' < c ==> !HasNumber(g[r][c'], n)
      {
        if HasNumber(g[r][c], n) {
          found := true;
          break;
        }
        c := c + 1;
      }
      r := r + 1;
    }
  }

  /** The sign shown by a cell: 0 when empty or past the end of a short row. */
  function CellSign(c: Option<Cell>): int {
    if c.Some? && c.value.Stone? then c.value.sign else 0
  }

  /** The move number of a cell: none when empty, a setup stone, or missing. */
  function CellNumber(c: Option<Cell>): Option<int> {
    if c.Some? && c.value.Stone? then c.value.number else None
  }

  /** The board's size as the validator reads it: rows, and the first row's length. */
  predicate OnValidatedBoard(g: Grid, x: int, y: int) {
    0 <= y < |g| && 0 <= x < |g[0]|
  }

  /** Whether a test move is reported: a pass when its number appears on the
      board; a move off the board always; otherwise when the cell's sign or
      number differs from the move's. */
  predicate IsMismatch(m: TestMove, g: Grid) {
    if m.x.None? || m.y.None? then NumberOnBoard(g, m.moveNumber)
    else if !OnValidatedBoard(g, m.x.value, m.y.value) then true
    else
      var cell := if m.x.value < |g[m.y.value]| then Some(g[m.y.value][m.x.value]) else None;
      CellSign(cell) != m.sign || CellNumber(cell) != Some(m.moveNumber)
  }

  /** The move numbers of the mismatched moves among the first k, in order. */
  function Mismatches(moves: seq<TestMove>, g: Grid, k: nat): seq<int>
    requires k <= |moves|
  {
    if k == 0 then []
    else Mismatches(moves, g, k - 1) + (if IsMismatch(moves[k - 1], g) then [moves[k - 1].moveNumber] else [])
  }

  /** Lines joined by "\n", as `Array.prototype.join` does. */
  function JoinLines(lines: seq<string>): string {
    if |lines| == 0 then ""
    else if |lines| == 1 then lines[0]
    else lines[0] + "\n" + JoinLines(lines[1..])
  }

  /** The text split at every "\n", as `String.prototype.split` does. */
  function SplitLines(s: string): (lines: seq<string>)
    ensures |lines| >= 1
  {
    if |s| == 0 then [""]
    else
      var rest := SplitLines(s[1..]);
      if s[0] == '\n' then [""] + rest else [[s[0]] + rest[0]] + rest[1..]
  }

  function MoveLine(moveNumber: int): string {
    "Move " + IntToString(moveNumber)
  }

  function Header(count: nat): string {
    "Found " + NatToString(count) + " incorrect moves:"
  }

  /** The validation message for the test moves against the projected board. */
  function ValidationMessage(testMoves: seq<TestMove>, g: Grid, totalSgfMoves: int): string {
    if |testMoves| == 0 then NoMoves
    else
      var mm := Mismatches(testMoves, g, |testMoves|);
      if |mm| == 0 && totalSgfMoves == |testMoves| then AllMatch
      else Header(|mm|) + "\n" + JoinLines(seq(|mm|, i requires 0 <= i < |mm| => MoveLine(mm[i])))
  }

  /** The callback `validate` maps over the test moves. */
  method CheckMove(move: TestMove, sgfBoard: Grid) returns (isMismatch: bool)
    ensures isMismatch == IsMismatch(move, sgfBoard)
  {
    if move.x.None? || move.y.None? {
      isMismatch := SearchMoveNumber(sgfBoard, move.moveNumber);
    } else if move.y.value < 0 || move.y.value >= |sgfBoard| || move.x.value < 0 || move.x.value >= |sgfBoard[0]| {
      isMismatch := true;
    } else {
      var sgfCell := if move.x.value < |sgfBoard[move.y.value]| then Some(sgfBoard[move.y.value][move.x.value]) else None;
      isMismatch := CellSign(sgfCell) != move.sign || CellNumber(sgfCell) != Some(move.moveNumber);
    }
  }

  /** The `map(...).filter(Boolean)` of `validate` over the test moves. */
  method CollectMismatches(testMoves: seq<TestMove>, sgfBoard: Grid) returns (mismatches: seq<int>)
    ensures mismatches == Mismatches(testMoves, sgfBoard, |testMoves|)
  {
    mismatches := [];
    var i := 0;
    while i < |testMoves|
      invariant 0 <= i <= |testMoves|
      invariant mismatches == Mismatches(testMoves, sgfBoard, i)
    {
      var move := testMoves[i];
      var isMismatch := CheckMove(move, sgfBoard);
      if isMismatch {
        mismatches := mismatches + [move.moveNumber];
      }
      i := i + 1;
    }
  }

  /** `validate`: the message for the test moves against the projected board. */
  method Validate(testMoves: seq<TestMove>, sgfBoard: Grid, totalSgfMoves: int) returns (message: string)
    ensures message == ValidationMessage(testMoves, sgfBoard, totalSgfMoves)
  {
    if |testMoves| == 0 {
      return NoMoves;
    }
    var mismatches := CollectMismatches(testMoves, sgfBoard);
    if |mismatches| == 0 && totalSgfMoves == |testMoves| {
      message := AllMatch;
    } else {
      var mismatchList := seq(|mismatches|, j requires 0 <= j < |mismatches| => MoveLine(mismatches[j]));
      message := Header(|mismatches|) + "\n" + JoinLines(mismatchList);
    }
  }

  // ---------------------------------------------------------------------------
  // What the message means
  // ---------------------------------------------------------------------------

  /** With moves numbered 1, 2, ... (as the test board records them), the
      mismatches are listed once each, ascending, and k is listed exactly when
      move k is a mismatch. */
  lemma {:induction false} MismatchesMeaning(moves: seq<TestMove>, g: Grid, k: nat)
    requires k <= |moves|
    requires forall i :: 0 <= i < |moves| ==> moves[i].moveNumber == i + 1
    ensures forall a, b :: 0 <= a < b < |Mismatches(moves, g, k)| ==> Mismatches(moves, g, k)[a] < Mismatches(moves, g, k)[b]
    ensures forall a :: 0 <= a < |Mismatches(moves, g, k)| ==> 1 <= Mismatches(moves, g, k)[a] <= k
    ensures forall n :: 1 <= n <= k ==> (n in Mismatches(moves, g, k) <==> IsMismatch(moves[n - 1], g))
  {
    if k > 0 {
      MismatchesMeaning(moves, g, k - 1);
      assert moves[k - 1].moveNumber == k;
    }
  }

  lemma {:induction false} SplitAtNewline(a: string, b: string)
    ensures SplitLines(a + "\n" + b) == SplitLines(a) + SplitLines(b)
    decreases |a|
  {
    var t := a + "\n" + b;
    if |a| == 0 {
      assert t[0] == '\n' && t[1..] == b;
    } else {
      var u := a[1..] + "\n" + b;
      assert t[0] == a[0] && t[1..] == u;
      SplitAtNewline(a[1..], b);
      var ra := SplitLines(a[1..]);
      assert SplitLines(u) == ra + SplitLines(b);
      if a[0] != '\n' {
        assert (ra + SplitLines(b))[0] == ra[0];
        assert (ra + SplitLines(b))[1..] == ra[1..] + SplitLines(b);
      }
    }
  }

  lemma {:induction false} SplitSingleLine(s: string)
    requires '\n' !in s
    ensures SplitLines(s) == [s]
    decreases |s|
  {
    if |s| > 0 {
      assert s[0] in s;
      assert forall c :: c in s[1..] ==> c in s;
      SplitSingleLine(s[1..]);
      assert [s[0]] + s[1..] == s;
    }
  }

  /** Splitting the joined lines gives them back, when none holds a newline. */
  lemma {:induction false} SplitJoin(lines: seq<string>)
    requires |lines| > 0
    requires forall i :: 0 <= i < |lines| ==> '\n' !in lines[i]
    ensures SplitLines(JoinLines(lines)) == lines
    decreases |lines|
  {
    SplitSingleLine(lines[0]);
    if |lines| > 1 {
      SplitJoin(lines[1..]);
      SplitAtNewline(lines[0], JoinLines(lines[1..]));
    }
  }

  lemma MoveLineSingle(n: int)
    ensures '\n' !in MoveLine(n)
  {
    var digits := if n < 0 then NatToString(-n) else NatToString(n);
    assert AllDigits(digits);
    assert IntToString(n) == (if n < 0 then "-" + digits else digits);
    assert forall c :: c in digits ==> IsDigit(c) by {
      forall c | c in digits ensures IsDigit(c) {
        var k :| 0 <= k < |digits| && digits[k] == c;
      }
    }
  }

  /** The message read line by line: success only when there are moves, none
      mismatches and the counts agree; otherwise a header with the number of
      mismatches followed by one "Move k" line per mismatch in order. */
  lemma ValidationOutcome(testMoves: seq<TestMove>, g: Grid, totalSgfMoves: int)
    ensures var msg := ValidationMessage(testMoves, g, totalSgfMoves);
      var mm := Mismatches(testMoves, g, |testMoves|);
      (msg == NoMoves <==> |testMoves| == 0)
      && (msg == AllMatch <==> |testMoves| > 0 && |mm| == 0 && totalSgfMoves == |testMoves|)
      && (msg != NoMoves && msg != AllMatch ==>
            SplitLines(msg) == [Header(|mm|)]
              + (if |mm| == 0 then [""] else seq(|mm|, i requires 0 <= i < |mm| => MoveLine(mm[i]))))
  {
    if |testMoves| > 0 {
      var mm := Mismatches(testMoves, g, |testMoves|);
      if !(|mm| == 0 && totalSgfMoves == |testMoves|) {
        var lines := seq(|mm|, i requires 0 <= i < |mm| => MoveLine(mm[i]));
        var msg := Header(|mm|) + "\n" + JoinLines(lines);
        assert msg[0] == 'F';
        assert AllMatch[0] == 'A' && NoMoves[0] == 'N';
        HeaderSingle(|mm|);
        SplitAtNewline(Header(|mm|), JoinLines(lines));
        SplitSingleLine(Header(|mm|));
        if |mm| > 0 {
          forall i | 0 <= i < |lines|
            ensures '\n' !in lines[i]
          {
            MoveLineSingle(mm[i]);
          }
          SplitJoin(lines);
        }
      }
    }
  }

  lemma HeaderSingle(count: nat)
    ensures '\n' !in Header(count)
  {
    var digits := NatToString(count);
    assert AllDigits(digits);
    assert forall c :: c in digits ==> IsDigit(c) by {
      forall c | c in digits ensures IsDigit(c) {
        var k :| 0 <= k < |digits| && digits[k] == c;
      }
    }
  }
}
