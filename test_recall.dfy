// The recall test board (src/TestRecall.jsx): the player places stones on an
// empty board (keeping any setup stones of the position), passes and undoes;
// the moves carry 1-based numbers and alternating signs.

module TestRecall {
  import opened Wrappers
  import opened Board

  /** One recorded test move; a pass has no coordinates. */
  datatype TestMove = TestMove(x: Option<int>, y: Option<int>, sign: int, moveNumber: int)

  datatype RecallState = RecallState(board: Grid, moves: seq<TestMove>, nextPlayerIsBlack: bool)

  /** What the training screen saved about the last projected position. */
  datatype LastProcessed = LastProcessed(comments: Option<seq<string>>, signMap: Option<Grid>, startPlayer: Option<int>)

  function SignOf(black: bool): (sign: int)
    ensures sign == 1 || sign == -1
    ensures sign == 1 <==> black
  {
    if black then 1 else -1
  }

  /** A placed move names a cell; a pass names none. */
  predicate Placed(m: TestMove) {
    m.x.Some? && m.y.Some?
  }

  /** Every move with coordinates lies on the board. */
  predicate MovesOnBoard(moves: seq<TestMove>) {
    forall i :: 0 <= i < |moves| && Placed(moves[i]) ==> InRange(moves[i].x.value, moves[i].y.value)
  }

  // ---------------------------------------------------------------------------
  // Transitions
  // ---------------------------------------------------------------------------

  /** `placeStone(x, y)`: nothing happens without both coordinates or on an
      occupied cell; otherwise the next player's stone goes on a copy of the
      board with the next move number, the move is recorded and the turn passes. */
  function Place(s: RecallState, x: Option<int>, y: Option<int>): (r: RecallState)
    requires IsBoard(s.board)
    requires x.Some? && y.Some? ==> InRange(x.value, y.value)
    ensures IsBoard(r.board)
  {
    if x.None? || y.None? then s
    else if s.board[y.value][x.value] != Empty then s
    else
      var sign := SignOf(s.nextPlayerIsBlack);
      var moveNumber := |s.moves| + 1;
      RecallState(Put(s.board, x.value, y.value, Stone(sign, Some(moveNumber))),
                  s.moves + [TestMove(x, y, sign, moveNumber)],
                  !s.nextPlayerIsBlack)
  }

  /** `pass()`: a move without coordinates; the board stays as it is. */
  function Pass(s: RecallState): (r: RecallState) {
    RecallState(s.board,
                s.moves + [TestMove(None, None, SignOf(s.nextPlayerIsBlack), |s.moves| + 1)],
                !s.nextPlayerIsBlack)
  }

  /** `undo()`: drops the last move, clears its cell if it had one, and gives
      the turn back; with no moves nothing happens. */
  function Undo(s: RecallState): (r: RecallState)
    requires IsBoard(s.board) && MovesOnBoard(s.moves)
    ensures IsBoard(r.board)
  {
    if |s.moves| == 0 then s
    else
      var last := s.moves[|s.moves| - 1];
      var board := if Placed(last) then Put(s.board, last.x.value, last.y.value, Empty) else s.board;
      RecallState(board, s.moves[..|s.moves| - 1], !s.nextPlayerIsBlack)
  }

  /** `startWithWhite`: an empty board, no moves, and black to play unless
      white was asked for. */
  function Restart(startWhite: bool): (r: RecallState)
    ensures IsBoard(r.board)
  {
    RecallState(EmptyBoard(), [], !startWhite)
  }

  /** The setup stones (those without a move number) of a saved position. */
  function SetupOnly(signMap: Grid): (g: Grid)
    requires IsBoard(signMap)
    ensures IsBoard(g)
  {
    seq(Size, y requires 0 <= y < Size =>
      seq(Size, x requires 0 <= x < Size =>
        if signMap[y][x].Stone? && signMap[y][x].number.None? then Stone(signMap[y][x].sign, None) else Empty))
  }

  lemma SetupOnlyMeaning(signMap: Grid, x: int, y: int)
    requires IsBoard(signMap) && InRange(x, y)
    ensures SetupOnly(signMap)[y][x].Stone? <==> signMap[y][x].Stone? && signMap[y][x].number.None?
    ensures SetupOnly(signMap)[y][x].Stone? ==> SetupOnly(signMap)[y][x] == signMap[y][x]
  {
  }

  // ---------------------------------------------------------------------------
  // The invariant the transitions keep
  // ---------------------------------------------------------------------------

  /** Signs alternate backwards from the player to move: the last move was
      the other player's. */
  function AltSign(nextPlayerIsBlack: bool, distance: nat): int {
    if distance % 2 == 0 then SignOf(nextPlayerIsBlack) else -SignOf(nextPlayerIsBlack)
  }

  /** Move i sits on its cell with its sign and number. */
  predicate PlacedOk(s: RecallState, i: int)
    requires IsBoard(s.board) && 0 <= i < |s.moves|
  {
    var m := s.moves[i];
    (m.x.Some? <==> m.y.Some?)
    && (Placed(m) ==> InRange(m.x.value, m.y.value) && s.board[m.y.value][m.x.value] == Stone(m.sign, Some(i + 1)))
  }

  /** A numbered stone is the stone of the move with that number. */
  predicate NumberedOk(s: RecallState, x: int, y: int)
    requires IsBoard(s.board) && InRange(x, y)
  {
    var c := s.board[y][x];
    c.Stone? && c.number.Some? ==>
      1 <= c.number.value <= |s.moves| && s.moves[c.number.value - 1].x == Some(x)
      && s.moves[c.number.value - 1].y == Some(y)
  }

  ghost predicate Inv(s: RecallState) {
    IsBoard(s.board)
    && (forall i :: 0 <= i < |s.moves| ==> s.moves[i].moveNumber == i + 1)
    && (forall i :: 0 <= i < |s.moves| ==> s.moves[i].sign == AltSign(s.nextPlayerIsBlack, |s.moves| - i))
    && (forall i :: 0 <= i < |s.moves| ==> PlacedOk(s, i))
    && (forall x, y :: InRange(x, y) ==> NumberedOk(s, x, y))
  }

  lemma InvMovesOnBoard(s: RecallState)
    requires Inv(s)
    ensures MovesOnBoard(s.moves)
  {
    forall i | 0 <= i < |s.moves| && Placed(s.moves[i])
      ensures InRange(s.moves[i].x.value, s.moves[i].y.value)
    {
      assert PlacedOk(s, i);
    }
  }

  /** A fresh board with only setup stones and no moves satisfies the invariant. */
  lemma FreshInv(board: Grid, nextPlayerIsBlack: bool)
    requires IsBoard(board)
    requires forall x, y :: InRange(x, y) && board[y][x].Stone? ==> board[y][x].number.None?
    ensures Inv(RecallState(board, [], nextPlayerIsBlack))
  {
  }

  lemma {:induction false} PlaceKeepsInv(s: RecallState, x: Option<int>, y: Option<int>)
    requires Inv(s)
    requires x.Some? && y.Some? ==> InRange(x.value, y.value)
    ensures Inv(Place(s, x, y))
  {
    if x.Some? && y.Some? && s.board[y.value][x.value] == Empty {
      var r := Place(s, x, y);
      var L := |s.moves|;
      forall i | 0 <= i < |r.moves|
        ensures r.moves[i].sign == AltSign(r.nextPlayerIsBlack, |r.moves| - i)
      {
        if i < L {
          assert r.moves[i] == s.moves[i];
        }
      }
      forall i | 0 <= i < |r.moves|
        ensures PlacedOk(r, i)
      {
        if i < L {
          assert r.moves[i] == s.moves[i];
          assert PlacedOk(s, i);
        }
      }
      forall x', y' | InRange(x', y')
        ensures NumberedOk(r, x', y')
      {
        assert NumberedOk(s, x', y');
        if (x', y') != (x.value, y.value) {
          assert r.board[y'][x'] == s.board[y'][x'];
        }
      }
    }
  }

  lemma {:induction false} PassKeepsInv(s: RecallState)
    requires Inv(s)
    ensures Inv(Pass(s))
  {
    var r := Pass(s);
    var L := |s.moves|;
    forall i | 0 <= i < |r.moves|
      ensures r.moves[i].sign == AltSign(r.nextPlayerIsBlack, |r.moves| - i)
    {
      if i < L {
        assert r.moves[i] == s.moves[i];
      }
    }
    forall i | 0 <= i < |r.moves|
      ensures PlacedOk(r, i)
    {
      if i < L {
        assert r.moves[i] == s.moves[i];
        assert PlacedOk(s, i);
      }
    }
    forall x, y | InRange(x, y)
      ensures NumberedOk(r, x, y)
    {
      assert NumberedOk(s, x, y);
    }
  }

  lemma {:induction false} UndoKeepsInv(s: RecallState)
    requires Inv(s)
    ensures MovesOnBoard(s.moves) && Inv(Undo(s))
  {
    InvMovesOnBoard(s);
    if |s.moves| > 0 {
      var r := Undo(s);
      var L := |s.moves|;
      var last := s.moves[L - 1];
      assert PlacedOk(s, L - 1);
      forall i | 0 <= i < |r.moves|
        ensures r.moves[i].sign == AltSign(r.nextPlayerIsBlack, |r.moves| - i)
      {
        assert r.moves[i] == s.moves[i];
      }
      forall i | 0 <= i < |r.moves|
        ensures PlacedOk(r, i)
      {
        assert r.moves[i] == s.moves[i];
        assert PlacedOk(s, i);
      }
      forall x, y | InRange(x, y)
        ensures NumberedOk(r, x, y)
      {
        assert NumberedOk(s, x, y);
        if !(Placed(last) && (x, y) == (last.x.value, last.y.value)) {
          assert r.board[y][x] == s.board[y][x];
        }
      }
    }
  }

  /** Undoing a stone just placed on an empty cell restores the board, the
      moves and the player to move. */
  lemma PlaceThenUndo(s: RecallState, x: int, y: int)
    requires IsBoard(s.board) && MovesOnBoard(s.moves) && InRange(x, y) && s.board[y][x] == Empty
    ensures var p := Place(s, Some(x), Some(y)); MovesOnBoard(p.moves) && Undo(p) == s
  {
    var p := Place(s, Some(x), Some(y));
    assert p.moves[..|p.moves| - 1] == s.moves;
    assert s.board[y][x := Stone(SignOf(s.nextPlayerIsBlack), Some(|s.moves| + 1))][x := Empty] == s.board[y];
  }

  /** Undoing a pass restores the state. */
  lemma PassThenUndo(s: RecallState)
    requires IsBoard(s.board) && MovesOnBoard(s.moves)
    ensures MovesOnBoard(Pass(s).moves) && Undo(Pass(s)) == s
  {
    assert Pass(s).moves[..|s.moves|] == s.moves;
  }

  // ---------------------------------------------------------------------------
  // The component
  // ---------------------------------------------------------------------------

  /** The nested loops of `componentDidMount` that copy the setup stones of
      the saved position onto an empty board. */
  method CopySetupStones(signMap: Grid) returns (newBoard: Grid)
    requires IsBoard(signMap)
    ensures newBoard == SetupOnly(signMap)
  {
    newBoard := EmptyBoard();
    var y := 0;
    while y < Size
      invariant 0 <= y <= Size
      invariant IsBoard(newBoard)
      invariant forall y', x' :: 0 <= y' < y && 0 <= x' < Size ==> newBoard[y'][x'] == SetupOnly(signMap)[y'][x']
      invariant forall y', x' :: y <= y' < Size && 0 <= x' < Size ==> newBoard[y'][x'] == Empty
    {
      var row := signMap[y];
      var x := 0;
      while x < Size
        invariant 0 <= x <= Size
        invariant IsBoard(newBoard)
        invariant forall y', x' :: 0 <= y' < y && 0 <= x' < Size ==> newBoard[y'][x'] == SetupOnly(signMap)[y'][x']
        invariant forall x' :: 0 <= x' < x ==> newBoard[y][x'] == SetupOnly(signMap)[y][x']
        invariant forall y', x' :: y <= y' < Size && x <= x' < Size ==> newBoard[y'][x'] == Empty
        invariant forall y', x' :: y < y' < Size && 0 <= x' < Size ==> newBoard[y'][x'] == Empty
      {
        var cell := row[x];
        if cell.Stone? && cell.number.None? {
          newBoard := Put(newBoard, x, y, Stone(cell.sign, None));
        }
        x := x + 1;
      }
      y := y + 1;
    }
    assert forall y' :: 0 <= y' < Size ==> newBoard[y'] == SetupOnly(signMap)[y'];
  }

  class TestBoard {
    var board: Grid
    var moves: seq<TestMove>
    var nextPlayerIsBlack: bool
    var comments: seq<string>

    function State(): RecallState
      reads this
    {
      RecallState(board, moves, nextPlayerIsBlack)
    }

    ghost predicate Valid()
      reads this
    {
      Inv(State())
    }

    /** Black moves first unless a saved position says otherwise; a saved
        position without a numeric start player gives white. */
    constructor(saved: Option<LastProcessed>)
      ensures Valid()
      ensures board == EmptyBoard() && moves == [] && comments == []
      ensures nextPlayerIsBlack == (saved.None? || saved.value.startPlayer == Some(1))
    {
      board := EmptyBoard();
      moves := [];
      comments := [];
      nextPlayerIsBlack := saved.None? || saved.value.startPlayer == Some(1);
      FreshInv(EmptyBoard(), saved.None? || saved.value.startPlayer == Some(1));
    }

    /** `componentDidMount`, which runs on the freshly built component: takes
        the saved comments, a board holding only the saved position's setup
        stones, and the saved start player. */
    method Mount(saved: LastProcessed)
      requires Valid() && moves == []
      requires saved.signMap.Some? ==> IsBoard(saved.signMap.value)
      modifies this
      ensures Valid()
      ensures comments == (if saved.comments.Some? then saved.comments.value else old(comments))
      ensures saved.signMap.Some? ==> board == SetupOnly(saved.signMap.value) && moves == []
      ensures saved.signMap.None? ==> board == old(board) && moves == old(moves)
      ensures nextPlayerIsBlack == (if saved.startPlayer.Some? then saved.startPlayer.value == 1 else old(nextPlayerIsBlack))
    {
      if saved.comments.Some? {
        comments := saved.comments.value;
      }
      if saved.signMap.Some? {
        var newBoard := CopySetupStones(saved.signMap.value);
        board := newBoard;
        moves := [];
        forall x, y | InRange(x, y) && newBoard[y][x].Stone?
          ensures newBoard[y][x].number.None?
        {
          SetupOnlyMeaning(saved.signMap.value, x, y);
        }
      }
      if saved.startPlayer.Some? {
        nextPlayerIsBlack := saved.startPlayer.value == 1;
      }
    }

    method PlaceStone(x: Option<int>, y: Option<int>)
      requires Valid()
      requires x.Some? && y.Some? ==> InRange(x.value, y.value)
      modifies this
      ensures Valid()
      ensures State() == Place(old(State()), x, y) && comments == old(comments)
    {
      PlaceKeepsInv(State(), x, y);
      if x.None? || y.None? {
        return;
      }
      if board[y.value][x.value] != Empty {
        return;
      }
      var sign := SignOf(nextPlayerIsBlack);
      var moveNumber := |moves| + 1;
      var newBoard := Put(board, x.value, y.value, Stone(sign, Some(moveNumber)));
      board := newBoard;
      moves := moves + [TestMove(x, y, sign, moveNumber)];
      nextPlayerIsBlack := !nextPlayerIsBlack;
    }

    method PassTurn()
      requires Valid()
      modifies this
      ensures Valid()
      ensures State() == Pass(old(State())) && comments == old(comments)
    {
      PassKeepsInv(State());
      moves := moves + [TestMove(None, None, SignOf(nextPlayerIsBlack), |moves| + 1)];
      nextPlayerIsBlack := !nextPlayerIsBlack;
    }

    method UndoMove()
      requires Valid()
      modifies this
      ensures Valid() && MovesOnBoard(old(moves))
      ensures State() == Undo(old(State())) && comments == old(comments)
    {
      UndoKeepsInv(State());
      if |moves| == 0 {
        return;
      }
      var last := moves[|moves| - 1];
      var newBoard := board;
      if Placed(last) {
        newBoard := Put(newBoard, last.x.value, last.y.value, Empty);
      }
      board := newBoard;
      moves := moves[..|moves| - 1];
      nextPlayerIsBlack := !nextPlayerIsBlack;
    }

    method StartWithWhite(startWhite: bool)
      requires Valid()
      modifies this
      ensures Valid()
      ensures State() == Restart(startWhite) && comments == old(comments)
    {
      board := EmptyBoard();
      moves := [];
      nextPlayerIsBlack := !startWhite;
      FreshInv(EmptyBoard(), !startWhite);
    }
  }
}
