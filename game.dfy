/** src/lib/game.js: coordinate decoding, copy-and-write stone placement,
    and `processSequenceObject`, which walks a stored single-branch sequence,
    numbers its first moves on a 19×19 grid and optionally turns the grid. */
module Game {
  import opened Wrappers
  import opened GameTree
  import opened Board

  datatype Pos = Pos(x: int, y: int)

  // ---------------------------------------------------------------------------
  // sgfToPos

  /** Two-letter SGF coordinate to `[x, y]`, each the character code minus 97;
      anything that is not exactly two characters long gives `null`. */
  function SgfToPos(move: string): (p: Option<Pos>)
    ensures p.Some? <==> |move| == 2
  {
    if |move| != 2 then None else Some(Pos(move[0] as int - 97, move[1] as int - 97))
  }

  /** The coordinate a point on a board of up to 26 lines is written as. */
  function PosToSgf(x: int, y: int): (s: string)
    requires 0 <= x < 26 && 0 <= y < 26
    ensures |s| == 2 && 'a' <= s[0] <= 'z' && 'a' <= s[1] <= 'z'
  {
    [(97 + x) as char, (97 + y) as char]
  }

  lemma DecodeEncode(x: int, y: int)
    requires 0 <= x < 26 && 0 <= y < 26
    ensures SgfToPos(PosToSgf(x, y)) == Some(Pos(x, y))
  {
  }

  /** On two lower-case letters the decoded point lies in [0,26)² and encodes back to the input. */
  lemma EncodeDecode(move: string)
    requires |move| == 2 && 'a' <= move[0] <= 'z' && 'a' <= move[1] <= 'z'
    ensures var p := SgfToPos(move).value;
      0 <= p.x < 26 && 0 <= p.y < 26 && PosToSgf(p.x, p.y) == move
  {
    var p := SgfToPos(move).value;
    assert PosToSgf(p.x, p.y)[0] == move[0] && PosToSgf(p.x, p.y)[1] == move[1];
  }

  // ---------------------------------------------------------------------------
  // applyMove

  /** A copy of `prev` in which the cell at `pos`, when it lies on the board,
      holds a stone of `player` numbered `moveNumber`; `null` leaves the board as it was. */
  function ApplyMove(prev: Grid, pos: Option<Pos>, player: int, moveNumber: int): (next: Grid)
    requires IsBoard(prev)
    ensures IsBoard(next)
    ensures pos.None? ==> next == prev
    ensures forall y, x :: InRange(x, y) ==>
      next[y][x] == (if pos == Some(Pos(x, y)) then Stone(player, Some(moveNumber)) else prev[y][x])
  {
    if pos.None? then prev
    else if InRange(pos.value.x, pos.value.y) then Put(prev, pos.value.x, pos.value.y, Stone(player, Some(moveNumber)))
    else prev
  }

  // ---------------------------------------------------------------------------
  // The walk down the stored chain

  /** The comment a visited node contributes: `C[0]`, or a single space when
      the node has no comment or an empty one. */
  function NodeComment(d: Data): (c: string)
    ensures c != ""
    ensures "C" in d && d["C"][0] != "" ==> c == d["C"][0]
  {
    if "C" in d && d["C"][0] != "" then d["C"][0] else " "
  }

  /** The walk stops after a node when a tag is selected and the node carries one of them. */
  predicate StopsAt(n: Node, selectedTags: seq<string>) {
    |selectedTags| > 0 && |n.tags| > 0 && exists t :: t in selectedTags && t in n.tags
  }

  datatype Trail = Trail(moves: seq<string>, comments: seq<string>)

  function Join(a: Trail, b: Trail): Trail {
    Trail(a.moves + b.moves, a.comments + b.comments)
  }

  /** What the walk collects from `n` on: the node's moves and one comment,
      then, unless it stops here, the same from its first child. */
  function WalkFrom(n: Node, selectedTags: seq<string>): Trail
    decreases n
  {
    var here := Trail(NodeMoves(n.data), [NodeComment(n.data)]);
    if StopsAt(n, selectedTags) || |n.children| == 0 then here
    else Join(here, WalkFrom(n.children[0], selectedTags))
  }

  /** The walk starts at the first child of the sequence's root. */
  function Walk(children: seq<Node>, selectedTags: seq<string>): Trail {
    if |children| == 0 then Trail([], []) else WalkFrom(children[0], selectedTags)
  }

  /** The nodes the walk visits from `n`: the main line, cut after the first stopping node. */
  function Visited(n: Node, selectedTags: seq<string>): (v: seq<Node>)
    ensures 1 <= |v| && v[0] == n
    decreases n
  {
    if StopsAt(n, selectedTags) || |n.children| == 0 then [n]
    else [n] + Visited(n.children[0], selectedTags)
  }

  /** The walk collects exactly one comment per visited node, in order. */
  lemma {:induction false} WalkFromComments(n: Node, selectedTags: seq<string>)
    ensures var v := Visited(n, selectedTags);
      |WalkFrom(n, selectedTags).comments| == |v|
      && forall i :: 0 <= i < |v| ==> WalkFrom(n, selectedTags).comments[i] == NodeComment(v[i].data)
    decreases n
  {
    if !(StopsAt(n, selectedTags) || |n.children| == 0) {
      WalkFromComments(n.children[0], selectedTags);
    }
  }

  /** The walk collects the moves of the visited nodes, in order. */
  lemma {:induction false} WalkFromMoves(n: Node, selectedTags: seq<string>)
    ensures WalkFrom(n, selectedTags).moves == PathMoves(DataAlong(Visited(n, selectedTags)))
    decreases n
  {
    var v := Visited(n, selectedTags);
    var ds := DataAlong(v);
    if !(StopsAt(n, selectedTags) || |n.children| == 0) {
      WalkFromMoves(n.children[0], selectedTags);
      assert ds[1..] == DataAlong(Visited(n.children[0], selectedTags));
      assert PathMoves(ds) == NodeMoves(n.data) + PathMoves(ds[1..]);
    } else {
      assert ds == [n.data];
      assert PathMoves(ds) == NodeMoves(n.data) + PathMoves([]);
    }
  }

  /** The visited nodes are a prefix of the main line; with no tag selected it is the whole main line. */
  lemma {:induction false} VisitedOnMainLine(n: Node, selectedTags: seq<string>)
    ensures var v := Visited(n, selectedTags);
      |v| <= |MainLine(n)| && v == MainLine(n)[..|v|]
    ensures |selectedTags| == 0 ==> Visited(n, selectedTags) == MainLine(n)
    decreases n
  {
    if !(StopsAt(n, selectedTags) || |n.children| == 0) {
      VisitedOnMainLine(n.children[0], selectedTags);
    }
  }

  /** Only the last visited node can stop the walk: every earlier one lets it go on. */
  lemma {:induction false} VisitedStopsOnlyAtEnd(n: Node, selectedTags: seq<string>)
    ensures var v := Visited(n, selectedTags);
      (forall i :: 0 <= i < |v| - 1 ==> !StopsAt(v[i], selectedTags) && |v[i].children| > 0 && v[i + 1] == v[i].children[0])
      && (StopsAt(v[|v| - 1], selectedTags) || |v[|v| - 1].children| == 0)
    decreases n
  {
    if !(StopsAt(n, selectedTags) || |n.children| == 0) {
      VisitedStopsOnlyAtEnd(n.children[0], selectedTags);
    }
  }

  /** The tag check of the walk: whether any selected tag is among the node's tags. */
  method HasSelectedTag(tags: seq<string>, selectedTags: seq<string>) returns (found: bool)
    ensures found <==> exists t :: t in selectedTags && t in tags
  {
    found := false;
    var t := 0;
    while t < |selectedTags|
      invariant 0 <= t <= |selectedTags|
      invariant !found
      invariant forall k :: 0 <= k < t ==> selectedTags[k] !in tags
    {
      if selectedTags[t] in tags {
        found := true;
        break;
      }
      t := t + 1;
    }
  }

  function Remaining(node: Option<Node>, selectedTags: seq<string>): Trail {
    if node.None? then Trail([], []) else WalkFrom(node.value, selectedTags)
  }

  function LineLength(node: Option<Node>): nat {
    if node.None? then 0 else |MainLine(node.value)|
  }

  /** The `while (node)` loop of `processSequenceObject`. */
  method CollectTrail(children: seq<Node>, selectedTags: seq<string>) returns (moves: seq<string>, comments: seq<string>)
    ensures Trail(moves, comments) == Walk(children, selectedTags)
  {
    moves, comments := [], [];
    var node: Option<Node> := if |children| > 0 then Some(children[0]) else None;
    while node.Some?
      invariant Walk(children, selectedTags) == Join(Trail(moves, comments), Remaining(node, selectedTags))
      decreases LineLength(node)
    {
      var n := node.value;
      ghost var before := Trail(moves, comments);
      ghost var here := Trail(NodeMoves(n.data), [NodeComment(n.data)]);
      if "B" in n.data {
        moves := moves + [n.data["B"][0]];
      }
      if "W" in n.data {
        moves := moves + [n.data["W"][0]];
      }
      comments := comments + [NodeComment(n.data)];
      assert Trail(moves, comments) == Join(before, here);
      if |selectedTags| > 0 && |n.tags| > 0 {
        var found := HasSelectedTag(n.tags, selectedTags);
        if found {
          assert StopsAt(n, selectedTags) && WalkFrom(n, selectedTags) == here;
          assert Join(here, Trail([], [])) == here;
          node := None;
          JoinAssoc(before, here, Trail([], []));
          break;
        }
      }
      node := if |n.children| > 0 then Some(n.children[0]) else None;
      JoinAssoc(before, here, Remaining(node, selectedTags));
    }
  }

  lemma JoinAssoc(a: Trail, b: Trail, c: Trail)
    ensures Join(Join(a, b), c) == Join(a, Join(b, c))
  {
    assert (a.moves + b.moves) + c.moves == a.moves + (b.moves + c.moves);
    assert (a.comments + b.comments) + c.comments == a.comments + (b.comments + c.comments);
  }

  // ---------------------------------------------------------------------------
  // Applying the first moves

  /** `movesArray.slice(0, moveNumber)`: a negative end counts from the back. */
  function SliceTo(moves: seq<string>, end: int): (r: seq<string>)
    ensures |r| <= |moves| && r == moves[..|r|]
    ensures 0 <= end <= |moves| ==> |r| == end
    ensures end >= |moves| ==> r == moves
  {
    if end >= |moves| then moves
    else if end >= 0 then moves[..end]
    else if |moves| + end >= 0 then moves[..|moves| + end]
    else []
  }

  /** The colour of the move at 0-based index `i`: alternating from `startPlayer`. */
  function PlayerAt(startPlayer: int, i: nat): int {
    if i % 2 == 0 then startPlayer else -startPlayer
  }

  /** The board after the first `k` of `moves`, the i-th (1-based) numbered i. */
  function Replayed(moves: seq<string>, startPlayer: int, k: nat): (g: Grid)
    requires k <= |moves|
    ensures IsBoard(g)
    decreases k
  {
    if k == 0 then EmptyBoard()
    else
      var pos := SgfToPos(moves[k - 1]);
      var prev := Replayed(moves, startPlayer, k - 1);
      if pos.Some? then ApplyMove(prev, pos, PlayerAt(startPlayer, k - 1), k) else prev
  }

  /** The 0-based index of the last of the first `k` moves that decodes to (x, y). */
  function LastMoveAt(moves: seq<string>, k: nat, x: int, y: int): (r: Option<nat>)
    requires k <= |moves|
    ensures r.Some? ==> r.value < k && SgfToPos(moves[r.value]) == Some(Pos(x, y))
    ensures r.Some? ==> forall j :: r.value < j < k ==> SgfToPos(moves[j]) != Some(Pos(x, y))
    ensures r.None? ==> forall j :: 0 <= j < k ==> SgfToPos(moves[j]) != Some(Pos(x, y))
    decreases k
  {
    if k == 0 then None
    else if SgfToPos(moves[k - 1]) == Some(Pos(x, y)) then Some(k - 1)
    else LastMoveAt(moves, k - 1, x, y)
  }

  /** Every cell shows the last applied move that decodes to it, with that
      move's alternating colour and 1-based number (undecodable moves still
      take their number and colour); a cell no applied move names is empty. */
  lemma {:induction false} ReplayedCell(moves: seq<string>, startPlayer: int, k: nat, x: int, y: int)
    requires k <= |moves| && InRange(x, y)
    ensures Replayed(moves, startPlayer, k)[y][x] ==
      match LastMoveAt(moves, k, x, y)
      case None => Empty
      case Some(i) => Stone(PlayerAt(startPlayer, i), Some(i + 1))
    decreases k
  {
    if k > 0 {
      ReplayedCell(moves, startPlayer, k - 1, x, y);
    }
  }

  /** Only the first `k` moves appear: a numbered cell carries a number in [1, k]. */
  lemma NumbersWithinLimit(moves: seq<string>, startPlayer: int, k: nat, x: int, y: int)
    requires k <= |moves| && InRange(x, y)
    requires Replayed(moves, startPlayer, k)[y][x].Stone?
    ensures var c := Replayed(moves, startPlayer, k)[y][x];
      c.number.Some? && 1 <= c.number.value <= k && SgfToPos(moves[c.number.value - 1]) == Some(Pos(x, y))
  {
    ReplayedCell(moves, startPlayer, k, x, y);
  }

  /** The `forEach` that applies the moves, negating the player after each one. */
  method ApplyMoves(movesToApply: seq<string>, startPlayer: int) returns (signMap: Grid)
    ensures signMap == Replayed(movesToApply, startPlayer, |movesToApply|)
  {
    signMap := EmptyBoard();
    var player := startPlayer;
    var index := 0;
    while index < |movesToApply|
      invariant 0 <= index <= |movesToApply|
      invariant signMap == Replayed(movesToApply, startPlayer, index)
      invariant player == PlayerAt(startPlayer, index)
    {
      var pos := SgfToPos(movesToApply[index]);
      if pos.Some? {
        signMap := ApplyMove(signMap, pos, player, index + 1);
      }
      player := -player;
      index := index + 1;
    }
  }

  // ---------------------------------------------------------------------------
  // Orientation

  /** One quarter turn: `newGrid[i][j] = oldGrid[n-1-j][i]`. */
  function Rotate(g: Grid): (r: Grid)
    requires IsBoard(g)
    ensures IsBoard(r)
  {
    seq(Size, i requires 0 <= i < Size => seq(Size, j requires 0 <= j < Size => g[Size - 1 - j][i]))
  }

  /** Reflection in the main diagonal: `newGrid[i][j] = oldGrid[j][i]`. */
  function Transpose(g: Grid): (r: Grid)
    requires IsBoard(g)
    ensures IsBoard(r)
  {
    seq(Size, i requires 0 <= i < Size => seq(Size, j requires 0 <= j < Size => g[j][i]))
  }

  function RotateTimes(g: Grid, k: nat): (r: Grid)
    requires IsBoard(g)
    ensures IsBoard(r)
    decreases k
  {
    if k == 0 then g else Rotate(RotateTimes(g, k - 1))
  }

  /** A quarter turn sends the cell at row i, column j to row j, column n-1-i. */
  lemma RotateMoves(g: Grid, i: int, j: int)
    requires IsBoard(g) && InRange(j, i)
    ensures Rotate(g)[j][Size - 1 - i] == g[i][j]
  {
  }

  /** Four quarter turns give back the original grid. */
  lemma RotateFourTimes(g: Grid)
    requires IsBoard(g)
    ensures RotateTimes(g, 4) == g
  {
    var h := Rotate(Rotate(g));
    var r := Rotate(Rotate(h));
    assert RotateTimes(g, 4) == r;
    forall i | 0 <= i < Size
      ensures r[i] == g[i]
    {
      forall j | 0 <= j < Size
        ensures r[i][j] == g[i][j]
      {
        RotateHalfTurn(h, i, j);
        RotateHalfTurn(g, Size - 1 - i, Size - 1 - j);
      }
    }
  }

  /** Two quarter turns send the cell at row i, column j to row n-1-i, column n-1-j. */
  lemma RotateHalfTurn(g: Grid, i: int, j: int)
    requires IsBoard(g) && 0 <= i < Size && 0 <= j < Size
    ensures Rotate(Rotate(g))[i][j] == g[Size - 1 - i][Size - 1 - j]
  {
    RotateMoves(Rotate(g), Size - 1 - j, i);
    RotateMoves(g, Size - 1 - i, Size - 1 - j);
  }

  /** Turning k+4 times is turning k times. */
  lemma {:induction false} RotateTimesPeriod(g: Grid, k: nat)
    requires IsBoard(g)
    ensures RotateTimes(g, k + 4) == RotateTimes(g, k)
    decreases k
  {
    if k == 0 {
      RotateFourTimes(g);
    } else {
      RotateTimesPeriod(g, k - 1);
    }
  }

  /** Two transposes give back the original grid. */
  lemma TransposeTwice(g: Grid)
    requires IsBoard(g)
    ensures Transpose(Transpose(g)) == g
  {
    var r := Transpose(Transpose(g));
    forall i | 0 <= i < Size
      ensures r[i] == g[i]
    {
    }
  }

  datatype Orientation = Orientation(rotations: nat, transpose: bool)

  /** The grid after the requested turns, then the optional transpose. */
  function Orient(g: Grid, o: Option<Orientation>): (r: Grid)
    requires IsBoard(g)
    ensures IsBoard(r)
    ensures o.None? ==> r == g
  {
    if o.None? then g
    else
      var turned := RotateTimes(g, o.value.rotations);
      if o.value.transpose then Transpose(turned) else turned
  }

  /** The `for` loop that turns the grid once per rotation, then the transpose. */
  method OrientBoard(signMap: Grid, o: Option<Orientation>) returns (finalSignMap: Grid)
    requires IsBoard(signMap)
    ensures finalSignMap == Orient(signMap, o)
  {
    finalSignMap := signMap;
    if o.Some? {
      var i := 0;
      while i < o.value.rotations
        invariant 0 <= i <= o.value.rotations
        invariant finalSignMap == RotateTimes(signMap, i)
      {
        finalSignMap := Rotate(finalSignMap);
        i := i + 1;
      }
      if o.value.transpose {
        finalSignMap := Transpose(finalSignMap);
      }
    }
  }

  // ---------------------------------------------------------------------------
  // processSequenceObject

  /** A stored sequence: the root's properties, its children (one chain) and,
      in sequences written by older versions, a ready-made list of comments. */
  datatype SequenceObject = SequenceObject(data: Data, children: seq<Node>, comments: Option<seq<string>>)

  datatype Projection = Projection(signMap: Grid, totalMoves: nat, comments: seq<string>)

  /** The result of `processSequenceObject` for the given move limit, start
      player, selected tags and orientation (`None` when orientation
      randomisation is off). */
  ghost function Projected(seqObj: SequenceObject, moveNumber: int, startPlayer: int,
                           selectedTags: seq<string>, o: Option<Orientation>): Projection
  {
    var trail := Walk(seqObj.children, selectedTags);
    var applied := SliceTo(trail.moves, moveNumber);
    Projection(Orient(Replayed(applied, startPlayer, |applied|), o),
               |trail.moves|,
               if seqObj.comments.Some? then seqObj.comments.value else trail.comments)
  }

  method ProcessSequenceObject(seqObj: SequenceObject, moveNumber: int, startPlayer: int,
                               selectedTags: seq<string>, o: Option<Orientation>)
    returns (r: Projection)
    ensures r == Projected(seqObj, moveNumber, startPlayer, selectedTags, o)
    ensures r.totalMoves == |Walk(seqObj.children, selectedTags).moves|
    ensures IsBoard(r.signMap)
  {
    var movesArray, commentsArray := CollectTrail(seqObj.children, selectedTags);
    var movesToApply := SliceTo(movesArray, moveNumber);
    var signMap := ApplyMoves(movesToApply, startPlayer);
    var finalSignMap := OrientBoard(signMap, o);
    r := Projection(finalSignMap, |movesArray|,
                    if seqObj.comments.Some? then seqObj.comments.value else commentsArray);
  }
}
