/** src/lib/convert.js: turns a reviewed game into a training file. Every
    variation that leaves a node other than by its first child becomes a
    training root: a node whose setup stones (AB for black, AW for white, the
    setup properties of SGF FF[4]) hold the moves played on the way to the
    branch point, with the branch as its only child. */
module Convert {
  import opened Wrappers
  import opened GameTree

  datatype Color = Black | White

  /** One entry of the accumulated path: `{color, coord}`. */
  datatype PathMove = PathMove(color: Color, coord: string)

  const NoGames: string := "No games found in SGF"

  /** The moves a node adds to the path: its `B[0]`, then its `W[0]`. */
  function NodePathMoves(d: Data): (ms: seq<PathMove>)
    ensures |ms| <= 2
    ensures "B" in d && "W" in d ==> ms == [PathMove(Black, d["B"][0]), PathMove(White, d["W"][0])]
  {
    (if "B" in d then [PathMove(Black, d["B"][0])] else [])
      + (if "W" in d then [PathMove(White, d["W"][0])] else [])
  }

  function AllCoords(path: seq<PathMove>): seq<string>
    decreases |path|
  {
    if |path| == 0 then [] else AllCoords(path[..|path| - 1]) + [path[|path| - 1].coord]
  }

  /** The coordinates of the path's moves of one colour, in order. */
  function Coords(path: seq<PathMove>, c: Color): seq<string>
    decreases |path|
  {
    if |path| == 0 then []
    else Coords(path[..|path| - 1], c) + (if path[|path| - 1].color == c then [path[|path| - 1].coord] else [])
  }

  /** The path a node adds reads, coordinate by coordinate, like the moves
      the sequence replay reads from it. */
  lemma NodePathMatchesReplay(d: Data)
    ensures AllCoords(NodePathMoves(d)) == NodeMoves(d)
  {
    var ms := NodePathMoves(d);
    if |ms| == 2 {
      assert ms[..1][..0] == [];
      assert AllCoords(ms[..1]) == [ms[0].coord];
      assert AllCoords(ms) == [ms[0].coord, ms[1].coord];
    } else if |ms| == 1 {
      assert ms[..0] == [];
      assert AllCoords(ms) == [ms[0].coord];
    }
  }

  /** Black and white setup stones split the path between them. */
  lemma {:induction false} SetupPartition(path: seq<PathMove>)
    ensures |Coords(path, Black)| + |Coords(path, White)| == |path|
    ensures multiset(Coords(path, Black)) + multiset(Coords(path, White)) == multiset(AllCoords(path))
    decreases |path|
  {
    if |path| > 0 {
      SetupPartition(path[..|path| - 1]);
    }
  }

  /** A training root's properties: AB and AW only when non-empty. */
  function SetupData(path: seq<PathMove>): (d: Data)
    ensures "AB" in d <==> |Coords(path, Black)| > 0
    ensures "AW" in d <==> |Coords(path, White)| > 0
    ensures "AB" in d ==> d["AB"] == Coords(path, Black)
    ensures "AW" in d ==> d["AW"] == Coords(path, White)
    ensures forall key :: key in d ==> key == "AB" || key == "AW"
  {
    var blacks := Coords(path, Black);
    var whites := Coords(path, White);
    var ab: Data := if |blacks| > 0 then map["AB" := blacks] else map[];
    var aw: Data := if |whites| > 0 then map["AW" := whites] else map[];
    ab + aw
  }

  /** `createTrainingGame(path, branch)`: the setup root above the untouched branch. */
  function TrainingRoot(path: seq<PathMove>, branch: Node): Node {
    Node(SetupData(path), [branch], [])
  }

  /** The `forEach` of `createTrainingGame` sorting the path by colour. */
  method CreateTrainingGame(pathMoves: seq<PathMove>, branchNode: Node) returns (rootNode: Node)
    ensures rootNode == TrainingRoot(pathMoves, branchNode)
  {
    var blackStones := [];
    var whiteStones := [];
    var i := 0;
    while i < |pathMoves|
      invariant 0 <= i <= |pathMoves|
      invariant blackStones == Coords(pathMoves[..i], Black)
      invariant whiteStones == Coords(pathMoves[..i], White)
    {
      var move := pathMoves[i];
      assert pathMoves[..i + 1][..i] == pathMoves[..i];
      if move.color == Black {
        blackStones := blackStones + [move.coord];
      } else if move.color == White {
        whiteStones := whiteStones + [move.coord];
      }
      i := i + 1;
    }
    assert pathMoves[..|pathMoves|] == pathMoves;
    var ab: Data := if |blackStones| > 0 then map["AB" := blackStones] else map[];
    var aw: Data := if |whiteStones| > 0 then map["AW" := whiteStones] else map[];
    rootNode := Node(ab + aw, [branchNode], []);
  }

  // ---------------------------------------------------------------------------
  // The traversal (collectBranches)
  // ---------------------------------------------------------------------------

  /** The training roots a branch point emits, one per child at index 1..k-1. */
  function Roots(cur: seq<PathMove>, n: Node): (rs: seq<Node>)
    ensures |rs| == (if |n.children| > 1 then |n.children| - 1 else 0)
    ensures forall i :: 0 <= i < |rs| ==> rs[i] == TrainingRoot(cur, n.children[i + 1])
  {
    if |n.children| <= 1 then []
    else seq(|n.children| - 1, i requires 0 <= i < |n.children| - 1 => TrainingRoot(cur, n.children[i + 1]))
  }

  /** What `collectBranches(n, path)` pushes: the roots of this branch point,
      then everything below the main line, then everything below the other
      children in order. */
  function Branches(n: Node, path: seq<PathMove>): seq<Node>
    decreases n, 1
  {
    var cur := path + NodePathMoves(n.data);
    Roots(cur, n)
      + (if |n.children| > 0 then Branches(n.children[0], cur) else [])
      + ChildBranches(n, cur, |n.children|)
  }

  /** Everything below children 1..j-1 of `n`, in order. */
  function ChildBranches(n: Node, cur: seq<PathMove>, j: nat): seq<Node>
    requires j <= |n.children|
    decreases n, 0, j
  {
    if j <= 1 then [] else ChildBranches(n, cur, j - 1) + Branches(n.children[j - 1], cur)
  }

  /** The sum of (children - 1) over every node with more than one child. */
  function ExtraChildren(n: Node): nat
    decreases n, 1
  {
    (if |n.children| > 1 then |n.children| - 1 else 0) + ChildrenExtra(n, |n.children|)
  }

  function ChildrenExtra(n: Node, j: nat): nat
    requires j <= |n.children|
    decreases n, 0, j
  {
    if j == 0 then 0 else ChildrenExtra(n, j - 1) + ExtraChildren(n.children[j - 1])
  }

  /** One training root per non-first child of every node. */
  lemma {:induction false} BranchesCount(n: Node, path: seq<PathMove>)
    ensures |Branches(n, path)| == ExtraChildren(n)
    decreases n, 1
  {
    var cur := path + NodePathMoves(n.data);
    if |n.children| > 0 {
      BranchesCount(n.children[0], cur);
      ChildBranchesCount(n, cur, |n.children|);
    }
  }

  lemma {:induction false} ChildBranchesCount(n: Node, cur: seq<PathMove>, j: nat)
    requires 1 <= j <= |n.children|
    ensures |ChildBranches(n, cur, j)| + ExtraChildren(n.children[0]) == ChildrenExtra(n, j)
    decreases n, 0, j
  {
    if j > 1 {
      ChildBranchesCount(n, cur, j - 1);
      BranchesCount(n.children[j - 1], cur);
    } else {
      assert ChildrenExtra(n, 1) == ChildrenExtra(n, 0) + ExtraChildren(n.children[0]);
    }
  }

  /** Every emitted node is a training root: setup properties only, no tags,
      and exactly one child. */
  predicate IsTrainingRoot(r: Node) {
    |r.children| == 1 && r.tags == [] && forall key :: key in r.data ==> key == "AB" || key == "AW"
  }

  lemma {:induction false} BranchesAreTrainingRoots(n: Node, path: seq<PathMove>)
    ensures forall i :: 0 <= i < |Branches(n, path)| ==> IsTrainingRoot(Branches(n, path)[i])
    decreases n, 1
  {
    var cur := path + NodePathMoves(n.data);
    if |n.children| > 0 {
      BranchesAreTrainingRoots(n.children[0], cur);
      ChildBranchesAreTrainingRoots(n, cur, |n.children|);
    }
  }

  lemma {:induction false} ChildBranchesAreTrainingRoots(n: Node, cur: seq<PathMove>, j: nat)
    requires j <= |n.children|
    ensures forall i :: 0 <= i < |ChildBranches(n, cur, j)| ==> IsTrainingRoot(ChildBranches(n, cur, j)[i])
    decreases n, 0, j
  {
    if j > 1 {
      ChildBranchesAreTrainingRoots(n, cur, j - 1);
      BranchesAreTrainingRoots(n.children[j - 1], cur);
    }
  }

  /** At the top branch point, the roots come first, one per non-first child
      in order, each holding the root's own moves as setup stones. */
  lemma TopBranchesFirst(n: Node, path: seq<PathMove>, i: nat)
    requires 1 <= i < |n.children|
    ensures var cur := path + NodePathMoves(n.data);
      Branches(n, path)[i - 1] == TrainingRoot(cur, n.children[i])
      && Branches(n, path)[i - 1].children == [n.children[i]]
  {
  }

  // ---------------------------------------------------------------------------
  // The whole tree: which training roots come out
  // ---------------------------------------------------------------------------

  /** A route from `n`: the child index taken at each step down. */
  predicate ValidRoute(n: Node, route: seq<nat>)
    decreases |route|
  {
    |route| == 0 || (route[0] < |n.children| && ValidRoute(n.children[route[0]], route[1..]))
  }

  /** The node a route leads to. */
  function NodeAt(n: Node, route: seq<nat>): Node
    requires ValidRoute(n, route)
    decreases |route|
  {
    if |route| == 0 then n else NodeAt(n.children[route[0]], route[1..])
  }

  /** The moves played from the top down to, and including, the node a route
      leads to, after the moves of `path`. */
  function PathAt(n: Node, path: seq<PathMove>, route: seq<nat>): seq<PathMove>
    requires ValidRoute(n, route)
    decreases |route|
  {
    var cur := path + NodePathMoves(n.data);
    if |route| == 0 then cur else PathAt(n.children[route[0]], cur, route[1..])
  }

  /** `x` is the training root for child `j` (not the main line) of the node at
      `route`: setup stones for the moves down to that node, and that child
      as its only child. */
  predicate BranchAt(n: Node, path: seq<PathMove>, route: seq<nat>, j: nat, x: Node) {
    ValidRoute(n, route) && 1 <= j < |NodeAt(n, route).children|
    && x == TrainingRoot(PathAt(n, path, route), NodeAt(n, route).children[j])
  }

  /** The walk emits exactly the training roots of every non-first child of
      every node, each over the moves down to its branch point. */
  lemma BranchesExactly(n: Node, path: seq<PathMove>)
    ensures forall x :: x in Branches(n, path) <==> exists route, j :: BranchAt(n, path, route, j, x)
  {
    forall x | x in Branches(n, path)
      ensures exists route, j :: BranchAt(n, path, route, j, x)
    {
      InBranches(n, path, x);
      EmittedFromPair(n, path, x);
    }
    forall x | exists route, j :: BranchAt(n, path, route, j, x)
      ensures x in Branches(n, path)
    {
      var route, j :| BranchAt(n, path, route, j, x);
      PairEmitted(n, path, route, j);
      InBranches(n, path, x);
    }
  }

  /** Membership in `Branches`, as a predicate over the same walk. */
  predicate Emits(n: Node, path: seq<PathMove>, x: Node)
    decreases n, 1
  {
    var cur := path + NodePathMoves(n.data);
    x in Roots(cur, n)
    || (|n.children| > 0 && Emits(n.children[0], cur, x))
    || ChildEmits(n, cur, |n.children|, x)
  }

  /** Membership in `ChildBranches`. */
  predicate ChildEmits(n: Node, cur: seq<PathMove>, j: nat, x: Node)
    requires j <= |n.children|
    decreases n, 0, j
  {
    j > 1 && (ChildEmits(n, cur, j - 1, x) || Emits(n.children[j - 1], cur, x))
  }

  lemma {:induction false} InBranches(n: Node, path: seq<PathMove>, x: Node)
    ensures x in Branches(n, path) <==> Emits(n, path, x)
    decreases n, 1
  {
    var cur := path + NodePathMoves(n.data);
    var main := if |n.children| > 0 then Branches(n.children[0], cur) else [];
    BranchesSplit(n, path);
    InConcat(Roots(cur, n), main, x);
    InConcat(Roots(cur, n) + main, ChildBranches(n, cur, |n.children|), x);
    if |n.children| > 0 {
      InBranches(n.children[0], cur, x);
    }
    InChildBranches(n, cur, |n.children|, x);
  }

  lemma {:induction false} InChildBranches(n: Node, cur: seq<PathMove>, j: nat, x: Node)
    requires j <= |n.children|
    ensures x in ChildBranches(n, cur, j) <==> ChildEmits(n, cur, j, x)
    decreases n, 0, j
  {
    if j > 1 {
      ChildBranchesStep(n, cur, j - 1);
      InConcat(ChildBranches(n, cur, j - 1), Branches(n.children[j - 1], cur), x);
      InChildBranches(n, cur, j - 1, x);
      InBranches(n.children[j - 1], cur, x);
    }
  }

  lemma {:induction false} PairEmitted(n: Node, path: seq<PathMove>, route: seq<nat>, j: nat)
    requires ValidRoute(n, route) && 1 <= j < |NodeAt(n, route).children|
    ensures Emits(n, path, TrainingRoot(PathAt(n, path, route), NodeAt(n, route).children[j]))
    decreases |route|
  {
    var cur := path + NodePathMoves(n.data);
    if |route| == 0 {
      assert Roots(cur, n)[j - 1] == TrainingRoot(cur, n.children[j]);
    } else {
      var c := route[0];
      PairEmitted(n.children[c], cur, route[1..], j);
      if c > 0 {
        ChildEmitsContain(n, cur, |n.children|, c, TrainingRoot(PathAt(n, path, route), NodeAt(n, route).children[j]));
      }
    }
  }

  lemma {:induction false} ChildEmitsContain(n: Node, cur: seq<PathMove>, j: nat, c: nat, x: Node)
    requires 1 <= c < j <= |n.children| && Emits(n.children[c], cur, x)
    ensures ChildEmits(n, cur, j, x)
    decreases j
  {
    if c < j - 1 {
      ChildEmitsContain(n, cur, j - 1, c, x);
    }
  }

  lemma InConcat<T>(a: seq<T>, b: seq<T>, x: T)
    ensures x in a + b <==> x in a || x in b
  {
  }

  lemma {:induction false} EmittedFromPair(n: Node, path: seq<PathMove>, x: Node)
    requires Emits(n, path, x)
    ensures exists route, j :: BranchAt(n, path, route, j, x)
    decreases n
  {
    var cur := path + NodePathMoves(n.data);
    var roots := Roots(cur, n);
    if x in roots {
      var i :| 0 <= i < |roots| && roots[i] == x;
      assert BranchAt(n, path, [], i + 1, x);
    } else {
      var c: nat;
      if |n.children| > 0 && Emits(n.children[0], cur, x) {
        c := 0;
      } else {
        c := EmittedFromChild(n, cur, |n.children|, x);
      }
      EmittedFromPair(n.children[c], cur, x);
      var r, j :| BranchAt(n.children[c], cur, r, j, x);
      assert ([c] + r)[1..] == r;
      assert BranchAt(n, path, [c] + r, j, x);
    }
  }

  /** The non-first child below which a member of `ChildEmits` lies. */
  lemma {:induction false} EmittedFromChild(n: Node, cur: seq<PathMove>, j: nat, x: Node) returns (c: nat)
    requires j <= |n.children| && ChildEmits(n, cur, j, x)
    ensures 1 <= c < j && Emits(n.children[c], cur, x)
    decreases j
  {
    if Emits(n.children[j - 1], cur, x) {
      c := j - 1;
    } else {
      c := EmittedFromChild(n, cur, j - 1, x);
    }
  }

  /** The first loop of `collectBranches`: one training root per non-first child. */
  method PushRoots(currentPath: seq<PathMove>, node: Node, acc: seq<Node>) returns (out: seq<Node>)
    ensures out == acc + Roots(currentPath, node)
  {
    var k := |node.children|;
    out := acc;
    if k > 1 {
      var i := 1;
      while i < k
        invariant 1 <= i <= k
        invariant out == acc + Roots(currentPath, node)[..i - 1]
      {
        var trainingGame := CreateTrainingGame(currentPath, node.children[i]);
        assert Roots(currentPath, node)[..i] == Roots(currentPath, node)[..i - 1] + [trainingGame];
        out := out + [trainingGame];
        i := i + 1;
      }
      assert Roots(currentPath, node)[..k - 1] == Roots(currentPath, node);
    }
  }

  /** The recursive `collectBranches`, with the list it pushes to threaded
      through: it returns `acc` followed by what it pushes. */
  method CollectBranches(node: Node, pathMoves: seq<PathMove>, acc: seq<Node>) returns (out: seq<Node>)
    ensures out == acc + Branches(node, pathMoves)
    decreases node, 1
  {
    var currentPath := pathMoves;
    if "B" in node.data {
      currentPath := currentPath + [PathMove(Black, node.data["B"][0])];
    }
    if "W" in node.data {
      currentPath := currentPath + [PathMove(White, node.data["W"][0])];
    }
    assert currentPath == pathMoves + NodePathMoves(node.data);
    var k := |node.children|;
    ghost var roots := Roots(currentPath, node);
    ghost var main := if k > 0 then Branches(node.children[0], currentPath) else [];
    ghost var rest := ChildBranches(node, currentPath, k);
    BranchesSplit(node, pathMoves);
    out := PushRoots(currentPath, node, acc);
    ghost var afterRoots := out;
    if k > 0 {
      out := CollectBranches(node.children[0], currentPath, out);
    }
    assert out == afterRoots + main;
    out := CollectOtherChildren(node, currentPath, out);
    assert out == ((acc + roots) + main) + rest;
    Regroup(acc, roots, main, rest);
  }

  lemma ChildBranchesStep(n: Node, cur: seq<PathMove>, i: nat)
    requires 1 <= i < |n.children|
    ensures ChildBranches(n, cur, i + 1) == ChildBranches(n, cur, i) + Branches(n.children[i], cur)
  {
  }

  lemma Append<T>(a: seq<T>, b: seq<T>, c: seq<T>)
    ensures (a + b) + c == a + (b + c)
  {
  }

  lemma Regroup<T>(a: seq<T>, b: seq<T>, c: seq<T>, d: seq<T>)
    ensures ((a + b) + c) + d == a + ((b + c) + d)
  {
  }

  lemma BranchesSplit(n: Node, path: seq<PathMove>)
    ensures var cur := path + NodePathMoves(n.data);
      Branches(n, path) == (Roots(cur, n)
        + (if |n.children| > 0 then Branches(n.children[0], cur) else []))
        + ChildBranches(n, cur, |n.children|)
  {
  }

  /** The second loop of `collectBranches`: recurse into children 1..k-1. */
  method CollectOtherChildren(node: Node, currentPath: seq<PathMove>, acc: seq<Node>) returns (out: seq<Node>)
    ensures out == acc + ChildBranches(node, currentPath, |node.children|)
    decreases node, 0
  {
    var k := |node.children|;
    out := acc;
    if k > 1 {
      var i := 1;
      while i < k
        invariant 1 <= i <= k
        invariant out == acc + ChildBranches(node, currentPath, i)
      {
        ghost var before := ChildBranches(node, currentPath, i);
        ghost var below := Branches(node.children[i], currentPath);
        ChildBranchesStep(node, currentPath, i);
        out := CollectBranches(node.children[i], currentPath, out);
        assert out == (acc + before) + below;
        Append(acc, before, below);
        i := i + 1;
      }
    } else {
      assert out == acc + [];
    }
  }

  /** `reviewToTraining` after parsing: the first game's root properties above
      every training root, or an error when the file holds no game. */
  function ReviewToTraining(games: seq<Node>): Result<Node, string> {
    if |games| == 0 then Failure(NoGames)
    else Success(Node(games[0].data, Branches(games[0], []), []))
  }

  method ConvertReview(games: seq<Node>) returns (r: Result<Node, string>)
    ensures r == ReviewToTraining(games)
  {
    if |games| == 0 {
      return Failure(NoGames);
    }
    var game := games[0];
    var trainingGames := CollectBranches(game, [], []);
    assert trainingGames == Branches(game, []);
    r := Success(Node(game.data, trainingGames, []));
  }

  /** The converted file holds one training root per variation of the first
      game, below a root carrying that game's properties: the root for child
      j >= 1 of every node, over the moves from the top down to that node. */
  lemma ConversionShape(games: seq<Node>)
    ensures ReviewToTraining(games).Failure? <==> |games| == 0
    ensures |games| > 0 ==> ReviewToTraining(games).value.data == games[0].data
    ensures |games| > 0 ==> |ReviewToTraining(games).value.children| == ExtraChildren(games[0])
    ensures |games| > 0 ==> forall i :: 0 <= i < |ReviewToTraining(games).value.children| ==>
      IsTrainingRoot(ReviewToTraining(games).value.children[i])
    ensures |games| > 0 ==> forall x :: x in ReviewToTraining(games).value.children <==>
      exists route, j :: BranchAt(games[0], [], route, j, x)
  {
    if |games| > 0 {
      BranchesCount(games[0], []);
      BranchesAreTrainingRoots(games[0], []);
      BranchesExactly(games[0], []);
    }
  }
}
