/** scripts/joseki_to_sgf.js: writes a locally crawled joseki tree, one JSON
    node per file, as one SGF FF[4] game tree. A node becomes `;` followed by
    its move and its escaped comment; its joseki children follow, inline when
    there is one and each in parentheses when there are several. The local
    files are a store from node id to the parsed node (`None` when the file
    does not parse). */
module JosekiToSgf {
  import opened Wrappers

  // ---------------------------------------------------------------------------
  // Text values (esc)
  // ---------------------------------------------------------------------------

  /** `String.replace` with a global pattern of one character. */
  function ReplaceAll(s: string, c: char, r: string): string
    decreases |s|
  {
    if |s| == 0 then "" else (if s[0] == c then r else [s[0]]) + ReplaceAll(s[1..], c, r)
  }

  /** The escaping of a Text value in SGF FF[4]: a backslash and a closing
      bracket each get a backslash in front, every other character stays. */
  function EscapeChar(x: char): string {
    if x == '\\' then "\\\\" else if x == ']' then "\\]" else [x]
  }

  function EscapeText(s: string): string
    decreases |s|
  {
    if |s| == 0 then "" else EscapeChar(s[0]) + EscapeText(s[1..])
  }

  lemma {:induction false} ReplaceAllAppend(a: string, b: string, c: char, r: string)
    ensures ReplaceAll(a + b, c, r) == ReplaceAll(a, c, r) + ReplaceAll(b, c, r)
    decreases |a|
  {
    if |a| > 0 {
      assert (a + b)[1..] == a[1..] + b;
      ReplaceAllAppend(a[1..], b, c, r);
    } else {
      assert a + b == b;
    }
  }

  lemma ReplaceOne(x: char, c: char, r: string)
    ensures ReplaceAll([x], c, r) == if x == c then r else [x]
  {
    assert [x][1..] == [];
  }

  /** Two global replaces, backslashes first, escape character by character. */
  lemma {:induction false} TwoReplacesEscape(s: string)
    ensures ReplaceAll(ReplaceAll(s, '\\', "\\\\"), ']', "\\]") == EscapeText(s)
    decreases |s|
  {
    if |s| > 0 {
      var x := s[0];
      assert s == [x] + s[1..];
      ReplaceAllAppend([x], s[1..], '\\', "\\\\");
      ReplaceOne(x, '\\', "\\\\");
      var piece := if x == '\\' then "\\\\" else [x];
      var inner := ReplaceAll(s[1..], '\\', "\\\\");
      ReplaceAllAppend(piece, inner, ']', "\\]");
      TwoReplacesEscape(s[1..]);
      if x == '\\' {
        assert piece == ['\\'] + ['\\'];
        ReplaceAllAppend(['\\'], ['\\'], ']', "\\]");
        ReplaceOne('\\', ']', "\\]");
      } else {
        ReplaceOne(x, ']', "\\]");
      }
      assert ReplaceAll(piece, ']', "\\]") == EscapeChar(x);
    }
  }

  /** `esc`: the empty string for a missing value, else the escaped text. */
  function Esc(v: Option<string>): (t: string)
    ensures v.None? ==> t == ""
    ensures v.Some? ==> t == EscapeText(v.value)
  {
    match v
    case None => ""
    case Some(s) =>
      TwoReplacesEscape(s);
      ReplaceAll(ReplaceAll(s, '\\', "\\\\"), ']', "\\]")
  }

  /** How an SGF FF[4] reader takes a Text value: it reads up to the first
      `]` that no backslash escapes, keeps the character after each escaping
      backslash and drops a backslash-newline (a soft line break). It gives
      the value and what follows the bracket, or `None` when the bracket is
      missing. */
  function ReadText(t: string): Option<(string, string)>
    decreases |t|
  {
    if |t| == 0 then None
    else if t[0] == ']' then Some(("", t[1..]))
    else if t[0] == '\\' then
      if |t| == 1 then None
      else
        match ReadText(t[2..])
        case None => None
        case Some(p) => Some((if t[1] == '\n' then p.0 else [t[1]] + p.0, p.1))
    else
      match ReadText(t[1..])
      case None => None
      case Some(p) => Some(([t[0]] + p.0, p.1))
  }

  lemma {:induction false} ReadEscaped(s: string, rest: string)
    ensures ReadText(EscapeText(s) + "]" + rest) == Some((s, rest))
    decreases |s|
  {
    if |s| == 0 {
      assert EscapeText(s) + "]" + rest == "]" + rest;
      assert ("]" + rest)[1..] == rest;
    } else {
      var u := EscapeText(s[1..]) + "]" + rest;
      ReadEscaped(s[1..], rest);
      var t := EscapeText(s) + "]" + rest;
      assert t == EscapeChar(s[0]) + u;
      if s[0] == '\\' || s[0] == ']' {
        assert t[2..] == u;
      } else {
        assert t[1..] == u;
      }
      assert [s[0]] + s[1..] == s;
    }
  }

  /** What `esc` writes between brackets reads back as the original text,
      and the reader resumes right after the closing bracket. */
  lemma EscRoundTrip(s: string, rest: string)
    ensures ReadText(Esc(Some(s)) + "]" + rest) == Some((s, rest))
  {
    ReadEscaped(s, rest);
  }

  // ---------------------------------------------------------------------------
  // Local files (nestedPathForId)
  // ---------------------------------------------------------------------------

  /** Paths below the josekipedia base directory, one component per entry. */
  datatype IdPaths = IdPaths(dir: seq<string>, outfile: seq<string>, flat: seq<string>)

  function DigitDirs(s: string): (ds: seq<string>)
    ensures |ds| == |s|
    ensures forall i :: 0 <= i < |s| ==> ds[i] == [s[i]]
  {
    seq(|s|, i requires 0 <= i < |s| => [s[i]])
  }

  function Flatten(ds: seq<string>): string
    decreases |ds|
  {
    if |ds| == 0 then "" else Flatten(ds[..|ds| - 1]) + ds[|ds| - 1]
  }

  /** `nestedPathForId`: one directory per character but the last, the file
      named after the whole id; the flat path sits in the base directory. */
  function NestedPathForId(id: string): (p: IdPaths)
    ensures |id| <= 1 ==> p.dir == [] && p.outfile == p.flat
    ensures |id| > 1 ==> |p.dir| == |id| - 1 && forall i :: 0 <= i < |id| - 1 ==> p.dir[i] == [id[i]]
    ensures |p.outfile| == |p.dir| + 1 && p.outfile[..|p.dir|] == p.dir
  {
    var parts := if |id| > 1 then DigitDirs(id[..|id| - 1]) else [];
    IdPaths(parts, parts + [id + ".json"], [id + ".json"])
  }

  lemma {:induction false} FlattenDigitDirs(s: string)
    ensures Flatten(DigitDirs(s)) == s
    decreases |s|
  {
    if |s| > 0 {
      var ds := DigitDirs(s);
      assert ds[..|ds| - 1] == DigitDirs(s[..|s| - 1]);
      FlattenDigitDirs(s[..|s| - 1]);
      assert s[..|s| - 1] + [s[|s| - 1]] == s;
    }
  }

  /** The directories spell the id without its last character, the file
      name carries the id, and so distinct ids get distinct files. */
  lemma NestedPathRecoversId(id: string)
    requires |id| >= 1
    ensures Flatten(NestedPathForId(id).dir) + [id[|id| - 1]] == id
    ensures NestedPathForId(id).outfile[|NestedPathForId(id).outfile| - 1] == id + ".json"
  {
    if |id| > 1 {
      FlattenDigitDirs(id[..|id| - 1]);
    }
    assert id[..|id| - 1] + [id[|id| - 1]] == id;
  }

  lemma NestedPathInjective(a: string, b: string)
    requires NestedPathForId(a).outfile == NestedPathForId(b).outfile
    ensures a == b
  {
    var pa := NestedPathForId(a).outfile;
    assert pa[|pa| - 1] == a + ".json";
    assert (a + ".json")[..|a|] == a;
    assert (b + ".json")[..|b|] == b;
  }

  // ---------------------------------------------------------------------------
  // Nodes (moveProp, nodeToSgf)
  // ---------------------------------------------------------------------------

  /** A child reference `{_id, _mtype}`; a missing or non-numeric `_mtype` is
      some value other than 0. */
  datatype ChildRef = ChildRef(id: string, mtype: int)

  /** A crawled node: `B`, `W` and `C`, with "" for a missing value, and its
      `_children`. */
  datatype JNode = JNode(b: string, w: string, c: string, children: seq<ChildRef>)

  /** The local files: a present id is a file that exists; `None` is one that
      does not parse. */
  type Store = map<string, Option<JNode>>

  const Header: string := "GM[1]FF[4]SZ[19]"

  /** `moveProp`: the black move if any, else the white move, unescaped. */
  function MoveProp(n: JNode): (p: string)
    ensures p == "" <==> n.b == "" && n.w == ""
    ensures p != "" ==> |p| >= 3 && p[1] == '[' && p[|p| - 1] == ']'
    ensures p != "" ==> (p[0] == 'B' <==> n.b != "") && (p[0] == 'W' <==> n.b == "")
    ensures p != "" ==> p[2..|p| - 1] == if n.b != "" then n.b else n.w
  {
    if n.b != "" then "B[" + n.b + "]"
    else if n.w != "" then "W[" + n.w + "]"
    else ""
  }

  function CommentProp(c: string): string {
    if c != "" then "C[" + Esc(Some(c)) + "]" else ""
  }

  /** A node's own part: `;`, the move, the comment. */
  function NodeHead(n: JNode): string {
    ";" + MoveProp(n) + CommentProp(n.c)
  }

  /** The comment a node writes reads back as the node's comment. */
  lemma CommentReadsBack(n: JNode, rest: string)
    requires n.c != ""
    ensures NodeHead(n) == ";" + MoveProp(n) + "C[" + Esc(Some(n.c)) + "]"
    ensures ReadText(Esc(Some(n.c)) + "]" + rest) == Some((n.c, rest))
  {
    EscRoundTrip(n.c, rest);
  }

  /** The children the script follows: joseki moves whose file exists. */
  function Kept(refs: seq<ChildRef>, store: Store): (ks: seq<ChildRef>)
    ensures forall c :: c in ks <==> c in refs && c.mtype == 0 && c.id in store
    ensures |ks| <= |refs|
    decreases |refs|
  {
    if |refs| == 0 then []
    else (if refs[0].mtype == 0 && refs[0].id in store then [refs[0]] else []) + Kept(refs[1..], store)
  }

  /** `slice(0, 9)`. */
  function FirstNine(refs: seq<ChildRef>): (r: seq<ChildRef>)
    ensures |r| == if |refs| < 9 then |refs| else 9
    ensures forall c :: c in r ==> c in refs
  {
    if |refs| < 9 then refs else refs[..9]
  }

  /** Every followed child of `n` has a rank below `bound`. */
  ghost predicate Below(n: JNode, store: Store, rank: map<string, nat>, bound: nat) {
    forall c :: c in n.children && c.mtype == 0 && c.id in store ==> c.id in rank && rank[c.id] < bound
  }

  /** The local files hold no cycle through followed children: each loaded
      node's followed children rank below it. */
  ghost predicate Ranked(store: Store, rank: map<string, nat>) {
    forall id :: id in store && store[id].Some? ==> id in rank && Below(store[id].value, store, rank, rank[id])
  }

  ghost predicate Fits(kept: seq<ChildRef>, store: Store, rank: map<string, nat>, bound: nat) {
    forall c :: c in kept ==> c.id in store && c.id in rank && rank[c.id] < bound
  }

  lemma Shift<T>(a: seq<T>, b: seq<T>, c: seq<T>)
    ensures (a + b) + c == a + (b + c)
  {
  }

  lemma FitsPrefix(kept: seq<ChildRef>, j: nat, store: Store, rank: map<string, nat>, bound: nat)
    requires j <= |kept| && Fits(kept, store, rank, bound)
    ensures Fits(kept[..j], store, rank, bound)
  {
    forall c | c in kept[..j]
      ensures c.id in store && c.id in rank && rank[c.id] < bound
    {
      var k :| 0 <= k < j && kept[..j][k] == c;
      assert kept[k] == c;
    }
  }

  /** `nodeToSgf`. */
  function NodeToSgf(store: Store, ghost rank: map<string, nat>, n: JNode, ghost bound: nat): string
    requires Ranked(store, rank) && Below(n, store, rank, bound)
    decreases bound, 2
  {
    NodeHead(n) + Continuation(store, rank, Kept(FirstNine(n.children), store), bound)
  }

  /** What follows a node's own part: nothing without kept children, the one
      kept child inline (or nothing if its file does not parse), else the
      parenthesised subtrees. */
  function Continuation(store: Store, ghost rank: map<string, nat>, kept: seq<ChildRef>, ghost bound: nat): string
    requires Ranked(store, rank) && Fits(kept, store, rank, bound)
    decreases bound, 1
  {
    if |kept| == 0 then ""
    else if |kept| == 1 then
      (if store[kept[0].id].Some? then NodeToSgf(store, rank, store[kept[0].id].value, rank[kept[0].id]) else "")
    else Parts(store, rank, kept, bound)
  }

  /** The `map`, `filter(Boolean)` and `join('')` over several kept children. */
  function Parts(store: Store, ghost rank: map<string, nat>, kept: seq<ChildRef>, ghost bound: nat): string
    requires Ranked(store, rank) && Fits(kept, store, rank, bound)
    decreases bound, 0, |kept|
  {
    if |kept| == 0 then ""
    else
      var c := kept[|kept| - 1];
      Parts(store, rank, kept[..|kept| - 1], bound)
        + (if store[c.id].Some? then "(" + NodeToSgf(store, rank, store[c.id].value, rank[c.id]) + ")" else "")
  }

  /** Every node's text opens with `;`, its move and its comment. */
  lemma NodeStartsWithHead(store: Store, rank: map<string, nat>, n: JNode, bound: nat)
    requires Ranked(store, rank) && Below(n, store, rank, bound)
    ensures NodeToSgf(store, rank, n, bound)[..|NodeHead(n)|] == NodeHead(n)
    ensures NodeToSgf(store, rank, n, bound)[0] == ';'
  {
  }

  /** Children past the ninth, non-joseki children and children without a
      file never reach the output. */
  lemma {:induction false} KeptIdempotent(refs: seq<ChildRef>, store: Store)
    ensures Kept(Kept(refs, store), store) == Kept(refs, store)
    decreases |refs|
  {
    if |refs| > 0 {
      KeptIdempotent(refs[1..], store);
      var head := if refs[0].mtype == 0 && refs[0].id in store then [refs[0]] else [];
      var ks := Kept(refs, store);
      assert ks == head + Kept(refs[1..], store);
      if head != [] {
        assert ks[1..] == Kept(refs[1..], store);
      } else {
        assert ks == Kept(refs[1..], store);
      }
    }
  }

  lemma FirstNineOfShort(refs: seq<ChildRef>)
    requires |refs| <= 9
    ensures FirstNine(refs) == refs
  {
  }

  lemma OnlyFollowedChildrenMatter(store: Store, rank: map<string, nat>, n: JNode, bound: nat)
    requires Ranked(store, rank) && Below(n, store, rank, bound)
    ensures var pruned := n.(children := Kept(FirstNine(n.children), store));
      Below(pruned, store, rank, bound)
      && NodeToSgf(store, rank, pruned, bound) == NodeToSgf(store, rank, n, bound)
  {
    var ks := Kept(FirstNine(n.children), store);
    FirstNineOfShort(ks);
    KeptIdempotent(FirstNine(n.children), store);
  }

  /** A lone kept child follows its parent with no parentheses. */
  lemma SingleChildInline(store: Store, rank: map<string, nat>, n: JNode, bound: nat)
    requires Ranked(store, rank) && Below(n, store, rank, bound)
    requires |Kept(FirstNine(n.children), store)| == 1
    ensures var c := Kept(FirstNine(n.children), store)[0];
      NodeToSgf(store, rank, n, bound)
        == NodeHead(n) + (if store[c.id].Some? then NodeToSgf(store, rank, store[c.id].value, rank[c.id]) else "")
  {
  }

  /** With several kept children, the subtrees are the loaded ones, each in
      parentheses, in order: a child whose file does not parse adds nothing. */
  lemma {:induction false} PartsSkipUnloadable(store: Store, rank: map<string, nat>, kept: seq<ChildRef>, c: ChildRef, bound: nat)
    requires Ranked(store, rank) && Fits(kept + [c], store, rank, bound)
    requires store[c.id].None?
    ensures Parts(store, rank, kept + [c], bound) == Parts(store, rank, kept, bound)
  {
    assert (kept + [c])[..|kept|] == kept;
  }

  lemma {:induction false} PartsAppend(store: Store, rank: map<string, nat>, kept: seq<ChildRef>, c: ChildRef, bound: nat)
    requires Ranked(store, rank) && Fits(kept + [c], store, rank, bound)
    requires store[c.id].Some?
    ensures Parts(store, rank, kept + [c], bound)
      == Parts(store, rank, kept, bound) + "(" + NodeToSgf(store, rank, store[c.id].value, rank[c.id]) + ")"
  {
    assert (kept + [c])[..|kept|] == kept;
  }

  // ---------------------------------------------------------------------------
  // The file (buildSgfFromRoot)
  // ---------------------------------------------------------------------------

  /** The whole file: the standard header and the root's comment in one root
      node, then the root's kept children as for any node but without the cap
      of nine; the root's own move is not written. */
  function BuildSgf(store: Store, ghost rank: map<string, nat>, root: JNode, ghost bound: nat): string
    requires Ranked(store, rank) && Below(root, store, rank, bound)
  {
    "(;" + Header + CommentProp(root.c) + Continuation(store, rank, Kept(root.children, store), bound) + ")"
  }

  /** `buildSgfFromRoot`, accumulating into `s`. */
  method BuildSgfFromRoot(store: Store, ghost rank: map<string, nat>, rootNode: JNode, ghost bound: nat) returns (s: string)
    requires Ranked(store, rank) && Below(rootNode, store, rank, bound)
    ensures s == BuildSgf(store, rank, rootNode, bound)
  {
    s := "(;" + Header;
    if rootNode.c != "" {
      var e := Esc(Some(rootNode.c));
      Shift(s, "C[", e);
      Shift(s, "C[" + e, "]");
      s := s + "C[" + e + "]";
    }
    assert s == "(;" + Header + CommentProp(rootNode.c);
    var children := Kept(rootNode.children, store);
    KeptFits(rootNode, store, rank, bound);
    s := AppendChildren(store, rank, children, bound, s);
    s := s + ")";
  }

  lemma KeptFits(n: JNode, store: Store, rank: map<string, nat>, bound: nat)
    requires Below(n, store, rank, bound)
    ensures Fits(Kept(n.children, store), store, rank, bound)
  {
  }

  /** The branches of `buildSgfFromRoot` on the number of kept children. */
  method AppendChildren(store: Store, ghost rank: map<string, nat>, children: seq<ChildRef>, ghost bound: nat, s0: string)
    returns (s: string)
    requires Ranked(store, rank) && Fits(children, store, rank, bound)
    ensures s == s0 + Continuation(store, rank, children, bound)
  {
    s := s0;
    if |children| == 0 {
      return;
    }
    if |children| == 1 {
      var child := if children[0].id in store then store[children[0].id] else None;
      if child.Some? {
        s := s + NodeToSgf(store, rank, child.value, rank[children[0].id]);
      }
    } else {
      s := AppendParts(store, rank, children, bound, s);
    }
  }

  /** The `for` loop of `buildSgfFromRoot`: each loaded child in parentheses,
      a child whose file does not parse skipped. */
  method AppendParts(store: Store, ghost rank: map<string, nat>, children: seq<ChildRef>, ghost bound: nat, s0: string)
    returns (s: string)
    requires Ranked(store, rank) && Fits(children, store, rank, bound)
    ensures s == s0 + Parts(store, rank, children, bound)
  {
    s := s0;
    for i := 0 to |children|
      invariant s == s0 + Parts(store, rank, children[..i], bound)
    {
      var c := children[i];
      assert children[..i + 1] == children[..i] + [c];
      FitsPrefix(children, i + 1, store, rank, bound);
      ghost var done := Parts(store, rank, children[..i], bound);
      var child := if c.id in store then store[c.id] else None;
      if child.None? {
        PartsSkipUnloadable(store, rank, children[..i], c, bound);
        continue;
      }
      var sub := NodeToSgf(store, rank, child.value, rank[c.id]);
      PartsAppend(store, rank, children[..i], c, bound);
      assert Parts(store, rank, children[..i + 1], bound) == done + "(" + sub + ")";
      Shift(s0, done, "(");
      Shift(s0, done + "(", sub);
      Shift(s0, done + "(" + sub, ")");
      s := s + "(" + sub + ")";
    }
    assert children[..|children|] == children;
  }

  /** The file is one game tree: it opens with the FF[4] header of a 19x19
      game and closes the tree's parenthesis. */
  lemma BuildSgfFrame(store: Store, rank: map<string, nat>, root: JNode, bound: nat)
    requires Ranked(store, rank) && Below(root, store, rank, bound)
    ensures var s := BuildSgf(store, rank, root, bound);
      |s| >= 18 && s[..18] == "(;GM[1]FF[4]SZ[19]" && s[|s| - 1] == ')'
  {
  }

  /** The root takes every kept child, not only the first nine. */
  lemma RootHasNoCap(store: Store, rank: map<string, nat>, root: JNode, bound: nat)
    requires Ranked(store, rank) && Below(root, store, rank, bound)
    requires |Kept(root.children, store)| >= 2
    ensures BuildSgf(store, rank, root, bound)
      == "(;" + Header + CommentProp(root.c) + Parts(store, rank, Kept(root.children, store), bound) + ")"
  {
  }
}
