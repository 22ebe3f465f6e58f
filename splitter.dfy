/** src/lib/sgf.js: `splitFileIntoSequences` walks the game tree depth first
    from the first child of the root and, at every leaf, writes one stored
    sequence (the game's root properties above a single-branch chain of the
    nodes on the path) under a key made from the file name and a counter. */
module Splitter {
  import opened Wrappers
  import opened GameTree
  import opened NumberText
  import Game

  // ---------------------------------------------------------------------------
  // Root-to-leaf paths

  predicate NonEmptyPaths(ps: seq<seq<Data>>) {
    forall i :: 0 <= i < |ps| ==> |ps[i]| > 0
  }

  /** Each path of `ps` with `acc` in front. */
  function Prefixed(acc: seq<Data>, ps: seq<seq<Data>>): (r: seq<seq<Data>>)
    ensures |r| == |ps| && forall i :: 0 <= i < |ps| ==> r[i] == acc + ps[i]
  {
    seq(|ps|, i requires 0 <= i < |ps| => acc + ps[i])
  }

  /** The node data along every root-to-leaf path below `n`, depth first,
      children in order: what the `dfs` emits. */
  function Paths(n: Node): (ps: seq<seq<Data>>)
    ensures NonEmptyPaths(ps)
    ensures |ps| == LeafCount(n)
    ensures forall i :: 0 <= i < |ps| ==> ps[i][0] == n.data
    decreases n, 1
  {
    if |n.children| == 0 then [[n.data]] else Prefixed([n.data], ChildPaths(n, |n.children|))
  }

  /** The paths below the first `k` children of `n`, in order. */
  function ChildPaths(n: Node, k: nat): (ps: seq<seq<Data>>)
    requires k <= |n.children|
    ensures NonEmptyPaths(ps)
    ensures |ps| == ChildLeafCount(n, k)
    decreases n, 0, k
  {
    if k == 0 then [] else ChildPaths(n, k - 1) + Paths(n.children[k - 1])
  }

  /** The number of leaves below `n`; `Paths` emits one path per leaf. */
  function LeafCount(n: Node): nat
    decreases n, 1
  {
    if |n.children| == 0 then 1 else ChildLeafCount(n, |n.children|)
  }

  function ChildLeafCount(n: Node, k: nat): nat
    requires k <= |n.children|
    decreases n, 0, k
  {
    if k == 0 then 0 else ChildLeafCount(n, k - 1) + LeafCount(n.children[k - 1])
  }

  /** `p` is the data along a path from `n` down to a leaf. */
  predicate IsLeafPath(n: Node, p: seq<Data>)
    decreases n
  {
    |p| >= 1 && p[0] == n.data &&
    if |n.children| == 0 then |p| == 1
    else exists i :: 0 <= i < |n.children| && IsLeafPath(n.children[i], p[1..])
  }

  /** Every emitted path is a root-to-leaf path ... */
  lemma {:induction false} PathsAreLeafPaths(n: Node, p: seq<Data>)
    requires p in Paths(n)
    ensures IsLeafPath(n, p)
    decreases n, 1
  {
    if |n.children| > 0 {
      var j :| 0 <= j < |Paths(n)| && Paths(n)[j] == p;
      var q := ChildPaths(n, |n.children|)[j];
      assert p == [n.data] + q && p[1..] == q;
      var i := ChildPathsFrom(n, |n.children|, q);
      PathsAreLeafPaths(n.children[i], q);
    }
  }

  /** A path below the first `k` children comes from one of them. */
  lemma {:induction false} ChildPathsFrom(n: Node, k: nat, q: seq<Data>) returns (i: nat)
    requires k <= |n.children| && q in ChildPaths(n, k)
    ensures i < k && q in Paths(n.children[i])
    decreases k
  {
    if q in Paths(n.children[k - 1]) {
      i := k - 1;
    } else {
      i := ChildPathsFrom(n, k - 1, q);
    }
  }

  /** ... and every root-to-leaf path is emitted. */
  lemma {:induction false} LeafPathsAreEmitted(n: Node, p: seq<Data>)
    requires IsLeafPath(n, p)
    ensures p in Paths(n)
    decreases n, 1
  {
    if |n.children| == 0 {
      assert p == [n.data];
    } else {
      var i :| 0 <= i < |n.children| && IsLeafPath(n.children[i], p[1..]);
      LeafPathsAreEmitted(n.children[i], p[1..]);
      ChildPathsContain(n, |n.children|, i, p[1..]);
      var ps := ChildPaths(n, |n.children|);
      var j :| 0 <= j < |ps| && ps[j] == p[1..];
      assert Paths(n)[j] == [n.data] + p[1..] == p;
    }
  }

  lemma {:induction false} ChildPathsContain(n: Node, k: nat, i: nat, q: seq<Data>)
    requires i < k <= |n.children| && q in Paths(n.children[i])
    ensures q in ChildPaths(n, k)
    decreases k
  {
    if i < k - 1 {
      ChildPathsContain(n, k - 1, i, q);
    }
  }

  lemma PrefixedNothing(ps: seq<seq<Data>>)
    ensures Prefixed([], ps) == ps
  {
    var r := Prefixed([], ps);
    forall i | 0 <= i < |ps|
      ensures r[i] == ps[i]
    {
      assert [] + ps[i] == ps[i];
    }
  }

  lemma PrefixedAppend(acc: seq<Data>, a: seq<seq<Data>>, b: seq<seq<Data>>)
    ensures Prefixed(acc, a + b) == Prefixed(acc, a) + Prefixed(acc, b)
  {
  }

  lemma PrefixedTwice(acc: seq<Data>, d: Data, ps: seq<seq<Data>>)
    ensures Prefixed(acc + [d], ps) == Prefixed(acc, Prefixed([d], ps))
  {
    var l, r := Prefixed(acc + [d], ps), Prefixed(acc, Prefixed([d], ps));
    forall i | 0 <= i < |ps|
      ensures l[i] == r[i]
    {
      assert acc + [d] + ps[i] == acc + ([d] + ps[i]);
    }
  }

  // ---------------------------------------------------------------------------
  // The chain of clones

  /** The single-branch chain holding `path`: each clone `{data, children: []}`
      linked to the next, the last one without children. */
  function ChainOf(path: seq<Data>): (c: Node)
    requires |path| > 0
    decreases |path|
  {
    Node(path[0], if |path| == 1 then [] else [ChainOf(path[1..])], [])
  }

  /** The chain holds the path's data in order; every node has one child
      except the last, which has none; no clone carries tags. */
  lemma {:induction false} ChainShape(path: seq<Data>)
    requires |path| > 0
    ensures var line := MainLine(ChainOf(path));
      DataAlong(line) == path
      && (forall i :: 0 <= i < |line| - 1 ==> |line[i].children| == 1)
      && |line[|line| - 1].children| == 0
      && (forall i :: 0 <= i < |line| ==> line[i].tags == [])
    decreases |path|
  {
    if |path| > 1 {
      ChainShape(path[1..]);
      assert MainLine(ChainOf(path)) == [ChainOf(path)] + MainLine(ChainOf(path[1..]));
    }
  }

  /** The loop that links `nodeClones[i].children = [nodeClones[i + 1]]`. */
  method LinkClones(clones: seq<Data>) returns (head: Node)
    requires |clones| > 0
    ensures head == ChainOf(clones)
  {
    var i := |clones| - 1;
    head := Node(clones[i], [], []);
    while i > 0
      invariant 0 <= i < |clones|
      invariant head == ChainOf(clones[i..])
    {
      i := i - 1;
      assert clones[i..][1..] == clones[i + 1..];
      head := Node(clones[i], [head], []);
    }
    assert clones[0..] == clones;
  }

  /** One `' '`-or-comment entry per node of the path. */
  function PathComments(path: seq<Data>): (cs: seq<string>)
    ensures |cs| == |path|
  {
    seq(|path|, i requires 0 <= i < |path| => Game.NodeComment(path[i]))
  }

  /** Walking a stored chain gives back the moves and comments of the path it
      was built from, whatever tags are selected (the clones carry none). */
  lemma {:induction false} WalkChain(path: seq<Data>, selectedTags: seq<string>)
    requires |path| > 0
    ensures Game.WalkFrom(ChainOf(path), selectedTags) == Game.Trail(PathMoves(path), PathComments(path))
    decreases |path|
  {
    var c := ChainOf(path);
    assert !Game.StopsAt(c, selectedTags);
    if |path| > 1 {
      WalkChain(path[1..], selectedTags);
      assert PathComments(path) == [Game.NodeComment(path[0])] + PathComments(path[1..]);
    }
  }

  // ---------------------------------------------------------------------------
  // Keys and names

  predicate SafeChar(c: char) {
    ('a' <= c <= 'z') || ('A' <= c <= 'Z') || ('0' <= c <= '9') || c == '.' || c == '_' || c == '-'
  }

  /** `name.replace(/[^a-zA-Z0-9._-]/g, '_')`. */
  function SafeName(name: string): (r: string)
    ensures |r| == |name|
    ensures forall i :: 0 <= i < |r| ==> SafeChar(r[i])
    ensures forall i :: 0 <= i < |r| ==> (SafeChar(name[i]) <==> r[i] == name[i])
  {
    seq(|name|, i requires 0 <= i < |name| => if SafeChar(name[i]) then name[i] else '_')
  }

  /** Sanitising a sanitised name changes nothing. */
  lemma SafeNameIdempotent(name: string)
    ensures SafeName(SafeName(name)) == SafeName(name)
  {
  }

  /** `file.name || 'unknown'`. */
  function FileLabel(fileName: Option<string>): string {
    if fileName.None? || fileName.value == "" then "unknown" else fileName.value
  }

  /** `seq:${safeName}:${seqCount}`. */
  function Key(fileName: Option<string>, k: nat): string {
    "seq:" + SafeName(FileLabel(fileName)) + ":" + NatToString(k)
  }

  /** `${file.name}#${seqCount}` (an absent name prints as `undefined`). */
  function DisplayName(fileName: Option<string>, k: nat): string {
    (if fileName.Some? then fileName.value else "undefined") + "#" + NatToString(k)
  }

  /** Different counters give different keys, so no sequence overwrites another. */
  lemma KeysDistinct(fileName: Option<string>, a: nat, b: nat)
    requires a != b
    ensures Key(fileName, a) != Key(fileName, b)
  {
    var p := "seq:" + SafeName(FileLabel(fileName)) + ":";
    if Key(fileName, a) == Key(fileName, b) {
      assert Key(fileName, a)[|p|..] == NatToString(a);
      assert Key(fileName, b)[|p|..] == NatToString(b);
      NatToStringInjective(a, b);
    }
  }

  // ---------------------------------------------------------------------------
  // Emitting sequences

  datatype Meta = Meta(key: string, name: string)

  /** The object written for one sequence: the game's root data, the chain, and `info.fileName`. */
  datatype Stored = Stored(data: Data, children: seq<Node>, fileName: Option<string>)

  /** What stays fixed during one split: the game's root data, the file name
      and the message of the storage error a full store raises. */
  datatype Env = Env(gameData: Data, fileName: Option<string>, quotaMessage: string)

  /** The counter, the metadata list, the store's items and remaining room,
      and the first rejection, if any. */
  datatype SplitState = SplitState(count: nat, meta: seq<Meta>, items: map<string, Stored>, room: nat, error: Option<string>)

  const WriteFailed := "Failed to write sequence to localStorage: "
  const NoGame := "Failed to split SGF file: No game found in SGF"

  /** `info.fileName`: `file.name || null`. */
  function InfoName(fileName: Option<string>): Option<string> {
    if fileName == Some("") then None else fileName
  }

  function StoredFor(env: Env, path: seq<Data>): Stored
    requires |path| > 0
  {
    Stored(env.gameData, [ChainOf(path)], InfoName(env.fileName))
  }

  /** One leaf: count it, write its sequence, and record its metadata when the
      write succeeds or the (first) rejection when it fails. */
  function EmitOne(s: SplitState, env: Env, path: seq<Data>): SplitState
    requires |path| > 0
  {
    var k := s.count + 1;
    var key := Key(env.fileName, k);
    if s.room > 0 then
      SplitState(k, s.meta + [Meta(key, DisplayName(env.fileName, k))], s.items[key := StoredFor(env, path)], s.room - 1, s.error)
    else
      SplitState(k, s.meta, s.items, s.room, if s.error.None? then Some(WriteFailed + env.quotaMessage) else s.error)
  }

  /** The leaves `ps`, emitted in order. */
  function EmitAll(s: SplitState, env: Env, ps: seq<seq<Data>>): SplitState
    requires NonEmptyPaths(ps)
    decreases |ps|
  {
    if |ps| == 0 then s else EmitOne(EmitAll(s, env, ps[..|ps| - 1]), env, ps[|ps| - 1])
  }

  lemma {:induction false} EmitAllAppend(s: SplitState, env: Env, a: seq<seq<Data>>, b: seq<seq<Data>>)
    requires NonEmptyPaths(a) && NonEmptyPaths(b)
    ensures NonEmptyPaths(a + b)
    ensures EmitAll(s, env, a + b) == EmitAll(EmitAll(s, env, a), env, b)
    decreases |b|
  {
    if |b| == 0 {
      assert a + b == a;
    } else {
      assert (a + b)[..|a + b| - 1] == a + b[..|b| - 1];
      EmitAllAppend(s, env, a, b[..|b| - 1]);
    }
  }

  function Min(a: nat, b: nat): nat {
    if a <= b then a else b
  }

  /** The metadata of sequences `from + 1` … `from + w`. */
  function MetaRange(env: Env, from: nat, w: nat): (ms: seq<Meta>)
    ensures |ms| == w
    ensures forall j :: 0 <= j < w ==> ms[j] == Meta(Key(env.fileName, from + j + 1), DisplayName(env.fileName, from + j + 1))
  {
    seq(w, j requires 0 <= j < w => Meta(Key(env.fileName, from + j + 1), DisplayName(env.fileName, from + j + 1)))
  }

  /** After emitting `ps`: every leaf is counted; the first `room` of them are
      written and listed in order with consecutive counters; the rest fail,
      and the split reports the first failure. */
  lemma {:induction false} EmitAllEffect(s: SplitState, env: Env, ps: seq<seq<Data>>)
    requires NonEmptyPaths(ps)
    ensures var t := EmitAll(s, env, ps); var w := Min(s.room, |ps|);
      t.count == s.count + |ps|
      && t.room == s.room - w
      && t.meta == s.meta + MetaRange(env, s.count, w)
      && t.error == (if s.error.Some? || |ps| <= s.room then s.error else Some(WriteFailed + env.quotaMessage))
    decreases |ps|
  {
    if |ps| > 0 {
      var init := ps[..|ps| - 1];
      EmitAllEffect(s, env, init);
      assert EmitAll(s, env, ps) == EmitOne(EmitAll(s, env, init), env, ps[|ps| - 1]);
      if s.room >= |ps| {
        MetaRangeStep(env, s.count, |ps| - 1);
      }
    }
  }

  lemma MetaRangeStep(env: Env, from: nat, w: nat)
    ensures MetaRange(env, from, w + 1)
      == MetaRange(env, from, w) + [Meta(Key(env.fileName, from + w + 1), DisplayName(env.fileName, from + w + 1))]
  {
  }

  /** The key of the j-th sequence written after `from` earlier ones. */
  function KeyAt(fileName: Option<string>, from: nat, j: nat): string {
    Key(fileName, from + j + 1)
  }

  /** `key` is the key of one of the `w` sequences written after `from` earlier ones. */
  predicate IsWrittenKey(fileName: Option<string>, from: nat, w: nat, key: string) {
    exists j :: 0 <= j < w && KeyAt(fileName, from, j) == key
  }

  /** The written items: sequence `count + j + 1` is stored under its key and
      holds the chain of the j-th path. */
  lemma {:induction false} EmitAllWrites(s: SplitState, env: Env, ps: seq<seq<Data>>, j: nat)
    requires NonEmptyPaths(ps) && j < Min(s.room, |ps|)
    ensures var t := EmitAll(s, env, ps);
      KeyAt(env.fileName, s.count, j) in t.items && t.items[KeyAt(env.fileName, s.count, j)] == StoredFor(env, ps[j])
    decreases |ps|
  {
    var last := |ps| - 1;
    var init := ps[..last];
    EmitAllEffect(s, env, init);
    var prev := EmitAll(s, env, init);
    assert EmitAll(s, env, ps) == EmitOne(prev, env, ps[last]);
    if j < last {
      EmitAllWrites(s, env, init, j);
      KeysDistinct(env.fileName, s.count + j + 1, s.count + last + 1);
    } else {
      assert prev.room > 0 && prev.count == s.count + j;
    }
  }

  /** Apart from the written keys, the store's items stay as they were. */
  lemma {:induction false} EmitAllKeepsOthers(s: SplitState, env: Env, ps: seq<seq<Data>>, key: string)
    requires NonEmptyPaths(ps) && !IsWrittenKey(env.fileName, s.count, Min(s.room, |ps|), key)
    ensures var t := EmitAll(s, env, ps);
      (key in t.items <==> key in s.items) && (key in s.items ==> t.items[key] == s.items[key])
    decreases |ps|
  {
    if |ps| > 0 {
      var last := |ps| - 1;
      var init := ps[..last];
      EmitAllEffect(s, env, init);
      var w := Min(s.room, |ps|);
      if s.room >= |ps| {
        assert key != KeyAt(env.fileName, s.count, last);
        assert !IsWrittenKey(env.fileName, s.count, w - 1, key);
      }
      EmitAllKeepsOthers(s, env, init, key);
    }
  }

  // ---------------------------------------------------------------------------
  // The store and the recursive walk

  /** The key-value store the sequences are written to; `room` is how many
      more sequences fit before a write fails with `quotaMessage`. */
  class SequenceStore {
    var items: map<string, Stored>
    var room: nat
    const quotaMessage: string

    constructor (items0: map<string, Stored>, room0: nat, quotaMessage: string)
      ensures items == items0 && room == room0 && this.quotaMessage == quotaMessage
    {
      items := items0;
      room := room0;
      this.quotaMessage := quotaMessage;
    }

    /** `localStorage.setItem`: stores the value, or fails once the store is full. */
    method SetItem(key: string, value: Stored) returns (err: Option<string>)
      modifies this
      ensures old(room) > 0 ==> err == None && items == old(items)[key := value] && room == old(room) - 1
      ensures old(room) == 0 ==> err == Some(quotaMessage) && items == old(items) && room == 0
    {
      if room == 0 {
        err := Some(quotaMessage);
      } else {
        items := items[key := value];
        room := room - 1;
        err := None;
      }
    }
  }

  /** The state of one run of `splitFileIntoSequences`: `seqCount`,
      `sequencesMeta`, the rejection (if `reject` was called) and the store. */
  class Splitter {
    var seqCount: nat
    var sequencesMeta: seq<Meta>
    var rejection: Option<string>
    const store: SequenceStore
    const env: Env

    constructor (store: SequenceStore, gameData: Data, fileName: Option<string>)
      ensures this.store == store && env == Env(gameData, fileName, store.quotaMessage)
      ensures seqCount == 0 && sequencesMeta == [] && rejection == None
    {
      this.store := store;
      env := Env(gameData, fileName, store.quotaMessage);
      seqCount := 0;
      sequencesMeta := [];
      rejection := None;
    }

    function State(): SplitState
      reads this, store
    {
      SplitState(seqCount, sequencesMeta, store.items, store.room, rejection)
    }

    /** The leaf branch of `dfs`: count the sequence, link the clones, write
        the sequence object under its key and list it, or record the rejection. */
    method EmitLeaf(nodeClones: seq<Data>)
      requires |nodeClones| > 0 && env.quotaMessage == store.quotaMessage
      modifies this, store
      ensures env.quotaMessage == store.quotaMessage
      ensures State() == EmitOne(old(State()), env, nodeClones)
    {
      seqCount := seqCount + 1;
      var head := LinkClones(nodeClones);
      var seqObj := Stored(env.gameData, [head], InfoName(env.fileName));
      var key := Key(env.fileName, seqCount);
      var err := store.SetItem(key, seqObj);
      if err.Some? {
        if rejection.None? {
          rejection := Some(WriteFailed + err.value);
        }
        return;
      }
      sequencesMeta := sequencesMeta + [Meta(key, DisplayName(env.fileName, seqCount))];
    }

    /** `dfs(node, nodeClonesAcc)`: emits one sequence per leaf below `node`,
        each carrying `acc` followed by the path to that leaf. */
    method Dfs(node: Node, acc: seq<Data>)
      requires env.quotaMessage == store.quotaMessage
      modifies this, store
      ensures env.quotaMessage == store.quotaMessage
      ensures State() == EmitAll(old(State()), env, Prefixed(acc, Paths(node)))
      decreases node
    {
      var nodeClones := acc + [node.data];
      if |node.children| == 0 {
        EmitLeaf(nodeClones);
        assert Prefixed(acc, Paths(node)) == [nodeClones];
        assert EmitAll(old(State()), env, [nodeClones]) == EmitOne(EmitAll(old(State()), env, []), env, nodeClones);
        return;
      }
      ghost var s0 := old(State());
      var i := 0;
      while i < |node.children|
        invariant 0 <= i <= |node.children|
        invariant env.quotaMessage == store.quotaMessage
        invariant State() == EmitAll(s0, env, Prefixed(nodeClones, ChildPaths(node, i)))
      {
        ghost var before := Prefixed(nodeClones, ChildPaths(node, i));
        ghost var here := Prefixed(nodeClones, Paths(node.children[i]));
        Dfs(node.children[i], nodeClones);
        PrefixedAppend(nodeClones, ChildPaths(node, i), Paths(node.children[i]));
        EmitAllAppend(s0, env, before, here);
        assert ChildPaths(node, i + 1) == ChildPaths(node, i) + Paths(node.children[i]);
        i := i + 1;
      }
      PrefixedTwice(acc, node.data, ChildPaths(node, |node.children|));
    }
  }

  /** The paths the split emits: those below the root's first child only. */
  function TopPaths(game: Node): (ps: seq<seq<Data>>)
    ensures NonEmptyPaths(ps)
  {
    if |game.children| == 0 then [] else Paths(game.children[0])
  }

  /** The outcome of a split that starts from `items` and `room` in the store. */
  function SplitOutcome(game: Node, fileName: Option<string>, quotaMessage: string,
                        items: map<string, Stored>, room: nat): SplitState
  {
    EmitAll(SplitState(0, [], items, room, None), Env(game.data, fileName, quotaMessage), TopPaths(game))
  }

  /** `splitFileIntoSequences` on an already parsed game (`None` when the parser found none). */
  method SplitFileIntoSequences(game: Option<Node>, fileName: Option<string>, store: SequenceStore)
    returns (r: Result<seq<Meta>, string>)
    modifies store
    ensures game.None? ==> r == Failure(NoGame) && store.items == old(store.items) && store.room == old(store.room)
    ensures game.Some? ==>
      var t := SplitOutcome(game.value, fileName, store.quotaMessage, old(store.items), old(store.room));
      store.items == t.items && store.room == t.room
      && r == (if t.error.Some? then Failure(t.error.value) else Success(t.meta))
  {
    if game.None? {
      return Failure(NoGame);
    }
    var splitter := new Splitter(store, game.value.data, fileName);
    if |game.value.children| > 0 {
      splitter.Dfs(game.value.children[0], []);
      PrefixedNothing(Paths(game.value.children[0]));
    }
    if splitter.rejection.Some? {
      r := Failure(splitter.rejection.value);
    } else {
      r := Success(splitter.sequencesMeta);
    }
  }

  // ---------------------------------------------------------------------------
  // What a split promises

  /** A split succeeds exactly when every leaf below the first child fits in
      the store; it then lists one entry per leaf, keyed `seq:<name>:1`, `:2`, … */
  lemma SplitSucceedsIffRoom(game: Node, fileName: Option<string>, quotaMessage: string,
                             items: map<string, Stored>, room: nat)
    ensures var t := SplitOutcome(game, fileName, quotaMessage, items, room);
      var leaves := if |game.children| == 0 then 0 else LeafCount(game.children[0]);
      (t.error.None? <==> leaves <= room)
      && t.count == leaves
      && (t.error.None? ==>
            |t.meta| == leaves && forall j :: 0 <= j < leaves ==> t.meta[j].key == Key(fileName, j + 1))
  {
    var ps := TopPaths(game);
    var env := Env(game.data, fileName, quotaMessage);
    EmitAllEffect(SplitState(0, [], items, room, None), env, ps);
  }

  /** The listed keys are pairwise distinct. */
  lemma SplitKeysDistinct(game: Node, fileName: Option<string>, quotaMessage: string,
                          items: map<string, Stored>, room: nat)
    ensures var t := SplitOutcome(game, fileName, quotaMessage, items, room);
      forall i, j :: 0 <= i < j < |t.meta| ==> t.meta[i].key != t.meta[j].key
  {
    var ps := TopPaths(game);
    var env := Env(game.data, fileName, quotaMessage);
    EmitAllEffect(SplitState(0, [], items, room, None), env, ps);
    var t := SplitOutcome(game, fileName, quotaMessage, items, room);
    forall i, j | 0 <= i < j < |t.meta|
      ensures t.meta[i].key != t.meta[j].key
    {
      KeysDistinct(fileName, i + 1, j + 1);
    }
  }

  /** Under the j-th listed key lies the game's root data above the chain of
      the j-th root-to-leaf path, and walking it replays that path's moves. */
  lemma SplitStoresPaths(game: Node, fileName: Option<string>, quotaMessage: string,
                         items: map<string, Stored>, room: nat, j: nat, selectedTags: seq<string>)
    requires |game.children| > 0
    requires j < Min(room, LeafCount(game.children[0]))
    ensures var t := SplitOutcome(game, fileName, quotaMessage, items, room);
      var p := Paths(game.children[0])[j];
      var key := Key(fileName, j + 1);
      key in t.items && t.items[key].data == game.data
      && t.items[key].children == [ChainOf(p)]
      && IsLeafPath(game.children[0], p)
      && Game.Walk(t.items[key].children, selectedTags).moves == PathMoves(p)
  {
    var ps := TopPaths(game);
    var env := Env(game.data, fileName, quotaMessage);
    EmitAllWrites(SplitState(0, [], items, room, None), env, ps, j);
    PathsAreLeafPaths(game.children[0], ps[j]);
    WalkChain(ps[j], selectedTags);
  }
}
