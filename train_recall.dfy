// The training screen's catalog logic (src/TrainRecall.jsx): filtering the
// stored sequences by start position and tags, picking one of them in fixed or
// sequential mode, the +/- steppers, the start player, and the tag options.

module TrainRecall {
  import opened Wrappers
  import opened NumberText
  import Splitter
  import GameTree

  /** A JavaScript number as the component stores it: `parseInt` may give NaN. */
  datatype Num = NaN | Int(i: int)

  /** One entry of the sequences index. A missing or non-array `tags` reads as []. */
  datatype Entry = Entry(key: string, name: string, firstMove: Option<string>, tags: seq<string>)

  /** The deterministic variation modes; any stored mode other than "sequential"
      (and "random", which is not modelled) behaves as "fixed". */
  datatype Mode = Fixed | Sequential

  /** What `pickVariationIndex` returns: an index, or `undefined` when fixed
      mode indexes an empty filter at -1. */
  datatype Pick = Index(i: int) | Undefined

  function AllIndices(n: nat): (r: seq<int>)
    ensures |r| == n && forall i :: 0 <= i < n ==> r[i] == i
  {
    seq(n, i => i)
  }

  lemma AllIndicesContains(n: nat)
    ensures forall i :: 0 <= i < n ==> i in AllIndices(n)
  {
    forall i | 0 <= i < n
      ensures i in AllIndices(n)
    {
      assert AllIndices(n)[i] == i;
    }
  }

  predicate Ascending(r: seq<int>) {
    forall a, b :: 0 <= a < b < |r| ==> r[a] < r[b]
  }

  predicate IndicesIn(r: seq<int>, n: nat) {
    forall k :: 0 <= k < |r| ==> 0 <= r[k] < n
  }

  // ---------------------------------------------------------------------------
  // Filtering (filterIndices)
  // ---------------------------------------------------------------------------

  /** Indices below n whose first move is sp, in the order the loop pushes them. */
  function StartMatches(entries: seq<Entry>, sp: string, n: nat): seq<int>
    requires n <= |entries|
  {
    if n == 0 then []
    else StartMatches(entries, sp, n - 1) + (if entries[n - 1].firstMove == Some(sp) then [n - 1] else [])
  }

  /** The start-position stage: every index for an empty sp, and also when
      nothing matches. */
  function StartFiltered(entries: seq<Entry>, sp: string): seq<int> {
    if sp == "" then AllIndices(|entries|)
    else
      var m := StartMatches(entries, sp, |entries|);
      if |m| > 0 then m else AllIndices(|entries|)
  }

  predicate HasAllTags(itemTags: seq<string>, tags: seq<string>) {
    forall t :: t in tags ==> t in itemTags
  }

  /** The first n indices of `filtered` whose entry carries every selected tag. */
  function TagMatches(entries: seq<Entry>, filtered: seq<int>, tags: seq<string>, n: nat): seq<int>
    requires n <= |filtered| && IndicesIn(filtered, |entries|)
  {
    if n == 0 then []
    else
      TagMatches(entries, filtered, tags, n - 1)
        + (if HasAllTags(entries[filtered[n - 1]].tags, tags) then [filtered[n - 1]] else [])
  }

  /** The result of `filterIndices(sp, entries)` with `tags` as the selected tags. */
  function Filter(entries: seq<Entry>, sp: string, tags: seq<string>): seq<int> {
    if |entries| == 0 then []
    else
      var f := StartFiltered(entries, sp);
      StartFilteredInRange(entries, sp);
      if |tags| > 0 then TagMatches(entries, f, tags, |f|) else f
  }

  lemma {:induction false} StartMatchesMeaning(entries: seq<Entry>, sp: string, n: nat)
    requires n <= |entries|
    ensures var m := StartMatches(entries, sp, n);
      Ascending(m) && IndicesIn(m, n)
      && forall i :: 0 <= i < n ==> (i in m <==> entries[i].firstMove == Some(sp))
  {
    if n > 0 {
      StartMatchesMeaning(entries, sp, n - 1);
    }
  }

  lemma StartFilteredInRange(entries: seq<Entry>, sp: string)
    ensures IndicesIn(StartFiltered(entries, sp), |entries|) && Ascending(StartFiltered(entries, sp))
  {
    if sp != "" {
      StartMatchesMeaning(entries, sp, |entries|);
    }
  }

  lemma {:induction false} TagMatchesMeaning(entries: seq<Entry>, filtered: seq<int>, tags: seq<string>, n: nat)
    requires n <= |filtered| && IndicesIn(filtered, |entries|) && Ascending(filtered)
    ensures var m := TagMatches(entries, filtered, tags, n);
      Ascending(m) && IndicesIn(m, |entries|)
      && (forall k :: 0 <= k < |m| ==> m[k] in filtered[..n])
      && (n > 0 ==> forall k :: 0 <= k < |m| ==> m[k] <= filtered[n - 1])
      && forall k :: 0 <= k < n ==> (filtered[k] in m <==> HasAllTags(entries[filtered[k]].tags, tags))
  {
    TagMatchesFrom(entries, filtered, tags, n);
    if n > 0 {
      TagMatchesMeaning(entries, filtered, tags, n - 1);
      var m0 := TagMatches(entries, filtered, tags, n - 1);
      var m := TagMatches(entries, filtered, tags, n);
      forall k | 0 <= k < |m|
        ensures m[k] <= filtered[n - 1]
      {
        var j :| 0 <= j < n && filtered[j] == m[k];
      }
      assert filtered[n - 1] !in m0 by {
        if n > 1 {
          assert filtered[n - 2] < filtered[n - 1];
        }
      }
      if HasAllTags(entries[filtered[n - 1]].tags, tags) {
        assert m == m0 + [filtered[n - 1]];
      } else {
        assert m == m0;
      }
    }
  }

  /** The matches are taken from `filtered[..n]`, in its ascending order. */
  lemma {:induction false} TagMatchesFrom(entries: seq<Entry>, filtered: seq<int>, tags: seq<string>, n: nat)
    requires n <= |filtered| && IndicesIn(filtered, |entries|) && Ascending(filtered)
    ensures var m := TagMatches(entries, filtered, tags, n);
      Ascending(m) && IndicesIn(m, |entries|) && forall k :: 0 <= k < |m| ==> m[k] in filtered[..n]
  {
    if n > 0 {
      TagMatchesFrom(entries, filtered, tags, n - 1);
      var m0 := TagMatches(entries, filtered, tags, n - 1);
      forall k | 0 <= k < |m0|
        ensures m0[k] < filtered[n - 1]
      {
        var j :| 0 <= j < n - 1 && filtered[j] == m0[k];
      }
      assert filtered[..n] == filtered[..n - 1] + [filtered[n - 1]];
      if HasAllTags(entries[filtered[n - 1]].tags, tags) {
        assert TagMatches(entries, filtered, tags, n) == m0 + [filtered[n - 1]];
      } else {
        assert TagMatches(entries, filtered, tags, n) == m0;
      }
    }
  }

  /** Some entry starts at sp. */
  predicate AnyStart(entries: seq<Entry>, sp: string) {
    exists j :: 0 <= j < |entries| && entries[j].firstMove == Some(sp)
  }

  /** Index i passes the start-position stage. */
  predicate StartOk(entries: seq<Entry>, sp: string, i: int)
    requires 0 <= i < |entries|
  {
    sp == "" || !AnyStart(entries, sp) || entries[i].firstMove == Some(sp)
  }

  lemma {:induction false} StartMatchesNone(entries: seq<Entry>, sp: string, n: nat)
    requires n <= |entries| && !AnyStart(entries, sp)
    ensures StartMatches(entries, sp, n) == []
  {
    if n > 0 {
      StartMatchesNone(entries, sp, n - 1);
      assert entries[n - 1].firstMove != Some(sp);
    }
  }

  /** The start-position stage in set terms. */
  lemma StartFilteredMeaning(entries: seq<Entry>, sp: string)
    ensures forall i :: 0 <= i < |entries| ==> (i in StartFiltered(entries, sp) <==> StartOk(entries, sp, i))
  {
    AllIndicesContains(|entries|);
    if sp != "" {
      var m := StartMatches(entries, sp, |entries|);
      if |m| > 0 {
        StartMatchesFound(entries, sp);
      } else {
        StartMatchesEmpty(entries, sp);
      }
    }
  }

  lemma StartMatchesFound(entries: seq<Entry>, sp: string)
    requires |StartMatches(entries, sp, |entries|)| > 0
    ensures AnyStart(entries, sp)
    ensures forall i :: 0 <= i < |entries| ==>
      (i in StartMatches(entries, sp, |entries|) <==> entries[i].firstMove == Some(sp))
  {
    StartMatchesMeaning(entries, sp, |entries|);
    var m := StartMatches(entries, sp, |entries|);
    assert m[0] in m;
  }

  lemma StartMatchesEmpty(entries: seq<Entry>, sp: string)
    requires |StartMatches(entries, sp, |entries|)| == 0
    ensures !AnyStart(entries, sp)
  {
    StartMatchesMeaning(entries, sp, |entries|);
  }

  /** The tag stage in set terms. */
  lemma TagStageMeaning(entries: seq<Entry>, f: seq<int>, tags: seq<string>)
    requires IndicesIn(f, |entries|) && Ascending(f)
    ensures forall i :: 0 <= i < |entries| ==>
      (i in TagMatches(entries, f, tags, |f|) <==> i in f && HasAllTags(entries[i].tags, tags))
  {
    TagMatchesMeaning(entries, f, tags, |f|);
    assert f[..|f|] == f;
  }

  /** The filter in set terms: ascending indices into the catalog, holding
      exactly those that pass the start-position stage (with its fallback) and
      carry every selected tag. */
  lemma FilterMeaning(entries: seq<Entry>, sp: string, tags: seq<string>)
    ensures var r := Filter(entries, sp, tags);
      Ascending(r) && IndicesIn(r, |entries|)
      && forall i :: 0 <= i < |entries| ==>
           (i in r <==> StartOk(entries, sp, i) && HasAllTags(entries[i].tags, tags))
  {
    if |entries| > 0 {
      var f := StartFiltered(entries, sp);
      StartFilteredInRange(entries, sp);
      StartFilteredMeaning(entries, sp);
      if |tags| > 0 {
        TagMatchesMeaning(entries, f, tags, |f|);
        TagStageMeaning(entries, f, tags);
      }
    }
  }

  /** The two edge cases the source spells out: an empty catalog gives [] and,
      without a start position or tags, every index is kept. A start position
      nobody has is ignored. */
  lemma FilterEdges(entries: seq<Entry>, sp: string, tags: seq<string>)
    ensures |entries| == 0 ==> Filter(entries, sp, tags) == []
    ensures |entries| > 0 && sp == "" && |tags| == 0 ==> Filter(entries, sp, tags) == AllIndices(|entries|)
    ensures |entries| > 0 && !AnyStart(entries, sp) && |tags| == 0 ==> Filter(entries, sp, tags) == AllIndices(|entries|)
  {
    if |entries| > 0 && sp != "" && !AnyStart(entries, sp) {
      StartMatchesNone(entries, sp, |entries|);
    }
  }

  /** The loops of `filterIndices`: the start-position scan, then the all-tags
      check of every kept index with an early exit on the first missing tag. */
  method FilterCatalog(entries: seq<Entry>, sp: string, tags: seq<string>) returns (r: seq<int>)
    ensures r == Filter(entries, sp, tags)
  {
    if |entries| == 0 {
      return [];
    }
    var filtered: seq<int>;
    if sp == "" {
      filtered := AllIndices(|entries|);
    } else {
      var matches := ScanStarts(entries, sp);
      filtered := if |matches| > 0 then matches else AllIndices(|entries|);
    }
    assert filtered == StartFiltered(entries, sp);
    StartFilteredInRange(entries, sp);
    r := filtered;
    if |tags| > 0 {
      r := ScanTags(entries, filtered, tags);
    }
  }

  /** The start-position loop: push every index whose first move is sp. */
  method ScanStarts(entries: seq<Entry>, sp: string) returns (matches: seq<int>)
    ensures matches == StartMatches(entries, sp, |entries|)
  {
    matches := [];
    var i := 0;
    while i < |entries|
      invariant 0 <= i <= |entries|
      invariant matches == StartMatches(entries, sp, i)
    {
      if entries[i].firstMove == Some(sp) {
        matches := matches + [i];
      }
      i := i + 1;
    }
  }

  /** The tag loop: keep every filtered index whose entry has all the tags. */
  method ScanTags(entries: seq<Entry>, filtered: seq<int>, tags: seq<string>) returns (matches: seq<int>)
    requires IndicesIn(filtered, |entries|)
    ensures matches == TagMatches(entries, filtered, tags, |filtered|)
  {
    matches := [];
    var i := 0;
    while i < |filtered|
      invariant 0 <= i <= |filtered|
      invariant matches == TagMatches(entries, filtered, tags, i)
    {
      var ok := HasEveryTag(entries[filtered[i]].tags, tags);
      if ok {
        matches := matches + [filtered[i]];
      }
      i := i + 1;
    }
  }

  /** The `every` over the selected tags, stopping at the first one missing. */
  method HasEveryTag(itemTags: seq<string>, tags: seq<string>) returns (ok: bool)
    ensures ok <==> HasAllTags(itemTags, tags)
  {
    ok := true;
    var t := 0;
    while t < |tags|
      invariant 0 <= t <= |tags|
      invariant ok
      invariant forall u :: 0 <= u < t ==> tags[u] in itemTags
    {
      if tags[t] !in itemTags {
        ok := false;
        return;
      }
      t := t + 1;
    }
  }

  /** The index the file splitter produces: its entries carry only key and name. */
  function CatalogOf(meta: seq<Splitter.Meta>): (c: seq<Entry>)
    ensures |c| == |meta|
    ensures forall i :: 0 <= i < |c| ==> c[i].firstMove == None && c[i].tags == []
  {
    seq(|meta|, i requires 0 <= i < |meta| => Entry(meta[i].key, meta[i].name, None, []))
  }

  /** On an index written by the splitter the start position never narrows the
      list, and any selected tag empties it. */
  lemma SplitterCatalogFilter(meta: seq<Splitter.Meta>, sp: string, tags: seq<string>)
    requires |meta| > 0
    ensures |tags| == 0 ==> Filter(CatalogOf(meta), sp, tags) == AllIndices(|meta|)
    ensures |tags| > 0 ==> Filter(CatalogOf(meta), sp, tags) == []
  {
    var c := CatalogOf(meta);
    assert !AnyStart(c, sp);
    FilterEdges(c, sp, tags);
    if |tags| > 0 {
      var f := StartFiltered(c, sp);
      StartFilteredInRange(c, sp);
      UntaggedMatchNothing(c, f, tags, |f|);
    }
  }

  /** The first move of a stored sequence, when it has one. */
  function FirstMoveOf(path: seq<GameTree.Data>): Option<string> {
    var ms := GameTree.PathMoves(path);
    if |ms| > 0 then Some(ms[0]) else None
  }

  /** The index as the splitter's own header comment describes it: each entry
      also carries the first move of its sequence, which is what the start
      position filter compares against. */
  function IndexedCatalog(meta: seq<Splitter.Meta>, paths: seq<seq<GameTree.Data>>): (c: seq<Entry>)
    requires |meta| == |paths|
    ensures |c| == |meta|
    ensures forall i :: 0 <= i < |c| ==> c[i].key == meta[i].key && c[i].firstMove == FirstMoveOf(paths[i])
  {
    seq(|meta|, i requires 0 <= i < |meta| => Entry(meta[i].key, meta[i].name, FirstMoveOf(paths[i]), []))
  }

  /** With first moves in the index, a start position that some sequence opens
      with keeps exactly those sequences. */
  lemma IndexedCatalogFilter(meta: seq<Splitter.Meta>, paths: seq<seq<GameTree.Data>>, sp: string, j: nat)
    requires |meta| == |paths| && j < |paths| && sp != ""
    requires FirstMoveOf(paths[j]) == Some(sp)
    ensures forall i :: 0 <= i < |meta| ==>
      (i in Filter(IndexedCatalog(meta, paths), sp, []) <==> FirstMoveOf(paths[i]) == Some(sp))
  {
    var c := IndexedCatalog(meta, paths);
    assert c[j].firstMove == Some(sp);
    assert AnyStart(c, sp);
    FilterMeaning(c, sp, []);
  }

  lemma {:induction false} UntaggedMatchNothing(entries: seq<Entry>, filtered: seq<int>, tags: seq<string>, n: nat)
    requires n <= |filtered| && IndicesIn(filtered, |entries|) && |tags| > 0
    requires forall i :: 0 <= i < |entries| ==> entries[i].tags == []
    ensures TagMatches(entries, filtered, tags, n) == []
  {
    if n > 0 {
      UntaggedMatchNothing(entries, filtered, tags, n - 1);
      assert tags[0] in tags;
      assert !HasAllTags(entries[filtered[n - 1]].tags, tags);
    }
  }

  // ---------------------------------------------------------------------------
  // Picking a variation (pickVariationIndex)
  // ---------------------------------------------------------------------------

  /** `Number(vi)`, with NaN and negatives read as 0. */
  function NonNegative(vi: Num): (v: nat)
    ensures vi.Int? && vi.i >= 0 ==> v == vi.i
    ensures vi.NaN? || vi.i < 0 ==> v == 0
  {
    if vi.NaN? || vi.i < 0 then 0 else vi.i
  }

  /** Fixed mode's position: clamped into [0, len-1]; -1 when len is 0. */
  function FixedPosition(vi: Num, len: nat): (p: int)
    ensures len == 0 ==> p == -1
    ensures len > 0 ==> 0 <= p < len
    ensures len > 0 && vi.Int? && 0 <= vi.i < len ==> p == vi.i
    ensures len > 0 && vi.Int? && vi.i >= len ==> p == len - 1
    ensures len > 0 && (vi.NaN? || vi.i < 0) ==> p == 0
  {
    var v := NonNegative(vi);
    if v >= len then len - 1 else v
  }

  /** Sequential mode's position for a non-empty filter. */
  function SequentialPosition(vi: Num, len: nat): (p: nat)
    requires len > 0
    ensures p < len
    ensures vi.Int? && 0 <= vi.i < len ==> p == vi.i
  {
    NonNegative(vi) % len
  }

  /** The positions that k successive sequential picks return, starting from vi. */
  function SequentialRun(vi: Num, len: nat, k: nat): (ps: seq<nat>)
    requires len > 0
    ensures |ps| == k
    decreases k
  {
    if k == 0 then []
    else
      var p := SequentialPosition(vi, len);
      [p] + SequentialRun(Int((p + 1) % len), len, k - 1)
  }

  /** Sequential mode cycles through the filtered list in order: from position
      p the j-th pick is at (p + j) mod len, so len picks visit every entry once. */
  lemma {:induction false} SequentialCycles(p: nat, len: nat, k: nat)
    requires p < len
    ensures forall j :: 0 <= j < k ==> SequentialRun(Int(p), len, k)[j] == (p + j) % len
    decreases k
  {
    if k > 0 {
      var q := (p + 1) % len;
      SequentialCycles(q, len, k - 1);
      var run := SequentialRun(Int(p), len, k);
      forall j | 0 <= j < k
        ensures run[j] == (p + j) % len
      {
        if j > 0 {
          assert run[j] == SequentialRun(Int(q), len, k - 1)[j - 1];
          ModShift(p, len, j);
        }
      }
    }
  }

  lemma ModShift(p: nat, len: nat, j: nat)
    requires p < len && j > 0
    ensures ((p + 1) % len + (j - 1)) % len == (p + j) % len
  {
    if p + 1 == len {
      assert (p + 1) % len == 0;
      AddModulus(j - 1, len);
      assert p + j == (j - 1) + len;
    } else {
      assert (p + 1) % len == p + 1;
    }
  }

  lemma AddModulus(x: nat, len: nat)
    requires len > 0
    ensures (x + len) % len == x % len
  {
    var q, r := x / len, x % len;
    var q2, r2 := (x + len) / len, (x + len) % len;
    var d := q2 - q - 1;
    assert d * len == q2 * len - q * len - len;
    MulBound(d, len);
    MulBound(-d, len);
  }

  lemma MulBound(d: int, len: int)
    requires len > 0
    ensures d >= 1 ==> d * len >= len
  {
  }

  // ---------------------------------------------------------------------------
  // Steppers and the start player
  // ---------------------------------------------------------------------------

  /** `Number(v) || 0`. */
  function Current(v: Num): int {
    if v.NaN? then 0 else v.i
  }

  /** The "-" move stepper: one step down, never below 0, and no higher than a
      known total. */
  function DecreasedMoveNumber(cur: Num, totalMoves: nat): (next: int)
    ensures 0 <= next
    ensures totalMoves > 0 ==> next <= totalMoves
    ensures 1 <= Current(cur) && (totalMoves == 0 || Current(cur) - 1 <= totalMoves) ==> next == Current(cur) - 1
    ensures Current(cur) <= 1 ==> next == 0
  {
    var next := if Current(cur) - 1 < 0 then 0 else Current(cur) - 1;
    if totalMoves > 0 && next > totalMoves then totalMoves else next
  }

  /** The "+" move stepper: one step up, capped at a known total. It has no
      lower bound, so a stored negative value stays negative. */
  function IncreasedMoveNumber(cur: Num, totalMoves: nat): (next: int)
    ensures totalMoves > 0 ==> next <= totalMoves
    ensures Current(cur) >= -1 ==> next >= 0
    ensures totalMoves == 0 || Current(cur) < totalMoves ==> next == Current(cur) + 1
    ensures totalMoves > 0 && Current(cur) >= totalMoves ==> next == totalMoves
  {
    var next := Current(cur) + 1;
    if totalMoves > 0 && next > totalMoves then totalMoves else next
  }

  /** The number of selectable variations: the filter when it is non-empty,
      the whole index otherwise. */
  function SelectableCount(filteredIndices: seq<int>, sequencesIndex: seq<Entry>): nat {
    if |filteredIndices| > 0 then |filteredIndices| else |sequencesIndex|
  }

  function MaxIndex(count: nat): nat {
    if count == 0 then 0 else count - 1
  }

  /** The "-" variation stepper: stays in [0, max(0, count-1)]. */
  function DecreasedVariation(cur: Num, count: nat): (next: int)
    ensures 0 <= next <= MaxIndex(count)
    ensures 1 <= Current(cur) <= count ==> next == Current(cur) - 1
    ensures Current(cur) > count ==> next == MaxIndex(count)
  {
    var next := if Current(cur) - 1 < 0 then 0 else Current(cur) - 1;
    if next > MaxIndex(count) then MaxIndex(count) else next
  }

  /** The "+" variation stepper: at most max(0, count-1), with no lower bound. */
  function IncreasedVariation(cur: Num, count: nat): (next: int)
    ensures next <= MaxIndex(count)
    ensures Current(cur) >= -1 ==> next >= 0
    ensures Current(cur) + 1 <= MaxIndex(count) ==> next == Current(cur) + 1
    ensures Current(cur) + 1 > MaxIndex(count) ==> next == MaxIndex(count)
  {
    var next := Current(cur) + 1;
    if next > MaxIndex(count) then MaxIndex(count) else next
  }

  /** `determineStartPlayer` without the random branch: 1 (black) for the
      choice "black" or an unset choice, -1 for anything else. */
  function StartPlayerFor(colorChoice: string): (p: int)
    ensures p == 1 || p == -1
    ensures p == 1 <==> colorChoice == "black" || colorChoice == ""
  {
    var choice := if colorChoice == "" then "black" else colorChoice;
    if choice == "black" then 1 else -1
  }

  // ---------------------------------------------------------------------------
  // Tag options
  // ---------------------------------------------------------------------------

  /** The tags of the first n entries, in order. */
  function AllTags(entries: seq<Entry>, n: nat): seq<string>
    requires n <= |entries|
  {
    if n == 0 then [] else AllTags(entries, n - 1) + entries[n - 1].tags
  }

  /** Keep the first occurrence of every value. */
  function Dedup(ts: seq<string>): seq<string> {
    if |ts| == 0 then [] else
      var d := Dedup(ts[..|ts| - 1]);
      if ts[|ts| - 1] in d then d else d + [ts[|ts| - 1]]
  }

  predicate NoDuplicates(s: seq<string>) {
    forall a, b :: 0 <= a < b < |s| ==> s[a] != s[b]
  }

  /** The first index of t in ts. */
  function FirstIndex(ts: seq<string>, t: string): (k: nat)
    requires t in ts
    ensures k < |ts| && ts[k] == t && t !in ts[..k]
  {
    if ts[0] == t then 0 else 1 + FirstIndex(ts[1..], t)
  }

  /** The tag options hold every tag once, ordered by first occurrence. */
  lemma {:induction false} DedupMeaning(ts: seq<string>)
    ensures var d := Dedup(ts);
      NoDuplicates(d)
      && (forall t :: t in d <==> t in ts)
      && forall a, b :: 0 <= a < b < |d| ==> FirstIndex(ts, d[a]) < FirstIndex(ts, d[b])
  {
    if |ts| > 0 {
      var init := ts[..|ts| - 1];
      var last := ts[|ts| - 1];
      DedupMeaning(init);
      var d0 := Dedup(init);
      assert ts == init + [last];
      forall t | t in init
        ensures FirstIndex(ts, t) == FirstIndex(init, t)
      {
        FirstIndexPrefix(init, last, t);
      }
      if last !in d0 {
        assert last !in init;
        var d := d0 + [last];
        forall a, b | 0 <= a < b < |d|
          ensures FirstIndex(ts, d[a]) < FirstIndex(ts, d[b])
        {
          if b == |d| - 1 {
            assert d[a] in init;
            assert ts[..|ts| - 1] == init;
            FirstIndexIs(ts, last, |ts| - 1);
          } else {
            assert d[a] == d0[a] && d[b] == d0[b];
          }
        }
      }
    }
  }

  lemma FirstIndexIs(ts: seq<string>, t: string, k: nat)
    requires k < |ts| && ts[k] == t && t !in ts[..k]
    ensures FirstIndex(ts, t) == k
  {
    var f := FirstIndex(ts, t);
    assert forall m :: 0 <= m < k ==> ts[..k][m] == ts[m];
    assert forall m :: 0 <= m < f ==> ts[..f][m] == ts[m];
  }

  lemma FirstIndexPrefix(init: seq<string>, last: string, t: string)
    requires t in init
    ensures FirstIndex(init + [last], t) == FirstIndex(init, t)
  {
    var k := FirstIndex(init, t);
    assert (init + [last])[k] == t;
    assert (init + [last])[..k] == init[..k];
    FirstIndexIs(init + [last], t, k);
  }

  lemma DedupSnoc(xs: seq<string>, v: string)
    ensures Dedup(xs + [v]) == if v in Dedup(xs) then Dedup(xs) else Dedup(xs) + [v]
  {
    assert (xs + [v])[..|xs|] == xs;
  }

  /** The option builder's nested loops: scan every entry's tags and push each
      value not yet collected. */
  method UniqueTags(entries: seq<Entry>) returns (uniq: seq<string>)
    ensures uniq == Dedup(AllTags(entries, |entries|))
  {
    uniq := [];
    var i := 0;
    while i < |entries|
      invariant 0 <= i <= |entries|
      invariant uniq == Dedup(AllTags(entries, i))
    {
      uniq := AddTags(uniq, AllTags(entries, i), entries[i].tags);
      i := i + 1;
    }
  }

  /** The inner loop: push each of `t` not collected yet. */
  method AddTags(uniq0: seq<string>, ghost before: seq<string>, t: seq<string>) returns (uniq: seq<string>)
    requires uniq0 == Dedup(before)
    ensures uniq == Dedup(before + t)
  {
    uniq := uniq0;
    var j := 0;
    assert before + t[..0] == before;
    while j < |t|
      invariant 0 <= j <= |t|
      invariant uniq == Dedup(before + t[..j])
    {
      var val := t[j];
      assert before + t[..j + 1] == (before + t[..j]) + [val];
      DedupSnoc(before + t[..j], val);
      if val !in uniq {
        uniq := uniq + [val];
      }
      j := j + 1;
    }
    assert t[..|t|] == t;
  }

  // ---------------------------------------------------------------------------
  // The component state
  // ---------------------------------------------------------------------------

  /** The deterministic part of the training component's state; `saved`
      holds what the steppers and the picker write to browser storage. */
  class Trainer {
    var sequencesIndex: seq<Entry>
    var filteredIndices: seq<int>
    var startPos: string
    var selectedTags: seq<string>
    var variationMode: Mode
    var variationIndex: Num
    var moveNumber: Num
    var totalMoves: nat
    var colorChoice: string
    var saved: map<string, string>

    /** Values as restored from storage: the colour becomes "white" only when
        "white" was stored. */
    constructor(moveNumber: Num, startPos: string, variationMode: Mode, variationIndex: Num,
                storedColor: Option<string>, selectedTags: seq<string>)
      ensures this.moveNumber == moveNumber && this.startPos == startPos
      ensures this.variationMode == variationMode && this.variationIndex == variationIndex
      ensures this.selectedTags == selectedTags
      ensures colorChoice == (if storedColor == Some("white") then "white" else "black")
      ensures sequencesIndex == [] && filteredIndices == [] && totalMoves == 0 && saved == map[]
    {
      this.moveNumber := moveNumber;
      this.startPos := startPos;
      this.variationMode := variationMode;
      this.variationIndex := variationIndex;
      this.selectedTags := selectedTags;
      colorChoice := if storedColor == Some("white") then "white" else "black";
      sequencesIndex := [];
      filteredIndices := [];
      totalMoves := 0;
      saved := map[];
    }

    /** `filterIndices`: computes the filter with the selected tags in state
        and stores it. */
    method FilterIndices(sp: string, sequences: seq<Entry>) returns (r: seq<int>)
      modifies this
      ensures r == Filter(sequences, sp, old(selectedTags)) && filteredIndices == r
      ensures sequencesIndex == old(sequencesIndex) && startPos == old(startPos)
      ensures selectedTags == old(selectedTags) && variationMode == old(variationMode)
      ensures variationIndex == old(variationIndex) && moveNumber == old(moveNumber)
      ensures totalMoves == old(totalMoves) && colorChoice == old(colorChoice) && saved == old(saved)
    {
      r := FilterCatalog(sequences, sp, selectedTags);
      filteredIndices := r;
    }

    /** `pickVariationIndex` in fixed and sequential mode. */
    method PickVariationIndex() returns (r: Pick)
      modifies this
      ensures old(sequencesIndex) == [] ==> r == Index(0) && filteredIndices == old(filteredIndices)
      ensures old(sequencesIndex) != [] ==> filteredIndices == Filter(old(sequencesIndex), old(startPos), old(selectedTags))
      ensures var len := |filteredIndices|;
        old(sequencesIndex) != [] && old(variationMode) == Fixed ==>
          (len == 0 ==> r == Undefined)
          && (len > 0 ==> r == Index(filteredIndices[FixedPosition(old(variationIndex), len)]))
          && saved == old(saved)["variationIndex" := IntToString(FixedPosition(old(variationIndex), len))]
          && variationIndex == old(variationIndex)
      ensures var len := |filteredIndices|;
        old(sequencesIndex) != [] && old(variationMode) == Sequential ==>
          (len == 0 ==> r == Index(0) && variationIndex == old(variationIndex) && saved == old(saved))
          && (len > 0 ==>
                var p := SequentialPosition(old(variationIndex), len);
                r == Index(filteredIndices[p]) && variationIndex == Int((p + 1) % len)
                && saved == old(saved)["variationIndex" := IntToString((p + 1) % len)])
      ensures old(sequencesIndex) == [] ==> variationIndex == old(variationIndex) && saved == old(saved)
      ensures sequencesIndex == old(sequencesIndex) && startPos == old(startPos)
      ensures selectedTags == old(selectedTags) && variationMode == old(variationMode)
      ensures moveNumber == old(moveNumber) && totalMoves == old(totalMoves) && colorChoice == old(colorChoice)
    {
      if |sequencesIndex| == 0 {
        return Index(0);
      }
      var filtered := FilterIndices(startPos, sequencesIndex);
      var len := |filtered|;
      if variationMode == Sequential {
        var vi := NonNegative(variationIndex);
        if len == 0 {
          return Index(0);
        }
        var currentPos := vi % len;
        var next := (currentPos + 1) % len;
        variationIndex := Int(next);
        saved := saved["variationIndex" := IntToString(next)];
        return Index(filtered[currentPos]);
      }
      var vi: int := NonNegative(variationIndex);
      if vi >= len {
        vi := len - 1;
      }
      saved := saved["variationIndex" := IntToString(vi)];
      r := if 0 <= vi < len then Index(filtered[vi]) else Undefined;
    }

    method DecreaseMoveNumber()
      modifies this
      ensures moveNumber == Int(DecreasedMoveNumber(old(moveNumber), totalMoves))
      ensures saved == old(saved)["moveNumber" := IntToString(DecreasedMoveNumber(old(moveNumber), totalMoves))]
      ensures sequencesIndex == old(sequencesIndex) && filteredIndices == old(filteredIndices)
      ensures variationIndex == old(variationIndex) && totalMoves == old(totalMoves)
      ensures startPos == old(startPos) && selectedTags == old(selectedTags)
      ensures variationMode == old(variationMode) && colorChoice == old(colorChoice)
    {
      var next := DecreasedMoveNumber(moveNumber, totalMoves);
      saved := saved["moveNumber" := IntToString(next)];
      moveNumber := Int(next);
    }

    method IncreaseMoveNumber()
      modifies this
      ensures moveNumber == Int(IncreasedMoveNumber(old(moveNumber), totalMoves))
      ensures saved == old(saved)["moveNumber" := IntToString(IncreasedMoveNumber(old(moveNumber), totalMoves))]
      ensures sequencesIndex == old(sequencesIndex) && filteredIndices == old(filteredIndices)
      ensures variationIndex == old(variationIndex) && totalMoves == old(totalMoves)
      ensures startPos == old(startPos) && selectedTags == old(selectedTags)
      ensures variationMode == old(variationMode) && colorChoice == old(colorChoice)
    {
      var next := IncreasedMoveNumber(moveNumber, totalMoves);
      saved := saved["moveNumber" := IntToString(next)];
      moveNumber := Int(next);
    }

    method DecreaseVariationIndex()
      modifies this
      ensures var next := DecreasedVariation(old(variationIndex), SelectableCount(filteredIndices, sequencesIndex));
        variationIndex == Int(next) && saved == old(saved)["variationIndex" := IntToString(next)]
      ensures sequencesIndex == old(sequencesIndex) && filteredIndices == old(filteredIndices)
      ensures moveNumber == old(moveNumber) && totalMoves == old(totalMoves)
      ensures startPos == old(startPos) && selectedTags == old(selectedTags)
      ensures variationMode == old(variationMode) && colorChoice == old(colorChoice)
    {
      var next := DecreasedVariation(variationIndex, SelectableCount(filteredIndices, sequencesIndex));
      saved := saved["variationIndex" := IntToString(next)];
      variationIndex := Int(next);
    }

    method IncreaseVariationIndex()
      modifies this
      ensures var next := IncreasedVariation(old(variationIndex), SelectableCount(filteredIndices, sequencesIndex));
        variationIndex == Int(next) && saved == old(saved)["variationIndex" := IntToString(next)]
      ensures sequencesIndex == old(sequencesIndex) && filteredIndices == old(filteredIndices)
      ensures moveNumber == old(moveNumber) && totalMoves == old(totalMoves)
      ensures startPos == old(startPos) && selectedTags == old(selectedTags)
      ensures variationMode == old(variationMode) && colorChoice == old(colorChoice)
    {
      var next := IncreasedVariation(variationIndex, SelectableCount(filteredIndices, sequencesIndex));
      saved := saved["variationIndex" := IntToString(next)];
      variationIndex := Int(next);
    }
  }
}
