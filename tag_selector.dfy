/** src/components/TagSelector.jsx: the tag buttons of the trainer. Clicking a
    tag toggles it in the controlled `selected` list and hands the new list
    to `onChange`. */
module TagSelector {

  /** `selected.filter(t => t !== tag)`. */
  function Without(selected: seq<string>, tag: string): (r: seq<string>)
    ensures tag !in r
    ensures forall t :: t != tag ==> (t in r <==> t in selected)
    ensures |r| <= |selected|
    decreases |selected|
  {
    if |selected| == 0 then []
    else
      var last := selected[|selected| - 1];
      Without(selected[..|selected| - 1], tag) + (if last == tag then [] else [last])
  }

  /** `toggle(tag)`: an absent tag is appended, a present one is removed
      wherever it occurs. */
  function Toggle(selected: seq<string>, tag: string): (next: seq<string>)
    ensures tag in next <==> tag !in selected
    ensures forall t :: t != tag ==> (t in next <==> t in selected)
  {
    if tag !in selected then selected + [tag] else Without(selected, tag)
  }

  /** `toggle` with its one `onChange` call: returns every list passed to
      `onChange`, in order. */
  method OnToggle(selected: seq<string>, tag: string) returns (changes: seq<seq<string>>)
    ensures changes == [Toggle(selected, tag)]
  {
    var next: seq<string> := [];
    var idx := IndexOf(selected, tag);
    if idx == -1 {
      next := selected + [tag];
    } else {
      next := Without(selected, tag);
    }
    changes := [next];
  }

  /** `indexOf`: the first position of `tag`, or -1. */
  method IndexOf(selected: seq<string>, tag: string) returns (idx: int)
    ensures idx == -1 <==> tag !in selected
    ensures idx != -1 ==> 0 <= idx < |selected| && selected[idx] == tag && tag !in selected[..idx]
  {
    idx := 0;
    while idx < |selected|
      invariant 0 <= idx <= |selected|
      invariant tag !in selected[..idx]
    {
      if selected[idx] == tag {
        return;
      }
      assert selected[..idx + 1] == selected[..idx] + [selected[idx]];
      idx := idx + 1;
    }
    assert selected[..idx] == selected;
    idx := -1;
  }

  /** Removing a tag keeps the other tags in their order: it works piece by
      piece over any split of the list. */
  lemma {:induction false} WithoutAppend(a: seq<string>, b: seq<string>, tag: string)
    ensures Without(a + b, tag) == Without(a, tag) + Without(b, tag)
    decreases |b|
  {
    if |b| == 0 {
      assert a + b == a;
    } else {
      assert (a + b)[..|a + b| - 1] == a + b[..|b| - 1];
      WithoutAppend(a, b[..|b| - 1], tag);
    }
  }

  /** A list without the tag loses nothing. */
  lemma {:induction false} WithoutAbsent(selected: seq<string>, tag: string)
    requires tag !in selected
    ensures Without(selected, tag) == selected
    decreases |selected|
  {
    if |selected| > 0 {
      WithoutAbsent(selected[..|selected| - 1], tag);
      assert selected[..|selected| - 1] + [selected[|selected| - 1]] == selected;
    }
  }

  /** Every occurrence goes and every other tag keeps its count. */
  lemma {:induction false} WithoutCounts(selected: seq<string>, tag: string)
    ensures multiset(Without(selected, tag)) == multiset(selected)[tag := 0]
    decreases |selected|
  {
    if |selected| > 0 {
      var init := selected[..|selected| - 1];
      WithoutCounts(init, tag);
      assert init + [selected[|selected| - 1]] == selected;
    }
  }

  /** An absent tag toggled twice leaves the list as it was. */
  lemma ToggleTwiceAbsent(selected: seq<string>, tag: string)
    requires tag !in selected
    ensures Toggle(Toggle(selected, tag), tag) == selected
  {
    WithoutAppend(selected, [tag], tag);
    WithoutAbsent(selected, tag);
    assert Without([tag], tag) == [];
  }

  /** A present tag toggled twice ends up once, at the end. */
  lemma ToggleTwicePresent(selected: seq<string>, tag: string)
    requires tag in selected
    ensures Toggle(Toggle(selected, tag), tag) == Without(selected, tag) + [tag]
  {
  }

  /** Toggling an absent tag appends it; toggling a present one keeps every
      other tag, as often as before and in the same order. */
  lemma ToggleShape(selected: seq<string>, tag: string)
    ensures tag !in selected ==> Toggle(selected, tag) == selected + [tag]
    ensures tag in selected ==> multiset(Toggle(selected, tag)) == multiset(selected)[tag := 0]
    ensures tag in selected ==> forall a, b :: selected == a + b ==>
      Toggle(selected, tag) == Without(a, tag) + Without(b, tag)
  {
    WithoutCounts(selected, tag);
    forall a, b | selected == a + b
      ensures Without(selected, tag) == Without(a, tag) + Without(b, tag)
    {
      WithoutAppend(a, b, tag);
    }
  }
}
