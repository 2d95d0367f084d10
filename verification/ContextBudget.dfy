/** How an assembled context is cut to its token budget. */
module ContextBudget {
  datatype Section = Section(kind: string, pinned: bool, tokens: nat)

  datatype Overflow = NoOverflow | Microcompact | Drop

  function Total(ss: seq<Section>): nat {
    if ss == [] then 0 else Total(ss[..|ss| - 1]) + ss[|ss| - 1].tokens
  }

  /** The sections with the flag `pinned`, in order. */
  function WithPin(ss: seq<Section>, pinned: bool): seq<Section> {
    if ss == [] then []
    else WithPin(ss[..|ss| - 1], pinned) + if ss[|ss| - 1].pinned == pinned then [ss[|ss| - 1]] else []
  }

  /** The stable sort by the comparator of the source. */
  function PinnedFirst(ss: seq<Section>): seq<Section> {
    WithPin(ss, true) + WithPin(ss, false)
  }

  lemma {:induction false} WithPinHas(ss: seq<Section>, pinned: bool)
    ensures forall s :: s in WithPin(ss, pinned) <==> s in ss && s.pinned == pinned
  {
    if ss != [] {
      WithPinHas(ss[..|ss| - 1], pinned);
      assert ss == ss[..|ss| - 1] + [ss[|ss| - 1]];
    }
  }

  predicate IsSorted(ss: seq<Section>) {
    forall i, j :: 0 <= i < j < |ss| && ss[j].pinned ==> ss[i].pinned
  }

  lemma PinnedFirstIsSorted(ss: seq<Section>)
    ensures IsSorted(PinnedFirst(ss))
  {
    var p, q := WithPin(ss, true), WithPin(ss, false);
    WithPinHas(ss, true);
    WithPinHas(ss, false);
    var r := PinnedFirst(ss);
    forall j | 0 <= j < |r| ensures r[j].pinned == (j < |p|) {
      if j < |p| {
        assert p[j] in p;
      } else {
        assert q[j - |p|] in q;
      }
    }
  }

  /** The sections whose flag is `taken`, in order. */
  function Select(ss: seq<Section>, flags: seq<bool>, taken: bool): seq<Section>
    requires |flags| == |ss|
  {
    if ss == [] then []
    else
      var n := |ss| - 1;
      Select(ss[..n], flags[..n], taken) + if flags[n] == taken then [ss[n]] else []
  }

  /** A section is kept exactly if it is pinned or fits beside what is kept before it. */
  ghost predicate Choice(ss: seq<Section>, max: int, flags: seq<bool>) {
    && |flags| == |ss|
    && forall i :: 0 <= i < |ss| ==>
      (flags[i] <==> ss[i].pinned || Total(Select(ss[..i], flags[..i], true)) + ss[i].tokens <= max)
  }

  lemma ChoicePrefix(ss: seq<Section>, max: int, flags: seq<bool>, n: nat)
    requires Choice(ss, max, flags) && n <= |ss|
    ensures Choice(ss[..n], max, flags[..n])
  {
    assert forall i :: 0 <= i < n ==> ss[..n][..i] == ss[..i] && flags[..n][..i] == flags[..i];
  }

  /** There is only one such choice. */
  lemma {:induction false} ChoiceIsUnique(ss: seq<Section>, max: int, flags: seq<bool>, other: seq<bool>)
    requires Choice(ss, max, flags) && Choice(ss, max, other)
    ensures flags == other
  {
    if ss != [] {
      var n := |ss| - 1;
      ChoicePrefix(ss, max, flags, n);
      ChoicePrefix(ss, max, other, n);
      ChoiceIsUnique(ss[..n], max, flags[..n], other[..n]);
      assert flags == flags[..n] + [flags[n]] && other == other[..n] + [other[n]];
    }
  }

  lemma SelectPush(ss: seq<Section>, flags: seq<bool>, s: Section, flag: bool, taken: bool)
    requires |flags| == |ss|
    ensures Select(ss + [s], flags + [flag], taken) == Select(ss, flags, taken) + if flag == taken then [s] else []
  {
    assert (ss + [s])[..|ss|] == ss && (flags + [flag])[..|ss|] == flags;
  }

  lemma {:induction false} ChoicePush(ss: seq<Section>, max: int, flags: seq<bool>, s: Section)
    requires Choice(ss, max, flags)
    ensures var flag := s.pinned || Total(Select(ss, flags, true)) + s.tokens <= max;
      Choice(ss + [s], max, flags + [flag])
  {
    var flag := s.pinned || Total(Select(ss, flags, true)) + s.tokens <= max;
    var ss', flags' := ss + [s], flags + [flag];
    assert forall i :: 0 <= i <= |ss| ==> ss'[..i] == ss[..i] && flags'[..i] == flags[..i];
    assert ss[..|ss|] == ss && flags[..|ss|] == flags;
    hide Select, Total;
  }

  lemma TotalPush(ss: seq<Section>, s: Section)
    ensures Total(ss + [s]) == Total(ss) + s.tokens
  {
    assert (ss + [s])[..|ss|] == ss;
  }

  /** The budget loop. */
  method Budget(sections: seq<Section>, max: int)
    returns (kept: seq<Section>, dropped: seq<Section>, used: nat, overflow: Overflow, ghost flags: seq<bool>)
    ensures var sorted := PinnedFirst(sections);
      && Choice(sorted, max, flags)
      && kept == Select(sorted, flags, true) && dropped == Select(sorted, flags, false)
    ensures used == Total(kept)
    ensures overflow == OverflowOf(kept, dropped, used, max)
    ensures used == Tokens(kept)
    ensures overflow == Drop <==> dropped != []
    ensures overflow == Microcompact <==> dropped == [] && kept != [] && used > max
  {
    var sorted := PinnedFirst(sections);
    PinnedFirstIsSorted(sections);
    hide PinnedFirst, SplitAt, Choice, Select, Total;
    used, kept, dropped, overflow, flags := 0, [], [], NoOverflow, [];
    SplitStart(sorted, max);
    for i := 0 to |sorted|
      invariant SplitAt(sorted, max, i, kept, dropped, used, flags)
      invariant overflow == OverflowOf(kept, dropped, used, max)
      invariant dropped != [] ==> forall k :: i <= k < |sorted| ==> !sorted[k].pinned
    {
      var section := sorted[i];
      SplitNext(sorted, max, i, kept, dropped, used, flags);
      flags := flags + [used + section.tokens <= max || section.pinned];
      if used + section.tokens <= max {
        used := used + section.tokens;
        kept := kept + [section];
      } else if section.pinned {
        used := used + section.tokens;
        kept := kept + [section];
        overflow := Microcompact;
      } else {
        dropped := dropped + [section];
        overflow := Drop;
      }
    }
    SplitDone(sorted, max, kept, dropped, used, flags);
    TotalIsTokens(kept);
  }

  /** The loop has dealt with the first `i` sections. */
  ghost predicate SplitAt(ss: seq<Section>, max: int, i: nat, kept: seq<Section>,
        dropped: seq<Section>, used: nat, flags: seq<bool>) {
    && i <= |ss| && Choice(ss[..i], max, flags)
    && kept == Select(ss[..i], flags, true) && dropped == Select(ss[..i], flags, false)
    && used == Total(kept)
  }

  lemma SplitStart(ss: seq<Section>, max: int)
    ensures SplitAt(ss, max, 0, [], [], 0, [])
  {
  }

  lemma SplitNext(ss: seq<Section>, max: int, i: nat, kept: seq<Section>,
        dropped: seq<Section>, used: nat, flags: seq<bool>)
    requires i < |ss| && SplitAt(ss, max, i, kept, dropped, used, flags)
    ensures var s := ss[i];
      if used + s.tokens <= max || s.pinned
      then SplitAt(ss, max, i + 1, kept + [s], dropped, used + s.tokens, flags + [true])
      else SplitAt(ss, max, i + 1, kept, dropped + [s], used, flags + [false])
  {
    var s := ss[i];
    assert ss[..i + 1] == ss[..i] + [s];
    hide Choice, Select, Total;
    ChoicePush(ss[..i], max, flags, s);
    SelectPush(ss[..i], flags, s, used + s.tokens <= max || s.pinned, true);
    SelectPush(ss[..i], flags, s, used + s.tokens <= max || s.pinned, false);
    TotalPush(kept, s);
  }

  lemma {:induction false} SplitDone(ss: seq<Section>, max: int, kept: seq<Section>,
        dropped: seq<Section>, used: nat, flags: seq<bool>)
    requires SplitAt(ss, max, |ss|, kept, dropped, used, flags)
    ensures Choice(ss, max, flags) && kept == Select(ss, flags, true) && dropped == Select(ss, flags, false)
    ensures used == Total(kept)
  {
    assert ss[..|ss|] == ss;
  }

  function OverflowOf(kept: seq<Section>, dropped: seq<Section>, used: nat, max: int): Overflow {
    if dropped != [] then Drop else if kept != [] && used > max then Microcompact else NoOverflow
  }

  // ---------------------------------------------------------------- what the choice means

  lemma {:induction false} PinnedFirstIsAPermutation(ss: seq<Section>)
    ensures multiset(PinnedFirst(ss)) == multiset(ss)
  {
    if ss != [] {
      var n := |ss| - 1;
      PinnedFirstIsAPermutation(ss[..n]);
      assert ss == ss[..n] + [ss[n]];
    }
  }

  lemma {:induction false} SelectSplits(ss: seq<Section>, flags: seq<bool>)
    requires |flags| == |ss|
    ensures multiset(Select(ss, flags, true)) + multiset(Select(ss, flags, false)) == multiset(ss)
  {
    if ss != [] {
      SelectSplits(ss[..|ss| - 1], flags[..|ss| - 1]);
      assert ss == ss[..|ss| - 1] + [ss[|ss| - 1]];
    }
  }

  /** What one more section changes. */
  lemma {:induction false} SelectStep(ss: seq<Section>, max: int, flags: seq<bool>)
    requires Choice(ss, max, flags) && ss != []
    ensures var n := |ss| - 1;
      var s, flag, was := ss[n], flags[n], Select(ss[..n], flags[..n], true);
      && Choice(ss[..n], max, flags[..n])
      && Select(ss, flags, true) == was + (if flag then [s] else [])
      && Select(ss, flags, false) == Select(ss[..n], flags[..n], false) + (if flag then [] else [s])
      && Total(Select(ss, flags, true)) == Total(was) + (if flag then s.tokens else 0)
      && (flag <==> s.pinned || Total(was) + s.tokens <= max)
  {
    var n := |ss| - 1;
    ChoicePrefix(ss, max, flags, n);
    var was := Select(ss[..n], flags[..n], true);
    assert Select(ss, flags, true) == was + if flags[n] then [ss[n]] else [];
    assert was + [] == was;
    TotalPush(was, ss[n]);
    hide Total;
  }

  /** Nothing that is dropped is pinned, or would fit in the end either. */
  lemma {:induction false} DroppedOverflows(ss: seq<Section>, max: int, flags: seq<bool>)
    requires Choice(ss, max, flags)
    ensures forall d :: d in Select(ss, flags, false) ==> !d.pinned && Total(Select(ss, flags, true)) + d.tokens > max
  {
    if ss != [] {
      SelectStep(ss, max, flags);
      DroppedOverflows(ss[..|ss| - 1], max, flags[..|ss| - 1]);
      hide Select, Total, Choice;
    }
  }

  /** What is pinned is kept, and nothing else if that alone exceeds the budget. */
  lemma {:induction false} PinnedIsKept(ss: seq<Section>, max: int, flags: seq<bool>)
    requires Choice(ss, max, flags) && IsSorted(ss)
    ensures var kept, pinned := Select(ss, flags, true), WithPin(ss, true);
      pinned <= kept && (Total(kept) <= max || kept == pinned)
  {
    if ss != [] {
      var n := |ss| - 1;
      SelectStep(ss, max, flags);
      PinnedIsKept(ss[..n], max, flags[..n]);
      if ss[n].pinned {
        AllPinned(ss[..n], max, flags[..n]);
      }
      assert WithPin(ss, true) == WithPin(ss[..n], true) + if ss[n].pinned then [ss[n]] else [];
      hide Select, Total, Choice, WithPin;
    }
  }

  /** The budget loop's outcome: the pinned sections, in order, then others, in order; the
      rest is dropped, for want of room. */
  lemma BudgetMeans(sections: seq<Section>, max: int, flags: seq<bool>)
    requires Choice(PinnedFirst(sections), max, flags)
    ensures var sorted := PinnedFirst(sections);
      var kept, dropped := Select(sorted, flags, true), Select(sorted, flags, false);
      && multiset(kept) + multiset(dropped) == multiset(sections)
      && WithPin(sorted, true) <= kept
      && (Total(kept) <= max || kept == WithPin(sorted, true))
      && forall d :: d in dropped ==> !d.pinned && Total(kept) + d.tokens > max
  {
    var sorted := PinnedFirst(sections);
    PinnedFirstIsSorted(sections);
    PinnedFirstIsAPermutation(sections);
    SelectSplits(sorted, flags);
    DroppedOverflows(sorted, max, flags);
    PinnedIsKept(sorted, max, flags);
    hide PinnedFirst, Select, Choice, WithPin, Total;
  }

  /** The sections with the flag `pinned`, read from the front. */
  function Picked(ss: seq<Section>, pinned: bool): seq<Section> {
    if ss == [] then []
    else if ss[0].pinned == pinned then [ss[0]] + Picked(ss[1..], pinned)
    else Picked(ss[1..], pinned)
  }

  lemma {:induction false} PickedConcat(ss: seq<Section>, ts: seq<Section>, pinned: bool)
    ensures Picked(ss + ts, pinned) == Picked(ss, pinned) + Picked(ts, pinned)
  {
    if ss == [] {
      assert ss + ts == ts;
    } else {
      assert (ss + ts)[1..] == ss[1..] + ts;
      PickedConcat(ss[1..], ts, pinned);
    }
  }

  lemma {:induction false} WithPinPicked(ss: seq<Section>, pinned: bool, other: bool)
    ensures Picked(WithPin(ss, pinned), other) == if pinned == other then Picked(ss, other) else []
  {
    if ss != [] {
      var n := |ss| - 1;
      WithPinPicked(ss[..n], pinned, other);
      assert ss == ss[..n] + [ss[n]];
      PickedConcat(ss[..n], [ss[n]], other);
      assert Picked([ss[n]], other) == if ss[n].pinned == other then [ss[n]] else [];
      var last := if ss[n].pinned == pinned then [ss[n]] else [];
      assert Picked(last, other) == if pinned == other then Picked([ss[n]], other) else [];
      PickedConcat(WithPin(ss[..n], pinned), last, other);
    }
  }

  /** The sort is stable: pinned sections come first, and neither they nor the others change
      places among themselves. */
  lemma PinnedFirstIsStable(ss: seq<Section>, pinned: bool)
    ensures Picked(PinnedFirst(ss), pinned) == Picked(ss, pinned) && IsSorted(PinnedFirst(ss))
  {
    PinnedFirstIsSorted(ss);
    WithPinPicked(ss, true, pinned);
    WithPinPicked(ss, false, pinned);
    PickedConcat(WithPin(ss, true), WithPin(ss, false), pinned);
  }

  /** Tokens, counted from the front. */
  function Tokens(ss: seq<Section>): nat {
    if ss == [] then 0 else ss[0].tokens + Tokens(ss[1..])
  }

  lemma {:induction false} TotalIsTokens(ss: seq<Section>)
    ensures Total(ss) == Tokens(ss)
  {
    if ss != [] {
      var n := |ss| - 1;
      TotalIsTokens(ss[..n]);
      assert ss == ss[..n] + [ss[n]];
      TokensSnoc(ss[..n], ss[n]);
    }
  }

  lemma {:induction false} TokensSnoc(ss: seq<Section>, s: Section)
    ensures Tokens(ss + [s]) == Tokens(ss) + s.tokens
  {
    if ss == [] {
      assert [s][1..] == [];
    } else {
      assert (ss + [s])[1..] == ss[1..] + [s];
      TokensSnoc(ss[1..], s);
    }
  }

  lemma {:induction false} AllPinned(ss: seq<Section>, max: int, flags: seq<bool>)
    requires Choice(ss, max, flags) && forall i :: 0 <= i < |ss| ==> ss[i].pinned
    ensures Select(ss, flags, true) == WithPin(ss, true) == ss && Select(ss, flags, false) == []
  {
    if ss != [] {
      ChoicePrefix(ss, max, flags, |ss| - 1);
      AllPinned(ss[..|ss| - 1], max, flags[..|ss| - 1]);
    }
  }
}
