/**
 * The visibility reducer: the intersection-observer callback folded over a
 * batch of entries. Each entry adds or removes the index of its target in the
 * sorted visible set and may update the first/last flags; the batch reports
 * whether any entry changed something.
 */
module Visibility {
  import opened Wrappers
  import opened Types

  /** An intersection entry: its target element and whether it crosses the threshold. */
  datatype Entry = Entry(target: ElementId, isIntersecting: bool)

  /** A new state and whether some step of computing it changed a field. */
  datatype Outcome = Outcome(state: RailState, changed: bool)

  /** `Array.from(items).indexOf(target)`: the first position of the target, or -1. */
  function IndexOf(items: seq<ElementId>, x: ElementId): (i: int)
    ensures -1 <= i < |items|
    ensures 0 <= i ==> items[i] == x && forall j :: 0 <= j < i ==> items[j] != x
    ensures i == -1 ==> forall j :: 0 <= j < |items| ==> items[j] != x
  {
    if |items| == 0 then -1
    else if items[0] == x then 0
    else
      var r := IndexOf(items[1..], x);
      if r == -1 then -1 else r + 1
  }

  predicate Distinct(items: seq<ElementId>) {
    forall i, j :: 0 <= i < j < |items| ==> items[i] != items[j]
  }

  predicate Sorted(s: seq<int>) {
    forall i, j :: 0 <= i < j < |s| ==> s[i] <= s[j]
  }

  predicate StrictlySorted(s: seq<int>) {
    forall i, j :: 0 <= i < j < |s| ==> s[i] < s[j]
  }

  function Insert(x: int, s: seq<int>): seq<int> {
    if s == [] then [x]
    else if x <= s[0] then [x] + s
    else [s[0]] + Insert(x, s[1..])
  }

  /** Insertion sort; for integers it is the numeric `sort((a, b) => a - b)`. */
  function Sort(s: seq<int>): seq<int> {
    if s == [] then [] else Insert(s[|s| - 1], Sort(s[..|s| - 1]))
  }

  /** `s.filter((i) => i !== x)` */
  function Without(s: seq<int>, x: int): (r: seq<int>)
    ensures forall y :: y in r <==> y in s && y != x
    ensures x !in s ==> r == s
    ensures x in s ==> |r| < |s|
  {
    if s == [] then []
    else
      var rest := Without(s[1..], x);
      assert forall y :: y in s[1..] ==> y in s;
      if s[0] == x then rest else [s[0]] + rest
  }

  lemma {:induction false} WithoutStrict(s: seq<int>, x: int)
    requires StrictlySorted(s)
    ensures StrictlySorted(Without(s, x))
  {
    if s != [] {
      var rest := Without(s[1..], x);
      WithoutStrict(s[1..], x);
      if s[0] != x {
        forall k | 0 <= k < |rest| ensures s[0] < rest[k] {
          assert rest[k] in rest;
          assert rest[k] in s[1..];
        }
      }
    }
  }

  lemma {:induction false} InsertFacts(x: int, s: seq<int>)
    ensures multiset(Insert(x, s)) == multiset(s) + multiset{x}
    ensures Sorted(s) ==> Sorted(Insert(x, s))
    ensures StrictlySorted(s) && x !in s ==> StrictlySorted(Insert(x, s))
  {
    InsertPermutes(x, s);
    if Sorted(s) { InsertSorted(x, s); }
    if StrictlySorted(s) && x !in s { InsertStrict(x, s); }
  }

  lemma {:induction false} InsertPermutes(x: int, s: seq<int>)
    ensures multiset(Insert(x, s)) == multiset(s) + multiset{x}
  {
    if s != [] && x > s[0] {
      InsertPermutes(x, s[1..]);
      assert s == [s[0]] + s[1..];
    }
  }

  /** Every element of `Insert(x, s)` is `x` or an element of `s`. */
  lemma InsertMembers(x: int, s: seq<int>)
    ensures forall k :: 0 <= k < |Insert(x, s)| ==> Insert(x, s)[k] == x || Insert(x, s)[k] in s
  {
    InsertPermutes(x, s);
    forall k | 0 <= k < |Insert(x, s)| ensures Insert(x, s)[k] == x || Insert(x, s)[k] in s {
      assert Insert(x, s)[k] in multiset(Insert(x, s));
    }
  }

  lemma {:induction false} InsertSorted(x: int, s: seq<int>)
    requires Sorted(s)
    ensures Sorted(Insert(x, s))
  {
    if s != [] && x > s[0] {
      InsertSorted(x, s[1..]);
      InsertMembers(x, s[1..]);
    }
  }

  lemma {:induction false} InsertStrict(x: int, s: seq<int>)
    requires StrictlySorted(s) && x !in s
    ensures StrictlySorted(Insert(x, s))
  {
    if s != [] && x > s[0] {
      assert x !in s[1..];
      InsertStrict(x, s[1..]);
      InsertMembers(x, s[1..]);
    }
  }

  /** The sort yields a sorted permutation of its input. */
  lemma {:induction false} SortIsSortedPermutation(s: seq<int>)
    ensures Sorted(Sort(s)) && multiset(Sort(s)) == multiset(s)
  {
    if s != [] {
      var init := s[..|s| - 1];
      SortIsSortedPermutation(init);
      InsertFacts(s[|s| - 1], Sort(init));
      assert s == init + [s[|s| - 1]];
    }
  }

  /** Membership in the result of pushing `x` and sorting. */
  lemma PushSortMembers(s: seq<int>, x: int)
    ensures forall y :: y in Sort(s + [x]) <==> y in s || y == x
  {
    SortIsSortedPermutation(s + [x]);
    forall y ensures y in Sort(s + [x]) <==> y in s || y == x {
      assert y in Sort(s + [x]) <==> y in multiset(Sort(s + [x]));
      assert y in s + [x] <==> y in multiset(s + [x]);
    }
  }

  /** Pushing a new element onto a strictly sorted list and sorting keeps it strictly sorted. */
  lemma {:induction false} PushSortStrict(s: seq<int>, x: int)
    requires StrictlySorted(s) && x !in s
    ensures StrictlySorted(Sort(s + [x]))
  {
    assert (s + [x])[..|s|] == s;
    SortOfSorted(s);
    InsertFacts(x, s);
  }

  /** Sorting an already sorted list leaves it as it is. */
  lemma {:induction false} SortOfSorted(s: seq<int>)
    requires Sorted(s)
    ensures Sort(s) == s
  {
    if s != [] {
      var init := s[..|s| - 1];
      SortOfSorted(init);
      InsertAtEnd(s[|s| - 1], init);
      assert s == init + [s[|s| - 1]];
    }
  }

  lemma {:induction false} InsertAtEnd(x: int, s: seq<int>)
    requires forall k :: 0 <= k < |s| ==> s[k] <= x
    requires Sorted(s)
    ensures Insert(x, s) == s + [x]
  {
    if s != [] {
      if x <= s[0] {
        assert forall k :: 0 <= k < |s| ==> s[0] <= s[k];
        assert forall k :: 0 <= k < |s| ==> s[k] == x;
        InsertAllEqual(x, s);
      } else {
        InsertAtEnd(x, s[1..]);
        assert s == [s[0]] + s[1..];
      }
    }
  }

  lemma InsertAllEqual(x: int, s: seq<int>)
    requires s != [] && forall k :: 0 <= k < |s| ==> s[k] == x
    ensures [x] + s == s + [x]
  {
    assert forall k :: 0 <= k <= |s| ==> ([x] + s)[k] == x && (s + [x])[k] == x;
  }

  /** The visible set is strictly ascending and holds only indexes of the `n` observed items. */
  predicate WellFormed(st: RailState, n: int) {
    StrictlySorted(st.visibleItemIndexes)
    && forall k :: 0 <= k < |st.visibleItemIndexes| ==> 0 <= st.visibleItemIndexes[k] < n
  }

  /** The edge flags agree with the visible set (the last flag only when there are two items or more). */
  predicate FlagsAgree(st: RailState, n: int) {
    (st.isFirstItemVisible <==> 0 in st.visibleItemIndexes)
    && (n > 1 ==> (st.isLastItemVisible <==> n - 1 in st.visibleItemIndexes))
    && (n <= 1 ==> !st.isLastItemVisible)
  }

  /** One iteration of the callback's `forEach`. */
  function Step(st: RailState, items: seq<ElementId>, e: Entry): Outcome
    requires |items| > 0
  {
    var index := IndexOf(items, e.target);
    if index == -1 then Outcome(st, false)
    else
      var vis := st.visibleItemIndexes;
      var (vis', setChanged) :=
        if e.isIntersecting then
          (if index in vis then (vis, false) else (Sort(vis + [index]), true))
        else
          var f := Without(vis, index);
          (f, |f| != |vis|);
      var s1 := st.(visibleItemIndexes := vis');
      if e.target == items[0] then
        if s1.isFirstItemVisible != e.isIntersecting
        then Outcome(s1.(isFirstItemVisible := e.isIntersecting), true)
        else Outcome(s1, setChanged)
      else if e.target == items[|items| - 1] then
        if s1.isLastItemVisible != e.isIntersecting
        then Outcome(s1.(isLastItemVisible := e.isIntersecting), true)
        else Outcome(s1, setChanged)
      else Outcome(s1, setChanged)
  }

  /** The whole batch, entry by entry; `changed` is the callback's `stateChanged`. */
  function Reduce(st: RailState, items: seq<ElementId>, entries: seq<Entry>): Outcome
    requires |items| > 0
  {
    if entries == [] then Outcome(st, false)
    else
      var prev := Reduce(st, items, entries[..|entries| - 1]);
      var r := Step(prev.state, items, entries[|entries| - 1]);
      Outcome(r.state, prev.changed || r.changed)
  }

  /** What the batch last said about index `j`: the `isIntersecting` of the last entry whose target has index `j`. */
  function LastSaid(items: seq<ElementId>, entries: seq<Entry>, j: int): Option<bool> {
    if entries == [] then None
    else
      var e := entries[|entries| - 1];
      if IndexOf(items, e.target) == j then Some(e.isIntersecting)
      else LastSaid(items, entries[..|entries| - 1], j)
  }

  /** A step never touches the total and keeps the visible set well formed. */
  lemma StepPreservesWellFormed(st: RailState, items: seq<ElementId>, e: Entry)
    requires |items| > 0 && WellFormed(st, |items|)
    ensures Step(st, items, e).state.totalItems == st.totalItems
    ensures WellFormed(Step(st, items, e).state, |items|)
  {
    var index := IndexOf(items, e.target);
    var vis := st.visibleItemIndexes;
    if index != -1 && e.isIntersecting && index !in vis {
      PushSortStrict(vis, index);
      PushSortMembers(vis, index);
      var r := Sort(vis + [index]);
      forall k | 0 <= k < |r| ensures 0 <= r[k] < |items| {
        assert r[k] in r;
      }
    } else if index != -1 && !e.isIntersecting {
      var f := Without(vis, index);
      WithoutStrict(vis, index);
      forall k | 0 <= k < |f| ensures 0 <= f[k] < |items| {
        assert f[k] in f;
      }
    }
  }

  /** After any batch the visible set is sorted ascending, duplicate-free and holds only indexes of items. */
  lemma {:induction false} ReducePreservesWellFormed(st: RailState, items: seq<ElementId>, entries: seq<Entry>)
    requires |items| > 0 && WellFormed(st, |items|)
    ensures Reduce(st, items, entries).state.totalItems == st.totalItems
    ensures WellFormed(Reduce(st, items, entries).state, |items|)
  {
    if entries != [] {
      ReducePreservesWellFormed(st, items, entries[..|entries| - 1]);
      StepPreservesWellFormed(Reduce(st, items, entries[..|entries| - 1]).state, items, entries[|entries| - 1]);
    }
  }

  /** A step reports a change exactly when it produces a different state. */
  lemma StepChangedIff(st: RailState, items: seq<ElementId>, e: Entry)
    requires |items| > 0
    ensures Step(st, items, e).changed <==> Step(st, items, e).state != st
  {
    var index := IndexOf(items, e.target);
    var vis := st.visibleItemIndexes;
    if index != -1 && e.isIntersecting && index !in vis {
      PushSortMembers(vis, index);
      assert index in Sort(vis + [index]);
    }
  }

  /** A batch that reports no change leaves the state as it was: no notification is ever lost. */
  lemma {:induction false} UnchangedBatchIsIdentity(st: RailState, items: seq<ElementId>, entries: seq<Entry>)
    requires |items| > 0
    ensures !Reduce(st, items, entries).changed ==> Reduce(st, items, entries).state == st
  {
    if entries != [] {
      var prev := Reduce(st, items, entries[..|entries| - 1]);
      UnchangedBatchIsIdentity(st, items, entries[..|entries| - 1]);
      StepChangedIff(prev.state, items, entries[|entries| - 1]);
    }
  }

  /** An entry whose target is not an item changes nothing. */
  lemma ForeignEntrySkipped(st: RailState, items: seq<ElementId>, e: Entry)
    requires |items| > 0 && e.target !in items
    ensures Step(st, items, e) == Outcome(st, false)
  {
  }

  /** Set semantics: an index is visible after the batch iff the last entry about it was intersecting, or, if none was, iff it was visible before. */
  lemma {:induction false} ReduceMembership(st: RailState, items: seq<ElementId>, entries: seq<Entry>, j: int)
    requires |items| > 0 && j >= 0
    ensures j in Reduce(st, items, entries).state.visibleItemIndexes <==>
      match LastSaid(items, entries, j)
      case Some(b) => b
      case None => j in st.visibleItemIndexes
  {
    if entries != [] {
      var init := entries[..|entries| - 1];
      var e := entries[|entries| - 1];
      ReduceMembership(st, items, init, j);
      var prev := Reduce(st, items, init).state;
      var index := IndexOf(items, e.target);
      if index != -1 && e.isIntersecting && index !in prev.visibleItemIndexes {
        PushSortMembers(prev.visibleItemIndexes, index);
      }
    }
  }

  /** The first flag follows the last entry about the first item. */
  lemma {:induction false} ReduceFirstFlag(st: RailState, items: seq<ElementId>, entries: seq<Entry>)
    requires |items| > 0
    ensures Reduce(st, items, entries).state.isFirstItemVisible ==
      match LastSaid(items, entries, 0)
      case Some(b) => b
      case None => st.isFirstItemVisible
  {
    if entries != [] {
      ReduceFirstFlag(st, items, entries[..|entries| - 1]);
      var e := entries[|entries| - 1];
      assert e.target == items[0] <==> IndexOf(items, e.target) == 0;
    }
  }

  /** With distinct items, two or more of them, the last flag follows the last entry about the last item. */
  lemma {:induction false} ReduceLastFlag(st: RailState, items: seq<ElementId>, entries: seq<Entry>)
    requires |items| > 1 && Distinct(items)
    ensures Reduce(st, items, entries).state.isLastItemVisible ==
      match LastSaid(items, entries, |items| - 1)
      case Some(b) => b
      case None => st.isLastItemVisible
  {
    if entries != [] {
      ReduceLastFlag(st, items, entries[..|entries| - 1]);
      var e := entries[|entries| - 1];
      var index := IndexOf(items, e.target);
      assert e.target == items[|items| - 1] <==> index == |items| - 1;
      assert e.target == items[0] <==> index == 0;
    }
  }

  /** With a single item the `else if` never reaches the last flag: it keeps its value whatever the batch. */
  lemma {:induction false} SingleItemKeepsLastFlag(st: RailState, items: seq<ElementId>, entries: seq<Entry>)
    requires |items| == 1
    ensures Reduce(st, items, entries).state.isLastItemVisible == st.isLastItemVisible
  {
    if entries != [] {
      SingleItemKeepsLastFlag(st, items, entries[..|entries| - 1]);
    }
  }

  /** A batch keeps the edge flags in agreement with the visible set. */
  lemma ReduceKeepsFlagsAgreeing(st: RailState, items: seq<ElementId>, entries: seq<Entry>)
    requires |items| > 0 && Distinct(items) && FlagsAgree(st, |items|)
    ensures FlagsAgree(Reduce(st, items, entries).state, |items|)
  {
    ReduceMembership(st, items, entries, 0);
    ReduceFirstFlag(st, items, entries);
    if |items| > 1 {
      ReduceMembership(st, items, entries, |items| - 1);
      ReduceLastFlag(st, items, entries);
    } else {
      SingleItemKeepsLastFlag(st, items, entries);
    }
  }
}
