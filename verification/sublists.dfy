/** Order-preserving filtering: the behaviour of a Python list comprehension
    `[x for x in s if keep(x)]` or of JavaScript's `Array.prototype.filter`. */
module Sublists {

  /** The items of `s` that satisfy `keep`, in their original order. */
  function Filter<T>(s: seq<T>, keep: T -> bool): (r: seq<T>)
    ensures |r| <= |s|
    ensures forall x :: x in r ==> keep(x) && x in s
    ensures forall i :: 0 <= i < |s| && keep(s[i]) ==> s[i] in r
  {
    if s == [] then []
    else
      var init := s[..|s| - 1];
      assert forall i :: 0 <= i < |init| ==> init[i] == s[i];
      var r := Filter(init, keep);
      if keep(s[|s| - 1]) then r + [s[|s| - 1]] else r
  }

  /** The positions of the kept items. */
  function KeptIndices<T>(s: seq<T>, keep: T -> bool): (idx: seq<nat>)
    ensures forall k :: 0 <= k < |idx| ==> idx[k] < |s|
  {
    if s == [] then []
    else
      var init := KeptIndices(s[..|s| - 1], keep);
      if keep(s[|s| - 1]) then init + [|s| - 1] else init
  }

  /** The k-th item of the filtered sequence is the item at the k-th kept
      position. */
  lemma {:induction false} FilterAtKeptIndices<T>(s: seq<T>, keep: T -> bool)
    ensures |Filter(s, keep)| == |KeptIndices(s, keep)|
    ensures forall k :: 0 <= k < |Filter(s, keep)| ==> Filter(s, keep)[k] == s[KeptIndices(s, keep)[k]]
  {
    if s != [] {
      var init := s[..|s| - 1];
      FilterAtKeptIndices(init, keep);
      var r, idx := Filter(init, keep), KeptIndices(init, keep);
      forall k | 0 <= k < |r| ensures Filter(s, keep)[k] == s[KeptIndices(s, keep)[k]] {
        assert init[idx[k]] == s[idx[k]];
      }
    }
  }

  /** The kept positions strictly increase: the filter keeps the order. */
  lemma {:induction false} KeptIndicesIncrease<T>(s: seq<T>, keep: T -> bool)
    ensures forall a, b :: 0 <= a < b < |KeptIndices(s, keep)| ==> KeptIndices(s, keep)[a] < KeptIndices(s, keep)[b]
  {
    if s != [] {
      KeptIndicesIncrease(s[..|s| - 1], keep);
    }
  }

  /** A position is kept exactly when its item satisfies `keep`. */
  lemma {:induction false} KeptIndicesExact<T>(s: seq<T>, keep: T -> bool)
    ensures forall i :: 0 <= i < |s| ==> (i in KeptIndices(s, keep) <==> keep(s[i]))
  {
    if s != [] {
      var init := s[..|s| - 1];
      KeptIndicesExact(init, keep);
      assert forall i :: 0 <= i < |init| ==> init[i] == s[i];
      var idx := KeptIndices(init, keep);
      assert |s| - 1 !in idx;
    }
  }

  /** Filtering keeps everything when every item qualifies. */
  lemma {:induction false} FilterAll<T>(s: seq<T>, keep: T -> bool)
    requires forall i :: 0 <= i < |s| ==> keep(s[i])
    ensures Filter(s, keep) == s
  {
    if s != [] {
      var init := s[..|s| - 1];
      FilterAll(init, keep);
      assert init + [s[|s| - 1]] == s;
    }
  }

  /** Filtering the front item first gives the same result. */
  lemma {:induction false} FilterCons<T>(x: T, s: seq<T>, keep: T -> bool)
    ensures Filter([x] + s, keep) == (if keep(x) then [x] else []) + Filter(s, keep)
    decreases |s|
  {
    if s != [] {
      var init := s[..|s| - 1];
      FilterCons(x, init, keep);
      assert ([x] + s)[..|[x] + s| - 1] == [x] + init;
    } else {
      assert ([x] + s)[..0] == [];
    }
  }

  /** Filtering one more item appends it when it qualifies. */
  lemma FilterSnoc<T>(s: seq<T>, x: T, keep: T -> bool)
    ensures Filter(s + [x], keep) == Filter(s, keep) + (if keep(x) then [x] else [])
  {
    assert (s + [x])[..|s|] == s;
  }

  /** Index of the first item that satisfies `keep`, or `|s|` when none does. */
  function FirstKeptIndex<T>(s: seq<T>, keep: T -> bool): (i: nat)
    ensures i <= |s|
    ensures i < |s| ==> keep(s[i])
    ensures forall j :: 0 <= j < i ==> !keep(s[j])
  {
    if s == [] then 0
    else if keep(s[0]) then 0
    else 1 + FirstKeptIndex(s[1..], keep)
  }

  /** The filtered sequence is empty exactly when nothing qualifies, and
      otherwise starts with the first item that qualifies. */
  lemma {:induction false} FilterHead<T>(s: seq<T>, keep: T -> bool)
    ensures Filter(s, keep) == [] <==> FirstKeptIndex(s, keep) == |s|
    ensures Filter(s, keep) != [] ==> Filter(s, keep)[0] == s[FirstKeptIndex(s, keep)]
  {
    if s != [] {
      FilterCons(s[0], s[1..], keep);
      assert [s[0]] + s[1..] == s;
      FilterHead(s[1..], keep);
    }
  }
}
