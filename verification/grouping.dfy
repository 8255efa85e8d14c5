/** Grouping a sequence by a key while keeping the order of first appearance:
    the behaviour of a Python insertion-ordered `dict` (or `defaultdict(list)`)
    filled by one pass over the items, appending each item to its key's list.
    Both `get_trajectories_in_area` and `create_movement_map` group this way. */
module Grouping {

  /** The distinct keys of `s`, in order of first appearance. */
  function KeysInOrder<T, K(==)>(s: seq<T>, key: T -> K): (ks: seq<K>)
    ensures forall i :: 0 <= i < |s| ==> key(s[i]) in ks
    ensures forall j :: 0 <= j < |ks| ==> exists i :: 0 <= i < |s| && key(s[i]) == ks[j]
  {
    if s == [] then []
    else
      var ks := KeysInOrder(s[..|s| - 1], key);
      var k := key(s[|s| - 1]);
      assert forall i :: 0 <= i < |s| - 1 ==> s[..|s| - 1][i] == s[i];
      if k in ks then ks else ks + [k]
  }

  /** The items of `s` whose key is `k`, in their original order. */
  function Members<T, K(==)>(s: seq<T>, key: T -> K, k: K): (m: seq<T>)
    ensures |m| <= |s|
  {
    if s == [] then []
    else Members(s[..|s| - 1], key, k) + (if key(s[|s| - 1]) == k then [s[|s| - 1]] else [])
  }

  /** Index of the first item of `s` with key `k`. */
  function FirstIndexOf<T, K(==)>(s: seq<T>, key: T -> K, k: K): (i: nat)
    requires exists j :: 0 <= j < |s| && key(s[j]) == k
    ensures i < |s| && key(s[i]) == k
    ensures forall j :: 0 <= j < i ==> key(s[j]) != k
  {
    if key(s[0]) == k then 0
    else
      assert exists j :: 0 <= j < |s[1..]| && key(s[1..][j]) == k by {
        var j :| 0 <= j < |s| && key(s[j]) == k;
        assert key(s[1..][j - 1]) == k;
      }
      1 + FirstIndexOf(s[1..], key, k)
  }

  /** One more item: its key is appended when new. */
  lemma KeysSnoc<T, K>(s: seq<T>, key: T -> K, x: T)
    ensures KeysInOrder(s + [x], key) ==
      if key(x) in KeysInOrder(s, key) then KeysInOrder(s, key) else KeysInOrder(s, key) + [key(x)]
  {
    assert (s + [x])[..|s|] == s;
  }

  /** One more item: it joins the members of its own key only. */
  lemma MembersSnoc<T, K>(s: seq<T>, key: T -> K, x: T, k: K)
    ensures Members(s + [x], key, k) == Members(s, key, k) + (if key(x) == k then [x] else [])
  {
    assert (s + [x])[..|s|] == s;
  }

  /** The first key is the key of the first item. */
  lemma {:induction false} KeysHead<T, K>(s: seq<T>, key: T -> K)
    requires s != []
    ensures KeysInOrder(s, key) != [] && KeysInOrder(s, key)[0] == key(s[0])
    ensures FirstIndexOf(s, key, key(s[0])) == 0
  {
    if |s| > 1 {
      var init := s[..|s| - 1];
      KeysHead(init, key);
      assert init[0] == s[0];
    }
  }

  /** Taking one more item of `s`. */
  lemma TakeOneMore<T>(s: seq<T>, i: nat)
    requires i < |s|
    ensures s[..i + 1] == s[..i] + [s[i]]
  {
  }

  lemma PrefixOf<T>(s: seq<T>, x: T)
    ensures (s + [x])[..|s|] == s
  {
  }

  /** The keys are pairwise distinct. */
  lemma {:induction false} KeysDistinct<T, K>(s: seq<T>, key: T -> K)
    ensures forall a, b :: 0 <= a < b < |KeysInOrder(s, key)| ==> KeysInOrder(s, key)[a] != KeysInOrder(s, key)[b]
  {
    if s != [] {
      KeysDistinct(s[..|s| - 1], key);
    }
  }

  /** Keys come out in order of first appearance: an earlier key was first seen
      earlier in `s`. */
  lemma {:induction false} KeysOrdered<T, K>(s: seq<T>, key: T -> K, a: nat, b: nat)
    requires a < b < |KeysInOrder(s, key)|
    ensures KeysInOrder(s, key)[a] in KeysInOrder(s, key) && KeysInOrder(s, key)[b] in KeysInOrder(s, key)
    ensures FirstIndexOf(s, key, KeysInOrder(s, key)[a]) < FirstIndexOf(s, key, KeysInOrder(s, key)[b])
  {
    var ks := KeysInOrder(s, key);
    var init := s[..|s| - 1];
    var ks0 := KeysInOrder(init, key);
    var ka, kb := ks[a], ks[b];
    assert ka in ks && kb in ks;
    assert forall i :: 0 <= i < |init| ==> init[i] == s[i];
    FirstIndexInPrefix(s, key, ka);
    FirstIndexInPrefix(s, key, kb);
    if b < |ks0| {
      KeysOrdered(init, key, a, b);
    } else {
      // kb is the newly added key: it does not occur before the last item.
      assert kb == key(s[|s| - 1]) && kb !in ks0;
      assert ka in ks0;
    }
  }

  /** The first occurrence of a key that already occurs in the prefix is the
      one in the prefix; otherwise it is the last item. */
  lemma FirstIndexInPrefix<T, K>(s: seq<T>, key: T -> K, k: K)
    requires s != [] && k in KeysInOrder(s, key)
    ensures k in KeysInOrder(s[..|s| - 1], key) ==>
      FirstIndexOf(s, key, k) == FirstIndexOf(s[..|s| - 1], key, k)
    ensures k !in KeysInOrder(s[..|s| - 1], key) ==> FirstIndexOf(s, key, k) == |s| - 1
  {
    var init := s[..|s| - 1];
    assert forall i :: 0 <= i < |init| ==> init[i] == s[i];
    var i := FirstIndexOf(s, key, k);
    if k in KeysInOrder(init, key) {
      var j := FirstIndexOf(init, key, k);
      assert key(s[j]) == k;
    } else {
      assert forall j :: 0 <= j < |init| ==> key(init[j]) != k;
    }
  }

  /** Every member has the key, every item with the key is a member, and the
      members keep their relative order (they form a subsequence of `s`). */
  lemma {:induction false} MembersExact<T, K>(s: seq<T>, key: T -> K, k: K)
    ensures forall x :: x in Members(s, key, k) ==> key(x) == k && x in s
    ensures forall i :: 0 <= i < |s| && key(s[i]) == k ==> s[i] in Members(s, key, k)
  {
    if s != [] {
      var init := s[..|s| - 1];
      MembersExact(init, key, k);
      assert forall i :: 0 <= i < |init| ==> init[i] == s[i];
    }
  }

  /** A key absent from `s` has no members. */
  lemma {:induction false} MembersOfAbsent<T, K>(s: seq<T>, key: T -> K, k: K)
    requires k !in KeysInOrder(s, key)
    ensures Members(s, key, k) == []
  {
    if s != [] {
      var init := s[..|s| - 1];
      assert forall i :: 0 <= i < |init| ==> init[i] == s[i];
      MembersOfAbsent(init, key, k);
    }
  }

  /** The first member of a key's group is the item where the key first
      appears. */
  lemma {:induction false} FirstMember<T, K>(s: seq<T>, key: T -> K, k: K)
    requires k in KeysInOrder(s, key)
    ensures Members(s, key, k) != [] && Members(s, key, k)[0] == s[FirstIndexOf(s, key, k)]
  {
    var init := s[..|s| - 1];
    FirstIndexInPrefix(s, key, k);
    if k in KeysInOrder(init, key) {
      FirstMember(init, key, k);
      assert forall i :: 0 <= i < |init| ==> init[i] == s[i];
    } else {
      MembersOfAbsent(init, key, k);
    }
  }

  /** The total size of the groups of `ks`. */
  ghost function TotalSize<T, K>(s: seq<T>, key: T -> K, ks: seq<K>): nat
  {
    if ks == [] then 0 else |Members(s, key, ks[0])| + TotalSize(s, key, ks[1..])
  }

  lemma {:induction false} TotalSizeSnoc<T, K>(s: seq<T>, key: T -> K, ks: seq<K>, x: T)
    requires forall a, b :: 0 <= a < b < |ks| ==> ks[a] != ks[b]
    ensures TotalSize(s + [x], key, ks) == TotalSize(s, key, ks) + (if key(x) in ks then 1 else 0)
  {
    PrefixOf(s, x);
    if ks != [] {
      TotalSizeSnoc(s, key, ks[1..], x);
      assert key(x) in ks <==> key(x) == ks[0] || key(x) in ks[1..];
      if key(x) == ks[0] {
        assert key(x) !in ks[1..];
      }
    }
  }

  lemma {:induction false} TotalSizeAppend<T, K>(s: seq<T>, key: T -> K, ks: seq<K>, k: K)
    ensures TotalSize(s, key, ks + [k]) == TotalSize(s, key, ks) + |Members(s, key, k)|
  {
    if ks != [] {
      assert (ks + [k])[1..] == ks[1..] + [k];
      TotalSizeAppend(s, key, ks[1..], k);
    }
  }

  /** Grouping neither loses nor duplicates items: the groups together hold
      exactly as many items as the input. */
  lemma {:induction false} GroupsPartition<T, K>(s: seq<T>, key: T -> K)
    ensures TotalSize(s, key, KeysInOrder(s, key)) == |s|
  {
    if s != [] {
      var init := s[..|s| - 1];
      var x := s[|s| - 1];
      var ks0 := KeysInOrder(init, key);
      assert s == init + [x];
      GroupsPartition(init, key);
      KeysDistinct(init, key);
      KeysSnoc(init, key, x);
      TotalSizeSnoc(init, key, ks0, x);
      if key(x) !in ks0 {
        TotalSizeAppend(init + [x], key, ks0, key(x));
        MembersOfAbsent(init, key, key(x));
        MembersSnoc(init, key, x, key(x));
      }
    }
  }
}
