/** Text operations shared by the Python and TypeScript code: splitting on a
    non-empty separator (Python `str.split(sep)` and JavaScript
    `String.prototype.split(sep)` agree on it), joining, prefix tests and
    JavaScript's first-occurrence `replace`. */
module Strings {

  predicate IsUpper(c: char) { 'A' <= c <= 'Z' }

  function LowerChar(c: char): char
  {
    if IsUpper(c) then (c as int + 32) as char else c
  }

  /** `str.lower` / `toLowerCase` on the ASCII letters; other characters are
      kept. */
  function Lower(s: string): (r: string)
    ensures |r| == |s|
    ensures forall i :: 0 <= i < |s| ==> !IsUpper(r[i]) && (r[i] == s[i] || r[i] == LowerChar(s[i]))
  {
    seq(|s|, i requires 0 <= i < |s| => LowerChar(s[i]))
  }

  /** Lowering is idempotent. */
  lemma LowerIdempotent(s: string)
    ensures Lower(Lower(s)) == Lower(s)
  {
    assert forall i :: 0 <= i < |s| ==> LowerChar(LowerChar(s[i])) == LowerChar(s[i]);
  }

  predicate StartsWith(s: string, prefix: string)
  {
    |prefix| <= |s| && s[..|prefix|] == prefix
  }

  /** `pat` occurs in `s` starting at index `i`. */
  predicate OccursAt(s: string, pat: string, i: nat)
  {
    i + |pat| <= |s| && s[i..i + |pat|] == pat
  }

  /** A one-character pattern occurs exactly where that character is. */
  lemma OccursAtChar(s: string, c: char, i: nat)
    ensures OccursAt(s, [c], i) <==> i < |s| && s[i] == c
  {
    if i < |s| {
      assert s[i..i + 1] == [s[i]];
    }
  }

  /** True when `pat` occurs nowhere inside `s`. */
  predicate Free(s: string, pat: string)
  {
    forall i | 0 <= i <= |s| :: !OccursAt(s, pat, i)
  }

  /** The leftmost occurrence of `pat` at or after `from`, or `|s|` when
      there is none. */
  function FirstIndexFrom(s: string, pat: string, from: nat): (i: nat)
    requires pat != []
    requires from <= |s|
    ensures from <= i <= |s|
    ensures i < |s| ==> OccursAt(s, pat, i)
    ensures forall j: nat :: from <= j < i ==> !OccursAt(s, pat, j)
    ensures i == |s| ==> forall j: nat :: from <= j ==> !OccursAt(s, pat, j)
    decreases |s| - from
  {
    if from == |s| then |s|
    else if OccursAt(s, pat, from) then from
    else FirstIndexFrom(s, pat, from + 1)
  }

  /** `s` cut at every leftmost, non-overlapping occurrence of `sep`. */
  function Split(s: string, sep: string): (parts: seq<string>)
    requires sep != []
    ensures |parts| >= 1
    decreases |s|
  {
    var i := FirstIndexFrom(s, sep, 0);
    if i == |s| then [s] else [s[..i]] + Split(s[i + |sep|..], sep)
  }

  function Join(parts: seq<string>, sep: string): string
  {
    if parts == [] then []
    else if |parts| == 1 then parts[0]
    else parts[0] + sep + Join(parts[1..], sep)
  }

  /** Splitting loses nothing: joining the parts back gives the input. */
  lemma {:induction false} JoinSplit(s: string, sep: string)
    requires sep != []
    ensures Join(Split(s, sep), sep) == s
    decreases |s|
  {
    var i := FirstIndexFrom(s, sep, 0);
    if i < |s| {
      var rest := s[i + |sep|..];
      JoinSplit(rest, sep);
      JoinCons(s[..i], Split(rest, sep), sep);
      CutAt(s, sep, i);
    }
  }

  lemma JoinCons(head: string, tail: seq<string>, sep: string)
    requires tail != []
    ensures Join([head] + tail, sep) == head + sep + Join(tail, sep)
  {
    assert ([head] + tail)[1..] == tail;
  }

  /** An occurrence of `sep` cuts `s` into what is before and after it. */
  lemma CutAt(s: string, sep: string, i: nat)
    requires OccursAt(s, sep, i)
    ensures s == s[..i] + sep + s[i + |sep|..]
  {
    assert s == s[..i] + s[i..i + |sep|] + s[i + |sep|..];
  }

  /** No part contains the separator. */
  lemma {:induction false} SplitPartsFree(s: string, sep: string)
    requires sep != []
    ensures forall p :: p in Split(s, sep) ==> Free(p, sep)
    decreases |s|
  {
    var i := FirstIndexFrom(s, sep, 0);
    if i == |s| {
      assert Free(s, sep);
    } else {
      var head := s[..i];
      forall j | 0 <= j <= |head| ensures !OccursAt(head, sep, j) {
        if j + |sep| <= |head| {
          assert head[j..j + |sep|] == s[j..j + |sep|];
          assert !OccursAt(s, sep, j);
        }
      }
      SplitPartsFree(s[i + |sep|..], sep);
    }
  }

  /** A string with no separator is a single part. */
  lemma SplitFree(s: string, sep: string)
    requires sep != [] && Free(s, sep)
    ensures Split(s, sep) == [s]
  {
    assert FirstIndexFrom(s, sep, 0) == |s|;
  }

  /** A part free of the separator, then the separator, then the rest: the
      part comes first and the rest is split on its own. */
  lemma SplitCons(head: string, sep: string, rest: string)
    requires sep != [] && Free(head, sep)
    requires forall j: nat :: j < |head| ==> !OccursAt(head + sep + rest, sep, j)
    ensures Split(head + sep + rest, sep) == [head] + Split(rest, sep)
  {
    var s := head + sep + rest;
    assert OccursAt(s, sep, |head|) by {
      assert s[|head|..|head| + |sep|] == sep;
    }
    var i := FirstIndexFrom(s, sep, 0);
    assert i == |head|;
    assert s[..i] == head;
    assert s[i + |sep|..] == rest;
  }

  /** JavaScript `s.replace(pat, rep)` with a plain-string pattern: only the
      leftmost occurrence is replaced. */
  function ReplaceFirst(s: string, pat: string, rep: string): (r: string)
    requires pat != []
  {
    var i := FirstIndexFrom(s, pat, 0);
    if i == |s| then s else s[..i] + rep + s[i + |pat|..]
  }

  /** When `s` starts with the pattern, replacing its first occurrence by the
      empty string removes exactly that prefix. */
  lemma ReplaceLeadingPrefix(s: string, pat: string)
    requires pat != [] && StartsWith(s, pat)
    ensures ReplaceFirst(s, pat, "") == s[|pat|..]
  {
    assert OccursAt(s, pat, 0);
  }

  /** A text without the character `c` holds no occurrence of `[c]`. */
  lemma FreeOfChar(s: string, c: char)
    requires c !in s
    ensures Free(s, [c])
  {
    forall i | 0 <= i <= |s|
      ensures !OccursAt(s, [c], i)
    {
      OccursAtChar(s, c, i);
    }
  }

  /** Joining parts that do not hold a one-character separator and splitting
      the result on it gives the parts back. */
  lemma {:induction false} SplitJoin(parts: seq<string>, c: char)
    requires parts != []
    requires forall p :: p in parts ==> c !in p
    ensures Split(Join(parts, [c]), [c]) == parts
    decreases |parts|
  {
    FreeOfChar(parts[0], c);
    if |parts| == 1 {
      SplitFree(parts[0], [c]);
    } else {
      var rest := Join(parts[1..], [c]);
      SplitJoin(parts[1..], c);
      NoSeparatorBefore(parts[0], c, rest);
      SplitCons(parts[0], [c], rest);
      assert parts == [parts[0]] + parts[1..];
    }
  }

  lemma NoSeparatorBefore(head: string, c: char, rest: string)
    requires c !in head
    ensures forall j: nat :: j < |head| ==> !OccursAt(head + [c] + rest, [c], j)
  {
    var s := head + [c] + rest;
    forall j: nat | j < |head|
      ensures !OccursAt(s, [c], j)
    {
      OccursAtChar(s, c, j);
      assert s[j] == head[j];
    }
  }
}
