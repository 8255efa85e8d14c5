/** The parsing half of `scan_for_networks`
    (backend/app/services/wifi_scanner.py): the output of the `airport -s`
    utility is trimmed and split into lines, the header line is dropped, and
    every line holding a MAC-shaped token yields one network whose BSSID is
    the leftmost such token and whose SSID is the trimmed text before it.

    Running the utility is not part of this model: its output is the input. */
module WifiScanner {
  import opened Wrappers
  import opened Strings

  // ---------------------------------------------------------------------
  // Python `str.strip()`

  /** Python's `str.isspace`: the characters `str.strip()` removes when it is
      called without arguments. */
  predicate IsSpace(c: char)
  {
    c as int in {9, 10, 11, 12, 13, 28, 29, 30, 31, 32, 133, 160, 5760, 8232, 8233, 8239, 8287, 12288}
    || 8192 <= c as int <= 8202
  }

  /** Index of the first non-space character, or `|s|`. */
  function StripStart(s: string, from: nat): (i: nat)
    requires from <= |s|
    ensures from <= i <= |s|
    ensures forall k :: from <= k < i ==> IsSpace(s[k])
    ensures i < |s| ==> !IsSpace(s[i])
    decreases |s| - from
  {
    if from == |s| || !IsSpace(s[from]) then from else StripStart(s, from + 1)
  }

  /** One past the last non-space character of `s[lo..hi]`, or `lo`. */
  function StripEnd(s: string, lo: nat, hi: nat): (j: nat)
    requires lo <= hi <= |s|
    ensures lo <= j <= hi
    ensures forall k :: j <= k < hi ==> IsSpace(s[k])
    ensures j > lo ==> !IsSpace(s[j - 1])
    decreases hi
  {
    if hi == lo || !IsSpace(s[hi - 1]) then hi else StripEnd(s, lo, hi - 1)
  }

  /** `s.strip()`. */
  function Strip(s: string): string
  {
    var i := StripStart(s, 0);
    s[i..StripEnd(s, i, |s|)]
  }

  /** The stripped text is what lies between a run of leading and a run of
      trailing whitespace, and it neither starts nor ends with whitespace. */
  lemma StripShape(s: string)
    ensures var r := Strip(s);
      && (r != [] ==> !IsSpace(r[0]) && !IsSpace(r[|r| - 1]))
      && (exists i, j :: 0 <= i <= j <= |s| && r == s[i..j]
           && (forall k :: 0 <= k < i ==> IsSpace(s[k]))
           && (forall k :: j <= k < |s| ==> IsSpace(s[k])))
  {
    var i := StripStart(s, 0);
    var j := StripEnd(s, i, |s|);
    assert Strip(s) == s[i..j];
  }

  /** Stripping twice is stripping once. */
  lemma StripIdempotent(s: string)
    ensures Strip(Strip(s)) == Strip(s)
  {
    var r := Strip(s);
    StripShape(s);
    var i := StripStart(r, 0);
    assert i == 0;
    var j := StripEnd(r, 0, |r|);
    assert j == |r|;
  }

  // ---------------------------------------------------------------------
  // The BSSID pattern `([0-9a-fA-F]{1,2}:){5}[0-9a-fA-F]{1,2}`

  predicate IsHex(c: char)
  {
    '0' <= c <= '9' || 'a' <= c <= 'f' || 'A' <= c <= 'F'
  }

  predicate AllHex(t: string)
  {
    forall k :: 0 <= k < |t| ==> IsHex(t[k])
  }

  /** One to two hex digits. */
  predicate IsHexGroup(g: string)
  {
    1 <= |g| <= 2 && AllHex(g)
  }

  /** `t` is `n + 1` groups of one or two hex digits joined by colons. */
  predicate HexGroups(t: string, n: nat)
  {
    var parts := Split(t, ":");
    |parts| == n + 1 && forall k :: 0 <= k < |parts| ==> IsHexGroup(parts[k])
  }

  /** The reference definition of a BSSID: six one- or two-digit hex groups
      separated by colons. */
  predicate IsMac(t: string)
  {
    HexGroups(t, 5)
  }

  /** The regular-expression engine matching `n` groups `[0-9a-fA-F]{1,2}:`
      and a final `[0-9a-fA-F]{1,2}` at position `p`: each `{1,2}` is greedy,
      so two digits are tried before one, and the engine backtracks to the
      shorter choice when the rest of the pattern fails. The result is the
      end of the first match found in that order. */
  function Match(s: string, p: nat, n: nat): (e: Option<nat>)
    ensures e.Some? ==> p < e.value <= |s|
    decreases n
  {
    if n == 0 then
      if p + 1 < |s| && IsHex(s[p]) && IsHex(s[p + 1]) then Some(p + 2)
      else if p < |s| && IsHex(s[p]) then Some(p + 1)
      else None
    else
      var two := if p + 2 < |s| && IsHex(s[p]) && IsHex(s[p + 1]) && s[p + 2] == ':'
        then Match(s, p + 3, n - 1) else None;
      if two.Some? then two
      else if p + 1 < |s| && IsHex(s[p]) && s[p + 1] == ':' then Match(s, p + 2, n - 1)
      else None
  }

  lemma HexFree(t: string)
    requires AllHex(t)
    ensures Free(t, ":")
  {
    forall i | 0 <= i <= |t| ensures !OccursAt(t, ":", i) {
      OccursAtChar(t, ':', i);
    }
  }

  /** A hex group, a colon, then anything: the group is the first part. */
  lemma SplitAfterGroup(head: string, rest: string)
    requires AllHex(head)
    ensures Split(head + ":" + rest, ":") == [head] + Split(rest, ":")
  {
    HexFree(head);
    var whole := head + ":" + rest;
    forall j: nat | j < |head| ensures !OccursAt(whole, ":", j) {
      OccursAtChar(whole, ':', j);
      assert whole[j] == head[j];
    }
    SplitCons(head, ":", rest);
  }

  /** What the engine matches has the shape of the reference definition. */
  lemma {:induction false} MatchSound(s: string, p: nat, n: nat)
    requires Match(s, p, n).Some?
    ensures HexGroups(s[p..Match(s, p, n).value], n)
    decreases n
  {
    var e := Match(s, p, n).value;
    if n == 0 {
      var t := s[p..e];
      HexFree(t);
      SplitFree(t, ":");
    } else {
      var two := if p + 2 < |s| && IsHex(s[p]) && IsHex(s[p + 1]) && s[p + 2] == ':'
        then Match(s, p + 3, n - 1) else None;
      var q := if two.Some? then p + 3 else p + 2;
      assert Match(s, q, n - 1) == Some(e);
      MatchSound(s, q, n - 1);
      GroupThenColon(s, p, q, e, n);
    }
  }

  /** A group, a colon and `n - 1` more groups are `n` groups. */
  lemma GroupThenColon(s: string, p: nat, q: nat, e: nat, n: nat)
    requires n > 0 && p + 2 <= q <= p + 3 && q <= e <= |s|
    requires forall k :: p <= k < q - 1 ==> IsHex(s[k])
    requires s[q - 1] == ':'
    requires HexGroups(s[q..e], n - 1)
    ensures HexGroups(s[p..e], n)
  {
    var head, rest := s[p..q - 1], s[q..e];
    assert s[p..e] == head + ":" + rest;
    SplitAfterGroup(head, rest);
    assert IsHexGroup(head);
  }

  /** A single group is one or two hex digits. */
  lemma GroupsLast(t: string)
    requires HexGroups(t, 0)
    ensures IsHexGroup(t)
  {
    var parts := Split(t, ":");
    assert parts == [t] && IsHexGroup(parts[0]);
  }

  /** Several groups start with one or two hex digits and a colon, and the
      rest after that colon is one group fewer. */
  lemma GroupsHead(t: string, n: nat)
    requires n > 0 && HexGroups(t, n)
    ensures var i := FirstIndexFrom(t, ":", 0);
      && (i == 1 || i == 2) && i < |t| && t[i] == ':' && AllHex(t[..i])
      && HexGroups(t[i + 1..], n - 1)
  {
    var parts := Split(t, ":");
    var i := FirstIndexFrom(t, ":", 0);
    assert i < |t|;
    var rest := t[i + 1..];
    assert parts == [t[..i]] + Split(rest, ":");
    assert IsHexGroup(parts[0]);
    OccursAtChar(t, ':', i);
    assert Split(rest, ":") == parts[1..];
  }

  /** The engine misses no match, and the match it reports is the longest one
      at that position. */
  lemma {:induction false} MatchComplete(s: string, p: nat, n: nat, e: nat)
    requires p <= e <= |s| && HexGroups(s[p..e], n)
    ensures Match(s, p, n).Some? && Match(s, p, n).value >= e
    decreases n
  {
    if n == 0 {
      GroupsLast(s[p..e]);
      MatchCompleteLast(s, p, e);
    } else {
      HeadGroup(s, p, e, n);
      var i := FirstIndexFrom(s[p..e], ":", 0);
      MatchComplete(s, p + i + 1, n - 1, e);
      if i == 2 {
        MatchStepTwo(s, p, n);
      } else {
        MatchStepOne(s, p, n);
      }
    }
  }

  /** The final group alone. */
  lemma MatchCompleteLast(s: string, p: nat, e: nat)
    requires p <= e <= |s| && IsHexGroup(s[p..e])
    ensures Match(s, p, 0).Some? && Match(s, p, 0).value >= e
  {
    assert s[p..e][0] == s[p];
    if e - p == 2 {
      assert s[p..e][1] == s[p + 1];
    }
  }

  /** The first group of several, read off the text: `i` digits and then a
      colon, where `i` is the position of the first colon. */
  lemma HeadGroup(s: string, p: nat, e: nat, n: nat)
    requires n > 0 && p <= e <= |s| && HexGroups(s[p..e], n)
    ensures var i := FirstIndexFrom(s[p..e], ":", 0);
      && (i == 1 || i == 2) && p + i < e && s[p + i] == ':'
      && (forall k :: p <= k < p + i ==> IsHex(s[k]))
      && HexGroups(s[p + i + 1..e], n - 1)
  {
    var t := s[p..e];
    GroupsHead(t, n);
    var i := FirstIndexFrom(t, ":", 0);
    assert s[p + i] == t[i];
    forall k | p <= k < p + i ensures IsHex(s[k]) {
      assert s[k] == t[..i][k - p];
    }
    assert t[i + 1..] == s[p + i + 1..e];
  }

  lemma MatchStepTwo(s: string, p: nat, n: nat)
    requires n > 0 && p + 2 < |s| && IsHex(s[p]) && IsHex(s[p + 1]) && s[p + 2] == ':'
    requires Match(s, p + 3, n - 1).Some?
    ensures Match(s, p, n) == Match(s, p + 3, n - 1)
  {
  }

  lemma MatchStepOne(s: string, p: nat, n: nat)
    requires n > 0 && p + 1 < |s| && IsHex(s[p]) && s[p + 1] == ':'
    ensures Match(s, p, n) == Match(s, p + 2, n - 1)
  {
  }

  /** `pattern.search(s)` from position `from`: the leftmost start with a
      match, and that match's end. */
  function SearchFrom(s: string, from: nat): (r: Option<(nat, nat)>)
    requires from <= |s|
    ensures r.Some? ==>
      && from <= r.value.0 < |s| && Match(s, r.value.0, 5) == Some(r.value.1)
      && forall q: nat :: from <= q < r.value.0 ==> Match(s, q, 5).None?
    ensures r.None? ==> forall q: nat :: from <= q <= |s| ==> Match(s, q, 5).None?
    decreases |s| - from
  {
    if Match(s, from, 5).Some? then Some((from, Match(s, from, 5).value))
    else if from == |s| then None
    else SearchFrom(s, from + 1)
  }

  function Search(s: string): (r: Option<(nat, nat)>)
  {
    SearchFrom(s, 0)
  }

  /** A line contains a BSSID somewhere. */
  predicate HasMac(s: string)
  {
    exists p: nat, e: nat :: p <= e <= |s| && IsMac(s[p..e])
  }

  /** The search finds a match exactly when the line contains a BSSID; the
      match is a BSSID, no BSSID starts further left, and no longer BSSID
      starts at the same place. */
  lemma SearchIsLeftmostLongest(s: string)
    ensures Search(s).Some? <==> HasMac(s)
    ensures Search(s).Some? ==>
      var (p, e) := Search(s).value;
      && p <= e <= |s| && IsMac(s[p..e])
      && (forall q: nat, f: nat :: q < p && q <= f <= |s| ==> !IsMac(s[q..f]))
      && (forall f: nat :: p <= f <= |s| && IsMac(s[p..f]) ==> f <= e)
  {
    forall q: nat, f: nat | q <= f <= |s| && IsMac(s[q..f])
      ensures Match(s, q, 5).Some? && Match(s, q, 5).value >= f
    {
      MatchComplete(s, q, 5, f);
    }
    if Search(s).Some? {
      var (p, e) := Search(s).value;
      MatchSound(s, p, 5);
    }
  }

  // ---------------------------------------------------------------------
  // Lines to networks

  datatype Network = Network(ssid: string, bssid: string)

  /** Raised (as `RuntimeError`) when no line holds a BSSID. */
  datatype ScanError = NoNetworksFound

  /** The network a line yields, if any: the BSSID is the match, the SSID the
      stripped text before it. */
  function NetworkOf(line: string): (n: Option<Network>)
    ensures n.Some? <==> Search(line).Some?
  {
    match Search(line)
    case None => None
    case Some((p, e)) => Some(Network(Strip(line[..p]), line[p..e]))
  }

  /** `scan_output.strip().split('\n')[1:]`: every line but the first. */
  function ScanLines(output: string): seq<string>
  {
    Split(Strip(output), "\n")[1..]
  }

  /** The networks the lines yield, in line order. */
  function Entries(lines: seq<string>): (ns: seq<Network>)
    ensures |ns| <= |lines|
  {
    if lines == [] then []
    else
      var init := Entries(lines[..|lines| - 1]);
      match NetworkOf(lines[|lines| - 1])
      case None => init
      case Some(n) => init + [n]
  }

  /** What `scan_for_networks` returns for the utility's output. */
  function ParseScan(output: string): Result<seq<Network>, ScanError>
  {
    var ns := Entries(ScanLines(output));
    if ns == [] then Failure(NoNetworksFound) else Success(ns)
  }

  /** `scan_for_networks`, from line 45 on. */
  method ScanForNetworks(scanOutput: string) returns (result: Result<seq<Network>, ScanError>)
    ensures result == ParseScan(scanOutput)
    ensures result.Success? ==> |result.value| > 0
  {
    var lines := Split(Strip(scanOutput), "\n")[1..];
    var networks: seq<Network> := [];
    for i := 0 to |lines|
      invariant networks == Entries(lines[..i])
    {
      var line := lines[i];
      assert lines[..i + 1][..i] == lines[..i];
      var found := Search(line);
      if found.Some? {
        var (start, end) := found.value;
        var bssid := line[start..end];
        var ssid := Strip(line[..start]);
        networks := networks + [Network(ssid, bssid)];
      }
    }
    assert lines[..|lines|] == lines;
    if networks == [] {
      return Failure(NoNetworksFound);
    }
    return Success(networks);
  }

  /** Indices of the lines that yield a network. */
  function YieldingLines(lines: seq<string>): (idx: seq<nat>)
    ensures forall k :: 0 <= k < |idx| ==> idx[k] < |lines|
  {
    if lines == [] then []
    else
      var init := YieldingLines(lines[..|lines| - 1]);
      if NetworkOf(lines[|lines| - 1]).Some? then init + [|lines| - 1] else init
  }

  /** The k-th network comes from the k-th line that yields one. */
  lemma {:induction false} EntriesFollowLines(lines: seq<string>)
    ensures |Entries(lines)| == |YieldingLines(lines)|
    ensures forall k :: 0 <= k < |Entries(lines)| ==>
      NetworkOf(lines[YieldingLines(lines)[k]]) == Some(Entries(lines)[k])
  {
    if lines != [] {
      var init := lines[..|lines| - 1];
      EntriesFollowLines(init);
      assert forall i :: 0 <= i < |init| ==> init[i] == lines[i];
    }
  }

  /** The lines the networks come from are taken in line order. */
  lemma {:induction false} YieldingLinesIncrease(lines: seq<string>)
    ensures forall a, b :: 0 <= a < b < |YieldingLines(lines)| ==> YieldingLines(lines)[a] < YieldingLines(lines)[b]
  {
    if lines != [] {
      YieldingLinesIncrease(lines[..|lines| - 1]);
    }
  }

  /** A line yields a network exactly when it holds a BSSID. */
  lemma {:induction false} YieldingLinesExact(lines: seq<string>)
    ensures forall i :: 0 <= i < |lines| ==> (i in YieldingLines(lines) <==> HasMac(lines[i]))
  {
    if lines != [] {
      var init := lines[..|lines| - 1];
      YieldingLinesExact(init);
      assert forall i :: 0 <= i < |init| ==> init[i] == lines[i];
      SearchIsLeftmostLongest(lines[|lines| - 1]);
      forall i | 0 <= i < |init| ensures HasMac(lines[i]) <==> HasMac(init[i]) {
      }
    }
  }

  /** Every network's BSSID is a BSSID in the reference sense, and its SSID
      carries no surrounding whitespace. */
  lemma {:induction false} EntriesWellFormed(lines: seq<string>)
    ensures forall n :: n in Entries(lines) ==>
      IsMac(n.bssid) && (n.ssid != [] ==> !IsSpace(n.ssid[0]) && !IsSpace(n.ssid[|n.ssid| - 1]))
  {
    if lines != [] {
      var init := lines[..|lines| - 1];
      var line := lines[|lines| - 1];
      EntriesWellFormed(init);
      if Search(line).Some? {
        var (p, e) := Search(line).value;
        SearchIsLeftmostLongest(line);
        StripShape(line[..p]);
      }
    }
  }

  /** A successful scan is non-empty and every BSSID in it has the MAC
      shape. */
  lemma ScanSuccessWellFormed(output: string)
    ensures ParseScan(output).Success? ==>
      |ParseScan(output).value| > 0 && forall n :: n in ParseScan(output).value ==> IsMac(n.bssid)
  {
    EntriesWellFormed(ScanLines(output));
  }

  /** The first line of the trimmed output is a header: whatever it holds,
      the lines parsed are exactly the ones after it. */
  lemma HeaderSkipped(output: string, header: string, body: string)
    requires Strip(output) == header + "\n" + body
    requires Free(header, "\n")
    ensures ScanLines(output) == Split(body, "\n")
  {
    forall j: nat | j < |header| ensures !OccursAt(header + "\n" + body, "\n", j) {
      OccursAtChar(header + "\n" + body, '\n', j);
      OccursAtChar(header, '\n', j);
      assert (header + "\n" + body)[j] == header[j];
    }
    SplitCons(header, "\n", body);
  }

  /** Output of a single line, even one that holds a BSSID, finds no network. */
  lemma SingleLineFindsNothing(output: string)
    requires Free(Strip(output), "\n")
    ensures ParseScan(output) == Failure(NoNetworksFound)
  {
    SplitFree(Strip(output), "\n");
  }
}
