/** The data shaping of `create_movement_map` (backend/generate_map.py): the
    pings of the simulated movement table are stripped of those without
    coordinates, grouped by BSSID in order of first appearance, each group is
    sorted by time, and every group becomes one GeoJSON `LineString` feature
    whose coordinates are `[lon, lat]` pairs with a parallel list of ISO
    timestamps. The map is centred on `[lat, lon]` of the first ping that has
    coordinates. */
module MovementMap {
  import opened Wrappers
  import opened Sublists
  import opened Grouping

  /** A row of `get_all_movement_pings`. The timestamp is the instant as a
      count of microseconds, so that comparing two of them is comparing
      datetimes. */
  datatype MovementPing = MovementPing(bssid: string, lat: Option<real>, lon: Option<real>, timestamp: int)

  function PingBssid(p: MovementPing): string { p.bssid }

  /** `ping['lat'] is not None and ping['lon'] is not None`. */
  predicate HasCoordinates(p: MovementPing) { p.lat.Some? && p.lon.Some? }

  /** One GeoJSON feature: the device, its `[lon, lat]` path and the ISO
      timestamp of each point of the path. A coordinate is the two-element
      Python list, whose items may in principle be `None`. */
  datatype Feature = Feature(bssid: string, coordinates: seq<seq<Option<real>>>, times: seq<string>)

  /** What `create_movement_map` ends with: an early return on no data, an
      early return on no usable coordinates, or the map's centre and features. */
  datatype MapOutcome =
    | NoPings
    | NoValidCoordinates
    | Drawn(center: seq<Option<real>>, features: seq<Feature>)

  // ---------------------------------------------------------------------
  // Sorting a group by time (`list.sort(key=lambda x: x['timestamp'])`)

  predicate SortedByTime(s: seq<MovementPing>)
  {
    forall i, j :: 0 <= i < j < |s| ==> s[i].timestamp <= s[j].timestamp
  }

  /** Inserts `x` before the first item that is not earlier than it. */
  function InsertByTime(x: MovementPing, s: seq<MovementPing>): (r: seq<MovementPing>)
    ensures multiset(r) == multiset(s) + multiset{x}
  {
    if s == [] || x.timestamp <= s[0].timestamp then [x] + s
    else
      assert s == [s[0]] + s[1..];
      [s[0]] + InsertByTime(x, s[1..])
  }

  /** The group ordered by timestamp; a stable sort, as Python's is. */
  function SortByTime(s: seq<MovementPing>): (r: seq<MovementPing>)
    ensures multiset(r) == multiset(s)
    ensures |r| == |s|
  {
    if s == [] then []
    else
      assert s == [s[0]] + s[1..];
      InsertByTime(s[0], SortByTime(s[1..]))
  }

  lemma {:induction false} InsertKeepsSorted(x: MovementPing, s: seq<MovementPing>)
    requires SortedByTime(s)
    ensures SortedByTime(InsertByTime(x, s))
    ensures InsertByTime(x, s)[0] == x || (s != [] && InsertByTime(x, s)[0] == s[0])
  {
    if s != [] && x.timestamp > s[0].timestamp {
      var rest := s[1..];
      assert SortedByTime(rest);
      InsertKeepsSorted(x, rest);
      var r := InsertByTime(x, rest);
      assert s[0].timestamp <= r[0].timestamp;
      assert InsertByTime(x, s) == [s[0]] + r;
    }
  }

  /** The sorted group is in non-decreasing time order. */
  lemma {:induction false} SortByTimeSorted(s: seq<MovementPing>)
    ensures SortedByTime(SortByTime(s))
  {
    if s != [] {
      SortByTimeSorted(s[1..]);
      InsertKeepsSorted(s[0], SortByTime(s[1..]));
    }
  }

  /** The pings of one instant. */
  function AtTime(t: int): MovementPing -> bool
  {
    (p: MovementPing) => p.timestamp == t
  }

  lemma {:induction false} InsertStable(x: MovementPing, s: seq<MovementPing>, t: int)
    requires SortedByTime(s)
    ensures Filter(InsertByTime(x, s), AtTime(t)) == Filter([x] + s, AtTime(t))
  {
    if s != [] && x.timestamp > s[0].timestamp {
      var keep, rest := AtTime(t), s[1..];
      assert s == [s[0]] + rest;
      assert InsertByTime(x, s) == [s[0]] + InsertByTime(x, rest);
      InsertStable(x, rest, t);
      var kx := if keep(x) then [x] else [];
      var k0 := if keep(s[0]) then [s[0]] else [];
      assert kx == [] || k0 == [];
      calc {
        Filter(InsertByTime(x, s), keep);
        { FilterCons(s[0], InsertByTime(x, rest), keep); }
        k0 + Filter(InsertByTime(x, rest), keep);
        { FilterCons(x, rest, keep); }
        k0 + (kx + Filter(rest, keep));
        { SwapEmpty(k0, kx, Filter(rest, keep)); }
        kx + (k0 + Filter(rest, keep));
        { FilterCons(s[0], rest, keep); }
        kx + Filter(s, keep);
        { FilterCons(x, s, keep); }
        Filter([x] + s, keep);
      }
    }
  }

  lemma SwapEmpty<T>(a: seq<T>, b: seq<T>, c: seq<T>)
    requires a == [] || b == []
    ensures a + (b + c) == b + (a + c)
  {
    if a == [] {
      assert [] + (b + c) == b + c && [] + c == c;
    } else {
      assert [] + (a + c) == a + c && [] + c == c;
    }
  }

  /** Stability: the pings of any one instant keep their input order. */
  lemma {:induction false} SortByTimeStable(s: seq<MovementPing>, t: int)
    ensures Filter(SortByTime(s), AtTime(t)) == Filter(s, AtTime(t))
  {
    if s != [] {
      var rest := s[1..];
      assert s == [s[0]] + rest;
      SortByTimeStable(rest, t);
      SortByTimeSorted(rest);
      InsertStable(s[0], SortByTime(rest), t);
      FilterCons(s[0], SortByTime(rest), AtTime(t));
      FilterCons(s[0], rest, AtTime(t));
    }
  }

  // ---------------------------------------------------------------------
  // Features and the map

  /** The feature of one group: sort it, then take `[lon, lat]` and the ISO
      timestamp of each ping. */
  function FeatureOf(bssid: string, group: seq<MovementPing>, iso: int -> string): Feature
  {
    var sorted := SortByTime(group);
    Feature(bssid, LineCoordinates(sorted), Timestamps(sorted, iso))
  }

  /** `[[ping['lon'], ping['lat']] for ping in pings_for_bssid]`. */
  function LineCoordinates(pings: seq<MovementPing>): seq<seq<Option<real>>>
  {
    seq(|pings|, i requires 0 <= i < |pings| => [pings[i].lon, pings[i].lat])
  }

  /** `[ping['timestamp'].isoformat() for ping in pings_for_bssid]`. */
  function Timestamps(pings: seq<MovementPing>, iso: int -> string): seq<string>
  {
    seq(|pings|, i requires 0 <= i < |pings| => iso(pings[i].timestamp))
  }

  /** The pings that reach a group, in input order. */
  function Located(pings: seq<MovementPing>): seq<MovementPing>
  {
    if pings == [] then []
    else
      var last := pings[|pings| - 1];
      Located(pings[..|pings| - 1]) + (if HasCoordinates(last) then [last] else [])
  }

  lemma LocatedSnoc(pings: seq<MovementPing>, ping: MovementPing)
    ensures Located(pings + [ping]) == Located(pings) + (if HasCoordinates(ping) then [ping] else [])
  {
    assert (pings + [ping])[..|pings|] == pings;
  }

  /** `Located` is the filter on `HasCoordinates`. */
  lemma {:induction false} LocatedIsFilter(pings: seq<MovementPing>)
    ensures Located(pings) == Filter(pings, HasCoordinates)
  {
    if pings != [] {
      LocatedIsFilter(pings[..|pings| - 1]);
    }
  }

  /** One feature per BSSID of `located`, in order of first appearance. */
  function Features(located: seq<MovementPing>, iso: int -> string): seq<Feature>
  {
    var keys := KeysInOrder(located, PingBssid);
    seq(|keys|, j requires 0 <= j < |keys| => FeatureOf(keys[j], Members(located, PingBssid, keys[j]), iso))
  }

  /** The outcome of `create_movement_map` for the fetched `pings`; `iso` is
      `datetime.isoformat`. The centre is that of the first ping with
      coordinates. */
  function MovementMapOf(pings: seq<MovementPing>, iso: int -> string): MapOutcome
  {
    if pings == [] then NoPings
    else
      var located := Located(pings);
      if located == [] then NoValidCoordinates
      else Drawn([located[0].lat, located[0].lon], Features(located, iso))
  }

  /** The state of the grouping loop once the pings `located` have been
      appended: the `defaultdict`'s keys in insertion order and its lists. */
  ghost predicate Grouped(located: seq<MovementPing>, order: seq<string>, groups: map<string, seq<MovementPing>>)
  {
    && order == KeysInOrder(located, PingBssid)
    && (forall b :: b in groups <==> b in order)
    && forall b :: b in groups ==> groups[b] == Members(located, PingBssid, b)
  }

  /** A ping with coordinates is appended to its BSSID's list, creating
      the list on first sight. */
  lemma GroupStep(located: seq<MovementPing>, ping: MovementPing,
                  order: seq<string>, groups: map<string, seq<MovementPing>>,
                  order': seq<string>, groups': map<string, seq<MovementPing>>)
    requires Grouped(located, order, groups)
    requires order' == if ping.bssid in groups then order else order + [ping.bssid]
    requires groups' == groups[ping.bssid := (if ping.bssid in groups then groups[ping.bssid] else []) + [ping]]
    ensures Grouped(located + [ping], order', groups')
  {
    OrderStep(located, ping, order, order');
    if ping.bssid !in groups {
      MembersOfAbsent(located, PingBssid, ping.bssid);
    }
    ListsStep(located, ping, groups, groups');
  }

  lemma OrderStep(located: seq<MovementPing>, ping: MovementPing, order: seq<string>, order': seq<string>)
    requires order == KeysInOrder(located, PingBssid)
    requires order' == if ping.bssid in order then order else order + [ping.bssid]
    ensures order' == KeysInOrder(located + [ping], PingBssid)
  {
    KeysSnoc(located, PingBssid, ping);
  }

  lemma ListsStep(located: seq<MovementPing>, ping: MovementPing,
                  groups: map<string, seq<MovementPing>>, groups': map<string, seq<MovementPing>>)
    requires forall b :: b in groups ==> groups[b] == Members(located, PingBssid, b)
    requires ping.bssid !in groups ==> Members(located, PingBssid, ping.bssid) == []
    requires groups' == groups[ping.bssid := (if ping.bssid in groups then groups[ping.bssid] else []) + [ping]]
    ensures forall b :: b in groups' ==> groups'[b] == Members(located + [ping], PingBssid, b)
  {
    forall b | b in groups'
      ensures groups'[b] == Members(located + [ping], PingBssid, b)
    {
      MembersSnoc(located, PingBssid, ping, b);
    }
  }

  /** What the grouping loop leaves behind: the dictionary is empty
      exactly when no ping has coordinates, and otherwise the first ping of
      the first list is the first ping with coordinates. */
  lemma FirstOfFirstGroup(located: seq<MovementPing>, order: seq<string>, groups: map<string, seq<MovementPing>>)
    requires Grouped(located, order, groups)
    ensures forall m :: 0 <= m < |order| ==> order[m] in groups
    ensures |groups| == 0 <==> located == []
    ensures located != [] ==> order != [] && groups[order[0]] != [] && groups[order[0]][0] == located[0]
  {
    assert order != [] ==> order[0] in groups;
    if located != [] {
      KeysHead(located, PingBssid);
      FirstMember(located, PingBssid, order[0]);
    }
  }

  /** The feature loop turns the lists, taken in key order, into `Features`. */
  lemma FeaturesFromGroups(located: seq<MovementPing>, iso: int -> string, order: seq<string>,
                           groups: map<string, seq<MovementPing>>, features: seq<Feature>)
    requires Grouped(located, order, groups)
    requires forall m :: 0 <= m < |order| ==> order[m] in groups
    requires features == seq(|order|, j requires 0 <= j < |order| => FeatureOf(order[j], groups[order[j]], iso))
    ensures features == Features(located, iso)
  {
  }

  /** The grouping loop (lines 35-39): pings without coordinates are
      skipped, the others appended to their BSSID's list, the lists kept in
      order of first appearance. */
  method GroupByBssid(pings: seq<MovementPing>) returns (order: seq<string>, groups: map<string, seq<MovementPing>>)
    ensures Grouped(Located(pings), order, groups)
  {
    order, groups := [], map[];
    ghost var located: seq<MovementPing> := [];
    for i := 0 to |pings|
      invariant located == Located(pings[..i])
      invariant Grouped(located, order, groups)
    {
      var ping := pings[i];
      assert pings[..i + 1] == pings[..i] + [ping];
      LocatedSnoc(pings[..i], ping);
      if ping.lat.Some? && ping.lon.Some? {
        // `trajectories[bssid]` of a `defaultdict(list)` starts an empty list
        var list := if ping.bssid in groups then groups[ping.bssid] else [];
        ghost var order0, groups0 := order, groups;
        if ping.bssid !in groups {
          order := order + [ping.bssid];
        }
        groups := groups[ping.bssid := list + [ping]];
        GroupStep(located, ping, order0, groups0, order, groups);
        located := located + [ping];
      }
    }
    assert pings[..|pings|] == pings;
  }

  /** The feature loop (lines 55-64): each list, in key order, sorted by
      time and turned into a feature. */
  method BuildFeatures(order: seq<string>, groups: map<string, seq<MovementPing>>, iso: int -> string) returns (features: seq<Feature>)
    requires forall m :: 0 <= m < |order| ==> order[m] in groups
    ensures features == seq(|order|, j requires 0 <= j < |order| => FeatureOf(order[j], groups[order[j]], iso))
  {
    features := [];
    for j := 0 to |order|
      invariant |features| == j
      invariant forall m :: 0 <= m < j ==> features[m] == FeatureOf(order[m], groups[order[m]], iso)
    {
      var bssid := order[j];
      var sorted := SortByTime(groups[bssid]);
      features := features + [Feature(bssid, LineCoordinates(sorted), Timestamps(sorted, iso))];
    }
  }

  /** `create_movement_map` from the fetched pings on: the grouping loop, the
      centre and the feature loop. */
  method CreateMovementMap(pings: seq<MovementPing>, iso: int -> string) returns (outcome: MapOutcome)
    ensures outcome == MovementMapOf(pings, iso)
  {
    if |pings| == 0 {
      return NoPings;
    }
    var order, groups := GroupByBssid(pings);
    FirstOfFirstGroup(Located(pings), order, groups);
    if |groups| == 0 {
      return NoValidCoordinates;
    }
    var first := groups[order[0]][0];
    var center := [first.lat, first.lon];
    var features := BuildFeatures(order, groups, iso);
    FeaturesFromGroups(Located(pings), iso, order, groups, features);
    outcome := Drawn(center, features);
  }

  // ---------------------------------------------------------------------
  // Properties of the map

  /** A ping is located exactly when it is one of the fetched pings and has
      both coordinates. */
  lemma LocatedExact(pings: seq<MovementPing>)
    ensures forall p :: p in Located(pings) <==> p in pings && HasCoordinates(p)
  {
    LocatedIsFilter(pings);
  }

  /** The three outcomes: no map without pings, none when no ping has
      coordinates, and otherwise a map centred on `[lat, lon]` of the first
      ping that has them (the opposite order to the `[lon, lat]` of the
      geometry). */
  lemma Outcomes(pings: seq<MovementPing>, iso: int -> string)
    ensures pings == [] ==> MovementMapOf(pings, iso) == NoPings
    ensures pings != [] && FirstKeptIndex(pings, HasCoordinates) == |pings| ==>
      MovementMapOf(pings, iso) == NoValidCoordinates
    ensures FirstKeptIndex(pings, HasCoordinates) < |pings| ==>
      var first := pings[FirstKeptIndex(pings, HasCoordinates)];
      && first.lat.Some? && first.lon.Some?
      && MovementMapOf(pings, iso) == Drawn([first.lat, first.lon], Features(Located(pings), iso))
  {
    LocatedIsFilter(pings);
    FilterHead(pings, HasCoordinates);
  }

  /** The features' BSSIDs are the located pings' BSSIDs in order of first
      appearance. */
  lemma FeatureBssids(pings: seq<MovementPing>, iso: int -> string)
    requires MovementMapOf(pings, iso).Drawn?
    ensures |MovementMapOf(pings, iso).features| == |KeysInOrder(Located(pings), PingBssid)|
    ensures forall j :: 0 <= j < |MovementMapOf(pings, iso).features| ==>
      MovementMapOf(pings, iso).features[j].bssid == KeysInOrder(Located(pings), PingBssid)[j]
  {
    assert MovementMapOf(pings, iso).features == Features(Located(pings), iso);
  }

  /** No BSSID has two features. */
  lemma FeaturesDistinct(pings: seq<MovementPing>, iso: int -> string)
    requires MovementMapOf(pings, iso).Drawn?
    ensures var fs := MovementMapOf(pings, iso).features;
      forall a, b :: 0 <= a < b < |fs| ==> fs[a].bssid != fs[b].bssid
  {
    FeatureBssids(pings, iso);
    KeysDistinct(Located(pings), PingBssid);
  }

  /** Every device with a located ping has a feature. */
  lemma EveryLocatedDeviceDrawn(pings: seq<MovementPing>, iso: int -> string, i: nat)
    requires MovementMapOf(pings, iso).Drawn?
    requires i < |pings| && HasCoordinates(pings[i])
    ensures var fs := MovementMapOf(pings, iso).features;
      exists j :: 0 <= j < |fs| && fs[j].bssid == pings[i].bssid
  {
    var located := Located(pings);
    var keys := KeysInOrder(located, PingBssid);
    FeatureBssids(pings, iso);
    LocatedExact(pings);
    assert pings[i] in located;
    var k :| 0 <= k < |located| && located[k] == pings[i];
    assert PingBssid(located[k]) in keys;
    var j :| 0 <= j < |keys| && keys[j] == pings[i].bssid;
    assert MovementMapOf(pings, iso).features[j].bssid == pings[i].bssid;
  }

  /** Every feature belongs to a device with a located ping. */
  lemma EveryFeatureLocated(pings: seq<MovementPing>, iso: int -> string, j: nat)
    requires MovementMapOf(pings, iso).Drawn?
    requires j < |MovementMapOf(pings, iso).features|
    ensures var b := MovementMapOf(pings, iso).features[j].bssid;
      exists i :: 0 <= i < |pings| && HasCoordinates(pings[i]) && pings[i].bssid == b
  {
    var located := Located(pings);
    var keys := KeysInOrder(located, PingBssid);
    FeatureBssids(pings, iso);
    LocatedExact(pings);
    var k :| 0 <= k < |located| && PingBssid(located[k]) == keys[j];
    assert located[k] in pings;
    var i :| 0 <= i < |pings| && pings[i] == located[k];
  }

  /** Feature `a` comes before feature `b` exactly when its device's first
      located ping comes before the other's. */
  lemma FeaturesInFirstAppearanceOrder(pings: seq<MovementPing>, iso: int -> string, a: nat, b: nat)
    requires MovementMapOf(pings, iso).Drawn?
    requires a < b < |MovementMapOf(pings, iso).features|
    ensures MovementMapOf(pings, iso).features[a].bssid in KeysInOrder(Located(pings), PingBssid)
    ensures MovementMapOf(pings, iso).features[b].bssid in KeysInOrder(Located(pings), PingBssid)
    ensures FirstIndexOf(Located(pings), PingBssid, MovementMapOf(pings, iso).features[a].bssid)
          < FirstIndexOf(Located(pings), PingBssid, MovementMapOf(pings, iso).features[b].bssid)
  {
    FeatureBssids(pings, iso);
    KeysOrdered(Located(pings), PingBssid, a, b);
  }

  /** The list of a device holds exactly its located pings. */
  lemma DeviceGroup(pings: seq<MovementPing>, b: string)
    ensures var group := Members(Located(pings), PingBssid, b);
      forall p :: p in group <==> p in pings && HasCoordinates(p) && p.bssid == b
  {
    var located := Located(pings);
    LocatedExact(pings);
    MembersExact(located, PingBssid, b);
    forall p | p in pings && HasCoordinates(p) && p.bssid == b
      ensures p in Members(located, PingBssid, b)
    {
      var k :| 0 <= k < |located| && located[k] == p;
    }
  }

  /** A feature is its group sorted by time: its `k`-th coordinate is
      `[lon, lat]` and its `k`-th time the ISO timestamp of the `k`-th ping
      of the sorted group. When every ping of the group has coordinates, so
      does every point of the path. */
  lemma FeatureShape(bssid: string, group: seq<MovementPing>, iso: int -> string)
    ensures var f := FeatureOf(bssid, group, iso);
      var sorted := SortByTime(group);
      && f.bssid == bssid
      && SortedByTime(sorted) && multiset(sorted) == multiset(group)
      && |f.coordinates| == |sorted| && |f.times| == |sorted|
      && (forall k :: 0 <= k < |sorted| ==>
            f.coordinates[k] == [sorted[k].lon, sorted[k].lat] && f.times[k] == iso(sorted[k].timestamp))
      && ((forall p :: p in group ==> HasCoordinates(p)) ==>
            forall k :: 0 <= k < |sorted| ==> f.coordinates[k][0].Some? && f.coordinates[k][1].Some?)
  {
    var sorted := SortByTime(group);
    SortByTimeSorted(group);
    forall k | 0 <= k < |sorted|
      ensures sorted[k] in group
    {
      assert sorted[k] in multiset(group);
    }
  }

  /** The feature of a device holds exactly that device's located pings,
      sorted by time, and every point of its path has both coordinates. */
  lemma FeatureOfDevice(pings: seq<MovementPing>, iso: int -> string, j: nat)
    requires MovementMapOf(pings, iso).Drawn?
    requires j < |MovementMapOf(pings, iso).features|
    ensures var f := MovementMapOf(pings, iso).features[j];
      var group := Members(Located(pings), PingBssid, f.bssid);
      && f == FeatureOf(f.bssid, group, iso)
      && (forall p :: p in group <==> p in pings && HasCoordinates(p) && p.bssid == f.bssid)
      && forall k :: 0 <= k < |f.coordinates| ==> f.coordinates[k][0].Some? && f.coordinates[k][1].Some?
  {
    var f := MovementMapOf(pings, iso).features[j];
    FeatureBssids(pings, iso);
    assert f == FeatureOf(f.bssid, Members(Located(pings), PingBssid, f.bssid), iso);
    DeviceGroup(pings, f.bssid);
    FeatureShape(f.bssid, Members(Located(pings), PingBssid, f.bssid), iso);
  }

  /** The number of points drawn, over all features. */
  ghost function PointCount(fs: seq<Feature>): nat
  {
    if fs == [] then 0 else |fs[0].coordinates| + PointCount(fs[1..])
  }

  lemma {:induction false} PointCountOfKeys(located: seq<MovementPing>, iso: int -> string, ks: seq<string>, fs: seq<Feature>)
    requires |fs| == |ks|
    requires forall j :: 0 <= j < |ks| ==> fs[j] == FeatureOf(ks[j], Members(located, PingBssid, ks[j]), iso)
    ensures PointCount(fs) == TotalSize(located, PingBssid, ks)
  {
    if ks != [] {
      PointCountOfKeys(located, iso, ks[1..], fs[1..]);
    }
  }

  /** Every ping with coordinates is drawn exactly once: the features hold
      as many points as there are located pings. */
  lemma EveryLocatedPingDrawnOnce(pings: seq<MovementPing>, iso: int -> string)
    requires MovementMapOf(pings, iso).Drawn?
    ensures PointCount(MovementMapOf(pings, iso).features) == |Filter(pings, HasCoordinates)|
  {
    var located := Located(pings);
    LocatedIsFilter(pings);
    PointCountOfKeys(located, iso, KeysInOrder(located, PingBssid), MovementMapOf(pings, iso).features);
    GroupsPartition(located, PingBssid);
  }
}
