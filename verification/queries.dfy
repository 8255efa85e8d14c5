/** The Python around the SQL in backend/app/db/queries.py: grouping the rows
    of `get_trajectories_in_area` into per-BSSID trajectories, building the
    rows handed to `executemany` by `process_scraped_data` and
    `insert_tracking_pings`, the early returns on empty input, and the
    bounds of the random offset of `get_bssid_for_seeding`.

    The SQL itself, the connection and `executemany` are not part of this
    model: whether a connection was obtained and what a query returned are
    parameters, and the rows a method hands to `executemany` are its
    results. */
module Queries {
  import opened Wrappers
  import opened Strings
  import opened Grouping

  /** A value in a row returned by the database. */
  datatype Value = Number(x: real) | Text(s: string) | Null

  /** A row as a dictionary from column name to value. */
  type Row = map<string, Value>

  /** The coordinate keys of the trajectory rows
      (`latitude AS lat, longitude AS lon`). */
  const LAT_KEY: string := "lat"
  const LON_KEY: string := "lon"
  const TIMESTAMP_KEY: string := "timestamp"

  /** One entry of `get_trajectories_in_area`'s result:
      `{'bssid': ..., 'trajectory': [...]}`. */
  datatype Trajectory = Trajectory(bssid: string, points: seq<Row>)

  // ---------------------------------------------------------------------
  // get_trajectories_in_area

  /** A row of the area query: `lp.bssid, lat, lon, lp.timestamp`. The
      timestamp is kept abstract. */
  datatype AreaRow<Time> = AreaRow(bssid: string, lat: real, lon: real, timestamp: Time)

  function RowBssid<Time>(r: AreaRow<Time>): string { r.bssid }

  /** The point appended for a row; `iso` is `datetime.isoformat`. */
  function PointOf<Time>(r: AreaRow<Time>, iso: Time -> string): (p: Row)
    ensures LAT_KEY in p && LON_KEY in p && TIMESTAMP_KEY in p && "latitude" !in p && "longitude" !in p
    ensures p[LAT_KEY] == Number(r.lat) && p[LON_KEY] == Number(r.lon) && p[TIMESTAMP_KEY] == Text(iso(r.timestamp))
  {
    map[LAT_KEY := Number(r.lat), LON_KEY := Number(r.lon), TIMESTAMP_KEY := Text(iso(r.timestamp))]
  }

  function PointsOf<Time>(rows: seq<AreaRow<Time>>, iso: Time -> string): (ps: seq<Row>)
    ensures |ps| == |rows|
    ensures forall i :: 0 <= i < |rows| ==> ps[i] == PointOf(rows[i], iso)
  {
    seq(|rows|, i requires 0 <= i < |rows| => PointOf(rows[i], iso))
  }

  /** One trajectory per key of `ks`, holding that key's rows in order. */
  function GroupsOf<Time>(rows: seq<AreaRow<Time>>, iso: Time -> string, ks: seq<string>): (ts: seq<Trajectory>)
    ensures |ts| == |ks|
    ensures forall j :: 0 <= j < |ks| ==>
      ts[j] == Trajectory(ks[j], PointsOf(Members(rows, RowBssid, ks[j]), iso))
  {
    if ks == [] then []
    else [Trajectory(ks[0], PointsOf(Members(rows, RowBssid, ks[0]), iso))] + GroupsOf(rows, iso, ks[1..])
  }

  /** What `get_trajectories_in_area` returns for the rows of its query
      (`None` when there is no connection). */
  function TrajectoriesOf<Time>(results: Option<seq<AreaRow<Time>>>, iso: Time -> string): seq<Trajectory>
  {
    match results
    case None => []
    case Some(rows) => GroupsOf(rows, iso, KeysInOrder(rows, RowBssid))
  }

  /** Lines 190-201: the `trajectories` dictionary, kept as its keys in
      insertion order plus the map itself, filled one row at a time. */
  method GetTrajectoriesInArea<Time>(results: Option<seq<AreaRow<Time>>>, iso: Time -> string)
    returns (trajectories: seq<Trajectory>)
    ensures trajectories == TrajectoriesOf(results, iso)
  {
    if results.None? {
      return [];
    }
    var rows := results.value;
    var order: seq<string> := [];
    var byBssid: map<string, Trajectory> := map[];
    for i := 0 to |rows|
      invariant Grouped(rows[..i], iso, order, byBssid)
    {
      var row := rows[i];
      var bssid := row.bssid;
      TakeOneMore(rows, i);
      ghost var oldOrder, oldMap := order, byBssid;
      // a new BSSID starts an empty trajectory, then the point is appended
      var points := if bssid in byBssid then byBssid[bssid].points else [];
      if bssid !in byBssid {
        order := order + [bssid];
      }
      byBssid := byBssid[bssid := Trajectory(bssid, points + [PointOf(row, iso)])];
      GroupStep(rows[..i], row, iso, oldOrder, oldMap, order, byBssid);
    }
    assert rows[..|rows|] == rows;
    trajectories := seq(|order|, j requires 0 <= j < |order| => byBssid[order[j]]);
    Assemble(rows, iso, order, byBssid, trajectories);
  }

  /** The dictionary invariant of the grouping loop after `prefix`. */
  ghost predicate Grouped<Time>(prefix: seq<AreaRow<Time>>, iso: Time -> string, order: seq<string>, byBssid: map<string, Trajectory>)
  {
    && order == KeysInOrder(prefix, RowBssid)
    && (forall b :: b in byBssid <==> b in order)
    && forall b :: b in byBssid ==> byBssid[b] == Trajectory(b, PointsOf(Members(prefix, RowBssid, b), iso))
  }

  /** One row of the loop keeps the invariant. */
  lemma GroupStep<Time>(prefix: seq<AreaRow<Time>>, row: AreaRow<Time>, iso: Time -> string,
                        order: seq<string>, byBssid: map<string, Trajectory>,
                        order': seq<string>, byBssid': map<string, Trajectory>)
    requires Grouped(prefix, iso, order, byBssid)
    requires order' == if row.bssid in byBssid then order else order + [row.bssid]
    requires byBssid' == byBssid[row.bssid := Trajectory(row.bssid,
      (if row.bssid in byBssid then byBssid[row.bssid].points else []) + [PointOf(row, iso)])]
    ensures Grouped(prefix + [row], iso, order', byBssid')
  {
    KeysSnoc(prefix, RowBssid, row);
    if row.bssid !in byBssid {
      MembersOfAbsent(prefix, RowBssid, row.bssid);
    }
    TrajectoriesStep(prefix, row, iso, byBssid, byBssid');
  }

  lemma TrajectoriesStep<Time>(prefix: seq<AreaRow<Time>>, row: AreaRow<Time>, iso: Time -> string,
                               byBssid: map<string, Trajectory>, byBssid': map<string, Trajectory>)
    requires forall b :: b in byBssid ==> byBssid[b] == Trajectory(b, PointsOf(Members(prefix, RowBssid, b), iso))
    requires row.bssid !in byBssid ==> Members(prefix, RowBssid, row.bssid) == []
    requires byBssid' == byBssid[row.bssid := Trajectory(row.bssid,
      (if row.bssid in byBssid then byBssid[row.bssid].points else []) + [PointOf(row, iso)])]
    ensures forall b :: b in byBssid' ==> byBssid'[b] == Trajectory(b, PointsOf(Members(prefix + [row], RowBssid, b), iso))
  {
    forall b | b in byBssid'
      ensures byBssid'[b] == Trajectory(b, PointsOf(Members(prefix + [row], RowBssid, b), iso))
    {
      MembersSnoc(prefix, RowBssid, row, b);
      PointsSnoc(Members(prefix, RowBssid, b), row, iso);
    }
  }

  /** `list(trajectories.values())`: the values in key insertion order. */
  lemma Assemble<Time>(rows: seq<AreaRow<Time>>, iso: Time -> string, order: seq<string>,
                       byBssid: map<string, Trajectory>, ts: seq<Trajectory>)
    requires Grouped(rows, iso, order, byBssid)
    requires |ts| == |order| && forall j :: 0 <= j < |order| ==> order[j] in byBssid && ts[j] == byBssid[order[j]]
    ensures ts == TrajectoriesOf(Some(rows), iso)
  {
  }

  lemma PointsSnoc<Time>(rows: seq<AreaRow<Time>>, r: AreaRow<Time>, iso: Time -> string)
    ensures PointsOf(rows + [r], iso) == PointsOf(rows, iso) + [PointOf(r, iso)]
  {
  }

  function TotalPoints(ts: seq<Trajectory>): nat
  {
    if ts == [] then 0 else |ts[0].points| + TotalPoints(ts[1..])
  }

  lemma {:induction false} TotalPointsOfGroups<Time>(rows: seq<AreaRow<Time>>, iso: Time -> string, ks: seq<string>)
    ensures TotalPoints(GroupsOf(rows, iso, ks)) == TotalSize(rows, RowBssid, ks)
  {
    if ks != [] {
      TotalPointsOfGroups(rows, iso, ks[1..]);
      assert GroupsOf(rows, iso, ks)[1..] == GroupsOf(rows, iso, ks[1..]);
    }
  }

  /** One trajectory per distinct BSSID, in order of first appearance, each
      holding exactly that BSSID's rows in row order; together they hold as
      many points as there were rows. */
  lemma TrajectoriesPartitionRows<Time>(rows: seq<AreaRow<Time>>, iso: Time -> string)
    ensures var ts := TrajectoriesOf(Some(rows), iso);
      && (forall a, b :: 0 <= a < b < |ts| ==> ts[a].bssid != ts[b].bssid)
      && (forall i :: 0 <= i < |rows| ==> exists j :: 0 <= j < |ts| && ts[j].bssid == rows[i].bssid)
      && TotalPoints(ts) == |rows|
  {
    var ks := KeysInOrder(rows, RowBssid);
    KeysDistinct(rows, RowBssid);
    GroupsPartition(rows, RowBssid);
    TotalPointsOfGroups(rows, iso, ks);
    var ts := TrajectoriesOf(Some(rows), iso);
    forall i | 0 <= i < |rows| ensures exists j :: 0 <= j < |ts| && ts[j].bssid == rows[i].bssid {
      assert RowBssid(rows[i]) in ks;
      var j :| 0 <= j < |ks| && ks[j] == RowBssid(rows[i]);
      assert ts[j].bssid == rows[i].bssid;
    }
  }

  /** The trajectory points carry `lat` and `lon` and no `latitude` or
      `longitude` key. */
  lemma TrajectoryPointKeys<Time>(results: Option<seq<AreaRow<Time>>>, iso: Time -> string)
    ensures forall t, p :: t in TrajectoriesOf(results, iso) && p in t.points ==>
      LAT_KEY in p && LON_KEY in p && "latitude" !in p && "longitude" !in p
  {
  }

  // ---------------------------------------------------------------------
  // Well-known text

  /** `f"POINT({lon} {lat})"` given the two numbers already formatted:
      longitude first. */
  function Wkt(lonText: string, latText: string): (w: string)
    ensures StartsWith(w, "POINT(") && w[|w| - 1] == ')'
  {
    "POINT(" + lonText + " " + latText + ")"
  }

  /** Reads a `POINT(x y)` text back into its two coordinate texts. */
  function ParseWkt(w: string): Option<(string, string)>
  {
    if |w| >= 7 && StartsWith(w, "POINT(") && w[|w| - 1] == ')' then
      var inner := w[6..|w| - 1];
      var i := FirstIndexFrom(inner, " ", 0);
      if i < |inner| then Some((inner[..i], inner[i + 1..])) else None
    else None
  }

  /** The point text reads back as (longitude, latitude), in that order, as
      long as the longitude's text holds no space (Python's `str` of a float
      never does). */
  lemma WktRoundTrip(lonText: string, latText: string)
    requires Free(lonText, " ")
    ensures ParseWkt(Wkt(lonText, latText)) == Some((lonText, latText))
  {
    var w := Wkt(lonText, latText);
    var inner := w[6..|w| - 1];
    assert inner == lonText + " " + latText;
    forall j: nat | j < |lonText| ensures !OccursAt(inner, " ", j) {
      OccursAtChar(inner, ' ', j);
      OccursAtChar(lonText, ' ', j);
      assert inner[j] == lonText[j];
    }
    OccursAtChar(inner, ' ', |lonText|);
    var i := FirstIndexFrom(inner, " ", 0);
    assert i == |lonText|;
    assert inner[..i] == lonText;
    assert inner[i + 1..] == latText;
  }

  // ---------------------------------------------------------------------
  // insert_tracking_pings

  /** A ping dictionary: `ping.get('lat')` and `ping.get('lon')` may be
      `None`; `ping['bssid']` and `ping['timestamp']` are present. */
  datatype Ping<Time> = Ping(bssid: string, timestamp: Time, lat: Option<real>, lon: Option<real>)

  /** One row for `executemany`: bssid, timestamp, latitude, longitude and
      the location text (`None` becomes SQL NULL). */
  datatype PingRow<Time> = PingRow(bssid: string, timestamp: Time, lat: Option<real>, lon: Option<real>, location: Option<string>)

  /** The row built for a ping; `fmt` is Python's `str` of a float. */
  function PingRowOf<Time>(p: Ping<Time>, fmt: real -> string): (r: PingRow<Time>)
    ensures r.bssid == p.bssid && r.timestamp == p.timestamp && r.lat == p.lat && r.lon == p.lon
    ensures r.location.Some? <==> p.lat.Some? && p.lon.Some?
    ensures r.location.Some? ==> r.location.value == Wkt(fmt(p.lon.value), fmt(p.lat.value))
  {
    var location := if p.lat.Some? && p.lon.Some? then Some(Wkt(fmt(p.lon.value), fmt(p.lat.value))) else None;
    PingRow(p.bssid, p.timestamp, p.lat, p.lon, location)
  }

  /** `insert_tracking_pings`: returns the count it reports and the rows it
      hands to `executemany` (`None` when it returns before touching the
      database). */
  method InsertTrackingPings<Time>(pings: seq<Ping<Time>>, connected: bool, fmt: real -> string)
    returns (count: nat, executed: Option<seq<PingRow<Time>>>)
    ensures pings == [] || !connected ==> count == 0 && executed == None
    ensures pings != [] && connected ==>
      && count == |pings| && executed.Some? && |executed.value| == |pings|
      && forall i :: 0 <= i < |pings| ==> executed.value[i] == PingRowOf(pings[i], fmt)
  {
    if pings == [] {
      return 0, None;
    }
    if !connected {
      return 0, None;
    }
    var insertData: seq<PingRow<Time>> := [];
    for i := 0 to |pings|
      invariant |insertData| == i
      invariant forall k :: 0 <= k < i ==> insertData[k] == PingRowOf(pings[k], fmt)
    {
      var ping := pings[i];
      var lat := ping.lat;
      var lon := ping.lon;
      var pointWkt := if lat.Some? && lon.Some? then Some(Wkt(fmt(lon.value), fmt(lat.value))) else None;
      insertData := insertData + [PingRow(ping.bssid, ping.timestamp, lat, lon, pointWkt)];
    }
    return |pings|, Some(insertData);
  }

  // ---------------------------------------------------------------------
  // process_scraped_data

  /** The dictionary `bssids_with_locs` as its items in insertion order; a
      dictionary's keys are distinct. */
  predicate DistinctKeys<V>(items: seq<(string, V)>)
  {
    forall a, b :: 0 <= a < b < |items| ==> items[a].0 != items[b].0
  }

  /** `process_scraped_data`: the count it returns, the device upserts and the
      ping rows it hands to `executemany` (`None` when it returns early). */
  method ProcessScrapedData<Time>(bssidsWithLocs: seq<(string, (real, real))>, scrapeTimestamp: Time,
                                  connected: bool, fmt: real -> string)
    returns (count: nat, upserts: Option<seq<(string, Time)>>, pings: Option<seq<PingRow<Time>>>)
    requires DistinctKeys(bssidsWithLocs)
    ensures bssidsWithLocs == [] || !connected ==> count == 0 && upserts == None && pings == None
    ensures bssidsWithLocs != [] && connected ==>
      && count == |bssidsWithLocs|
      && upserts.Some? && |upserts.value| == count
      && pings.Some? && |pings.value| == count
      && forall i :: 0 <= i < count ==>
        var (bssid, (lat, lon)) := bssidsWithLocs[i];
        && upserts.value[i] == (bssid, scrapeTimestamp)
        && pings.value[i] == PingRow(bssid, scrapeTimestamp, Some(lat), Some(lon), Some(Wkt(fmt(lon), fmt(lat))))
    ensures pings.Some? ==> forall a, b :: 0 <= a < b < |pings.value| ==> pings.value[a].bssid != pings.value[b].bssid
  {
    if bssidsWithLocs == [] {
      return 0, None, None;
    }
    if !connected {
      return 0, None, None;
    }
    var deviceUpsertData := seq(|bssidsWithLocs|, i requires 0 <= i < |bssidsWithLocs| => (bssidsWithLocs[i].0, scrapeTimestamp));
    var pingInsertData: seq<PingRow<Time>> := [];
    for i := 0 to |bssidsWithLocs|
      invariant |pingInsertData| == i
      invariant forall k :: 0 <= k < i ==>
        var (bssid, (lat, lon)) := bssidsWithLocs[k];
        pingInsertData[k] == PingRow(bssid, scrapeTimestamp, Some(lat), Some(lon), Some(Wkt(fmt(lon), fmt(lat))))
    {
      var (bssid, (lat, lon)) := bssidsWithLocs[i];
      var pointWkt := Wkt(fmt(lon), fmt(lat));
      pingInsertData := pingInsertData + [PingRow(bssid, scrapeTimestamp, Some(lat), Some(lon), Some(pointWkt))];
    }
    return |bssidsWithLocs|, Some(deviceUpsertData), Some(pingInsertData);
  }

  // ---------------------------------------------------------------------
  // get_bssid_for_seeding

  /** `get_bssid_for_seeding`. `countResult` is what `SELECT COUNT(*)`
      fetched (`None` for no row), `randint` is `random.randint` (inclusive
      at both ends) and `bssidAt(offset)` the row fetched at that offset.
      Returns the BSSID and the offset drawn, if any. */
  method GetBssidForSeeding(connected: bool, countResult: Option<int>, randint: (int, int) -> int,
                            bssidAt: int -> Option<string>)
    returns (bssid: Option<string>, offset: Option<int>)
    requires forall a, b :: a <= b ==> a <= randint(a, b) <= b
    ensures !connected || countResult.None? || countResult.value == 0 ==> bssid == None && offset == None
    ensures connected && countResult.Some? && countResult.value != 0 ==>
      offset == Some(randint(0, countResult.value - 1)) && bssid == bssidAt(offset.value)
    ensures connected && countResult.Some? && countResult.value > 0 ==>
      0 <= offset.value <= countResult.value - 1
  {
    if !connected {
      return None, None;
    }
    if countResult.None? || countResult.value == 0 {
      return None, None;
    }
    var count := countResult.value;
    var drawn := randint(0, count - 1);
    var result := bssidAt(drawn);
    return result, Some(drawn);
  }

  // ---------------------------------------------------------------------
  // get_latest_pings_for_bssids

  /** A row of the latest-ping query: `bssid, lat, lon`. */
  datatype LatestRow = LatestRow(bssid: string, lat: real, lon: real)

  /** The dictionary comprehension over the rows: a later row for the same
      BSSID would replace an earlier one. */
  function LatestByBssid(rows: seq<LatestRow>): (m: map<string, (real, real)>)
    ensures forall i :: 0 <= i < |rows| ==> rows[i].bssid in m
    ensures forall b :: b in m ==> exists i :: 0 <= i < |rows| && rows[i].bssid == b && m[b] == (rows[i].lat, rows[i].lon)
  {
    if rows == [] then map[]
    else
      var init := rows[..|rows| - 1];
      var r := rows[|rows| - 1];
      assert forall i :: 0 <= i < |init| ==> init[i] == rows[i];
      LatestByBssid(init)[r.bssid := (r.lat, r.lon)]
  }

  /** `get_latest_pings_for_bssids`: an empty list of BSSIDs gives `{}`
      whatever the database holds; so does a missing connection. `query` is
      what the query returns. */
  function LatestPingsForBssids(bssids: seq<string>, connected: bool, query: seq<LatestRow>): (m: map<string, (real, real)>)
    ensures bssids == [] || !connected ==> m == map[]
    ensures bssids != [] && connected ==> m.Keys == set i | 0 <= i < |query| :: query[i].bssid
  {
    if bssids == [] then map[]
    else if !connected then map[]
    else LatestByBssid(query)
  }
}
