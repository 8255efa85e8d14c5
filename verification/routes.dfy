/** The REST rules of backend/app/api/routes.py: validation of the pagination
    arguments of `GET /devices` and the metadata and links of its response;
    `check_if_static`; and the static filter of `GET /trajectories`.

    The database queries, Flask's request and response objects, `url_for`
    and the geodesic distance are not part of this model: query results and
    the distance are parameters, and a link is the pair of numbers the URL
    carries. */
module Routes {
  import opened Wrappers
  import opened Strings
  import opened Sublists
  import opened Queries

  /** An error response: its HTTP status and the text of its `error` field. */
  datatype HttpError = HttpError(status: nat, message: string)

  const INTERNAL_ERROR: HttpError := HttpError(500, "Internal server error")

  // ---------------------------------------------------------------------
  // Pagination of GET /devices

  const DEFAULT_LIMIT: int := 100
  const DEFAULT_OFFSET: int := 0

  /** A query-string argument as `int(request.args.get(name, default))` sees
      it: absent (the default is used), the text of an integer, or text that
      makes `int` raise `ValueError`. */
  datatype Arg = Absent | Integer(n: int) | NotAnInteger

  function ArgValue(a: Arg, default: int): Option<int>
  {
    match a
    case Absent => Some(default)
    case Integer(n) => Some(n)
    case NotAnInteger => None
  }

  /** Lines 27-33: both arguments must be integers (checked first), then the
      limit positive and the offset non-negative. */
  function ParsePagination(limitArg: Arg, offsetArg: Arg): (r: Result<(int, int), HttpError>)
    ensures var limit, offset := ArgValue(limitArg, DEFAULT_LIMIT), ArgValue(offsetArg, DEFAULT_OFFSET);
      && (r.Success? <==> limit.Some? && offset.Some? && limit.value > 0 && offset.value >= 0)
      && (r.Success? ==> r.value == (limit.value, offset.value))
      && (r.Failure? ==> r.error.status == 400)
      && (r.Failure? ==>
            (r.error.message == "Invalid limit or offset. Must be integers." <==> limit.None? || offset.None?))
  {
    var limit := ArgValue(limitArg, DEFAULT_LIMIT);
    var offset := ArgValue(offsetArg, DEFAULT_OFFSET);
    if limit.None? || offset.None? then
      Failure(HttpError(400, "Invalid limit or offset. Must be integers."))
    else if limit.value <= 0 || offset.value < 0 then
      Failure(HttpError(400, "Limit must be positive and offset must be non-negative."))
    else
      Success((limit.value, offset.value))
  }

  /** Without arguments a page is the first 100 devices. */
  lemma DefaultPagination()
    ensures ParsePagination(Absent, Absent) == Success((100, 0))
  {
  }

  /** `url_for('api.list_all_devices', limit=..., offset=...)`: the numbers
      the link carries. */
  datatype Link = Link(limit: int, offset: int)

  function Max(a: int, b: int): int { if a >= b then a else b }

  /** The offset of the next page, when there are devices after this page. */
  function NextOffset(limit: int, offset: int, total: int): Option<int>
  {
    if offset + limit < total then Some(offset + limit) else None
  }

  /** The offset of the previous page, when this page does not start at 0. */
  function PrevOffset(limit: int, offset: int): (r: Option<int>)
    requires limit > 0
    ensures r.Some? ==> 0 <= r.value < offset
  {
    if offset > 0 then Some(Max(0, offset - limit)) else None
  }

  /** Following `next` and then `prev` comes back to the same page. */
  lemma NextThenPrev(limit: int, offset: int, total: int)
    requires limit > 0 && offset >= 0 && NextOffset(limit, offset, total).Some?
    ensures PrevOffset(limit, NextOffset(limit, offset, total).value) == Some(offset)
  {
  }

  /** Following `prev` from a page that starts at a multiple of the limit
      (or at least one full page in) and then `next` comes back too. */
  lemma PrevThenNext(limit: int, offset: int, total: int)
    requires limit > 0 && offset >= limit && offset < total
    ensures PrevOffset(limit, offset).Some?
    ensures NextOffset(limit, PrevOffset(limit, offset).value, total) == Some(offset)
  {
  }

  /** What the `links` dictionary holds: always `self`; `next` exactly when
      devices remain after this page; `prev` exactly when the page does not
      start at 0, never with a negative offset. */
  predicate LinksFor(links: map<string, Link>, limit: int, offset: int, total: int)
    requires limit > 0
  {
    && links.Keys <= {"self", "next", "prev"}
    && "self" in links && links["self"] == Link(limit, offset)
    && ("next" in links <==> NextOffset(limit, offset, total).Some?)
    && ("next" in links ==> links["next"] == Link(limit, NextOffset(limit, offset, total).value))
    && ("prev" in links <==> PrevOffset(limit, offset).Some?)
    && ("prev" in links ==> links["prev"] == Link(limit, PrevOffset(limit, offset).value))
  }

  /** Lines 45-53: the links dictionary, filled one entry at a time. */
  method BuildLinks(limit: int, offset: int, total: int) returns (links: map<string, Link>)
    requires limit > 0 && offset >= 0
    ensures LinksFor(links, limit, offset, total)
    ensures "next" in links ==> links["next"].offset == offset + limit < total
    ensures "prev" in links ==> 0 <= links["prev"].offset < offset
  {
    links := map[];
    links := links["self" := Link(limit, offset)];
    if offset + limit < total {
      links := links["next" := Link(limit, offset + limit)];
    }
    if offset > 0 {
      var prevOffset := Max(0, offset - limit);
      links := links["prev" := Link(limit, prevOffset)];
    }
  }

  /** `(offset // limit) + 1`: the page the offset falls in, counting from 1. */
  function Page(limit: int, offset: int): (p: int)
    requires limit > 0 && offset >= 0
    ensures p >= 1
    ensures (p - 1) * limit <= offset < p * limit
  {
    offset / limit + 1
  }

  /** `math.ceil(total / limit) if limit > 0 else 0`, in integer arithmetic:
      the fewest pages of `limit` devices that hold all `total` of them. */
  function Pages(limit: int, total: int): (n: int)
    requires total >= 0
    ensures n >= 0
    ensures limit > 0 && total > 0 ==> (n - 1) * limit < total <= n * limit
    ensures total == 0 ==> n == 0
  {
    if limit > 0 then
      var n := (total + limit - 1) / limit;
      assert total + limit - 1 == n * limit + (total + limit - 1) % limit;
      n
    else 0
  }

  /** A page that starts inside the collection is one of the pages. */
  lemma PageWithinPages(limit: int, offset: int, total: int)
    requires limit > 0 && 0 <= offset < total
    ensures 1 <= Page(limit, offset) <= Pages(limit, total)
  {
    var p, n := Page(limit, offset), Pages(limit, total);
    if p > n {
      MulMonotone(n, p - 1, limit);
    }
  }

  lemma MulMonotone(a: int, b: int, c: int)
    requires a <= b && c >= 0
    ensures a * c <= b * c
  {
  }

  datatype Pagination = Pagination(total: int, limit: int, offset: int, page: int, pages: int, links: map<string, Link>)

  /** A cell of a device row from `get_all_devices`: a plain value, or a
      `datetime` (of the abstract type `Time`). */
  datatype Cell<Time> = Plain(v: Value) | Stamp(t: Time)

  type DeviceRow<Time> = map<string, Cell<Time>>

  const FIRST_SEEN_KEY: string := "first_seen_at"
  const LAST_SEEN_KEY: string := "last_seen_at"

  /** `d['first_seen_at'].isoformat()` and `d['last_seen_at'].isoformat()`
      both succeed: the keys are there and hold datetimes. */
  predicate Serializable<Time>(d: DeviceRow<Time>)
  {
    && FIRST_SEEN_KEY in d && d[FIRST_SEEN_KEY].Stamp?
    && LAST_SEEN_KEY in d && d[LAST_SEEN_KEY].Stamp?
  }

  /** `{**d, 'first_seen_at': ….isoformat(), 'last_seen_at': ….isoformat()}`;
      `iso` is `datetime.isoformat`. */
  function SerializeDevice<Time>(d: DeviceRow<Time>, iso: Time -> string): (r: DeviceRow<Time>)
    requires Serializable(d)
    ensures r.Keys == d.Keys
    ensures r[FIRST_SEEN_KEY] == Plain(Text(iso(d[FIRST_SEEN_KEY].t)))
    ensures r[LAST_SEEN_KEY] == Plain(Text(iso(d[LAST_SEEN_KEY].t)))
    ensures forall k :: k in d && k != FIRST_SEEN_KEY && k != LAST_SEEN_KEY ==> r[k] == d[k]
  {
    d[FIRST_SEEN_KEY := Plain(Text(iso(d[FIRST_SEEN_KEY].t)))][LAST_SEEN_KEY := Plain(Text(iso(d[LAST_SEEN_KEY].t)))]
  }

  /** The comprehension over `data['devices']`: `None` when some row's
      timestamp is missing or is not a datetime (a `KeyError` or an
      `AttributeError`, which the handler turns into a 500). */
  function SerializeDevices<Time>(ds: seq<DeviceRow<Time>>, iso: Time -> string): (r: Option<seq<DeviceRow<Time>>>)
    ensures r.Some? <==> forall i :: 0 <= i < |ds| ==> Serializable(ds[i])
    ensures r.Some? ==> |r.value| == |ds| && forall i :: 0 <= i < |ds| ==> r.value[i] == SerializeDevice(ds[i], iso)
  {
    if ds == [] then Some([])
    else if !Serializable(ds[0]) then None
    else match SerializeDevices(ds[1..], iso)
      case None => None
      case Some(rest) => Some([SerializeDevice(ds[0], iso)] + rest)
  }

  /** What `get_all_devices` returns: the device count and one page of
      device rows. */
  datatype DevicesQuery<Time> = DevicesQuery(total: nat, devices: seq<DeviceRow<Time>>)

  datatype DevicesResponse<Time> = DevicesError(error: HttpError) | DevicesPage(data: seq<DeviceRow<Time>>, pagination: Pagination)

  /** `list_all_devices`. `query(limit, offset)` is the database call; `None`
      stands for an exception, which becomes a 500, as does a device row
      whose timestamps cannot be formatted. */
  method ListAllDevices<Time>(limitArg: Arg, offsetArg: Arg, query: (int, int) -> Option<DevicesQuery<Time>>,
                              iso: Time -> string)
    returns (response: DevicesResponse<Time>)
    ensures ParsePagination(limitArg, offsetArg).Failure? ==>
      response == DevicesError(ParsePagination(limitArg, offsetArg).error)
    ensures ParsePagination(limitArg, offsetArg).Success? ==>
      var limit, offset := ParsePagination(limitArg, offsetArg).value.0, ParsePagination(limitArg, offsetArg).value.1;
      && (query(limit, offset).None? ==> response == DevicesError(INTERNAL_ERROR))
      && (query(limit, offset).Some? && SerializeDevices(query(limit, offset).value.devices, iso).None? ==>
            response == DevicesError(INTERNAL_ERROR))
      && (query(limit, offset).Some? && SerializeDevices(query(limit, offset).value.devices, iso).Some? ==>
            var q := query(limit, offset).value;
            && response.DevicesPage? && response.data == SerializeDevices(q.devices, iso).value
            && response.pagination.total == q.total
            && response.pagination.limit == limit && response.pagination.offset == offset
            && response.pagination.page == Page(limit, offset)
            && response.pagination.pages == Pages(limit, q.total)
            && LinksFor(response.pagination.links, limit, offset, q.total))
  {
    var parsed := ParsePagination(limitArg, offsetArg);
    if parsed.Failure? {
      return DevicesError(parsed.error);
    }
    var (limit, offset) := parsed.value;
    var data := query(limit, offset);
    if data.None? {
      return DevicesError(INTERNAL_ERROR);
    }
    var totalDevices := data.value.total;
    var devices := SerializeDevices(data.value.devices, iso);
    if devices.None? {
      return DevicesError(INTERNAL_ERROR);
    }
    var links := BuildLinks(limit, offset, totalDevices);
    var pagination := Pagination(totalDevices, limit, offset, Page(limit, offset), Pages(limit, totalDevices), links);
    response := DevicesPage(devices.value, pagination);
  }

  // ---------------------------------------------------------------------
  // check_if_static

  /** The `KeyError` raised by `row[key]` on a missing key. */
  datatype KeyError = KeyError(key: string)

  /** The keys `check_if_static` reads as written. */
  const SOURCE_LAT_KEY: string := "latitude"
  const SOURCE_LON_KEY: string := "longitude"

  const DISTANCE_THRESHOLD_METERS: real := 10.0

  /** A point as `(row[latKey], row[lonKey])`, the latitude read first. */
  function PointOf(row: Row, latKey: string, lonKey: string): (r: Result<(Value, Value), KeyError>)
    ensures r.Success? <==> latKey in row && lonKey in row
    ensures r.Success? ==> r.value == (row[latKey], row[lonKey])
    ensures r.Failure? ==> r.error == KeyError(if latKey !in row then latKey else lonKey)
  {
    if latKey !in row then Failure(KeyError(latKey))
    else if lonKey !in row then Failure(KeyError(lonKey))
    else Success((row[latKey], row[lonKey]))
  }

  predicate HasKeys(rows: seq<Row>, latKey: string, lonKey: string)
  {
    forall i :: 0 <= i < |rows| ==> latKey in rows[i] && lonKey in rows[i]
  }

  /** The reference definition: fewer than two points is static; otherwise
      every later point lies within 10 metres (inclusive) of the FIRST
      point. Distances between consecutive points play no part. */
  predicate IsStatic(rows: seq<Row>, latKey: string, lonKey: string, distance: ((Value, Value), (Value, Value)) -> real)
    requires HasKeys(rows, latKey, lonKey)
  {
    |rows| < 2 ||
    forall i :: 1 <= i < |rows| ==>
      distance((rows[0][latKey], rows[0][lonKey]), (rows[i][latKey], rows[i][lonKey])) <= DISTANCE_THRESHOLD_METERS
  }

  /** The loop from point `i` on, measuring each point against `first`. */
  function StaticFrom(rows: seq<Row>, latKey: string, lonKey: string,
                      distance: ((Value, Value), (Value, Value)) -> real, first: (Value, Value), i: nat): Result<bool, KeyError>
    requires i <= |rows|
    decreases |rows| - i
  {
    if i == |rows| then Success(true)
    else match PointOf(rows[i], latKey, lonKey)
      case Failure(e) => Failure(e)
      case Success(p) =>
        if distance(first, p) > DISTANCE_THRESHOLD_METERS then Success(false)
        else StaticFrom(rows, latKey, lonKey, distance, first, i + 1)
  }

  /** What `check_if_static` returns, or the `KeyError` it raises, when it
      reads the coordinates under `latKey` and `lonKey`. */
  function StaticVerdict(rows: seq<Row>, latKey: string, lonKey: string,
                         distance: ((Value, Value), (Value, Value)) -> real): Result<bool, KeyError>
  {
    if |rows| < 2 then Success(true)
    else match PointOf(rows[0], latKey, lonKey)
      case Failure(e) => Failure(e)
      case Success(first) => StaticFrom(rows, latKey, lonKey, distance, first, 1)
  }

  /** On rows that carry the keys, the loop computes the reference
      definition. */
  lemma {:induction false} StaticFromIsStatic(rows: seq<Row>, latKey: string, lonKey: string,
                                              distance: ((Value, Value), (Value, Value)) -> real, i: nat)
    requires 1 <= i <= |rows| && HasKeys(rows, latKey, lonKey)
    ensures StaticFrom(rows, latKey, lonKey, distance, (rows[0][latKey], rows[0][lonKey]), i) ==
      Success(forall j :: i <= j < |rows| ==>
        distance((rows[0][latKey], rows[0][lonKey]), (rows[j][latKey], rows[j][lonKey])) <= DISTANCE_THRESHOLD_METERS)
    decreases |rows| - i
  {
    if i < |rows| {
      StaticFromIsStatic(rows, latKey, lonKey, distance, i + 1);
    }
  }

  lemma StaticVerdictIsStatic(rows: seq<Row>, latKey: string, lonKey: string,
                              distance: ((Value, Value), (Value, Value)) -> real)
    requires HasKeys(rows, latKey, lonKey)
    ensures StaticVerdict(rows, latKey, lonKey, distance) == Success(IsStatic(rows, latKey, lonKey, distance))
  {
    if |rows| >= 2 {
      StaticFromIsStatic(rows, latKey, lonKey, distance, 1);
    }
  }

  /** `check_if_static` reading the coordinates under `latKey` and `lonKey`:
      an early-exit loop over the points after the first. */
  method CheckIfStatic(rows: seq<Row>, latKey: string, lonKey: string,
                       distance: ((Value, Value), (Value, Value)) -> real)
    returns (r: Result<bool, KeyError>)
    ensures r == StaticVerdict(rows, latKey, lonKey, distance)
    ensures HasKeys(rows, latKey, lonKey) ==> r == Success(IsStatic(rows, latKey, lonKey, distance))
  {
    if HasKeys(rows, latKey, lonKey) {
      StaticVerdictIsStatic(rows, latKey, lonKey, distance);
    }
    if |rows| < 2 {
      return Success(true);
    }
    var firstPoint := PointOf(rows[0], latKey, lonKey);
    if firstPoint.Failure? {
      return Failure(firstPoint.error);
    }
    var i := 1;
    while i < |rows|
      invariant 1 <= i <= |rows|
      invariant StaticVerdict(rows, latKey, lonKey, distance) ==
        StaticFrom(rows, latKey, lonKey, distance, firstPoint.value, i)
    {
      var currentPoint := PointOf(rows[i], latKey, lonKey);
      if currentPoint.Failure? {
        return Failure(currentPoint.error);
      }
      var d := distance(firstPoint.value, currentPoint.value);
      if d > DISTANCE_THRESHOLD_METERS {
        return Success(false);
      }
      i := i + 1;
    }
    return Success(true);
  }

  /** As written, `check_if_static` reads `latitude`/`longitude`, which the
      rows do not carry: any trajectory of two or more points raises
      `KeyError('latitude')`. */
  lemma AsWrittenRaisesOnQueryRows(rows: seq<Row>, distance: ((Value, Value), (Value, Value)) -> real)
    requires |rows| >= 2 && HasKeys(rows, LAT_KEY, LON_KEY)
    requires forall i :: 0 <= i < |rows| ==> SOURCE_LAT_KEY !in rows[i]
    ensures StaticVerdict(rows, SOURCE_LAT_KEY, SOURCE_LON_KEY, distance) == Failure(KeyError("latitude"))
  {
  }

  // ---------------------------------------------------------------------
  // The static filter of GET /trajectories

  /** `request.args.get('is_static', 'false').lower() == 'true'`. */
  function StaticRequested(arg: Option<string>): (b: bool)
    ensures arg.None? ==> !b
    ensures arg.Some? && arg.value == "true" ==> b
    ensures b <==> arg.Some? && |arg.value| == 4 && forall i :: 0 <= i < 4 ==> LowerChar(arg.value[i]) == "true"[i]
  {
    var text := if arg.Some? then arg.value else "false";
    assert |Lower(text)| == |text| && forall i :: 0 <= i < |text| ==> Lower(text)[i] == LowerChar(text[i]);
    Lower(text) == "true"
  }

  /** Any capitalisation of `true` asks for the filter. */
  lemma StaticRequestedIgnoresCase(s: string)
    requires |s| == 4 && forall i :: 0 <= i < 4 ==> LowerChar(s[i]) == "true"[i]
    ensures StaticRequested(Some(s))
  {
    assert Lower(s) == "true";
  }

  predicate IsStaticTrajectory(t: Trajectory, distance: ((Value, Value), (Value, Value)) -> real)
  {
    HasKeys(t.points, LAT_KEY, LON_KEY) && IsStatic(t.points, LAT_KEY, LON_KEY, distance)
  }

  /** The filter's condition as a function value. */
  function StaticKeep(distance: ((Value, Value), (Value, Value)) -> real): Trajectory -> bool
  {
    t => IsStaticTrajectory(t, distance)
  }

  /** `[t for t in trajectories if check_if_static(t['trajectory'])]`, with
      `check_if_static` reading the coordinates under `latKey` and `lonKey`;
      the comprehension stops at the first `KeyError`. */
  function FilterStaticBy(ts: seq<Trajectory>, latKey: string, lonKey: string,
                          distance: ((Value, Value), (Value, Value)) -> real): Result<seq<Trajectory>, KeyError>
  {
    if ts == [] then Success([])
    else match StaticVerdict(ts[0].points, latKey, lonKey, distance)
      case Failure(e) => Failure(e)
      case Success(keep) =>
        match FilterStaticBy(ts[1..], latKey, lonKey, distance)
        case Failure(e) => Failure(e)
        case Success(rest) => Success(if keep then [ts[0]] + rest else rest)
  }

  /** The filter reading the keys the rows carry. */
  function FilterStatic(ts: seq<Trajectory>, distance: ((Value, Value), (Value, Value)) -> real): Result<seq<Trajectory>, KeyError>
  {
    FilterStaticBy(ts, LAT_KEY, LON_KEY, distance)
  }

  /** As written, the filter raises as soon as it reaches a trajectory of two
      or more points, so the endpoint answers 500 whenever such a trajectory
      is in the area. */
  lemma {:induction false} AsWrittenFilterRaises(ts: seq<Trajectory>, k: nat,
                                                 distance: ((Value, Value), (Value, Value)) -> real)
    requires k < |ts| && |ts[k].points| >= 2
    requires forall i :: 0 <= i < |ts| ==> HasKeys(ts[i].points, LAT_KEY, LON_KEY)
    requires forall i, j :: 0 <= i < |ts| && 0 <= j < |ts[i].points| ==> SOURCE_LAT_KEY !in ts[i].points[j]
    ensures FilterStaticBy(ts, SOURCE_LAT_KEY, SOURCE_LON_KEY, distance) == Failure(KeyError("latitude"))
    decreases k
  {
    if |ts[0].points| >= 2 {
      AsWrittenRaisesOnQueryRows(ts[0].points, distance);
    } else {
      var rest := ts[1..];
      assert k > 0;
      assert forall i :: 0 <= i < |rest| ==> rest[i] == ts[i + 1];
      AsWrittenFilterRaises(rest, k - 1, distance);
    }
  }

  /** On rows that carry their coordinates, the filter is the order-keeping
      sublist of the static trajectories. */
  lemma {:induction false} FilterStaticIsFilter(ts: seq<Trajectory>, distance: ((Value, Value), (Value, Value)) -> real)
    requires forall i :: 0 <= i < |ts| ==> HasKeys(ts[i].points, LAT_KEY, LON_KEY)
    ensures FilterStatic(ts, distance) == Success(Filter(ts, StaticKeep(distance)))
  {
    if ts != [] {
      var keep := StaticKeep(distance);
      var rest := ts[1..];
      assert forall i :: 0 <= i < |rest| ==> rest[i] == ts[i + 1];
      FilterStaticIsFilter(rest, distance);
      var head := if keep(ts[0]) then [ts[0]] else [];
      calc {
        FilterStatic(ts, distance);
        { FilterStaticStep(ts, distance); }
        Success(head + Filter(rest, keep));
        { FilterCons(ts[0], rest, keep); }
        Success(Filter([ts[0]] + rest, keep));
        { assert [ts[0]] + rest == ts; }
        Success(Filter(ts, keep));
      }
    }
  }

  lemma FilterStaticStep(ts: seq<Trajectory>, distance: ((Value, Value), (Value, Value)) -> real)
    requires ts != [] && HasKeys(ts[0].points, LAT_KEY, LON_KEY)
    requires FilterStatic(ts[1..], distance).Success?
    ensures FilterStatic(ts, distance) ==
      Success((if StaticKeep(distance)(ts[0]) then [ts[0]] else []) + FilterStatic(ts[1..], distance).value)
  {
    var v := StaticVerdict(ts[0].points, LAT_KEY, LON_KEY, distance);
    StaticVerdictIsStatic(ts[0].points, LAT_KEY, LON_KEY, distance);
    var b := IsStaticTrajectory(ts[0], distance);
    assert v == Success(b);
    assert StaticKeep(distance)(ts[0]) == b;
    var rest := FilterStatic(ts[1..], distance).value;
    assert FilterStatic(ts, distance) == Success(if b then [ts[0]] + rest else rest);
    assert [] + rest == rest;
  }

  /** `get_filtered_trajectories` from line 131 on: `query` is the result of
      `get_trajectories_in_area` (`None` for an exception); the filter runs
      only when asked for, and an exception in it becomes a 500. The filter
      reads the `lat`/`lon` keys the rows carry, which is the intended
      version: as written, `check_if_static` reads `latitude`, see
      `AsWrittenFilterRaises`. */
  function FilteredTrajectories(isStaticArg: Option<string>, query: Option<seq<Trajectory>>,
                                distance: ((Value, Value), (Value, Value)) -> real): (r: Result<seq<Trajectory>, HttpError>)
    ensures query.None? ==> r == Failure(INTERNAL_ERROR)
    ensures query.Some? && !StaticRequested(isStaticArg) ==> r == Success(query.value)
  {
    match query
    case None => Failure(INTERNAL_ERROR)
    case Some(trajectories) =>
      if StaticRequested(isStaticArg) then
        match FilterStatic(trajectories, distance)
        case Failure(_) => Failure(INTERNAL_ERROR)
        case Success(kept) => Success(kept)
      else Success(trajectories)
  }

  /** With the filter on, the response holds exactly the static trajectories,
      in the order of the query. */
  lemma FilteredTrajectoriesAreStatic(isStaticArg: Option<string>, ts: seq<Trajectory>,
                                      distance: ((Value, Value), (Value, Value)) -> real)
    requires StaticRequested(isStaticArg)
    requires forall i :: 0 <= i < |ts| ==> HasKeys(ts[i].points, LAT_KEY, LON_KEY)
    ensures FilteredTrajectories(isStaticArg, Some(ts), distance) == Success(Filter(ts, StaticKeep(distance)))
  {
    FilterStaticIsFilter(ts, distance);
  }
}
