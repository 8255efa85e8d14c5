/** The web front end's API client: the base URL, the request URL and error
    rule of `apiRequest`, and the query strings that
    `getMovementTrajectories`, `getMovementTimeRange` and `getDevices` build.
    Query strings follow the application/x-www-form-urlencoded serializer of
    the WHATWG URL Standard (section 5.2), which `URLSearchParams.toString`
    implements; `set` follows the `URLSearchParams` interface of the same
    standard (section 6.2).

    `fetch` is a parameter mapping a URL to how the request went, and
    `Number.prototype.toString` on a coordinate is the parameter `show`. */
module ApiClient {
  import opened Wrappers
  import opened Strings

  const DEFAULT_BASE_URL := "http://127.0.0.1:5001"
  const API_PATH := "/api"
  const REQUEST_FAILED := "API request failed: "
  const TRAJECTORIES_PATH := "/movement/trajectories?"
  const TIME_RANGE_ENDPOINT := "/movement/time-range"
  const DEVICES_PATH := "/devices?"
  const DEFAULT_LIMIT := 100
  const DEFAULT_OFFSET := 0
  const METERS_PER_KILOMETER: real := 1000.0

  /** `process.env.NEXT_PUBLIC_API_URL || default`: an unset or empty
      variable gives the default. */
  function BaseUrl(env: Option<string>): (r: string)
    ensures r != []
    ensures env.Some? && env.value != [] ==> r == env.value
  {
    if env.Some? && env.value != [] then env.value else DEFAULT_BASE_URL
  }

  // ----- integers as text -----

  function DigitChar(d: nat): char
    requires d < 10
  {
    ('0' as int + d) as char
  }

  function Digits(n: nat): (r: string)
    ensures r != []
    ensures forall i :: 0 <= i < |r| ==> '0' <= r[i] <= '9'
    decreases n
  {
    if n < 10 then [DigitChar(n)] else Digits(n / 10) + [DigitChar(n % 10)]
  }

  /** `Number.prototype.toString` on an integer. */
  function Decimal(n: int): string
  {
    if n < 0 then "-" + Digits(-n) else Digits(n)
  }

  function DigitsValue(s: string): int
  {
    if s == [] then 0 else DigitsValue(s[..|s| - 1]) * 10 + (s[|s| - 1] as int - '0' as int)
  }

  /** Reading a decimal integer back. */
  function ParseDecimal(s: string): int
  {
    if s != [] && s[0] == '-' then -DigitsValue(s[1..]) else DigitsValue(s)
  }

  lemma {:induction false} DigitsValueOf(n: nat)
    ensures DigitsValue(Digits(n)) == n
    decreases n
  {
    if n >= 10 {
      DigitsValueOf(n / 10);
      var d := Digits(n / 10) + [DigitChar(n % 10)];
      assert d[..|d| - 1] == Digits(n / 10);
    }
  }

  /** The text of an integer reads back as that integer. */
  lemma DecimalRoundTrip(n: int)
    ensures ParseDecimal(Decimal(n)) == n
  {
    if n < 0 {
      DigitsValueOf(-n);
      assert ("-" + Digits(-n))[1..] == Digits(-n);
    } else {
      DigitsValueOf(n);
    }
  }

  // ----- UTF-8 -----

  /** The UTF-8 encoding of one character: one byte below 0x80, otherwise a
      lead byte of at least 0xC0 followed by continuation bytes in
      [0x80, 0xC0). */
  function Utf8(c: char): (bytes: seq<nat>)
    ensures 1 <= |bytes| <= 4
    ensures forall i :: 0 <= i < |bytes| ==> bytes[i] < 256
    ensures c as int < 0x80 ==> bytes == [c as int]
    ensures c as int >= 0x80 ==> bytes[0] >= 0xC0 && forall i :: 1 <= i < |bytes| ==> 0x80 <= bytes[i] < 0xC0
  {
    var cp := c as int;
    if cp < 0x80 then [cp]
    else if cp < 0x800 then [0xC0 + cp / 0x40, 0x80 + cp % 0x40]
    else if cp < 0x1_0000 then [0xE0 + cp / 0x1000, 0x80 + cp / 0x40 % 0x40, 0x80 + cp % 0x40]
    else [0xF0 + cp / 0x4_0000, 0x80 + cp / 0x1000 % 0x40, 0x80 + cp / 0x40 % 0x40, 0x80 + cp % 0x40]
  }

  function Utf8String(s: string): (bytes: seq<nat>)
    ensures forall i :: 0 <= i < |bytes| ==> bytes[i] < 256
  {
    if s == [] then [] else Utf8(s[0]) + Utf8String(s[1..])
  }

  // ----- application/x-www-form-urlencoded -----

  /** Bytes the serializer keeps as they are: `*`, `-`, `.`, digits, ASCII
      letters and `_`. */
  predicate IsSafeByte(b: nat)
  {
    b == 0x2A || b == 0x2D || b == 0x2E || 0x30 <= b <= 0x39 || 0x41 <= b <= 0x5A || b == 0x5F || 0x61 <= b <= 0x7A
  }

  predicate IsSafeText(s: string)
  {
    forall i :: 0 <= i < |s| ==> IsSafeByte(s[i] as int)
  }

  function HexDigit(d: nat): char
    requires d < 16
  {
    if d < 10 then ('0' as int + d) as char else ('A' as int + d - 10) as char
  }

  predicate IsHex(c: char)
  {
    '0' <= c <= '9' || 'A' <= c <= 'F' || 'a' <= c <= 'f'
  }

  function HexValue(c: char): nat
    requires IsHex(c)
  {
    if '0' <= c <= '9' then c as int - '0' as int
    else if 'A' <= c <= 'F' then c as int - 'A' as int + 10
    else c as int - 'a' as int + 10
  }

  /** One byte: a space becomes `+`, a safe byte stays, any other becomes
      `%` and two upper-case hex digits. */
  function EncodeByte(b: nat): string
    requires b < 256
  {
    if b == 0x20 then "+"
    else if IsSafeByte(b) then [b as char]
    else ['%', HexDigit(b / 16), HexDigit(b % 16)]
  }

  function EncodeBytes(bytes: seq<nat>): string
    requires forall i :: 0 <= i < |bytes| ==> bytes[i] < 256
  {
    if bytes == [] then [] else EncodeByte(bytes[0]) + EncodeBytes(bytes[1..])
  }

  /** The serialized form of a name or a value. */
  function FormEncode(s: string): string
  {
    EncodeBytes(Utf8String(s))
  }

  /** The bytes the form-urlencoded parser reads from a name or value: `+`
      is a space, `%` with two hex digits is one byte, any other character
      stands for its UTF-8 bytes. */
  function DecodeBytes(s: string): seq<nat>
    decreases |s|
  {
    if s == [] then []
    else if s[0] == '+' then [0x20] + DecodeBytes(s[1..])
    else if s[0] == '%' && |s| >= 3 && IsHex(s[1]) && IsHex(s[2]) then
      [HexValue(s[1]) * 16 + HexValue(s[2])] + DecodeBytes(s[3..])
    else Utf8(s[0]) + DecodeBytes(s[1..])
  }

  lemma DecodeEncodedByte(b: nat, rest: string)
    requires b < 256
    ensures DecodeBytes(EncodeByte(b) + rest) == [b] + DecodeBytes(rest)
  {
    var s := EncodeByte(b) + rest;
    if b == 0x20 {
      assert s[1..] == rest;
    } else if IsSafeByte(b) {
      assert s[0] == b as char && s[1..] == rest;
    } else {
      assert s[0] == '%' && s[3..] == rest;
      assert HexValue(HexDigit(b / 16)) == b / 16;
      assert HexValue(HexDigit(b % 16)) == b % 16;
    }
  }

  /** Parsing the serialized bytes gives the bytes back. */
  lemma {:induction false} DecodeEncodeBytes(bytes: seq<nat>)
    requires forall i :: 0 <= i < |bytes| ==> bytes[i] < 256
    ensures DecodeBytes(EncodeBytes(bytes)) == bytes
  {
    if bytes != [] {
      DecodeEncodeBytes(bytes[1..]);
      DecodeEncodedByte(bytes[0], EncodeBytes(bytes[1..]));
    }
  }

  /** A name or value reads back as its UTF-8 bytes. */
  lemma FormRoundTrip(s: string)
    ensures DecodeBytes(FormEncode(s)) == Utf8String(s)
  {
    DecodeEncodeBytes(Utf8String(s));
  }

  /** The serialized form holds neither `&` nor `=`, the two characters that
      delimit a query string. */
  lemma {:induction false} EncodeBytesPlain(bytes: seq<nat>)
    requires forall i :: 0 <= i < |bytes| ==> bytes[i] < 256
    ensures '&' !in EncodeBytes(bytes) && '=' !in EncodeBytes(bytes)
  {
    if bytes != [] {
      EncodeBytesPlain(bytes[1..]);
      var b := bytes[0];
      assert '&' !in EncodeByte(b) && '=' !in EncodeByte(b) by {
        if !IsSafeByte(b) && b != 0x20 {
          assert EncodeByte(b) == ['%', HexDigit(b / 16), HexDigit(b % 16)];
        }
      }
    }
  }

  /** Text made of safe characters is serialized unchanged. */
  lemma {:induction false} FormEncodeSafe(s: string)
    requires IsSafeText(s)
    ensures FormEncode(s) == s
  {
    if s != [] {
      FormEncodeSafe(s[1..]);
      assert Utf8String(s) == [s[0] as int] + Utf8String(s[1..]);
      assert EncodeBytes(Utf8String(s)) == [s[0]] + EncodeBytes(Utf8String(s[1..]));
      assert [s[0]] + s[1..] == s;
    }
  }

  // ----- URLSearchParams -----

  datatype Param = Param(name: string, value: string)

  /** The pairs without any that carry `name`. */
  function Without(ps: seq<Param>, name: string): (r: seq<Param>)
    ensures forall i :: 0 <= i < |r| ==> r[i].name != name
  {
    if ps == [] then []
    else if ps[0].name == name then Without(ps[1..], name)
    else [ps[0]] + Without(ps[1..], name)
  }

  /** `URLSearchParams.get`: the value of the first pair with the name. */
  function Get(ps: seq<Param>, name: string): Option<string>
  {
    if ps == [] then None
    else if ps[0].name == name then Some(ps[0].value)
    else Get(ps[1..], name)
  }

  function Count(ps: seq<Param>, name: string): nat
  {
    if ps == [] then 0 else (if ps[0].name == name then 1 else 0) + Count(ps[1..], name)
  }

  /** `URLSearchParams.set`: the first pair with the name takes the value
      and later ones with it are removed; without one the pair is
      appended. */
  function SetParam(ps: seq<Param>, name: string, value: string): seq<Param>
  {
    if ps == [] then [Param(name, value)]
    else if ps[0].name == name then [Param(name, value)] + Without(ps[1..], name)
    else [ps[0]] + SetParam(ps[1..], name, value)
  }

  lemma {:induction false} WithoutGet(ps: seq<Param>, name: string, other: string)
    ensures Get(Without(ps, name), name) == None
    ensures Count(Without(ps, name), name) == 0
    ensures other != name ==> Get(Without(ps, name), other) == Get(ps, other)
  {
    if ps != [] {
      WithoutGet(ps[1..], name, other);
    }
  }

  /** After `set`, the name occurs once with the new value, and what every
      other name gets is unchanged. */
  lemma {:induction false} SetParamGet(ps: seq<Param>, name: string, value: string, other: string)
    ensures Get(SetParam(ps, name, value), name) == Some(value)
    ensures Count(SetParam(ps, name, value), name) == 1
    ensures other != name ==> Get(SetParam(ps, name, value), other) == Get(ps, other)
  {
    if ps != [] {
      if ps[0].name == name {
        WithoutGet(ps[1..], name, other);
      } else {
        SetParamGet(ps[1..], name, value, other);
      }
    }
  }

  /** Setting a name that is not there appends the pair. */
  lemma {:induction false} SetParamAbsent(ps: seq<Param>, name: string, value: string)
    requires Get(ps, name) == None
    ensures SetParam(ps, name, value) == ps + [Param(name, value)]
  {
    if ps != [] {
      SetParamAbsent(ps[1..], name, value);
      assert [ps[0]] + (ps[1..] + [Param(name, value)]) == ps + [Param(name, value)];
    }
  }

  function PairText(p: Param): string
  {
    FormEncode(p.name) + "=" + FormEncode(p.value)
  }

  function PairTexts(ps: seq<Param>): seq<string>
  {
    seq(|ps|, i requires 0 <= i < |ps| => PairText(ps[i]))
  }

  /** `URLSearchParams.toString`: the serialized pairs joined by `&`. */
  function QueryString(ps: seq<Param>): string
  {
    Join(PairTexts(ps), "&")
  }

  /** A query string splits on `&` into one piece per pair, in order, and
      each piece splits on `=` into the serialized name and value, which
      read back as the UTF-8 bytes of the pair's name and value. */
  lemma QueryRoundTrip(ps: seq<Param>, i: nat)
    requires i < |ps|
    ensures var pieces := Split(QueryString(ps), "&");
            |pieces| == |ps|
            && var fields := Split(pieces[i], "=");
               |fields| == 2
               && DecodeBytes(fields[0]) == Utf8String(ps[i].name)
               && DecodeBytes(fields[1]) == Utf8String(ps[i].value)
  {
    var texts := PairTexts(ps);
    forall t | t in texts
      ensures '&' !in t
    {
      var j :| 0 <= j < |texts| && texts[j] == t;
      EncodeBytesPlain(Utf8String(ps[j].name));
      EncodeBytesPlain(Utf8String(ps[j].value));
    }
    SplitJoin(texts, '&');
    var name, value := FormEncode(ps[i].name), FormEncode(ps[i].value);
    EncodeBytesPlain(Utf8String(ps[i].name));
    EncodeBytesPlain(Utf8String(ps[i].value));
    assert Join([name, value], "=") == texts[i];
    SplitJoin([name, value], '=');
    FormRoundTrip(ps[i].name);
    FormRoundTrip(ps[i].value);
  }

  // ----- requests -----

  datatype HttpResponse<J> = HttpResponse(ok: bool, status: int, statusText: string, body: string, json: Result<J, string>)

  /** How `fetch` went: rejected with a reason, or a response. */
  datatype FetchOutcome<J> = Rejected(reason: string) | Responded(response: HttpResponse<J>)

  /** The URL `apiRequest` fetches for an endpoint. */
  function RequestUrl(base: string, endpoint: string): string
  {
    base + API_PATH + endpoint
  }

  /** `apiRequest` after the fetch: a rejection propagates, a response that
      is not ok becomes an error naming status, status text and body, and
      otherwise the body parsed as JSON is the result. */
  function RequestResult<J>(outcome: FetchOutcome<J>): Result<J, string>
  {
    match outcome
    case Rejected(reason) => Failure(reason)
    case Responded(response) =>
      if !response.ok then
        Failure(REQUEST_FAILED + Decimal(response.status) + " " + response.statusText + " - " + response.body)
      else response.json
  }

  function ApiRequest<J>(base: string, endpoint: string, fetch: string -> FetchOutcome<J>): Result<J, string>
  {
    RequestResult(fetch(RequestUrl(base, endpoint)))
  }

  /** A request succeeds exactly when the response is ok and its body
      parses, with the parsed body as result; a response that is not ok
      always fails with a message starting `API request failed: `. */
  lemma RequestOutcomes<J>(outcome: FetchOutcome<J>)
    ensures var r := RequestResult(outcome);
            r.Success? <==> outcome.Responded? && outcome.response.ok && outcome.response.json.Success?
    ensures RequestResult(outcome).Success? ==> RequestResult(outcome).value == outcome.response.json.value
    ensures outcome.Responded? && !outcome.response.ok ==>
              RequestResult(outcome).Failure? && StartsWith(RequestResult(outcome).error, REQUEST_FAILED)
  {
    if outcome.Responded? && !outcome.response.ok {
      var e := RequestResult(outcome).error;
      assert e[..|REQUEST_FAILED|] == REQUEST_FAILED;
    }
  }

  /** JavaScript truthiness of an optional number: `undefined` and 0 are
      falsy. */
  predicate Truthy(x: Option<real>)
  {
    x.Some? && x.value != 0.0
  }

  /** The parameters of `getMovementTrajectories`. */
  function AreaParams(lat: Option<real>, lon: Option<real>, radius: Option<real>, show: real -> string): seq<Param>
  {
    var empty: seq<Param> := [];
    if Truthy(lat) && Truthy(lon) && Truthy(radius) then
      SetParam(SetParam(SetParam(empty, "lat", show(lat.value)), "lon", show(lon.value)),
               "radius", show(radius.value * METERS_PER_KILOMETER))
    else empty
  }

  function TrajectoriesEndpoint(lat: Option<real>, lon: Option<real>, radius: Option<real>, show: real -> string): string
  {
    TRAJECTORIES_PATH + QueryString(AreaParams(lat, lon, radius, show))
  }

  function GetMovementTrajectories<J>(base: string, lat: Option<real>, lon: Option<real>, radius: Option<real>,
                                      show: real -> string, fetch: string -> FetchOutcome<J>): Result<J, string>
  {
    ApiRequest(base, TrajectoriesEndpoint(lat, lon, radius, show), fetch)
  }

  /** The area parameters are all there, in the order `lat`, `lon`,
      `radius`, with the radius in metres, when the three values are truthy,
      and none is there otherwise. */
  lemma AreaParamsAllOrNothing(lat: Option<real>, lon: Option<real>, radius: Option<real>, show: real -> string)
    ensures Truthy(lat) && Truthy(lon) && Truthy(radius) ==>
              AreaParams(lat, lon, radius, show)
                == [Param("lat", show(lat.value)), Param("lon", show(lon.value)),
                    Param("radius", show(radius.value * 1000.0))]
    ensures !(Truthy(lat) && Truthy(lon) && Truthy(radius)) ==> AreaParams(lat, lon, radius, show) == []
  {
    if Truthy(lat) && Truthy(lon) && Truthy(radius) {
      var empty: seq<Param> := [];
      var one := SetParam(empty, "lat", show(lat.value));
      assert one == [Param("lat", show(lat.value))];
      assert "lat"[0] != "lon"[2] && "lat"[0] != "radius"[0] && "lon"[0] != "radius"[0];
      SetParamAbsent(one, "lon", show(lon.value));
      var two := one + [Param("lon", show(lon.value))];
      NotInTwo(two, "radius");
      SetParamAbsent(two, "radius", show(radius.value * METERS_PER_KILOMETER));
    }
  }

  lemma NotInTwo(ps: seq<Param>, name: string)
    requires |ps| == 2 && ps[0].name != name && ps[1].name != name
    ensures Get(ps, name) == None
  {
    var tail := ps[1..];
    assert tail[1..] == [];
    assert tail[0].name != name;
    assert Get(tail, name) == None;
  }

  /** A pair of safe texts is serialized as they are, around `=`. */
  lemma PairTextSafe(p: Param)
    requires IsSafeText(p.name) && IsSafeText(p.value)
    ensures PairText(p) == p.name + "=" + p.value
  {
    FormEncodeSafe(p.name);
    FormEncodeSafe(p.value);
  }

  /** Three pieces joined by `&`. */
  lemma JoinThree(a: string, b: string, c: string)
    ensures Join([a, b, c], "&") == a + "&" + b + "&" + c
  {
    assert [a, b, c][1..] == [b, c];
    JoinTwo(b, c);
    calc {
      Join([a, b, c], "&");
      a + "&" + Join([b, c], "&");
      a + "&" + (b + "&" + c);
      { assert a + "&" + (b + "&" + c) == a + "&" + b + "&" + c; }
      a + "&" + b + "&" + c;
    }
  }

  /** Two pieces joined by `&`. */
  lemma JoinTwo(a: string, b: string)
    ensures Join([a, b], "&") == a + "&" + b
  {
    assert [a, b][1..] == [b];
  }

  lemma UrlOf(base: string, path: string, query: string)
    ensures RequestUrl(base, path + query) == base + (API_PATH + path) + query
  {
    assert base + API_PATH + (path + query) == base + (API_PATH + path) + query;
  }

  /** A pair whose name is safe text: the name as it is, `=`, and the
      serialized value. */
  lemma PairTextSafeName(p: Param)
    requires IsSafeText(p.name)
    ensures PairText(p) == p.name + "=" + FormEncode(p.value)
  {
    FormEncodeSafe(p.name);
  }

  lemma AreaNamesSafe()
    ensures IsSafeText("lat") && IsSafeText("lon") && IsSafeText("radius")
  {
  }

  lemma AreaPairs(x: string, y: string, z: string)
    ensures PairTexts([Param("lat", x), Param("lon", y), Param("radius", z)])
              == ["lat" + "=" + FormEncode(x), "lon" + "=" + FormEncode(y), "radius" + "=" + FormEncode(z)]
  {
    AreaNamesSafe();
    PairTextSafeName(Param("lat", x));
    PairTextSafeName(Param("lon", y));
    PairTextSafeName(Param("radius", z));
  }

  /** Regrouping the serialized area query; proved apart from
      `TrajectoriesQuery`, where it would share a context with the
      serializer's definitions. */
  lemma AreaQueryAssoc(a: string, b: string, c: string)
    ensures "lat" + "=" + a + "&" + ("lon" + "=" + b) + "&" + ("radius" + "=" + c)
              == "lat=" + a + "&lon=" + b + "&radius=" + c
  {
  }

  /** The query of the trajectories request: the three area parameters or
      nothing. */
  lemma TrajectoriesQuery(lat: Option<real>, lon: Option<real>, radius: Option<real>, show: real -> string)
    ensures QueryString(AreaParams(lat, lon, radius, show))
              == if Truthy(lat) && Truthy(lon) && Truthy(radius) then
                   "lat=" + FormEncode(show(lat.value)) + "&lon=" + FormEncode(show(lon.value))
                   + "&radius=" + FormEncode(show(radius.value * 1000.0))
                 else ""
  {
    AreaParamsAllOrNothing(lat, lon, radius, show);
    if Truthy(lat) && Truthy(lon) && Truthy(radius) {
      var x, y, z := show(lat.value), show(lon.value), show(radius.value * 1000.0);
      AreaPairs(x, y, z);
      JoinThree("lat" + "=" + FormEncode(x), "lon" + "=" + FormEncode(y), "radius" + "=" + FormEncode(z));
      AreaQueryAssoc(FormEncode(x), FormEncode(y), FormEncode(z));
    }
  }

  /** The URL fetched for the trajectories: the base, `/api`, the path and
      the query. */
  lemma TrajectoriesUrl<J>(base: string, lat: Option<real>, lon: Option<real>, radius: Option<real>,
                           show: real -> string, fetch: string -> FetchOutcome<J>)
    ensures GetMovementTrajectories(base, lat, lon, radius, show, fetch)
              == RequestResult(fetch(base + "/api/movement/trajectories?" + QueryString(AreaParams(lat, lon, radius, show))))
  {
    assert API_PATH + TRAJECTORIES_PATH == "/api/movement/trajectories?";
    UrlOf(base, TRAJECTORIES_PATH, QueryString(AreaParams(lat, lon, radius, show)));
  }

  function GetMovementTimeRange<J>(base: string, fetch: string -> FetchOutcome<J>): Result<J, string>
  {
    ApiRequest(base, TIME_RANGE_ENDPOINT, fetch)
  }

  /** The time range comes from `/api/movement/time-range` under the base. */
  lemma TimeRangeUrl<J>(base: string, fetch: string -> FetchOutcome<J>)
    ensures GetMovementTimeRange(base, fetch) == RequestResult(fetch(base + "/api/movement/time-range"))
  {
    assert API_PATH + TIME_RANGE_ENDPOINT == "/api/movement/time-range";
    assert base + API_PATH + TIME_RANGE_ENDPOINT == base + (API_PATH + TIME_RANGE_ENDPOINT);
  }

  /** The parameters of `getDevices`: a missing argument takes its
      default. */
  function DevicesParams(limit: Option<int>, offset: Option<int>): seq<Param>
  {
    var l := if limit.Some? then limit.value else DEFAULT_LIMIT;
    var o := if offset.Some? then offset.value else DEFAULT_OFFSET;
    [Param("limit", Decimal(l)), Param("offset", Decimal(o))]
  }

  function GetDevices<J>(base: string, limit: Option<int>, offset: Option<int>,
                         fetch: string -> FetchOutcome<J>): Result<J, string>
  {
    ApiRequest(base, DEVICES_PATH + QueryString(DevicesParams(limit, offset)), fetch)
  }

  /** The text of an integer is made of safe characters. */
  lemma DecimalSafe(n: int)
    ensures IsSafeText(Decimal(n))
  {
    var d := if n < 0 then Digits(-n) else Digits(n);
    assert forall i :: 0 <= i < |d| ==> IsSafeByte(d[i] as int);
  }

  lemma DevicesNamesSafe()
    ensures IsSafeText("limit") && IsSafeText("offset")
  {
  }

  lemma DevicesPairs(l: int, o: int)
    ensures PairTexts([Param("limit", Decimal(l)), Param("offset", Decimal(o))])
              == ["limit" + "=" + Decimal(l), "offset" + "=" + Decimal(o)]
  {
    var ps := [Param("limit", Decimal(l)), Param("offset", Decimal(o))];
    DevicesNamesSafe();
    DecimalSafe(l);
    DecimalSafe(o);
    PairTextSafe(ps[0]);
    PairTextSafe(ps[1]);
  }

  /** `getDevices` always sends `limit` then `offset`, each the decimal text
      of its argument or of its default, 100 and 0. */
  lemma DevicesQuery(limit: Option<int>, offset: Option<int>)
    ensures var l := if limit.Some? then limit.value else 100;
            var o := if offset.Some? then offset.value else 0;
            QueryString(DevicesParams(limit, offset)) == "limit=" + Decimal(l) + "&offset=" + Decimal(o)
  {
    var l := if limit.Some? then limit.value else DEFAULT_LIMIT;
    var o := if offset.Some? then offset.value else DEFAULT_OFFSET;
    var a, b := Decimal(l), Decimal(o);
    assert "limit" + "=" + a + "&" + ("offset" + "=" + b) == "limit=" + a + "&offset=" + b;
    DevicesPairs(l, o);
    JoinTwo("limit" + "=" + a, "offset" + "=" + b);
  }

  /** The URL fetched for the devices: the base, `/api`, the path and the
      query. */
  lemma DevicesUrl<J>(base: string, limit: Option<int>, offset: Option<int>, fetch: string -> FetchOutcome<J>)
    ensures GetDevices(base, limit, offset, fetch)
              == RequestResult(fetch(base + "/api/devices?" + QueryString(DevicesParams(limit, offset))))
  {
    assert API_PATH + DEVICES_PATH == "/api/devices?";
    UrlOf(base, DEVICES_PATH, QueryString(DevicesParams(limit, offset)));
  }

  lemma DefaultDecimals()
    ensures Decimal(100) == "100" && Decimal(0) == "0"
  {
    assert Digits(1) == "1";
    assert Digits(10) == "10";
  }

  /** Called without arguments, `getDevices` asks for the first 100
      devices. */
  lemma DevicesDefaultUrl<J>(base: string, fetch: string -> FetchOutcome<J>)
    ensures GetDevices(base, None, None, fetch)
              == RequestResult(fetch(base + "/api/devices?limit=100&offset=0"))
  {
    assert "limit=" + "100" + "&offset=" + "0" == "limit=100&offset=0";
    assert base + "/api/devices?" + "limit=100&offset=0" == base + "/api/devices?limit=100&offset=0";
    var query := QueryString(DevicesParams(None, None));
    calc {
      GetDevices(base, None, None, fetch);
      { DevicesUrl(base, None, None, fetch); }
      RequestResult(fetch(base + "/api/devices?" + query));
      { DevicesQuery(None, None); DefaultDecimals(); }
      RequestResult(fetch(base + "/api/devices?" + "limit=100&offset=0"));
      RequestResult(fetch(base + "/api/devices?limit=100&offset=0"));
    }
  }
}
