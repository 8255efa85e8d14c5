/** The client of Apple's Wi-Fi location service: batching of BSSIDs, request
    framing, response decoding and the retry loop with capped exponential
    backoff (backend/app/services/apple_locator.py).

    The protobuf encoder and decoder, the HTTP POST and the random jitter are
    not part of this model; they are passed in as functions (see `Wire`). */
module AppleLocator {
  import opened Wrappers
  import opened Strings

  newtype byte = b: int | 0 <= b < 256

  /** BSSIDs sent per request. */
  const BSSID_BATCH_SIZE: nat := 15
  /** Attempts made by one call of the retry loop. */
  const MAX_RETRIES: nat := 7
  const INITIAL_BACKOFF_SECONDS: real := 2.0
  const MAX_BACKOFF_SECONDS: real := 600.0
  /** Latitude the service reports for a BSSID it cannot place. */
  const NO_LOCATION_LATITUDE: int := -18000000000
  /** Bytes of a response that come before the protobuf message. */
  const RESPONSE_HEADER_LENGTH: nat := 10

  function Ascii(s: string): (r: seq<byte>)
    requires forall i :: 0 <= i < |s| ==> s[i] as int < 256
    ensures |r| == |s|
  {
    seq(|s|, i requires 0 <= i < |s| => s[i] as int as byte)
  }

  /** Fixed bytes that precede the length byte of every request. */
  const HEADER_PREFIX: seq<byte> :=
    [0x00, 0x01] + [0x00, 0x05] + Ascii("en_US") + [0x00, 0x13] + Ascii("com.apple.locationd")
    + [0x00, 0x0a] + Ascii("8.1.12B411") + [0x00, 0x00, 0x00, 0x01, 0x00, 0x00, 0x00]

  // ---------------------------------------------------------------------
  // Messages and collaborators

  /** The request message: the fields the service sets before serialising. */
  datatype WlocRequest = WlocRequest(unknownValue1: int, returnSingleResult: int, bssids: seq<string>)

  /** A location in the service's integer units (degrees times 10^8). */
  datatype Location = Location(latitude: int, longitude: int)

  /** A location in degrees, as `_parse_response` reports it. */
  datatype Coordinates = Coordinates(lat: real, lon: real)

  /** Service units to degrees: `value * 1e-8`. */
  function Degrees(units: int): real
  {
    units as real / 100000000.0
  }

  function ToCoordinates(l: Location): (c: Coordinates)
    ensures c.lat * 100000000.0 == l.latitude as real && c.lon * 100000000.0 == l.longitude as real
  {
    Coordinates(Degrees(l.latitude), Degrees(l.longitude))
  }

  /** One device entry of a decoded response. */
  datatype WifiDevice = WifiDevice(bssid: string, location: Option<Location>)

  /** What one HTTP POST produced: a response with its status code and body,
      or a transport-level failure (timeout, refused connection, ...). */
  datatype HttpResult = Response(status: int, content: seq<byte>) | ConnectionFailed

  /** The collaborators the service talks to: the protobuf encoder, the POST
      (given the request bytes and the number of the attempt, counting from
      0) and the protobuf decoder (None when the bytes do not decode). */
  datatype Wire = Wire(
    serialize: WlocRequest -> seq<byte>,
    post: (seq<byte>, nat) -> HttpResult,
    parse: seq<byte> -> Option<seq<WifiDevice>>)

  /** Errors that escape the service: the `ValueError` raised when a payload
      does not fit its one-byte length, and the `RequestException` raised when
      every attempt has failed. */
  datatype LocatorError = PayloadTooLong(length: nat) | RetriesExhausted

  // ---------------------------------------------------------------------
  // Request framing

  /** The request message built for `bssids`. */
  function RequestMessage(bssids: seq<string>, singleResult: bool): (m: WlocRequest)
    ensures m.unknownValue1 == 0
    ensures m.returnSingleResult in {0, 1} && (m.returnSingleResult == 1 <==> singleResult)
    ensures |m.bssids| == |bssids|
    ensures forall i :: 0 <= i < |bssids| ==> |m.bssids[i]| == |bssids[i]|
    ensures forall i, j :: 0 <= i < |bssids| && 0 <= j < |bssids[i]| ==>
      !IsUpper(m.bssids[i][j]) && (m.bssids[i][j] == bssids[i][j] || m.bssids[i][j] == LowerChar(bssids[i][j]))
    ensures forall i :: 0 <= i < |bssids| && (forall j :: 0 <= j < |bssids[i]| ==> !IsUpper(bssids[i][j])) ==>
      m.bssids[i] == bssids[i]
  {
    WlocRequest(0, if singleResult then 1 else 0, seq(|bssids|, i requires 0 <= i < |bssids| => Lower(bssids[i])))
  }

  /** Prefix, one length byte, payload: `bytes([len(payload)])` raises a
      `ValueError` for a payload of 256 bytes or more. */
  function Frame(payload: seq<byte>): (r: Result<seq<byte>, LocatorError>)
    ensures r.Success? <==> |payload| < 256
    ensures r.Failure? ==> r.error == PayloadTooLong(|payload|)
    ensures r.Success? ==>
      && |r.value| == |HEADER_PREFIX| + 1 + |payload|
      && r.value[..|HEADER_PREFIX|] == HEADER_PREFIX
      && r.value[|HEADER_PREFIX|] as int == |payload|
      && r.value[|HEADER_PREFIX| + 1..] == payload
  {
    if |payload| < 256 then Success(HEADER_PREFIX + [|payload| as byte] + payload)
    else Failure(PayloadTooLong(|payload|))
  }

  /** Reads a frame back: the prefix, then a length byte that matches the
      number of bytes that follow it. */
  function Unframe(frame: seq<byte>): Option<seq<byte>>
  {
    if |frame| > |HEADER_PREFIX| && frame[..|HEADER_PREFIX|] == HEADER_PREFIX
       && frame[|HEADER_PREFIX|] as int == |frame| - |HEADER_PREFIX| - 1
    then Some(frame[|HEADER_PREFIX| + 1..])
    else None
  }

  /** Framing is invertible: unframing a frame gives back its payload, and a
      byte string that unframes to a payload is that payload's frame. */
  lemma FrameRoundTrip(payload: seq<byte>, frame: seq<byte>)
    ensures Frame(payload).Success? ==> Unframe(Frame(payload).value) == Some(payload)
    ensures Unframe(frame) == Some(payload) ==> Frame(payload) == Success(frame)
  {
    if Unframe(frame) == Some(payload) {
      var n := |HEADER_PREFIX|;
      assert frame == frame[..n] + [frame[n]] + frame[n + 1..];
    }
  }

  /** `_build_request_payload`: the frame of the serialised request. */
  function BuildRequestPayload(bssids: seq<string>, singleResult: bool, wire: Wire): (r: Result<seq<byte>, LocatorError>)
    ensures var payload := wire.serialize(RequestMessage(bssids, singleResult));
      && (r.Success? <==> |payload| < 256)
      && (r.Success? ==> Unframe(r.value) == Some(payload))
  {
    var payload := wire.serialize(RequestMessage(bssids, singleResult));
    FrameRoundTrip(payload, []);
    Frame(payload)
  }

  // ---------------------------------------------------------------------
  // Response decoding

  /** A device entry that yields a result: it has a location, and the location
      is not the "unknown" sentinel. */
  predicate HasUsableLocation(d: WifiDevice)
  {
    d.location.Some? && d.location.value.latitude != NO_LOCATION_LATITUDE
  }

  /** The dictionary the decoding loop fills: one entry per BSSID with a usable
      location, a later entry for the same BSSID overwriting an earlier one. */
  function LocationsOf(devices: seq<WifiDevice>): map<string, Coordinates>
  {
    if devices == [] then map[]
    else
      var found := LocationsOf(devices[..|devices| - 1]);
      var d := devices[|devices| - 1];
      if HasUsableLocation(d) then found[d.bssid := ToCoordinates(d.location.value)] else found
  }

  /** What `_parse_response` returns for the bytes of a response. */
  function DecodedLocations(data: seq<byte>, wire: Wire): map<string, Coordinates>
  {
    if |data| <= RESPONSE_HEADER_LENGTH then map[]
    else match wire.parse(data[RESPONSE_HEADER_LENGTH..])
      case None => map[]
      case Some(devices) => LocationsOf(devices)
  }

  /** Every entry of the result comes from a device with a usable location, and
      it is the LAST such device for that BSSID. */
  lemma {:induction false} LocationsOfSound(devices: seq<WifiDevice>, b: string)
    requires b in LocationsOf(devices)
    ensures exists i ::
      && 0 <= i < |devices| && devices[i].bssid == b && HasUsableLocation(devices[i])
      && LocationsOf(devices)[b] == ToCoordinates(devices[i].location.value)
      && forall j :: i < j < |devices| && devices[j].bssid == b ==> !HasUsableLocation(devices[j])
  {
    var n := |devices|;
    var init := devices[..n - 1];
    var d := devices[n - 1];
    if HasUsableLocation(d) && d.bssid == b {
      assert devices[n - 1].bssid == b;
    } else {
      LocationsOfSound(init, b);
      var i :| 0 <= i < |init| && init[i].bssid == b && HasUsableLocation(init[i])
        && LocationsOf(init)[b] == ToCoordinates(init[i].location.value)
        && forall j :: i < j < |init| && init[j].bssid == b ==> !HasUsableLocation(init[j]);
      assert devices[i] == init[i];
      assert forall j :: i < j < n - 1 ==> devices[j] == init[j];
    }
  }

  /** No device with a usable location is lost. */
  lemma {:induction false} LocationsOfComplete(devices: seq<WifiDevice>, i: nat)
    requires i < |devices| && HasUsableLocation(devices[i])
    ensures devices[i].bssid in LocationsOf(devices)
  {
    var n := |devices|;
    if i < n - 1 {
      var init := devices[..n - 1];
      assert init[i] == devices[i];
      LocationsOfComplete(init, i);
    }
  }

  /** Entries without a location, or with the sentinel latitude, never reach
      the result. */
  lemma NoSentinelInResult(data: seq<byte>, wire: Wire, b: string)
    requires b in DecodedLocations(data, wire)
    ensures DecodedLocations(data, wire)[b].lat != -180.0
  {
    var devices := wire.parse(data[RESPONSE_HEADER_LENGTH..]).value;
    LocationsOfSound(devices, b);
  }

  /** `_parse_response`: skip the 10-byte header, decode, and collect the
      usable locations. */
  method ParseResponse(data: seq<byte>, wire: Wire) returns (results: map<string, Coordinates>)
    ensures results == DecodedLocations(data, wire)
    ensures |data| <= RESPONSE_HEADER_LENGTH ==> results == map[]
    ensures |data| > RESPONSE_HEADER_LENGTH && wire.parse(data[RESPONSE_HEADER_LENGTH..]).None? ==> results == map[]
  {
    if |data| <= RESPONSE_HEADER_LENGTH {
      return map[];
    }
    var blob := data[RESPONSE_HEADER_LENGTH..];
    var decoded := wire.parse(blob);
    if decoded.None? {
      return map[];
    }
    var devices := decoded.value;
    results := map[];
    for i := 0 to |devices|
      invariant results == LocationsOf(devices[..i])
    {
      var dev := devices[i];
      assert devices[..i + 1][..i] == devices[..i];
      if HasUsableLocation(dev) {
        results := results[dev.bssid := ToCoordinates(dev.location.value)];
      }
    }
    assert devices[..|devices|] == devices;
  }

  // ---------------------------------------------------------------------
  // Retry loop with capped exponential backoff

  /** `raise_for_status` raises for 4xx and 5xx; `HTTPError` is a
      `RequestException`, so every such response is retried like a transport
      failure. */
  predicate IsAccepted(r: HttpResult)
  {
    r.Response? && !(400 <= r.status < 600)
  }

  /** The first attempt, from `from` on and below MAX_RETRIES, whose response
      is accepted. */
  function FirstAccepted(request: seq<byte>, wire: Wire, from: nat): (k: Option<nat>)
    ensures k.Some? ==>
      && from <= k.value < MAX_RETRIES && IsAccepted(wire.post(request, k.value))
      && forall j :: from <= j < k.value ==> !IsAccepted(wire.post(request, j))
    ensures k.None? ==> forall j :: from <= j < MAX_RETRIES ==> !IsAccepted(wire.post(request, j))
    decreases MAX_RETRIES - from
  {
    if from >= MAX_RETRIES then None
    else if IsAccepted(wire.post(request, from)) then Some(from)
    else FirstAccepted(request, wire, from + 1)
  }

  function Min(a: real, b: real): real { if a <= b then a else b }

  /** The delay slept after failed attempt `k`; `jitter(k)` is the fraction of
      `0.1 * delay` that `random.uniform` drew after that attempt. */
  function DelayAt(k: nat, jitter: nat -> real): real
  {
    if k == 0 then INITIAL_BACKOFF_SECONDS else NextDelay(DelayAt(k - 1, jitter), jitter(k - 1))
  }

  /** `min(MAX_BACKOFF_SECONDS, delay * 2 + jitter)` with the jitter drawn
      from [0, delay * 0.1]. */
  function NextDelay(delay: real, fraction: real): real
  {
    Min(MAX_BACKOFF_SECONDS, delay * 2.0 + fraction * (delay * 0.1))
  }

  /** Every delay lies in [2, 600], and the delays never decrease. */
  lemma {:induction false} DelayBounds(k: nat, jitter: nat -> real)
    requires forall j :: 0.0 <= jitter(j) <= 1.0
    ensures INITIAL_BACKOFF_SECONDS <= DelayAt(k, jitter) <= MAX_BACKOFF_SECONDS
    ensures DelayAt(k, jitter) <= DelayAt(k + 1, jitter)
  {
    if k > 0 {
      DelayBounds(k - 1, jitter);
    }
    var d := DelayAt(k, jitter);
    ProductNonNegative(jitter(k), d * 0.1);
    assert INITIAL_BACKOFF_SECONDS <= d <= MAX_BACKOFF_SECONDS;
    var grown := d * 2.0 + jitter(k) * (d * 0.1);
    assert d <= grown;
    assert DelayAt(k + 1, jitter) == NextDelay(d, jitter(k)) == Min(MAX_BACKOFF_SECONDS, grown);
  }

  lemma ProductNonNegative(a: real, b: real)
    requires 0.0 <= a && 0.0 <= b
    ensures 0.0 <= a * b
  {
  }

  /** `_make_request_with_backoff`: up to MAX_RETRIES attempts; after each
      failure it sleeps the current delay and grows it. `attempts` counts the
      POSTs and `sleeps` lists the delays slept, in order. */
  method MakeRequestWithBackoff(request: seq<byte>, wire: Wire, jitter: nat -> real)
    returns (outcome: Result<seq<byte>, LocatorError>, attempts: nat, sleeps: seq<real>)
    requires forall j :: 0.0 <= jitter(j) <= 1.0
    ensures attempts <= MAX_RETRIES
    ensures FirstAccepted(request, wire, 0).Some? ==>
      var k := FirstAccepted(request, wire, 0).value;
      outcome == Success(wire.post(request, k).content) && attempts == k + 1 && |sleeps| == k
    ensures FirstAccepted(request, wire, 0).None? ==>
      outcome == Failure(RetriesExhausted) && attempts == MAX_RETRIES && |sleeps| == MAX_RETRIES
    ensures forall i :: 0 <= i < |sleeps| ==> sleeps[i] == DelayAt(i, jitter)
    ensures forall i :: 0 <= i < |sleeps| ==> INITIAL_BACKOFF_SECONDS <= sleeps[i] <= MAX_BACKOFF_SECONDS
    ensures forall i :: 0 < i < |sleeps| ==> sleeps[i - 1] <= sleeps[i]
  {
    var retries: nat := 0;
    var backoffDelay := INITIAL_BACKOFF_SECONDS;
    sleeps := [];
    attempts := 0;
    while retries < MAX_RETRIES
      invariant retries <= MAX_RETRIES && attempts == retries && |sleeps| == retries
      invariant backoffDelay == DelayAt(retries, jitter)
      invariant forall i :: 0 <= i < |sleeps| ==> sleeps[i] == DelayAt(i, jitter)
      invariant forall j :: 0 <= j < retries ==> !IsAccepted(wire.post(request, j))
    {
      var resp := wire.post(request, retries);
      attempts := attempts + 1;
      if IsAccepted(resp) {
        outcome := Success(resp.content);
        FirstAcceptedIs(request, wire, retries);
        AllDelayBounds(sleeps, jitter);
        return;
      }
      sleeps := sleeps + [backoffDelay];
      retries := retries + 1;
      var d := backoffDelay;
      backoffDelay := NextDelay(d, jitter(retries - 1));
    }
    outcome := Failure(RetriesExhausted);
    NoneAccepted(request, wire);
    AllDelayBounds(sleeps, jitter);
  }

  lemma FirstAcceptedIs(request: seq<byte>, wire: Wire, k: nat)
    requires k < MAX_RETRIES && IsAccepted(wire.post(request, k))
    requires forall j :: 0 <= j < k ==> !IsAccepted(wire.post(request, j))
    ensures FirstAccepted(request, wire, 0) == Some(k)
  {
  }

  lemma NoneAccepted(request: seq<byte>, wire: Wire)
    requires forall j :: 0 <= j < MAX_RETRIES ==> !IsAccepted(wire.post(request, j))
    ensures FirstAccepted(request, wire, 0) == None
  {
  }

  lemma AllDelayBounds(sleeps: seq<real>, jitter: nat -> real)
    requires forall j :: 0.0 <= jitter(j) <= 1.0
    requires forall i :: 0 <= i < |sleeps| ==> sleeps[i] == DelayAt(i, jitter)
    ensures forall i :: 0 <= i < |sleeps| ==> INITIAL_BACKOFF_SECONDS <= sleeps[i] <= MAX_BACKOFF_SECONDS
    ensures forall i :: 0 < i < |sleeps| ==> sleeps[i - 1] <= sleeps[i]
  {
    forall i | 0 <= i < |sleeps| {
      DelayBounds(i, jitter);
    }
  }

  // ---------------------------------------------------------------------
  // Batching and merging

  /** `bssids[i:i + 15]` for i = 0, 15, 30, ... */
  function Batches(bssids: seq<string>): (bs: seq<seq<string>>)
    decreases |bssids|
  {
    if bssids == [] then []
    else if |bssids| <= BSSID_BATCH_SIZE then [bssids]
    else [bssids[..BSSID_BATCH_SIZE]] + Batches(bssids[BSSID_BATCH_SIZE..])
  }

  function Concat(bs: seq<seq<string>>): seq<string>
  {
    if bs == [] then [] else bs[0] + Concat(bs[1..])
  }

  /** Concatenating the batches gives back the input. */
  lemma {:induction false} BatchesConcat(bssids: seq<string>)
    ensures Concat(Batches(bssids)) == bssids
    decreases |bssids|
  {
    if |bssids| > BSSID_BATCH_SIZE {
      var rest := bssids[BSSID_BATCH_SIZE..];
      BatchesConcat(rest);
      var bs := Batches(bssids);
      assert bs[0] == bssids[..BSSID_BATCH_SIZE] && bs[1..] == Batches(rest);
      assert bssids == bssids[..BSSID_BATCH_SIZE] + rest;
    } else if bssids != [] {
      assert Batches(bssids)[1..] == [];
    }
  }

  /** There are ceil(n / 15) batches. */
  lemma {:induction false} BatchesCount(bssids: seq<string>)
    ensures |Batches(bssids)| == (|bssids| + BSSID_BATCH_SIZE - 1) / BSSID_BATCH_SIZE
    decreases |bssids|
  {
    if |bssids| > BSSID_BATCH_SIZE {
      BatchesCount(bssids[BSSID_BATCH_SIZE..]);
    }
  }

  /** Batch `k` is the non-empty slice of at most 15 BSSIDs that starts at
      `15 * k`. */
  lemma {:induction false} BatchSlice(bssids: seq<string>, k: nat)
    requires k < |Batches(bssids)|
    ensures var lo := k * BSSID_BATCH_SIZE;
      var hi := if lo + BSSID_BATCH_SIZE <= |bssids| then lo + BSSID_BATCH_SIZE else |bssids|;
      lo < hi && Batches(bssids)[k] == bssids[lo..hi]
    decreases k
  {
    if k > 0 {
      var rest := bssids[BSSID_BATCH_SIZE..];
      assert Batches(bssids)[k] == Batches(rest)[k - 1];
      BatchSlice(rest, k - 1);
      var lo := (k - 1) * BSSID_BATCH_SIZE;
      var hi := if lo + BSSID_BATCH_SIZE <= |rest| then lo + BSSID_BATCH_SIZE else |rest|;
      assert rest[lo..hi] == bssids[lo + BSSID_BATCH_SIZE..hi + BSSID_BATCH_SIZE];
    }
  }

  /** The locations one batch contributes: a batch whose retries are
      exhausted contributes nothing; a batch whose payload does not fit its
      length byte raises out of `get_locations`. */
  function BatchLocations(batch: seq<string>, wire: Wire): Result<map<string, Coordinates>, LocatorError>
  {
    match BuildRequestPayload(batch, true, wire)
    case Failure(e) => Failure(e)
    case Success(frame) =>
      match FirstAccepted(frame, wire, 0)
      case None => Success(map[])
      case Some(k) => Success(DecodedLocations(wire.post(frame, k).content, wire))
  }

  /** Processing the batches in order, each batch's locations updating the
      dictionary found so far. */
  function Gather(found: map<string, Coordinates>, batches: seq<seq<string>>, wire: Wire): Result<map<string, Coordinates>, LocatorError>
    decreases |batches|
  {
    if batches == [] then Success(found)
    else match BatchLocations(batches[0], wire)
      case Failure(e) => Failure(e)
      case Success(m) => Gather(found + m, batches[1..], wire)
  }

  /** Left-to-right dictionary update starting from `acc`: later maps
      override earlier ones. */
  function MergeFrom(acc: map<string, Coordinates>, ms: seq<map<string, Coordinates>>): map<string, Coordinates>
    decreases |ms|
  {
    if ms == [] then acc else MergeFrom(acc + ms[0], ms[1..])
  }

  /** A key of the merge is a key of `acc` or of some map, and its value is
      the one from the LAST map that has the key (or from `acc` when none
      has it). */
  lemma {:induction false} MergeLastWins(acc: map<string, Coordinates>, ms: seq<map<string, Coordinates>>, b: string)
    ensures b in MergeFrom(acc, ms) <==> b in acc || exists i :: 0 <= i < |ms| && b in ms[i]
    ensures b in MergeFrom(acc, ms) && (forall i :: 0 <= i < |ms| ==> b !in ms[i]) ==> MergeFrom(acc, ms)[b] == acc[b]
    ensures b in MergeFrom(acc, ms) ==> forall i :: 0 <= i < |ms| && b in ms[i] && (forall j :: i < j < |ms| ==> b !in ms[j]) ==>
      MergeFrom(acc, ms)[b] == ms[i][b]
    decreases |ms|
  {
    if ms != [] {
      var rest := ms[1..];
      MergeLastWins(acc + ms[0], rest, b);
      assert forall i :: 0 < i < |ms| ==> ms[i] == rest[i - 1];
      assert (exists i :: 0 <= i < |ms| && b in ms[i]) <==> b in ms[0] || exists i :: 0 <= i < |rest| && b in rest[i];
    }
  }

  /** What each batch contributes, a batch that cannot be framed counting as
      the empty map. */
  function Contributions(batches: seq<seq<string>>, wire: Wire): (ms: seq<map<string, Coordinates>>)
    ensures |ms| == |batches|
  {
    if batches == [] then []
    else
      var r := BatchLocations(batches[0], wire);
      [if r.Success? then r.value else map[]] + Contributions(batches[1..], wire)
  }

  /** When every batch can be framed, the result is the left-to-right merge of
      the per-batch results (a batch whose retries ran out contributing the
      empty map). */
  lemma {:induction false} GatherIsMerge(found: map<string, Coordinates>, batches: seq<seq<string>>, wire: Wire)
    requires forall k :: 0 <= k < |batches| ==> BatchLocations(batches[k], wire).Success?
    ensures Gather(found, batches, wire) == Success(MergeFrom(found, Contributions(batches, wire)))
    decreases |batches|
  {
    if batches != [] {
      var m := BatchLocations(batches[0], wire).value;
      assert forall k :: 0 < k < |batches| ==> batches[1..][k - 1] == batches[k];
      GatherIsMerge(found + m, batches[1..], wire);
    }
  }

  /** A batch whose payload does not fit aborts the whole call with the error
      of the first such batch, whatever came before it. */
  lemma {:induction false} GatherStopsAtFirstBadFrame(found: map<string, Coordinates>, batches: seq<seq<string>>, wire: Wire, k: nat)
    decreases k
    requires k < |batches| && BatchLocations(batches[k], wire).Failure?
    requires forall j :: 0 <= j < k ==> BatchLocations(batches[j], wire).Success?
    ensures Gather(found, batches, wire) == Failure(BatchLocations(batches[k], wire).error)
  {
    if k > 0 {
      var m := BatchLocations(batches[0], wire).value;
      GatherStopsAtFirstBadFrame(found + m, batches[1..], wire, k - 1);
    }
  }

  /** The batches from position `i` on are the slice `i..hi` followed by the
      batches from `hi` on. */
  lemma NextBatch(bssids: seq<string>, i: nat, hi: nat)
    requires i < |bssids| && hi == if i + BSSID_BATCH_SIZE <= |bssids| then i + BSSID_BATCH_SIZE else |bssids|
    ensures Batches(bssids[i..]) == [bssids[i..hi]] + Batches(bssids[hi..])
  {
    var rest := bssids[i..];
    if |rest| > BSSID_BATCH_SIZE {
      assert rest[..BSSID_BATCH_SIZE] == bssids[i..hi];
      assert rest[BSSID_BATCH_SIZE..] == bssids[hi..];
    } else {
      assert rest == bssids[i..hi] && bssids[hi..] == [];
    }
  }

  lemma GatherStep(found: map<string, Coordinates>, batch: seq<string>, rest: seq<seq<string>>, wire: Wire)
    requires BatchLocations(batch, wire).Success?
    ensures Gather(found, [batch] + rest, wire) == Gather(found + BatchLocations(batch, wire).value, rest, wire)
  {
    assert ([batch] + rest)[1..] == rest;
  }

  /** What `get_locations` returns. */
  function Locations(bssids: seq<string>, wire: Wire): Result<map<string, Coordinates>, LocatorError>
  {
    if bssids == [] then Success(map[]) else Gather(map[], Batches(bssids), wire)
  }

  /** `get_locations`: one request per batch; a batch whose retries are
      exhausted is skipped, a payload that does not fit aborts. `requests`
      counts the POSTs made. `jitter(b, k)` is the jitter fraction drawn after
      failed attempt k of batch b. */
  method GetLocations(bssids: seq<string>, wire: Wire, jitter: (nat, nat) -> real)
    returns (result: Result<map<string, Coordinates>, LocatorError>, requests: nat)
    requires forall b, k :: 0.0 <= jitter(b, k) <= 1.0
    ensures result == Locations(bssids, wire)
    ensures bssids == [] ==> result == Success(map[]) && requests == 0
    ensures requests <= MAX_RETRIES * |Batches(bssids)|
  {
    requests := 0;
    if bssids == [] {
      return Success(map[]), requests;
    }
    var allLocationsFound: map<string, Coordinates> := map[];
    var i := 0;
    var batchNo := 0;
    ghost var target := Gather(map[], Batches(bssids), wire);
    while i < |bssids|
      invariant i == batchNo * BSSID_BATCH_SIZE
      invariant i <= |bssids| ==> Gather(allLocationsFound, Batches(bssids[i..]), wire) == target
      invariant i > |bssids| ==> Success(allLocationsFound) == target
      invariant requests <= MAX_RETRIES * batchNo
      invariant batchNo <= |Batches(bssids)|
      invariant batchNo < |Batches(bssids)| ==> i < |bssids|
      decreases |bssids| - i
    {
      var hi := if i + BSSID_BATCH_SIZE <= |bssids| then i + BSSID_BATCH_SIZE else |bssids|;
      var batch := bssids[i..hi];
      NextBatch(bssids, i, hi);
      BatchesCount(bssids);
      var requestData := BuildRequestPayload(batch, true, wire);
      if requestData.Failure? {
        return Failure(requestData.error), requests;
      }
      ghost var before := allLocationsFound;
      ghost var m := BatchLocations(batch, wire).value;
      GatherStep(before, batch, Batches(bssids[hi..]), wire);
      var outcome, attempts, sleeps := MakeRequestWithBackoff(requestData.value, wire, (k: nat) => jitter(batchNo, k));
      requests := requests + attempts;
      if outcome.Success? {
        var batchResults := ParseResponse(outcome.value, wire);
        allLocationsFound := allLocationsFound + batchResults;
      }
      // otherwise the `RequestException` is logged and the batch skipped
      assert allLocationsFound == before + m;
      if hi == |bssids| {
        assert Batches(bssids[hi..]) == [];
      }
      i := i + BSSID_BATCH_SIZE;
      batchNo := batchNo + 1;
    }
    result := Success(allLocationsFound);
  }

  /** `find_nearby_from_base`: one request for one BSSID, asking for the
      neighbourhood; unlike `get_locations` an exhausted retry loop raises. */
  method FindNearbyFromBase(baseBssid: string, wire: Wire, jitter: nat -> real)
    returns (result: Result<map<string, Coordinates>, LocatorError>)
    requires forall k :: 0.0 <= jitter(k) <= 1.0
    ensures BuildRequestPayload([baseBssid], false, wire).Failure? ==>
      result == Failure(BuildRequestPayload([baseBssid], false, wire).error)
    ensures BuildRequestPayload([baseBssid], false, wire).Success? ==>
      var frame := BuildRequestPayload([baseBssid], false, wire).value;
      && (FirstAccepted(frame, wire, 0).None? ==> result == Failure(RetriesExhausted))
      && (FirstAccepted(frame, wire, 0).Some? ==>
            result == Success(DecodedLocations(wire.post(frame, FirstAccepted(frame, wire, 0).value).content, wire)))
  {
    var requestData := BuildRequestPayload([baseBssid], false, wire);
    if requestData.Failure? {
      return Failure(requestData.error);
    }
    var outcome, attempts, sleeps := MakeRequestWithBackoff(requestData.value, wire, jitter);
    if outcome.Failure? {
      return Failure(outcome.error);
    }
    var found := ParseResponse(outcome.value, wire);
    return Success(found);
  }
}
