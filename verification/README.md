# Sauron data-shaping core in Dafny

Sauron collects Wi-Fi access points (BSSIDs) from the `airport -s` scan of a
laptop and asks Apple's Wi-Fi location service where they are. It stores
location pings in PostgreSQL, serves trajectories and device lists over a
Flask REST API, draws movement maps with folium and shows everything in a
Next.js front end that includes a streaming chat assistant.

This project models the logic of that system that shapes and transforms
data. It has one module per source file, plus shared helpers:

| module | source | what it models |
|---|---|---|
| `AppleLocator` | backend/app/services/apple_locator.py | batching of BSSIDs by 15; request framing (prefix, one length byte, payload); response decoding after a 10-byte header, dropping entries that have no location or carry the sentinel latitude; merging of batch results; the retry loop with capped exponential backoff |
| `WifiScanner` | backend/app/services/wifi_scanner.py | `strip`, split into lines, header skipped; the leftmost MAC-shaped token of each line as BSSID and the stripped text before it as SSID; error when nothing is found |
| `Routes` | backend/app/api/routes.py | pagination arguments, links, page and pages of `GET /devices` and the ISO formatting of its device rows; `check_if_static`; the `is_static` filter of `GET /trajectories`, with the `lat`/`lon` keys the rows carry (see Findings; as written it reads `latitude`: `Routes.AsWrittenFilterRaises`) |
| `Queries` | backend/app/db/queries.py | grouping of the area query's rows into per-BSSID trajectories; the insert rows of `process_scraped_data` and `insert_tracking_pings`, with their `POINT(lon lat)` text; the empty-input guards; the offset drawn by `get_bssid_for_seeding`; `get_latest_pings_for_bssids` |
| `MovementMap` | backend/generate_map.py | `create_movement_map`: pings without coordinates dropped, grouping by BSSID, stable sort by time, one `[lon, lat]` path with parallel timestamps per device, map centre |
| `Chat` | frontend/hooks/use-chat.ts | `sendMessage` as a class `ChatState` with `messages`, `isLoading` and `error`; extraction of `data: ` events from the stream; updates of the placeholder message |
| `ApiClient` | frontend/lib/api.ts | `apiRequest`'s URL and error rule; the `URLSearchParams` query strings of `getMovementTrajectories` and `getDevices`, serialized as the WHATWG URL Standard prescribes (section 5.2, application/x-www-form-urlencoded) |
| `Strings`, `Grouping`, `Sublists`, `Wrappers` | — | `split`/`join`/`replace`/lower-casing; "keys in first-appearance order" and "the members of a key"; order-keeping filters; `Option` and `Result` |

The model covers both the imperative and the pure code:

- **Loops become methods.** Source loops that update local state, dictionaries or lists are methods with loop invariants, each proved against a specification function. These include the retry loop, the batch loop, the response-decoding loop, the scan loop, `check_if_static`, the `links` dictionary, the grouping loops, the row-building loops and the chat reader loops.
- **Pure code becomes functions.** Comprehensions and pure helpers are functions, and lemmas state what the source promises about them.
- **The exception flow is modelled as it actually runs.**
  - `requests.HTTPError` is a subclass of `RequestException`, so the first handler of the retry loop catches it. Client errors (4xx) are therefore retried like any other failure, and the branch at apple_locator.py:47-55 never runs.
  - `bytes([n])` raises `ValueError` for a payload of 256 bytes or more. `get_locations` does not catch that, so the error ends the whole call.

## Model

| member | source | states |
|---|---|---|
| AppleLocator.RequestMessage | backend/app/services/apple_locator.py:70-75 | `unknown_value1` is 0; the single-result flag is 0 or 1, and 1 exactly when `single_result` is true; one entry per BSSID, in order, of the same length, with no upper-case letter left and every other character kept |
| AppleLocator.Frame | backend/app/services/apple_locator.py:77 | succeeds exactly when the payload is shorter than 256 bytes; the frame is `HEADER_PREFIX`, then one byte equal to the payload length, then the payload; otherwise it fails with the payload length |
| AppleLocator.FrameRoundTrip | backend/app/services/apple_locator.py:77 | unframing a frame gives its payload back, and a byte string that unframes to a payload is exactly that payload's frame |
| AppleLocator.BuildRequestPayload | backend/app/services/apple_locator.py:68-77 | succeeds exactly when the serialized message is shorter than 256 bytes, and the frame it returns unframes to that serialized message |
| AppleLocator.ToCoordinates | backend/app/services/apple_locator.py:90-91 | latitude and longitude are the integer units scaled by 1e-8 |
| AppleLocator.LocationsOfSound | backend/app/services/apple_locator.py:88-92 | every BSSID in the result belongs to a device that has a location whose latitude is not the sentinel; its coordinates are those of the last such device with that BSSID |
| AppleLocator.LocationsOfComplete | backend/app/services/apple_locator.py:88-92 | every device that has a location whose latitude is not the sentinel puts its BSSID in the result |
| AppleLocator.NoSentinelInResult | backend/app/services/apple_locator.py:89 | no decoded location has the sentinel latitude (−180 degrees) |
| AppleLocator.ParseResponse | backend/app/services/apple_locator.py:79-93 | the loop computes the decoded locations of the bytes after the 10-byte header; a response of at most 10 bytes, or one that does not parse, gives `{}` |
| AppleLocator.FirstAccepted | backend/app/services/apple_locator.py:35-41 | the index of the first attempt, below 7, whose POST succeeds (every earlier one having failed), or none when all seven fail |
| AppleLocator.FirstAcceptedIs | backend/app/services/apple_locator.py:35-41 | an accepted attempt with only failures before it is the one the loop returns |
| AppleLocator.NoneAccepted | backend/app/services/apple_locator.py:35-66 | with seven failures no attempt is accepted |
| AppleLocator.DelayBounds | backend/app/services/apple_locator.py:33-63 | every delay lies between 2 and 600 seconds, and the next delay is never smaller, for any jitter in `[0, 0.1·delay]` |
| AppleLocator.AllDelayBounds | backend/app/services/apple_locator.py:58-63 | a list of slept delays stays within 2..600 and never decreases |
| AppleLocator.MakeRequestWithBackoff | backend/app/services/apple_locator.py:28-66 | at most 7 attempts. If attempt k is the first accepted, it returns that response after k attempts failed and k sleeps. Otherwise it fails after 7 attempts and 7 sleeps. The i-th sleep is the i-th delay: within 2..600 and non-decreasing |
| AppleLocator.BatchesConcat | backend/app/services/apple_locator.py:102-103 | the batches, concatenated in order, are the input list |
| AppleLocator.BatchesCount | backend/app/services/apple_locator.py:102 | there are ⌈n/15⌉ batches |
| AppleLocator.BatchSlice | backend/app/services/apple_locator.py:102-103 | batch k is the non-empty slice `bssids[15k : min(15k+15, n)]` |
| AppleLocator.MergeLastWins | backend/app/services/apple_locator.py:109 | a key is in the merge exactly when the start map or some batch map has it; its value comes from the last batch map holding it, else from the start map |
| AppleLocator.GatherIsMerge | backend/app/services/apple_locator.py:104-113 | when every batch can be framed, the result is the left-to-right merge of the batch results; a batch whose retries ran out contributes nothing and later batches still run |
| AppleLocator.GatherStopsAtFirstBadFrame | backend/app/services/apple_locator.py:104-113 | the first batch that cannot be framed ends the whole call with its error |
| AppleLocator.GetLocations | backend/app/services/apple_locator.py:95-115 | the batch loop computes the reference result; an empty list gives `{}` with no request made; at most 7 requests per batch |
| AppleLocator.FindNearbyFromBase | backend/app/services/apple_locator.py:117-125 | frames the single BSSID with the single-result flag off; returns the framing error, the exhausted-retries error, or the decoded locations of the first accepted response |
| Strings.LowerIdempotent | backend/app/services/apple_locator.py:75 | lower-casing twice is lower-casing once |
| WifiScanner.StripStart | backend/app/services/wifi_scanner.py:48 | the first non-whitespace position at or after `from`, with only whitespace skipped |
| WifiScanner.StripEnd | backend/app/services/wifi_scanner.py:48 | the end of the text once trailing whitespace is cut, with only whitespace cut |
| WifiScanner.StripShape | backend/app/services/wifi_scanner.py:48 | `strip()` returns a slice of its input with only whitespace cut at both ends, and it neither starts nor ends with whitespace |
| WifiScanner.StripIdempotent | backend/app/services/wifi_scanner.py:48 | stripping twice is stripping once |
| WifiScanner.MatchSound | backend/app/services/wifi_scanner.py:45 | what the matcher accepts is n+1 groups of 1–2 hex digits joined by colons |
| WifiScanner.MatchComplete | backend/app/services/wifi_scanner.py:45 | whenever such groups span a piece of the line, the matcher succeeds from its start and ends no earlier |
| WifiScanner.SearchFrom | backend/app/services/wifi_scanner.py:52 | the first position at or after `from` where the pattern matches, with no match before it, or none when there is none at all |
| WifiScanner.SearchIsLeftmostLongest | backend/app/services/wifi_scanner.py:45-54 | `search` succeeds exactly when the line holds a MAC; the match is a MAC, no MAC starts earlier, and none starting at the same place is longer |
| WifiScanner.NetworkOf | backend/app/services/wifi_scanner.py:52-57 | a line yields a network exactly when the search finds a match |
| WifiScanner.EntriesFollowLines | backend/app/services/wifi_scanner.py:50-57 | the k-th network is the one read from the k-th line that holds a MAC |
| WifiScanner.YieldingLinesIncrease | backend/app/services/wifi_scanner.py:50-57 | networks come out in line order, at most one per line |
| WifiScanner.YieldingLinesExact | backend/app/services/wifi_scanner.py:52-53 | a line yields a network exactly when it holds six groups of 1–2 hex digits joined by five colons |
| WifiScanner.EntriesWellFormed | backend/app/services/wifi_scanner.py:54-56 | every BSSID is a MAC, and every SSID neither starts nor ends with whitespace |
| WifiScanner.ScanForNetworks | backend/app/services/wifi_scanner.py:45-62 | the loop computes the reference parse; a success is never empty |
| WifiScanner.ScanSuccessWellFormed | backend/app/services/wifi_scanner.py:59-62 | a successful scan is non-empty and every BSSID in it matches the MAC pattern |
| WifiScanner.HeaderSkipped | backend/app/services/wifi_scanner.py:48 | the first line of the stripped output is dropped, and the lines scanned are exactly the rest |
| WifiScanner.SingleLineFindsNothing | backend/app/services/wifi_scanner.py:48-60 | output of a single line (the header) raises the no-networks error |
| Routes.ParsePagination | backend/app/api/routes.py:27-33 | accepts exactly when both arguments are integers (defaults 100 and 0), the limit is positive and the offset non-negative; every rejection is a 400, and it carries the "must be integers" message exactly when an argument is not an integer |
| Routes.DefaultPagination | backend/app/api/routes.py:28-29 | no arguments mean limit 100 and offset 0 |
| Routes.PrevOffset | backend/app/api/routes.py:51-52 | the previous page's offset is never negative and is below the current offset |
| Routes.NextThenPrev | backend/app/api/routes.py:48-53 | following `next` and then `prev` comes back to the same offset |
| Routes.PrevThenNext | backend/app/api/routes.py:48-53 | from at least one full page in, following `prev` and then `next` comes back too |
| Routes.BuildLinks | backend/app/api/routes.py:45-53 | `self` is always present. `next` is present exactly when offset + limit < total, and carries offset + limit. `prev` is present exactly when offset > 0, and carries max(0, offset − limit), which is below the offset and never negative |
| Routes.Page | backend/app/api/routes.py:61 | page ≥ 1 and (page − 1)·limit ≤ offset < page·limit |
| Routes.Pages | backend/app/api/routes.py:62 | pages = ⌈total/limit⌉: (pages − 1)·limit < total ≤ pages·limit when total > 0, and 0 when total = 0 |
| Routes.PageWithinPages | backend/app/api/routes.py:61-62 | a page that starts inside the collection is between 1 and the number of pages |
| Routes.SerializeDevice | backend/app/api/routes.py:38-41 | the row keeps its keys and other values; `first_seen_at` and `last_seen_at` become their ISO text |
| Routes.SerializeDevices | backend/app/api/routes.py:37-42 | succeeds exactly when every row has both timestamps as datetimes, and then gives each row serialized, in order |
| Routes.ListAllDevices | backend/app/api/routes.py:22-69 | a rejected argument gives its 400; a failing query or a row whose timestamps cannot be formatted gives a 500. Otherwise the response holds the serialized devices, the total, limit and offset, the page and pages above, and the links above |
| Routes.PointOf | backend/app/api/routes.py:179-181 | a point is read only when both keys are present; the latitude key is read first, so its `KeyError` comes first |
| Routes.StaticFromIsStatic | backend/app/api/routes.py:180-186 | the loop from point i on returns true exactly when every later point is within 10 m of the first point |
| Routes.StaticVerdictIsStatic | backend/app/api/routes.py:176-186 | on points that carry the keys, the verdict is the reference definition: fewer than two points, or every later point within 10 m (inclusive) of the first point |
| Routes.CheckIfStatic | backend/app/api/routes.py:168-186 | the early-exit loop returns the verdict, and on points that carry the keys it returns the reference definition |
| Routes.AsWrittenRaisesOnQueryRows | backend/app/api/routes.py:179 | read as written (`latitude`), any trajectory of two or more query points raises `KeyError('latitude')` |
| Routes.StaticRequested | backend/app/api/routes.py:118 | an absent argument means no filter; the filter is asked for exactly when the argument has 4 characters that lower-case to `true` |
| Routes.StaticRequestedIgnoresCase | backend/app/api/routes.py:118 | every capitalisation of `true` asks for the filter |
| Routes.AsWrittenFilterRaises | backend/app/api/routes.py:136 | read as written, the filter raises as soon as the area holds a trajectory of two or more points |
| Routes.FilterStaticIsFilter | backend/app/api/routes.py:136 | on points that carry their coordinates, the filter is the order-keeping sublist of the static trajectories |
| Routes.FilteredTrajectories | backend/app/api/routes.py:131-142 | a failing query gives a 500; without the filter the query's trajectories come back unchanged. The filter reads the `lat`/`lon` keys the rows carry (see Findings; as written: `Routes.AsWrittenFilterRaises`) |
| Routes.FilteredTrajectoriesAreStatic | backend/app/api/routes.py:133-136 | with the filter reading the `lat`/`lon` keys the rows carry (see Findings; as written: `Routes.AsWrittenFilterRaises`), the response is exactly the static trajectories, in query order |
| Sublists.FilterAtKeptIndices | backend/app/api/routes.py:136 | the filtered list is the input at the kept indices, in order |
| Queries.PointOf | backend/app/db/queries.py:195-199 | a point holds `lat`, `lon` and the ISO timestamp of its row, and no `latitude` or `longitude` key |
| Queries.PointsOf | backend/app/db/queries.py:195-199 | one point per row, in row order |
| Queries.GroupsOf | backend/app/db/queries.py:190-201 | one trajectory per key, holding exactly that key's rows in row order |
| Queries.GetTrajectoriesInArea | backend/app/db/queries.py:167-201 | the dictionary loop computes the reference grouping: `[]` without a connection, else one trajectory per BSSID in order of first appearance |
| Queries.GroupStep | backend/app/db/queries.py:191-199 | one row keeps the loop invariant: keys in first-appearance order, each value the trajectory of the rows so far |
| Queries.TrajectoriesStep | backend/app/db/queries.py:193-199 | appending a row's point to its BSSID's trajectory (created on first sight) keeps every trajectory equal to its rows so far |
| Queries.Assemble | backend/app/db/queries.py:201 | `list(trajectories.values())` in key insertion order is the reference grouping |
| Queries.PointsSnoc | backend/app/db/queries.py:195 | one more row appends one more point |
| Queries.TotalPointsOfGroups | backend/app/db/queries.py:190-201 | the trajectories hold as many points as their keys have rows |
| Queries.TrajectoriesPartitionRows | backend/app/db/queries.py:190-201 | BSSIDs are distinct, every row's BSSID has a trajectory, and the points add up to the number of rows |
| Queries.TrajectoryPointKeys | backend/app/db/queries.py:195-199 | every trajectory point carries `lat` and `lon` and neither `latitude` nor `longitude` |
| Queries.Wkt | backend/app/db/queries.py:136 | the text is a `POINT(` … `)` form |
| Queries.WktRoundTrip | backend/app/db/queries.py:323 | the point text reads back as (longitude, latitude), longitude first |
| Queries.PingRowOf | backend/app/db/queries.py:321-324 | a row keeps the ping's BSSID, timestamp and coordinates; its location is null exactly when lat or lon is null, and otherwise is `POINT(lon lat)` |
| Queries.InsertTrackingPings | backend/app/db/queries.py:314-332 | empty input or no connection returns 0 with nothing executed; otherwise it hands over one row per ping, in order, and returns the number of pings |
| Queries.ProcessScrapedData | backend/app/db/queries.py:121-145 | empty input or no connection returns 0 with nothing executed. Otherwise there is one device upsert and one ping row per BSSID, in order, with BSSIDs distinct; it returns their number |
| Queries.GetBssidForSeeding | backend/app/db/queries.py:204-215 | no connection, no count row or a count of 0 gives none without drawing. Otherwise it returns the device at the drawn offset, which lies in 0..count−1 |
| Queries.LatestByBssid | backend/app/db/queries.py:307 | every row's BSSID is a key, and every key's value comes from a row with that BSSID |
| Queries.LatestPingsForBssids | backend/app/db/queries.py:291-307 | an empty list of BSSIDs or no connection gives `{}`; otherwise the keys are exactly the BSSIDs of the rows |
| Grouping.KeysDistinct | backend/app/db/queries.py:193-194 | the keys in first-appearance order are distinct |
| Grouping.GroupsPartition | backend/app/db/queries.py:190-201 | every element's key is listed, and the groups add up to the whole input |
| MovementMap.InsertByTime | backend/generate_map.py:58 | inserting keeps every ping and adds exactly the new one |
| MovementMap.SortByTime | backend/generate_map.py:58 | the sorted group is a permutation of the group |
| MovementMap.InsertKeepsSorted | backend/generate_map.py:58 | inserting into a time-ordered list keeps it time-ordered |
| MovementMap.SortByTimeSorted | backend/generate_map.py:58 | the sorted group is in non-decreasing time order |
| MovementMap.InsertStable | backend/generate_map.py:58 | inserting keeps the relative order of the pings of any one instant |
| MovementMap.SortByTimeStable | backend/generate_map.py:58 | the sort is stable: the pings of any one instant keep their input order |
| MovementMap.LocatedSnoc | backend/generate_map.py:36-39 | a ping reaches the groups exactly when it has both coordinates |
| MovementMap.LocatedIsFilter | backend/generate_map.py:37-39 | the pings that reach the groups are the order-keeping filter on "lat and lon not None" |
| MovementMap.LocatedExact | backend/generate_map.py:37-39 | a ping reaches the groups exactly when it was fetched and has both coordinates |
| MovementMap.GroupStep | backend/generate_map.py:36-39 | one ping keeps the grouping invariant |
| MovementMap.OrderStep | backend/generate_map.py:39 | the `defaultdict`'s keys stay in order of first appearance |
| MovementMap.ListsStep | backend/generate_map.py:39 | every list stays equal to its BSSID's pings so far |
| MovementMap.FirstOfFirstGroup | backend/generate_map.py:42-46 | the dictionary is empty exactly when no ping has coordinates; otherwise the first list's first ping is the first ping with coordinates |
| MovementMap.FeaturesFromGroups | backend/generate_map.py:55-64 | the feature loop's result, taken in key order, is the reference list of features |
| MovementMap.GroupByBssid | backend/generate_map.py:35-39 | the grouping loop leaves the keys in first-appearance order, each holding exactly its BSSID's pings with coordinates |
| MovementMap.BuildFeatures | backend/generate_map.py:55-64 | one feature per key, in key order, each its sorted list turned into a path |
| MovementMap.CreateMovementMap | backend/generate_map.py:28-64 | the method computes the reference outcome of the fetched pings |
| MovementMap.Outcomes | backend/generate_map.py:28-46 | no pings gives no map; no ping with coordinates gives no map. Otherwise the map is centred on `[lat, lon]` of the first ping with coordinates, the reverse of the geometry's `[lon, lat]` |
| MovementMap.FeatureBssids | backend/generate_map.py:56 | the features' BSSIDs are the located BSSIDs in order of first appearance |
| MovementMap.FeaturesDistinct | backend/generate_map.py:56 | no BSSID has two features |
| MovementMap.EveryLocatedDeviceDrawn | backend/generate_map.py:36-56 | every device with a ping that has coordinates has a feature |
| MovementMap.EveryFeatureLocated | backend/generate_map.py:36-56 | every feature belongs to a device with a ping that has coordinates |
| MovementMap.FeaturesInFirstAppearanceOrder | backend/generate_map.py:35-56 | feature a precedes feature b exactly as their devices' first located pings do |
| MovementMap.DeviceGroup | backend/generate_map.py:36-39 | a device's list holds exactly its pings with coordinates |
| MovementMap.FeatureShape | backend/generate_map.py:58-64 | the k-th coordinate is `[lon, lat]` and the k-th time the ISO timestamp of the k-th ping of the sorted group; both lists have the group's length |
| MovementMap.FeatureOfDevice | backend/generate_map.py:36-64 | a device's feature is its located pings sorted by time, and every point of its path has both coordinates |
| MovementMap.PointCountOfKeys | backend/generate_map.py:61 | the features of a list of keys hold as many points as those keys have pings |
| MovementMap.EveryLocatedPingDrawnOnce | backend/generate_map.py:36-61 | the features hold exactly as many points as there are pings with coordinates |
| Strings.ReplaceLeadingPrefix | frontend/hooks/use-chat.ts:59 | replacing the first occurrence of a prefix the text starts with removes exactly that prefix |
| Strings.SplitJoin | frontend/hooks/use-chat.ts:56 | splitting parts joined by a character none of them contains gives the parts back |
| Chat.SegmentsArePayloads | frontend/hooks/use-chat.ts:56-59 | one segment per `\n\n` piece that starts with `data: `, in order; each is that piece without its leading `data: ` and holds no `\n\n` |
| Chat.DataPiecesKept | frontend/hooks/use-chat.ts:56 | a piece is kept exactly when it starts with `data: ` |
| Chat.SingleEvent | frontend/hooks/use-chat.ts:56-59 | a chunk holding one `data: ` event yields exactly its payload |
| Chat.SingleDataLine | frontend/hooks/use-chat.ts:56 | a chunk with no `\n\n` that starts with `data: ` is its own only piece |
| Chat.NonDataChunk | frontend/hooks/use-chat.ts:56 | a chunk with no `\n\n` that does not start with `data: ` yields nothing |
| Chat.ApplySegmentsAppends | frontend/hooks/use-chat.ts:58-69 | every message with the placeholder's id gets the concatenated truthy responses appended; every other message is unchanged |
| Chat.ApplySegmentsConcat | frontend/hooks/use-chat.ts:51-75 | processing chunks one after another is processing their segments in one go |
| Chat.ResponseTextAppend | frontend/hooks/use-chat.ts:51-75 | the text streamed from two runs of segments is the first's followed by the second's |
| Chat.UnparsableSkipped | frontend/hooks/use-chat.ts:60-73 | a segment that fails to parse adds nothing, and the segments after it still count |
| Chat.UserIdIsNotPlaceholderId | frontend/hooks/use-chat.ts:23-29 | the user message's id is never the placeholder's id |
| Chat.SendAppendsTwo | frontend/hooks/use-chat.ts:22-34 | a send appends the user message and then an assistant message with the placeholder's id. Earlier messages keep their ids and roles, and those whose id differs from the placeholder's are unchanged |
| Chat.PlaceholderContent | frontend/hooks/use-chat.ts:62-85 | the placeholder ends with the streamed text, or with `Error: ` and the failure's message |
| Chat.RequestFailureShown | frontend/hooks/use-chat.ts:43-82 | a response that is not ok leaves `Error: API request failed: ` and the status text in the placeholder |
| Chat.ChatState.constructor | frontend/hooks/use-chat.ts:12-14 | no messages, not loading, no error |
| Chat.ChatState.SendMessage | frontend/hooks/use-chat.ts:16-88 | a blank message changes nothing. Otherwise the messages become the two appended messages, updated by the stream or the failure; `isLoading` ends false, and `error` holds the failure if there was one |
| Chat.ChatState.ReadStream | frontend/hooks/use-chat.ts:51-75 | the reader loop applies the segments of all chunks, in order, to the messages |
| Chat.ChatState.ReadChunk | frontend/hooks/use-chat.ts:56-74 | the segment loop applies one chunk's segments, in order, to the messages |
| ApiClient.BaseUrl | frontend/lib/api.ts:2 | the base URL is never empty, and is the environment variable when that is set and non-empty |
| ApiClient.Digits | frontend/lib/api.ts:92-93 | the decimal text of a natural number is non-empty and all digits |
| ApiClient.DigitsValueOf | frontend/lib/api.ts:92-93 | the digits read back as the number |
| ApiClient.DecimalRoundTrip | frontend/lib/api.ts:92-93 | the decimal text of any integer reads back as that integer |
| ApiClient.DecimalSafe | frontend/lib/api.ts:92-93 | an integer's text needs no percent-encoding |
| ApiClient.Utf8 | frontend/lib/api.ts:81 | one to four bytes, each below 256; an ASCII character is its own byte; otherwise a lead byte ≥ 0xC0 followed by continuation bytes in 0x80..0xBF |
| ApiClient.Utf8String | frontend/lib/api.ts:81 | the UTF-8 encoding of a text consists of bytes |
| ApiClient.DecodeEncodedByte | frontend/lib/api.ts:81 | one encoded byte decodes back to itself |
| ApiClient.DecodeEncodeBytes | frontend/lib/api.ts:81 | percent-decoding undoes the byte serializer |
| ApiClient.FormRoundTrip | frontend/lib/api.ts:81 | decoding the serialized text gives the UTF-8 bytes of the original |
| ApiClient.EncodeBytesPlain | frontend/lib/api.ts:81 | a serialized name or value never contains `&` or `=` |
| ApiClient.FormEncodeSafe | frontend/lib/api.ts:81 | text made only of characters that need no escaping is serialized unchanged |
| ApiClient.Without | frontend/lib/api.ts:77-79 | removing a name leaves no pair with that name |
| ApiClient.WithoutGet | frontend/lib/api.ts:77-79 | after removing a name it is absent, and every other name keeps its value |
| ApiClient.SetParamGet | frontend/lib/api.ts:77-79 | after `set` the name occurs exactly once, with the new value, and every other name keeps its value |
| ApiClient.SetParamAbsent | frontend/lib/api.ts:77-79 | setting an absent name appends the pair |
| ApiClient.QueryRoundTrip | frontend/lib/api.ts:81 | the query string splits on `&` into one piece per pair, and each piece splits on `=` into the encoded name and value, which decode to their UTF-8 bytes |
| ApiClient.RequestOutcomes | frontend/lib/api.ts:50-67 | a request succeeds exactly when the response is ok and its JSON parses, and returns that JSON; a response that is not ok fails with a message starting `API request failed: ` |
| ApiClient.AreaParamsAllOrNothing | frontend/lib/api.ts:75-80 | lat, lon and radius (in metres, radius × 1000) are set, in that order, when all three are truthy; otherwise there are no parameters |
| ApiClient.TrajectoriesQuery | frontend/lib/api.ts:75-81 | the query is `lat=…&lon=…&radius=…` of the encoded values when all three are truthy, and empty otherwise |
| ApiClient.TrajectoriesUrl | frontend/lib/api.ts:51-81 | the request goes to base + `/api/movement/trajectories?` + the query |
| ApiClient.TimeRangeUrl | frontend/lib/api.ts:85-87 | the request goes to base + `/api/movement/time-range` |
| ApiClient.DevicesQuery | frontend/lib/api.ts:90-96 | the query always carries both `limit` and `offset`, defaulting to 100 and 0 |
| ApiClient.DevicesUrl | frontend/lib/api.ts:96 | the request goes to base + `/api/devices?` + the query |
| ApiClient.DevicesDefaultUrl | frontend/lib/api.ts:90-96 | without arguments the request goes to base + `/api/devices?limit=100&offset=0` |

## Left out

- SQL text, `psycopg2`, cursors, transactions and `handle_db_reconnection` are not modelled. Whether a connection was obtained and what a query fetched are inputs. The rows handed to `executemany` are results.
- `get_all_devices`, `get_path_for_bssid`, `get_all_bssids`, `get_all_movement_pings`, `setup_*`, the queue and story helpers (backend/app/db/queries.py) are left out. They are single SQL statements or a comprehension over fetched rows with no logic of their own.
- `get_device_trajectory` and `chat_with_llm` (backend/app/api/routes.py:72-103, 145-165) are left out: beyond `check_if_static` they are I/O.
- The argument parsing of `get_filtered_trajectories` (`float`, `int`, `datetime.fromisoformat`, routes.py:113-129) is left out. Only the `is_static` argument is modelled. The `isStatic is None` branch at routes.py:122-123 can never run.
- `url_for` formatting is not modelled: a link is the limit and offset it carries.
- `datetime.isoformat` is not modelled: it is a function parameter.
- Protobuf encoding and decoding, `requests.post`, `JSON.parse`, `fetch`, `TextDecoder` and the server-sent-event transport are function parameters.
- Running `airport -s` and remapping its errors (backend/app/services/wifi_scanner.py:29-41) is not modelled: the output is the input.
- `time.sleep` is a recorded delay.
- `random.uniform` jitter is a parameter bounded to `[0, 0.1·delay]`.
- `random.randint` is a parameter bounded to its inclusive range.
- The random device colour (backend/generate_map.py:67) and all folium rendering (backend/generate_map.py:49, 69-109) are left out.
- AppleLocator.ToCoordinates: coordinates are exact reals. The 1e-8 scaling is not rounded as IEEE doubles are.
- ApiClient.AreaParamsAllOrNothing: radius × 1000 is exact, with no double rounding. Numbers are reals, so there is no NaN, which JavaScript's `&&` would also treat as falsy.
- `Number.prototype.toString` and Python's `str` of a float are parameters; the model does not format reals itself.
- ApiClient.GetDevices: `limit` and `offset` are integers. Non-integer numbers, whose text `toString` produces, are not modelled.
- ApiClient.BaseUrl: `process.env.NEXT_PUBLIC_API_URL` is an optional text given as a parameter.
- Chat.ChatState.SendMessage: React's batched, asynchronous state updates are not modelled. The updates apply in program order, and nothing interleaves another send.
- `Date.now()` is given as the two texts it produced.
- Chat.IsJsSpace: `trim` is modelled over the white-space and line-terminator characters of ECMAScript. `JSON.parse` and the truthiness of `parsed.response` are folded into the `parse` parameter.
- `response.text()` rejecting inside the error path of `apiRequest` is not modelled.
- Strings.Lower: only ASCII letters are lower-cased. Python's `str.lower` also maps non-ASCII letters, which a BSSID does not contain. For the `is_static` argument the model is still exact, because no non-ASCII character lower-cases to a letter of `true`.
- MovementMap.SortByTime: `list.sort` is modelled as a pure stable sort of a sequence, not an in-place update of the list. The timestamp is modelled as an integer instant.
- Logging is left out.

## Findings

| source | as written | input that shows it | evidently intended | confidence | as-written member | corrected member |
|---|---|---|---|---|---|---|
| backend/app/api/routes.py:179-181 | `check_if_static` reads `point['latitude']` and `point['longitude']`, but the trajectory points built by `get_trajectories_in_area` carry only `lat` and `lon` (backend/app/db/queries.py:180-181, 195-197). | `GET /trajectories?...&is_static=true` with any device in the area having two or more points: `KeyError('latitude')` is caught and the endpoint answers 500 | read the `lat` and `lon` keys, so the response is the order-keeping sublist of the static trajectories | not executed | Routes.AsWrittenFilterRaises | Routes.FilterStaticIsFilter |
