# Re-Route, the Chungju bus routing app: a Dafny model of its core

Re-Route helps riders in Chungju get between the university (KNUT), Chungju station and the
intercity bus terminal. A Spring backend does four things:

- It reads a spreadsheet timetable and answers "which buses leave this stop next".
- It converts the live TAGO arrival feed into arrival records.
- It checks whether a bus on its route will reach the destination stop.
- It scores the direct routes between the stops nearest two coordinates, then builds a walk / bus / walk
  journey from the route it picks.

A React Native frontend merges the live and the timetable arrivals. It also holds the state of
the community board, favourites, sign-up, profile editing and destination search screens.

The model follows the program's structure, one module per source file:

| module | models |
|---|---|
| `LocalBusArrival` | the spreadsheet timetable: header detection, station columns, time cells, normalisation, next departures |
| `TagoArrivalClient` | the TAGO arrival items converted to arrival records |
| `EtaProvider` | the arrival queries of `ETARawDataProvider` |
| `RouteCache`, `RouteService` | the stop-order map of each route, cached |
| `PathService` | which buses at `from` are on the way to `to` |
| `PathStationMapper`, `StationIds` | the place codes and the stop ids they stand for |
| `RouteFilter` | the route table queries and the candidate routes |
| `RoutingService` | the search response built from the two nearest stops |
| `RoutingAlgorithm` | the scoring of candidates and the journey of the best one |
| `BusApi` | the frontend's adapters for the backend's JSON and the arrival merge |
| `CommunityPage`, `FavoritesScreen`, `SignUpScreen`, `EditProfileScreen`, `SearchScreen` | the screens' state cells and handlers |

Shared modules hold the language semantics the code relies on:

- `Wrappers`: `Option` for `null`, and `Result` for an exception that escapes.
- `JavaInt`: 32-bit wrap-around and truncating division.
- `Strings`: Java `trim`/`isBlank`, JavaScript `trim`, `contains`, UTF-16 length and decimal text.
- `Sorting`: a stable sort by key, `distinct` and `limit`.
- `Lists`: the array `filter` the screens use.

State that the source changes in place is modelled as a class with fields: the timetable, the
route cache, the route service's cache, and each screen's state cells. A screen handler reads the
values of the render it runs in, which are the fields' values on entry (`old(...)` in the
contracts). Pure conversions are functions. Loops in the source are methods with loop invariants,
each proved equal to a specification function whose properties are proved as lemmas.

## Model

| member | source | states |
|---|---|---|
| JavaInt.Wrap | backend/src/main/java/run_lion/reroute/realtimebus/client/TagoArrivalClient.java:76 | the result is a 32-bit value congruent to the input modulo 2^32, and equal to it when it already fits |
| JavaInt.DivTrunc | backend/src/main/java/run_lion/reroute/realtimebus/client/TagoArrivalClient.java:76 | Java `/` by a positive divisor truncates toward zero, for negative dividends too |
| JavaInt.CeilMinutesRoundsUp | backend/src/main/java/run_lion/reroute/realtimebus/client/TagoArrivalClient.java:75-76 | `(seconds + 59) / 60` is the least whole number of minutes covering the seconds, when the sum does not overflow |
| JavaInt.CeilMinutesSlightlyNegative | backend/src/main/java/run_lion/reroute/realtimebus/client/TagoArrivalClient.java:76 | an arrival up to 59 seconds overdue gives 0 minutes |
| JavaInt.CeilMinutesOverflow | backend/src/main/java/run_lion/reroute/realtimebus/client/TagoArrivalClient.java:76 | a time within 58 seconds of `Integer.MAX_VALUE` wraps and gives a negative minute count |
| Strings.TrimStart | backend/src/main/java/run_lion/reroute/realtimebus/service/LocalBusArrivalService.java:287 | strips exactly the longest prefix of trimmed characters; what is left is a suffix that starts with a kept character |
| Strings.TrimEnd | backend/src/main/java/run_lion/reroute/realtimebus/service/LocalBusArrivalService.java:287 | strips exactly the longest suffix of trimmed characters; what is left is a prefix that ends with a kept character |
| Strings.JsBlankIffAllWhitespace | frontend/src/screens/CommunityPage.tsx:133 | `!s.trim()` holds exactly when every character is JavaScript white space or a line terminator |
| Strings.JsTrimPadding | frontend/src/screens/SignUpScreen.tsx:21-26 | white space added at both ends does not change the trimmed text |
| Strings.JsTrimIdempotent | frontend/src/screens/EditProfileScreen.tsx:92-96 | trimming twice is trimming once |
| Strings.TrimStartPadding | frontend/src/screens/SignUpScreen.tsx:21-26 | leading white space does not change the start-trimmed text |
| Strings.TrimEndPadding | frontend/src/screens/SignUpScreen.tsx:21-26 | trailing white space does not change the end-trimmed text |
| Strings.TrimStartAppend | frontend/src/screens/SignUpScreen.tsx:21-26 | trailing white space does not change the fully trimmed text |
| Strings.ContainsAt | backend/src/main/java/run_lion/reroute/realtimebus/service/LocalBusArrivalService.java:158 | a string that has `t` at some position contains `t` |
| Strings.NotContainsWithoutFirstChar | backend/src/main/java/run_lion/reroute/realtimebus/service/LocalBusArrivalService.java:158 | a string lacking the first character of `t` does not contain `t` |
| Strings.Utf16Length | frontend/src/screens/SignUpScreen.tsx:21-26 | `.length` counts UTF-16 code units: at least one and at most two per character |
| Strings.DigitChar | backend/src/main/java/run_lion/reroute/realtimebus/client/TagoArrivalClient.java:80 | the character for a digit is a decimal digit of that value |
| Strings.NatString | backend/src/main/java/run_lion/reroute/realtimebus/client/TagoArrivalClient.java:80 | the decimal text of a natural number is non-empty, all digits and free of leading zeros |
| Strings.DecimalString | backend/src/main/java/run_lion/reroute/realtimebus/client/TagoArrivalClient.java:80 | `String.valueOf(int)` starts with '-' exactly for negative numbers |
| Strings.NatStringRoundTrip | backend/src/main/java/run_lion/reroute/realtimebus/client/TagoArrivalClient.java:80 | the digits of a natural number read back as that number |
| Strings.DecimalStringRoundTrip | backend/src/main/java/run_lion/reroute/realtimebus/client/TagoArrivalClient.java:80 | the decimal text reads back as the number, after a '-' when it is negative |
| Sorting.InsertBy | backend/src/main/java/run_lion/reroute/realtimebus/service/LocalBusArrivalService.java:97 | inserting into a sorted list keeps it sorted and adds exactly the one element |
| Sorting.SortBy | backend/src/main/java/run_lion/reroute/realtimebus/service/LocalBusArrivalService.java:148-149 | the result is sorted ascending by the key and is a permutation of the input |
| Sorting.Take | backend/src/main/java/run_lion/reroute/realtimebus/service/LocalBusArrivalService.java:150 | `limit(n)` is the prefix of length `min(n, size)` |
| Sorting.IndexOf | backend/src/main/java/run_lion/reroute/realtimebus/service/LocalBusArrivalService.java:96 | the index of the first occurrence |
| Sorting.Distinct | backend/src/main/java/run_lion/reroute/realtimebus/service/LocalBusArrivalService.java:96 | `distinct()` keeps the same elements, each once, in first-occurrence order |
| Sorting.SortedDistinct | backend/src/main/java/run_lion/reroute/realtimebus/service/LocalBusArrivalService.java:95-98 | `distinct().sorted()` is strictly increasing and keeps exactly the input's elements |
| Lists.Filter | frontend/src/screens/CommunityPage.tsx:119 | `filter` keeps exactly the passing elements and never lengthens the list |
| Lists.FilterAppend | frontend/src/screens/FavoritesScreen.tsx:142 | filtering distributes over concatenation, so kept elements stay in order |
| Lists.FilterKeepsAll | frontend/src/screens/FavoritesScreen.tsx:142 | when every element passes, the list is unchanged |
| Lists.RemoveAtSpec | frontend/src/screens/SearchScreen.tsx:131 | `filter((_, i) => i !== idx)` deletes exactly position `idx`, or nothing when `idx` is out of range |
| LocalBusArrival.ParseRouteNo | backend/src/main/java/run_lion/reroute/realtimebus/service/LocalBusArrivalService.java:285-291 | gives the trimmed text exactly when it matches `\d{2,4}(-\d)?` |
| LocalBusArrival.ParseRouteNoRoundTrip | backend/src/main/java/run_lion/reroute/realtimebus/service/LocalBusArrivalService.java:28 | a route number with any white space around it parses back to itself |
| LocalBusArrival.IsoTimeToMinute | backend/src/main/java/run_lion/reroute/realtimebus/service/LocalBusArrivalService.java:273 | `LocalTime.parse(...).withSecond(0)` gives a time truncated to its minute |
| LocalBusArrival.ParseClock | backend/src/main/java/run_lion/reroute/realtimebus/service/LocalBusArrivalService.java:272-274 | the corrected clock parse gives whole-minute times |
| LocalBusArrival.BeforeSlash | backend/src/main/java/run_lion/reroute/realtimebus/service/LocalBusArrivalService.java:270 | `split("/")[0]` is the longest prefix free of '/', followed by '/' when shorter than the text |
| LocalBusArrival.ParseTimeCell | backend/src/main/java/run_lion/reroute/realtimebus/service/LocalBusArrivalService.java:243-283 | every parsed time is a whole minute; missing, boolean and other cells give none |
| LocalBusArrival.TwoDigits | backend/src/main/java/run_lion/reroute/realtimebus/service/LocalBusArrivalService.java:273 | two decimal digits that read back as the number |
| LocalBusArrival.IsoReadsTwoDigitFields | backend/src/main/java/run_lion/reroute/realtimebus/service/LocalBusArrivalService.java:273 | `HH:MM:SS` parses to the minute of the day `HH:MM` |
| LocalBusArrival.ParseClockReadsSeconds | backend/src/main/java/run_lion/reroute/realtimebus/service/LocalBusArrivalService.java:273 | a time cell `HH:MM:SS` gives its minute of the day |
| LocalBusArrival.ParseClockReadsTwoDigitHour | backend/src/main/java/run_lion/reroute/realtimebus/service/LocalBusArrivalService.java:274 | a time cell `HH:MM` gives its minute of the day |
| LocalBusArrival.ParseClockReadsOneDigitHour | backend/src/main/java/run_lion/reroute/realtimebus/service/LocalBusArrivalService.java:272-274 | a time cell `H:MM`, the form the comments name, gives its minute of the day with the corrected parse |
| LocalBusArrival.OneDigitHourRejectedAsWritten | backend/src/main/java/run_lion/reroute/realtimebus/service/LocalBusArrivalService.java:272-274 | as written, no one-digit hour ever parses |
| LocalBusArrival.EightTenCell | backend/src/main/java/run_lion/reroute/realtimebus/service/LocalBusArrivalService.java:269-274 | the cell "8:10" yields nothing as written, and 08:10 once corrected |
| LocalBusArrival.ParseClockAgreesOnTwoDigitHours | backend/src/main/java/run_lion/reroute/realtimebus/service/LocalBusArrivalService.java:273-274 | the correction changes nothing for texts whose hour has two digits |
| LocalBusArrival.CountNonBlank | backend/src/main/java/run_lion/reroute/realtimebus/service/LocalBusArrivalService.java:169 | the count of non-blank texts is at most the number of texts |
| LocalBusArrival.FirstContaining | backend/src/main/java/run_lion/reroute/realtimebus/service/LocalBusArrivalService.java:205-210 | none exactly when no text contains the token; otherwise the first index whose text does |
| LocalBusArrival.FindColIndexContains | backend/src/main/java/run_lion/reroute/realtimebus/service/LocalBusArrivalService.java:205-210 | the loop returns the first column containing the token, or null |
| LocalBusArrival.BuildStationColumnMap | backend/src/main/java/run_lion/reroute/realtimebus/service/LocalBusArrivalService.java:174-203 | the loop with its station-column counter builds exactly that column map |
| LocalBusArrival.StationColumnsBeforeGrows | backend/src/main/java/run_lion/reroute/realtimebus/service/LocalBusArrivalService.java:190-192 | a station column after an earlier one has already seen one |
| LocalBusArrival.StationColumnsSpec | backend/src/main/java/run_lion/reroute/realtimebus/service/LocalBusArrivalService.java:174-203 | every mapped id is one of the four known stops, and only the first Chungju station column is the KNUT-bound platform |
| LocalBusArrival.Append | backend/src/main/java/run_lion/reroute/realtimebus/service/LocalBusArrivalService.java:85-88 | `computeIfAbsent(...).computeIfAbsent(...).add(t)` appends `t` to that station and route only |
| LocalBusArrival.StepSpec | backend/src/main/java/run_lion/reroute/realtimebus/service/LocalBusArrivalService.java:47-90 | a row loop iteration: a missing row changes nothing; a header row installs its columns and resets the route; a data row before any column map is skipped; a parsed route number becomes the current one; without a current route nothing is added |
| LocalBusArrival.AppendOk | backend/src/main/java/run_lion/reroute/realtimebus/service/LocalBusArrivalService.java:85-88 | an append of a whole-minute time keeps the table's keys known stops and route numbers |
| LocalBusArrival.RowTimesOk | backend/src/main/java/run_lion/reroute/realtimebus/service/LocalBusArrivalService.java:77-89 | the times of one row keep the table well formed |
| LocalBusArrival.StepKeepsOk | backend/src/main/java/run_lion/reroute/realtimebus/service/LocalBusArrivalService.java:47-90 | one row iteration keeps the scan state well formed |
| LocalBusArrival.ScanKeepsOk | backend/src/main/java/run_lion/reroute/realtimebus/service/LocalBusArrivalService.java:47-90 | the whole row loop leaves a table whose stations are known stops, whose routes are route numbers and whose times are whole minutes of a day |
| LocalBusArrival.Normalize | backend/src/main/java/run_lion/reroute/realtimebus/service/LocalBusArrivalService.java:95-98 | each list becomes strictly ascending with the same times |
| LocalBusArrival.FinalizeSpec | backend/src/main/java/run_lion/reroute/realtimebus/service/LocalBusArrivalService.java:93-101 | normalisation keeps every station and route key and makes each list strictly ascending with the same times |
| LocalBusArrival.LoadedSpec | backend/src/main/java/run_lion/reroute/realtimebus/service/LocalBusArrivalService.java:31-110 | the loaded timetable is well formed and strictly ascending; an unreadable workbook leaves it empty |
| LocalBusArrival.LocalBusArrivalService.NormalizeRoutes | backend/src/main/java/run_lion/reroute/realtimebus/service/LocalBusArrivalService.java:94-100 | the inner loop normalises every route list of a station |
| LocalBusArrival.LocalBusArrivalService.NormalizeAll | backend/src/main/java/run_lion/reroute/realtimebus/service/LocalBusArrivalService.java:93-101 | the outer loop gives the normalised table |
| LocalBusArrival.LocalBusArrivalService.Load | backend/src/main/java/run_lion/reroute/realtimebus/service/LocalBusArrivalService.java:31-110 | `load` leaves the timetable that the row scan and the normalisation define, or an empty one when the workbook cannot be read |
| LocalBusArrival.LocalBusArrivalService.AddRowTimes | backend/src/main/java/run_lion/reroute/realtimebus/service/LocalBusArrivalService.java:77-89 | the column loop appends each mapped column's parsed time under the current route |
| LocalBusArrival.LocalBusArrivalService.ScanRow | backend/src/main/java/run_lion/reroute/realtimebus/service/LocalBusArrivalService.java:47-90 | one row iteration gives exactly the specified next scan state |
| LocalBusArrival.WaitSecondsRange | backend/src/main/java/run_lion/reroute/realtimebus/service/LocalBusArrivalService.java:128-137 | a timetable time rolled over to tomorrow when already past is due within a day, never in the past |
| LocalBusArrival.RouteArrivals | backend/src/main/java/run_lion/reroute/realtimebus/service/LocalBusArrivalService.java:128-145 | one arrival per next departure of the route |
| LocalBusArrival.MemberOfSorted | backend/src/main/java/run_lion/reroute/realtimebus/service/LocalBusArrivalService.java:131 | the head of a sorted list is no later than any element |
| LocalBusArrival.RouteArrivalsSpec | backend/src/main/java/run_lion/reroute/realtimebus/service/LocalBusArrivalService.java:124-145 | at most `limit` arrivals per route, each a departure of that route; with a positive limit some arrival is no later than any departure of the route |
| LocalBusArrival.CandidatesExplained | backend/src/main/java/run_lion/reroute/realtimebus/service/LocalBusArrivalService.java:124-146 | every collected arrival is a departure of its route |
| LocalBusArrival.AllExplainedConcat | backend/src/main/java/run_lion/reroute/realtimebus/service/LocalBusArrivalService.java:139 | concatenating explained arrivals keeps them explained |
| LocalBusArrival.SomeNoLaterGrows | backend/src/main/java/run_lion/reroute/realtimebus/service/LocalBusArrivalService.java:139 | appending keeps an arrival no later than a bound |
| LocalBusArrival.CandidatesCover | backend/src/main/java/run_lion/reroute/realtimebus/service/LocalBusArrivalService.java:124-146 | for every departure of every route, some collected arrival is due no later |
| LocalBusArrival.SoonestExplained | backend/src/main/java/run_lion/reroute/realtimebus/service/LocalBusArrivalService.java:148-151 | each returned arrival is a departure of its route, due within a day |
| LocalBusArrival.SoonestNoLaterThan | backend/src/main/java/run_lion/reroute/realtimebus/service/LocalBusArrivalService.java:148-151 | the first returned arrival is no later than a given departure |
| LocalBusArrival.SoonestIsFirst | backend/src/main/java/run_lion/reroute/realtimebus/service/LocalBusArrivalService.java:148-151 | the first returned arrival is no later than any departure at the station |
| LocalBusArrival.ArrivalsSpec | backend/src/main/java/run_lion/reroute/realtimebus/service/LocalBusArrivalService.java:117-152 | a stop without routes gives []; a negative limit with routes throws; otherwise at most `limit` arrivals, soonest first, each a real departure, the first no later than any |
| LocalBusArrival.TakeSortedMembers | backend/src/main/java/run_lion/reroute/realtimebus/service/LocalBusArrivalService.java:148-151 | sorting by arrival time and keeping the first `limit` keeps only candidates |
| LocalBusArrival.TakeSortedSoonest | backend/src/main/java/run_lion/reroute/realtimebus/service/LocalBusArrivalService.java:148-151 | the first kept arrival is no later than any candidate |
| LocalBusArrival.LocalBusArrivalService.CollectArrivals | backend/src/main/java/run_lion/reroute/realtimebus/service/LocalBusArrivalService.java:122-146 | the loop over the routes collects exactly the specified candidates |
| LocalBusArrival.LocalBusArrivalService.BuildRouteArrivals | backend/src/main/java/run_lion/reroute/realtimebus/service/LocalBusArrivalService.java:134-145 | the inner loop adds one row per upcoming departure of the route, in order |
| LocalBusArrival.LocalBusArrivalService.GetArrivals | backend/src/main/java/run_lion/reroute/realtimebus/service/LocalBusArrivalService.java:117-152 | `getArrivals` returns the specified arrivals of the loaded timetable |
| TagoArrivalClient.GetArrivals | backend/src/main/java/run_lion/reroute/realtimebus/client/TagoArrivalClient.java:59-88 | one DTO per item in item order; a null at any level of the response gives [] |
| TagoArrivalClient.ToDtoSpec | backend/src/main/java/run_lion/reroute/realtimebus/client/TagoArrivalClient.java:75-83 | a DTO keeps its item's route id and stop count, and its minutes round the seconds up |
| TagoArrivalClient.BusNoRoundTrip | backend/src/main/java/run_lion/reroute/realtimebus/client/TagoArrivalClient.java:80 | the route number's text reads back as the number |
| EtaProvider.GetArrivalInfo | backend/src/main/java/run_lion/reroute/routing/service/ETARawDataProvider.java:35-46 | one `ArrivalInfo` per DTO, field by field and in order |
| EtaProvider.KeepRoutes | backend/src/main/java/run_lion/reroute/routing/service/ETARawDataProvider.java:59-61 | keeps exactly the entries whose route id is asked for |
| EtaProvider.KeepRoutesAppend | backend/src/main/java/run_lion/reroute/routing/service/ETARawDataProvider.java:59-61 | the filter keeps the entries in input order |
| EtaProvider.KeepRoutesAll | backend/src/main/java/run_lion/reroute/routing/service/ETARawDataProvider.java:59-61 | nothing is dropped when every route is asked for |
| EtaProvider.GetArrivalInfoForRoutes | backend/src/main/java/run_lion/reroute/routing/service/ETARawDataProvider.java:55-62 | throws a null pointer error exactly when a requested id or a listed route id is null; otherwise keeps exactly the entries of the requested routes |
| EtaProvider.ClearBeforeTail | backend/src/main/java/run_lion/reroute/routing/service/ETARawDataProvider.java:74-77 | the prefix condition of the search shifts along the list tail |
| EtaProvider.GetArrivalInfoForRoute | backend/src/main/java/run_lion/reroute/routing/service/ETARawDataProvider.java:71-78 | the first entry with the route id, or null when none; a null route id met first throws |
| EtaProvider.MinIndex | backend/src/main/java/run_lion/reroute/routing/service/ETARawDataProvider.java:103-105 | `min` picks the first entry with the least minutes |
| EtaProvider.GetNextArrival | backend/src/main/java/run_lion/reroute/routing/service/ETARawDataProvider.java:100-106 | null exactly for an empty list; otherwise an earliest entry, the first of equal ones |
| EtaProvider.GetNextArrivalForRoutes | backend/src/main/java/run_lion/reroute/routing/service/ETARawDataProvider.java:115-121 | the earliest of the filtered entries, failing when the filter fails |
| EtaProvider.NextArrivalForRoutesSpec | backend/src/main/java/run_lion/reroute/routing/service/ETARawDataProvider.java:115-121 | the reported bus serves a requested route, and no bus of a requested route arrives sooner |
| EtaProvider.GetArrivalInfoBatch | backend/src/main/java/run_lion/reroute/routing/service/ETARawDataProvider.java:86-92 | succeeds exactly when the station ids are distinct, mapping each id to its arrivals; otherwise the duplicate-key error names a repeated id |
| RouteCache.SaveThenLookup | backend/src/main/java/run_lion/reroute/realtimebus/cache/RouteCache.java:27-36 | after a save the map is found, a second save replaces it, and other routes are untouched |
| RouteCache.RouteCache.constructor | backend/src/main/java/run_lion/reroute/realtimebus/cache/RouteCache.java:22 | the cache starts empty |
| RouteCache.RouteCache.Save | backend/src/main/java/run_lion/reroute/realtimebus/cache/RouteCache.java:27-29 | `save` overwrites the entry of the route and nothing else |
| RouteCache.RouteCache.Get | backend/src/main/java/run_lion/reroute/realtimebus/cache/RouteCache.java:34-43 | `get` is non-null exactly when `exists`, and gives the stored map |
| RouteService.PutAllSpec | backend/src/main/java/run_lion/reroute/realtimebus/service/RouteService.java:45-57 | the map's keys are exactly the items' node ids, each mapped to the order of its last item |
| RouteService.RouteService.constructor | backend/src/main/java/run_lion/reroute/realtimebus/service/RouteService.java:35-63 | the service starts with the given cache and client and no requests |
| RouteService.RouteService.GetStationSeqMap | backend/src/main/java/run_lion/reroute/realtimebus/service/RouteService.java:35-63 | a hit returns the cached map without asking the client; a miss asks once, builds the map and caches it; the cache stays coherent with the client |
| PathService.PathsErrSticks | backend/src/main/java/run_lion/reroute/realtimebus/service/PathService.java:53-60 | an exception on a prefix of the items is the exception of the whole call |
| PathService.KeptResults | backend/src/main/java/run_lion/reroute/realtimebus/service/PathService.java:53-88 | at most one result per item |
| PathService.PathsSpec | backend/src/main/java/run_lion/reroute/realtimebus/service/PathService.java:53-88 | fails exactly when some item with both ids has a route whose stops cannot be read; otherwise one result per kept item, in item order |
| PathService.KeptIff | backend/src/main/java/run_lion/reroute/realtimebus/service/PathService.java:55-71 | an item is kept exactly when both ids are present and `from` comes before `to` on its route |
| PathService.ToPathResultSpec | backend/src/main/java/run_lion/reroute/realtimebus/service/PathService.java:74-86 | a result copies the ids and the stop count and rounds the seconds up to minutes |
| PathService.PathService.constructor | backend/src/main/java/run_lion/reroute/realtimebus/service/PathService.java:37-40 | the service holds the given arrival client and route service |
| PathService.PathService.FindPath | backend/src/main/java/run_lion/reroute/realtimebus/service/PathService.java:37-91 | `findPath` returns the specified results while the route cache is coherent, and keeps it coherent |
| PathStationMapper.ResolveFromNodeSpec | backend/src/main/java/run_lion/reroute/realtimebus/util/PathStationMapper.java:7-19 | the departure table, the invalid-combination error exactly for the other pairs, and only known stop ids |
| PathStationMapper.ResolveToNodeSpec | backend/src/main/java/run_lion/reroute/realtimebus/util/PathStationMapper.java:21-33 | the arrival side is the departure side with the ends exchanged |
| PathStationMapper.DistinctPlacesResolve | backend/src/main/java/run_lion/reroute/realtimebus/util/PathStationMapper.java:7-33 | two distinct place codes resolve to two different known stops |
| RouteFilter.Matches | backend/src/main/java/run_lion/reroute/routing/repository/RouteStationRepository.java:35-45 | each returned route joins the departure row to a later row at the arrival stop |
| RouteFilter.ConnectingFrom | backend/src/main/java/run_lion/reroute/routing/repository/RouteStationRepository.java:35-45 | each returned route connects the two stops in that order |
| RouteFilter.FindRoutesConnecting | backend/src/main/java/run_lion/reroute/routing/repository/RouteStationRepository.java:35-45 | the query returns only routes that stop at the departure before the arrival |
| RouteFilter.RowsOf | backend/src/main/java/run_lion/reroute/routing/repository/RouteStationRepository.java:26 | exactly the route's rows |
| RouteFilter.RouteRows | backend/src/main/java/run_lion/reroute/routing/repository/RouteStationRepository.java:26 | the route's rows ordered by stop number, a permutation of them |
| RouteFilter.LastOrder | backend/src/main/java/run_lion/reroute/routing/service/RouteFilter.java:80-90 | -1 when no row is at the stop, otherwise the order of the last such row |
| RouteFilter.KnownRoutes | backend/src/main/java/run_lion/reroute/routing/service/RouteFilter.java:71-73 | exactly the ids present in the route table |
| RouteFilter.ScanOrders | backend/src/main/java/run_lion/reroute/routing/service/RouteFilter.java:80-90 | the inner loop leaves the last departure and arrival orders |
| RouteFilter.FilterRoutes | backend/src/main/java/run_lion/reroute/routing/service/RouteFilter.java:49-112 | `filterRoutes` builds exactly the specified candidates |
| RouteFilter.CollectCandidates | backend/src/main/java/run_lion/reroute/routing/service/RouteFilter.java:71-110 | the outer loop builds exactly the specified candidates of the route ids |
| RouteFilter.BuildCandidate | backend/src/main/java/run_lion/reroute/routing/service/RouteFilter.java:73-109 | one known route's candidate carries its last stop orders, the station names and the gap |
| RouteFilter.CandidatesForSnoc | backend/src/main/java/run_lion/reroute/routing/service/RouteFilter.java:71-74 | one more route id adds its candidate exactly when the route table knows it |
| RouteFilter.CandidatesForSpec | backend/src/main/java/run_lion/reroute/routing/service/RouteFilter.java:71-109 | the candidates follow the connecting route ids in order, skipping ids the route table lacks, each carrying its stop orders and their difference |
| RouteFilter.KnownRoutesSnoc | backend/src/main/java/run_lion/reroute/routing/service/RouteFilter.java:71-73 | the known-route list grows by the next id when the table has it |
| RouteFilter.StopOrderOfUniqueRow | backend/src/main/java/run_lion/reroute/routing/service/RouteFilter.java:80-90 | with one row per route and stop, the scan finds that row's order |
| RouteFilter.CandidateMovesForward | backend/src/main/java/run_lion/reroute/routing/service/RouteFilter.java:106 | a connecting route gives a candidate with at least one stop to ride |
| RouteFilter.UniqueRowOrder | backend/src/main/java/run_lion/reroute/routing/service/RouteFilter.java:82-89 | under the composite key a stop's recorded order is the order of its one row |
| RouteFilter.StationCountPositive | backend/src/main/java/run_lion/reroute/routing/service/RouteFilter.java:49-112 | every candidate rides at least one stop forward |
| RouteFilter.CandidatesForMember | backend/src/main/java/run_lion/reroute/routing/service/RouteFilter.java:71-109 | candidate `n` is the one built for the `n`-th known route id |
| RouteFilter.RoutesThrough | backend/src/main/java/run_lion/reroute/routing/repository/RouteStationRepository.java:20 | exactly the routes of the rows at the station |
| RouteFilter.FindRoutesAtStation | backend/src/main/java/run_lion/reroute/routing/service/RouteFilter.java:120-127 | the routes through the station, each once, in first-seen order |
| RoutingService.FindRoute | backend/src/main/java/run_lion/reroute/routing/service/RoutingService.java:59-107 | the response filled field by field is the specified one |
| RoutingService.FindRouteByStationIds | backend/src/main/java/run_lion/reroute/routing/service/RoutingService.java:117-119 | exactly the route filter's answer |
| RoutingService.RouteFoundSpec | backend/src/main/java/run_lion/reroute/routing/service/RoutingService.java:59-99 | a missing stop leaves the stops unset and no routes, with the message for that side; with both stops, the filter's routes and the sum of both walks |
| RoutingService.RouteFoundMessage | backend/src/main/java/run_lion/reroute/routing/service/RoutingService.java:101-105 | the message is the no-direct-route text exactly when no route was found, and otherwise starts with the route count |
| RoutingService.PipelineRideMinutes | backend/src/main/java/run_lion/reroute/routing/service/RoutingAlgorithm.java:150-156 | with one row per route and stop, every scored ride is two minutes per stop actually travelled |
| RoutingService.PipelineWithoutStop | backend/src/main/java/run_lion/reroute/routing/service/RoutingAlgorithm.java:45-47 | a missing stop makes the journey one walk of zero minutes |
| RoutingAlgorithm.SafeNonNegative | backend/src/main/java/run_lion/reroute/routing/service/RoutingAlgorithm.java:229-231 | `max(0, v)` |
| RoutingAlgorithm.LeastNonNegative | backend/src/main/java/run_lion/reroute/routing/service/RoutingAlgorithm.java:134-138 | none exactly when every value is negative; otherwise the least non-negative value |
| RoutingAlgorithm.ResolveWaitTime | backend/src/main/java/run_lion/reroute/routing/service/RoutingAlgorithm.java:127-148 | the wait is never negative |
| RoutingAlgorithm.ResolveWaitTimeSpec | backend/src/main/java/run_lion/reroute/routing/service/RoutingAlgorithm.java:127-148 | the soonest non-negative own arrival, or 30 when all are negative; without own arrivals the provider's estimate clamped at 0, 30 when it has none, its exception escaping |
| RoutingAlgorithm.EstimateBusTravelTime | backend/src/main/java/run_lion/reroute/routing/service/RoutingAlgorithm.java:150-156 | two minutes per stop, falling back to the order difference and then to one stop |
| RoutingAlgorithm.Evaluate | backend/src/main/java/run_lion/reroute/routing/service/RoutingAlgorithm.java:112-125 | walks clamped at 0, the resolved wait, the estimated ride, and their sum; failing exactly when the wait fails |
| RoutingAlgorithm.BetterIsStrictOrder | backend/src/main/java/run_lion/reroute/routing/service/RoutingAlgorithm.java:158-166 | the comparator is irreflexive and transitive, and its ties are transitive |
| RoutingAlgorithm.BestIndex | backend/src/main/java/run_lion/reroute/routing/service/RoutingAlgorithm.java:56-59 | `min` picks a candidate no other beats, and it beats every one before it |
| RoutingAlgorithm.EvaluateAll | backend/src/main/java/run_lion/reroute/routing/service/RoutingAlgorithm.java:56-58 | every candidate scored in order; fails exactly when some scoring fails, with that error |
| RoutingAlgorithm.ComputeBestRoute | backend/src/main/java/run_lion/reroute/routing/service/RoutingAlgorithm.java:31-107 | the origin marker carries the request's origin and label |
| RoutingAlgorithm.NoStopSpec | backend/src/main/java/run_lion/reroute/routing/service/RoutingAlgorithm.java:45-47 | without a stop, one walk of 0 minutes from origin to destination |
| RoutingAlgorithm.NoRouteSpec | backend/src/main/java/run_lion/reroute/routing/service/RoutingAlgorithm.java:50-53 | without a route, one walk of the two walk times clamped at 0 |
| RoutingAlgorithm.ChosenRouteFails | backend/src/main/java/run_lion/reroute/routing/service/RoutingAlgorithm.java:56-59 | fails exactly when scoring some candidate throws |
| RoutingAlgorithm.ChosenRouteSpec | backend/src/main/java/run_lion/reroute/routing/service/RoutingAlgorithm.java:56-106 | walk, bus, walk steps of the best candidate, whose minutes and wait make up the total |
| BusApi.FirstPresent | frontend/src/api/bus.ts:31-34 | `a ?? b ?? c` is the first present alias, none exactly when all are absent |
| BusApi.CityArrivalFields | frontend/src/api/bus.ts:59-65 | a city record takes `route_id` only when truthy and `route_no`, `arr_time`, `prev_station_count` with "" and 0 for absent keys, tagged CITY |
| BusApi.TagoArrivalAsWrittenFields | frontend/src/api/bus.ts:41-47 | as written, a TAGO record reads the same snake_case keys and defaults, so it is the city record tagged TAGO |
| BusApi.TagoArrivalFields | frontend/src/api/bus.ts:41-47 | the corrected record reads each snake_case key, then the endpoint's camelCase key (`arrTimeMin` in seconds), then "" or 0, tagged TAGO |
| BusApi.TagoArrivalExtendsAsWritten | frontend/src/api/bus.ts:41-47 | where each snake_case key is present or its camelCase alias absent, the corrected record is the as-written one |
| BusApi.GpsRecordFields | frontend/src/api/bus.ts:90-96 | each GPS field is its camelCase key, else its lower-case key, else "" or 0 |
| BusApi.PathRecordFields | frontend/src/api/bus.ts:30-35 | each path field is its first present alias in the written order, else "" or 0 |
| BusApi.FetchRealtimePath | frontend/src/api/bus.ts:28-36 | a failed request or non-array body rejects, null gives [], an array gives one path record per element in order |
| BusApi.FetchBusGps | frontend/src/api/bus.ts:88-97 | a failed request or non-array body rejects, null gives [], an array gives one GPS record per element in order |
| BusApi.FetchArrivalsTago | frontend/src/api/bus.ts:39-48 | a failed request or non-array body rejects, null gives [], an array gives one corrected TAGO record per element in order |
| BusApi.FetchArrivalsCity | frontend/src/api/bus.ts:56-69 | the city fetch never rejects: any failure or a null body gives [], and an array gives one CITY record per element in order |
| BusApi.FetchedSourcesAreFixed | frontend/src/api/bus.ts:46 | every fetched record carries its source's tag |
| BusApi.RouteIdOnlyWhenTruthy | frontend/src/api/bus.ts:42 | a falsy `route_id` gives none, a truthy one its string |
| BusApi.LastWithSpec | frontend/src/api/bus.ts:74-75 | the last record with a route number exists exactly when one has it |
| BusApi.FillSpec | frontend/src/api/bus.ts:74-75 | the fill loop keeps each value under its own route number: the last record of that number, or the earlier value |
| BusApi.MergeMap | frontend/src/api/bus.ts:72-75 | after both loops, exactly the non-empty route numbers, each with the last TAGO record, or the last city record when TAGO has none |
| BusApi.ValuesOfKeyedMap | frontend/src/api/bus.ts:76 | the values have distinct route numbers |
| BusApi.PermutationKeepsDistinctRouteNos | frontend/src/api/bus.ts:76 | sorting keeps the route numbers distinct |
| BusApi.MergedSpec | frontend/src/api/bus.ts:72-77 | one record per reported route number, the TAGO one preferred, sorted by arrival time |
| BusApi.ReportedIffKey | frontend/src/api/bus.ts:74-75 | the merge map holds exactly the route numbers some record reports |
| BusApi.SortedValuesSpec | frontend/src/api/bus.ts:77 | any ordering of the map's values holds one record per key, each the key's value |
| BusApi.MergeArrivalsPreferTago | frontend/src/api/bus.ts:72-77 | the merge's loops give the specified merge: sorted, distinct route numbers, exactly the reported ones, each its winner |
| BusApi.FetchMergedArrivals | frontend/src/api/bus.ts:79-85 | rejects exactly when the TAGO fetch rejects; otherwise the merge of both, TAGO alone when the city fetch fails |
| BusApi.TagoEndpointDroppedAsWritten | frontend/src/api/bus.ts:43 | the record for the backend's TAGO JSON has route number "", so the merge drops it |
| BusApi.TagoEndpointKept | frontend/src/api/bus.ts:41-47 | the corrected adapter keeps the route number, id and time of the backend's TAGO JSON |
| CommunityPage.MaxId | frontend/src/screens/CommunityPage.tsx:149 | `Math.max` of the ids: at least every id and equal to one of them |
| CommunityPage.NextIdIsFresh | frontend/src/screens/CommunityPage.tsx:149 | the new id is above every existing id: one more than the largest, or 1 on an empty board |
| CommunityPage.EditedSpec | frontend/src/screens/CommunityPage.tsx:156-162 | editing keeps length, ids and creation times, rewrites the edited post and leaves the others |
| CommunityPage.CreateKeepsUniqueIds | frontend/src/screens/CommunityPage.tsx:147-154 | creating keeps the ids unique |
| CommunityPage.PrependDistinctId | frontend/src/screens/CommunityPage.tsx:154 | a post whose id no other post has can go first without a clash |
| CommunityPage.EditKeepsUniqueIds | frontend/src/screens/CommunityPage.tsx:156-162 | editing keeps the ids unique |
| CommunityPage.SubmitKeepsUniqueIds | frontend/src/screens/CommunityPage.tsx:147-162 | a submit, create or edit, keeps the ids unique |
| CommunityPage.DeleteSpec | frontend/src/screens/CommunityPage.tsx:119 | deleting removes exactly the posts with the id and keeps the ids unique |
| CommunityPage.CommunityScreen.constructor | frontend/src/screens/CommunityPage.tsx:28-41 | the board starts with the two sample posts and a closed, empty form |
| CommunityPage.CommunityScreen.OpenCreateModal | frontend/src/screens/CommunityPage.tsx:98-103 | an open, empty form for a new post |
| CommunityPage.CommunityScreen.HandleEdit | frontend/src/screens/CommunityPage.tsx:105-110 | an open form filled from the post, remembering its id |
| CommunityPage.CommunityScreen.ConfirmDelete | frontend/src/screens/CommunityPage.tsx:118-125 | drops the posts with the id, and clears the form when it was editing that post |
| CommunityPage.CommunityScreen.HandleSubmit | frontend/src/screens/CommunityPage.tsx:133-168 | a blank field changes nothing; otherwise a create goes first or an edit applies the trimmed text, and the form closes and clears |
| CommunityPage.CommunityScreen.Submit | frontend/src/screens/CommunityPage.tsx:146-167 | the posts become the submitted list and the modal closes with an empty form |
| CommunityPage.CommunityScreen.CloseModal | frontend/src/screens/CommunityPage.tsx:171-176 | the form closes and clears, the posts stay |
| FavoritesScreen.DeleteSpec | frontend/src/screens/FavoritesScreen.tsx:142 | deleting removes exactly the entries with the id, the rest in order |
| FavoritesScreen.DeleteAbsent | frontend/src/screens/FavoritesScreen.tsx:142 | deleting an absent id changes nothing |
| FavoritesScreen.FavoritesScreen.constructor | frontend/src/screens/FavoritesScreen.tsx:15-18 | the two sample favourites and an empty card |
| FavoritesScreen.FavoritesScreen.ApplyParams | frontend/src/screens/FavoritesScreen.tsx:27-35 | a picked name or address fills the card, the emoji defaulting to the pin; otherwise nothing changes |
| FavoritesScreen.FavoritesScreen.AddFavorite | frontend/src/screens/FavoritesScreen.tsx:37-49 | a blank field changes nothing; otherwise the new entry goes first and the card clears |
| FavoritesScreen.FavoritesScreen.Delete | frontend/src/screens/FavoritesScreen.tsx:142 | the list without the entries of that id, the card unchanged |
| SignUpScreen.ErrorsOf | frontend/src/screens/SignUpScreen.tsx:21-26 | each message is shown exactly when its rule fails |
| SignUpScreen.OnSubmit | frontend/src/screens/SignUpScreen.tsx:33-39 | leads to the login screen exactly when the form is valid |
| SignUpScreen.IsValidIff | frontend/src/screens/SignUpScreen.tsx:28-31 | valid exactly when the four length and match rules hold |
| SignUpScreen.PaddingDoesNotCount | frontend/src/screens/SignUpScreen.tsx:22-23 | white space around the nickname or the username changes no message |
| EditProfileScreen.Loaded | frontend/src/screens/EditProfileScreen.tsx:49-60 | stored fields where present, the defaults elsewhere, the default profile when nothing is stored |
| EditProfileScreen.SavedNicknameSpec | frontend/src/screens/EditProfileScreen.tsx:92-96 | the trimmed nickname, or the default when blank; never blank, already trimmed, stable under a second save |
| EditProfileScreen.DiffersIff | frontend/src/screens/EditProfileScreen.tsx:68-75 | the memo's comparison holds exactly when the form is not the snapshot |
| EditProfileScreen.EditProfileScreen.Rerender | frontend/src/screens/EditProfileScreen.tsx:68-75 | `dirty` is recomputed against the snapshot exactly when a cell changed, and kept otherwise |
| EditProfileScreen.EditProfileScreen.constructor | frontend/src/screens/EditProfileScreen.tsx:35-43 | the form and the snapshot start as the default profile, and the form is clean |
| EditProfileScreen.EditProfileScreen.Load | frontend/src/screens/EditProfileScreen.tsx:45-66 | a stored profile fills the form and the snapshot, and a changed form is then clean; nothing stored resets only the snapshot and keeps the flag |
| EditProfileScreen.EditProfileScreen.ChangeBio | frontend/src/screens/EditProfileScreen.tsx:167 | text over 200 units is ignored, so the bio never passes the limit; a new bio recomputes the flag |
| EditProfileScreen.EditProfileScreen.ChangeNickname | frontend/src/screens/EditProfileScreen.tsx:151 | the nickname takes the typed text; a new text recomputes the flag |
| EditProfileScreen.EditProfileScreen.HandleSave | frontend/src/screens/EditProfileScreen.tsx:92-103 | reachable only while dirty; the payload carries the saved nickname and becomes the snapshot, the flag stays set, and the form differs from the snapshot exactly when the typed nickname is not the saved one |
| SearchScreen.SearchScreen.constructor | frontend/src/screens/SearchScreen.tsx:25-27 | the sample recent list and empty inputs |
| SearchScreen.SearchScreen.GoRouteDetail | frontend/src/screens/SearchScreen.tsx:29-35 | navigates with the inputs as typed exactly when neither is blank |
| SearchScreen.SearchScreen.Swap | frontend/src/screens/SearchScreen.tsx:37-40 | origin and destination change places |
| SearchScreen.SearchScreen.SwapTwice | frontend/src/screens/SearchScreen.tsx:37-40 | swapping twice restores the inputs |
| SearchScreen.SearchScreen.SelectDestination | frontend/src/screens/SearchScreen.tsx:125 | a tap sets the destination only |
| SearchScreen.SearchScreen.SelectRecommended | frontend/src/screens/SearchScreen.tsx:146 | a recommended tap sets that place's name as destination |
| SearchScreen.SearchScreen.RemoveRecent | frontend/src/screens/SearchScreen.tsx:131 | the close button deletes exactly that position of the recent list |

## Left out

- HTTP requests, JSON decoding, the TAGO and city web services, and the Spring controllers are not modelled. Each client's decoded answer is a parameter.
- Apache POI is not modelled. The model does not open the workbook, evaluate formulas or render numbers as text. A numeric cell arrives as its rendered text and the time of day it stands for.
- The numeric-cell branch of `parseTimeCell` is not modelled. Its date conversion, including the zone of `DateUtil.getJavaDate`, depends on the platform, so that time is an input.
- The nearest-stop search is not modelled. It lives in `RoutingStationResolver` and uses floating-point geometry, so its two answers are inputs of `RoutingService.FindRoute`.
- The `eta` text of `computeBestRoute` is left out, because it depends on the clock. `getArrivals` takes the clock as a parameter.
- Overflow of Java `int` in `totalWalkTime` and in the minute sums of `RoutingAlgorithm` is not modelled. Those sums use unbounded integers.
- Overflow of Java `int` in the `(int) sec` cast of `getArrivals` is not modelled. Seconds there stay below 86400.
- A `null` `nodeid` in the route-stops response is not modelled. Node ids are strings.
- Unboxing a `null` `stationOrder` is not modelled.
- The SQL row order is not modelled. The tables' `route_station` rows come back in table order, and `ORDER BY station_order` is a stable sort.
- The `HashMap` iteration order in `getArrivals` is a parameter. It can be any order of the keys.
- Concurrency is not modelled. That covers the concurrent maps, synchronized lists and parallel promises.
- `BusGpsService` and `RealtimeBusArrivalService` are not part of this model.
- The `best == null` branch of `computeBestRoute` is not modelled, because it is unreachable: the list of routes is not empty there.
- The other side of the merge conflict in `RoutingService.java` is not modelled. Only the `origin/develop` side is.
- A `null` `from` or `to` passed to `PathStationMapper` is not modelled. The controller passes request parameters, which are never null.
- JavaScript `Number(...)` coercion of non-numeric text is not modelled. Numbers in `bus.ts` records are integers.
- Failures of `JSON.parse` and of AsyncStorage in `EditProfileScreen` are not modelled. Both are caught, and the stored profile is a parameter.
- The image picker of `EditProfileScreen` is not modelled.
- CommunityPage.CommunityScreen.ConfirmDelete: uses the current `editingId`. The source's confirm callback reads the value from the render that opened the dialog.
- `useLocalSearchParams` can return arrays, which the model does not capture. The favourites parameters are optional strings.
- FavoritesScreen.FavoritesScreen.AddFavorite: the id is `Date.now()`, a parameter. Unlike community posts, unique ids are not proved.
- The date formatting of a new community post is a parameter `createdAt`.
- `router.replace`/`router.push` are not modelled as calls. The sign-up and search handlers return where they would navigate.
- Alert dialogs are not modelled. They change no state, except the delete confirmation, which is `ConfirmDelete`.
- LocalBusArrival.ParseTimeCell: the string branch uses the corrected clock parse of the first Findings row, so the string cell "8:10" gives 08:10 where the source gives no time. `StringCellTimeAsWritten` and `OneDigitHourRejectedAsWritten` model the source as written, and `ParseClockAgreesOnTwoDigitHours` shows the two agree on two-digit hours.
- LocalBusArrival.LocalBusArrivalService.AddRowTimes: appends what the corrected `ParseTimeCell` gives, so a one-digit-hour string cell adds a time where the source adds none.
- LocalBusArrival.LocalBusArrivalService.ScanRow: inherits the corrected `ParseTimeCell` through `AddRowTimes`.
- LocalBusArrival.LocalBusArrivalService.Load: the timetable it builds is the one the corrected `ParseTimeCell` defines, not the source's as written.
- BusApi.TagoArrival: models the corrected mapping of the second Findings row, which also reads the endpoint's camelCase keys. `TagoArrivalAsWritten` is the source as written, and `TagoArrivalExtendsAsWritten` shows where the two agree.
- BusApi.FetchArrivalsTago: maps with the corrected `TagoArrival`, so a backend TAGO record keeps its route number where the source gives "".
- BusApi.FetchMergedArrivals: merges the corrected TAGO records, so backend TAGO arrivals survive the merge where the source drops them (`TagoEndpointDroppedAsWritten`).
- FavoritesScreen.FavoritesScreen.ApplyParams: the source runs this effect only when the `addedAt` parameter changes. The model applies it on each call.
- RouteService.RouteService.GetStationSeqMap: a `null` client result, `null` `response` or `null` `body` is not representable. The source dereferences all three without a check (RouteService.java:48), so each would throw a `NullPointerException`. The model's response types make those parts always present.
- PathService.PathService.FindPath: a `null` result of the arrival client is not representable. The source calls `getResponse()` on it without a check (PathService.java:45). The model's arrival response is always present, while its `response`, `body`, `items` and `item` parts are optional.
- A `null` element inside a JSON array body of `bus.ts` is not representable. In the source, reading `x.route_id` on it throws a `TypeError`, so the TAGO fetch would reject and the city fetch would give `[]`. The model's array elements are always objects.
- RoutingAlgorithm.ComputeBestRoute: the source asks the ETA provider again for each candidate whose own arrivals are empty (RoutingAlgorithm.java:144). The model reads one fixed `stationArrivals` list instead, so the provider's answers cannot change between candidates.
- PathService.PathService.FindPath: its result is stated only while the route cache is coherent, meaning it holds only what the route client answers. An arbitrary pre-filled cache is not covered.
- RoutingAlgorithm.ComputeBestRoute: its own contract states only the origin marker. The journey is stated by `NoStopSpec`, `NoRouteSpec`, `ChosenRouteFails` and `ChosenRouteSpec`.

## Findings

| source | as written | input that shows it | evidently intended | confidence | as-written member | corrected member |
|---|---|---|---|---|---|---|
| backend/src/main/java/run_lion/reroute/realtimebus/service/LocalBusArrivalService.java:272-274 | a time text matching `\d{1,2}:\d{2}` goes straight to `LocalTime.parse`, whose ISO format needs a two-digit hour, so the exception is swallowed and the cell yields no time | the string cell "8:10", the example the comments give | a one-digit hour such as "8:10" reads as 08:10 | high, not executed | LocalBusArrival.OneDigitHourRejectedAsWritten | LocalBusArrival.ParseClockReadsOneDigitHour |
| frontend/src/api/bus.ts:41-47 | `fetchArrivalsTAGO` reads `route_no`, `arr_time` and `route_id`, but the backend's TAGO endpoint sends `busId`, `busNo`, `arrTimeMin` and `prevStationCount`. Every TAGO record therefore has route number "" and the merge drops it | any arrival from the backend's TAGO endpoint, for example busNo "400" | TAGO arrivals keep their route number and win the merge | medium, not executed | BusApi.TagoEndpointDroppedAsWritten | BusApi.TagoEndpointKept |
