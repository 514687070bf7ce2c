# Bus-station ingestion core, modelled in Dafny

This project models the ingestion core of the bus-station collector. There are two open-data sources:

- the Gyeonggi provincial service, in `collector/busstation/app/gyunggi.go`;
- the Seoul metropolitan service, in `collector/busstation/app/seoul.go`.

For each source the model covers:

- the probe request and the pagination loop that collect the raw records;
- the correction and standardisation of the records into the common `StandardBusStation`;
- the loop that writes the raw records to the station store.

Modules:

- `OpenApi` (`open_api.dfy`): values shared by both sources.
  - A small JSON value type, the result envelope, the answer to one request (`Fetched`), and how a collection run ends (`Outcome`, `Run`).
  - The standard record and the store arguments.
  - `StoredInOrder`, the specification of a stop-at-first-error insertion loop.
- `GyunggiRecord` (`gyunggi_record.dfy`): the provincial raw record and its `mapstructure` tag table. It also holds the positional extraction of the head and of the rows from the heterogeneous `TBBMSSTATIONM` array, with encoders that serve as their inverses.
- `GyunggiStandard` (`gyunggi_standard.dfy`):
  - ArsId normalisation, that is, the first match of `[0-9]+`;
  - the correction pass: three filters, then reprojection through an abstract transform;
  - `ToBusStation` and `ConvertGyunggiBusStationsToStandard`.
- `GyunggiCollect` (`gyunggi_collect.dfy`): the provincial page loop.
- `GyunggiStore` (`gyunggi_store.dfy`): `InsertGyunggiBusStations` with its 28 arguments.
- `Seoul` (`seoul.dfy`): the metropolitan record, `ToBusStation`, `ConvertSeoulBusStationsToStandard` and `InsertSeoulBusStations` with its 7 arguments.
- `SeoulCollect` (`seoul_collect.dfy`): the metropolitan window loop.

Requests are an oracle. Each collection method receives the answer to the probe request and a sequence of answers, one per loop request, and returns:

- how the run ends: `Done`, `Failed` with the rows returned alongside the error, `Fault` for a Go panic, or `Exhausted` when the answers run out;
- every request it issued, as (page index, page size) or (start, end) pairs.

Each loop method is proved equal to a recursive specification function (`Loop`, `Collect`). The pagination, retry and error properties are lemmas about that function.

The model follows the code as written. Three places where the code's behaviour differs from what its purpose suggests:

- **Pages requested (provincial).** To cover N rows the loop would need ⌈N/1000⌉ pages. It increments pageIndex before the stop test `pageIndex*pageSize > total` (gyunggi.go:105-107), so it stops after page max(1, N div 1000). When N > 1000 and N mod 1000 ≠ 0 the last partial page is never requested (`FinalPartialPageSkipped`).
- **Windows requested (metropolitan).** The metropolitan loop tests `endIndex > total` after appending (seoul.go:92), so it requests N div 1000 + 1 windows. When N is a multiple of 1000 the last window is past the end (`WindowCount`).
- **Result code checked (provincial).** The provincial loop re-extracts the head from the probe response on every iteration (gyunggi.go:96), not from the current page. So a bad probe code stalls the loop on page 1, and a page's own head is never read (`ProbeCodeStalls`, `PageView`).

## Model

| member | source | states |
|---|---|---|
| GyunggiRecord.DecodeTaggedObject | collector/busstation/app/gyunggi.go:27-56 | an object holding every attribute under its tag from the tag table decodes to exactly that record |
| GyunggiRecord.DecodeEncodedRow | collector/busstation/app/gyunggi.go:27-56 | the tag table is injective: decoding the object the service sends for a station gives back that station |
| GyunggiRecord.GpsKeysCrossed | collector/busstation/app/gyunggi.go:32-33 | a decoded row's GpsCoordinateY is the number under GPS_X_CRDNT and its GpsCoordinateX the one under GPS_Y_CRDNT |
| GyunggiRecord.DecodeRow | collector/busstation/app/gyunggi.go:27-56 | one element of the row array decodes iff it is null or an object whose every tagged attribute has the right JSON type (string, number, null or missing); a null element is the zero record |
| GyunggiRecord.DecodeRows | collector/busstation/app/gyunggi.go:266-271 | decoding of the row array succeeds iff every element decodes; the result has one record per element, each the element's decoding |
| GyunggiRecord.DecodeEncodedRows | collector/busstation/app/gyunggi.go:263-273 | the rows the service sends for a list of stations decode to that list, in order |
| GyunggiRecord.TruncateToInt | collector/busstation/app/gyunggi.go:256 | int(float64) truncates toward zero: the result lies within 1 of x, on the zero side |
| GyunggiRecord.ExtractHead | collector/busstation/app/gyunggi.go:243-261 | a head is extracted only when element 0 exists and carries a `head` array of at least three entries; every other shape is a panic |
| GyunggiRecord.ExtractHeadPositions | collector/busstation/app/gyunggi.go:244-259 | the extracted head is exactly: truncated list_total_count from head[0], RESULT.CODE and RESULT.MESSAGE from head[1], api_version from head[2] |
| GyunggiRecord.ExtractRows | collector/busstation/app/gyunggi.go:263-273 | rows are extracted only from the `row` array of element 1, one record per element, each that element's decoding; whenever that array exists and every element decodes, extraction succeeds |
| GyunggiRecord.ExtractEncodedHead | collector/busstation/app/gyunggi.go:243-261 | the head is recovered from a body that carries it, whatever the rows |
| GyunggiRecord.ExtractEncodedRows | collector/busstation/app/gyunggi.go:263-273 | the rows are recovered from element 1 of a body that carries them |
| GyunggiStandard.NormalizeArsId | collector/busstation/app/gyunggi.go:59-64 | a non-empty code stays non-empty; the result is all digits or the code unchanged |
| GyunggiStandard.NormalizeArsIdIsFirstDigitRun | collector/busstation/app/gyunggi.go:59-64 | with a digit present, the result is a maximal digit run with no digit before it and none right after it; without one, the code is unchanged |
| GyunggiStandard.FirstDigitRunIsNormalized | collector/busstation/app/gyunggi.go:59-64 | conversely, the first maximal digit run of a code is its normalisation, so the characterisation is exact |
| GyunggiStandard.CorrectGyunggiBusStations | collector/busstation/app/gyunggi.go:128-154 | the correction loop returns the correction specification: the kept records, reprojected, or a panic |
| GyunggiStandard.FilteredIsKeptSubsequence | collector/busstation/app/gyunggi.go:130-142 | the kept records are the in-order subsequence at strictly increasing positions, and a position is kept iff its ArsId lacks the Seoul marker and name and ArsId are non-empty |
| GyunggiStandard.CorrectedReprojectsFiltered | collector/busstation/app/gyunggi.go:143-151 | on success each kept record is replaced by itself with CoordinateY := latitude and CoordinateX := longitude from the transform; nothing else changes |
| GyunggiStandard.CorrectedFailsIff | collector/busstation/app/gyunggi.go:144-147 | the pass panics iff the transform fails on a record that passes the filters; a dropped record is never transformed |
| GyunggiStandard.ToBusStation | collector/busstation/app/gyunggi.go:58-73 | name and id copied, ArsId normalised to its first digit run, Latitude := CoordinateY and Longitude := CoordinateX |
| GyunggiStandard.ConvertGyunggiBusStationsToStandard | collector/busstation/app/gyunggi.go:117-126 | the loop maps ToBusStation over the corrected records in order |
| GyunggiStandard.StandardizedRecords | collector/busstation/app/gyunggi.go:66-72 | the j-th standard record comes from the j-th kept record: name and id copied, ArsId normalised, (latitude, longitude) the transform of (X, Y) |
| GyunggiStandard.StandardizedInvariant | collector/busstation/app/gyunggi.go:128-142 | every standard provincial record has a name, a non-empty ArsId and no Seoul marker in it |
| GyunggiCollect.CollectGyunggiBusStations | collector/busstation/app/gyunggi.go:75-115 | the probe-then-page loop issues exactly the requests and ends exactly as the loop specification says |
| GyunggiCollect.LoopAccepts | collector/busstation/app/gyunggi.go:89-110 | m accepted pages that do not stop the loop request pages pageIndex..pageIndex+m-1 of size 1000 and append their rows in order |
| GyunggiCollect.PageCountBounds | collector/busstation/app/gyunggi.go:105-109 | the stop test first holds after page max(1, N div 1000) |
| GyunggiCollect.LoopAllPagesSucceed | collector/busstation/app/gyunggi.go:89-110 | with a success probe code and the first max(1, N div 1000) pages good, the loop requests pages 1..max(1, N div 1000) and returns their rows concatenated |
| GyunggiCollect.GyunggiAllPagesSucceed | collector/busstation/app/gyunggi.go:77-110 | the whole run is the probe (1, 1), then pages (1, 1000)..(k, 1000) with k = max(1, N div 1000), ending Done with the rows of those pages in page order |
| GyunggiCollect.FinalPartialPageSkipped | collector/busstation/app/gyunggi.go:105-109 | with N > 1000 not a multiple of 1000, the pages requested end before row N |
| GyunggiCollect.ProbeCodeStalls | collector/busstation/app/gyunggi.go:96-100 | with a non-success probe code, the loop re-requests the same page, appends nothing and ends only on an error envelope or when the answers run out |
| GyunggiCollect.GyunggiProbeCodeStalls | collector/busstation/app/gyunggi.go:86-100 | the same for the whole run, after the probe request |
| GyunggiCollect.LoopFailureHasNoRows | collector/busstation/app/gyunggi.go:91-94 | an error envelope on a page ends the loop with no rows, discarding those collected |
| GyunggiCollect.LoopPageErrorFails | collector/busstation/app/gyunggi.go:90-94 | after f accepted pages, an error envelope on the next page ends the loop as Failed with that page's error and no rows, the request for that page being the last |
| GyunggiCollect.GyunggiPageErrorFails | collector/busstation/app/gyunggi.go:81-109 | the same for the whole run: the probe (1, 1), pages 1..f+1, then Failed([], the page's error) |
| GyunggiCollect.GyunggiFailureHasNoRows | collector/busstation/app/gyunggi.go:81-94 | a failed run, on the probe or on any page, has no rows at all; an error envelope on the probe ends the run as Failed with that error right after the probe request |
| GyunggiStore.GyunggiStoreArgsRoundTrip | collector/busstation/app/gyunggi.go:174-202 | the 28 call arguments carry every attribute once, in call order (X before Y), and the record is recovered from them |
| GyunggiStore.InsertGyunggiBusStations | collector/busstation/app/gyunggi.go:172-209 | one store call per record in order; every call before the last was accepted; stops at and returns the first error; nil iff all records were written |
| OpenApi.StoredInOrderUnique | collector/busstation/app/seoul.go:43-59 | the stop-at-first-error specification determines the calls made and the error returned |
| Seoul.ToBusStation | collector/busstation/app/seoul.go:33-41 | StationName := STTN_NM, StationId := STTN_ID, ArsId := STTN_NO unnormalised, Latitude := CRDNT_Y, Longitude := CRDNT_X |
| Seoul.ToBusStationRoundTrip | collector/busstation/app/seoul.go:33-41 | the standard form keeps everything but STTN_TYPE and BUSINFO_FCLT_INSTL_YN: STTN_NO is the ArsId, CRDNT_Y the latitude, CRDNT_X the longitude |
| Seoul.ConvertSeoulBusStationsToStandard | collector/busstation/app/seoul.go:105-112 | same length, no filtering; output[i] carries STTN_ID, STTN_NM, STTN_NO, CRDNT_Y as latitude and CRDNT_X as longitude of input[i] |
| Seoul.SeoulStoreArgsRoundTrip | collector/busstation/app/seoul.go:45-53 | the 7 call arguments carry every attribute once, in order, and the record is recovered from them |
| Seoul.InsertSeoulBusStations | collector/busstation/app/seoul.go:43-59 | one store call per record in order; stops at and returns the first error; nil iff all records were written |
| SeoulCollect.CollectSeoulBusStations | collector/busstation/app/seoul.go:61-103 | the probe-then-window loop issues exactly the requests and ends exactly as the loop specification says |
| SeoulCollect.WindowCount | collector/busstation/app/seoul.go:92-94 | N div 1000 + 1 windows: the last one's end exceeds N and the one before does not |
| SeoulCollect.WindowsCoverTotal | collector/busstation/app/seoul.go:63-64 | every row 1..N lies in exactly one requested window [1+1000k, 1000+1000k] |
| SeoulCollect.LoopAccepts | collector/busstation/app/seoul.go:76-98 | m appended windows that do not stop the loop request windows k..k+m-1 and append their rows in order |
| SeoulCollect.SeoulAllWindowsSucceed | collector/busstation/app/seoul.go:63-98 | with the first N div 1000 + 1 answers successes, the run is the probe (1, 1), then windows 0..N div 1000, ending Done with their rows concatenated in window order |
| SeoulCollect.SeoulProbeErrorFails | collector/busstation/app/seoul.go:69-72 | a zero count with an error envelope on the probe ends the run as Failed with that error and no rows, right after the probe request |
| SeoulCollect.SeoulFailureKeepsRows | collector/busstation/app/seoul.go:78-81 | an error response in window f ends the run with the rows of the f earlier windows and the error |
| SeoulCollect.LoopFailureKeepsCollected | collector/busstation/app/seoul.go:78-89 | a run that fails keeps every row collected before it as a prefix |
| SeoulCollect.SoftFailureRetries | collector/busstation/app/seoul.go:83-86 | a response with another code and no error is skipped; the same window is requested again with the indices unchanged |
| SeoulCollect.SoftFailureIgnored | collector/busstation/app/seoul.go:83-86 | inserting such a response anywhere among the answers does not change how the run ends |

## Left out

- HTTP requests and body reading (gyunggi.go:211-228, seoul.go:114-130) are network I/O. Each request is an answer taken from the oracle, and the request itself is recorded as its (index, size) or (start, end) pair.
- The failure-envelope detection inside the request helpers (gyunggi.go:229-237, seoul.go:132-140) is not modelled. An answer carries its error envelope (`apiError`) directly.
- The `Url` field of the error and the error message text built with `fmt.Sprintf` are not modelled. The run carries the service's result code instead.
- `encoding/json` decoding is not modelled. The provincial body is taken as the decoded JSON value and the metropolitan body as the decoded `TbisMasterStation`. The metropolitan helper ignores decoding errors, so a malformed body stands for whatever partial struct it yields.
- `mapstructure` is modelled only through the tag table:
  - a string field takes a string;
  - a float64 field takes a number;
  - null or a missing key gives the zero value;
  - any other JSON type is a decoding error.
- Case-insensitive key matching and mapstructure's other conversions are not modelled.
- The `proj` reprojection `bessel1884TMToWGS84` (gyunggi.go:156-170) is a foreign floating-point library. It is the `Transform` parameter, which may fail.
- float64 values are modelled as `real`, with no rounding. Coordinates are only copied.
- Go's 64-bit `int` wrap-around is not modelled: `pageIndex*pageSize` (gyunggi.go:107) and `startIndex`/`endIndex += 1000` (seoul.go:96-97) are unbounded integers here. They could only wrap after about 9.2e15 requests.
- GyunggiRecord.TruncateToInt: does not model Go's implementation-defined result for a count outside the range of `int`.
- `fmt.Printf` logging is not modelled.
- The store backend is not modelled. It is the `Store` parameter, which answers each call given the calls made so far.
- Unbounded retries: the number of answers given to a run is its fuel. A run that would go on requesting ends in `Exhausted` with the rows it holds.
- Panic messages are not modelled. A panic is `Fault` for a collection run, or `None` for the correction pass and the standardisation.
- Go's distinction between a nil slice and an empty slice is not modelled. A `Failed` run with no rows stands for the nil slice Go returns.
- GyunggiRecord.ExtractHead: its own contract states only the shape a successful extraction needs. Where each value comes from is stated by `ExtractHeadPositions`.
