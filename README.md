# CPI data fetcher — a Dafny model

This project models a small client of the U.S. Bureau of Labor Statistics (BLS)
public time-series API that collects Consumer Price Index (CPI) data.

The client reads a table of CPI items, each with an item code and an item name.
It turns each code into a series identifier by putting `CUUR0000` in front of it.
It then sends the identifiers to the API in batches of at most 24 and flattens
every successful JSON answer into one record per data point.

There are two programs:

- `CpiDataFetcher.ProcessData` is the main fetcher. Each record holds the series
  identifier, the item name and the date `year + "-" + period[1:]`. The item name
  is found by taking the first table row whose code is the identifier with its
  first 8 characters removed. If no row matches, the whole run fails.
- `RunAprilScript` is the stand-alone script. It uses the same identifiers and
  batches, keeps only the points of period `M04`, and writes no item name.

Neither program checks the date range of a response.

The network is a parameter. `responses[i]` stands for the JSON answer to batch
`i`, in the order the batches are sent. A response is a status, an optional
message and a list of series. A series is an identifier and a list of data
points. A data point is a year, a period, a value and a list of footnotes. A
footnote may be empty.

Modules:

- `Sequences`: Python's clamped slicing (`Slice`, `Drop`) and a generic
  `FlatMap`, with its append and step lemmas.
- `SeriesBatching`: series identifiers, and batching into chunks of 24.
- `BlsApi`: the response shape, the footnote string, the series of the
  successful responses, and the observations (series identifier with data point)
  in processing order.
- `CpiDataApi`: the item-name lookup and the date string. Also the specification
  `Process` of the main fetcher and the class `CpiDataFetcher`, whose
  `ProcessData` loop is proved equal to `Process`.
- `AprilScript`: the April script's specification `AprilRecords` and the
  `RunAprilScript` loop proved equal to it.

`Process` returns `Failure(ItemNotFound(id))` when some series of a successful
response names an item code that is not in the table. `id` is the first such
series, in processing order. This stands for the `IndexError` that `.values[0]`
raises on an empty selection, which ends `process_data` without a result.

## Model

| member | source | states |
|---|---|---|
| SeriesBatching.SeriesId | CPI_data_API.py:24 | the identifier is `CUUR0000` followed by the code; it is 8 characters longer, and removing the first 8 characters gives the code back |
| SeriesBatching.SeriesIds | CPI_data_API.py:24 | one identifier per table row, in table order, each starting with the prefix and giving back that row's code |
| SeriesBatching.SeriesIdInjective | CPI_data_API.py:24 | different item codes give different series identifiers |
| SeriesBatching.ItemCode | CPI_data_API.py:66 | `series_id[8:]`: for an identifier that starts with `CUUR0000`, the prefix followed by the result is the identifier; an identifier of at most 8 characters gives the empty code |
| SeriesBatching.Chunks | CPI_data_API.py:53-54 | the number of batches is the length divided by the batch size, rounded up |
| SeriesBatching.ChunkAt | CPI_data_API.py:54 | batch k is the identifiers from k*size up to (k+1)*size, cut at the end of the list |
| SeriesBatching.ChunkSizes | CPI_data_API.py:53-54 | every batch is non-empty and holds at most 24 identifiers; every batch but the last holds exactly 24 |
| SeriesBatching.ConcatChunks | CPI_data_API.py:54 | joining the batches in order gives back the identifier list, so every identifier is requested exactly once, in order |
| SeriesBatching.ConcatChunksPrefix | CPI_data_API.py:54 | the first j batches joined are the first j*size identifiers |
| SeriesBatching.ThirtyIdsMakeTwoRequests | CPI_data_API.py:53-54 | 30 identifiers make two requests: the first 24, then the last 6 |
| SeriesBatching.ChunkCountBounds | CPI_data_API.py:54 | the batches cover all n identifiers, and less than one extra batch is added |
| Sequences.Slice | CPI_data_API.py:54 | Python slicing `s[lo:hi]` with clamped bounds; it agrees with the exact slice when the bounds are in range |
| Sequences.Drop | CPI_data_API.py:66 | Python `s[n:]`: the elements after the first n, or empty when the sequence is shorter |
| Sequences.FlatMapAppend | CPI_data_API.py:57-77 | collecting over two lists one after the other gives the two results concatenated, which is the loop's append-only order |
| Sequences.FlatMapStep | CPI_data_API.py:57-77 | one more element processed adds exactly that element's output at the end |
| BlsApi.FootnoteText | CPI_data_API.py:71-74 | the footnote string is empty or ends with a comma |
| BlsApi.FootnoteTextEndsWithComma | CPI_data_API.py:71-74 | every non-empty footnote's text is followed by a comma, so the string built from any footnote list is empty or ends with a comma |
| BlsApi.CollectFootnotes | CPI_data_API.py:71-74 | the loop builds the text of every non-empty footnote followed by a comma, in order |
| BlsApi.FootnoteTextOfEmptyNotes | CPI_data_API.py:72-74 | empty footnotes add nothing to the string |
| BlsApi.FootnoteTextExample | CPI_data_API.py:71-74 | `Preliminary`, an empty note and `Revised` give `Preliminary,Revised,` |
| BlsApi.SuccessfulSeriesStep | CPI_data_API.py:61-64 | a successful response adds its series after those already read; a failed one adds nothing |
| BlsApi.SuccessfulSeriesMembers | CPI_data_API.py:61-64 | a series is processed if and only if it is in some response whose status is `REQUEST_SUCCEEDED` |
| BlsApi.SkipFailedResponse | CPI_data_API.py:61-62 | a failed response can be removed without changing anything; the loop moves on to the next batch |
| BlsApi.ObservationCount | CPI_data_API.py:64-67 | the observations are as many as the data points of all processed series |
| BlsApi.PointCountAppend | CPI_data_API.py:64-67 | data-point counts add up over concatenated series lists |
| BlsApi.SuccessfulSeriesWithoutFootnotes | CPI_data_API.py:61-64 | dropping footnotes commutes with selecting the successful series |
| CpiDataApi.Lookup | CPI_data_API.py:66 | a name found belongs to a table row with exactly that item code |
| CpiDataApi.LookupFirstMatch | CPI_data_API.py:66 | the lookup misses if and only if no row has the code; otherwise it returns the name of the first row with that code |
| CpiDataApi.DateString | CPI_data_API.py:75-76 | the date is the year, a `-`, then the period without its first character |
| CpiDataApi.MonthlyPeriodGivesYearMonth | CPI_data_API.py:75-80 | a four-digit year and a period `M01`–`M12` give a `YYYY-MM` date with a month from 01 to 12 |
| CpiDataApi.AnnualAveragePeriodIsNoMonth | CPI_data_API.py:75-80 | the annual-average period `M13` gives a date that is not a valid `YYYY-MM` month |
| CpiDataApi.DateStringExample | CPI_data_API.py:75-76 | year `2023`, period `M06` give `2023-06` |
| CpiDataApi.PointRecord | CPI_data_API.py:75-77 | the record carries the series identifier, the item name and the value; its date is the year, a `-`, then the period without its first character |
| CpiDataApi.PointRecords | CPI_data_API.py:67-77 | one record per data point of the series, in order, each with the series identifier, the item name, the point's value and its date string |
| CpiDataApi.FirstUnresolved | CPI_data_API.py:64-66 | the result is none if and only if every series' code is in the table; otherwise it names a series whose code is missing and before which every series resolves, that is, the first one |
| CpiDataApi.AllResolvedTail | CPI_data_API.py:64-66 | behind a series that resolves, the rest all resolve exactly when the whole list does |
| CpiDataApi.AllResolvedPrefixTail | CPI_data_API.py:64-66 | a resolving first series followed by a resolving prefix of the rest is a resolving prefix of the whole list |
| CpiDataApi.FirstUnresolvedAfterResolved | CPI_data_API.py:64-66 | series that all resolve, put in front, do not change which series fails first |
| CpiDataApi.FirstUnresolvedBeforeRest | CPI_data_API.py:64-66 | once a series fails, the series after it do not matter |
| CpiDataApi.AllResolvedAppend | CPI_data_API.py:64-66 | two lists of series that both resolve also resolve when concatenated |
| CpiDataApi.RecordsOfAppend | CPI_data_API.py:64-77 | the records of concatenated series are the records of the first list followed by those of the second |
| CpiDataApi.Process | CPI_data_API.py:57-77 | succeeds if and only if every series of every successful response resolves; a failure names a series of a successful response whose code is missing and before which every such series resolves |
| CpiDataApi.ProcessFailsIffUnknownItem | CPI_data_API.py:61-66 | processing fails if and only if some series of a successful response has a code missing from the table; failed responses are never looked up |
| CpiDataApi.RecordsFollowObservations | CPI_data_API.py:64-77 | when all series resolve, record m is observation m with its item name and date: one record per data point, in order |
| CpiDataApi.ProcessRecordsObservations | CPI_data_API.py:57-77 | a successful run has one record per data point of the successful responses: identifier, first-match item name, date string and value, in response, series and point order |
| CpiDataApi.ProcessAppend | CPI_data_API.py:57-77 | processing two groups of responses one after the other: a failure in the first group wins; otherwise a failure in the second group is the result; otherwise the records are concatenated |
| CpiDataApi.SkipFailedChunk | CPI_data_API.py:57-62 | a response whose status is not `REQUEST_SUCCEEDED` contributes nothing and does not stop the run |
| CpiDataApi.SeriesIdsResolve | CPI_data_API.py:24 | the identifier built from row i resolves, and when row i is the first row with its code, the lookup gives row i's name |
| CpiDataApi.SingleItemScenario | CPI_data_API.py:57-77 | one item `SA0` named `All items` and one successful response with a June 2023 point give the single record (`CUUR0000SA0`, `All items`, `2023-06`, `301.5`) |
| CpiDataApi.ProcessIgnoresFootnotes | CPI_data_API.py:71-77 | the footnote string is discarded: removing all footnotes leaves the result unchanged |
| CpiDataApi.FirstUnresolvedWithoutFootnotes | CPI_data_API.py:71-77 | footnotes do not affect which series fails the lookup |
| CpiDataApi.RecordsOfWithoutFootnotes | CPI_data_API.py:71-77 | footnotes do not affect the records |
| CpiDataApi.CpiDataFetcher.constructor | CPI_data_API.py:8-24 | stores the paths, years and item table, and builds `CUUR0000` + code for every row, in order |
| CpiDataApi.CpiDataFetcher.ProcessData | CPI_data_API.py:47-77 | the loop's result equals `Process`; the batches sent are a prefix of all batches, all of them on success, and on failure exactly those up to the first response after which `Process` fails |
| CpiDataApi.HandleResponse | CPI_data_API.py:59-77 | a failed response adds nothing; a successful one either extends the records to those of `Process` over one more response, or stops with the error `Process` gives for all the responses |
| CpiDataApi.AppendResponseRecords | CPI_data_API.py:64-77 | the series loop reports the first series whose code is not in the table; when there is none, it appends the records of all series, in order, after those already collected |
| CpiDataApi.AppendSeriesRecords | CPI_data_API.py:67-77 | the data-point loop appends one record per point, in order, after the records already collected, which stay as they were |
| CpiDataApi.AppendResolvedSeries | CPI_data_API.py:64-77 | one more series whose lookup finds a name keeps every series resolved and appends exactly that series' records, under that name |
| CpiDataApi.UnresolvedSeriesIsFirst | CPI_data_API.py:64-66 | a series whose code is missing, after series that all resolve, is the first unresolved series |
| CpiDataApi.ProcessNextResponse | CPI_data_API.py:57-77 | how one more response changes `Process`: a failed one changes nothing, a resolving one appends its records, one with an unknown code fixes the final result as that failure |
| CpiDataApi.UnresolvedResponseFails | CPI_data_API.py:61-66 | when every earlier series resolves and a successful response holds an unknown code, the whole run fails with that response's first unknown series |
| CpiDataApi.UnknownItemStopsProcessing | CPI_data_API.py:66 | the first series with a code missing from the table makes the whole run fail with that series' identifier |
| AprilScript.AprilRow | test/test.py:66-68 | an observation gives one row exactly when its period is `M04`; the row carries its identifier, its value and the date the main fetcher builds |
| AprilScript.AprilRecords | test/test.py:46-68 | there are as many rows as `M04` observations of the successful responses |
| AprilScript.RunAprilScript | test/test.py:14-68 | builds the identifiers and item names from the table, sends all batches in order, and collects exactly `AprilRecords` of the responses |
| AprilScript.HandleAprilResponse | test/test.py:48-68 | the rows collected after one more response are the rows of the responses so far, one more included |
| AprilScript.AppendResponseRows | test/test.py:55-68 | the series loop appends the April rows of every series, in order, after the rows already collected |
| AprilScript.AppendAprilRows | test/test.py:58-68 | the data-point loop appends one row per `M04` point, in order, after the rows already collected |
| AprilScript.AprilRowsSound | test/test.py:66-68 | every row comes from an `M04` observation and carries its identifier, `year-04` and its value |
| AprilScript.AprilRowsComplete | test/test.py:66-68 | every `M04` observation gives a row |
| AprilScript.AprilRowCount | test/test.py:66-68 | there are exactly as many rows as observations with period `M04` |
| AprilScript.AprilRecordsAppend | test/test.py:46-68 | rows of later responses follow those of earlier ones |
| AprilScript.AprilSkipsFailedChunk | test/test.py:51-52 | a failed response adds no rows and does not stop the run |
| AprilScript.AnnualAverageDropped | test/test.py:66 | a successful response whose single series has only an `M13` point gives no row |
| AprilScript.AprilDateAgreesWithMainScript | test/test.py:67 | the script's `year-04` is the date the main fetcher builds for period `M04` |
| AprilScript.AprilNextPoint | test/test.py:58-68 | one more data point adds that point's row, if it is an April point |
| AprilScript.AprilNextSeries | test/test.py:55-68 | one more series adds exactly that series' rows |
| AprilScript.AprilNextResponse | test/test.py:46-68 | one more response adds the April rows of its series when it succeeded, and nothing otherwise |

## Left out

- The HTTP request (`fetch_data`, `requests.post`, `json.dumps`/`.json()`, the registration key, start and end year in the payload): the network is replaced by the list `responses`, one answer per batch, in batch order.
- `time.sleep(1)` between requests: timing has no effect on the data.
- Reading the item CSV with pandas: the table is a parameter `seq<ItemRow>`. The pandas `DataFrame`, `to_csv`, `save_to_csv` and the `__main__` block with its Windows paths are file output and are not modelled.
- The printed messages ("Request failed: …", "Data saved to …"): they are console output. The response's `message` is kept as an `Option` but nothing reads it.
- `float(value)`: the value stays the string from the response. A value that does not parse, which makes Python raise `ValueError`, is not modelled.
- `pd.to_datetime(..., format='%Y-%m')`: it is modelled only by the predicate `IsYearMonth` and the lemmas about which periods pass it. The exception it raises on `M13` or other non-month periods is not part of `Process`.
- JSON shape errors: a missing `status` reads as a failed response, which matches `.get` returning `None`. A missing `Results`, `series`, `data` or footnote `text` key (a `KeyError` in Python) cannot occur, because the response datatype always has these fields.
- CpiDataApi.CpiDataFetcher.ProcessData: the `IndexError` on an unknown item code is modelled as a `Failure` result, returned as soon as the first unknown series is met. The batches sent up to that point are returned in `fetched`.
- CpiDataApi.CpiDataFetcher.constructor: `startYear` and `endYear` are stored but only go into the request payload, which is not modelled. `api_url` and `headers` are constants of that request and are left out.
- CpiDataApi.HandleResponse: the body of the batch loop, the series loop (`AppendResponseRecords`) and the data-point loop (`AppendSeriesRecords`) are separate methods, each called from the loop around it, so that each proof stays small. In the source they are inlined.
- AprilScript.HandleAprilResponse: the same split for the April script, with `AppendResponseRows` and `AppendAprilRows`.
- BlsApi.CollectFootnotes: the footnote loop is a separate method for the same reason. Its result is discarded, as in the source.
- The item-name lookup uses the function `Lookup`, a first-match search over the table. It stands in for the pandas boolean selection followed by `.values[0]`.
