# NOAA daily-weather backfill: a Dafny model

This project models the data pipeline of `Plotting_v3.py`. The script backfills California's daily weather for 2023 and 2024 from the NOAA Climate Data Online (CDO) API. It has four parts, and each is a module here:

- **Fetcher** (`fetcher.dfy`) models `fetch_with_retries`. It makes up to `retries` HTTP GETs and returns the parsed body of the first status-200 reply. After each failing attempt `i` it sleeps `backoff_factor ** i` seconds, and it returns `None` once the attempts run out. The HTTP client is a parameter: `net(i)` is what the i-th `requests.get` call yields, either a reply (a status code and a parsed body) or a raised `RequestException`. Sleeps are recorded, not performed. The method also returns how many calls it made.
- **Normalize** (`normalize.dfy`) models `process_data`.
  - Unit conversion is modelled as the four masked `df.loc` assignments, in order. This is proved equal to a per-row conversion table (TMAX/TMIN °C→°F, PRCP mm→in, AWND m/s→mph, every other datatype unchanged).
  - The station table is `pivot_table` over (station, date) with its default mean.
  - The statewide table is `groupby(date, datatype)` mean, pivoted to one row per date.
  - Both tables are built the way a group-by works: one pass that accumulates each group's sum and count, then a pivot. They are proved equal to the mean of the matching converted values. A table is a map from its row key to a map from datatype to value. An absent cell is an absent key.
- **Calendar** (`calendar.dfy`) models the chunk schedule. It covers Gregorian dates, the leap-year rule, `pd.date_range(..., freq="MS")`, the one-day shift back, and `zip`.
- **Driver** (`driver.dfy`) models the script's chunk loop. Per chunk, it fetches with the defaults (5 attempts, factor 2). When the response has a non-empty `results` list, it processes that list and appends one table to each of the two accumulation lists. Otherwise it skips the chunk.

`wrappers.dfy` holds the `Option` type that stands in for Python's `None`.

Four behaviours of `fetch_with_retries` and `pivot_table` are easy to misread:

- 429, 502 and 503 are the only statuses retried by the code's own branch. Any other 4xx or 5xx status reaches `raise_for_status()`. That raises `HTTPError`, which is a `RequestException`, so the same `except` clause catches it and backs off. A 404 is therefore retried with the full backoff schedule (`Fetcher.NotFoundIsRetried`).
- A non-200 status outside 400–599 raises nothing. The loop goes to the next attempt without sleeping (`Fetcher.NotModifiedNeverSleeps`).
- The sleep comes after a failed attempt, including the last one, so five failures sleep 1, 2, 4, 8 and 16 seconds before `None` is returned. Exhausted retries and permanent errors both give `None`, with no separate failure value.
- Duplicate (station, date, datatype) rows are averaged in the station table, because mean is `pivot_table`'s default aggregation.

## Model

| member | source | states |
|---|---|---|
| Fetcher.RaisesForStatus | Plotting_v3.py:23 | The statuses `raise_for_status()` raises for: 400 to 599. |
| Fetcher.Classify | Plotting_v3.py:17-26 | What one attempt does: return the body on 200, back off on 429/502/503, on a status `raise_for_status()` raises for, or on a raised call, and otherwise go to the next attempt without sleeping. |
| Fetcher.Fetch | Plotting_v3.py:14-28 | The whole retry run from attempt 0: its result, its number of calls and its sleeps. |
| Fetcher.FetchWithRetries | Plotting_v3.py:10-28 | The loop's result, its number of calls and its list of sleeps are exactly those of the run `Fetch` describes. |
| Fetcher.FetchFrom | Plotting_v3.py:14-26 | The loop never makes more calls than there are attempts left, and it sleeps at most once per call. |
| Fetcher.FetchReturnsFirstOk | Plotting_v3.py:14-18 | If call k is the first status-200 reply within `retries` calls, the body of that reply is returned after k + 1 calls. Each earlier failing attempt i has slept `backoff ** i`, in order. |
| Fetcher.FetchExhausted | Plotting_v3.py:14-28 | With no status-200 reply, the loop makes exactly `retries` calls (none if `retries` ≤ 0) and returns `None`. Every failing attempt has slept, the last one included. |
| Fetcher.FetchResult | Plotting_v3.py:14-28 | The result is `Some(v)` if and only if some call within `retries` answered 200 with body v and no earlier call answered 200. |
| Fetcher.BackoffStatuses | Plotting_v3.py:19-26 | An attempt backs off exactly when the status is 4xx or 5xx, or when the call raised. It moves on silently exactly when the status is neither 200 nor 4xx/5xx. |
| Fetcher.DefaultScheduleWhenAllFail | Plotting_v3.py:10-26 | With the defaults and five failing attempts, the sleeps are 1, 2, 4, 8 and 16 seconds, five calls are made, and the result is `None`. |
| Fetcher.UnavailableTwiceThenOk | Plotting_v3.py:14-21 | With replies 503, 503, 200, the loop makes three calls, sleeps 1 s and then 2 s, and returns the third body. |
| Fetcher.NotFoundIsRetried | Plotting_v3.py:22-26 | A persistent 404 is retried: five calls, the full 1–16 s schedule, result `None`. |
| Fetcher.NotModifiedNeverSleeps | Plotting_v3.py:22-23 | A persistent 304 uses all five attempts without sleeping once. |
| Normalize.Converted | Plotting_v3.py:60-67 | The conversion table: TMAX and TMIN go from °C to °F, PRCP from mm to inches, AWND from m/s to mph, and every other datatype is unchanged. |
| Normalize.Pivot | Plotting_v3.py:74 | Spreads group totals into a table with one row per row key and one cell per column that occurs with it, holding the group's mean. |
| Normalize.StationData | Plotting_v3.py:70 | `station_data`: the converted rows, grouped by (station, date, datatype) and pivoted to one row per (station, date). |
| Normalize.StatewideData | Plotting_v3.py:73-74 | `statewide_data`: the converted rows, grouped by (date, datatype) and pivoted to one row per date. |
| Normalize.ProcessData | Plotting_v3.py:47-76 | `process_data`: the pair of the station table and the statewide table. |
| Normalize.Rescale | Plotting_v3.py:60-61 | One guarded masked assignment changes exactly the rows of the given datatype. Every other row is left unchanged, and the row count stays the same. |
| Normalize.ConvertUnits | Plotting_v3.py:60-67 | The four conversion statements together keep the row count. Each row gets the conversion-table value for its datatype, applied once. Station, date and datatype are unchanged. |
| Normalize.ConversionSamples | Plotting_v3.py:61-67 | 0 °C → 32 °F, 100 °C → 212 °F, 10 mm → 0.3937 in, 1 m/s → 2.23694 mph, humidity 55 → 55. |
| Normalize.Tally | Plotting_v3.py:73 | Every group the group-by pass produces has a positive count. |
| Normalize.TallyValues | Plotting_v3.py:73 | A key is grouped exactly when it has values. Its accumulator then holds the sum and the number of those values. |
| Normalize.PivotCells | Plotting_v3.py:74 | A pivot has a row for each row key that occurs. In that row it has a cell for each column grouped with that key, holding the group's mean. |
| Normalize.ProcessDataEmpty | Plotting_v3.py:51-54 | Both tables are empty if and only if the input is empty. |
| Normalize.StationTableRows | Plotting_v3.py:70 | The station table has a row for (s, d) if and only if some input row has station s and date d. |
| Normalize.StationTableCells | Plotting_v3.py:70 | A station row has a cell for datatype t if and only if some rows share that station, date and datatype. The cell is then the mean of their converted values. |
| Normalize.StatewideTableRows | Plotting_v3.py:73-74 | The statewide table has a row for d if and only if some input row has date d. |
| Normalize.StatewideTableCells | Plotting_v3.py:73-74 | A statewide cell (d, t) is present if and only if some rows have date d and datatype t. The cell is then the arithmetic mean of the converted values of all those rows, whatever their station. |
| Normalize.StatewideMeanIsOverRows | Plotting_v3.py:73-74 | Take readings 10 and 20 at station A and 60 at station B. The statewide mean is 30, the mean over rows; the station means are 15 and 60. |
| Calendar.NextDay | Plotting_v3.py:82 | The calendar successor of a valid Gregorian date, with month lengths and leap years. |
| Calendar.PrevDay | Plotting_v3.py:82 | `- timedelta(days=1)` gives a valid, earlier date whose next day is the original. |
| Calendar.PrevDayOfNextDay | Plotting_v3.py:82 | Going one day forward and then one day back returns the same date. |
| Calendar.MonthStarts | Plotting_v3.py:81 | Every date `date_range(start, end, freq="MS")` yields is a valid first of a month within [start, end], and the dates fall in consecutive months. |
| Calendar.MonthStartsComplete | Plotting_v3.py:81 | Every first of a month within [start, end] is in the range. |
| Calendar.ShiftBackOneDay | Plotting_v3.py:82 | Shifting an index back one day keeps its length, and the day after each shifted date is the original date. |
| Calendar.ChunkPairs | Plotting_v3.py:81-87 | The zipped (start, end) chunk pairs: the month starts from 2023-01-01 to 2024-11-30, paired with the day before each month start from 2023-02-01 to 2024-12-01. |
| Calendar.ChunkSchedule | Plotting_v3.py:81-87 | There are 23 chunks, and chunk i runs from the first to the last day of month i counted from January 2023. |
| Calendar.ChunkIsCalendarMonth | Plotting_v3.py:81-82 | Each chunk runs from a first of a month to the last day of the same month, so its end is never before its start. |
| Calendar.ChunksContiguous | Plotting_v3.py:81-82 | The day after one chunk's end is the next chunk's start. |
| Calendar.FirstChunk | Plotting_v3.py:81-82 | The first chunk is 2023-01-01 to 2023-01-31. |
| Calendar.LeapFebruaryChunk | Plotting_v3.py:81-82 | The February 2024 chunk ends on the 29th. |
| Calendar.LastChunk | Plotting_v3.py:81-82 | The last chunk is 2024-11-01 to 2024-11-30. |
| Driver.CdoRequest | Plotting_v3.py:36-44 | The query parameters: dataset, location, start and end dates, the five datatypes, metric units and a limit of 1000. |
| Driver.HasResults | Plotting_v3.py:91 | A chunk is kept when its response is not `None`, has a `results` key, and that list is not empty. |
| Driver.Collected | Plotting_v3.py:87-96 | The `results` lists of the kept chunks, in chunk order. |
| Driver.FetchCdoHistoricalData | Plotting_v3.py:30-45 | Returns what the retry loop returns for the chunk's query, with five attempts and backoff factor 2. |
| Driver.Accumulate | Plotting_v3.py:87-96 | The two accumulation lists have the same length, one entry per chunk with results. Their j-th entries are the two tables of the j-th such chunk's results, in chunk order. |
| Driver.Backfill | Plotting_v3.py:81-96 | The script's lists are those of the chunk loop over the 23-month schedule. |
| Driver.CollectedBounded | Plotting_v3.py:87-94 | There is at most one entry per chunk. |
| Driver.CollectedAppend | Plotting_v3.py:87-96 | Chunks are handled independently and in order: processing more chunks only appends. |
| Driver.ChunkStep | Plotting_v3.py:91-96 | A chunk whose response is `None`, lacks `results` or has an empty list changes nothing. Any other chunk appends exactly its results. |
| Driver.CollectedAll | Plotting_v3.py:87-94 | When every chunk has results, the j-th entry is the j-th chunk's results. |
| Driver.CollectedNone | Plotting_v3.py:91-96 | When no chunk has results, nothing is collected. |
| Driver.SecondChunkExhausted | Plotting_v3.py:87-96 | Take two chunks, where the first answers 200 at once and the second answers 503 five times. Only the first chunk's observations are processed. |

## Left out

- HTTP itself is not modelled: the URL, the `token` header, `certifi` and the query serialisation. A network call is an abstract outcome per attempt, keyed by the query record.
- JSON decoding is assumed to succeed. A `JSONDecodeError` raised by `response.json()` is a `RequestException` in current versions of requests, so it would be retried. The model does not capture this.
- An exception from `requests.get` that is not a `RequestException` is not modelled. In the source it would abort the run.
- The `print` messages are left out, because they are console output.
- `time.sleep` is recorded as a list of delays. No time passes.
- `backoff_factor` is an integer. Python would also accept a float, which is not modelled.
- Fetcher.FetchWithRetries: a negative `backoff_factor` is not modelled as the source behaves. `time.sleep` of a negative delay such as `(-2) ** 1` raises `ValueError`, which is not a `RequestException`, so the source's call raises. The model instead records the negative delay and carries on. The only caller passes 2.
- Fetcher.FetchWithRetries: the number of calls it returns is an observation added by the model. The source returns only the body or `None`.
- The Excel output and `pd.concat` (lines 98-111) are left out, because they are file I/O. The model stops at the two lists of per-chunk tables.
- Values are reals, not IEEE doubles, so rounding is not modelled.
- `pd.to_datetime` and `strftime("%Y-%m-%d")` are left out, because dates are values here. String parsing and formatting are not modelled.
- pandas row order, the `reset_index` columns and NaN handling are not modelled. A table is a keyed map, and an absent cell is an absent key.
- The `limit: 1000` parameter is sent, but the server's truncation of longer answers is part of the abstract network.
- A JSON body that is not an object is not modelled. A body is an object whose `results` key is present or absent.
- plotting.py and plotting_rtm.py are not part of this model. They are chart-drawing scripts over spreadsheets.
