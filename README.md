# Verified model of the auto-backtesting core

This project models, in Dafny, the two halves of the backtesting core:

- **Data acquisition and cache** (`engine/binance_client.py`, `engine/data_loader.py`):
  the kline query and its response shaping, the conversion of `YYYY-MM-DD`
  dates to UTC-midnight epoch milliseconds, the pagination loop of
  `fetch_and_save` (pages of at most 1000 bars, cursor one millisecond past the
  last bar), the merge of the pages (concatenate, drop repeated timestamps
  keeping the first, sort), the CSV cache and `load_data` with its date filter
  and its fall-back to the exchange.
- **Strategies** (`strategies/sma_cross.py`, `strategies/mtf_rsi_trend.py`):
  the simple moving average indicators, the gain/loss split and final ratio of
  the RSI, and the per-bar decisions of `SmaCross.next` and `MtfRsiTrend.next`.

Modules, one per concern:

| file | module | models |
|---|---|---|
| `wrappers.dfy` | `Wrappers` | `Option` (also NaN) and `Result` (a raised exception) |
| `series.dfy` | `Series` | sums and means over reals, NaN-aware comparisons, the `Signal` a `next()` emits, the stop-loss price |
| `sma_cross.dfy` | `SmaCross` | `_sma` (a loop over an array) and `SmaCross.next` |
| `mtf_rsi_trend.dfy` | `MtfRsiTrend` | the rolling-mean `_sma`, `_rsi`'s difference, clip and ratio steps, `MtfRsiTrend.next` |
| `binance_client.dfy` | `BinanceClient` | `get_klines`: the parameter dict, the status check, the projection of 12-field klines onto bars; the endpoint as an `Exchange` value |
| `dates.dfy` | `Dates` | `_date_to_ms`: `strptime(s, "%Y-%m-%d")` and Python's proleptic Gregorian ordinal |
| `frames.dfy` | `Frames` | the frame operations: concat, `duplicated(keep="first")`, `sort_index`, the inclusive date filter |
| `paging.dfy` | `Paging` | the `while True` pagination loop, as a recursive specification `CrawlFrom` and as the loop `CollectPages` proved to compute it |
| `data_loader.dfy` | `DataLoader` | `_csv_path`, the date bounds, `fetch_and_save` and `load_data` over a `Cache` object whose file map they update |

The HTTP endpoint is an `Exchange`: the list of klines it can serve and the
HTTP status of each successive request. Request number `k` with parameters
`params` answers the klines inside `[startTime, endTime]`. With a `startTime`
it answers the first `limit` of them in the exchange's order. Without one it
answers the last `limit` in that order. When the exchange lists its klines in
time order (`BinanceClient.Chronological`), these are the earliest and the
most recent. Every request is recorded, so the contracts can speak about
what was sent. A raised exception becomes an `Err` value: `HttpError(status)`
for `raise_for_status`, `BadDate(text)` for a date `strptime` rejects.

In a few places the code does less than a caller would expect. The model
follows the code:

- A cache is meant to be reused only when it covers the requested dates, and
  to be refetched otherwise. `load_data` refetches only when the cached frame
  has *no* bar inside the dates. A cache that covers the dates only in part is
  returned as it is, without a request (`DataLoader.CacheHitIgnoresExchange`).
- `fetch_and_save` writes the cache file only when at least one page came
  back. An empty result is returned without a write.
- When the fall-back fetch writes, it replaces the whole cache file. Bars
  cached outside the requested dates are lost (`DataLoader.FallbackReplacesFile`).
- The end date is inclusive only up to its UTC midnight. In the cache filter
  and in the request's `endTime`, a bar opening later on the end date is
  outside the window.
- In `MtfRsiTrend.next` a NaN daily RSI does not block an exit. The
  `close < slow SMA` test alone can close the position (`MtfRsiTrend.NanRules`).
- A crossover is naturally read as the fast SMA moving from at or below the
  slow one to above it. `backtesting.lib.crossover` requires *strictly* below
  on the previous bar, so a fast SMA that touched the slow one and then rose
  gives no entry. `SmaCross.Crossover` follows the library.
- Without a start date the exchange answers only the most recent 1000
  klines up to the end. So a fetch without a start date returns at most
  1000 bars, however long the history (`DataLoader.FetchComplete` needs a
  start date).

## Model

| member | source | states |
|---|---|---|
| `Series.MeanBounds` | strategies/sma_cross.py:32 | the mean of a non-empty window whose prices all lie in `[lo, hi]` lies in `[lo, hi]` |
| `Series.StopLoss` | strategies/sma_cross.py:75 | the stop-loss `price * (1 - pct)` lies strictly between 0 and the price for a positive price and `0 < pct < 1` |
| `SmaCross.SmaAt` | strategies/sma_cross.py:30-32 | the entry at index `i` is defined iff `i >= period - 1`, and is then the mean of the `period` prices ending at `i` |
| `SmaCross.Sma` | strategies/sma_cross.py:21-33 | the loop over a NaN-filled array returns one entry per price: NaN for the first `period - 1` indices, and from `period - 1` on the mean of the `period` prices ending there (`SmaAt`) |
| `SmaCross.SmaShortInputUndefined` | strategies/sma_cross.py:30-31 | with fewer prices than the period, every entry stays NaN |
| `SmaCross.SmaWithinPriceRange` | strategies/sma_cross.py:31-32 | every index from `period - 1` on is defined, and its value lies within any bounds of the input prices |
| `SmaCross.SmaExample` | strategies/sma_cross.py:21-33 | `[1, 2, 3, 4, 5]` with period 3 gives `[NaN, NaN, 2, 3, 4]` |
| `SmaCross.CrossoverOneWay` | strategies/sma_cross.py:72-81 | two series cannot cross each other in both directions on the same bar, so the `elif` branch is reached only without an upward cross |
| `SmaCross.Next` | strategies/sma_cross.py:66-81 | entry iff the fast SMA crosses above the slow one with no position, with `sl = close * (1 - stop_loss_pct)`; exit iff no upward cross, a downward cross and an open position; no cross gives no action |
| `SmaCross.NextOnSeriesMeaning` | strategies/sma_cross.py:72-81 | on the SMA series: entry iff flat and fast goes from strictly below to strictly above slow; exit iff in a position and the opposite move; a NaN in the last two bars of either series gives no action; the stop-loss lies in `(0, close)` |
| `MtfRsiTrend.RollingMean` | strategies/mtf_rsi_trend.py:47-49 | `rolling(period).mean()` has one entry per price, defined exactly from index `period - 1` on |
| `MtfRsiTrend.RollingMeanIsSma` | strategies/mtf_rsi_trend.py:47-49 | `rolling(period).mean()` has one entry per price and equals `SmaCross._sma` index by index |
| `MtfRsiTrend.Diff` | strategies/mtf_rsi_trend.py:58 | `diff()` has one entry per price, NaN exactly at the first |
| `MtfRsiTrend.DiffInverse` | strategies/mtf_rsi_trend.py:58 | `diff()` is NaN first; summing the differences from the first price recovers every later price |
| `MtfRsiTrend.GainLoss` | strategies/mtf_rsi_trend.py:59-60 | the clipped gain and loss are NaN exactly where the delta is, non-negative, at most one of them non-zero, and gain minus loss is the delta |
| `MtfRsiTrend.Gains` | strategies/mtf_rsi_trend.py:58-59 | one entry per price, NaN exactly at the first; every later gain is non-negative, positive iff the price rose, and is `GainLoss`'s gain of the change from the previous price |
| `MtfRsiTrend.Losses` | strategies/mtf_rsi_trend.py:58-60 | one entry per price, NaN exactly at the first; every later loss is non-negative, positive iff the price fell, and is `GainLoss`'s loss of the change from the previous price |
| `MtfRsiTrend.RisingSeriesGainsOnly` | strategies/mtf_rsi_trend.py:58-60 | on a strictly rising series every defined loss is zero and every defined gain positive; the first position is NaN in both |
| `MtfRsiTrend.RsiStep` | strategies/mtf_rsi_trend.py:63-64 | the RSI is NaN when either average is; when defined it lies in `[0, 100]`; below 100 with a positive loss average; 100 with zero loss and positive gain; NaN when both are zero |
| `MtfRsiTrend.RsiIsGainShare` | strategies/mtf_rsi_trend.py:63-64 | with a positive loss average, `100 - 100 / (1 + g / l)` equals `100 * g / (g + l)` |
| `MtfRsiTrend.RsiAboveFifty` | strategies/mtf_rsi_trend.py:63-64 | a defined RSI exceeds 50 iff the gain average exceeds the loss average |
| `MtfRsiTrend.RsiSeries` | strategies/mtf_rsi_trend.py:63-64 | point by point, the RSI series has the averages' length, lies in `[0, 100]` where defined, is NaN wherever an average is, and each entry is `RsiStep` of the two averages at that bar |
| `MtfRsiTrend.Next` | strategies/mtf_rsi_trend.py:131-151 | flat: entry iff weekly RSI > 50, daily RSI > `rsi_entry`, fast SMA > slow SMA and price > fast SMA (all defined), with `sl = price * (1 - stop_loss_pct)`; in a position: exit iff daily RSI > `rsi_exit` or price < slow SMA |
| `MtfRsiTrend.NextExclusive` | strategies/mtf_rsi_trend.py:134-151 | a flat strategy never exits, a position never re-enters, and with the default 4% the stop-loss lies in `(0, price)` |
| `MtfRsiTrend.NanRules` | strategies/mtf_rsi_trend.py:136-151 | a NaN in any entry indicator blocks entry; with a NaN daily RSI an exit happens iff the slow SMA is defined and above the price |
| `BinanceClient.UpperChar` | engine/binance_client.py:40 | ASCII lower-case letters move up by 32, every other character is kept, and no lower-case letter remains |
| `BinanceClient.Upper` | engine/binance_client.py:40 | `symbol.upper()` keeps the length and upper-cases each character in place |
| `BinanceClient.UpperIdempotent` | engine/binance_client.py:40 | upper-casing twice is upper-casing once |
| `BinanceClient.QueryParams` | engine/binance_client.py:39-47 | the dict holds `symbol` (upper-cased), `interval` and `limit`, and `startTime`/`endTime` exactly when given, with the given values |
| `BinanceClient.BuildParams` | engine/binance_client.py:39-47 | the dict built by a literal and two conditional inserts is `QueryParams` |
| `BinanceClient.Window` | engine/binance_client.py:49-53 | the klines the endpoint holds inside the inclusive window, no more than it holds |
| `BinanceClient.Serve` | engine/binance_client.py:49-55 | the endpoint's answer holds at most `limit` klines, each one of the market's, inside the requested window |
| `BinanceClient.ServeShape` | engine/binance_client.py:49-55 | the answer is the whole window or exactly `limit` klines of it (so a short page is the whole window); with a start, a leading run of the window, without one a trailing run |
| `BinanceClient.SameOpenTime` | engine/binance_client.py:77-78 | in a list in time order, two klines with the same open time are the same kline |
| `BinanceClient.WindowChronological` | engine/binance_client.py:49-55 | the window of a list in time order is in time order |
| `BinanceClient.AnswerCovers` | engine/binance_client.py:49-55 | from a list in time order and with a start, the answer holds every kline of the window up to its last bar, all of them when it is shorter than the limit, and at least one when the limit is positive |
| `BinanceClient.Project` | engine/binance_client.py:66-80 | one bar per kline, in order: open time as timestamp, fields 1 to 5 as OHLCV |
| `BinanceClient.ProjectAppend` | engine/binance_client.py:66-80 | projecting a concatenation is concatenating the projections |
| `BinanceClient.KlinesResult` | engine/binance_client.py:54-60 | an error exactly for a 4xx or 5xx status, carrying that status; otherwise the shaped answer (empty for an empty answer) |
| `BinanceClient.GetKlines` | engine/binance_client.py:16-80 | sends `QueryParams` and returns `KlinesResult` for that request |
| `BinanceClient.AnswerWithinRequest` | engine/binance_client.py:44-55 | every bar of an answer is the projection of one of the market's klines and lies inside the requested window |
| `Dates.ParseDate` | engine/data_loader.py:30 | an accepted text is a valid calendar date, 8 to 10 characters long, with four digits and a `-` in front |
| `Dates.MonthAt` | engine/data_loader.py:30 | a matched month lies in 1..12, took one or two characters, and is followed by `-` |
| `Dates.DayAt` | engine/data_loader.py:30 | a matched day lies in 1..31, took one or two characters, and stays inside the text |
| `Dates.DateToMs` | engine/data_loader.py:25-32 | defined exactly when `strptime` accepts the text, and then a whole number of days of milliseconds |
| `Dates.DaysBeforeYear` | engine/data_loader.py:31-32 | the days before a year number 365 or 366 for each earlier year |
| `Dates.Ordinal` | engine/data_loader.py:31-32 | `date.toordinal()` of a valid date falls inside its own year: after all earlier years' days and at most one year-length beyond them |
| `Dates.DaysBeforeYearCounts` | engine/data_loader.py:31-32 | the closed-form day count before a year equals adding up the lengths of all earlier years, leap years included |
| `Dates.OrdinalIncreasing` | engine/data_loader.py:31-32 | a later valid date has a strictly larger ordinal |
| `Dates.DateToMsIncreasing` | engine/data_loader.py:25-32 | later dates give strictly larger milliseconds; equal milliseconds mean the same day |
| `Dates.ParseFormat` | engine/data_loader.py:30 | every valid date parses back from its zero-padded `YYYY-MM-DD` spelling |
| `Dates.EpochExamples` | engine/data_loader.py:31-32 | `1970-01-01` is 0 ms and `1970-01-02` is 86 400 000 ms |
| `Dates.ShortFieldsAccepted` | engine/data_loader.py:30 | `2024-1-5` is accepted as 5 January 2024 |
| `Dates.NoSuchDayRejected` | engine/data_loader.py:30 | `2023-02-29` and year `0000` are rejected |
| `Dates.MalformedRejected` | engine/data_loader.py:30 | month 13, day 32, `/` separators and trailing text are rejected |
| `Frames.Concat` | engine/data_loader.py:97 | a bar is in the concatenation iff it is in one of the pages |
| `Frames.DedupFirst` | engine/data_loader.py:100 | dropping repeated timestamps only removes bars |
| `Frames.DedupFirstSound` | engine/data_loader.py:100 | only first occurrences of a timestamp survive, and the survivors carry distinct timestamps |
| `Frames.DedupFirstComplete` | engine/data_loader.py:100 | every first occurrence of a timestamp survives |
| `Frames.DedupFirstStamps` | engine/data_loader.py:100 | dropping repeats loses no timestamp |
| `Frames.SortByStampAscending` | engine/data_loader.py:101 | the sorted frame is in ascending timestamp order |
| `Frames.SortByStamp` | engine/data_loader.py:101 | `sort_index()` returns a permutation (the same multiset) of the bars |
| `Frames.SortByStampStrict` | engine/data_loader.py:101 | with distinct timestamps the sorted frame is strictly ascending |
| `Frames.Merge` | engine/data_loader.py:97-101 | the merged frame is strictly ascending, so no timestamp repeats |
| `Frames.MergeElements` | engine/data_loader.py:97-101 | the merged frame holds exactly the deduplicated bars |
| `Frames.MergeKeepsFirsts` | engine/data_loader.py:97-101 | a bar is merged iff it is the first bar of its timestamp in page order |
| `Frames.MergeKeepsLoneStamp` | engine/data_loader.py:97-101 | a gathered bar whose timestamp no other gathered bar carries is merged |
| `Frames.MergeFromPages` | engine/data_loader.py:97-101 | every merged bar comes from some page, and the merged timestamps are all the pages' timestamps |
| `Frames.MergeEmptyIff` | engine/data_loader.py:93-101 | with non-empty pages, the merge is empty iff there are no pages |
| `Frames.FilterWindow` | engine/data_loader.py:150-153 | the filtered frame holds exactly the bars inside the inclusive bounds, and no more bars than the input |
| `Frames.FilterWindowSplit` | engine/data_loader.py:150-153 | filtering by the start and then by the end is filtering by both |
| `Frames.FilterWindowKeepsInside` | engine/data_loader.py:150-153 | a frame already inside the bounds passes unchanged |
| `Frames.FilterWindowIdempotent` | engine/data_loader.py:150-153 | filtering twice with the same bounds is filtering once |
| `Frames.FilterWindowStrictlyAscending` | engine/data_loader.py:150-153 | filtering keeps a strictly ascending frame strictly ascending |
| `Paging.AfterPage` | engine/data_loader.py:81-91 | the loop continues iff the page is full and, with an end, the new cursor is not past it; the new cursor is the last bar's timestamp plus one |
| `Paging.Progress` | engine/data_loader.py:85-87 | a full page of in-window klines moves the cursor strictly forward and leaves strictly fewer klines to answer, so the loop ends |
| `Paging.CrawlFrom` | engine/data_loader.py:61-91 | the loop sends at least one request and gets one reply to each; on success each request gave at most one page and no kept page is empty |
| `Paging.CollectPages` | engine/data_loader.py:61-91 | the `while True` loop returns the outcome and the request list of `CrawlFrom` |
| `Paging.Turn` | engine/data_loader.py:67-91 | one pass of the loop body: it sends the next request and records it; when it ends the loop, the outcome and requests are `CrawlFrom`'s; otherwise the cursor moves so that strictly fewer klines remain, and the rest of the crawl is still `CrawlFrom`'s |
| `Paging.CrawlFaithful` | engine/data_loader.py:61-91 | every request asks for the same symbol, interval, end and limit 1000; the first starts at the initial cursor and starts strictly increase; each reply is the exchange's answer to its request; every reply but the last was a full page that advanced the cursor to the next request's start; the last reply decided the outcome (its error, an empty page, a short page or a cursor past the end); on success the pages are the non-empty replies in order and every bar is a kline of the exchange inside the dates |
| `Paging.CrawlComplete` | engine/data_loader.py:61-91 | from an exchange in time order and a start cursor, a successful loop gathers every kline between the cursor and the end in some page |
| `Paging.NothingToFetch` | engine/data_loader.py:75-76 | with no kline in the window and no error, exactly one request is sent and no page is kept |
| `DataLoader.CsvPath` | engine/data_loader.py:20-22 | the path is the cache directory, `/`, the upper-cased symbol, `_`, the interval and `.csv` |
| `DataLoader.CsvPathDistinct` | engine/data_loader.py:20-22 | for symbols without `_`, two calls share a file iff the symbols are equal up to case and the intervals are equal |
| `DataLoader.DateBound` | engine/data_loader.py:58-59 | an absent or empty date sets no bound; any other date is a `BadDate` error unless `strptime` accepts it, and then its UTC-midnight milliseconds |
| `DataLoader.Fetch` | engine/data_loader.py:35-110 | a request is sent iff both dates are valid; without one the result is a `BadDate` error; a successful result is strictly ascending |
| `DataLoader.Load` | engine/data_loader.py:113-165 | without a cache file the call is the fetch; every request sent is the fall-back fetch's; bars returned without a request are exactly the cache file's bars inside the dates (`FilterWindow`), at least one; and whenever the file has a bar inside the dates, those bars are returned without a request |
| `DataLoader.FetchMerged` | engine/data_loader.py:58-101 | date conversion, the loop and the merge return `Fetch`'s result and requests, and a successful result is strictly ascending |
| `DataLoader.FetchAndSave` | engine/data_loader.py:35-110 | returns `Fetch`'s result and requests; writes the merged frame to the symbol's cache file iff it is non-empty; keeps every cached frame sorted |
| `DataLoader.LoadData` | engine/data_loader.py:113-165 | returns `Load` of the cache as it was; the cache changes only when the fall-back fetched a non-empty frame, which then replaces the file; keeps every cached frame sorted, and with a sorted cache returns a strictly ascending frame |
| `DataLoader.MergedPages` | engine/data_loader.py:93-101 | the merged pages are strictly ascending and empty iff no page came back |
| `DataLoader.FetchSends` | engine/data_loader.py:66-73 | a successful fetch sent at least one request |
| `DataLoader.FetchMeaning` | engine/data_loader.py:58-110 | a successful fetch is strictly ascending, every bar is a kline of the exchange inside the dates, and every timestamp the pages carried is kept |
| `DataLoader.FetchComplete` | engine/data_loader.py:58-101 | from an exchange in time order, a successful fetch with a start date returns every kline between the two dates |
| `DataLoader.BadDateFails` | engine/data_loader.py:136-165 | a malformed non-empty start date fails with that date, before any request, with or without a cache file |
| `DataLoader.CacheHitIgnoresExchange` | engine/data_loader.py:138-162 | a cache file with bars inside the dates answers without a request and independently of the exchange |
| `DataLoader.FetchThenLoad` | engine/data_loader.py:103-110 | what a fetch writes is what the next load with the same dates returns, from the cache, without a request |
| `DataLoader.LoadSettles` | engine/data_loader.py:136-165 | once a load returned bars, loading again from the cache it left returns the same bars without a request |
| `DataLoader.FallbackReplacesFile` | engine/data_loader.py:155-160 | with a cache file that has nothing inside the dates, the load is the fetch, and every bar it returns (and writes) lies inside the dates |
| `DataLoader.LoadSorted` | engine/data_loader.py:136-165 | with sorted cache files, every successful load is strictly ascending |

## Left out

- The HTTP transport: the URL, the 10-second timeout, connection errors and JSON decoding. The endpoint is the `Exchange` value, and only status codes are modelled as failures.
- The string-to-float casts of the kline fields and IEEE-754 rounding. Prices are exact reals, and NaN is `None`.
- Fields 6 to 11 of a kline are dropped, as the source drops them. The pandas `DatetimeIndex` and its time zone are the integer timestamp.
- `ewm(span=period, min_periods=period).mean()` in `_rsi` is not modelled. `MtfRsiTrend.RsiSeries` takes the two smoothed averages as inputs.
- `resample_apply` (resampling to daily and weekly bars and forward-filling back) belongs to the backtesting library and is not modelled. `MtfRsiTrend.Next` takes the forward-filled values as a `Snapshot`.
- `backtesting.lib.crossover` is not part of this model. `SmaCross.Next` takes its two results as booleans. `SmaCross.Crossover` restates the library's test (strictly below on the previous bar, strictly above on the last) as an assumed definition.
- The `init()` methods, which only wire the indicators through `self.I`, and the engine's skipping of NaN warm-up bars.
- `_sma` with a period below 1 is not modelled: the functions require `period >= 1`.
- `print` calls, `DATA_DIR.mkdir` and the CSV serialization. The cache file is a map entry holding exactly the frame written, so a write followed by a read is lossless.
- `pd.Timestamp(start_date)` in `load_data` accepts more spellings than `strptime`. The model uses the `strptime` parser for both, so such spellings are rejected as `BadDate` on the cache path too.
- `Dates.ParseDate`, `Dates.DayAt`: Python's `\d` in the year and day patterns also matches non-ASCII digits; only ASCII digits are modelled.
- `BinanceClient.Upper`: `str.upper` on non-ASCII letters is not modelled; only `a` to `z` are raised.
- Concurrent writers to the same cache file are not modelled.
- `DataLoader.FetchMeaning`: states that every returned bar is a kline of the exchange inside the dates and that every gathered timestamp is kept, not that every kline inside the dates comes back. That holds only with a start date and an exchange in time order, and is `DataLoader.FetchComplete`. Without a start date the exchange returns only the most recent 1000 klines up to the end, so older klines inside the dates are never fetched.
