/** `data_loader.py`: where a symbol's bars are cached, `fetch_and_save`
    (date bounds, pagination, merge, write) and `load_data` (read the cache,
    cut it to the requested dates, fall back to the exchange). The cache
    directory is a `Cache` object whose map the two methods update. */
module DataLoader {
  import opened Wrappers
  import opened BinanceClient
  import opened Dates
  import opened Frames
  import opened Paging

  /** The cache directory. */
  const DataDir: string := "data"

  /** `<DATA_DIR>/<SYMBOL>_<interval>.csv`: the directory, the upper-cased
      symbol, an underscore, the interval as given and the extension. This
      is the reference definition of a cache file's name; what it means for
      the cache (which requests share a file) is `CsvPathDistinct`. */
  function CsvPath(symbol: string, interval: string): (path: string)
    ensures |path| == |DataDir| + 1 + |symbol| + 1 + |interval| + 4
    ensures path[..5] == DataDir + "/"
    ensures path[5..5 + |symbol|] == Upper(symbol)
    ensures path[5 + |symbol|] == '_'
    ensures path[6 + |symbol|..|path| - 4] == interval
    ensures path[|path| - 4..] == ".csv"
  {
    DataDir + "/" + Upper(symbol) + "_" + interval + ".csv"
  }

  /** Symbols without an underscore share a cache file exactly when they are
      equal up to case and the intervals are equal. */
  lemma CsvPathDistinct(s1: string, i1: string, s2: string, i2: string)
    requires '_' !in s1 && '_' !in s2
    ensures CsvPath(s1, i1) == CsvPath(s2, i2) <==> Upper(s1) == Upper(s2) && i1 == i2
  {
    var p1, p2 := CsvPath(s1, i1), CsvPath(s2, i2);
    if p1 == p2 {
      if |s1| < |s2| {
        assert false;
      } else if |s2| < |s1| {
        assert false;
      }
    }
  }

  /** `_date_to_ms(d) if d else None`: an absent or empty date sets no bound;
      any other must be a valid `YYYY-MM-DD` date, whose UTC midnight becomes
      the bound. */
  function DateBound(date: Option<string>): (r: Result<Option<int>, FetchError>)
    ensures (date.None? || date.value == "") ==> r == Ok(None)
    ensures date.Some? && date.value != "" ==>
              (r.Ok? <==> ParseDate(date.value).Some?) &&
              (r.Ok? ==> r.value.Some? && r.value == DateToMs(date.value)) &&
              (r.Err? ==> r.error == BadDate(date.value))
  {
    if date.None? || date.value == "" then Ok(None)
    else
      match DateToMs(date.value)
      case None => Err(BadDate(date.value))
      case Some(ms) => Ok(Some(ms))
  }

  /** The result of a call and every request it sent. */
  datatype Fetched = Fetched(result: Result<seq<Bar>, FetchError>, requests: seq<Params>)

  /** What `fetch_and_save` returns: a date error before any request, the
      first HTTP error, or the pages merged (empty when there were none),
      sorted by strictly increasing timestamps. */
  function Fetch(ex: Exchange, symbol: string, interval: string,
                 startDate: Option<string>, endDate: Option<string>): (r: Fetched)
    ensures r.requests == [] <==> DateBound(startDate).Err? || DateBound(endDate).Err?
    ensures r.requests == [] ==> r.result.Err? && r.result.error.BadDate?
    ensures r.result.Ok? ==> StrictlyAscending(r.result.value)
  {
    match DateBound(startDate)
    case Err(e) => Fetched(Err(e), [])
    case Ok(startMs) =>
      match DateBound(endDate)
      case Err(e) => Fetched(Err(e), [])
      case Ok(endMs) =>
        var c := CrawlFrom(ex, symbol, interval, 0, startMs, endMs);
        match c.outcome
        case Err(e) => Fetched(Err(e), c.requests)
        case Ok(pages) => Fetched(Ok(Merge(pages)), c.requests)
  }

  /** What `load_data` returns given the cache's files: with a cache file, a
      date error or the cached bars inside the dates when there are any;
      otherwise what `fetch_and_save` returns. Every request it sends is the
      fallback fetch's. Bars returned without a request are exactly the
      cache file's bars inside the dates, in the file's order, and there is
      at least one; whenever the file has a bar inside the dates, that is
      what comes back. Without a cache file the call is the fetch. */
  function Load(files: map<string, seq<Bar>>, ex: Exchange, symbol: string, interval: string,
                startDate: Option<string>, endDate: Option<string>): (r: Fetched)
    ensures r.requests == [] || r == Fetch(ex, symbol, interval, startDate, endDate)
    ensures CsvPath(symbol, interval) !in files ==> r == Fetch(ex, symbol, interval, startDate, endDate)
    ensures r.result.Ok? && r.requests == [] ==>
              CsvPath(symbol, interval) in files && r.result.value != [] &&
              DateBound(startDate).Ok? && DateBound(endDate).Ok? &&
              r.result.value == FilterWindow(files[CsvPath(symbol, interval)],
                                             DateBound(startDate).value, DateBound(endDate).value) &&
              forall b :: b in r.result.value ==>
                b in files[CsvPath(symbol, interval)] &&
                InWindow(b.ts, DateBound(startDate).value, DateBound(endDate).value)
    ensures CsvPath(symbol, interval) in files && DateBound(startDate).Ok? && DateBound(endDate).Ok? &&
            FilterWindow(files[CsvPath(symbol, interval)], DateBound(startDate).value, DateBound(endDate).value) != [] ==>
              r == Fetched(Ok(FilterWindow(files[CsvPath(symbol, interval)],
                                           DateBound(startDate).value, DateBound(endDate).value)), [])
  {
    var path := CsvPath(symbol, interval);
    if path !in files then Fetch(ex, symbol, interval, startDate, endDate)
    else
      match DateBound(startDate)
      case Err(e) => Fetched(Err(e), [])
      case Ok(startMs) =>
        match DateBound(endDate)
        case Err(e) => Fetched(Err(e), [])
        case Ok(endMs) =>
          var view := FilterWindow(files[path], startMs, endMs);
          if view != [] then Fetched(Ok(view), [])
          else Fetch(ex, symbol, interval, startDate, endDate)
  }

  /** The cache directory: each file's path and the frame last written to it. */
  class Cache {
    var files: map<string, seq<Bar>>

    constructor (files: map<string, seq<Bar>>)
      ensures this.files == files
    {
      this.files := files;
    }

    /** Every cached frame is sorted by strictly increasing timestamps. */
    predicate Valid()
      reads this
    {
      forall p :: p in files ==> StrictlyAscending(files[p])
    }
  }

  /** Lines 58-101 of `fetch_and_save`: convert the dates, page through the
      exchange and merge the pages; the result is sorted with distinct
      timestamps. */
  method FetchMerged(ex: Exchange, symbol: string, interval: string,
                     startDate: Option<string>, endDate: Option<string>)
    returns (r: Result<seq<Bar>, FetchError>, requests: seq<Params>)
    ensures Fetched(r, requests) == Fetch(ex, symbol, interval, startDate, endDate)
    ensures r.Ok? ==> StrictlyAscending(r.value)
  {
    requests := [];
    var startMs := DateBound(startDate);
    if startMs.Err? {
      return Err(startMs.error), [];
    }
    var endMs := DateBound(endDate);
    if endMs.Err? {
      return Err(endMs.error), [];
    }
    var collected;
    collected, requests := CollectPages(ex, symbol, interval, startMs.value, endMs.value);
    if collected.Err? {
      return Err(collected.error), requests;
    }
    var pages := collected.value;
    MergedPages(ex, symbol, interval, startMs.value, endMs.value);
    if pages == [] {
      return Ok([]), requests;
    }
    r := Ok(Merge(pages));
  }

  /** `fetch_and_save`: fetch and merge, and write the merged frame to the
      cache file when at least one page came back. */
  method FetchAndSave(cache: Cache, ex: Exchange, symbol: string, interval: string,
                      startDate: Option<string>, endDate: Option<string>)
    returns (r: Result<seq<Bar>, FetchError>, requests: seq<Params>)
    modifies cache
    ensures Fetched(r, requests) == Fetch(ex, symbol, interval, startDate, endDate)
    ensures cache.files == if r.Ok? && r.value != [] then old(cache.files)[CsvPath(symbol, interval) := r.value]
                           else old(cache.files)
    ensures old(cache.Valid()) ==> cache.Valid()
  {
    r, requests := FetchMerged(ex, symbol, interval, startDate, endDate);
    if r.Ok? && r.value != [] {
      cache.files := cache.files[CsvPath(symbol, interval) := r.value];
    }
  }

  /** `load_data`: read the cache file if there is one and cut it to the
      dates; fall back to `fetch_and_save` when there is no file or nothing
      inside the dates. */
  method LoadData(cache: Cache, ex: Exchange, symbol: string, interval: string,
                  startDate: Option<string>, endDate: Option<string>)
    returns (r: Result<seq<Bar>, FetchError>, requests: seq<Params>)
    modifies cache
    ensures Fetched(r, requests) == Load(old(cache.files), ex, symbol, interval, startDate, endDate)
    ensures cache.files == if requests != [] && r.Ok? && r.value != []
                           then old(cache.files)[CsvPath(symbol, interval) := r.value]
                           else old(cache.files)
    ensures old(cache.Valid()) ==> cache.Valid()
    ensures old(cache.Valid()) && r.Ok? ==> StrictlyAscending(r.value)
  {
    var path := CsvPath(symbol, interval);
    if path in cache.files {
      var frame := cache.files[path];
      var startMs := DateBound(startDate);
      if startMs.Err? {
        return Err(startMs.error), [];
      }
      frame := FilterWindow(frame, startMs.value, None);
      var endMs := DateBound(endDate);
      if endMs.Err? {
        return Err(endMs.error), [];
      }
      frame := FilterWindow(frame, None, endMs.value);
      FilterWindowSplit(cache.files[path], startMs.value, endMs.value);
      if cache.Valid() {
        FilterWindowStrictlyAscending(cache.files[path], startMs.value, endMs.value);
      }
      if frame != [] {
        return Ok(frame), [];
      }
    }
    r, requests := FetchAndSave(cache, ex, symbol, interval, startDate, endDate);
    if r.Ok? && r.value != [] {
      FetchSends(ex, symbol, interval, startDate, endDate);
    }
  }

  // ---------------------------------------------------------------------
  // Properties
  // ---------------------------------------------------------------------

  /** The merged frame is sorted, and empty exactly when no page came back. */
  lemma MergedPages(ex: Exchange, symbol: string, interval: string, startMs: Option<int>, endMs: Option<int>)
    requires CrawlFrom(ex, symbol, interval, 0, startMs, endMs).outcome.Ok?
    ensures var pages := CrawlFrom(ex, symbol, interval, 0, startMs, endMs).outcome.value;
            (Merge(pages) == [] <==> pages == []) && StrictlyAscending(Merge(pages))
  {
    var pages := CrawlFrom(ex, symbol, interval, 0, startMs, endMs).outcome.value;
    CrawlFaithful(ex, symbol, interval, 0, startMs, endMs);
    MergeEmptyIff(pages);
  }

  /** A non-empty fetch sent at least one request. */
  lemma FetchSends(ex: Exchange, symbol: string, interval: string,
                   startDate: Option<string>, endDate: Option<string>)
    requires Fetch(ex, symbol, interval, startDate, endDate).result.Ok?
    ensures Fetch(ex, symbol, interval, startDate, endDate).requests != []
  {
    var startMs, endMs := DateBound(startDate).value, DateBound(endDate).value;
    CrawlFaithful(ex, symbol, interval, 0, startMs, endMs);
  }

  /** A successful fetch is sorted by strictly increasing timestamps, and
      each bar is a kline of the exchange inside the requested dates, taken
      from one of the pages; every timestamp the pages carried is kept. */
  lemma FetchMeaning(ex: Exchange, symbol: string, interval: string,
                     startDate: Option<string>, endDate: Option<string>)
    requires Fetch(ex, symbol, interval, startDate, endDate).result.Ok?
    ensures var bars := Fetch(ex, symbol, interval, startDate, endDate).result.value;
            var startMs, endMs := DateBound(startDate).value, DateBound(endDate).value;
            var c := CrawlFrom(ex, symbol, interval, 0, startMs, endMs);
            StrictlyAscending(bars) &&
            (forall b :: b in bars ==> FromMarket(ex, b) && InWindow(b.ts, startMs, endMs)) &&
            Stamps(bars) == Stamps(Concat(c.outcome.value))
  {
    var startMs, endMs := DateBound(startDate).value, DateBound(endDate).value;
    var c := CrawlFrom(ex, symbol, interval, 0, startMs, endMs);
    var pages := c.outcome.value;
    CrawlFaithful(ex, symbol, interval, 0, startMs, endMs);
    MergeFromPages(pages);
  }

  /** A malformed non-empty date fails with that date before any request,
      whether or not the cache holds a file. */
  lemma BadDateFails(files: map<string, seq<Bar>>, ex: Exchange, symbol: string, interval: string,
                     startDate: Option<string>, endDate: Option<string>)
    requires startDate.Some? && startDate.value != "" && ParseDate(startDate.value).None?
    ensures Load(files, ex, symbol, interval, startDate, endDate) == Fetched(Err(BadDate(startDate.value)), [])
  {
  }

  /** A cache hit sends nothing and does not depend on the exchange: bars the
      exchange has inside the dates but the file lacks are not returned. */
  lemma CacheHitIgnoresExchange(files: map<string, seq<Bar>>, ex1: Exchange, ex2: Exchange,
                                symbol: string, interval: string,
                                startDate: Option<string>, endDate: Option<string>)
    requires CsvPath(symbol, interval) in files
    requires DateBound(startDate).Ok? && DateBound(endDate).Ok?
    requires FilterWindow(files[CsvPath(symbol, interval)], DateBound(startDate).value, DateBound(endDate).value) != []
    ensures Load(files, ex1, symbol, interval, startDate, endDate)
            == Load(files, ex2, symbol, interval, startDate, endDate)
    ensures Load(files, ex1, symbol, interval, startDate, endDate).requests == []
  {
  }

  /** What a fetch writes is what the next load with the same dates returns,
      from the cache and without a request, whatever the exchange then
      holds. */
  lemma FetchThenLoad(files: map<string, seq<Bar>>, ex: Exchange, later: Exchange,
                      symbol: string, interval: string,
                      startDate: Option<string>, endDate: Option<string>)
    requires Fetch(ex, symbol, interval, startDate, endDate).result.Ok?
    requires Fetch(ex, symbol, interval, startDate, endDate).result.value != []
    ensures var bars := Fetch(ex, symbol, interval, startDate, endDate).result.value;
            Load(files[CsvPath(symbol, interval) := bars], later, symbol, interval, startDate, endDate)
            == Fetched(Ok(bars), [])
  {
    var bars := Fetch(ex, symbol, interval, startDate, endDate).result.value;
    var startMs, endMs := DateBound(startDate).value, DateBound(endDate).value;
    FetchMeaning(ex, symbol, interval, startDate, endDate);
    FilterWindowKeepsInside(bars, startMs, endMs);
  }

  /** Loading settles: once a load has returned bars, loading again with the
      same dates from the cache it left returns the same bars without a
      request. */
  lemma LoadSettles(files: map<string, seq<Bar>>, ex: Exchange, later: Exchange,
                    symbol: string, interval: string,
                    startDate: Option<string>, endDate: Option<string>)
    requires var first := Load(files, ex, symbol, interval, startDate, endDate);
             first.result.Ok? && first.result.value != []
    ensures var first := Load(files, ex, symbol, interval, startDate, endDate);
            var after := if first.requests != [] then files[CsvPath(symbol, interval) := first.result.value]
                         else files;
            Load(after, later, symbol, interval, startDate, endDate) == Fetched(first.result, [])
  {
    var path := CsvPath(symbol, interval);
    var startMs, endMs := DateBound(startDate), DateBound(endDate);
    if path in files && startMs.Ok? && endMs.Ok? && FilterWindow(files[path], startMs.value, endMs.value) != [] {
      return;
    }
    assert Load(files, ex, symbol, interval, startDate, endDate) == Fetch(ex, symbol, interval, startDate, endDate);
    FetchSends(ex, symbol, interval, startDate, endDate);
    FetchThenLoad(files, ex, later, symbol, interval, startDate, endDate);
  }

  /** The fallback overwrites the cache file: after a cache miss inside the
      dates, the file holds only the newly fetched bars, and cached bars
      outside the dates are gone. */
  lemma FallbackReplacesFile(files: map<string, seq<Bar>>, ex: Exchange,
                             symbol: string, interval: string,
                             startDate: Option<string>, endDate: Option<string>)
    requires CsvPath(symbol, interval) in files
    requires DateBound(startDate).Ok? && DateBound(endDate).Ok?
    requires FilterWindow(files[CsvPath(symbol, interval)], DateBound(startDate).value, DateBound(endDate).value) == []
    ensures Load(files, ex, symbol, interval, startDate, endDate) == Fetch(ex, symbol, interval, startDate, endDate)
    ensures var first := Load(files, ex, symbol, interval, startDate, endDate);
            first.result.Ok? && first.result.value != [] ==>
              forall b :: b in first.result.value ==>
                InWindow(b.ts, DateBound(startDate).value, DateBound(endDate).value)
  {
    var first := Load(files, ex, symbol, interval, startDate, endDate);
    if first.result.Ok? && first.result.value != [] {
      FetchMeaning(ex, symbol, interval, startDate, endDate);
    }
  }

  /** With sorted cache files, every successful load is sorted by strictly
      increasing timestamps. */
  lemma LoadSorted(files: map<string, seq<Bar>>, ex: Exchange, symbol: string, interval: string,
                   startDate: Option<string>, endDate: Option<string>)
    requires forall p :: p in files ==> StrictlyAscending(files[p])
    requires Load(files, ex, symbol, interval, startDate, endDate).result.Ok?
    ensures StrictlyAscending(Load(files, ex, symbol, interval, startDate, endDate).result.value)
  {
    var path := CsvPath(symbol, interval);
    if path in files {
      var startMs, endMs := DateBound(startDate).value, DateBound(endDate).value;
      if FilterWindow(files[path], startMs, endMs) != [] {
        FilterWindowStrictlyAscending(files[path], startMs, endMs);
        return;
      }
    }
    FetchMeaning(ex, symbol, interval, startDate, endDate);
  }

  /** From an exchange that lists its klines in time order, a successful
      fetch with a start date returns every kline between the two dates: the
      loop gathers each one, and since no other kline shares its open time,
      the merge keeps it. */
  lemma FetchComplete(ex: Exchange, symbol: string, interval: string,
                      startDate: Option<string>, endDate: Option<string>)
    requires Chronological(ex.market)
    requires startDate.Some? && startDate.value != ""
    requires Fetch(ex, symbol, interval, startDate, endDate).result.Ok?
    ensures var bars := Fetch(ex, symbol, interval, startDate, endDate).result.value;
            var startMs, endMs := DateBound(startDate).value, DateBound(endDate).value;
            forall x :: x in ex.market && InWindow(x.openTime, startMs, endMs) ==> ToBar(x) in bars
  {
    var startMs, endMs := DateBound(startDate).value, DateBound(endDate).value;
    var c := CrawlFrom(ex, symbol, interval, 0, startMs, endMs);
    var pages := c.outcome.value;
    CrawlFaithful(ex, symbol, interval, 0, startMs, endMs);
    forall x | x in ex.market && InWindow(x.openTime, startMs, endMs)
      ensures ToBar(x) in Merge(pages)
    {
      CrawlComplete(ex, symbol, interval, 0, startMs.value, endMs, x);
      var p :| p in pages && ToBar(x) in p;
      forall i, b: Bar | 0 <= i < |pages| && b in pages[i] && b.ts == ToBar(x).ts
        ensures b == ToBar(x)
      {
        assert pages[i] in pages;
        var y :| y in ex.market && ToBar(y) == b;
        SameOpenTime(ex.market, x, y);
      }
      MergeKeepsLoneStamp(pages, ToBar(x));
    }
  }
}
