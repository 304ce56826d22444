/** The kline client: the query-parameter map of `get_klines`, the status
    check, and the projection of raw 12-field kline records onto OHLCV bars.
    The HTTP call itself is replaced by `Exchange`, a fixed list of klines the
    endpoint answers from, with a status per request. */
module BinanceClient {
  import opened Wrappers

  /** One OHLCV bar, keyed by its open time in UTC epoch milliseconds. */
  datatype Bar = Bar(ts: int, open: real, high: real, low: real, close: real, volume: real)

  /** One kline record as the endpoint sends it, fields [0] to [11]. The text
      fields are taken as already converted to numbers. */
  datatype RawKline = RawKline(
    openTime: int, open: real, high: real, low: real, close: real, volume: real,
    closeTime: int, quoteVolume: real, numTrades: int,
    takerBuyBase: real, takerBuyQuote: real, unused: real)

  // ---------------------------------------------------------------------
  // Query parameters
  // ---------------------------------------------------------------------

  /** `str.upper` on one character, for the ASCII letters. */
  function UpperChar(c: char): (u: char)
    ensures 'a' <= c <= 'z' ==> u as int == c as int - 32
    ensures !('a' <= c <= 'z') ==> u == c
    ensures !('a' <= u <= 'z')
  {
    if 'a' <= c <= 'z' then (c as int - 32) as char else c
  }

  /** `str.upper`: the same string with every lower-case letter raised. */
  function Upper(s: string): (u: string)
    ensures |u| == |s|
    ensures forall i :: 0 <= i < |s| ==> u[i] == UpperChar(s[i])
  {
    if s == [] then [] else [UpperChar(s[0])] + Upper(s[1..])
  }

  /** Upper-casing twice changes nothing more, and leaves no lower-case letter. */
  lemma UpperIdempotent(s: string)
    ensures Upper(Upper(s)) == Upper(s)
    ensures forall i :: 0 <= i < |s| ==> !('a' <= Upper(s)[i] <= 'z')
  {
  }

  /** A value in the query string: text or an integer. */
  datatype ParamValue = Text(text: string) | Number(n: int)

  type Params = map<string, ParamValue>

  /** The integer stored under `key`, if there is one. */
  function Lookup(params: Params, key: string): Option<int>
  {
    if key in params && params[key].Number? then Some(params[key].n) else None
  }

  /** The dict `get_klines` sends: `symbol` (upper-cased), `interval` and
      `limit` always; `startTime` and `endTime` only when given, unchanged. */
  function QueryParams(symbol: string, interval: string, startTime: Option<int>,
                       endTime: Option<int>, limit: int): (params: Params)
    ensures params.Keys == {"symbol", "interval", "limit"}
                           + (if startTime.Some? then {"startTime"} else {})
                           + (if endTime.Some? then {"endTime"} else {})
    ensures params["symbol"] == Text(Upper(symbol))
    ensures params["interval"] == Text(interval)
    ensures Lookup(params, "limit") == Some(limit)
    ensures Lookup(params, "startTime") == startTime
    ensures Lookup(params, "endTime") == endTime
  {
    var base := map["symbol" := Text(Upper(symbol)), "interval" := Text(interval), "limit" := Number(limit)];
    var withStart := if startTime.Some? then base["startTime" := Number(startTime.value)] else base;
    if endTime.Some? then withStart["endTime" := Number(endTime.value)] else withStart
  }

  /** The dict as the source builds it: a literal, then one insert per
      optional bound. */
  method BuildParams(symbol: string, interval: string, startTime: Option<int>,
                     endTime: Option<int>, limit: int) returns (params: Params)
    ensures params == QueryParams(symbol, interval, startTime, endTime, limit)
  {
    params := map["symbol" := Text(Upper(symbol)), "interval" := Text(interval), "limit" := Number(limit)];
    if startTime.Some? {
      params := params["startTime" := Number(startTime.value)];
    }
    if endTime.Some? {
      params := params["endTime" := Number(endTime.value)];
    }
  }

  // ---------------------------------------------------------------------
  // The endpoint
  // ---------------------------------------------------------------------

  /** Whether an open time lies in the inclusive window; an absent bound does
      not restrict. */
  predicate InWindow(ts: int, start: Option<int>, end: Option<int>)
  {
    (start.None? || start.value <= ts) && (end.None? || ts <= end.value)
  }

  /** The klines of `market` inside the window, in their order. */
  function Window(market: seq<RawKline>, start: Option<int>, end: Option<int>): (w: seq<RawKline>)
    ensures |w| <= |market|
    ensures forall x :: x in w <==> x in market && InWindow(x.openTime, start, end)
  {
    if market == [] then []
    else
      var rest := Window(market[1..], start, end);
      assert forall x :: x in market <==> x == market[0] || x in market[1..];
      if InWindow(market[0].openTime, start, end) then [market[0]] + rest else rest
  }

  /** The exchange the client talks to: the full list of klines of one symbol
      and interval it can serve, and the HTTP status of each successive
      request (200 once the list runs out). */
  datatype Exchange = Exchange(market: seq<RawKline>, statuses: seq<int>)

  function StatusOf(ex: Exchange, k: nat): int
  {
    if k < |ex.statuses| then ex.statuses[k] else 200
  }

  /** `raise_for_status` raises for every client (4xx) and server (5xx) error. */
  predicate IsHttpError(status: int)
  {
    400 <= status < 600
  }

  /** The page the endpoint answers: the klines inside the window, at most
      `limit` of them; the first ones in market order when a start is given,
      the last ones otherwise. A page shorter than a non-negative limit is the
      whole window. */
  function Serve(market: seq<RawKline>, params: Params): (page: seq<RawKline>)
    ensures var limit := Lookup(params, "limit");
            limit.Some? && limit.value >= 0 ==> |page| <= limit.value
    ensures forall x :: x in page ==>
              x in market && InWindow(x.openTime, Lookup(params, "startTime"), Lookup(params, "endTime"))
  {
    var start := Lookup(params, "startTime");
    var w := Window(market, start, Lookup(params, "endTime"));
    var limit := Lookup(params, "limit");
    var n := if limit.Some? && 0 <= limit.value < |w| then limit.value else |w|;
    if start.Some? then w[..n] else w[|w| - n..]
  }

  /** Which klines of the window a page holds: all of them, or exactly
      `limit` of them; a leading run of the window when a start is given and
      a trailing run otherwise. So a page shorter than a non-negative limit
      is the whole window. */
  lemma ServeShape(market: seq<RawKline>, params: Params)
    ensures var page, limit := Serve(market, params), Lookup(params, "limit");
            page == Window(market, Lookup(params, "startTime"), Lookup(params, "endTime")) ||
            (limit.Some? && 0 <= limit.value && |page| == limit.value)
    ensures var page := Serve(market, params);
            var w := Window(market, Lookup(params, "startTime"), Lookup(params, "endTime"));
            |page| <= |w| &&
            if Lookup(params, "startTime").Some? then page == w[..|page|] else page == w[|w| - |page|..]
  {
    var w := Window(market, Lookup(params, "startTime"), Lookup(params, "endTime"));
    var limit := Lookup(params, "limit");
    var n := if limit.Some? && 0 <= limit.value < |w| then limit.value else |w|;
    Runs(w, n);
  }

  /** The leading and the trailing run of `n` elements; all of them when
      `n` is the length. */
  lemma Runs(w: seq<RawKline>, n: int)
    requires 0 <= n <= |w|
    ensures |w[..n]| == n && |w[|w| - n..]| == n
    ensures n == |w| ==> w[..n] == w && w[|w| - n..] == w
  {
  }

  // ---------------------------------------------------------------------
  // Response shaping
  // ---------------------------------------------------------------------

  /** Columns [0] to [5] of one record: the open time becomes the bar's
      timestamp, fields [6] to [11] are dropped. */
  function ToBar(k: RawKline): Bar
  {
    Bar(k.openTime, k.open, k.high, k.low, k.close, k.volume)
  }

  /** The frame built from a response: one bar per record, in the same order;
      an empty response gives an empty frame. */
  function Project(raw: seq<RawKline>): (bars: seq<Bar>)
    ensures |bars| == |raw|
    ensures forall i :: 0 <= i < |raw| ==> bars[i] == ToBar(raw[i])
  {
    if raw == [] then [] else [ToBar(raw[0])] + Project(raw[1..])
  }

  /** Projection keeps each bar's timestamp and its five values, and commutes
      with concatenation. */
  lemma {:induction false} ProjectAppend(a: seq<RawKline>, b: seq<RawKline>)
    ensures Project(a + b) == Project(a) + Project(b)
  {
    if a != [] {
      assert (a + b)[1..] == a[1..] + b;
      ProjectAppend(a[1..], b);
    } else {
      assert a + b == b;
    }
  }

  /** Why a request failed. */
  datatype FetchError = HttpError(status: int) | BadDate(text: string)

  /** The bars of a successful answer to `params`. */
  function Answer(ex: Exchange, params: Params): seq<Bar>
  {
    Project(Serve(ex.market, params))
  }

  /** What request number `k` with `params` yields: an error for an error
      status, never data; the shaped page otherwise. */
  function KlinesResult(ex: Exchange, k: nat, params: Params): (r: Result<seq<Bar>, FetchError>)
    ensures r.Err? <==> IsHttpError(StatusOf(ex, k))
    ensures r.Err? ==> r.error == HttpError(StatusOf(ex, k))
    ensures r.Ok? ==> r.value == Answer(ex, params)
  {
    if IsHttpError(StatusOf(ex, k)) then Err(HttpError(StatusOf(ex, k))) else Ok(Answer(ex, params))
  }

  /** `get_klines`: build the query, send it as request number `k`, fail on an
      error status (`raise_for_status`), return an empty frame for an empty
      answer and the shaped page otherwise. `params` is what was sent. */
  method GetKlines(ex: Exchange, k: nat, symbol: string, interval: string,
                   startTime: Option<int>, endTime: Option<int>, limit: int)
    returns (params: Params, r: Result<seq<Bar>, FetchError>)
    ensures params == QueryParams(symbol, interval, startTime, endTime, limit)
    ensures r == KlinesResult(ex, k, params)
  {
    params := BuildParams(symbol, interval, startTime, endTime, limit);
    var status := StatusOf(ex, k);
    if IsHttpError(status) {
      return params, Err(HttpError(status));
    }
    var raw := Serve(ex.market, params);
    if raw == [] {
      return params, Ok([]);
    }
    r := Ok(Project(raw));
  }

  /** Every bar of an answer is a kline of the exchange, inside the requested
      window. */
  lemma AnswerWithinRequest(ex: Exchange, params: Params, b: Bar)
    requires b in Answer(ex, params)
    ensures exists x :: x in ex.market && ToBar(x) == b
    ensures InWindow(b.ts, Lookup(params, "startTime"), Lookup(params, "endTime"))
  {
    var page := Serve(ex.market, params);
    var i :| 0 <= i < |page| && Project(page)[i] == b;
    assert page[i] in page;
  }

  // ---------------------------------------------------------------------
  // An exchange that lists its klines in time order
  // ---------------------------------------------------------------------

  /** Open times strictly increase along the list, so no two klines share
      one. */
  predicate Chronological(market: seq<RawKline>)
  {
    forall i, j :: 0 <= i < j < |market| ==> market[i].openTime < market[j].openTime
  }

  /** In a chronological list a kline is known by its open time. */
  lemma SameOpenTime(market: seq<RawKline>, x: RawKline, y: RawKline)
    requires Chronological(market) && x in market && y in market
    requires x.openTime == y.openTime
    ensures x == y
  {
    var i :| 0 <= i < |market| && market[i] == x;
    var j :| 0 <= j < |market| && market[j] == y;
    if i < j {
      assert market[i].openTime < market[j].openTime;
    } else if j < i {
      assert market[j].openTime < market[i].openTime;
    }
  }

  /** The tail of a chronological list is chronological, and every kline
      in it opens after the head. */
  lemma ChronologicalTail(market: seq<RawKline>)
    requires Chronological(market) && market != []
    ensures Chronological(market[1..])
    ensures forall x :: x in market[1..] ==> market[0].openTime < x.openTime
  {
    forall x | x in market[1..]
      ensures market[0].openTime < x.openTime
    {
      var k :| 0 <= k < |market[1..]| && market[1..][k] == x;
      assert market[k + 1] == x;
    }
  }

  /** The window of a chronological list is chronological. */
  lemma {:induction false} WindowChronological(market: seq<RawKline>, start: Option<int>, end: Option<int>)
    requires Chronological(market)
    ensures Chronological(Window(market, start, end))
  {
    if market != [] {
      var rest := Window(market[1..], start, end);
      ChronologicalTail(market);
      WindowChronological(market[1..], start, end);
      if InWindow(market[0].openTime, start, end) {
        ConsChronological(market[0], rest);
      }
    }
  }

  /** A kline opening before every kline of a chronological list can lead it. */
  lemma ConsChronological(x: RawKline, rest: seq<RawKline>)
    requires Chronological(rest) && forall y :: y in rest ==> x.openTime < y.openTime
    ensures Chronological([x] + rest)
  {
    var w := [x] + rest;
    forall i, j | 0 <= i < j < |w|
      ensures w[i].openTime < w[j].openTime
    {
      if i == 0 {
        assert w[j] in rest;
      } else {
        assert w[i] == rest[i - 1] && w[j] == rest[j - 1];
      }
    }
  }

  /** From a chronological list, an answer to a request with a start holds
      every kline of the window up to its last bar, all of them when it is
      shorter than the limit, and at least one when the window has a kline
      and the limit is positive. */
  lemma AnswerCovers(ex: Exchange, params: Params, x: RawKline)
    requires Chronological(ex.market) && Lookup(params, "startTime").Some?
    requires x in ex.market && InWindow(x.openTime, Lookup(params, "startTime"), Lookup(params, "endTime"))
    ensures var limit := Lookup(params, "limit");
            limit.Some? && limit.value > 0 ==> Answer(ex, params) != []
    ensures var a, limit := Answer(ex, params), Lookup(params, "limit");
            (limit.None? || limit.value < 0 || |a| < limit.value) ==> ToBar(x) in a
    ensures var a := Answer(ex, params);
            a != [] && x.openTime <= a[|a| - 1].ts ==> ToBar(x) in a
  {
    var w := Window(ex.market, Lookup(params, "startTime"), Lookup(params, "endTime"));
    var page := Serve(ex.market, params);
    WindowChronological(ex.market, Lookup(params, "startTime"), Lookup(params, "endTime"));
    ServeShape(ex.market, params);
    PageCovers(w, page, Lookup(params, "limit"), x);
    if x in page {
      var j :| 0 <= j < |page| && page[j] == x;
      assert Project(page)[j] == ToBar(x);
    }
  }

  /** A leading run of a chronological window that is either the whole
      window or exactly `limit` long: it is non-empty when the limit is
      positive, and it holds a kline of the window when it is shorter than
      the limit or when the kline opens no later than the run's last one. */
  lemma PageCovers(w: seq<RawKline>, page: seq<RawKline>, limit: Option<int>, x: RawKline)
    requires Chronological(w) && x in w
    requires |page| <= |w| && page == w[..|page|]
    requires page == w || (limit.Some? && 0 <= limit.value && |page| == limit.value)
    ensures limit.Some? && limit.value > 0 ==> page != []
    ensures (limit.None? || limit.value < 0 || |page| < limit.value) ==> x in page
    ensures page != [] && x.openTime <= page[|page| - 1].openTime ==> x in page
  {
    var i :| 0 <= i < |w| && w[i] == x;
    if i < |page| {
      assert page[i] == x;
    }
  }
}
