/** The pagination loop of `fetch_and_save`: request pages of at most 1000
    bars from a cursor, stop on an empty page, a short page, or a cursor past
    the end, and otherwise move the cursor one millisecond past the last bar
    received. `CrawlFrom` states the loop as a recursive function;
    `CollectPages` is the loop itself, proved to compute it. */
module Paging {
  import opened Wrappers
  import opened BinanceClient

  /** The page size every request asks for. */
  const PageLimit: int := 1000

  /** The `startTime` a request carried. */
  function StartOf(params: Params): Option<int>
  {
    Lookup(params, "startTime")
  }

  /** What the loop does after appending a non-empty page. */
  datatype Step = Stop | Advance(cursor: int)

  /** Lines 81-91: a short page ends the loop; a full one moves the cursor
      past its last bar, unless that passes the end. */
  function AfterPage(page: seq<Bar>, endMs: Option<int>): (st: Step)
    ensures st.Advance? <==>
              |page| >= PageLimit && (endMs.None? || page[|page| - 1].ts + 1 <= endMs.value)
    ensures st.Advance? ==> st.cursor == page[|page| - 1].ts + 1
  {
    if |page| < PageLimit then Stop
    else
      var cursor := page[|page| - 1].ts + 1;
      if endMs.Some? && cursor > endMs.value then Stop else Advance(cursor)
  }

  /** How much the exchange can still answer from `cursor`: the klines at or
      after it, and one more while no cursor is set. */
  function Remaining(ex: Exchange, cursor: Option<int>): nat
  {
    if cursor.None? then |ex.market| + 1 else |Window(ex.market, cursor, None)|
  }

  /** A later start never admits more klines, and passing one kline admits
      strictly fewer. */
  lemma {:induction false} WindowShrinks(market: seq<RawKline>, c: int, c': int)
    requires c <= c'
    ensures |Window(market, Some(c'), None)| <= |Window(market, Some(c), None)|
    ensures (exists x :: x in market && c <= x.openTime < c') ==>
              |Window(market, Some(c'), None)| < |Window(market, Some(c), None)|
  {
    if market != [] {
      WindowShrinks(market[1..], c, c');
      assert forall x :: x in market ==> x == market[0] || x in market[1..];
    }
  }

  /** Passing a kline at or after the cursor leaves strictly less to answer. */
  lemma PastKline(ex: Exchange, cursor: Option<int>, x: RawKline, next: int)
    requires x in ex.market && InWindow(x.openTime, cursor, None) && x.openTime < next
    ensures Remaining(ex, Some(next)) < Remaining(ex, cursor)
  {
    if cursor.Some? {
      WindowShrinks(ex.market, cursor.value, next);
    }
  }

  /** A full page of klines at or after the cursor moves the cursor strictly
      forward and leaves strictly less to answer. */
  lemma Progress(ex: Exchange, page: seq<Bar>, cursor: Option<int>, endMs: Option<int>, next: int)
    requires forall b :: b in page ==> FromMarket(ex, b) && InWindow(b.ts, cursor, endMs)
    requires page != [] && AfterPage(page, endMs) == Advance(next)
    ensures cursor.Some? ==> cursor.value < next
    ensures Remaining(ex, Some(next)) < Remaining(ex, cursor)
  {
    var b := page[|page| - 1];
    assert b in page;
    var x :| x in ex.market && ToBar(x) == b;
    PastKline(ex, cursor, x, next);
  }

  /** The pages gathered, every request sent and the reply to each, in order. */
  datatype Crawl = Crawl(outcome: Result<seq<seq<Bar>>, FetchError>, requests: seq<Params>,
                         replies: seq<Result<seq<Bar>, FetchError>>)

  /** The loop from request number `k` with cursor `cursor`: it sends at
      least one request and gets one reply to each; when it succeeds, each
      request gave at most one page and no page is empty. */
  function CrawlFrom(ex: Exchange, symbol: string, interval: string, k: nat,
                     cursor: Option<int>, endMs: Option<int>): (c: Crawl)
    ensures |c.requests| >= 1 && |c.replies| == |c.requests|
    ensures c.outcome.Ok? ==> |c.outcome.value| <= |c.requests| && forall p :: p in c.outcome.value ==> p != []
    decreases Remaining(ex, cursor)
  {
    var params := QueryParams(symbol, interval, cursor, endMs, PageLimit);
    var reply := KlinesResult(ex, k, params);
    match reply
    case Err(e) => Crawl(Err(e), [params], [reply])
    case Ok(page) =>
      if page == [] then Crawl(Ok([]), [params], [reply])
      else
        match AfterPage(page, endMs)
        case Stop => Crawl(Ok([page]), [params], [reply])
        case Advance(next) =>
          PageInRange(ex, params, cursor, endMs);
          Progress(ex, page, cursor, endMs, next);
          Extend([page], [params], [reply], CrawlFrom(ex, symbol, interval, k + 1, Some(next), endMs))
  }

  /** The pages, requests and replies already behind, followed by the rest of
      the loop. */
  function Extend(pages: seq<seq<Bar>>, requests: seq<Params>, replies: seq<Result<seq<Bar>, FetchError>>,
                  rest: Crawl): Crawl
  {
    Crawl(if rest.outcome.Ok? then Ok(pages + rest.outcome.value) else rest.outcome,
          requests + rest.requests, replies + rest.replies)
  }

  lemma ExtendNothing(rest: Crawl)
    ensures Extend([], [], [], rest) == rest
  {
    assert [] + rest.requests == rest.requests;
    assert [] + rest.replies == rest.replies;
    assert rest.outcome.Ok? ==> [] + rest.outcome.value == rest.outcome.value;
  }

  lemma ExtendTwice(p1: seq<seq<Bar>>, r1: seq<Params>, a1: seq<Result<seq<Bar>, FetchError>>,
                    p2: seq<seq<Bar>>, r2: seq<Params>, a2: seq<Result<seq<Bar>, FetchError>>, rest: Crawl)
    ensures Extend(p1, r1, a1, Extend(p2, r2, a2, rest)) == Extend(p1 + p2, r1 + r2, a1 + a2, rest)
  {
    assert (r1 + r2) + rest.requests == r1 + (r2 + rest.requests);
    assert (a1 + a2) + rest.replies == a1 + (a2 + rest.replies);
    if rest.outcome.Ok? {
      assert (p1 + p2) + rest.outcome.value == p1 + (p2 + rest.outcome.value);
    }
  }

  /** Lines 61-91: the loop. `requests` is every query sent, in order. */
  method CollectPages(ex: Exchange, symbol: string, interval: string,
                      startMs: Option<int>, endMs: Option<int>)
    returns (r: Result<seq<seq<Bar>>, FetchError>, requests: seq<Params>)
    ensures var c := CrawlFrom(ex, symbol, interval, 0, startMs, endMs);
            r == c.outcome && requests == c.requests
  {
    var pages: seq<seq<Bar>> := [];
    requests := [];
    ghost var replies: seq<Result<seq<Bar>, FetchError>> := [];
    var cursor := startMs;
    ghost var whole := CrawlFrom(ex, symbol, interval, 0, startMs, endMs);
    ExtendNothing(whole);
    while true
      invariant whole == Extend(pages, requests, replies, CrawlFrom(ex, symbol, interval, |requests|, cursor, endMs))
      decreases Remaining(ex, cursor)
    {
      var done;
      done, r, pages, requests, replies, cursor := Turn(ex, symbol, interval, cursor, endMs, whole, pages, requests, replies);
      if done {
        return;
      }
    }
  }

  /** One turn of the loop body, lines 67-91: send request number
      `|requests|` from `cursor` and record it; on an error, an empty page, a
      short page or a cursor past the end the loop is `done` with `r`;
      otherwise the page is appended and the cursor moves past it. */
  method Turn(ex: Exchange, symbol: string, interval: string, cursor: Option<int>, endMs: Option<int>,
              ghost whole: Crawl, pages: seq<seq<Bar>>, requests: seq<Params>,
              ghost replies: seq<Result<seq<Bar>, FetchError>>)
    returns (done: bool, r: Result<seq<seq<Bar>>, FetchError>, pages': seq<seq<Bar>>,
             requests': seq<Params>, ghost replies': seq<Result<seq<Bar>, FetchError>>, cursor': Option<int>)
    requires whole == Extend(pages, requests, replies, CrawlFrom(ex, symbol, interval, |requests|, cursor, endMs))
    ensures done ==> r == whole.outcome && requests' == whole.requests
    ensures !done ==> Remaining(ex, cursor') < Remaining(ex, cursor) &&
                      whole == Extend(pages', requests', replies', CrawlFrom(ex, symbol, interval, |requests'|, cursor', endMs))
  {
    var params, page := GetKlines(ex, |requests|, symbol, interval, cursor, endMs, PageLimit);
    LoopStep(ex, symbol, interval, cursor, endMs, whole, pages, requests, replies, params, page);
    requests', replies' := requests + [params], replies + [page];
    assert |requests'| == |requests| + 1;
    pages', cursor' := pages, cursor;
    if page.Err? {
      return true, Err(page.error), pages', requests', replies', cursor';
    }
    var bars := page.value;
    if bars == [] {
      return true, Ok(pages), pages', requests', replies', cursor';
    }
    pages' := pages + [bars];
    match AfterPage(bars, endMs)
    case Stop =>
      done, r := true, Ok(pages');
    case Advance(next) =>
      done, r, cursor' := false, Ok(pages'), Some(next);
  }

  /** The loop invariant across one turn: what the crawl still to come says
      about the whole crawl once request number `|requests|` is answered. */
  lemma LoopStep(ex: Exchange, symbol: string, interval: string, cursor: Option<int>, endMs: Option<int>,
                 whole: Crawl, pages: seq<seq<Bar>>, requests: seq<Params>,
                 replies: seq<Result<seq<Bar>, FetchError>>, params: Params, reply: Result<seq<Bar>, FetchError>)
    requires whole == Extend(pages, requests, replies, CrawlFrom(ex, symbol, interval, |requests|, cursor, endMs))
    requires params == QueryParams(symbol, interval, cursor, endMs, PageLimit)
    requires reply == KlinesResult(ex, |requests|, params)
    ensures reply.Err? ==> whole.outcome == Err(reply.error) && whole.requests == requests + [params]
    ensures reply == Ok([]) ==> whole.outcome == Ok(pages) && whole.requests == requests + [params]
    ensures reply.Ok? && reply.value != [] && AfterPage(reply.value, endMs) == Stop ==>
              whole.outcome == Ok(pages + [reply.value]) && whole.requests == requests + [params]
    ensures reply.Ok? && reply.value != [] && AfterPage(reply.value, endMs).Advance? ==>
              var next := AfterPage(reply.value, endMs).cursor;
              Remaining(ex, Some(next)) < Remaining(ex, cursor) &&
              whole == Extend(pages + [reply.value], requests + [params], replies + [reply],
                              CrawlFrom(ex, symbol, interval, |requests| + 1, Some(next), endMs))
  {
    CrawlStep(ex, symbol, interval, |requests|, cursor, endMs, params, reply);
    if reply == Ok([]) {
      assert pages + [] == pages;
    }
    if reply.Ok? && reply.value != [] && AfterPage(reply.value, endMs).Advance? {
      var next := AfterPage(reply.value, endMs).cursor;
      var rest := CrawlFrom(ex, symbol, interval, |requests| + 1, Some(next), endMs);
      ExtendTwice(pages, requests, replies, [reply.value], [params], [reply], rest);
    }
  }

  /** One turn of the loop: what request number `k` with `cursor` leads to. */
  lemma CrawlStep(ex: Exchange, symbol: string, interval: string, k: nat, cursor: Option<int>,
                  endMs: Option<int>, params: Params, reply: Result<seq<Bar>, FetchError>)
    requires params == QueryParams(symbol, interval, cursor, endMs, PageLimit)
    requires reply == KlinesResult(ex, k, params)
    ensures var c := CrawlFrom(ex, symbol, interval, k, cursor, endMs);
            match reply
            case Err(e) => c == Crawl(Err(e), [params], [reply])
            case Ok(page) =>
              if page == [] then c == Crawl(Ok([]), [params], [reply])
              else match AfterPage(page, endMs)
                case Stop => c == Crawl(Ok([page]), [params], [reply])
                case Advance(next) =>
                  Remaining(ex, Some(next)) < Remaining(ex, cursor) &&
                  c == Extend([page], [params], [reply], CrawlFrom(ex, symbol, interval, k + 1, Some(next), endMs))
  {
    if reply.Ok? && reply.value != [] && AfterPage(reply.value, endMs).Advance? {
      PageInRange(ex, params, cursor, endMs);
      Progress(ex, reply.value, cursor, endMs, AfterPage(reply.value, endMs).cursor);
    }
  }

  // ---------------------------------------------------------------------
  // What the loop sends and what it keeps
  // ---------------------------------------------------------------------

  /** A bar that is one of the exchange's klines. */
  predicate FromMarket(ex: Exchange, b: Bar)
  {
    exists x :: x in ex.market && ToBar(x) == b
  }

  /** The replies to `requests` sent as request number `k` onwards. */
  function RepliesTo(ex: Exchange, k: nat, requests: seq<Params>): (replies: seq<Result<seq<Bar>, FetchError>>)
    ensures |replies| == |requests|
    decreases |requests|
  {
    if requests == [] then [] else [KlinesResult(ex, k, requests[0])] + RepliesTo(ex, k + 1, requests[1..])
  }

  /** Each reply is the exchange's answer to its request. */
  predicate Replied(ex: Exchange, k: nat, c: Crawl)
  {
    c.replies == RepliesTo(ex, k, c.requests)
  }

  /** Every request asks for the same symbol, interval, end and page size;
      the first one starts at `cursor` and only the start changes. */
  predicate SameQuery(c: Crawl, symbol: string, interval: string, cursor: Option<int>, endMs: Option<int>)
  {
    |c.requests| >= 1 && c.requests[0] == QueryParams(symbol, interval, cursor, endMs, PageLimit) &&
    forall i :: 0 <= i < |c.requests| ==>
      c.requests[i] == QueryParams(symbol, interval, StartOf(c.requests[i]), endMs, PageLimit)
  }

  /** Every reply before the last one is a non-empty page after which the
      loop advanced to the next request's start. */
  predicate Continued(c: Crawl, endMs: Option<int>)
  {
    |c.replies| == |c.requests| &&
    forall i :: 0 <= i < |c.replies| - 1 ==>
      c.replies[i].Ok? && c.replies[i].value != [] &&
      AfterPage(c.replies[i].value, endMs).Advance? &&
      StartOf(c.requests[i + 1]) == Some(AfterPage(c.replies[i].value, endMs).cursor)
  }

  /** The last reply decided the outcome: its error, or success on an empty
      page, a short page, or a cursor past the end. */
  predicate Stopped(c: Crawl, endMs: Option<int>)
  {
    |c.replies| >= 1 &&
    match c.replies[|c.replies| - 1]
    case Err(e) => c.outcome == Err(e)
    case Ok(page) => c.outcome.Ok? && (page == [] || AfterPage(page, endMs) == Stop)
  }

  /** On success the pages are the replies, in order, none of them empty;
      only a final empty reply has no page. */
  predicate PagesAreReplies(c: Crawl)
  {
    c.outcome.Ok? ==>
      (|c.outcome.value| == |c.replies| ||
       (|c.replies| >= 1 && |c.outcome.value| == |c.replies| - 1 && c.replies[|c.replies| - 1] == Ok([]))) &&
      forall i :: 0 <= i < |c.outcome.value| ==>
        i < |c.replies| && c.replies[i] == Ok(c.outcome.value[i]) && c.outcome.value[i] != []
  }

  /** Starts only move forward: every request after the first has one, each
      is later than those before it, and none precedes the initial cursor. */
  predicate CursorsIncrease(c: Crawl, cursor: Option<int>)
  {
    (forall i :: 0 < i < |c.requests| ==> StartOf(c.requests[i]).Some?) &&
    (cursor.Some? ==> forall i :: 0 <= i < |c.requests| ==>
       StartOf(c.requests[i]).Some? && StartOf(c.requests[i]).value >= cursor.value) &&
    (forall i, j :: 0 <= i < j < |c.requests| && StartOf(c.requests[i]).Some? ==>
       StartOf(c.requests[i]).value < StartOf(c.requests[j]).value)
  }

  /** On success every bar gathered is a kline of the exchange, between the
      initial cursor and the end. */
  predicate BarsInRange(ex: Exchange, c: Crawl, cursor: Option<int>, endMs: Option<int>)
  {
    c.outcome.Ok? ==> forall p, b :: p in c.outcome.value && b in p ==>
      FromMarket(ex, b) && InWindow(b.ts, cursor, endMs)
  }

  /** The facts above for the loop started at request `k` with `cursor`. */
  predicate Faithful(ex: Exchange, symbol: string, interval: string, k: nat,
                     cursor: Option<int>, endMs: Option<int>, c: Crawl)
  {
    Replied(ex, k, c) && SameQuery(c, symbol, interval, cursor, endMs) && Continued(c, endMs) &&
    Stopped(c, endMs) && PagesAreReplies(c) && CursorsIncrease(c, cursor) &&
    BarsInRange(ex, c, cursor, endMs)
  }

  /** A full page followed by the rest of the loop keeps each fact. */
  lemma ExtendReplied(ex: Exchange, k: nat, params: Params, page: seq<Bar>,
                      reply: Result<seq<Bar>, FetchError>, rest: Crawl)
    requires reply == KlinesResult(ex, k, params)
    requires Replied(ex, k + 1, rest)
    ensures Replied(ex, k, Extend([page], [params], [reply], rest))
  {
    var c := Extend([page], [params], [reply], rest);
    assert c.requests[1..] == rest.requests;
  }

  lemma ExtendSameQuery(symbol: string, interval: string, cursor: Option<int>, endMs: Option<int>,
                        page: seq<Bar>, reply: Result<seq<Bar>, FetchError>, next: int, rest: Crawl)
    requires SameQuery(rest, symbol, interval, Some(next), endMs)
    ensures var params := QueryParams(symbol, interval, cursor, endMs, PageLimit);
            SameQuery(Extend([page], [params], [reply], rest), symbol, interval, cursor, endMs)
  {
    var params := QueryParams(symbol, interval, cursor, endMs, PageLimit);
    var c := Extend([page], [params], [reply], rest);
    assert forall i :: 0 < i < |c.requests| ==> c.requests[i] == rest.requests[i - 1];
  }

  lemma ExtendContinued(params: Params, endMs: Option<int>, page: seq<Bar>, next: int, rest: Crawl)
    requires page != [] && AfterPage(page, endMs) == Advance(next)
    requires |rest.requests| >= 1 && StartOf(rest.requests[0]) == Some(next)
    requires Continued(rest, endMs)
    ensures Continued(Extend([page], [params], [Ok(page)], rest), endMs)
  {
    var c := Extend([page], [params], [Ok(page)], rest);
    forall i | 1 <= i < |c.replies| - 1
      ensures c.replies[i].Ok? && c.replies[i].value != [] &&
              AfterPage(c.replies[i].value, endMs).Advance? &&
              StartOf(c.requests[i + 1]) == Some(AfterPage(c.replies[i].value, endMs).cursor)
    {
      assert c.replies[i] == rest.replies[i - 1];
      assert c.requests[i + 1] == rest.requests[i];
    }
  }

  lemma ExtendStopped(params: Params, endMs: Option<int>, page: seq<Bar>, rest: Crawl)
    requires Stopped(rest, endMs)
    ensures Stopped(Extend([page], [params], [Ok(page)], rest), endMs)
  {
    var c := Extend([page], [params], [Ok(page)], rest);
    assert c.replies[|c.replies| - 1] == rest.replies[|rest.replies| - 1];
  }

  lemma ExtendPagesAreReplies(params: Params, page: seq<Bar>, rest: Crawl)
    requires page != []
    requires PagesAreReplies(rest)
    ensures PagesAreReplies(Extend([page], [params], [Ok(page)], rest))
  {
    var c := Extend([page], [params], [Ok(page)], rest);
    if rest.outcome.Ok? {
      forall i | 1 <= i < |c.outcome.value|
        ensures i < |c.replies| && c.replies[i] == Ok(c.outcome.value[i]) && c.outcome.value[i] != []
      {
        assert c.outcome.value[i] == rest.outcome.value[i - 1];
        assert c.replies[i] == rest.replies[i - 1];
      }
      if rest.replies != [] {
        assert c.replies[|c.replies| - 1] == rest.replies[|rest.replies| - 1];
      }
    }
  }

  lemma ExtendCursorsIncrease(params: Params, cursor: Option<int>, page: seq<Bar>,
                              reply: Result<seq<Bar>, FetchError>, next: int, rest: Crawl)
    requires StartOf(params) == cursor && (cursor.Some? ==> cursor.value < next)
    requires CursorsIncrease(rest, Some(next))
    ensures CursorsIncrease(Extend([page], [params], [reply], rest), cursor)
  {
    var c := Extend([page], [params], [reply], rest);
    assert forall i :: 0 < i < |c.requests| ==> c.requests[i] == rest.requests[i - 1];
    forall i, j | 0 <= i < j < |c.requests| && StartOf(c.requests[i]).Some?
      ensures StartOf(c.requests[i]).value < StartOf(c.requests[j]).value
    {
      if i == 0 {
        assert StartOf(c.requests[j]).value >= next;
      }
    }
  }

  lemma ExtendBarsInRange(ex: Exchange, params: Params, cursor: Option<int>, endMs: Option<int>,
                          reply: Result<seq<Bar>, FetchError>, next: int, rest: Crawl)
    requires StartOf(params) == cursor && Lookup(params, "endTime") == endMs
    requires cursor.Some? ==> cursor.value < next
    requires BarsInRange(ex, rest, Some(next), endMs)
    ensures BarsInRange(ex, Extend([Answer(ex, params)], [params], [reply], rest), cursor, endMs)
  {
    PageInRange(ex, params, cursor, endMs);
    if rest.outcome.Ok? {
      assert Extend([Answer(ex, params)], [params], [reply], rest).outcome.value
             == [Answer(ex, params)] + rest.outcome.value;
    }
  }

  lemma PageInRange(ex: Exchange, params: Params, cursor: Option<int>, endMs: Option<int>)
    requires StartOf(params) == cursor && Lookup(params, "endTime") == endMs
    ensures forall b :: b in Answer(ex, params) ==> FromMarket(ex, b) && InWindow(b.ts, cursor, endMs)
  {
    forall b | b in Answer(ex, params)
      ensures FromMarket(ex, b) && InWindow(b.ts, cursor, endMs)
    {
      AnswerWithinRequest(ex, params, b);
    }
  }

  /** The loop from any request number and cursor has every fact above. */
  lemma {:induction false} CrawlFaithful(ex: Exchange, symbol: string, interval: string, k: nat,
                                         cursor: Option<int>, endMs: Option<int>)
    ensures Faithful(ex, symbol, interval, k, cursor, endMs, CrawlFrom(ex, symbol, interval, k, cursor, endMs))
    decreases Remaining(ex, cursor)
  {
    var params := QueryParams(symbol, interval, cursor, endMs, PageLimit);
    var c := CrawlFrom(ex, symbol, interval, k, cursor, endMs);
    var reply := KlinesResult(ex, k, params);
    if reply.Err? {
      assert c == Crawl(Err(reply.error), [params], [reply]);
      FaithfulLast(ex, symbol, interval, k, cursor, endMs, c);
      return;
    }
    var page := reply.value;
    if page == [] {
      assert c == Crawl(Ok([]), [params], [reply]);
      FaithfulLast(ex, symbol, interval, k, cursor, endMs, c);
      return;
    }
    if AfterPage(page, endMs).Stop? {
      assert c == Crawl(Ok([page]), [params], [reply]);
      FaithfulLast(ex, symbol, interval, k, cursor, endMs, c);
      return;
    }
    var next := AfterPage(page, endMs).cursor;
    PageInRange(ex, params, cursor, endMs);
    Progress(ex, page, cursor, endMs, next);
    var rest := CrawlFrom(ex, symbol, interval, k + 1, Some(next), endMs);
    assert c == Extend([page], [params], [reply], rest);
    CrawlFaithful(ex, symbol, interval, k + 1, Some(next), endMs);
    FaithfulStep(ex, symbol, interval, k, cursor, endMs, next, rest);
  }

  /** A crawl of one request whose reply ended the loop has every fact above. */
  lemma FaithfulLast(ex: Exchange, symbol: string, interval: string, k: nat,
                     cursor: Option<int>, endMs: Option<int>, c: Crawl)
    requires var params := QueryParams(symbol, interval, cursor, endMs, PageLimit);
             var reply := KlinesResult(ex, k, params);
             c.requests == [params] && c.replies == [reply] &&
             match reply
             case Err(e) => c.outcome == Err(e)
             case Ok(page) =>
               (page == [] && c.outcome == Ok([])) ||
               (page != [] && AfterPage(page, endMs) == Stop && c.outcome == Ok([page]))
    ensures Faithful(ex, symbol, interval, k, cursor, endMs, c)
  {
    var params := QueryParams(symbol, interval, cursor, endMs, PageLimit);
    var reply := KlinesResult(ex, k, params);
    assert Replied(ex, k, c) by {
      assert c.requests[1..] == [];
    }
    assert SameQuery(c, symbol, interval, cursor, endMs);
    assert Stopped(c, endMs) && Continued(c, endMs) && CursorsIncrease(c, cursor);
    assert PagesAreReplies(c);
    if reply.Ok? {
      PageInRange(ex, params, cursor, endMs);
    }
  }

  /** A full page followed by a faithful rest of the loop is faithful. */
  lemma FaithfulStep(ex: Exchange, symbol: string, interval: string, k: nat,
                     cursor: Option<int>, endMs: Option<int>, next: int, rest: Crawl)
    requires var params := QueryParams(symbol, interval, cursor, endMs, PageLimit);
             var reply := KlinesResult(ex, k, params);
             reply.Ok? && reply.value != [] && AfterPage(reply.value, endMs) == Advance(next)
    requires cursor.Some? ==> cursor.value < next
    requires Faithful(ex, symbol, interval, k + 1, Some(next), endMs, rest)
    ensures var params := QueryParams(symbol, interval, cursor, endMs, PageLimit);
            var reply := KlinesResult(ex, k, params);
            Faithful(ex, symbol, interval, k, cursor, endMs, Extend([reply.value], [params], [reply], rest))
  {
    var params := QueryParams(symbol, interval, cursor, endMs, PageLimit);
    var reply := KlinesResult(ex, k, params);
    var page := reply.value;
    ExtendReplied(ex, k, params, page, reply, rest);
    ExtendSameQuery(symbol, interval, cursor, endMs, page, reply, next, rest);
    ExtendContinued(params, endMs, page, next, rest);
    ExtendStopped(params, endMs, page, rest);
    ExtendPagesAreReplies(params, page, rest);
    ExtendCursorsIncrease(params, cursor, page, reply, next, rest);
    ExtendBarsInRange(ex, params, cursor, endMs, reply, next, rest);
  }

  /** With nothing between the cursor and the end, a successful first request
      is the only one and gathers no page. */
  lemma NothingToFetch(ex: Exchange, symbol: string, interval: string, k: nat,
                       cursor: Option<int>, endMs: Option<int>)
    requires forall x :: x in ex.market ==> !InWindow(x.openTime, cursor, endMs)
    requires !IsHttpError(StatusOf(ex, k))
    ensures CrawlFrom(ex, symbol, interval, k, cursor, endMs)
            == var params := QueryParams(symbol, interval, cursor, endMs, PageLimit);
               Crawl(Ok([]), [params], [Ok([])])
  {
    var params := QueryParams(symbol, interval, cursor, endMs, PageLimit);
    var page := Answer(ex, params);
    if page != [] {
      AnswerWithinRequest(ex, params, page[0]);
      assert false;
    }
  }

  /** From an exchange that lists its klines in time order, a successful loop
      started at a cursor gathers every kline between the cursor and the end:
      a full page holds everything up to its last bar and the next request
      starts just after it, a short page is the whole rest of the window, and
      an empty page means nothing was left. */
  lemma {:induction false} CrawlComplete(ex: Exchange, symbol: string, interval: string, k: nat,
                                         cursor: int, endMs: Option<int>, x: RawKline)
    requires Chronological(ex.market)
    requires x in ex.market && InWindow(x.openTime, Some(cursor), endMs)
    requires CrawlFrom(ex, symbol, interval, k, Some(cursor), endMs).outcome.Ok?
    ensures exists p :: p in CrawlFrom(ex, symbol, interval, k, Some(cursor), endMs).outcome.value && ToBar(x) in p
    decreases Remaining(ex, Some(cursor))
  {
    var params := QueryParams(symbol, interval, Some(cursor), endMs, PageLimit);
    var reply := KlinesResult(ex, k, params);
    var c := CrawlFrom(ex, symbol, interval, k, Some(cursor), endMs);
    CrawlStep(ex, symbol, interval, k, Some(cursor), endMs, params, reply);
    AnswerCovers(ex, params, x);
    var page := reply.value;
    match AfterPage(page, endMs)
    case Stop =>
      assert ToBar(x) in page && page in c.outcome.value;
    case Advance(next) =>
      var rest := CrawlFrom(ex, symbol, interval, k + 1, Some(next), endMs);
      assert c.outcome.value == [page] + rest.outcome.value;
      if x.openTime < next {
        assert ToBar(x) in page && page in c.outcome.value;
      } else {
        CrawlComplete(ex, symbol, interval, k + 1, next, endMs, x);
        var p :| p in rest.outcome.value && ToBar(x) in p;
        assert p in c.outcome.value;
      }
  }
}
