/** Operations on bar sequences indexed by timestamp, as `fetch_and_save` and
    `load_data` apply them to their data frames: concatenation of pages,
    dropping repeated timestamps (first one kept), sorting by timestamp, and
    the inclusive date filter. */
module Frames {
  import opened Wrappers
  import opened BinanceClient

  /** The timestamps present in a sequence of bars. */
  function Stamps(s: seq<Bar>): (stamps: set<int>)
    ensures forall b :: b in s ==> b.ts in stamps
  {
    if s == [] then {} else Stamps(s[..|s| - 1]) + {s[|s| - 1].ts}
  }

  /** A stamp is present exactly when some position carries it. */
  lemma {:induction false} StampsAt(s: seq<Bar>, t: int) returns (i: int)
    requires t in Stamps(s)
    ensures 0 <= i < |s| && s[i].ts == t
  {
    if s[|s| - 1].ts == t {
      i := |s| - 1;
    } else {
      i := StampsAt(s[..|s| - 1], t);
    }
  }

  /** A stamp no position carries is absent. */
  lemma {:induction false} NotInStamps(s: seq<Bar>, t: int)
    requires forall i :: 0 <= i < |s| ==> s[i].ts != t
    ensures t !in Stamps(s)
  {
    if s != [] {
      NotInStamps(s[..|s| - 1], t);
    }
  }

  predicate Ascending(s: seq<Bar>)
  {
    forall i, j :: 0 <= i < j < |s| ==> s[i].ts <= s[j].ts
  }

  predicate StrictlyAscending(s: seq<Bar>)
  {
    forall i, j :: 0 <= i < j < |s| ==> s[i].ts < s[j].ts
  }

  predicate DistinctStamps(s: seq<Bar>)
  {
    forall i, j :: 0 <= i < j < |s| ==> s[i].ts != s[j].ts
  }

  /** `pd.concat(pages)`. */
  function Concat(pages: seq<seq<Bar>>): (all: seq<Bar>)
    ensures forall b :: b in all <==> exists i :: 0 <= i < |pages| && b in pages[i]
  {
    if pages == [] then []
    else
      var rest := Concat(pages[1..]);
      assert forall i :: 1 <= i < |pages| ==> pages[i] == pages[1..][i - 1];
      pages[0] + rest
  }

  /** Position `i` holds the first bar with its timestamp. */
  predicate FirstOfItsStamp(s: seq<Bar>, i: int)
    requires 0 <= i < |s|
  {
    forall j :: 0 <= j < i ==> s[j].ts != s[i].ts
  }

  /** `df[~df.index.duplicated(keep="first")]`: every bar whose timestamp
      already occurred earlier is dropped. */
  function DedupFirst(s: seq<Bar>): (d: seq<Bar>)
    ensures |d| <= |s|
    ensures forall b :: b in d ==> b in s
  {
    if s == [] then []
    else DedupFirst(s[..|s| - 1]) + (if FirstOfItsStamp(s, |s| - 1) then [s[|s| - 1]] else [])
  }

  /** Positions of a prefix keep their "first of its stamp" status. */
  lemma FirstOfItsStampPrefix(s: seq<Bar>, n: int, i: int)
    requires 0 <= i < n <= |s|
    ensures FirstOfItsStamp(s[..n], i) <==> FirstOfItsStamp(s, i)
  {
    assert forall j :: 0 <= j <= i ==> s[..n][j] == s[j];
  }

  /** Only first occurrences survive, and they carry distinct stamps. */
  lemma {:induction false} DedupFirstSound(s: seq<Bar>)
    ensures forall b :: b in DedupFirst(s) ==> exists i :: 0 <= i < |s| && s[i] == b && FirstOfItsStamp(s, i)
    ensures DistinctStamps(DedupFirst(s))
  {
    if s != [] {
      var n := |s|;
      var init := s[..n - 1];
      var d' := DedupFirst(init);
      DedupFirstSound(init);
      forall b | b in d' ensures exists i :: 0 <= i < n - 1 && s[i] == b && FirstOfItsStamp(s, i) {
        var i :| 0 <= i < |init| && init[i] == b && FirstOfItsStamp(init, i);
        FirstOfItsStampPrefix(s, n - 1, i);
      }
      if FirstOfItsStamp(s, n - 1) {
        var d := d' + [s[n - 1]];
        assert d == DedupFirst(s);
        forall k | 0 <= k < |d'| ensures d'[k].ts != s[n - 1].ts {
          assert d'[k] in d';
        }
      }
    }
  }

  /** Every first occurrence survives. */
  lemma {:induction false} DedupFirstKeeps(s: seq<Bar>, i: int)
    requires 0 <= i < |s| && FirstOfItsStamp(s, i)
    ensures s[i] in DedupFirst(s)
  {
    var n := |s|;
    var init := s[..n - 1];
    if i < n - 1 {
      FirstOfItsStampPrefix(s, n - 1, i);
      DedupFirstKeeps(init, i);
      assert init[i] == s[i];
    }
  }

  lemma DedupFirstComplete(s: seq<Bar>)
    ensures forall i :: 0 <= i < |s| && FirstOfItsStamp(s, i) ==> s[i] in DedupFirst(s)
  {
    forall i | 0 <= i < |s| && FirstOfItsStamp(s, i) ensures s[i] in DedupFirst(s) {
      DedupFirstKeeps(s, i);
    }
  }

  /** Dropping repeats loses no timestamp. */
  lemma DedupFirstStamps(s: seq<Bar>)
    ensures Stamps(DedupFirst(s)) == Stamps(s)
  {
    var d := DedupFirst(s);
    DedupFirstSound(s);
    DedupFirstComplete(s);
    forall t | t in Stamps(d) ensures t in Stamps(s) {
      var k := StampsAt(d, t);
      assert d[k] in d;
    }
    forall t | t in Stamps(s) ensures t in Stamps(d) {
      var i := StampsAt(s, t);
      var k := FirstWithStampExists(s, t, i);
      assert s[k] in d;
    }
  }

  /** The first position holding stamp `t`, given one position `i` that does. */
  lemma {:induction false} FirstWithStampExists(s: seq<Bar>, t: int, i: int) returns (k: int)
    requires 0 <= i < |s| && s[i].ts == t
    ensures 0 <= k <= i && s[k].ts == t && FirstOfItsStamp(s, k)
    decreases i
  {
    if FirstOfItsStamp(s, i) {
      k := i;
    } else {
      var j :| 0 <= j < i && s[j].ts == t;
      k := FirstWithStampExists(s, t, j);
    }
  }

  /** Insertion of one bar into a sequence sorted by timestamp. */
  function Insert(b: Bar, s: seq<Bar>): seq<Bar>
  {
    if s == [] then [b]
    else if b.ts <= s[0].ts then [b] + s
    else [s[0]] + Insert(b, s[1..])
  }

  lemma {:induction false} InsertPermutes(b: Bar, s: seq<Bar>)
    ensures multiset(Insert(b, s)) == multiset(s) + multiset{b}
    ensures forall x :: x in Insert(b, s) <==> x == b || x in s
  {
    if s != [] && b.ts > s[0].ts {
      InsertPermutes(b, s[1..]);
      assert s == [s[0]] + s[1..];
    }
  }

  /** Inserting into an ascending sequence keeps it ascending. */
  lemma {:induction false} InsertAscending(b: Bar, s: seq<Bar>)
    requires Ascending(s)
    ensures Ascending(Insert(b, s))
  {
    if s != [] && b.ts > s[0].ts {
      var rest := Insert(b, s[1..]);
      InsertAscending(b, s[1..]);
      InsertPermutes(b, s[1..]);
      forall k | 0 <= k < |rest| ensures s[0].ts <= rest[k].ts {
        assert rest[k] in rest;
        if rest[k] != b {
          var j :| 0 <= j < |s[1..]| && s[1..][j] == rest[k];
          assert s[j + 1] == rest[k];
        }
      }
    }
  }

  /** The tail of a strictly ascending sequence is strictly ascending and
      lies above its head. */
  lemma TailStrictlyAscending(s: seq<Bar>)
    requires StrictlyAscending(s) && s != []
    ensures StrictlyAscending(s[1..])
    ensures forall x :: x in s[1..] ==> s[0].ts < x.ts
  {
    var tail := s[1..];
    forall i, j | 0 <= i < j < |tail| ensures tail[i].ts < tail[j].ts {
      assert tail[i] == s[i + 1] && tail[j] == s[j + 1];
    }
    forall x | x in tail ensures s[0].ts < x.ts {
      var k :| 0 <= k < |tail| && tail[k] == x;
      assert tail[k] == s[k + 1];
    }
  }

  /** A bar below every bar of a strictly ascending sequence can go first. */
  lemma ConsStrictlyAscending(b: Bar, s: seq<Bar>)
    requires StrictlyAscending(s) && forall x :: x in s ==> b.ts < x.ts
    ensures StrictlyAscending([b] + s)
  {
    var r := [b] + s;
    forall i, j | 0 <= i < j < |r| ensures r[i].ts < r[j].ts {
      assert r[j] == s[j - 1];
      if i == 0 {
        assert s[j - 1] in s;
      } else {
        assert r[i] == s[i - 1];
      }
    }
  }

  /** A stamp absent from a sequence is absent from its tail. */
  lemma StampsOfTail(s: seq<Bar>, t: int)
    requires s != [] && t !in Stamps(s)
    ensures t !in Stamps(s[1..])
  {
    forall i | 0 <= i < |s[1..]| ensures s[1..][i].ts != t {
      assert s[1..][i] in s;
    }
    NotInStamps(s[1..], t);
  }

  /** Inserting a bar with a new stamp into a strictly ascending sequence
      keeps it strictly ascending. */
  lemma {:induction false} InsertStrictlyAscending(b: Bar, s: seq<Bar>)
    requires StrictlyAscending(s) && b.ts !in Stamps(s)
    ensures StrictlyAscending(Insert(b, s))
  {
    if s != [] {
      assert s[0] in s;
      if b.ts > s[0].ts {
        TailStrictlyAscending(s);
        StampsOfTail(s, b.ts);
        InsertStrictlyAscending(b, s[1..]);
        InsertPermutes(b, s[1..]);
        ConsStrictlyAscending(s[0], Insert(b, s[1..]));
      } else {
        LeadStrictlyAscending(b, s);
      }
    }
  }

  /** A bar earlier than the head of a strictly ascending sequence can lead
      it. */
  lemma LeadStrictlyAscending(b: Bar, s: seq<Bar>)
    requires StrictlyAscending(s) && s != [] && b.ts < s[0].ts
    ensures StrictlyAscending([b] + s)
  {
    TailStrictlyAscending(s);
    assert s == [s[0]] + s[1..];
    ConsStrictlyAscending(b, s);
  }

  /** `sort_index()`: the same bars ordered by timestamp. */
  function SortByStamp(s: seq<Bar>): (r: seq<Bar>)
    ensures multiset(r) == multiset(s)
  {
    if s == [] then []
    else
      var rest := SortByStamp(s[1..]);
      InsertPermutes(s[0], rest);
      assert s == [s[0]] + s[1..];
      Insert(s[0], rest)
  }

  /** Sorting puts the bars in ascending order. */
  lemma {:induction false} SortByStampAscending(s: seq<Bar>)
    ensures Ascending(SortByStamp(s))
  {
    if s != [] {
      var rest := SortByStamp(s[1..]);
      SortByStampAscending(s[1..]);
      InsertAscending(s[0], rest);
    }
  }

  /** With no repeated stamp the sorted sequence is strictly ascending. */
  lemma {:induction false} SortByStampStrict(s: seq<Bar>)
    requires DistinctStamps(s)
    ensures StrictlyAscending(SortByStamp(s))
  {
    if s != [] {
      var rest := SortByStamp(s[1..]);
      assert DistinctStamps(s[1..]) by {
        forall i, j | 0 <= i < j < |s[1..]| ensures s[1..][i].ts != s[1..][j].ts {
          assert s[1..][i] == s[i + 1] && s[1..][j] == s[j + 1];
        }
      }
      SortByStampStrict(s[1..]);
      assert forall x :: x in rest ==> x in multiset(s[1..]);
      forall k | 0 <= k < |rest| ensures rest[k].ts != s[0].ts {
        assert rest[k] in rest;
        var j :| 0 <= j < |s[1..]| && s[1..][j] == rest[k];
        assert s[j + 1] == rest[k];
      }
      NotInStamps(rest, s[0].ts);
      InsertStrictlyAscending(s[0], rest);
    }
  }

  /** Lines 97-101: concatenate the pages, drop repeated timestamps keeping the
      first, sort. The merged frame is strictly ascending by timestamp, so no
      timestamp occurs twice in it. */
  function Merge(pages: seq<seq<Bar>>): (m: seq<Bar>)
    ensures StrictlyAscending(m)
  {
    var d := DedupFirst(Concat(pages));
    DedupFirstSound(Concat(pages));
    SortByStampStrict(d);
    SortByStamp(d)
  }

  /** The merged frame holds the same bars as the deduplicated one. */
  lemma MergeElements(pages: seq<seq<Bar>>)
    ensures forall b :: b in Merge(pages) <==> b in DedupFirst(Concat(pages))
  {
    var d := DedupFirst(Concat(pages));
    assert forall b :: b in Merge(pages) <==> b in multiset(d);
  }

  /** `b` is the first bar of its timestamp somewhere in `s`. */
  predicate KeptFirst(s: seq<Bar>, b: Bar)
  {
    exists i :: 0 <= i < |s| && s[i] == b && FirstOfItsStamp(s, i)
  }

  /** It holds exactly the first bar of each timestamp, in page order. */
  lemma MergeKeepsFirsts(pages: seq<seq<Bar>>)
    ensures forall b :: b in Merge(pages) <==> KeptFirst(Concat(pages), b)
  {
    var all := Concat(pages);
    MergeElements(pages);
    DedupFirstSound(all);
    forall b | KeptFirst(all, b)
      ensures b in Merge(pages)
    {
      var i :| 0 <= i < |all| && all[i] == b && FirstOfItsStamp(all, i);
      DedupFirstKeeps(all, i);
    }
  }

  /** A bar whose timestamp no other gathered bar carries is merged. */
  lemma MergeKeepsLoneStamp(pages: seq<seq<Bar>>, b: Bar)
    requires exists i :: 0 <= i < |pages| && b in pages[i]
    requires forall i, c :: 0 <= i < |pages| && c in pages[i] && c.ts == b.ts ==> c == b
    ensures b in Merge(pages)
  {
    var all := Concat(pages);
    assert b in all;
    var i :| 0 <= i < |all| && all[i] == b;
    var k := FirstWithStampExists(all, b.ts, i);
    assert all[k] in all;
    MergeKeepsFirsts(pages);
  }

  /** It holds only bars some page held, and every timestamp some page held. */
  lemma MergeFromPages(pages: seq<seq<Bar>>)
    ensures forall b :: b in Merge(pages) ==> exists i :: 0 <= i < |pages| && b in pages[i]
    ensures Stamps(Merge(pages)) == Stamps(Concat(pages))
  {
    var m := Merge(pages);
    var d := DedupFirst(Concat(pages));
    MergeElements(pages);
    DedupFirstSound(Concat(pages));
    DedupFirstStamps(Concat(pages));
    forall b | b in m ensures exists i :: 0 <= i < |pages| && b in pages[i] {
      assert b in d;
      var k :| 0 <= k < |Concat(pages)| && Concat(pages)[k] == b && FirstOfItsStamp(Concat(pages), k);
      assert b in Concat(pages);
    }
    forall t | t in Stamps(m) ensures t in Stamps(d) {
      var k := StampsAt(m, t);
      assert m[k] in m;
    }
    forall t | t in Stamps(d) ensures t in Stamps(m) {
      var k := StampsAt(d, t);
      assert d[k] in d;
    }
  }

  /** No pages, no bars; some page with a bar, some bar. */
  lemma MergeEmptyIff(pages: seq<seq<Bar>>)
    requires forall i :: 0 <= i < |pages| ==> pages[i] != []
    ensures Merge(pages) == [] <==> pages == []
  {
    if pages != [] {
      var b := pages[0][0];
      assert b in Concat(pages);
      assert b.ts in Stamps(Concat(pages));
      MergeFromPages(pages);
      assert b.ts in Stamps(Merge(pages));
    }
  }

  /** `df[df.index >= start]` and `df[df.index <= end]` together: the bars
      whose timestamp lies in the inclusive window, in their order. */
  function FilterWindow(s: seq<Bar>, start: Option<int>, end: Option<int>): (r: seq<Bar>)
    ensures |r| <= |s|
    ensures forall b :: b in r <==> b in s && InWindow(b.ts, start, end)
  {
    if s == [] then []
    else
      var rest := FilterWindow(s[1..], start, end);
      assert forall b :: b in s <==> b == s[0] || b in s[1..];
      if InWindow(s[0].ts, start, end) then [s[0]] + rest else rest
  }

  /** Filtering by the start and then by the end is filtering by both. */
  lemma {:induction false} FilterWindowSplit(s: seq<Bar>, start: Option<int>, end: Option<int>)
    ensures FilterWindow(FilterWindow(s, start, None), None, end) == FilterWindow(s, start, end)
  {
    if s != [] {
      FilterWindowSplit(s[1..], start, end);
    }
  }

  /** A frame already inside the window passes the filter unchanged. */
  lemma {:induction false} FilterWindowKeepsInside(s: seq<Bar>, start: Option<int>, end: Option<int>)
    requires forall b :: b in s ==> InWindow(b.ts, start, end)
    ensures FilterWindow(s, start, end) == s
  {
    if s != [] {
      FilterWindowKeepsInside(s[1..], start, end);
    }
  }

  /** Filtering twice with the same bounds is filtering once. */
  lemma FilterWindowIdempotent(s: seq<Bar>, start: Option<int>, end: Option<int>)
    ensures FilterWindow(FilterWindow(s, start, end), start, end) == FilterWindow(s, start, end)
  {
    FilterWindowKeepsInside(FilterWindow(s, start, end), start, end);
  }

  /** Filtering keeps the order: a frame sorted by strictly increasing
      timestamps stays so. */
  lemma {:induction false} FilterWindowStrictlyAscending(s: seq<Bar>, start: Option<int>, end: Option<int>)
    requires StrictlyAscending(s)
    ensures StrictlyAscending(FilterWindow(s, start, end))
  {
    if s != [] {
      TailStrictlyAscending(s);
      FilterWindowStrictlyAscending(s[1..], start, end);
      if InWindow(s[0].ts, start, end) {
        ConsStrictlyAscending(s[0], FilterWindow(s[1..], start, end));
      }
    }
  }
}
