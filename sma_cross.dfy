/** The SMA crossover strategy: the `_sma` indicator and the per-bar decision
    of `SmaCross.next`. */
module SmaCross {
  import opened Wrappers
  import opened Series

  /** The value `_sma` leaves at index `i`: NaN during the first `period - 1`
      bars, then the mean of the `period` prices ending at `i`. This is the
      reference definition the indicator is checked against: the loop of
      `Sma` and the rolling mean of `MtfRsiTrend` both equal it, and
      `SmaWithinPriceRange` and `SmaExample` are proved about it. */
  function SmaAt(arr: seq<real>, period: nat, i: nat): (r: Option<real>)
    requires period >= 1 && i < |arr|
    ensures r.Some? <==> i + 1 >= period
    ensures r.Some? ==> r.value == Mean(arr[i + 1 - period .. i + 1])
  {
    if i + 1 < period then None else Some(Mean(arr[i + 1 - period .. i + 1]))
  }

  /** `_sma`: a result array pre-filled with NaN, then every index from
      `period - 1` on overwritten with its trailing-window mean. */
  method Sma(arr: seq<real>, period: int) returns (r: seq<Option<real>>)
    requires period >= 1
    ensures |r| == |arr|
    ensures forall i :: 0 <= i < |arr| && i < period - 1 ==> r[i] == None
    ensures forall i :: period - 1 <= i < |arr| ==> r[i] == Some(Mean(arr[i + 1 - period .. i + 1]))
    ensures forall i :: 0 <= i < |arr| ==> r[i] == SmaAt(arr, period, i)
  {
    var result := new Option<real>[|arr|](_ => None);
    var i := period - 1;
    while i < |arr|
      invariant period - 1 <= i
      invariant i <= |arr| || i == period - 1
      invariant forall k :: 0 <= k < |arr| && i <= k ==> result[k] == None
      invariant forall k :: 0 <= k < i && k < |arr| ==> result[k] == SmaAt(arr, period, k)
    {
      result[i] := Some(Mean(arr[i + 1 - period .. i + 1]));
      i := i + 1;
    }
    r := result[..];
    SmaAtCases(arr, period, r);
  }

  /** A series that agrees with `SmaAt` everywhere is NaN before index
      `period - 1` and the trailing-window mean from there on. */
  lemma SmaAtCases(arr: seq<real>, period: int, r: seq<Option<real>>)
    requires period >= 1 && |r| == |arr|
    requires forall i :: 0 <= i < |arr| ==> r[i] == SmaAt(arr, period, i)
    ensures forall i :: 0 <= i < |arr| && i < period - 1 ==> r[i] == None
    ensures forall i :: period - 1 <= i < |arr| ==> r[i] == Some(Mean(arr[i + 1 - period .. i + 1]))
  {
  }

  /** With fewer prices than the period, every entry is NaN. */
  lemma {:induction false} SmaShortInputUndefined(arr: seq<real>, period: nat)
    requires period >= 1 && period > |arr|
    ensures forall i :: 0 <= i < |arr| ==> SmaAt(arr, period, i) == None
  {
  }

  /** A defined SMA lies within the range of the prices in its window, so it
      never leaves the range of the whole input. */
  lemma SmaWithinPriceRange(arr: seq<real>, period: nat, i: nat, lo: real, hi: real)
    requires period >= 1 && period - 1 <= i < |arr|
    requires forall k :: 0 <= k < |arr| ==> lo <= arr[k] <= hi
    ensures SmaAt(arr, period, i).Some?
    ensures lo <= SmaAt(arr, period, i).value <= hi
  {
    var w := arr[i + 1 - period .. i + 1];
    assert forall k :: 0 <= k < |w| ==> w[k] == arr[i + 1 - period + k];
    MeanBounds(w, lo, hi);
  }

  /** The worked example: [1, 2, 3, 4, 5] with period 3 gives
      [NaN, NaN, 2, 3, 4]. */
  lemma SmaExample()
    ensures SmaAt([1.0, 2.0, 3.0, 4.0, 5.0], 3, 0) == None
    ensures SmaAt([1.0, 2.0, 3.0, 4.0, 5.0], 3, 1) == None
    ensures SmaAt([1.0, 2.0, 3.0, 4.0, 5.0], 3, 2) == Some(2.0)
    ensures SmaAt([1.0, 2.0, 3.0, 4.0, 5.0], 3, 3) == Some(3.0)
    ensures SmaAt([1.0, 2.0, 3.0, 4.0, 5.0], 3, 4) == Some(4.0)
  {
    var a := [1.0, 2.0, 3.0, 4.0, 5.0];
    assert a[0..3] == [1.0, 2.0, 3.0];
    assert a[1..4] == [2.0, 3.0, 4.0];
    assert a[2..5] == [3.0, 4.0, 5.0];
    assert Sum([1.0]) == 1.0 by { assert [1.0][..0] == []; }
    assert Sum([1.0, 2.0]) == 3.0 by { assert [1.0, 2.0][..1] == [1.0]; }
    assert Sum([1.0, 2.0, 3.0]) == 6.0 by { assert [1.0, 2.0, 3.0][..2] == [1.0, 2.0]; }
    assert Sum([2.0]) == 2.0 by { assert [2.0][..0] == []; }
    assert Sum([2.0, 3.0]) == 5.0 by { assert [2.0, 3.0][..1] == [2.0]; }
    assert Sum([2.0, 3.0, 4.0]) == 9.0 by { assert [2.0, 3.0, 4.0][..2] == [2.0, 3.0]; }
    assert Sum([3.0]) == 3.0 by { assert [3.0][..0] == []; }
    assert Sum([3.0, 4.0]) == 7.0 by { assert [3.0, 4.0][..1] == [3.0]; }
    assert Sum([3.0, 4.0, 5.0]) == 12.0 by { assert [3.0, 4.0, 5.0][..2] == [3.0, 4.0]; }
  }

  /** backtesting.lib.crossover is not part of this model. This is the
      library's test, taken as an assumed definition: `a` was strictly below
      `b` on the previous bar and is strictly above it on the current one; a
      series shorter than two bars never crosses, and NaN compares false. */
  predicate Crossover(a: seq<Option<real>>, b: seq<Option<real>>)
  {
    |a| >= 2 && |b| >= 2 && Lt(a[|a| - 2], b[|b| - 2]) && Gt(a[|a| - 1], b[|b| - 1])
  }

  /** Two series cannot cross each other in both directions on the same bar. */
  lemma CrossoverOneWay(a: seq<Option<real>>, b: seq<Option<real>>)
    ensures !(Crossover(a, b) && Crossover(b, a))
  {
  }

  /** `SmaCross.next`. `fastCrossesSlow` and `slowCrossesFast` are the two
      `crossover` calls of the source; `inPosition` is the truth value of
      `self.position`; `close` is the current bar's close. */
  function Next(fastCrossesSlow: bool, slowCrossesFast: bool, inPosition: bool,
                close: real, stopLossPct: real): (sig: Signal)
    ensures sig.EnterLong? <==> fastCrossesSlow && !inPosition
    ensures sig.EnterLong? ==> sig.sl == close * (1.0 - stopLossPct)
    ensures sig.Exit? <==> !fastCrossesSlow && slowCrossesFast && inPosition
    ensures !fastCrossesSlow && !slowCrossesFast ==> sig == NoAction
  {
    if fastCrossesSlow then
      if !inPosition then EnterLong(StopLoss(close, stopLossPct)) else NoAction
    else if slowCrossesFast then
      if inPosition then Exit else NoAction
    else
      NoAction
  }

  /** The decision on the two SMA series, with the assumed `Crossover`. */
  function NextOnSeries(fast: seq<Option<real>>, slow: seq<Option<real>>, inPosition: bool,
                        close: real, stopLossPct: real): Signal
  {
    Next(Crossover(fast, slow), Crossover(slow, fast), inPosition, close, stopLossPct)
  }

  /** On the SMA series themselves: an entry needs the fast SMA to go from
      strictly below to strictly above the slow one with no position open; an
      exit needs the opposite move with a position open; the stop-loss of a
      valid configuration sits strictly between 0 and the close; and a NaN in
      either of the last two bars of either series means no action. */
  lemma NextOnSeriesMeaning(fast: seq<Option<real>>, slow: seq<Option<real>>, inPosition: bool,
                            close: real, stopLossPct: real)
    requires |fast| >= 2 && |slow| >= 2
    ensures var sig := NextOnSeries(fast, slow, inPosition, close, stopLossPct);
      && (sig.EnterLong? <==>
            !inPosition && Lt(fast[|fast| - 2], slow[|slow| - 2]) && Gt(fast[|fast| - 1], slow[|slow| - 1]))
      && (sig.Exit? <==>
            inPosition && Lt(slow[|slow| - 2], fast[|fast| - 2]) && Gt(slow[|slow| - 1], fast[|fast| - 1]))
      && (sig.EnterLong? && 0.0 < stopLossPct < 1.0 && close > 0.0 ==> 0.0 < sig.sl < close)
      && ((fast[|fast| - 1].None? || slow[|slow| - 1].None? || fast[|fast| - 2].None? || slow[|slow| - 2].None?)
            ==> sig == NoAction)
  {
    CrossoverOneWay(fast, slow);
  }
}
