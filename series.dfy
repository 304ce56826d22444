/** Numeric helpers shared by both strategies: sums and means over exact
    reals, comparisons that follow IEEE-754 NaN rules, and the per-bar
    decision a strategy's `next()` reaches. */
module Series {
  import opened Wrappers

  /** The sum of a sequence of prices. */
  function Sum(s: seq<real>): real
  {
    if s == [] then 0.0 else Sum(s[..|s| - 1]) + s[|s| - 1]
  }

  /** The arithmetic mean of a non-empty window (`ndarray.mean()`). */
  function Mean(s: seq<real>): real
    requires |s| > 0
  {
    Sum(s) / (|s| as real)
  }

  /** Every element at least `lo` and at most `hi` bounds the sum by
      `|s| * lo` and `|s| * hi`. */
  lemma {:induction false} SumBounds(s: seq<real>, lo: real, hi: real)
    requires forall i :: 0 <= i < |s| ==> lo <= s[i] <= hi
    ensures (|s| as real) * lo <= Sum(s) <= (|s| as real) * hi
  {
    if s != [] {
      var init := s[..|s| - 1];
      assert forall i :: 0 <= i < |init| ==> init[i] == s[i];
      SumBounds(init, lo, hi);
      var n := |init| as real;
      assert Sum(s) == Sum(init) + s[|s| - 1];
      assert (|s| as real) * lo == n * lo + lo;
      assert (|s| as real) * hi == n * hi + hi;
    }
  }

  lemma DivBetween(x: real, n: real, lo: real, hi: real)
    requires n > 0.0 && n * lo <= x <= n * hi
    ensures lo <= x / n <= hi
  {
  }

  /** A window whose prices all lie in [lo, hi] has its mean in [lo, hi]. */
  lemma MeanBounds(s: seq<real>, lo: real, hi: real)
    requires |s| > 0
    requires forall i :: 0 <= i < |s| ==> lo <= s[i] <= hi
    ensures lo <= Mean(s) <= hi
  {
    SumBounds(s, lo, hi);
    DivBetween(Sum(s), |s| as real, lo, hi);
  }

  /** `a > b` where either side may be NaN: a comparison with NaN is false. */
  predicate Gt(a: Option<real>, b: Option<real>)
  {
    a.Some? && b.Some? && a.value > b.value
  }

  /** `a < b` under the same NaN rule. */
  predicate Lt(a: Option<real>, b: Option<real>)
  {
    a.Some? && b.Some? && a.value < b.value
  }

  /** What a strategy's `next()` does on one bar: nothing, `buy(sl=...)`, or
      `position.close()`. */
  datatype Signal = NoAction | EnterLong(sl: real) | Exit

  /** The stop-loss placed `pct` below the entry price. */
  function StopLoss(price: real, pct: real): (sl: real)
    ensures 0.0 < pct < 1.0 && price > 0.0 ==> 0.0 < sl < price
  {
    assert price * (1.0 - pct) == price - price * pct;
    price * (1.0 - pct)
  }
}
