/** The multi-timeframe RSI trend strategy: its rolling-mean `_sma`, the
    gain/loss split and final ratio of `_rsi`, and the per-bar decision of
    `MtfRsiTrend.next`. */
module MtfRsiTrend {
  import opened Wrappers
  import opened Series
  import SmaCross

  /** `pd.Series(arr).rolling(period).mean()`: each new price yields the mean
      of the last `period` prices once that many have been seen, and NaN
      before. */
  function RollingMean(arr: seq<real>, period: nat): (r: seq<Option<real>>)
    requires period >= 1
    ensures |r| == |arr|
    ensures forall i :: 0 <= i < |arr| ==> (r[i].Some? <==> i + 1 >= period)
  {
    if arr == [] then []
    else
      RollingMean(arr[..|arr| - 1], period)
        + [if |arr| >= period then Some(Mean(arr[|arr| - period..])) else None]
  }

  /** The rolling mean is the same series as `SmaCross._sma`: same length,
      NaN before index `period - 1`, the trailing-window mean from there on. */
  lemma {:induction false} RollingMeanIsSma(arr: seq<real>, period: nat)
    requires period >= 1
    ensures |RollingMean(arr, period)| == |arr|
    ensures forall i :: 0 <= i < |arr| ==> RollingMean(arr, period)[i] == SmaCross.SmaAt(arr, period, i)
  {
    if arr != [] {
      var n := |arr|;
      RollingMeanIsSma(arr[..n - 1], period);
      var last := RollingMeanLast(arr, period);
      forall i | 0 <= i < n
        ensures RollingMean(arr, period)[i] == SmaCross.SmaAt(arr, period, i)
      {
        if i < n - 1 {
          SmaAtPrefix(arr, period, i);
        }
      }
    }
  }

  /** One more price appends the mean of the window it closes. */
  lemma RollingMeanLast(arr: seq<real>, period: nat) returns (last: Option<real>)
    requires period >= 1 && arr != []
    ensures last == SmaCross.SmaAt(arr, period, |arr| - 1)
    ensures RollingMean(arr, period) == RollingMean(arr[..|arr| - 1], period) + [last]
  {
    var n := |arr|;
    if n >= period {
      var w := arr[n - period..];
      assert w == arr[n - period .. n];
      last := Some(Mean(w));
    } else {
      last := None;
    }
  }

  /** Dropping the last price does not change the average of an earlier
      window. */
  lemma SmaAtPrefix(arr: seq<real>, period: nat, i: nat)
    requires period >= 1 && i + 1 < |arr|
    ensures SmaCross.SmaAt(arr[..|arr| - 1], period, i) == SmaCross.SmaAt(arr, period, i)
  {
    if i + 1 >= period {
      assert arr[..|arr| - 1][i + 1 - period .. i + 1] == arr[i + 1 - period .. i + 1];
    }
  }

  /** `pd.Series(s).diff()`: NaN first, then each price minus the one before. */
  function Diff(s: seq<real>): (d: seq<Option<real>>)
    ensures |d| == |s|
    ensures forall i :: 0 <= i < |s| ==> (d[i].None? <==> i == 0)
  {
    seq(|s|, i requires 0 <= i < |s| => if i == 0 then None else Some(s[i] - s[i - 1]))
  }

  /** The differences lose only the first price: adding them up from the
      first price recovers every later one. */
  function Accumulate(first: real, d: seq<Option<real>>): real
  {
    if d == [] then first
    else Accumulate(first, d[..|d| - 1]) + (if d[|d| - 1].Some? then d[|d| - 1].value else 0.0)
  }

  lemma {:induction false} DiffInverse(s: seq<real>, i: nat)
    requires i < |s|
    ensures Diff(s)[0] == None
    ensures Accumulate(s[0], Diff(s)[..i + 1]) == s[i]
  {
    if i > 0 {
      DiffInverse(s, i - 1);
      assert Diff(s)[..i + 1][..i] == Diff(s)[..i];
    } else {
      assert Diff(s)[..1][..0] == [];
    }
  }

  /** `delta.clip(lower=0)` and `(-delta).clip(lower=0)` at one position. */
  function GainLoss(delta: Option<real>): (gl: (Option<real>, Option<real>))
    ensures delta.None? ==> gl.0.None? && gl.1.None?
    ensures delta.Some? ==> gl.0.Some? && gl.1.Some?
    ensures delta.Some? ==> gl.0.value >= 0.0 && gl.1.value >= 0.0
    ensures delta.Some? ==> gl.0.value - gl.1.value == delta.value
    ensures delta.Some? ==> gl.0.value == 0.0 || gl.1.value == 0.0
  {
    match delta
    case None => (None, None)
    case Some(x) => (Some(if x > 0.0 then x else 0.0), Some(if -x > 0.0 then -x else 0.0))
  }

  /** The gain and loss series of a price series: entry `i` splits the
      change from price `i - 1` to price `i` with `GainLoss`, so every fact
      about `GainLoss` holds entry by entry. */
  function Gains(s: seq<real>): (g: seq<Option<real>>)
    ensures |g| == |s|
    ensures forall i :: 0 <= i < |s| ==> (g[i].None? <==> i == 0)
    ensures forall i :: 0 < i < |s| ==> g[i].value >= 0.0 && (g[i].value > 0.0 <==> s[i - 1] < s[i])
    ensures forall i :: 0 < i < |s| ==> g[i] == GainLoss(Some(s[i] - s[i - 1])).0
  {
    var d := Diff(s);
    assert forall i :: 0 < i < |s| ==> d[i] == Some(s[i] - s[i - 1]);
    seq(|s|, i requires 0 <= i < |s| => GainLoss(d[i]).0)
  }

  function Losses(s: seq<real>): (l: seq<Option<real>>)
    ensures |l| == |s|
    ensures forall i :: 0 <= i < |s| ==> (l[i].None? <==> i == 0)
    ensures forall i :: 0 < i < |s| ==> l[i].value >= 0.0 && (l[i].value > 0.0 <==> s[i] < s[i - 1])
    ensures forall i :: 0 < i < |s| ==> l[i] == GainLoss(Some(s[i] - s[i - 1])).1
  {
    var d := Diff(s);
    assert forall i :: 0 < i < |s| ==> d[i] == Some(s[i] - s[i - 1]);
    seq(|s|, i requires 0 <= i < |s| => GainLoss(d[i]).1)
  }

  /** On a strictly rising series every defined loss is zero and every
      defined gain positive, so whatever average of them is taken, the loss
      average is zero and the gain average positive. */
  lemma RisingSeriesGainsOnly(s: seq<real>)
    requires forall i :: 0 < i < |s| ==> s[i - 1] < s[i]
    ensures forall i :: 0 < i < |s| ==> Losses(s)[i] == Some(0.0)
    ensures forall i :: 0 < i < |s| ==> Gains(s)[i].Some? && Gains(s)[i].value > 0.0
    ensures |s| > 0 ==> Gains(s)[0].None? && Losses(s)[0].None?
  {
  }

  /** The last two lines of `_rsi`: `rs = avg_gain / avg_loss` and
      `100 - 100 / (1 + rs)`, evaluated with IEEE-754's rules for a zero
      divisor (`g / 0` is +inf when `g > 0`, and `0 / 0` is NaN). */
  function RsiStep(avgGain: Option<real>, avgLoss: Option<real>): (r: Option<real>)
    requires avgGain.Some? ==> avgGain.value >= 0.0
    requires avgLoss.Some? ==> avgLoss.value >= 0.0
    ensures avgGain.None? || avgLoss.None? ==> r.None?
    ensures r.Some? ==> 0.0 <= r.value <= 100.0
    ensures avgGain.Some? && avgLoss.Some? && avgLoss.value > 0.0 ==> r.Some? && r.value < 100.0
    ensures avgGain.Some? && avgLoss.Some? && avgLoss.value == 0.0 ==>
              r == (if avgGain.value > 0.0 then Some(100.0) else None)
  {
    match (avgGain, avgLoss)
    case (Some(g), Some(l)) =>
      if l > 0.0 then
        var rs := g / l;
        assert rs >= 0.0;
        Some(100.0 - 100.0 / (1.0 + rs))
      else if g > 0.0 then Some(100.0)
      else None
    case _ => None
  }

  /** With a positive loss average the RSI is the share of gains in the total
      movement, `100 * g / (g + l)`, which grows with `g` and shrinks with `l`. */
  lemma RsiIsGainShare(g: real, l: real)
    requires g >= 0.0 && l > 0.0
    ensures RsiStep(Some(g), Some(l)) == Some(100.0 * g / (g + l))
  {
    var rs := g / l;
    assert rs * l == g;
    var a := 1.0 + rs;
    assert a * l == l + g;
    assert a > 0.0;
    var b := 100.0 / a;
    assert b * a == 100.0;
    assert b * (g + l) == 100.0 * l by {
      assert b * (g + l) == b * (a * l);
      assert b * (a * l) == (b * a) * l;
    }
    var x := 100.0 - b;
    assert x * (g + l) == 100.0 * g;
    assert x == 100.0 * g / (g + l);
  }

  lemma DivGt(x: real, t: real, c: real)
    requires t > 0.0
    ensures x / t > c <==> x > c * t
  {
    var q := x / t;
    assert q * t == x;
    if q > c {
      assert (q - c) * t > 0.0;
    } else {
      assert (c - q) * t >= 0.0;
    }
  }

  /** Above 50 exactly when the gain average exceeds the loss average. */
  lemma RsiAboveFifty(g: real, l: real)
    requires g >= 0.0 && l >= 0.0
    requires RsiStep(Some(g), Some(l)).Some?
    ensures RsiStep(Some(g), Some(l)).value > 50.0 <==> g > l
  {
    if l > 0.0 {
      RsiIsGainShare(g, l);
      DivGt(100.0 * g, g + l, 50.0);
    }
  }

  /** The `_rsi` series from its two smoothed averages, point by point. */
  function RsiSeries(avgGains: seq<Option<real>>, avgLosses: seq<Option<real>>): (r: seq<Option<real>>)
    requires |avgGains| == |avgLosses|
    requires forall i :: 0 <= i < |avgGains| && avgGains[i].Some? ==> avgGains[i].value >= 0.0
    requires forall i :: 0 <= i < |avgLosses| && avgLosses[i].Some? ==> avgLosses[i].value >= 0.0
    ensures |r| == |avgGains|
    ensures forall i :: 0 <= i < |r| && r[i].Some? ==> 0.0 <= r[i].value <= 100.0
    ensures forall i :: 0 <= i < |r| && (avgGains[i].None? || avgLosses[i].None?) ==> r[i].None?
    ensures forall i :: 0 <= i < |r| ==> r[i] == RsiStep(avgGains[i], avgLosses[i])
  {
    seq(|avgGains|, i requires 0 <= i < |avgGains| => RsiStep(avgGains[i], avgLosses[i]))
  }

  /** What `next()` reads on one bar: the forward-filled weekly and daily RSI
      and the two base-timeframe SMAs, each possibly NaN. */
  datatype Snapshot = Snapshot(rsiWeekly: Option<real>, rsiDaily: Option<real>,
                               smaFast: Option<real>, smaSlow: Option<real>)

  /** The strategy parameters `next()` uses. */
  datatype Params = Params(rsiEntry: real, rsiExit: real, stopLossPct: real)

  /** The default parameters of the strategy class. */
  const DefaultParams := Params(45.0, 75.0, 0.04)

  /** `MtfRsiTrend.next`: entry table when flat, exit table when in a position. */
  function Next(snap: Snapshot, p: Params, inPosition: bool, price: real): (sig: Signal)
    ensures sig.EnterLong? <==>
      && !inPosition
      && snap.rsiWeekly.Some? && snap.rsiWeekly.value > 50.0
      && snap.rsiDaily.Some? && snap.rsiDaily.value > p.rsiEntry
      && snap.smaFast.Some? && snap.smaSlow.Some? && snap.smaFast.value > snap.smaSlow.value
      && price > snap.smaFast.value
    ensures sig.EnterLong? ==> sig.sl == price * (1.0 - p.stopLossPct)
    ensures sig.Exit? <==>
      && inPosition
      && ((snap.rsiDaily.Some? && snap.rsiDaily.value > p.rsiExit)
          || (snap.smaSlow.Some? && price < snap.smaSlow.value))
  {
    if !inPosition then
      var weeklyBullish := Gt(snap.rsiWeekly, Some(50.0));
      var dailyMomentum := Gt(snap.rsiDaily, Some(p.rsiEntry));
      var baseUptrend := Gt(snap.smaFast, snap.smaSlow);
      var aboveMa := Gt(Some(price), snap.smaFast);
      if weeklyBullish && dailyMomentum && baseUptrend && aboveMa then
        EnterLong(StopLoss(price, p.stopLossPct))
      else NoAction
    else
      var overbought := Gt(snap.rsiDaily, Some(p.rsiExit));
      var trendBreakdown := Lt(Some(price), snap.smaSlow);
      if overbought || trendBreakdown then Exit else NoAction
  }

  /** The two tables are exclusive: flat never exits, a position never
      re-enters; and the default configuration's stop-loss sits 4% below a
      positive entry price. */
  lemma NextExclusive(snap: Snapshot, p: Params, inPosition: bool, price: real)
    ensures !inPosition ==> !Next(snap, p, inPosition, price).Exit?
    ensures inPosition ==> !Next(snap, p, inPosition, price).EnterLong?
    ensures var sig := Next(snap, DefaultParams, inPosition, price);
              sig.EnterLong? && price > 0.0 ==> 0.0 < sig.sl < price
  {
  }

  /** A NaN in any entry indicator blocks entry; a NaN daily RSI does not
      block an exit through a defined `close < slow SMA`. */
  lemma NanRules(snap: Snapshot, p: Params, price: real)
    ensures (snap.rsiWeekly.None? || snap.rsiDaily.None? || snap.smaFast.None? || snap.smaSlow.None?)
              ==> Next(snap, p, false, price) == NoAction
    ensures snap.rsiDaily.None? ==>
              (Next(snap, p, true, price) == Exit <==> snap.smaSlow.Some? && price < snap.smaSlow.value)
  {
  }
}
