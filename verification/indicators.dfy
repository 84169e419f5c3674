/** The indicator engine of main.py: EMA, RSI and ATR over a price series,
    computed over exact reals. A pandas value that is NaN because its window
    has not filled yet is `None`. */
module Indicators {
  import opened Outcomes

  /** One OHLCV row as returned by a market-data provider. */
  datatype Bar = Bar(ts: int, open: real, high: real, low: real, close: real, volume: real)

  /** The shape every exchange candle has: open and close inside [low, high]. */
  predicate WellFormed(b: Bar)
  {
    b.low <= b.open <= b.high && b.low <= b.close <= b.high
  }

  function Closes(bars: seq<Bar>): (cs: seq<real>)
    ensures |cs| == |bars|
    ensures forall i :: 0 <= i < |bars| ==> cs[i] == bars[i].close
  {
    seq(|bars|, i requires 0 <= i < |bars| => bars[i].close)
  }

  function Abs(x: real): (r: real)
    ensures r >= 0.0 && (r == x || r == -x)
  {
    if x < 0.0 then -x else x
  }

  function Max(a: real, b: real): (r: real)
    ensures r >= a && r >= b && (r == a || r == b)
  {
    if a < b then b else a
  }

  // ---------------------------------------------------------------------------
  // Sums and the rolling mean
  // ---------------------------------------------------------------------------

  function Sum(xs: seq<real>): real
  {
    if |xs| == 0 then 0.0 else Sum(xs[..|xs| - 1]) + xs[|xs| - 1]
  }

  predicate AllNonNegative(xs: seq<real>)
  {
    forall i :: 0 <= i < |xs| ==> xs[i] >= 0.0
  }

  lemma {:induction false} SumNonNegative(xs: seq<real>)
    requires AllNonNegative(xs)
    ensures Sum(xs) >= 0.0
    ensures |xs| > 0 ==> Sum(xs) >= xs[|xs| - 1]
  {
    if |xs| > 0 {
      SumNonNegative(xs[..|xs| - 1]);
    }
  }

  lemma {:induction false} SumConstant(xs: seq<real>, c: real)
    requires forall i :: 0 <= i < |xs| ==> xs[i] == c
    ensures Sum(xs) == |xs| as real * c
  {
    if |xs| > 0 {
      SumConstant(xs[..|xs| - 1], c);
    }
  }

  /** Peeling the oldest element off a window. */
  lemma {:induction false} SumFront(xs: seq<real>)
    requires |xs| > 0
    ensures Sum(xs) == xs[0] + Sum(xs[1..])
  {
    if |xs| > 1 {
      var init := xs[..|xs| - 1];
      SumFront(init);
      assert init[1..] == xs[1..][..|xs[1..]| - 1];
    }
  }

  function Mean(xs: seq<real>): real
    requires |xs| > 0
  {
    Sum(xs) / |xs| as real
  }

  /** The rolling mean at index `i`. */
  function WindowMean(xs: seq<real>, n: nat, i: nat): Option<real>
    requires n >= 1 && i < |xs|
  {
    if i < n - 1 then None else Some(Mean(xs[i - n + 1..i + 1]))
  }

  /** `rolling(n).mean()` with pandas' default `min_periods = n`: the mean of the
      last `n` values, undefined while fewer than `n` values have been seen. */
  function RollingMean(xs: seq<real>, n: nat): (r: seq<Option<real>>)
    requires n >= 1
    ensures |r| == |xs|
    ensures forall i :: 0 <= i < |xs| ==> r[i] == WindowMean(xs, n, i)
    ensures forall i :: 0 <= i < |xs| ==> (r[i].Some? <==> i >= n - 1)
    ensures AllNonNegative(xs) ==>
      forall i :: 0 <= i < |xs| && r[i].Some? ==> r[i].value >= 0.0
  {
    var r := seq(|xs|, i requires 0 <= i < |xs| => WindowMean(xs, n, i));
    assert AllNonNegative(xs) ==> forall i :: 0 <= i < |xs| && r[i].Some? ==> r[i].value >= 0.0 by {
      if AllNonNegative(xs) {
        forall i | 0 <= i < |xs| && r[i].Some?
          ensures r[i].value >= 0.0
        {
          SumNonNegative(xs[i - n + 1..i + 1]);
        }
      }
    }
    r
  }

  /** First index of the window that is still open before value `i` is added:
      the last `n - 1` values seen so far. */
  function WindowStart(i: nat, n: nat): nat
    requires n >= 1
  {
    if i >= n - 1 then i - (n - 1) else 0
  }

  /** The rolling mean computed the way pandas evaluates it: one pass with a
      running window sum that adds the newest value and drops the oldest. */
  method RollingMeanOnline(xs: seq<real>, n: nat) returns (r: seq<Option<real>>)
    requires n >= 1
    ensures r == RollingMean(xs, n)
  {
    ghost var spec := RollingMean(xs, n);
    r := [];
    var acc := 0.0;
    var i := 0;
    while i < |xs|
      invariant 0 <= i <= |xs|
      invariant r == spec[..i]
      invariant acc == Sum(xs[WindowStart(i, n)..i])
    {
      var lo := WindowStart(i, n);
      ghost var w := xs[lo..i + 1];
      assert w[..|w| - 1] == xs[lo..i];
      assert acc + xs[i] == Sum(w);
      acc := acc + xs[i];
      var mean: Option<real> := None;
      if i >= n - 1 {
        assert lo == i - n + 1 && |w| == n;
        mean := Some(acc / n as real);
        assert mean == spec[i];
        SumFront(w);
        assert w[1..] == xs[lo + 1..i + 1];
        acc := acc - xs[lo];
      }
      assert mean == spec[i];
      r := r + [mean];
      assert r == spec[..i + 1];
      i := i + 1;
    }
    assert spec[..|xs|] == spec;
  }

  // ---------------------------------------------------------------------------
  // EMA
  // ---------------------------------------------------------------------------

  /** Smoothing factor of `ewm(span = n)`. */
  function Alpha(n: nat): real
    requires n >= 1
  {
    2.0 / (n as real + 1.0)
  }

  /** The EMA recurrence at bar `i`. */
  predicate EmaStep(s: seq<real>, n: nat, r: seq<real>, i: nat)
    requires n >= 1
    requires 0 < i < |s| && |r| == |s|
  {
    r[i] == Alpha(n) * s[i] + (1.0 - Alpha(n)) * r[i - 1]
  }

  /** `ewm(span = n, adjust = False).mean()`: seeded by the first close, then each
      value mixes the new close with the previous average. */
  function Ema(s: seq<real>, n: nat): (r: seq<real>)
    requires n >= 1
    ensures |r| == |s|
    ensures |s| > 0 ==> r[0] == s[0]
    ensures forall i :: 0 < i < |s| ==> EmaStep(s, n, r, i)
    decreases |s|
  {
    if |s| == 0 then []
    else if |s| == 1 then [s[0]]
    else
      var p := Ema(s[..|s| - 1], n);
      var r := p + [Alpha(n) * s[|s| - 1] + (1.0 - Alpha(n)) * p[|p| - 1]];
      assert forall i :: 0 < i < |s| ==> EmaStep(s, n, r, i) by {
        forall i | 0 < i < |s|
          ensures EmaStep(s, n, r, i)
        {
          if i < |s| - 1 {
            assert EmaStep(s[..|s| - 1], n, p, i);
          }
        }
      }
      r
  }

  /** Any series with the EMA's seed and recurrence is the EMA. */
  lemma {:induction false} EmaUnique(s: seq<real>, n: nat, r: seq<real>)
    requires n >= 1
    requires |r| == |s|
    requires |s| > 0 ==> r[0] == s[0]
    requires forall i :: 0 < i < |s| ==> EmaStep(s, n, r, i)
    ensures r == Ema(s, n)
  {
    var e := Ema(s, n);
    forall i | 0 <= i < |s|
      ensures r[i] == e[i]
    {
      EmaUniqueAt(s, n, r, i);
    }
  }

  lemma {:induction false} EmaUniqueAt(s: seq<real>, n: nat, r: seq<real>, i: nat)
    requires n >= 1
    requires |r| == |s| && i < |s|
    requires r[0] == s[0]
    requires forall k :: 0 < k < |s| ==> EmaStep(s, n, r, k)
    ensures r[i] == Ema(s, n)[i]
  {
    if i > 0 {
      EmaUniqueAt(s, n, r, i - 1);
      assert EmaStep(s, n, r, i) && EmaStep(s, n, Ema(s, n), i);
    }
  }

  /** The EMA at bar `i` depends only on the closes up to bar `i`. */
  lemma EmaCausal(s: seq<real>, n: nat, k: nat)
    requires n >= 1
    requires k <= |s|
    ensures Ema(s[..k], n) == Ema(s, n)[..k]
  {
    var e := Ema(s, n)[..k];
    forall i | 0 < i < k
      ensures EmaStep(s[..k], n, e, i)
    {
      assert EmaStep(s, n, Ema(s, n), i);
    }
    EmaUnique(s[..k], n, e);
  }

  /** A flat price series has a flat EMA at that price. */
  lemma {:induction false} EmaConstant(s: seq<real>, n: nat, c: real, i: nat)
    requires n >= 1
    requires forall k :: 0 <= k < |s| ==> s[k] == c
    requires i < |s|
    ensures Ema(s, n)[i] == c
  {
    if i > 0 {
      EmaConstant(s, n, c, i - 1);
      assert EmaStep(s, n, Ema(s, n), i);
    }
  }

  lemma ConvexStep(a: real, x: real, y: real, lo: real, hi: real)
    requires 0.0 <= a <= 1.0
    requires lo <= x <= hi && lo <= y <= hi
    ensures lo <= a * x + (1.0 - a) * y <= hi
  {
    assert a * (x - lo) >= 0.0;
    assert (1.0 - a) * (y - lo) >= 0.0;
    assert a * (hi - x) >= 0.0;
    assert (1.0 - a) * (hi - y) >= 0.0;
  }

  /** The EMA never leaves the range of the closes it averages. */
  lemma {:induction false} EmaWithinRange(s: seq<real>, n: nat, lo: real, hi: real, i: nat)
    requires n >= 1
    requires forall k :: 0 <= k < |s| ==> lo <= s[k] <= hi
    requires i < |s|
    ensures lo <= Ema(s, n)[i] <= hi
  {
    if i > 0 {
      EmaWithinRange(s, n, lo, hi, i - 1);
      assert EmaStep(s, n, Ema(s, n), i);
      ConvexStep(Alpha(n), s[i], Ema(s, n)[i - 1], lo, hi);
    }
  }

  // ---------------------------------------------------------------------------
  // RSI
  // ---------------------------------------------------------------------------

  function GainAt(s: seq<real>, i: nat): (g: real)
    requires i < |s|
    ensures g >= 0.0
  {
    if i > 0 && s[i] - s[i - 1] > 0.0 then s[i] - s[i - 1] else 0.0
  }

  function LossAt(s: seq<real>, i: nat): (l: real)
    requires i < |s|
    ensures l >= 0.0
  {
    if i > 0 && s[i] - s[i - 1] < 0.0 then -(s[i] - s[i - 1]) else 0.0
  }

  /** `d.where(d > 0, 0)` for `d = s.diff()`: the first difference is NaN and the
      filter turns it into 0. */
  function Gains(s: seq<real>): (g: seq<real>)
    ensures |g| == |s|
    ensures forall i :: 0 <= i < |s| ==> g[i] == GainAt(s, i)
    ensures |s| > 0 ==> g[0] == 0.0
    ensures AllNonNegative(g)
  {
    seq(|s|, i requires 0 <= i < |s| => GainAt(s, i))
  }

  /** `-d.where(d < 0, 0)`: the size of each fall, 0 for the first bar. */
  function Losses(s: seq<real>): (l: seq<real>)
    ensures |l| == |s|
    ensures forall i :: 0 <= i < |s| ==> l[i] == LossAt(s, i)
    ensures |s| > 0 ==> l[0] == 0.0
    ensures AllNonNegative(l)
  {
    seq(|s|, i requires 0 <= i < |s| => LossAt(s, i))
  }

  /** Past the first bar, a gain and a loss split the close-to-close change: their
      difference is the change and at most one of them is non-zero. */
  lemma GainsLossesSplit(s: seq<real>, i: nat)
    requires 0 < i < |s|
    ensures Gains(s)[i] - Losses(s)[i] == s[i] - s[i - 1]
    ensures Gains(s)[i] * Losses(s)[i] == 0.0
  {
  }

  /** Guard added to the down-mean before dividing. */
  const RsEpsilon: real := 0.000000000001

  /** `100 - 100/(1 + up/(dn + 1e-12))`. Over the reals it lies in [0, 100) and is
      0 exactly when there were no gains. */
  function RsiValue(up: real, dn: real): (v: real)
    requires up >= 0.0 && dn >= 0.0
    ensures 0.0 <= v < 100.0
    ensures v == 0.0 <==> up == 0.0
    ensures v == 100.0 * up / (up + dn + RsEpsilon)
  {
    var rs := up / (dn + RsEpsilon);
    assert rs * (dn + RsEpsilon) == up;
    assert (1.0 + rs) * (dn + RsEpsilon) == up + dn + RsEpsilon;
    assert rs >= 0.0;
    assert rs == 0.0 <==> up == 0.0;
    var q := 100.0 / (1.0 + rs);
    assert q > 0.0;
    assert q * (1.0 + rs) == 100.0;
    assert q <= 100.0;
    assert q == 100.0 <==> rs == 0.0;
    100.0 - q
  }

  /** The RSI of one index, undefined when either mean is. */
  function RsiOf(up: Option<real>, dn: Option<real>): Option<real>
    requires up.Some? ==> up.value >= 0.0
    requires dn.Some? ==> dn.value >= 0.0
  {
    if up.Some? && dn.Some? then Some(RsiValue(up.value, dn.value)) else None
  }

  /** RSI over rolling means of gains and losses: defined exactly once `n` bars
      are available, always in [0, 100), and 0 exactly when the window had no gain. */
  function Rsi(s: seq<real>, n: nat): (r: seq<Option<real>>)
    requires n >= 1
    ensures |r| == |s|
    ensures forall i :: 0 <= i < |s| ==>
      r[i] == RsiOf(RollingMean(Gains(s), n)[i], RollingMean(Losses(s), n)[i])
    ensures forall i :: 0 <= i < |s| ==> (r[i].Some? <==> i >= n - 1)
    ensures forall i :: 0 <= i < |s| && r[i].Some? ==>
      0.0 <= r[i].value < 100.0 && (r[i].value == 0.0 <==> RollingMean(Gains(s), n)[i] == Some(0.0))
  {
    var up := RollingMean(Gains(s), n);
    var dn := RollingMean(Losses(s), n);
    seq(|s|, i requires 0 <= i < |s| => RsiOf(up[i], dn[i]))
  }

  /** With all closes equal there are no gains, so RSI is 0 (not 50). */
  lemma RsiFlat(s: seq<real>, n: nat, c: real)
    requires n >= 1
    requires forall k :: 0 <= k < |s| ==> s[k] == c
    ensures forall i :: n - 1 <= i < |s| ==> Rsi(s, n)[i] == Some(0.0)
  {
    var g := Gains(s);
    forall i | n - 1 <= i < |s|
      ensures Rsi(s, n)[i] == Some(0.0)
    {
      var w := g[i - n + 1..i + 1];
      SumConstant(w, 0.0);
      assert RollingMean(g, n)[i] == Some(0.0);
    }
  }

  // ---------------------------------------------------------------------------
  // ATR
  // ---------------------------------------------------------------------------

  function TrueRangeAt(bars: seq<Bar>, i: nat): real
    requires i < |bars|
  {
    var hl := Abs(bars[i].high - bars[i].low);
    if i == 0 then hl
    else Max(Max(hl, Abs(bars[i].high - bars[i - 1].close)), Abs(bars[i].low - bars[i - 1].close))
  }

  /** `t` is the largest of `x`, `y`, `z`. */
  predicate MaxOfThree(t: real, x: real, y: real, z: real)
  {
    t >= x && t >= y && t >= z && (t == x || t == y || t == z)
  }

  /** `t` is a true range for bar `i > 0`: the largest of its high-low range and
      the distances of its high and low from the previous close. */
  predicate IsTrueRange(bars: seq<Bar>, i: nat, t: real)
    requires 0 < i < |bars|
  {
    MaxOfThree(t, Abs(bars[i].high - bars[i].low),
               Abs(bars[i].high - bars[i - 1].close), Abs(bars[i].low - bars[i - 1].close))
  }

  /** Per-bar true range: the largest of the high-low range and the distances of
      high and low from the previous close. pandas' row-wise `max` skips the NaN
      previous close of the first bar, so its true range is just |high − low|. */
  function TrueRange(bars: seq<Bar>): (tr: seq<real>)
    ensures |tr| == |bars|
    ensures |bars| > 0 ==> tr[0] == Abs(bars[0].high - bars[0].low)
    ensures forall i {:trigger IsTrueRange(bars, i, tr[i])} :: 0 < i < |bars| ==> IsTrueRange(bars, i, tr[i])
    ensures AllNonNegative(tr)
  {
    var tr := seq(|bars|, i requires 0 <= i < |bars| => TrueRangeAt(bars, i));
    assert forall i :: 0 <= i < |bars| ==> tr[i] == TrueRangeAt(bars, i);
    assert forall i :: 0 <= i < |bars| ==> tr[i] >= Abs(bars[i].high - bars[i].low);
    tr
  }

  /** Between well-formed bars, a zero true range means the close did not move. */
  lemma TrueRangeZero(bars: seq<Bar>, i: nat)
    requires 0 < i < |bars|
    requires WellFormed(bars[i])
    requires TrueRange(bars)[i] == 0.0
    ensures bars[i].close == bars[i - 1].close
  {
    assert IsTrueRange(bars, i, TrueRange(bars)[i]);
  }

  /** A bar whose close differs from the previous close has a positive true range. */
  lemma TrueRangePositive(bars: seq<Bar>, i: nat)
    requires 0 < i < |bars|
    requires WellFormed(bars[i])
    requires bars[i].close != bars[i - 1].close
    ensures TrueRange(bars)[i] > 0.0
  {
    assert IsTrueRange(bars, i, TrueRange(bars)[i]);
  }

  /** `atr`: the rolling mean of the true range, undefined before `n` bars and
      never negative afterwards. */
  function Atr(bars: seq<Bar>, n: nat): (r: seq<Option<real>>)
    requires n >= 1
    ensures |r| == |bars|
    ensures forall i :: 0 <= i < |bars| ==> (r[i].Some? <==> i >= n - 1)
    ensures forall i :: 0 <= i < |bars| && r[i].Some? ==> r[i].value >= 0.0
    ensures forall i :: 0 <= i < |bars| ==> r[i] == WindowMean(TrueRange(bars), n, i)
  {
    RollingMean(TrueRange(bars), n)
  }

  /** A positive last value in a window of non-negative values makes its mean positive. */
  lemma RollingMeanPositive(xs: seq<real>, n: nat, i: nat)
    requires n >= 1
    requires n - 1 <= i < |xs|
    requires AllNonNegative(xs) && xs[i] > 0.0
    ensures RollingMean(xs, n)[i].value > 0.0
  {
    var w := xs[i - n + 1..i + 1];
    assert AllNonNegative(w);
    SumNonNegative(w);
    assert w[|w| - 1] == xs[i];
  }

  /** A bar with a positive true range makes the ATR ending at it positive. */
  lemma AtrPositive(bars: seq<Bar>, n: nat, i: nat)
    requires n >= 1
    requires n - 1 <= i < |bars|
    requires TrueRange(bars)[i] > 0.0
    ensures Atr(bars, n)[i].value > 0.0
  {
    RollingMeanPositive(TrueRange(bars), n, i);
  }
}
