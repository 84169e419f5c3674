/** The signal detector of `run_once`: an EMA-crossover entry filtered by RSI,
    with stop and take-profit placed from the ATR. */
module Signals {
  import opened Outcomes
  import opened Indicators

  const EmaSlow: nat := 50
  const RsiLen: nat := 14
  const AtrLen: nat := 14
  const RsiLong: real := 55.0
  const RsiShort: real := 45.0
  const AtrMul: real := 1.5
  const RewardRatio: real := 2.0

  /** The longest indicator window. */
  const LongestWindow: nat :=
    if EmaSlow >= RsiLen && EmaSlow >= AtrLen then EmaSlow
    else if RsiLen >= AtrLen then RsiLen
    else AtrLen

  /** Fewest bars the detector accepts: the longest indicator window plus two (52). */
  const MinBars: nat := LongestWindow + 2

  datatype Side = Long | Short

  datatype Detection =
    | InsufficientHistory
    | NoSignal
    | Signal(side: Side, entry: real, stop: real, tp: real)

  /** Long rule: the close crossed from at-or-below its EMA to above it, with strong momentum. */
  predicate LongRule(c0: real, c1: real, e0: real, e1: real, r1: real)
  {
    c0 <= e0 && c1 > e1 && r1 > RsiLong
  }

  /** Short rule: the close crossed from at-or-above its EMA to below it, with weak momentum. */
  predicate ShortRule(c0: real, c1: real, e0: real, e1: real, r1: real)
  {
    c0 >= e0 && c1 < e1 && r1 < RsiShort
  }

  /** The rules on the last two bars: `c0, e0` from the previous bar, `c1, e1, r1, a1`
      from the last one. */
  function Classify(c0: real, c1: real, e0: real, e1: real, r1: real, a1: real): (d: Detection)
    ensures d.Signal? || d == NoSignal
    ensures d.Signal? ==> d.entry == c1
    ensures d.Signal? && d.side == Long <==> LongRule(c0, c1, e0, e1, r1)
    ensures d.Signal? && d.side == Short <==> ShortRule(c0, c1, e0, e1, r1)
  {
    if LongRule(c0, c1, e0, e1, r1) then
      var entry := c1;
      var stop := entry - a1 * AtrMul;
      var risk := entry - stop;
      Signal(Long, entry, stop, entry + RewardRatio * risk)
    else if ShortRule(c0, c1, e0, e1, r1) then
      var entry := c1;
      var stop := entry + a1 * AtrMul;
      var risk := stop - entry;
      Signal(Short, entry, stop, entry - RewardRatio * risk)
    else
      NoSignal
  }

  /** A bar cannot cross above and below its EMA at once. */
  lemma RulesExclusive(c0: real, c1: real, e0: real, e1: real, r1: real)
    ensures !(LongRule(c0, c1, e0, e1, r1) && ShortRule(c0, c1, e0, e1, r1))
  {
  }

  /** Stop sits 1.5 ATR from entry on the losing side; the target is twice that
      distance on the winning side. A positive ATR orders the three levels strictly. */
  lemma SignalLevels(c0: real, c1: real, e0: real, e1: real, r1: real, a1: real)
    ensures var d := Classify(c0, c1, e0, e1, r1, a1);
      d.Signal? ==>
        (d.side == Long ==>
           d.stop == d.entry - AtrMul * a1 && d.tp - d.entry == RewardRatio * (d.entry - d.stop)) &&
        (d.side == Short ==>
           d.stop == d.entry + AtrMul * a1 && d.entry - d.tp == RewardRatio * (d.stop - d.entry)) &&
        (a1 > 0.0 && d.side == Long ==> d.stop < d.entry < d.tp) &&
        (a1 > 0.0 && d.side == Short ==> d.tp < d.entry < d.stop) &&
        (a1 >= 0.0 && d.side == Long ==> d.stop <= d.entry <= d.tp) &&
        (a1 >= 0.0 && d.side == Short ==> d.tp <= d.entry <= d.stop)
  {
  }

  /** The indicator values the rules read from the last two bars of a series. */
  datatype Snapshot = Snapshot(c0: real, c1: real, e0: real, e1: real, r1: real, a1: real)

  /** One step of the slow EMA: the previous value moved towards the new close. */
  function EmaNext(prev: real, c: real): real
  {
    Alpha(EmaSlow) * c + (1.0 - Alpha(EmaSlow)) * prev
  }

  /** The EMA of the close at the last two bars, one EMA step apart. */
  function LastEmas(bars: seq<Bar>): (e: (real, real))
    requires |bars| >= 2
    ensures e.0 == Ema(Closes(bars), EmaSlow)[|bars| - 2] && e.1 == Ema(Closes(bars), EmaSlow)[|bars| - 1]
    ensures e.1 == EmaNext(e.0, bars[|bars| - 1].close)
  {
    var closes := Closes(bars);
    var ema := Ema(closes, EmaSlow);
    var k := |bars| - 1;
    assert EmaStep(closes, EmaSlow, ema, k);
    (ema[k - 1], ema[k])
  }

  /** The RSI of the last bar, defined once `RsiLen` bars are available. */
  function LastRsi(bars: seq<Bar>): (r: real)
    requires |bars| >= RsiLen
    ensures Some(r) == Rsi(Closes(bars), RsiLen)[|bars| - 1]
  {
    Rsi(Closes(bars), RsiLen)[|bars| - 1].value
  }

  /** The ATR of the last bar, defined once `AtrLen` bars are available. */
  function LastAtr(bars: seq<Bar>): (a: real)
    requires |bars| >= AtrLen
    ensures Some(a) == Atr(bars, AtrLen)[|bars| - 1] && a >= 0.0
  {
    Atr(bars, AtrLen)[|bars| - 1].value
  }

  function LastTwo(bars: seq<Bar>): (t: Snapshot)
    requires |bars| >= MinBars
    ensures t.c0 == bars[|bars| - 2].close && t.c1 == bars[|bars| - 1].close
    ensures t.e0 == Ema(Closes(bars), EmaSlow)[|bars| - 2] && t.e1 == Ema(Closes(bars), EmaSlow)[|bars| - 1]
    ensures t.e1 == EmaNext(t.e0, t.c1)
    ensures Some(t.a1) == Atr(bars, AtrLen)[|bars| - 1] && t.a1 >= 0.0
    ensures Some(t.r1) == Rsi(Closes(bars), RsiLen)[|bars| - 1]
  {
    var e := LastEmas(bars);
    Snapshot(bars[|bars| - 2].close, bars[|bars| - 1].close, e.0, e.1, LastRsi(bars), LastAtr(bars))
  }

  /** The detector over a whole candle series: the history guard, then the rules
      on the indicator values of the last two bars. */
  function Detect(bars: seq<Bar>): (d: Detection)
    ensures d == InsufficientHistory <==> |bars| < MinBars
    ensures d.Signal? ==> d.entry == bars[|bars| - 1].close
    ensures (d.Signal? && d.side == Long) <==>
      (|bars| >= MinBars &&
       LongRule(bars[|bars| - 2].close, bars[|bars| - 1].close,
                Ema(Closes(bars), EmaSlow)[|bars| - 2], Ema(Closes(bars), EmaSlow)[|bars| - 1],
                Rsi(Closes(bars), RsiLen)[|bars| - 1].value))
    ensures (d.Signal? && d.side == Short) <==>
      (|bars| >= MinBars &&
       ShortRule(bars[|bars| - 2].close, bars[|bars| - 1].close,
                 Ema(Closes(bars), EmaSlow)[|bars| - 2], Ema(Closes(bars), EmaSlow)[|bars| - 1],
                 Rsi(Closes(bars), RsiLen)[|bars| - 1].value))
    ensures d.Signal? ==>
      |bars| >= MinBars &&
      (d.side == Long ==> d.stop == d.entry - AtrMul * LastAtr(bars)) &&
      (d.side == Short ==> d.stop == d.entry + AtrMul * LastAtr(bars)) &&
      (d.side == Long ==> d.tp - d.entry == RewardRatio * (d.entry - d.stop)) &&
      (d.side == Short ==> d.entry - d.tp == RewardRatio * (d.stop - d.entry))
  {
    if |bars| < MinBars then InsufficientHistory
    else
      var t := LastTwo(bars);
      Classify(t.c0, t.c1, t.e0, t.e1, t.r1, t.a1)
  }

  /** On a flat close with a non-negative EMA gap, the EMA cannot be crossed. */
  lemma NoCrossWithoutMove(c: real, e0: real)
    ensures var e1 := Alpha(EmaSlow) * c + (1.0 - Alpha(EmaSlow)) * e0;
      (c <= e0 ==> !(c > e1)) && (c >= e0 ==> !(c < e1))
  {
  }

  /** A signal on the EMA's own step needs the last close to differ from the previous one. */
  lemma SignalNeedsMove(c0: real, c1: real, e0: real, e1: real, r1: real, a1: real)
    requires e1 == EmaNext(e0, c1)
    requires Classify(c0, c1, e0, e1, r1, a1).Signal?
    ensures c1 != c0
  {
    NoCrossWithoutMove(c1, e0);
  }

  /** On well-formed candles every signal has stop and target strictly on either
      side of the entry: a crossover needs the last close to move, a moving close
      gives the last bar a positive true range, and so the ATR is positive. */
  lemma SignalStrictlyOrdered(bars: seq<Bar>)
    requires forall i :: 0 <= i < |bars| ==> WellFormed(bars[i])
    ensures var d := Detect(bars);
      d.Signal? ==>
        (d.side == Long ==> d.stop < d.entry < d.tp) &&
        (d.side == Short ==> d.tp < d.entry < d.stop)
  {
    var d := Detect(bars);
    if d.Signal? {
      var t := LastTwo(bars);
      assert d == Classify(t.c0, t.c1, t.e0, t.e1, t.r1, t.a1);
      assert t.a1 > 0.0 by {
        var k := |bars| - 1;
        SignalNeedsMove(t.c0, t.c1, t.e0, t.e1, t.r1, t.a1);
        TrueRangePositive(bars, k);
        AtrPositive(bars, AtrLen, k);
      }
      SignalLevels(t.c0, t.c1, t.e0, t.e1, t.r1, t.a1);
    }
  }
}
