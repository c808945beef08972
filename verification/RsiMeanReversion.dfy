/** The RSI mean reversion strategy with Wilder smoothing. */
module RsiMeanReversion {
  import opened Market
  import opened Reals

  datatype Wilder = Wilder(previous: Option<real>, seedGain: real, seedLoss: real, changes: nat,
                           avgGain: Option<real>, avgLoss: Option<real>)

  const NO_CHANGES := Wilder(None, 0.0, 0.0, 0, None, None)

  /** Averages of gains and losses are never negative. */
  predicate Wellformed(s: Wilder) {
    && s.seedGain >= 0.0 && s.seedLoss >= 0.0
    && (s.avgGain.Some? ==> s.avgGain.value >= 0.0)
    && (s.avgLoss.Some? ==> s.avgLoss.value >= 0.0)
  }

  type Smoothing = s: Wilder | Wellformed(s) witness NO_CHANGES

  /** The index is a percentage for every pair of averages, so neither of its divisions can fail. */
  function Rsi(avgGain: real, avgLoss: real): (r: real)
    requires avgGain >= 0.0 && avgLoss >= 0.0
    ensures 0.0 <= r <= 100.0
    ensures avgLoss == 0.0 ==> r == 100.0
  {
    if avgLoss == 0.0 then 100.0
    else
      var rs := avgGain / avgLoss;
      QuotientBound(avgGain, avgLoss);
      FractionBound(rs);
      100.0 - 100.0 / (1.0 + rs)
  }

  lemma FractionBound(rs: real)
    requires rs >= 0.0
    ensures 0.0 <= 100.0 / (1.0 + rs) <= 100.0
  {
    var q := 100.0 / (1.0 + rs);
    assert q * (1.0 + rs) == 100.0;
    if q > 100.0 {
      MulNonnegative(q, rs);
    }
  }

  function Smooth(period: nat, average: real, x: real): (r: real)
    requires period > 0 && average >= 0.0 && x >= 0.0
    ensures r >= 0.0
  {
    MulNonnegative(average, (period - 1) as real);
    QuotientBound(average * (period - 1) as real + x, period as real);
    (average * (period - 1) as real + x) / period as real
  }

  function Seeded(period: nat, total: real): (r: real)
    requires period > 0 && total >= 0.0
    ensures r >= 0.0
  {
    QuotientBound(total, period as real);
    total / period as real
  }

  function Decide(oversold: real, exitLevel: real, rsi: real, c: Candle, k: Context): Option<Signal>
    requires rsi >= 0.0
  {
    if k.position.None? && k.pending.None? && rsi < oversold then
      Some(Signal("", Long, (oversold - rsi) / oversold, c.time, MarketOrder, None, None))
    else if k.position == Some(Long) && !k.forcedCoverPending && rsi >= exitLevel then
      Some(Signal("", Short, 1.0, c.time, MarketOrder, None, None))
    else None
  }

  function Step(period: nat, oversold: real, exitLevel: real, s: Smoothing, c: Candle, k: Context): (Smoothing, Option<Signal>)
    requires period > 0
  {
    if s.previous.None? then (s.(previous := Some(c.adjClose)), None)
    else
      var change := c.adjClose - s.previous.value;
      var gain := if change > 0.0 then change else 0.0;
      var loss := if change < 0.0 then -change else 0.0;
      var counted := s.(previous := Some(c.adjClose), changes := s.changes + 1);
      if s.avgGain.None? || s.avgLoss.None? then
        var seeded := counted.(seedGain := s.seedGain + gain, seedLoss := s.seedLoss + loss);
        if seeded.changes < period then (seeded, None)
        else
          var g, l := Seeded(period, seeded.seedGain), Seeded(period, seeded.seedLoss);
          (seeded.(avgGain := Some(g), avgLoss := Some(l)), Decide(oversold, exitLevel, Rsi(g, l), c, k))
      else
        var g, l := Smooth(period, s.avgGain.value, gain), Smooth(period, s.avgLoss.value, loss);
        (counted.(avgGain := Some(g), avgLoss := Some(l)), Decide(oversold, exitLevel, Rsi(g, l), c, k))
  }

  class RsiStrategy {
    const period: nat
    const oversold: real
    const exitLevel: real
    var previous: Option<real>
    var seedGain: real
    var seedLoss: real
    var changes: nat
    var avgGain: Option<real>
    var avgLoss: Option<real>

    ghost function Contents(): Wilder
      reads this
    {
      Wilder(previous, seedGain, seedLoss, changes, avgGain, avgLoss)
    }

    ghost predicate Valid()
      reads this
    {
      period > 0 && Wellformed(Contents())
    }

    constructor (period: nat, oversold: real, exitLevel: real)
      requires period > 0
      ensures Valid() && Contents() == NO_CHANGES
      ensures this.period == period && this.oversold == oversold && this.exitLevel == exitLevel
    {
      this.period, this.oversold, this.exitLevel := period, oversold, exitLevel;
      previous, seedGain, seedLoss, changes, avgGain, avgLoss := None, 0.0, 0.0, 0, None, None;
    }

    method OnCandle(c: Candle, k: Context) returns (signal: Option<Signal>)
      requires Valid()
      modifies this
      ensures Valid()
      ensures Contents() == Step(period, oversold, exitLevel, old(Contents()), c, k).0
      ensures signal == Step(period, oversold, exitLevel, old(Contents()), c, k).1
    {
      if previous.None? {
        previous := Some(c.adjClose);
        return None;
      }
      var change := c.adjClose - previous.value;
      previous := Some(c.adjClose);
      var gain := if change > 0.0 then change else 0.0;
      var loss := if change < 0.0 then -change else 0.0;
      changes := changes + 1;
      if avgGain.None? || avgLoss.None? {
        seedGain := seedGain + gain;
        seedLoss := seedLoss + loss;
        if changes < period {
          return None;
        }
        avgGain := Some(Seeded(period, seedGain));
        avgLoss := Some(Seeded(period, seedLoss));
      } else {
        avgGain := Some(Smooth(period, avgGain.value, gain));
        avgLoss := Some(Smooth(period, avgLoss.value, loss));
      }
      signal := Decide(oversold, exitLevel, Rsi(avgGain.value, avgLoss.value), c, k);
    }
  }

  // ----- the rule in terms of the prices seen so far

  function Gain(prices: seq<real>, i: nat): real
    requires 0 < i < |prices|
  {
    if prices[i] - prices[i - 1] > 0.0 then prices[i] - prices[i - 1] else 0.0
  }

  function Loss(prices: seq<real>, i: nat): real
    requires 0 < i < |prices|
  {
    if prices[i] - prices[i - 1] < 0.0 then -(prices[i] - prices[i - 1]) else 0.0
  }

  /** The gains and the losses of the first `n` changes. */
  function Gains(prices: seq<real>, n: nat): (r: real)
    requires n < |prices| || n == 0
    ensures r >= 0.0
  {
    if n == 0 then 0.0 else Gains(prices, n - 1) + Gain(prices, n)
  }

  function Losses(prices: seq<real>, n: nat): (r: real)
    requires n < |prices| || n == 0
    ensures r >= 0.0
  {
    if n == 0 then 0.0 else Losses(prices, n - 1) + Loss(prices, n)
  }

  /** Wilder's average of the gains: the plain mean of the first `period` changes, then smoothed. */
  function GainAverage(period: nat, prices: seq<real>, n: nat): (r: real)
    requires 0 < period <= n < |prices|
    ensures r >= 0.0
  {
    if n == period then Seeded(period, Gains(prices, n)) else Smooth(period, GainAverage(period, prices, n - 1), Gain(prices, n))
  }

  function LossAverage(period: nat, prices: seq<real>, n: nat): (r: real)
    requires 0 < period <= n < |prices|
    ensures r >= 0.0
  {
    if n == period then Seeded(period, Losses(prices, n)) else Smooth(period, LossAverage(period, prices, n - 1), Loss(prices, n))
  }

  /** The state `s` is the one reached after the first `n` changes of the series. */
  ghost predicate Tracks(period: nat, prices: seq<real>, n: nat, s: Wilder)
    requires period > 0 && n < |prices|
  {
    && s.previous == Some(prices[n]) && s.changes == n
    && (n < period ==> s.avgGain.None? && s.avgLoss.None? && s.seedGain == Gains(prices, n) && s.seedLoss == Losses(prices, n))
    && (n >= period ==> s.avgGain == Some(GainAverage(period, prices, n)) && s.avgLoss == Some(LossAverage(period, prices, n)))
  }

  lemma {:induction false} NextPriceTracks(period: nat, oversold: real, exitLevel: real, prices: seq<real>, n: nat, s: Smoothing, c: Candle, k: Context)
    requires period > 0 && 0 < n < |prices| && Tracks(period, prices, n - 1, s) && c.adjClose == prices[n]
    ensures var (next, signal) := Step(period, oversold, exitLevel, s, c, k);
            Tracks(period, prices, n, next) && FollowsRule(period, oversold, exitLevel, prices, n, c, k, signal)
  {
    if n >= period {
      DecideReverts(oversold, exitLevel, Rsi(GainAverage(period, prices, n), LossAverage(period, prices, n)), c, k);
    }
  }

  /** Buy exactly when flat, idle and oversold, with the relative depth as strength; sell exactly when long and
      recovered; both at the market. */
  ghost predicate Reverts(oversold: real, exitLevel: real, rsi: real, c: Candle, k: Context, signal: Option<Signal>) {
    && (signal.Some? && signal.value.direction == Long <==> rsi < oversold && k.position.None? && k.pending.None?)
    && (signal.Some? && signal.value.direction == Short <==> rsi >= exitLevel && k.position == Some(Long) && !k.forcedCoverPending)
    && (signal.Some? && signal.value.direction == Long ==> signal.value.strength * oversold == oversold - rsi)
    && (signal.Some? ==> signal.value.kind == MarketOrder && signal.value.time == c.time)
  }

  lemma {:induction false} DecideReverts(oversold: real, exitLevel: real, rsi: real, c: Candle, k: Context)
    requires rsi >= 0.0
    ensures Reverts(oversold, exitLevel, rsi, c, k, Decide(oversold, exitLevel, rsi, c, k))
  {
  }

  /** Never before `period` changes, then by the index of the two averages. */
  ghost predicate FollowsRule(period: nat, oversold: real, exitLevel: real, prices: seq<real>, n: nat, c: Candle, k: Context, signal: Option<Signal>)
    requires period > 0 && n < |prices|
  {
    if n < period then signal.None?
    else Reverts(oversold, exitLevel, Rsi(GainAverage(period, prices, n), LossAverage(period, prices, n)), c, k, signal)
  }

  /** One bar with what the strategy was shown on it. */
  datatype Shown = Shown(candle: Candle, context: Context)

  function Prices(bars: seq<Shown>): seq<real> {
    seq(|bars|, i requires 0 <= i < |bars| => bars[i].candle.adjClose)
  }

  /** The state after a series of bars. */
  function After(period: nat, oversold: real, exitLevel: real, bars: seq<Shown>): Smoothing
    requires period > 0
  {
    if bars == [] then NO_CHANGES
    else
      var last := bars[|bars| - 1];
      Step(period, oversold, exitLevel, After(period, oversold, exitLevel, bars[..|bars| - 1]), last.candle, last.context).0
  }

  /** A longer series has the same averages at the same place. */
  lemma {:induction false} SamePrefix(period: nat, prices: seq<real>, more: seq<real>, n: nat)
    requires period > 0 && n < |prices| && prices <= more
    ensures Gains(more, n) == Gains(prices, n) && Losses(more, n) == Losses(prices, n)
    ensures n >= period ==> GainAverage(period, more, n) == GainAverage(period, prices, n) && LossAverage(period, more, n) == LossAverage(period, prices, n)
  {
    if n > 0 {
      SamePrefix(period, prices, more, n - 1);
    }
  }

  lemma {:induction false} AfterTracks(period: nat, oversold: real, exitLevel: real, bars: seq<Shown>)
    requires period > 0 && bars != []
    ensures Tracks(period, Prices(bars), |bars| - 1, After(period, oversold, exitLevel, bars))
  {
    var n, last := |bars| - 1, bars[|bars| - 1];
    if n > 0 {
      AfterTracks(period, oversold, exitLevel, bars[..n]);
      assert Prices(bars[..n]) <= Prices(bars);
      SamePrefix(period, Prices(bars[..n]), Prices(bars), n - 1);
      NextPriceTracks(period, oversold, exitLevel, Prices(bars), n, After(period, oversold, exitLevel, bars[..n]), last.candle, last.context);
    } else {
      assert bars[..0] == [];
    }
  }

  /** Over every series of bars, whatever the contexts were: the signal on the last bar follows the rule, with the
      averages of the price series itself. */
  lemma {:induction false} ReversionRule(period: nat, oversold: real, exitLevel: real, bars: seq<Shown>)
    requires period > 0 && bars != []
    ensures var n, last := |bars| - 1, bars[|bars| - 1];
            FollowsRule(period, oversold, exitLevel, Prices(bars), n, last.candle, last.context,
                        Step(period, oversold, exitLevel, After(period, oversold, exitLevel, bars[..n]), last.candle, last.context).1)
  {
    var n, last := |bars| - 1, bars[|bars| - 1];
    if n > 0 {
      AfterTracks(period, oversold, exitLevel, bars[..n]);
      assert Prices(bars[..n]) <= Prices(bars);
      SamePrefix(period, Prices(bars[..n]), Prices(bars), n - 1);
      NextPriceTracks(period, oversold, exitLevel, Prices(bars), n, After(period, oversold, exitLevel, bars[..n]), last.candle, last.context);
    } else {
      assert bars[..0] == [];
    }
  }

  ghost predicate IsMean(average: real, total: real, period: nat) {
    average * period as real == total
  }

  ghost predicate IsSmoothed(average: real, before: real, x: real, period: nat) {
    average * period as real == before * (period as real - 1.0) + x
  }

  lemma {:induction false} SeededIsMean(period: nat, total: real)
    requires period > 0 && total >= 0.0
    ensures IsMean(Seeded(period, total), total, period)
  {
  }

  lemma {:induction false} SmoothIsSmoothed(period: nat, average: real, x: real)
    requires period > 0 && average >= 0.0 && x >= 0.0
    ensures IsSmoothed(Smooth(period, average, x), average, x, period)
  {
    var total := average * (period - 1) as real + x;
    assert (total / period as real) * period as real == total;
  }

  /** Wilder's averages: the plain mean of the first `period` changes, then a `period`-th part of each new change. */
  lemma {:induction false} WilderAverages(period: nat, prices: seq<real>, n: nat)
    requires 0 < period <= n < |prices|
    ensures n == period ==> IsMean(GainAverage(period, prices, n), Gains(prices, n), period)
                            && IsMean(LossAverage(period, prices, n), Losses(prices, n), period)
    ensures n > period ==> IsSmoothed(GainAverage(period, prices, n), GainAverage(period, prices, n - 1), Gain(prices, n), period)
                           && IsSmoothed(LossAverage(period, prices, n), LossAverage(period, prices, n - 1), Loss(prices, n), period)
  {
    if n == period {
      SeededIsMean(period, Gains(prices, n));
      SeededIsMean(period, Losses(prices, n));
    } else {
      SmoothIsSmoothed(period, GainAverage(period, prices, n - 1), Gain(prices, n));
      SmoothIsSmoothed(period, LossAverage(period, prices, n - 1), Loss(prices, n));
    }
  }

  /** The index is the share of gains in all movement, in percent. */
  lemma {:induction false} RsiIsShareOfGains(g: real, l: real)
    requires g >= 0.0 && l > 0.0
    ensures Rsi(g, l) * (g + l) == 100.0 * g
  {
    var rs := g / l;
    QuotientBound(g, l);
    assert rs * l == g;
    var q := 100.0 / (1.0 + rs);
    assert q * (1.0 + rs) == 100.0;
    assert (1.0 + rs) * l == g + l;
    assert q * (g + l) == 100.0 * l by {
      assert q * ((1.0 + rs) * l) == (q * (1.0 + rs)) * l;
    }
  }
}
