/** The Donchian channel breakout strategy. */
module Breakout {
  import opened Market
  import opened Windows

  datatype Channel = Channel(highs: seq<real>, lows: seq<real>, prevHigh: Option<real>, prevLow: Option<real>)

  const EMPTY_CHANNEL := Channel([], [], None, None)

  function Advance(lookback: nat, s: Channel, c: Candle): Channel {
    var full := |s.highs| >= lookback && s.highs != [] && s.lows != [];
    Channel(Push(s.highs, lookback, c.high), Push(s.lows, lookback, c.low),
            if full then Some(MaxOf(s.highs)) else s.prevHigh,
            if full then Some(MinOf(s.lows)) else s.prevLow)
  }

  function Decide(lookback: nat, s: Channel, c: Candle, k: Context): Option<Signal> {
    if |s.highs| < lookback || s.prevHigh.None? || s.prevLow.None? then None
    else if k.position.None? && k.pending.None? && c.close > s.prevHigh.value then
      Some(Signal("", Long, 1.0, c.time, StopOrder, None, s.prevHigh))
    else if k.position == Some(Long) && !k.forcedCoverPending && c.close < s.prevLow.value then
      Some(Signal("", Short, 1.0, c.time, MarketOrder, None, None))
    else None
  }

  function Step(lookback: nat, s: Channel, c: Candle, k: Context): (Channel, Option<Signal>) {
    var next := Advance(lookback, s, c);
    (next, Decide(lookback, next, c, k))
  }

  class BreakoutStrategy {
    const lookback: nat
    var highs: seq<real>
    var lows: seq<real>
    var prevHigh: Option<real>
    var prevLow: Option<real>

    ghost function Contents(): Channel
      reads this
    {
      Channel(highs, lows, prevHigh, prevLow)
    }

    /** The two windows are filled in step. */
    ghost predicate Valid()
      reads this
    {
      lookback > 0 && |highs| == |lows|
    }

    constructor (lookback: nat)
      requires lookback > 0
      ensures Valid() && this.lookback == lookback && Contents() == EMPTY_CHANNEL
    {
      this.lookback := lookback;
      highs, lows, prevHigh, prevLow := [], [], None, None;
    }

    method OnCandle(c: Candle, k: Context) returns (signal: Option<Signal>)
      requires Valid()
      modifies this
      ensures Valid()
      ensures Contents() == Step(lookback, old(Contents()), c, k).0
      ensures signal == Step(lookback, old(Contents()), c, k).1
    {
      if |highs| >= lookback {
        prevHigh := Some(MaxOf(highs));
        prevLow := Some(MinOf(lows));
      }
      highs := Push(highs, lookback, c.high);
      lows := Push(lows, lookback, c.low);
      if |highs| < lookback || prevHigh.None? || prevLow.None? {
        return None;
      }
      signal := None;
      if k.position.None? && k.pending.None? && c.close > prevHigh.value {
        signal := Some(Signal("", Long, 1.0, c.time, StopOrder, None, prevHigh));
      } else if k.position == Some(Long) && !k.forcedCoverPending && c.close < prevLow.value {
        signal := Some(Signal("", Short, 1.0, c.time, MarketOrder, None, None));
      }
    }
  }

  // ----- what the channel is, in terms of the bars seen so far

  function Highs(candles: seq<Candle>): seq<real> {
    seq(|candles|, i requires 0 <= i < |candles| => candles[i].high)
  }

  function Lows(candles: seq<Candle>): seq<real> {
    seq(|candles|, i requires 0 <= i < |candles| => candles[i].low)
  }

  function After(lookback: nat, candles: seq<Candle>): Channel {
    if candles == [] then EMPTY_CHANNEL
    else Advance(lookback, After(lookback, candles[..|candles| - 1]), candles[|candles| - 1])
  }

  lemma {:induction false} WindowsTrail(lookback: nat, candles: seq<Candle>)
    ensures After(lookback, candles).highs == Trailing(Highs(candles), lookback)
    ensures After(lookback, candles).lows == Trailing(Lows(candles), lookback)
  {
    if candles != [] {
      var n := |candles| - 1;
      WindowsTrail(lookback, candles[..n]);
      assert Highs(candles) == Highs(candles[..n]) + [candles[n].high];
      assert Lows(candles) == Lows(candles[..n]) + [candles[n].low];
      PushIsTrailing(Highs(candles[..n]), lookback, candles[n].high);
      PushIsTrailing(Lows(candles[..n]), lookback, candles[n].low);
    }
  }

  /** The levels compared with a bar are those of the preceding `lookback` bars, once there are so many. */
  lemma {:induction false} LevelsTrail(lookback: nat, candles: seq<Candle>)
    requires lookback > 0 && candles != []
    ensures var n, s := |candles| - 1, After(lookback, candles);
            && (n < lookback ==> s.prevHigh.None? && s.prevLow.None?)
            && (n >= lookback ==>
                  && s.prevHigh == Some(MaxOf(Trailing(Highs(candles[..n]), lookback)))
                  && s.prevLow == Some(MinOf(Trailing(Lows(candles[..n]), lookback))))
  {
    var n := |candles| - 1;
    WindowsTrail(lookback, candles[..n]);
    if 0 < n < lookback {
      LevelsTrail(lookback, candles[..n]);
    }
  }

  lemma MaxAbove(xs: seq<real>, x: real)
    requires xs != []
    ensures MaxOf(xs) < x <==> forall i :: 0 <= i < |xs| ==> xs[i] < x
  {
  }

  lemma MinBelow(xs: seq<real>, x: real)
    requires xs != []
    ensures x < MinOf(xs) <==> forall i :: 0 <= i < |xs| ==> x < xs[i]
  {
  }

  /** Buy, stop at the channel's high, exactly when flat, idle and the close is above every high in
      the channel; sell at the market exactly when long and the close is below every low in it. */
  ghost predicate ChannelRule(ready: bool, highs: seq<real>, lows: seq<real>, c: Candle, k: Context, signal: Option<Signal>) {
    && (signal.Some? && signal.value.direction == Long
        <==> ready && k.position.None? && k.pending.None? && forall i :: 0 <= i < |highs| ==> highs[i] < c.close)
    && (signal.Some? && signal.value.direction == Short
        <==> ready && k.position == Some(Long) && !k.forcedCoverPending && forall i :: 0 <= i < |lows| ==> c.close < lows[i])
    && (signal.Some? && signal.value.direction == Long ==>
          highs != [] && signal.value.kind == StopOrder && signal.value.stop == Some(MaxOf(highs)))
    && (signal.Some? && signal.value.direction == Short ==> signal.value.kind == MarketOrder)
    && (signal.Some? ==> signal.value.time == c.time)
  }

  lemma DecideFollowsRule(lookback: nat, s: Channel, highs: seq<real>, lows: seq<real>, c: Candle, k: Context)
    requires highs != [] && lows != [] && |s.highs| >= lookback
    requires s.prevHigh == Some(MaxOf(highs)) && s.prevLow == Some(MinOf(lows))
    ensures ChannelRule(true, highs, lows, c, k, Decide(lookback, s, c, k))
  {
    MaxAbove(highs, c.close);
    MinBelow(lows, c.close);
  }

  /** The rule in terms of the bars alone: the channel compared with the last bar is made of the
      preceding `lookback` bars, and there is no signal before there are so many. */
  lemma {:induction false} SignalRule(lookback: nat, candles: seq<Candle>, k: Context)
    requires lookback > 0 && candles != []
    ensures var n := |candles| - 1;
            ChannelRule(n >= lookback, Trailing(Highs(candles[..n]), lookback), Trailing(Lows(candles[..n]), lookback),
                        candles[n], k, Step(lookback, After(lookback, candles[..n]), candles[n], k).1)
  {
    var n := |candles| - 1;
    WindowsTrail(lookback, candles);
    LevelsTrail(lookback, candles);
    if n >= lookback {
      DecideFollowsRule(lookback, After(lookback, candles), Trailing(Highs(candles[..n]), lookback),
                        Trailing(Lows(candles[..n]), lookback), candles[n], k);
    }
  }
}
