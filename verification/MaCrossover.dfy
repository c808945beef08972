/** The fast/slow moving average crossover strategy. */
module MaCrossover {
  import opened Market
  import opened Windows
  import opened Reals

  datatype Averages = Averages(fast: seq<real>, slow: seq<real>, prevFast: Option<real>, prevSlow: Option<real>)

  const NO_AVERAGES := Averages([], [], None, None)

  /** `name` stands for the date text that the signal carries as its symbol. */
  function Step(fastPeriod: nat, slowPeriod: nat, name: int -> string, s: Averages, c: Candle, k: Context): (Averages, Option<Signal>) {
    var fast := Push(s.fast, fastPeriod, c.adjClose);
    var slow := Push(s.slow, slowPeriod, c.adjClose);
    if |slow| < slowPeriod || fast == [] || slow == [] then (s.(fast := fast, slow := slow), None)
    else
      var fastMean, slowMean := Mean(fast), Mean(slow);
      var next := Averages(fast, slow, Some(fastMean), Some(slowMean));
      if s.prevFast.None? || s.prevSlow.None? then (next, None)
      else
        var wasAbove := s.prevFast.value > s.prevSlow.value;
        var isAbove := fastMean > slowMean;
        if !wasAbove && isAbove && k.position.None? && k.pending.None? then
          (next, Some(Signal(name(c.time), Long, 1.0, c.time, MarketOrder, None, None)))
        else if wasAbove && !isAbove && k.position == Some(Long) && !k.forcedCoverPending then
          (next, Some(Signal(name(c.time), Short, 1.0, c.time, MarketOrder, None, None)))
        else (next, None)
  }

  class MaCrossoverStrategy {
    const fastPeriod: nat
    const slowPeriod: nat
    const name: int -> string
    var fast: seq<real>
    var slow: seq<real>
    var prevFast: Option<real>
    var prevSlow: Option<real>

    ghost function Contents(): Averages
      reads this
    {
      Averages(fast, slow, prevFast, prevSlow)
    }

    constructor (fastPeriod: nat, slowPeriod: nat, name: int -> string)
      requires 0 < fastPeriod < slowPeriod
      ensures this.fastPeriod == fastPeriod && this.slowPeriod == slowPeriod && this.name == name
      ensures Contents() == NO_AVERAGES
    {
      this.fastPeriod, this.slowPeriod, this.name := fastPeriod, slowPeriod, name;
      fast, slow, prevFast, prevSlow := [], [], None, None;
    }

    method OnCandle(c: Candle, k: Context) returns (signal: Option<Signal>)
      requires 0 < fastPeriod < slowPeriod
      modifies this
      ensures Contents() == Step(fastPeriod, slowPeriod, name, old(Contents()), c, k).0
      ensures signal == Step(fastPeriod, slowPeriod, name, old(Contents()), c, k).1
    {
      fast := Push(fast, fastPeriod, c.adjClose);
      slow := Push(slow, slowPeriod, c.adjClose);
      if |slow| < slowPeriod {
        return None;
      }
      var fastMean := Mean(fast);
      var slowMean := Mean(slow);
      signal := None;
      if prevFast.Some? && prevSlow.Some? {
        var wasAbove := prevFast.value > prevSlow.value;
        var isAbove := fastMean > slowMean;
        if !wasAbove && isAbove && k.position.None? && k.pending.None? {
          signal := Some(Signal(name(c.time), Long, 1.0, c.time, MarketOrder, None, None));
        } else if wasAbove && !isAbove && k.position == Some(Long) && !k.forcedCoverPending {
          signal := Some(Signal(name(c.time), Short, 1.0, c.time, MarketOrder, None, None));
        }
      }
      prevFast, prevSlow := Some(fastMean), Some(slowMean);
    }
  }

  // ----- the rule in terms of the prices seen so far

  /** The state after a series of adjusted closes. */
  function After(fastPeriod: nat, slowPeriod: nat, prices: seq<real>): Averages {
    if prices == [] then NO_AVERAGES
    else
      var s, x := After(fastPeriod, slowPeriod, prices[..|prices| - 1]), prices[|prices| - 1];
      var fast, slow := Push(s.fast, fastPeriod, x), Push(s.slow, slowPeriod, x);
      if |slow| < slowPeriod || fast == [] || slow == [] then s.(fast := fast, slow := slow)
      else Averages(fast, slow, Some(Mean(fast)), Some(Mean(slow)))
  }

  lemma {:induction false} StepFollows(fastPeriod: nat, slowPeriod: nat, name: int -> string, prices: seq<real>, c: Candle, k: Context)
    ensures Step(fastPeriod, slowPeriod, name, After(fastPeriod, slowPeriod, prices), c, k).0
            == After(fastPeriod, slowPeriod, prices + [c.adjClose])
  {
    assert (prices + [c.adjClose])[..|prices|] == prices;
  }

  lemma {:induction false} AveragesTrail(fastPeriod: nat, slowPeriod: nat, prices: seq<real>)
    ensures After(fastPeriod, slowPeriod, prices).fast == Trailing(prices, fastPeriod)
    ensures After(fastPeriod, slowPeriod, prices).slow == Trailing(prices, slowPeriod)
  {
    if prices != [] {
      var n := |prices| - 1;
      AveragesTrail(fastPeriod, slowPeriod, prices[..n]);
      assert prices == prices[..n] + [prices[n]];
      PushIsTrailing(prices[..n], fastPeriod, prices[n]);
      PushIsTrailing(prices[..n], slowPeriod, prices[n]);
    }
  }

  /** The remembered means are those of the current windows, once the slow one is full. */
  ghost predicate Remembers(slowPeriod: nat, s: Averages) {
    && (|s.slow| < slowPeriod ==> s.prevFast.None? && s.prevSlow.None?)
    && (|s.slow| >= slowPeriod && s.fast != [] && s.slow != [] ==> s.prevFast == Some(Mean(s.fast)) && s.prevSlow == Some(Mean(s.slow)))
  }

  lemma {:induction false} AfterRemembers(fastPeriod: nat, slowPeriod: nat, prices: seq<real>)
    requires 0 < fastPeriod < slowPeriod
    ensures Remembers(slowPeriod, After(fastPeriod, slowPeriod, prices))
  {
    if prices != [] {
      var n := |prices| - 1;
      AfterRemembers(fastPeriod, slowPeriod, prices[..n]);
      AveragesTrail(fastPeriod, slowPeriod, prices[..n]);
    }
  }

  /** The fast mean of the series is above its slow mean. */
  predicate Above(fastPeriod: nat, slowPeriod: nat, prices: seq<real>)
    requires 0 < fastPeriod < slowPeriod && prices != []
  {
    Higher(Trailing(prices, fastPeriod), Trailing(prices, slowPeriod))
  }

  predicate Higher(fast: seq<real>, slow: seq<real>)
    requires fast != [] && slow != []
  {
    Sum(fast) * |slow| as real > Sum(slow) * |fast| as real
  }

  lemma {:induction false} HigherMean(fast: seq<real>, slow: seq<real>)
    requires fast != [] && slow != []
    ensures Higher(fast, slow) <==> Mean(fast) > Mean(slow)
  {
    QuotientsCompare(Sum(fast), |fast| as real, Sum(slow), |slow| as real);
  }

  /** Both signals are market orders of the bar. */
  ghost predicate Crosses(was: bool, now: bool, c: Candle, k: Context, signal: Option<Signal>) {
    && (signal.Some? && signal.value.direction == Long <==> !was && now && k.position.None? && k.pending.None?)
    && (signal.Some? && signal.value.direction == Short <==> was && !now && k.position == Some(Long) && !k.forcedCoverPending)
    && (signal.Some? ==> signal.value.kind == MarketOrder && signal.value.time == c.time)
  }

  lemma {:induction false} StepCrosses(fastPeriod: nat, slowPeriod: nat, name: int -> string, s: Averages, c: Candle, k: Context)
    requires 0 < fastPeriod < slowPeriod && Remembers(slowPeriod, s)
    ensures var signal := Step(fastPeriod, slowPeriod, name, s, c, k).1;
            if |s.slow| >= slowPeriod && s.fast != []
            then Crosses(Higher(s.fast, s.slow), Higher(Push(s.fast, fastPeriod, c.adjClose), Push(s.slow, slowPeriod, c.adjClose)), c, k, signal)
            else s.fast == [] || signal.None?
  {
    if s.fast != [] && s.slow != [] {
      HigherMean(s.fast, s.slow);
    }
    HigherMean(Push(s.fast, fastPeriod, c.adjClose), Push(s.slow, slowPeriod, c.adjClose));
  }

  /** After any series of closes, whatever the contexts were: buy exactly when flat and idle on an upward crossing of
      the two means, sell exactly when long on a downward one; no crossing is seen before the slow window was full
      one bar earlier; and the next state is again that of the series. */
  lemma {:induction false} CrossRule(fastPeriod: nat, slowPeriod: nat, name: int -> string, prices: seq<real>, c: Candle, k: Context)
    requires 0 < fastPeriod < slowPeriod
    ensures var (next, signal) := Step(fastPeriod, slowPeriod, name, After(fastPeriod, slowPeriod, prices), c, k);
            && next == After(fastPeriod, slowPeriod, prices + [c.adjClose])
            && if |prices| >= slowPeriod
               then Crosses(Above(fastPeriod, slowPeriod, prices), Above(fastPeriod, slowPeriod, prices + [c.adjClose]), c, k, signal)
               else signal.None?
  {
    AveragesTrail(fastPeriod, slowPeriod, prices);
    AfterRemembers(fastPeriod, slowPeriod, prices);
    PushIsTrailing(prices, fastPeriod, c.adjClose);
    PushIsTrailing(prices, slowPeriod, c.adjClose);
    StepCrosses(fastPeriod, slowPeriod, name, After(fastPeriod, slowPeriod, prices), c, k);
    StepFollows(fastPeriod, slowPeriod, name, prices, c, k);
  }
}
