/** No shipped strategy can ever sell short: a sell signal only answers an open long. */
module LongOnly {
  import opened Market
  import opened Broker
  import opened Ledger
  import opened Engine
  import opened EngineInvariant
  import opened Reals
  import Breakout
  import MaCrossover
  import RsiMeanReversion

  /** The strategy sells only what the context says is held long. */
  ghost predicate SellsOnlyLongs<S(!new)>(setup: Setup<S>) {
    forall x: S, c: Candle, k: Context ::
      var signal := setup.onCandle(x, c, k).1;
      signal.Some? && signal.value.direction.Short? ==> k.position == Some(Long)
  }

  /** Nothing is short or about to be: any position is long, and a pending sell closes it. */
  ghost predicate NeverShort<S>(s: State<S>) {
    && (s.book.positions != [] ==> s.book.positions[0].direction.Long?)
    && (s.pending.Some? && s.pending.value.order.direction.Short? ==> s.book.positions != [])
    && (s.pending.Some? ==> !s.pending.value.forcedCover)
  }

  lemma {:induction false} CommissionAtMostNotional(costs: Costs, o: Order, c: Candle)
    requires o.WellFormed() && c.Priced() && costs.Valid() && costs.commission <= 1.0
    requires Execute(costs, o, c).Some?
    ensures var f := Execute(costs, o, c).value; f.commission <= Notional(f.quantity, f.price)
  {
    FillIsAcceptable(costs, o, c);
    var f := Execute(costs, o, c).value;
    var notional := f.price * f.quantity as real;
    MulNonnegative(f.price, f.quantity as real);
    MulNonnegative(notional, 1.0 - costs.commission);
    Distribute(1.0, costs.commission, notional);
  }

  /** A fill keeps the account long or flat, and solvent if commission is at most the notional. */
  lemma {:induction false} LongFill(terms: Terms, a: Account, f: Fill)
    requires a.stake.Some? ==> a.stake.value.holding.direction.Long? && a.stake.value.collateral == 0.0
    requires f.direction.Short? <==> a.stake.Some?
    ensures var after := ScalarFill(terms, a, f);
            && (after.stake.Some? ==> after.stake.value.holding.direction.Long? && after.stake.value.collateral == 0.0)
            && (a.cash >= 0.0 && f.commission <= Notional(f.quantity, f.price) ==> after.cash >= 0.0)
  {
  }

  lemma {:induction false} FilledStaysLong<S>(setup: Setup<S>, s: State<S>, c: Candle)
    requires Sound(s) && ChargedTo(s.book, c.time) && c.Priced() && setup.costs.Valid()
    requires NeverShort(s)
    ensures FillPhase(setup, s, c).Ok?
    ensures var filled := FillPhase(setup, s, c).value;
            && NeverShort(filled)
            && (setup.costs.commission <= 1.0 && s.book.cash >= 0.0 ==> filled.book.cash >= 0.0)
  {
    FillPhaseKeeps(setup, s, c);
    if s.book.positions != [] {
      SoleBook(s.book);
    }
    if s.pending.Some? && Reached(s.pending.value.order, c) {
      var o := s.pending.value.order;
      FillsExactlyWhenReached(setup.costs, o, c);
      FillIsAcceptable(setup.costs, o, c);
      LongFill(setup.terms, AccountOf(s.book), Execute(setup.costs, o, c).value);
      if setup.costs.commission <= 1.0 {
        CommissionAtMostNotional(setup.costs, o, c);
      }
    }
  }

  lemma {:induction false} AnswerStaysLong<S(!new)>(setup: Setup<S>, s: State<S>, c: Candle)
    requires SellsOnlyLongs(setup) && Invariant(s, c) && NeverShort(s) && SignalPhase(setup, s, c).Ok?
    ensures NeverShort(SignalPhase(setup, s, c).value)
  {
    DrainOfMarket(setup, s, s.symbol, c);
    SignalPhaseKeeps(setup, s, c);
  }

  lemma {:induction false} BarStaysLong<S(!new)>(setup: Setup<S>, s: State<S>, prev: Option<Candle>, c: Candle)
    requires SellsOnlyLongs(setup) && NeverShort(s)
    requires c.Priced() && setup.costs.Valid()
    requires prev.None? ==> s == Start(setup)
    requires prev.Some? ==> Invariant(s, prev.value) && prev.value.time < c.time
    requires Executable(s) && Bar(setup, s, c, prev.None?).Ok?
    ensures var after := Bar(setup, s, c, prev.None?).value;
            && NeverShort(after)
            && (setup.costs.commission <= 1.0 && s.book.cash >= 0.0 ==> after.book.cash >= 0.0)
  {
    if prev.Some? {
      AccruePhaseKeeps(setup, s, prev.value, c);
    }
    var accrued := AccruePhase(setup, s, c, prev.None?).value;
    FillPhaseKeeps(setup, accrued, c);
    FilledStaysLong(setup, accrued, c);
    var filled := FillPhase(setup, accrued, c).value;
    MarkPhaseKeeps(filled, c);
    var marked := MarkPhase(filled, c);
    MarginPhaseKeeps(setup, marked, c);
    SignalPhaseKeeps(setup, marked, c);
    AnswerStaysLong(setup, marked, c);
  }

  /** The long-only theorem, for every strategy that sells only longs: no short is ever open or
      pending, no collateral is ever posted, no forced cover is ever queued, and with commission at
      most 100% neither cash nor equity is ever negative. */
  lemma {:induction false} NoShortIsEverOpened<S(!new)>(setup: Setup<S>, candles: seq<Candle>)
    requires Tradable(setup, candles) && SellsOnlyLongs(setup) && RunBars(setup, candles).Ok?
    ensures var s := RunBars(setup, candles).value;
            && NeverShort(s)
            && s.book.restricted == 0.0 && s.book.collateral == map[]
            && (setup.costs.commission <= 1.0 ==> s.book.cash >= 0.0 && Equity(s.book) >= 0.0)
  {
    RunKeepsInvariant(setup, candles);
    if candles != [] {
      var n := |candles| - 1;
      NoShortIsEverOpened(setup, candles[..n]);
      RunKeepsInvariant(setup, candles[..n]);
      var before := RunBars(setup, candles[..n]).value;
      BarStaysLong(setup, before, if n == 0 then None else Some(candles[n - 1]), candles[n]);
      LongBooks(RunBars(setup, candles).value.book, candles[n].close);
    }
  }

  lemma {:induction false} LongBooks(b: Book, close: real)
    requires Sole(b) && MarkedTo(b, close) && close > 0.0
    requires b.positions != [] ==> b.positions[0].direction.Long?
    ensures b.restricted == 0.0 && b.collateral == map[]
    ensures b.cash >= 0.0 ==> Equity(b) >= 0.0
  {
    if b.positions == [] {
      FlatBook(b);
    } else {
      SoleBook(b);
      MulNonnegative(b.positions[0].quantity as real, close);
      assert PositionValue(b.positions[..0], b.prices) == 0.0;
    }
  }

  // ----- the three shipped strategies

  /** The run succeeds and every state of it is long-only and solvent. */
  ghost predicate RunsLongOnly<S>(setup: Setup<S>, candles: seq<Candle>) {
    && RunBars(setup, candles).Ok?
    && var s := RunBars(setup, candles).value;
       && NeverShort(s)
       && s.book.restricted == 0.0
       && (setup.costs.commission <= 1.0 ==> s.book.cash >= 0.0 && Equity(s.book) >= 0.0)
  }

  function BreakoutSetup(terms: Terms, costs: Costs, symbol: Option<string>, size: (Signal, Book, real) -> int, lookback: nat): Setup<Breakout.Channel> {
    Setup(terms, costs, symbol, Breakout.EMPTY_CHANNEL, (s, c, k) => Breakout.Step(lookback, s, c, k), size)
  }

  lemma {:induction false} BreakoutIsLongOnly(terms: Terms, costs: Costs, symbol: Option<string>, size: (Signal, Book, real) -> int, lookback: nat, candles: seq<Candle>)
    requires Tradable(BreakoutSetup(terms, costs, symbol, size, lookback), candles)
    requires forall g: Signal, b: Book, p: real :: size(g, b, p) >= 1
    ensures RunsLongOnly(BreakoutSetup(terms, costs, symbol, size, lookback), candles)
  {
    var setup := BreakoutSetup(terms, costs, symbol, size, lookback);
    assert SellsOnlyLongs(setup) && Disciplined(setup);
    RunNeverFails(setup, candles);
    NoShortIsEverOpened(setup, candles);
  }

  function MaCrossoverSetup(terms: Terms, costs: Costs, symbol: Option<string>, size: (Signal, Book, real) -> int,
                            fast: nat, slow: nat, name: int -> string): Setup<MaCrossover.Averages> {
    Setup(terms, costs, symbol, MaCrossover.NO_AVERAGES, (s, c, k) => MaCrossover.Step(fast, slow, name, s, c, k), size)
  }

  lemma {:induction false} MaCrossoverIsLongOnly(terms: Terms, costs: Costs, symbol: Option<string>, size: (Signal, Book, real) -> int,
                                                 fast: nat, slow: nat, name: int -> string, candles: seq<Candle>)
    requires Tradable(MaCrossoverSetup(terms, costs, symbol, size, fast, slow, name), candles)
    requires forall g: Signal, b: Book, p: real :: size(g, b, p) >= 1
    ensures RunsLongOnly(MaCrossoverSetup(terms, costs, symbol, size, fast, slow, name), candles)
  {
    var setup := MaCrossoverSetup(terms, costs, symbol, size, fast, slow, name);
    assert SellsOnlyLongs(setup) && Disciplined(setup);
    RunNeverFails(setup, candles);
    NoShortIsEverOpened(setup, candles);
  }

  function RsiSetup(terms: Terms, costs: Costs, symbol: Option<string>, size: (Signal, Book, real) -> int,
                    period: nat, oversold: real, exitLevel: real): Setup<RsiMeanReversion.Smoothing>
    requires period > 0
  {
    var initial: RsiMeanReversion.Smoothing := RsiMeanReversion.NO_CHANGES;
    var step: (RsiMeanReversion.Smoothing, Candle, Context) -> (RsiMeanReversion.Smoothing, Option<Signal>) :=
      (s: RsiMeanReversion.Smoothing, c: Candle, k: Context) => RsiMeanReversion.Step(period, oversold, exitLevel, s, c, k);
    Setup(terms, costs, symbol, initial, step, size)
  }

  lemma {:induction false} RsiIsLongOnly(terms: Terms, costs: Costs, symbol: Option<string>, size: (Signal, Book, real) -> int,
                                         period: nat, oversold: real, exitLevel: real, candles: seq<Candle>)
    requires period > 0
    requires Tradable(RsiSetup(terms, costs, symbol, size, period, oversold, exitLevel), candles)
    requires forall g: Signal, b: Book, p: real :: size(g, b, p) >= 1
    ensures RunsLongOnly(RsiSetup(terms, costs, symbol, size, period, oversold, exitLevel), candles)
  {
    var setup := RsiSetup(terms, costs, symbol, size, period, oversold, exitLevel);
    assert SellsOnlyLongs(setup) && Disciplined(setup);
    RunNeverFails(setup, candles);
    NoShortIsEverOpened(setup, candles);
  }
}
