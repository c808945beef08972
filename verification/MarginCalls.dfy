/** Margin calls over whole runs: the collateral behind a short, when the engine forces a cover, and what the cover
    does. */
module MarginCalls {
  import opened Market
  import opened Broker
  import opened Ledger
  import opened LedgerLaws
  import opened Engine
  import opened EngineInvariant
  import opened EngineRuns
  import opened Reals

  // ----- collateral

  ghost predicate StakeSecured(terms: Terms, a: Account) {
    a.stake.Some? ==>
      var h := a.stake.value.holding;
      a.stake.value.collateral == if h.direction.Short? then terms.initialMargin * (h.quantity as real * h.entryPrice) else 0.0
  }

  lemma {:induction false} BarKeepsStake(terms: Terms, costs: Costs, a: Account, order: Option<Order>, prev: Option<Candle>, c: Candle)
    requires StakeSecured(terms, a) && (order.Some? ==> order.value.WellFormed())
    ensures StakeSecured(terms, ScalarBar(terms, costs, a, order, prev, c))
  {
  }

  /** After every bar of every run the restricted cash is the initial margin on the open short's entry value, and
      nothing while there is no short. */
  lemma {:induction false} CollateralIsInitialMargin<S>(setup: Setup<S>, candles: seq<Candle>)
    requires Tradable(setup, candles) && RunBars(setup, candles).Ok?
    ensures var b := RunBars(setup, candles).value.book;
            b.restricted == if b.positions != [] && b.positions[0].direction.Short?
                            then setup.terms.initialMargin * (b.positions[0].quantity as real * b.positions[0].entryPrice) else 0.0
  {
    RunKeepsStake(setup, candles);
    RunKeepsInvariant(setup, candles);
    var b := RunBars(setup, candles).value.book;
    if candles != [] && b.positions == [] {
      FlatBook(b);
    }
  }

  lemma {:induction false} RunKeepsStake<S>(setup: Setup<S>, candles: seq<Candle>)
    requires Tradable(setup, candles) && RunBars(setup, candles).Ok?
    ensures StakeSecured(setup.terms, AccountOf(RunBars(setup, candles).value.book))
  {
    if candles != [] {
      var n := |candles| - 1;
      RunKeepsStake(setup, candles[..n]);
      RunKeepsInvariant(setup, candles[..n]);
      var before := RunBars(setup, candles[..n]).value;
      var prev := if n == 0 then None else Some(candles[n - 1]);
      BarKeeps(setup, before, prev, candles[n]);
      BarKeepsStake(setup.terms, setup.costs, AccountOf(before.book),
                    if before.pending.None? then None else Some(before.pending.value.order), prev, candles[n]);
    }
  }

  // ----- the call

  /** The sole position is a short, and cash plus collateral less the cost of buying it back at this price is under
      the maintenance margin on that cost. */
  ghost predicate Underwater(terms: Terms, b: Book, price: real) {
    && |b.positions| == 1 && b.positions[0].direction.Short?
    && var cost := b.positions[0].quantity as real * price;
       b.cash + b.restricted - cost < terms.maintenanceMargin * cost
  }

  lemma {:induction false} BreachedMeansUnderwater(terms: Terms, b: Book, close: real)
    requires Sole(b) && MarkedTo(b, close) && close > 0.0
    ensures Breached(terms, b) <==> Underwater(terms, b, close)
  {
    if b.positions != [] {
      SoleBook(b);
      var h := b.positions[0];
      assert b.positions[..0] == [] && PositionValue(b.positions[..0], b.prices) == 0.0;
      assert Marked(b.prices, h) == close;
      var cost := h.quantity as real * close;
      MulPositive(h.quantity as real, close);
      if h.direction.Short? {
        assert Equity(b) == b.cash + b.restricted - cost;
        QuotientUnder(b.cash + b.restricted - cost, cost, terms.maintenanceMargin);
      }
    }
  }

  /** What the phases before the signal leave behind. */
  lemma {:induction false} CheckedState<S>(setup: Setup<S>, s: State<S>, prev: Option<Candle>, c: Candle) returns (checked: State<S>)
    requires c.Priced() && setup.costs.Valid() && Executable(s)
    requires prev.None? ==> s == Start(setup)
    requires prev.Some? ==> Invariant(s, prev.value) && prev.value.time < c.time
    ensures Bar(setup, s, c, prev.None?) == SignalPhase(setup, checked, c)
    ensures Invariant(checked, c) && checked.strategy == s.strategy
    ensures Underwater(setup.terms, checked.book, c.close) ==>
              checked.pending.Some? && checked.pending.value.forcedCover
              && checked.pending.value.order
                 == Order(s.nextId, checked.book.positions[0].symbol, Long, checked.book.positions[0].quantity, MarketOrder, None, None, c.time)
    ensures !Underwater(setup.terms, checked.book, c.close) ==> checked.nextId == s.nextId && Leaves(s.pending, checked.pending, c)
  {
    if prev.Some? {
      AccruePhaseKeeps(setup, s, prev.value, c);
    }
    var accrued := AccruePhase(setup, s, c, prev.None?).value;
    FillPhaseKeeps(setup, accrued, c);
    FillPhaseKeepsIds(setup, accrued, c);
    var filled := FillPhase(setup, accrued, c).value;
    MarkPhaseKeeps(filled, c);
    var marked := MarkPhase(filled, c);
    MarginPhaseKeeps(setup, marked, c);
    BreachedMeansUnderwater(setup.terms, marked.book, c.close);
    checked := MarginPhase(setup, marked, c).value;
  }

  /** A forced cover is pending after a bar exactly when, at that bar's close, the account no longer covers the
      short, whatever else was pending or signalled; it buys back the whole position at the market. */
  lemma {:induction false} BreachQueuesCover<S>(setup: Setup<S>, candles: seq<Candle>)
    requires Tradable(setup, candles) && candles != [] && RunBars(setup, candles).Ok?
    ensures var s := RunBars(setup, candles).value;
            var c := candles[|candles| - 1];
            && ((s.pending.Some? && s.pending.value.forcedCover) <==> Underwater(setup.terms, s.book, c.close))
            && (Underwater(setup.terms, s.book, c.close) ==>
                  var o := s.pending.value.order;
                  && o.symbol == s.book.positions[0].symbol && o.quantity == s.book.positions[0].quantity
                  && o.direction == Long && o.kind == MarketOrder && o.createdAt == c.time)
  {
    var n := |candles| - 1;
    RunKeepsInvariant(setup, candles[..n]);
    var before := RunBars(setup, candles[..n]).value;
    var checked := CheckedState(setup, before, if n == 0 then None else Some(candles[n - 1]), candles[n]);
    SignalPhaseKeeps(setup, checked, candles[n]);
  }

  // ----- the cover

  /** The only execution of the bar is the cover: exact quantity, slipped open, accepted, flat; the account keeps
      what cash and collateral leave after the bar's borrow fee, the purchase and its commission. */
  ghost predicate Covered<S>(setup: Setup<S>, before: Book, after: Book, prev: Candle, c: Candle)
    requires before.positions != []
  {
    var h := before.positions[0];
    && after.positions == [] && after.restricted == 0.0
    && |after.trades| == |before.trades| + 1 && before.trades <= after.trades
    && var t := after.trades[|before.trades|];
       && t.symbol == h.symbol && t.direction == Short && t.quantity == h.quantity
       && t.entryPrice == h.entryPrice && t.entryTime == h.entryTime && t.exitTime == c.time
       && t.exitPrice == c.open * (1.0 + setup.costs.slippage)
       && t.commission == h.commission + t.exitPrice * h.quantity as real * setup.costs.commission
       && after.cash == before.cash - FeeDue(setup.terms, h.quantity, prev.close, prev.time, c.time) + before.restricted
                        - h.quantity as real * t.exitPrice - (t.commission - h.commission)
  }

  lemma {:induction false} CoveredIgnoresMarks<S>(setup: Setup<S>, before: Book, x: Book, y: Book, prev: Candle, c: Candle)
    requires before.positions != [] && Covered(setup, before, x, prev, c)
    requires y == x.(curve := y.curve, peak := y.peak, prices := y.prices)
    ensures Covered(setup, before, y, prev, c)
  {
  }

  /** Buying back a sole short. */
  lemma {:induction false} BuyBack(terms: Terms, b: Book, f: Fill)
    requires Sole(b) && b.positions != [] && b.positions[0].direction.Short?
    requires f.symbol == b.positions[0].symbol && f.direction == Long && f.quantity == b.positions[0].quantity
    requires f.price > 0.0 && f.commission >= 0.0
    ensures RecordFill(terms, b, f).Ok?
    ensures var after, h := RecordFill(terms, b, f).value.0, b.positions[0];
            && after.positions == [] && after.restricted == 0.0
            && after.trades == b.trades + [Trade(h.symbol, Short, h.entryPrice, h.quantity, h.entryTime, h.commission + f.commission, f.price, f.time)]
            && after.cash == b.cash + (b.restricted - f.quantity as real * f.price - f.commission)
  {
    SettleSole(terms, b, f);
    FlatBook(RecordFill(terms, b, f).value.0);
  }

  lemma {:induction false} CoverFills<S>(setup: Setup<S>, s: State<S>, prev: Candle, c: Candle)
    requires Invariant(s, prev) && prev.time < c.time && c.Priced() && setup.costs.Valid() && Executable(s)
    requires |s.book.positions| == 1 && s.book.positions[0].direction.Short?
    requires s.pending.Some? && s.pending.value.order.direction == Long && s.pending.value.order.kind == MarketOrder
    requires s.pending.value.order.quantity == s.book.positions[0].quantity
    ensures AccruePhase(setup, s, c, false).Ok? && Executable(AccruePhase(setup, s, c, false).value)
    ensures var filled := FillPhase(setup, AccruePhase(setup, s, c, false).value, c);
            filled.Ok? && Covered(setup, s.book, filled.value.book, prev, c)
  {
    AccruePhaseKeeps(setup, s, prev, c);
    var accrued := AccruePhase(setup, s, c, false).value;
    var o := s.pending.value.order;
    FillIsAcceptable(setup.costs, o, c);
    FillIsExact(setup.costs, o, c);
    var f := Execute(setup.costs, o, c).value;
    DrainOfFill(setup, accrued, f, c);
    BuyBack(setup.terms, accrued.book, f);
    var after := RecordFill(setup.terms, accrued.book, f).value.0;
    assert Covered(setup, s.book, after, prev, c);
  }

  /** On the bar after the account stopped covering the short the only execution is the forced cover, for the exact
      quantity, at the slipped open; it is always accepted and the book is flat, with no collateral left. */
  lemma {:induction false} BreachIsCovered<S>(setup: Setup<S>, candles: seq<Candle>)
    requires Tradable(setup, candles) && |candles| >= 2 && RunBars(setup, candles).Ok?
    requires RunBars(setup, candles[..|candles| - 1]).Ok?
    requires Underwater(setup.terms, RunBars(setup, candles[..|candles| - 1]).value.book, candles[|candles| - 2].close)
    ensures Covered(setup, RunBars(setup, candles[..|candles| - 1]).value.book, RunBars(setup, candles).value.book,
                    candles[|candles| - 2], candles[|candles| - 1])
  {
    var n := |candles| - 1;
    var s, c := RunBars(setup, candles[..n]).value, candles[n];
    BreachQueuesCover(setup, candles[..n]);
    RunKeepsInvariant(setup, candles[..n]);
    CoverFills(setup, s, candles[n - 1], c);
    var filled := FillPhase(setup, AccruePhase(setup, s, c, false).value, c).value;
    var marked := MarkPhase(filled, c);
    MarginPhaseLeavesBooks(setup, marked, c);
    SignalPhaseLeavesBooks(setup, MarginPhase(setup, marked, c).value, c);
    CoveredIgnoresMarks(setup, s.book, filled.book, marked.book, candles[n - 1], c);
  }
}
