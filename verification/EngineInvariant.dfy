/** The inductive invariant of the engine and the one-position scalar ledger it refines to. */
module EngineInvariant {
  import opened Market
  import opened Broker
  import opened Ledger
  import opened LedgerInvariant
  import opened LedgerLaws
  import opened Engine

  // ----- the invariant

  ghost predicate Sole(b: Book) {
    && Balanced(b)
    && |b.positions| <= 1
    && (b.positions != [] ==> b.positions[0].quantity > 0 && b.positions[0].entryPrice > 0.0)
  }

  /** An opening order while flat, else the exact opposite of the open position; a forced cover
      stands against a short only. */
  ghost predicate Admissible(b: Book, p: Pending) {
    && p.order.WellFormed()
    && (b.positions != [] ==>
          && p.order.symbol == b.positions[0].symbol
          && p.order.direction == b.positions[0].direction.Opposite()
          && p.order.quantity == b.positions[0].quantity)
    && (p.forcedCover ==> b.positions != [] && b.positions[0].direction.Short? && p.order.kind.MarketOrder?)
  }

  ghost predicate Sound<S>(s: State<S>) {
    && Sole(s.book)
    && (s.book.positions != [] ==> s.symbol == s.book.positions[0].symbol)
    && (s.pending.Some? ==> Admissible(s.book, s.pending.value) && s.pending.value.order.id < s.nextId)
    && s.forced == {}
  }

  /** An open short has been charged up to this instant. */
  ghost predicate ChargedTo(b: Book, time: int) {
    b.positions != [] && b.positions[0].direction.Short? ==>
      b.positions[0].symbol in b.lastBorrow && b.lastBorrow[b.positions[0].symbol] == time
  }

  ghost predicate MarkedTo(b: Book, close: real) {
    b.positions != [] ==> b.positions[0].symbol in b.prices && b.prices[b.positions[0].symbol] == close
  }

  /** The state between bars, `c` being the bar just processed. */
  ghost predicate Invariant<S>(s: State<S>, c: Candle) {
    Sound(s) && ChargedTo(s.book, c.time) && MarkedTo(s.book, c.close)
  }

  /** The assumptions on the market and the fee settings. */
  ghost predicate Tradable<S>(setup: Setup<S>, candles: seq<Candle>) {
    && setup.costs.Valid()
    && StrictlyIncreasing(candles)
    && forall i :: 0 <= i < |candles| ==> candles[i].Priced()
  }

  // ----- the scalar ledger

  datatype Stake = Stake(holding: Holding, collateral: real)

  datatype Account = Account(cash: real, stake: Option<Stake>)

  function AccountOf(b: Book): Account {
    Account(b.cash, if b.positions == [] then None else Some(Stake(b.positions[0], b.restricted)))
  }

  function Worth(a: Account, close: real): real {
    if a.stake.None? then a.cash
    else a.cash + a.stake.value.collateral + SignedValue(a.stake.value.holding, close)
  }

  function ScalarFee(terms: Terms, a: Account, price: real, from: int, to: int): real {
    if a.stake.Some? && a.stake.value.holding.direction.Short?
    then FeeDue(terms, a.stake.value.holding.quantity, price, from, to) else 0.0
  }

  function ScalarAccrue(terms: Terms, a: Account, price: real, from: int, to: int): Account {
    a.(cash := a.cash - ScalarFee(terms, a, price, from, to))
  }

  /** While flat a fill opens if cash allows; otherwise it settles the stake. */
  function ScalarFill(terms: Terms, a: Account, f: Fill): Account {
    var value := Notional(f.quantity, f.price);
    if a.stake.Some? then
      if f.direction.Short? then Account(a.cash + (value - f.commission), None)
      else Account(a.cash + (a.stake.value.collateral - value - f.commission), None)
    else
      var holding := Holding(f.symbol, f.direction, f.quantity, f.price, f.time, f.commission);
      if f.direction.Long? then
        if value + f.commission > a.cash then a
        else Account(a.cash - (value + f.commission), Some(Stake(holding, 0.0)))
      else
        var required := (terms.initialMargin - 1.0) * value + f.commission;
        if required > a.cash then a
        else Account(a.cash - required, Some(Stake(holding, terms.initialMargin * value)))
  }

  function ScalarBar(terms: Terms, costs: Costs, a: Account, order: Option<Order>, prev: Option<Candle>, c: Candle): Account
    requires order.Some? ==> order.value.WellFormed()
  {
    var charged := if prev.None? then a else ScalarAccrue(terms, a, prev.value.close, prev.value.time, c.time);
    if order.Some? && Execute(costs, order.value, c).Some?
    then ScalarFill(terms, charged, Execute(costs, order.value, c).value)
    else charged
  }

  // ----- one lemma per phase of the bar

  lemma SoleBook(b: Book)
    requires Sole(b) && b.positions != []
    ensures b.positions == [b.positions[0]]
    ensures b.positions[..0] == [] && b.positions[1..] == []
    ensures forall x :: IndexOf(b.positions, x) == if x == b.positions[0].symbol then 0 else -1
    ensures b.positions[0].direction.Short? ==> b.collateral.Keys == b.lastBorrow.Keys == {b.positions[0].symbol}
    ensures b.positions[0].direction.Long? ==> b.collateral.Keys == b.lastBorrow.Keys == {}
    ensures b.restricted == Posted(b.positions[0], b.collateral)
  {
    assert b.positions[..0] == [];
    assert ShortSymbols(b.positions[..0]) == {} && CollateralSum(b.positions[..0], b.collateral) == 0.0;
  }

  lemma FlatBook(b: Book)
    requires Sole(b) && b.positions == []
    ensures b.restricted == 0.0 && b.collateral == map[] && b.lastBorrow == map[]
  {
  }

  lemma AccruePhaseKeeps<S>(setup: Setup<S>, s: State<S>, prev: Candle, c: Candle)
    requires Invariant(s, prev) && prev.time < c.time
    ensures var r := AccruePhase(setup, s, c, false);
            && r.Ok?
            && Sound(r.value) && ChargedTo(r.value.book, c.time)
            && r.value == s.(book := r.value.book)
            && r.value.book == s.book.(cash := r.value.book.cash, lastBorrow := r.value.book.lastBorrow)
            && AccountOf(r.value.book) == ScalarAccrue(setup.terms, AccountOf(s.book), prev.close, prev.time, c.time)
  {
    AccrualKeepsBalance(setup.terms, s.book, c.time);
    if s.book.positions != [] {
      SoleBook(s.book);
      var h := s.book.positions[0];
      assert AccrualFault(s.book, [], c.time) == None && BorrowCharge(setup.terms, s.book, [], c.time) == 0.0;
      assert Restamp(s.book.lastBorrow, [], c.time) == s.book.lastBorrow;
      BorrowFeeIsDue(setup.terms, h.quantity, prev.close, prev.time, c.time);
    }
  }

  /** A fill against the open position settles it exactly and empties the book. */
  lemma SettleSole(terms: Terms, b: Book, f: Fill)
    requires Sole(b) && b.positions != []
    requires f.price > 0.0 && f.commission >= 0.0
    requires var h := b.positions[0];
             f.symbol == h.symbol && f.direction == h.direction.Opposite() && f.quantity == h.quantity
    ensures var r := RecordFill(terms, b, f);
            && r.Ok? && r.value.1.accepted
            && Sole(r.value.0) && r.value.0.positions == []
            && AccountOf(r.value.0) == ScalarFill(terms, AccountOf(b), f)
            && r.value.0.trades == b.trades + [Trade(f.symbol, b.positions[0].direction, b.positions[0].entryPrice, f.quantity,
                                                     b.positions[0].entryTime, b.positions[0].commission + f.commission, f.price, f.time)]
  {
    FillKeepsBalance(terms, b, f);
    SoleBook(b);
    assert b.positions[..0] + b.positions[1..] == [];
    assert IndexOf(b.positions, f.symbol) == 0;
  }

  /** A fill while flat opens one position, or is rejected and changes nothing. */
  lemma OpenSole(terms: Terms, b: Book, f: Fill)
    requires Sole(b) && b.positions == []
    requires f.price > 0.0 && f.commission >= 0.0 && f.quantity > 0
    ensures var r := RecordFill(terms, b, f);
            && r.Ok?
            && Sole(r.value.0)
            && r.value.0.trades == b.trades
            && (!r.value.1.accepted ==> r.value.0 == b)
            && (r.value.1.accepted ==>
                  && r.value.0.positions == [Holding(f.symbol, f.direction, f.quantity, f.price, f.time, f.commission)]
                  && ChargedTo(r.value.0, f.time))
            && AccountOf(r.value.0) == ScalarFill(terms, AccountOf(b), f)
  {
    FillKeepsBalance(terms, b, f);
    FlatBook(b);
    OpenFlat(terms, b, f);
  }

  lemma {:induction false} OpenFlat(terms: Terms, b: Book, f: Fill)
    requires b.positions == [] && b.restricted == 0.0
    ensures var (after, outcome) := OpenFill(terms, b, f);
            && after.trades == b.trades
            && (!outcome.accepted ==> after == b)
            && (outcome.accepted ==>
                  && after.positions == [Holding(f.symbol, f.direction, f.quantity, f.price, f.time, f.commission)]
                  && ChargedTo(after, f.time))
            && AccountOf(after) == ScalarFill(terms, AccountOf(b), f)
  {
    var holding := Holding(f.symbol, f.direction, f.quantity, f.price, f.time, f.commission);
    assert b.positions + [holding] == [holding];
  }

  lemma HandleFillKeeps<S>(setup: Setup<S>, s: State<S>, f: Fill)
    requires Sound(s) && s.pending.Some? && ChargedTo(s.book, f.time)
    requires f.price > 0.0 && f.commission >= 0.0
    requires var o := s.pending.value.order;
             f.symbol == o.symbol && f.direction == o.direction && f.quantity == o.quantity
    ensures var r := HandleFill(setup, s, f);
            && r.Ok?
            && Sound(r.value) && ChargedTo(r.value.book, f.time)
            && r.value == s.(book := r.value.book, symbol := r.value.symbol, pending := None)
            && AccountOf(r.value.book) == ScalarFill(setup.terms, AccountOf(s.book), f)
            && (s.book.positions != [] ==> r.value.book.positions == [])
  {
    if s.book.positions != [] {
      SettleSole(setup.terms, s.book, f);
    } else {
      OpenSole(setup.terms, s.book, f);
    }
  }

  lemma FillPhaseKeeps<S>(setup: Setup<S>, s: State<S>, c: Candle)
    requires Sound(s) && ChargedTo(s.book, c.time) && c.Priced() && setup.costs.Valid()
    ensures var r := FillPhase(setup, s, c);
            && r.Ok?
            && Sound(r.value) && ChargedTo(r.value.book, c.time)
            && r.value == s.(book := r.value.book, symbol := r.value.symbol, pending := r.value.pending)
            && (if s.pending.Some? && Reached(s.pending.value.order, c)
                then
                  && r.value.pending == None
                  && (s.book.positions != [] ==> r.value.book.positions == [])
                  && AccountOf(r.value.book)
                     == ScalarFill(setup.terms, AccountOf(s.book), Execute(setup.costs, s.pending.value.order, c).value)
                else r.value == s)
  {
    if s.pending.Some? {
      var o := s.pending.value.order;
      FillsExactlyWhenReached(setup.costs, o, c);
      if Reached(o, c) {
        FillIsAcceptable(setup.costs, o, c);
        var f := Execute(setup.costs, o, c).value;
        DrainOfFill(setup, s, f, c);
        HandleFillKeeps(setup, s, f);
      }
    }
  }

  /** Marking appends exactly one equity point, worth the scalar account at this bar's close. */
  lemma MarkPhaseKeeps<S>(s: State<S>, c: Candle)
    requires Sound(s) && ChargedTo(s.book, c.time)
    ensures var m := MarkPhase(s, c);
            && Invariant(m, c)
            && m == s.(book := m.book)
            && AccountOf(m.book) == AccountOf(s.book)
            && m.book.trades == s.book.trades
            && |m.book.curve| == |s.book.curve| + 1 && m.book.curve[..|s.book.curve|] == s.book.curve
            && m.book.curve[|s.book.curve|].equity == Equity(m.book) == Worth(AccountOf(m.book), c.close)
            && m.book.curve[|s.book.curve|].time == c.time
  {
    var m := MarkPhase(s, c);
    if s.book.positions != [] {
      assert m.book.positions[..0] == [] && PositionValue(m.book.positions[..0], m.book.prices) == 0.0;
    } else {
      FlatBook(s.book);
    }
  }

  lemma MarginPhaseKeeps<S>(setup: Setup<S>, s: State<S>, c: Candle)
    requires Invariant(s, c)
    requires s.pending.Some? ==> !s.pending.value.forcedCover
    ensures var r := MarginPhase(setup, s, c);
            && r.Ok? && Invariant(r.value, c)
            && r.value.book == s.book && r.value.strategy == s.strategy
            && (if Breached(setup.terms, s.book)
                then r.value == s.(pending := Some(Pending(ForcedCover(s.book.positions[0], c, s.nextId), true)),
                                   nextId := s.nextId + 1)
                else r.value == s)
  {
    if Breached(setup.terms, s.book) {
      SoleBook(s.book);
      var order := ForcedCover(s.book.positions[0], c, s.nextId);
      var noted := s.(forced := s.forced + {s.nextId}, nextId := s.nextId + 1);
      DrainOfOrder(setup, noted, order, c);
      assert noted.forced - {order.id} == {};
      assert HandleOrder(noted, order).symbol == s.symbol;
    }
  }

  lemma SignalPhaseKeeps<S>(setup: Setup<S>, s: State<S>, c: Candle)
    requires Invariant(s, c)
    ensures var r := SignalPhase(setup, s, c);
            && (r.Err? ==> r.error == MalformedOrder)
            && (r.Ok? ==>
                  && Invariant(r.value, c)
                  && r.value.book == s.book
                  && (s.pending.Some? && s.pending.value.forcedCover ==> r.value.pending == s.pending)
                  && (r.value.nextId == s.nextId ==> r.value.pending == s.pending)
                  && (r.value.nextId != s.nextId ==>
                        r.value.nextId == s.nextId + 1 && r.value.pending.Some?
                        && r.value.pending.value.order.id == s.nextId && !r.value.pending.value.forcedCover))
  {
    DrainOfMarket(setup, s, s.symbol, c);
  }

  // ----- the bar and the run

  /** One bar from any state that satisfies the invariant: the only failure left is an order the
      strategy or the sizer made malformed, and the books move as the scalar ledger does. */
  lemma BarKeeps<S>(setup: Setup<S>, s: State<S>, prev: Option<Candle>, c: Candle)
    requires c.Priced() && setup.costs.Valid()
    requires prev.None? ==> s == Start(setup)
    requires prev.Some? ==> Invariant(s, prev.value) && prev.value.time < c.time
    ensures Executable(s)
    ensures var r := Bar(setup, s, c, prev.None?);
            && (r.Err? ==> r.error == MalformedOrder)
            && (r.Ok? ==>
                  && Invariant(r.value, c)
                  && AccountOf(r.value.book)
                     == ScalarBar(setup.terms, setup.costs, AccountOf(s.book),
                                  if s.pending.None? then None else Some(s.pending.value.order), prev, c)
                  && |r.value.book.curve| == |s.book.curve| + 1 && r.value.book.curve[..|s.book.curve|] == s.book.curve
                  && r.value.book.curve[|s.book.curve|].equity == Worth(AccountOf(r.value.book), c.close))
  {
    var accrued := AccruePhase(setup, s, c, prev.None?);
    if prev.Some? {
      AccruePhaseKeeps(setup, s, prev.value, c);
    }
    FillPhaseKeeps(setup, accrued.value, c);
    if s.pending.Some? {
      FillsExactlyWhenReached(setup.costs, s.pending.value.order, c);
    }
    var filled := FillPhase(setup, accrued.value, c).value;
    BooksGrow(setup, accrued.value, c);
    MarkPhaseKeeps(filled, c);
    var marked := MarkPhase(filled, c);
    MarginPhaseKeeps(setup, marked, c);
    SignalPhaseKeeps(setup, MarginPhase(setup, marked, c).value, c);
  }

  /** The fill phase leaves the equity curve alone and appends at most one trade. */
  lemma BooksGrow<S>(setup: Setup<S>, s: State<S>, c: Candle)
    requires Executable(s)
    ensures var r := FillPhase(setup, s, c);
            r.Ok? ==> r.value.book.curve == s.book.curve && s.book.trades <= r.value.book.trades
                      && r.value.book.peak == s.book.peak && |r.value.book.trades| <= |s.book.trades| + 1
  {
    if s.pending.Some? {
      var f := Execute(setup.costs, s.pending.value.order, c);
      if f.Some? {
        DrainOfFill(setup, s, f.value, c);
      }
    }
  }

  /** The invariant of every reachable state, for every strategy and every sizer. */
  lemma {:induction false} RunKeepsInvariant<S>(setup: Setup<S>, candles: seq<Candle>)
    requires Tradable(setup, candles)
    ensures var r := RunBars(setup, candles);
            && (r.Err? ==> r.error == MalformedOrder)
            && (r.Ok? ==> |r.value.book.curve| == |candles|)
            && (r.Ok? && candles != [] ==> Invariant(r.value, candles[|candles| - 1]))
  {
    if candles != [] {
      var n := |candles| - 1;
      RunKeepsInvariant(setup, candles[..n]);
      var before := RunBars(setup, candles[..n]);
      if before.Ok? {
        BarKeeps(setup, before.value, if n == 0 then None else Some(candles[n - 1]), candles[n]);
      }
    }
  }

  /** Every signal carries the price its kind needs and every size is at least one. */
  ghost predicate Disciplined<S(!new)>(setup: Setup<S>) {
    && (forall x: S, c: Candle, k: Context ::
          var signal := setup.onCandle(x, c, k).1;
          signal.Some? ==> (signal.value.kind.LimitOrder? ==> signal.value.limit.Some?)
                           && (signal.value.kind.StopOrder? ==> signal.value.stop.Some?))
    && (forall g: Signal, b: Book, p: real :: setup.size(g, b, p) >= 1)
  }

  lemma AnswerSucceeds<S(!new)>(setup: Setup<S>, s: State<S>, c: Candle)
    requires Disciplined(setup) && Sole(s.book)
    ensures SignalPhase(setup, s, c).Ok?
  {
    DrainOfMarket(setup, s, s.symbol, c);
    var signal := setup.onCandle(s.strategy, c, ContextOf(s.book, s.pending)).1;
    if signal.Some? {
      assert BuildOrder(setup, signal.value, s.book, c, s.nextId).Ok?;
    }
  }

  lemma BarSucceeds<S(!new)>(setup: Setup<S>, s: State<S>, prev: Option<Candle>, c: Candle)
    requires Disciplined(setup) && c.Priced() && setup.costs.Valid()
    requires prev.None? ==> s == Start(setup)
    requires prev.Some? ==> Invariant(s, prev.value) && prev.value.time < c.time
    ensures Executable(s) && Bar(setup, s, c, prev.None?).Ok?
  {
    if prev.Some? {
      AccruePhaseKeeps(setup, s, prev.value, c);
    }
    var accrued := AccruePhase(setup, s, c, prev.None?).value;
    FillPhaseKeeps(setup, accrued, c);
    var filled := FillPhase(setup, accrued, c).value;
    MarkPhaseKeeps(filled, c);
    MarginPhaseKeeps(setup, MarkPhase(filled, c), c);
    AnswerSucceeds(setup, MarginPhase(setup, MarkPhase(filled, c), c).value, c);
  }

  /** A run of a disciplined strategy never fails: no ledger operation can raise inside a run. */
  lemma {:induction false} RunNeverFails<S(!new)>(setup: Setup<S>, candles: seq<Candle>)
    requires Tradable(setup, candles) && Disciplined(setup)
    ensures RunBars(setup, candles).Ok?
  {
    if candles != [] {
      var n := |candles| - 1;
      RunNeverFails(setup, candles[..n]);
      RunKeepsInvariant(setup, candles[..n]);
      BarSucceeds(setup, RunBars(setup, candles[..n]).value, if n == 0 then None else Some(candles[n - 1]), candles[n]);
    }
  }
}
