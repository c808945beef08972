/** Conservation over whole runs: every unit of equity is initial capital, realised profit,
    unrealised profit, a commission or a borrow fee. */
module Conservation {
  import opened Market
  import opened Broker
  import opened Ledger
  import opened LedgerLaws
  import opened Engine
  import opened EngineInvariant
  import opened Reals

  ghost function SumPnl(trades: seq<Trade>): real {
    if trades == [] then 0.0 else SumPnl(trades[..|trades| - 1]) + trades[|trades| - 1].Pnl()
  }

  ghost function Unrealised(b: Book, close: real): real {
    if b.positions == [] then 0.0
    else
      var h := b.positions[0];
      var raw := (close - h.entryPrice) * h.quantity as real;
      if h.direction.Short? then -raw else raw
  }

  ghost function EntryCommission(b: Book): real {
    if b.positions == [] then 0.0 else b.positions[0].commission
  }

  /** The fee of each bar reached while short: the annual rate on quantity times previous close, for the time
      since the previous bar. */
  ghost function BorrowPaid<S>(setup: Setup<S>, candles: seq<Candle>): real {
    if |candles| <= 1 then 0.0
    else
      var n := |candles| - 1;
      BorrowPaid(setup, candles[..n])
      + match RunBars(setup, candles[..n])
        case Err(_) => 0.0
        case Ok(s) =>
          if s.book.positions != [] && s.book.positions[0].direction.Short?
          then FeeDue(setup.terms, s.book.positions[0].quantity, candles[n - 1].close, candles[n - 1].time, candles[n].time)
          else 0.0
  }

  /** What the open position cost to enter; a short was paid for entering. */
  ghost function EntryCost(a: Account): real {
    if a.stake.None? then 0.0
    else
      var h := a.stake.value.holding;
      SignedValue(h, h.entryPrice) + h.commission
  }

  ghost function Funds(a: Account): real {
    a.cash + if a.stake.None? then 0.0 else a.stake.value.collateral
  }

  ghost predicate Conserved(terms: Terms, b: Book, paid: real) {
    Funds(AccountOf(b)) == terms.initialCapital + SumPnl(b.trades) - paid - EntryCost(AccountOf(b))
  }

  lemma MarginSplit(terms: Terms, notional: real)
    ensures terms.initialMargin * notional - (terms.initialMargin - 1.0) * notional == notional
  {
    Distribute(terms.initialMargin, 1.0, notional);
  }

  /** Closing turns the entry cost and the exit value into the trade's profit, commissions included. */
  lemma SettlementConserves(terms: Terms, b: Book, f: Fill, paid: real)
    requires Sole(b) && b.positions != [] && Conserved(terms, b, paid)
    requires f.price > 0.0 && f.commission >= 0.0
    requires var h := b.positions[0];
             f.symbol == h.symbol && f.direction == h.direction.Opposite() && f.quantity == h.quantity
    ensures RecordFill(terms, b, f).Ok? && Conserved(terms, RecordFill(terms, b, f).value.0, paid)
  {
    SettleSole(terms, b, f);
    var after := RecordFill(terms, b, f).value.0;
    var trade := after.trades[|b.trades|];
    assert after.trades[..|b.trades|] == b.trades;
    Distribute(f.price, trade.entryPrice, trade.quantity as real);
    SoleBook(b);
  }

  lemma OpeningConserves(terms: Terms, b: Book, f: Fill, paid: real)
    requires Sole(b) && b.positions == [] && Conserved(terms, b, paid)
    requires f.price > 0.0 && f.commission >= 0.0 && f.quantity > 0
    ensures RecordFill(terms, b, f).Ok? && Conserved(terms, RecordFill(terms, b, f).value.0, paid)
  {
    OpenSole(terms, b, f);
    MarginSplit(terms, Notional(f.quantity, f.price));
  }

  lemma FillPhaseConserves<S>(setup: Setup<S>, s: State<S>, c: Candle, paid: real)
    requires Sound(s) && ChargedTo(s.book, c.time) && c.Priced() && setup.costs.Valid()
    requires Conserved(setup.terms, s.book, paid)
    ensures FillPhase(setup, s, c).Ok? && Conserved(setup.terms, FillPhase(setup, s, c).value.book, paid)
  {
    FillPhaseKeeps(setup, s, c);
    if s.pending.Some? && Reached(s.pending.value.order, c) {
      var o := s.pending.value.order;
      FillsExactlyWhenReached(setup.costs, o, c);
      FillIsAcceptable(setup.costs, o, c);
      var f := Execute(setup.costs, o, c).value;
      DrainOfFill(setup, s, f, c);
      if s.book.positions != [] {
        SettlementConserves(setup.terms, s.book, f, paid);
      } else {
        OpeningConserves(setup.terms, s.book, f, paid);
      }
    }
  }

  /** What the bar `c` charges to a state left by the bar `prev`. */
  ghost function BarFee<S>(setup: Setup<S>, s: State<S>, prev: Option<Candle>, c: Candle): real {
    if prev.None? then 0.0 else ScalarFee(setup.terms, AccountOf(s.book), prev.value.close, prev.value.time, c.time)
  }

  lemma BarConserves<S>(setup: Setup<S>, s: State<S>, prev: Option<Candle>, c: Candle, paid: real)
    requires c.Priced() && setup.costs.Valid()
    requires prev.None? ==> s == Start(setup)
    requires prev.Some? ==> Invariant(s, prev.value) && prev.value.time < c.time
    requires Conserved(setup.terms, s.book, paid)
    requires Executable(s) && Bar(setup, s, c, prev.None?).Ok?
    ensures Conserved(setup.terms, Bar(setup, s, c, prev.None?).value.book, paid + BarFee(setup, s, prev, c))
  {
    var fee := BarFee(setup, s, prev, c);
    if prev.Some? {
      AccruePhaseKeeps(setup, s, prev.value, c);
    }
    var accrued := AccruePhase(setup, s, c, prev.None?).value;
    assert Conserved(setup.terms, accrued.book, paid + fee);
    FillPhaseKeeps(setup, accrued, c);
    FillPhaseConserves(setup, accrued, c, paid + fee);
    var filled := FillPhase(setup, accrued, c).value;
    MarkPhaseKeeps(filled, c);
    var marked := MarkPhase(filled, c);
    MarginPhaseKeeps(setup, marked, c);
    SignalPhaseKeeps(setup, MarginPhase(setup, marked, c).value, c);
  }

  lemma {:induction false} PaidOneMore<S>(setup: Setup<S>, candles: seq<Candle>, s: State<S>)
    requires candles != [] && RunBars(setup, candles[..|candles| - 1]) == Ok(s)
    ensures var n := |candles| - 1;
            BorrowPaid(setup, candles)
            == BorrowPaid(setup, candles[..n]) + BarFee(setup, s, if n == 0 then None else Some(candles[n - 1]), candles[n])
  {
  }

  lemma {:induction false} RunConserves<S>(setup: Setup<S>, candles: seq<Candle>)
    requires Tradable(setup, candles) && RunBars(setup, candles).Ok?
    ensures Conserved(setup.terms, RunBars(setup, candles).value.book, BorrowPaid(setup, candles))
  {
    if candles != [] {
      var n := |candles| - 1;
      RunConserves(setup, candles[..n]);
      RunKeepsInvariant(setup, candles[..n]);
      var before := RunBars(setup, candles[..n]).value;
      PaidOneMore(setup, candles, before);
      BarConserves(setup, before, if n == 0 then None else Some(candles[n - 1]), candles[n], BorrowPaid(setup, candles[..n]));
    }
  }

  /** After every bar of every run, for every strategy: equity is the initial capital plus realised
      and unrealised profit, less the entry commission of the open position and all borrow fees. */
  lemma {:induction false} EquityIsConserved<S>(setup: Setup<S>, candles: seq<Candle>)
    requires Tradable(setup, candles) && RunBars(setup, candles).Ok? && candles != []
    ensures var b := RunBars(setup, candles).value.book;
            var close := candles[|candles| - 1].close;
            Equity(b) == setup.terms.initialCapital + SumPnl(b.trades) + Unrealised(b, close)
                         - EntryCommission(b) - BorrowPaid(setup, candles)
  {
    RunConserves(setup, candles);
    RunKeepsInvariant(setup, candles);
    var b := RunBars(setup, candles).value.book;
    var close := candles[|candles| - 1].close;
    if b.positions != [] {
      var h := b.positions[0];
      Distribute(close, h.entryPrice, h.quantity as real);
      assert b.positions[..0] == [] && PositionValue(b.positions[..0], b.prices) == 0.0;
      assert Unrealised(b, close) == SignedValue(h, close) - SignedValue(h, h.entryPrice);
    } else {
      FlatBook(b);
    }
  }
}
