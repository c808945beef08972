/** `BacktestEngine.run` as the program runs it: a mutable run state, a portfolio object and a FIFO
    event queue. Every method is proved to do what the fold in `Engine.dfy` says. */
module BacktestRuns {
  import opened Market
  import opened Broker
  import opened Ledger
  import opened Portfolios
  import opened Engine

  class BacktestRun<S> {
    const setup: Setup<S>
    const portfolio: Portfolio
    var strategy: S
    var symbol: string
    var pending: Option<Pending>
    var forced: set<nat>
    var nextId: nat
    var events: seq<Event>

    ghost function Contents(): State<S>
      reads this, portfolio
    {
      State(portfolio.Contents(), strategy, symbol, pending, forced, nextId)
    }

    ghost predicate Valid()
      reads this, portfolio
    {
      portfolio.terms == setup.terms
    }

    constructor (setup: Setup<S>)
      ensures Valid() && fresh(portfolio) && this.setup == setup
      ensures Contents() == Start(setup) && events == []
    {
      this.setup := setup;
      portfolio := new Portfolio(setup.terms);
      strategy, symbol := setup.initial, NameOr(setup.requested, "UNKNOWN");
      pending, forced, nextId, events := None, {}, 0, [];
    }

    method HandleFillEvent(f: Fill) returns (raised: Option<EngineError>)
      requires Valid()
      modifies this, portfolio
      ensures Valid() && events == old(events)
      ensures match HandleFill(setup, old(Contents()), f)
              case Ok(s) => raised == None && Contents() == s
              case Err(e) => raised == Some(e)
    {
      if pending.None? {
        return Some(FillWithoutOrder);
      }
      var outcome := portfolio.Record(f);
      if outcome.Err? {
        return Some(LedgerFault(outcome.error));
      }
      if outcome.value.accepted {
        symbol := f.symbol;
      }
      pending := None;
      raised := None;
    }

    method HandleMarketEvent(c: Candle)
      requires Valid()
      modifies this
      ensures Valid()
      ensures Contents() == HandleMarket(setup, old(Contents()), c).0
      ensures events == old(events) + HandleMarket(setup, old(Contents()), c).1
    {
      var open := portfolio.positions;
      var context := Context(
        if open != [] then Some(open[0].direction) else None,
        if open != [] then open[0].quantity else 0,
        if pending.Some? then Some(pending.value.order.direction) else None,
        if pending.Some? then Some(pending.value.order.kind) else None,
        pending.Some? && pending.value.forcedCover);
      var answer := setup.onCandle(strategy, c, context);
      strategy := answer.0;
      if answer.1.Some? {
        events := events + [SignalEvent(answer.1.value)];
      }
    }

    method HandleSignalEvent(signal: Signal, c: Candle) returns (raised: Option<EngineError>)
      requires Valid()
      modifies this
      ensures Valid()
      ensures match HandleSignal(setup, old(Contents()), signal, c)
              case Ok((s, out)) => raised == None && Contents() == s && events == old(events) + out
              case Err(e) => raised == Some(e)
    {
      if pending.Some? && pending.value.forcedCover {
        return None;
      }
      var open := portfolio.positions;
      if open != [] && signal.direction != open[0].direction.Opposite() {
        return None;
      }
      var name, quantity;
      if open != [] {
        name, quantity := open[0].symbol, open[0].quantity;
      } else {
        name := NameOr(setup.requested, signal.symbol);
        quantity := setup.size(signal, BookNow(), c.close);
      }
      var order := Order(nextId, name, signal.direction, quantity, signal.kind, signal.limit, signal.stop, signal.time);
      if !order.WellFormed() {
        return Some(MalformedOrder);
      }
      nextId := nextId + 1;
      events := events + [OrderEvent(order)];
      raised := None;
    }

    /** The portfolio as the sizer reads it. */
    function BookNow(): Book
      reads portfolio
      ensures BookNow() == portfolio.Contents()
    {
      Book(portfolio.cash, portfolio.restricted, portfolio.collateral, portfolio.lastBorrow, portfolio.positions,
           portfolio.trades, portfolio.curve, portfolio.peak, portfolio.prices)
    }

    method HandleOrderEvent(o: Order)
      requires Valid()
      modifies this
      ensures Valid() && events == old(events)
      ensures Contents() == HandleOrder(old(Contents()), o)
    {
      var forcedCover := o.id in forced;
      forced := forced - {o.id};
      symbol := o.symbol;
      pending := Some(Pending(o, forcedCover));
    }

    method DispatchEvent(e: Event, c: Candle) returns (raised: Option<EngineError>)
      requires Valid()
      modifies this, portfolio
      ensures Valid()
      ensures match Dispatch(setup, e, old(Contents()), c)
              case Ok((s, out)) => raised == None && Contents() == s && events == old(events) + out
              case Err(error) => raised == Some(error)
    {
      raised := None;
      match e
      case FillEvent(f) => raised := HandleFillEvent(f);
      case MarketEvent(_, candle) => HandleMarketEvent(candle);
      case SignalEvent(signal) => raised := HandleSignalEvent(signal, c);
      case OrderEvent(o) => HandleOrderEvent(o);
    }

    /** Events leave the queue in the order they entered it until none is left; each one queues only
        lighter ones, so this always ends. */
    method DrainEvents(c: Candle) returns (raised: Option<EngineError>)
      requires Valid()
      modifies this, portfolio
      ensures Valid()
      ensures match Drain(setup, old(events), old(Contents()), c)
              case Ok(s) => raised == None && Contents() == s && events == []
              case Err(e) => raised == Some(e)
    {
      ghost var whole := Drain(setup, events, Contents(), c);
      while events != []
        invariant Valid()
        invariant Drain(setup, events, Contents(), c) == whole
        decreases Weight(events)
      {
        ghost var queue := events;
        var e := events[0];
        events := events[1..];
        ghost var step := Dispatch(setup, e, Contents(), c);
        raised := DispatchEvent(e, c);
        if raised.Some? {
          return;
        }
        WeightOfAppend(queue[1..], step.value.1);
      }
      raised := None;
    }

    method ProcessBar(c: Candle, first: bool) returns (raised: Option<EngineError>)
      requires Valid() && Executable(Contents()) && events == []
      modifies this, portfolio
      ensures Valid()
      ensures match Bar(setup, old(Contents()), c, first)
              case Ok(s) => raised == None && Contents() == s && events == []
              case Err(e) => raised == Some(e)
    {
      if !first {
        var charge := portfolio.Accrue(c.time);
        if charge.Err? {
          return Some(LedgerFault(charge.error));
        }
      }
      raised := FillPending(c);
      if raised.Some? {
        return;
      }
      portfolio.Update(symbol, c.close, c.time);
      raised := CallMargin(c);
      if raised.Some? {
        return;
      }
      events := [MarketEvent(symbol, c)];
      raised := DrainEvents(c);
    }

    method FillPending(c: Candle) returns (raised: Option<EngineError>)
      requires Valid() && Executable(Contents()) && events == []
      modifies this, portfolio
      ensures Valid()
      ensures match FillPhase(setup, old(Contents()), c)
              case Ok(s) => raised == None && Contents() == s && events == []
              case Err(e) => raised == Some(e)
    {
      raised := None;
      if pending.Some? {
        var fill := Execute(setup.costs, pending.value.order, c);
        // An untriggered order is kept: it is a limit or a stop, since a market order always fills.
        if fill.Some? {
          events := events + [FillEvent(fill.value)];
          assert events == [FillEvent(fill.value)];
          raised := DrainEvents(c);
        }
      }
    }

    method CallMargin(c: Candle) returns (raised: Option<EngineError>)
      requires Valid() && events == []
      modifies this, portfolio
      ensures Valid()
      ensures match MarginPhase(setup, old(Contents()), c)
              case Ok(s) => raised == None && Contents() == s && events == []
              case Err(e) => raised == Some(e)
    {
      if pending.Some? && pending.value.forcedCover {
        return None;
      }
      if |portfolio.positions| != 1 {
        return None;
      }
      var h := portfolio.positions[0];
      var ratio := portfolio.Ratio(h.symbol);
      if h.direction.Long? || ratio.None? || ratio.value.Infinite? || ratio.value.value >= setup.terms.maintenanceMargin {
        return None;
      }
      var order := Order(nextId, h.symbol, Long, h.quantity, MarketOrder, None, None, c.time);
      if !order.WellFormed() {
        return Some(MalformedOrder);
      }
      forced, nextId := forced + {nextId}, nextId + 1;
      events := events + [OrderEvent(order)];
      assert events == [OrderEvent(order)];
      raised := DrainEvents(c);
    }

    method ProcessNth(candles: seq<Candle>, k: nat) returns (raised: Option<EngineError>)
      requires Valid() && events == [] && k < |candles| && RunBars(setup, candles[..k]) == Ok(Contents())
      modifies this, portfolio
      ensures Valid()
      ensures match RunBars(setup, candles[..k + 1])
              case Ok(s) => raised == None && Contents() == s && events == []
              case Err(e) => raised == Some(e)
    {
      RunOneMore(setup, candles, k);
      raised := ProcessBar(candles[k], k == 0);
    }

    /** The bars one by one. */
    method ProcessAll(candles: seq<Candle>) returns (raised: Option<EngineError>)
      requires Valid() && Contents() == Start(setup) && events == []
      modifies this, portfolio
      ensures Valid()
      ensures match RunBars(setup, candles)
              case Ok(s) => raised == None && Contents() == s
              case Err(e) => raised == Some(e)
    {
      for k := 0 to |candles|
        invariant Valid() && events == []
        invariant RunBars(setup, candles[..k]) == Ok(Contents())
      {
        raised := ProcessNth(candles, k);
        if raised.Some? {
          FailureIsFinal(setup, candles, k + 1);
          return;
        }
      }
      assert candles[..|candles|] == candles;
      raised := None;
    }

    /** The whole run, input checks included. */
    method Backtest(candles: seq<Candle>) returns (raised: Option<EngineError>)
      requires Valid() && Contents() == Start(setup) && events == []
      modifies this, portfolio
      ensures Valid()
      ensures match Run(setup, candles)
              case Ok(s) => raised == None && Contents() == s
              case Err(e) => raised == Some(e)
    {
      if candles == [] {
        return Some(NoCandles);
      }
      var increasing := TimesIncrease(candles);
      if !increasing {
        return Some(UnorderedCandles);
      }
      raised := ProcessAll(candles);
    }
  }

  method TimesIncrease(candles: seq<Candle>) returns (ok: bool)
    ensures ok <==> StrictlyIncreasing(candles)
  {
    var i := 1;
    while i < |candles|
      invariant 1 <= i && (i <= |candles| || i == 1)
      invariant forall j :: 0 < j < i && j < |candles| ==> candles[j - 1].time < candles[j].time
    {
      if candles[i].time <= candles[i - 1].time {
        return false;
      }
      i := i + 1;
    }
    ok := true;
  }

  lemma {:induction false} RunOneMore<S>(setup: Setup<S>, candles: seq<Candle>, k: nat)
    requires k < |candles| && RunBars(setup, candles[..k]).Ok?
    ensures RunBars(setup, candles[..k + 1]) == Bar(setup, RunBars(setup, candles[..k]).value, candles[k], k == 0)
  {
    var upTo := candles[..k + 1];
    assert |upTo| - 1 == k && upTo[..k] == candles[..k] && upTo[k] == candles[k];
  }

  lemma {:induction false} FailureSpreads<S>(setup: Setup<S>, candles: seq<Candle>)
    requires candles != [] && RunBars(setup, candles[..|candles| - 1]).Err?
    ensures RunBars(setup, candles) == RunBars(setup, candles[..|candles| - 1])
  {
  }

  lemma {:induction false} FailureIsFinal<S>(setup: Setup<S>, candles: seq<Candle>, k: nat)
    requires k <= |candles| && RunBars(setup, candles[..k]).Err?
    ensures RunBars(setup, candles) == RunBars(setup, candles[..k])
    decreases |candles|
  {
    if k == |candles| {
      assert candles[..k] == candles;
    } else {
      var n := |candles| - 1;
      assert candles[..n][..k] == candles[..k];
      FailureIsFinal(setup, candles[..n], k);
      FailureSpreads(setup, candles);
    }
  }
}
