/** What the engine asks the strategy on every bar and what order the answer becomes, over whole runs. */
module Signals {
  import opened Market
  import opened Broker
  import opened Ledger
  import opened Engine
  import opened EngineInvariant
  import opened MarginCalls

  /** What stands when the strategy is asked: a forced cover if the account no longer covers the short at the
      close, else what was pending before the bar unless the bar reached it. */
  ghost function Standing<S>(terms: Terms, before: State<S>, b: Book, c: Candle): Option<Pending>
    requires Executable(before)
  {
    if Underwater(terms, b, c.close)
    then Some(Pending(Order(before.nextId, b.positions[0].symbol, Long, b.positions[0].quantity, MarketOrder, None, None, c.time), true))
    else if before.pending.Some? && Reached(before.pending.value.order, c) then None else before.pending
  }

  /** The sole position and the standing order, as a strategy sees them. */
  ghost function Shown(b: Book, q: Option<Pending>): Context {
    var (position, quantity) := if b.positions == [] then (None, 0) else (Some(b.positions[0].direction), b.positions[0].quantity);
    match q
    case None => Context(position, quantity, None, None, false)
    case Some(p) => Context(position, quantity, Some(p.order.direction), Some(p.order.kind), p.forcedCover)
  }

  /** The order carries the signal's direction, kind, prices and time. */
  ghost predicate Carries(o: Order, g: Signal, symbol: string, quantity: int) {
    && o.symbol == symbol && o.quantity == quantity
    && o.direction == g.direction && o.kind == g.kind && o.limit == g.limit && o.stop == g.stop && o.createdAt == g.time
  }

  /** A signal while flat becomes an opening order of the sizer's quantity in the requested symbol, else its own; a
      signal against the position becomes the exact close of it; any other, and any while a cover is forced, is
      dropped and what stood still stands. */
  ghost predicate Becomes<S>(setup: Setup<S>, b: Book, q: Option<Pending>, answer: Option<Signal>, c: Candle, after: Option<Pending>) {
    if answer.None? || (q.Some? && q.value.forcedCover) || (b.positions != [] && b.positions[0].direction == answer.value.direction)
    then after == q
    else
      && after.Some? && !after.value.forcedCover
      && var g := answer.value;
         if b.positions == []
         then Carries(after.value.order, g, if setup.requested.None? || setup.requested.value == "" then g.symbol else setup.requested.value,
                      setup.size(g, b, c.close))
         else Carries(after.value.order, g, b.positions[0].symbol, b.positions[0].quantity)
  }

  lemma {:induction false} AnswerBecomes<S>(setup: Setup<S>, s: State<S>, c: Candle)
    requires Invariant(s, c) && SignalPhase(setup, s, c).Ok?
    ensures var after := SignalPhase(setup, s, c).value;
            var (strategy, answer) := setup.onCandle(s.strategy, c, Shown(s.book, s.pending));
            after.book == s.book && after.strategy == strategy && Becomes(setup, s.book, s.pending, answer, c, after.pending)
  {
    DrainOfMarket(setup, s, s.symbol, c);
    assert Shown(s.book, s.pending) == ContextOf(s.book, s.pending);
    var answer := setup.onCandle(s.strategy, c, Shown(s.book, s.pending)).1;
    if answer.Some? {
      assert s.book.positions != [] ==>
               (answer.value.direction != s.book.positions[0].direction.Opposite() <==> answer.value.direction == s.book.positions[0].direction);
    }
  }

  /** On every bar of every run the strategy is asked once, about this bar, with the books marked at its close and
      what then stands; its answer decides the order pending for the next bar. */
  lemma {:induction false} SignalBecomesOrder<S>(setup: Setup<S>, candles: seq<Candle>)
    requires Tradable(setup, candles) && candles != [] && RunBars(setup, candles).Ok?
    ensures RunBars(setup, candles[..|candles| - 1]).Ok?
    ensures var before, after, c := RunBars(setup, candles[..|candles| - 1]).value, RunBars(setup, candles).value, candles[|candles| - 1];
            var standing := Standing(setup.terms, before, after.book, c);
            var (strategy, answer) := setup.onCandle(before.strategy, c, Shown(after.book, standing));
            after.strategy == strategy && Becomes(setup, after.book, standing, answer, c, after.pending)
  {
    var n := |candles| - 1;
    RunKeepsInvariant(setup, candles[..n]);
    var before := RunBars(setup, candles[..n]).value;
    var checked := CheckedState(setup, before, if n == 0 then None else Some(candles[n - 1]), candles[n]);
    AnswerBecomes(setup, checked, candles[n]);
    assert checked.pending == Standing(setup.terms, before, checked.book, candles[n]);
  }
}
