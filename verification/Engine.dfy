/** The bar-by-bar engine as a fold of values: the specification of `BacktestRun`.
    The strategy is an arbitrary deterministic state machine and the sizer an arbitrary function. */
module Engine {
  import opened Market
  import opened Broker
  import opened Ledger

  datatype Setup<!S> = Setup(
    terms: Terms,
    costs: Costs,
    requested: Option<string>,
    initial: S,
    onCandle: (S, Candle, Context) -> (S, Option<Signal>),
    size: (Signal, Book, real) -> int)

  datatype Pending = Pending(order: Order, forcedCover: bool)

  /** `forced` holds the identities of forced covers that are still in the event queue and
      `nextId` is the identity of the next order object. */
  datatype State<S> = State(book: Book, strategy: S, symbol: string, pending: Option<Pending>, forced: set<nat>, nextId: nat)

  datatype Event =
    | FillEvent(fill: Fill)
    | MarketEvent(symbol: string, candle: Candle)
    | SignalEvent(signal: Signal)
    | OrderEvent(order: Order)

  datatype EngineError =
    | NoCandles
    | UnorderedCandles
    | MalformedOrder
    | FillWithoutOrder
    | LedgerFault(fault: LedgerError)

  /** `requested or fallback`: an empty name counts as absent. */
  function NameOr(requested: Option<string>, fallback: string): string {
    if requested.Some? && requested.value != "" then requested.value else fallback
  }

  function Start<S>(setup: Setup<S>): State<S> {
    State(OpenBook(setup.terms), setup.initial, NameOr(setup.requested, "UNKNOWN"), None, {}, 0)
  }

  function ContextOf(book: Book, pending: Option<Pending>): Context {
    Context(
      if book.positions != [] then Some(book.positions[0].direction) else None,
      if book.positions != [] then book.positions[0].quantity else 0,
      if pending.Some? then Some(pending.value.order.direction) else None,
      if pending.Some? then Some(pending.value.order.kind) else None,
      pending.Some? && pending.value.forcedCover)
  }

  /** An opening order while flat, else a close of the exact open position, else nothing. */
  function BuildOrder<S>(setup: Setup<S>, signal: Signal, book: Book, c: Candle, id: nat): Result<Option<Order>, EngineError> {
    if book.positions != [] && signal.direction != book.positions[0].direction.Opposite() then Ok(None)
    else
      var symbol := if book.positions != [] then book.positions[0].symbol else NameOr(setup.requested, signal.symbol);
      var quantity := if book.positions != [] then book.positions[0].quantity else setup.size(signal, book, c.close);
      var order := Order(id, symbol, signal.direction, quantity, signal.kind, signal.limit, signal.stop, signal.time);
      if order.WellFormed() then Ok(Some(order)) else Err(MalformedOrder)
  }

  // ----- event handlers

  function HandleFill<S>(setup: Setup<S>, s: State<S>, f: Fill): Result<State<S>, EngineError> {
    if s.pending.None? then Err(FillWithoutOrder)
    else
      match RecordFill(setup.terms, s.book, f)
      case Err(e) => Err(LedgerFault(e))
      case Ok((book, outcome)) =>
        Ok(s.(book := book, symbol := if outcome.accepted then f.symbol else s.symbol, pending := None))
  }

  function HandleMarket<S>(setup: Setup<S>, s: State<S>, c: Candle): (State<S>, seq<Event>) {
    var (strategy, signal) := setup.onCandle(s.strategy, c, ContextOf(s.book, s.pending));
    (s.(strategy := strategy), if signal.Some? then [SignalEvent(signal.value)] else [])
  }

  function HandleSignal<S>(setup: Setup<S>, s: State<S>, signal: Signal, c: Candle): Result<(State<S>, seq<Event>), EngineError> {
    if s.pending.Some? && s.pending.value.forcedCover then Ok((s, []))
    else
      var order :- BuildOrder(setup, signal, s.book, c, s.nextId);
      Ok(if order.Some? then (s.(nextId := s.nextId + 1), [OrderEvent(order.value)]) else (s, []))
  }

  function HandleOrder<S>(s: State<S>, o: Order): State<S> {
    s.(symbol := o.symbol, pending := Some(Pending(o, o.id in s.forced)), forced := s.forced - {o.id})
  }

  function Dispatch<S>(setup: Setup<S>, e: Event, s: State<S>, c: Candle): Result<(State<S>, seq<Event>), EngineError> {
    match e
    case FillEvent(f) => var s' :- HandleFill(setup, s, f); Ok((s', []))
    case MarketEvent(_, candle) => Ok(HandleMarket(setup, s, candle))
    case SignalEvent(signal) => HandleSignal(setup, s, signal, c)
    case OrderEvent(o) => Ok((HandleOrder(s, o), []))
  }

  // ----- the FIFO queue

  function Rank(e: Event): nat {
    match e
    case MarketEvent(_, _) => 3
    case SignalEvent(_) => 2
    case OrderEvent(_) => 1
    case FillEvent(_) => 1
  }

  /** Every handler replaces its event by lighter ones, so the queue drains. */
  function Weight(queue: seq<Event>): nat {
    if queue == [] then 0 else Rank(queue[0]) + Weight(queue[1..])
  }

  lemma WeightOfAppend(queue: seq<Event>, out: seq<Event>)
    ensures Weight(queue + out) == Weight(queue) + Weight(out)
  {
    if queue == [] {
      assert queue + out == out;
    } else {
      assert (queue + out)[1..] == queue[1..] + out;
    }
  }

  function Drain<S>(setup: Setup<S>, queue: seq<Event>, s: State<S>, c: Candle): Result<State<S>, EngineError>
    decreases Weight(queue)
  {
    if queue == [] then Ok(s)
    else
      var (s', out) :- Dispatch(setup, queue[0], s, c);
      WeightOfAppend(queue[1..], out);
      Drain(setup, queue[1..] + out, s', c)
  }

  // ----- one bar

  function AccruePhase<S>(setup: Setup<S>, s: State<S>, c: Candle, first: bool): Result<State<S>, EngineError> {
    if first then Ok(s)
    else
      match AccrueBorrow(setup.terms, s.book, c.time)
      case Err(e) => Err(LedgerFault(e))
      case Ok((book, _)) => Ok(s.(book := book))
  }

  predicate Executable<S>(s: State<S>) {
    s.pending.Some? ==> s.pending.value.order.WellFormed()
  }

  function FillPhase<S>(setup: Setup<S>, s: State<S>, c: Candle): Result<State<S>, EngineError>
    requires Executable(s)
  {
    if s.pending.None? then Ok(s)
    else
      match Execute(setup.costs, s.pending.value.order, c)
      case None => Ok(if s.pending.value.order.kind.MarketOrder? then s.(pending := None) else s)
      case Some(fill) => Drain(setup, [FillEvent(fill)], s, c)
  }

  function MarkPhase<S>(s: State<S>, c: Candle): State<S> {
    s.(book := Mark(s.book, s.symbol, c.close, c.time))
  }

  /** The sole position is a short whose equity no longer covers the maintenance requirement. */
  predicate Breached(terms: Terms, b: Book) {
    && |b.positions| == 1
    && b.positions[0].direction.Short?
    && var ratio := MaintenanceRatio(b, b.positions[0].symbol);
       ratio.Some? && ratio.value.Finite? && ratio.value.value < terms.maintenanceMargin
  }

  function ForcedCover(h: Holding, c: Candle, id: nat): Order {
    Order(id, h.symbol, Long, h.quantity, MarketOrder, None, None, c.time)
  }

  function MarginPhase<S>(setup: Setup<S>, s: State<S>, c: Candle): Result<State<S>, EngineError> {
    if s.pending.Some? && s.pending.value.forcedCover then Ok(s)
    else if !Breached(setup.terms, s.book) then Ok(s)
    else
      var order := ForcedCover(s.book.positions[0], c, s.nextId);
      if order.WellFormed() then
        Drain(setup, [OrderEvent(order)], s.(forced := s.forced + {s.nextId}, nextId := s.nextId + 1), c)
      else Err(MalformedOrder)
  }

  function SignalPhase<S>(setup: Setup<S>, s: State<S>, c: Candle): Result<State<S>, EngineError> {
    Drain(setup, [MarketEvent(s.symbol, c)], s, c)
  }

  function Bar<S>(setup: Setup<S>, s: State<S>, c: Candle, first: bool): Result<State<S>, EngineError>
    requires Executable(s)
  {
    var accrued :- AccruePhase(setup, s, c, first);
    var filled :- FillPhase(setup, accrued, c);
    var checked :- MarginPhase(setup, MarkPhase(filled, c), c);
    SignalPhase(setup, checked, c)
  }

  // ----- what draining each kind of queue amounts to

  lemma DrainOfFill<S>(setup: Setup<S>, s: State<S>, f: Fill, c: Candle)
    ensures Drain(setup, [FillEvent(f)], s, c) == HandleFill(setup, s, f)
  {
    assert [FillEvent(f)][1..] + [] == [];
  }

  lemma DrainOfOrder<S>(setup: Setup<S>, s: State<S>, o: Order, c: Candle)
    ensures Drain(setup, [OrderEvent(o)], s, c) == Ok(HandleOrder(s, o))
  {
    assert [OrderEvent(o)][1..] + [] == [];
  }

  /** The strategy's answer to the bar, sized, checked and queued in one step. */
  function Answer<S>(setup: Setup<S>, s: State<S>, c: Candle): Result<State<S>, EngineError> {
    var (strategy, signal) := setup.onCandle(s.strategy, c, ContextOf(s.book, s.pending));
    var told := s.(strategy := strategy);
    if signal.None? || (s.pending.Some? && s.pending.value.forcedCover) then Ok(told)
    else
      var order :- BuildOrder(setup, signal.value, s.book, c, s.nextId);
      Ok(if order.Some? then HandleOrder(told.(nextId := s.nextId + 1), order.value) else told)
  }

  lemma DrainOfSignal<S>(setup: Setup<S>, s: State<S>, signal: Signal, c: Candle)
    ensures Drain(setup, [SignalEvent(signal)], s, c) ==
            match HandleSignal(setup, s, signal, c)
            case Err(e) => Err(e)
            case Ok((sized, orders)) => Ok(if orders != [] then HandleOrder(sized, orders[0].order) else sized)
  {
    var handled := HandleSignal(setup, s, signal, c);
    if handled.Ok? {
      var (sized, orders) := handled.value;
      assert [SignalEvent(signal)][1..] + orders == orders;
      assert Drain(setup, [SignalEvent(signal)], s, c) == Drain(setup, orders, sized, c);
      if orders != [] {
        assert orders == [OrderEvent(orders[0].order)];
        DrainOfOrder(setup, sized, orders[0].order, c);
      }
    }
  }

  lemma DrainOfMarket<S>(setup: Setup<S>, s: State<S>, symbol: string, c: Candle)
    ensures Drain(setup, [MarketEvent(symbol, c)], s, c) == Answer(setup, s, c)
  {
    var (told, out) := HandleMarket(setup, s, c);
    assert [MarketEvent(symbol, c)][1..] + out == out;
    var signal := setup.onCandle(s.strategy, c, ContextOf(s.book, s.pending)).1;
    if signal.Some? {
      DrainOfSignal(setup, told, signal.value, c);
    }
  }

  lemma ExecutableAfterFill<S>(setup: Setup<S>, s: State<S>, c: Candle)
    requires Executable(s)
    ensures FillPhase(setup, s, c).Ok? ==> Executable(FillPhase(setup, s, c).value)
  {
    if s.pending.Some? {
      var fill := Execute(setup.costs, s.pending.value.order, c);
      if fill.Some? {
        DrainOfFill(setup, s, fill.value, c);
      }
    }
  }

  lemma ExecutableAfterMargin<S>(setup: Setup<S>, s: State<S>, c: Candle)
    requires Executable(s)
    ensures MarginPhase(setup, s, c).Ok? ==> Executable(MarginPhase(setup, s, c).value)
  {
    if Breached(setup.terms, s.book) {
      var order := ForcedCover(s.book.positions[0], c, s.nextId);
      DrainOfOrder(setup, s.(forced := s.forced + {s.nextId}, nextId := s.nextId + 1), order, c);
    }
  }

  lemma ExecutableAfterSignal<S>(setup: Setup<S>, s: State<S>, c: Candle)
    requires Executable(s)
    ensures SignalPhase(setup, s, c).Ok? ==> Executable(SignalPhase(setup, s, c).value)
  {
    DrainOfMarket(setup, s, s.symbol, c);
  }

  /** Orders only ever become pending through the checks of the order constructor. */
  lemma ExecutableAfterBar<S>(setup: Setup<S>, s: State<S>, c: Candle, first: bool)
    requires Executable(s)
    ensures Bar(setup, s, c, first).Ok? ==> Executable(Bar(setup, s, c, first).value)
  {
    if Bar(setup, s, c, first).Ok? {
      var accrued := AccruePhase(setup, s, c, first).value;
      ExecutableAfterFill(setup, accrued, c);
      var marked := MarkPhase(FillPhase(setup, accrued, c).value, c);
      ExecutableAfterMargin(setup, marked, c);
      ExecutableAfterSignal(setup, MarginPhase(setup, marked, c).value, c);
    }
  }

  // ----- a whole run

  /** The state after all the given bars. */
  function RunBars<S>(setup: Setup<S>, candles: seq<Candle>): (r: Result<State<S>, EngineError>)
    ensures r.Ok? ==> Executable(r.value)
  {
    if candles == [] then Ok(Start(setup))
    else
      var n := |candles| - 1;
      var before :- RunBars(setup, candles[..n]);
      ExecutableAfterBar(setup, before, candles[n], n == 0);
      Bar(setup, before, candles[n], n == 0)
  }

  /** `BacktestEngine.run`: input checks, then the fold. */
  function Run<S>(setup: Setup<S>, candles: seq<Candle>): Result<State<S>, EngineError> {
    if candles == [] then Err(NoCandles)
    else if !StrictlyIncreasing(candles) then Err(UnorderedCandles)
    else RunBars(setup, candles)
  }
}
