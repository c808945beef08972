/** The value types shared by the broker, the portfolio and the engine.
    Prices and money are `real`; a timestamp is a count of microseconds. */
module Market {

  const MICROS_PER_DAY := 86_400_000_000

  datatype Option<+T> = None | Some(value: T)

  /** The outcome of an operation that the program ends with an exception. */
  datatype Result<+T, +E> = Ok(value: T) | Err(error: E) {
    predicate IsFailure() {
      Err?
    }

    function PropagateFailure<U>(): Result<U, E>
      requires Err?
    {
      Err(error)
    }

    function Extract(): T
      requires Ok?
    {
      value
    }
  }

  datatype Direction = Long | Short {
    function Opposite(): Direction {
      if Long? then Short else Long
    }
  }

  datatype OrderType = MarketOrder | LimitOrder | StopOrder

  datatype Candle = Candle(time: int, open: real, high: real, low: real, close: real, volume: real, adjClose: real) {
    /** What `Candle.__post_init__` checks. */
    predicate Valid() {
      low <= open <= high && low <= close <= high && volume >= 0.0
    }

    /** The assumption under which the engine runs: a valid bar whose prices are positive. */
    predicate Priced() {
      Valid() && low > 0.0
    }
  }

  /** `id` is the identity of the order object: the engine tells forced covers apart by it. */
  datatype Order = Order(id: nat, symbol: string, direction: Direction, quantity: int, kind: OrderType,
                         limit: Option<real>, stop: Option<real>, createdAt: int) {
    /** What `Order.__post_init__` checks. */
    predicate WellFormed() {
      && quantity > 0
      && (kind.LimitOrder? ==> limit.Some?)
      && (kind.StopOrder? ==> stop.Some?)
    }
  }

  datatype Signal = Signal(symbol: string, direction: Direction, strength: real, time: int, kind: OrderType,
                           limit: Option<real>, stop: Option<real>)

  datatype Fill = Fill(symbol: string, direction: Direction, quantity: int, price: real, commission: real, time: int)

  /** A closed round trip. */
  datatype Trade = Trade(symbol: string, direction: Direction, entryPrice: real, quantity: int, entryTime: int,
                         commission: real, exitPrice: real, exitTime: int) {
    function Pnl(): real {
      var raw := (exitPrice - entryPrice) * quantity as real;
      (if direction.Short? then -raw else raw) - commission
    }
  }

  datatype EquityPoint = EquityPoint(time: int, equity: real, drawdown: real)

  /** What a strategy is shown on every bar. */
  datatype Context = Context(position: Option<Direction>, quantity: int, pending: Option<Direction>,
                             pendingKind: Option<OrderType>, forcedCoverPending: bool)

  predicate StrictlyIncreasing(candles: seq<Candle>) {
    forall i :: 0 < i < |candles| ==> candles[i - 1].time < candles[i].time
  }
}
