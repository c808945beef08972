/** The books of a `Portfolio`: a multi-symbol ledger with restricted short collateral, as values.
    Each function is what one `Portfolio` operation does to the books; the class in
    `Portfolio.dfy` is proved to do exactly that in place. */
module Ledger {
  import opened Market

  /** The settings a portfolio is built with. */
  datatype Settings = Settings(initialCapital: real, initialMargin: real, maintenanceMargin: real,
                               borrowRate: real, dayCount: real) {
    /** What `Portfolio.__init__` checks. */
    predicate Valid() {
      initialCapital > 0.0 && initialMargin >= 1.0 && maintenanceMargin >= 0.0 && borrowRate >= 0.0 && dayCount > 0.0
    }
  }

  /** Settings that a portfolio accepted. */
  type Terms = t: Settings | t.Valid() witness Settings(100000.0, 1.5, 0.3, 0.03, 365.0)

  datatype Holding = Holding(symbol: string, direction: Direction, quantity: int, entryPrice: real,
                             entryTime: int, commission: real)

  /** `positions` is the insertion-ordered dictionary of open positions. */
  datatype Book = Book(cash: real, restricted: real, collateral: map<string, real>, lastBorrow: map<string, int>,
                       positions: seq<Holding>, trades: seq<Trade>, curve: seq<EquityPoint>,
                       peak: real, prices: map<string, real>)

  datatype LedgerError =
    | BadQuantity | BadPrice | BadCommission
    | WrongDirection | WrongQuantity
    | MissingKey
    | AccrualNotLater

  datatype FillOutcome = FillOutcome(accepted: bool, trade: Option<Trade>)

  function OpenBook(terms: Terms): Book {
    Book(terms.initialCapital, 0.0, map[], map[], [], [], [], terms.initialCapital, map[])
  }

  /** Dictionary lookup by symbol; -1 when there is no such key. */
  function IndexOf(positions: seq<Holding>, symbol: string): (i: int)
    ensures -1 <= i < |positions|
    ensures i >= 0 ==> positions[i].symbol == symbol
    ensures i < 0 ==> forall j :: 0 <= j < |positions| ==> positions[j].symbol != symbol
  {
    if positions == [] then -1
    else if positions[|positions| - 1].symbol == symbol then |positions| - 1
    else IndexOf(positions[..|positions| - 1], symbol)
  }

  function Marked(prices: map<string, real>, h: Holding): real {
    if h.symbol in prices then prices[h.symbol] else h.entryPrice
  }

  function SignedValue(h: Holding, price: real): real {
    if h.direction.Long? then Notional(h.quantity, price) else -Notional(h.quantity, price)
  }

  function PositionValue(positions: seq<Holding>, prices: map<string, real>): real {
    if positions == [] then 0.0
    else
      var last := positions[|positions| - 1];
      PositionValue(positions[..|positions| - 1], prices) + SignedValue(last, Marked(prices, last))
  }

  function Equity(b: Book): real {
    b.cash + b.restricted + PositionValue(b.positions, b.prices)
  }

  function RecordFill(terms: Terms, b: Book, f: Fill): Result<(Book, FillOutcome), LedgerError> {
    if f.quantity <= 0 then Err(BadQuantity)
    else if f.price <= 0.0 then Err(BadPrice)
    else if f.commission < 0.0 then Err(BadCommission)
    else
      var i := IndexOf(b.positions, f.symbol);
      if i >= 0 then CloseFill(b, f, i) else Ok(OpenFill(terms, b, f))
  }

  function CloseFill(b: Book, f: Fill, i: nat): Result<(Book, FillOutcome), LedgerError>
    requires i < |b.positions|
  {
    var h := b.positions[i];
    var rest := b.positions[..i] + b.positions[i + 1..];
    var trade := Trade(f.symbol, h.direction, h.entryPrice, h.quantity, h.entryTime, h.commission + f.commission, f.price, f.time);
    var value := Notional(h.quantity, f.price);
    if f.direction != h.direction.Opposite() then Err(WrongDirection)
    else if f.quantity != h.quantity then Err(WrongQuantity)
    else if h.direction.Long? then
      Ok((b.(positions := rest, trades := b.trades + [trade], cash := b.cash + (value - f.commission)),
          FillOutcome(true, Some(trade))))
    else if f.symbol !in b.collateral || f.symbol !in b.lastBorrow then Err(MissingKey)
    else
      var released := b.collateral[f.symbol];
      Ok((b.(positions := rest, trades := b.trades + [trade],
             restricted := b.restricted - released,
             cash := b.cash + (released - value - f.commission),
             collateral := b.collateral - {f.symbol},
             lastBorrow := b.lastBorrow - {f.symbol}),
          FillOutcome(true, Some(trade))))
  }

  function Notional(quantity: int, price: real): real {
    quantity as real * price
  }

  /** The part of the collateral that the short seller pays out of cash. */
  function AddedMargin(terms: Terms, notional: real): real {
    notional * (terms.initialMargin - 1.0)
  }

  function PostedCollateral(terms: Terms, notional: real): real {
    notional * terms.initialMargin
  }

  function OpenFill(terms: Terms, b: Book, f: Fill): (Book, FillOutcome) {
    var notional := Notional(f.quantity, f.price);
    var holding := Holding(f.symbol, f.direction, f.quantity, f.price, f.time, f.commission);
    if f.direction.Long? then
      if notional + f.commission > b.cash then (b, FillOutcome(false, None))
      else (b.(cash := b.cash - (notional + f.commission), positions := b.positions + [holding]), FillOutcome(true, None))
    else
      var required := AddedMargin(terms, notional) + f.commission;
      if required > b.cash then (b, FillOutcome(false, None))
      else
        var posted := PostedCollateral(terms, notional);
        (b.(cash := b.cash - required,
            restricted := b.restricted + posted,
            collateral := b.collateral[f.symbol := posted],
            lastBorrow := b.lastBorrow[f.symbol := f.time],
            positions := b.positions + [holding]),
         FillOutcome(true, None))
  }

  /** One short's borrow fee between two instants at a marked price. */
  function BorrowFee(terms: Terms, quantity: int, price: real, from: int, to: int): real {
    quantity as real * price * terms.borrowRate * ((to - from) as real / MICROS_PER_DAY as real) / terms.dayCount
  }

  /** Why the timestamp of an accrual is refused, in the order the shorts are scanned. */
  function AccrualFault(b: Book, positions: seq<Holding>, time: int): Option<LedgerError> {
    if positions == [] then None
    else
      var before := AccrualFault(b, positions[..|positions| - 1], time);
      var last := positions[|positions| - 1];
      if before.Some? || last.direction.Long? then before
      else if last.symbol !in b.lastBorrow then Some(MissingKey)
      else if time <= b.lastBorrow[last.symbol] then Some(AccrualNotLater)
      else None
  }

  function BorrowCharge(terms: Terms, b: Book, positions: seq<Holding>, time: int): real {
    if positions == [] then 0.0
    else
      var last := positions[|positions| - 1];
      BorrowCharge(terms, b, positions[..|positions| - 1], time)
      + if last.direction.Short? && last.symbol in b.lastBorrow
        then BorrowFee(terms, last.quantity, Marked(b.prices, last), b.lastBorrow[last.symbol], time)
        else 0.0
  }

  function Restamp(stamps: map<string, int>, positions: seq<Holding>, time: int): map<string, int> {
    if positions == [] then stamps
    else
      var last := positions[|positions| - 1];
      var before := Restamp(stamps, positions[..|positions| - 1], time);
      if last.direction.Short? then before[last.symbol := time] else before
  }

  function AccrueBorrow(terms: Terms, b: Book, time: int): Result<(Book, real), LedgerError> {
    var fault := AccrualFault(b, b.positions, time);
    if fault.Some? then Err(fault.value)
    else
      var charge := BorrowCharge(terms, b, b.positions, time);
      Ok((b.(cash := b.cash - charge, lastBorrow := Restamp(b.lastBorrow, b.positions, time)), charge))
  }

  datatype Ratio = Infinite | Finite(value: real)

  function RatioOf(equity: real, shortValue: real): Ratio {
    if shortValue == 0.0 then Infinite else Finite(equity / shortValue)
  }

  /** Equity over marked short value; `None` when the symbol is not held short. */
  function MaintenanceRatio(b: Book, symbol: string): Option<Ratio> {
    var i := IndexOf(b.positions, symbol);
    if i < 0 || b.positions[i].direction.Long? then None
    else
      var h := b.positions[i];
      Some(RatioOf(Equity(b), Notional(h.quantity, Marked(b.prices, h))))
  }

  function Drawdown(equity: real, peak: real): real {
    if peak > 0.0 then (equity - peak) / peak else 0.0
  }

  function Mark(b: Book, symbol: string, price: real, time: int): Book {
    var marked := b.(prices := b.prices[symbol := price]);
    var equity := Equity(marked);
    var peak := if equity > b.peak then equity else b.peak;
    marked.(peak := peak, curve := b.curve + [EquityPoint(time, equity, Drawdown(equity, peak))])
  }
}
