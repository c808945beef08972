/** The exact effect of every fill and every accrual on the multi-symbol ledger: which are refused or rejected,
    the collateral of every open short, the fees charged, and what happens to equity. */
module LedgerLaws {
  import opened Market
  import opened Ledger
  import opened LedgerInvariant
  import opened Reals

  // ----- borrow fees

  /** The annual rate on the marked value of the borrowed shares for the elapsed days. */
  function FeeDue(terms: Terms, quantity: int, price: real, from: int, until: int): real {
    quantity as real * price * terms.borrowRate * (until - from) as real / (86_400_000_000.0 * terms.dayCount)
  }

  lemma {:induction false} QuotientOfProduct(a: real, x: real, m: real, d: real)
    requires m > 0.0 && d > 0.0
    ensures a * (x / m) / d == a * x / (m * d)
  {
    MulPositive(m, d);
    var left, right := a * (x / m) / d, a * x / (m * d);
    assert left * d == a * (x / m);
    assert (left * d) * m == a * x by {
      assert (a * (x / m)) * m == a * ((x / m) * m);
    }
    assert left * (m * d) == (left * d) * m;
    assert right * (m * d) == a * x;
    Cancel(left, right, m * d);
    Cancel(right, left, m * d);
  }

  lemma {:induction false} BorrowFeeIsDue(terms: Terms, quantity: int, price: real, from: int, until: int)
    ensures BorrowFee(terms, quantity, price, from, until) == FeeDue(terms, quantity, price, from, until)
  {
    QuotientOfProduct(quantity as real * price * terms.borrowRate, (until - from) as real, MICROS_PER_DAY as real, terms.dayCount);
  }

  /** What one position owes: nothing when long, else the fee since its last charge on its last marked price, or
      on its entry price when it was never marked. */
  ghost function Owed(terms: Terms, b: Book, h: Holding, time: int): real {
    if h.direction.Long? || h.symbol !in b.lastBorrow then 0.0
    else FeeDue(terms, h.quantity, if h.symbol in b.prices then b.prices[h.symbol] else h.entryPrice, b.lastBorrow[h.symbol], time)
  }

  ghost function FeesDue(terms: Terms, b: Book, positions: seq<Holding>, time: int): real {
    if positions == [] then 0.0
    else FeesDue(terms, b, positions[..|positions| - 1], time) + Owed(terms, b, positions[|positions| - 1], time)
  }

  lemma {:induction false} ChargeIsDue(terms: Terms, b: Book, positions: seq<Holding>, time: int)
    ensures BorrowCharge(terms, b, positions, time) == FeesDue(terms, b, positions, time)
  {
    if positions != [] {
      var h := positions[|positions| - 1];
      ChargeIsDue(terms, b, positions[..|positions| - 1], time);
      if h.direction.Short? && h.symbol in b.lastBorrow {
        BorrowFeeIsDue(terms, h.quantity, Marked(b.prices, h), b.lastBorrow[h.symbol], time);
      }
    }
  }

  /** Every open short was last charged before the instant. */
  ghost predicate ChargedBefore(b: Book, positions: seq<Holding>, time: int) {
    forall i :: 0 <= i < |positions| && positions[i].direction.Short? ==>
      positions[i].symbol in b.lastBorrow && b.lastBorrow[positions[i].symbol] < time
  }

  lemma {:induction false} FaultExactly(b: Book, positions: seq<Holding>, time: int)
    ensures AccrualFault(b, positions, time).None? <==> ChargedBefore(b, positions, time)
  {
    if positions != [] {
      var n := |positions| - 1;
      FaultExactly(b, positions[..n], time);
      assert ChargedBefore(b, positions, time) <==>
             ChargedBefore(b, positions[..n], time) && ChargedBefore(b, [positions[n]], time) by {
        assert [positions[n]][0] == positions[n];
      }
    }
  }

  lemma {:induction false} RestampExactly(stamps: map<string, int>, positions: seq<Holding>, time: int)
    ensures forall x :: x in ShortSymbols(positions) ==> x in Restamp(stamps, positions, time) && Restamp(stamps, positions, time)[x] == time
  {
    if positions != [] {
      RestampExactly(stamps, positions[..|positions| - 1], time);
    }
  }

  /** An accrual is refused exactly when some short was charged at or after the instant. Otherwise cash falls by
      the fees of all the open shorts together, they count as charged up to the instant, and nothing else moves. */
  lemma {:induction false} AccrualIsExact(terms: Terms, b: Book, time: int)
    requires Balanced(b)
    ensures AccrueBorrow(terms, b, time).Ok? <==> ChargedBefore(b, b.positions, time)
    ensures AccrueBorrow(terms, b, time).Ok? ==>
              AccrueBorrow(terms, b, time).value
              == (b.(cash := b.cash - FeesDue(terms, b, b.positions, time), lastBorrow := map x | x in b.lastBorrow :: time),
                  FeesDue(terms, b, b.positions, time))
  {
    FaultExactly(b, b.positions, time);
    ChargeIsDue(terms, b, b.positions, time);
    RestampKeys(b.lastBorrow, b.positions, time);
    RestampExactly(b.lastBorrow, b.positions, time);
    assert Restamp(b.lastBorrow, b.positions, time) == map x | x in b.lastBorrow :: time;
  }

  // ----- fills

  /** Every open short is secured by its initial margin on its entry value. */
  ghost predicate Margined(terms: Terms, b: Book) {
    forall i :: 0 <= i < |b.positions| && b.positions[i].direction.Short? ==> Secured(terms, b, b.positions[i])
  }

  ghost predicate Secured(terms: Terms, b: Book, h: Holding) {
    h.symbol in b.collateral && b.collateral[h.symbol] == terms.initialMargin * (h.quantity as real * h.entryPrice)
  }

  ghost predicate Holds(b: Book, symbol: string) {
    exists i :: 0 <= i < |b.positions| && b.positions[i].symbol == symbol
  }

  /** The fill does not settle the open position it names. */
  ghost predicate Mismatched(b: Book, f: Fill) {
    exists i :: 0 <= i < |b.positions| && b.positions[i].symbol == f.symbol
                && (b.positions[i].direction == f.direction || b.positions[i].quantity != f.quantity)
  }

  lemma {:induction false} IndexIsUnique(positions: seq<Holding>, i: nat)
    requires Distinct(positions) && i < |positions|
    ensures IndexOf(positions, positions[i].symbol) == i
  {
  }

  /** With balanced books a fill is refused exactly for a bad figure or a mismatch. */
  lemma {:induction false} FillRefusedExactly(terms: Terms, b: Book, f: Fill)
    requires Balanced(b)
    ensures RecordFill(terms, b, f).Err? <==> f.quantity <= 0 || f.price <= 0.0 || f.commission < 0.0 || Mismatched(b, f)
  {
    var i := IndexOf(b.positions, f.symbol);
    if i >= 0 {
      ShortMember(b.positions, i);
      forall k | 0 <= k < |b.positions| && b.positions[k].symbol == f.symbol
        ensures k == i
      {
        IndexIsUnique(b.positions, k);
      }
    }
  }

  /** What the opening side pays out of cash: the whole price when long, the margin beyond the proceeds when short. */
  ghost function CashNeeded(terms: Terms, f: Fill): real {
    var value := f.quantity as real * f.price;
    (if f.direction.Long? then value else (terms.initialMargin - 1.0) * value) + f.commission
  }

  /** A fill in a symbol that is not held is accepted exactly when cash covers it. */
  lemma {:induction false} OpeningIsExact(terms: Terms, b: Book, f: Fill)
    requires Balanced(b) && !Holds(b, f.symbol) && f.quantity > 0 && f.price > 0.0 && f.commission >= 0.0
    ensures RecordFill(terms, b, f).Ok?
    ensures var (after, outcome) := RecordFill(terms, b, f).value;
            && outcome.trade.None? && (outcome.accepted <==> CashNeeded(terms, f) <= b.cash)
            && (!outcome.accepted ==> after == b)
            && (outcome.accepted ==>
                  && after.positions == b.positions + [Holding(f.symbol, f.direction, f.quantity, f.price, f.time, f.commission)]
                  && after.cash == b.cash - CashNeeded(terms, f)
                  && after.trades == b.trades && after.curve == b.curve && after.prices == b.prices && after.peak == b.peak
                  && if f.direction.Long?
                     then after.restricted == b.restricted && after.collateral == b.collateral && after.lastBorrow == b.lastBorrow
                     else
                       var posted := terms.initialMargin * (f.quantity as real * f.price);
                       && after.restricted == b.restricted + posted && after.collateral == b.collateral[f.symbol := posted]
                       && after.lastBorrow == b.lastBorrow[f.symbol := f.time])
  {
    var i := IndexOf(b.positions, f.symbol);
    assert i < 0;
    assert RecordFill(terms, b, f) == Ok(OpenFill(terms, b, f));
  }

  /** A fill that matches an open position always closes it, whatever the cash: one trade for the round trip, the
      collateral released, and the position gone. */
  lemma {:induction false} ClosingIsExact(terms: Terms, b: Book, f: Fill, i: nat)
    requires Balanced(b) && i < |b.positions| && b.positions[i].symbol == f.symbol
    requires b.positions[i].direction != f.direction && b.positions[i].quantity == f.quantity
    requires f.quantity > 0 && f.price > 0.0 && f.commission >= 0.0
    ensures RecordFill(terms, b, f).Ok?
    ensures var (after, outcome) := RecordFill(terms, b, f).value;
            var h := b.positions[i];
            var value := f.quantity as real * f.price;
            var trade := Trade(f.symbol, h.direction, h.entryPrice, h.quantity, h.entryTime, h.commission + f.commission, f.price, f.time);
            && outcome == FillOutcome(true, Some(trade))
            && after.positions == b.positions[..i] + b.positions[i + 1..] && after.trades == b.trades + [trade]
            && after.curve == b.curve && after.prices == b.prices && after.peak == b.peak
            && if h.direction.Long?
               then after.cash == b.cash + value - f.commission && after.restricted == b.restricted
                    && after.collateral == b.collateral && after.lastBorrow == b.lastBorrow
               else f.symbol in b.collateral
                    && after.cash == b.cash + b.collateral[f.symbol] - value - f.commission
                    && after.restricted == b.restricted - b.collateral[f.symbol]
                    && after.collateral == b.collateral - {f.symbol} && after.lastBorrow == b.lastBorrow - {f.symbol}
  {
    IndexIsUnique(b.positions, i);
    ShortMember(b.positions, i);
  }

  // ----- collateral

  lemma {:induction false} OpeningKeepsMargin(terms: Terms, b: Book, f: Fill)
    requires Balanced(b) && Margined(terms, b) && !Holds(b, f.symbol) && f.quantity > 0 && f.price > 0.0 && f.commission >= 0.0
    ensures RecordFill(terms, b, f).Ok? && Margined(terms, RecordFill(terms, b, f).value.0)
  {
    OpeningIsExact(terms, b, f);
    var after := RecordFill(terms, b, f).value.0;
    forall k | 0 <= k < |after.positions| && after.positions[k].direction.Short?
      ensures Secured(terms, after, after.positions[k])
    {
      if k < |b.positions| {
        assert after.positions[k] == b.positions[k] && b.positions[k].symbol != f.symbol;
        assert Secured(terms, b, b.positions[k]);
      }
    }
  }

  lemma {:induction false} ClosingKeepsMargin(terms: Terms, b: Book, f: Fill, i: nat)
    requires Balanced(b) && Margined(terms, b) && i < |b.positions| && b.positions[i].symbol == f.symbol
    requires b.positions[i].direction != f.direction && b.positions[i].quantity == f.quantity
    requires f.quantity > 0 && f.price > 0.0 && f.commission >= 0.0
    ensures RecordFill(terms, b, f).Ok? && Margined(terms, RecordFill(terms, b, f).value.0)
  {
    ClosingIsExact(terms, b, f, i);
    var after := RecordFill(terms, b, f).value.0;
    forall k | 0 <= k < |after.positions| && after.positions[k].direction.Short?
      ensures Secured(terms, after, after.positions[k])
    {
      var j := if k < i then k else k + 1;
      assert after.positions[k] == b.positions[j] && b.positions[j].symbol != f.symbol;
      assert Secured(terms, b, b.positions[j]);
    }
  }

  /** Every fill keeps every open short secured by exactly its initial margin on its entry value. */
  lemma {:induction false} FillKeepsMargin(terms: Terms, b: Book, f: Fill)
    requires Balanced(b) && Margined(terms, b)
    ensures RecordFill(terms, b, f).Ok? ==> Margined(terms, RecordFill(terms, b, f).value.0)
  {
    if RecordFill(terms, b, f).Ok? {
      FillRefusedExactly(terms, b, f);
      var i := IndexOf(b.positions, f.symbol);
      if i >= 0 {
        ClosingKeepsMargin(terms, b, f, i);
      } else {
        OpeningKeepsMargin(terms, b, f);
      }
    }
  }

  // ----- equity

  lemma {:induction false} ValueWithout(positions: seq<Holding>, i: nat, prices: map<string, real>)
    requires i < |positions|
    ensures PositionValue(positions[..i] + positions[i + 1..], prices)
            == PositionValue(positions, prices) - SignedValue(positions[i], Marked(prices, positions[i]))
  {
    var n := |positions| - 1;
    if i == n {
      assert positions[..i] + positions[i + 1..] == positions[..n];
    } else {
      var rest, shorter := positions[..i] + positions[i + 1..], positions[..n];
      assert rest[..n - 1] == shorter[..i] + shorter[i + 1..];
      assert rest[n - 1] == positions[n];
      ValueWithout(shorter, i, prices);
    }
  }

  /** Equity with the filled symbol marked at the fill's price. */
  ghost function EquityAt(b: Book, f: Fill): real {
    Equity(b.(prices := b.prices[f.symbol := f.price]))
  }

  lemma {:induction false} ClosingCosts(terms: Terms, b: Book, f: Fill, i: nat)
    requires Balanced(b) && i < |b.positions| && b.positions[i].symbol == f.symbol
    requires b.positions[i].direction != f.direction && b.positions[i].quantity == f.quantity
    requires f.quantity > 0 && f.price > 0.0 && f.commission >= 0.0
    ensures RecordFill(terms, b, f).Ok? && EquityAt(RecordFill(terms, b, f).value.0, f) == EquityAt(b, f) - f.commission
  {
    ClosingIsExact(terms, b, f, i);
    ValueWithout(b.positions, i, b.prices[f.symbol := f.price]);
  }

  lemma {:induction false} OpeningCosts(terms: Terms, b: Book, f: Fill)
    requires Balanced(b) && !Holds(b, f.symbol) && f.quantity > 0 && f.price > 0.0 && f.commission >= 0.0
    requires CashNeeded(terms, f) <= b.cash
    ensures RecordFill(terms, b, f).Ok? && EquityAt(RecordFill(terms, b, f).value.0, f) == EquityAt(b, f) - f.commission
  {
    OpeningIsExact(terms, b, f);
    var after := RecordFill(terms, b, f).value.0;
    assert after.positions[..|b.positions|] == b.positions;
    Distribute(terms.initialMargin, 1.0, f.quantity as real * f.price);
  }

  /** Trading at the market creates and destroys nothing: with the symbol marked at the fill's price, an accepted
      fill costs exactly its commission, whatever else is held. */
  lemma {:induction false} FillCostsItsCommission(terms: Terms, b: Book, f: Fill)
    requires Balanced(b) && RecordFill(terms, b, f).Ok? && RecordFill(terms, b, f).value.1.accepted
    ensures EquityAt(RecordFill(terms, b, f).value.0, f) == EquityAt(b, f) - f.commission
  {
    FillRefusedExactly(terms, b, f);
    var i := IndexOf(b.positions, f.symbol);
    if i >= 0 {
      ClosingCosts(terms, b, f, i);
    } else {
      OpeningIsExact(terms, b, f);
      OpeningCosts(terms, b, f);
    }
  }
}
