/** `Portfolio` as the program runs it: an object whose fields every operation updates in place. */
module Portfolios {
  import opened Market
  import opened Ledger

  class Portfolio {
    const terms: Terms
    var cash: real
    var restricted: real
    var collateral: map<string, real>
    var lastBorrow: map<string, int>
    var positions: seq<Holding>
    var trades: seq<Trade>
    var curve: seq<EquityPoint>
    var peak: real
    var prices: map<string, real>

    ghost function Contents(): Book
      reads this
    {
      Book(cash, restricted, collateral, lastBorrow, positions, trades, curve, peak, prices)
    }

    constructor (terms: Terms)
      ensures this.terms == terms && Contents() == OpenBook(terms)
    {
      this.terms := terms;
      cash, restricted, peak := terms.initialCapital, 0.0, terms.initialCapital;
      collateral, lastBorrow, prices := map[], map[], map[];
      positions, trades, curve := [], [], [];
    }

    method EquityNow() returns (equity: real)
      ensures equity == Equity(Contents())
    {
      var value := 0.0;
      for i := 0 to |positions|
        invariant value == PositionValue(positions[..i], prices)
      {
        var h := positions[i];
        var price := if h.symbol in prices then prices[h.symbol] else h.entryPrice;
        assert positions[..i + 1][..i] == positions[..i];
        if h.direction.Long? {
          value := value + Notional(h.quantity, price);
        } else {
          value := value - Notional(h.quantity, price);
        }
      }
      assert positions[..|positions|] == positions;
      equity := cash + restricted + value;
    }

    /** Insertion order makes the first match the only one when symbols are distinct. */
    method Record(f: Fill) returns (r: Result<FillOutcome, LedgerError>)
      modifies this
      ensures var expected := RecordFill(terms, old(Contents()), f);
              && (expected.Ok? ==> r == Ok(expected.value.1) && Contents() == expected.value.0)
              && (expected.Err? ==> r == Err(expected.error) && Contents() == old(Contents()))
    {
      if f.quantity <= 0 {
        return Err(BadQuantity);
      }
      if f.price <= 0.0 {
        return Err(BadPrice);
      }
      if f.commission < 0.0 {
        return Err(BadCommission);
      }
      var i := IndexOf(positions, f.symbol);
      if i >= 0 {
        r := Close(f, i);
      } else {
        var outcome := Open(f);
        r := Ok(outcome);
      }
    }

    method Close(f: Fill, i: nat) returns (r: Result<FillOutcome, LedgerError>)
      requires i < |positions|
      modifies this
      ensures var expected := CloseFill(old(Contents()), f, i);
              && (expected.Ok? ==> r == Ok(expected.value.1) && Contents() == expected.value.0)
              && (expected.Err? ==> r == Err(expected.error) && Contents() == old(Contents()))
    {
      var h := positions[i];
      if f.direction != h.direction.Opposite() {
        return Err(WrongDirection);
      }
      if f.quantity != h.quantity {
        return Err(WrongQuantity);
      }
      if h.direction.Short? && (f.symbol !in collateral || f.symbol !in lastBorrow) {
        return Err(MissingKey);
      }
      var trade := Trade(f.symbol, h.direction, h.entryPrice, h.quantity, h.entryTime,
                         h.commission + f.commission, f.price, f.time);
      trades := trades + [trade];
      if h.direction.Long? {
        cash := cash + (Notional(h.quantity, f.price) - f.commission);
      } else {
        var released := collateral[f.symbol];
        collateral := collateral - {f.symbol};
        restricted := restricted - released;
        cash := cash + (released - Notional(h.quantity, f.price) - f.commission);
        lastBorrow := lastBorrow - {f.symbol};
      }
      positions := positions[..i] + positions[i + 1..];
      r := Ok(FillOutcome(true, Some(trade)));
    }

    method Open(f: Fill) returns (outcome: FillOutcome)
      modifies this
      ensures Contents() == OpenFill(terms, old(Contents()), f).0
      ensures outcome == OpenFill(terms, old(Contents()), f).1
    {
      var notional := Notional(f.quantity, f.price);
      if f.direction.Long? {
        var cost := notional + f.commission;
        if cost > cash {
          return FillOutcome(false, None);
        }
        cash := cash - cost;
      } else {
        var required := AddedMargin(terms, notional) + f.commission;
        if required > cash {
          return FillOutcome(false, None);
        }
        var posted := PostedCollateral(terms, notional);
        cash := cash - required;
        restricted := restricted + posted;
        collateral := collateral[f.symbol := posted];
        lastBorrow := lastBorrow[f.symbol := f.time];
      }
      positions := positions + [Holding(f.symbol, f.direction, f.quantity, f.price, f.time, f.commission)];
      outcome := FillOutcome(true, None);
    }

    /** The checks that precede any charge. */
    method CheckAccrual(time: int) returns (fault: Option<LedgerError>)
      ensures fault == AccrualFault(Contents(), positions, time)
    {
      for i := 0 to |positions|
        invariant AccrualFault(Contents(), positions[..i], time) == None
      {
        var h := positions[i];
        assert positions[..i + 1][..i] == positions[..i];
        if h.direction.Short? && (h.symbol !in lastBorrow || time <= lastBorrow[h.symbol]) {
          FirstFault(Contents(), positions, i + 1, time);
          return Some(if h.symbol !in lastBorrow then MissingKey else AccrualNotLater);
        }
      }
      assert positions[..|positions|] == positions;
      fault := None;
    }

    method Accrue(time: int) returns (r: Result<real, LedgerError>)
      modifies this`cash, this`lastBorrow
      ensures var expected := AccrueBorrow(terms, old(Contents()), time);
              && (expected.Ok? ==> r == Ok(expected.value.1) && Contents() == expected.value.0)
              && (expected.Err? ==> r == Err(expected.error) && Contents() == old(Contents()))
    {
      ghost var before := Contents();
      var fault := CheckAccrual(time);
      if fault.Some? {
        return Err(fault.value);
      }
      var charge := 0.0;
      var stamps := lastBorrow;
      for i := 0 to |positions|
        invariant Contents() == before
        invariant charge == BorrowCharge(terms, before, positions[..i], time)
        invariant stamps == Restamp(before.lastBorrow, positions[..i], time)
      {
        var h := positions[i];
        assert positions[..i + 1][..i] == positions[..i];
        if h.direction.Short? {
          NoFaultMeansStamped(before, positions, i, time);
          charge := charge + BorrowFee(terms, h.quantity, Marked(prices, h), lastBorrow[h.symbol], time);
          stamps := stamps[h.symbol := time];
        }
      }
      assert positions[..|positions|] == positions;
      cash := cash - charge;
      lastBorrow := stamps;
      r := Ok(charge);
    }

    method Update(symbol: string, price: real, time: int)
      modifies this`prices, this`peak, this`curve
      ensures Contents() == Mark(old(Contents()), symbol, price, time)
    {
      prices := prices[symbol := price];
      var equity := EquityNow();
      if equity > peak {
        peak := equity;
      }
      var drawdown := if peak > 0.0 then (equity - peak) / peak else 0.0;
      curve := curve + [EquityPoint(time, equity, drawdown)];
    }

    method Ratio(symbol: string) returns (ratio: Option<Ratio>)
      ensures ratio == MaintenanceRatio(Contents(), symbol)
    {
      var i := IndexOf(positions, symbol);
      if i < 0 || positions[i].direction.Long? {
        return None;
      }
      var equity := EquityNow();
      ratio := Some(RatioOf(equity, Notional(positions[i].quantity, Marked(prices, positions[i]))));
    }
  }

  /** The first refusal found in a prefix is the refusal of the whole scan. */
  lemma {:induction false} FirstFault(b: Book, positions: seq<Holding>, k: nat, time: int)
    requires k <= |positions|
    requires AccrualFault(b, positions[..k], time).Some?
    ensures AccrualFault(b, positions, time) == AccrualFault(b, positions[..k], time)
  {
    if k == |positions| {
      assert positions[..k] == positions;
    } else {
      var shorter := positions[..|positions| - 1];
      assert shorter[..k] == positions[..k];
      FirstFault(b, shorter, k, time);
    }
  }

  lemma {:induction false} NoFaultMeansStamped(b: Book, positions: seq<Holding>, i: nat, time: int)
    requires i < |positions| && positions[i].direction.Short?
    requires AccrualFault(b, positions, time) == None
    ensures positions[i].symbol in b.lastBorrow && b.lastBorrow[positions[i].symbol] < time
  {
    if i < |positions| - 1 {
      NoFaultMeansStamped(b, positions[..|positions| - 1], i, time);
    }
  }
}
