/** What every operation of the multi-symbol ledger keeps: one position per symbol, and restricted
    collateral that is exactly the collateral of the open shorts. */
module LedgerInvariant {
  import opened Market
  import opened Ledger

  ghost predicate Distinct(positions: seq<Holding>) {
    forall i, j :: 0 <= i < j < |positions| ==> positions[i].symbol != positions[j].symbol
  }

  ghost function ShortSymbols(positions: seq<Holding>): set<string> {
    if positions == [] then {}
    else
      var last := positions[|positions| - 1];
      ShortSymbols(positions[..|positions| - 1]) + if last.direction.Short? then {last.symbol} else {}
  }

  ghost function Posted(h: Holding, collateral: map<string, real>): real {
    if h.direction.Short? && h.symbol in collateral then collateral[h.symbol] else 0.0
  }

  ghost function CollateralSum(positions: seq<Holding>, collateral: map<string, real>): real {
    if positions == [] then 0.0
    else CollateralSum(positions[..|positions| - 1], collateral) + Posted(positions[|positions| - 1], collateral)
  }

  ghost predicate Balanced(b: Book) {
    && Distinct(b.positions)
    && b.collateral.Keys == ShortSymbols(b.positions)
    && b.lastBorrow.Keys == ShortSymbols(b.positions)
    && b.restricted == CollateralSum(b.positions, b.collateral)
  }

  /** Collateral of other symbols does not enter the sum. */
  lemma {:induction false} SumIgnores(positions: seq<Holding>, collateral: map<string, real>, changed: map<string, real>)
    requires forall i :: 0 <= i < |positions| ==> Posted(positions[i], collateral) == Posted(positions[i], changed)
    ensures CollateralSum(positions, collateral) == CollateralSum(positions, changed)
  {
    if positions != [] {
      SumIgnores(positions[..|positions| - 1], collateral, changed);
    }
  }

  lemma {:induction false} SumWithout(positions: seq<Holding>, i: nat, collateral: map<string, real>)
    requires i < |positions|
    ensures CollateralSum(positions[..i] + positions[i + 1..], collateral)
            == CollateralSum(positions, collateral) - Posted(positions[i], collateral)
  {
    var n := |positions| - 1;
    if i == n {
      assert positions[..i] + positions[i + 1..] == positions[..n];
    } else {
      var rest := positions[..i] + positions[i + 1..];
      var shorter := positions[..n];
      assert rest[..n - 1] == shorter[..i] + shorter[i + 1..];
      assert rest[n - 1] == positions[n];
      SumWithout(shorter, i, collateral);
    }
  }

  lemma {:induction false} ShortMember(positions: seq<Holding>, i: nat)
    requires Distinct(positions) && i < |positions|
    ensures positions[i].symbol in ShortSymbols(positions) <==> positions[i].direction.Short?
    ensures forall x :: x in ShortSymbols(positions) ==> exists k :: 0 <= k < |positions| && positions[k].symbol == x
  {
    var n := |positions| - 1;
    var shorter := positions[..n];
    if n > 0 {
      ShortMember(shorter, if i < n then i else 0);
    }
    forall x | x in ShortSymbols(positions)
      ensures exists k :: 0 <= k < |positions| && positions[k].symbol == x
    {
      if x in ShortSymbols(shorter) {
        var k :| 0 <= k < |shorter| && shorter[k].symbol == x;
        assert positions[k].symbol == x;
      } else {
        assert positions[n].symbol == x;
      }
    }
  }

  lemma {:induction false} ShortWithout(positions: seq<Holding>, i: nat)
    requires Distinct(positions) && i < |positions|
    ensures ShortSymbols(positions[..i] + positions[i + 1..]) == ShortSymbols(positions) - {positions[i].symbol}
  {
    var n, rest := |positions| - 1, positions[..i] + positions[i + 1..];
    var shorter := positions[..n];
    if i == n {
      assert rest == shorter;
      NotAmongShorts(shorter, positions[n].symbol);
    } else {
      assert rest[..n - 1] == shorter[..i] + shorter[i + 1..];
      assert rest[n - 1] == positions[n] && positions[n].symbol != positions[i].symbol;
      ShortWithout(shorter, i);
      assert shorter[i] == positions[i];
    }
  }

  lemma {:induction false} NotAmongShorts(positions: seq<Holding>, symbol: string)
    requires forall k :: 0 <= k < |positions| ==> positions[k].symbol != symbol
    ensures symbol !in ShortSymbols(positions)
  {
    if positions != [] {
      NotAmongShorts(positions[..|positions| - 1], symbol);
    }
  }

  /** With balanced books a fill is refused for bad input or a mismatch with the open position
      only; every accepted or rejected fill leaves the books balanced. */
  lemma FillKeepsBalance(terms: Terms, b: Book, f: Fill)
    requires Balanced(b)
    ensures match RecordFill(terms, b, f)
            case Ok((after, _)) => Balanced(after)
            case Err(e) => e in {BadQuantity, BadPrice, BadCommission, WrongDirection, WrongQuantity}
  {
    var r := RecordFill(terms, b, f);
    var i := IndexOf(b.positions, f.symbol);
    if i >= 0 {
      ShortMember(b.positions, i);
      if r.Ok? {
        CloseKeepsBalance(b, f, i);
      }
    } else if r.Ok? {
      OpenKeepsBalance(terms, b, f);
    }
  }

  lemma DistinctWithout(positions: seq<Holding>, i: nat)
    requires Distinct(positions) && i < |positions|
    ensures var rest := positions[..i] + positions[i + 1..];
            Distinct(rest) && forall k :: 0 <= k < |rest| ==> rest[k].symbol != positions[i].symbol
  {
  }

  lemma CloseKeepsBalance(b: Book, f: Fill, i: nat)
    requires Balanced(b) && i < |b.positions| && b.positions[i].symbol == f.symbol
    requires CloseFill(b, f, i).Ok?
    ensures Balanced(CloseFill(b, f, i).value.0)
  {
    var after := CloseFill(b, f, i).value.0;
    DistinctWithout(b.positions, i);
    ShortWithout(b.positions, i);
    ShortMember(b.positions, i);
    SumWithout(b.positions, i, b.collateral);
    SumIgnores(after.positions, b.collateral, after.collateral);
  }

  lemma OpenKeepsBalance(terms: Terms, b: Book, f: Fill)
    requires Balanced(b) && IndexOf(b.positions, f.symbol) < 0
    ensures Balanced(OpenFill(terms, b, f).0)
  {
    var after := OpenFill(terms, b, f).0;
    if after.positions != b.positions {
      assert after.positions[..|b.positions|] == b.positions;
      SumIgnores(b.positions, b.collateral, after.collateral);
    }
  }

  lemma {:induction false} RestampKeys(stamps: map<string, int>, positions: seq<Holding>, time: int)
    ensures Restamp(stamps, positions, time).Keys == stamps.Keys + ShortSymbols(positions)
  {
    if positions != [] {
      RestampKeys(stamps, positions[..|positions| - 1], time);
    }
  }

  /** Accruing borrow fees moves cash only, never collateral, and on balanced books it is refused
      for one reason: a short already charged up to that instant. */
  lemma AccrualKeepsBalance(terms: Terms, b: Book, time: int)
    requires Balanced(b)
    ensures match AccrueBorrow(terms, b, time)
            case Ok((after, _)) => Balanced(after)
            case Err(e) => e == AccrualNotLater
  {
    RestampKeys(b.lastBorrow, b.positions, time);
    FaultIsLateness(b, b.positions, time);
  }

  lemma {:induction false} FaultIsLateness(b: Book, positions: seq<Holding>, time: int)
    requires ShortSymbols(positions) <= b.lastBorrow.Keys
    ensures AccrualFault(b, positions, time) in {None, Some(AccrualNotLater)}
  {
    if positions != [] {
      FaultIsLateness(b, positions[..|positions| - 1], time);
    }
  }
}
