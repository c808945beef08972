/** Drawdown metrics over an equity curve, and their agreement with what the portfolio records. */
module Metrics {
  import opened Market
  import opened Ledger
  import opened Engine
  import opened EngineInvariant
  import opened EngineRuns
  import opened Reals

  function Equities(curve: seq<EquityPoint>): seq<real> {
    seq(|curve|, i requires 0 <= i < |curve| => curve[i].equity)
  }

  /** The running peak, never below the starting value. */
  function PeakFrom(start: real, xs: seq<real>): (p: real)
    ensures p >= start && forall i :: 0 <= i < |xs| ==> xs[i] <= p
    ensures p == start || p in xs
  {
    if xs == [] then start
    else
      var before := PeakFrom(start, xs[..|xs| - 1]);
      if xs[|xs| - 1] > before then xs[|xs| - 1] else before
  }

  /** The worst drawdown from the running peak, never above zero. */
  function Worst(start: real, xs: seq<real>): real {
    if xs == [] then 0.0
    else
      var before := Worst(start, xs[..|xs| - 1]);
      var now := Drawdown(xs[|xs| - 1], PeakFrom(start, xs));
      if now < before then now else before
  }

  method MaxDrawdown(curve: seq<EquityPoint>) returns (worst: real)
    ensures worst == if curve == [] then 0.0 else Worst(curve[0].equity, Equities(curve))
  {
    if curve == [] {
      return 0.0;
    }
    ghost var xs := Equities(curve);
    var peak := curve[0].equity;
    worst := 0.0;
    for i := 0 to |curve|
      invariant peak == PeakFrom(xs[0], xs[..i])
      invariant worst == Worst(xs[0], xs[..i])
    {
      var equity := curve[i].equity;
      if equity > peak {
        peak := equity;
      }
      var drawdown := Drawdown(equity, peak);
      if drawdown < worst {
        worst := drawdown;
      }
      assert xs[..i + 1][..i] == xs[..i];
    }
    assert xs[..|curve|] == xs;
  }

  // ----- what the figure means

  /** The change from one point to a later one, as a fraction. */
  ghost function Change(xs: seq<real>, i: nat, j: nat): real
    requires i < |xs| && j < |xs| && xs[i] != 0.0
  {
    (xs[j] - xs[i]) / xs[i]
  }

  ghost predicate Positive(xs: seq<real>) {
    forall i :: 0 <= i < |xs| ==> xs[i] > 0.0
  }

  lemma {:induction false} QuotientMonotone(x: real, low: real, high: real)
    requires x >= 0.0 && 0.0 < low <= high
    ensures (x - high) / high <= (x - low) / low
  {
    QuotientLess(x, low);
    QuotientLess(x, high);
    var a, b := x / low, x / high;
    assert a * low == x && b * high == x;
    QuotientBound(x, high);
    MulNonnegative(b, high - low);
    Distribute(high, low, b);
    Cancel(b, a, low);
  }

  ghost predicate NoGreaterChange(xs: seq<real>, j: nat, bound: real)
    requires Positive(xs) && j < |xs|
  {
    forall i :: 0 <= i < |xs| ==> bound <= Change(xs, i, j)
  }

  /** The last point's drawdown is its least change from any point before it, and attained. */
  lemma {:induction false} LastDrawdown(xs: seq<real>) returns (p: nat)
    requires xs != [] && Positive(xs)
    ensures p < |xs| && Drawdown(xs[|xs| - 1], PeakFrom(xs[0], xs)) == Change(xs, p, |xs| - 1)
    ensures NoGreaterChange(xs, |xs| - 1, Drawdown(xs[|xs| - 1], PeakFrom(xs[0], xs)))
  {
    var n := |xs| - 1;
    var peak := PeakFrom(xs[0], xs);
    assert peak in xs;
    p :| 0 <= p < |xs| && xs[p] == peak;
    forall i | 0 <= i < |xs|
      ensures Drawdown(xs[n], peak) <= Change(xs, i, n)
    {
      QuotientMonotone(xs[n], xs[i], peak);
    }
  }

  ghost predicate IsLeastChange(xs: seq<real>, worst: real)
    requires Positive(xs)
  {
    && (forall i, j :: 0 <= i <= j < |xs| ==> worst <= Change(xs, i, j))
    && (exists i, j :: 0 <= i <= j < |xs| && worst == Change(xs, i, j))
  }

  lemma {:induction false} LeastOf(xs: seq<real>, before: real, now: real, p: nat)
    requires |xs| > 1 && Positive(xs) && p < |xs|
    requires IsLeastChange(xs[..|xs| - 1], before)
    requires now == Change(xs, p, |xs| - 1)
    requires NoGreaterChange(xs, |xs| - 1, now)
    ensures IsLeastChange(xs, if now < before then now else before)
  {
    var n := |xs| - 1;
    var past := xs[..n];
    forall i, j | 0 <= i <= j < |xs|
      ensures (if now < before then now else before) <= Change(xs, i, j)
    {
      if j < n {
        assert Change(xs, i, j) == Change(past, i, j);
      }
    }
    var a, b :| 0 <= a <= b < n && before == Change(past, a, b);
    assert before == Change(xs, a, b);
  }

  /** On a positive curve the figure is the least change between any point and a later one: a lower
      bound of all of them, and attained. */
  lemma {:induction false} WorstIsLeastChange(xs: seq<real>)
    requires xs != [] && Positive(xs)
    ensures IsLeastChange(xs, Worst(xs[0], xs))
  {
    var n := |xs| - 1;
    var p := LastDrawdown(xs);
    if n == 0 {
      assert PeakFrom(xs[0], xs[..0]) == xs[0] && Worst(xs[0], xs[..0]) == 0.0;
      assert Change(xs, 0, 0) == 0.0;
      assert Worst(xs[0], xs) == Change(xs, 0, 0);
    } else {
      WorstIsLeastChange(xs[..n]);
      LeastOf(xs, Worst(xs[0], xs[..n]), Drawdown(xs[n], PeakFrom(xs[0], xs)), p);
    }
  }

  // ----- agreement with the drawdowns recorded bar by bar

  /** The least recorded drawdown, never above zero. */
  ghost function LeastRecorded(curve: seq<EquityPoint>): real {
    if curve == [] then 0.0
    else
      var before := LeastRecorded(curve[..|curve| - 1]);
      if curve[|curve| - 1].drawdown < before then curve[|curve| - 1].drawdown else before
  }

  /** The portfolio's peak and drawdowns are those of the curve itself, started at initial capital. */
  ghost predicate Recorded(terms: Terms, b: Book) {
    && b.peak == PeakFrom(terms.initialCapital, Equities(b.curve))
    && LeastRecorded(b.curve) == Worst(terms.initialCapital, Equities(b.curve))
  }

  lemma {:induction false} MarkRecords(terms: Terms, b: Book, symbol: string, price: real, time: int)
    requires Recorded(terms, b)
    ensures Recorded(terms, Mark(b, symbol, price, time))
  {
    var after := Mark(b, symbol, price, time);
    var n := |b.curve|;
    assert after.curve[..n] == b.curve;
    assert Equities(after.curve)[..n] == Equities(b.curve);
  }

  lemma {:induction false} BarRecords<S>(setup: Setup<S>, s: State<S>, c: Candle, first: bool)
    requires Executable(s) && Bar(setup, s, c, first).Ok? && Recorded(setup.terms, s.book)
    ensures Recorded(setup.terms, Bar(setup, s, c, first).value.book)
  {
    var accrued := AccruePhase(setup, s, c, first).value;
    BooksGrow(setup, accrued, c);
    var filled := FillPhase(setup, accrued, c).value;
    MarkRecords(setup.terms, filled.book, filled.symbol, c.close, c.time);
    MarginPhaseLeavesBooks(setup, MarkPhase(filled, c), c);
    SignalPhaseLeavesBooks(setup, MarginPhase(setup, MarkPhase(filled, c), c).value, c);
  }

  lemma {:induction false} RunRecords<S>(setup: Setup<S>, candles: seq<Candle>)
    requires RunBars(setup, candles).Ok?
    ensures Recorded(setup.terms, RunBars(setup, candles).value.book)
  {
    if candles != [] {
      var n := |candles| - 1;
      RunRecords(setup, candles[..n]);
      BarRecords(setup, RunBars(setup, candles[..n]).value, candles[n], n == 0);
    }
  }

  /** No order is pending on the first bar, so the first equity point is the initial capital. */
  lemma {:induction false} FirstPointIsCapital<S>(setup: Setup<S>, candles: seq<Candle>)
    requires candles != [] && RunBars(setup, candles).Ok?
    ensures var curve := RunBars(setup, candles).value.book.curve;
            |curve| == |candles| && curve[0].equity == setup.terms.initialCapital
  {
    OnePointPerBar(setup, candles);
    Causality(setup, candles, 1);
    var first := candles[..1];
    assert first[..0] == [];
    var s := Start(setup);
    var marked := MarkPhase(s, first[0]);
    MarginPhaseLeavesBooks(setup, marked, first[0]);
    SignalPhaseLeavesBooks(setup, MarginPhase(setup, marked, first[0]).value, first[0]);
    assert RunBars(setup, first).value.book == marked.book;
    assert marked.book.curve[0].equity == setup.terms.initialCapital;
  }

  /** For every run, `max_drawdown` of the equity curve is the least drawdown recorded bar by bar. */
  lemma {:induction false} DrawdownsAgree<S>(setup: Setup<S>, candles: seq<Candle>)
    requires candles != [] && RunBars(setup, candles).Ok?
    ensures var curve := RunBars(setup, candles).value.book.curve;
            curve != [] && LeastRecorded(curve) == Worst(curve[0].equity, Equities(curve))
  {
    FirstPointIsCapital(setup, candles);
    RunRecords(setup, candles);
  }
}
