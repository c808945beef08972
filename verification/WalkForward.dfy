/** Walk-forward analysis: rolling train/test windows and the chained out-of-sample equity curve. */
module WalkForward {
  import opened Market
  import opened Engine
  import opened Reals
  import Metrics

  /** Candle indices: training is [start, split), testing is [split, end). */
  datatype Window = Window(index: nat, start: nat, split: nat, end: nat)

  function WindowCount(candles: nat, inSample: nat, outOfSample: nat, step: nat): nat
    requires step > 0
  {
    if candles < inSample + outOfSample then 0 else (candles - inSample - outOfSample) / step + 1
  }

  // ----- chaining

  function ScaledPoint(p: EquityPoint, factor: real): EquityPoint {
    p.(equity := p.equity * factor)
  }

  function Scaled(curve: seq<EquityPoint>, factor: real): seq<EquityPoint> {
    seq(|curve|, i requires 0 <= i < |curve| => ScaledPoint(curve[i], factor))
  }

  /** The factor that makes a segment continue from the last combined point. */
  function SeamFactor(combined: seq<EquityPoint>, curve: seq<EquityPoint>): real
    requires combined != [] && curve != []
  {
    if curve[0].equity > 0.0 then combined[|combined| - 1].equity / curve[0].equity else 1.0
  }

  function Append(combined: seq<EquityPoint>, curve: seq<EquityPoint>): seq<EquityPoint> {
    if combined != [] && curve != [] then combined + Scaled(curve, SeamFactor(combined, curve)) else combined + curve
  }

  function Chain(curves: seq<seq<EquityPoint>>): seq<EquityPoint> {
    if curves == [] then [] else Append(Chain(curves[..|curves| - 1]), curves[|curves| - 1])
  }

  /** Where window k starts. */
  function Offset(k: nat, step: nat): nat {
    if k == 0 then 0 else Offset(k - 1, step) + step
  }

  function WindowAt(k: nat, inSample: nat, outOfSample: nat, step: nat): Window {
    Window(k, Offset(k, step), Offset(k, step) + inSample, Offset(k, step) + inSample + outOfSample)
  }

  lemma {:induction false} OffsetIsMultiple(k: nat, step: nat)
    ensures Offset(k, step) == k * step
  {
    if k > 0 {
      OffsetIsMultiple(k - 1, step);
      assert k * step == (k - 1) * step + step;
    }
  }

  /** Window k starts k steps in, tests right after it trains, and stays inside the candles. */
  ghost predicate Rolling(windows: seq<Window>, candles: nat, inSample: nat, outOfSample: nat, step: nat) {
    forall k :: 0 <= k < |windows| ==>
                  windows[k] == Window(k, k * step, k * step + inSample, k * step + inSample + outOfSample) && windows[k].end <= candles
  }

  method ScaleSegment(curve: seq<EquityPoint>, factor: real) returns (segment: seq<EquityPoint>)
    ensures segment == Scaled(curve, factor)
  {
    segment := [];
    ghost var whole := Scaled(curve, factor);
    for i := 0 to |curve|
      invariant segment == whole[..i]
    {
      segment := segment + [ScaledPoint(curve[i], factor)];
      assert whole[..i + 1] == whole[..i] + [whole[i]];
    }
  }

  // ----- the out-of-sample runs

  /** The parameters chosen on the training candles of a window; `None` when the strategy refuses them. */
  type Choice<!S> = seq<Candle> -> Result<Option<Setup<S>>, EngineError>

  /** The equity curve of the out-of-sample run of a window, on the candles right after those it was trained on: empty
      when the parameters are refused. A window outside the candles, which the loop never makes, has none. */
  function TestCurve<S>(candles: seq<Candle>, choose: Choice<S>, w: Window): Result<seq<EquityPoint>, EngineError> {
    if !(w.start <= w.split <= w.end <= |candles|) then Ok([])
    else
      var setup :- choose(candles[w.start..w.split]);
      if setup.None? then Ok([])
      else
        var run :- Run(setup.value, candles[w.split..w.end]);
        Ok(run.book.curve)
  }

  type Test = Window -> Result<seq<EquityPoint>, EngineError>

  function TestOn<S>(candles: seq<Candle>, choose: Choice<S>): Test {
    w => TestCurve(candles, choose, w)
  }

  /** The curves of the first n windows; the first run that raises ends the analysis. */
  function Curves(test: Test, inSample: nat, outOfSample: nat, step: nat, n: nat): Result<seq<seq<EquityPoint>>, EngineError> {
    if n == 0 then Ok([])
    else
      var before :- Curves(test, inSample, outOfSample, step, n - 1);
      var curve :- test(WindowAt(n - 1, inSample, outOfSample, step));
      Ok(before + [curve])
  }

  /** A window whose run raises ends the analysis with that error. */
  lemma {:induction false} FailureEnds(test: Test, inSample: nat, outOfSample: nat, step: nat, k: nat, n: nat)
    requires k <= n && Curves(test, inSample, outOfSample, step, k).Err?
    ensures Curves(test, inSample, outOfSample, step, n) == Curves(test, inSample, outOfSample, step, k)
    decreases n
  {
    if k < n {
      FailureEnds(test, inSample, outOfSample, step, k, n - 1);
    }
  }

  lemma {:induction false} ChainOneMore(curves: seq<seq<EquityPoint>>, curve: seq<EquityPoint>)
    ensures Chain(curves + [curve]) == Append(Chain(curves), curve)
  {
    assert (curves + [curve])[..|curves|] == curves;
  }

  method AppendCurve(combined: seq<EquityPoint>, curve: seq<EquityPoint>) returns (r: seq<EquityPoint>)
    ensures r == Append(combined, curve)
  {
    if combined != [] && curve != [] {
      var segment := ScaleSegment(curve, SeamFactor(combined, curve));
      r := combined + segment;
    } else {
      r := combined + curve;
    }
  }

  datatype Analysis = Analysis(windows: seq<Window>, combined: seq<EquityPoint>)

  /** The window loop, with the run of each window as a function. */
  method AnalyzeWith(candles: nat, test: Test, inSample: nat, outOfSample: nat, step: nat) returns (r: Result<Analysis, EngineError>)
    requires inSample > 0 && outOfSample > 0 && step > 0
    ensures var curves := Curves(test, inSample, outOfSample, step, WindowCount(candles, inSample, outOfSample, step));
            && (curves.Err? ==> r == Err(curves.error))
            && (curves.Ok? ==> r.Ok? && r.value.combined == Chain(curves.value))
    ensures r.Ok? ==> |r.value.windows| == WindowCount(candles, inSample, outOfSample, step)
                      && Rolling(r.value.windows, candles, inSample, outOfSample, step)
                      && candles < |r.value.windows| * step + inSample + outOfSample
  {
    var windows: seq<Window>, combined: seq<EquityPoint> := [], [];
    var start := 0;
    ghost var curves: seq<seq<EquityPoint>> := [];
    while start + inSample + outOfSample <= candles
      invariant start == Offset(|windows|, step)
      invariant |windows| > 0 ==> start + inSample + outOfSample <= candles + step
      invariant Rolling(windows, candles, inSample, outOfSample, step)
      invariant Curves(test, inSample, outOfSample, step, |windows|) == Ok(curves) && combined == Chain(curves)
      decreases candles - start
    {
      var window := Window(|windows|, start, start + inSample, start + inSample + outOfSample);
      var curve := test(window);
      if curve.Err? {
        NextWindowCounts(candles, inSample, outOfSample, step, |windows|);
        FailureEnds(test, inSample, outOfSample, step, |windows| + 1, WindowCount(candles, inSample, outOfSample, step));
        return Err(curve.error);
      }
      ChainOneMore(curves, curve.value);
      OffsetIsMultiple(|windows|, step);
      combined := AppendCurve(combined, curve.value);
      curves := curves + [curve.value];
      windows := windows + [window];
      start := start + step;
    }
    OffsetIsMultiple(|windows|, step);
    CountIs(candles, inSample, outOfSample, step, |windows|);
    r := Ok(Analysis(windows, combined));
  }

  /** The analysis: every window is trained on its in-sample candles and run on the out-of-sample candles after them. */
  method Analyze<S>(candles: seq<Candle>, choose: Choice<S>, inSample: nat, outOfSample: nat, step: nat) returns (r: Result<Analysis, EngineError>)
    requires inSample > 0 && outOfSample > 0 && step > 0
    ensures var curves := Curves(TestOn(candles, choose), inSample, outOfSample, step, WindowCount(|candles|, inSample, outOfSample, step));
            && (curves.Err? ==> r == Err(curves.error))
            && (curves.Ok? ==> r.Ok? && r.value.combined == Chain(curves.value))
    ensures r.Ok? ==> |r.value.windows| == WindowCount(|candles|, inSample, outOfSample, step)
                      && Rolling(r.value.windows, |candles|, inSample, outOfSample, step)
                      && |candles| < |r.value.windows| * step + inSample + outOfSample
  {
    r := AnalyzeWith(|candles|, TestOn(candles, choose), inSample, outOfSample, step);
  }

  lemma {:induction false} NextWindowCounts(candles: nat, inSample: nat, outOfSample: nat, step: nat, n: nat)
    requires step > 0 && Offset(n, step) + inSample + outOfSample <= candles
    ensures n + 1 <= WindowCount(candles, inSample, outOfSample, step)
  {
    var room := candles - inSample - outOfSample;
    OffsetIsMultiple(n, step);
    if n > room / step {
      MulMonotone(step, room / step + 1, n);
      assert room < step * (room / step) + step;
    }
  }

  lemma CountIs(candles: nat, inSample: nat, outOfSample: nat, step: nat, count: nat)
    requires step > 0
    requires candles < count * step + inSample + outOfSample
    requires count > 0 ==> count * step + inSample + outOfSample <= candles + step
    ensures count == WindowCount(candles, inSample, outOfSample, step)
  {
    if count > 0 {
      var room := candles - inSample - outOfSample;
      assert (count - 1) * step <= room < (count - 1) * step + step;
      QuotientOf(room, step, count - 1);
    }
  }

  lemma MulMonotone(d: int, x: int, y: int)
    requires d > 0 && x <= y
    ensures d * x <= d * y
  {
  }

  lemma QuotientOf(x: int, d: int, q: int)
    requires d > 0 && q * d <= x < q * d + d
    ensures x / d == q
  {
    var a := x / d;
    assert d * a <= x < d * a + d;
    if a > q {
      MulMonotone(d, q + 1, a);
    } else if a < q {
      MulMonotone(d, a + 1, q);
    }
  }

  // ----- what the chained curve is

  function Growth(curve: seq<EquityPoint>): real {
    if curve == [] || curve[0].equity == 0.0 then 1.0 else curve[|curve| - 1].equity / curve[0].equity
  }

  function Product(curves: seq<seq<EquityPoint>>): real {
    if curves == [] then 1.0 else Grown(Product(curves[..|curves| - 1]), curves[|curves| - 1])
  }

  function Grown(product: real, curve: seq<EquityPoint>): real {
    product * Growth(curve)
  }

  /** Every segment is empty or starts from the same positive capital, as engine runs do. */
  ghost predicate Funded(curves: seq<seq<EquityPoint>>, capital: real) {
    capital > 0.0 && forall k :: 0 <= k < |curves| && curves[k] != [] ==> curves[k][0].equity == capital
  }

  lemma AppendEnds(combined: seq<EquityPoint>, curve: seq<EquityPoint>)
    requires curve != []
    ensures var r := Append(combined, curve);
            r != [] && r[|r| - 1].equity
                       == curve[|curve| - 1].equity * (if combined == [] then 1.0 else SeamFactor(combined, curve))
  {
  }

  ghost predicate EndsAt(combined: seq<EquityPoint>, capital: real, product: real) {
    if combined == [] then product == 1.0 else combined[|combined| - 1].equity == capital * product
  }

  lemma {:induction false} AppendGrows(combined: seq<EquityPoint>, curve: seq<EquityPoint>, capital: real, product: real)
    requires capital > 0.0 && (curve != [] ==> curve[0].equity == capital)
    requires EndsAt(combined, capital, product)
    ensures EndsAt(Append(combined, curve), capital, Grown(product, curve))
  {
    if curve != [] {
      AppendEnds(combined, curve);
      SeamProduct(capital * product, curve[|curve| - 1].equity, capital, product);
      assert capital / capital == 1.0;
    } else {
      assert Append(combined, curve) == combined;
    }
  }

  /** The combined curve ends at the capital times the growth factors of all segments. */
  lemma {:induction false} FinalEquity(curves: seq<seq<EquityPoint>>, capital: real)
    requires Funded(curves, capital)
    ensures EndsAt(Chain(curves), capital, Product(curves))
  {
    if curves != [] {
      var n := |curves| - 1;
      FinalEquity(curves[..n], capital);
      AppendGrows(Chain(curves[..n]), curves[n], capital, Product(curves[..n]));
    }
  }

  lemma SeamProduct(previous: real, last: real, capital: real, product: real)
    requires capital > 0.0 && previous == capital * product
    ensures last * (previous / capital) == capital * (product * (last / capital))
  {
    var g := last / capital;
    assert g * capital == last;
    Exact(previous, product, capital);
    assert last * product == g * capital * product;
  }

  lemma Exact(x: real, q: real, d: real)
    requires d > 0.0 && x == d * q
    ensures x / d == q
  {
    assert (x / d) * d == x;
    Cancel(x / d, q, d);
    Cancel(q, x / d, d);
  }

  lemma {:induction false} ChainIsPrefix(curves: seq<seq<EquityPoint>>, k: nat)
    requires k <= |curves|
    ensures Chain(curves[..k]) <= Chain(curves)
    decreases |curves|
  {
    if k == |curves| {
      assert curves[..k] == curves;
    } else {
      var n := |curves| - 1;
      assert curves[..n][..k] == curves[..k];
      ChainIsPrefix(curves[..n], k);
    }
  }

  ghost predicate ScaledAt(combined: seq<EquityPoint>, at: nat, curve: seq<EquityPoint>, capital: real)
    requires capital > 0.0
  {
    && at + |curve| <= |combined| && curve != []
    && (at == 0 ==> combined[..|curve|] == curve)
    && (at > 0 ==>
          && combined[at..at + |curve|] == Scaled(curve, combined[at - 1].equity / capital)
          && combined[at].equity == combined[at - 1].equity)
  }

  lemma {:induction false} AppendIsScaled(before: seq<EquityPoint>, curve: seq<EquityPoint>, capital: real)
    requires capital > 0.0 && curve != [] && curve[0].equity == capital
    ensures ScaledAt(Append(before, curve), |before|, curve, capital)
  {
    var r := Append(before, curve);
    if before != [] {
      var factor := before[|before| - 1].equity / capital;
      assert r[|before|..|before| + |curve|] == Scaled(curve, factor);
      assert r[|before|] == ScaledPoint(curve[0], factor);
      assert capital * factor == before[|before| - 1].equity;
    }
  }

  /** Segment k stands in the combined curve as a constant multiple of its own curve, and where it joins
      an earlier segment there is no change of equity at the seam. */
  lemma {:induction false} SegmentIsScaled(curves: seq<seq<EquityPoint>>, capital: real, k: nat)
    requires Funded(curves, capital) && k < |curves| && curves[k] != []
    ensures ScaledAt(Chain(curves), |Chain(curves[..k])|, curves[k], capital)
  {
    var before, upTo, combined := Chain(curves[..k]), Chain(curves[..k + 1]), Chain(curves);
    assert curves[..k + 1][..k] == curves[..k];
    AppendIsScaled(before, curves[k], capital);
    ChainIsPrefix(curves, k + 1);
    ScaledInPrefix(upTo, combined, |before|, curves[k], capital);
  }

  lemma {:induction false} ScaledInPrefix(upTo: seq<EquityPoint>, combined: seq<EquityPoint>, at: nat, curve: seq<EquityPoint>, capital: real)
    requires capital > 0.0 && upTo <= combined && ScaledAt(upTo, at, curve, capital)
    ensures ScaledAt(combined, at, curve, capital)
  {
    assert combined[at..at + |curve|] == upTo[at..at + |curve|];
    assert combined[..|curve|] == upTo[..|curve|];
  }

  lemma {:induction false} ChainStarts(curves: seq<seq<EquityPoint>>, capital: real)
    requires Funded(curves, capital)
    ensures Chain(curves) != [] ==> Chain(curves)[0].equity == capital
  {
    if curves != [] {
      ChainStarts(curves[..|curves| - 1], capital);
    }
  }

  /** Every choice of parameters runs on the same capital, that of the analyzer's configuration. */
  ghost predicate SharesCapital<S>(choose: Choice<S>, capital: real) {
    forall train: seq<Candle> :: choose(train).Ok? && choose(train).value.Some? ==> choose(train).value.value.terms.initialCapital == capital
  }

  lemma {:induction false} TestIsFunded<S(!new)>(candles: seq<Candle>, choose: Choice<S>, w: Window, capital: real)
    requires SharesCapital(choose, capital) && TestCurve(candles, choose, w).Ok?
    ensures var curve := TestCurve(candles, choose, w).value; curve != [] ==> curve[0].equity == capital
  {
    if w.start <= w.split <= w.end <= |candles| {
      var train, test := candles[w.start..w.split], candles[w.split..w.end];
      if choose(train).value.Some? {
        Metrics.FirstPointIsCapital(choose(train).value.value, test);
      }
    }
  }

  lemma {:induction false} CurvesAreFunded(test: Test, inSample: nat, outOfSample: nat, step: nat, n: nat, capital: real)
    requires capital > 0.0 && Curves(test, inSample, outOfSample, step, n).Ok?
    requires forall w: Window :: test(w).Ok? && test(w).value != [] ==> test(w).value[0].equity == capital
    ensures Funded(Curves(test, inSample, outOfSample, step, n).value, capital)
  {
    if n > 0 {
      CurvesAreFunded(test, inSample, outOfSample, step, n - 1, capital);
    }
  }

  /** Walk-forward chaining, for the out-of-sample runs of any windows of any candles, whatever parameters were chosen
      and wherever they were refused: the combined curve starts at the capital, ends at it times the product of the
      growth factors, and holds each run's curve as a constant multiple of itself with no change at the seam. */
  lemma {:induction false} ChainedRuns<S(!new)>(candles: seq<Candle>, choose: Choice<S>, inSample: nat, outOfSample: nat, step: nat, n: nat, capital: real)
    requires capital > 0.0 && SharesCapital(choose, capital)
    requires Curves(TestOn(candles, choose), inSample, outOfSample, step, n).Ok?
    ensures var curves := Curves(TestOn(candles, choose), inSample, outOfSample, step, n).value;
            var combined := Chain(curves);
            && (combined != [] ==> combined[0].equity == capital)
            && EndsAt(combined, capital, Product(curves))
            && forall k :: 0 <= k < |curves| && curves[k] != [] ==> ScaledAt(combined, |Chain(curves[..k])|, curves[k], capital)
  {
    var test := TestOn(candles, choose);
    forall w: Window | test(w).Ok?
      ensures test(w).value != [] ==> test(w).value[0].equity == capital
    {
      TestIsFunded(candles, choose, w, capital);
    }
    CurvesAreFunded(test, inSample, outOfSample, step, n, capital);
    ChainsFunded(Curves(test, inSample, outOfSample, step, n).value, capital);
  }

  lemma {:induction false} ChainsFunded(curves: seq<seq<EquityPoint>>, capital: real)
    requires Funded(curves, capital)
    ensures var combined := Chain(curves);
            && (combined != [] ==> combined[0].equity == capital)
            && EndsAt(combined, capital, Product(curves))
            && forall k :: 0 <= k < |curves| && curves[k] != [] ==> ScaledAt(combined, |Chain(curves[..k])|, curves[k], capital)
  {
    ChainStarts(curves, capital);
    FinalEquity(curves, capital);
    forall k | 0 <= k < |curves| && curves[k] != []
      ensures ScaledAt(Chain(curves), |Chain(curves[..k])|, curves[k], capital)
    {
      SegmentIsScaled(curves, capital, k);
    }
  }
}
