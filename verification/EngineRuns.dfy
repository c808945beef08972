/** Properties of whole runs: causality and the life of a conditional order. */
module EngineRuns {
  import opened Market
  import opened Broker
  import opened Ledger
  import opened Engine
  import opened EngineInvariant

  // ----- causality

  lemma {:induction false} SignalPhaseLeavesBooks<S>(setup: Setup<S>, s: State<S>, c: Candle)
    ensures var r := SignalPhase(setup, s, c); r.Ok? ==> r.value.book == s.book && s.nextId <= r.value.nextId
  {
    DrainOfMarket(setup, s, s.symbol, c);
  }

  lemma {:induction false} MarginPhaseLeavesBooks<S>(setup: Setup<S>, s: State<S>, c: Candle)
    ensures var r := MarginPhase(setup, s, c); r.Ok? ==> r.value.book == s.book && s.nextId <= r.value.nextId
  {
    if Breached(setup.terms, s.book) {
      var order := ForcedCover(s.book.positions[0], c, s.nextId);
      DrainOfOrder(setup, s.(forced := s.forced + {s.nextId}, nextId := s.nextId + 1), order, c);
    }
  }

  lemma {:induction false} FillPhaseKeepsIds<S>(setup: Setup<S>, s: State<S>, c: Candle)
    requires Executable(s)
    ensures var r := FillPhase(setup, s, c); r.Ok? ==> r.value.nextId == s.nextId
  {
    if s.pending.Some? {
      var f := Execute(setup.costs, s.pending.value.order, c);
      if f.Some? {
        DrainOfFill(setup, s, f.value, c);
      }
    }
  }

  lemma {:induction false} BarAppends<S>(setup: Setup<S>, s: State<S>, c: Candle, first: bool)
    requires Executable(s) && Bar(setup, s, c, first).Ok?
    ensures var after := Bar(setup, s, c, first).value;
            && |after.book.curve| == |s.book.curve| + 1 && after.book.curve[..|s.book.curve|] == s.book.curve
            && s.book.trades <= after.book.trades
            && s.nextId <= after.nextId
  {
    var accrued := AccruePhase(setup, s, c, first).value;
    BooksGrow(setup, accrued, c);
    FillPhaseKeepsIds(setup, accrued, c);
    var marked := MarkPhase(FillPhase(setup, accrued, c).value, c);
    MarginPhaseLeavesBooks(setup, marked, c);
    SignalPhaseLeavesBooks(setup, MarginPhase(setup, marked, c).value, c);
  }

  /** `whole` continues `part`, which is over the first k bars. */
  ghost predicate Extends<S>(part: Result<State<S>, EngineError>, whole: Result<State<S>, EngineError>, k: nat) {
    && (part.Err? ==> whole == part)
    && (whole.Ok? ==>
          && part.Ok?
          && |part.value.book.curve| == k && part.value.book.curve <= whole.value.book.curve
          && part.value.book.trades <= whole.value.book.trades
          && part.value.nextId <= whole.value.nextId)
  }

  lemma {:induction false} ExtendsOneBar<S>(setup: Setup<S>, candles: seq<Candle>)
    requires candles != []
    requires var part := RunBars(setup, candles[..|candles| - 1]);
             part.Ok? ==> |part.value.book.curve| == |candles| - 1
    ensures Extends(RunBars(setup, candles[..|candles| - 1]), RunBars(setup, candles), |candles| - 1)
    ensures var whole := RunBars(setup, candles); whole.Ok? ==> |whole.value.book.curve| == |candles|
  {
    var n := |candles| - 1;
    var before := RunBars(setup, candles[..n]);
    if before.Ok? && Bar(setup, before.value, candles[n], n == 0).Ok? {
      BarAppends(setup, before.value, candles[n], n == 0);
    }
  }

  lemma {:induction false} OnePointPerBar<S>(setup: Setup<S>, candles: seq<Candle>)
    ensures var whole := RunBars(setup, candles); whole.Ok? ==> |whole.value.book.curve| == |candles|
    decreases |candles|
  {
    if candles != [] {
      OnePointPerBar(setup, candles[..|candles| - 1]);
      ExtendsOneBar(setup, candles);
    }
  }

  /** A run over the first k bars is the first k bars of the run: same equity points, a prefix of the
      trades; and a run that fails on a prefix fails the same way on every extension of it. */
  lemma {:induction false} Causality<S>(setup: Setup<S>, candles: seq<Candle>, k: nat)
    requires k <= |candles|
    ensures Extends(RunBars(setup, candles[..k]), RunBars(setup, candles), k)
    decreases |candles|
  {
    var n := |candles| - 1;
    if k > n {
      assert candles[..k] == candles;
      OnePointPerBar(setup, candles);
    } else {
      assert candles[..n][..k] == candles[..k];
      Causality(setup, candles[..n], k);
      OnePointPerBar(setup, candles[..n]);
      ExtendsOneBar(setup, candles);
    }
  }

  /** No look-ahead inside a bar: whatever the strategy and the sizer answer to a bar, its books are
      those of any other strategy started from the same books and the same pending order. */
  lemma {:induction false} BooksIgnoreTheAnswer<S, T>(setup: Setup<S>, other: Setup<T>, s: State<S>, t: State<T>, c: Candle, first: bool)
    requires setup.terms == other.terms && setup.costs == other.costs
    requires s.book == t.book && s.pending == t.pending && s.symbol == t.symbol
    requires Executable(s)
    ensures var x, y := Bar(setup, s, c, first), Bar(other, t, c, first);
            x.Ok? && y.Ok? ==> x.value.book == y.value.book
  {
    var x, y := Bar(setup, s, c, first), Bar(other, t, c, first);
    if x.Ok? && y.Ok? {
      var u, v := AccruePhase(setup, s, c, first).value, AccruePhase(other, t, c, first).value;
      if u.pending.Some? && Execute(setup.costs, u.pending.value.order, c).Some? {
        var f := Execute(setup.costs, u.pending.value.order, c).value;
        DrainOfFill(setup, u, f, c);
        DrainOfFill(other, v, f, c);
      }
      var m, n := MarkPhase(FillPhase(setup, u, c).value, c), MarkPhase(FillPhase(other, v, c).value, c);
      MarginPhaseLeavesBooks(setup, m, c);
      MarginPhaseLeavesBooks(other, n, c);
      SignalPhaseLeavesBooks(setup, MarginPhase(setup, m, c).value, c);
      SignalPhaseLeavesBooks(other, MarginPhase(other, n, c).value, c);
    }
  }

  // ----- conditional orders are good till cancelled

  /** The state after the first k bars. */
  ghost function After<S>(setup: Setup<S>, candles: seq<Candle>, k: nat): State<S>
    requires k <= |candles| && RunBars(setup, candles[..k]).Ok?
  {
    RunBars(setup, candles[..k]).value
  }

  /** With no new order made on the bar, a conditional order leaves exactly when it is reached. */
  lemma {:induction false} BarRetains<S>(setup: Setup<S>, s: State<S>, prev: Candle, c: Candle)
    requires Invariant(s, prev) && prev.time < c.time && c.Priced() && setup.costs.Valid()
    requires Executable(s) && Bar(setup, s, c, false).Ok?
    requires Bar(setup, s, c, false).value.nextId == s.nextId
    ensures Bar(setup, s, c, false).value.pending
            == if s.pending.Some? && Reached(s.pending.value.order, c) then None else s.pending
  {
    AccruePhaseKeeps(setup, s, prev, c);
    var accrued := AccruePhase(setup, s, c, false).value;
    FillPhaseKeeps(setup, accrued, c);
    FillPhaseKeepsIds(setup, accrued, c);
    var marked := MarkPhase(FillPhase(setup, accrued, c).value, c);
    MarkPhaseKeeps(FillPhase(setup, accrued, c).value, c);
    MarginPhaseKeeps(setup, marked, c);
    var checked := MarginPhase(setup, marked, c).value;
    SignalPhaseKeeps(setup, checked, c);
  }

  lemma {:induction false} PrefixStep<S>(setup: Setup<S>, candles: seq<Candle>, n: nat)
    requires n < |candles| && RunBars(setup, candles[..n + 1]).Ok?
    ensures RunBars(setup, candles[..n]).Ok?
    ensures RunBars(setup, candles[..n + 1]) == Bar(setup, RunBars(setup, candles[..n]).value, candles[n], n == 0)
  {
    var upTo := candles[..n + 1];
    assert |upTo| - 1 == n && upTo[..n] == candles[..n] && upTo[n] == candles[n];
  }

  lemma {:induction false} NextBar<S>(setup: Setup<S>, candles: seq<Candle>, i: nat, n: nat)
    requires Tradable(setup, candles)
    requires 0 < i <= n < |candles|
    requires RunBars(setup, candles[..n]).Ok?
    ensures RunBars(setup, candles[..i]).Ok?
    ensures Invariant(After(setup, candles, n), candles[n - 1])
    ensures After(setup, candles, i).nextId <= After(setup, candles, n).nextId
  {
    var upTo := candles[..n];
    assert upTo[..i] == candles[..i];
    assert Tradable(setup, upTo);
    Causality(setup, upTo, i);
    RunKeepsInvariant(setup, upTo);
  }

  ghost predicate ReachedBetween(o: Order, candles: seq<Candle>, i: nat, j: nat)
    requires j <= |candles| && o.WellFormed()
  {
    exists t :: i <= t < j && Reached(o, candles[t])
  }

  lemma {:induction false} ReachedOneMore(o: Order, candles: seq<Candle>, i: nat, n: nat)
    requires i <= n < |candles| && o.WellFormed()
    ensures ReachedBetween(o, candles, i, n + 1) <==> ReachedBetween(o, candles, i, n) || Reached(o, candles[n])
  {
  }

  /** What is pending leaves exactly when it is reached. */
  ghost predicate Leaves(p: Option<Pending>, q: Option<Pending>, c: Candle) {
    && (p.Some? ==> p.value.order.WellFormed())
    && q == if p.Some? && Reached(p.value.order, c) then None else p
  }

  /** One bar on which no order was made. */
  lemma {:induction false} OneBarLater<S>(setup: Setup<S>, candles: seq<Candle>, n: nat, x: State<S>, y: State<S>)
    requires Tradable(setup, candles) && 0 < n < |candles|
    requires RunBars(setup, candles[..n]) == Ok(x) && RunBars(setup, candles[..n + 1]) == Ok(y)
    ensures x.nextId <= y.nextId
    ensures x.nextId == y.nextId ==> Leaves(x.pending, y.pending, candles[n])
  {
    PrefixStep(setup, candles, n);
    NextBar(setup, candles, n, n);
    BarAppends(setup, x, candles[n], false);
    if x.nextId == y.nextId {
      BarRetains(setup, x, candles[n - 1], candles[n]);
    }
  }

  /** What was pending after bar i is what is pending after bar j, unless a bar in between reached it. */
  ghost predicate Stands(p: Option<Pending>, q: Option<Pending>, candles: seq<Candle>, i: nat, j: nat)
    requires j <= |candles|
  {
    p.Some? && p.value.order.WellFormed() && q == if ReachedBetween(p.value.order, candles, i, j) then None else p
  }

  lemma {:induction false} StandsOneMore(p: Option<Pending>, z: Option<Pending>, q: Option<Pending>, candles: seq<Candle>, i: nat, n: nat)
    requires i <= n < |candles| && Stands(p, z, candles, i, n) && Leaves(z, q, candles[n])
    ensures Stands(p, q, candles, i, n + 1)
  {
    ReachedOneMore(p.value.order, candles, i, n);
  }

  lemma {:induction false} StandsAtFirst(p: Option<Pending>, candles: seq<Candle>, i: nat)
    requires i <= |candles| && p.Some? && p.value.order.WellFormed()
    ensures Stands(p, p, candles, i, i)
  {
  }

  /** The state one bar before, whose identifiers lie between. */
  lemma {:induction false} OneBarEarlier<S>(setup: Setup<S>, candles: seq<Candle>, i: nat, n: nat, x: State<S>, y: State<S>) returns (z: State<S>)
    requires Tradable(setup, candles) && 0 < i <= n < |candles|
    requires RunBars(setup, candles[..i]) == Ok(x) && RunBars(setup, candles[..n + 1]) == Ok(y)
    ensures RunBars(setup, candles[..n]) == Ok(z) && x.nextId <= z.nextId <= y.nextId
    ensures z.nextId == y.nextId ==> Leaves(z.pending, y.pending, candles[n])
  {
    PrefixStep(setup, candles, n);
    z := RunBars(setup, candles[..n]).value;
    NextBar(setup, candles, i, n);
    OneBarLater(setup, candles, n, z, y);
  }

  lemma {:induction false} StandsFrom<S>(setup: Setup<S>, candles: seq<Candle>, i: nat, j: nat, x: State<S>, y: State<S>)
    requires Tradable(setup, candles) && 0 < i <= j <= |candles|
    requires RunBars(setup, candles[..i]) == Ok(x) && RunBars(setup, candles[..j]) == Ok(y)
    requires x.pending.Some? && y.nextId == x.nextId
    ensures Stands(x.pending, y.pending, candles, i, j)
    decreases j
  {
    if i == j {
      StandsAtFirst(x.pending, candles, i);
    } else {
      var n := j - 1;
      var z := OneBarEarlier(setup, candles, i, n, x, y);
      StandsFrom(setup, candles, i, n, x, z);
      StandsOneMore(x.pending, z.pending, y.pending, candles, i, n);
    }
  }

  /** An order pending after bar i and not superseded by bar j is still pending just when no bar in
      between reached it. */
  lemma {:induction false} PendingUntilReached<S>(setup: Setup<S>, candles: seq<Candle>, i: nat, j: nat)
    requires Tradable(setup, candles) && RunBars(setup, candles).Ok?
    requires 0 < i <= j <= |candles|
    requires RunBars(setup, candles[..i]).Ok? && RunBars(setup, candles[..j]).Ok?
    requires After(setup, candles, i).pending.Some?
    requires After(setup, candles, j).nextId == After(setup, candles, i).nextId
    ensures var p := After(setup, candles, i).pending;
            After(setup, candles, j).pending ==
            if ReachedBetween(p.value.order, candles, i, j) then None else p
  {
    StandsFrom(setup, candles, i, j, After(setup, candles, i), After(setup, candles, j));
  }

  /** GTC exactness: a limit or stop order that stands after bar i and is not superseded executes on
      bar j if and only if bar j is the first one after it that reaches the order. */
  lemma {:induction false} GoodTillCancelled<S>(setup: Setup<S>, candles: seq<Candle>, i: nat, j: nat)
    requires Tradable(setup, candles) && RunBars(setup, candles).Ok?
    requires 0 < i <= j < |candles|
    requires RunBars(setup, candles[..i]).Ok? && RunBars(setup, candles[..j]).Ok?
    requires After(setup, candles, i).pending.Some?
    requires After(setup, candles, j).nextId == After(setup, candles, i).nextId
    ensures var p := After(setup, candles, i).pending.value;
            (After(setup, candles, j).pending == Some(p) && Execute(setup.costs, p.order, candles[j]).Some?)
            <==> (Reached(p.order, candles[j]) && forall t :: i <= t < j ==> !Reached(p.order, candles[t]))
  {
    PendingUntilReached(setup, candles, i, j);
    FillsExactlyWhenReached(setup.costs, After(setup, candles, i).pending.value.order, candles[j]);
  }
}
