/** The structural rules for one provider range: duplicates, row values, calendar, and their counters. */
module Quality {
  import opened Market
  import opened Sessions
  import opened Frames
  import opened Normalization
  import opened Reals
  import Lineage
  import Candidates

  // ----- row values

  datatype Column = Open | High | Low | Close | Volume | AdjClose | Dividend | Split

  datatype Reason =
    | NotFiniteNumeric(column: Column)
    | NotPositive(column: Column)
    | Negative(column: Column)
    | HighBelowOpenOrClose
    | LowAboveOpenOrClose
    | AdjustmentFactorNotPositive
    | CalendarMismatch

  function Field(b: Bar, c: Column): Value {
    match c
    case Open => b.open
    case High => b.high
    case Low => b.low
    case Close => b.close
    case Volume => b.volume
    case AdjClose => b.adjClose
    case Dividend => b.dividend
    case Split => b.split
  }

  const PRICES := [Open, High, Low, Close, AdjClose]

  predicate IsPrice(c: Column) {
    c.Open? || c.High? || c.Low? || c.Close? || c.AdjClose?
  }

  /** When a reason is given for a bar; the calendar is judged apart. */
  predicate Applies(reason: Reason, b: Bar) {
    match reason
    case NotFiniteNumeric(c) => !Field(b, c).Finite?
    case NotPositive(c) => (IsPrice(c) || c == Split) && Field(b, c).Finite? && Field(b, c).v <= 0.0
    case Negative(c) => (c == Volume || c == Dividend) && Field(b, c).Finite? && Field(b, c).v < 0.0
    case HighBelowOpenOrClose => b.high.Finite? && b.open.Finite? && b.close.Finite? && b.high.v < Max(b.open.v, b.close.v)
    case LowAboveOpenOrClose => b.low.Finite? && b.open.Finite? && b.close.Finite? && b.low.v > Min(b.open.v, b.close.v)
    case AdjustmentFactorNotPositive => b.adjClose.Finite? && b.close.Finite? && b.close.v != 0.0 && b.adjClose.v / b.close.v <= 0.0
    case CalendarMismatch => false
  }

  predicate AllFinite(b: Bar) {
    && b.open.Finite? && b.high.Finite? && b.low.Finite? && b.close.Finite?
    && b.volume.Finite? && b.adjClose.Finite? && b.dividend.Finite? && b.split.Finite?
  }

  function RowOf(day: Day, provider: Provider, b: Bar): Row
    requires AllFinite(b)
  {
    Row(day, provider, b.open.v, b.high.v, b.low.v, b.close.v, b.adjClose.v, b.volume.v, b.dividend.v, b.split.v)
  }

  /** The bar is a row that the store's own validator accepts. */
  predicate ValidBar(b: Bar) {
    AllFinite(b) && RowOf(0, YFinance, b).Valid()
  }

  const COLUMNS := [Open, High, Low, Close, Volume, AdjClose, Dividend, Split]

  /** `_row_reasons`: exactly the reasons that apply. */
  method RowReasons(b: Bar) returns (reasons: seq<Reason>)
    ensures forall r :: r in reasons <==> Applies(r, b)
  {
    reasons := [];
    for i := 0 to |COLUMNS|
      invariant forall r :: r in reasons <==> r.NotFiniteNumeric? && Applies(r, b) && r.column in COLUMNS[..i]
    {
      if !Field(b, COLUMNS[i]).Finite? {
        reasons := reasons + [NotFiniteNumeric(COLUMNS[i])];
      }
    }
    assert COLUMNS[..|COLUMNS|] == COLUMNS;
    forall c: Column
      ensures c in COLUMNS && (c in PRICES <==> IsPrice(c))
    {
      ColumnIsListed(c);
    }
    for i := 0 to |PRICES|
      invariant forall r :: r in reasons <==> (r.NotFiniteNumeric? || (r.NotPositive? && r.column in PRICES[..i])) && Applies(r, b)
    {
      if Field(b, PRICES[i]).Finite? && Field(b, PRICES[i]).v <= 0.0 {
        reasons := reasons + [NotPositive(PRICES[i])];
      }
    }
    assert PRICES[..|PRICES|] == PRICES;
    var signs := SignReasons(b);
    var shape := ShapeReasons(b);
    reasons := reasons + signs + shape;
  }

  lemma {:induction false} ColumnIsListed(c: Column)
    ensures c in COLUMNS && (c in PRICES <==> IsPrice(c))
  {
    assert COLUMNS[0] == Open && COLUMNS[1] == High && COLUMNS[2] == Low && COLUMNS[3] == Close;
    assert COLUMNS[4] == Volume && COLUMNS[5] == AdjClose && COLUMNS[6] == Dividend && COLUMNS[7] == Split;
    assert PRICES[0] == Open && PRICES[1] == High && PRICES[2] == Low && PRICES[3] == Close && PRICES[4] == AdjClose;
  }

  method SignReasons(b: Bar) returns (reasons: seq<Reason>)
    ensures forall r :: r in reasons <==> (r.Negative? || r == NotPositive(Split)) && Applies(r, b)
  {
    reasons := [];
    if b.volume.Finite? && b.volume.v < 0.0 {
      reasons := reasons + [Negative(Volume)];
    }
    if b.dividend.Finite? && b.dividend.v < 0.0 {
      reasons := reasons + [Negative(Dividend)];
    }
    if b.split.Finite? && b.split.v <= 0.0 {
      reasons := reasons + [NotPositive(Split)];
    }
  }

  method ShapeReasons(b: Bar) returns (reasons: seq<Reason>)
    ensures forall r :: r in reasons <==> !r.NotFiniteNumeric? && !r.NotPositive? && !r.Negative? && Applies(r, b)
  {
    reasons := [];
    if b.high.Finite? && b.open.Finite? && b.close.Finite? && b.high.v < Max(b.open.v, b.close.v) {
      reasons := reasons + [HighBelowOpenOrClose];
    }
    if b.low.Finite? && b.open.Finite? && b.close.Finite? && b.low.v > Min(b.open.v, b.close.v) {
      reasons := reasons + [LowAboveOpenOrClose];
    }
    if b.adjClose.Finite? && b.close.Finite? && b.close.v != 0.0 && b.adjClose.v / b.close.v <= 0.0 {
      reasons := reasons + [AdjustmentFactorNotPositive];
    }
  }

  /** The two row checks agree: the quality rules find no reason exactly for the rows the store accepts. */
  lemma {:induction false} NoReasonExactlyForValidBars(b: Bar)
    ensures ValidBar(b) <==> forall r: Reason :: !Applies(r, b)
  {
    if ValidBar(b) {
      PositiveQuotient(b.adjClose.v, b.close.v);
    }
    if forall r: Reason :: !Applies(r, b) {
      assert !Applies(NotFiniteNumeric(Open), b) && !Applies(NotFiniteNumeric(High), b) && !Applies(NotFiniteNumeric(Low), b);
      assert !Applies(NotFiniteNumeric(Close), b) && !Applies(NotFiniteNumeric(Volume), b) && !Applies(NotFiniteNumeric(AdjClose), b);
      assert !Applies(NotFiniteNumeric(Dividend), b) && !Applies(NotFiniteNumeric(Split), b);
      assert !Applies(NotPositive(Open), b) && !Applies(NotPositive(High), b) && !Applies(NotPositive(Low), b) && !Applies(NotPositive(Close), b);
      assert !Applies(NotPositive(AdjClose), b) && !Applies(NotPositive(Split), b) && !Applies(Negative(Volume), b) && !Applies(Negative(Dividend), b);
      assert !Applies(HighBelowOpenOrClose, b) && !Applies(LowAboveOpenOrClose, b);
    }
  }

  /** The accepted row carries the provider's own figures. An absent action column means no dividend and no split
      where the provider reports actions, and an unusable row where it does not. */
  lemma {:induction false} RowCarriesFigures(batch: Batch, r: RawRow, day: Day, provider: Provider)
    ensures !batch.represented && (r.dividend.None? || r.split.None?) ==> !ValidBar(BarOf(batch, r))
    ensures ValidBar(BarOf(batch, r)) ==>
              var row := RowOf(day, provider, BarOf(batch, r));
              && row.day == day && row.source == provider
              && Finite(row.open) == r.open && Finite(row.high) == r.high && Finite(row.low) == r.low && Finite(row.close) == r.close
              && Finite(row.volume) == r.volume && Finite(row.adjClose) == r.adjClose
              && (if r.dividend.Some? then Finite(row.dividend) == r.dividend.value else row.dividend == 0.0)
              && (if r.split.Some? then Finite(row.split) == r.split.value else row.split == 1.0)
  {
  }

  lemma {:induction false} PositiveQuotient(x: real, y: real)
    requires x > 0.0 && y > 0.0
    ensures x / y > 0.0
  {
    if x / y <= 0.0 {
      assert x == (x / y) * y;
    }
  }

  // ----- duplicates

  /** Every row of the same date carries the same values as row `k`. */
  ghost predicate Unanimous(cs: seq<Candidate>, k: nat)
    requires k < |cs|
  {
    forall i :: 0 <= i < |cs| && cs[i].day == cs[k].day ==> cs[i].bar == cs[k].bar
  }

  ghost predicate FirstOfDay(cs: seq<Candidate>, k: nat)
    requires k < |cs|
  {
    forall i :: 0 <= i < k ==> cs[i].day != cs[k].day
  }

  /** How many of the first `n` rows belong to a day with conflicting values. */
  ghost function Contested(cs: seq<Candidate>, n: nat): nat
    requires n <= |cs|
  {
    if n == 0 then 0 else Contested(cs, n - 1) + if Unanimous(cs, n - 1) then 0 else 1
  }

  /** The rows kept: the first of each unanimous day, in order. */
  ghost function Kept(cs: seq<Candidate>, n: nat): seq<Candidate>
    requires n <= |cs|
  {
    if n == 0 then []
    else Kept(cs, n - 1) + if FirstOfDay(cs, n - 1) && Unanimous(cs, n - 1) then [cs[n - 1]] else []
  }

  /** The rows `i` to `j` are all the rows of one date. */
  ghost predicate WholeGroup(cs: seq<Candidate>, i: nat, j: nat) {
    && i < j <= |cs|
    && forall k :: 0 <= k < |cs| ==> (cs[k].day == cs[i].day <==> i <= k < j)
  }

  lemma {:induction false} GroupSum(cs: seq<Candidate>, i: nat, j: nat, m: nat)
    requires WholeGroup(cs, i, j) && i < m <= j
    ensures Contested(cs, m) == Contested(cs, i) + if Unanimous(cs, i) then 0 else m - i
    ensures Kept(cs, m) == Kept(cs, i) + if Unanimous(cs, i) then [cs[i]] else []
    decreases m
  {
    if m > i + 1 {
      GroupSum(cs, i, j, m - 1);
      assert cs[m - 1].day == cs[i].day;
      SameDaySameAnswer(cs, i, m - 1);
    }
  }

  lemma {:induction false} SameDaySameAnswer(cs: seq<Candidate>, i: nat, k: nat)
    requires i < |cs| && k < |cs| && cs[i].day == cs[k].day
    ensures Unanimous(cs, i) <==> Unanimous(cs, k)
  {
    if Unanimous(cs, i) {
      assert cs[k].bar == cs[i].bar;
    }
    if Unanimous(cs, k) {
      assert cs[i].bar == cs[k].bar;
    }
  }

  /** In date order, a scanned group holds all rows of its date. */
  lemma {:induction false} GroupIsWhole(cs: seq<Candidate>, i: nat, j: nat)
    requires InOrder(cs) && i < j <= |cs| && (i > 0 ==> cs[i - 1].day < cs[i].day)
    requires (forall k :: i <= k < j ==> cs[k].day == cs[i].day) && (j < |cs| ==> cs[j].day != cs[i].day)
    ensures WholeGroup(cs, i, j) && (j < |cs| ==> cs[j - 1].day < cs[j].day)
  {
    assert j < |cs| ==> Before(cs[i], cs[j]);
    forall k | 0 <= k < |cs|
      ensures k < i ==> cs[k].day < cs[i].day
      ensures k >= j ==> cs[k].day > cs[i].day
    {
      assert k < i - 1 ==> Before(cs[k], cs[i - 1]);
      assert j < k ==> Before(cs[j], cs[k]);
    }
  }

  /** The scan over the groups of equal date. */
  method Deduplicate(cs: seq<Candidate>) returns (retained: seq<Candidate>, exactRemoved: nat, conflicting: nat)
    requires InOrder(cs)
    ensures retained == Kept(cs, |cs|)
    ensures conflicting == Contested(cs, |cs|)
    ensures exactRemoved + conflicting + |retained| == |cs|
  {
    retained, exactRemoved, conflicting := [], 0, 0;
    var i := 0;
    while i < |cs|
      invariant i <= |cs|
      invariant 0 < i < |cs| ==> cs[i - 1].day < cs[i].day
      invariant retained == Kept(cs, i) && conflicting == Contested(cs, i)
      invariant exactRemoved + conflicting + |retained| == i
    {
      var j, identical := i + 1, true;
      while j < |cs| && cs[j].day == cs[i].day
        invariant i < j <= |cs|
        invariant forall k :: i <= k < j ==> cs[k].day == cs[i].day
        invariant identical <==> forall k :: i <= k < j ==> cs[k].bar == cs[i].bar
      {
        identical := identical && cs[j].bar == cs[i].bar;
        j := j + 1;
      }
      GroupIsWhole(cs, i, j);
      assert identical <==> Unanimous(cs, i);
      GroupSum(cs, i, j, j);
      if identical {
        exactRemoved := exactRemoved + (j - i - 1);
        retained := retained + [cs[i]];
      } else {
        conflicting := conflicting + (j - i);
      }
      i := j;
    }
  }

  lemma {:induction false} KeptOrigin(cs: seq<Candidate>, n: nat, c: Candidate)
    requires n <= |cs| && c in Kept(cs, n)
    ensures exists k: nat :: k < n && cs[k] == c && FirstOfDay(cs, k) && Unanimous(cs, k)
  {
    if c in Kept(cs, n - 1) {
      KeptOrigin(cs, n - 1, c);
    } else {
      assert cs[n - 1] == c;
    }
  }

  lemma {:induction false} FirstIsKept(cs: seq<Candidate>, n: nat, k: nat)
    requires k < n <= |cs| && FirstOfDay(cs, k) && Unanimous(cs, k)
    ensures cs[k] in Kept(cs, n)
  {
    if k < n - 1 {
      FirstIsKept(cs, n - 1, k);
    }
  }

  ghost predicate Rising(cs: seq<Candidate>) {
    forall i, j :: 0 <= i < j < |cs| ==> cs[i].day < cs[j].day
  }

  lemma {:induction false} KeptRises(cs: seq<Candidate>, n: nat)
    requires n <= |cs| && InOrder(cs)
    ensures Rising(Kept(cs, n))
  {
    if n > 0 {
      var kept := Kept(cs, n - 1);
      KeptRises(cs, n - 1);
      if FirstOfDay(cs, n - 1) {
        forall i | 0 <= i < |kept|
          ensures kept[i].day < cs[n - 1].day
        {
          KeptOrigin(cs, n - 1, kept[i]);
          var k: nat :| k < n - 1 && cs[k] == kept[i];
          assert Before(cs[k], cs[n - 1]) && cs[k].day != cs[n - 1].day;
        }
      }
    }
  }

  // ----- acceptance

  predicate Good(c: Candidate, sessions: set<Day>) {
    ValidBar(c.bar) && c.day in sessions
  }

  /** The accepted rows among the first `n` retained ones. */
  function AcceptedRows(retained: seq<Candidate>, provider: Provider, sessions: set<Day>, n: nat): Frame
    requires n <= |retained|
  {
    if n == 0 then []
    else
      var before, c := AcceptedRows(retained, provider, sessions, n - 1), retained[n - 1];
      if Good(c, sessions) then before + [RowOf(c.day, provider, c.bar)] else before
  }

  /** The others. */
  function RefusedRows(retained: seq<Candidate>, sessions: set<Day>, n: nat): seq<Candidate>
    requires n <= |retained|
  {
    if n == 0 then []
    else
      var before, c := RefusedRows(retained, sessions, n - 1), retained[n - 1];
      if Good(c, sessions) then before else before + [c]
  }

  datatype Rejected = Rejected(number: nat, reasons: seq<Reason>, day: Option<Day>)

  /** The evidence names the row and gives its reasons: those of its values, or else the calendar. */
  ghost predicate Explains(x: Rejected, c: Candidate) {
    && x.number == c.number && x.day == Some(c.day)
    && if ValidBar(c.bar) then x.reasons == [CalendarMismatch] else forall r :: r in x.reasons <==> Applies(r, c.bar)
  }

  ghost predicate ExplainsAll(rejected: seq<Rejected>, refused: seq<Candidate>) {
    |rejected| == |refused| && forall i :: 0 <= i < |rejected| ==> Explains(rejected[i], refused[i])
  }

  /** How many of the first `n` are valid rows on a day that is no session. */
  function OffCalendar(retained: seq<Candidate>, sessions: set<Day>, n: nat): nat
    requires n <= |retained|
  {
    if n == 0 then 0
    else OffCalendar(retained, sessions, n - 1) + if ValidBar(retained[n - 1].bar) && retained[n - 1].day !in sessions then 1 else 0
  }

  /** The acceptance scan. */
  method AcceptRows(retained: seq<Candidate>, provider: Provider, sessions: set<Day>)
    returns (accepted: Frame, rejected: seq<Rejected>, mismatches: nat)
    ensures accepted == AcceptedRows(retained, provider, sessions, |retained|)
    ensures ExplainsAll(rejected, RefusedRows(retained, sessions, |retained|))
    ensures mismatches == OffCalendar(retained, sessions, |retained|)
    ensures |accepted| + |rejected| == |retained|
  {
    accepted, rejected, mismatches := [], [], 0;
    for k := 0 to |retained|
      invariant accepted == AcceptedRows(retained, provider, sessions, k)
      invariant ExplainsAll(rejected, RefusedRows(retained, sessions, k))
      invariant mismatches == OffCalendar(retained, sessions, k)
      invariant |accepted| + |rejected| == k
    {
      var c := retained[k];
      var reasons := RowReasons(c.bar);
      ReasonsDecide(c.bar, reasons);
      if reasons == [] && c.day !in sessions {
        reasons := [CalendarMismatch];
        mismatches := mismatches + 1;
      }
      if reasons != [] {
        assert Explains(Rejected(c.number, reasons, Some(c.day)), c);
        rejected := rejected + [Rejected(c.number, reasons, Some(c.day))];
      } else {
        accepted := accepted + [RowOf(c.day, provider, c.bar)];
      }
    }
  }

  lemma {:induction false} ReasonsDecide(b: Bar, reasons: seq<Reason>)
    requires forall r :: r in reasons <==> Applies(r, b)
    ensures reasons == [] <==> ValidBar(b)
  {
    NoReasonExactlyForValidBars(b);
    if reasons != [] {
      assert Applies(reasons[0], b);
    }
  }

  ghost predicate Accepts(c: Candidate, provider: Provider, sessions: set<Day>, r: Row) {
    Good(c, sessions) && r == RowOf(c.day, provider, c.bar)
  }

  lemma {:induction false} AcceptedOrigin(retained: seq<Candidate>, provider: Provider, sessions: set<Day>, n: nat, r: Row)
    requires n <= |retained| && r in AcceptedRows(retained, provider, sessions, n)
    ensures exists k :: 0 <= k < n && Accepts(retained[k], provider, sessions, r)
  {
    if r in AcceptedRows(retained, provider, sessions, n - 1) {
      AcceptedOrigin(retained, provider, sessions, n - 1, r);
    } else {
      assert Accepts(retained[n - 1], provider, sessions, r);
    }
  }

  lemma {:induction false} GoodIsAccepted(retained: seq<Candidate>, provider: Provider, sessions: set<Day>, n: nat, k: nat, r: Row)
    requires k < n <= |retained| && Accepts(retained[k], provider, sessions, r)
    ensures r in AcceptedRows(retained, provider, sessions, n)
  {
    if k < n - 1 {
      GoodIsAccepted(retained, provider, sessions, n - 1, k, r);
    }
  }

  lemma {:induction false} AcceptedRises(retained: seq<Candidate>, provider: Provider, sessions: set<Day>, n: nat)
    requires n <= |retained| && Rising(retained)
    ensures Sorted(AcceptedRows(retained, provider, sessions, n))
  {
    if n > 0 {
      AcceptedRises(retained, provider, sessions, n - 1);
      var before := AcceptedRows(retained, provider, sessions, n - 1);
      forall i | 0 <= i < |before|
        ensures before[i].day < retained[n - 1].day
      {
        AcceptedOrigin(retained, provider, sessions, n - 1, before[i]);
        var k :| 0 <= k < n - 1 && Accepts(retained[k], provider, sessions, before[i]);
      }
    }
  }

  lemma {:induction false} OffCalendarExists(retained: seq<Candidate>, sessions: set<Day>, n: nat)
    requires n <= |retained|
    ensures OffCalendar(retained, sessions, n) > 0 <==>
            exists k :: 0 <= k < n && ValidBar(retained[k].bar) && retained[k].day !in sessions
  {
    if n > 0 {
      OffCalendarExists(retained, sessions, n - 1);
    }
  }

  // ----- `evaluate_range_candidate`

  datatype Counters = Counters(providerRows: nat, unclassifiable: nat, outOfRange: nat, inRange: nat, dedupeInput: nat,
                               exactRemoved: nat, conflicting: nat, nonconflicting: nat, accepted: nat, rejected: nat,
                               expected: nat, acceptedExpected: nat, missing: int) {
    /** `assert_valid`. */
    predicate Balanced() {
      && providerRows == unclassifiable + outOfRange + inRange
      && inRange == dedupeInput
      && dedupeInput == exactRemoved + conflicting + nonconflicting
      && nonconflicting == accepted + rejected
      && expected == acceptedExpected + missing
    }
  }

  datatype RangeQuality = RangeQuality(fatal: bool, frame: Frame, rejected: seq<Rejected>, counters: Counters)

  function Days(f: Frame): set<Day> {
    ByDay(f).Keys
  }

  lemma {:induction false} DaysCounted(f: Frame)
    requires Sorted(f)
    ensures |Days(f)| == |f|
  {
    if f != [] {
      var n := |f| - 1;
      DaysCounted(f[..n]);
      DaysOf(f[..n], f[n].day);
      assert Days(f) == Days(f[..n]) + {f[n].day};
    }
  }

  lemma {:induction false} Partitioned(all: set<Day>, some: set<Day>)
    requires some <= all
    ensures |all - some| == |all| - |some| && some * all == some
  {
    assert all == (all - some) + some;
  }

  lemma {:induction false} AcceptedAreSessions(retained: seq<Candidate>, provider: Provider, sessions: set<Day>)
    requires Rising(retained)
    ensures var f := AcceptedRows(retained, provider, sessions, |retained|);
            Sorted(f) && Days(f) <= sessions && |Days(f)| == |f|
  {
    var f := AcceptedRows(retained, provider, sessions, |retained|);
    AcceptedRises(retained, provider, sessions, |retained|);
    DaysCounted(f);
    forall d | d in Days(f)
      ensures d in sessions
    {
      DaysOf(f, d);
      var i :| 0 <= i < |f| && f[i] == ByDay(f)[d];
      AcceptedOrigin(retained, provider, sessions, |retained|, f[i]);
    }
  }

  /** `evaluate_range_candidate` on a normalised batch, `sessions` being the calendar's. */
  method EvaluateRangeCandidate(normalized: Normalized, provider: Provider, sessions: set<Day>) returns (q: RangeQuality)
    requires normalized.counters.Balanced() && normalized.counters.inRange == |normalized.candidates| && InOrder(normalized.candidates)
    ensures q.counters.Balanced() && q.counters.missing == |sessions - Days(q.frame)|
    ensures var kept := Kept(normalized.candidates, |normalized.candidates|);
            && q.frame == AcceptedRows(kept, provider, sessions, |kept|)
            && (q.fatal <==> normalized.fatal || q.frame == [] || Contested(normalized.candidates, |normalized.candidates|) > 0
                             || OffCalendar(kept, sessions, |kept|) > 0)
  {
    var cs := normalized.candidates;
    var retained, exactRemoved, conflicting := Deduplicate(cs);
    var accepted, rejected, mismatches := AcceptRows(retained, provider, sessions);
    KeptRises(cs, |cs|);
    AcceptedAreSessions(retained, provider, sessions);
    Partitioned(sessions, Days(accepted));
    var n, present := normalized.counters, |Days(accepted) * sessions|;
    var counters := Counters(n.providerRows, n.unclassifiable, n.outOfRange, n.inRange, n.dedupeInput, exactRemoved, conflicting,
                             |retained|, |accepted|, |retained| - |accepted|, |sessions|, present, |sessions| - present);
    var undated := seq(|normalized.rejections|, i requires 0 <= i < |normalized.rejections| => Rejected(normalized.rejections[i], [], None));
    q := RangeQuality(normalized.fatal || conflicting > 0 || mismatches > 0 || accepted == [], accepted, undated + rejected, counters);
  }

  // ----- a whole batch

  /** Row `k` of the batch says that the bar of the day is `bar`. */
  ghost predicate Says(batch: Batch, k: nat, day: Day, bar: Bar) {
    k < |batch.rows| && batch.rows[k].stamp == Some(day) && BarOf(batch, batch.rows[k]) == bar
  }

  /** The batch names one bar for a day of the range: some row says it and none says another. */
  ghost predicate Names(batch: Batch, range: Range, day: Day, bar: Bar) {
    && range.Has(day)
    && (exists k: nat :: Says(batch, k, day, bar))
    && (forall k: nat, other: Bar :: Says(batch, k, day, other) ==> other == bar)
  }

  /** Two rows of the range say different bars of one day. */
  ghost predicate Conflicts(batch: Batch, range: Range) {
    exists i: nat, j: nat, day: Day, a: Bar, b: Bar :: range.Has(day) && Says(batch, i, day, a) && Says(batch, j, day, b) && a != b
  }

  lemma {:induction false} CandidateSays(batch: Batch, range: Range, r: Normalized, k: nat)
    requires NormalizedFrom(batch, range, r) && !r.fatal && k < |r.candidates|
    ensures var c := r.candidates[k]; range.Has(c.day) && Says(batch, c.number, c.day, c.bar)
  {
    assert r.candidates[k] in r.candidates;
    assert Classified(batch, range, r.candidates[k]);
  }

  lemma {:induction false} SaidIsCandidate(batch: Batch, range: Range, r: Normalized, n: nat, day: Day, bar: Bar)
    requires NormalizedFrom(batch, range, r) && !r.fatal && range.Has(day) && Says(batch, n, day, bar)
    ensures exists k: nat :: k < |r.candidates| && r.candidates[k].day == day && r.candidates[k].bar == bar
  {
    var c := Candidate(day, n, bar);
    assert Classified(batch, range, c);
    assert c in r.candidates;
    var k :| 0 <= k < |r.candidates| && r.candidates[k] == c;
    assert r.candidates[k].day == day && r.candidates[k].bar == bar;
  }

  lemma {:induction false} ContestedExists(cs: seq<Candidate>, n: nat)
    requires n <= |cs|
    ensures Contested(cs, n) > 0 <==> exists k: nat :: k < n && !Unanimous(cs, k)
  {
    if n > 0 {
      ContestedExists(cs, n - 1);
      assert Contested(cs, n) > 0 <==> Contested(cs, n - 1) > 0 || !Unanimous(cs, n - 1);
    }
  }

  lemma {:induction false} ContestedConflicts(batch: Batch, range: Range, r: Normalized)
    requires NormalizedFrom(batch, range, r) && !r.fatal && Contested(r.candidates, |r.candidates|) > 0
    ensures Conflicts(batch, range)
  {
    var cs := r.candidates;
    ContestedExists(cs, |cs|);
    var k: nat :| k < |cs| && !Unanimous(cs, k);
    var i: nat :| i < |cs| && cs[i].day == cs[k].day && cs[i].bar != cs[k].bar;
    CandidateSays(batch, range, r, k);
    CandidateSays(batch, range, r, i);
    assert Says(batch, cs[i].number, cs[k].day, cs[i].bar) && Says(batch, cs[k].number, cs[k].day, cs[k].bar);
  }

  lemma {:induction false} ConflictsAreContested(batch: Batch, range: Range, r: Normalized)
    requires NormalizedFrom(batch, range, r) && !r.fatal && Conflicts(batch, range)
    ensures Contested(r.candidates, |r.candidates|) > 0
  {
    var cs := r.candidates;
    var i: nat, j: nat, day: Day, a: Bar, b: Bar :| range.Has(day) && Says(batch, i, day, a) && Says(batch, j, day, b) && a != b;
    SaidIsCandidate(batch, range, r, i, day, a);
    SaidIsCandidate(batch, range, r, j, day, b);
    var x: nat :| x < |cs| && cs[x].day == day && cs[x].bar == a;
    var y: nat :| y < |cs| && cs[y].day == day && cs[y].bar == b;
    assert cs[y].day == cs[x].day && cs[y].bar != cs[x].bar;
    assert !Unanimous(cs, x);
    ContestedExists(cs, |cs|);
  }

  lemma {:induction false} FirstExists(cs: seq<Candidate>, k: nat)
    requires k < |cs|
    ensures exists i: nat :: i <= k && FirstOfDay(cs, i) && cs[i].day == cs[k].day
  {
    if !FirstOfDay(cs, k) {
      var i: nat :| i < k && cs[i].day == cs[k].day;
      FirstExists(cs, i);
    }
  }

  ghost predicate KeptBar(cs: seq<Candidate>, k: nat, day: Day, bar: Bar) {
    k < |Kept(cs, |cs|)| && Kept(cs, |cs|)[k].day == day && Kept(cs, |cs|)[k].bar == bar
  }

  lemma {:induction false} KeptIsNamed(batch: Batch, range: Range, r: Normalized, k: nat, day: Day, bar: Bar)
    requires NormalizedFrom(batch, range, r) && !r.fatal && KeptBar(r.candidates, k, day, bar)
    ensures Names(batch, range, day, bar)
  {
    var cs := r.candidates;
    KeptOrigin(cs, |cs|, Kept(cs, |cs|)[k]);
    var i: nat :| i < |cs| && cs[i] == Kept(cs, |cs|)[k] && Unanimous(cs, i);
    CandidateSays(batch, range, r, i);
    forall n: nat, other: Bar | Says(batch, n, day, other)
      ensures other == bar
    {
      SaidIsCandidate(batch, range, r, n, day, other);
    }
  }

  lemma {:induction false} NamedIsKept(batch: Batch, range: Range, r: Normalized, day: Day, bar: Bar)
    requires NormalizedFrom(batch, range, r) && !r.fatal && Names(batch, range, day, bar)
    ensures exists k: nat :: KeptBar(r.candidates, k, day, bar)
  {
    var cs := r.candidates;
    var n: nat :| Says(batch, n, day, bar);
    SaidIsCandidate(batch, range, r, n, day, bar);
    var j: nat :| j < |cs| && cs[j].day == day && cs[j].bar == bar;
    FirstExists(cs, j);
    var i: nat :| i <= j && FirstOfDay(cs, i) && cs[i].day == day;
    forall x | 0 <= x < |cs| && cs[x].day == cs[i].day
      ensures cs[x].bar == bar
    {
      CandidateSays(batch, range, r, x);
    }
    assert Unanimous(cs, i);
    FirstIsKept(cs, |cs|, i);
    var k :| 0 <= k < |Kept(cs, |cs|)| && Kept(cs, |cs|)[k] == cs[i];
    assert KeptBar(cs, k, day, bar);
  }

  /** A bar the batch names, that passes the row rules, on a day that is no session. */
  ghost predicate NamesOffCalendar(batch: Batch, range: Range, sessions: set<Day>) {
    exists day: Day, bar: Bar :: Names(batch, range, day, bar) && ValidBar(bar) && day !in sessions
  }

  /** The row is a valid session bar that the batch names. */
  ghost predicate RowNamed(batch: Batch, range: Range, sessions: set<Day>, provider: Provider, r: Row) {
    && r.day in sessions
    && exists bar: Bar :: Names(batch, range, r.day, bar) && ValidBar(bar) && r == RowOf(r.day, provider, bar)
  }

  lemma {:induction false} AcceptedIsNamed(batch: Batch, range: Range, n: Normalized, provider: Provider, sessions: set<Day>, r: Row)
    requires NormalizedFrom(batch, range, n) && !n.fatal
    requires var kept := Kept(n.candidates, |n.candidates|); r in AcceptedRows(kept, provider, sessions, |kept|)
    ensures RowNamed(batch, range, sessions, provider, r)
  {
    var kept := Kept(n.candidates, |n.candidates|);
    AcceptedOrigin(kept, provider, sessions, |kept|, r);
    var k: nat :| k < |kept| && Accepts(kept[k], provider, sessions, r);
    KeptIsNamed(batch, range, n, k, r.day, kept[k].bar);
  }

  lemma {:induction false} NamedIsAccepted(batch: Batch, range: Range, n: Normalized, provider: Provider, sessions: set<Day>, r: Row)
    requires NormalizedFrom(batch, range, n) && !n.fatal && RowNamed(batch, range, sessions, provider, r)
    ensures var kept := Kept(n.candidates, |n.candidates|); r in AcceptedRows(kept, provider, sessions, |kept|)
  {
    var kept := Kept(n.candidates, |n.candidates|);
    var bar :| Names(batch, range, r.day, bar) && ValidBar(bar) && r == RowOf(r.day, provider, bar);
    NamedIsKept(batch, range, n, r.day, bar);
    var k: nat :| KeptBar(n.candidates, k, r.day, bar);
    GoodIsAccepted(kept, provider, sessions, |kept|, k, r);
  }

  lemma {:induction false} OffCalendarIsNamed(batch: Batch, range: Range, n: Normalized, sessions: set<Day>)
    requires NormalizedFrom(batch, range, n) && !n.fatal
    ensures var kept := Kept(n.candidates, |n.candidates|);
            OffCalendar(kept, sessions, |kept|) > 0 <==> NamesOffCalendar(batch, range, sessions)
  {
    var kept := Kept(n.candidates, |n.candidates|);
    OffCalendarExists(kept, sessions, |kept|);
    if OffCalendar(kept, sessions, |kept|) > 0 {
      var k: nat :| k < |kept| && ValidBar(kept[k].bar) && kept[k].day !in sessions;
      KeptIsNamed(batch, range, n, k, kept[k].day, kept[k].bar);
    }
    if NamesOffCalendar(batch, range, sessions) {
      var day: Day, bar: Bar :| Names(batch, range, day, bar) && ValidBar(bar) && day !in sessions;
      NamedIsKept(batch, range, n, day, bar);
      var k: nat :| KeptBar(n.candidates, k, day, bar);
      assert ValidBar(kept[k].bar) && kept[k].day !in sessions;
    }
  }

  lemma {:induction false} NamedIsFetched(batch: Batch, range: Range, sessions: set<Day>, provider: Provider, f: Frame, at: int, coverage: Lineage.Coverage)
    requires forall r :: r in f ==> RowNamed(batch, range, sessions, provider, r)
    ensures Candidates.Fetched(Lineage.Accepted(range, f, provider, at, coverage))
  {
    forall i | 0 <= i < |f|
      ensures range.Has(f[i].day) && f[i].source == provider && f[i].Valid()
    {
      assert RowNamed(batch, range, sessions, provider, f[i]);
    }
  }

  /** One provider batch, normalised and evaluated: the frame holds exactly the valid session bars that the batch
      names, in date order, and the batch is refused exactly for an unusable schema, a conflict, a bar off the
      calendar, or for naming no valid session bar. */
  method EvaluateBatch(batch: Batch, range: Range, provider: Provider, sessions: set<Day>) returns (q: RangeQuality)
    ensures q.counters.Balanced() && Sorted(q.frame)
    ensures forall r :: r in q.frame <==> batch.usable && RowNamed(batch, range, sessions, provider, r)
    ensures q.fatal <==> !batch.usable || Conflicts(batch, range) || NamesOffCalendar(batch, range, sessions) || q.frame == []
  {
    var n := NormalizeProviderBatch(batch, range);
    q := EvaluateRangeCandidate(n, provider, sessions);
    KeptRises(n.candidates, |n.candidates|);
    AcceptedAreSessions(Kept(n.candidates, |n.candidates|), provider, sessions);
    if batch.usable {
      OffCalendarIsNamed(batch, range, n, sessions);
      if Contested(n.candidates, |n.candidates|) > 0 {
        ContestedConflicts(batch, range, n);
      } else if Conflicts(batch, range) {
        ConflictsAreContested(batch, range, n);
      }
      forall r
        ensures r in q.frame <==> RowNamed(batch, range, sessions, provider, r)
      {
        if r in q.frame {
          AcceptedIsNamed(batch, range, n, provider, sessions, r);
        }
        if RowNamed(batch, range, sessions, provider, r) {
          NamedIsAccepted(batch, range, n, provider, sessions, r);
        }
      }
    }
  }
}
