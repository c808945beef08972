/** One provider batch: classify its rows by date, keep those of the range, sort them stably. */
module Normalization {
  import opened Market
  import opened Sessions
  import opened Sorting

  /** A field after `_as_float`. Two NaNs count as the same value when duplicates are compared. */
  datatype Value = Finite(v: real) | NaN | PositiveInfinity | NegativeInfinity

  datatype Bar = Bar(open: Value, high: Value, low: Value, close: Value, volume: Value, adjClose: Value, dividend: Value, split: Value)

  /** A provider row with its parsed date, if it has one. A field whose column is absent is `None`. */
  datatype RawRow = RawRow(stamp: Option<Day>, open: Value, high: Value, low: Value, close: Value, volume: Value, adjClose: Value,
                           dividend: Option<Value>, split: Option<Value>)

  /** `usable`: the columns are unambiguous, of the right symbol, and include the essential ones.
      `represented`: the provider reports corporate actions. */
  datatype Batch = Batch(usable: bool, represented: bool, rows: seq<RawRow>)

  datatype Candidate = Candidate(day: Day, number: nat, bar: Bar)

  datatype NormalizationCounters = NormalizationCounters(providerRows: nat, unclassifiable: nat, outOfRange: nat, inRange: nat, dedupeInput: nat) {
    /** `assert_valid`. */
    predicate Balanced() {
      providerRows == unclassifiable + outOfRange + inRange && inRange == dedupeInput
    }
  }

  datatype Normalized = Normalized(fatal: bool, candidates: seq<Candidate>, rejections: seq<nat>, counters: NormalizationCounters)

  /** The canonical fields of a row, with the defaults for absent action columns. */
  function BarOf(batch: Batch, r: RawRow): Bar {
    Bar(r.open, r.high, r.low, r.close, r.volume, r.adjClose,
        if r.dividend.Some? then r.dividend.value else if batch.represented then Finite(0.0) else NaN,
        if r.split.Some? then r.split.value else if batch.represented then Finite(1.0) else NaN)
  }

  /** A candidate is the row of its number, dated inside the range. */
  predicate Classified(batch: Batch, range: Range, c: Candidate) {
    && c.number < |batch.rows|
    && batch.rows[c.number].stamp == Some(c.day) && range.Has(c.day)
    && c.bar == BarOf(batch, batch.rows[c.number])
  }

  // ----- the stable sort by date and source row

  predicate Before(a: Candidate, b: Candidate) {
    a.day < b.day || (a.day == b.day && a.number < b.number)
  }

  predicate InOrder(cs: seq<Candidate>) {
    forall i, j :: 0 <= i < j < |cs| ==> Before(cs[i], cs[j])
  }

  lemma {:induction false} InsertInOrder(cs: seq<Candidate>, c: Candidate)
    requires InOrder(cs) && forall i :: 0 <= i < |cs| ==> cs[i].number != c.number
    ensures InOrder(Insert(cs, c, Before))
  {
    if cs != [] && !Before(cs[|cs| - 1], c) {
      var n := |cs| - 1;
      InsertInOrder(cs[..n], c);
      var inserted := Insert(cs[..n], c, Before);
      forall k | 0 <= k < |inserted|
        ensures Before(inserted[k], cs[n])
      {
        InsertMembers(cs[..n], c, Before, inserted[k]);
      }
    }
  }

  /** Sorting rows with distinct numbers gives them in order. */
  lemma {:induction false} SortInOrder(cs: seq<Candidate>)
    requires forall i, j :: 0 <= i < j < |cs| ==> cs[i].number < cs[j].number
    ensures InOrder(Sort(cs, Before))
  {
    if cs != [] {
      var n := |cs| - 1;
      SortInOrder(cs[..n]);
      var sorted := Sort(cs[..n], Before);
      forall k | 0 <= k < |sorted|
        ensures sorted[k].number != cs[n].number
      {
        SortMembers(cs[..n], Before, sorted[k]);
      }
      InsertInOrder(sorted, cs[n]);
    }
  }

  // ----- `normalize_provider_batch`

  /** The candidates are exactly the rows dated inside the range, by date and then source row; the rejections
      are exactly the undated rows; and the counters balance, so their assertion cannot fail. */
  ghost predicate NormalizedFrom(batch: Batch, range: Range, r: Normalized) {
    && r.counters.Balanced()
    && r.counters.providerRows == |batch.rows|
    && r.counters.inRange == |r.candidates|
    && InOrder(r.candidates)
    && (r.fatal <==> !batch.usable)
    && (r.fatal ==> r.candidates == [] && r.rejections == [] && r.counters.unclassifiable == |batch.rows|)
    && (!r.fatal ==>
          && (forall c :: c in r.candidates <==> Classified(batch, range, c))
          && r.rejections == Undated(batch.rows, |batch.rows|)
          && r.counters.unclassifiable == |r.rejections|)
  }

  function Undated(rows: seq<RawRow>, n: nat): seq<nat>
    requires n <= |rows|
  {
    if n == 0 then [] else Undated(rows, n - 1) + if rows[n - 1].stamp.None? then [n - 1] else []
  }

  method NormalizeProviderBatch(batch: Batch, range: Range) returns (r: Normalized)
    ensures NormalizedFrom(batch, range, r)
  {
    if !batch.usable {
      return Normalized(true, [], [], NormalizationCounters(|batch.rows|, |batch.rows|, 0, 0, 0));
    }
    var rows: seq<Candidate>, rejections: seq<nat> := [], [];
    var unclassifiable, outOfRange := 0, 0;
    for n := 0 to |batch.rows|
      invariant n == unclassifiable + outOfRange + |rows|
      invariant rejections == Undated(batch.rows, n) && unclassifiable == |rejections|
      invariant forall i, j :: 0 <= i < j < |rows| ==> rows[i].number < rows[j].number
      invariant forall c :: c in rows <==> c.number < n && Classified(batch, range, c)
    {
      var row := batch.rows[n];
      if row.stamp.None? {
        unclassifiable := unclassifiable + 1;
        rejections := rejections + [n];
      } else if !range.Has(row.stamp.value) {
        outOfRange := outOfRange + 1;
      } else {
        assert forall i :: 0 <= i < |rows| ==> rows[i] in rows;
        rows := rows + [Candidate(row.stamp.value, n, BarOf(batch, row))];
      }
    }
    var candidates := Sort(rows, Before);
    SortInOrder(rows);
    forall c
      ensures c in candidates <==> Classified(batch, range, c)
    {
      SortMembers(rows, Before, c);
    }
    r := Normalized(false, candidates, rejections,
                    NormalizationCounters(|batch.rows|, unclassifiable, outOfRange, |candidates|, |candidates|));
  }
}
