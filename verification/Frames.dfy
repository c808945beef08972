/** Canonical frames: strictly date-sorted rows, and the merge that keeps them so. */
module Frames {
  import opened Sessions
  import opened Sorting

  datatype Provider = YFinance | AlphaVantage

  datatype Row = Row(day: Day, source: Provider, open: real, high: real, low: real, close: real, adjClose: real,
                     volume: real, dividend: real, split: real) {
    /** What `_validate_canonical` checks of one row. */
    predicate Valid() {
      && open > 0.0 && high > 0.0 && low > 0.0 && close > 0.0 && adjClose > 0.0
      && volume >= 0.0 && dividend >= 0.0 && split > 0.0
      && high >= open && high >= close && low <= open && low <= close
    }
  }

  type Frame = seq<Row>

  /** Strictly increasing days. */
  predicate Sorted(f: Frame) {
    forall i, j :: 0 <= i < j < |f| ==> f[i].day < f[j].day
  }

  /** A frame as a mapping from days to rows; of rows with the same day the last one counts. */
  function ByDay(f: Frame): map<Day, Row> {
    if f == [] then map[] else ByDay(f[..|f| - 1])[f[|f| - 1].day := f[|f| - 1]]
  }

  predicate HasDay(f: Frame, d: Day) {
    exists i :: 0 <= i < |f| && f[i].day == d
  }

  lemma {:induction false} DaysOf(f: Frame, d: Day)
    ensures d in ByDay(f) <==> HasDay(f, d)
    ensures d in ByDay(f) ==> ByDay(f)[d].day == d && exists i :: 0 <= i < |f| && f[i] == ByDay(f)[d]
  {
    if f != [] {
      var n := |f| - 1;
      DaysOf(f[..n], d);
      if HasDay(f[..n], d) {
        var i :| 0 <= i < n && f[..n][i].day == d;
        assert f[i].day == d;
      }
      if f[n].day == d {
        assert f[n] == ByDay(f)[d];
      } else if d in ByDay(f) {
        var i :| 0 <= i < n && f[..n][i] == ByDay(f[..n])[d];
        assert f[i] == ByDay(f)[d];
      }
    }
  }

  lemma {:induction false} SortedLookup(f: Frame, i: nat)
    requires Sorted(f) && i < |f|
    ensures f[i].day in ByDay(f) && ByDay(f)[f[i].day] == f[i]
  {
    if i < |f| - 1 {
      SortedLookup(f[..|f| - 1], i);
    }
  }

  // ----- `drop_duplicates("timestamp", keep="last")`

  function KeepLast(f: Frame): Frame {
    if f == [] then []
    else if HasDay(f[1..], f[0].day) then KeepLast(f[1..])
    else [f[0]] + KeepLast(f[1..])
  }

  ghost predicate DistinctDays(f: Frame) {
    forall i, j :: 0 <= i < j < |f| ==> f[i].day != f[j].day
  }

  lemma {:induction false} ByDayOfConcat(f: Frame, g: Frame)
    ensures ByDay(f + g) == ByDay(f) + ByDay(g)
  {
    if g == [] {
      assert f + g == f;
    } else {
      var n := |g| - 1;
      assert (f + g)[..|f + g| - 1] == f + g[..n];
      ByDayOfConcat(f, g[..n]);
    }
  }

  lemma {:induction false} KeepLastKeepsMeaning(f: Frame)
    ensures ByDay(KeepLast(f)) == ByDay(f)
    ensures DistinctDays(KeepLast(f))
    ensures forall x :: x in KeepLast(f) ==> x in f
  {
    if f != [] {
      var head, rest := [f[0]], f[1..];
      KeepLastKeepsMeaning(rest);
      assert f == head + rest;
      ByDayOfConcat(head, rest);
      assert ByDay(head) == map[f[0].day := f[0]];
      if HasDay(rest, f[0].day) {
        DaysOf(rest, f[0].day);
      } else {
        ByDayOfConcat(head, KeepLast(rest));
        forall k | 0 <= k < |KeepLast(rest)|
          ensures KeepLast(rest)[k].day != f[0].day
        {
          assert KeepLast(rest)[k] in rest;
        }
      }
    }
  }

  // ----- `sort_values("timestamp", kind="mergesort")`

  predicate NotLater(a: Row, b: Row) {
    a.day <= b.day
  }

  function SortByDay(f: Frame): Frame {
    Sort(f, NotLater)
  }

  lemma {:induction false} InsertKeepsSorted(f: Frame, r: Row)
    requires Sorted(f) && forall i :: 0 <= i < |f| ==> f[i].day != r.day
    ensures Sorted(Insert(f, r, NotLater))
  {
    if f != [] && f[|f| - 1].day > r.day {
      var n := |f| - 1;
      InsertKeepsSorted(f[..n], r);
      var inserted := Insert(f[..n], r, NotLater);
      forall k | 0 <= k < |inserted|
        ensures inserted[k].day < f[n].day
      {
        InsertMembers(f[..n], r, NotLater, inserted[k]);
      }
    }
  }

  lemma {:induction false} InsertAddsRow(f: Frame, r: Row)
    requires forall i :: 0 <= i < |f| ==> f[i].day != r.day
    ensures ByDay(Insert(f, r, NotLater)) == ByDay(f)[r.day := r]
  {
    var after := Insert(f, r, NotLater);
    if f != [] && f[|f| - 1].day > r.day {
      InsertAddsRow(f[..|f| - 1], r);
    }
    assert after[..|after| - 1] == if f != [] && f[|f| - 1].day > r.day then Insert(f[..|f| - 1], r, NotLater) else f;
  }

  lemma {:induction false} SortKeepsMeaning(f: Frame)
    requires DistinctDays(f)
    ensures Sorted(SortByDay(f)) && ByDay(SortByDay(f)) == ByDay(f)
  {
    if f != [] {
      var n := |f| - 1;
      SortKeepsMeaning(f[..n]);
      var sorted := SortByDay(f[..n]);
      forall i | 0 <= i < |sorted|
        ensures sorted[i].day != f[n].day
      {
        SortMembers(f[..n], NotLater, sorted[i]);
      }
      InsertKeepsSorted(sorted, f[n]);
      InsertAddsRow(sorted, f[n]);
    }
  }

  // ----- `_merge_canonical`

  /** Concatenate, keep the last row of each day, sort. */
  function Merge(current: Frame, candidate: Frame): Frame {
    SortByDay(KeepLast(current + candidate))
  }

  /** Merging is overriding by date, whatever order the rows came in. */
  lemma {:induction false} MergeOverrides(current: Frame, candidate: Frame)
    ensures Sorted(Merge(current, candidate))
    ensures ByDay(Merge(current, candidate)) == ByDay(current) + ByDay(candidate)
  {
    var all := current + candidate;
    KeepLastKeepsMeaning(all);
    SortKeepsMeaning(KeepLast(all));
    ByDayOfConcat(current, candidate);
  }

  /** A sorted frame is determined by its mapping. */
  lemma {:induction false} SameMeaningSameFrame(f: Frame, g: Frame)
    requires Sorted(f) && Sorted(g) && ByDay(f) == ByDay(g)
    ensures f == g
  {
    if f == [] {
      if g != [] {
        DaysOf(g, g[0].day);
      }
    } else if g == [] {
      DaysOf(f, f[0].day);
    } else {
      var m, n := |f| - 1, |g| - 1;
      LatestDay(f);
      LatestDay(g);
      SortedLookup(f, m);
      SortedLookup(g, n);
      assert f[m] == g[n];
      ByDayWithoutLast(f);
      ByDayWithoutLast(g);
      SameMeaningSameFrame(f[..m], g[..n]);
      assert f == f[..m] + [f[m]] && g == g[..n] + [g[n]];
    }
  }

  lemma LatestDay(f: Frame)
    requires Sorted(f) && f != []
    ensures forall d :: d in ByDay(f) ==> d <= f[|f| - 1].day
  {
  }

  lemma ByDayWithoutLast(f: Frame)
    requires Sorted(f) && f != []
    ensures ByDay(f[..|f| - 1]) == ByDay(f) - {f[|f| - 1].day}
  {
    var n := |f| - 1;
    if f[n].day in ByDay(f[..n]) {
      LatestDay(f[..n]);
    }
  }

  // ----- `_rows_in_ranges` and `_requested_frame`

  function Keep(f: Frame, keep: Day -> bool): Frame {
    if f == [] then []
    else
      var rest, last := Keep(f[..|f| - 1], keep), f[|f| - 1];
      if keep(last.day) then rest + [last] else rest
  }

  lemma {:induction false} KeepMembers(f: Frame, keep: Day -> bool)
    ensures forall x :: x in Keep(f, keep) <==> x in f && keep(x.day)
  {
    if f != [] {
      KeepMembers(f[..|f| - 1], keep);
      assert f == f[..|f| - 1] + [f[|f| - 1]];
    }
  }

  lemma {:induction false} KeepSorted(f: Frame, keep: Day -> bool)
    requires Sorted(f)
    ensures Sorted(Keep(f, keep))
  {
    if f != [] {
      var n := |f| - 1;
      KeepSorted(f[..n], keep);
      KeepMembers(f[..n], keep);
      forall k | 0 <= k < |Keep(f[..n], keep)|
        ensures Keep(f[..n], keep)[k].day < f[n].day
      {
        assert Keep(f[..n], keep)[k] in f[..n];
      }
    }
  }

  /** Filtering by day is restricting the mapping. */
  lemma {:induction false} KeepRestricts(f: Frame, keep: Day -> bool, d: Day)
    ensures d in ByDay(Keep(f, keep)) <==> d in ByDay(f) && keep(d)
    ensures d in ByDay(Keep(f, keep)) ==> ByDay(Keep(f, keep))[d] == ByDay(f)[d]
  {
    if f != [] {
      var n := |f| - 1;
      KeepRestricts(f[..n], keep, d);
      if keep(f[n].day) {
        assert Keep(f, keep)[..|Keep(f, keep)| - 1] == Keep(f[..n], keep);
      }
    }
  }

  function RowsInRanges(f: Frame, ranges: seq<Range>): Frame {
    Keep(f, d => Within(ranges, d))
  }
}
