/** Exchange sessions: grouping missing ones into ranges of adjacent sessions. A day is an ordinal. */
module Sessions {

  type Day = int

  /** An inclusive range of days. */
  datatype Range = Range(first: Day, last: Day) {
    predicate Has(d: Day) {
      first <= d <= last
    }
  }

  ghost predicate Ascending(days: seq<Day>) {
    forall i, j :: 0 <= i < j < |days| ==> days[i] < days[j]
  }

  /** A run of consecutive session indices, first to last inclusive. */
  datatype Run = Run(from: nat, to: nat)

  /** The maximal runs of indices below `n` whose session is in `chosen`. */
  function RunsBelow(sessions: seq<Day>, chosen: set<Day>, n: nat): seq<Run>
    requires n <= |sessions|
  {
    if n == 0 then []
    else
      var before := RunsBelow(sessions, chosen, n - 1);
      if sessions[n - 1] in chosen then WithIndex(before, n - 1) else before
  }

  /** Join an index to the last run if it is adjacent, else start a run with it. */
  function WithIndex(runs: seq<Run>, i: nat): seq<Run> {
    if runs != [] && runs[|runs| - 1].to + 1 == i then runs[..|runs| - 1] + [Run(runs[|runs| - 1].from, i)]
    else runs + [Run(i, i)]
  }

  function Runs(sessions: seq<Day>, chosen: set<Day>): seq<Run> {
    RunsBelow(sessions, chosen, |sessions|)
  }

  /** In bounds, in order, never adjacent, and covering exactly the chosen sessions. */
  ghost predicate AreMaximalRuns(sessions: seq<Day>, chosen: set<Day>, runs: seq<Run>) {
    && Apart(runs, |sessions|)
    && (forall i :: 0 <= i < |sessions| ==> (sessions[i] in chosen <==> Covered(runs, i)))
  }

  ghost predicate Covered(runs: seq<Run>, i: int) {
    exists k :: 0 <= k < |runs| && runs[k].from <= i <= runs[k].to
  }

  ghost predicate Apart(runs: seq<Run>, size: nat) {
    && (forall k :: 0 <= k < |runs| ==> runs[k].from <= runs[k].to < size)
    && (forall k, l :: 0 <= k < l < |runs| ==> runs[k].to + 1 < runs[l].from)
  }

  lemma {:induction false} WithIndexApart(runs: seq<Run>, n: nat)
    requires Apart(runs, n)
    ensures Apart(WithIndex(runs, n), n + 1)
  {
    var after := WithIndex(runs, n);
    assert forall k :: 0 <= k < |after| - 1 ==> after[k] == runs[k];
    forall k | 0 <= k < |after| - 1
      ensures runs[k].to + 1 < after[|after| - 1].from
    {
      if k < |runs| - 1 {
        assert runs[k].to + 1 < runs[|runs| - 1].from;
      }
    }
  }

  lemma {:induction false} WithIndexCovers(runs: seq<Run>, n: nat, i: int)
    requires Apart(runs, n)
    ensures Covered(WithIndex(runs, n), i) <==> Covered(runs, i) || i == n
  {
    var after := WithIndex(runs, n);
    var last := |after| - 1;
    if Covered(runs, i) {
      var k :| 0 <= k < |runs| && runs[k].from <= i <= runs[k].to;
      assert after[k].from <= i <= after[k].to;
    }
    if i == n {
      assert after[last].from <= i <= after[last].to;
    }
    if Covered(after, i) && i != n {
      var k :| 0 <= k < |after| && after[k].from <= i <= after[k].to;
      assert k < |runs| && runs[k].from <= i <= runs[k].to;
    }
  }

  lemma {:induction false} RunsAreApart(sessions: seq<Day>, chosen: set<Day>, n: nat)
    requires n <= |sessions|
    ensures Apart(RunsBelow(sessions, chosen, n), n)
  {
    if n > 0 {
      RunsAreApart(sessions, chosen, n - 1);
      WithIndexApart(RunsBelow(sessions, chosen, n - 1), n - 1);
    }
  }

  lemma {:induction false} RunsCover(sessions: seq<Day>, chosen: set<Day>, n: nat, i: nat)
    requires i < n <= |sessions|
    ensures sessions[i] in chosen <==> Covered(RunsBelow(sessions, chosen, n), i)
  {
    var before := RunsBelow(sessions, chosen, n - 1);
    RunsAreApart(sessions, chosen, n - 1);
    WithIndexCovers(before, n - 1, i);
    if i < n - 1 {
      RunsCover(sessions, chosen, n - 1, i);
    } else {
      assert !Covered(before, i);
    }
  }

  lemma {:induction false} RunsAreMaximal(sessions: seq<Day>, chosen: set<Day>)
    ensures AreMaximalRuns(sessions, chosen, Runs(sessions, chosen))
  {
    RunsAreApart(sessions, chosen, |sessions|);
    forall i | 0 <= i < |sessions| {
      RunsCover(sessions, chosen, |sessions|, i);
    }
  }

  function RangeOf(sessions: seq<Day>, r: Run): Range {
    if r.from < |sessions| && r.to < |sessions| then Range(sessions[r.from], sessions[r.to]) else Range(0, 0)
  }

  function RangesOf(sessions: seq<Day>, runs: seq<Run>): seq<Range> {
    seq(|runs|, k requires 0 <= k < |runs| => RangeOf(sessions, runs[k]))
  }

  /** The planned ranges as a function. */
  function Grouped(sessions: seq<Day>, chosen: set<Day>): seq<Range> {
    RangesOf(sessions, Runs(sessions, chosen))
  }

  lemma RangesOfAppend(sessions: seq<Day>, runs: seq<Run>, r: Run)
    ensures RangesOf(sessions, runs + [r]) == RangesOf(sessions, runs) + [RangeOf(sessions, r)]
  {
  }

  /** `group_contiguous_sessions`: one scan with an open group, that of the last run while it is adjacent. */
  method GroupContiguousSessions(expected: seq<Day>, missing: set<Day>) returns (groups: seq<Range>)
    ensures groups == Grouped(expected, missing)
  {
    groups := [];
    var open := false;
    var first, previous := 0, 0;
    ghost var closed: seq<Run> := [];
    ghost var from: nat := 0;
    for i := 0 to |expected|
      invariant closed != [] ==> closed[|closed| - 1].to + 1 < i
      invariant groups == RangesOf(expected, closed)
      invariant !open ==> RunsBelow(expected, missing, i) == closed
      invariant open ==> from < i && RunsBelow(expected, missing, i) == closed + [Run(from, i - 1)]
                         && first == expected[from] && previous == expected[i - 1]
    {
      if expected[i] in missing {
        if !open {
          first, from := expected[i], i;
        } else {
          JoinLast(closed, from, i);
        }
        open, previous := true, expected[i];
      } else {
        if open {
          RangesOfAppend(expected, closed, Run(from, i - 1));
          groups := groups + [Range(first, previous)];
          closed := closed + [Run(from, i - 1)];
        }
        open := false;
      }
    }
    if open {
      RangesOfAppend(expected, closed, Run(from, |expected| - 1));
      groups := groups + [Range(first, previous)];
    }
  }

  lemma JoinLast(closed: seq<Run>, from: nat, i: nat)
    requires from < i
    ensures WithIndex(closed + [Run(from, i - 1)], i) == closed + [Run(from, i)]
  {
    var runs := closed + [Run(from, i - 1)];
    assert runs[..|runs| - 1] == closed;
  }

  // ----- what the groups mean

  predicate Within(ranges: seq<Range>, d: Day) {
    exists k :: 0 <= k < |ranges| && ranges[k].Has(d)
  }

  /** Ranges in order, disjoint, and separated by a session that is not planned. */
  ghost predicate SeparatedBy(sessions: seq<Day>, chosen: set<Day>, ranges: seq<Range>) {
    forall k, l :: 0 <= k < l < |ranges| ==>
      ranges[k].last < ranges[l].first
      && exists i :: 0 <= i < |sessions| && ranges[k].last < sessions[i] < ranges[l].first && sessions[i] !in chosen
  }

  lemma {:induction false} IndexInRange(sessions: seq<Day>, r: Run, i: nat)
    requires Ascending(sessions) && i < |sessions| && r.from <= r.to < |sessions|
    ensures RangeOf(sessions, r).Has(sessions[i]) <==> r.from <= i <= r.to
  {
    if i < r.from {
      assert sessions[i] < sessions[r.from];
    } else if r.to < i {
      assert sessions[r.to] < sessions[i];
    }
  }

  lemma {:induction false} RangesCoverChosen(sessions: seq<Day>, chosen: set<Day>, i: nat)
    requires Ascending(sessions) && i < |sessions|
    ensures Within(Grouped(sessions, chosen), sessions[i]) <==> sessions[i] in chosen
  {
    RunsAreApart(sessions, chosen, |sessions|);
    RunsCover(sessions, chosen, |sessions|, i);
    var runs, ranges := Runs(sessions, chosen), Grouped(sessions, chosen);
    forall k | 0 <= k < |runs|
      ensures ranges[k].Has(sessions[i]) <==> runs[k].from <= i <= runs[k].to
    {
      IndexInRange(sessions, runs[k], i);
    }
  }

  lemma {:induction false} RangeEndsChosen(sessions: seq<Day>, chosen: set<Day>, k: nat)
    requires Ascending(sessions) && k < |Grouped(sessions, chosen)|
    ensures var r := Grouped(sessions, chosen)[k];
            r.first in sessions && r.last in sessions && r.first in chosen && r.last in chosen && r.first <= r.last
  {
    RunsAreMaximal(sessions, chosen);
    var runs := Runs(sessions, chosen);
    assert Covered(runs, runs[k].from) && Covered(runs, runs[k].to);
  }

  lemma {:induction false} RangesSeparated(sessions: seq<Day>, chosen: set<Day>)
    requires Ascending(sessions)
    ensures SeparatedBy(sessions, chosen, Grouped(sessions, chosen))
  {
    RunsAreMaximal(sessions, chosen);
    var runs, ranges := Runs(sessions, chosen), Grouped(sessions, chosen);
    forall k, l | 0 <= k < l < |ranges|
      ensures ranges[k].last < ranges[l].first
      ensures exists i :: 0 <= i < |sessions| && ranges[k].last < sessions[i] < ranges[l].first && sessions[i] !in chosen
    {
      GapAfter(sessions, chosen, runs, k);
      var i := runs[k].to + 1;
      assert i < runs[l].from;
      assert ranges[k].last < sessions[i] < ranges[l].first;
    }
  }

  /** Planning exactness: over ascending sessions the ranges cover exactly the chosen sessions, start and
      end on chosen ones, and no two of them could have been one. */
  lemma {:induction false} GroupingIsExact(sessions: seq<Day>, chosen: set<Day>)
    requires Ascending(sessions)
    ensures var ranges := Grouped(sessions, chosen);
            && (forall i :: 0 <= i < |sessions| ==> (Within(ranges, sessions[i]) <==> sessions[i] in chosen))
            && (forall k :: 0 <= k < |ranges| ==>
                  && ranges[k].first in sessions && ranges[k].last in sessions
                  && ranges[k].first in chosen && ranges[k].last in chosen
                  && ranges[k].first <= ranges[k].last)
            && SeparatedBy(sessions, chosen, ranges)
  {
    forall i | 0 <= i < |sessions| {
      RangesCoverChosen(sessions, chosen, i);
    }
    forall k | 0 <= k < |Grouped(sessions, chosen)| {
      RangeEndsChosen(sessions, chosen, k);
    }
    RangesSeparated(sessions, chosen);
  }

  lemma GapAfter(sessions: seq<Day>, chosen: set<Day>, runs: seq<Run>, k: nat)
    requires AreMaximalRuns(sessions, chosen, runs) && k + 1 < |runs|
    ensures runs[k].to + 1 < |sessions| && sessions[runs[k].to + 1] !in chosen
  {
    var i := runs[k].to + 1;
    assert i < runs[k + 1].from;
    forall l | 0 <= l < |runs|
      ensures !(runs[l].from <= i <= runs[l].to)
    {
      assert l <= k || k + 1 <= l;
    }
    assert !Covered(runs, i);
  }

  // ----- the gap figure of the quality report

  /** The longest group, counted in sessions. */
  function MaxGap(runs: seq<Run>): nat {
    if runs == [] then 0
    else
      var before, last := MaxGap(runs[..|runs| - 1]), runs[|runs| - 1];
      var size := if last.from <= last.to then last.to - last.from + 1 else 0;
      if size > before then size else before
  }

  ghost predicate AllChosen(sessions: seq<Day>, chosen: set<Day>, from: nat, size: nat) {
    from + size <= |sessions| && forall i :: from <= i < from + size ==> sessions[i] in chosen
  }

  lemma {:induction false} MaxGapBounds(runs: seq<Run>)
    requires forall k :: 0 <= k < |runs| ==> runs[k].from <= runs[k].to
    ensures forall k :: 0 <= k < |runs| ==> runs[k].to - runs[k].from + 1 <= MaxGap(runs)
    ensures runs != [] ==> exists k :: 0 <= k < |runs| && runs[k].to - runs[k].from + 1 == MaxGap(runs)
  {
    if runs != [] {
      var n := |runs| - 1;
      MaxGapBounds(runs[..n]);
      var before, size := MaxGap(runs[..n]), runs[n].to - runs[n].from + 1;
      if size > before {
        assert runs[n].to - runs[n].from + 1 == MaxGap(runs);
      } else {
        var k :| 0 <= k < n && runs[..n][k].to - runs[..n][k].from + 1 == before;
        assert runs[k].to - runs[k].from + 1 == MaxGap(runs);
      }
    }
  }

  /** The gap figure is the true longest stretch of consecutive missing sessions: there is one that long
      and none longer. */
  lemma {:induction false} MaxGapIsLongest(sessions: seq<Day>, missing: set<Day>)
    ensures exists from: nat :: AllChosen(sessions, missing, from, MaxGap(Runs(sessions, missing)))
    ensures forall from: nat, size: nat :: AllChosen(sessions, missing, from, size) ==> size <= MaxGap(Runs(sessions, missing))
  {
    RunsAreMaximal(sessions, missing);
    var runs := Runs(sessions, missing);
    MaxGapBounds(runs);
    var gap := MaxGap(runs);
    var from: nat := 0;
    if runs != [] {
      var k :| 0 <= k < |runs| && runs[k].to - runs[k].from + 1 == gap;
      from := runs[k].from;
      forall i | from <= i < from + gap
        ensures sessions[i] in missing
      {
        assert Covered(runs, i);
      }
    }
    assert AllChosen(sessions, missing, from, gap);
    forall from: nat, size: nat | AllChosen(sessions, missing, from, size)
      ensures size <= gap
    {
      if size > 0 {
        StretchInOneRun(sessions, missing, runs, from, size);
      }
    }
  }

  lemma {:induction false} StretchInOneRun(sessions: seq<Day>, chosen: set<Day>, runs: seq<Run>, from: nat, size: nat)
    requires AreMaximalRuns(sessions, chosen, runs) && AllChosen(sessions, chosen, from, size) && size > 0
    ensures exists k :: 0 <= k < |runs| && runs[k].from <= from && from + size - 1 <= runs[k].to
    decreases size
  {
    var last := from + size - 1;
    assert Covered(runs, last);
    var k :| 0 <= k < |runs| && runs[k].from <= last <= runs[k].to;
    if size > 1 {
      assert AllChosen(sessions, chosen, from, size - 1);
      StretchInOneRun(sessions, chosen, runs, from, size - 1);
      var l :| 0 <= l < |runs| && runs[l].from <= from && from + size - 2 <= runs[l].to;
      assert l == k;
    }
  }
}
