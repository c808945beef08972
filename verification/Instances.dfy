/** Runs of concurrent writers from the empty namespace in which the stronger readings fail: a rebase that attributes a
    row to the wrong provider, and one that restores a stale row. */
module Instances {
  import opened Market
  import opened Sessions
  import opened Frames
  import opened Lineage
  import opened Store
  import opened Candidates
  import opened Writers
  import opened Interleavings
  import opened LineageRuns
  import Boundary

  // ----- building a run

  ghost predicate Reached(steps: seq<Step>, worlds: seq<World>, last: World) {
    Interleaving(steps, worlds) && worlds[|steps|] == last
  }

  lemma {:induction false} Take(steps: seq<Step>, worlds: seq<World>, last: World, step: Step)
    requires Reached(steps, worlds, last) && Enabled(last, step)
    ensures Reached(steps + [step], worlds + [Next(last, step)], Next(last, step))
  {
    var more, reached := steps + [step], worlds + [Next(last, step)];
    forall i | 0 <= i < |more|
      ensures Happens(more, reached, i)
    {
      if i < |steps| {
        assert Happens(steps, worlds, i);
      }
    }
  }

  ghost predicate AllFetched(fetched: seq<Accepted>) {
    forall k :: 0 <= k < |fetched| ==> Fetched(fetched[k])
  }

  /** A writer reads the cache and fetches. */
  ghost function Joined(w: World, i: nat, fetched: seq<Accepted>, acquisition: string, now: int): World {
    var work := PreparedOn(Prior(w.log, |w.log|), fetched, acquisition, now);
    w.(writers := w.writers[i := Preparing(work, work.base, 1)])
  }

  lemma {:induction false} Join(steps: seq<Step>, worlds: seq<World>, last: World, i: nat, fetched: seq<Accepted>, acquisition: string, now: int)
    returns (more: seq<Step>, reached: seq<World>)
    requires Reached(steps, worlds, last) && i !in last.writers && AllFetched(fetched)
    ensures Reached(more, reached, Joined(last, i, fetched, acquisition, now))
  {
    RunKeeps(steps, worlds, |steps|);
    var step := Begin(i, true, fetched, acquisition, now);
    Take(steps, worlds, last, step);
    more, reached := steps + [step], worlds + [Next(last, step)];
  }

  /** What a waiting writer publishes onto the present CURRENT. */
  ghost function Onto(w: World, work: Work): Frame {
    if work.base == IdOf(Prior(w.log, |w.log|)) then work.candidate
    else Merge(FrameOf(Prior(w.log, |w.log|)), RowsInRanges(work.candidate, work.Ranges()))
  }

  ghost function OntoLineage(w: World, work: Work): Option<seq<Segment>> {
    if work.base == IdOf(Prior(w.log, |w.log|)) then Some(work.manifest.lineage)
    else Rebase(Onto(w, work), LineageOf(Prior(w.log, |w.log|)), work.manifest.lineage, work.Ranges())
  }

  ghost predicate Waiting(w: World, i: nat, work: Work) {
    i in w.writers && w.writers[i] == Preparing(work, work.base, 1)
  }

  /** Only the log, the files, the identifiers and the writer that committed have changed. */
  ghost predicate CommittedTo(w: World, after: World, i: nat, e: Entry) {
    && after.log == w.log + [e] && after.issued == w.issued + {e.id}
    && after.writers == w.writers[i := Finished(e.id)]
  }

  lemma {:induction false} AssembledNow(w: World, work: Work)
    requires WorldValid(w) && OntoLineage(w, work).Some? && Canonical(Onto(w, work))
    requires work.base.Some? ==> w.log != []
    ensures Assemble(Read(w.files), work, work.base, true) == Some((Onto(w, work), work.manifest.(lineage := OntoLineage(w, work).value)))
    ensures Read(w.files).Id() == CurrentId(w.files)
  {
    CurrentIsPrior(w.files, w.issued, w.log);
  }

  /** The entry that a waiting writer would commit now. */
  ghost function EntryOf(w: World, work: Work, id: string): Entry
    requires OntoLineage(w, work).Some?
  {
    Entry(id, work, Onto(w, work), work.manifest.(lineage := OntoLineage(w, work).value))
  }

  /** The world between the two steps. */
  ghost function Observed(w: World, i: nat, work: Work, id: string): World
    requires OntoLineage(w, work).Some?
  {
    var e := EntryOf(w, work, id);
    w.(writers := w.writers[i := Assembled(work, 1, CurrentId(w.files), e.frame, e.manifest)])
  }

  lemma {:induction false} ObserveNow(w: World, i: nat, work: Work, id: string)
    requires WorldValid(w) && Waiting(w, i, work) && OntoLineage(w, work).Some? && Onto(w, work) != []
    ensures Next(w, Observe(i, true)) == Observed(w, i, work, id)
  {
    assert PhaseValid(w, w.writers[i]);
    OntoIsCanonical(w, work);
    KnownNeedsLog(w.log, |w.log|, work.base);
    AssembledNow(w, work);
  }

  lemma {:induction false} CommitNow(w: World, i: nat, work: Work, id: string)
    requires OntoLineage(w, work).Some? && id !in w.issued
    ensures CommittedTo(w, Next(Observed(w, i, work, id), Commit(i, id, SWAP, true, true)), i, EntryOf(w, work, id))
  {
    var observed := Observed(w, i, work, id);
    assert observed.writers[i := Finished(id)] == w.writers[i := Finished(id)];
  }

  /** A waiting writer observes CURRENT and commits without interruption. */
  lemma {:induction false} Finish(steps: seq<Step>, worlds: seq<World>, last: World, i: nat, work: Work, id: string)
    returns (more: seq<Step>, reached: seq<World>, after: World)
    requires Reached(steps, worlds, last) && Waiting(last, i, work) && id !in last.issued
    requires OntoLineage(last, work).Some? && Onto(last, work) != []
    ensures Reached(more, reached, after)
    ensures CommittedTo(last, after, i, EntryOf(last, work, id))
  {
    RunKeeps(steps, worlds, |steps|);
    ObserveNow(last, i, work, id);
    CommitNow(last, i, work, id);
    var observed, commit := Observed(last, i, work, id), Commit(i, id, SWAP, true, true);
    Take(steps, worlds, last, Observe(i, true));
    Take(steps + [Observe(i, true)], worlds + [observed], observed, commit);
    after := Next(observed, commit);
    more, reached := steps + [Observe(i, true)] + [commit], worlds + [observed] + [after];
  }

  lemma {:induction false} KnownNeedsLog(log: seq<Entry>, n: nat, id: Option<string>)
    requires n <= |log| && Known(log, n, id)
    ensures id.Some? ==> log != []
  {
  }

  lemma {:induction false} OntoIsCanonical(w: World, work: Work)
    requires WorldValid(w) && Sourced(w.log, |w.log|, work) && Onto(w, work) != []
    ensures Canonical(Onto(w, work))
  {
    var base, prior := GenerationOf(w.log, |w.log|, work.base), Prior(w.log, |w.log|);
    GenerationIsValid(w.log, |w.log|, work.base);
    Boundary.RowsAreValid(work.fetched);
    Boundary.MergeIsCanonical(FrameOf(base), Rows(work.fetched));
    if work.base != IdOf(prior) {
      if prior.Some? {
        assert EntryValid(w.log, |w.log| - 1);
      }
      Boundary.KeepIsValid(work.candidate, d => Within(work.Ranges(), d));
      Boundary.MergeIsCanonical(FrameOf(prior), RowsInRanges(work.candidate, work.Ranges()));
    }
  }

  lemma {:induction false} GenerationIsValid(log: seq<Entry>, n: nat, id: Option<string>)
    requires LogValid(log) && n <= |log|
    ensures Boundary.AllValid(FrameOf(GenerationOf(log, n, id)))
  {
    if n > 0 {
      assert EntryValid(log, n - 1);
      GenerationIsValid(log, n - 1, id);
    }
  }

  // ----- rows and single fetches

  function Sample(day: Day, source: Provider, price: real): Row {
    Row(day, source, price, price, price, price, price, 0.0, 0.0, 1.0)
  }

  function Fetch(first: Day, last: Day, rows: Frame, provider: Provider, at: int): seq<Accepted> {
    [Accepted(Range(first, last), rows, provider, at, Represented)]
  }

  lemma {:induction false} OneFetch(first: Day, last: Day, rows: Frame, provider: Provider, at: int)
    ensures Rows(Fetch(first, last, rows, provider, at)) == rows
    ensures forall d :: Supplier(Fetch(first, last, rows, provider, at), d)
                        == if HasDay(rows, d) then Some(Fetch(first, last, rows, provider, at)[0]) else None
  {
    var f := Fetch(first, last, rows, provider, at);
    assert f[..0] == [];
    assert Rows(f[..0]) == [];
  }

  lemma {:induction false} MergeIntoNothing(f: Frame)
    requires Sorted(f)
    ensures Merge([], f) == f
  {
    MergeOverrides([], f);
    assert ByDay([]) + ByDay(f) == ByDay(f);
    SameMeaningSameFrame(Merge([], f), f);
  }

  lemma {:induction false} OneSegment(rows: Frame, provenance: seq<Provenance>)
    requires rows != [] && |rows| == |provenance| && forall i :: 0 <= i < |rows| ==> provenance[i] == provenance[0]
    ensures Group(rows, provenance) == [SegmentOf(rows, provenance[0].via)]
  {
    LeadingIs(provenance, |rows|);
    assert rows[..|rows|] == rows && rows[|rows|..] == [];
  }

  /** A first writer's lineage is one segment from its first row to its last. */
  lemma {:induction false} FirstLineage(first: Day, last: Day, rows: Frame, provider: Provider, at: int, acquisition: string, now: int)
    requires Sorted(rows) && rows != []
    ensures var work := PreparedOn(None, Fetch(first, last, rows, provider, at), acquisition, now);
            && work.candidate == rows
            && work.manifest.lineage == [SegmentOf(rows, Attribution(provider, at, Represented))]
  {
    var fetched := Fetch(first, last, rows, provider, at);
    OneFetch(first, last, rows, provider, at);
    MergeIntoNothing(rows);
    var provenance := RebuiltProvenances(rows, [], now, fetched);
    forall i | 0 <= i < |rows|
      ensures provenance[i] == Provenance(fetched[0].By(), first, last, DigestOf(rows))
    {
      assert HasDay(rows, rows[i].day);
    }
    OneSegment(rows, provenance);
  }

  /** A rebase of rows that are all covered is not refused. */
  lemma {:induction false} CoveredRebase(rows: Frame, existing: seq<Segment>, incoming: seq<Segment>, ranges: seq<Range>)
    requires forall i :: 0 <= i < |rows| ==> Find(if Within(ranges, rows[i].day) then incoming else existing, rows[i].day).Some?
    ensures Rebase(rows, existing, incoming, ranges).Some?
  {
    if Rebase(rows, existing, incoming, ranges).None? {
      var i := RebaseFailsOnARow(rows, existing, incoming, ranges);
    }
  }

  /** What a rebased frame holds. */
  lemma {:induction false} RebasedHolds(latest: Frame, candidate: Frame, ranges: seq<Range>)
    ensures var rows := Merge(latest, RowsInRanges(candidate, ranges));
            && Sorted(rows)
            && (forall d :: d in ByDay(rows) <==> d in ByDay(latest) || (d in ByDay(candidate) && Within(ranges, d)))
            && (forall d :: d in ByDay(rows) ==>
                  ByDay(rows)[d] == if d in ByDay(candidate) && Within(ranges, d) then ByDay(candidate)[d] else ByDay(latest)[d])
  {
    var top := RowsInRanges(candidate, ranges);
    MergeOverrides(latest, top);
    forall d: Day
      ensures d in ByDay(top) <==> d in ByDay(candidate) && Within(ranges, d)
      ensures d in ByDay(top) ==> ByDay(top)[d] == ByDay(candidate)[d]
    {
      KeepRestricts(candidate, x => Within(ranges, x), d);
    }
  }

  lemma {:induction false} SameMap(a: map<Day, Row>, b: map<Day, Row>)
    requires forall d :: d in a <==> d in b
    requires forall d :: d in a ==> a[d] == b[d]
    ensures a == b
  {
    forall d: Day
      ensures d in a <==> d in b
      ensures d in a ==> a[d] == b[d]
    {
    }
  }

  lemma {:induction false} Identifiers()
    ensures "g1" != "g2" && "g1" != "g3" && "g2" != "g3" && "g4" !in {"g1", "g2", "g3"}
  {
    assert "g1"[1] == '1' && "g2"[1] == '2' && "g3"[1] == '3' && "g4"[1] == '4';
  }

  lemma {:induction false} HoldsSome(f: Frame, d: Day)
    requires d in ByDay(f)
    ensures f != []
  {
  }

  lemma {:induction false} WithinOne(range: Range, d: Day)
    ensures Within([range], d) <==> range.Has(d)
  {
    assert [range][0] == range;
  }

  // ----- a row attributed to the wrong provider

  const LOW := Sample(1, YFinance, 1.0)
  const MIDDLE := Sample(2, AlphaVantage, 1.0)
  const HIGH := Sample(3, YFinance, 1.0)

  function Wide(time: int): Work {
    PreparedOn(None, Fetch(1, 3, [LOW, HIGH], YFinance, time), "outer", time)
  }

  function Narrow(time: int): Work {
    PreparedOn(None, Fetch(2, 2, [MIDDLE], AlphaVantage, time), "inner", time)
  }

  /** The second writer has committed the middle day; the first still waits. */
  ghost predicate InnerCommitted(last: World, w: World, outer: nat, inner: nat, time: int, before: int) {
    && |w.log| == 1 && w.issued == {"g1"} && w.log[0].id == "g1" && w.log[0].frame == [MIDDLE]
    && w.log[0].manifest.lineage == [SegmentOf([MIDDLE], Attribution(AlphaVantage, before, Represented))]
    && Waiting(w, outer, Wide(time))
    && forall i :: i in last.writers && i != outer && i != inner ==> i in w.writers && w.writers[i] == last.writers[i]
  }

  lemma {:induction false} MiddleFirst(steps: seq<Step>, worlds: seq<World>, last: World, outer: nat, inner: nat, time: int, before: int)
    returns (more: seq<Step>, reached: seq<World>, w: World)
    requires Reached(steps, worlds, last) && last.log == [] && last.issued == {}
    requires outer !in last.writers && inner !in last.writers && outer != inner
    ensures Reached(more, reached, w) && InnerCommitted(last, w, outer, inner, time, before)
  {
    var wide, narrow := Fetch(1, 3, [LOW, HIGH], YFinance, time), Fetch(2, 2, [MIDDLE], AlphaVantage, before);
    more, reached := Join(steps, worlds, last, outer, wide, "outer", time);
    var w1 := Joined(last, outer, wide, "outer", time);
    more, reached := Join(more, reached, w1, inner, narrow, "inner", before);
    var w2 := Joined(w1, inner, narrow, "inner", before);
    FirstLineage(2, 2, [MIDDLE], AlphaVantage, before, "inner", before);
    assert Waiting(w2, outer, Wide(time)) && Waiting(w2, inner, Narrow(before));
    more, reached, w := Finish(more, reached, w2, inner, Narrow(before), "g1");
  }

  /** The first writer has rebased its outer days onto the middle one. */
  ghost predicate OuterCommitted(last: World, w: World, outer: nat, inner: nat, time: int, before: int) {
    && |w.log| == 2 && w.issued == {"g1", "g2"} && w.log[0].id == "g1" && w.log[0].frame == [MIDDLE]
    && w.log[0].manifest.lineage == [SegmentOf([MIDDLE], Attribution(AlphaVantage, before, Represented))]
    && w.log[1].work == Wide(time) && Rebased(w.log, 1)
    && ByDay(w.log[1].frame) == map[1 := LOW, 2 := MIDDLE, 3 := HIGH]
    && forall i :: i in last.writers && i != outer && i != inner ==> i in w.writers && w.writers[i] == last.writers[i]
  }

  /** One writer fetches three days from one provider and gets the outer two, at `time`; meanwhile another commits
      the middle one from the other provider, fetched at `before`; the first then rebases. */
  lemma {:induction false} OuterOverMiddle(steps: seq<Step>, worlds: seq<World>, last: World, outer: nat, inner: nat, time: int, before: int)
    returns (more: seq<Step>, reached: seq<World>, after: World)
    requires Reached(steps, worlds, last) && last.log == [] && last.issued == {}
    requires outer !in last.writers && inner !in last.writers && outer != inner
    ensures Reached(more, reached, after) && OuterCommitted(last, after, outer, inner, time, before)
  {
    var w;
    more, reached, w := MiddleFirst(steps, worlds, last, outer, inner, time, before);
    var a := Wide(time);
    FirstLineage(1, 3, [LOW, HIGH], YFinance, time, "outer", time);
    ThreeDays();
    assert a.Ranges() == [Range(1, 3)];
    OuterFrame(w.log[0].frame, a.candidate);
    OuterIsCovered(w, a);
    more, reached, after := Finish(more, reached, w, outer, a, "g2");
    assert after.log[0] == w.log[0];
  }

  lemma {:induction false} OuterFrame(latest: Frame, candidate: Frame)
    requires ByDay(latest) == map[2 := MIDDLE] && ByDay(candidate) == map[1 := LOW, 3 := HIGH]
    ensures var rows := Merge(latest, RowsInRanges(candidate, [Range(1, 3)]));
            rows != [] && Sorted(rows) && ByDay(rows) == map[1 := LOW, 2 := MIDDLE, 3 := HIGH]
  {
    var rows := Merge(latest, RowsInRanges(candidate, [Range(1, 3)]));
    RebasedHolds(latest, candidate, [Range(1, 3)]);
    WithinOne(Range(1, 3), 1);
    WithinOne(Range(1, 3), 3);
    SameMap(ByDay(rows), map[1 := LOW, 2 := MIDDLE, 3 := HIGH]);
    HoldsSome(rows, 2);
  }

  lemma {:induction false} ThreeDays()
    ensures ByDay([MIDDLE]) == map[2 := MIDDLE] && ByDay([LOW, HIGH]) == map[1 := LOW, 3 := HIGH]
  {
    assert [MIDDLE][..0] == [] && [LOW, HIGH][..1] == [LOW] && [LOW][..0] == [];
    assert ByDay([LOW]) == map[1 := LOW];
  }

  lemma {:induction false} OuterIsCovered(w: World, a: Work)
    requires a.base != IdOf(Prior(w.log, |w.log|)) && a.Ranges() == [Range(1, 3)]
    requires Sorted(Onto(w, a)) && ByDay(Onto(w, a)) == map[1 := LOW, 2 := MIDDLE, 3 := HIGH]
    requires |a.manifest.lineage| == 1 && a.manifest.lineage[0].start == 1 && a.manifest.lineage[0].end == 3
    ensures OntoLineage(w, a).Some?
  {
    var rows := Onto(w, a);
    forall i | 0 <= i < |rows|
      ensures Within(a.Ranges(), rows[i].day) && Find(a.manifest.lineage, rows[i].day).Some?
    {
      SortedLookup(rows, i);
      assert a.Ranges()[0].Has(rows[i].day);
      assert a.manifest.lineage[0].Has(rows[i].day);
    }
    CoveredRebase(rows, LineageOf(Prior(w.log, |w.log|)), a.manifest.lineage, a.Ranges());
  }

  /** The middle row is now attributed to the other provider. */
  lemma {:induction false} MiddleSays(log: seq<Entry>, time: int)
    requires LogValid(log) && |log| >= 2 && Rebased(log, 1)
    requires log[1].work == Wide(time)
    requires ByDay(log[1].frame) == map[1 := LOW, 2 := MIDDLE, 3 := HIGH]
    ensures Says(log[1].manifest.lineage, 2) == Some(Attribution(YFinance, time, Represented))
  {
    FirstLineage(1, 3, [LOW, HIGH], YFinance, time, "outer", time);
    RebasedDaySays(log, 1, 2);
    assert log[1].work.Ranges()[0].Has(2);
    assert log[1].work.manifest.lineage[0].Has(2);
  }

  /** From the empty namespace, a run whose last commit is not truthful: it attributes the other writer's row to
      its own fetch, and the lineage no longer names the row's provider. */
  lemma {:induction false} RebaseCanMisattribute() returns (steps: seq<Step>, worlds: seq<World>, log: seq<Entry>)
    ensures Interleaving(steps, worlds) && log == worlds[|steps|].log && |log| == 2
    ensures Rebased(log, 1) && !TruthfulCommit(log, 1) && !NamesProvider(log[1].manifest.lineage, log[1].frame, 2)
  {
    var w;
    assert Reached([], [INITIAL], INITIAL);
    steps, worlds, w := OuterOverMiddle([], [INITIAL], INITIAL, 0, 1, 0, 0);
    log := w.log;
    RunKeeps(steps, worlds, |steps|);
    MiddleSays(log, 0);
    var e := log[1];
    KeepRestricts(e.work.candidate, x => Within(e.work.Ranges(), x), 2);
    FirstLineage(1, 3, [LOW, HIGH], YFinance, 0, "outer", 0);
    ThreeDays();
    assert !Supplies(e, 2);
    assert Says(LineageOf(Prior(log, 1)), 2) == Some(Attribution(AlphaVantage, 0, Represented));
  }

  // ----- a stale row restored

  const STALE := Sample(1, YFinance, 1.0)
  const NEWER := Sample(1, YFinance, 2.0)
  const GOT := Sample(2, YFinance, 1.0)

  const PLANNED := Fetch(1, 2, [GOT], YFinance, 0)
  const REFRESHED := Fetch(1, 1, [NEWER], YFinance, 0)

  lemma {:induction false} SmallFrames()
    ensures ByDay([STALE]) == map[1 := STALE] && ByDay([NEWER]) == map[1 := NEWER] && ByDay([GOT]) == map[2 := GOT]
    ensures Rows(PLANNED) == [GOT] && Rows(REFRESHED) == [NEWER]
  {
    assert [STALE][..0] == [] && [NEWER][..0] == [] && [GOT][..0] == [];
    OneFetch(1, 2, [GOT], YFinance, 0);
    OneFetch(1, 1, [NEWER], YFinance, 0);
  }

  /** What the two writers prepare on a generation that holds the stale row. */
  lemma {:induction false} SlowPrepares(g: Option<Generation>)
    requires FrameOf(g) == [STALE]
    ensures var slow := PreparedOn(g, PLANNED, "slow", 0); ByDay(slow.candidate) == map[1 := STALE, 2 := GOT] && slow.Ranges() == [Range(1, 2)]
  {
    SmallFrames();
    MergeOverrides([STALE], [GOT]);
  }

  lemma {:induction false} QuickPrepares(g: Option<Generation>)
    requires FrameOf(g) == [STALE]
    ensures var quick := PreparedOn(g, REFRESHED, "quick", 0); ByDay(quick.candidate) == map[1 := NEWER] && quick.candidate != []
  {
    SmallFrames();
    MergeOverrides([STALE], [NEWER]);
    DaysOf(PreparedOn(g, REFRESHED, "quick", 0).candidate, 1);
  }

  lemma {:induction false} FirstCommit() returns (steps: seq<Step>, worlds: seq<World>, w: World)
    ensures Reached(steps, worlds, w) && |w.log| == 1 && FrameOf(Prior(w.log, 1)) == [STALE] && IdOf(Prior(w.log, 1)) == Some("g1")
    ensures w.issued == {"g1"} && w.writers.Keys == {0}
  {
    assert Reached([], [INITIAL], INITIAL);
    var one := Fetch(1, 1, [STALE], YFinance, 0);
    FirstLineage(1, 1, [STALE], YFinance, 0, "first", 0);
    steps, worlds := Join([], [INITIAL], INITIAL, 0, one, "first", 0);
    steps, worlds, w := Finish(steps, worlds, Joined(INITIAL, 0, one, "first", 0), 0, PreparedOn(None, one, "first", 0), "g1");
  }

  /** Both writers have read the first generation. */
  lemma {:induction false} BothWait() returns (steps: seq<Step>, worlds: seq<World>, w: World, slow: Work, quick: Work)
    ensures Reached(steps, worlds, w) && |w.log| == 1 && w.issued == {"g1"} && IdOf(Prior(w.log, 1)) == Some("g1")
    ensures Waiting(w, 1, slow) && slow.base == Some("g1") && slow.fetched == PLANNED && ByDay(slow.candidate) == map[1 := STALE, 2 := GOT]
    ensures Waiting(w, 2, quick) && quick.base == Some("g1") && ByDay(quick.candidate) == map[1 := NEWER] && quick.candidate != []
  {
    var w0;
    steps, worlds, w0 := FirstCommit();
    var g := Prior(w0.log, 1);
    SlowPrepares(g);
    QuickPrepares(g);
    slow, quick := PreparedOn(g, PLANNED, "slow", 0), PreparedOn(g, REFRESHED, "quick", 0);
    SmallFetches();
    steps, worlds, w := JoinBoth(steps, worlds, w0, 1, 2, PLANNED, "slow", REFRESHED, "quick", slow, quick);
  }

  lemma {:induction false} SmallFetches()
    ensures AllFetched(PLANNED) && AllFetched(REFRESHED)
  {
  }

  /** Two writers read the same generation. */
  lemma {:induction false} JoinBoth(steps: seq<Step>, worlds: seq<World>, last: World, i: nat, j: nat, first: seq<Accepted>, a: string,
                                    second: seq<Accepted>, b: string, x: Work, y: Work)
    returns (more: seq<Step>, reached: seq<World>, after: World)
    requires Reached(steps, worlds, last) && i !in last.writers && j !in last.writers && i != j && AllFetched(first) && AllFetched(second)
    requires x == PreparedOn(Prior(last.log, |last.log|), first, a, 0) && y == PreparedOn(Prior(last.log, |last.log|), second, b, 0)
    ensures Reached(more, reached, after) && after.log == last.log && after.issued == last.issued
    ensures Waiting(after, i, x) && Waiting(after, j, y)
  {
    more, reached := Join(steps, worlds, last, i, first, a, 0);
    var w := Joined(last, i, first, a, 0);
    more, reached := Join(more, reached, w, j, second, b, 0);
    after := Joined(w, j, second, b, 0);
  }

  lemma {:induction false} QuickCommits() returns (steps: seq<Step>, worlds: seq<World>, w: World, slow: Work)
    ensures Reached(steps, worlds, w) && |w.log| == 2 && w.issued == {"g1", "g2"} && Waiting(w, 1, slow)
    ensures slow.base == Some("g1") && IdOf(Prior(w.log, 2)) == Some("g2") && slow.fetched == PLANNED
    ensures ByDay(slow.candidate) == map[1 := STALE, 2 := GOT] && ByDay(w.log[1].frame) == map[1 := NEWER]
  {
    var w0, quick;
    steps, worlds, w0, slow, quick := BothWait();
    Identifiers();
    assert Onto(w0, quick) == quick.candidate;
    steps, worlds, w := Finish(steps, worlds, w0, 2, quick, "g2");
  }

  /** Two writers read the same generation. One plans two days and gets the second; the other refreshes the first
      and commits. The first then rebases, and puts the stale row back over the newer one. */
  lemma {:induction false} RebaseCanRestoreStaleRow() returns (steps: seq<Step>, worlds: seq<World>, log: seq<Entry>)
    ensures Interleaving(steps, worlds) && log == worlds[|steps|].log && |log| == 3
    ensures 1 !in ByDay(Rows(log[2].work.fetched)) && 1 in ByDay(log[1].frame) && 1 in ByDay(log[2].frame)
    ensures ByDay(log[1].frame)[1] == NEWER && ByDay(log[2].frame)[1] == STALE
    ensures !OnlyFetchedChange(FrameOf(Prior(log, 2)), log[2].work, log[2].frame)
  {
    var w, slow, after;
    steps, worlds, w, slow := QuickCommits();
    Identifiers();
    assert slow.Ranges() == [Range(1, 2)];
    SlowFrame(w.log[1].frame, slow.candidate);
    SlowIsCovered(steps, worlds, w, slow);
    steps, worlds, after := Finish(steps, worlds, w, 1, slow, "g3");
    log := after.log;
    assert log[1] == w.log[1];
    StaleRestored(log[1].frame, log[2].work, log[2].frame);
  }

  lemma {:induction false} StaleRestored(previous: Frame, work: Work, frame: Frame)
    requires work.fetched == PLANNED && ByDay(previous) == map[1 := NEWER] && ByDay(frame) == map[1 := STALE, 2 := GOT]
    ensures 1 !in ByDay(Rows(work.fetched)) && !OnlyFetchedChange(previous, work, frame)
  {
    SmallFrames();
    assert (ByDay(previous) + ByDay([GOT]))[1] == NEWER;
  }

  lemma {:induction false} SlowFrame(latest: Frame, candidate: Frame)
    requires ByDay(candidate) == map[1 := STALE, 2 := GOT] && ByDay(latest) == map[1 := NEWER]
    ensures var rows := Merge(latest, RowsInRanges(candidate, [Range(1, 2)]));
            rows != [] && Sorted(rows) && ByDay(rows) == map[1 := STALE, 2 := GOT]
  {
    var rows := Merge(latest, RowsInRanges(candidate, [Range(1, 2)]));
    RebasedHolds(latest, candidate, [Range(1, 2)]);
    WithinOne(Range(1, 2), 1);
    WithinOne(Range(1, 2), 2);
    SameMap(ByDay(rows), map[1 := STALE, 2 := GOT]);
    HoldsSome(rows, 1);
  }

  lemma {:induction false} WaitingIsSound(steps: seq<Step>, worlds: seq<World>, w: World, i: nat, work: Work)
    requires Reached(steps, worlds, w) && Waiting(w, i, work)
    ensures Sorted(work.candidate) && Partitions(work.manifest.lineage, work.candidate)
  {
    RunKeeps(steps, worlds, |steps|);
    assert PhaseValid(w, w.writers[i]);
    PreparedIsSound(GenerationOf(w.log, |w.log|, work.base), work.fetched, work.manifest.acquisition, work.manifest.completedAt);
  }

  lemma {:induction false} SlowIsCovered(steps: seq<Step>, worlds: seq<World>, w: World, slow: Work)
    requires Reached(steps, worlds, w) && Waiting(w, 1, slow) && slow.base != IdOf(Prior(w.log, |w.log|))
    requires slow.Ranges() == [Range(1, 2)] && ByDay(slow.candidate) == map[1 := STALE, 2 := GOT]
    requires Sorted(Onto(w, slow)) && ByDay(Onto(w, slow)) == map[1 := STALE, 2 := GOT]
    ensures OntoLineage(w, slow).Some?
  {
    WaitingIsSound(steps, worlds, w, 1, slow);
    var rows := Onto(w, slow);
    forall i | 0 <= i < |rows|
      ensures Within(slow.Ranges(), rows[i].day) && Find(slow.manifest.lineage, rows[i].day).Some?
    {
      SortedLookup(rows, i);
      WithinOne(Range(1, 2), rows[i].day);
      PartitionSays(slow.manifest.lineage, slow.candidate, rows[i].day);
    }
    CoveredRebase(rows, LineageOf(Prior(w.log, |w.log|)), slow.manifest.lineage, slow.Ranges());
  }
}
