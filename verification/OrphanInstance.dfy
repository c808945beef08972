/** A run from the empty namespace after which acquiring is not idempotent: a writer that completed long ago
    rebases late onto a lineage that attributes a row to the wrong provider, so the row is an orphan and the
    manifest that will date it is older than the segment that claims it. */
module OrphanInstance {
  import opened Market
  import opened Sessions
  import opened Frames
  import opened Lineage
  import opened Store
  import opened Candidates
  import opened Writers
  import opened Interleavings
  import opened LineageRuns
  import opened Acquisition
  import opened Instances
  import Boundary
  import DataStores

  const NINE := Sample(9, YFinance, 1.0)
  const EARLY := Fetch(9, 9, [NINE], YFinance, 0)

  // ----- the run

  lemma {:induction false} LateFrame(latest: Frame, candidate: Frame)
    requires ByDay(candidate) == map[9 := NINE] && ByDay(latest) == map[1 := LOW, 2 := MIDDLE, 3 := HIGH]
    ensures var rows := Merge(latest, RowsInRanges(candidate, [Range(9, 9)]));
            rows != [] && Sorted(rows) && ByDay(rows) == map[1 := LOW, 2 := MIDDLE, 3 := HIGH, 9 := NINE]
  {
    var rows := Merge(latest, RowsInRanges(candidate, [Range(9, 9)]));
    RebasedHolds(latest, candidate, [Range(9, 9)]);
    WithinOne(Range(9, 9), 9);
    SameMap(ByDay(rows), map[1 := LOW, 2 := MIDDLE, 3 := HIGH, 9 := NINE]);
    HoldsSome(rows, 9);
  }

  lemma {:induction false} NineAlone()
    ensures ByDay([NINE]) == map[9 := NINE]
  {
    assert [NINE][..0] == [];
  }

  lemma {:induction false} LateIsCovered(w: World, late: Work)
    requires LogValid(w.log) && |w.log| == 2 && late.base == None && late.Ranges() == [Range(9, 9)]
    requires ByDay(w.log[1].frame) == map[1 := LOW, 2 := MIDDLE, 3 := HIGH]
    requires late.manifest.lineage == [SegmentOf([NINE], Attribution(YFinance, 0, Represented))]
    requires Sorted(Onto(w, late)) && ByDay(Onto(w, late)) == map[1 := LOW, 2 := MIDDLE, 3 := HIGH, 9 := NINE]
    ensures OntoLineage(w, late).Some?
  {
    var rows, existing := Onto(w, late), w.log[1].manifest.lineage;
    CommitGroups(w.log, 1);
    forall i | 0 <= i < |rows|
      ensures Find(if Within(late.Ranges(), rows[i].day) then late.manifest.lineage else existing, rows[i].day).Some?
    {
      SortedLookup(rows, i);
      if rows[i].day == 9 {
        assert late.manifest.lineage[0].Has(9);
      } else {
        PartitionSays(existing, w.log[1].frame, rows[i].day);
      }
      assert Within(late.Ranges(), 9) by {
        assert late.Ranges()[0].Has(9);
      }
    }
    CoveredRebase(rows, existing, late.manifest.lineage, late.Ranges());
  }

  /** What the run leaves in the log. */
  ghost predicate LateCommitted(w: World) {
    && |w.log| == 3 && w.issued == {"g1", "g2", "g3"}
    && ByDay(w.log[2].frame) == map[1 := LOW, 2 := MIDDLE, 3 := HIGH, 9 := NINE]
    && w.log[2].manifest.completedAt == 0
    && Says(w.log[2].manifest.lineage, 2) == Some(Attribution(YFinance, 20, Represented))
  }

  lemma {:induction false} LateStarts() returns (steps: seq<Step>, worlds: seq<World>, w: World, late: Work)
    ensures Reached(steps, worlds, w) && |w.log| == 2 && w.issued == {"g1", "g2"} && Waiting(w, 0, late)
    ensures ByDay(w.log[1].frame) == map[1 := LOW, 2 := MIDDLE, 3 := HIGH]
    ensures Says(w.log[1].manifest.lineage, 2) == Some(Attribution(YFinance, 20, Represented))
    ensures late.base == None && late.Ranges() == [Range(9, 9)] && late.candidate == [NINE] && late.manifest.completedAt == 0
    ensures late.manifest.lineage == [SegmentOf([NINE], Attribution(YFinance, 0, Represented))]
  {
    assert Reached([], [INITIAL], INITIAL);
    steps, worlds := Join([], [INITIAL], INITIAL, 0, EARLY, "late", 0);
    var w1 := Joined(INITIAL, 0, EARLY, "late", 0);
    late := PreparedOn(None, EARLY, "late", 0);
    FirstLineage(9, 9, [NINE], YFinance, 0, "late", 0);
    steps, worlds, w := OuterOverMiddle(steps, worlds, w1, 1, 2, 20, 10);
    RunKeeps(steps, worlds, |steps|);
    MiddleSays(w.log, 20);
    assert 0 in w1.writers && Waiting(w1, 0, late);
  }

  lemma {:induction false} LateRun() returns (steps: seq<Step>, worlds: seq<World>, w: World)
    ensures Reached(steps, worlds, w) && LateCommitted(w)
  {
    var w2, late;
    steps, worlds, w2, late := LateStarts();
    RunKeeps(steps, worlds, |steps|);
    NineAlone();
    LateFrame(w2.log[1].frame, late.candidate);
    LateIsCovered(w2, late);
    steps, worlds, w := Finish(steps, worlds, w2, 0, late, "g3");
    RunKeeps(steps, worlds, |steps|);
    LateSays(w2, w, late);
  }

  lemma {:induction false} LateSays(w2: World, w: World, late: Work)
    requires LogValid(w.log) && |w2.log| == 2 && |w.log| == 3 && w.log[..2] == w2.log && w.log[2].work == late
    requires late.base == None && late.Ranges() == [Range(9, 9)] && 2 in ByDay(w.log[2].frame)
    ensures Says(w.log[2].manifest.lineage, 2) == Says(w2.log[1].manifest.lineage, 2)
  {
    assert w.log[1] == w2.log[1];
    RebasedDaySays(w.log, 2, 2);
  }

  // ----- the acquisition

  /** Any request of two sessions, of which the cache has the first; any freshness that keeps rows for 20; any policy
      that asks for no coverage; and any providers that answer every range in full. */
  ghost predicate Setting(r: Request, freshness: Freshness, policy: Policy, fetch: Range -> Option<Accepted>) {
    && r.sessions == [2, 4] && r.useCache && !r.refresh
    && freshness.recentTtl == freshness.historicalTtl == 20 && policy.minimumCoverage <= 0.0
    && AnswersInFull(r, 30, fetch) && forall range: Range :: fetch(range).Some?
  }

  function AnswerRows(range: Range): Frame {
    (if range.Has(2) then [Sample(2, YFinance, 1.0)] else []) + (if range.Has(4) then [Sample(4, YFinance, 1.0)] else [])
  }

  function Answer(range: Range): Option<Accepted> {
    Some(Accepted(range, AnswerRows(range), YFinance, 30, Represented))
  }

  /** There are such providers. */
  lemma {:induction false} SettingExists() returns (r: Request, freshness: Freshness, policy: Policy, fetch: Range -> Option<Accepted>)
    ensures Setting(r, freshness, policy, fetch)
  {
    r, freshness, policy, fetch := Request([2, 4], (d: Day) => 0, true, false), Freshness(20, 20, 0, 1), Policy(0.0, 10, 0.0, 0.0), Answer;
    forall range: Range
      ensures FullAnswer(r, 30, range, Answer(range))
    {
      var rows := AnswerRows(range);
      forall d | d in DaysIn(r.sessions) && range.Has(d)
        ensures HasDay(rows, d)
      {
        if d == 2 {
          assert rows[0].day == 2;
        } else {
          assert rows[|rows| - 1].day == 4;
        }
      }
    }
  }

  /** The cache that the run leaves, as far as the request is concerned. */
  ghost predicate Leaves(read: ReadResult) {
    && read.Hit? && Canonical(read.frame) && Partitions(read.manifest.lineage, read.frame)
    && 2 in ByDay(read.frame) && ByDay(read.frame)[2] == MIDDLE && 4 !in ByDay(read.frame)
    && read.manifest.completedAt == 0
    && Says(read.manifest.lineage, 2) == Some(Attribution(YFinance, 20, Represented))
  }

  lemma {:induction false} OneClaimant(read: ReadResult)
    requires Leaves(read)
    ensures Claimed(read.manifest.lineage, 2) && Orphan(read, 2)
    ensures forall k :: 0 <= k < |read.manifest.lineage| && read.manifest.lineage[k].Has(2) ==> read.manifest.lineage[k].acquiredAt == 20
  {
    var lineage := read.manifest.lineage;
    DaysOf(read.frame, 2);
    var i :| 0 <= i < |read.frame| && read.frame[i].day == 2;
    RowFindsItsSegment(lineage, read.frame, i);
    var k := SegmentIndex(lineage, i);
    FindByIsAMember(lineage, 2, AlphaVantage);
    FindByNames(lineage, 2, AlphaVantage);
  }

  lemma {:induction false} OnlyFourIsNeeded(read: ReadResult, r: Request, freshness: Freshness)
    requires Leaves(read) && r.sessions == [2, 4] && r.useCache && !r.refresh && freshness.recentTtl == freshness.historicalTtl == 20
    ensures Needed(r, freshness, read, 30) == {4}
  {
    OneClaimant(read);
    assert DaysIn(r.sessions) == {2, 4} by {
      assert r.sessions[0] == 2 && r.sessions[1] == 4;
    }
    var window := RecentWindow(r, freshness, 30);
    assert !Expired(read.manifest.lineage, window, freshness, 30, 2);
  }

  lemma {:induction false} FetchAllIs(ranges: seq<Range>, fetch: Range -> Option<Accepted>)
    requires forall range: Range :: fetch(range).Some?
    ensures FetchAll(ranges, fetch).Some?
    ensures var fetched := FetchAll(ranges, fetch).value;
            |fetched| == |ranges| && forall k :: 0 <= k < |ranges| ==> fetched[k] == fetch(ranges[k]).value
  {
    if ranges != [] {
      FetchAllIs(ranges[..|ranges| - 1], fetch);
    }
  }

  /** Only the missing session is planned and fetched. */
  lemma {:induction false} TwoStaysUnfetched(read: ReadResult, r: Request, freshness: Freshness, policy: Policy, fetch: Range -> Option<Accepted>)
    requires Leaves(read) && Setting(r, freshness, policy, fetch)
    ensures Plan(r, freshness, read, 30) != []
    ensures FetchPlanned(r, policy, read, Plan(r, freshness, read, 30), fetch).Some?
    ensures 2 !in ByDay(Rows(FetchedBy(r, freshness, policy, read, 30, fetch)))
  {
    var planned := Plan(r, freshness, read, 30);
    OnlyFourIsNeeded(read, r, freshness);
    RangesCoverChosen(r.sessions, {4}, 0);
    RangesCoverChosen(r.sessions, {4}, 1);
    FetchAllIs(planned, fetch);
    var fetched := FetchAll(planned, fetch).value;
    forall k | 0 <= k < |planned|
      ensures fetched[k].range == planned[k] && Fetched(fetched[k])
    {
      assert FullAnswer(r, 30, planned[k], fetch(planned[k]));
    }
    RowsAreFetched(fetched, planned, 2);
    NoSharedDay(read, r.sessions, policy, fetched);
  }

  lemma {:induction false} NoSharedDay(read: ReadResult, sessions: seq<Day>, policy: Policy, fetched: seq<Accepted>)
    requires Leaves(read) && sessions == [2, 4] && 2 !in ByDay(Rows(fetched))
    ensures !ActionsChanged(policy, Requested(read.frame, sessions), fetched)
  {
    var cached, rows := Requested(read.frame, sessions), Rows(fetched);
    forall i | 0 <= i < |cached|
      ensures cached[i].day == 2
    {
      KeepMembers(read.frame, d => d in DaysIn(sessions));
      assert cached[i] in cached;
      DaysOf(read.frame, cached[i].day);
    }
    DaysOf(rows, 2);
    UnsharedIsUnchanged(policy, cached, fetched, 2);
  }

  lemma {:induction false} UnsharedIsUnchanged(policy: Policy, cached: Frame, fetched: seq<Accepted>, d: Day)
    requires (forall i :: 0 <= i < |cached| ==> cached[i].day == d) && !HasDay(Rows(fetched), d)
    ensures !ActionsChanged(policy, cached, fetched)
  {
  }

  /** The merged request passes the complete-request check. */
  lemma {:induction false} MergedIsUsable(read: ReadResult, sessions: seq<Day>, policy: Policy, fetched: seq<Accepted>)
    requires (read.Hit? ==> Canonical(read.frame)) && sessions == [2, 4] && policy.minimumCoverage <= 0.0
    requires var cached := ByDay(FrameOf(BaseOf(read))); 2 in cached || 2 in ByDay(Rows(fetched))
    requires 4 in ByDay(Rows(fetched)) && forall k :: 0 <= k < |fetched| ==> Fetched(fetched[k])
    ensures var candidate := Prepared(read, fetched, "a", 30).candidate;
            Canonical(candidate) && Usable(Requested(candidate, sessions), sessions, policy)
  {
    var candidate := Prepared(read, fetched, "a", 30).candidate;
    Boundary.RowsAreValid(fetched);
    DaysOf(Rows(fetched), 4);
    Boundary.MergeIsCanonical(FrameOf(BaseOf(read)), Rows(fetched));
    MergeOverrides(FrameOf(BaseOf(read)), Rows(fetched));
    Boundary.RequestFailsOnlyByPolicy(candidate, sessions, policy);
    NothingIsMissing(candidate, sessions);
    var q := Requested(candidate, sessions);
    DaysOf(q, 2);
    NothingNeededNothingPlanned(sessions, 2);
  }

  lemma {:induction false} NothingIsMissing(candidate: Frame, sessions: seq<Day>)
    requires sessions == [2, 4] && 2 in ByDay(candidate) && 4 in ByDay(candidate)
    ensures 2 in ByDay(Requested(candidate, sessions)) && Missing(Requested(candidate, sessions), sessions) == {}
  {
    var q := Requested(candidate, sessions);
    assert sessions[0] in DaysIn(sessions) && sessions[1] in DaysIn(sessions);
    forall d | d in DaysIn(sessions)
      ensures d in ByDay(q)
    {
      KeepRestricts(candidate, x => x in DaysIn(sessions), d);
    }
  }

  lemma {:induction false} FourIsSupplied(read: ReadResult, r: Request, freshness: Freshness, policy: Policy, fetch: Range -> Option<Accepted>)
    requires Leaves(read) && Setting(r, freshness, policy, fetch)
    ensures var fetched := FetchedBy(r, freshness, policy, read, 30, fetch);
            4 in ByDay(Rows(fetched)) && forall k :: 0 <= k < |fetched| ==> Fetched(fetched[k])
  {
    TwoStaysUnfetched(read, r, freshness, policy, fetch);
    OnlyFourIsNeeded(read, r, freshness);
    PlannedSupplied(r, freshness, policy, read, 30, fetch);
    assert r.sessions[1] in DaysIn(r.sessions);
    SuppliedDay(r, Needed(r, freshness, read, 30), FetchedBy(r, freshness, policy, read, 30, fetch), 4);
  }

  lemma {:induction false} SuppliedDay(r: Request, planned: set<Day>, fetched: seq<Accepted>, d: Day)
    requires Supplied(r, 30, planned, fetched) && d in DaysIn(r.sessions) && d in planned
    ensures d in ByDay(Rows(fetched)) && forall k :: 0 <= k < |fetched| ==> Fetched(fetched[k])
  {
  }

  lemma {:induction false} FirstSucceeds(s: Files, r: Request, freshness: Freshness, policy: Policy, fetch: Range -> Option<Accepted>)
    requires Leaves(Read(s)) && "g4" !in s.directories && Setting(r, freshness, policy, fetch)
    ensures Acquire(s, r, freshness, policy, 30, fetch, "a", "g4", true, true).Some?
  {
    var read := Read(s);
    var fetched := FetchedBy(r, freshness, policy, read, 30, fetch);
    TwoStaysUnfetched(read, r, freshness, policy, fetch);
    FourIsSupplied(read, r, freshness, policy, fetch);
    MergedIsUsable(read, r.sessions, policy, fetched);
    PublishesAlone(s, r, policy, Prepared(read, fetched, "a", 30));
    SucceedsWhen(s, r, freshness, policy, fetch, "a", "g4");
  }

  /** What a successful acquisition takes. */
  lemma {:induction false} SucceedsWhen(s: Files, r: Request, freshness: Freshness, policy: Policy, fetch: Range -> Option<Accepted>, a: string, id: string)
    requires r.sessions != [] && r.useCache && Plan(r, freshness, Read(s), 30) != []
    requires FetchPlanned(r, policy, Read(s), Plan(r, freshness, Read(s), 30), fetch).Some?
    requires var work := Prepared(Read(s), FetchedBy(r, freshness, policy, Read(s), 30, fetch), a, 30);
             Usable(Requested(work.candidate, r.sessions), r.sessions, policy) && PublishAlone(s, r, policy, work, id, true, true).Some?
    ensures Acquire(s, r, freshness, policy, 30, fetch, a, id, true, true).Some?
  {
  }

  lemma {:induction false} PublishesAlone(s: Files, r: Request, policy: Policy, work: Work)
    requires !Read(s).Invalidated? && work.base == Read(s).Id() && "g4" !in s.directories
    requires Canonical(work.candidate) && Usable(Requested(work.candidate, r.sessions), r.sessions, policy)
    ensures PublishAlone(s, r, policy, work, "g4", true, true).Some?
  {
    var outside := DataStores.Outside(f => Usable(Requested(f, r.sessions), r.sessions, policy), (k, f) => f, "g4", SWAP, true, true);
    assert Assemble(Read(s), work, work.base, outside.revalidate(work.candidate)) == Some((work.candidate, work.manifest));
  }

  lemma {:induction false} OrphanIsStale(read: ReadResult, r: Request, freshness: Freshness, policy: Policy, fetch: Range -> Option<Accepted>)
    requires Leaves(read) && Setting(r, freshness, policy, fetch)
    ensures !OrphansFresh(r, freshness, read, 30, FetchedBy(r, freshness, policy, read, 30, fetch))
  {
    TwoStaysUnfetched(read, r, freshness, policy, fetch);
    OneClaimant(read);
    assert r.sessions[0] in DaysIn(r.sessions);
  }

  /** The first acquisition succeeds, and the second plans again, so it is no full hit. */
  ghost predicate Repeats(s: Files, r: Request, freshness: Freshness, policy: Policy, fetch: Range -> Option<Accepted>)
    requires r.sessions != []
  {
    var first := Acquire(s, r, freshness, policy, 30, fetch, "a", "g4", true, true);
    first.Some? && Plan(r.(refresh := false), freshness, Read(first.value.files), 30) != []
    && !IsFullHit(Acquire(first.value.files, r.(refresh := false), freshness, policy, 30, fetch, "b", "g5", true, true), first.value, "b", 30)
  }

  /** All that idempotence asks for, except that an orphan is too old. */
  ghost predicate StaleAfter(s: Files, r: Request, freshness: Freshness, policy: Policy, fetch: Range -> Option<Accepted>) {
    && r.sessions != [] && Ascending(r.sessions) && r.useCache && AnswersInFull(r, 30, fetch)
    && Acquire(s, r, freshness, policy, 30, fetch, "a", "g4", true, true).Some?
    && Plan(r, freshness, Read(s), 30) != []
    && !OrphansFresh(r, freshness, Read(s), 30, FetchedBy(r, freshness, policy, Read(s), 30, fetch))
  }

  /** The exact condition of idempotence, read from its failing side. */
  lemma {:induction false} StaleOrphanRepeats(s: Files, r: Request, freshness: Freshness, policy: Policy, fetch: Range -> Option<Accepted>)
    requires StaleAfter(s, r, freshness, policy, fetch)
    ensures Repeats(s, r, freshness, policy, fetch)
  {
    AcquireTwiceExactly(s, r, freshness, policy, 30, fetch, fetch, "a", "b", "g4", "g5", true, true, true, true);
    PlannedIsReported(s, r, freshness, policy, 30, fetch, "a", "g4", true, true);
    FetchedLeaves(s, r, freshness, policy, 30, fetch, "a", "g4", true, true);
  }

  lemma {:induction false} FirstPlans(s: Files, r: Request, freshness: Freshness, policy: Policy, fetch: Range -> Option<Accepted>)
    requires Leaves(Read(s)) && Setting(r, freshness, policy, fetch)
    ensures Plan(r, freshness, Read(s), 30) != []
  {
    TwoStaysUnfetched(Read(s), r, freshness, policy, fetch);
  }

  lemma {:induction false} StaleAfterRun(s: Files, r: Request, freshness: Freshness, policy: Policy, fetch: Range -> Option<Accepted>)
    requires Leaves(Read(s)) && "g4" !in s.directories && Setting(r, freshness, policy, fetch)
    ensures StaleAfter(s, r, freshness, policy, fetch)
  {
    assert Ascending(r.sessions);
    OrphanIsStale(Read(s), r, freshness, policy, fetch);
    FirstPlans(s, r, freshness, policy, fetch);
    FirstSucceeds(s, r, freshness, policy, fetch);
  }

  lemma {:induction false} LateRunLeaves() returns (steps: seq<Step>, worlds: seq<World>, s: Files)
    ensures Interleaving(steps, worlds) && s == worlds[|steps|].files
    ensures Leaves(Read(s)) && "g4" !in s.directories
  {
    var w;
    steps, worlds, w := LateRun();
    s := w.files;
    RunKeeps(steps, worlds, |steps|);
    LateLeaves(w);
  }

  lemma {:induction false} LateLeaves(w: World)
    requires FilesValid(w) && LogValid(w.log) && LateCommitted(w)
    ensures Leaves(Read(w.files)) && "g4" !in w.files.directories
  {
    CommitGroups(w.log, 2);
    LateReads(w);
    LastEntryLeaves(Read(w.files), w.log[2]);
    Identifiers();
  }

  lemma {:induction false} LateReads(w: World)
    requires FilesValid(w) && LogValid(w.log) && |w.log| == 3
    ensures BaseOf(Read(w.files)) == Some(w.log[2].Made()) && Canonical(w.log[2].frame)
  {
    assert EntryValid(w.log, 2);
  }

  lemma {:induction false} LastEntryLeaves(read: ReadResult, e: Entry)
    requires BaseOf(read) == Some(e.Made()) && Canonical(e.frame) && Partitions(e.manifest.lineage, e.frame)
    requires ByDay(e.frame) == map[1 := LOW, 2 := MIDDLE, 3 := HIGH, 9 := NINE] && e.manifest.completedAt == 0
    requires Says(e.manifest.lineage, 2) == Some(Attribution(YFinance, 20, Represented))
    ensures Leaves(read)
  {
  }

  /** In a reachable state the first acquisition succeeds and fetches only the missing session, and the second, of the
      same request at the same instant, is no full hit: it finds the orphan expired. */
  lemma {:induction false} AcquiringCanNeedRepeating()
    returns (steps: seq<Step>, worlds: seq<World>, s: Files, r: Request, freshness: Freshness, policy: Policy, fetch: Range -> Option<Accepted>)
    ensures Interleaving(steps, worlds) && s == worlds[|steps|].files
    ensures Setting(r, freshness, policy, fetch) && Repeats(s, r, freshness, policy, fetch)
  {
    steps, worlds, s := LateRunLeaves();
    r, freshness, policy, fetch := SettingExists();
    StaleAfterRun(s, r, freshness, policy, fetch);
    StaleOrphanRepeats(s, r, freshness, policy, fetch);
  }
}
