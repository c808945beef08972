/** The cache agrees with fetching everything: when the providers always tell the rows of one fixed function of the day,
    every row of CURRENT is that function's row in every reachable state, and every acquisition returns exactly the
    rows of its sessions, with the cache or without. */
module CacheAgreement {
  import opened Market
  import opened Sessions
  import opened Frames
  import opened Lineage
  import opened Store
  import opened Candidates
  import opened Writers
  import opened Interleavings
  import opened LineageRuns
  import opened Acquisition
  import opened AcquisitionRuns
  import Boundary
  import DataStores
  import Sorting

  /** What the market says of each day. */
  type Truth = Day -> Row

  ghost predicate Tells(truth: Truth, f: Frame) {
    forall i :: 0 <= i < |f| ==> f[i] == truth(f[i].day)
  }

  ghost predicate AllTell(truth: Truth, fetched: seq<Accepted>) {
    forall k :: 0 <= k < |fetched| ==> Tells(truth, fetched[k].rows)
  }

  // ----- frames

  lemma {:induction false} RowsTell(truth: Truth, fetched: seq<Accepted>)
    requires AllTell(truth, fetched)
    ensures Tells(truth, Rows(fetched))
  {
    if fetched != [] {
      RowsTell(truth, fetched[..|fetched| - 1]);
      assert Tells(truth, fetched[|fetched| - 1].rows);
    }
  }

  lemma {:induction false} MergeTells(truth: Truth, f: Frame, g: Frame)
    requires Tells(truth, f) && Tells(truth, g)
    ensures Tells(truth, Merge(f, g))
  {
    var merged, all := Merge(f, g), f + g;
    KeepLastKeepsMeaning(all);
    forall i | 0 <= i < |merged|
      ensures merged[i] == truth(merged[i].day)
    {
      Sorting.SortMembers(KeepLast(all), NotLater, merged[i]);
      assert merged[i] in all;
    }
  }

  lemma {:induction false} KeepTells(truth: Truth, f: Frame, keep: Day -> bool)
    requires Tells(truth, f)
    ensures Tells(truth, Keep(f, keep))
  {
    KeepMembers(f, keep);
    forall i | 0 <= i < |Keep(f, keep)|
      ensures Keep(f, keep)[i] == truth(Keep(f, keep)[i].day)
    {
      assert Keep(f, keep)[i] in Keep(f, keep);
    }
  }

  lemma {:induction false} AssembledTells(truth: Truth, latest: ReadResult, work: Work, expected: Option<string>)
    requires Tells(truth, work.candidate) && (latest.Hit? ==> Tells(truth, latest.frame))
    ensures Tells(truth, AssembledFrame(latest, work, expected))
  {
    if latest.Hit? {
      KeepTells(truth, work.candidate, d => Within(work.Ranges(), d));
      MergeTells(truth, latest.frame, RowsInRanges(work.candidate, work.Ranges()));
    }
  }

  // ----- runs

  /** Every fetch of the run tells the truth. */
  ghost predicate OneSource(truth: Truth, steps: seq<Step>) {
    forall i :: 0 <= i < |steps| ==> StepTells(truth, steps[i])
  }

  ghost predicate StepTells(truth: Truth, step: Step) {
    step.Begin? ==> AllTell(truth, step.fetched)
  }

  ghost predicate PhaseTells(truth: Truth, p: Phase) {
    p.Preparing? || p.Assembled? ==> AllTell(truth, p.work.fetched)
  }

  ghost predicate WorldTells(truth: Truth, w: World) {
    && (forall i :: i in w.writers ==> PhaseTells(truth, w.writers[i]))
    && (forall k :: 0 <= k < |w.log| ==> AllTell(truth, w.log[k].work.fetched))
  }

  lemma {:induction false} StepKeepsTelling(truth: Truth, w: World, step: Step)
    requires WorldTells(truth, w) && StepTells(truth, step)
    ensures WorldTells(truth, Next(w, step))
  {
    var after := Next(w, step);
    forall i | i in after.writers
      ensures PhaseTells(truth, after.writers[i])
    {
      if i in w.writers {
        assert PhaseTells(truth, w.writers[i]);
      }
    }
    forall k | 0 <= k < |after.log|
      ensures AllTell(truth, after.log[k].work.fetched)
    {
      if k < |w.log| {
        assert after.log[k] == w.log[k];
      } else {
        assert PhaseTells(truth, w.writers[step.writer]);
      }
    }
  }

  lemma {:induction false} RunTells(truth: Truth, steps: seq<Step>, worlds: seq<World>, n: nat)
    requires Interleaving(steps, worlds) && n <= |steps| && OneSource(truth, steps)
    ensures WorldTells(truth, worlds[n])
  {
    if n > 0 {
      RunTells(truth, steps, worlds, n - 1);
      assert Happens(steps, worlds, n - 1);
      assert StepTells(truth, steps[n - 1]);
      StepKeepsTelling(truth, worlds[n - 1], steps[n - 1]);
    }
  }

  lemma {:induction false} CommitTells(truth: Truth, log: seq<Entry>, k: nat)
    requires LogValid(log) && k < |log| && AllTell(truth, log[k].work.fetched)
    requires forall j :: 0 <= j < k ==> Tells(truth, log[j].frame)
    ensures Tells(truth, log[k].frame)
  {
    var e := log[k];
    var base := GenerationOf(log, k, e.work.base);
    assert EntryValid(log, k);
    BaseIsEarlier(log, k, e.work.base);
    RowsTell(truth, e.work.fetched);
    assert Tells(truth, FrameOf(base));
    MergeTells(truth, FrameOf(base), Rows(e.work.fetched));
    if Rebased(log, k) {
      KeepTells(truth, e.work.candidate, d => Within(e.work.Ranges(), d));
      MergeTells(truth, log[k - 1].frame, RowsInRanges(e.work.candidate, e.work.Ranges()));
    }
  }

  lemma {:induction false} LogTells(truth: Truth, log: seq<Entry>, k: nat)
    requires LogValid(log) && k <= |log| && forall j :: 0 <= j < |log| ==> AllTell(truth, log[j].work.fetched)
    ensures forall j :: 0 <= j < k ==> Tells(truth, log[j].frame)
  {
    if k > 0 {
      LogTells(truth, log, k - 1);
      CommitTells(truth, log, k - 1);
    }
  }

  /** In every reachable state every row of CURRENT is what the source says of its day, however the writers were
      interleaved, rebased, cut short or cleaned up after. */
  lemma {:induction false} CurrentTellsTheTruth(truth: Truth, steps: seq<Step>, worlds: seq<World>, n: nat)
    requires Interleaving(steps, worlds) && n <= |steps| && OneSource(truth, steps)
    ensures var read := Read(worlds[n].files); read.Hit? ==> Sorted(read.frame) && Tells(truth, read.frame)
  {
    RunKeeps(steps, worlds, n);
    RunTells(truth, steps, worlds, n);
    var log := worlds[n].log;
    LogTells(truth, log, |log|);
    if log != [] {
      assert EntryValid(log, |log| - 1);
      assert Tells(truth, log[|log| - 1].frame);
    }
  }

  // ----- acquisitions

  /** The rows of the sessions themselves. */
  ghost function TrueFrame(truth: Truth, sessions: seq<Day>): Frame {
    seq(|sessions|, i requires 0 <= i < |sessions| => truth(sessions[i]))
  }

  /** A sorted frame that tells the truth and has every session, restricted to the sessions, is their true frame. */
  lemma {:induction false} RequestedIsTrue(truth: Truth, f: Frame, sessions: seq<Day>)
    requires Sorted(f) && Tells(truth, f) && Ascending(sessions) && (forall d :: truth(d).day == d)
    requires forall d :: d in DaysIn(sessions) ==> d in ByDay(f)
    ensures Requested(f, sessions) == TrueFrame(truth, sessions)
  {
    var q, t := Requested(f, sessions), TrueFrame(truth, sessions);
    KeepSorted(f, d => d in DaysIn(sessions));
    forall d: Day
      ensures d in ByDay(q) <==> d in ByDay(t)
      ensures d in ByDay(q) ==> ByDay(q)[d] == ByDay(t)[d]
    {
      KeepRestricts(f, x => x in DaysIn(sessions), d);
      TrueRow(truth, sessions, d);
      DaysOf(f, d);
    }
    assert ByDay(q) == ByDay(t);
    SameMeaningSameFrame(q, t);
  }

  lemma {:induction false} TrueRow(truth: Truth, sessions: seq<Day>, d: Day)
    requires Ascending(sessions) && forall x :: truth(x).day == x
    ensures var t := TrueFrame(truth, sessions);
            Sorted(t) && (d in ByDay(t) <==> d in DaysIn(sessions)) && (d in ByDay(t) ==> ByDay(t)[d] == truth(d))
  {
    var t := TrueFrame(truth, sessions);
    DaysOf(t, d);
    if d in DaysIn(sessions) {
      var i :| 0 <= i < |sessions| && sessions[i] == d;
      assert t[i].day == d;
      SortedLookup(t, i);
    }
    if d in ByDay(t) {
      var i :| 0 <= i < |t| && t[i].day == d;
      assert sessions[i] == d;
    }
  }

  /** With no interference the frame that is published is the one assembled. */
  lemma {:induction false} FirstAttemptFrame(s: Files, work: Work, outside: DataStores.Outside)
    requires outside.probe(1, s) == s
    ensures var outcome := DataStores.Attempts(s, work, work.base, 1, outside).1;
            outcome.Done? ==> outcome.frame == AssembledFrame(Read(s), work, work.base)
  {
    var latest := Read(s);
    var revalidated := outside.revalidate(AssembledFrame(latest, work, work.base));
    Boundary.AssembledIsRevalidated(latest, work, work.base, revalidated);
    assert !latest.Invalidated? ==> CurrentId(s) == latest.Id();
    var assembled := Assemble(latest, work, work.base, revalidated);
    if assembled.Some? {
      Boundary.PublicationReturnsFrame(s, work, assembled.value.0, assembled.value.1, outside);
    }
  }

  lemma {:induction false} PublishedFrame(s: Files, r: Request, policy: Policy, work: Work, id: string, archiveWritable: bool, pinWritable: bool)
    ensures var published := PublishAlone(s, r, policy, work, id, archiveWritable, pinWritable);
            published.Some? ==> published.value.1 == AssembledFrame(Read(s), work, work.base)
  {
    var outside := DataStores.Outside(f => Usable(Requested(f, r.sessions), r.sessions, policy), (k, f) => f, id, SWAP, archiveWritable, pinWritable);
    FirstAttemptFrame(s, work, outside);
  }

  /** What was fetched and what was read both tell the truth, and together they have every session. */
  ghost predicate Complete(truth: Truth, sessions: seq<Day>, read: ReadResult, fetched: seq<Accepted>) {
    && AllTell(truth, fetched) && (forall k :: 0 <= k < |fetched| ==> Fetched(fetched[k]))
    && Tells(truth, FrameOf(BaseOf(read)))
    && forall d :: d in DaysIn(sessions) ==> d in ByDay(FrameOf(BaseOf(read))) || d in ByDay(Rows(fetched))
  }

  /** Whether it is the candidate or a rebase of what was fetched afresh, the published frame has every session. */
  lemma {:induction false} AssembledIsTrue(truth: Truth, sessions: seq<Day>, read: ReadResult, latest: ReadResult, fetched: seq<Accepted>, a: string, now: int)
    requires Complete(truth, sessions, read, fetched) && (read == latest || read.Miss?) && !latest.Invalidated?
    requires latest.Hit? ==> Tells(truth, latest.frame)
    ensures var work := Prepared(read, fetched, a, now);
            var f := AssembledFrame(latest, work, work.base);
            Sorted(f) && Tells(truth, f) && forall d :: d in DaysIn(sessions) ==> d in ByDay(f)
  {
    var work := Prepared(read, fetched, a, now);
    var base := FrameOf(BaseOf(read));
    RowsTell(truth, fetched);
    MergeTells(truth, base, Rows(fetched));
    MergeOverrides(base, Rows(fetched));
    AssembledTells(truth, latest, work, work.base);
    if latest.Hit? && work.base != latest.Id() {
      MergeOverrides(latest.frame, RowsInRanges(work.candidate, work.Ranges()));
      forall d | d in DaysIn(sessions)
        ensures d in Overlay(work)
      {
        FetchedRowsOverlay(base, work, d);
      }
    }
  }

  /** The providers answer in full and tell the truth. */
  ghost predicate AnswersTruly(truth: Truth, r: Request, now: int, fetch: Range -> Option<Accepted>) {
    && AnswersInFull(r, now, fetch)
    && forall range: Range :: fetch(range).Some? ==> Tells(truth, fetch(range).value.rows)
  }

  lemma {:induction false} FetchAllTells(truth: Truth, ranges: seq<Range>, fetch: Range -> Option<Accepted>)
    requires FetchAll(ranges, fetch).Some? && forall range: Range :: fetch(range).Some? ==> Tells(truth, fetch(range).value.rows)
    ensures AllTell(truth, FetchAll(ranges, fetch).value)
  {
    if ranges != [] {
      FetchAllTells(truth, ranges[..|ranges| - 1], fetch);
    }
  }

  lemma {:induction false} FetchedIsComplete(truth: Truth, r: Request, freshness: Freshness, policy: Policy, read: ReadResult, now: int, fetch: Range -> Option<Accepted>)
    requires r.sessions != [] && Ascending(r.sessions) && AnswersTruly(truth, r, now, fetch)
    requires (r.useCache || read.Miss?) && (read.Hit? ==> Tells(truth, read.frame))
    requires FetchPlanned(r, policy, read, Plan(r, freshness, read, now), fetch).Some?
    ensures Complete(truth, r.sessions, read, FetchPlanned(r, policy, read, Plan(r, freshness, read, now), fetch).value)
  {
    var planned := Plan(r, freshness, read, now);
    var fetched := FetchPlanned(r, policy, read, planned, fetch).value;
    PlannedSupplied(r, freshness, policy, read, now, fetch);
    FetchAllTells(truth, planned, fetch);
    if FetchAll([WholeRange(r.sessions)], fetch).Some? {
      FetchAllTells(truth, [WholeRange(r.sessions)], fetch);
    }
  }

  /** From every cache that tells the truth, an acquisition whose providers answer in full and truly returns the true
      frame of its sessions: what is cached, what is fetched and whether the cache is used make no difference. */
  lemma {:induction false} AcquiredIsTrue(truth: Truth, s: Files, r: Request, freshness: Freshness, policy: Policy, now: int,
                                          fetch: Range -> Option<Accepted>, a: string, id: string, archiveWritable: bool, pinWritable: bool)
    requires r.sessions != [] && Ascending(r.sessions) && (forall d :: truth(d).day == d) && AnswersTruly(truth, r, now, fetch)
    requires Read(s).Hit? ==> Sorted(Read(s).frame) && Tells(truth, Read(s).frame)
    requires Acquire(s, r, freshness, policy, now, fetch, a, id, archiveWritable, pinWritable).Some?
    ensures Acquire(s, r, freshness, policy, now, fetch, a, id, archiveWritable, pinWritable).value.frame == TrueFrame(truth, r.sessions)
  {
    var read := if r.useCache then Read(s) else Miss;
    if Plan(r, freshness, read, now) == [] {
      HitIsTrue(truth, s, r, freshness, policy, now, fetch, a, id, archiveWritable, pinWritable);
    } else {
      FetchedIsTrue(truth, s, r, freshness, policy, now, fetch, a, id, archiveWritable, pinWritable);
    }
  }

  lemma {:induction false} HitIsTrue(truth: Truth, s: Files, r: Request, freshness: Freshness, policy: Policy, now: int,
                                     fetch: Range -> Option<Accepted>, a: string, id: string, archiveWritable: bool, pinWritable: bool)
    requires r.sessions != [] && Ascending(r.sessions) && (forall d :: truth(d).day == d)
    requires Read(s).Hit? ==> Sorted(Read(s).frame) && Tells(truth, Read(s).frame)
    requires Plan(r, freshness, if r.useCache then Read(s) else Miss, now) == []
    requires Acquire(s, r, freshness, policy, now, fetch, a, id, archiveWritable, pinWritable).Some?
    ensures Acquire(s, r, freshness, policy, now, fetch, a, id, archiveWritable, pinWritable).value.frame == TrueFrame(truth, r.sessions)
  {
    var read := if r.useCache then Read(s) else Miss;
    NothingPlannedNothingNeeded(r, freshness, read, now);
    RequestedIsTrue(truth, read.frame, r.sessions);
  }

  lemma {:induction false} NothingPlannedNothingNeeded(r: Request, freshness: Freshness, read: ReadResult, now: int)
    requires r.sessions != [] && Ascending(r.sessions) && Plan(r, freshness, read, now) == []
    ensures r.useCache && read.Hit? && forall d :: d in DaysIn(r.sessions) ==> d in ByDay(read.frame)
  {
    var needed := Needed(r, freshness, read, now);
    forall d | d in DaysIn(r.sessions)
      ensures d !in needed
    {
      var i :| 0 <= i < |r.sessions| && r.sessions[i] == d;
      RangesCoverChosen(r.sessions, needed, i);
    }
    assert r.sessions[0] in DaysIn(r.sessions);
  }

  lemma {:induction false} FetchedIsTrue(truth: Truth, s: Files, r: Request, freshness: Freshness, policy: Policy, now: int,
                                         fetch: Range -> Option<Accepted>, a: string, id: string, archiveWritable: bool, pinWritable: bool)
    requires r.sessions != [] && Ascending(r.sessions) && (forall d :: truth(d).day == d) && AnswersTruly(truth, r, now, fetch)
    requires Read(s).Hit? ==> Tells(truth, Read(s).frame)
    requires Plan(r, freshness, if r.useCache then Read(s) else Miss, now) != []
    requires Acquire(s, r, freshness, policy, now, fetch, a, id, archiveWritable, pinWritable).Some?
    ensures Acquire(s, r, freshness, policy, now, fetch, a, id, archiveWritable, pinWritable).value.frame == TrueFrame(truth, r.sessions)
  {
    var read := if r.useCache then Read(s) else Miss;
    var fetched := FetchPlanned(r, policy, read, Plan(r, freshness, read, now), fetch).value;
    var work := Prepared(read, fetched, a, now);
    FetchedIsComplete(truth, r, freshness, policy, read, now, fetch);
    PublishedFrame(s, r, policy, work, id, archiveWritable, pinWritable);
    NotInvalidated(s, r, policy, work, id, archiveWritable, pinWritable);
    AssembledIsTrue(truth, r.sessions, read, Read(s), fetched, a, now);
    RequestedIsTrue(truth, AssembledFrame(Read(s), work, work.base), r.sessions);
  }

  lemma {:induction false} NotInvalidated(s: Files, r: Request, policy: Policy, work: Work, id: string, archiveWritable: bool, pinWritable: bool)
    requires PublishAlone(s, r, policy, work, id, archiveWritable, pinWritable).Some?
    ensures !Read(s).Invalidated?
  {
  }

  /** Hence, in every state of every interleaving from one source, an acquisition through the cache returns exactly the
      frame that the same request without the cache would return, and that frame is the source's. */
  lemma {:induction false} CacheAgreesWithFetching(truth: Truth, steps: seq<Step>, worlds: seq<World>, n: nat, r: Request, freshness: Freshness,
                                                   policy: Policy, now: int, fetch: Range -> Option<Accepted>, a: string, b: string, id: string, id2: string)
    requires Interleaving(steps, worlds) && n <= |steps| && OneSource(truth, steps) && (forall d :: truth(d).day == d)
    requires r.sessions != [] && Ascending(r.sessions) && AnswersTruly(truth, r, now, fetch)
    ensures var cached := Acquire(worlds[n].files, r.(useCache := true), freshness, policy, now, fetch, a, id, true, true);
            var fetched := Acquire(worlds[n].files, r.(useCache := false), freshness, policy, now, fetch, b, id2, true, true);
            && (cached.Some? ==> cached.value.frame == TrueFrame(truth, r.sessions))
            && (fetched.Some? ==> fetched.value.frame == TrueFrame(truth, r.sessions))
            && (cached.Some? && fetched.Some? ==> cached.value.frame == fetched.value.frame)
  {
    CurrentTellsTheTruth(truth, steps, worlds, n);
    var with, without := r.(useCache := true), r.(useCache := false);
    AnswersIgnoreFlags(truth, r, with, now, fetch);
    AnswersIgnoreFlags(truth, r, without, now, fetch);
    if Acquire(worlds[n].files, with, freshness, policy, now, fetch, a, id, true, true).Some? {
      AcquiredIsTrue(truth, worlds[n].files, with, freshness, policy, now, fetch, a, id, true, true);
    }
    if Acquire(worlds[n].files, without, freshness, policy, now, fetch, b, id2, true, true).Some? {
      AcquiredIsTrue(truth, worlds[n].files, without, freshness, policy, now, fetch, b, id2, true, true);
    }
  }

  lemma {:induction false} AnswersIgnoreFlags(truth: Truth, r: Request, other: Request, now: int, fetch: Range -> Option<Accepted>)
    requires AnswersTruly(truth, r, now, fetch) && other.sessions == r.sessions
    ensures AnswersTruly(truth, other, now, fetch)
  {
    forall range: Range
      ensures FullAnswer(other, now, range, fetch(range))
    {
      assert FullAnswer(r, now, range, fetch(range));
    }
  }
}
