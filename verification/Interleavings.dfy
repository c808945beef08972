/** What holds over every interleaving of concurrent writers: no lost update, where each row of CURRENT comes
    from, and when a commit changes more than was fetched. */
module Interleavings {
  import opened Sessions
  import opened Frames
  import opened Store
  import opened Candidates
  import opened Writers

  // ----- whole runs

  ghost predicate Happens(steps: seq<Step>, worlds: seq<World>, i: nat)
    requires i < |steps| && |worlds| == |steps| + 1
  {
    Enabled(worlds[i], steps[i]) && worlds[i + 1] == Next(worlds[i], steps[i])
  }

  /** A run of any number of writers, with the world after each step. */
  ghost predicate Interleaving(steps: seq<Step>, worlds: seq<World>) {
    && |worlds| == |steps| + 1
    && worlds[0] == INITIAL
    && forall i :: 0 <= i < |steps| ==> Happens(steps, worlds, i)
  }

  lemma {:induction false} RunKeeps(steps: seq<Step>, worlds: seq<World>, n: nat)
    requires Interleaving(steps, worlds) && n <= |steps|
    ensures WorldValid(worlds[n])
  {
    if n > 0 {
      RunKeeps(steps, worlds, n - 1);
      assert Happens(steps, worlds, n - 1);
      StepKeeps(worlds[n - 1], steps[n - 1]);
    }
  }

  /** A commit that was not rebased was prepared on the very generation it replaced. */
  lemma {:induction false} PreparedOnPrior(log: seq<Entry>, k: nat)
    requires LogValid(log) && k < |log| && log[k].work.base == IdOf(Prior(log, k))
    ensures var e := log[k];
            && e.work == PreparedOn(Prior(log, k), e.work.fetched, e.manifest.acquisition, e.manifest.completedAt)
            && e.frame == e.work.candidate && e.manifest == e.work.manifest
  {
    assert EntryValid(log, k);
  }

  /** Every commit, rebased or not, lays the writer's rows over its predecessor. */
  lemma {:induction false} CommitOverlays(log: seq<Entry>, k: nat)
    requires LogValid(log) && k < |log|
    ensures Overlaid(FrameOf(Prior(log, k)), log[k].work, log[k].frame)
  {
    var e, prior := log[k], Prior(log, k);
    assert EntryValid(log, k);
    if e.work.base == IdOf(prior) {
      PreparedOnPrior(log, k);
      CandidateOverlaysBase(FrameOf(prior), e.work);
    } else {
      MergeOverrides(prior.value.frame, RowsInRanges(e.work.candidate, e.work.Ranges()));
    }
  }

  /** No lost update, over every interleaving: each commit, rebased or not, keeps every day of its
      predecessor, leaves every row outside the writer's ranges as it was, and inside them takes exactly the
      rows of the writer's candidate. */
  lemma {:induction false} NoLostUpdate(steps: seq<Step>, worlds: seq<World>, n: nat, k: nat)
    requires Interleaving(steps, worlds) && n <= |steps| && k < |worlds[n].log|
    ensures var log := worlds[n].log;
            var previous, after, e := ByDay(FrameOf(Prior(log, k))), ByDay(log[k].frame), log[k];
            && previous.Keys <= after.Keys
            && (forall d :: d in after && !Within(e.work.Ranges(), d) ==> d in previous && after[d] == previous[d])
            && (forall d :: d in ByDay(e.work.candidate) && Within(e.work.Ranges(), d) ==> d in after && after[d] == ByDay(e.work.candidate)[d])
            && (forall d :: d in after && Within(e.work.Ranges(), d) && d !in ByDay(e.work.candidate) ==> d in previous && after[d] == previous[d])
  {
    RunKeeps(steps, worlds, n);
    var e := worlds[n].log[k];
    CommitOverlays(worlds[n].log, k);
    forall d: Day
      ensures d in Overlay(e.work) <==> d in ByDay(e.work.candidate) && Within(e.work.Ranges(), d)
      ensures d in Overlay(e.work) ==> Overlay(e.work)[d] == ByDay(e.work.candidate)[d]
    {
      KeepRestricts(e.work.candidate, x => Within(e.work.Ranges(), x), d);
    }
  }

  // ----- who supplied a day of CURRENT

  /** The writer's ranges cover the day and its candidate has a row for it. */
  predicate Supplies(e: Entry, d: Day) {
    d in Overlay(e.work)
  }

  /** The last of the first n commits that supplies the day; -1 if none does. */
  function LastSupplier(log: seq<Entry>, n: nat, d: Day): int
    requires n <= |log|
  {
    if n == 0 then -1 else if Supplies(log[n - 1], d) then n - 1 else LastSupplier(log, n - 1, d)
  }

  /** Among the first n commits, commit k is the last that supplies the day, and the day's row is the one it
      supplied; with no such commit the day is absent. */
  ghost predicate OwnedBy(rows: map<Day, Row>, log: seq<Entry>, n: nat, d: Day, k: int)
    requires n <= |log|
  {
    && -1 <= k < n
    && (forall j :: k < j < n ==> !Supplies(log[j], d))
    && (d in rows <==> k >= 0)
    && (k >= 0 ==> d in rows && Supplies(log[k], d) && rows[d] == Overlay(log[k].work)[d])
  }

  lemma {:induction false} OverlaidAt(previous: Frame, work: Work, frame: Frame, d: Day)
    requires Overlaid(previous, work, frame)
    ensures d in ByDay(frame) <==> d in ByDay(previous) || d in Overlay(work)
    ensures d in ByDay(frame) ==> ByDay(frame)[d] == if d in Overlay(work) then Overlay(work)[d] else ByDay(previous)[d]
  {
  }

  lemma {:induction false} LastSupplierOwns(log: seq<Entry>, n: nat, d: Day)
    requires LogValid(log) && n <= |log|
    ensures OwnedBy(ByDay(FrameOf(Prior(log, n))), log, n, d, LastSupplier(log, n, d))
  {
    if n > 0 {
      LastSupplierOwns(log, n - 1, d);
      CommitOverlays(log, n - 1);
      OverlaidAt(FrameOf(Prior(log, n - 1)), log[n - 1].work, log[n - 1].frame, d);
    }
  }

  /** In every reachable state a read of CURRENT returns, for each day, the row of the last committed writer
      whose ranges cover the day and whose candidate has it, and no other day. */
  lemma {:induction false} CurrentComesFromLastSupplier(steps: seq<Step>, worlds: seq<World>, n: nat, d: Day)
    requires Interleaving(steps, worlds) && n <= |steps| && worlds[n].log != []
    ensures var w := worlds[n];
            Read(w.files).Hit? && OwnedBy(ByDay(Read(w.files).frame), w.log, |w.log|, d, LastSupplier(w.log, |w.log|, d))
  {
    RunKeeps(steps, worlds, n);
    LastSupplierOwns(worlds[n].log, |worlds[n].log|, d);
  }

  // ----- where the stronger reading of "no lost update" fails

  /** A commit changes only the days that were actually fetched. */
  ghost predicate OnlyFetchedChange(previous: Frame, work: Work, frame: Frame) {
    ByDay(frame) == ByDay(previous) + ByDay(Rows(work.fetched))
  }

  /** Planned days for which the provider returned nothing: the candidate still holds the row the writer had
      read, and that row is what the predecessor has. */
  ghost predicate UnfetchedRowsCurrent(previous: Frame, work: Work) {
    forall d :: d in Overlay(work) && d !in ByDay(Rows(work.fetched)) ==> d in ByDay(previous) && ByDay(previous)[d] == Overlay(work)[d]
  }

  lemma {:induction false} OverlayChanges(previous: Frame, work: Work, frame: Frame)
    requires Overlaid(previous, work, frame)
    requires forall d :: d in ByDay(Rows(work.fetched)) ==> d in Overlay(work) && Overlay(work)[d] == ByDay(Rows(work.fetched))[d]
    ensures OnlyFetchedChange(previous, work, frame) <==> UnfetchedRowsCurrent(previous, work)
  {
    var top, rows, before := Overlay(work), ByDay(Rows(work.fetched)), ByDay(previous);
    if before + top == before + rows {
      forall d | d in top && d !in rows
        ensures d in before && before[d] == top[d]
      {
        assert d in before + rows;
        assert (before + rows)[d] == (before + top)[d];
      }
    }
    if UnfetchedRowsCurrent(previous, work) {
      MapsAgree(before + top, before, rows);
    }
  }

  /** Every commit of every interleaving changes nothing but what was fetched if and only if no planned,
      unfetched row of its candidate differs from the predecessor's. A commit that was not rebased always
      meets the condition; a rebase can put a stale row back. */
  lemma {:induction false} StaleRowCondition(steps: seq<Step>, worlds: seq<World>, n: nat, k: nat)
    requires Interleaving(steps, worlds) && n <= |steps| && k < |worlds[n].log|
    ensures var log := worlds[n].log;
            var previous, e := FrameOf(Prior(log, k)), log[k];
            && (OnlyFetchedChange(previous, e.work, e.frame) <==> UnfetchedRowsCurrent(previous, e.work))
            && (e.work.base == IdOf(Prior(log, k)) ==> OnlyFetchedChange(previous, e.work, e.frame))
  {
    RunKeeps(steps, worlds, n);
    var log := worlds[n].log;
    var prior, e := Prior(log, k), log[k];
    assert EntryValid(log, k);
    CommitOverlays(log, k);
    forall d: Day
      ensures d in ByDay(Rows(e.work.fetched)) ==> d in Overlay(e.work) && Overlay(e.work)[d] == ByDay(Rows(e.work.fetched))[d]
    {
      FetchedRowsOverlay(FrameOf(GenerationOf(log, k, e.work.base)), e.work, d);
    }
    OverlayChanges(FrameOf(prior), e.work, e.frame);
    if e.work.base == IdOf(prior) {
      PreparedOnPrior(log, k);
      MergeOverrides(FrameOf(prior), Rows(e.work.fetched));
    }
  }
}
