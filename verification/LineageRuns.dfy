/** The lineage of every commit of every interleaving: an ordered partition of its rows into maximal runs, and
    the exact conditions under which per-row provenance is the old one overridden by the new one. */
module LineageRuns {
  import opened Market
  import opened Sessions
  import opened Frames
  import opened Lineage
  import opened Store
  import opened Candidates
  import opened Writers
  import opened Interleavings

  /** The commit was prepared on another generation than the one it replaced. */
  ghost predicate Rebased(log: seq<Entry>, k: nat)
    requires k < |log|
  {
    log[k].work.base != IdOf(Prior(log, k))
  }

  /** The provenance of each row of a commit, in terms of what the writer fetched and of the lineage it
      replaced. */
  ghost function ProvenanceOf(log: seq<Entry>, k: nat): Option<seq<Provenance>>
    requires k < |log|
  {
    var e, prior := log[k], Prior(log, k);
    if Rebased(log, k) then RebasedProvenances(e.frame, LineageOf(prior), e.work.manifest.lineage, e.work.Ranges())
    else Some(RebuiltProvenances(e.frame, LineageOf(prior), DefaultTime(prior, e.manifest.completedAt), e.work.fetched))
  }

  /** Two neighbouring rows share a segment exactly when they share their provenance. */
  ghost predicate Maximal(lineage: seq<Segment>, provenance: seq<Provenance>) {
    forall i :: 0 < i < |provenance| ==>
      (SegmentIndex(lineage, i - 1) == SegmentIndex(lineage, i) <==> provenance[i - 1] == provenance[i])
  }

  lemma {:induction false} CommitGroups(log: seq<Entry>, k: nat)
    requires LogValid(log) && k < |log|
    ensures ProvenanceOf(log, k).Some? && |ProvenanceOf(log, k).value| == |log[k].frame|
    ensures log[k].manifest.lineage == Group(log[k].frame, ProvenanceOf(log, k).value)
    ensures Sorted(log[k].frame) && Partitions(log[k].manifest.lineage, log[k].frame)
  {
    assert EntryValid(log, k);
    if !Rebased(log, k) {
      PreparedOnPrior(log, k);
    }
    GroupPartitions(log[k].frame, ProvenanceOf(log, k).value);
  }

  /** In every interleaving the lineage of every commit is an ordered disjoint partition of its rows into
      maximal runs of equal provenance, and CURRENT carries the lineage of the last one. */
  lemma {:induction false} LineageIsMaximal(steps: seq<Step>, worlds: seq<World>, n: nat, k: nat)
    requires Interleaving(steps, worlds) && n <= |steps| && k < |worlds[n].log|
    ensures var log := worlds[n].log;
            var lineage := log[k].manifest.lineage;
            && Sorted(log[k].frame) && Partitions(lineage, log[k].frame)
            && ProvenanceOf(log, k).Some? && |ProvenanceOf(log, k).value| == |log[k].frame|
            && Maximal(lineage, ProvenanceOf(log, k).value)
    ensures var read, last := Read(worlds[n].files), worlds[n].log[|worlds[n].log| - 1];
            read.Hit? && read.frame == last.frame && read.manifest.lineage == last.manifest.lineage
            && read.manifest.completedAt == last.manifest.completedAt
  {
    RunKeeps(steps, worlds, n);
    var log := worlds[n].log;
    CommitGroups(log, k);
    forall i | 0 < i < |log[k].frame|
      ensures var p, l := ProvenanceOf(log, k).value, log[k].manifest.lineage;
              SegmentIndex(l, i - 1) == SegmentIndex(l, i) <==> p[i - 1] == p[i]
    {
      GroupIsMaximal(log[k].frame, ProvenanceOf(log, k).value, i);
    }
  }

  // ----- commits that were not rebased

  /** Every row that was not fetched keeps the provenance it had. */
  ghost predicate KeepsProvenance(log: seq<Entry>, k: nat)
    requires k < |log|
  {
    forall d :: d in ByDay(log[k].frame) && d !in ByDay(Rows(log[k].work.fetched)) ==>
      Says(log[k].manifest.lineage, d) == Says(LineageOf(Prior(log, k)), d)
  }

  /** The lineage that was replaced names the provider of every row that was not fetched. */
  ghost predicate KeptRowsNamed(log: seq<Entry>, k: nat)
    requires k < |log|
  {
    forall d :: d in ByDay(log[k].frame) && d !in ByDay(Rows(log[k].work.fetched)) ==>
      NamesProvider(LineageOf(Prior(log, k)), FrameOf(Prior(log, k)), d)
  }

  /** Every fetched day carries the attribution of its fetch. */
  ghost predicate FetchedAttributed(e: Entry) {
    forall d :: d in ByDay(Rows(e.work.fetched)) ==>
      Supplier(e.work.fetched, d).Some? && Says(e.manifest.lineage, d) == Some(Supplier(e.work.fetched, d).value.By())
  }

  /** The provenance law of a commit that was not rebased: on every fetched day it is that of the fetch, and the
      other rows keep theirs if and only if the lineage that was replaced names their providers. */
  lemma {:induction false} ProvenanceOfCommit(steps: seq<Step>, worlds: seq<World>, n: nat, k: nat)
    requires Interleaving(steps, worlds) && n <= |steps| && k < |worlds[n].log| && !Rebased(worlds[n].log, k)
    ensures var log := worlds[n].log;
            FetchedAttributed(log[k]) && (KeepsProvenance(log, k) <==> KeptRowsNamed(log, k))
  {
    RunKeeps(steps, worlds, n);
    CommitProvenance(worlds[n].log, k);
  }

  lemma {:induction false} CommitProvenance(log: seq<Entry>, k: nat)
    requires LogValid(log) && k < |log| && !Rebased(log, k)
    ensures FetchedAttributed(log[k])
    ensures KeepsProvenance(log, k) <==> KeptRowsNamed(log, k)
  {
    var e, prior := log[k], Prior(log, k);
    PreparedOnPrior(log, k);
    MergeOverrides(FrameOf(prior), Rows(e.work.fetched));
    forall d | d in ByDay(Rows(e.work.fetched))
      ensures Supplier(e.work.fetched, d).Some? && Says(e.manifest.lineage, d) == Some(Supplier(e.work.fetched, d).value.By())
    {
      FetchedProvenance(prior, e.work, d);
    }
    forall d | d in ByDay(e.frame) && d !in ByDay(Rows(e.work.fetched))
      ensures Says(e.manifest.lineage, d) == Says(LineageOf(prior), d) <==> NamesProvider(LineageOf(prior), FrameOf(prior), d)
    {
      KeptFromPrior(log, k, d);
      KeptProvenance(prior.value, e.work.fetched, e.manifest.acquisition, e.manifest.completedAt, d);
    }
  }

  lemma {:induction false} KeptFromPrior(log: seq<Entry>, k: nat, d: Day)
    requires LogValid(log) && k < |log| && !Rebased(log, k) && d in ByDay(log[k].frame) && d !in ByDay(Rows(log[k].work.fetched))
    ensures Prior(log, k).Some? && d in ByDay(FrameOf(Prior(log, k)))
    ensures Sorted(FrameOf(Prior(log, k))) && Partitions(LineageOf(Prior(log, k)), FrameOf(Prior(log, k)))
  {
    PreparedOnPrior(log, k);
    MergeOverrides(FrameOf(Prior(log, k)), Rows(log[k].work.fetched));
    if k > 0 {
      CommitGroups(log, k - 1);
    }
  }

  lemma {:induction false} FetchedProvenance(base: Option<Generation>, work: Work, d: Day)
    requires work == PreparedOn(base, work.fetched, work.manifest.acquisition, work.manifest.completedAt)
    requires d in ByDay(Rows(work.fetched))
    ensures Supplier(work.fetched, d).Some? && Says(work.manifest.lineage, d) == Some(Supplier(work.fetched, d).value.By())
  {
    MergeOverrides(FrameOf(base), Rows(work.fetched));
    DaysOf(work.candidate, d);
    var i :| 0 <= i < |work.candidate| && work.candidate[i].day == d;
    PreparedSays(base, work.fetched, work.manifest.acquisition, work.manifest.completedAt, i);
    SupplierIsInRows(work.fetched, d);
  }

  /** A commit that was not rebased names the provider of every row, whatever the lineage it replaced said; so the
      condition holds whenever the commit before was not rebased either, and at the first commit. */
  lemma {:induction false} UnrebasedNamesProviders(steps: seq<Step>, worlds: seq<World>, n: nat, k: nat)
    requires Interleaving(steps, worlds) && n <= |steps| && k < |worlds[n].log| && !Rebased(worlds[n].log, k)
    ensures var e := worlds[n].log[k];
            Faithful(e.manifest.lineage) && forall d :: d in ByDay(e.frame) ==> NamesProvider(e.manifest.lineage, e.frame, d)
    ensures k == 0 || !Rebased(worlds[n].log, k - 1) ==> KeepsProvenance(worlds[n].log, k)
  {
    RunKeeps(steps, worlds, n);
    NamesItsProviders(worlds[n].log, k);
    if k == 0 || !Rebased(worlds[n].log, k - 1) {
      KeepsAfterUnrebased(worlds[n].log, k);
    }
  }

  lemma {:induction false} KeepsAfterUnrebased(log: seq<Entry>, k: nat)
    requires LogValid(log) && k < |log| && !Rebased(log, k) && (k == 0 || !Rebased(log, k - 1))
    ensures KeepsProvenance(log, k)
  {
    CommitProvenance(log, k);
    PreparedOnPrior(log, k);
    MergeOverrides(FrameOf(Prior(log, k)), Rows(log[k].work.fetched));
    if k > 0 {
      NamesItsProviders(log, k - 1);
    }
  }

  lemma {:induction false} NamesItsProviders(log: seq<Entry>, k: nat)
    requires LogValid(log) && k < |log| && !Rebased(log, k)
    ensures Faithful(log[k].manifest.lineage)
    ensures forall d :: d in ByDay(log[k].frame) ==> NamesProvider(log[k].manifest.lineage, log[k].frame, d)
  {
    var e := log[k];
    assert EntryValid(log, k);
    PreparedOnPrior(log, k);
    PreparedIsSound(Prior(log, k), e.work.fetched, e.manifest.acquisition, e.manifest.completedAt);
    forall d | d in ByDay(e.frame)
      ensures NamesProvider(e.manifest.lineage, e.frame, d)
    {
      FaithfulNames(e.manifest.lineage, e.frame, d);
    }
  }

  // ----- rebased commits

  /** Every row the writer supplied carries the writer's attribution and every other row the one it had. */
  ghost predicate TruthfulCommit(log: seq<Entry>, k: nat)
    requires k < |log|
  {
    forall d :: d in ByDay(log[k].frame) ==>
      Says(log[k].manifest.lineage, d)
      == if Supplies(log[k], d) then Says(log[k].work.manifest.lineage, d) else Says(LineageOf(Prior(log, k)), d)
  }

  /** The provenance law of a rebased commit: it is truthful if and only if the writer's lineage and the one it
      was rebased onto agree on the days of the writer's ranges that only the newer generation has. */
  lemma {:induction false} ProvenanceOfRebase(steps: seq<Step>, worlds: seq<World>, n: nat, k: nat)
    requires Interleaving(steps, worlds) && n <= |steps| && k < |worlds[n].log| && Rebased(worlds[n].log, k)
    ensures var log := worlds[n].log;
            var e, prior := log[k], Prior(log, k);
            && (TruthfulCommit(log, k)
                <==> AgreeOnForeignDays(FrameOf(prior), LineageOf(prior), e.work.candidate, e.work.manifest.lineage, e.work.Ranges()))
            && FetchedAttributed(e)
  {
    RunKeeps(steps, worlds, n);
    var log := worlds[n].log;
    RebaseTruth(log, k);
    forall d | d in ByDay(Rows(log[k].work.fetched))
      ensures Supplier(log[k].work.fetched, d).Some? && Says(log[k].manifest.lineage, d) == Some(Supplier(log[k].work.fetched, d).value.By())
    {
      RebaseAttributesFetched(log, k, d);
    }
  }

  lemma {:induction false} RebaseTruth(log: seq<Entry>, k: nat)
    requires LogValid(log) && k < |log| && Rebased(log, k)
    ensures var e, prior := log[k], Prior(log, k);
            TruthfulCommit(log, k)
            <==> AgreeOnForeignDays(FrameOf(prior), LineageOf(prior), e.work.candidate, e.work.manifest.lineage, e.work.Ranges())
  {
    var e, prior := log[k], Prior(log, k);
    RebaseInputs(log, k);
    RebaseTruthCondition(FrameOf(prior), LineageOf(prior), e.work.candidate, e.work.manifest.lineage, e.work.Ranges());
    TruthOfEntry(log, k);
  }

  /** Both lineages of a rebase partition their frames. */
  lemma {:induction false} RebaseInputs(log: seq<Entry>, k: nat)
    requires LogValid(log) && k < |log| && Rebased(log, k)
    ensures var e, prior := log[k], Prior(log, k);
            && Sorted(FrameOf(prior)) && Partitions(LineageOf(prior), FrameOf(prior))
            && Sorted(e.work.candidate) && Partitions(e.work.manifest.lineage, e.work.candidate) && Faithful(e.work.manifest.lineage)
            && e.frame == Merge(FrameOf(prior), RowsInRanges(e.work.candidate, e.work.Ranges()))
  {
    var e := log[k];
    assert EntryValid(log, k);
    CommitGroups(log, k - 1);
    PreparedIsSound(GenerationOf(log, k, e.work.base), e.work.fetched, e.manifest.acquisition, e.manifest.completedAt);
  }

  lemma {:induction false} RebaseAttributesFetched(log: seq<Entry>, k: nat, d: Day)
    requires LogValid(log) && k < |log| && Rebased(log, k) && d in ByDay(Rows(log[k].work.fetched))
    ensures Supplier(log[k].work.fetched, d).Some?
    ensures Says(log[k].manifest.lineage, d) == Some(Supplier(log[k].work.fetched, d).value.By())
  {
    var e := log[k];
    var base := GenerationOf(log, k, e.work.base);
    assert EntryValid(log, k);
    FetchedProvenance(base, e.work, d);
    FetchedRowsOverlay(FrameOf(base), e.work, d);
    RowsAreFetched(e.work.fetched, e.work.Ranges(), d);
    CommitOverlays(log, k);
    OverlaidAt(FrameOf(Prior(log, k)), e.work, e.frame, d);
    RebasedDaySays(log, k, d);
  }

  /** A rebased lineage takes each day of the writer's ranges from the writer's lineage and every other day from
      the one it replaced. */
  lemma {:induction false} RebasedDaySays(log: seq<Entry>, k: nat, d: Day)
    requires LogValid(log) && k < |log| && Rebased(log, k) && d in ByDay(log[k].frame)
    ensures Says(log[k].manifest.lineage, d)
            == Says(if Within(log[k].work.Ranges(), d) then log[k].work.manifest.lineage else LineageOf(Prior(log, k)), d)
  {
    var e, prior := log[k], Prior(log, k);
    assert EntryValid(log, k);
    DaysOf(e.frame, d);
    var i :| 0 <= i < |e.frame| && e.frame[i].day == d;
    RebasedSays(e.frame, LineageOf(prior), e.work.manifest.lineage, e.work.Ranges(), i);
  }

  lemma {:induction false} TruthOfEntry(log: seq<Entry>, k: nat)
    requires LogValid(log) && k < |log| && Rebased(log, k)
    ensures TruthfulCommit(log, k)
            <==> TellsTheTruth(log[k].frame, LineageOf(Prior(log, k)), log[k].work.candidate, log[k].work.manifest.lineage, log[k].work.Ranges())
  {
    var e, prior := log[k], Prior(log, k);
    assert EntryValid(log, k);
    forall d: Day
      ensures Supplies(e, d) <==> Within(e.work.Ranges(), d) && Published(e.work.candidate, d)
    {
      KeepRestricts(e.work.candidate, x => Within(e.work.Ranges(), x), d);
    }
    forall i | 0 <= i < |e.frame|
      ensures e.frame[i].day in ByDay(e.frame)
    {
      SortedLookup(e.frame, i);
    }
    forall d | d in ByDay(e.frame)
      ensures exists i :: 0 <= i < |e.frame| && e.frame[i].day == d
    {
      DaysOf(e.frame, d);
    }
  }

  /** Which rebased lineages name the provider of every row: those where every row the writer did not supply is
      attributed, by whichever lineage the rebase consults, to its own provider. */
  lemma {:induction false} RebaseNamesProviders(steps: seq<Step>, worlds: seq<World>, n: nat, k: nat)
    requires Interleaving(steps, worlds) && n <= |steps| && k < |worlds[n].log| && Rebased(worlds[n].log, k)
    ensures var log := worlds[n].log;
            var e, prior := log[k], Prior(log, k);
            (forall d :: d in ByDay(e.frame) ==> NamesProvider(e.manifest.lineage, e.frame, d))
            <==> (forall d :: d in ByDay(FrameOf(prior)) && !Supplies(e, d) ==>
                    NamesProvider(if Within(e.work.Ranges(), d) then e.work.manifest.lineage else LineageOf(prior), FrameOf(prior), d))
  {
    RunKeeps(steps, worlds, n);
    var log := worlds[n].log;
    var e, prior := log[k], Prior(log, k);
    CommitOverlays(log, k);
    RebaseInputs(log, k);
    forall d | d in ByDay(e.frame)
      ensures !Supplies(e, d) ==>
                d in ByDay(FrameOf(prior))
                && (NamesProvider(e.manifest.lineage, e.frame, d)
                    <==> NamesProvider(if Within(e.work.Ranges(), d) then e.work.manifest.lineage else LineageOf(prior), FrameOf(prior), d))
      ensures Supplies(e, d) ==> NamesProvider(e.manifest.lineage, e.frame, d)
    {
      OverlaidAt(FrameOf(prior), e.work, e.frame, d);
      RebasedDaySays(log, k, d);
      if Supplies(e, d) {
        KeepRestricts(e.work.candidate, x => Within(e.work.Ranges(), x), d);
        FaithfulNames(e.work.manifest.lineage, e.work.candidate, d);
      }
    }
    forall d | d in ByDay(FrameOf(prior)) && !Supplies(e, d)
      ensures d in ByDay(e.frame)
    {
      OverlaidAt(FrameOf(prior), e.work, e.frame, d);
    }
  }
}
