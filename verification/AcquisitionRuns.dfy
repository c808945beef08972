/** On which reachable states acquiring is idempotent. */
module AcquisitionRuns {
  import opened Market
  import opened Sessions
  import opened Frames
  import opened Lineage
  import opened Store
  import opened Candidates
  import opened Writers
  import opened Interleavings
  import opened LineageRuns
  import opened Acquisition

  /** Every fetch was received by the time its acquisition completed. */
  ghost predicate ReceivedInTime(fetched: seq<Accepted>, completedAt: int) {
    forall k :: 0 <= k < |fetched| ==> fetched[k].acquiredAt <= completedAt
  }

  /** Commits happen in the order in which the acquisitions completed. */
  ghost predicate Punctual(log: seq<Entry>) {
    && (forall k :: 0 <= k < |log| ==> ReceivedInTime(log[k].work.fetched, log[k].manifest.completedAt))
    && (forall i, j :: 0 <= i < j < |log| ==> log[i].manifest.completedAt <= log[j].manifest.completedAt)
  }

  lemma {:induction false} GroupIsDated(rows: Frame, provenance: seq<Provenance>, time: int)
    requires |rows| == |provenance| && forall i :: 0 <= i < |rows| ==> provenance[i].via.acquiredAt <= time
    ensures DatedBy(Group(rows, provenance), time)
    decreases |rows|
  {
    if rows != [] {
      var n := Leading(provenance);
      var all, rest := Group(rows, provenance), Group(rows[n..], provenance[n..]);
      GroupIsDated(rows[n..], provenance[n..], time);
      forall k | 0 <= k < |all|
        ensures all[k].acquiredAt <= time
      {
        if k > 0 {
          assert all[k] == rest[k - 1];
        }
      }
    }
  }

  lemma {:induction false} FindIsDated(lineage: seq<Segment>, d: Day, provider: Provider, time: int)
    requires DatedBy(lineage, time)
    ensures Find(lineage, d).Some? ==> Find(lineage, d).value.acquiredAt <= time
    ensures FindBy(lineage, d, provider).Some? ==> FindBy(lineage, d, provider).value.acquiredAt <= time
  {
    if lineage != [] {
      FindIsDated(lineage[1..], d, provider, time);
    }
  }

  lemma {:induction false} PreparedIsDated(base: Option<Generation>, fetched: seq<Accepted>, acquisition: string, now: int)
    requires base.Some? ==> DatedBy(base.value.manifest.lineage, now) && base.value.manifest.completedAt <= now
    requires ReceivedInTime(fetched, now)
    ensures DatedBy(PreparedOn(base, fetched, acquisition, now).manifest.lineage, now)
  {
    var rows := PreparedOn(base, fetched, acquisition, now).candidate;
    var provenance := RebuiltProvenances(rows, LineageOf(base), DefaultTime(base, now), fetched);
    forall i | 0 <= i < |rows|
      ensures provenance[i].via.acquiredAt <= now
    {
      SupplierIsInRows(fetched, rows[i].day);
      FindIsDated(LineageOf(base), rows[i].day, rows[i].source, now);
    }
    GroupIsDated(rows, provenance, now);
  }

  lemma {:induction false} RebaseIsDated(rows: Frame, existing: seq<Segment>, incoming: seq<Segment>, ranges: seq<Range>, time: int)
    requires DatedBy(existing, time) && DatedBy(incoming, time) && Rebase(rows, existing, incoming, ranges).Some?
    ensures DatedBy(Rebase(rows, existing, incoming, ranges).value, time)
  {
    var provenance := RebasedProvenances(rows, existing, incoming, ranges).value;
    forall i | 0 <= i < |rows|
      ensures provenance[i].via.acquiredAt <= time
    {
      RebasedRow(rows, existing, incoming, ranges, i);
      FindIsDated(existing, rows[i].day, YFinance, time);
      FindIsDated(incoming, rows[i].day, YFinance, time);
    }
    GroupIsDated(rows, provenance, time);
  }

  /** The base of a commit is one of the commits before it. */
  lemma {:induction false} BaseIsEarlier(log: seq<Entry>, n: nat, id: Option<string>)
    requires n <= |log|
    ensures GenerationOf(log, n, id).Some? ==> exists j :: 0 <= j < n && GenerationOf(log, n, id).value == log[j].Made()
  {
    if n > 0 && Some(log[n - 1].id) != id {
      BaseIsEarlier(log, n - 1, id);
    } else if n > 0 {
      assert log[n - 1].Made() == log[n - 1].Made();
    }
  }

  ghost predicate EntryDated(e: Entry) {
    DatedBy(e.manifest.lineage, e.manifest.completedAt)
  }

  /** What a writer prepared on an earlier commit is dated if that commit is. */
  lemma {:induction false} WorkIsDated(log: seq<Entry>, k: nat)
    requires LogValid(log) && Punctual(log) && k < |log| && forall j :: 0 <= j < k ==> EntryDated(log[j])
    ensures DatedBy(log[k].work.manifest.lineage, log[k].manifest.completedAt)
    ensures log[k].work.manifest.completedAt == log[k].manifest.completedAt
  {
    var e := log[k];
    var base := GenerationOf(log, k, e.work.base);
    assert EntryValid(log, k);
    BaseIsEarlier(log, k, e.work.base);
    if base.Some? {
      var j :| 0 <= j < k && base.value == log[j].Made();
      assert EntryDated(log[j]);
    }
    PreparedIsDated(base, e.work.fetched, e.work.manifest.acquisition, e.work.manifest.completedAt);
  }

  lemma {:induction false} CommitIsDated(log: seq<Entry>, k: nat)
    requires LogValid(log) && Punctual(log) && k < |log| && forall j :: 0 <= j < k ==> EntryDated(log[j])
    ensures EntryDated(log[k])
  {
    var e, prior := log[k], Prior(log, k);
    WorkIsDated(log, k);
    assert EntryValid(log, k);
    if Rebased(log, k) {
      assert EntryDated(log[k - 1]);
      RebaseIsDated(e.frame, LineageOf(prior), e.work.manifest.lineage, e.work.Ranges(), e.manifest.completedAt);
    }
  }

  lemma {:induction false} PunctualIsDated(log: seq<Entry>, k: nat)
    requires LogValid(log) && Punctual(log) && k <= |log|
    ensures forall j :: 0 <= j < k ==> EntryDated(log[j])
  {
    if k > 0 {
      PunctualIsDated(log, k - 1);
      CommitIsDated(log, k - 1);
    }
  }

  /** In every state of every interleaving whose commits happened in the order in which the acquisitions completed, or
      whose last commit was not rebased, acquiring is idempotent if and only if the archive takes the second report. */
  lemma {:induction false} IdempotentOnRuns(steps: seq<Step>, worlds: seq<World>, n: nat, r: Request, freshness: Freshness, policy: Policy, now: int,
                                            fetch: Range -> Option<Accepted>, fetchAgain: Range -> Option<Accepted>,
                                            a: string, b: string, id: string, id2: string,
                                            archiveWritable: bool, pinWritable: bool, archiveAgain: bool, pinAgain: bool)
    requires Interleaving(steps, worlds) && n <= |steps|
    requires var log := worlds[n].log; log == [] || Punctual(log) || !Rebased(log, |log| - 1)
    requires r.sessions != [] && Ascending(r.sessions) && r.useCache && AnswersInFull(r, now, fetch)
    requires Acquire(worlds[n].files, r, freshness, policy, now, fetch, a, id, archiveWritable, pinWritable).Some?
    ensures var first := Acquire(worlds[n].files, r, freshness, policy, now, fetch, a, id, archiveWritable, pinWritable).value;
            IsFullHit(Acquire(first.files, r.(refresh := false), freshness, policy, now, fetchAgain, b, id2, archiveAgain, pinAgain), first, b, now)
            <==> TakesReport(first.files, b, now, archiveAgain)
  {
    CacheIsGood(steps, worlds, n);
    AcquireTwice(worlds[n].files, r, freshness, policy, now, fetch, fetchAgain, a, b, id, id2, archiveWritable, pinWritable, archiveAgain, pinAgain);
  }

  lemma {:induction false} CacheIsGood(steps: seq<Step>, worlds: seq<World>, n: nat)
    requires Interleaving(steps, worlds) && n <= |steps|
    requires var log := worlds[n].log; log == [] || Punctual(log) || !Rebased(log, |log| - 1)
    ensures var read := Read(worlds[n].files);
            read.Hit? ==> Dated(read.manifest) || forall d :: d in ByDay(read.frame) ==> NamesProvider(read.manifest.lineage, read.frame, d)
  {
    RunKeeps(steps, worlds, n);
    var log := worlds[n].log;
    if log != [] {
      var last := |log| - 1;
      if Punctual(log) {
        PunctualIsDated(log, |log|);
        assert EntryDated(log[last]);
      } else {
        NamesItsProviders(log, last);
      }
    }
  }
}
