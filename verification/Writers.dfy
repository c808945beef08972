/** Concurrent writers: every interleaving of cache reads, compare-and-rebase attempts, commits, failed
    publications, cleanups and maintenance runs. An attempt is two steps, so another writer may commit
    between its read of CURRENT and its swap; the check of CURRENT and the swap are one step. */
module Writers {
  import opened Market
  import opened Frames
  import opened Lineage
  import opened Store
  import opened StoreSafety
  import opened Candidates

  datatype Phase =
    | Preparing(work: Work, expected: Option<string>, attempt: nat)
    | Assembled(work: Work, attempt: nat, latest: Option<string>, frame: Frame, manifest: Manifest)
    | Finished(id: string)
    | Failed

  /** One commit; `manifest` is the one published, `work.manifest` the one prepared. */
  datatype Entry = Entry(id: string, work: Work, frame: Frame, manifest: Manifest) {
    function Made(): Generation {
      Generation(id, frame, Embedded(manifest, id, frame))
    }
  }

  /** `issued` are the generation identifiers ever handed out and `log` the commits, in order. */
  datatype World = World(files: Files, writers: map<nat, Phase>, issued: set<string>, log: seq<Entry>)

  const INITIAL := World(EMPTY_FILES, map[], {}, [])

  const MAX_ATTEMPTS := 3

  datatype Step =
    | Begin(writer: nat, useCache: bool, fetched: seq<Accepted>, acquisition: string, now: int)
    | Observe(writer: nat, revalidated: bool)
    | Commit(writer: nat, id: string, done: nat, archiveWritable: bool, pinWritable: bool)
    | Abandon(writer: nat)
    | House(op: Op)

  /** Identifiers come from a factory that never repeats one. */
  ghost predicate Enabled(w: World, step: Step) {
    match step
    case Begin(i, _, fetched, _, _) => i !in w.writers && forall k :: 0 <= k < |fetched| ==> Fetched(fetched[k])
    case Observe(i, _) => i in w.writers && w.writers[i].Preparing?
    case Commit(i, id, _, _, _) => i in w.writers && w.writers[i].Assembled? && id !in w.issued
    case Abandon(i) => i in w.writers
    case House(op) => !op.Publish?
  }

  function Next(w: World, step: Step): World {
    match step
    case Begin(i, useCache, fetched, acquisition, now) =>
      var work := Prepared(if useCache then Read(w.files) else Miss, fetched, acquisition, now);
      w.(writers := w.writers[i := Preparing(work, work.base, 1)])
    case Observe(i, revalidated) =>
      if i !in w.writers || !w.writers[i].Preparing? then w
      else
        var p := w.writers[i];
        var assembled := Assemble(Read(w.files), p.work, p.expected, revalidated);
        w.(writers := w.writers[i := if assembled.None? then Failed
                                     else Assembled(p.work, p.attempt, Read(w.files).Id(), assembled.value.0, assembled.value.1)])
    case Commit(i, id, done, archiveWritable, pinWritable) =>
      if i !in w.writers || !w.writers[i].Assembled? then w
      else
        var p := w.writers[i];
        if CurrentId(w.files) != p.latest then
          w.(writers := w.writers[i := if p.attempt < MAX_ATTEMPTS then Preparing(p.work, p.latest, p.attempt + 1) else Failed])
        else
          var op := Publish(id, p.frame, p.work.Ranges(), p.manifest, done, archiveWritable, pinWritable);
          w.(files := Apply(w.files, op),
             issued := w.issued + {id},
             writers := w.writers[i := if Committed(op) then Finished(id) else Failed],
             log := if Committed(op) then w.log + [Entry(id, p.work, p.frame, p.manifest)] else w.log)
    case Abandon(i) => w.(writers := w.writers[i := Failed])
    case House(op) => if op.Publish? then w else w.(files := Apply(w.files, op))
  }

  // ----- the invariant

  /** The generation that commit k replaced. */
  function Prior(log: seq<Entry>, k: nat): Option<Generation>
    requires k <= |log|
  {
    if k == 0 then None else Some(log[k - 1].Made())
  }

  /** The generation of that identifier among the first n commits. */
  function GenerationOf(log: seq<Entry>, n: nat, id: Option<string>): Option<Generation>
    requires n <= |log|
  {
    if n == 0 then None
    else if Some(log[n - 1].id) == id then Some(log[n - 1].Made())
    else GenerationOf(log, n - 1, id)
  }

  ghost predicate Known(log: seq<Entry>, n: nat, id: Option<string>)
    requires n <= |log|
  {
    IdOf(GenerationOf(log, n, id)) == id
  }

  /** The work was prepared on one of the first n commits, or on nothing, from rows that were fetched. */
  ghost predicate Sourced(log: seq<Entry>, n: nat, work: Work)
    requires n <= |log|
  {
    && (forall k :: 0 <= k < |work.fetched| ==> Fetched(work.fetched[k]))
    && Known(log, n, work.base)
    && work == PreparedOn(GenerationOf(log, n, work.base), work.fetched, work.manifest.acquisition, work.manifest.completedAt)
  }

  /** What a commit onto a generation publishes: the candidate as prepared on that very generation, else the
      candidate rebased onto it. */
  ghost predicate CommitLaw(prior: Option<Generation>, work: Work, frame: Frame, manifest: Manifest) {
    if work.base == IdOf(prior) then frame == work.candidate && manifest == work.manifest
    else
      && prior.Some?
      && frame == Merge(prior.value.frame, RowsInRanges(work.candidate, work.Ranges()))
      && Rebase(frame, prior.value.manifest.lineage, work.manifest.lineage, work.Ranges()) == Some(manifest.lineage)
      && manifest == work.manifest.(lineage := manifest.lineage)
  }

  ghost predicate PhaseValid(w: World, p: Phase) {
    match p
    case Preparing(work, expected, attempt) =>
      && attempt > 0 && Sourced(w.log, |w.log|, work)
      && (expected.Some? ==> expected.value in w.issued)
      && (attempt == 1 ==> expected == work.base)
      && (attempt > 1 ==> expected != CurrentId(w.files) && work.base != CurrentId(w.files))
    case Assembled(work, attempt, latest, frame, manifest) =>
      && attempt > 0 && Sourced(w.log, |w.log|, work)
      && Canonical(frame)
      && Known(w.log, |w.log|, latest)
      && CommitLaw(GenerationOf(w.log, |w.log|, latest), work, frame, manifest)
      && (work.base == latest || work.base != CurrentId(w.files))
    case Finished(_) => true
    case Failed => true
  }

  ghost predicate EntryValid(log: seq<Entry>, k: nat)
    requires k < |log|
  {
    && Sourced(log, k, log[k].work)
    && Canonical(log[k].frame)
    && CommitLaw(Prior(log, k), log[k].work, log[k].frame, log[k].manifest)
  }

  ghost predicate LogValid(log: seq<Entry>) {
    && (forall i, j :: 0 <= i < j < |log| ==> log[i].id != log[j].id)
    && (forall k :: 0 <= k < |log| ==> EntryValid(log, k))
  }

  ghost predicate FilesMatch(files: Files, issued: set<string>, log: seq<Entry>) {
    && Intact(files)
    && (forall g :: g in files.directories ==> g in issued)
    && (forall k :: 0 <= k < |log| ==> log[k].id in issued)
    && !Read(files).Invalidated?
    && BaseOf(Read(files)) == Prior(log, |log|)
  }

  ghost predicate FilesValid(w: World) {
    FilesMatch(w.files, w.issued, w.log)
  }

  ghost predicate WorldValid(w: World) {
    && FilesValid(w)
    && LogValid(w.log)
    && forall i :: i in w.writers ==> PhaseValid(w, w.writers[i])
  }

  // ----- each step keeps the invariant

  lemma {:induction false} CurrentIsPrior(files: Files, issued: set<string>, log: seq<Entry>)
    requires FilesMatch(files, issued, log)
    ensures CurrentId(files) == IdOf(Prior(log, |log|))
    ensures Known(log, |log|, CurrentId(files)) && GenerationOf(log, |log|, CurrentId(files)) == Prior(log, |log|)
  {
    if log == [] {
      assert Read(files).Miss?;
    }
  }

  /** A known generation is one that was issued. */
  lemma {:induction false} KnownIsIssued(log: seq<Entry>, n: nat, id: Option<string>, issued: set<string>)
    requires n <= |log| && Known(log, n, id) && forall k :: 0 <= k < |log| ==> log[k].id in issued
    ensures id.Some? ==> id.value in issued
  {
    if n > 0 && Some(log[n - 1].id) != id {
      KnownIsIssued(log, n - 1, id, issued);
    }
  }

  /** Later commits under other identifiers do not change what an identifier means. */
  lemma {:induction false} MeaningStays(log: seq<Entry>, e: Entry, n: nat, id: Option<string>)
    requires n <= |log|
    ensures GenerationOf(log + [e], n, id) == GenerationOf(log, n, id)
  {
    if n > 0 {
      MeaningStays(log, e, n - 1, id);
    }
  }

  lemma {:induction false} SourcedStays(log: seq<Entry>, e: Entry, work: Work)
    requires Sourced(log, |log|, work) && work.base != Some(e.id)
    ensures Sourced(log + [e], |log| + 1, work)
  {
    MeaningStays(log, e, |log|, work.base);
  }

  lemma {:induction false} BeginKeeps(w: World, step: Step)
    requires WorldValid(w) && step.Begin? && Enabled(w, step)
    ensures WorldValid(Next(w, step))
  {
    var read := if step.useCache then Read(w.files) else Miss;
    var work := Prepared(read, step.fetched, step.acquisition, step.now);
    CurrentIsPrior(w.files, w.issued, w.log);
    NothingIsKnown(w.log, |w.log|);
    KnownIsIssued(w.log, |w.log|, work.base, w.issued);
    assert Sourced(w.log, |w.log|, work);
    ReplacePhase(w, step.writer, Preparing(work, work.base, 1));
  }

  lemma {:induction false} NothingIsKnown(log: seq<Entry>, n: nat)
    requires n <= |log|
    ensures GenerationOf(log, n, None) == None
  {
    if n > 0 {
      NothingIsKnown(log, n - 1);
    }
  }

  /** An attempt assembles what the commit law says of the generation it observed. */
  lemma {:induction false} AssembleObeys(w: World, p: Phase, revalidated: bool)
    requires FilesValid(w) && p.Preparing? && PhaseValid(w, p)
    requires Assemble(Read(w.files), p.work, p.expected, revalidated).Some?
    ensures var (frame, manifest) := Assemble(Read(w.files), p.work, p.expected, revalidated).value;
            PhaseValid(w, Assembled(p.work, p.attempt, Read(w.files).Id(), frame, manifest))
  {
    CurrentIsPrior(w.files, w.issued, w.log);
    assert Read(w.files).Id() == CurrentId(w.files);
  }

  lemma {:induction false} ObserveKeeps(w: World, step: Step)
    requires WorldValid(w) && step.Observe? && Enabled(w, step)
    ensures WorldValid(Next(w, step))
  {
    var p := w.writers[step.writer];
    if Assemble(Read(w.files), p.work, p.expected, step.revalidated).Some? {
      AssembleObeys(w, p, step.revalidated);
    }
    ReplacePhase(w, step.writer, Next(w, step).writers[step.writer]);
  }

  /** Another writer's phase stays valid when a commit under a new identifier happens. */
  lemma {:induction false} PhaseSurvivesCommit(w: World, after: World, p: Phase, e: Entry)
    requires PhaseValid(w, p)
    requires forall k :: 0 <= k < |w.log| ==> w.log[k].id in w.issued
    requires after.log == w.log + [e] && after.issued == w.issued + {e.id} && CurrentId(after.files) == Some(e.id) && e.id !in w.issued
    ensures PhaseValid(after, p)
  {
    match p
    case Preparing(work, expected, attempt) =>
      KnownIsIssued(w.log, |w.log|, work.base, w.issued);
      SourcedStays(w.log, e, work);
    case Assembled(work, attempt, latest, frame, manifest) =>
      KnownIsIssued(w.log, |w.log|, work.base, w.issued);
      KnownIsIssued(w.log, |w.log|, latest, w.issued);
      SourcedStays(w.log, e, work);
      MeaningStays(w.log, e, |w.log|, latest);
    case Finished(_) =>
    case Failed =>
  }

  /** A phase depends on the log, the identifiers and CURRENT only. */
  lemma {:induction false} PhaseDependsOn(w: World, after: World, p: Phase)
    requires PhaseValid(w, p)
    requires after.log == w.log && w.issued <= after.issued && CurrentId(after.files) == CurrentId(w.files)
    ensures PhaseValid(after, p)
  {
    match p
    case Preparing(_, _, _) =>
    case Assembled(_, _, _, _, _) =>
    case Finished(_) =>
    case Failed =>
  }

  lemma {:induction false} RetryPhase(w: World, p: Phase)
    requires p.Assembled? && PhaseValid(w, p) && CurrentId(w.files) != p.latest
    requires forall k :: 0 <= k < |w.log| ==> w.log[k].id in w.issued
    ensures PhaseValid(w, Preparing(p.work, p.latest, p.attempt + 1))
  {
    KnownIsIssued(w.log, |w.log|, p.latest, w.issued);
  }

  lemma {:induction false} ReplacePhase(w: World, writer: nat, p: Phase)
    requires WorldValid(w) && PhaseValid(w, p)
    ensures WorldValid(w.(writers := w.writers[writer := p]))
  {
    var after := w.(writers := w.writers[writer := p]);
    forall i | i in after.writers
      ensures PhaseValid(after, after.writers[i])
    {
      PhaseDependsOn(w, after, if i == writer then p else w.writers[i]);
    }
  }

  lemma {:induction false} ConflictKeeps(w: World, step: Step)
    requires WorldValid(w) && step.Commit? && Enabled(w, step)
    requires CurrentId(w.files) != w.writers[step.writer].latest
    ensures WorldValid(Next(w, step))
  {
    var p := w.writers[step.writer];
    assert PhaseValid(w, p);
    RetryPhase(w, p);
    ReplacePhase(w, step.writer, if p.attempt < MAX_ATTEMPTS then Preparing(p.work, p.latest, p.attempt + 1) else Failed);
  }

  lemma {:induction false} PublishKeepsFiles(files: Files, issued: set<string>, log: seq<Entry>, op: Op, e: Entry)
    requires FilesMatch(files, issued, log) && op.Publish? && op.id !in issued && Canonical(op.frame)
    requires e.id == op.id && e.frame == op.frame && e.manifest == op.manifest
    ensures FilesMatch(Apply(files, op), issued + {op.id}, if Committed(op) then log + [e] else log)
    ensures CurrentId(Apply(files, op)) == if Committed(op) then Some(op.id) else CurrentId(files)
  {
    OperationIsAtomic(files, op);
    PointerMoves(files, op);
    forall g | g in Apply(files, op).directories
      ensures g in issued + {op.id}
    {
      NewDirectories(files, op, g);
    }
  }

  lemma {:induction false} NewDirectories(s: Files, op: Op, g: string)
    requires g in Apply(s, op).directories
    ensures g in s.directories || (op.Publish? && g == op.id)
  {
    match op
    case Publish(id, frame, planned, m, done, a, p) =>
      ReportLeavesGenerations(PublishTo(s, id, frame, planned, m, done), id, Embedded(m, id, frame), a, p);
    case Note(_, _) =>
    case Clean(_) =>
    case Tend(refused, held) => TendingLeavesGenerations(s, s.pins, refused, held);
  }

  lemma {:induction false} LogValidGrows(log: seq<Entry>, e: Entry)
    requires LogValid(log) && forall k :: 0 <= k < |log| ==> log[k].id != e.id
    requires Sourced(log, |log|, e.work) && Canonical(e.frame) && CommitLaw(Prior(log, |log|), e.work, e.frame, e.manifest)
    ensures LogValid(log + [e])
  {
    var grown := log + [e];
    forall k | 0 <= k < |grown|
      ensures EntryValid(grown, k)
    {
      MeaningStays(log, e, k, grown[k].work.base);
      if k < |log| {
        assert EntryValid(log, k);
        assert Prior(grown, k) == Prior(log, k);
      }
    }
  }

  /** A publication cut short: one more unused directory, nothing else. */
  lemma {:induction false} FailedPublicationKeeps(w: World, writer: nat, op: Op, e: Entry)
    requires WorldValid(w) && op.Publish? && !Committed(op) && op.id !in w.issued && Canonical(op.frame)
    requires e.id == op.id && e.frame == op.frame && e.manifest == op.manifest
    ensures WorldValid(w.(files := Apply(w.files, op), issued := w.issued + {op.id}, writers := w.writers[writer := Failed]))
  {
    var after := w.(files := Apply(w.files, op), issued := w.issued + {op.id}, writers := w.writers[writer := Failed]);
    PublishKeepsFiles(w.files, w.issued, w.log, op, e);
    forall i | i in after.writers
      ensures PhaseValid(after, after.writers[i])
    {
      if i != writer {
        PhaseDependsOn(w, after, w.writers[i]);
      }
    }
  }

  lemma {:induction false} CommitKeeps(w: World, writer: nat, op: Op, e: Entry)
    requires WorldValid(w) && Committed(op) && op.id !in w.issued
    requires e.id == op.id && e.frame == op.frame && e.manifest == op.manifest
    requires Sourced(w.log, |w.log|, e.work) && Canonical(e.frame) && CommitLaw(Prior(w.log, |w.log|), e.work, e.frame, e.manifest)
    ensures WorldValid(w.(files := Apply(w.files, op), issued := w.issued + {op.id},
                          writers := w.writers[writer := Finished(op.id)], log := w.log + [e]))
  {
    var after := w.(files := Apply(w.files, op), issued := w.issued + {op.id},
                    writers := w.writers[writer := Finished(op.id)], log := w.log + [e]);
    PublishKeepsFiles(w.files, w.issued, w.log, op, e);
    LogValidGrows(w.log, e);
    forall i | i in after.writers
      ensures PhaseValid(after, after.writers[i])
    {
      if i != writer {
        PhaseSurvivesCommit(w, after, w.writers[i], e);
      }
    }
  }

  lemma {:induction false} PublicationKeeps(w: World, step: Step)
    requires WorldValid(w) && step.Commit? && Enabled(w, step)
    requires CurrentId(w.files) == w.writers[step.writer].latest
    ensures WorldValid(Next(w, step))
  {
    var p := w.writers[step.writer];
    assert PhaseValid(w, p);
    CurrentIsPrior(w.files, w.issued, w.log);
    var op := Publish(step.id, p.frame, p.work.Ranges(), p.manifest, step.done, step.archiveWritable, step.pinWritable);
    var e := Entry(step.id, p.work, p.frame, p.manifest);
    if Committed(op) {
      CommitKeeps(w, step.writer, op, e);
    } else {
      FailedPublicationKeeps(w, step.writer, op, e);
    }
  }

  lemma {:induction false} HouseKeepsFiles(files: Files, issued: set<string>, log: seq<Entry>, op: Op)
    requires FilesMatch(files, issued, log) && !op.Publish?
    ensures FilesMatch(Apply(files, op), issued, log) && CurrentId(Apply(files, op)) == CurrentId(files)
  {
    OperationIsAtomic(files, op);
    PointerMoves(files, op);
    forall g | g in Apply(files, op).directories
      ensures g in issued
    {
      NewDirectories(files, op, g);
    }
  }

  lemma {:induction false} HouseKeeps(w: World, op: Op)
    requires WorldValid(w) && !op.Publish?
    ensures WorldValid(w.(files := Apply(w.files, op)))
  {
    var after := w.(files := Apply(w.files, op));
    HouseKeepsFiles(w.files, w.issued, w.log, op);
    forall i | i in after.writers
      ensures PhaseValid(after, after.writers[i])
    {
      PhaseDependsOn(w, after, w.writers[i]);
    }
  }

  lemma {:induction false} StepKeeps(w: World, step: Step)
    requires WorldValid(w) && Enabled(w, step)
    ensures WorldValid(Next(w, step))
  {
    match step
    case Begin(_, _, _, _, _) => BeginKeeps(w, step);
    case Observe(_, _) => ObserveKeeps(w, step);
    case Commit(i, _, _, _, _) =>
      if CurrentId(w.files) != w.writers[i].latest {
        ConflictKeeps(w, step);
      } else {
        PublicationKeeps(w, step);
      }
    case Abandon(i) => ReplacePhase(w, i, Failed);
    case House(op) => HouseKeeps(w, op);
  }
}
