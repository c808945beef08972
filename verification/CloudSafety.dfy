/** What holds over every interleaving of the cloud run protocol, with every crash and every retry, and what the
    public results endpoint therefore answers. */
module CloudSafety {
  import opened Market
  import opened CloudStorage
  import opened CloudRuns

  /** Step `i` leads from state `i` to state `i + 1`. */
  ghost predicate Happens(h: Hashing, worlds: seq<World>, steps: seq<Step>, i: nat) {
    i < |steps| && i + 1 < |worlds| && worlds[i + 1] == Next(h, worlds[i], steps[i])
  }

  ghost predicate Trace(h: Hashing, worlds: seq<World>, steps: seq<Step>) {
    && |worlds| == |steps| + 1
    && worlds[0] == INITIAL
    && forall i: nat :: i < |steps| ==> Happens(h, worlds, steps, i)
  }

  lemma {:induction false} HappeningKeeps(h: Hashing, worlds: seq<World>, steps: seq<Step>, i: nat)
    requires Happens(h, worlds, steps, i) && Kept(h, worlds[i])
    ensures Kept(h, worlds[i + 1])
  {
    StepKeeps(h, worlds[i], steps[i]);
  }

  lemma {:induction false} RunKeeps(h: Hashing, worlds: seq<World>, steps: seq<Step>, k: nat)
    requires Trace(h, worlds, steps) && k < |worlds|
    ensures Kept(h, worlds[k])
    decreases k
  {
    if k > 0 {
      RunKeeps(h, worlds, steps, k - 1);
      HappeningKeeps(h, worlds, steps, k - 1);
    }
  }

  // ----- objects

  ghost predicate Extends(a: Objects, b: Objects) {
    forall key :: key in a ==> key in b && b[key] == a[key]
  }

  lemma {:induction false} PutOnlyAdds(h: Hashing, objects: Objects, key: Key, body: Body)
    ensures Put(h, objects, key, body).Some? ==> Extends(objects, Put(h, objects, key, body).value)
  {
  }

  lemma {:induction false} StepOnlyAddsObjects(h: Hashing, s: World, step: Step)
    ensures Extends(s.objects, Next(h, s, step).objects)
  {
    match step
    case PutSpec(p, run, payload, visibility) =>
      PutOnlyAdds(h, s.objects, Key(run, RunSpec), SpecDoc(run, payload));
    case PutOutput(w) =>
      if w in s.workers && s.workers[w].Publishing? && s.workers[w].next < |s.workers[w].outputs| {
        var p := s.workers[w];
        PutOnlyAdds(h, s.objects, Key(p.run, p.outputs[p.next].name), p.outputs[p.next].body);
      }
    case PutChecksums(w) =>
      if w in s.workers && s.workers[w].Publishing? && |s.workers[w].outputs| == 4 {
        var p := s.workers[w];
        PutOnlyAdds(h, s.objects, Key(p.run, Checksums), ManifestDoc(Digests(h, p.spec, p.outputs)));
      }
    case _ => assert Next(h, s, step).objects == s.objects;
  }

  /** An object once written is never changed and never removed. */
  lemma {:induction false} ObjectsNeverChange(h: Hashing, worlds: seq<World>, steps: seq<Step>, i: nat, j: nat)
    requires Trace(h, worlds, steps) && i <= j < |worlds|
    ensures Extends(worlds[i].objects, worlds[j].objects)
    decreases j
  {
    if i < j {
      ObjectsNeverChange(h, worlds, steps, i, j - 1);
      assert Happens(h, worlds, steps, j - 1);
      StepOnlyAddsObjects(h, worlds[j - 1], steps[j - 1]);
    }
  }

  // ----- records

  ghost predicate RecordsProgress(a: Records, b: Records) {
    forall run :: run in a ==>
                    && run in b
                    && b[run].visibility == a[run].visibility
                    && (a[run].Terminal() ==> b[run] == a[run])
                    && (!a[run].status.Pending? ==> !b[run].status.Pending? && b[run].startedAt == a[run].startedAt)
  }

  lemma {:induction false} TransitionsProgress(records: Records, run: RunId, visibility: Visibility, code: FailureCode, now: int)
    ensures CreatePending(records, run, visibility).Some? ==> RecordsProgress(records, CreatePending(records, run, visibility).value)
    ensures MarkRunning(records, run, now).Some? ==> RecordsProgress(records, MarkRunning(records, run, now).value)
    ensures MarkSucceeded(records, run, now).Some? ==> RecordsProgress(records, MarkSucceeded(records, run, now).value)
    ensures MarkFailed(records, run, code, now).Some? ==> RecordsProgress(records, MarkFailed(records, run, code, now).value)
  {
  }

  lemma {:induction false} StepProgressesRecords(h: Hashing, s: World, step: Step)
    ensures RecordsProgress(s.records, Next(h, s, step).records)
  {
    match step
    case PutRecord(p) =>
      if p in s.preparers && s.preparers[p].Specified? {
        TransitionsProgress(s.records, s.preparers[p].run, s.preparers[p].visibility, TimedOut, 0);
      }
    case Take(w, now) =>
      if w in s.workers && s.workers[w].Admitted? {
        TransitionsProgress(s.records, s.workers[w].run, Private, TimedOut, now);
      }
    case MarkSuccess(f, now) =>
      if f in s.finalizers && s.finalizers[f].Verifying? {
        TransitionsProgress(s.records, s.finalizers[f].run, Private, TimedOut, now);
      }
    case MarkFailure(run, code, now) =>
      TransitionsProgress(s.records, run, Private, code, now);
    case _ =>
  }

  lemma {:induction false} RecordsOnlyProgress(h: Hashing, worlds: seq<World>, steps: seq<Step>, i: nat, j: nat)
    requires Trace(h, worlds, steps) && i <= j < |worlds|
    ensures RecordsProgress(worlds[i].records, worlds[j].records)
    decreases j
  {
    if i < j {
      RecordsOnlyProgress(h, worlds, steps, i, j - 1);
      assert Happens(h, worlds, steps, j - 1);
      StepProgressesRecords(h, worlds[j - 1], steps[j - 1]);
    }
  }

  /** A terminal record, its completion time and its failure code with it, is final. */
  lemma {:induction false} TerminalIsFinal(h: Hashing, worlds: seq<World>, steps: seq<Step>, i: nat, j: nat, run: RunId)
    requires Trace(h, worlds, steps) && i <= j < |worlds|
    requires run in worlds[i].records && worlds[i].records[run].Terminal()
    ensures run in worlds[j].records && worlds[j].records[run] == worlds[i].records[run]
    ensures worlds[i].records[run].completedAt.Some?
  {
    RecordsOnlyProgress(h, worlds, steps, i, j);
    RunKeeps(h, worlds, steps, i);
    assert RunKept(h, worlds[i], run);
  }

  /** A failure reported while a run is pending or running is always recorded, with its code and time, and the run
      never leaves it again. */
  lemma {:induction false} ReportedFailureStands(h: Hashing, worlds: seq<World>, steps: seq<Step>, i: nat, j: nat,
                                                  run: RunId, code: FailureCode, now: int)
    requires Trace(h, worlds, steps) && i < j < |worlds| && steps[i] == MarkFailure(run, code, now)
    requires run in worlds[i].records && !worlds[i].records[run].Terminal()
    ensures run in worlds[j].records
    ensures worlds[j].records[run] == Record(Failed, worlds[i].records[run].visibility, worlds[i].records[run].startedAt, Some(now), Some(code))
  {
    assert Happens(h, worlds, steps, i);
    TerminalIsFinal(h, worlds, steps, i + 1, j, run);
  }

  ghost predicate Starts(worlds: seq<World>, i: nat, run: RunId) {
    && i + 1 < |worlds|
    && run in worlds[i].records && worlds[i].records[run].status.Pending?
    && run in worlds[i + 1].records && worlds[i + 1].records[run].status.Running?
  }

  /** PENDING to RUNNING happens at most once per run. */
  lemma {:induction false} StartsAtMostOnce(h: Hashing, worlds: seq<World>, steps: seq<Step>, i: nat, j: nat, run: RunId)
    requires Trace(h, worlds, steps) && Starts(worlds, i, run) && Starts(worlds, j, run)
    ensures i == j
  {
    if i < j {
      RecordsOnlyProgress(h, worlds, steps, i + 1, j);
    } else if j < i {
      RecordsOnlyProgress(h, worlds, steps, j + 1, i);
    }
  }

  // ----- one worker publishes

  lemma {:induction false} GrantsOnlyGrow(h: Hashing, worlds: seq<World>, steps: seq<Step>, i: nat, j: nat, run: RunId, w: nat)
    requires Trace(h, worlds, steps) && i <= j < |worlds| && GrantedTo(worlds[i], run, w)
    ensures GrantedTo(worlds[j], run, w)
    decreases j
  {
    if i < j {
      GrantsOnlyGrow(h, worlds, steps, i, j - 1, run, w);
      assert Happens(h, worlds, steps, j - 1);
      StepKeepsGrant(h, worlds[j - 1], steps[j - 1], run, w);
    }
  }

  lemma {:induction false} StepKeepsGrant(h: Hashing, s: World, step: Step, run: RunId, w: nat)
    requires GrantedTo(s, run, w)
    ensures GrantedTo(Next(h, s, step), run, w)
  {
    var i :| 0 <= i < |s.grants| && s.grants[i] == Grant(run, w);
    assert Next(h, s, step).grants[i] == Grant(run, w);
  }

  /** Step `i` wrote the key. */
  ghost predicate Writes(worlds: seq<World>, i: nat, key: Key) {
    i + 1 < |worlds| && key !in worlds[i].objects && key in worlds[i + 1].objects
  }

  /** Steps that write no output leave every output absent that was. */
  lemma {:induction false} OthersWriteNoOutput(h: Hashing, s: World, step: Step, key: Key)
    requires key.name != RunSpec && key !in s.objects && !step.PutOutput? && !step.PutChecksums?
    ensures key !in Next(h, s, step).objects
  {
    if !step.PutSpec? {
      assert Next(h, s, step).objects == s.objects;
    }
  }

  /** Who wrote an output holds the run. */
  lemma {:induction false} WriterHoldsRun(h: Hashing, s: World, step: Step, key: Key)
    requires Kept(h, s) && key.name != RunSpec && key !in s.objects && key in Next(h, s, step).objects
    ensures (step.PutOutput? || step.PutChecksums?) && GrantedTo(s, key.run, step.w)
    ensures step.w in s.workers && s.workers[step.w].Publishing? && s.workers[step.w].run == key.run
  {
    if step.PutOutput? {
      OutputWriter(h, s, step.w, key);
    } else if step.PutChecksums? {
      ChecksumsWriter(h, s, step.w, key);
    } else {
      OthersWriteNoOutput(h, s, step, key);
    }
  }

  lemma {:induction false} OutputWriter(h: Hashing, s: World, w: nat, key: Key)
    requires Kept(h, s) && key !in s.objects && key in DoPutOutput(h, s, w).objects
    ensures w in s.workers && s.workers[w].Publishing? && s.workers[w].run == key.run && GrantedTo(s, key.run, w)
  {
    assert WorkerKept(s, w, s.workers[w]);
  }

  lemma {:induction false} ChecksumsWriter(h: Hashing, s: World, w: nat, key: Key)
    requires Kept(h, s) && key !in s.objects && key in DoPutChecksums(h, s, w).objects
    ensures w in s.workers && s.workers[w].Publishing? && s.workers[w].run == key.run && GrantedTo(s, key.run, w)
  {
    assert WorkerKept(s, w, s.workers[w]);
  }

  /** All outputs of a run, its manifest included, are written by one and the same worker, whatever the number of
      workers started for the run. */
  lemma {:induction false} SolePublisher(h: Hashing, worlds: seq<World>, steps: seq<Step>, i: nat, j: nat, a: Key, b: Key)
    requires Trace(h, worlds, steps) && Writes(worlds, i, a) && Writes(worlds, j, b)
    requires a.run == b.run && a.name != RunSpec && b.name != RunSpec
    ensures (steps[i].PutOutput? || steps[i].PutChecksums?) && (steps[j].PutOutput? || steps[j].PutChecksums?)
    ensures steps[i].w == steps[j].w
  {
    RunKeeps(h, worlds, steps, i);
    RunKeeps(h, worlds, steps, j);
    assert Happens(h, worlds, steps, i) && Happens(h, worlds, steps, j);
    WriterHoldsRun(h, worlds[i], steps[i], a);
    WriterHoldsRun(h, worlds[j], steps[j], b);
    var last := |worlds| - 1;
    GrantsOnlyGrow(h, worlds, steps, i, last, a.run, steps[i].w);
    GrantsOnlyGrow(h, worlds, steps, j, last, a.run, steps[j].w);
    RunKeeps(h, worlds, steps, last);
    GrantsAreExclusive(worlds[last], a.run, steps[i].w, steps[j].w);
  }

  // ----- checksums

  /** The stored manifest lists exactly the five required artifacts, each stored with the listed length and
      digest. */
  ghost predicate Complete(h: Hashing, objects: Objects, run: RunId) {
    && Key(run, Checksums) in objects && objects[Key(run, Checksums)].ManifestDoc?
    && ManifestValid(objects[Key(run, Checksums)].entries)
    && forall n: Name :: Required(n) ==> Listed(h, objects, run, n, objects[Key(run, Checksums)].entries)
  }

  ghost predicate Listed(h: Hashing, objects: Objects, run: RunId, n: Name, entries: seq<Digest>) {
    && Key(run, n) in objects
    && exists i :: 0 <= i < |entries| && entries[i] == h.Of(n, objects[Key(run, n)])
  }

  ghost predicate StoredAlike(a: Objects, b: Objects, key: Key) {
    key in a && key in b && b[key] == a[key]
  }

  lemma {:induction false} KeptIsComplete(h: Hashing, objects: Objects, run: RunId)
    requires ManifestKept(h, objects, run) && Key(run, Checksums) in objects
    ensures Complete(h, objects, run)
  {
    var entries := objects[Key(run, Checksums)].entries;
    forall n: Name | Required(n)
      ensures Listed(h, objects, run, n, entries)
    {
      ManifestCovers(entries, n);
      var i :| 0 <= i < |entries| && entries[i].name == n;
      assert Matches(h, objects, run, entries[i]);
    }
  }

  /** As soon as the checksums are there, and for ever after, all five artifacts are there and match them. */
  lemma {:induction false} ChecksumsMeanComplete(h: Hashing, worlds: seq<World>, steps: seq<Step>, i: nat, j: nat, run: RunId)
    requires Trace(h, worlds, steps) && i <= j < |worlds| && Key(run, Checksums) in worlds[i].objects
    ensures Complete(h, worlds[j].objects, run)
    ensures forall n: Name :: StoredAlike(worlds[i].objects, worlds[j].objects, Key(run, n))
  {
    ObjectsNeverChange(h, worlds, steps, i, j);
    RunKeeps(h, worlds, steps, i);
    RunKeeps(h, worlds, steps, j);
    assert RunKept(h, worlds[i], run) && RunKept(h, worlds[j], run);
    KeptIsComplete(h, worlds[i].objects, run);
    KeptIsComplete(h, worlds[j].objects, run);
    forall n: Name
      ensures StoredAlike(worlds[i].objects, worlds[j].objects, Key(run, n))
    {
      if Required(n) {
        assert Listed(h, worlds[i].objects, run, n, worlds[i].objects[Key(run, Checksums)].entries);
      }
    }
  }

  /** A succeeded run stays succeeded, with artifacts that match and that every reader's limit admits. */
  lemma {:induction false} SucceededMeansVerified(h: Hashing, worlds: seq<World>, steps: seq<Step>, i: nat, j: nat, run: RunId)
    requires Trace(h, worlds, steps) && i <= j < |worlds|
    requires run in worlds[i].records && worlds[i].records[run].status.Succeeded?
    ensures run in worlds[j].records && worlds[j].records[run] == worlds[i].records[run]
    ensures Complete(h, worlds[j].objects, run) && WithinLimits(h, worlds[j].objects, run) && ResultNames(worlds[j].objects, run)
  {
    TerminalIsFinal(h, worlds, steps, i, j, run);
    RunKeeps(h, worlds, steps, i);
    assert RunKept(h, worlds[i], run);
    RunKeeps(h, worlds, steps, j);
    assert RunKept(h, worlds[j], run);
    ChecksumsMeanComplete(h, worlds, steps, i, j, run);
  }

  /** The finalizer reads specifications of up to 64 KiB only: a run with a larger one can never succeed. */
  lemma {:induction false} LargeSpecNeverSucceeds(h: Hashing, worlds: seq<World>, steps: seq<Step>, i: nat, j: nat, run: RunId)
    requires Trace(h, worlds, steps) && i <= j < |worlds|
    requires Key(run, RunSpec) in worlds[i].objects && h.size(worlds[i].objects[Key(run, RunSpec)]) > 64 * 1024
    ensures run in worlds[j].records ==> !worlds[j].records[run].status.Succeeded?
  {
    ObjectsNeverChange(h, worlds, steps, i, j);
    RunKeeps(h, worlds, steps, j);
    assert RunKept(h, worlds[j], run);
  }

  // ----- a worker that dies

  ghost predicate Lost(s: World, run: RunId, w: nat) {
    GrantedTo(s, run, w) && w in s.workers && s.workers[w].WorkerDead? && Key(run, Checksums) !in s.objects
  }

  lemma {:induction false} TheDeadStayDead(h: Hashing, s: World, step: Step, w: nat)
    requires w in s.workers && s.workers[w].WorkerDead?
    ensures w in Next(h, s, step).workers && Next(h, s, step).workers[w].WorkerDead?
  {
  }

  lemma {:induction false} StepKeepsLost(h: Hashing, s: World, step: Step, run: RunId, w: nat)
    requires Kept(h, s) && Lost(s, run, w)
    ensures Lost(Next(h, s, step), run, w)
  {
    StepKeepsGrant(h, s, step, run, w);
    TheDeadStayDead(h, s, step, w);
    var key := Key(run, Checksums);
    if key in Next(h, s, step).objects {
      WriterHoldsRun(h, s, step, key);
      GrantsAreExclusive(s, run, step.w, w);
      assert false;
    }
  }

  /** If the worker that took a run dies before the manifest is written, no retry ever completes the run: it can
      only be failed. */
  lemma {:induction false} LostRunNeverSucceeds(h: Hashing, worlds: seq<World>, steps: seq<Step>, i: nat, j: nat, run: RunId, w: nat)
    requires Trace(h, worlds, steps) && i <= j < |worlds| && Lost(worlds[i], run, w)
    ensures Lost(worlds[j], run, w)
    ensures run in worlds[j].records && (worlds[j].records[run].status.Running? || worlds[j].records[run].status.Failed?)
    decreases j
  {
    if i < j {
      LostRunNeverSucceeds(h, worlds, steps, i, j - 1, run, w);
      RunKeeps(h, worlds, steps, j - 1);
      assert Happens(h, worlds, steps, j - 1);
      StepKeepsLost(h, worlds[j - 1], steps[j - 1], run, w);
    }
    RunKeeps(h, worlds, steps, j);
    assert RunKept(h, worlds[j], run);
    GrantedToIsGranted(worlds[j], run, w);
  }

  // ----- the public results endpoint

  datatype Response = NotFound | Found(summary: Body)

  /** The entries of one name; `_entry` demands exactly one. */
  function Entries(entries: seq<Digest>, name: Name): seq<Digest> {
    if entries == [] then []
    else (if entries[0].name == name then [entries[0]] else []) + Entries(entries[1..], name)
  }

  predicate PublicRecord(records: Records, run: RunId) {
    && run in records
    && records[run].status.Succeeded? && records[run].visibility.Public?
    && records[run].failure.None? && records[run].startedAt.Some? && records[run].completedAt.Some?
  }

  function Manifest(h: Hashing, objects: Objects, run: RunId): Option<seq<Digest>> {
    var body := Get(h, objects, Key(run, Checksums), 32 * 1024);
    if body.Some? && body.value.ManifestDoc? && ManifestValid(body.value.entries) then Some(body.value.entries) else None
  }

  function ResultSummary(h: Hashing, objects: Objects, run: RunId, manifest: seq<Digest>): Option<Body> {
    var entry := Entries(manifest, ResultJson);
    var body := Get(h, objects, Key(run, ResultJson), 64 * 1024);
    if |entry| == 1 && body.Some? && h.size(body.value) == entry[0].size && h.sha(body.value) == entry[0].sha
       && body.value.ResultDoc? && body.value.run == run
    then body else None
  }

  predicate ReportMatches(h: Hashing, objects: Objects, run: RunId, manifest: seq<Digest>) {
    var entry := Entries(manifest, ReportHtml);
    && |entry| == 1 && Key(run, ReportHtml) in objects
    && h.Of(ReportHtml, objects[Key(run, ReportHtml)]) == entry[0]
  }

  /** `get_public_result`; `presentable` stands for the summary's own schema and the bound on the response's size. */
  function PublicResult(h: Hashing, presentable: Body -> bool, s: World, run: RunId): Response {
    if !PublicRecord(s.records, run) then NotFound
    else
      var manifest := Manifest(h, s.objects, run);
      if manifest.None? then NotFound
      else
        var summary := ResultSummary(h, s.objects, run, manifest.value);
        if summary.None? || !ReportMatches(h, s.objects, run, manifest.value) || !presentable(summary.value) then NotFound
        else Found(summary.value)
  }

  lemma {:induction false} AbsentEntries(entries: seq<Digest>, name: Name)
    requires forall k :: 0 <= k < |entries| ==> entries[k].name != name
    ensures Entries(entries, name) == []
  {
    if entries != [] {
      AbsentEntries(entries[1..], name);
    }
  }

  lemma {:induction false} OneEntry(entries: seq<Digest>, i: nat)
    requires i < |entries| && forall k, l :: 0 <= k < l < |entries| ==> entries[k].name != entries[l].name
    ensures Entries(entries, entries[i].name) == [entries[i]]
  {
    if i == 0 {
      AbsentEntries(entries[1..], entries[0].name);
    } else {
      assert entries[1..][i - 1] == entries[i];
      assert entries[0].name != entries[i].name;
      OneEntry(entries[1..], i - 1);
    }
  }

  lemma {:induction false} EntryIsDigest(h: Hashing, objects: Objects, run: RunId, n: Name)
    requires Complete(h, objects, run) && Required(n)
    ensures Key(run, n) in objects
    ensures Entries(objects[Key(run, Checksums)].entries, n) == [h.Of(n, objects[Key(run, n)])]
  {
    var entries := objects[Key(run, Checksums)].entries;
    assert Listed(h, objects, run, n, entries);
    var i :| 0 <= i < |entries| && entries[i] == h.Of(n, objects[Key(run, n)]);
    OneEntry(entries, i);
  }

  lemma {:induction false} PublicResultWhenKept(h: Hashing, presentable: Body -> bool, s: World, run: RunId)
    requires RunKept(h, s, run)
    ensures var shown := run in s.records && s.records[run].status.Succeeded? && s.records[run].visibility.Public?;
            && (shown ==> Key(run, ResultJson) in s.objects)
            && PublicResult(h, presentable, s, run)
               == (if shown && presentable(s.objects[Key(run, ResultJson)]) then Found(s.objects[Key(run, ResultJson)]) else NotFound)
  {
    if run in s.records && s.records[run].status.Succeeded? && s.records[run].visibility.Public? {
      KeptIsComplete(h, s.objects, run);
      EntryIsDigest(h, s.objects, run, ResultJson);
      EntryIsDigest(h, s.objects, run, ReportHtml);
      assert Manifest(h, s.objects, run) == Some(s.objects[Key(run, Checksums)].entries);
    }
  }

  /** The endpoint answers exactly for the succeeded public runs with a presentable summary: none of its checks of
      the artifacts can fail for a run it considers, and nothing else is ever shown. */
  lemma {:induction false} PublicResultExactly(h: Hashing, presentable: Body -> bool, worlds: seq<World>, steps: seq<Step>, k: nat, run: RunId)
    requires Trace(h, worlds, steps) && k < |worlds|
    ensures var s := worlds[k];
            var shown := run in s.records && s.records[run].status.Succeeded? && s.records[run].visibility.Public?;
            && (shown ==> Key(run, ResultJson) in s.objects)
            && PublicResult(h, presentable, s, run)
               == (if shown && presentable(s.objects[Key(run, ResultJson)]) then Found(s.objects[Key(run, ResultJson)]) else NotFound)
  {
    RunKeeps(h, worlds, steps, k);
    PublicResultWhenKept(h, presentable, worlds[k], run);
  }

  /** An answer once given is given for ever. */
  lemma {:induction false} PublicResultIsStable(h: Hashing, presentable: Body -> bool, worlds: seq<World>, steps: seq<Step>, i: nat, j: nat, run: RunId)
    requires Trace(h, worlds, steps) && i <= j < |worlds| && PublicResult(h, presentable, worlds[i], run).Found?
    ensures PublicResult(h, presentable, worlds[j], run) == PublicResult(h, presentable, worlds[i], run)
  {
    PublicResultExactly(h, presentable, worlds, steps, i, run);
    PublicResultExactly(h, presentable, worlds, steps, j, run);
    TerminalIsFinal(h, worlds, steps, i, j, run);
    ObjectsNeverChange(h, worlds, steps, i, j);
  }
}
