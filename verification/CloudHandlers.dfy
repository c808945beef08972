/** The handlers as they run, each proved to do to the stores what its protocol steps do one after the other. */
module CloudHandlers {
  import opened Market
  import opened CloudStorage
  import opened CloudRuns
  import opened CloudProgress

  /** The stores with no process at work. */
  ghost function Alone(objects: Objects, records: Records): World {
    World(objects, records, map[], map[], map[], [])
  }

  /** `prepare_run`: the specification first, then the record. */
  method PrepareRun(store: ObjectStore, repository: RunRepository, run: RunId, payload: string, visibility: Visibility) returns (prepared: bool)
    modifies store, repository
    ensures var t := Prepare(store.h, Alone(old(store.objects), old(repository.records)), 0, run, payload, visibility);
            store.objects == t.objects && repository.records == t.records
    ensures prepared ==> Key(run, RunSpec) in store.objects
                         && run in repository.records && repository.records[run] == Record(Pending, visibility, None, None, None)
    ensures !prepared ==> repository.records == old(repository.records)
  {
    var stored := store.PutObject(Key(run, RunSpec), SpecDoc(run, payload));
    if !stored {
      return false;
    }
    prepared := repository.Create(run, visibility);
  }

  // ----- the worker

  /** Steps of a worker that has stopped change nothing. */
  lemma {:induction false} StoppedWorkerStays(h: Hashing, s: World, w: nat, i: nat, n: nat)
    requires i <= n
    requires var t := PutOutputs(h, s, w, i); w in t.workers && t.workers[w].WorkerDead?
    ensures PutOutputs(h, s, w, n) == PutOutputs(h, s, w, i)
  {
    if i < n {
      StoppedWorkerStays(h, s, w, i, n - 1);
    }
  }

  ghost predicate AtWork(h: Hashing, s: World, i: nat, store: ObjectStore, repository: RunRepository, run: RunId, spec: Body, outputs: seq<Output>)
    reads store, repository
  {
    var t := PutOutputs(h, s, 0, i);
    && store.objects == t.objects && repository.records == t.records
    && 0 in t.workers && t.workers[0] == Publishing(run, spec, outputs, i)
  }

  /** One put: the protocol's step does the same to the stores. */
  lemma {:induction false} PutIsStep(h: Hashing, s: World, i: nat, run: RunId, spec: Body, outputs: seq<Output>)
    requires |outputs| == 4 && i < 4
    requires var t := PutOutputs(h, s, 0, i); 0 in t.workers && t.workers[0] == Publishing(run, spec, outputs, i)
    ensures var t, u := PutOutputs(h, s, 0, i), PutOutputs(h, s, 0, i + 1);
            var put := Put(h, t.objects, Key(run, outputs[i].name), outputs[i].body);
            && u.records == t.records && 0 in u.workers
            && (put.Some? ==> u.objects == put.value && u.workers[0] == Publishing(run, spec, outputs, i + 1))
            && (put.None? ==> u.objects == t.objects && u.workers[0] == WorkerDead)
  {
  }

  /** The outputs in order, with their digests; `None` when one of them conflicts. */
  method PutAll(store: ObjectStore, repository: RunRepository, run: RunId, spec: Body, outputs: seq<Output>, ghost s: World)
    returns (digests: Option<seq<Digest>>)
    requires OutputsValid(run, outputs) && AtWork(store.h, s, 0, store, repository, run, spec, outputs)
    modifies store
    ensures digests.Some? ==> digests.value == Digests(store.h, spec, outputs) && AtWork(store.h, s, 4, store, repository, run, spec, outputs)
    ensures digests.None? ==> Abandoned(store.h, s, store, repository)
  {
    var taken := [store.h.Of(RunSpec, spec)];
    for i := 0 to 4
      invariant AtWork(store.h, s, i, store, repository, run, spec, outputs)
      invariant |taken| == i + 1 && taken[0] == store.h.Of(RunSpec, spec)
      invariant forall k :: 0 <= k < i ==> taken[k + 1] == store.h.Of(outputs[k].name, outputs[k].body)
    {
      PutIsStep(store.h, s, i, run, spec, outputs);
      var stored := store.PutObject(Key(run, outputs[i].name), outputs[i].body);
      if !stored {
        StoppedWorkerStays(store.h, s, 0, i + 1, 4);
        return None;
      }
      taken := taken + [store.h.Of(outputs[i].name, outputs[i].body)];
    }
    DigestsListed(store.h, spec, outputs, taken);
    digests := Some(taken);
  }

  lemma {:induction false} DigestsListed(h: Hashing, spec: Body, outputs: seq<Output>, taken: seq<Digest>)
    requires |outputs| == 4 && |taken| == 5 && taken[0] == h.Of(RunSpec, spec)
    requires forall k :: 0 <= k < 4 ==> taken[k + 1] == h.Of(outputs[k].name, outputs[k].body)
    ensures taken == Digests(h, spec, outputs)
  {
    assert taken[0 + 1] == h.Of(outputs[0].name, outputs[0].body) && taken[1 + 1] == h.Of(outputs[1].name, outputs[1].body);
    assert taken[2 + 1] == h.Of(outputs[2].name, outputs[2].body) && taken[3 + 1] == h.Of(outputs[3].name, outputs[3].body);
  }

  /** The worker has stopped before the manifest. */
  ghost predicate Abandoned(h: Hashing, s: World, store: ObjectStore, repository: RunRepository)
    reads store, repository
  {
    var t := PutOutputs(h, s, 0, 4);
    store.objects == t.objects && repository.records == t.records && 0 in t.workers && t.workers[0].WorkerDead?
  }

  /** The puts of `execute_run`, the manifest last. */
  method PublishOutputs(store: ObjectStore, repository: RunRepository, run: RunId, spec: Body, outputs: seq<Output>, ghost s: World)
    returns (manifest: Option<seq<Digest>>)
    requires OutputsValid(run, outputs) && AtWork(store.h, s, 0, store, repository, run, spec, outputs)
    modifies store
    ensures var t := Publish(store.h, s, 0); store.objects == t.objects && repository.records == t.records
    ensures manifest.Some? ==> manifest.value == Digests(store.h, spec, outputs)
                               && Key(run, Checksums) in store.objects
                               && store.h.sha(store.objects[Key(run, Checksums)]) == store.h.sha(ManifestDoc(manifest.value))
  {
    var digests := PutAll(store, repository, run, spec, outputs, s);
    if digests.None? {
      return None;
    }
    var stored := store.PutObject(Key(run, Checksums), ManifestDoc(digests.value));
    manifest := if stored then digests else None;
  }

  /** What `execute_run` amounts to: admit, take, compute if that succeeds, publish. */
  ghost function Executed(h: Hashing, s: World, run: RunId, now: int, outputs: Option<seq<Output>>): World {
    if outputs.Some? then Publish(h, Begin(h, s, 0, run, now, outputs.value), 0)
    else DoTake(DoAdmit(h, s, 0, run), 0, now)
  }

  ghost function ComputedFrom(h: Hashing, objects: Objects, run: RunId, compute: Body -> Option<seq<Output>>): Option<seq<Output>> {
    var spec := Get(h, objects, Key(run, RunSpec), WORKER_SPEC_LIMIT);
    if spec.Some? then compute(spec.value) else None
  }

  /** A worker that has not got the run publishes nothing. */
  lemma {:induction false} NoGrantNoOutput(h: Hashing, s: World, run: RunId, now: int, outputs: Option<seq<Output>>)
    requires 0 !in s.workers
    requires var t := DoTake(DoAdmit(h, s, 0, run), 0, now); 0 in t.workers && t.workers[0].WorkerDead?
    ensures Executed(h, s, run, now, outputs).objects == s.objects
    ensures Executed(h, s, run, now, outputs).records == DoTake(DoAdmit(h, s, 0, run), 0, now).records
  {
    if outputs.Some? {
      var begun := Begin(h, s, 0, run, now, outputs.value);
      assert PutOutputs(h, begun, 0, 0) == begun;
      StoppedWorkerStays(h, begun, 0, 0, 4);
    }
  }

  /** `execute_run`; `compute` stands for the dataset, the backtest and the serialisation, and may fail. */
  method ExecuteRun(store: ObjectStore, repository: RunRepository, run: RunId, now: int, compute: Body -> Option<seq<Output>>)
    returns (manifest: Option<seq<Digest>>)
    requires forall spec :: compute(spec).Some? ==> OutputsValid(run, compute(spec).value)
    modifies store, repository
    ensures var t := Executed(store.h, Alone(old(store.objects), old(repository.records)), run, now,
                              ComputedFrom(store.h, old(store.objects), run, compute));
            store.objects == t.objects && repository.records == t.records
  {
    ghost var s, outcome := Alone(store.objects, repository.records), ComputedFrom(store.h, store.objects, run, compute);
    ghost var admitted := DoAdmit(store.h, s, 0, run);
    var spec := Get(store.h, store.objects, Key(run, RunSpec), WORKER_SPEC_LIMIT);
    if spec.None? || !spec.value.SpecDoc? || spec.value.run != run {
      assert admitted.workers[0] == WorkerDead;
      NoGrantNoOutput(store.h, s, run, now, outcome);
      return None;
    }
    assert admitted.workers[0] == Admitted(run, spec.value);
    var started := repository.Start(run, now);
    if !started {
      NoGrantNoOutput(store.h, s, run, now, outcome);
      return None;
    }
    var outputs := compute(spec.value);
    if outputs.None? {
      return None;
    }
    BeginTakes(store.h, s, 0, run, now, spec.value, outputs.value);
    ghost var begun := Begin(store.h, s, 0, run, now, outputs.value);
    assert PutOutputs(store.h, begun, 0, 0) == begun;
    manifest := PublishOutputs(store, repository, run, spec.value, outputs.value, begun);
  }

  // ----- the finalizer

  /** `_verify_required_artifacts`: all of them, or none. */
  method VerifyRequiredArtifacts(store: ObjectStore, run: RunId, entries: seq<Digest>) returns (verified: Option<map<Name, Body>>)
    requires ManifestValid(entries)
    ensures verified.Some? <==> AllVerify(store.h, store.objects, run, entries)
    ensures verified.Some? <==> forall k :: 0 <= k < |entries| ==>
              && Key(run, entries[k].name) in store.objects
              && store.h.Of(entries[k].name, store.objects[Key(run, entries[k].name)]) == entries[k]
              && entries[k].size <= Limit(entries[k].name)
    ensures verified.Some? ==> forall n: Name :: (n in verified.value <==> Required(n))
                                                 && (Required(n) ==> Key(run, n) in store.objects && verified.value[n] == store.objects[Key(run, n)])
  {
    var found: map<Name, Body> := map[];
    for i := 0 to |entries|
      invariant forall k :: 0 <= k < i ==> Verifies(store.h, store.objects, run, entries[k])
      invariant forall n :: n in found <==> exists k :: 0 <= k < i && entries[k].name == n
      invariant forall n :: n in found ==> Required(n) && Key(run, n) in store.objects && found[n] == store.objects[Key(run, n)]
    {
      var e := entries[i];
      var body := Get(store.h, store.objects, Key(run, e.name), Limit(e.name));
      if body.None? || store.h.size(body.value) != e.size || store.h.sha(body.value) != e.sha {
        assert !Verifies(store.h, store.objects, run, entries[i]);
        return None;
      }
      found := found[e.name := body.value];
    }
    forall n: Name | Required(n)
      ensures n in found
    {
      ManifestCovers(entries, n);
    }
    verified := Some(found);
  }

  /** `finalize_success`: the record is returned exactly when everything verifies and the run has succeeded, by
      this call or by an earlier one. */
  method FinalizeSuccess(store: ObjectStore, repository: RunRepository, run: RunId, now: int) returns (r: Option<Record>)
    modifies repository
    ensures repository.records == Finalize(store.h, Alone(store.objects, old(repository.records)), 0, run, now).records
    ensures r.Some? <==> Verified(store.h, store.objects, run) && run in repository.records && repository.records[run].status.Succeeded?
    ensures r.Some? ==> r.value == repository.records[run]
  {
    FinalizeRecords(store.h, Alone(store.objects, repository.records), 0, run, now);
    var body := Get(store.h, store.objects, Key(run, Checksums), Limit(Checksums));
    if body.None? || !body.value.ManifestDoc? || !ManifestValid(body.value.entries) {
      return None;
    }
    var verified := VerifyRequiredArtifacts(store, run, body.value.entries);
    if verified.None? {
      return None;
    }
    var result := verified.value[ResultJson];
    if !result.ResultDoc? || result.run != run {
      return None;
    }
    var marked := repository.Succeed(run, now);
    if run !in repository.records || !repository.records[run].status.Succeeded? {
      return None;
    }
    r := Some(repository.records[run]);
  }

  /** `finalize_failure`: likewise for one failure code. */
  method FinalizeFailure(repository: RunRepository, run: RunId, code: FailureCode, now: int) returns (r: Option<Record>)
    modifies repository
    ensures repository.records == DoMarkFailure(Alone(map[], old(repository.records)), run, code, now).records
    ensures r.Some? <==> run in repository.records && repository.records[run].status.Failed? && repository.records[run].failure == Some(code)
    ensures r.Some? ==> r.value == repository.records[run]
  {
    var marked := repository.Fail(run, code, now);
    if run !in repository.records || !repository.records[run].status.Failed? || repository.records[run].failure != Some(code) {
      return None;
    }
    r := Some(repository.records[run]);
  }
}
