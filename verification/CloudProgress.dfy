/** Progress of the cloud run protocol: a run that nothing disturbs, exactly when it succeeds, and one that is
    published in vain. */
module CloudProgress {
  import opened Market
  import opened CloudStorage
  import opened CloudRuns
  import opened CloudSafety

  // ----- a run nobody disturbs

  function Prepare(h: Hashing, s: World, p: nat, run: RunId, payload: string, visibility: Visibility): World {
    DoPutRecord(DoPutSpec(h, s, p, run, payload, visibility), p)
  }

  function Begin(h: Hashing, s: World, w: nat, run: RunId, now: int, outputs: seq<Output>): World {
    DoCompute(DoTake(DoAdmit(h, s, w, run), w, now), w, outputs)
  }

  function PutOutputs(h: Hashing, s: World, w: nat, n: nat): World {
    if n == 0 then s else DoPutOutput(h, PutOutputs(h, s, w, n - 1), w)
  }

  function Publish(h: Hashing, s: World, w: nat): World {
    DoPutChecksums(h, PutOutputs(h, s, w, 4), w)
  }

  function Verify(h: Hashing, s: World, f: nat, n: nat): World {
    if n == 0 then s else DoVerifyNext(h, Verify(h, s, f, n - 1), f)
  }

  function Finalize(h: Hashing, s: World, f: nat, run: RunId, now: int): World {
    DoMarkSuccess(Verify(h, DoReadChecksums(h, s, f, run), f, 5), f, now)
  }

  /** Nothing is known of the run, and the three processes are new. */
  ghost predicate Unused(s: World, run: RunId, p: nat, w: nat, f: nat) {
    && run !in s.records && (forall n: Name :: Key(run, n) !in s.objects)
    && p !in s.preparers && w !in s.workers && f !in s.finalizers
  }

  ghost predicate FitsLimits(h: Hashing, run: RunId, payload: string, outputs: seq<Output>)
    requires OutputsValid(run, outputs)
  {
    && h.size(SpecDoc(run, payload)) <= Limit(RunSpec)
    && (forall i :: 0 <= i < 4 ==> h.size(outputs[i].body) <= Limit(outputs[i].name))
    && h.size(ManifestDoc(Digests(h, SpecDoc(run, payload), outputs))) <= Limit(Checksums)
  }

  lemma {:induction false} BeginTakes(h: Hashing, s: World, w: nat, run: RunId, now: int, spec: Body, outputs: seq<Output>)
    requires w !in s.workers && Key(run, RunSpec) in s.objects && s.objects[Key(run, RunSpec)] == spec
    requires spec.SpecDoc? && spec.run == run && h.size(spec) <= WORKER_SPEC_LIMIT
    requires run in s.records && s.records[run].status.Pending? && OutputsValid(run, outputs)
    ensures var t := Begin(h, s, w, run, now, outputs);
            && t.objects == s.objects && t.finalizers == s.finalizers
            && t.records == s.records[run := s.records[run].(status := Running, startedAt := Some(now))]
            && w in t.workers && t.workers[w] == Publishing(run, spec, outputs, 0)
  {
    var a := DoAdmit(h, s, w, run);
    assert a.workers[w] == Admitted(run, spec);
    var b := DoTake(a, w, now);
    assert b.workers[w] == Computing(run, spec);
  }

  /** `objects` with the first `n` outputs of a run. */
  ghost function WithOutputs(objects: Objects, run: RunId, outputs: seq<Output>, n: nat): Objects
    requires n <= |outputs|
  {
    if n == 0 then objects
    else WithOutputs(objects, run, outputs, n - 1)[Key(run, outputs[n - 1].name) := outputs[n - 1].body]
  }

  lemma {:induction false} WithOutputsKeys(objects: Objects, run: RunId, outputs: seq<Output>, n: nat)
    requires n <= |outputs| && OutputsValid(run, outputs)
    requires forall name: Name :: name != RunSpec ==> Key(run, name) !in objects
    ensures forall i :: 0 <= i < n ==> Key(run, outputs[i].name) in WithOutputs(objects, run, outputs, n)
    ensures forall i :: 0 <= i < n ==> WithOutputs(objects, run, outputs, n)[Key(run, outputs[i].name)] == outputs[i].body
    ensures forall i :: n <= i < 4 ==> Key(run, outputs[i].name) !in WithOutputs(objects, run, outputs, n)
    ensures Key(run, Checksums) !in WithOutputs(objects, run, outputs, n)
    ensures Key(run, RunSpec) in objects ==>
              Key(run, RunSpec) in WithOutputs(objects, run, outputs, n) && WithOutputs(objects, run, outputs, n)[Key(run, RunSpec)] == objects[Key(run, RunSpec)]
  {
    if n > 0 {
      WithOutputsKeys(objects, run, outputs, n - 1);
      assert forall i, j :: 0 <= i < j < 4 ==> outputs[i].name != outputs[j].name;
    }
  }

  /** `t` is `s` with the first `n` outputs put. */
  ghost predicate Stored(s: World, t: World, w: nat, run: RunId, spec: Body, outputs: seq<Output>, n: nat) {
    && n <= |outputs|
    && t.objects == WithOutputs(s.objects, run, outputs, n) && t.records == s.records && t.finalizers == s.finalizers
    && w in t.workers && t.workers[w] == Publishing(run, spec, outputs, n)
  }

  lemma {:induction false} PutAdvances(h: Hashing, s: World, t: World, w: nat, run: RunId, spec: Body, outputs: seq<Output>, n: nat)
    requires Stored(s, t, w, run, spec, outputs, n) && n < |outputs| && Key(run, outputs[n].name) !in t.objects
    ensures Stored(s, DoPutOutput(h, t, w), w, run, spec, outputs, n + 1)
  {
  }

  lemma {:induction false} PutOutputsStore(h: Hashing, s: World, w: nat, run: RunId, spec: Body, outputs: seq<Output>, n: nat)
    requires w in s.workers && s.workers[w] == Publishing(run, spec, outputs, 0) && OutputsValid(run, outputs) && n <= 4
    requires forall name: Name :: name != RunSpec ==> Key(run, name) !in s.objects
    ensures Stored(s, PutOutputs(h, s, w, n), w, run, spec, outputs, n)
  {
    if n > 0 {
      var t := PutOutputs(h, s, w, n - 1);
      PutOutputsStore(h, s, w, run, spec, outputs, n - 1);
      assert Key(run, outputs[n - 1].name) !in t.objects by {
        WithOutputsKeys(s.objects, run, outputs, n - 1);
      }
      PutAdvances(h, s, t, w, run, spec, outputs, n - 1);
    }
  }

  lemma {:induction false} ChecksumsAdvance(h: Hashing, s: World, t: World, w: nat, run: RunId, spec: Body, outputs: seq<Output>)
    requires Stored(s, t, w, run, spec, outputs, 4) && |outputs| == 4 && Key(run, Checksums) !in t.objects
    ensures var u := DoPutChecksums(h, t, w);
            && u.records == s.records && u.finalizers == s.finalizers
            && u.objects == t.objects[Key(run, Checksums) := ManifestDoc(Digests(h, spec, outputs))]
  {
  }

  lemma {:induction false} PublishStoresAll(h: Hashing, s: World, w: nat, run: RunId, spec: Body, outputs: seq<Output>)
    requires w in s.workers && s.workers[w] == Publishing(run, spec, outputs, 0) && OutputsValid(run, outputs)
    requires forall n: Name :: n != RunSpec ==> Key(run, n) !in s.objects
    ensures var t := Publish(h, s, w);
            && t.records == s.records && t.finalizers == s.finalizers
            && t.objects == WithOutputs(s.objects, run, outputs, 4)[Key(run, Checksums) := ManifestDoc(Digests(h, spec, outputs))]
  {
    PutOutputsStore(h, s, w, run, spec, outputs, 4);
    var t := PutOutputs(h, s, w, 4);
    assert Key(run, Checksums) !in t.objects by {
      WithOutputsKeys(s.objects, run, outputs, 4);
    }
    ChecksumsAdvance(h, s, t, w, run, spec, outputs);
  }

  ghost function Published(h: Hashing, objects: Objects, run: RunId, payload: string, outputs: seq<Output>): Objects
    requires |outputs| == 4
  {
    WithOutputs(objects, run, outputs, 4)[Key(run, Checksums) := ManifestDoc(Digests(h, SpecDoc(run, payload), outputs))]
  }

  /** What a run publishes is within the limits if and only if its documents are. */
  lemma {:induction false} FittingIsWithinLimits(h: Hashing, objects: Objects, run: RunId, payload: string, outputs: seq<Output>)
    requires OutputsValid(run, outputs)
    requires forall n: Name :: n != RunSpec ==> Key(run, n) !in objects
    requires Key(run, RunSpec) in objects && objects[Key(run, RunSpec)] == SpecDoc(run, payload)
    ensures var all := Published(h, objects, run, payload, outputs);
            && (WithinLimits(h, all, run) <==> FitsLimits(h, run, payload, outputs))
            && Key(run, ResultJson) in all && all[Key(run, ResultJson)] == outputs[0].body
            && Key(run, RunSpec) in all && all[Key(run, RunSpec)] == SpecDoc(run, payload)
  {
    var all := Published(h, objects, run, payload, outputs);
    WithOutputsKeys(objects, run, outputs, 4);
    if FitsLimits(h, run, payload, outputs) {
      forall n: Name | Key(run, n) in all
        ensures h.size(all[Key(run, n)]) <= Limit(n)
      {
        if n != RunSpec && n != Checksums {
          assert n == outputs[0].name || n == outputs[1].name || n == outputs[2].name || n == outputs[3].name;
          var i :| 0 <= i < 4 && outputs[i].name == n;
          assert all[Key(run, outputs[i].name)] == outputs[i].body;
        }
      }
    }
    if WithinLimits(h, all, run) {
      forall i | 0 <= i < 4
        ensures h.size(outputs[i].body) <= Limit(outputs[i].name)
      {
        assert all[Key(run, outputs[i].name)] == outputs[i].body;
      }
      assert h.size(all[Key(run, RunSpec)]) <= Limit(RunSpec) && h.size(all[Key(run, Checksums)]) <= Limit(Checksums);
    }
  }

  ghost predicate Reaches(s: World, t: World, f: nat, v: Finalizer) {
    t == s.(finalizers := s.finalizers[f := v])
  }

  lemma {:induction false} VerifyOnce(h: Hashing, s: World, t: World, f: nat, run: RunId, entries: seq<Digest>, n: nat)
    requires Reaches(s, t, f, Verifying(run, entries, n)) && n < |entries|
    ensures Reaches(s, DoVerifyNext(h, t, f), f, if Verifies(h, s.objects, run, entries[n]) then Verifying(run, entries, n + 1) else FinalizerDone)
  {
  }

  lemma {:induction false} VerifyReaches(h: Hashing, s: World, f: nat, run: RunId, entries: seq<Digest>, n: nat)
    requires f in s.finalizers && s.finalizers[f] == Verifying(run, entries, 0) && n <= |entries|
    requires forall i :: 0 <= i < n ==> Verifies(h, s.objects, run, entries[i])
    ensures Reaches(s, Verify(h, s, f, n), f, Verifying(run, entries, n))
  {
    if n > 0 {
      VerifyReaches(h, s, f, run, entries, n - 1);
      VerifyOnce(h, s, Verify(h, s, f, n - 1), f, run, entries, n - 1);
    } else {
      assert s.finalizers == s.finalizers[f := Verifying(run, entries, 0)];
    }
  }

  // ----- the finalizer

  ghost predicate AllVerify(h: Hashing, objects: Objects, run: RunId, entries: seq<Digest>) {
    forall i :: 0 <= i < |entries| ==> Verifies(h, objects, run, entries[i])
  }

  /** A verification that fails stops the finalizer. */
  lemma {:induction false} VerifyStops(h: Hashing, s: World, f: nat, run: RunId, entries: seq<Digest>, n: nat)
    requires f in s.finalizers && s.finalizers[f] == Verifying(run, entries, 0) && n <= |entries|
    requires exists i :: 0 <= i < n && !Verifies(h, s.objects, run, entries[i])
    ensures Reaches(s, Verify(h, s, f, n), f, FinalizerDone)
  {
    var m := n - 1;
    if forall i :: 0 <= i < m ==> Verifies(h, s.objects, run, entries[i]) {
      VerifyReaches(h, s, f, run, entries, m);
      VerifyOnce(h, s, Verify(h, s, f, m), f, run, entries, m);
    } else {
      VerifyStops(h, s, f, run, entries, m);
    }
  }

  lemma {:induction false} NoManifestNoMark(h: Hashing, s: World, f: nat, n: nat)
    requires f in s.finalizers && s.finalizers[f].FinalizerDone?
    ensures Verify(h, s, f, n) == s
  {
    if n > 0 {
      NoManifestNoMark(h, s, f, n - 1);
    }
  }

  /** The manifest can be read and is valid, every artifact verifies, and the result names the run. */
  ghost predicate Verified(h: Hashing, objects: Objects, run: RunId) {
    var body := Get(h, objects, Key(run, Checksums), Limit(Checksums));
    && body.Some? && body.value.ManifestDoc? && ManifestValid(body.value.entries)
    && AllVerify(h, objects, run, body.value.entries) && ResultNames(objects, run)
  }

  /** What `finalize_success` does to the stores. */
  lemma {:induction false} FinalizeRecords(h: Hashing, s: World, f: nat, run: RunId, now: int)
    requires f !in s.finalizers
    ensures var marks := Verified(h, s.objects, run) && MarkSucceeded(s.records, run, now).Some?;
            var t := Finalize(h, s, f, run, now);
            t.objects == s.objects && t.records == if marks then MarkSucceeded(s.records, run, now).value else s.records
  {
    var body := Get(h, s.objects, Key(run, Checksums), Limit(Checksums));
    var a := DoReadChecksums(h, s, f, run);
    if body.Some? && body.value.ManifestDoc? && ManifestValid(body.value.entries) {
      var entries := body.value.entries;
      assert a.finalizers[f] == Verifying(run, entries, 0);
      if AllVerify(h, s.objects, run, entries) {
        VerifyReaches(h, a, f, run, entries, 5);
      } else {
        VerifyStops(h, a, f, run, entries, 5);
      }
    } else {
      NoManifestNoMark(h, a, f, 5);
    }
  }

  // ----- the invariant along the way

  lemma {:induction false} PrepareWrites(h: Hashing, s: World, p: nat, run: RunId, payload: string, visibility: Visibility)
    requires p !in s.preparers && run !in s.records && Key(run, RunSpec) !in s.objects
    ensures var t := Prepare(h, s, p, run, payload, visibility);
            && t.objects == s.objects[Key(run, RunSpec) := SpecDoc(run, payload)]
            && t.records == s.records[run := Record(Pending, visibility, None, None, None)]
            && t.workers == s.workers && t.finalizers == s.finalizers
  {
    var a := DoPutSpec(h, s, p, run, payload, visibility);
    assert a.preparers[p] == Specified(run, visibility);
  }

  lemma {:induction false} PrepareKeeps(h: Hashing, s: World, p: nat, run: RunId, payload: string, visibility: Visibility)
    requires Kept(h, s)
    ensures Kept(h, Prepare(h, s, p, run, payload, visibility))
  {
    PreparerStepKeeps(h, s, PutSpec(p, run, payload, visibility));
    PreparerStepKeeps(h, DoPutSpec(h, s, p, run, payload, visibility), PutRecord(p));
  }

  lemma {:induction false} BeginKeeps(h: Hashing, s: World, w: nat, run: RunId, now: int, outputs: seq<Output>)
    requires Kept(h, s)
    ensures Kept(h, Begin(h, s, w, run, now, outputs))
  {
    var a := DoAdmit(h, s, w, run);
    WorkerStepKeeps(h, s, Admit(w, run));
    WorkerStepKeeps(h, a, Take(w, now));
    WorkerStepKeeps(h, DoTake(a, w, now), Compute(w, outputs));
  }

  lemma {:induction false} PutOutputKeeps(h: Hashing, s: World, w: nat)
    requires Kept(h, s)
    ensures Kept(h, DoPutOutput(h, s, w))
  {
    PublicationKeeps(h, s, PutOutput(w));
  }

  lemma {:induction false} PutChecksumsKeeps(h: Hashing, s: World, w: nat)
    requires Kept(h, s)
    ensures Kept(h, DoPutChecksums(h, s, w))
  {
    PublicationKeeps(h, s, PutChecksums(w));
  }

  lemma {:induction false} PutOutputsKeep(h: Hashing, s: World, w: nat, n: nat)
    requires Kept(h, s)
    ensures Kept(h, PutOutputs(h, s, w, n))
  {
    if n > 0 {
      PutOutputsKeep(h, s, w, n - 1);
      PutOutputKeeps(h, PutOutputs(h, s, w, n - 1), w);
    }
  }

  lemma {:induction false} PublishKeeps(h: Hashing, s: World, w: nat)
    requires Kept(h, s)
    ensures Kept(h, Publish(h, s, w))
  {
    PutOutputsKeep(h, s, w, 4);
    PutChecksumsKeeps(h, PutOutputs(h, s, w, 4), w);
  }

  lemma {:induction false} ChainKeeps(h: Hashing, s: World, p: nat, w: nat, run: RunId, payload: string, visibility: Visibility,
                                      started: int, outputs: seq<Output>)
    requires Kept(h, s)
    ensures Kept(h, Publish(h, Begin(h, Prepare(h, s, p, run, payload, visibility), w, run, started, outputs), w))
  {
    PrepareKeeps(h, s, p, run, payload, visibility);
    var a := Prepare(h, s, p, run, payload, visibility);
    BeginKeeps(h, a, w, run, started, outputs);
    PublishKeeps(h, Begin(h, a, w, run, started, outputs), w);
  }

  lemma {:induction false} VerifyKeeps(h: Hashing, s: World, f: nat, n: nat)
    requires Kept(h, s)
    ensures Kept(h, Verify(h, s, f, n))
  {
    if n > 0 {
      VerifyKeeps(h, s, f, n - 1);
      FinalizerStepKeeps(h, Verify(h, s, f, n - 1), VerifyNext(f));
    }
  }

  lemma {:induction false} FinalizeKeeps(h: Hashing, s: World, f: nat, run: RunId, now: int)
    requires Kept(h, s)
    ensures Kept(h, Finalize(h, s, f, run, now))
  {
    FinalizerStepKeeps(h, s, ReadChecksums(f, run));
    var a := DoReadChecksums(h, s, f, run);
    VerifyKeeps(h, a, f, 5);
    FinalizerStepKeeps(h, Verify(h, a, f, 5), MarkSuccess(f, now));
  }

  // ----- exactly when it succeeds

  /** With a manifest in place everything verifies if and only if every artifact is small enough. */
  lemma {:induction false} VerifiedExactly(h: Hashing, s: World, run: RunId)
    requires RunKept(h, s, run) && Key(run, Checksums) in s.objects
    ensures Verified(h, s.objects, run) <==> WithinLimits(h, s.objects, run)
  {
    KeptIsComplete(h, s.objects, run);
    var entries := s.objects[Key(run, Checksums)].entries;
    if WithinLimits(h, s.objects, run) {
      forall i | 0 <= i < |entries|
        ensures Verifies(h, s.objects, run, entries[i])
      {
        EntryIsDigest(h, s.objects, run, entries[i].name);
        OneEntry(entries, i);
      }
    }
    if Verified(h, s.objects, run) {
      forall n: Name | Key(run, n) in s.objects
        ensures h.size(s.objects[Key(run, n)]) <= Limit(n)
      {
        if Required(n) {
          ManifestCovers(entries, n);
          var i :| 0 <= i < |entries| && entries[i].name == n;
          assert Verifies(h, s.objects, run, entries[i]);
        }
      }
    }
  }

  /** The states of an undisturbed run after the worker and after the finalizer. */
  function Worked(h: Hashing, s: World, p: nat, w: nat, run: RunId, payload: string, visibility: Visibility, started: int, outputs: seq<Output>): World {
    Publish(h, Begin(h, Prepare(h, s, p, run, payload, visibility), w, run, started, outputs), w)
  }

  function Undisturbed(h: Hashing, s: World, p: nat, w: nat, f: nat, run: RunId, payload: string, visibility: Visibility,
                       started: int, completed: int, outputs: seq<Output>): World {
    Finalize(h, Worked(h, s, p, w, run, payload, visibility, started, outputs), f, run, completed)
  }

  /** A specification the worker can read is executed and published, however large the artifacts. */
  lemma {:induction false} UndisturbedRunPublishes(h: Hashing, s: World, p: nat, w: nat, f: nat, run: RunId,
                                                    payload: string, visibility: Visibility, outputs: seq<Output>, started: int)
    requires Unused(s, run, p, w, f) && OutputsValid(run, outputs) && h.size(SpecDoc(run, payload)) <= WORKER_SPEC_LIMIT
    ensures var t := Worked(h, s, p, w, run, payload, visibility, started, outputs);
            && f !in t.finalizers && (WithinLimits(h, t.objects, run) <==> FitsLimits(h, run, payload, outputs))
            && run in t.records && t.records[run] == Record(Running, visibility, Some(started), None, None)
            && Key(run, Checksums) in t.objects
            && Key(run, ResultJson) in t.objects && t.objects[Key(run, ResultJson)] == outputs[0].body
            && Key(run, RunSpec) in t.objects && t.objects[Key(run, RunSpec)] == SpecDoc(run, payload)
  {
    var spec := SpecDoc(run, payload);
    var a := Prepare(h, s, p, run, payload, visibility);
    PrepareWrites(h, s, p, run, payload, visibility);
    var b := Begin(h, a, w, run, started, outputs);
    BeginTakes(h, a, w, run, started, spec, outputs);
    PublishStoresAll(h, b, w, run, spec, outputs);
    FittingIsWithinLimits(h, b.objects, run, payload, outputs);
  }

  lemma {:induction false} DeadPutsNothing(h: Hashing, s: World, w: nat, n: nat)
    requires w in s.workers && s.workers[w].WorkerDead?
    ensures PutOutputs(h, s, w, n) == s
  {
    if n > 0 {
      DeadPutsNothing(h, s, w, n - 1);
    }
  }

  /** A specification the worker cannot read leaves the run pending. */
  lemma {:induction false} UnreadableSpecStaysPending(h: Hashing, s: World, p: nat, w: nat, f: nat, run: RunId,
                                                       payload: string, visibility: Visibility, outputs: seq<Output>, started: int)
    requires Unused(s, run, p, w, f) && h.size(SpecDoc(run, payload)) > WORKER_SPEC_LIMIT
    ensures var t := Worked(h, s, p, w, run, payload, visibility, started, outputs);
            && f !in t.finalizers && Key(run, Checksums) !in t.objects
            && run in t.records && t.records[run] == Record(Pending, visibility, None, None, None)
  {
    var a := Prepare(h, s, p, run, payload, visibility);
    PrepareWrites(h, s, p, run, payload, visibility);
    var b := DoAdmit(h, a, w, run);
    assert b.workers[w] == WorkerDead;
    assert Begin(h, a, w, run, started, outputs) == b;
    DeadPutsNothing(h, b, w, 4);
  }

  /** From every state that satisfies the invariant, a run that no crash and no other process disturbs succeeds if and
      only if its specification, outputs and manifest fit the finalizer's limits; and the endpoint then shows its
      result exactly if it is public and presentable. */
  lemma {:induction false} UndisturbedRunSucceedsExactly(h: Hashing, presentable: Body -> bool, s: World, p: nat, w: nat, f: nat, run: RunId,
                                                          payload: string, visibility: Visibility, outputs: seq<Output>, started: int, completed: int)
    requires Kept(h, s) && Unused(s, run, p, w, f) && OutputsValid(run, outputs)
    ensures var t := Undisturbed(h, s, p, w, f, run, payload, visibility, started, completed, outputs);
            && run in t.records
            && (t.records[run].status.Succeeded? <==> FitsLimits(h, run, payload, outputs))
            && (FitsLimits(h, run, payload, outputs) ==> t.records[run] == Record(Succeeded, visibility, Some(started), Some(completed), None))
            && (PublicResult(h, presentable, t, run)
                == if FitsLimits(h, run, payload, outputs) && visibility.Public? && presentable(outputs[0].body) then Found(outputs[0].body) else NotFound)
  {
    var c := Worked(h, s, p, w, run, payload, visibility, started, outputs);
    ChainKeeps(h, s, p, w, run, payload, visibility, started, outputs);
    if h.size(SpecDoc(run, payload)) <= WORKER_SPEC_LIMIT {
      UndisturbedRunPublishes(h, s, p, w, f, run, payload, visibility, outputs, started);
      PublishedFinishes(h, presentable, c, f, run, completed);
    } else {
      UnreadableSpecStaysPending(h, s, p, w, f, run, payload, visibility, outputs, started);
      FinalizeRecords(h, c, f, run, completed);
    }
  }

  lemma {:induction false} PublishedFinishes(h: Hashing, presentable: Body -> bool, c: World, f: nat, run: RunId, completed: int)
    requires Kept(h, c) && f !in c.finalizers && Key(run, Checksums) in c.objects
    requires run in c.records && c.records[run].status.Running?
    ensures var t, fits := Finalize(h, c, f, run, completed), WithinLimits(h, c.objects, run);
            && run in t.records && Key(run, ResultJson) in c.objects
            && t.records[run] == (if fits then c.records[run].(status := Succeeded, completedAt := Some(completed)) else c.records[run])
            && (PublicResult(h, presentable, t, run)
                == if fits && c.records[run].visibility.Public? && presentable(c.objects[Key(run, ResultJson)])
                   then Found(c.objects[Key(run, ResultJson)]) else NotFound)
  {
    assert RunKept(h, c, run);
    VerifiedExactly(h, c, run);
    FinalizeRecords(h, c, f, run, completed);
    FinalizeKeeps(h, c, f, run, completed);
    var t := Finalize(h, c, f, run, completed);
    assert RunKept(h, t, run);
    PublicResultWhenKept(h, presentable, t, run);
  }

  // ----- a specification between the two limits

  /** Any steps of any processes. */
  function Continue(h: Hashing, s: World, steps: seq<Step>): World {
    if steps == [] then s else Next(h, Continue(h, s, steps[..|steps| - 1]), steps[|steps| - 1])
  }

  lemma {:induction false} ContinueKeeps(h: Hashing, s: World, steps: seq<Step>)
    requires Kept(h, s)
    ensures Kept(h, Continue(h, s, steps)) && Extends(s.objects, Continue(h, s, steps).objects)
  {
    if steps != [] {
      var before := Continue(h, s, steps[..|steps| - 1]);
      ContinueKeeps(h, s, steps[..|steps| - 1]);
      StepKeeps(h, before, steps[|steps| - 1]);
      StepOnlyAddsObjects(h, before, steps[|steps| - 1]);
    }
  }

  /** The worker reads specifications of up to 128 KiB, the finalizer of up to 64 KiB. From every state that satisfies
      the invariant, a run between the two, undisturbed, is executed and published in full, manifest included, and
      whatever happens afterwards it never succeeds. */
  lemma {:induction false} LargeSpecIsPublishedInVain(h: Hashing, s: World, p: nat, w: nat, f: nat, run: RunId, payload: string,
                                                       visibility: Visibility, outputs: seq<Output>, started: int, later: seq<Step>)
    requires Kept(h, s) && Unused(s, run, p, w, f) && OutputsValid(run, outputs)
    requires 64 * 1024 < h.size(SpecDoc(run, payload)) <= 128 * 1024
    ensures var t := Worked(h, s, p, w, run, payload, visibility, started, outputs);
            && run in t.records && t.records[run].status.Running? && Complete(h, t.objects, run)
            && var u := Continue(h, t, later); run in u.records ==> !u.records[run].status.Succeeded?
  {
    var t := Worked(h, s, p, w, run, payload, visibility, started, outputs);
    UndisturbedRunPublishes(h, s, p, w, f, run, payload, visibility, outputs, started);
    ChainKeeps(h, s, p, w, run, payload, visibility, started, outputs);
    assert RunKept(h, t, run);
    KeptIsComplete(h, t.objects, run);
    ContinueKeeps(h, t, later);
    var u := Continue(h, t, later);
    assert RunKept(h, u, run);
    assert u.objects[Key(run, RunSpec)] == SpecDoc(run, payload);
  }
}
