/** The cloud run protocol: any number of preparers, workers and finalizers, interleaved step by step, each
    able to stop at any point, over one object store and one table of run records. */
module CloudRuns {
  import opened Market
  import opened CloudStorage

  datatype Output = Output(name: Name, body: Body)

  /** `prepare_run` writes the specification, then the pending record. */
  datatype Preparer = Specified(run: RunId, visibility: Visibility) | PreparerDone

  /** `execute_run`: read the specification, take the run, compute, put the four outputs in order, and the
      checksums last. */
  datatype Worker =
    | Admitted(run: RunId, spec: Body)
    | Computing(run: RunId, spec: Body)
    | Publishing(run: RunId, spec: Body, outputs: seq<Output>, next: nat)
    | WorkerDone(run: RunId)
    | WorkerDead

  /** `finalize_success`: read the checksums, verify each artifact, then mark. */
  datatype Finalizer = Verifying(run: RunId, entries: seq<Digest>, next: nat) | FinalizerDone

  datatype Grant = Grant(run: RunId, worker: nat)

  /** `grants` records every PENDING to RUNNING transition. */
  datatype World = World(objects: Objects, records: Records, preparers: map<nat, Preparer>, workers: map<nat, Worker>,
                         finalizers: map<nat, Finalizer>, grants: seq<Grant>)

  const INITIAL := World(map[], map[], map[], map[], map[], [])

  const WORKER_SPEC_LIMIT := 128 * 1024

  /** `ARTIFACT_MAXIMUM_BYTES`. */
  function Limit(name: Name): nat {
    match name
    case RunSpec => 64 * 1024
    case ResultJson => 64 * 1024
    case Trades => 16 * 1024 * 1024
    case EquityCurve => 32 * 1024 * 1024
    case ReportHtml => 8 * 1024 * 1024
    case Checksums => 32 * 1024
  }

  predicate Required(name: Name) {
    !name.Checksums?
  }

  /** Every required artifact exactly once. */
  predicate ManifestValid(entries: seq<Digest>) {
    && (forall i :: 0 <= i < |entries| ==> Required(entries[i].name))
    && (forall i, j :: 0 <= i < j < |entries| ==> entries[i].name != entries[j].name)
    && |entries| == 5
  }

  predicate OutputsValid(run: RunId, outputs: seq<Output>) {
    && |outputs| == 4
    && outputs[0].name == ResultJson && outputs[1].name == Trades && outputs[2].name == EquityCurve && outputs[3].name == ReportHtml
    && outputs[0].body.ResultDoc? && outputs[0].body.run == run
  }

  function Digests(h: Hashing, spec: Body, outputs: seq<Output>): seq<Digest>
    requires |outputs| == 4
  {
    [h.Of(RunSpec, spec), h.Of(outputs[0].name, outputs[0].body), h.Of(outputs[1].name, outputs[1].body),
     h.Of(outputs[2].name, outputs[2].body), h.Of(outputs[3].name, outputs[3].body)]
  }

  datatype Step =
    | PutSpec(p: nat, run: RunId, payload: string, visibility: Visibility)
    | PutRecord(p: nat)
    | Admit(w: nat, run: RunId)
    | Take(w: nat, now: int)
    | Compute(w: nat, outputs: seq<Output>)
    | PutOutput(w: nat)
    | PutChecksums(w: nat)
    | Kill(w: nat)
    | ReadChecksums(f: nat, run: RunId)
    | VerifyNext(f: nat)
    | MarkSuccess(f: nat, now: int)
    | MarkFailure(run: RunId, code: FailureCode, now: int)

  function DoPutSpec(h: Hashing, s: World, p: nat, run: RunId, payload: string, visibility: Visibility): World {
    if p in s.preparers then s
    else
      var objects := Put(h, s.objects, Key(run, RunSpec), SpecDoc(run, payload));
      if objects.None? then s.(preparers := s.preparers[p := PreparerDone])
      else s.(objects := objects.value, preparers := s.preparers[p := Specified(run, visibility)])
  }

  function DoPutRecord(s: World, p: nat): World {
    if p !in s.preparers || !s.preparers[p].Specified? then s
    else
      var records := CreatePending(s.records, s.preparers[p].run, s.preparers[p].visibility);
      s.(records := if records.Some? then records.value else s.records, preparers := s.preparers[p := PreparerDone])
  }

  function DoAdmit(h: Hashing, s: World, w: nat, run: RunId): World {
    if w in s.workers then s
    else
      var spec := Get(h, s.objects, Key(run, RunSpec), WORKER_SPEC_LIMIT);
      s.(workers := s.workers[w := if spec.Some? && spec.value.SpecDoc? && spec.value.run == run then Admitted(run, spec.value) else WorkerDead])
  }

  function DoTake(s: World, w: nat, now: int): World {
    if w !in s.workers || !s.workers[w].Admitted? then s
    else
      var a := s.workers[w];
      var records := MarkRunning(s.records, a.run, now);
      if records.None? then s.(workers := s.workers[w := WorkerDead])
      else s.(records := records.value, workers := s.workers[w := Computing(a.run, a.spec)], grants := s.grants + [Grant(a.run, w)])
  }

  function DoCompute(s: World, w: nat, outputs: seq<Output>): World {
    if w !in s.workers || !s.workers[w].Computing? || !OutputsValid(s.workers[w].run, outputs) then s
    else s.(workers := s.workers[w := Publishing(s.workers[w].run, s.workers[w].spec, outputs, 0)])
  }

  function DoPutOutput(h: Hashing, s: World, w: nat): World {
    if w !in s.workers || !s.workers[w].Publishing? || s.workers[w].next >= |s.workers[w].outputs| then s
    else
      var p := s.workers[w];
      var objects := Put(h, s.objects, Key(p.run, p.outputs[p.next].name), p.outputs[p.next].body);
      if objects.None? then s.(workers := s.workers[w := WorkerDead])
      else s.(objects := objects.value, workers := s.workers[w := p.(next := p.next + 1)])
  }

  function DoPutChecksums(h: Hashing, s: World, w: nat): World {
    if w !in s.workers || !s.workers[w].Publishing? || s.workers[w].next != 4 || |s.workers[w].outputs| != 4 then s
    else
      var p := s.workers[w];
      var objects := Put(h, s.objects, Key(p.run, Checksums), ManifestDoc(Digests(h, p.spec, p.outputs)));
      if objects.None? then s.(workers := s.workers[w := WorkerDead])
      else s.(objects := objects.value, workers := s.workers[w := WorkerDone(p.run)])
  }

  function DoKill(s: World, w: nat): World {
    s.(workers := s.workers[w := WorkerDead])
  }

  function DoReadChecksums(h: Hashing, s: World, f: nat, run: RunId): World {
    if f in s.finalizers then s
    else
      var body := Get(h, s.objects, Key(run, Checksums), Limit(Checksums));
      s.(finalizers := s.finalizers[f := if body.Some? && body.value.ManifestDoc? && ManifestValid(body.value.entries)
                                         then Verifying(run, body.value.entries, 0) else FinalizerDone])
  }

  function DoVerifyNext(h: Hashing, s: World, f: nat): World {
    if f !in s.finalizers || !s.finalizers[f].Verifying? || s.finalizers[f].next >= |s.finalizers[f].entries| then s
    else
      var v := s.finalizers[f];
      s.(finalizers := s.finalizers[f := if Verifies(h, s.objects, v.run, v.entries[v.next]) then v.(next := v.next + 1) else FinalizerDone])
  }

  function DoMarkSuccess(s: World, f: nat, now: int): World {
    if f !in s.finalizers || !s.finalizers[f].Verifying? || s.finalizers[f].next != |s.finalizers[f].entries| then s
    else
      var run := s.finalizers[f].run;
      var records := MarkSucceeded(s.records, run, now);
      s.(records := if ResultNames(s.objects, run) && records.Some? then records.value else s.records,
         finalizers := s.finalizers[f := FinalizerDone])
  }

  function DoMarkFailure(s: World, run: RunId, code: FailureCode, now: int): World {
    var records := MarkFailed(s.records, run, code, now);
    s.(records := if records.Some? then records.value else s.records)
  }

  /** One step of one process; a step that does not apply changes nothing. */
  function Next(h: Hashing, s: World, step: Step): World {
    match step
    case PutSpec(p, run, payload, visibility) => DoPutSpec(h, s, p, run, payload, visibility)
    case PutRecord(p) => DoPutRecord(s, p)
    case Admit(w, run) => DoAdmit(h, s, w, run)
    case Take(w, now) => DoTake(s, w, now)
    case Compute(w, outputs) => DoCompute(s, w, outputs)
    case PutOutput(w) => DoPutOutput(h, s, w)
    case PutChecksums(w) => DoPutChecksums(h, s, w)
    case Kill(w) => DoKill(s, w)
    case ReadChecksums(f, run) => DoReadChecksums(h, s, f, run)
    case VerifyNext(f) => DoVerifyNext(h, s, f)
    case MarkSuccess(f, now) => DoMarkSuccess(s, f, now)
    case MarkFailure(run, code, now) => DoMarkFailure(s, run, code, now)
  }

  /** One artifact is there, within its limit, and has the manifest's length and digest. */
  predicate Verifies(h: Hashing, objects: Objects, run: RunId, e: Digest) {
    var body := Get(h, objects, Key(run, e.name), Limit(e.name));
    body.Some? && h.size(body.value) == e.size && h.sha(body.value) == e.sha
  }

  /** `_verify_result_run_id`. */
  predicate ResultNames(objects: Objects, run: RunId) {
    Key(run, ResultJson) in objects && objects[Key(run, ResultJson)].ResultDoc? && objects[Key(run, ResultJson)].run == run
  }

  // ----- the invariant

  ghost predicate Granted(s: World, run: RunId) {
    exists i :: 0 <= i < |s.grants| && s.grants[i].run == run
  }

  ghost predicate GrantedTo(s: World, run: RunId, w: nat) {
    exists i :: 0 <= i < |s.grants| && s.grants[i] == Grant(run, w)
  }

  ghost predicate NoOutputs(objects: Objects, run: RunId) {
    forall n: Name :: n != RunSpec ==> Key(run, n) !in objects
  }

  /** An entry of a manifest is matched by the stored artifact. */
  ghost predicate Matches(h: Hashing, objects: Objects, run: RunId, e: Digest) {
    Key(run, e.name) in objects && h.Of(e.name, objects[Key(run, e.name)]) == e
  }

  /** A manifest, if there is one, lists every required artifact, and each is there and matches it. */
  ghost predicate ManifestKept(h: Hashing, objects: Objects, run: RunId) {
    Key(run, Checksums) in objects ==>
      var m := objects[Key(run, Checksums)];
      && m.ManifestDoc? && ManifestValid(m.entries)
      && (forall i :: 0 <= i < |m.entries| ==> Matches(h, objects, run, m.entries[i]))
      && ResultNames(objects, run)
  }

  ghost predicate RecordKept(h: Hashing, s: World, run: RunId) {
    && (Granted(s, run) ==> run in s.records && !s.records[run].status.Pending?)
    && (run in s.records ==>
          var r := s.records[run];
          && (r.status.Running? || r.status.Succeeded? ==> Granted(s, run) && r.startedAt.Some? && r.failure.None?)
          && (r.Terminal() ==> r.completedAt.Some?)
          && (r.status.Pending? ==> r.failure.None?)
          && (r.status.Succeeded? ==> Key(run, Checksums) in s.objects && WithinLimits(h, s.objects, run)))
  }

  /** Every artifact the manifest lists is small enough to be verified. */
  ghost predicate WithinLimits(h: Hashing, objects: Objects, run: RunId) {
    forall n: Name :: Key(run, n) in objects ==> h.size(objects[Key(run, n)]) <= Limit(n)
  }

  ghost predicate RunKept(h: Hashing, s: World, run: RunId) {
    && (!Granted(s, run) ==> NoOutputs(s.objects, run))
    && ManifestKept(h, s.objects, run)
    && RecordKept(h, s, run)
  }

  ghost predicate SpecIs(s: World, run: RunId, spec: Body) {
    Key(run, RunSpec) in s.objects && s.objects[Key(run, RunSpec)] == spec
  }

  ghost predicate WorkerKept(s: World, w: nat, p: Worker) {
    match p
    case Admitted(run, spec) => SpecIs(s, run, spec)
    case Computing(run, spec) => SpecIs(s, run, spec) && GrantedTo(s, run, w) && NoOutputs(s.objects, run)
    case Publishing(run, spec, outputs, next) =>
      && SpecIs(s, run, spec) && GrantedTo(s, run, w) && OutputsValid(run, outputs) && next <= 4
      && Key(run, Checksums) !in s.objects
      && (forall i :: 0 <= i < next ==> Key(run, outputs[i].name) in s.objects && s.objects[Key(run, outputs[i].name)] == outputs[i].body)
      && (forall i :: next <= i < 4 ==> Key(run, outputs[i].name) !in s.objects)
    case WorkerDone(run) => true
    case WorkerDead => true
  }

  ghost predicate FinalizerKept(h: Hashing, s: World, v: Finalizer) {
    v.Verifying? ==>
      && Key(v.run, Checksums) in s.objects && s.objects[Key(v.run, Checksums)] == ManifestDoc(v.entries) && ManifestValid(v.entries)
      && h.size(ManifestDoc(v.entries)) <= Limit(Checksums)
      && v.next <= |v.entries|
      && forall i :: 0 <= i < v.next ==> Verifies(h, s.objects, v.run, v.entries[i])
  }

  ghost predicate OneGrantPerRun(grants: seq<Grant>) {
    forall i, j :: 0 <= i < j < |grants| ==> grants[i].run != grants[j].run
  }

  ghost predicate Kept(h: Hashing, s: World) {
    && OneGrantPerRun(s.grants)
    && (forall run :: RunKept(h, s, run))
    && (forall w :: w in s.workers ==> WorkerKept(s, w, s.workers[w]))
    && (forall f :: f in s.finalizers ==> FinalizerKept(h, s, s.finalizers[f]))
  }

  // ----- what one step may change

  lemma {:induction false} GrantsAreExclusive(s: World, run: RunId, v: nat, w: nat)
    requires OneGrantPerRun(s.grants) && GrantedTo(s, run, v) && GrantedTo(s, run, w)
    ensures v == w
  {
  }

  /** Writing one new object of a run leaves what is known about every other run, and every other worker. */
  ghost predicate OneObjectAdded(s: World, t: World, key: Key, body: Body) {
    key !in s.objects && t.objects == s.objects[key := body] && t.records == s.records && t.grants == s.grants
  }

  lemma {:induction false} OtherWorkersKept(s: World, t: World, key: Key, body: Body, w: nat)
    requires OneObjectAdded(s, t, key, body) && w in s.workers && WorkerKept(s, w, s.workers[w])
    requires key.name == RunSpec || (s.workers[w].Computing? || s.workers[w].Publishing? ==> s.workers[w].run != key.run)
    ensures WorkerKept(t, w, s.workers[w])
  {
    match s.workers[w]
    case Admitted(_, _) =>
    case Computing(_, _) =>
    case Publishing(run, spec, outputs, next) =>
      forall i | 0 <= i < 4
        ensures Key(run, outputs[i].name) in t.objects <==> Key(run, outputs[i].name) in s.objects
      {
        assert outputs[i].name != RunSpec;
      }
    case WorkerDone(_) =>
    case WorkerDead =>
  }

  lemma {:induction false} FinalizersKept(h: Hashing, s: World, t: World, key: Key, body: Body, v: Finalizer)
    requires OneObjectAdded(s, t, key, body) && FinalizerKept(h, s, v)
    ensures FinalizerKept(h, t, v)
  {
  }

  /** Adding an object that is not the manifest keeps every run; if it is an output its run must be granted. */
  lemma {:induction false} RunsKeptByPut(h: Hashing, s: World, t: World, key: Key, body: Body, run: RunId)
    requires OneObjectAdded(s, t, key, body) && RunKept(h, s, run)
    requires key.name == RunSpec || Granted(s, key.run)
    requires key.name != Checksums
    requires key.run == run && run in s.records ==> !s.records[run].status.Succeeded?
    ensures RunKept(h, t, run)
  {
    if key.run == run && Key(run, Checksums) in s.objects {
      var m := s.objects[Key(run, Checksums)];
      forall i | 0 <= i < |m.entries|
        ensures Matches(h, t.objects, run, m.entries[i])
      {
        assert Matches(h, s.objects, run, m.entries[i]);
      }
    }
    assert Granted(t, run) <==> Granted(s, run);
  }

  /** Five distinct required names are all of them. */
  lemma {:induction false} ManifestCovers(entries: seq<Digest>, name: Name)
    requires ManifestValid(entries) && Required(name)
    ensures exists i :: 0 <= i < |entries| && entries[i].name == name
  {
    var a, b, c, d, e := entries[0].name, entries[1].name, entries[2].name, entries[3].name, entries[4].name;
    assert a != b && a != c && a != d && a != e && b != c && b != d && b != e && c != d && c != e && d != e;
    assert name == a || name == b || name == c || name == d || name == e;
  }

  /** Where there is a manifest there is a specification. */
  lemma {:induction false} ManifestHasSpec(h: Hashing, objects: Objects, run: RunId)
    requires ManifestKept(h, objects, run) && Key(run, Checksums) in objects
    ensures Key(run, RunSpec) in objects
  {
    var m := objects[Key(run, Checksums)];
    ManifestCovers(m.entries, RunSpec);
    var i :| 0 <= i < |m.entries| && m.entries[i].name == RunSpec;
    assert Matches(h, objects, run, m.entries[i]);
  }

  // ----- steps that only move a process

  /** Only who is where changed. */
  ghost predicate SameStorage(s: World, t: World) {
    t.objects == s.objects && t.records == s.records && t.grants == s.grants
  }

  lemma {:induction false} RunIgnoresProcesses(h: Hashing, s: World, t: World, run: RunId)
    requires SameStorage(s, t) && RunKept(h, s, run)
    ensures RunKept(h, t, run)
  {
    assert Granted(t, run) <==> Granted(s, run);
  }

  lemma {:induction false} WorkerIgnoresProcesses(s: World, t: World, w: nat, p: Worker)
    requires SameStorage(s, t) && WorkerKept(s, w, p)
    ensures WorkerKept(t, w, p)
  {
    match p
    case Admitted(_, _) =>
    case Computing(run, _) => assert GrantedTo(t, run, w) <==> GrantedTo(s, run, w);
    case Publishing(run, _, _, _) => assert GrantedTo(t, run, w) <==> GrantedTo(s, run, w);
    case WorkerDone(_) =>
    case WorkerDead =>
  }

  lemma {:induction false} MoveWorker(h: Hashing, s: World, w: nat, p: Worker)
    requires Kept(h, s) && WorkerKept(s, w, p)
    ensures Kept(h, s.(workers := s.workers[w := p]))
  {
    var t := s.(workers := s.workers[w := p]);
    forall run
      ensures RunKept(h, t, run)
    {
      RunIgnoresProcesses(h, s, t, run);
    }
    forall v | v in t.workers
      ensures WorkerKept(t, v, t.workers[v])
    {
      WorkerIgnoresProcesses(s, t, v, t.workers[v]);
    }
  }

  lemma {:induction false} MoveFinalizer(h: Hashing, s: World, f: nat, v: Finalizer)
    requires Kept(h, s) && FinalizerKept(h, s, v)
    ensures Kept(h, s.(finalizers := s.finalizers[f := v]))
  {
    var t := s.(finalizers := s.finalizers[f := v]);
    forall run
      ensures RunKept(h, t, run)
    {
      RunIgnoresProcesses(h, s, t, run);
    }
    forall w | w in t.workers
      ensures WorkerKept(t, w, t.workers[w])
    {
      WorkerIgnoresProcesses(s, t, w, t.workers[w]);
    }
  }

  lemma {:induction false} MovePreparer(h: Hashing, s: World, p: nat, q: Preparer)
    requires Kept(h, s)
    ensures Kept(h, s.(preparers := s.preparers[p := q]))
  {
    var t := s.(preparers := s.preparers[p := q]);
    forall run
      ensures RunKept(h, t, run)
    {
      RunIgnoresProcesses(h, s, t, run);
    }
    forall w | w in t.workers
      ensures WorkerKept(t, w, t.workers[w])
    {
      WorkerIgnoresProcesses(s, t, w, t.workers[w]);
    }
  }

  // ----- steps that write an object

  lemma {:induction false} SpecWritten(h: Hashing, s: World, run: RunId, body: Body)
    requires Kept(h, s) && Key(run, RunSpec) !in s.objects
    ensures Kept(h, s.(objects := s.objects[Key(run, RunSpec) := body]))
  {
    var key := Key(run, RunSpec);
    var t := s.(objects := s.objects[key := body]);
    forall r
      ensures RunKept(h, t, r)
    {
      assert RunKept(h, s, r);
      if r == run && run in s.records && s.records[run].status.Succeeded? {
        ManifestHasSpec(h, s.objects, run);
      }
      RunsKeptByPut(h, s, t, key, body, r);
    }
    forall w | w in t.workers
      ensures WorkerKept(t, w, t.workers[w])
    {
      OtherWorkersKept(s, t, key, body, w);
    }
    forall f | f in t.finalizers
      ensures FinalizerKept(h, t, t.finalizers[f])
    {
      FinalizersKept(h, s, t, key, body, s.finalizers[f]);
    }
  }

  /** A worker that holds a run is the only one that does. */
  lemma {:induction false} SoleHolder(h: Hashing, s: World, w: nat, v: nat)
    requires Kept(h, s) && w in s.workers && s.workers[w].Publishing? && v in s.workers && v != w
    requires s.workers[v].Computing? || s.workers[v].Publishing?
    ensures s.workers[v].run != s.workers[w].run
  {
    assert WorkerKept(s, w, s.workers[w]) && WorkerKept(s, v, s.workers[v]);
    if s.workers[v].run == s.workers[w].run {
      GrantsAreExclusive(s, s.workers[w].run, v, w);
    }
  }

  lemma {:induction false} GrantedToIsGranted(s: World, run: RunId, w: nat)
    requires GrantedTo(s, run, w)
    ensures Granted(s, run)
  {
    var i :| 0 <= i < |s.grants| && s.grants[i] == Grant(run, w);
    assert s.grants[i].run == run;
  }

  lemma {:induction false} OutputWritten(h: Hashing, s: World, w: nat)
    requires Kept(h, s) && w in s.workers && s.workers[w].Publishing? && s.workers[w].next < 4
    ensures |s.workers[w].outputs| == 4
    ensures var p := s.workers[w];
            var o := p.outputs[p.next];
            && Key(p.run, o.name) !in s.objects
            && Kept(h, s.(objects := s.objects[Key(p.run, o.name) := o.body], workers := s.workers[w := p.(next := p.next + 1)]))
  {
    var p := s.workers[w];
    assert WorkerKept(s, w, p);
    var o := p.outputs[p.next];
    var key, moved := Key(p.run, o.name), p.(next := p.next + 1);
    var t := s.(objects := s.objects[key := o.body], workers := s.workers[w := moved]);
    GrantedToIsGranted(s, p.run, w);
    forall r
      ensures RunKept(h, t, r)
    {
      assert RunKept(h, s, r);
      RunsKeptByPut(h, s, t, key, o.body, r);
    }
    PublisherAdvances(s, t, w);
    forall v | v in t.workers
      ensures WorkerKept(t, v, t.workers[v])
    {
      if v != w {
        if s.workers[v].Computing? || s.workers[v].Publishing? {
          SoleHolder(h, s, w, v);
        }
        OtherWorkersKept(s, t, key, o.body, v);
      }
    }
    forall f | f in t.finalizers
      ensures FinalizerKept(h, t, t.finalizers[f])
    {
      FinalizersKept(h, s, t, key, o.body, s.finalizers[f]);
    }
  }

  lemma {:induction false} PublisherAdvances(s: World, t: World, w: nat)
    requires w in s.workers && s.workers[w].Publishing? && s.workers[w].next < 4 && WorkerKept(s, w, s.workers[w])
    requires var p := s.workers[w];
             OneObjectAdded(s, t, Key(p.run, p.outputs[p.next].name), p.outputs[p.next].body)
    ensures WorkerKept(t, w, s.workers[w].(next := s.workers[w].next + 1))
  {
    var p := s.workers[w];
    assert GrantedTo(t, p.run, w) <==> GrantedTo(s, p.run, w);
  }

  /** With all outputs there, the digests taken on the way are those of the stored artifacts. */
  lemma {:induction false} ManifestWritten(h: Hashing, s: World, t: World, w: nat)
    requires w in s.workers && s.workers[w].Publishing? && s.workers[w].next == 4 && WorkerKept(s, w, s.workers[w])
    requires var p := s.workers[w]; OneObjectAdded(s, t, Key(p.run, Checksums), ManifestDoc(Digests(h, p.spec, p.outputs)))
    ensures ManifestKept(h, t.objects, s.workers[w].run)
  {
    var p := s.workers[w];
    var entries := Digests(h, p.spec, p.outputs);
    assert ManifestValid(entries);
    assert t.objects[Key(p.run, ResultJson)] == p.outputs[0].body;
    forall i | 0 <= i < 5
      ensures Matches(h, t.objects, p.run, entries[i])
    {
      if i > 0 {
        assert t.objects[Key(p.run, p.outputs[i - 1].name)] == p.outputs[i - 1].body;
      }
    }
  }

  lemma {:induction false} OtherRunsKeptByManifest(h: Hashing, s: World, t: World, key: Key, body: Body, run: RunId)
    requires OneObjectAdded(s, t, key, body) && RunKept(h, s, run) && key.run != run
    ensures RunKept(h, t, run)
  {
    assert Granted(t, run) <==> Granted(s, run);
    if Key(run, Checksums) in s.objects {
      var m := s.objects[Key(run, Checksums)];
      forall i | 0 <= i < |m.entries|
        ensures Matches(h, t.objects, run, m.entries[i])
      {
        assert Matches(h, s.objects, run, m.entries[i]);
      }
    }
  }

  lemma {:induction false} ChecksumsWritten(h: Hashing, s: World, w: nat)
    requires Kept(h, s) && w in s.workers && s.workers[w].Publishing? && s.workers[w].next == 4
    ensures |s.workers[w].outputs| == 4
    ensures var p := s.workers[w];
            && Key(p.run, Checksums) !in s.objects
            && Kept(h, s.(objects := s.objects[Key(p.run, Checksums) := ManifestDoc(Digests(h, p.spec, p.outputs))],
                          workers := s.workers[w := WorkerDone(p.run)]))
  {
    var p := s.workers[w];
    assert WorkerKept(s, w, p);
    var key, body := Key(p.run, Checksums), ManifestDoc(Digests(h, p.spec, p.outputs));
    var t := s.(objects := s.objects[key := body], workers := s.workers[w := WorkerDone(p.run)]);
    GrantedToIsGranted(s, p.run, w);
    ManifestWritten(h, s, t, w);
    forall r
      ensures RunKept(h, t, r)
    {
      assert RunKept(h, s, r);
      if r != p.run {
        OtherRunsKeptByManifest(h, s, t, key, body, r);
      } else {
        assert Granted(t, r) <==> Granted(s, r);
      }
    }
    forall v | v in t.workers
      ensures WorkerKept(t, v, t.workers[v])
    {
      if v != w {
        if s.workers[v].Computing? || s.workers[v].Publishing? {
          SoleHolder(h, s, w, v);
        }
        OtherWorkersKept(s, t, key, body, v);
      }
    }
    forall f | f in t.finalizers
      ensures FinalizerKept(h, t, t.finalizers[f])
    {
      FinalizersKept(h, s, t, key, body, s.finalizers[f]);
    }
  }

  // ----- steps that change a record

  /** Objects and grants stay; one run's record changes to one that is kept. */
  lemma {:induction false} RecordChanges(h: Hashing, s: World, run: RunId, r: Record)
    requires Kept(h, s)
    requires RecordKept(h, s.(records := s.records[run := r]), run)
    ensures Kept(h, s.(records := s.records[run := r]))
  {
    var t := s.(records := s.records[run := r]);
    forall other
      ensures RunKept(h, t, other)
    {
      assert RunKept(h, s, other);
      assert Granted(t, other) <==> Granted(s, other);
      if other != run {
        assert RecordKept(h, s, other);
      }
    }
    forall w | w in t.workers
      ensures WorkerKept(t, w, t.workers[w])
    {
      WorkerIgnoresRecords(s, t, w, t.workers[w]);
    }
  }

  lemma {:induction false} WorkerIgnoresRecords(s: World, t: World, w: nat, p: Worker)
    requires t.objects == s.objects && t.grants == s.grants && WorkerKept(s, w, p)
    ensures WorkerKept(t, w, p)
  {
    match p
    case Admitted(_, _) =>
    case Computing(run, _) => assert GrantedTo(t, run, w) <==> GrantedTo(s, run, w);
    case Publishing(run, _, _, _) => assert GrantedTo(t, run, w) <==> GrantedTo(s, run, w);
    case WorkerDone(_) =>
    case WorkerDead =>
  }

  /** A fully verified run is within the limits, so its success may be recorded. */
  lemma {:induction false} VerifiedWithinLimits(h: Hashing, s: World, v: Finalizer)
    requires v.Verifying? && FinalizerKept(h, s, v) && v.next == |v.entries|
    ensures WithinLimits(h, s.objects, v.run)
  {
    forall n: Name | Key(v.run, n) in s.objects
      ensures h.size(s.objects[Key(v.run, n)]) <= Limit(n)
    {
      if Required(n) {
        ManifestCovers(v.entries, n);
        var i :| 0 <= i < |v.entries| && v.entries[i].name == n;
        assert Verifies(h, s.objects, v.run, v.entries[i]);
      }
    }
  }

  lemma {:induction false} TakeKeeps(h: Hashing, s: World, w: nat, now: int)
    requires Kept(h, s) && w in s.workers && s.workers[w].Admitted? && MarkRunning(s.records, s.workers[w].run, now).Some?
    ensures var a := s.workers[w];
            Kept(h, s.(records := MarkRunning(s.records, a.run, now).value, workers := s.workers[w := Computing(a.run, a.spec)],
                       grants := s.grants + [Grant(a.run, w)]))
  {
    var a := s.workers[w];
    var t := s.(records := MarkRunning(s.records, a.run, now).value, workers := s.workers[w := Computing(a.run, a.spec)],
                grants := s.grants + [Grant(a.run, w)]);
    assert WorkerKept(s, w, a) && RunKept(h, s, a.run);
    assert !Granted(s, a.run);
    GrantAppended(s, t, Grant(a.run, w));
    forall r
      ensures RunKept(h, t, r)
    {
      assert RunKept(h, s, r);
      assert Granted(t, r) <==> Granted(s, r) || r == a.run;
    }
    forall v | v in t.workers
      ensures WorkerKept(t, v, t.workers[v])
    {
      if v != w {
        WorkerKeepsGrant(s, t, v, s.workers[v]);
      }
    }
  }

  lemma {:induction false} GrantAppended(s: World, t: World, g: Grant)
    requires t.grants == s.grants + [g]
    ensures forall r :: Granted(t, r) <==> Granted(s, r) || r == g.run
    ensures forall r, w :: GrantedTo(s, r, w) ==> GrantedTo(t, r, w)
    ensures GrantedTo(t, g.run, g.worker)
  {
    assert t.grants[|s.grants|] == g;
    forall r
      ensures Granted(t, r) <==> Granted(s, r) || r == g.run
    {
      if Granted(s, r) {
        var i :| 0 <= i < |s.grants| && s.grants[i].run == r;
        assert t.grants[i].run == r;
      }
    }
    forall r, w | GrantedTo(s, r, w)
      ensures GrantedTo(t, r, w)
    {
      var i :| 0 <= i < |s.grants| && s.grants[i] == Grant(r, w);
      assert t.grants[i] == Grant(r, w);
    }
  }

  lemma {:induction false} WorkerKeepsGrant(s: World, t: World, w: nat, p: Worker)
    requires t.objects == s.objects && WorkerKept(s, w, p)
    requires forall r, v :: GrantedTo(s, r, v) ==> GrantedTo(t, r, v)
    ensures WorkerKept(t, w, p)
  {
    match p
    case Admitted(_, _) =>
    case Computing(_, _) =>
    case Publishing(_, _, _, _) =>
    case WorkerDone(_) =>
    case WorkerDead =>
  }

  // ----- every step

  lemma {:induction false} PreparerStepKeeps(h: Hashing, s: World, step: Step)
    requires Kept(h, s) && (step.PutSpec? || step.PutRecord?)
    ensures Kept(h, Next(h, s, step))
  {
    match step
    case PutSpec(p, run, payload, visibility) =>
      if p !in s.preparers {
        var key, body := Key(run, RunSpec), SpecDoc(run, payload);
        if key !in s.objects {
          SpecWritten(h, s, run, body);
          MovePreparer(h, s.(objects := s.objects[key := body]), p, Specified(run, visibility));
        } else {
          MovePreparer(h, s, p, PreparerDone);
          MovePreparer(h, s, p, Specified(run, visibility));
        }
      }
    case PutRecord(p) =>
      if p in s.preparers && s.preparers[p].Specified? {
        var run, r := s.preparers[p].run, Record(Pending, s.preparers[p].visibility, None, None, None);
        if run !in s.records {
          var t := s.(records := s.records[run := r]);
          assert RunKept(h, s, run);
          assert Granted(t, run) <==> Granted(s, run);
          RecordChanges(h, s, run, r);
          MovePreparer(h, t, p, PreparerDone);
        } else {
          MovePreparer(h, s, p, PreparerDone);
        }
      }
  }

  lemma {:induction false} WorkerStepKeeps(h: Hashing, s: World, step: Step)
    requires Kept(h, s) && (step.Admit? || step.Take? || step.Compute? || step.Kill?)
    ensures Kept(h, Next(h, s, step))
  {
    match step
    case Admit(w, run) =>
      if w !in s.workers {
        var spec := Get(h, s.objects, Key(run, RunSpec), WORKER_SPEC_LIMIT);
        MoveWorker(h, s, w, if spec.Some? && spec.value.SpecDoc? && spec.value.run == run then Admitted(run, spec.value) else WorkerDead);
      }
    case Take(w, now) =>
      if w in s.workers && s.workers[w].Admitted? {
        if MarkRunning(s.records, s.workers[w].run, now).Some? {
          TakeKeeps(h, s, w, now);
        } else {
          MoveWorker(h, s, w, WorkerDead);
        }
      }
    case Compute(w, outputs) =>
      if w in s.workers && s.workers[w].Computing? && OutputsValid(s.workers[w].run, outputs) {
        var c := s.workers[w];
        assert WorkerKept(s, w, c);
        MoveWorker(h, s, w, Publishing(c.run, c.spec, outputs, 0));
      }
    case Kill(w) =>
      MoveWorker(h, s, w, WorkerDead);
  }

  lemma {:induction false} PublicationKeeps(h: Hashing, s: World, step: Step)
    requires Kept(h, s) && (step.PutOutput? || step.PutChecksums?)
    ensures Kept(h, Next(h, s, step))
  {
    var w := step.w;
    if w in s.workers && s.workers[w].Publishing? {
      assert WorkerKept(s, w, s.workers[w]);
      if step.PutOutput? && s.workers[w].next < 4 {
        OutputWritten(h, s, w);
      } else if step.PutChecksums? && s.workers[w].next == 4 {
        ChecksumsWritten(h, s, w);
      }
    }
  }

  lemma {:induction false} SuccessKeeps(h: Hashing, s: World, f: nat, now: int)
    requires Kept(h, s) && f in s.finalizers && s.finalizers[f].Verifying? && s.finalizers[f].next == |s.finalizers[f].entries|
    requires MarkSucceeded(s.records, s.finalizers[f].run, now).Some?
    ensures Kept(h, s.(records := MarkSucceeded(s.records, s.finalizers[f].run, now).value))
  {
    var v := s.finalizers[f];
    var r := s.records[v.run].(status := Succeeded, completedAt := Some(now));
    var t := s.(records := s.records[v.run := r]);
    assert FinalizerKept(h, s, v) && RunKept(h, s, v.run);
    VerifiedWithinLimits(h, s, v);
    assert Granted(t, v.run) <==> Granted(s, v.run);
    RecordChanges(h, s, v.run, r);
  }

  lemma {:induction false} FinalizerStepKeeps(h: Hashing, s: World, step: Step)
    requires Kept(h, s) && (step.ReadChecksums? || step.VerifyNext? || step.MarkSuccess?)
    ensures Kept(h, Next(h, s, step))
  {
    match step
    case ReadChecksums(f, run) =>
      if f !in s.finalizers {
        MoveFinalizer(h, s, f, Next(h, s, step).finalizers[f]);
      }
    case VerifyNext(f) =>
      if f in s.finalizers && s.finalizers[f].Verifying? && s.finalizers[f].next < |s.finalizers[f].entries| {
        assert FinalizerKept(h, s, s.finalizers[f]);
        MoveFinalizer(h, s, f, Next(h, s, step).finalizers[f]);
      }
    case MarkSuccess(f, now) =>
      if f in s.finalizers && s.finalizers[f].Verifying? && s.finalizers[f].next == |s.finalizers[f].entries| {
        var run := s.finalizers[f].run;
        var records := MarkSucceeded(s.records, run, now);
        if ResultNames(s.objects, run) && records.Some? {
          SuccessKeeps(h, s, f, now);
          MoveFinalizer(h, s.(records := records.value), f, FinalizerDone);
        } else {
          MoveFinalizer(h, s, f, FinalizerDone);
        }
      }
  }

  lemma {:induction false} FailureKeeps(h: Hashing, s: World, run: RunId, code: FailureCode, now: int)
    requires Kept(h, s)
    ensures Kept(h, Next(h, s, MarkFailure(run, code, now)))
  {
    if MarkFailed(s.records, run, code, now).Some? {
      var r := s.records[run].(status := Failed, failure := Some(code), completedAt := Some(now));
      var t := s.(records := s.records[run := r]);
      assert RunKept(h, s, run);
      assert Granted(t, run) <==> Granted(s, run);
      RecordChanges(h, s, run, r);
    }
  }

  lemma {:induction false} StepKeeps(h: Hashing, s: World, step: Step)
    requires Kept(h, s)
    ensures Kept(h, Next(h, s, step))
  {
    match step
    case PutSpec(_, _, _, _) => PreparerStepKeeps(h, s, step);
    case PutRecord(_) => PreparerStepKeeps(h, s, step);
    case Admit(_, _) => WorkerStepKeeps(h, s, step);
    case Take(_, _) => WorkerStepKeeps(h, s, step);
    case Compute(_, _) => WorkerStepKeeps(h, s, step);
    case Kill(_) => WorkerStepKeeps(h, s, step);
    case PutOutput(_) => PublicationKeeps(h, s, step);
    case PutChecksums(_) => PublicationKeeps(h, s, step);
    case ReadChecksums(_, _) => FinalizerStepKeeps(h, s, step);
    case VerifyNext(_) => FinalizerStepKeeps(h, s, step);
    case MarkSuccess(_, _) => FinalizerStepKeeps(h, s, step);
    case MarkFailure(run, code, now) => FailureKeeps(h, s, run, code, now);
  }
}
