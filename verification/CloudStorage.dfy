/** The write-once object store and the conditionally updated run records. Documents are values; their byte
    length and SHA-256 are arbitrary functions, so no absence of collisions is assumed. */
module CloudStorage {
  import opened Market

  type RunId = string

  /** The objects under `runs/v1/{run}/`. */
  datatype Name = RunSpec | ResultJson | Trades | EquityCurve | ReportHtml | Checksums

  datatype Key = Key(run: RunId, name: Name)

  datatype Digest = Digest(name: Name, size: nat, sha: string)

  datatype Body =
    | SpecDoc(run: RunId, payload: string)
    | ResultDoc(run: RunId, payload: string)
    | ManifestDoc(entries: seq<Digest>)
    | Blob(bytes: string)

  datatype Hashing = Hashing(size: Body -> nat, sha: Body -> string) {
    function Of(name: Name, body: Body): Digest {
      Digest(name, size(body), sha(body))
    }
  }

  type Objects = map<Key, Body>

  /** `S3ObjectStore.put`: a new key is written; an existing one is accepted only if its length and digest
      allow it to be the same object; `None` is the immutable-object conflict. */
  function Put(h: Hashing, objects: Objects, key: Key, body: Body): Option<Objects> {
    if key !in objects then Some(objects[key := body])
    else if h.size(objects[key]) <= h.size(body) && h.sha(objects[key]) == h.sha(body) then Some(objects)
    else None
  }

  function Get(h: Hashing, objects: Objects, key: Key, maximum: nat): Option<Body> {
    if key in objects && h.size(objects[key]) <= maximum then Some(objects[key]) else None
  }

  datatype Status = Pending | Running | Succeeded | Failed

  datatype Visibility = Public | Private

  datatype FailureCode = AcquisitionFailed | PreparationFailed | WorkerFailed | VerificationFailed | TimedOut

  datatype Record = Record(status: Status, visibility: Visibility, startedAt: Option<int>, completedAt: Option<int>, failure: Option<FailureCode>) {
    predicate Terminal() {
      status.Succeeded? || status.Failed?
    }
  }

  type Records = map<RunId, Record>

  /** Each transition is one conditional write; `None` is the rejected condition. */
  function CreatePending(records: Records, run: RunId, visibility: Visibility): Option<Records> {
    if run in records then None else Some(records[run := Record(Pending, visibility, None, None, None)])
  }

  function MarkRunning(records: Records, run: RunId, now: int): Option<Records> {
    if run in records && records[run].status.Pending?
    then Some(records[run := records[run].(status := Running, startedAt := Some(now))]) else None
  }

  function MarkSucceeded(records: Records, run: RunId, now: int): Option<Records> {
    if run in records && (records[run].status.Running? || (records[run].status.Succeeded? && records[run].completedAt == Some(now)))
    then Some(records[run := records[run].(status := Succeeded, completedAt := Some(now))]) else None
  }

  function MarkFailed(records: Records, run: RunId, code: FailureCode, now: int): Option<Records> {
    if run in records
       && (records[run].status.Pending? || records[run].status.Running?
           || (records[run].status.Failed? && records[run].failure == Some(code) && records[run].completedAt == Some(now)))
    then Some(records[run := records[run].(status := Failed, failure := Some(code), completedAt := Some(now))]) else None
  }

  /** One record is replaced, its visibility kept, and every other one stands. */
  ghost predicate Rewritten(before: Records, after: Records, run: RunId, status: Status, startedAt: Option<int>, completedAt: Option<int>,
                            failure: Option<FailureCode>)
  {
    run in before && after == before[run := Record(status, before[run].visibility, startedAt, completedAt, failure)]
  }

  /** The two adapters as objects over the stored state. */
  class ObjectStore {
    var objects: Objects
    const h: Hashing

    constructor (h: Hashing)
      ensures this.h == h && objects == map[]
    {
      this.h := h;
      objects := map[];
    }

    /** A successful put leaves an object with the wanted digest under the key and never replaces one. */
    method PutObject(key: Key, body: Body) returns (stored: bool)
      modifies this
      ensures stored <==> Put(h, old(objects), key, body).Some?
      ensures stored ==> objects == Put(h, old(objects), key, body).value && key in objects && h.sha(objects[key]) == h.sha(body)
      ensures !stored ==> objects == old(objects)
      ensures key !in old(objects) ==> stored && objects == old(objects)[key := body]
      ensures key in old(objects) && old(objects)[key] == body ==> stored && objects == old(objects)
      ensures key in old(objects) && (h.sha(old(objects)[key]) != h.sha(body) || h.size(old(objects)[key]) > h.size(body)) ==> !stored
      ensures forall k :: k in old(objects) ==> k in objects && objects[k] == old(objects)[k]
    {
      if key in objects {
        var existing := Get(h, objects, key, h.size(body));
        return existing.Some? && h.sha(existing.value) == h.sha(body);
      }
      objects := objects[key := body];
      stored := true;
    }
  }

  class RunRepository {
    var records: Records

    constructor ()
      ensures records == map[]
    {
      records := map[];
    }

    method Create(run: RunId, visibility: Visibility) returns (accepted: bool)
      modifies this
      ensures accepted <==> run !in old(records)
      ensures records == if accepted then CreatePending(old(records), run, visibility).value else old(records)
      ensures accepted ==> records == old(records)[run := Record(Pending, visibility, None, None, None)]
    {
      if run in records {
        return false;
      }
      records := records[run := Record(Pending, visibility, None, None, None)];
      accepted := true;
    }

    method Start(run: RunId, now: int) returns (accepted: bool)
      modifies this
      ensures accepted <==> MarkRunning(old(records), run, now).Some?
      ensures records == if accepted then MarkRunning(old(records), run, now).value else old(records)
      ensures accepted <==> run in old(records) && old(records)[run].status == Pending
      ensures accepted ==> Rewritten(old(records), records, run, Running, Some(now), old(records)[run].completedAt, old(records)[run].failure)
    {
      if run !in records || records[run].status != Pending {
        return false;
      }
      records := records[run := records[run].(status := Running, startedAt := Some(now))];
      accepted := true;
    }

    /** A terminal record is never changed by either completion. */
    method Succeed(run: RunId, now: int) returns (accepted: bool)
      modifies this
      ensures accepted <==> MarkSucceeded(old(records), run, now).Some?
      ensures records == if accepted then MarkSucceeded(old(records), run, now).value else old(records)
      ensures run in old(records) && old(records)[run].status == Running ==> accepted
      ensures run in old(records) && !old(records)[run].Terminal() && accepted ==>
                Rewritten(old(records), records, run, Succeeded, old(records)[run].startedAt, Some(now), old(records)[run].failure)
      ensures run in old(records) && old(records)[run].Terminal() ==> records == old(records)
    {
      if run !in records {
        return false;
      }
      var r := records[run];
      if r.status == Running || (r.status == Succeeded && r.completedAt == Some(now)) {
        records := records[run := r.(status := Succeeded, completedAt := Some(now))];
        return true;
      }
      accepted := false;
    }

    method Fail(run: RunId, code: FailureCode, now: int) returns (accepted: bool)
      modifies this
      ensures accepted <==> MarkFailed(old(records), run, code, now).Some?
      ensures records == if accepted then MarkFailed(old(records), run, code, now).value else old(records)
      ensures run in old(records) && !old(records)[run].Terminal() ==>
                accepted && Rewritten(old(records), records, run, Failed, old(records)[run].startedAt, Some(now), Some(code))
      ensures run in old(records) && old(records)[run].Terminal() ==> records == old(records)
    {
      if run !in records {
        return false;
      }
      var r := records[run];
      if r.status == Pending || r.status == Running
         || (r.status == Failed && r.failure == Some(code) && r.completedAt == Some(now)) {
        records := records[run := r.(status := Failed, failure := Some(code), completedAt := Some(now))];
        return true;
      }
      accepted := false;
    }
  }
}
