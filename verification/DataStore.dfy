/** `DataStore` as the program runs it: an object over the files of one namespace. File operations that may
    fail are parameters; so is what other processes do between two looks at CURRENT. */
module DataStores {
  import opened Market
  import opened Sessions
  import opened Frames
  import opened Store
  import opened Candidates
  import opened Writers

  datatype Outcome =
    | Done(id: string, frame: Frame, manifest: Manifest)
    | Refused
    | Broken
    | Conflicted

  /** What a publication depends on from outside: the complete-request check, the interference before each
      swap, the next identifier, how many file operations succeed, and which report writes do. */
  datatype Outside = Outside(revalidate: Frame -> bool, probe: (nat, Files) -> Files, id: string, done: nat,
                             archiveWritable: bool, pinWritable: bool)

  /** `publish_generation` from a given attempt on. */
  function Attempts(s: Files, work: Work, expected: Option<string>, attempt: nat, outside: Outside): (Files, Outcome)
    decreases MAX_ATTEMPTS + 1 - attempt
  {
    if attempt > MAX_ATTEMPTS then (s, Conflicted)
    else
      var latest := Read(s);
      var assembled := Assemble(latest, work, expected, outside.revalidate(AssembledFrame(latest, work, expected)));
      if assembled.None? then (s, Refused)
      else
        var seen := outside.probe(attempt, s);
        if CurrentId(seen) != latest.Id() then Attempts(seen, work, latest.Id(), attempt + 1, outside)
        else Publication(seen, work, assembled.value.0, assembled.value.1, outside)
  }

  function Publication(s: Files, work: Work, frame: Frame, manifest: Manifest, outside: Outside): (Files, Outcome) {
    if outside.id in s.directories then (s, Broken)
    else
      (Apply(s, Publish(outside.id, frame, work.Ranges(), manifest, outside.done, outside.archiveWritable, outside.pinWritable)),
       if outside.done >= SWAP then Done(outside.id, frame, Embedded(manifest, outside.id, frame)) else Broken)
  }

  class DataStore {
    var directories: map<string, Directory>
    var pointer: Option<Pointer>
    var pins: seq<Pin>
    var archive: map<string, Manifest>

    function Contents(): Files
      reads this
    {
      Files(directories, pointer, pins, archive)
    }

    constructor ()
      ensures Contents() == EMPTY_FILES
    {
      directories, pointer, pins, archive := map[], None, [], map[];
    }

    /** The file operations of `_publish_locked`, one by one; `done` of them succeed. */
    method PublishLocked(id: string, frame: Frame, planned: seq<Range>, manifest: Manifest, done: nat) returns (published: bool)
      modifies this
      ensures Contents() == PublishTo(old(Contents()), id, frame, planned, manifest, done)
      ensures published <==> id !in old(directories) && done >= SWAP
    {
      if id in directories || done == 0 {
        return false;
      }
      ghost var before := directories;
      directories := directories[id := Directory(None, None, None)];
      if done == 1 {
        return false;
      }
      directories := directories[id := directories[id].(bars := Some(frame))];
      assert directories == before[id := Written(id, frame, planned, manifest, 2)];
      if done == 2 {
        return false;
      }
      directories := directories[id := directories[id].(metadata := Some(Metadata(id, planned)))];
      assert directories == before[id := Written(id, frame, planned, manifest, 3)];
      if done == 3 {
        return false;
      }
      directories := directories[id := directories[id].(manifest := Some(manifest.(generation := id, output := frame)))];
      assert directories == before[id := Written(id, frame, planned, manifest, done)];
      if done < SWAP {
        return false;
      }
      var previous := if pointer.None? then None else Some(pointer.value.generation);
      pointer := Some(Pointer(id, previous, frame, Metadata(id, planned), manifest.(generation := id, output := frame)));
      published := true;
    }

    method ArchiveAfterCommit(id: string, manifest: Manifest, archiveWritable: bool, pinWritable: bool) returns (warned: bool)
      modifies this`archive, this`pins
      ensures Contents() == Report(old(Contents()), id, manifest, archiveWritable, pinWritable)
      ensures !warned ==> manifest.acquisition in archive && archive[manifest.acquisition] == manifest
    {
      var archived := Archived(archive, manifest.acquisition, manifest, archiveWritable);
      if archived.Some? {
        archive := archived.value;
        return false;
      }
      var pinned := PinWritten(pins, Pin(id, manifest.acquisition), pinWritable);
      if pinned.Some? {
        pins := pinned.value;
      }
      warned := true;
    }

    method SwapIn(work: Work, frame: Frame, manifest: Manifest, outside: Outside) returns (outcome: Outcome)
      modifies this
      ensures Contents() == Publication(old(Contents()), work, frame, manifest, outside).0
      ensures outcome == Publication(old(Contents()), work, frame, manifest, outside).1
    {
      var published := PublishLocked(outside.id, frame, work.Ranges(), manifest, outside.done);
      if !published {
        return Broken;
      }
      var embedded := Embedded(manifest, outside.id, frame);
      var _ := ArchiveAfterCommit(outside.id, embedded, outside.archiveWritable, outside.pinWritable);
      outcome := Done(outside.id, frame, embedded);
    }

    /** What other processes do to the files while this writer is between its two looks at CURRENT. */
    method Interfere(attempt: nat, outside: Outside)
      modifies this
      ensures Contents() == outside.probe(attempt, old(Contents()))
    {
      var seen := outside.probe(attempt, Contents());
      directories, pointer, pins, archive := seen.directories, seen.pointer, seen.pins, seen.archive;
    }

    /** One attempt: it decides the outcome, or meets a conflict and gives the base of the next attempt. */
    method TryOnce(work: Work, expected: Option<string>, attempt: nat, outside: Outside)
      returns (decided: bool, outcome: Outcome, base: Option<string>)
      requires attempt <= MAX_ATTEMPTS
      modifies this
      ensures decided ==> (Contents(), outcome) == Attempts(old(Contents()), work, expected, attempt, outside)
      ensures !decided ==> Attempts(Contents(), work, base, attempt + 1, outside) == Attempts(old(Contents()), work, expected, attempt, outside)
    {
      var latest := Read(Contents());
      base := latest.Id();
      var assembled := Assemble(latest, work, expected, outside.revalidate(AssembledFrame(latest, work, expected)));
      if assembled.None? {
        return true, Refused, base;
      }
      Interfere(attempt, outside);
      decided, outcome := false, Conflicted;
      if CurrentId(Contents()) == base {
        decided := true;
        outcome := SwapIn(work, assembled.value.0, assembled.value.1, outside);
      }
    }

    /** Compare, rebase, validate and publish, at most three times. */
    method PublishGeneration(work: Work, outside: Outside) returns (outcome: Outcome)
      modifies this
      ensures (Contents(), outcome) == Attempts(old(Contents()), work, work.base, 1, outside)
    {
      var expected := work.base;
      for attempt := 1 to MAX_ATTEMPTS + 1
        invariant Attempts(Contents(), work, expected, attempt, outside) == Attempts(old(Contents()), work, work.base, 1, outside)
      {
        var decided;
        decided, outcome, expected := TryOnce(work, expected, attempt, outside);
        if decided {
          return;
        }
      }
      outcome := Conflicted;
    }

    /** Remove every generation that is not active, previous or pinned. */
    method CleanupGenerations(stuck: set<string>) returns (removed: set<string>)
      modifies this`directories
      ensures Contents() == Cleanup(old(Contents()), stuck)
      ensures removed == old(directories).Keys - directories.Keys
    {
      removed := {};
      if !Read(Contents()).Hit? {
        return;
      }
      var retain := Retained(Contents());
      var listed := directories.Keys;
      ghost var before := directories;
      while listed != {}
        invariant listed <= before.Keys
        invariant removed == set g | g in before && g !in listed && g !in retain && g !in stuck
        invariant directories == map g | g in before && g !in removed :: before[g]
        decreases listed
      {
        var g :| g in listed;
        if g !in retain && g !in stuck {
          directories := directories - {g};
          removed := removed + {g};
        }
        listed := listed - {g};
      }
    }

    /** Retry the archive for every pin, then for an unpinned CURRENT. */
    method MaintainManifestArchive(refused: set<string>, held: set<string>)
      modifies this`archive, this`pins
      ensures Contents() == Maintain(old(Contents()), refused, held)
    {
      var listed := pins;
      ghost var before := Contents();
      for i := 0 to |listed|
        invariant directories == before.directories && pointer == before.pointer
        invariant Contents() == RetryPins(before, listed[..i], refused, held)
      {
        assert listed[..i + 1][..i] == listed[..i];
        var after := RetryPin(Contents(), listed[i], refused, held);
        archive, pins := after.archive, after.pins;
      }
      assert listed[..|listed|] == listed;
      var after := ArchiveCurrent(Contents(), refused);
      archive := after.archive;
    }

    method LookupManifest(acquisition: string) returns (report: Option<Manifest>)
      ensures report == Lookup(Contents(), acquisition)
    {
      if acquisition in archive {
        return Some(archive[acquisition]);
      }
      for i := 0 to |pins|
        invariant PinnedReport(Contents(), pins[..i], acquisition) == None
      {
        assert pins[..i + 1][..i] == pins[..i];
        if pins[i].acquisition == acquisition {
          var found := EmbeddedReport(Contents(), pins[i].generation, acquisition);
          if found.Some? {
            FoundFirst(Contents(), pins, i + 1, acquisition);
            return found;
          }
        }
      }
      assert pins[..|pins|] == pins;
      var current := CurrentReport(Contents());
      if current.Some? && !Pinned(Contents(), current.value.generation) && current.value.acquisition == acquisition {
        return current;
      }
      report := None;
    }
  }

  lemma {:induction false} FoundFirst(s: Files, pins: seq<Pin>, k: nat, acquisition: string)
    requires k <= |pins| && PinnedReport(s, pins[..k], acquisition).Some?
    ensures PinnedReport(s, pins, acquisition) == PinnedReport(s, pins[..k], acquisition)
  {
    if k == |pins| {
      assert pins[..k] == pins;
    } else {
      assert pins[..|pins| - 1][..k] == pins[..k];
      FoundFirst(s, pins[..|pins| - 1], k, acquisition);
    }
  }

  /** With publishers serialised by the lock nothing interferes: the first attempt decides, a conflict cannot
      happen, and a completed publication lays the writer's ranges over exactly the generation it replaced. */
  lemma {:induction false} SerialisedPublication(s: Files, work: Work, outside: Outside)
    requires forall k: nat, f: Files :: outside.probe(k, f) == f
    ensures var (after, outcome) := Attempts(s, work, work.base, 1, outside);
            && !outcome.Conflicted?
            && (outcome.Refused? ==> after == s)
            && (outcome.Done? && Read(s).Hit? && work.base != Read(s).Id() ==>
                  CurrentId(after) == Some(outcome.id) && Overlaid(Read(s).frame, work, outcome.frame))
  {
    var latest := Read(s);
    if latest.Hit? {
      MergeOverrides(latest.frame, RowsInRanges(work.candidate, work.Ranges()));
    }
    assert outside.probe(1, s) == s;
    assert !latest.Invalidated? ==> CurrentId(s) == latest.Id();
  }

  // ----- when a publication conflicts

  /** The files that attempt k finds, if every attempt before it met a conflict. */
  ghost function Found(s: Files, outside: Outside, k: nat): Files {
    if k <= 1 then s else outside.probe(k - 1, Found(s, outside, k - 1))
  }

  /** The base that attempt k compares with. */
  ghost function BaseAt(s: Files, work: Work, outside: Outside, k: nat): Option<string> {
    if k <= 1 then work.base else Read(Found(s, outside, k - 1)).Id()
  }

  /** Attempt k assembles something, and then finds that another process moved CURRENT. */
  ghost predicate Overtaken(s: Files, work: Work, outside: Outside, k: nat) {
    var found, base := Found(s, outside, k), BaseAt(s, work, outside, k);
    && Assemble(Read(found), work, base, outside.revalidate(AssembledFrame(Read(found), work, base))).Some?
    && CurrentId(outside.probe(k, found)) != Read(found).Id()
  }

  lemma {:induction false} ConflictsFrom(s: Files, work: Work, outside: Outside, k: nat)
    requires 1 <= k <= MAX_ATTEMPTS + 1
    ensures Attempts(Found(s, outside, k), work, BaseAt(s, work, outside, k), k, outside).1.Conflicted?
            <==> forall j :: k <= j <= MAX_ATTEMPTS ==> Overtaken(s, work, outside, j)
    decreases MAX_ATTEMPTS + 1 - k
  {
    if k <= MAX_ATTEMPTS {
      ConflictsFrom(s, work, outside, k + 1);
      AttemptConflicts(Found(s, outside, k), work, BaseAt(s, work, outside, k), k, outside);
      assert Found(s, outside, k + 1) == outside.probe(k, Found(s, outside, k));
      assert BaseAt(s, work, outside, k + 1) == Read(Found(s, outside, k)).Id();
      assert (forall j :: k <= j <= MAX_ATTEMPTS ==> Overtaken(s, work, outside, j))
        <==> Overtaken(s, work, outside, k) && forall j :: k + 1 <= j <= MAX_ATTEMPTS ==> Overtaken(s, work, outside, j);
    }
  }

  lemma {:induction false} AttemptConflicts(s: Files, work: Work, expected: Option<string>, k: nat, outside: Outside)
    requires k <= MAX_ATTEMPTS
    ensures Attempts(s, work, expected, k, outside).1.Conflicted?
            <==> && Assemble(Read(s), work, expected, outside.revalidate(AssembledFrame(Read(s), work, expected))).Some?
                 && CurrentId(outside.probe(k, s)) != Read(s).Id()
                 && Attempts(outside.probe(k, s), work, Read(s).Id(), k + 1, outside).1.Conflicted?
  {
  }

  /** A publication gives up with a conflict if and only if each of its three attempts assembled something that could be
      published and then found CURRENT moved. */
  lemma {:induction false} ConflictExactly(s: Files, work: Work, outside: Outside)
    ensures Attempts(s, work, work.base, 1, outside).1.Conflicted?
            <==> Overtaken(s, work, outside, 1) && Overtaken(s, work, outside, 2) && Overtaken(s, work, outside, 3)
  {
    ConflictsFrom(s, work, outside, 1);
  }
}
