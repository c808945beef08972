/** Crash atomicity, retention and report durability over every history of publications (whole or cut
    short at any file operation), cleanups and maintenance runs. */
module StoreSafety {
  import opened Market
  import opened Sessions
  import opened Frames
  import opened Store

  // ----- what every operation keeps

  ghost predicate PinsBacked(s: Files) {
    forall i :: 0 <= i < |s.pins| ==> EmbeddedReport(s, s.pins[i].generation, s.pins[i].acquisition).Some?
  }

  /** CURRENT is complete, so is its recorded predecessor, and every pin has its generation. */
  ghost predicate Intact(s: Files) {
    && (s.pointer.Some? ==> Read(s).Hit?)
    && (s.pointer.Some? && s.pointer.value.previous.Some? ==>
          var q := s.pointer.value.previous.value;
          q in s.directories && DirectoryValid(q, s.directories[q]))
    && PinsBacked(s)
  }

  lemma ReportLeavesGenerations(s: Files, id: string, m: Manifest, a: bool, p: bool)
    ensures Report(s, id, m, a, p).directories == s.directories && Report(s, id, m, a, p).pointer == s.pointer
  {
  }

  lemma {:induction false} TendingLeavesGenerations(s: Files, pins: seq<Pin>, refused: set<string>, held: set<string>)
    ensures var r := RetryPins(s, pins, refused, held); r.directories == s.directories && r.pointer == s.pointer
  {
    if pins != [] {
      TendingLeavesGenerations(s, pins[..|pins| - 1], refused, held);
    }
  }

  /** A generation directory that survives an operation is unchanged by it. */
  lemma {:induction false} DirectoriesAreImmutable(s: Files, op: Op, g: string)
    requires Allowed(s, op) && g in s.directories && g in Apply(s, op).directories
    ensures Apply(s, op).directories[g] == s.directories[g]
  {
    match op
    case Publish(id, frame, planned, m, done, a, p) =>
      ReportLeavesGenerations(PublishTo(s, id, frame, planned, m, done), id, Embedded(m, id, frame), a, p);
    case Note(_, _) =>
    case Clean(_) =>
    case Tend(refused, held) => TendingLeavesGenerations(s, s.pins, refused, held);
  }

  lemma {:induction false} WithoutPinSubset(pins: seq<Pin>, pin: Pin)
    ensures forall x :: x in WithoutPin(pins, pin) ==> x in pins
    ensures forall x :: x in pins && x != pin ==> x in WithoutPin(pins, pin)
  {
    if pins != [] {
      WithoutPinSubset(pins[..|pins| - 1], pin);
      assert pins == pins[..|pins| - 1] + [pins[|pins| - 1]];
    }
  }

  lemma {:induction false} RetryKeepsPinsBacked(s: Files, pins: seq<Pin>, refused: set<string>, held: set<string>)
    requires PinsBacked(s)
    ensures PinsBacked(RetryPins(s, pins, refused, held))
  {
    if pins != [] {
      RetryKeepsPinsBacked(s, pins[..|pins| - 1], refused, held);
      var before := RetryPins(s, pins[..|pins| - 1], refused, held);
      WithoutPinSubset(before.pins, pins[|pins| - 1]);
      var after := RetryPins(s, pins, refused, held);
      forall i | 0 <= i < |after.pins|
        ensures EmbeddedReport(after, after.pins[i].generation, after.pins[i].acquisition).Some?
      {
        assert after.pins[i] in before.pins;
        var j :| 0 <= j < |before.pins| && before.pins[j] == after.pins[i];
      }
    }
  }

  lemma {:induction false} WritingKeepsIntact(s: Files, id: string, frame: Frame, planned: seq<Range>, m: Manifest, done: nat)
    requires Intact(s) && !Read(s).Invalidated? && id !in s.directories && Canonical(frame)
    ensures Intact(PublishTo(s, id, frame, planned, m, done))
  {
    var after := PublishTo(s, id, frame, planned, m, done);
    forall i | 0 <= i < |s.pins|
      ensures EmbeddedReport(after, s.pins[i].generation, s.pins[i].acquisition).Some?
    {
      assert EmbeddedReport(s, s.pins[i].generation, s.pins[i].acquisition).Some?;
    }
  }

  lemma {:induction false} ReportingKeepsIntact(s: Files, id: string, m: Manifest, archiveWritable: bool, pinWritable: bool)
    requires Intact(s) && EmbeddedReport(s, id, m.acquisition).Some?
    ensures Intact(Report(s, id, m, archiveWritable, pinWritable))
  {
    var after := Report(s, id, m, archiveWritable, pinWritable);
    forall i | 0 <= i < |after.pins|
      ensures EmbeddedReport(after, after.pins[i].generation, after.pins[i].acquisition).Some?
    {
      if i < |s.pins| {
        assert EmbeddedReport(s, s.pins[i].generation, s.pins[i].acquisition).Some?;
      }
    }
  }

  lemma {:induction false} PublishKeepsIntact(s: Files, op: Op)
    requires op.Publish? && Allowed(s, op) && Intact(s)
    ensures Intact(Apply(s, op))
  {
    WritingKeepsIntact(s, op.id, op.frame, op.planned, op.manifest, op.done);
    if op.done >= SWAP {
      ReportingKeepsIntact(PublishTo(s, op.id, op.frame, op.planned, op.manifest, op.done), op.id,
                           Embedded(op.manifest, op.id, op.frame), op.archiveWritable, op.pinWritable);
    }
  }

  lemma {:induction false} NoteKeepsIntact(s: Files, m: Manifest, writable: bool)
    requires Intact(s)
    ensures Intact(Noted(s, m, writable)) && Read(Noted(s, m, writable)) == Read(s)
  {
    var after := Noted(s, m, writable);
    forall i | 0 <= i < |s.pins|
      ensures EmbeddedReport(after, s.pins[i].generation, s.pins[i].acquisition).Some?
    {
      assert EmbeddedReport(s, s.pins[i].generation, s.pins[i].acquisition).Some?;
    }
  }

  lemma {:induction false} CleanupKeepsIntact(s: Files, stuck: set<string>)
    requires Intact(s)
    ensures Intact(Cleanup(s, stuck)) && Read(Cleanup(s, stuck)) == Read(s)
  {
    var after := Cleanup(s, stuck);
    forall i | 0 <= i < |s.pins|
      ensures EmbeddedReport(after, s.pins[i].generation, s.pins[i].acquisition).Some?
    {
      assert EmbeddedReport(s, s.pins[i].generation, s.pins[i].acquisition).Some?;
      if s.pointer.Some? {
        assert s.pins[i].generation in Retained(s);
      }
    }
  }

  lemma {:induction false} TendKeepsIntact(s: Files, refused: set<string>, held: set<string>)
    requires Intact(s)
    ensures Intact(Maintain(s, refused, held)) && Read(Maintain(s, refused, held)) == Read(s)
  {
    TendingLeavesGenerations(s, s.pins, refused, held);
    RetryKeepsPinsBacked(s, s.pins, refused, held);
    var tended := RetryPins(s, s.pins, refused, held);
    var after := Maintain(s, refused, held);
    forall i | 0 <= i < |after.pins|
      ensures EmbeddedReport(after, after.pins[i].generation, after.pins[i].acquisition).Some?
    {
      assert EmbeddedReport(tended, tended.pins[i].generation, tended.pins[i].acquisition).Some?;
    }
  }

  /** Crash atomicity of one operation: a publication cut short before the swap, a cleanup and a
      maintenance run leave every reader's result exactly as it was; a completed publication replaces it
      by the published frame in one step. */
  lemma {:induction false} OperationIsAtomic(s: Files, op: Op)
    requires Allowed(s, op) && Intact(s)
    ensures Intact(Apply(s, op))
    ensures Read(Apply(s, op)) ==
            if Committed(op) then Hit(op.frame, Embedded(op.manifest, op.id, op.frame), op.id) else Read(s)
  {
    match op
    case Publish(_, _, _, _, _, _, _) => PublishKeepsIntact(s, op);
    case Note(m, writable) => NoteKeepsIntact(s, m, writable);
    case Clean(stuck) => CleanupKeepsIntact(s, stuck);
    case Tend(refused, held) => TendKeepsIntact(s, refused, held);
  }

  // ----- whole histories

  /** Operation i was allowed when it ran and leads from one state of the files to the next. */
  ghost predicate Happens(ops: seq<Op>, states: seq<Files>, i: nat)
    requires i < |ops| && |states| == |ops| + 1
  {
    Allowed(states[i], ops[i]) && states[i + 1] == Apply(states[i], ops[i])
  }

  /** A history from the empty namespace, with the files after each operation. */
  ghost predicate History(ops: seq<Op>, states: seq<Files>) {
    && |states| == |ops| + 1
    && states[0] == EMPTY_FILES
    && forall i :: 0 <= i < |ops| ==> Happens(ops, states, i)
  }

  datatype Commit = Commit(id: string, frame: Frame, planned: seq<Range>, manifest: Manifest)

  function CommitOf(op: Op): Commit
    requires op.Publish?
  {
    Commit(op.id, op.frame, op.planned, Embedded(op.manifest, op.id, op.frame))
  }

  /** The commits among the first n operations, in order. */
  function Commits(ops: seq<Op>, n: nat): seq<Commit>
    requires n <= |ops|
  {
    if n == 0 then []
    else if Committed(ops[n - 1]) then Commits(ops, n - 1) + [CommitOf(ops[n - 1])] else Commits(ops, n - 1)
  }

  ghost predicate Holds(s: Files, c: Commit) {
    c.id in s.directories && s.directories[c.id] == Directory(Some(c.frame), Some(Metadata(c.id, c.planned)), Some(c.manifest))
  }

  /** CURRENT is the last of the commits and records the one before it; both are there, complete. */
  ghost predicate Shows(s: Files, commits: seq<Commit>) {
    if commits == [] then s.pointer.None?
    else
      var last := commits[|commits| - 1];
      && s.pointer.Some? && s.pointer.value.generation == last.id && Holds(s, last)
      && Read(s) == Hit(last.frame, last.manifest, last.id)
      && if |commits| == 1 then s.pointer.value.previous == None
         else s.pointer.value.previous == Some(commits[|commits| - 2].id) && Holds(s, commits[|commits| - 2])
  }

  lemma {:induction false} CommitShows(s: Files, op: Op, commits: seq<Commit>)
    requires Allowed(s, op) && Intact(s) && Shows(s, commits) && Committed(op)
    ensures Shows(Apply(s, op), commits + [CommitOf(op)])
  {
    OperationIsAtomic(s, op);
    PointerMoves(s, op);
    if commits != [] {
      KeepsNeeded(s, op, commits[|commits| - 1].id);
    }
  }

  lemma {:induction false} OtherShows(s: Files, op: Op, commits: seq<Commit>)
    requires Allowed(s, op) && Intact(s) && Shows(s, commits) && !Committed(op)
    ensures Shows(Apply(s, op), commits)
  {
    OperationIsAtomic(s, op);
    PointerMoves(s, op);
    if commits != [] {
      KeepsNeeded(s, op, commits[|commits| - 1].id);
      if |commits| > 1 {
        KeepsNeeded(s, op, commits[|commits| - 2].id);
      }
    }
  }

  /** In every history a read returns exactly the last committed frame, or a miss before the first commit,
      and the generation before it, which CURRENT records, is still there with its content. */
  lemma {:induction false} CurrentIsLastCommit(ops: seq<Op>, states: seq<Files>, n: nat)
    requires History(ops, states) && n <= |ops|
    ensures Intact(states[n]) && Shows(states[n], Commits(ops, n))
  {
    if n > 0 {
      CurrentIsLastCommit(ops, states, n - 1);
      assert Happens(ops, states, n - 1);
      OperationIsAtomic(states[n - 1], ops[n - 1]);
      if Committed(ops[n - 1]) {
        CommitShows(states[n - 1], ops[n - 1], Commits(ops, n - 1));
      } else {
        OtherShows(states[n - 1], ops[n - 1], Commits(ops, n - 1));
      }
    }
  }

  lemma {:induction false} PointerMoves(s: Files, op: Op)
    requires Allowed(s, op)
    ensures !Committed(op) ==> Apply(s, op).pointer == s.pointer
    ensures Committed(op) ==>
              Apply(s, op).pointer == Some(PointerTo(op.id, CurrentId(s), op.frame, op.planned, op.manifest))
              && Holds(Apply(s, op), CommitOf(op))
  {
    match op
    case Publish(id, frame, planned, m, done, a, p) =>
      ReportLeavesGenerations(PublishTo(s, id, frame, planned, m, done), id, Embedded(m, id, frame), a, p);
    case Note(_, _) =>
    case Clean(_) =>
    case Tend(refused, held) => TendingLeavesGenerations(s, s.pins, refused, held);
  }

  /** Retention: the generations CURRENT needs survive every operation. */
  lemma {:induction false} KeepsNeeded(s: Files, op: Op, g: string)
    requires Allowed(s, op) && Intact(s) && s.pointer.Some? && g in s.directories
    requires g == s.pointer.value.generation || s.pointer.value.previous == Some(g)
    ensures g in Apply(s, op).directories && Apply(s, op).directories[g] == s.directories[g]
  {
    match op
    case Publish(id, frame, planned, m, done, a, p) =>
      ReportLeavesGenerations(PublishTo(s, id, frame, planned, m, done), id, Embedded(m, id, frame), a, p);
    case Note(_, _) =>
    case Clean(_) =>
    case Tend(refused, held) => TendingLeavesGenerations(s, s.pins, refused, held);
  }

  /** The generations a cleanup is for: the last two commits and whatever is pinned. */
  ghost function Wanted(s: Files, commits: seq<Commit>): set<string> {
    (set i | |commits| - 2 <= i < |commits| && i >= 0 :: commits[i].id) + (set i | 0 <= i < |s.pins| :: s.pins[i].generation)
  }

  /** Nothing else survives: after a cleanup the directories are exactly those of the last two commits, the pinned
      ones and those that could not be removed; a cut-short publication's remains are gone, and so is every older
      generation. Before the first commit nothing is removed. */
  lemma {:induction false} CleanupLeavesExactly(ops: seq<Op>, states: seq<Files>, n: nat)
    requires History(ops, states) && n < |ops| && ops[n].Clean?
    ensures states[n + 1] == states[n].(directories := states[n + 1].directories)
    ensures states[n + 1].directories.Keys ==
            if Commits(ops, n) == [] then states[n].directories.Keys
            else Wanted(states[n], Commits(ops, n)) + ops[n].stuck * states[n].directories.Keys
  {
    assert Happens(ops, states, n);
    CurrentIsLastCommit(ops, states, n);
    CleanupLeaves(states[n], Commits(ops, n), ops[n].stuck);
  }

  lemma {:induction false} WantedIds(s: Files, commits: seq<Commit>, g: string)
    requires commits != []
    ensures g in Wanted(s, commits) <==>
            || g == commits[|commits| - 1].id || (|commits| > 1 && g == commits[|commits| - 2].id)
            || exists i :: 0 <= i < |s.pins| && s.pins[i].generation == g
  {
    var n := |commits| - 1;
    assert commits[n].id in Wanted(s, commits);
    assert n > 0 ==> commits[n - 1].id in Wanted(s, commits);
  }

  lemma {:induction false} CleanupLeaves(s: Files, commits: seq<Commit>, stuck: set<string>)
    requires Intact(s) && Shows(s, commits)
    ensures Cleanup(s, stuck) == s.(directories := Cleanup(s, stuck).directories)
    ensures Cleanup(s, stuck).directories.Keys ==
            if commits == [] then s.directories.Keys else Wanted(s, commits) + stuck * s.directories.Keys
  {
    if commits != [] {
      forall g: string
        ensures g in Cleanup(s, stuck).directories <==> g in Wanted(s, commits) + stuck * s.directories.Keys
      {
        WantedIds(s, commits, g);
        if i :| 0 <= i < |s.pins| && s.pins[i].generation == g {
          assert EmbeddedReport(s, s.pins[i].generation, s.pins[i].acquisition).Some?;
        }
      }
    }
  }

  // ----- the archive

  lemma {:induction false} RetriesKeepArchive(s: Files, pins: seq<Pin>, refused: set<string>, held: set<string>, a: string)
    requires a in s.archive
    ensures var r := RetryPins(s, pins, refused, held); a in r.archive && r.archive[a] == s.archive[a]
  {
    if pins != [] {
      RetriesKeepArchive(s, pins[..|pins| - 1], refused, held, a);
    }
  }

  lemma {:induction false} OperationKeepsArchive(s: Files, op: Op, a: string)
    requires a in s.archive
    ensures a in Apply(s, op).archive && Apply(s, op).archive[a] == s.archive[a]
  {
    if op.Tend? {
      RetriesKeepArchive(s, s.pins, op.refused, op.held, a);
    }
  }

  /** The archive is append-only over every history, even where two reports claim one identifier. */
  lemma {:induction false} ArchiveIsAppendOnly(ops: seq<Op>, states: seq<Files>, i: nat, n: nat, a: string)
    requires History(ops, states) && i <= n <= |ops| && a in states[i].archive
    ensures a in states[n].archive && states[n].archive[a] == states[i].archive[a]
    decreases n
  {
    if i < n {
      ArchiveIsAppendOnly(ops, states, i, n - 1, a);
      assert Happens(ops, states, n - 1);
      OperationKeepsArchive(states[n - 1], ops[n - 1], a);
    }
  }

  // ----- damaged directories

  /** Whatever happens to the generation directories from outside, a reader gets the last commit exactly or learns
      that the cache is damaged; it never gets anything else. */
  lemma {:induction false} DamageIsDetected(ops: seq<Op>, states: seq<Files>, n: nat, directories: map<string, Directory>)
    requires History(ops, states) && n <= |ops| && Commits(ops, n) != []
    ensures var last := Commits(ops, n)[|Commits(ops, n)| - 1];
            var damaged := states[n].(directories := directories);
            Read(damaged) == if Holds(damaged, last) then Hit(last.frame, last.manifest, last.id) else Invalidated
  {
    CurrentIsLastCommit(ops, states, n);
  }

  /** The directory holds all three artifacts, its metadata names it, and its manifest vouches for its valid bars. */
  ghost predicate Sane(s: Files, g: string) {
    && g in s.directories
    && s.directories[g].bars.Some? && s.directories[g].metadata.Some? && s.directories[g].manifest.Some?
    && s.directories[g].metadata.value.generation == g
    && s.directories[g].manifest.value.output == s.directories[g].bars.value
    && Canonical(s.directories[g].bars.value)
  }

  /** A cleanup of damaged directories: nothing is removed while CURRENT cannot be read; otherwise the predecessor
      stays only if it is sane, and everything else that is neither current nor pinned goes. */
  lemma {:induction false} CleanupOfDamaged(ops: seq<Op>, states: seq<Files>, n: nat, directories: map<string, Directory>, stuck: set<string>, g: string)
    requires History(ops, states) && n <= |ops| && Commits(ops, n) != []
    ensures var commits := Commits(ops, n);
            var damaged := states[n].(directories := directories);
            g in Cleanup(damaged, stuck).directories <==>
            && g in directories
            && (|| !Holds(damaged, commits[|commits| - 1])
                || g == commits[|commits| - 1].id
                || (|commits| > 1 && g == commits[|commits| - 2].id && Sane(damaged, g))
                || (exists i :: 0 <= i < |states[n].pins| && states[n].pins[i].generation == g)
                || g in stuck)
  {
    DamageIsDetected(ops, states, n, directories);
    CurrentIsLastCommit(ops, states, n);
  }

  // ----- report durability

  /** The report is archived, or a pin protects the generation that embeds it. */
  ghost predicate Kept(s: Files, a: string, m: Manifest) {
    || (a in s.archive && s.archive[a] == m)
    || (exists i :: 0 <= i < |s.pins| && s.pins[i].acquisition == a && EmbeddedReport(s, s.pins[i].generation, a) == Some(m))
  }

  /** No other report stands anywhere under this acquisition's identifier. */
  ghost predicate OnlyReport(s: Files, a: string, m: Manifest) {
    && (a in s.archive ==> s.archive[a] == m)
    && (forall g :: g in s.directories && s.directories[g].manifest.Some? && s.directories[g].manifest.value.acquisition == a
          ==> s.directories[g].manifest.value == m)
  }

  lemma {:induction false} PinnedReportFinds(s: Files, pins: seq<Pin>, a: string, m: Manifest)
    requires OnlyReport(s, a, m)
    ensures PinnedReport(s, pins, a) in {None, Some(m)}
    ensures (exists i :: 0 <= i < |pins| && pins[i].acquisition == a && EmbeddedReport(s, pins[i].generation, a) == Some(m))
            ==> PinnedReport(s, pins, a) == Some(m)
  {
    if pins != [] {
      var n := |pins| - 1;
      PinnedReportFinds(s, pins[..n], a, m);
      if i :| 0 <= i < |pins| && pins[i].acquisition == a && EmbeddedReport(s, pins[i].generation, a) == Some(m) {
        if i < n {
          assert pins[..n][i] == pins[i];
        }
      }
    }
  }

  lemma {:induction false} KeptIsFound(s: Files, a: string, m: Manifest)
    requires Kept(s, a, m) && OnlyReport(s, a, m)
    ensures Lookup(s, a) == Some(m)
  {
    PinnedReportFinds(s, s.pins, a, m);
  }

  /** Retrying a pin archives before it unpins, so no report is ever without a home. */
  lemma {:induction false} RetryKeepsReport(s: Files, pin: Pin, refused: set<string>, held: set<string>, a: string, m: Manifest)
    requires Kept(s, a, m) && OnlyReport(s, a, m)
    ensures Kept(RetryPin(s, pin, refused, held), a, m) && OnlyReport(RetryPin(s, pin, refused, held), a, m)
  {
    var after := RetryPin(s, pin, refused, held);
    WithoutPinSubset(s.pins, pin);
    if !(a in after.archive) {
      var i :| 0 <= i < |s.pins| && s.pins[i].acquisition == a && EmbeddedReport(s, s.pins[i].generation, a) == Some(m);
      assert s.pins[i] in after.pins;
      var j :| 0 <= j < |after.pins| && after.pins[j] == s.pins[i];
      assert EmbeddedReport(after, after.pins[j].generation, a) == Some(m);
    }
  }

  lemma {:induction false} RetriesKeepReport(s: Files, pins: seq<Pin>, refused: set<string>, held: set<string>, a: string, m: Manifest)
    requires Kept(s, a, m) && OnlyReport(s, a, m)
    ensures Kept(RetryPins(s, pins, refused, held), a, m) && OnlyReport(RetryPins(s, pins, refused, held), a, m)
  {
    if pins != [] {
      var n := |pins| - 1;
      RetriesKeepReport(s, pins[..n], refused, held, a, m);
      RetryKeepsReport(RetryPins(s, pins[..n], refused, held), pins[n], refused, held, a, m);
    }
  }

  lemma {:induction false} TendKeepsReport(s: Files, refused: set<string>, held: set<string>, a: string, m: Manifest)
    requires Kept(s, a, m) && OnlyReport(s, a, m)
    ensures Kept(Maintain(s, refused, held), a, m) && OnlyReport(Maintain(s, refused, held), a, m)
  {
    RetriesKeepReport(s, s.pins, refused, held, a, m);
    var tended := RetryPins(s, s.pins, refused, held);
    var after := Maintain(s, refused, held);
    if !(a in after.archive) {
      var i :| 0 <= i < |tended.pins| && tended.pins[i].acquisition == a && EmbeddedReport(tended, tended.pins[i].generation, a) == Some(m);
      assert EmbeddedReport(after, after.pins[i].generation, a) == Some(m);
    }
  }

  lemma {:induction false} NoteKeepsReport(s: Files, n: Manifest, writable: bool, a: string, m: Manifest)
    requires n.acquisition != a && Kept(s, a, m) && OnlyReport(s, a, m)
    ensures Kept(Noted(s, n, writable), a, m) && OnlyReport(Noted(s, n, writable), a, m)
  {
    var after := Noted(s, n, writable);
    if exists i :: 0 <= i < |s.pins| && s.pins[i].acquisition == a && EmbeddedReport(s, s.pins[i].generation, a) == Some(m) {
      var i :| 0 <= i < |s.pins| && s.pins[i].acquisition == a && EmbeddedReport(s, s.pins[i].generation, a) == Some(m);
      assert after.pins[i].acquisition == a && EmbeddedReport(after, after.pins[i].generation, a) == Some(m);
    }
  }

  lemma {:induction false} CleanupKeepsReport(s: Files, stuck: set<string>, a: string, m: Manifest)
    requires Kept(s, a, m) && OnlyReport(s, a, m)
    ensures Kept(Cleanup(s, stuck), a, m) && OnlyReport(Cleanup(s, stuck), a, m)
  {
    var after := Cleanup(s, stuck);
    if !(a in after.archive) && s.pointer.Some? {
      var i :| 0 <= i < |s.pins| && s.pins[i].acquisition == a && EmbeddedReport(s, s.pins[i].generation, a) == Some(m);
      assert s.pins[i].generation in Retained(s);
      assert EmbeddedReport(after, after.pins[i].generation, a) == Some(m);
    }
  }

  lemma {:induction false} WritingKeepsReport(s: Files, id: string, frame: Frame, planned: seq<Range>, n: Manifest, done: nat, a: string, m: Manifest)
    requires id !in s.directories && n.acquisition != a
    requires Kept(s, a, m) && OnlyReport(s, a, m)
    ensures Kept(PublishTo(s, id, frame, planned, n, done), a, m) && OnlyReport(PublishTo(s, id, frame, planned, n, done), a, m)
  {
    var after := PublishTo(s, id, frame, planned, n, done);
    if !(a in s.archive) {
      var i :| 0 <= i < |s.pins| && s.pins[i].acquisition == a && EmbeddedReport(s, s.pins[i].generation, a) == Some(m);
      assert EmbeddedReport(after, after.pins[i].generation, a) == Some(m);
    }
  }

  lemma {:induction false} ReportingKeepsOthers(s: Files, id: string, n: Manifest, archiveWritable: bool, pinWritable: bool, a: string, m: Manifest)
    requires n.acquisition != a && Kept(s, a, m) && OnlyReport(s, a, m)
    ensures Kept(Report(s, id, n, archiveWritable, pinWritable), a, m)
    ensures OnlyReport(Report(s, id, n, archiveWritable, pinWritable), a, m)
  {
    var after := Report(s, id, n, archiveWritable, pinWritable);
    if !(a in s.archive) {
      var i :| 0 <= i < |s.pins| && s.pins[i].acquisition == a && EmbeddedReport(s, s.pins[i].generation, a) == Some(m);
      assert after.pins[i] == s.pins[i];
      assert EmbeddedReport(after, after.pins[i].generation, a) == Some(m);
    }
  }

  lemma {:induction false} PublishKeepsReport(s: Files, op: Op, a: string, m: Manifest)
    requires op.Publish? && Allowed(s, op) && op.manifest.acquisition != a
    requires Kept(s, a, m) && OnlyReport(s, a, m)
    ensures Kept(Apply(s, op), a, m) && OnlyReport(Apply(s, op), a, m)
  {
    WritingKeepsReport(s, op.id, op.frame, op.planned, op.manifest, op.done, a, m);
    ReportingKeepsOthers(PublishTo(s, op.id, op.frame, op.planned, op.manifest, op.done), op.id,
                         Embedded(op.manifest, op.id, op.frame), op.archiveWritable, op.pinWritable, a, m);
  }

  /** An acquisition identifier is used once, except that a publication that did not commit may be followed by the
      report of its failure. */
  ghost predicate FreshAcquisitions(ops: seq<Op>) {
    forall i, j :: 0 <= i < j < |ops| && SameAcquisition(ops[i], ops[j]) ==> ops[i].Publish? && !Committed(ops[i]) && ops[j].Note?
  }

  ghost predicate SameAcquisition(x: Op, y: Op) {
    (x.Publish? || x.Note?) && Names(y, x.manifest.acquisition)
  }

  ghost predicate Unused(s: Files, a: string) {
    && a !in s.archive
    && (forall g :: g in s.directories && s.directories[g].manifest.Some? ==> s.directories[g].manifest.value.acquisition != a)
  }

  lemma {:induction false} StaysUnused(s: Files, op: Op, a: string)
    requires Unused(s, a) && !Names(op, a)
    ensures Unused(Apply(s, op), a)
  {
    if op.Tend? {
      TendingLeavesGenerations(s, s.pins, op.refused, op.held);
      UnusedByRetries(s, s.pins, op.refused, op.held, a);
    }
  }

  /** Nothing stands under an identifier that no publication has used yet. */
  lemma {:induction false} UnusedIdentifier(ops: seq<Op>, states: seq<Files>, n: nat, a: string)
    requires History(ops, states) && n <= |ops|
    requires forall i :: 0 <= i < n ==> !Names(ops[i], a)
    ensures Unused(states[n], a)
  {
    if n > 0 {
      UnusedIdentifier(ops, states, n - 1, a);
      assert Happens(ops, states, n - 1);
      StaysUnused(states[n - 1], ops[n - 1], a);
    }
  }

  lemma {:induction false} UnusedByRetries(s: Files, pins: seq<Pin>, refused: set<string>, held: set<string>, a: string)
    requires Unused(s, a)
    ensures a !in RetryPins(s, pins, refused, held).archive
  {
    if pins != [] {
      UnusedByRetries(s, pins[..|pins| - 1], refused, held, a);
      TendingLeavesGenerations(s, pins[..|pins| - 1], refused, held);
    }
  }

  lemma {:induction false} CommitKeepsItsReport(s: Files, op: Op)
    requires Allowed(s, op) && Committed(op) && (op.archiveWritable || op.pinWritable)
    requires PinsBacked(s)
    requires Unused(s, op.manifest.acquisition)
    ensures var a, m := op.manifest.acquisition, Embedded(op.manifest, op.id, op.frame);
            Kept(Apply(s, op), a, m) && OnlyReport(Apply(s, op), a, m)
  {
    var a, m := op.manifest.acquisition, Embedded(op.manifest, op.id, op.frame);
    var after := Apply(s, op);
    if !op.archiveWritable {
      assert forall i :: 0 <= i < |s.pins| ==> EmbeddedReport(s, s.pins[i].generation, s.pins[i].acquisition).Some?;
      assert after.pins == s.pins + [Pin(op.id, a)];
      assert after.pins[|s.pins|] == Pin(op.id, a);
      assert EmbeddedReport(after, op.id, a) == Some(m);
    }
  }

  lemma {:induction false} OperationKeepsReport(s: Files, op: Op, a: string, m: Manifest)
    requires Allowed(s, op) && !Names(op, a)
    requires Kept(s, a, m) && OnlyReport(s, a, m)
    ensures Kept(Apply(s, op), a, m) && OnlyReport(Apply(s, op), a, m)
  {
    match op
    case Publish(_, _, _, _, _, _, _) => PublishKeepsReport(s, op, a, m);
    case Note(n, writable) => NoteKeepsReport(s, n, writable, a, m);
    case Clean(stuck) => CleanupKeepsReport(s, stuck, a, m);
    case Tend(refused, held) => TendKeepsReport(s, refused, held, a, m);
  }

  lemma {:induction false} ReportKeptAtCommit(ops: seq<Op>, states: seq<Files>, i: nat)
    requires History(ops, states) && FreshAcquisitions(ops) && i < |ops|
    requires Committed(ops[i]) && (ops[i].archiveWritable || ops[i].pinWritable)
    ensures var a, m := ops[i].manifest.acquisition, Embedded(ops[i].manifest, ops[i].id, ops[i].frame);
            Kept(states[i + 1], a, m) && OnlyReport(states[i + 1], a, m)
  {
    UnusedIdentifier(ops, states, i, ops[i].manifest.acquisition);
    CurrentIsLastCommit(ops, states, i);
    assert Happens(ops, states, i);
    CommitKeepsItsReport(states[i], ops[i]);
  }

  lemma {:induction false} ReportStaysKept(ops: seq<Op>, states: seq<Files>, from: nat, n: nat, a: string, m: Manifest)
    requires History(ops, states) && from <= n <= |ops|
    requires forall j :: from <= j < n ==> !Names(ops[j], a)
    requires Kept(states[from], a, m) && OnlyReport(states[from], a, m)
    ensures Kept(states[n], a, m) && OnlyReport(states[n], a, m)
  {
    if from < n {
      ReportStaysKept(ops, states, from, n - 1, a, m);
      assert Happens(ops, states, n - 1);
      OperationKeepsReport(states[n - 1], ops[n - 1], a, m);
    }
  }

  /** Report durability: in every history with fresh acquisition identifiers, the report of a commit whose
      archive write or pin write succeeded can be looked up at every later point. */
  lemma {:induction false} ReportsAreDurable(ops: seq<Op>, states: seq<Files>, i: nat, n: nat)
    requires History(ops, states) && FreshAcquisitions(ops) && i < n <= |ops|
    requires Committed(ops[i]) && (ops[i].archiveWritable || ops[i].pinWritable)
    ensures Lookup(states[n], ops[i].manifest.acquisition) == Some(Embedded(ops[i].manifest, ops[i].id, ops[i].frame))
  {
    var a, m := ops[i].manifest.acquisition, Embedded(ops[i].manifest, ops[i].id, ops[i].frame);
    ReportKeptAtCommit(ops, states, i);
    ReportStaysKept(ops, states, i + 1, n, a, m);
    KeptIsFound(states[n], a, m);
  }

  lemma {:induction false} NoPinNoReport(s: Files, pins: seq<Pin>, a: string)
    requires forall i :: 0 <= i < |pins| ==> pins[i].acquisition != a
    ensures PinnedReport(s, pins, a) == None
  {
    if pins != [] {
      NoPinNoReport(s, pins[..|pins| - 1], a);
    }
  }

  // ----- a report that could be neither archived nor pinned

  ghost predicate Unreported(s: Files, a: string) {
    a !in s.archive && forall i :: 0 <= i < |s.pins| ==> s.pins[i].acquisition != a
  }

  /** Such a report is found exactly while CURRENT embeds it. */
  lemma {:induction false} UnreportedLookup(s: Files, a: string)
    requires Intact(s) && Unreported(s, a) && Read(s).Hit?
    ensures Lookup(s, a) == if Read(s).manifest.acquisition == a then Some(Read(s).manifest) else None
  {
    NoPinNoReport(s, s.pins, a);
    var m := Read(s).manifest;
    assert CurrentReport(s) == Some(m);
  }

  lemma {:induction false} RetriesLeaveUnreported(s: Files, pins: seq<Pin>, refused: set<string>, held: set<string>, a: string)
    requires Unreported(s, a) && forall i :: 0 <= i < |pins| ==> pins[i].acquisition != a
    ensures Unreported(RetryPins(s, pins, refused, held), a)
  {
    if pins != [] {
      var before, pin := RetryPins(s, pins[..|pins| - 1], refused, held), pins[|pins| - 1];
      RetriesLeaveUnreported(s, pins[..|pins| - 1], refused, held, a);
      WithoutPinSubset(before.pins, pin);
      var after := RetryPin(before, pin, refused, held);
      forall i | 0 <= i < |after.pins|
        ensures after.pins[i].acquisition != a
      {
        assert after.pins[i] in before.pins;
      }
    }
  }

  /** Maintenance archives it if CURRENT embeds it and the archive takes it, and otherwise leaves it unreported. */
  lemma {:induction false} MaintenanceOfUnreported(s: Files, refused: set<string>, held: set<string>, a: string)
    requires Intact(s) && Unreported(s, a) && Read(s).Hit?
    ensures var after := Maintain(s, refused, held);
            if Read(s).manifest.acquisition == a && a !in refused then a in after.archive && after.archive[a] == Read(s).manifest
            else Unreported(after, a)
  {
    var tended := RetryPins(s, s.pins, refused, held);
    RetriesLeaveUnreported(s, s.pins, refused, held, a);
    TendingLeavesGenerations(s, s.pins, refused, held);
    RetryKeepsPinsBacked(s, s.pins, refused, held);
    var m := Read(s).manifest;
    assert CurrentReport(tended) == Some(m);
  }

  ghost predicate NoCommit(ops: seq<Op>, from: nat, to: nat)
    requires to <= |ops|
  {
    forall j :: from <= j < to ==> !Committed(ops[j])
  }

  /** Between commit i and n, maintenance that the archive does not refuse reached the report before another commit. */
  ghost predicate Rescued(ops: seq<Op>, i: nat, n: nat, a: string)
    requires n <= |ops|
  {
    exists t :: i < t < n && ops[t].Tend? && a !in ops[t].refused && NoCommit(ops, i + 1, t)
  }

  /** CURRENT embeds the report of commit i exactly until the next commit. */
  lemma {:induction false} CurrentEmbeds(ops: seq<Op>, states: seq<Files>, i: nat, n: nat)
    requires History(ops, states) && FreshAcquisitions(ops) && i < n <= |ops| && Committed(ops[i])
    ensures Intact(states[n]) && Read(states[n]).Hit?
    ensures NoCommit(ops, i + 1, n) ==> Read(states[n]).manifest == Embedded(ops[i].manifest, ops[i].id, ops[i].frame)
    ensures Read(states[n]).manifest.acquisition == ops[i].manifest.acquisition <==> NoCommit(ops, i + 1, n)
    decreases n
  {
    CurrentIsLastCommit(ops, states, n);
    if n > i + 1 && !Committed(ops[n - 1]) {
      CurrentEmbeds(ops, states, i, n - 1);
      CurrentIsLastCommit(ops, states, n - 1);
      assert NoCommit(ops, i + 1, n) <==> NoCommit(ops, i + 1, n - 1);
    }
  }

  lemma {:induction false} RescuedOneMore(ops: seq<Op>, i: nat, n: nat, a: string)
    requires i < n < |ops|
    ensures Rescued(ops, i, n + 1, a) <==> Rescued(ops, i, n, a) || (ops[n].Tend? && a !in ops[n].refused && NoCommit(ops, i + 1, n))
  {
  }

  lemma {:induction false} UnreportedAtCommit(s: Files, op: Op)
    requires Allowed(s, op) && Committed(op) && !op.archiveWritable && !op.pinWritable
    requires PinsBacked(s) && Unused(s, op.manifest.acquisition)
    ensures Unreported(Apply(s, op), op.manifest.acquisition)
  {
    forall i | 0 <= i < |s.pins|
      ensures s.pins[i].acquisition != op.manifest.acquisition
    {
      assert EmbeddedReport(s, s.pins[i].generation, s.pins[i].acquisition).Some?;
    }
  }

  lemma {:induction false} StaysUnreported(s: Files, op: Op, a: string)
    requires Unreported(s, a) && !op.Tend? && !Names(op, a)
    ensures Unreported(Apply(s, op), a)
  {
  }

  /** No other report ever stands under the identifier of commit i. */
  lemma {:induction false} StaysOnly(ops: seq<Op>, states: seq<Files>, i: nat, n: nat)
    requires History(ops, states) && FreshAcquisitions(ops) && i < n <= |ops| && Committed(ops[i])
    ensures OnlyReport(states[n], ops[i].manifest.acquisition, Embedded(ops[i].manifest, ops[i].id, ops[i].frame))
    decreases n
  {
    var a, m := ops[i].manifest.acquisition, Embedded(ops[i].manifest, ops[i].id, ops[i].frame);
    assert Happens(ops, states, n - 1);
    if n == i + 1 {
      UnusedIdentifier(ops, states, i, a);
    } else {
      StaysOnly(ops, states, i, n - 1);
      OperationKeepsOnly(states[n - 1], ops[n - 1], a, m);
    }
  }

  lemma {:induction false} OperationKeepsOnly(s: Files, op: Op, a: string, m: Manifest)
    requires OnlyReport(s, a, m) && !Names(op, a)
    ensures OnlyReport(Apply(s, op), a, m)
  {
    if op.Tend? {
      RetriesKeepOnly(s, s.pins, op.refused, op.held, a, m);
      TendingLeavesGenerations(s, s.pins, op.refused, op.held);
    }
  }

  lemma {:induction false} RetriesKeepOnly(s: Files, pins: seq<Pin>, refused: set<string>, held: set<string>, a: string, m: Manifest)
    requires OnlyReport(s, a, m)
    ensures OnlyReport(RetryPins(s, pins, refused, held), a, m)
  {
    if pins != [] {
      RetriesKeepOnly(s, pins[..|pins| - 1], refused, held, a, m);
      TendingLeavesGenerations(s, pins[..|pins| - 1], refused, held);
    }
  }

  /** The report of commit i is kept once rescued and unreported before. */
  lemma {:induction false} UnreportedUntilRescued(ops: seq<Op>, states: seq<Files>, i: nat, n: nat)
    requires History(ops, states) && FreshAcquisitions(ops) && i < n <= |ops|
    requires Committed(ops[i]) && !ops[i].archiveWritable && !ops[i].pinWritable
    ensures var a, m := ops[i].manifest.acquisition, Embedded(ops[i].manifest, ops[i].id, ops[i].frame);
            if Rescued(ops, i, n, a) then Kept(states[n], a, m) else Unreported(states[n], a)
    decreases n
  {
    var a, m, t := ops[i].manifest.acquisition, Embedded(ops[i].manifest, ops[i].id, ops[i].frame), n - 1;
    assert Happens(ops, states, t);
    if n == i + 1 {
      UnusedIdentifier(ops, states, i, a);
      CurrentIsLastCommit(ops, states, i);
      UnreportedAtCommit(states[i], ops[i]);
    } else {
      UnreportedUntilRescued(ops, states, i, t);
      RescuedOneMore(ops, i, t, a);
      StaysOnly(ops, states, i, t);
      CurrentEmbeds(ops, states, i, t);
      if Rescued(ops, i, t, a) {
        OperationKeepsReport(states[t], ops[t], a, m);
      } else if ops[t].Tend? {
        MaintenanceOfUnreported(states[t], ops[t].refused, ops[t].held, a);
      } else {
        StaysUnreported(states[t], ops[t], a);
      }
    }
  }

  /** Report durability is exact: in every history with fresh acquisition identifiers, the report of a commit whose
      archive write and pin write both failed is found at a later point if and only if no other commit has happened
      since, or maintenance archived it before the next one. */
  lemma {:induction false} UnreportedIsLostAtNextCommit(ops: seq<Op>, states: seq<Files>, i: nat, n: nat)
    requires History(ops, states) && FreshAcquisitions(ops) && i < n <= |ops|
    requires Committed(ops[i]) && !ops[i].archiveWritable && !ops[i].pinWritable
    ensures var a, m := ops[i].manifest.acquisition, Embedded(ops[i].manifest, ops[i].id, ops[i].frame);
            Lookup(states[n], a) == if NoCommit(ops, i + 1, n) || Rescued(ops, i, n, a) then Some(m) else None
  {
    var a, m := ops[i].manifest.acquisition, Embedded(ops[i].manifest, ops[i].id, ops[i].frame);
    UnreportedUntilRescued(ops, states, i, n);
    CurrentEmbeds(ops, states, i, n);
    if Rescued(ops, i, n, a) {
      StaysOnly(ops, states, i, n);
      KeptIsFound(states[n], a, m);
    } else {
      UnreportedLookup(states[n], a);
    }
  }

  /** The exception in the freshness of identifiers is needed: if a publication were reported as failed after its swap,
      the failure report would stand for the committed one. */
  lemma {:induction false} LateFailureShadowsReport(frame: Frame) returns (ops: seq<Op>, states: seq<Files>)
    requires Canonical(frame)
    ensures History(ops, states) && |ops| == 2 && Committed(ops[0]) && ops[1].Note? && SameAcquisition(ops[0], ops[1])
    ensures Lookup(states[2], ops[0].manifest.acquisition) == Some(ops[1].manifest)
            && ops[1].manifest != Embedded(ops[0].manifest, ops[0].id, ops[0].frame)
  {
    var first := Publish("g1", frame, [], Manifest("a", [], 0, "", []), SWAP, false, false);
    var failure := Note(Manifest("a", [], 1, "", []), true);
    ops := [first, failure];
    var one := Apply(EMPTY_FILES, first);
    states := [EMPTY_FILES, one, Apply(one, failure)];
    assert Happens(ops, states, 0) && Happens(ops, states, 1);
  }

  /** It happens: two commits, the first of which could write no report. */
  lemma {:induction false} ReportCanBeLost(frame: Frame) returns (ops: seq<Op>, states: seq<Files>)
    requires Canonical(frame)
    ensures History(ops, states) && FreshAcquisitions(ops) && |ops| == 2 && Committed(ops[0]) && Committed(ops[1])
    ensures Lookup(states[1], ops[0].manifest.acquisition).Some? && Lookup(states[2], ops[0].manifest.acquisition).None?
  {
    var first := Publish("g1", frame, [], Manifest("a", [], 0, "", []), SWAP, false, false);
    var second := Publish("g2", frame, [], Manifest("b", [], 0, "", []), SWAP, true, true);
    ops := [first, second];
    var one := Apply(EMPTY_FILES, first);
    states := [EMPTY_FILES, one, Apply(one, second)];
    OperationIsAtomic(EMPTY_FILES, first);
    assert one.directories.Keys == {"g1"};
    assert "g1"[1] == '1' && "g2"[1] == '2' && "a"[0] == 'a' && "b"[0] == 'b';
    assert Happens(ops, states, 0) && Happens(ops, states, 1);
    UnreportedIsLostAtNextCommit(ops, states, 0, 1);
    UnreportedIsLostAtNextCommit(ops, states, 0, 2);
    assert Committed(ops[1]);
  }
}
