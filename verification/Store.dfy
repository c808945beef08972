/** The files of one cache namespace: immutable generation directories behind one CURRENT pointer, pins
    and the append-only report archive. Digests are modelled as the content they digest. */
module Store {
  import opened Market
  import opened Sessions
  import opened Frames
  import opened Lineage

  /** `generation` and `output` are filled in when the manifest is embedded in a generation. */
  datatype Manifest = Manifest(acquisition: string, lineage: seq<Segment>, completedAt: int, generation: string, output: Frame)

  datatype Metadata = Metadata(generation: string, planned: seq<Range>)

  /** A generation directory; a missing artifact is `None`. */
  datatype Directory = Directory(bars: Option<Frame>, metadata: Option<Metadata>, manifest: Option<Manifest>)

  /** CURRENT.json: the generation it names, its predecessor, and the digests of the three artifacts. */
  datatype Pointer = Pointer(generation: string, previous: Option<string>, bars: Frame, metadata: Metadata, manifest: Manifest)

  datatype Pin = Pin(generation: string, acquisition: string)

  datatype Files = Files(directories: map<string, Directory>, pointer: Option<Pointer>, pins: seq<Pin>, archive: map<string, Manifest>)

  const EMPTY_FILES := Files(map[], None, [], map[])

  // ----- reading

  predicate Canonical(f: Frame) {
    f != [] && Sorted(f) && forall i :: 0 <= i < |f| ==> f[i].Valid()
  }

  /** `_generation_directory_valid`. */
  predicate DirectoryValid(generation: string, d: Directory) {
    && d.bars.Some? && d.metadata.Some? && d.manifest.Some?
    && d.metadata.value.generation == generation
    && Canonical(d.bars.value)
    && d.manifest.value.output == d.bars.value
  }

  datatype ReadResult = Miss | Invalidated | Hit(frame: Frame, manifest: Manifest, generation: string) {
    function Id(): Option<string> {
      if Hit? then Some(generation) else None
    }
  }

  /** `read_generation`: follow CURRENT and accept only what its digests vouch for. */
  function Read(s: Files): ReadResult {
    if s.pointer.None? then Miss
    else
      var p := s.pointer.value;
      if p.generation !in s.directories then Invalidated
      else
        var d := s.directories[p.generation];
        if && d.bars == Some(p.bars) && d.metadata == Some(p.metadata) && d.manifest == Some(p.manifest)
           && DirectoryValid(p.generation, d)
           && p.manifest.generation == p.generation
        then Hit(p.bars, p.manifest, p.generation) else Invalidated
  }

  function CurrentId(s: Files): Option<string> {
    if s.pointer.None? then None else Some(s.pointer.value.generation)
  }

  // ----- publishing

  /** The number of file operations up to and including the pointer swap: make the directory, write bars,
      metadata and manifest, write the temporary pointer, swap it in. */
  const SWAP := 6

  function Embedded(m: Manifest, id: string, frame: Frame): Manifest {
    m.(generation := id, output := frame)
  }

  /** The directory after the first `done` operations. */
  function Written(id: string, frame: Frame, planned: seq<Range>, m: Manifest, done: nat): Directory {
    Directory(if done >= 2 then Some(frame) else None,
              if done >= 3 then Some(Metadata(id, planned)) else None,
              if done >= 4 then Some(Embedded(m, id, frame)) else None)
  }

  function PointerTo(id: string, previous: Option<string>, frame: Frame, planned: seq<Range>, m: Manifest): Pointer {
    Pointer(id, previous, frame, Metadata(id, planned), Embedded(m, id, frame))
  }

  /** `_publish_locked` after its first `done` operations; an existing identifier is refused. */
  function PublishTo(s: Files, id: string, frame: Frame, planned: seq<Range>, m: Manifest, done: nat): Files {
    if id in s.directories || done == 0 then s
    else
      var written := s.(directories := s.directories[id := Written(id, frame, planned, m, done)]);
      if done < SWAP then written else written.(pointer := Some(PointerTo(id, CurrentId(s), frame, planned, m)))
  }

  /** `archive_document`: append-only; a second, different report under an identifier is refused. */
  function Archived(archive: map<string, Manifest>, id: string, m: Manifest, writable: bool): Option<map<string, Manifest>> {
    if id in archive then (if archive[id] == m then Some(archive) else None)
    else if writable then Some(archive[id := m]) else None
  }

  function PinWritten(pins: seq<Pin>, pin: Pin, writable: bool): Option<seq<Pin>> {
    if !writable || exists i :: 0 <= i < |pins| && pins[i].generation == pin.generation then None else Some(pins + [pin])
  }

  /** `_archive_after_commit`: archive the report, else pin the generation that embeds it. */
  function Report(s: Files, id: string, m: Manifest, archiveWritable: bool, pinWritable: bool): Files {
    var archive := Archived(s.archive, m.acquisition, m, archiveWritable);
    if archive.Some? then s.(archive := archive.value)
    else
      var pins := PinWritten(s.pins, Pin(id, m.acquisition), pinWritable);
      if pins.Some? then s.(pins := pins.value) else s
  }

  /** A report archived on its own; a refused one changes nothing. */
  function Noted(s: Files, m: Manifest, writable: bool): Files {
    var archive := Archived(s.archive, m.acquisition, m, writable);
    if archive.Some? then s.(archive := archive.value) else s
  }

  // ----- cleanup

  function PinnedIds(pins: seq<Pin>): set<string> {
    set i | 0 <= i < |pins| :: pins[i].generation
  }

  function Retained(s: Files): set<string>
    requires s.pointer.Some?
  {
    var p := s.pointer.value;
    {p.generation} + PinnedIds(s.pins)
    + if p.previous.Some? && p.previous.value in s.directories && DirectoryValid(p.previous.value, s.directories[p.previous.value])
      then {p.previous.value} else {}
  }

  /** `cleanup_generations`; `stuck` are the directories whose removal fails. */
  function Cleanup(s: Files, stuck: set<string>): Files {
    if !Read(s).Hit? then s
    else s.(directories := map g | g in s.directories && (g in Retained(s) || g in stuck) :: s.directories[g])
  }

  // ----- archive maintenance and lookup

  /** The report embedded in a generation, if its identities agree. */
  function EmbeddedReport(s: Files, generation: string, acquisition: string): Option<Manifest> {
    if generation in s.directories && s.directories[generation].manifest.Some?
       && s.directories[generation].manifest.value.acquisition == acquisition
       && s.directories[generation].manifest.value.generation == generation
    then s.directories[generation].manifest else None
  }

  /** Retry one pin: archive the embedded report, then drop the pin; `refused` are the identifiers whose
      archiving fails and `held` the generations whose pin cannot be removed. */
  function RetryPin(s: Files, pin: Pin, refused: set<string>, held: set<string>): Files {
    var report := EmbeddedReport(s, pin.generation, pin.acquisition);
    if report.None? then s
    else
      var archive := Archived(s.archive, pin.acquisition, report.value, pin.acquisition !in refused);
      if archive.None? then s
      else s.(archive := archive.value, pins := if pin.generation in held then s.pins else WithoutPin(s.pins, pin))
  }

  function WithoutPin(pins: seq<Pin>, pin: Pin): seq<Pin> {
    if pins == [] then []
    else
      var rest, last := WithoutPin(pins[..|pins| - 1], pin), pins[|pins| - 1];
      if last == pin then rest else rest + [last]
  }

  function RetryPins(s: Files, pins: seq<Pin>, refused: set<string>, held: set<string>): Files {
    if pins == [] then s
    else RetryPin(RetryPins(s, pins[..|pins| - 1], refused, held), pins[|pins| - 1], refused, held)
  }

  /** The report embedded in CURRENT. */
  function CurrentReport(s: Files): Option<Manifest> {
    if s.pointer.None? then None
    else
      var g := s.pointer.value.generation;
      if g in s.directories && s.directories[g].manifest.Some?
      then EmbeddedReport(s, g, s.directories[g].manifest.value.acquisition) else None
  }

  predicate Pinned(s: Files, generation: string) {
    exists i :: 0 <= i < |s.pins| && s.pins[i].generation == generation
  }

  function ArchiveCurrent(s: Files, refused: set<string>): Files {
    var report := CurrentReport(s);
    if report.None? || Pinned(s, report.value.generation) || report.value.acquisition in s.archive then s
    else
      var archive := Archived(s.archive, report.value.acquisition, report.value, report.value.acquisition !in refused);
      if archive.None? then s else s.(archive := archive.value)
  }

  /** `maintain_manifest_archive`. */
  function Maintain(s: Files, refused: set<string>, held: set<string>): Files {
    ArchiveCurrent(RetryPins(s, s.pins, refused, held), refused)
  }

  function PinnedReport(s: Files, pins: seq<Pin>, acquisition: string): Option<Manifest> {
    if pins == [] then None
    else
      var before := PinnedReport(s, pins[..|pins| - 1], acquisition);
      if before.Some? then before
      else if pins[|pins| - 1].acquisition == acquisition
      then EmbeddedReport(s, pins[|pins| - 1].generation, acquisition) else None
  }

  /** `lookup_manifest`: the archive, else a pinned generation, else an unpinned CURRENT. */
  function Lookup(s: Files, acquisition: string): Option<Manifest> {
    if acquisition in s.archive then Some(s.archive[acquisition])
    else
      var pinned := PinnedReport(s, s.pins, acquisition);
      if pinned.Some? then pinned
      else
        var report := CurrentReport(s);
        if report.Some? && !Pinned(s, report.value.generation) && report.value.acquisition == acquisition then report else None
  }

  // ----- operations over a whole history

  /** What can happen to the files. A publication may stop after any number of its file operations; the
      two flags say whether the archive and the pin could be written afterwards. A note is the report of an
      acquisition that publishes nothing: one answered from the cache, or one that failed. */
  datatype Op =
    | Publish(id: string, frame: Frame, planned: seq<Range>, manifest: Manifest, done: nat, archiveWritable: bool, pinWritable: bool)
    | Note(manifest: Manifest, writable: bool)
    | Clean(stuck: set<string>)
    | Tend(refused: set<string>, held: set<string>)

  /** Publications are made by validated writers under a new identifier; a publisher that cannot read
      CURRENT refuses to publish. */
  predicate Allowed(s: Files, op: Op) {
    op.Publish? ==> !Read(s).Invalidated? && op.id !in s.directories && Canonical(op.frame)
  }

  predicate Committed(op: Op) {
    op.Publish? && op.done >= SWAP
  }

  /** The operation reports under this acquisition identifier. */
  predicate Names(op: Op, acquisition: string) {
    (op.Publish? || op.Note?) && op.manifest.acquisition == acquisition
  }

  function Apply(s: Files, op: Op): Files {
    match op
    case Publish(id, frame, planned, m, done, archiveWritable, pinWritable) =>
      var after := PublishTo(s, id, frame, planned, m, done);
      if done >= SWAP && id !in s.directories then Report(after, id, Embedded(m, id, frame), archiveWritable, pinWritable) else after
    case Note(m, writable) => Noted(s, m, writable)
    case Clean(stuck) => Cleanup(s, stuck)
    case Tend(refused, held) => Maintain(s, refused, held)
  }
}
