/** Cache-first acquisition: which sessions to fetch, and what a completed acquisition leaves behind. */
module Acquisition {
  import opened Market
  import opened Sessions
  import opened Frames
  import opened Lineage
  import opened Store
  import opened Candidates
  import opened Reals
  import DataStores
  import StoreSafety

  datatype Freshness = Freshness(recentTtl: nat, historicalTtl: nat, lag: nat, overlap: nat) {
    predicate Valid() {
      overlap >= 1
    }
  }

  datatype Policy = Policy(minimumCoverage: real, maximumGap: nat, relativeTolerance: real, absoluteTolerance: real) {
    predicate Valid() {
      0.0 <= minimumCoverage <= 1.0 && relativeTolerance >= 0.0 && absoluteTolerance >= 0.0
    }
  }

  datatype CacheStatus = CacheMiss | FullHit | PartialHit | StaleRefresh | ForcedRefresh | CacheInvalid

  /** One request: its sessions in order, when each closes, and its flags. */
  datatype Request = Request(sessions: seq<Day>, closes: Day -> int, useCache: bool, refresh: bool)

  function DaysIn(days: seq<Day>): set<Day> {
    set i | 0 <= i < |days| :: days[i]
  }

  // ----- staleness

  /** The position of the last session whose data should be available, or -1. */
  function LatestCompleted(r: Request, freshness: Freshness, now: int, n: nat): (i: int)
    requires n <= |r.sessions|
    ensures -1 <= i < n
  {
    if n == 0 then -1
    else if r.closes(r.sessions[n - 1]) + freshness.lag <= now then n - 1
    else LatestCompleted(r, freshness, now, n - 1)
  }

  /** The last `overlap` sessions up to the latest completed one. */
  function RecentWindow(r: Request, freshness: Freshness, now: int): set<Day> {
    var latest := LatestCompleted(r, freshness, now, |r.sessions|);
    set i | 0 <= i < |r.sessions| && latest - freshness.overlap < i <= latest :: r.sessions[i]
  }

  function Ttl(window: set<Day>, freshness: Freshness, d: Day): int {
    if d in window then freshness.recentTtl else freshness.historicalTtl
  }

  /** Some segment that claims the day is older than the day may be. */
  predicate Expired(lineage: seq<Segment>, window: set<Day>, freshness: Freshness, now: int, d: Day) {
    exists k :: 0 <= k < |lineage| && lineage[k].Has(d) && now - lineage[k].acquiredAt > Ttl(window, freshness, d)
  }

  predicate Claimed(lineage: seq<Segment>, d: Day) {
    exists k :: 0 <= k < |lineage| && lineage[k].Has(d)
  }

  function Stale(r: Request, freshness: Freshness, read: ReadResult, now: int): set<Day> {
    if !read.Hit? || read.frame == [] then {}
    else if read.manifest.lineage == [] then DaysIn(r.sessions)
    else
      var window := RecentWindow(r, freshness, now);
      set d | d in DaysIn(r.sessions) && (Expired(read.manifest.lineage, window, freshness, now, d)
                                          || (d in ByDay(read.frame) && !Claimed(read.manifest.lineage, d)))
  }

  /** `_stale_sessions`: one pass over the lineage segments. */
  method StaleSessions(r: Request, freshness: Freshness, read: ReadResult, now: int) returns (stale: set<Day>)
    ensures stale == Stale(r, freshness, read, now)
  {
    if !read.Hit? || read.frame == [] {
      return {};
    }
    var lineage := read.manifest.lineage;
    var expected := DaysIn(r.sessions);
    if lineage == [] {
      return expected;
    }
    var window := RecentWindow(r, freshness, now);
    stale := {};
    var covered: set<Day> := {};
    for k := 0 to |lineage|
      invariant forall d :: d in covered <==> d in expected && Claimed(lineage[..k], d)
      invariant forall d :: d in stale <==> d in expected && Expired(lineage[..k], window, freshness, now, d)
    {
      var relevant := set d | d in expected && lineage[k].Has(d);
      var age := now - lineage[k].acquiredAt;
      covered := covered + relevant;
      if age > freshness.recentTtl {
        stale := stale + relevant * window;
      }
      if age > freshness.historicalTtl {
        stale := stale + (relevant - window);
      }
      forall d: Day
        ensures Claimed(lineage[..k + 1], d) <==> Claimed(lineage[..k], d) || lineage[k].Has(d)
        ensures Expired(lineage[..k + 1], window, freshness, now, d) <==>
                Expired(lineage[..k], window, freshness, now, d) || (lineage[k].Has(d) && age > Ttl(window, freshness, d))
      {
        OneMoreSegment(lineage, k, window, freshness, now, d);
      }
    }
    assert lineage[..|lineage|] == lineage;
    stale := stale + set d | d in expected && d in ByDay(read.frame) && d !in covered;
    assert forall d :: d in stale <==> d in Stale(r, freshness, read, now);
  }

  lemma OneMoreSegment(lineage: seq<Segment>, k: nat, window: set<Day>, freshness: Freshness, now: int, d: Day)
    requires k < |lineage|
    ensures Claimed(lineage[..k + 1], d) <==> Claimed(lineage[..k], d) || lineage[k].Has(d)
    ensures Expired(lineage[..k + 1], window, freshness, now, d) <==>
            Expired(lineage[..k], window, freshness, now, d)
            || (lineage[k].Has(d) && now - lineage[k].acquiredAt > Ttl(window, freshness, d))
  {
    var more, fewer := lineage[..k + 1], lineage[..k];
    assert forall j :: 0 <= j < k ==> more[j] == fewer[j];
    assert more[k] == lineage[k];
  }

  // ----- planning

  function CachedDays(r: Request, read: ReadResult): set<Day> {
    if read.Hit? then set d | d in DaysIn(r.sessions) && d in ByDay(read.frame) else {}
  }

  /** The sessions to fetch. */
  function Needed(r: Request, freshness: Freshness, read: ReadResult, now: int): set<Day> {
    if !r.useCache || read.Invalidated? || r.refresh then DaysIn(r.sessions)
    else (DaysIn(r.sessions) - CachedDays(r, read)) + Stale(r, freshness, read, now)
  }

  function Status(r: Request, freshness: Freshness, read: ReadResult, now: int): CacheStatus {
    if !r.useCache then ForcedRefresh
    else if read.Invalidated? then CacheInvalid
    else if r.refresh then ForcedRefresh
    else if Stale(r, freshness, read, now) != {} then StaleRefresh
    else if DaysIn(r.sessions) - CachedDays(r, read) == {} then FullHit
    else if CachedDays(r, read) == {} then CacheMiss else PartialHit
  }

  /** `_plan_ranges`. */
  function Plan(r: Request, freshness: Freshness, read: ReadResult, now: int): seq<Range> {
    Grouped(r.sessions, Needed(r, freshness, read, now))
  }

  /** Planning exactness: the sessions inside the planned ranges are exactly the missing and the stale ones. */
  lemma {:induction false} PlanIsExact(r: Request, freshness: Freshness, read: ReadResult, now: int, d: Day)
    requires Ascending(r.sessions) && r.useCache && !r.refresh && !read.Invalidated?
    requires d in DaysIn(r.sessions)
    ensures Within(Plan(r, freshness, read, now), d) <==> d !in CachedDays(r, read) || d in Stale(r, freshness, read, now)
  {
    var i :| 0 <= i < |r.sessions| && r.sessions[i] == d;
    GroupingIsExact(r.sessions, Needed(r, freshness, read, now));
  }

  // ----- quality of the complete request

  /** `_requested_frame`. */
  function Requested(f: Frame, sessions: seq<Day>): Frame {
    Keep(f, d => d in DaysIn(sessions))
  }

  function Missing(f: Frame, sessions: seq<Day>): set<Day> {
    set d | d in DaysIn(sessions) && d !in ByDay(f)
  }

  function CoverageOf(f: Frame, sessions: seq<Day>): real {
    if sessions == [] then 1.0
    else |set d | d in DaysIn(sessions) && d in ByDay(f)| as real / |sessions| as real
  }

  /** `evaluate_complete_request` finds nothing fatal. */
  predicate Usable(f: Frame, sessions: seq<Day>, policy: Policy) {
    && f != [] && Sorted(f)
    && (forall i :: 0 <= i < |f| ==> f[i].Valid() && f[i].day in DaysIn(sessions))
    && CoverageOf(f, sessions) >= policy.minimumCoverage
    && MaxGap(Runs(sessions, Missing(f, sessions))) <= policy.maximumGap
  }

  // ----- corporate actions

  function Abs(x: real): (size: real)
    ensures size >= 0.0 && (size == x || size == -x)
  {
    if x < 0.0 then -x else x
  }

  /** `math.isclose`, of the sizes of two figures and of their difference. */
  predicate Near(policy: Policy, x: real, y: real, difference: real) {
    difference <= Max(policy.relativeTolerance * Max(x, y), policy.absoluteTolerance)
  }

  predicate Close(policy: Policy, x: real, y: real) {
    Near(policy, Abs(x), Abs(y), Abs(x - y))
  }

  /** A refetched row changed its dividend or split. */
  predicate ActionsChanged(policy: Policy, cached: Frame, fetched: seq<Accepted>) {
    exists i, j :: 0 <= i < |cached| && 0 <= j < |Rows(fetched)| && cached[i].day == Rows(fetched)[j].day
                   && (!Close(policy, cached[i].dividend, Rows(fetched)[j].dividend) || !Close(policy, cached[i].split, Rows(fetched)[j].split))
  }

  function WholeRange(sessions: seq<Day>): Range
    requires sessions != []
  {
    Range(sessions[0], sessions[|sessions| - 1])
  }

  // ----- the acquisition

  /** Every planned range in order; `None` when a fetch raises. */
  function FetchAll(ranges: seq<Range>, fetch: Range -> Option<Accepted>): Option<seq<Accepted>> {
    if ranges == [] then Some([])
    else
      var before := FetchAll(ranges[..|ranges| - 1], fetch);
      var last := fetch(ranges[|ranges| - 1]);
      if before.None? || last.None? then None else Some(before.value + [last.value])
  }

  /** The ranges as fetched, or the whole request when a corporate action changed. */
  function FetchPlanned(r: Request, policy: Policy, read: ReadResult, planned: seq<Range>, fetch: Range -> Option<Accepted>): Option<seq<Accepted>>
    requires r.sessions != []
  {
    var fetched := FetchAll(planned, fetch);
    if fetched.None? then None
    else
      var cached := if read.Hit? then Requested(read.frame, r.sessions) else [];
      if ActionsChanged(policy, cached, fetched.value) && planned != [WholeRange(r.sessions)]
      then FetchAll([WholeRange(r.sessions)], fetch) else fetched
  }

  datatype Acquired = Acquired(status: CacheStatus, planned: seq<Range>, frame: Frame, files: Files)

  /** Publication of one acquisition with no interference; `None` when it raises. */
  function PublishAlone(s: Files, r: Request, policy: Policy, work: Work, id: string, archiveWritable: bool, pinWritable: bool): Option<(Files, Frame)> {
    var outside := DataStores.Outside(f => Usable(Requested(f, r.sessions), r.sessions, policy), (k, f) => f, id, SWAP,
                                      archiveWritable, pinWritable);
    var (files, outcome) := DataStores.Attempts(s, work, work.base, 1, outside);
    if outcome.Done? then Some((files, outcome.frame)) else None
  }

  /** The part of `acquire` after planning at least one range. */
  function AcquirePlanned(s: Files, r: Request, freshness: Freshness, policy: Policy, now: int, fetch: Range -> Option<Accepted>,
                          acquisition: string, id: string, archiveWritable: bool, pinWritable: bool): Option<Acquired>
    requires r.sessions != []
  {
    var read := if r.useCache then Read(s) else Miss;
    var planned := Plan(r, freshness, read, now);
    var fetched := FetchPlanned(r, policy, read, planned, fetch);
    if fetched.None? then None
    else
      var work := Prepared(read, fetched.value, acquisition, now);
      if !Usable(Requested(work.candidate, r.sessions), r.sessions, policy) then None
      else
        match PublishAlone(s, r, policy, work, id, archiveWritable, pinWritable)
        case None => None
        case Some((files, frame)) => Some(Acquired(Status(r, freshness, read, now), planned, Requested(frame, r.sessions), files))
  }

  /** The report of an acquisition that was answered from the cache. */
  function HitReport(read: ReadResult, acquisition: string, now: int): Manifest {
    if read.Hit? then Manifest(acquisition, read.manifest.lineage, now, "", read.manifest.output) else Manifest(acquisition, [], now, "", [])
  }

  /** `acquire` with no concurrent writer; `None` when it raises. An answer from the cache archives its own report, and
      raises when it cannot. */
  function Acquire(s: Files, r: Request, freshness: Freshness, policy: Policy, now: int, fetch: Range -> Option<Accepted>,
                   acquisition: string, id: string, archiveWritable: bool, pinWritable: bool): Option<Acquired>
    requires r.sessions != []
  {
    var read := if r.useCache then Read(s) else Miss;
    if Plan(r, freshness, read, now) != [] then
      AcquirePlanned(s, r, freshness, policy, now, fetch, acquisition, id, archiveWritable, pinWritable)
    else
      var cached := if read.Hit? then Requested(read.frame, r.sessions) else [];
      var archive := Archived(s.archive, acquisition, HitReport(read, acquisition, now), archiveWritable);
      if Usable(cached, r.sessions, policy) && archive.Some?
      then Some(Acquired(Status(r, freshness, read, now), [], cached, s.(archive := archive.value))) else None
  }

  // ----- acquiring twice

  /** The providers answered in full: for each range one valid row of that range per session, received now. */
  ghost predicate AnswersInFull(r: Request, now: int, fetch: Range -> Option<Accepted>) {
    forall range: Range :: FullAnswer(r, now, range, fetch(range))
  }

  ghost predicate FullAnswer(r: Request, now: int, range: Range, answer: Option<Accepted>) {
    answer.Some? ==>
      && answer.value.range == range && answer.value.acquiredAt == now && Fetched(answer.value)
      && forall d :: d in DaysIn(r.sessions) && range.Has(d) ==> HasDay(answer.value.rows, d)
  }

  /** A cached row that no segment of its own provider claims; rebuilding dates it by the manifest that was
      read. */
  ghost predicate Orphan(read: ReadResult, d: Day) {
    read.Hit? && d in ByDay(read.frame) && FindBy(read.manifest.lineage, d, ByDay(read.frame)[d].source).None?
  }

  /** Every session that stays unfetched and is an orphan will be dated recently enough. */
  ghost predicate OrphansFresh(r: Request, freshness: Freshness, read: ReadResult, now: int, fetched: seq<Accepted>) {
    forall d :: d in DaysIn(r.sessions) && d !in ByDay(Rows(fetched)) && Orphan(read, d) ==>
      now - read.manifest.completedAt <= Ttl(RecentWindow(r, freshness, now), freshness, d)
  }

  lemma {:induction false} FetchAllAnswers(r: Request, now: int, ranges: seq<Range>, fetch: Range -> Option<Accepted>)
    requires AnswersInFull(r, now, fetch) && FetchAll(ranges, fetch).Some?
    ensures var fetched := FetchAll(ranges, fetch).value;
            |fetched| == |ranges| && forall k :: 0 <= k < |ranges| ==> FullAnswer(r, now, ranges[k], Some(fetched[k]))
  {
    if ranges != [] {
      FetchAllAnswers(r, now, ranges[..|ranges| - 1], fetch);
      assert FullAnswer(r, now, ranges[|ranges| - 1], fetch(ranges[|ranges| - 1]));
    }
  }

  /** What was fetched: every planned session has a row, and every fetched range was received now. */
  ghost predicate Supplied(r: Request, now: int, planned: set<Day>, fetched: seq<Accepted>) {
    && (forall d :: d in DaysIn(r.sessions) && d in planned ==> d in ByDay(Rows(fetched)))
    && (forall k :: 0 <= k < |fetched| ==> fetched[k].acquiredAt == now && Fetched(fetched[k]))
  }

  lemma {:induction false} HasDayInRows(fetched: seq<Accepted>, k: nat, d: Day)
    requires k < |fetched| && HasDay(fetched[k].rows, d)
    ensures d in ByDay(Rows(fetched))
  {
    var n := |fetched| - 1;
    ByDayOfConcat(Rows(fetched[..n]), fetched[n].rows);
    if k == n {
      DaysOf(fetched[n].rows, d);
    } else {
      HasDayInRows(fetched[..n], k, d);
    }
  }

  lemma {:induction false} RangesSupplied(r: Request, now: int, ranges: seq<Range>, planned: set<Day>, fetch: Range -> Option<Accepted>)
    requires AnswersInFull(r, now, fetch) && FetchAll(ranges, fetch).Some?
    requires forall d :: d in DaysIn(r.sessions) && d in planned ==> Within(ranges, d)
    ensures Supplied(r, now, planned, FetchAll(ranges, fetch).value)
  {
    FetchAllAnswers(r, now, ranges, fetch);
    var fetched := FetchAll(ranges, fetch).value;
    forall k | 0 <= k < |fetched|
      ensures fetched[k].acquiredAt == now && Fetched(fetched[k])
    {
      assert FullAnswer(r, now, ranges[k], Some(fetched[k]));
    }
    forall d | d in DaysIn(r.sessions) && d in planned
      ensures d in ByDay(Rows(fetched))
    {
      var k :| 0 <= k < |ranges| && ranges[k].Has(d);
      assert FullAnswer(r, now, ranges[k], Some(fetched[k]));
      HasDayInRows(fetched, k, d);
    }
  }

  lemma {:induction false} PlannedSupplied(r: Request, freshness: Freshness, policy: Policy, read: ReadResult, now: int, fetch: Range -> Option<Accepted>)
    requires Ascending(r.sessions) && r.sessions != [] && AnswersInFull(r, now, fetch)
    requires FetchPlanned(r, policy, read, Plan(r, freshness, read, now), fetch).Some?
    ensures Supplied(r, now, Needed(r, freshness, read, now), FetchPlanned(r, policy, read, Plan(r, freshness, read, now), fetch).value)
  {
    var needed, planned := Needed(r, freshness, read, now), Plan(r, freshness, read, now);
    forall d | d in DaysIn(r.sessions) && d in needed
      ensures Within(planned, d) && Within([WholeRange(r.sessions)], d)
    {
      var i :| 0 <= i < |r.sessions| && r.sessions[i] == d;
      RangesCoverChosen(r.sessions, needed, i);
      assert WholeRange(r.sessions).Has(d);
      assert [WholeRange(r.sessions)][0].Has(d);
    }
    RangesSupplied(r, now, planned, needed, fetch);
    if FetchAll([WholeRange(r.sessions)], fetch).Some? {
      RangesSupplied(r, now, [WholeRange(r.sessions)], needed, fetch);
    }
  }

  /** In a partition a row's day is claimed by one segment, so it has expired exactly when that one has. */
  lemma {:induction false} ExpiredBySays(lineage: seq<Segment>, rows: Frame, i: nat, window: set<Day>, freshness: Freshness, now: int)
    requires Partitions(lineage, rows) && Sorted(rows) && i < |rows|
    ensures var d := rows[i].day;
            && Claimed(lineage, d) && Says(lineage, d).Some?
            && (Expired(lineage, window, freshness, now, d) <==> now - Says(lineage, d).value.acquiredAt > Ttl(window, freshness, d))
  {
    RowFindsItsSegment(lineage, rows, i);
    var k := SegmentIndex(lineage, i);
    assert lineage[k].Has(rows[i].day);
  }

  /** After merging a full answer every session is present and claimed by one segment, and it has expired exactly
      when it is an orphan that stayed unfetched and is dated too long ago. */
  lemma {:induction false} SessionExpiry(r: Request, freshness: Freshness, read: ReadResult, now: int, fetched: seq<Accepted>, acquisition: string, d: Day)
    requires r.useCache && d in DaysIn(r.sessions)
    requires Supplied(r, now, Needed(r, freshness, read, now), fetched)
    ensures var work := Prepared(read, fetched, acquisition, now);
            && d in ByDay(work.candidate)
            && Claimed(work.manifest.lineage, d)
            && (Expired(work.manifest.lineage, RecentWindow(r, freshness, now), freshness, now, d)
                <==> d !in ByDay(Rows(fetched)) && Orphan(read, d)
                     && now - read.manifest.completedAt > Ttl(RecentWindow(r, freshness, now), freshness, d))
  {
    var work := Prepared(read, fetched, acquisition, now);
    var i := SessionRow(r, freshness, read, now, fetched, acquisition, d);
    ExpiredBySays(work.manifest.lineage, work.candidate, i, RecentWindow(r, freshness, now), freshness, now);
    PreparedSays(BaseOf(read), fetched, acquisition, now, i);
    SupplierIsInRows(fetched, d);
    if d !in ByDay(Rows(fetched)) {
      OwnSegmentFresh(r, freshness, read, now, d);
    }
  }

  /** After merging a full answer every session has its row: a fetched one, or the cached one. */
  lemma {:induction false} SessionRow(r: Request, freshness: Freshness, read: ReadResult, now: int, fetched: seq<Accepted>, acquisition: string, d: Day)
    returns (i: nat)
    requires r.useCache && d in DaysIn(r.sessions)
    requires Supplied(r, now, Needed(r, freshness, read, now), fetched)
    ensures var work := Prepared(read, fetched, acquisition, now);
            && Sorted(work.candidate) && Partitions(work.manifest.lineage, work.candidate)
            && i < |work.candidate| && work.candidate[i].day == d && d in ByDay(work.candidate)
            && (d !in ByDay(Rows(fetched)) ==> d !in Needed(r, freshness, read, now) && d in ByDay(FrameOf(BaseOf(read))) && work.candidate[i] == ByDay(FrameOf(BaseOf(read)))[d])
  {
    var base, rows := BaseOf(read), Prepared(read, fetched, acquisition, now).candidate;
    MergeOverrides(FrameOf(base), Rows(fetched));
    assert d in ByDay(rows);
    DaysOf(rows, d);
    i :| 0 <= i < |rows| && rows[i].day == d;
    SortedLookup(rows, i);
    GroupPartitions(rows, RebuiltProvenances(rows, LineageOf(base), DefaultTime(base, now), fetched));
  }

  /** The segment by which an unneeded session keeps its date has not expired. */
  lemma {:induction false} OwnSegmentFresh(r: Request, freshness: Freshness, read: ReadResult, now: int, d: Day)
    requires r.useCache && d in DaysIn(r.sessions) && d !in Needed(r, freshness, read, now)
    ensures read.Hit? && d in ByDay(read.frame)
    ensures var s := FindBy(read.manifest.lineage, d, ByDay(read.frame)[d].source);
            s.Some? ==> now - s.value.acquiredAt <= Ttl(RecentWindow(r, freshness, now), freshness, d)
  {
    var lineage, source := read.manifest.lineage, ByDay(read.frame)[d].source;
    DaysOf(read.frame, d);
    FindByIsAMember(lineage, d, source);
    if FindBy(lineage, d, source).Some? {
      var k :| 0 <= k < |lineage| && lineage[k] == FindBy(lineage, d, source).value && lineage[k].Has(d);
      assert !Expired(lineage, RecentWindow(r, freshness, now), freshness, now, d);
    }
  }

  lemma {:induction false} FindByIsAMember(lineage: seq<Segment>, d: Day, provider: Provider)
    ensures FindBy(lineage, d, provider).Some? ==>
              exists k :: 0 <= k < |lineage| && lineage[k] == FindBy(lineage, d, provider).value && lineage[k].Has(d)
  {
    if lineage != [] && !(lineage[0].Has(d) && lineage[0].provider == provider) {
      FindByIsAMember(lineage[1..], d, provider);
      if FindBy(lineage, d, provider).Some? {
        var k :| 0 <= k < |lineage[1..]| && lineage[1..][k] == FindBy(lineage[1..], d, provider).value && lineage[1..][k].Has(d);
        assert lineage[k + 1] == FindBy(lineage, d, provider).value;
      }
    }
  }

  lemma {:induction false} NothingNeededNothingPlanned(sessions: seq<Day>, n: nat)
    requires n <= |sessions|
    ensures RunsBelow(sessions, {}, n) == []
  {
    if n > 0 {
      NothingNeededNothingPlanned(sessions, n - 1);
    }
  }

  /** A read in which every session is present and fresh plans nothing and is a full hit. */
  lemma {:induction false} FreshReadPlansNothing(r: Request, freshness: Freshness, read: ReadResult, now: int)
    requires r.useCache && !r.refresh && read.Hit? && read.frame != []
    requires forall d :: d in DaysIn(r.sessions) ==>
               && d in ByDay(read.frame) && Claimed(read.manifest.lineage, d)
               && !Expired(read.manifest.lineage, RecentWindow(r, freshness, now), freshness, now, d)
    requires r.sessions != []
    ensures Plan(r, freshness, read, now) == [] && Status(r, freshness, read, now) == FullHit
  {
    assert r.sessions[0] in DaysIn(r.sessions);
    assert Claimed(read.manifest.lineage, r.sessions[0]);
    assert Stale(r, freshness, read, now) == {};
    assert DaysIn(r.sessions) - CachedDays(r, read) == {};
    assert Needed(r, freshness, read, now) == {};
    NothingNeededNothingPlanned(r.sessions, |r.sessions|);
  }

  lemma {:induction false} ReadAfterPublish(s: Files, id: string, frame: Frame, planned: seq<Range>, m: Manifest, archiveWritable: bool, pinWritable: bool)
    requires id !in s.directories && Canonical(frame)
    ensures Read(Apply(s, Publish(id, frame, planned, m, SWAP, archiveWritable, pinWritable))) == Hit(frame, Embedded(m, id, frame), id)
  {
    StoreSafety.ReportLeavesGenerations(PublishTo(s, id, frame, planned, m, SWAP), id, Embedded(m, id, frame), archiveWritable, pinWritable);
  }

  /** What a publication on the generation that was read leaves in CURRENT: the candidate, unrebased. */
  lemma {:induction false} PublishedCandidate(s: Files, r: Request, policy: Policy, work: Work, id: string, archiveWritable: bool, pinWritable: bool)
    requires work.base == Read(s).Id() && PublishAlone(s, r, policy, work, id, archiveWritable, pinWritable).Some?
    ensures var (files, frame) := PublishAlone(s, r, policy, work, id, archiveWritable, pinWritable).value;
            frame == work.candidate && Read(files) == Hit(work.candidate, Embedded(work.manifest, id, work.candidate), id)
            && Canonical(work.candidate)
  {
    var outside := DataStores.Outside(f => Usable(Requested(f, r.sessions), r.sessions, policy), (k, f) => f, id, SWAP, archiveWritable, pinWritable);
    FirstAttempt(s, work, outside);
    if Canonical(work.candidate) && id !in s.directories {
      ReadAfterPublish(s, id, work.candidate, work.Ranges(), work.manifest, archiveWritable, pinWritable);
    }
  }

  lemma {:induction false} FirstAttempt(s: Files, work: Work, outside: DataStores.Outside)
    requires work.base == Read(s).Id() && outside.probe(1, s) == s
    ensures var r := DataStores.Attempts(s, work, work.base, 1, outside);
            r.1.Done? ==> Canonical(work.candidate) && r == DataStores.Publication(s, work, work.candidate, work.manifest, outside)
  {
    assert !Read(s).Invalidated? ==> CurrentId(s) == Read(s).Id();
  }

  /** A read that plans nothing is answered from the cache. */
  lemma {:induction false} FullHitAnswers(s: Files, r: Request, freshness: Freshness, policy: Policy, now: int, fetch: Range -> Option<Accepted>,
                                          acquisition: string, id: string, archiveWritable: bool, pinWritable: bool)
    requires r.sessions != [] && r.useCache && Read(s).Hit?
    requires Plan(r, freshness, Read(s), now) == [] && Status(r, freshness, Read(s), now) == FullHit
    requires Usable(Requested(Read(s).frame, r.sessions), r.sessions, policy)
    ensures var archive := Archived(s.archive, acquisition, HitReport(Read(s), acquisition, now), archiveWritable);
            Acquire(s, r, freshness, policy, now, fetch, acquisition, id, archiveWritable, pinWritable)
            == if archive.Some? then Some(Acquired(FullHit, [], Requested(Read(s).frame, r.sessions), s.(archive := archive.value))) else None
  {
  }

  /** The ranges that the first acquisition fetched. */
  function FetchedBy(r: Request, freshness: Freshness, policy: Policy, read: ReadResult, now: int, fetch: Range -> Option<Accepted>): seq<Accepted>
    requires r.sessions != []
  {
    var fetched := FetchPlanned(r, policy, read, Plan(r, freshness, read, now), fetch);
    if fetched.Some? then fetched.value else []
  }

  /** What a successful acquisition that had to fetch leaves behind. */
  lemma {:induction false} FetchedLeaves(s: Files, r: Request, freshness: Freshness, policy: Policy, now: int, fetch: Range -> Option<Accepted>,
                                         a: string, id: string, archiveWritable: bool, pinWritable: bool)
    requires r.sessions != [] && Ascending(r.sessions) && r.useCache && AnswersInFull(r, now, fetch)
    requires AcquirePlanned(s, r, freshness, policy, now, fetch, a, id, archiveWritable, pinWritable).Some?
    ensures var first := AcquirePlanned(s, r, freshness, policy, now, fetch, a, id, archiveWritable, pinWritable).value;
            var read, again := Read(first.files), r.(refresh := false);
            && read.Hit? && first.frame == Requested(read.frame, r.sessions) && Usable(first.frame, r.sessions, policy)
            && (OrphansFresh(r, freshness, Read(s), now, FetchedBy(r, freshness, policy, Read(s), now, fetch))
                ==> Plan(again, freshness, read, now) == [] && Status(again, freshness, read, now) == FullHit)
            && (!OrphansFresh(r, freshness, Read(s), now, FetchedBy(r, freshness, policy, Read(s), now, fetch))
                ==> Plan(again, freshness, read, now) != [])
  {
    var read := Read(s);
    var fetched := FetchPlanned(r, policy, read, Plan(r, freshness, read, now), fetch).value;
    PlannedSupplied(r, freshness, policy, read, now, fetch);
    var work := Prepared(read, fetched, a, now);
    PublishedCandidate(s, r, policy, work, id, archiveWritable, pinWritable);
    var published := Hit(work.candidate, Embedded(work.manifest, id, work.candidate), id);
    if OrphansFresh(r, freshness, read, now, fetched) {
      PreparedIsFresh(r, freshness, read, now, fetched, a, published);
    } else {
      PreparedIsStale(r, freshness, read, now, fetched, a, published);
    }
  }

  lemma {:induction false} PreparedIsFresh(r: Request, freshness: Freshness, read: ReadResult, now: int, fetched: seq<Accepted>, a: string, published: ReadResult)
    requires r.sessions != [] && r.useCache && OrphansFresh(r, freshness, read, now, fetched)
    requires Supplied(r, now, Needed(r, freshness, read, now), fetched)
    requires var work := Prepared(read, fetched, a, now);
             published.Hit? && published.frame == work.candidate && published.frame != [] && published.manifest.lineage == work.manifest.lineage
    ensures Plan(r.(refresh := false), freshness, published, now) == [] && Status(r.(refresh := false), freshness, published, now) == FullHit
  {
    var again := r.(refresh := false);
    WindowIgnoresFlags(r, again, freshness, now, |r.sessions|);
    forall d | d in DaysIn(again.sessions)
      ensures d in ByDay(published.frame) && Claimed(published.manifest.lineage, d)
      ensures !Expired(published.manifest.lineage, RecentWindow(again, freshness, now), freshness, now, d)
    {
      SessionExpiry(r, freshness, read, now, fetched, a, d);
    }
    FreshReadPlansNothing(again, freshness, published, now);
  }

  lemma {:induction false} PreparedIsStale(r: Request, freshness: Freshness, read: ReadResult, now: int, fetched: seq<Accepted>, a: string, published: ReadResult)
    requires r.sessions != [] && Ascending(r.sessions) && r.useCache && !OrphansFresh(r, freshness, read, now, fetched)
    requires Supplied(r, now, Needed(r, freshness, read, now), fetched)
    requires var work := Prepared(read, fetched, a, now);
             published.Hit? && published.frame == work.candidate && published.frame != [] && published.manifest.lineage == work.manifest.lineage
    ensures Plan(r.(refresh := false), freshness, published, now) != []
  {
    var again := r.(refresh := false);
    WindowIgnoresFlags(r, again, freshness, now, |r.sessions|);
    var d :| d in DaysIn(r.sessions) && d !in ByDay(Rows(fetched)) && Orphan(read, d)
             && now - read.manifest.completedAt > Ttl(RecentWindow(r, freshness, now), freshness, d);
    SessionExpiry(r, freshness, read, now, fetched, a, d);
    var i :| 0 <= i < |r.sessions| && r.sessions[i] == d;
    assert d in Needed(again, freshness, published, now);
    RangesCoverChosen(again.sessions, Needed(again, freshness, published, now), i);
  }

  lemma {:induction false} WindowIgnoresFlags(r: Request, again: Request, freshness: Freshness, now: int, n: nat)
    requires again == r.(refresh := false) && n <= |r.sessions|
    ensures LatestCompleted(again, freshness, now, n) == LatestCompleted(r, freshness, now, n)
    ensures n == |r.sessions| ==> RecentWindow(again, freshness, now) == RecentWindow(r, freshness, now)
  {
    if n > 0 {
      WindowIgnoresFlags(r, again, freshness, now, n - 1);
    }
  }

  /** The second acquisition is a full hit: it plans nothing, so it calls no provider, returns the first one's frame
      and leaves every generation, CURRENT and the pins as they are; the archive gains its report, which repeats
      CURRENT's lineage and output, and nothing else. */
  ghost predicate IsFullHit(second: Option<Acquired>, first: Acquired, acquisition: string, now: int) {
    var read := Read(first.files);
    read.Hit? && second == Some(Acquired(FullHit, [], first.frame,
                                         first.files.(archive := first.files.archive[acquisition := Manifest(acquisition, read.manifest.lineage, now, "",
                                                                                                             read.manifest.output)])))
  }

  /** The archive can be written and has no other report under the identifier. */
  ghost predicate TakesReport(s: Files, acquisition: string, now: int, archiveWritable: bool) {
    if acquisition in s.archive then s.archive[acquisition] == HitReport(Read(s), acquisition, now) else archiveWritable
  }

  /** When acquiring is idempotent, from whatever cache: after a successful acquisition in which the providers
      answered in full, a second, non-refresh acquisition of the same request at the same instant is a full hit,
      whatever the providers would answer, if and only if the archive takes its report and either the first one
      planned nothing or every orphan it left unfetched is dated recently enough by the manifest that was read. */
  lemma {:induction false} AcquireTwiceExactly(s: Files, r: Request, freshness: Freshness, policy: Policy, now: int,
                                               fetch: Range -> Option<Accepted>, fetchAgain: Range -> Option<Accepted>,
                                               a: string, b: string, id: string, id2: string,
                                               archiveWritable: bool, pinWritable: bool, archiveAgain: bool, pinAgain: bool)
    requires r.sessions != [] && Ascending(r.sessions) && r.useCache && AnswersInFull(r, now, fetch)
    requires Acquire(s, r, freshness, policy, now, fetch, a, id, archiveWritable, pinWritable).Some?
    ensures var first := Acquire(s, r, freshness, policy, now, fetch, a, id, archiveWritable, pinWritable).value;
            IsFullHit(Acquire(first.files, r.(refresh := false), freshness, policy, now, fetchAgain, b, id2, archiveAgain, pinAgain), first, b, now)
            <==> TakesReport(first.files, b, now, archiveAgain)
                 && (first.planned == [] || OrphansFresh(r, freshness, Read(s), now, FetchedBy(r, freshness, policy, Read(s), now, fetch)))
  {
    var first := Acquire(s, r, freshness, policy, now, fetch, a, id, archiveWritable, pinWritable).value;
    var again := r.(refresh := false);
    if Plan(r, freshness, Read(s), now) == [] {
      PlansNothingAgain(r, freshness, Read(s), now);
      HitLeavesCache(s, r, freshness, policy, now, fetch, a, id, archiveWritable, pinWritable);
      HitAgain(first, again, freshness, policy, now, fetchAgain, b, id2, archiveAgain, pinAgain);
    } else {
      FetchedLeaves(s, r, freshness, policy, now, fetch, a, id, archiveWritable, pinWritable);
      if Plan(again, freshness, Read(first.files), now) == [] {
        HitAgain(first, again, freshness, policy, now, fetchAgain, b, id2, archiveAgain, pinAgain);
      } else {
        PlannedIsReported(first.files, again, freshness, policy, now, fetchAgain, b, id2, archiveAgain, pinAgain);
      }
    }
  }

  /** An answer from the cache leaves the cache as it was. */
  lemma {:induction false} HitLeavesCache(s: Files, r: Request, freshness: Freshness, policy: Policy, now: int, fetch: Range -> Option<Accepted>,
                                          acquisition: string, id: string, archiveWritable: bool, pinWritable: bool)
    requires r.sessions != [] && r.useCache && Read(s).Hit? && Plan(r, freshness, Read(s), now) == []
    requires Acquire(s, r, freshness, policy, now, fetch, acquisition, id, archiveWritable, pinWritable).Some?
    ensures var first := Acquire(s, r, freshness, policy, now, fetch, acquisition, id, archiveWritable, pinWritable).value;
            && Read(first.files) == Read(s) && first.planned == []
            && first.frame == Requested(Read(s).frame, r.sessions) && Usable(first.frame, r.sessions, policy)
  {
  }

  /** A second acquisition that plans nothing is a full hit exactly when its report is taken. */
  lemma {:induction false} HitAgain(first: Acquired, r: Request, freshness: Freshness, policy: Policy, now: int, fetch: Range -> Option<Accepted>,
                                    b: string, id: string, archiveWritable: bool, pinWritable: bool)
    requires r.sessions != [] && r.useCache && Read(first.files).Hit?
    requires Plan(r, freshness, Read(first.files), now) == [] && Status(r, freshness, Read(first.files), now) == FullHit
    requires first.frame == Requested(Read(first.files).frame, r.sessions) && Usable(first.frame, r.sessions, policy)
    ensures IsFullHit(Acquire(first.files, r, freshness, policy, now, fetch, b, id, archiveWritable, pinWritable), first, b, now)
            <==> TakesReport(first.files, b, now, archiveWritable)
  {
    FullHitAnswers(first.files, r, freshness, policy, now, fetch, b, id, archiveWritable, pinWritable);
    var report := HitReport(Read(first.files), b, now);
    if b in first.files.archive && first.files.archive[b] == report {
      assert first.files.archive[b := report] == first.files.archive;
    }
  }

  lemma {:induction false} PlannedIsReported(s: Files, r: Request, freshness: Freshness, policy: Policy, now: int, fetch: Range -> Option<Accepted>,
                                             acquisition: string, id: string, archiveWritable: bool, pinWritable: bool)
    requires r.sessions != [] && r.useCache && Plan(r, freshness, Read(s), now) != []
    ensures var second := Acquire(s, r, freshness, policy, now, fetch, acquisition, id, archiveWritable, pinWritable);
            second.Some? ==> second.value.planned != []
  {
  }

  ghost predicate DatedBy(lineage: seq<Segment>, time: int) {
    forall k :: 0 <= k < |lineage| ==> lineage[k].acquiredAt <= time
  }

  /** No segment is dated after the manifest that carries it. */
  ghost predicate Dated(m: Manifest) {
    DatedBy(m.lineage, m.completedAt)
  }

  /** In a cache whose manifest is dated, or whose lineage names the provider of every row, orphans are never
      too old: there the acquisition is idempotent. */
  lemma {:induction false} DatedCacheIsEnough(r: Request, freshness: Freshness, read: ReadResult, now: int, fetched: seq<Accepted>)
    requires r.useCache && Supplied(r, now, Needed(r, freshness, read, now), fetched)
    requires read.Hit? ==> Dated(read.manifest) || forall d :: d in ByDay(read.frame) ==> NamesProvider(read.manifest.lineage, read.frame, d)
    ensures OrphansFresh(r, freshness, read, now, fetched)
  {
    var window := RecentWindow(r, freshness, now);
    forall d | d in DaysIn(r.sessions) && d !in ByDay(Rows(fetched)) && Orphan(read, d)
      ensures now - read.manifest.completedAt <= Ttl(window, freshness, d)
    {
      var lineage := read.manifest.lineage;
      OwnSegmentFresh(r, freshness, read, now, d);
      DaysOf(read.frame, d);
      assert Claimed(lineage, d) && !Expired(lineage, window, freshness, now, d);
      if Dated(read.manifest) {
        var k :| 0 <= k < |lineage| && lineage[k].Has(d);
      } else {
        NamedIsNoOrphan(lineage, d, ByDay(read.frame)[d].source);
      }
    }
  }

  lemma {:induction false} NamedIsNoOrphan(lineage: seq<Segment>, d: Day, provider: Provider)
    requires Says(lineage, d).Some? && Says(lineage, d).value.provider == provider
    ensures FindBy(lineage, d, provider).Some?
  {
    if !lineage[0].Has(d) {
      NamedIsNoOrphan(lineage[1..], d, provider);
    }
  }

  /** Acquiring is idempotent from every such cache, as long as the archive takes the second report. */
  lemma {:induction false} AcquireTwice(s: Files, r: Request, freshness: Freshness, policy: Policy, now: int,
                                        fetch: Range -> Option<Accepted>, fetchAgain: Range -> Option<Accepted>,
                                        a: string, b: string, id: string, id2: string,
                                        archiveWritable: bool, pinWritable: bool, archiveAgain: bool, pinAgain: bool)
    requires r.sessions != [] && Ascending(r.sessions) && r.useCache && AnswersInFull(r, now, fetch)
    requires var read := Read(s);
             read.Hit? ==> Dated(read.manifest) || forall d :: d in ByDay(read.frame) ==> NamesProvider(read.manifest.lineage, read.frame, d)
    requires Acquire(s, r, freshness, policy, now, fetch, a, id, archiveWritable, pinWritable).Some?
    ensures var first := Acquire(s, r, freshness, policy, now, fetch, a, id, archiveWritable, pinWritable).value;
            IsFullHit(Acquire(first.files, r.(refresh := false), freshness, policy, now, fetchAgain, b, id2, archiveAgain, pinAgain), first, b, now)
            <==> TakesReport(first.files, b, now, archiveAgain)
  {
    AcquireTwiceExactly(s, r, freshness, policy, now, fetch, fetchAgain, a, b, id, id2, archiveWritable, pinWritable, archiveAgain, pinAgain);
    if Plan(r, freshness, Read(s), now) != [] {
      PlannedSupplied(r, freshness, policy, Read(s), now, fetch);
      DatedCacheIsEnough(r, freshness, Read(s), now, FetchedBy(r, freshness, policy, Read(s), now, fetch));
    }
  }

  /** The report is what can fail: from such a cache, a second acquisition whose report the archive does not take
      raises, although everything it would return is there. */
  lemma {:induction false} RefusedReportRaises(s: Files, r: Request, freshness: Freshness, policy: Policy, now: int,
                                               fetch: Range -> Option<Accepted>, fetchAgain: Range -> Option<Accepted>,
                                               a: string, b: string, id: string, id2: string,
                                               archiveWritable: bool, pinWritable: bool, archiveAgain: bool, pinAgain: bool)
    requires r.sessions != [] && Ascending(r.sessions) && r.useCache && AnswersInFull(r, now, fetch)
    requires Acquire(s, r, freshness, policy, now, fetch, a, id, archiveWritable, pinWritable).Some?
    requires var first := Acquire(s, r, freshness, policy, now, fetch, a, id, archiveWritable, pinWritable).value;
             && (first.planned == [] || OrphansFresh(r, freshness, Read(s), now, FetchedBy(r, freshness, policy, Read(s), now, fetch)))
             && !TakesReport(first.files, b, now, archiveAgain)
    ensures var first := Acquire(s, r, freshness, policy, now, fetch, a, id, archiveWritable, pinWritable).value;
            Acquire(first.files, r.(refresh := false), freshness, policy, now, fetchAgain, b, id2, archiveAgain, pinAgain).None?
  {
    var first := Acquire(s, r, freshness, policy, now, fetch, a, id, archiveWritable, pinWritable).value;
    var again := r.(refresh := false);
    if Plan(r, freshness, Read(s), now) == [] {
      PlansNothingAgain(r, freshness, Read(s), now);
      HitLeavesCache(s, r, freshness, policy, now, fetch, a, id, archiveWritable, pinWritable);
    } else {
      FetchedLeaves(s, r, freshness, policy, now, fetch, a, id, archiveWritable, pinWritable);
      PlannedIsReported(s, r, freshness, policy, now, fetch, a, id, archiveWritable, pinWritable);
    }
    FullHitAnswers(first.files, again, freshness, policy, now, fetchAgain, b, id2, archiveAgain, pinAgain);
  }

  /** An acquisition that planned nothing was not a refresh, and would plan nothing again. */
  lemma {:induction false} PlansNothingAgain(r: Request, freshness: Freshness, read: ReadResult, now: int)
    requires r.sessions != [] && Ascending(r.sessions) && r.useCache
    requires Plan(r, freshness, read, now) == []
    ensures Plan(r.(refresh := false), freshness, read, now) == [] && Status(r.(refresh := false), freshness, read, now) == FullHit
    ensures read.Hit?
  {
    var needed := Needed(r, freshness, read, now);
    forall d | d in DaysIn(r.sessions)
      ensures d !in needed
    {
      var i :| 0 <= i < |r.sessions| && r.sessions[i] == d;
      RangesCoverChosen(r.sessions, needed, i);
    }
    assert r.sessions[0] in DaysIn(r.sessions);
    assert Needed(r, freshness, read, now) == {};
    assert !r.refresh;
    assert r.(refresh := false) == r;
    assert CachedDays(r, read) == DaysIn(r.sessions);
  }
}
