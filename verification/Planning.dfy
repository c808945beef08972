/** When a session is fetched, when an acquisition counts as what, when the whole request is fetched again and when
    an answer is usable: each as a condition on the request, the cache and the clock alone. */
module Planning {
  import opened Market
  import opened Reals
  import opened Sessions
  import opened Frames
  import opened Lineage
  import opened Store
  import opened Candidates
  import opened Acquisition

  // ----- which sessions are fetched

  /** The provider should have the session's bar by now. */
  predicate Completed(r: Request, freshness: Freshness, now: int, i: nat)
    requires i < |r.sessions|
  {
    r.closes(r.sessions[i]) + freshness.lag <= now
  }

  /** The last session that is completed, whatever comes before it. */
  ghost predicate LastCompleted(r: Request, freshness: Freshness, now: int, last: nat)
    requires last < |r.sessions|
  {
    Completed(r, freshness, now, last) && forall j :: last < j < |r.sessions| ==> !Completed(r, freshness, now, j)
  }

  /** The session is among the `overlap` sessions that end with the last completed one. */
  ghost predicate Recent(r: Request, freshness: Freshness, now: int, i: nat)
    requires i < |r.sessions|
  {
    exists last: nat :: i <= last < |r.sessions| && LastCompleted(r, freshness, now, last) && last - i < freshness.overlap
  }

  /** Some segment that claims the day was acquired more than this long ago. */
  ghost predicate OlderThan(lineage: seq<Segment>, now: int, d: Day, ttl: nat) {
    exists k :: 0 <= k < |lineage| && lineage[k].Has(d) && now - lineage[k].acquiredAt > ttl
  }

  /** A recent session is held to the recent limit and every other one to the historical limit. */
  ghost predicate Overdue(r: Request, freshness: Freshness, lineage: seq<Segment>, now: int, i: nat)
    requires i < |r.sessions|
  {
    || (Recent(r, freshness, now, i) && OlderThan(lineage, now, r.sessions[i], freshness.recentTtl))
    || (!Recent(r, freshness, now, i) && OlderThan(lineage, now, r.sessions[i], freshness.historicalTtl))
  }

  lemma {:induction false} LatestIsLast(r: Request, freshness: Freshness, now: int, n: nat)
    requires n <= |r.sessions|
    ensures var last := LatestCompleted(r, freshness, now, n);
            && (last >= 0 ==> Completed(r, freshness, now, last))
            && forall j :: last < j < n ==> !Completed(r, freshness, now, j)
  {
    if n > 0 {
      LatestIsLast(r, freshness, now, n - 1);
    }
  }

  lemma {:induction false} WindowIsRecent(r: Request, freshness: Freshness, now: int, i: nat)
    requires Ascending(r.sessions) && i < |r.sessions|
    ensures r.sessions[i] in RecentWindow(r, freshness, now) <==> Recent(r, freshness, now, i)
  {
    var latest := LatestCompleted(r, freshness, now, |r.sessions|);
    LatestIsLast(r, freshness, now, |r.sessions|);
    if r.sessions[i] in RecentWindow(r, freshness, now) {
      var j :| 0 <= j < |r.sessions| && latest - freshness.overlap < j <= latest && r.sessions[j] == r.sessions[i];
      assert j == i;
      assert LastCompleted(r, freshness, now, latest);
    }
    if Recent(r, freshness, now, i) {
      var last: nat :| i <= last < |r.sessions| && LastCompleted(r, freshness, now, last) && last - i < freshness.overlap;
      assert last == latest;
    }
  }

  /** A non-empty cache holds the session to be refreshed: it has no lineage at all, or the session is overdue, or its
      row is claimed by no segment. */
  ghost predicate Refreshed(r: Request, freshness: Freshness, read: ReadResult, now: int, i: nat)
    requires i < |r.sessions|
  {
    && read.Hit? && read.frame != []
    && var lineage, d := read.manifest.lineage, r.sessions[i];
       || lineage == []
       || Overdue(r, freshness, lineage, now, i)
       || (HasDay(read.frame, d) && forall k :: 0 <= k < |lineage| ==> !lineage[k].Has(d))
  }

  lemma {:induction false} StaleMeansRefreshed(r: Request, freshness: Freshness, read: ReadResult, now: int, i: nat)
    requires Ascending(r.sessions) && i < |r.sessions|
    ensures r.sessions[i] in Stale(r, freshness, read, now) <==> Refreshed(r, freshness, read, now, i)
  {
    if read.Hit? && read.frame != [] && read.manifest.lineage != [] {
      DaysOf(read.frame, r.sessions[i]);
      WindowIsRecent(r, freshness, now, i);
      assert Expired(read.manifest.lineage, RecentWindow(r, freshness, now), freshness, now, r.sessions[i])
             <==> Overdue(r, freshness, read.manifest.lineage, now, i);
    }
  }

  /** The cache has the session's row and some segment claims it. */
  ghost predicate Attributed(read: ReadResult, d: Day) {
    && read.Hit? && HasDay(read.frame, d)
    && exists k :: 0 <= k < |read.manifest.lineage| && read.manifest.lineage[k].Has(d)
  }

  lemma {:induction false} NeededExactly(r: Request, freshness: Freshness, read: ReadResult, now: int, i: nat)
    requires Ascending(r.sessions) && i < |r.sessions|
    ensures r.sessions[i] in Needed(r, freshness, read, now) <==>
            !r.useCache || r.refresh || read.Invalidated? || !Attributed(read, r.sessions[i])
            || Overdue(r, freshness, read.manifest.lineage, now, i)
  {
    assert r.sessions[i] in DaysIn(r.sessions);
    StaleMeansRefreshed(r, freshness, read, now, i);
    if read.Hit? {
      DaysOf(read.frame, r.sessions[i]);
    }
  }

  /** A session is fetched exactly when the cache is not to be used, is damaged or is to be refreshed, when it has no
      attributed row for the session, or when the row is overdue. */
  lemma {:induction false} PlannedExactly(r: Request, freshness: Freshness, read: ReadResult, now: int, i: nat)
    requires Ascending(r.sessions) && i < |r.sessions|
    ensures Within(Plan(r, freshness, read, now), r.sessions[i]) <==>
            !r.useCache || r.refresh || read.Invalidated? || !Attributed(read, r.sessions[i])
            || Overdue(r, freshness, read.manifest.lineage, now, i)
  {
    RangesCoverChosen(r.sessions, Needed(r, freshness, read, now), i);
    NeededExactly(r, freshness, read, now, i);
  }

  // ----- what the acquisition is reported as

  ghost predicate Ordinary(r: Request, read: ReadResult) {
    r.useCache && !r.refresh && !read.Invalidated?
  }

  lemma {:induction false} NoGroups(sessions: seq<Day>, chosen: set<Day>)
    requires Ascending(sessions)
    ensures Grouped(sessions, chosen) == [] <==> forall i :: 0 <= i < |sessions| ==> sessions[i] !in chosen
  {
    var ranges := Grouped(sessions, chosen);
    if ranges != [] {
      RangeEndsChosen(sessions, chosen, 0);
      var i :| 0 <= i < |sessions| && sessions[i] == ranges[0].first;
    }
    if i :| 0 <= i < |sessions| && sessions[i] in chosen {
      RangesCoverChosen(sessions, chosen, i);
    }
  }

  lemma {:induction false} NothingNeeded(r: Request, freshness: Freshness, read: ReadResult, now: int)
    requires Ascending(r.sessions)
    ensures Needed(r, freshness, read, now) == {} <==> Plan(r, freshness, read, now) == []
  {
    var needed := Needed(r, freshness, read, now);
    NoGroups(r.sessions, needed);
    if d :| d in needed {
      assert d in DaysIn(r.sessions);
      var i :| 0 <= i < |r.sessions| && r.sessions[i] == d;
    }
  }

  /** In ordinary use a full hit is exactly an acquisition that plans nothing, and a miss or a partial hit one that
      leaves every cached session alone. */
  lemma {:induction false} StatusExactly(r: Request, freshness: Freshness, read: ReadResult, now: int)
    requires Ascending(r.sessions)
    ensures var status := Status(r, freshness, read, now);
            && (status == ForcedRefresh <==> !r.useCache || (r.refresh && !read.Invalidated?))
            && (status == CacheInvalid <==> r.useCache && read.Invalidated?)
            && (status == FullHit <==> Ordinary(r, read) && Plan(r, freshness, read, now) == [])
            && (status == StaleRefresh <==> Ordinary(r, read) && exists i :: 0 <= i < |r.sessions| && Refreshed(r, freshness, read, now, i))
            && (status == CacheMiss ==> forall i :: 0 <= i < |r.sessions| ==> !(read.Hit? && HasDay(read.frame, r.sessions[i])))
            && (status == PartialHit ==> exists i :: 0 <= i < |r.sessions| && read.Hit? && HasDay(read.frame, r.sessions[i]))
  {
    NothingNeeded(r, freshness, read, now);
    var stale, cached := Stale(r, freshness, read, now), CachedDays(r, read);
    assert stale <= DaysIn(r.sessions) && cached <= DaysIn(r.sessions);
    forall i | 0 <= i < |r.sessions|
      ensures r.sessions[i] in stale <==> Refreshed(r, freshness, read, now, i)
    {
      StaleMeansRefreshed(r, freshness, read, now, i);
    }
    if d :| d in stale {
      var i :| 0 <= i < |r.sessions| && r.sessions[i] == d;
    }
    if read.Hit? {
      forall d: Day
        ensures d in cached <==> d in DaysIn(r.sessions) && HasDay(read.frame, d)
      {
        DaysOf(read.frame, d);
      }
    }
    if d :| d in cached {
      var i :| 0 <= i < |r.sessions| && r.sessions[i] == d;
    }
  }

  // ----- when the whole request is fetched again

  /** The difference exceeds the absolute tolerance and the relative tolerance of both sizes. */
  predicate Beyond(policy: Policy, x: real, y: real, difference: real) {
    && difference > policy.absoluteTolerance
    && difference > policy.relativeTolerance * x
    && difference > policy.relativeTolerance * y
  }

  predicate Apart(policy: Policy, x: real, y: real) {
    Beyond(policy, Abs(x), Abs(y), Abs(x - y))
  }

  lemma {:induction false} BeyondIsNotNear(policy: Policy, x: real, y: real, difference: real)
    requires policy.Valid()
    ensures Beyond(policy, x, y, difference) <==> !Near(policy, x, y, difference)
  {
    MaxScaled(policy.relativeTolerance, x, y);
    MaxBounds(policy.relativeTolerance * x, policy.relativeTolerance * y, policy.absoluteTolerance, difference);
  }

  lemma {:induction false} ApartIsNotClose(policy: Policy, x: real, y: real)
    requires policy.Valid()
    ensures Apart(policy, x, y) <==> !Close(policy, x, y)
  {
    BeyondIsNotNear(policy, Abs(x), Abs(y), Abs(x - y));
  }

  lemma {:induction false} MaxBounds(p: real, q: real, r: real, x: real)
    ensures x <= Max(Max(p, q), r) <==> x <= p || x <= q || x <= r
  {
  }

  lemma {:induction false} MaxScaled(t: real, a: real, b: real)
    requires t >= 0.0
    ensures t * Max(a, b) == Max(t * a, t * b)
  {
    if a <= b {
      MulNonnegative(b - a, t);
      Distribute(b, a, t);
    } else {
      MulNonnegative(a - b, t);
      Distribute(a, b, t);
    }
  }

  /** Some fetched row gives a cached day another dividend or another split. */
  ghost predicate ActionRevised(policy: Policy, cached: Frame, fetched: seq<Accepted>) {
    exists x, k, y :: x in cached && 0 <= k < |fetched| && y in fetched[k].rows && Revises(policy, x, y)
  }

  predicate Revises(policy: Policy, x: Row, y: Row) {
    x.day == y.day && (Apart(policy, x.dividend, y.dividend) || Apart(policy, x.split, y.split))
  }

  lemma {:induction false} RowsOf(fetched: seq<Accepted>, y: Row)
    ensures y in Rows(fetched) <==> exists k :: 0 <= k < |fetched| && y in fetched[k].rows
  {
    if fetched != [] {
      var n := |fetched| - 1;
      RowsOf(fetched[..n], y);
      if y in fetched[n].rows {
        assert 0 <= n < |fetched|;
      }
      if k :| 0 <= k < |fetched| && y in fetched[k].rows {
        assert k < n ==> fetched[..n][k] == fetched[k];
      }
    }
  }

  lemma {:induction false} ChangedMeansRevised(policy: Policy, cached: Frame, fetched: seq<Accepted>)
    requires policy.Valid()
    ensures ActionsChanged(policy, cached, fetched) <==> ActionRevised(policy, cached, fetched)
  {
    forall x: Row, y: Row
      ensures Revises(policy, x, y) <==> x.day == y.day && (!Close(policy, x.dividend, y.dividend) || !Close(policy, x.split, y.split))
    {
      ApartIsNotClose(policy, x.dividend, y.dividend);
      ApartIsNotClose(policy, x.split, y.split);
    }
    if ActionsChanged(policy, cached, fetched) {
      var i, j :| 0 <= i < |cached| && 0 <= j < |Rows(fetched)| && cached[i].day == Rows(fetched)[j].day
                  && (!Close(policy, cached[i].dividend, Rows(fetched)[j].dividend) || !Close(policy, cached[i].split, Rows(fetched)[j].split));
      RowsOf(fetched, Rows(fetched)[j]);
      assert Revises(policy, cached[i], Rows(fetched)[j]);
    }
    if x, k, y :| x in cached && 0 <= k < |fetched| && y in fetched[k].rows && Revises(policy, x, y) {
      RowsOf(fetched, y);
      var i :| 0 <= i < |cached| && cached[i] == x;
      var j :| 0 <= j < |Rows(fetched)| && Rows(fetched)[j] == y;
      assert cached[i].day == Rows(fetched)[j].day;
    }
  }

  /** The planned ranges are what is used, unless a fetched row revises a corporate action of a cached session and the
      plan was not the whole request already: then the whole request is fetched as one range. */
  lemma {:induction false} RefetchedExactly(r: Request, policy: Policy, read: ReadResult, planned: seq<Range>, fetch: Range -> Option<Accepted>)
    requires r.sessions != [] && policy.Valid() && FetchAll(planned, fetch).Some?
    ensures var fetched := FetchAll(planned, fetch).value;
            var whole := Range(r.sessions[0], r.sessions[|r.sessions| - 1]);
            var cached := if read.Hit? then Requested(read.frame, r.sessions) else [];
            FetchPlanned(r, policy, read, planned, fetch) ==
            if ActionRevised(policy, cached, fetched) && planned != [whole]
            then (if fetch(whole).Some? then Some([fetch(whole).value]) else None) else Some(fetched)
  {
    var fetched := FetchAll(planned, fetch).value;
    var cached := if read.Hit? then Requested(read.frame, r.sessions) else [];
    ChangedMeansRevised(policy, cached, fetched);
    FetchOne(WholeRange(r.sessions), fetch);
  }

  lemma {:induction false} FetchOne(range: Range, fetch: Range -> Option<Accepted>)
    ensures FetchAll([range], fetch) == if fetch(range).Some? then Some([fetch(range).value]) else None
  {
    var ranges := [range];
    assert ranges[..0] == [] && FetchAll(ranges[..0], fetch) == Some([]);
    if fetch(range).Some? {
      assert [] + [fetch(range).value] == [fetch(range).value];
    }
  }

  // ----- when an answer is usable

  /** The sessions among the first n that have a row. */
  function PresentBelow(f: Frame, sessions: seq<Day>, n: nat): nat
    requires n <= |sessions|
  {
    if n == 0 then 0 else PresentBelow(f, sessions, n - 1) + if HasDay(f, sessions[n - 1]) then 1 else 0
  }

  ghost function PresentDays(f: Frame, sessions: seq<Day>): set<Day> {
    set d | d in DaysIn(sessions) && d in ByDay(f)
  }

  lemma {:induction false} PresentOneMore(f: Frame, sessions: seq<Day>, n: nat)
    requires Ascending(sessions) && n < |sessions|
    ensures sessions[n] !in PresentDays(f, sessions[..n])
    ensures PresentDays(f, sessions[..n + 1]) == PresentDays(f, sessions[..n]) + if HasDay(f, sessions[n]) then {sessions[n]} else {}
  {
    DaysOf(f, sessions[n]);
    DaysOneMore(sessions, n);
  }

  lemma {:induction false} PresentIsCount(f: Frame, sessions: seq<Day>, n: nat)
    requires Ascending(sessions) && n <= |sessions|
    ensures |PresentDays(f, sessions[..n])| == PresentBelow(f, sessions, n)
  {
    if n == 0 {
      assert sessions[..0] == [] && DaysIn([]) == {};
    } else {
      PresentIsCount(f, sessions, n - 1);
      PresentOneMore(f, sessions, n - 1);
    }
  }

  lemma {:induction false} DaysOneMore(sessions: seq<Day>, n: nat)
    requires n < |sessions|
    ensures DaysIn(sessions[..n + 1]) == DaysIn(sessions[..n]) + {sessions[n]}
  {
    forall d: Day
      ensures d in DaysIn(sessions[..n + 1]) <==> d in DaysIn(sessions[..n]) || d == sessions[n]
    {
      assert sessions[..n + 1][n] == sessions[n];
      if d in DaysIn(sessions[..n]) {
        var i :| 0 <= i < n && sessions[..n][i] == d;
        assert sessions[..n + 1][i] == d;
      }
      if d in DaysIn(sessions[..n + 1]) {
        var i :| 0 <= i < n + 1 && sessions[..n + 1][i] == d;
        assert i < n ==> sessions[..n][i] == d;
      }
    }
  }

  /** `size` sessions in a row, from the given one, have no row. */
  ghost predicate Gap(f: Frame, sessions: seq<Day>, from: nat, size: nat) {
    from + size <= |sessions| && forall i :: from <= i < from + size ==> !HasDay(f, sessions[i])
  }

  lemma {:induction false} CoverageIsShare(f: Frame, sessions: seq<Day>, minimum: real)
    requires Ascending(sessions) && sessions != []
    ensures CoverageOf(f, sessions) >= minimum <==> Enough(f, sessions, minimum)
  {
    assert sessions[..|sessions|] == sessions;
    PresentIsCount(f, sessions, |sessions|);
    QuotientUnder(PresentBelow(f, sessions, |sessions|) as real, |sessions| as real, minimum);
  }

  lemma {:induction false} GapWithin(f: Frame, sessions: seq<Day>, limit: nat)
    ensures MaxGap(Runs(sessions, Missing(f, sessions))) <= limit <==> NoLongGap(f, sessions, limit)
  {
    var missing := Missing(f, sessions);
    forall from: nat, size: nat
      ensures AllChosen(sessions, missing, from, size) <==> Gap(f, sessions, from, size)
    {
      forall i | 0 <= i < |sessions|
        ensures sessions[i] in missing <==> !HasDay(f, sessions[i])
      {
        DaysOf(f, sessions[i]);
      }
    }
    MaxGapIsLongest(sessions, missing);
    var from: nat :| AllChosen(sessions, missing, from, MaxGap(Runs(sessions, missing)));
    assert Gap(f, sessions, from, MaxGap(Runs(sessions, missing)));
  }

  ghost predicate RowsAreSessions(f: Frame, sessions: seq<Day>) {
    forall i :: 0 <= i < |f| ==> f[i].Valid() && f[i].day in sessions
  }

  ghost predicate Enough(f: Frame, sessions: seq<Day>, share: real) {
    PresentBelow(f, sessions, |sessions|) as real >= share * |sessions| as real
  }

  ghost predicate NoLongGap(f: Frame, sessions: seq<Day>, limit: nat) {
    forall from: nat, size: nat :: Gap(f, sessions, from, size) ==> size <= limit
  }

  lemma {:induction false} DaysAreMembers(sessions: seq<Day>)
    ensures forall d :: d in DaysIn(sessions) <==> d in sessions
  {
  }

  /** An answer is usable exactly when it is a non-empty sorted frame of valid rows of the sessions, enough sessions
      have a row, and no stretch of sessions without one is too long. */
  lemma {:induction false} UsableExactly(f: Frame, sessions: seq<Day>, policy: Policy)
    requires Ascending(sessions)
    ensures Usable(f, sessions, policy) <==>
            f != [] && Sorted(f) && RowsAreSessions(f, sessions) && Enough(f, sessions, policy.minimumCoverage)
            && NoLongGap(f, sessions, policy.maximumGap)
  {
    GapWithin(f, sessions, policy.maximumGap);
    DaysAreMembers(sessions);
    if sessions != [] {
      CoverageIsShare(f, sessions, policy.minimumCoverage);
    } else if f != [] {
      assert f[0].day !in sessions;
    }
  }
}
