/** A first acquisition into the empty namespace, and a second one of the same request at the same instant that has
    everything in the cache and raises, because its own report cannot be archived. */
module RefusedReportInstance {
  import opened Market
  import opened Sessions
  import opened Frames
  import opened Lineage
  import opened Store
  import opened Candidates
  import opened Acquisition
  import opened OrphanInstance

  /** Nothing is cached, so both sessions are fetched. */
  lemma {:induction false} BothAreFetched(r: Request, freshness: Freshness, policy: Policy, fetch: Range -> Option<Accepted>)
    requires Setting(r, freshness, policy, fetch)
    ensures Plan(r, freshness, Miss, 30) != [] && FetchPlanned(r, policy, Miss, Plan(r, freshness, Miss, 30), fetch).Some?
    ensures var fetched := FetchedBy(r, freshness, policy, Miss, 30, fetch);
            2 in ByDay(Rows(fetched)) && 4 in ByDay(Rows(fetched)) && forall k :: 0 <= k < |fetched| ==> Fetched(fetched[k])
  {
    var needed, planned := Needed(r, freshness, Miss, 30), Plan(r, freshness, Miss, 30);
    assert Ascending(r.sessions);
    assert r.sessions[0] in DaysIn(r.sessions) && r.sessions[1] in DaysIn(r.sessions);
    assert 2 in needed && 4 in needed;
    RangesCoverChosen(r.sessions, needed, 0);
    FetchAllIs(planned, fetch);
    FetchAllIs([WholeRange(r.sessions)], fetch);
    PlannedSupplied(r, freshness, policy, Miss, 30, fetch);
    var fetched := FetchedBy(r, freshness, policy, Miss, 30, fetch);
    SuppliedDay(r, needed, fetched, 2);
    SuppliedDay(r, needed, fetched, 4);
  }

  lemma {:induction false} FirstFills(r: Request, freshness: Freshness, policy: Policy, fetch: Range -> Option<Accepted>)
    requires Setting(r, freshness, policy, fetch)
    ensures var first := Acquire(EMPTY_FILES, r, freshness, policy, 30, fetch, "a", "g4", true, true);
            first.Some? && first.value.files.archive.Keys == {"a"}
  {
    var fetched := FetchedBy(r, freshness, policy, Miss, 30, fetch);
    var work := Prepared(Miss, fetched, "a", 30);
    BothAreFetched(r, freshness, policy, fetch);
    MergedIsUsable(Miss, r.sessions, policy, fetched);
    PublishesAlone(EMPTY_FILES, r, policy, work);
    SucceedsWhen(EMPTY_FILES, r, freshness, policy, fetch, "a", "g4");
    ArchivesOne(r, policy, work);
    FilesOfPublication(EMPTY_FILES, r, freshness, policy, fetch, "a", "g4");
  }

  lemma {:induction false} FilesOfPublication(s: Files, r: Request, freshness: Freshness, policy: Policy, fetch: Range -> Option<Accepted>, a: string, id: string)
    requires r.sessions != [] && r.useCache && Plan(r, freshness, Read(s), 30) != []
    requires Acquire(s, r, freshness, policy, 30, fetch, a, id, true, true).Some?
    ensures var published := PublishAlone(s, r, policy, Prepared(Read(s), FetchedBy(r, freshness, policy, Read(s), 30, fetch), a, 30), id, true, true);
            published.Some? && Acquire(s, r, freshness, policy, 30, fetch, a, id, true, true).value.files == published.value.0
  {
  }

  lemma {:induction false} ArchivesOne(r: Request, policy: Policy, work: Work)
    requires work.base == None && work.manifest.acquisition == "a" && PublishAlone(EMPTY_FILES, r, policy, work, "g4", true, true).Some?
    ensures PublishAlone(EMPTY_FILES, r, policy, work, "g4", true, true).value.0.archive.Keys == {"a"}
  {
  }

  /** An acquisition that found nothing in the cache, and none of whose reports has the second one's identifier. */
  ghost predicate FirstDone(s: Files, r: Request, freshness: Freshness, policy: Policy, now: int, fetch: Range -> Option<Accepted>,
                            a: string, b: string, id: string, first: Acquired)
  {
    && r.sessions != [] && Ascending(r.sessions) && r.useCache && !r.refresh && AnswersInFull(r, now, fetch) && Read(s) == Miss
    && Acquire(s, r, freshness, policy, now, fetch, a, id, true, true) == Some(first) && b !in first.files.archive
  }

  lemma {:induction false} RefusedSecond(s: Files, r: Request, freshness: Freshness, policy: Policy, now: int, fetch: Range -> Option<Accepted>,
                                         a: string, b: string, id: string, id2: string, first: Acquired)
    requires FirstDone(s, r, freshness, policy, now, fetch, a, b, id, first)
    ensures Acquire(first.files, r, freshness, policy, now, fetch, b, id2, false, true).None?
  {
    assert r.(refresh := false) == r;
    RefusedReportRaises(s, r, freshness, policy, now, fetch, fetch, a, b, id, id2, true, true, false, true);
  }

  lemma {:induction false} TakenSecond(s: Files, r: Request, freshness: Freshness, policy: Policy, now: int, fetch: Range -> Option<Accepted>,
                                       a: string, b: string, id: string, id2: string, first: Acquired)
    requires FirstDone(s, r, freshness, policy, now, fetch, a, b, id, first)
    ensures IsFullHit(Acquire(first.files, r, freshness, policy, now, fetch, b, id2, true, true), first, b, now)
  {
    assert r.(refresh := false) == r;
    AcquireTwiceExactly(s, r, freshness, policy, now, fetch, fetch, a, b, id, id2, true, true, true, true);
  }

  lemma {:induction false} IsFirstDone(s: Files, r: Request, freshness: Freshness, policy: Policy, now: int, fetch: Range -> Option<Accepted>,
                                       a: string, b: string, id: string)
    requires r.sessions != [] && Ascending(r.sessions) && r.useCache && !r.refresh && AnswersInFull(r, now, fetch) && Read(s) == Miss
    requires Acquire(s, r, freshness, policy, now, fetch, a, id, true, true).Some?
    requires a != b && Acquire(s, r, freshness, policy, now, fetch, a, id, true, true).value.files.archive.Keys == {a}
    ensures FirstDone(s, r, freshness, policy, now, fetch, a, b, id, Acquire(s, r, freshness, policy, now, fetch, a, id, true, true).value)
  {
  }

  lemma {:induction false} FirstIsDone(r: Request, freshness: Freshness, policy: Policy, fetch: Range -> Option<Accepted>) returns (first: Acquired)
    requires Setting(r, freshness, policy, fetch)
    ensures FirstDone(EMPTY_FILES, r, freshness, policy, 30, fetch, "a", "b", "g4", first)
  {
    assert "a"[0] != "b"[0];
    assert Ascending(r.sessions) && Read(EMPTY_FILES) == Miss;
    FirstFills(r, freshness, policy, fetch);
    first := Acquire(EMPTY_FILES, r, freshness, policy, 30, fetch, "a", "g4", true, true).value;
    IsFirstDone(EMPTY_FILES, r, freshness, policy, 30, fetch, "a", "b", "g4");
  }

  /** Two acquisitions of one request at one instant: the second finds every session cached and fresh. */
  ghost predicate RaisesByReport(s: Files, r: Request, freshness: Freshness, policy: Policy, now: int, fetch: Range -> Option<Accepted>,
                                 a: string, b: string, id: string, id2: string, first: Acquired)
  {
    && r.sessions != [] && Acquire(s, r, freshness, policy, now, fetch, a, id, true, true) == Some(first)
    && Acquire(first.files, r, freshness, policy, now, fetch, b, id2, false, true).None?
    && IsFullHit(Acquire(first.files, r, freshness, policy, now, fetch, b, id2, true, true), first, b, now)
  }

  lemma {:induction false} SecondRaises(s: Files, r: Request, freshness: Freshness, policy: Policy, now: int, fetch: Range -> Option<Accepted>,
                                        a: string, b: string, id: string, id2: string, first: Acquired)
    requires FirstDone(s, r, freshness, policy, now, fetch, a, b, id, first)
    ensures RaisesByReport(s, r, freshness, policy, now, fetch, a, b, id, id2, first)
  {
    RefusedSecond(s, r, freshness, policy, now, fetch, a, b, id, id2, first);
    TakenSecond(s, r, freshness, policy, now, fetch, a, b, id, id2, first);
  }

  /** The same request, the same instant: the first acquisition succeeds, the second finds every session cached and
      fresh, and raises if and only if its report cannot be written. */
  lemma {:induction false} CacheAnswerCanRaise()
    returns (r: Request, freshness: Freshness, policy: Policy, fetch: Range -> Option<Accepted>, first: Acquired)
    ensures Setting(r, freshness, policy, fetch)
    ensures RaisesByReport(EMPTY_FILES, r, freshness, policy, 30, fetch, "a", "b", "g4", "g5", first)
  {
    r, freshness, policy, fetch := SettingExists();
    first := FirstIsDone(r, freshness, policy, fetch);
    SecondRaises(EMPTY_FILES, r, freshness, policy, 30, fetch, "a", "b", "g4", "g5", first);
  }
}
