/** From the cache to the engine: merged frames pass every validator, and a usable frame becomes candles the
    engine accepts. */
module Boundary {
  import opened Market
  import opened Sessions
  import opened Frames
  import Sorting
  import opened Lineage
  import opened Store
  import opened Candidates
  import opened Writers
  import DataStores
  import Acq = Acquisition
  import Engine
  import EngineInvariant

  // ----- both validators

  ghost predicate AllValid(f: Frame) {
    forall i :: 0 <= i < |f| ==> f[i].Valid()
  }

  lemma {:induction false} ReadIsCanonical(s: Files)
    ensures Read(s).Hit? ==> Canonical(Read(s).frame)
  {
  }

  lemma {:induction false} RowsAreValid(fetched: seq<Accepted>)
    requires forall k :: 0 <= k < |fetched| ==> Fetched(fetched[k])
    ensures AllValid(Rows(fetched))
  {
    if fetched != [] {
      RowsAreValid(fetched[..|fetched| - 1]);
      assert Fetched(fetched[|fetched| - 1]);
    }
  }

  /** Merging accepted rows into a canonical frame, or none, gives a canonical frame unless there are no rows. */
  lemma {:induction false} MergeIsCanonical(cached: Frame, candidate: Frame)
    requires AllValid(cached) && AllValid(candidate)
    ensures Canonical(Merge(cached, candidate)) <==> cached != [] || candidate != []
    ensures Merge(cached, candidate) != [] <==> cached != [] || candidate != []
  {
    var merged, all := Merge(cached, candidate), cached + candidate;
    MergeOverrides(cached, candidate);
    KeepLastKeepsMeaning(all);
    forall i | 0 <= i < |merged|
      ensures merged[i].Valid()
    {
      Sorting.SortMembers(KeepLast(all), NotLater, merged[i]);
      assert merged[i] in all;
    }
    if all != [] {
      DaysOf(all, all[0].day);
      ByDayOfConcat(cached, candidate);
      assert all[0].day in ByDay(merged);
      DaysOf(merged, all[0].day);
    }
  }

  lemma {:induction false} KeepIsValid(f: Frame, keep: Day -> bool)
    requires AllValid(f)
    ensures AllValid(Keep(f, keep))
  {
    KeepMembers(f, keep);
    forall i | 0 <= i < |Keep(f, keep)|
      ensures Keep(f, keep)[i].Valid()
    {
      assert Keep(f, keep)[i] in Keep(f, keep);
    }
  }

  /** Whatever generation a writer read and whatever generation it finds at publication, the store's validator
      accepts the frame it assembles, rebased or not, unless there are no rows at all. */
  lemma {:induction false} AssembledIsCanonical(before: Files, useCache: bool, now: Files, fetched: seq<Accepted>, acquisition: string, at: int,
                                                 expected: Option<string>)
    requires forall k :: 0 <= k < |fetched| ==> Fetched(fetched[k])
    ensures var work := Prepared(if useCache then Read(before) else Miss, fetched, acquisition, at);
            var frame := AssembledFrame(Read(now), work, expected);
            Canonical(frame) <==> frame != []
  {
    var read := if useCache then Read(before) else Miss;
    var work := Prepared(read, fetched, acquisition, at);
    var latest := Read(now);
    ReadIsCanonical(before);
    ReadIsCanonical(now);
    RowsAreValid(fetched);
    MergeIsCanonical(if read.Hit? then read.frame else [], Rows(fetched));
    if latest.Hit? && expected != latest.Id() {
      KeepIsValid(work.candidate, d => Within(work.Ranges(), d));
      MergeIsCanonical(latest.frame, RowsInRanges(work.candidate, work.Ranges()));
    }
  }

  /** A canonical frame fails a complete request only for emptiness, coverage or gap. */
  lemma {:induction false} RequestFailsOnlyByPolicy(f: Frame, sessions: seq<Day>, policy: Acq.Policy)
    requires Canonical(f)
    ensures var q := Acq.Requested(f, sessions);
            Acq.Usable(q, sessions, policy) <==>
            q != [] && Acq.CoverageOf(q, sessions) >= policy.minimumCoverage
            && MaxGap(Runs(sessions, Acq.Missing(q, sessions))) <= policy.maximumGap
  {
    var keep := d => d in Acq.DaysIn(sessions);
    var q := Keep(f, keep);
    KeepSorted(f, keep);
    KeepIsValid(f, keep);
    KeepMembers(f, keep);
    assert forall i :: 0 <= i < |q| ==> q[i] in q;
  }

  // ----- `df_to_candles`

  /** A canonical timestamp is the midnight of its day. */
  function CandleOf(r: Row): Candle {
    Candle(r.day * MICROS_PER_DAY, r.open, r.high, r.low, r.close, r.volume, r.adjClose)
  }

  predicate Convertible(r: Row) {
    r.open > 0.0 && r.high > 0.0 && r.low > 0.0 && r.close > 0.0 && r.adjClose > 0.0 && r.volume >= 0.0 && CandleOf(r).Valid()
  }

  function CandlesOf(f: Frame): seq<Candle> {
    seq(|f|, i requires 0 <= i < |f| => CandleOf(f[i]))
  }

  /** The candle is dated at the midnight of the row's day and has the row's figures. */
  predicate Carries(c: Candle, r: Row) {
    && c.time == r.day * 86_400_000_000
    && c.open == r.open && c.high == r.high && c.low == r.low && c.close == r.close && c.volume == r.volume && c.adjClose == r.adjClose
  }

  /** Every row or none: the error is the position of the first row that is not a candle. */
  method ToCandles(f: Frame) returns (r: Result<seq<Candle>, nat>)
    ensures r.Ok? <==> forall i :: 0 <= i < |f| ==> Convertible(f[i])
    ensures r.Ok? ==> r.value == CandlesOf(f)
    ensures r.Ok? ==> |r.value| == |f| && forall i :: 0 <= i < |f| ==> Carries(r.value[i], f[i])
    ensures r.Err? ==> r.error < |f| && !Convertible(f[r.error]) && forall i :: 0 <= i < r.error ==> Convertible(f[i])
  {
    var candles: seq<Candle> := [];
    for i := 0 to |f|
      invariant candles == CandlesOf(f)[..i]
      invariant forall j :: 0 <= j < i ==> Convertible(f[j])
    {
      if !Convertible(f[i]) {
        return Err(i);
      }
      candles := candles + [CandleOf(f[i])];
    }
    r := Ok(candles);
  }

  lemma {:induction false} UsableIsConvertible(f: Frame)
    requires Sorted(f) && AllValid(f)
    ensures forall i :: 0 <= i < |f| ==> Convertible(f[i]) && CandleOf(f[i]).Priced()
    ensures StrictlyIncreasing(CandlesOf(f))
  {
  }

  lemma {:induction false} AssembledIsRevalidated(latest: ReadResult, work: Work, expected: Option<string>, revalidated: bool)
    ensures var a := Assemble(latest, work, expected, revalidated);
            a.Some? ==> revalidated && a.value.0 == AssembledFrame(latest, work, expected)
  {
  }

  lemma {:induction false} PublicationReturnsFrame(s: Files, work: Work, frame: Frame, manifest: Manifest, outside: DataStores.Outside)
    ensures var outcome := DataStores.Publication(s, work, frame, manifest, outside).1; outcome.Done? ==> outcome.frame == frame
  {
  }

  ghost predicate Revalidated(outcome: DataStores.Outcome, outside: DataStores.Outside) {
    outcome.Done? ==> outside.revalidate(outcome.frame)
  }

  /** An attempt that commits publishes the frame it revalidated; any other leaves the outcome to the next. */
  lemma {:induction false} AttemptOutcome(s: Files, work: Work, expected: Option<string>, attempt: nat, outside: DataStores.Outside)
    requires attempt <= MAX_ATTEMPTS
    requires Revalidated(DataStores.Attempts(outside.probe(attempt, s), work, Read(s).Id(), attempt + 1, outside).1, outside)
    ensures Revalidated(DataStores.Attempts(s, work, expected, attempt, outside).1, outside)
  {
    var latest := Read(s);
    var revalidated := outside.revalidate(AssembledFrame(latest, work, expected));
    AssembledIsRevalidated(latest, work, expected, revalidated);
    var assembled := Assemble(latest, work, expected, revalidated);
    if assembled.Some? {
      var (frame, manifest) := assembled.value;
      PublicationReturnsFrame(outside.probe(attempt, s), work, frame, manifest, outside);
    }
  }

  /** Publishing revalidates whatever it publishes. */
  lemma {:induction false} PublishedIsRevalidated(s: Files, work: Work, expected: Option<string>, attempt: nat, outside: DataStores.Outside)
    ensures Revalidated(DataStores.Attempts(s, work, expected, attempt, outside).1, outside)
    decreases MAX_ATTEMPTS + 1 - attempt
  {
    if attempt <= MAX_ATTEMPTS {
      PublishedIsRevalidated(outside.probe(attempt, s), work, Read(s).Id(), attempt + 1, outside);
      AttemptOutcome(s, work, expected, attempt, outside);
    }
  }

  lemma {:induction false} PublishedAloneIsUsable(s: Files, r: Acq.Request, policy: Acq.Policy, work: Work, id: string,
                                                   archiveWritable: bool, pinWritable: bool)
    ensures var published := Acq.PublishAlone(s, r, policy, work, id, archiveWritable, pinWritable);
            published.Some? ==> Acq.Usable(Acq.Requested(published.value.1, r.sessions), r.sessions, policy)
  {
    var outside := DataStores.Outside(f => Acq.Usable(Acq.Requested(f, r.sessions), r.sessions, policy), (k, f) => f, id, SWAP,
                                      archiveWritable, pinWritable);
    PublishedIsRevalidated(s, work, work.base, 1, outside);
  }

  /** Every successful acquisition returns a usable frame, hit or fetched, with or without the cache. */
  lemma {:induction false} AcquiredIsUsable(s: Files, r: Acq.Request, freshness: Acq.Freshness, policy: Acq.Policy, now: int,
                                             fetch: Range -> Option<Accepted>, a: string, id: string, archiveWritable: bool, pinWritable: bool)
    requires r.sessions != [] && Acq.Acquire(s, r, freshness, policy, now, fetch, a, id, archiveWritable, pinWritable).Some?
    ensures Acq.Usable(Acq.Acquire(s, r, freshness, policy, now, fetch, a, id, archiveWritable, pinWritable).value.frame, r.sessions, policy)
  {
    var read := if r.useCache then Read(s) else Miss;
    var planned := Acq.Plan(r, freshness, read, now);
    if planned != [] {
      var work := Prepared(read, Acq.FetchPlanned(r, policy, read, planned, fetch).value, a, now);
      PublishedAloneIsUsable(s, r, policy, work, id, archiveWritable, pinWritable);
    }
  }

  /** The whole boundary: what an acquisition returns converts to candles, and the engine runs any disciplined
      strategy on them to the end. */
  lemma {:induction false} AcquiredIsTradable<S(!new)>(setup: Engine.Setup<S>, s: Files, r: Acq.Request, freshness: Acq.Freshness, policy: Acq.Policy,
                                                        now: int, fetch: Range -> Option<Accepted>, a: string, id: string,
                                                        archiveWritable: bool, pinWritable: bool)
    requires r.sessions != [] && Acq.Acquire(s, r, freshness, policy, now, fetch, a, id, archiveWritable, pinWritable).Some?
    requires setup.costs.Valid() && EngineInvariant.Disciplined(setup)
    ensures var f := Acq.Acquire(s, r, freshness, policy, now, fetch, a, id, archiveWritable, pinWritable).value.frame;
            && f != [] && (forall i :: 0 <= i < |f| ==> Convertible(f[i]))
            && EngineInvariant.Tradable(setup, CandlesOf(f)) && Engine.RunBars(setup, CandlesOf(f)).Ok?
  {
    var f := Acq.Acquire(s, r, freshness, policy, now, fetch, a, id, archiveWritable, pinWritable).value.frame;
    AcquiredIsUsable(s, r, freshness, policy, now, fetch, a, id, archiveWritable, pinWritable);
    UsableIsConvertible(f);
    EngineInvariant.RunNeverFails(setup, CandlesOf(f));
  }
}
