/** What one writer prepares and assembles: a candidate frame with its lineage, and its overlay on whatever
    generation it commits onto. */
module Candidates {
  import opened Market
  import opened Sessions
  import opened Frames
  import opened Lineage
  import opened Store

  /** What a writer carries into `publish_generation`: what it fetched, the base it read, and the candidate. */
  datatype Work = Work(base: Option<string>, fetched: seq<Accepted>, candidate: Frame, manifest: Manifest) {
    function Ranges(): seq<Range> {
      seq(|fetched|, i requires 0 <= i < |fetched| => fetched[i].range)
    }
  }

  // ----- what one writer does

  function Rows(fetched: seq<Accepted>): Frame {
    if fetched == [] then [] else Rows(fetched[..|fetched| - 1]) + fetched[|fetched| - 1].rows
  }

  /** A published generation. */
  datatype Generation = Generation(id: string, frame: Frame, manifest: Manifest)

  function BaseOf(read: ReadResult): Option<Generation> {
    if read.Hit? then Some(Generation(read.generation, read.frame, read.manifest)) else None
  }

  function IdOf(g: Option<Generation>): Option<string> {
    if g.None? then None else Some(g.value.id)
  }

  function FrameOf(g: Option<Generation>): Frame {
    if g.None? then [] else g.value.frame
  }

  function LineageOf(g: Option<Generation>): seq<Segment> {
    if g.None? then [] else g.value.manifest.lineage
  }

  /** The time given to a cached row that no segment of its own provider claims. */
  function DefaultTime(g: Option<Generation>, now: int): int {
    if g.None? then now else g.value.manifest.completedAt
  }

  /** The success path of `acquire` up to publication: merge what was fetched into what was read, and rebuild
      the lineage. */
  function PreparedOn(base: Option<Generation>, fetched: seq<Accepted>, acquisition: string, now: int): Work {
    var candidate := Merge(FrameOf(base), Rows(fetched));
    Work(IdOf(base), fetched, candidate,
         Manifest(acquisition, Rebuild(candidate, LineageOf(base), DefaultTime(base, now), fetched), now, "", []))
  }

  function Prepared(read: ReadResult, fetched: seq<Accepted>, acquisition: string, now: int): Work {
    PreparedOn(BaseOf(read), fetched, acquisition, now)
  }

  /** The frame of one attempt: the candidate, or its ranges laid over a newer generation. */
  function AssembledFrame(latest: ReadResult, work: Work, expected: Option<string>): Frame {
    if latest.Hit? && expected != latest.Id() then Merge(latest.frame, RowsInRanges(work.candidate, work.Ranges())) else work.candidate
  }

  /** The compare/rebase/validate part of one attempt; `None` when the program refuses to publish. */
  function Assemble(latest: ReadResult, work: Work, expected: Option<string>, revalidated: bool): Option<(Frame, Manifest)> {
    var frame := AssembledFrame(latest, work, expected);
    if latest.Invalidated? then None
    else if latest.Hit? && expected != latest.Id() then
      var lineage := Rebase(frame, latest.manifest.lineage, work.manifest.lineage, work.Ranges());
      if lineage.None? || !Canonical(frame) || !revalidated then None
      else Some((frame, work.manifest.(lineage := lineage.value)))
    else if !Canonical(frame) || !revalidated then None
    else Some((frame, work.manifest))
  }

  /** What a fetch guarantees: valid rows of its provider, inside its range. */
  ghost predicate Fetched(a: Accepted) {
    forall i :: 0 <= i < |a.rows| ==>
      a.range.Has(a.rows[i].day) && a.rows[i].source == a.provider && a.rows[i].Valid()
  }

  // ----- the overlay law

  /** The rows a writer puts on top of whatever it commits onto. */
  function Overlay(work: Work): map<Day, Row> {
    ByDay(RowsInRanges(work.candidate, work.Ranges()))
  }

  ghost predicate Overlaid(previous: Frame, work: Work, frame: Frame) {
    Sorted(frame) && ByDay(frame) == ByDay(previous) + Overlay(work)
  }

  // ----- the candidate overlays its base

  lemma {:induction false} RowsAreFetched(fetched: seq<Accepted>, ranges: seq<Range>, d: Day)
    requires |ranges| == |fetched|
    requires forall k :: 0 <= k < |fetched| ==> ranges[k] == fetched[k].range && Fetched(fetched[k])
    ensures d in ByDay(Rows(fetched)) ==> Within(ranges, d)
  {
    if fetched != [] {
      var n := |fetched| - 1;
      RowsAreFetched(fetched[..n], ranges[..n], d);
      ByDayOfConcat(Rows(fetched[..n]), fetched[n].rows);
      if d in ByDay(Rows(fetched)) {
        if d in ByDay(fetched[n].rows) {
          DaysOf(fetched[n].rows, d);
          var i :| 0 <= i < |fetched[n].rows| && fetched[n].rows[i].day == d;
          assert ranges[n].Has(d);
        } else {
          var k :| 0 <= k < n && ranges[..n][k].Has(d);
          assert ranges[k].Has(d);
        }
      }
    }
  }

  /** A candidate merged from its own base overlays that base with itself: committing it without a rebase is
      the same as rebasing it. */
  lemma {:induction false} CandidateOverlaysBase(base: Frame, work: Work)
    requires forall k :: 0 <= k < |work.fetched| ==> Fetched(work.fetched[k])
    requires work.candidate == Merge(base, Rows(work.fetched))
    ensures Overlaid(base, work, work.candidate)
  {
    var ranges := work.Ranges();
    MergeOverrides(base, Rows(work.fetched));
    var all, top := ByDay(work.candidate), Overlay(work);
    forall d: Day
      ensures d in top <==> d in all && Within(ranges, d)
      ensures d in top ==> top[d] == all[d]
      ensures d in ByDay(Rows(work.fetched)) ==> Within(ranges, d)
    {
      KeepRestricts(work.candidate, x => Within(ranges, x), d);
      RowsAreFetched(work.fetched, ranges, d);
    }
    MapsAgree(all, ByDay(base), top);
  }

  lemma MapsAgree(all: map<Day, Row>, under: map<Day, Row>, top: map<Day, Row>)
    requires forall d :: d in all <==> d in under || d in top
    requires forall d :: d in all ==> all[d] == if d in top then top[d] else under[d]
    ensures all == under + top
  {
    forall d: Day
      ensures d in all <==> d in under + top
      ensures d in all ==> all[d] == (under + top)[d]
    {
    }
  }

  /** What was fetched is in the overlay. */
  lemma {:induction false} FetchedRowsOverlay(base: Frame, work: Work, d: Day)
    requires forall k :: 0 <= k < |work.fetched| ==> Fetched(work.fetched[k])
    requires work.candidate == Merge(base, Rows(work.fetched))
    ensures d in ByDay(Rows(work.fetched)) ==> d in Overlay(work) && Overlay(work)[d] == ByDay(Rows(work.fetched))[d]
  {
    MergeOverrides(base, Rows(work.fetched));
    KeepRestricts(work.candidate, x => Within(work.Ranges(), x), d);
    RowsAreFetched(work.fetched, work.Ranges(), d);
  }

  // ----- the lineage of a candidate

  lemma {:induction false} SupplierIsInRows(fetched: seq<Accepted>, d: Day)
    ensures Supplier(fetched, d).Some? <==> d in ByDay(Rows(fetched))
    ensures Supplier(fetched, d).Some? ==> exists k :: 0 <= k < |fetched| && fetched[k] == Supplier(fetched, d).value
  {
    if fetched != [] {
      var n := |fetched| - 1;
      SupplierIsInRows(fetched[..n], d);
      ByDayOfConcat(Rows(fetched[..n]), fetched[n].rows);
      DaysOf(fetched[n].rows, d);
      if HasDay(fetched[n].rows, d) {
        assert fetched[n] == Supplier(fetched, d).value;
      } else if Supplier(fetched, d).Some? {
        var k :| 0 <= k < n && fetched[..n][k] == Supplier(fetched, d).value;
        assert fetched[k] == Supplier(fetched, d).value;
      }
    }
  }

  ghost predicate NamesSources(rows: Frame, provenance: seq<Provenance>)
    requires |rows| == |provenance|
  {
    forall i :: 0 <= i < |rows| ==> provenance[i].via.provider == rows[i].source
  }

  lemma {:induction false} GroupIsFaithful(rows: Frame, provenance: seq<Provenance>)
    requires |rows| == |provenance| && NamesSources(rows, provenance)
    ensures Faithful(Group(rows, provenance))
    decreases |rows|
  {
    if rows != [] {
      var n := Leading(provenance);
      var all, rest := Group(rows, provenance), Group(rows[n..], provenance[n..]);
      GroupIsFaithful(rows[n..], provenance[n..]);
      forall k, i | 0 <= k < |all| && 0 <= i < |all[k].content|
        ensures all[k].content[i].source == all[k].provider
      {
        if k == 0 {
          assert provenance[i] == provenance[0];
        } else {
          assert all[k] == rest[k - 1];
        }
      }
    }
  }

  /** The row a merge keeps for a fetched day comes from the range that supplies the day. */
  lemma {:induction false} SupplierHasTheRow(fetched: seq<Accepted>, d: Day)
    requires forall k :: 0 <= k < |fetched| ==> Fetched(fetched[k])
    requires d in ByDay(Rows(fetched))
    ensures Supplier(fetched, d).Some? && ByDay(Rows(fetched))[d].source == Supplier(fetched, d).value.provider
  {
    var n := |fetched| - 1;
    ByDayOfConcat(Rows(fetched[..n]), fetched[n].rows);
    DaysOf(fetched[n].rows, d);
    if HasDay(fetched[n].rows, d) {
      var i :| 0 <= i < |fetched[n].rows| && fetched[n].rows[i] == ByDay(fetched[n].rows)[d];
      assert Fetched(fetched[n]);
    } else {
      SupplierHasTheRow(fetched[..n], d);
    }
  }

  lemma {:induction false} FindByNames(lineage: seq<Segment>, d: Day, provider: Provider)
    ensures FindBy(lineage, d, provider).Some? ==> FindBy(lineage, d, provider).value.provider == provider
  {
    if lineage != [] {
      FindByNames(lineage[1..], d, provider);
    }
  }

  /** Whatever generation a writer started from, the lineage it prepares partitions its rows and names the
      provider of each of them, even where the lineage it read did not. */
  lemma {:induction false} PreparedIsSound(base: Option<Generation>, fetched: seq<Accepted>, acquisition: string, now: int)
    requires forall k :: 0 <= k < |fetched| ==> Fetched(fetched[k])
    ensures var work := PreparedOn(base, fetched, acquisition, now);
            Sorted(work.candidate) && Partitions(work.manifest.lineage, work.candidate) && Faithful(work.manifest.lineage)
  {
    var lineage, time := LineageOf(base), DefaultTime(base, now);
    var rows := Merge(FrameOf(base), Rows(fetched));
    var provenance := RebuiltProvenances(rows, lineage, time, fetched);
    MergeOverrides(FrameOf(base), Rows(fetched));
    GroupPartitions(rows, provenance);
    forall i | 0 <= i < |rows|
      ensures provenance[i].via.provider == rows[i].source
    {
      var d := rows[i].day;
      SortedLookup(rows, i);
      SupplierIsInRows(fetched, d);
      if d in ByDay(Rows(fetched)) {
        SupplierHasTheRow(fetched, d);
      } else {
        FindByNames(lineage, d, rows[i].source);
      }
    }
    GroupIsFaithful(rows, provenance);
  }

  /** The lineage names the provider of the row that the frame has for the day. */
  ghost predicate NamesProvider(lineage: seq<Segment>, f: Frame, d: Day) {
    d in ByDay(f) && Says(lineage, d).Some? && Says(lineage, d).value.provider == ByDay(f)[d].source
  }

  /** What a prepared lineage says of each row: the attribution of the fetch that supplied it; for a row that
      was not fetched, what the segment of its own provider says, else the default. */
  lemma {:induction false} PreparedSays(base: Option<Generation>, fetched: seq<Accepted>, acquisition: string, now: int, i: nat)
    requires i < |PreparedOn(base, fetched, acquisition, now).candidate|
    ensures var work := PreparedOn(base, fetched, acquisition, now);
            var r := work.candidate[i];
            Says(work.manifest.lineage, r.day)
            == match Supplier(fetched, r.day)
               case Some(a) => Some(a.By())
               case None =>
                 match FindBy(LineageOf(base), r.day, r.source)
                 case Some(s) => Some(s.Says())
                 case None => Some(Attribution(r.source, DefaultTime(base, now), Unknown))
  {
    var work := PreparedOn(base, fetched, acquisition, now);
    MergeOverrides(FrameOf(base), Rows(fetched));
    GroupSays(work.candidate, RebuiltProvenances(work.candidate, LineageOf(base), DefaultTime(base, now), fetched), i);
  }

  /** A row that was not fetched keeps the provenance it had if and only if the lineage it had names its own
      provider. */
  lemma {:induction false} KeptProvenance(base: Generation, fetched: seq<Accepted>, acquisition: string, now: int, d: Day)
    requires Sorted(base.frame) && Partitions(base.manifest.lineage, base.frame)
    requires d in ByDay(base.frame) && d !in ByDay(Rows(fetched))
    ensures Says(PreparedOn(Some(base), fetched, acquisition, now).manifest.lineage, d) == Says(base.manifest.lineage, d)
            <==> NamesProvider(base.manifest.lineage, base.frame, d)
  {
    var lineage := base.manifest.lineage;
    var work := PreparedOn(Some(base), fetched, acquisition, now);
    MergeOverrides(base.frame, Rows(fetched));
    DaysOf(work.candidate, d);
    var i :| 0 <= i < |work.candidate| && work.candidate[i].day == d;
    SortedLookup(work.candidate, i);
    PreparedSays(Some(base), fetched, acquisition, now, i);
    SupplierIsInRows(fetched, d);
    DaysOf(base.frame, d);
    var j :| 0 <= j < |base.frame| && base.frame[j].day == d;
    SortedLookup(base.frame, j);
    RowFindsItsSegment(lineage, base.frame, j);
    var k := SegmentIndex(lineage, j);
    var source := base.frame[j].source;
    FindByNames(lineage, d, source);
    if lineage[k].provider == source {
      FindByFinds(lineage, d, k);
    }
  }

  /** A faithful partition names the provider of every row. */
  lemma {:induction false} FaithfulNames(lineage: seq<Segment>, f: Frame, d: Day)
    requires Sorted(f) && Partitions(lineage, f) && Faithful(lineage) && d in ByDay(f)
    ensures NamesProvider(lineage, f, d)
  {
    DaysOf(f, d);
    var i :| 0 <= i < |f| && f[i].day == d;
    SortedLookup(f, i);
    RowFindsItsSegment(lineage, f, i);
    var k := SegmentIndex(lineage, i);
    var j :| 0 <= j < |lineage[k].content| && lineage[k].content[j] == f[i];
    assert lineage[k].content[j].source == lineage[k].provider;
  }
}
