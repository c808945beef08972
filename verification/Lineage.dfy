/** Lineage: which provider supplied which run of rows, and when. SHA-256 is modelled as the content it
    digests, so equal digests mean equal rows; the action signature is a function of the same rows. */
module Lineage {
  import opened Market
  import opened Sessions
  import opened Frames

  datatype Coverage = Represented | NotRepresented | Unknown

  datatype Segment = Segment(start: Day, end: Day, provider: Provider, acquiredAt: int, coverage: Coverage, content: Frame) {
    predicate Has(d: Day) {
      start <= d <= end
    }

    function Says(): Attribution {
      Attribution(provider, acquiredAt, coverage)
    }
  }

  datatype Attribution = Attribution(provider: Provider, acquiredAt: int, coverage: Coverage)

  datatype Digest = DigestOf(rows: Frame) | Unsegmented

  /** The tuple that decides whether two neighbouring rows share a segment. */
  datatype Provenance = Provenance(via: Attribution, first: Day, last: Day, digest: Digest)

  // ----- grouping rows by provenance

  function SegmentOf(rows: Frame, via: Attribution): Segment
    requires rows != []
  {
    Segment(rows[0].day, rows[|rows| - 1].day, via.provider, via.acquiredAt, via.coverage, rows)
  }

  /** How many leading rows share the first provenance. */
  function Leading(provenance: seq<Provenance>): (n: nat)
    requires provenance != []
    ensures 0 < n <= |provenance|
    ensures forall i :: 0 <= i < n ==> provenance[i] == provenance[0]
    ensures n < |provenance| ==> provenance[n] != provenance[0]
  {
    LeadingFrom(provenance, 1)
  }

  function LeadingFrom(provenance: seq<Provenance>, i: nat): (n: nat)
    requires 0 < i <= |provenance|
    ensures i <= n <= |provenance|
    ensures forall j :: i <= j < n ==> provenance[j] == provenance[0]
    ensures n < |provenance| ==> provenance[n] != provenance[0]
    decreases |provenance| - i
  {
    if i < |provenance| && provenance[i] == provenance[0] then LeadingFrom(provenance, i + 1) else i
  }

  function Group(rows: Frame, provenance: seq<Provenance>): seq<Segment>
    requires |rows| == |provenance|
    decreases |rows|
  {
    if rows == [] then []
    else
      var n := Leading(provenance);
      [SegmentOf(rows[..n], provenance[0].via)] + Group(rows[n..], provenance[n..])
  }

  /** The segments are those of the rows before `first`. */
  ghost predicate GroupedBefore(segments: seq<Segment>, rows: Frame, provenance: seq<Provenance>, first: nat)
    requires |rows| == |provenance| && first <= |rows|
  {
    segments + Group(rows[first..], provenance[first..]) == Group(rows, provenance)
  }

  /** The rows from `first` to before `index` share their provenance. */
  ghost predicate Alike(provenance: seq<Provenance>, first: nat, index: nat) {
    first < index <= |provenance| && forall i :: first <= i < index ==> provenance[i] == provenance[first]
  }

  /** The grouping loop shared by `_rebuild_lineage` and `_rebase_lineage`. */
  method GroupRows(rows: Frame, provenance: seq<Provenance>) returns (segments: seq<Segment>)
    requires |rows| == |provenance|
    ensures segments == Group(rows, provenance)
  {
    segments := [];
    var first := 0;
    var index := 1;
    assert rows[0..] == rows && provenance[0..] == provenance;
    while index <= |rows|
      invariant 0 <= first < index <= |rows| + 1
      invariant if index == |rows| + 1 then first == |rows| else Alike(provenance, first, index)
      invariant GroupedBefore(segments, rows, provenance, first)
    {
      if index < |rows| && provenance[index] == provenance[first] {
        index := index + 1;
      } else {
        GroupAdvances(segments, rows, provenance, first, index);
        segments := segments + [SegmentOf(rows[first..index], provenance[first].via)];
        first := index;
        index := index + 1;
      }
    }
    assert rows[first..] == [];
  }

  lemma {:induction false} GroupAdvances(segments: seq<Segment>, rows: Frame, provenance: seq<Provenance>, first: nat, index: nat)
    requires |rows| == |provenance| && first < index <= |rows| && GroupedBefore(segments, rows, provenance, first)
    requires Alike(provenance, first, index) && (index < |rows| ==> provenance[index] != provenance[first])
    ensures GroupedBefore(segments + [SegmentOf(rows[first..index], provenance[first].via)], rows, provenance, index)
  {
    GroupStep(rows, provenance, first, index);
    var segment, rest := SegmentOf(rows[first..index], provenance[first].via), Group(rows[index..], provenance[index..]);
    Reassociate(segments, segment, rest);
  }

  lemma {:induction false} Reassociate(before: seq<Segment>, s: Segment, after: seq<Segment>)
    ensures before + ([s] + after) == (before + [s]) + after
  {
  }

  lemma {:induction false} GroupStep(rows: Frame, provenance: seq<Provenance>, first: nat, index: nat)
    requires |rows| == |provenance| && first < index <= |rows|
    requires forall i :: first <= i < index ==> provenance[i] == provenance[first]
    requires index < |rows| ==> provenance[index] != provenance[first]
    ensures Group(rows[first..], provenance[first..])
            == [SegmentOf(rows[first..index], provenance[first].via)] + Group(rows[index..], provenance[index..])
  {
    var r, p, n := rows[first..], provenance[first..], index - first;
    LeadingIs(p, n);
    assert r[..n] == rows[first..index];
    assert r[n..] == rows[index..] && p[n..] == provenance[index..];
  }

  lemma LeadingIs(p: seq<Provenance>, n: nat)
    requires 0 < n <= |p|
    requires forall i :: 0 <= i < n ==> p[i] == p[0]
    requires n < |p| ==> p[n] != p[0]
    ensures Leading(p) == n
  {
    assert !(Leading(p) < n) && !(n < Leading(p));
  }

  // ----- the partition

  function Flatten(lineage: seq<Segment>): Frame {
    if lineage == [] then [] else lineage[0].content + Flatten(lineage[1..])
  }

  /** Each segment is labelled by its own rows, and together they are the frame, in order. */
  ghost predicate Partitions(lineage: seq<Segment>, f: Frame) {
    && Flatten(lineage) == f
    && forall k :: 0 <= k < |lineage| ==> lineage[k].content != [] && lineage[k] == SegmentOf(lineage[k].content, lineage[k].Says())
  }

  lemma {:induction false} GroupPartitions(rows: Frame, provenance: seq<Provenance>)
    requires |rows| == |provenance|
    ensures Partitions(Group(rows, provenance), rows)
    decreases |rows|
  {
    if rows != [] {
      var n := Leading(provenance);
      GroupPartitions(rows[n..], provenance[n..]);
      var all, rest := Group(rows, provenance), Group(rows[n..], provenance[n..]);
      assert all[1..] == rest;
      assert rows[..n] + rows[n..] == rows;
      forall k | 0 <= k < |all|
        ensures all[k].content != [] && all[k] == SegmentOf(all[k].content, all[k].Says())
      {
        if k > 0 {
          assert all[k] == rest[k - 1];
        }
      }
    }
  }

  /** The position of the segment that holds row i. */
  function SegmentIndex(lineage: seq<Segment>, i: nat): nat
    decreases |lineage|
  {
    if lineage == [] || i < |lineage[0].content| then 0
    else 1 + SegmentIndex(lineage[1..], i - |lineage[0].content|)
  }

  /** Maximal runs: two neighbouring rows share a segment exactly when they share their provenance. */
  lemma {:induction false} GroupIsMaximal(rows: Frame, provenance: seq<Provenance>, i: nat)
    requires |rows| == |provenance| && 0 < i < |rows|
    ensures var lineage := Group(rows, provenance);
            SegmentIndex(lineage, i - 1) == SegmentIndex(lineage, i) <==> provenance[i - 1] == provenance[i]
    decreases |rows|
  {
    var n := Leading(provenance);
    var lineage, rest := Group(rows, provenance), Group(rows[n..], provenance[n..]);
    assert lineage[1..] == rest && |lineage[0].content| == n;
    if i > n {
      GroupIsMaximal(rows[n..], provenance[n..], i - n);
      assert provenance[n..][i - n] == provenance[i] && provenance[n..][i - n - 1] == provenance[i - 1];
    }
  }

  // ----- looking a day up

  /** The first segment whose range holds the day. */
  function Find(lineage: seq<Segment>, d: Day): Option<Segment> {
    if lineage == [] then None else if lineage[0].Has(d) then Some(lineage[0]) else Find(lineage[1..], d)
  }

  function FindBy(lineage: seq<Segment>, d: Day, provider: Provider): Option<Segment> {
    if lineage == [] then None
    else if lineage[0].Has(d) && lineage[0].provider == provider then Some(lineage[0])
    else FindBy(lineage[1..], d, provider)
  }

  /** What the lineage says about a day. */
  function Says(lineage: seq<Segment>, d: Day): Option<Attribution> {
    var s := Find(lineage, d);
    if s.None? then None else Some(s.value.Says())
  }

  lemma {:induction false} TailPartitions(lineage: seq<Segment>, f: Frame)
    requires Partitions(lineage, f) && lineage != [] && Sorted(f)
    ensures var n := |lineage[0].content|;
            && 0 < n <= |f| && f[..n] == lineage[0].content
            && Partitions(lineage[1..], f[n..]) && Sorted(f[n..])
            && lineage[0].start == f[0].day && lineage[0].end == f[n - 1].day
  {
    var n := |lineage[0].content|;
    assert f == lineage[0].content + Flatten(lineage[1..]);
    assert f[n..] == Flatten(lineage[1..]);
    forall k | 0 <= k < |lineage[1..]|
      ensures lineage[1..][k].content != [] && lineage[1..][k] == SegmentOf(lineage[1..][k].content, lineage[1..][k].Says())
    {
      assert lineage[1..][k] == lineage[k + 1];
    }
  }

  /** In a partition of a sorted frame the day of a row finds the very segment that holds the row, and no
      other segment's range holds it. */
  lemma {:induction false} RowFindsItsSegment(lineage: seq<Segment>, f: Frame, i: nat)
    requires Partitions(lineage, f) && Sorted(f) && i < |f|
    ensures var k := SegmentIndex(lineage, i);
            && k < |lineage| && Find(lineage, f[i].day) == Some(lineage[k]) && lineage[k].Has(f[i].day)
            && f[i] in lineage[k].content
            && forall j :: 0 <= j < |lineage| && lineage[j].Has(f[i].day) ==> j == k
    decreases |lineage|
  {
    TailPartitions(lineage, f);
    var n := |lineage[0].content|;
    if i < n {
      assert lineage[0].content[i] == f[i];
      NoLaterSegment(lineage[1..], f[n..], f[i].day);
      assert forall j :: 0 < j < |lineage| ==> lineage[j] == lineage[1..][j - 1];
    } else {
      RowFindsItsSegment(lineage[1..], f[n..], i - n);
      assert f[n..][i - n] == f[i];
      assert f[n - 1].day < f[i].day;
      assert forall j :: 0 < j < |lineage| ==> lineage[j] == lineage[1..][j - 1];
    }
  }

  lemma {:induction false} NoLaterSegment(lineage: seq<Segment>, f: Frame, d: Day)
    requires Partitions(lineage, f) && Sorted(f)
    requires forall i :: 0 <= i < |f| ==> d < f[i].day
    ensures forall j :: 0 <= j < |lineage| ==> !lineage[j].Has(d)
    decreases |lineage|
  {
    if lineage != [] {
      TailPartitions(lineage, f);
      NoLaterSegment(lineage[1..], f[|lineage[0].content|..], d);
      assert forall j :: 0 < j < |lineage| ==> lineage[j] == lineage[1..][j - 1];
    }
  }

  lemma {:induction false} FindByFinds(lineage: seq<Segment>, d: Day, k: nat)
    requires k < |lineage| && lineage[k].Has(d)
    requires forall j :: 0 <= j < |lineage| && lineage[j].Has(d) ==> j == k
    ensures FindBy(lineage, d, lineage[k].provider) == Some(lineage[k])
    decreases |lineage|
  {
    if k > 0 {
      assert forall j :: 0 <= j < |lineage[1..]| ==> lineage[1..][j] == lineage[j + 1];
      FindByFinds(lineage[1..], d, k - 1);
    }
  }

  /** Grouping records the provenance of every row: the day of row i finds what row i's provenance says. */
  lemma {:induction false} GroupSays(rows: Frame, provenance: seq<Provenance>, i: nat)
    requires |rows| == |provenance| && Sorted(rows) && i < |rows|
    ensures Says(Group(rows, provenance), rows[i].day) == Some(provenance[i].via)
    decreases |rows|
  {
    var n := Leading(provenance);
    var lineage := Group(rows, provenance);
    assert lineage[1..] == Group(rows[n..], provenance[n..]);
    if i >= n {
      GroupSays(rows[n..], provenance[n..], i - n);
      assert rows[n..][i - n] == rows[i];
      assert rows[n - 1].day < rows[i].day;
    }
  }

  // ----- rebuilding after a fetch

  /** One fetched range: its request, its rows and where they came from. */
  datatype Accepted = Accepted(range: Range, rows: Frame, provider: Provider, acquiredAt: int, coverage: Coverage) {
    function By(): Attribution {
      Attribution(provider, acquiredAt, coverage)
    }
  }

  /** The fetched range that supplied a day; of several the last one counts. */
  function Supplier(accepted: seq<Accepted>, d: Day): Option<Accepted> {
    if accepted == [] then None
    else if HasDay(accepted[|accepted| - 1].rows, d) then Some(accepted[|accepted| - 1])
    else Supplier(accepted[..|accepted| - 1], d)
  }

  function RebuiltProvenance(r: Row, cached: seq<Segment>, defaultTime: int, accepted: seq<Accepted>): Provenance {
    var supplier := Supplier(accepted, r.day);
    if supplier.Some? then
      Provenance(supplier.value.By(), supplier.value.range.first, supplier.value.range.last, DigestOf(supplier.value.rows))
    else
      match FindBy(cached, r.day, r.source)
      case None => Provenance(Attribution(r.source, defaultTime, Unknown), r.day, r.day, Unsegmented)
      case Some(s) => Provenance(s.Says(), s.start, s.end, DigestOf(s.content))
  }

  function RebuiltProvenances(rows: Frame, cached: seq<Segment>, defaultTime: int, accepted: seq<Accepted>): seq<Provenance> {
    seq(|rows|, i requires 0 <= i < |rows| => RebuiltProvenance(rows[i], cached, defaultTime, accepted))
  }

  function Rebuild(rows: Frame, cached: seq<Segment>, defaultTime: int, accepted: seq<Accepted>): seq<Segment> {
    Group(rows, RebuiltProvenances(rows, cached, defaultTime, accepted))
  }

  method RebuildLineage(rows: Frame, cached: seq<Segment>, defaultTime: int, accepted: seq<Accepted>) returns (lineage: seq<Segment>)
    ensures lineage == Rebuild(rows, cached, defaultTime, accepted)
  {
    var provenance: seq<Provenance> := [];
    for i := 0 to |rows|
      invariant provenance == RebuiltProvenances(rows, cached, defaultTime, accepted)[..i]
    {
      provenance := provenance + [RebuiltProvenance(rows[i], cached, defaultTime, accepted)];
    }
    assert provenance == RebuiltProvenances(rows, cached, defaultTime, accepted);
    lineage := GroupRows(rows, provenance);
  }

  /** Every row's source is the provider its segment names. */
  ghost predicate Faithful(lineage: seq<Segment>) {
    forall k, i :: 0 <= k < |lineage| && 0 <= i < |lineage[k].content| ==> lineage[k].content[i].source == lineage[k].provider
  }

  // ----- rebasing onto a generation published meanwhile

  function RebasedProvenance(d: Day, existing: seq<Segment>, incoming: seq<Segment>, ranges: seq<Range>): Option<Provenance> {
    match Find(if Within(ranges, d) then incoming else existing, d)
    case None => None
    case Some(s) => Some(Provenance(s.Says(), s.start, s.end, DigestOf(s.content)))
  }

  function RebasedProvenances(rows: Frame, existing: seq<Segment>, incoming: seq<Segment>, ranges: seq<Range>): (r: Option<seq<Provenance>>)
    ensures r.Some? ==> |r.value| == |rows|
  {
    if rows == [] then Some([])
    else
      var before := RebasedProvenances(rows[..|rows| - 1], existing, incoming, ranges);
      var last := RebasedProvenance(rows[|rows| - 1].day, existing, incoming, ranges);
      if before.None? || last.None? then None else Some(before.value + [last.value])
  }

  lemma {:induction false} RebasedRow(rows: Frame, existing: seq<Segment>, incoming: seq<Segment>, ranges: seq<Range>, i: nat)
    requires i < |rows|
    ensures var all, p := RebasedProvenances(rows, existing, incoming, ranges), RebasedProvenance(rows[i].day, existing, incoming, ranges);
            && (p.None? ==> all.None?)
            && (all.Some? ==> p == Some(all.value[i]))
  {
    if i < |rows| - 1 {
      RebasedRow(rows[..|rows| - 1], existing, incoming, ranges, i);
    }
  }

  lemma {:induction false} RebaseFailsOnARow(rows: Frame, existing: seq<Segment>, incoming: seq<Segment>, ranges: seq<Range>) returns (i: nat)
    requires RebasedProvenances(rows, existing, incoming, ranges).None?
    ensures i < |rows| && RebasedProvenance(rows[i].day, existing, incoming, ranges).None?
  {
    i := |rows| - 1;
    if RebasedProvenance(rows[i].day, existing, incoming, ranges).Some? {
      i := RebaseFailsOnARow(rows[..|rows| - 1], existing, incoming, ranges);
    }
  }

  /** `None` when some row is covered by neither lineage, which the program refuses to publish. */
  function Rebase(rows: Frame, existing: seq<Segment>, incoming: seq<Segment>, ranges: seq<Range>): Option<seq<Segment>> {
    var provenance := RebasedProvenances(rows, existing, incoming, ranges);
    if provenance.None? then None else Some(Group(rows, provenance.value))
  }

  method RebaseLineage(rows: Frame, existing: seq<Segment>, incoming: seq<Segment>, ranges: seq<Range>) returns (r: Option<seq<Segment>>)
    ensures r == Rebase(rows, existing, incoming, ranges)
  {
    var provenance: seq<Provenance> := [];
    for i := 0 to |rows|
      invariant RebasedProvenances(rows[..i], existing, incoming, ranges) == Some(provenance)
    {
      var p := RebasedProvenance(rows[i].day, existing, incoming, ranges);
      assert rows[..i + 1][..i] == rows[..i];
      if p.None? {
        RebasedRow(rows, existing, incoming, ranges, i);
        return None;
      }
      provenance := provenance + [p.value];
    }
    assert rows[..|rows|] == rows;
    var lineage := GroupRows(rows, provenance);
    r := Some(lineage);
  }

  // ----- when a rebased lineage tells the truth

  ghost predicate Published(latest: Frame, d: Day) {
    d in ByDay(latest)
  }

  /** Who really supplied a row of the rebased frame: the writer, for a day of its ranges that its candidate
      has; otherwise whoever supplied the generation it was rebased onto. */
  ghost function TrueSource(existing: seq<Segment>, candidate: Frame, incoming: seq<Segment>, ranges: seq<Range>, d: Day): Option<Attribution> {
    if Within(ranges, d) && Published(candidate, d) then Says(incoming, d) else Says(existing, d)
  }

  /** The lineage was rebased, and every row's day finds its true source. */
  ghost predicate TellsTheTruth(rows: Frame, existing: seq<Segment>, candidate: Frame, incoming: seq<Segment>, ranges: seq<Range>) {
    var rebased := Rebase(rows, existing, incoming, ranges);
    rebased.Some? && forall i :: 0 <= i < |rows| ==>
      Says(rebased.value, rows[i].day) == TrueSource(existing, candidate, incoming, ranges, rows[i].day)
  }

  /** Days of the writer's ranges that only the newer generation has: both lineages must agree on them. */
  ghost predicate AgreeOnForeignDays(latest: Frame, existing: seq<Segment>, candidate: Frame, incoming: seq<Segment>, ranges: seq<Range>) {
    forall d :: Published(latest, d) && Within(ranges, d) && !Published(candidate, d) ==> Says(incoming, d) == Says(existing, d)
  }

  lemma {:induction false} PartitionSays(lineage: seq<Segment>, f: Frame, d: Day)
    requires Partitions(lineage, f) && Sorted(f) && Published(f, d)
    ensures Says(lineage, d).Some?
  {
    DaysOf(f, d);
    var i :| 0 <= i < |f| && f[i].day == d;
    RowFindsItsSegment(lineage, f, i);
  }

  lemma {:induction false} RebasedDays(latest: Frame, candidate: Frame, ranges: seq<Range>, d: Day)
    ensures var rows := Merge(latest, RowsInRanges(candidate, ranges));
            Published(rows, d) <==> Published(latest, d) || (Published(candidate, d) && Within(ranges, d))
  {
    MergeOverrides(latest, RowsInRanges(candidate, ranges));
    KeepRestricts(candidate, x => Within(ranges, x), d);
  }

  /** What a rebase says of each row it accepts. */
  lemma {:induction false} RebasedSays(rows: Frame, existing: seq<Segment>, incoming: seq<Segment>, ranges: seq<Range>, i: nat)
    requires Sorted(rows) && i < |rows| && Rebase(rows, existing, incoming, ranges).Some?
    ensures var d := rows[i].day;
            Says(Rebase(rows, existing, incoming, ranges).value, d) == Says(if Within(ranges, d) then incoming else existing, d)
  {
    var provenance := RebasedProvenances(rows, existing, incoming, ranges).value;
    RebasedRow(rows, existing, incoming, ranges, i);
    GroupSays(rows, provenance, i);
  }

  lemma {:induction false} AgreementMakesTruth(latest: Frame, existing: seq<Segment>, candidate: Frame, incoming: seq<Segment>, ranges: seq<Range>)
    requires Sorted(latest) && Sorted(candidate) && Partitions(existing, latest) && Partitions(incoming, candidate)
    requires AgreeOnForeignDays(latest, existing, candidate, incoming, ranges)
    ensures TellsTheTruth(Merge(latest, RowsInRanges(candidate, ranges)), existing, candidate, incoming, ranges)
  {
    var rows := Merge(latest, RowsInRanges(candidate, ranges));
    MergeOverrides(latest, RowsInRanges(candidate, ranges));
    forall i | 0 <= i < |rows|
      ensures RebasedProvenance(rows[i].day, existing, incoming, ranges).Some?
      ensures Says(if Within(ranges, rows[i].day) then incoming else existing, rows[i].day)
              == TrueSource(existing, candidate, incoming, ranges, rows[i].day)
    {
      var d := rows[i].day;
      DaysOf(rows, d);
      RebasedDays(latest, candidate, ranges, d);
      if Published(latest, d) {
        PartitionSays(existing, latest, d);
      }
      if Published(candidate, d) {
        PartitionSays(incoming, candidate, d);
      }
    }
    if RebasedProvenances(rows, existing, incoming, ranges).None? {
      var i := RebaseFailsOnARow(rows, existing, incoming, ranges);
    }
    forall i | 0 <= i < |rows|
      ensures Says(Rebase(rows, existing, incoming, ranges).value, rows[i].day)
              == TrueSource(existing, candidate, incoming, ranges, rows[i].day)
    {
      RebasedSays(rows, existing, incoming, ranges, i);
    }
  }

  /** A rebased lineage tells the truth about every row if and only if the two lineages agree on the days of
      the writer's ranges that its candidate lacks and the newer generation has; otherwise the rebase is
      refused or attributes such a row to the wrong fetch. */
  lemma {:induction false} RebaseTruthCondition(latest: Frame, existing: seq<Segment>, candidate: Frame, incoming: seq<Segment>, ranges: seq<Range>)
    requires Sorted(latest) && Sorted(candidate) && Partitions(existing, latest) && Partitions(incoming, candidate)
    ensures TellsTheTruth(Merge(latest, RowsInRanges(candidate, ranges)), existing, candidate, incoming, ranges)
            <==> AgreeOnForeignDays(latest, existing, candidate, incoming, ranges)
  {
    var rows := Merge(latest, RowsInRanges(candidate, ranges));
    MergeOverrides(latest, RowsInRanges(candidate, ranges));
    if TellsTheTruth(rows, existing, candidate, incoming, ranges) {
      forall d | Published(latest, d) && Within(ranges, d) && !Published(candidate, d)
        ensures Says(incoming, d) == Says(existing, d)
      {
        RebasedDays(latest, candidate, ranges, d);
        DaysOf(rows, d);
        var i :| 0 <= i < |rows| && rows[i].day == d;
        RebasedSays(rows, existing, incoming, ranges, i);
      }
    }
    if AgreeOnForeignDays(latest, existing, candidate, incoming, ranges) {
      AgreementMakesTruth(latest, existing, candidate, incoming, ranges);
    }
  }
}
