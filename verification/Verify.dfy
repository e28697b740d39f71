/** Placement verification: the three passes of `verify_placements`, and what an empty report means. */
module Verify {
  import opened Outcomes
  import opened Utf8
  import opened Layout

  datatype Violation =
    | UnknownSite(siteId: Text)
    | DuplicatePlacement(siteId: Text)
    | MissingPlacement(siteId: Text)
    | OffTarget(siteId: Text, deviation: int, tolerance: int)
    | OutOfBounds(siteId: Text, placed: Point)
    | Overlap(first: Text, second: Text)
    | OrientationMismatch(siteId: Text)

  datatype PlacementReport = PlacementReport(violations: seq<Violation>, placedCount: nat) {
    predicate IsOk() { violations == [] }
  }

  /** Bottom-left inclusive, top-right exclusive. */
  datatype Rect = Rect(lo: Point, hi: Point)

  // ---------- the passes ----------

  predicate Known(r: Record, layout: InterposerLayout)
  {
    FindSite(layout.sites, r.siteId).Some?
  }

  function PlacedRect(r: Record, layout: InterposerLayout): Option<Rect>
  {
    match FindDie(layout.dies, r.chipletId)
    case None => None
    case Some(die) => Some(Rect(r.placed, Point(r.placed.x + die.width, r.placed.y + die.height)))
  }

  predicate Inside(rect: Rect, layout: InterposerLayout)
  {
    0 <= rect.lo.x && 0 <= rect.lo.y && rect.hi.x <= layout.width && rect.hi.y <= layout.height
  }

  predicate RectsOverlap(a: Rect, b: Rect)
  {
    a.lo.x < b.hi.x && b.lo.x < a.hi.x && a.lo.y < b.hi.y && b.lo.y < a.hi.y
  }

  predicate Overlapping(a: Record, b: Record, layout: InterposerLayout)
  {
    var ra, rb := PlacedRect(a, layout), PlacedRect(b, layout);
    ra.Some? && rb.Some? && RectsOverlap(ra.value, rb.value)
  }

  predicate Repeats(records: seq<Record>, i: nat)
    requires i < |records|
  {
    exists j :: 0 <= j < i && records[j].siteId == records[i].siteId
  }

  function Deviation(r: Record): nat { ManhattanDistance(r.placed, r.nominal) }

  predicate Misplaced(r: Record, layout: InterposerLayout)
  {
    PlacedRect(r, layout).Some? && !Inside(PlacedRect(r, layout).value, layout)
  }

  /** The checks on the first record of a known site, in order. */
  function Checks(r: Record, layout: InterposerLayout, tolerance: int): seq<Violation>
    requires Known(r, layout)
  {
    (if r.orientation != FindSite(layout.sites, r.siteId).value.orientation
     then [OrientationMismatch(r.siteId)] else [])
    + (if Deviation(r) > tolerance then [OffTarget(r.siteId, Deviation(r), tolerance)] else [])
    + (if Misplaced(r, layout) then [OutOfBounds(r.siteId, r.placed)] else [])
  }

  /** What the first pass reports for record `i`. */
  function AtRecord(records: seq<Record>, layout: InterposerLayout, tolerance: int, i: nat): seq<Violation>
    requires i < |records|
  {
    if !Known(records[i], layout) then [UnknownSite(records[i].siteId)]
    else if Repeats(records, i) then [DuplicatePlacement(records[i].siteId)]
    else Checks(records[i], layout, tolerance)
  }

  function RecordViolations(records: seq<Record>, layout: InterposerLayout, tolerance: int, n: nat): seq<Violation>
    requires n <= |records|
  {
    if n == 0 then []
    else RecordViolations(records, layout, tolerance, n - 1) + AtRecord(records, layout, tolerance, n - 1)
  }

  /** Site ids the first pass has accepted among the first `n` records. */
  function Seen(records: seq<Record>, layout: InterposerLayout, n: nat): set<Text>
    requires n <= |records|
  {
    set j | 0 <= j < n && Known(records[j], layout) :: records[j].siteId
  }

  function MissingViolations(sites: seq<SiteSpec>, seen: set<Text>, n: nat): seq<Violation>
    requires n <= |sites|
  {
    if n == 0 then []
    else
      MissingViolations(sites, seen, n - 1)
      + (if sites[n - 1].siteId in seen then [] else [MissingPlacement(sites[n - 1].siteId)])
  }

  /** Overlaps of record `i` with the records after it, up to `n`. */
  function RowOverlaps(records: seq<Record>, layout: InterposerLayout, i: nat, n: nat): seq<Violation>
    requires i < n <= |records|
  {
    if n == i + 1 then []
    else
      RowOverlaps(records, layout, i, n - 1)
      + (if Overlapping(records[i], records[n - 1], layout)
         then [Overlap(records[i].siteId, records[n - 1].siteId)] else [])
  }

  function OverlapViolations(records: seq<Record>, layout: InterposerLayout, n: nat): seq<Violation>
    requires n <= |records|
  {
    if n == 0 then []
    else OverlapViolations(records, layout, n - 1) + RowOverlaps(records, layout, n - 1, |records|)
  }

  function Violations(records: seq<Record>, layout: InterposerLayout, tolerance: int): seq<Violation>
  {
    RecordViolations(records, layout, tolerance, |records|)
    + MissingViolations(layout.sites, Seen(records, layout, |records|), |layout.sites|)
    + OverlapViolations(records, layout, |records|)
  }

  /** `verify_placements`: the three loops one after the other. */
  method VerifyPlacements(records: seq<Record>, layout: InterposerLayout, tolerance: int)
      returns (report: PlacementReport)
    ensures report.violations == Violations(records, layout, tolerance)
    ensures report.placedCount == |records|
    ensures report.IsOk() <==> Conforms(records, layout, tolerance)
  {
    hide Conforms;
    ReportIsEmptyIff(records, layout, tolerance);
    var violations, seen := RecordPass(records, layout, tolerance);
    var missing := MissingPass(layout.sites, seen);
    var overlaps := OverlapPass(records, layout);
    report := PlacementReport(violations + missing + overlaps, |records|);
  }

  /** The first loop, with its `seen` set and its early `continue`s. */
  method RecordPass(records: seq<Record>, layout: InterposerLayout, tolerance: int)
      returns (violations: seq<Violation>, seen: set<Text>)
    ensures violations == RecordViolations(records, layout, tolerance, |records|)
    ensures seen == Seen(records, layout, |records|)
  {
    hide Checks, FindSite, FindDie;
    violations, seen := [], {};
    for i := 0 to |records|
      invariant violations == RecordViolations(records, layout, tolerance, i)
      invariant seen == Seen(records, layout, i)
    {
      var record := records[i];
      if FindSite(layout.sites, record.siteId).None? {
        violations := violations + [UnknownSite(record.siteId)];
        continue;
      }
      SameIdSameSite(records, layout, i);
      if record.siteId in seen {
        violations := violations + [DuplicatePlacement(record.siteId)];
        continue;
      }
      seen := seen + {record.siteId};
      var found := CheckRecord(record, layout, tolerance);
      violations := violations + found;
    }
  }

  method MissingPass(sites: seq<SiteSpec>, seen: set<Text>) returns (violations: seq<Violation>)
    ensures violations == MissingViolations(sites, seen, |sites|)
  {
    violations := [];
    for i := 0 to |sites|
      invariant violations == MissingViolations(sites, seen, i)
    {
      if sites[i].siteId !in seen {
        violations := violations + [MissingPlacement(sites[i].siteId)];
      }
    }
  }

  /** The pairwise loops; records without a known footprint are skipped on either side. */
  method OverlapPass(records: seq<Record>, layout: InterposerLayout) returns (violations: seq<Violation>)
    ensures violations == OverlapViolations(records, layout, |records|)
  {
    hide FindDie, RectsOverlap;
    violations := [];
    for i := 0 to |records|
      invariant violations == OverlapViolations(records, layout, i)
    {
      var a := PlacedRect(records[i], layout);
      if a.None? {
        NoRectNoOverlap(records, layout, i, |records|);
        continue;
      }
      var row: seq<Violation> := [];
      for j := i + 1 to |records|
        invariant row == RowOverlaps(records, layout, i, j)
      {
        var b := PlacedRect(records[j], layout);
        if b.None? {
          continue;
        }
        if RectsOverlap(a.value, b.value) {
          row := row + [Overlap(records[i].siteId, records[j].siteId)];
        }
      }
      violations := violations + row;
    }
  }

  method CheckRecord(r: Record, layout: InterposerLayout, tolerance: int) returns (found: seq<Violation>)
    requires Known(r, layout)
    ensures found == Checks(r, layout, tolerance)
  {
    found := [];
    if r.orientation != FindSite(layout.sites, r.siteId).value.orientation {
      found := found + [OrientationMismatch(r.siteId)];
    }
    var deviation := ManhattanDistance(r.placed, r.nominal);
    if deviation > tolerance {
      found := found + [OffTarget(r.siteId, deviation, tolerance)];
    }
    var die := FindDie(layout.dies, r.chipletId);
    if die.Some? {
      var hi := Point(r.placed.x + die.value.width, r.placed.y + die.value.height);
      if r.placed.x < 0 || r.placed.y < 0 || hi.x > layout.width || hi.y > layout.height {
        found := found + [OutOfBounds(r.siteId, r.placed)];
      }
    }
  }

  lemma SameIdSameSite(records: seq<Record>, layout: InterposerLayout, i: nat)
    requires i < |records| && Known(records[i], layout)
    ensures records[i].siteId in Seen(records, layout, i) <==> Repeats(records, i)
  {
    hide FindSite;
  }

  lemma {:induction false} NoRectNoOverlap(records: seq<Record>, layout: InterposerLayout, i: nat, n: nat)
    requires i < n <= |records| && PlacedRect(records[i], layout).None?
    ensures RowOverlaps(records, layout, i, n) == []
  {
    if n > i + 1 {
      NoRectNoOverlap(records, layout, i, n - 1);
    }
  }

  // ---------- what each violation means ----------

  /** The first record of a known site. */
  predicate First(records: seq<Record>, layout: InterposerLayout, i: nat)
  {
    i < |records| && Known(records[i], layout) && !Repeats(records, i)
  }

  /** The placements that deserve a violation, without reference to any pass. */
  ghost predicate Justified(v: Violation, records: seq<Record>, layout: InterposerLayout, tolerance: int)
  {
    match v
    case UnknownSite(id) =>
      exists i :: 0 <= i < |records| && records[i].siteId == id && !Known(records[i], layout)
    case DuplicatePlacement(id) =>
      exists i :: 0 <= i < |records| && records[i].siteId == id && Known(records[i], layout) && Repeats(records, i)
    case MissingPlacement(id) =>
      (exists k :: 0 <= k < |layout.sites| && layout.sites[k].siteId == id)
      && forall i | 0 <= i < |records| :: records[i].siteId != id
    case OffTarget(id, deviation, t) =>
      t == tolerance && deviation > tolerance &&
      exists i: nat :: First(records, layout, i) && records[i].siteId == id && Deviation(records[i]) == deviation
    case OutOfBounds(id, placed) =>
      exists i: nat :: First(records, layout, i) && records[i].siteId == id && records[i].placed == placed
                  && Misplaced(records[i], layout)
    case OrientationMismatch(id) =>
      exists i: nat :: First(records, layout, i) && records[i].siteId == id
                  && records[i].orientation != FindSite(layout.sites, id).value.orientation
    case Overlap(first, second) =>
      exists i, j :: 0 <= i < j < |records| && records[i].siteId == first && records[j].siteId == second
                     && Overlapping(records[i], records[j], layout)
  }

  lemma {:induction false} InRecordViolations(v: Violation, records: seq<Record>, layout: InterposerLayout,
                                              tolerance: int, n: nat)
    requires n <= |records|
    ensures v in RecordViolations(records, layout, tolerance, n)
      <==> exists i :: 0 <= i < n && v in AtRecord(records, layout, tolerance, i)
  {
    hide AtRecord;
    if n > 0 {
      InRecordViolations(v, records, layout, tolerance, n - 1);
    }
  }

  lemma {:induction false} InMissingViolations(v: Violation, sites: seq<SiteSpec>, seen: set<Text>, n: nat)
    requires n <= |sites|
    ensures v in MissingViolations(sites, seen, n)
      <==> v.MissingPlacement? && v.siteId !in seen && exists k :: 0 <= k < n && sites[k].siteId == v.siteId
  {
    if n > 0 {
      InMissingViolations(v, sites, seen, n - 1);
    }
  }

  lemma {:induction false} InRowOverlaps(v: Violation, records: seq<Record>, layout: InterposerLayout, i: nat, n: nat)
    requires i < n <= |records|
    ensures v in RowOverlaps(records, layout, i, n)
      <==> v.Overlap? && exists j :: i < j < n && records[i].siteId == v.first && records[j].siteId == v.second
                                     && Overlapping(records[i], records[j], layout)
  {
    hide Overlapping;
    if n > i + 1 {
      InRowOverlaps(v, records, layout, i, n - 1);
    }
  }

  lemma {:induction false} InOverlapViolations(v: Violation, records: seq<Record>, layout: InterposerLayout, n: nat)
    requires n <= |records|
    ensures v in OverlapViolations(records, layout, n)
      <==> v.Overlap? && exists i, j :: 0 <= i < n && i < j < |records| && records[i].siteId == v.first
                                        && records[j].siteId == v.second && Overlapping(records[i], records[j], layout)
  {
    hide Overlapping, RowOverlaps;
    if n > 0 {
      InOverlapViolations(v, records, layout, n - 1);
      InRowOverlaps(v, records, layout, n - 1, |records|);
    }
  }

  /** The checks of one record, one by one. */
  lemma InAtRecord(v: Violation, records: seq<Record>, layout: InterposerLayout, tolerance: int, i: nat)
    requires i < |records|
    ensures var r := records[i];
            v in AtRecord(records, layout, tolerance, i) <==>
            || (v == UnknownSite(r.siteId) && !Known(r, layout))
            || (v == DuplicatePlacement(r.siteId) && Known(r, layout) && Repeats(records, i))
            || (First(records, layout, i) &&
                (|| (v == OrientationMismatch(r.siteId)
                     && r.orientation != FindSite(layout.sites, r.siteId).value.orientation)
                 || (v == OffTarget(r.siteId, Deviation(r), tolerance) && Deviation(r) > tolerance)
                 || (v == OutOfBounds(r.siteId, r.placed) && Misplaced(r, layout))))
  {
    hide Repeats, FindSite, FindDie, Misplaced, Deviation;
  }

  /** The report contains exactly the violations that are justified, whatever the records. */
  lemma ReportIsExact(v: Violation, records: seq<Record>, layout: InterposerLayout, tolerance: int)
    ensures v in Violations(records, layout, tolerance) <==> Justified(v, records, layout, tolerance)
  {
    hide AtRecord, RecordViolations, MissingViolations, OverlapViolations, Overlapping, Repeats, Misplaced, Deviation,
         FindSite, FindDie;
    var n := |records|;
    InRecordViolations(v, records, layout, tolerance, n);
    forall i | 0 <= i < n {
      InAtRecord(v, records, layout, tolerance, i);
    }
    InMissingViolations(v, layout.sites, Seen(records, layout, n), |layout.sites|);
    InOverlapViolations(v, records, layout, n);
    if v.MissingPlacement? && exists k :: 0 <= k < |layout.sites| && layout.sites[k].siteId == v.siteId {
      MissingMeansUnplaced(v.siteId, records, layout);
    }
  }

  lemma MissingMeansUnplaced(id: Text, records: seq<Record>, layout: InterposerLayout)
    requires exists k :: 0 <= k < |layout.sites| && layout.sites[k].siteId == id
    ensures id !in Seen(records, layout, |records|) <==> forall i | 0 <= i < |records| :: records[i].siteId != id
  {
    FindSiteFinds(layout.sites, id);
    hide FindSite;
  }

  /** Placements that match the reference: what an empty report should mean. */
  ghost predicate Conforms(records: seq<Record>, layout: InterposerLayout, tolerance: int)
  {
    // Every record is for a site of the layout, no two for the same one, and every site has one.
    && (forall i | 0 <= i < |records| :: Known(records[i], layout))
    && (forall i, j | 0 <= i < j < |records| :: records[i].siteId != records[j].siteId)
    && (forall k | 0 <= k < |layout.sites| ::
          exists i :: 0 <= i < |records| && records[i].siteId == layout.sites[k].siteId)
    // Each is oriented as the reference says, close to its nominal position and inside the interposer.
    && (forall i | 0 <= i < |records| ::
          records[i].orientation == FindSite(layout.sites, records[i].siteId).value.orientation)
    && (forall i | 0 <= i < |records| :: Deviation(records[i]) <= tolerance)
    && (forall i | 0 <= i < |records| :: !Misplaced(records[i], layout))
    // No two known footprints overlap.
    && (forall i, j | 0 <= i < j < |records| :: !Overlapping(records[i], records[j], layout))
  }

  /** Sound and complete: the report is empty exactly when the placements conform. */
  lemma ReportIsEmptyIff(records: seq<Record>, layout: InterposerLayout, tolerance: int)
    ensures Violations(records, layout, tolerance) == [] <==> Conforms(records, layout, tolerance)
  {
    var vs := Violations(records, layout, tolerance);
    forall v ensures v in vs <==> Justified(v, records, layout, tolerance) {
      ReportIsExact(v, records, layout, tolerance);
    }
    assert vs != [] ==> vs[0] in vs;
    if Conforms(records, layout, tolerance) {
      ConformingIsClean(records, layout, tolerance);
    }
    if vs == [] {
      CleanConforms(records, layout, tolerance);
    }
  }

  lemma ConformingIsClean(records: seq<Record>, layout: InterposerLayout, tolerance: int)
    requires Conforms(records, layout, tolerance)
    ensures forall v :: !Justified(v, records, layout, tolerance)
  {
    hide FindSite, FindDie, Misplaced, Deviation, Overlapping;
  }

  lemma CleanConforms(records: seq<Record>, layout: InterposerLayout, tolerance: int)
    requires forall v :: !Justified(v, records, layout, tolerance)
    ensures Conforms(records, layout, tolerance)
  {
    hide FindSite, FindDie, Misplaced, Deviation, Overlapping;
    forall i | 0 <= i < |records|
      ensures Known(records[i], layout)
    {
      assert !Justified(UnknownSite(records[i].siteId), records, layout, tolerance);
    }
    forall i | 0 <= i < |records|
      ensures !Repeats(records, i)
    {
      assert !Justified(DuplicatePlacement(records[i].siteId), records, layout, tolerance);
    }
    forall i | 0 <= i < |records|
      ensures records[i].orientation == FindSite(layout.sites, records[i].siteId).value.orientation
    {
      assert First(records, layout, i);
      assert !Justified(OrientationMismatch(records[i].siteId), records, layout, tolerance);
    }
    forall i | 0 <= i < |records|
      ensures Deviation(records[i]) <= tolerance
    {
      assert First(records, layout, i);
      assert !Justified(OffTarget(records[i].siteId, Deviation(records[i]), tolerance), records, layout, tolerance);
    }
    forall i | 0 <= i < |records|
      ensures !Misplaced(records[i], layout)
    {
      assert First(records, layout, i);
      assert !Justified(OutOfBounds(records[i].siteId, records[i].placed), records, layout, tolerance);
    }
    forall i, j | 0 <= i < j < |records|
      ensures records[i].siteId != records[j].siteId
    {
      assert !Repeats(records, j);
    }
    forall i, j | 0 <= i < j < |records|
      ensures !Overlapping(records[i], records[j], layout)
    {
      assert !Justified(Overlap(records[i].siteId, records[j].siteId), records, layout, tolerance);
    }
    forall k | 0 <= k < |layout.sites|
      ensures exists i :: 0 <= i < |records| && records[i].siteId == layout.sites[k].siteId
    {
      assert !Justified(MissingPlacement(layout.sites[k].siteId), records, layout, tolerance);
    }
  }
}
