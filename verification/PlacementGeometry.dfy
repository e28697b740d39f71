/** Consequences of a report that no single pass states: shared points, area, and a counting law. */
module PlacementGeometry {
  import opened Utf8
  import opened Layout
  import opened Verify

  // ---------- rectangles as sets of grid points ----------

  /** The grid points of a half-open box. */
  function Box(x: int, y: int, w: nat, h: nat): set<Point>
  {
    set px, py | x <= px < x + w && y <= py < y + h :: Point(px, py)
  }

  predicate Contains(r: Rect, p: Point)
  {
    r.lo.x <= p.x < r.hi.x && r.lo.y <= p.y < r.hi.y
  }

  predicate Proper(r: Rect) { r.lo.x < r.hi.x && r.lo.y < r.hi.y }

  function Larger(a: int, b: int): int { if a < b then b else a }

  /** Two half-open rectangles share a grid point exactly when both are proper and the test fires. */
  lemma SharedPointIff(a: Rect, b: Rect)
    ensures (exists p :: Contains(a, p) && Contains(b, p)) <==> RectsOverlap(a, b) && Proper(a) && Proper(b)
  {
    if RectsOverlap(a, b) && Proper(a) && Proper(b) {
      var p := Point(Larger(a.lo.x, b.lo.x), Larger(a.lo.y, b.lo.y));
      assert Contains(a, p) && Contains(b, p);
    }
  }

  /** Without a positive size the test can fire for a rectangle that covers nothing. */
  lemma {:induction false} EmptyFootprintCanOverlap()
    ensures var a := Rect(Point(5, 5), Point(5, 5));
            var b := Rect(Point(0, 0), Point(10, 10));
            RectsOverlap(a, b) && forall p :: !Contains(a, p)
  {
  }

  lemma {:induction false} RowSize(x: int, y: int, w: nat)
    ensures |Box(x, y, w, 1)| == w
  {
    if w == 0 {
      assert Box(x, y, 0, 1) == {};
    } else {
      RowSize(x, y, w - 1);
      assert Box(x, y, w, 1) == Box(x, y, w - 1, 1) + {Point(x + w - 1, y)};
    }
  }

  lemma {:induction false} BoxSize(x: int, y: int, w: nat, h: nat)
    ensures |Box(x, y, w, h)| == w * h
  {
    if h == 0 {
      assert Box(x, y, w, 0) == {};
    } else {
      BoxSize(x, y, w, h - 1);
      RowSize(x, y + h - 1, w);
      var low, row := Box(x, y, w, h - 1), Box(x, y + h - 1, w, 1);
      assert Box(x, y, w, h) == low + row;
      assert low !! row;
      assert w * (h - 1) + w == w * h;
    }
  }

  // ---------- area ----------

  /** Every record's footprint is known and has a positive size. */
  predicate AllSized(records: seq<Record>, layout: InterposerLayout)
  {
    forall i | 0 <= i < |records| :: PlacedRect(records[i], layout).Some? && Proper(PlacedRect(records[i], layout).value)
  }

  function Footprint(r: Record, layout: InterposerLayout): set<Point>
    requires PlacedRect(r, layout).Some? && Proper(PlacedRect(r, layout).value)
  {
    var rect := PlacedRect(r, layout).value;
    Box(rect.lo.x, rect.lo.y, rect.hi.x - rect.lo.x, rect.hi.y - rect.lo.y)
  }

  function Area(r: Record, layout: InterposerLayout): nat
    requires PlacedRect(r, layout).Some? && Proper(PlacedRect(r, layout).value)
  {
    var rect := PlacedRect(r, layout).value;
    (rect.hi.x - rect.lo.x) * (rect.hi.y - rect.lo.y)
  }

  function Covered(records: seq<Record>, layout: InterposerLayout, n: nat): set<Point>
    requires n <= |records| && AllSized(records, layout)
  {
    if n == 0 then {} else Covered(records, layout, n - 1) + Footprint(records[n - 1], layout)
  }

  function TotalArea(records: seq<Record>, layout: InterposerLayout, n: nat): nat
    requires n <= |records| && AllSized(records, layout)
  {
    if n == 0 then 0 else TotalArea(records, layout, n - 1) + Area(records[n - 1], layout)
  }

  lemma FootprintPoints(r: Record, layout: InterposerLayout, p: Point)
    requires PlacedRect(r, layout).Some? && Proper(PlacedRect(r, layout).value)
    ensures p in Footprint(r, layout) <==> Contains(PlacedRect(r, layout).value, p)
  {
    hide FindDie;
  }

  lemma {:induction false} CoveredPoints(records: seq<Record>, layout: InterposerLayout, n: nat, p: Point)
    requires n <= |records| && AllSized(records, layout)
    ensures p in Covered(records, layout, n)
      <==> exists i :: 0 <= i < n && Contains(PlacedRect(records[i], layout).value, p)
  {
    hide PlacedRect, Contains, Footprint, Proper;
    if n > 0 {
      CoveredPoints(records, layout, n - 1, p);
      FootprintPoints(records[n - 1], layout, p);
    }
  }

  /** Conforming placements occupy pairwise disjoint sets of grid points of the interposer. */
  lemma FootprintsAreDisjoint(records: seq<Record>, layout: InterposerLayout, tolerance: int, i: nat, j: nat)
    requires Violations(records, layout, tolerance) == [] && AllSized(records, layout)
    requires i < j < |records|
    ensures Footprint(records[i], layout) !! Footprint(records[j], layout)
    ensures Footprint(records[i], layout) <= Box(0, 0, Larger(0, layout.width), Larger(0, layout.height))
  {
    ReportIsEmptyIff(records, layout, tolerance);
    var a, b := PlacedRect(records[i], layout).value, PlacedRect(records[j], layout).value;
    assert !Overlapping(records[i], records[j], layout) && !Misplaced(records[i], layout);
    hide Violations, Conforms, FindDie;
    SharedPointIff(a, b);
    forall p ensures !(p in Footprint(records[i], layout) && p in Footprint(records[j], layout)) {
      FootprintPoints(records[i], layout, p);
      FootprintPoints(records[j], layout, p);
    }
  }

  lemma FootprintIsNew(records: seq<Record>, layout: InterposerLayout, tolerance: int, n: nat)
    requires Violations(records, layout, tolerance) == [] && AllSized(records, layout) && n < |records|
    ensures Covered(records, layout, n) !! Footprint(records[n], layout)
  {
    hide Violations, PlacedRect, Box, Footprint, Covered;
    forall p ensures !(p in Covered(records, layout, n) && p in Footprint(records[n], layout)) {
      CoveredPoints(records, layout, n, p);
      if p in Covered(records, layout, n) {
        var i :| 0 <= i < n && Contains(PlacedRect(records[i], layout).value, p);
        FootprintPoints(records[i], layout, p);
        FootprintsAreDisjoint(records, layout, tolerance, i, n);
      }
    }
  }

  lemma {:induction false} CoveredSize(records: seq<Record>, layout: InterposerLayout, tolerance: int, n: nat)
    requires Violations(records, layout, tolerance) == [] && AllSized(records, layout) && n <= |records|
    ensures |Covered(records, layout, n)| == TotalArea(records, layout, n)
    ensures Covered(records, layout, n) <= Box(0, 0, Larger(0, layout.width), Larger(0, layout.height))
  {
    hide Violations, PlacedRect, Box;
    if n > 0 {
      CoveredSize(records, layout, tolerance, n - 1);
      var rect := PlacedRect(records[n - 1], layout).value;
      BoxSize(rect.lo.x, rect.lo.y, rect.hi.x - rect.lo.x, rect.hi.y - rect.lo.y);
      FootprintInside(records, layout, tolerance, n - 1);
      FootprintIsNew(records, layout, tolerance, n - 1);
    }
  }

  lemma FootprintInside(records: seq<Record>, layout: InterposerLayout, tolerance: int, i: nat)
    requires Violations(records, layout, tolerance) == [] && AllSized(records, layout) && i < |records|
    ensures Footprint(records[i], layout) <= Box(0, 0, Larger(0, layout.width), Larger(0, layout.height))
  {
    ReportIsEmptyIff(records, layout, tolerance);
    assert !Misplaced(records[i], layout);
    hide Violations, Conforms, FindDie;
  }

  lemma {:induction false} SubsetSize<T>(a: set<T>, b: set<T>)
    requires a <= b
    ensures |a| <= |b|
  {
    if x :| x in a {
      SubsetSize(a - {x}, b - {x});
    }
  }

  /** Everything placed fits: the footprints' areas add up to at most the area of the interposer. */
  lemma {:induction false} AreaIsBounded(records: seq<Record>, layout: InterposerLayout, tolerance: int)
    requires Violations(records, layout, tolerance) == [] && AllSized(records, layout)
    requires layout.width >= 0 && layout.height >= 0
    ensures TotalArea(records, layout, |records|) <= layout.width * layout.height
  {
    hide Violations, AllSized;
    CoveredSize(records, layout, tolerance, |records|);
    SubsetSize(Covered(records, layout, |records|), Box(0, 0, layout.width, layout.height));
    BoxSize(0, 0, layout.width, layout.height);
  }

  // ---------- the counting law ----------

  function CountUnknown(vs: seq<Violation>): nat
  {
    if vs == [] then 0 else CountUnknown(vs[..|vs| - 1]) + if vs[|vs| - 1].UnknownSite? then 1 else 0
  }

  function CountDuplicate(vs: seq<Violation>): nat
  {
    if vs == [] then 0 else CountDuplicate(vs[..|vs| - 1]) + if vs[|vs| - 1].DuplicatePlacement? then 1 else 0
  }

  function CountMissing(vs: seq<Violation>): nat
  {
    if vs == [] then 0 else CountMissing(vs[..|vs| - 1]) + if vs[|vs| - 1].MissingPlacement? then 1 else 0
  }

  lemma {:induction false} CountsAdd(a: seq<Violation>, b: seq<Violation>)
    ensures CountUnknown(a + b) == CountUnknown(a) + CountUnknown(b)
    ensures CountDuplicate(a + b) == CountDuplicate(a) + CountDuplicate(b)
    ensures CountMissing(a + b) == CountMissing(a) + CountMissing(b)
  {
    if b == [] {
      assert a + b == a;
    } else {
      CountsAdd(a, b[..|b| - 1]);
      assert (a + b)[..|a + b| - 1] == a + b[..|b| - 1];
    }
  }

  lemma {:induction false} CountsAbsent(vs: seq<Violation>)
    ensures (forall v | v in vs :: !v.UnknownSite?) ==> CountUnknown(vs) == 0
    ensures (forall v | v in vs :: !v.DuplicatePlacement?) ==> CountDuplicate(vs) == 0
    ensures (forall v | v in vs :: !v.MissingPlacement?) ==> CountMissing(vs) == 0
  {
    if vs != [] {
      CountsAbsent(vs[..|vs| - 1]);
      assert vs[|vs| - 1] in vs;
    }
  }

  lemma CountsOfChecks(r: Record, layout: InterposerLayout, tolerance: int)
    requires Known(r, layout)
    ensures var vs := Checks(r, layout, tolerance);
            CountUnknown(vs) == CountDuplicate(vs) == CountMissing(vs) == 0
  {
    CheckKinds(r, layout, tolerance);
    CountsAbsent(Checks(r, layout, tolerance));
    hide Checks, CountUnknown, CountDuplicate, CountMissing;
  }

  lemma CheckKinds(r: Record, layout: InterposerLayout, tolerance: int)
    requires Known(r, layout)
    ensures forall v | v in Checks(r, layout, tolerance) ::
              v.OrientationMismatch? || v.OffTarget? || v.OutOfBounds?
  {
    hide FindSite, Deviation, Misplaced;
  }

  lemma SeenStep(records: seq<Record>, layout: InterposerLayout, n: nat)
    requires 0 < n <= |records|
    ensures Seen(records, layout, n) == Seen(records, layout, n - 1)
         + if Known(records[n - 1], layout) then {records[n - 1].siteId} else {}
    ensures Known(records[n - 1], layout) ==>
              (records[n - 1].siteId in Seen(records, layout, n - 1) <==> Repeats(records, n - 1))
  {
    hide FindSite;
    if Known(records[n - 1], layout) {
      SameIdSameSite(records, layout, n - 1);
    }
  }

  lemma CountsAtRecord(records: seq<Record>, layout: InterposerLayout, tolerance: int, i: nat)
    requires i < |records|
    ensures var vs := AtRecord(records, layout, tolerance, i);
            CountUnknown(vs) + CountDuplicate(vs) == (if First(records, layout, i) then 0 else 1) && CountMissing(vs) == 0
  {
    hide Checks, FindSite, CountUnknown, CountDuplicate, CountMissing, Repeats;
    var r := records[i];
    if !Known(r, layout) {
      SingleCounts(UnknownSite(r.siteId));
    } else if Repeats(records, i) {
      SingleCounts(DuplicatePlacement(r.siteId));
    } else {
      CountsOfChecks(r, layout, tolerance);
    }
  }

  lemma SeenSize(records: seq<Record>, layout: InterposerLayout, n: nat)
    requires n < |records|
    ensures |Seen(records, layout, n + 1)| == |Seen(records, layout, n)| + if First(records, layout, n) then 1 else 0
  {
    SeenStep(records, layout, n + 1);
    hide Seen, Known, Repeats;
    var before, id := Seen(records, layout, n), records[n].siteId;
    if id in before {
      assert before + {id} == before;
    } else {
      assert |before + {id}| == |before| + 1;
    }
  }

  lemma NothingSeen(records: seq<Record>, layout: InterposerLayout, tolerance: int)
    ensures Seen(records, layout, 0) == {} && |Seen(records, layout, 0)| == 0
    ensures var vs := RecordViolations(records, layout, tolerance, 0);
            CountUnknown(vs) == CountDuplicate(vs) == CountMissing(vs) == 0
  {
    hide FindSite, AtRecord;
    assert Seen(records, layout, 0) == {};
  }

  lemma CountRecordStep(records: seq<Record>, layout: InterposerLayout, tolerance: int, n: nat)
    requires n < |records|
    ensures var before := RecordViolations(records, layout, tolerance, n);
            var after := RecordViolations(records, layout, tolerance, n + 1);
            && CountUnknown(after) + CountDuplicate(after) + |Seen(records, layout, n + 1)|
               == CountUnknown(before) + CountDuplicate(before) + |Seen(records, layout, n)| + 1
            && CountMissing(after) == CountMissing(before)
  {
    hide Seen, AtRecord, CountUnknown, CountDuplicate, CountMissing, First;
    CountsAtRecord(records, layout, tolerance, n);
    CountsAdd(RecordViolations(records, layout, tolerance, n), AtRecord(records, layout, tolerance, n));
    SeenSize(records, layout, n);
  }

  /** After `n` records, those neither unknown nor repeated are the accepted sites. */
  lemma {:induction false} CountRecordPass(records: seq<Record>, layout: InterposerLayout, tolerance: int, n: nat)
    requires n <= |records|
    ensures var vs := RecordViolations(records, layout, tolerance, n);
            CountUnknown(vs) + CountDuplicate(vs) + |Seen(records, layout, n)| == n && CountMissing(vs) == 0
  {
    hide Seen, RecordViolations, CountUnknown, CountDuplicate, CountMissing;
    if n == 0 {
      NothingSeen(records, layout, tolerance);
    } else {
      CountRecordPass(records, layout, tolerance, n - 1);
      CountRecordStep(records, layout, tolerance, n - 1);
    }
  }

  lemma SingleCounts(v: Violation)
    ensures CountUnknown([v]) == if v.UnknownSite? then 1 else 0
    ensures CountDuplicate([v]) == if v.DuplicatePlacement? then 1 else 0
    ensures CountMissing([v]) == if v.MissingPlacement? then 1 else 0
  {
    assert [v][..0] == [];
    assert CountUnknown([v][..0]) == CountDuplicate([v][..0]) == CountMissing([v][..0]) == 0;
  }

  predicate DistinctSites(sites: seq<SiteSpec>)
  {
    forall j, k | 0 <= j < k < |sites| :: sites[j].siteId != sites[k].siteId
  }

  function SiteIds(sites: seq<SiteSpec>, n: nat): set<Text>
    requires n <= |sites|
  {
    set k | 0 <= k < n :: sites[k].siteId
  }

  lemma SiteIdsStep(sites: seq<SiteSpec>, seen: set<Text>, n: nat)
    requires 0 < n <= |sites| && DistinctSites(sites)
    ensures var id := sites[n - 1].siteId;
            |seen * SiteIds(sites, n)| == |seen * SiteIds(sites, n - 1)| + if id in seen then 1 else 0
  {
    var id := sites[n - 1].siteId;
    var ids := SiteIds(sites, n - 1);
    assert id !in ids;
    assert SiteIds(sites, n) == ids + {id};
    if id in seen {
      assert seen * (ids + {id}) == seen * ids + {id};
    } else {
      assert seen * (ids + {id}) == seen * ids;
    }
  }

  lemma NothingMissing(sites: seq<SiteSpec>, seen: set<Text>)
    ensures |seen * SiteIds(sites, 0)| == 0
    ensures var vs := MissingViolations(sites, seen, 0);
            CountUnknown(vs) == CountDuplicate(vs) == CountMissing(vs) == 0
  {
    assert seen * SiteIds(sites, 0) == {};
  }

  lemma CountMissingStep(sites: seq<SiteSpec>, seen: set<Text>, n: nat)
    requires n < |sites| && DistinctSites(sites)
    ensures var before, after := MissingViolations(sites, seen, n), MissingViolations(sites, seen, n + 1);
            && CountMissing(after) + |seen * SiteIds(sites, n + 1)| == CountMissing(before) + |seen * SiteIds(sites, n)| + 1
            && CountUnknown(after) == CountUnknown(before) && CountDuplicate(after) == CountDuplicate(before)
  {
    hide CountUnknown, CountDuplicate, CountMissing, SiteIds, DistinctSites;
    var id := sites[n].siteId;
    CountsAdd(MissingViolations(sites, seen, n), if id in seen then [] else [MissingPlacement(id)]);
    SingleCounts(MissingPlacement(id));
    CountsAbsent([]);
    SiteIdsStep(sites, seen, n + 1);
  }

  /** Of the first `n` sites, those not missing are the accepted ones. */
  lemma {:induction false} CountMissingPass(sites: seq<SiteSpec>, seen: set<Text>, n: nat)
    requires n <= |sites| && DistinctSites(sites)
    ensures var vs := MissingViolations(sites, seen, n);
            CountMissing(vs) + |seen * SiteIds(sites, n)| == n && CountUnknown(vs) == CountDuplicate(vs) == 0
  {
    hide CountUnknown, CountDuplicate, CountMissing, SiteIds, DistinctSites, MissingViolations;
    if n == 0 {
      NothingMissing(sites, seen);
    } else {
      CountMissingPass(sites, seen, n - 1);
      CountMissingStep(sites, seen, n - 1);
    }
  }

  /**
   For every list of records: the records that are neither for an unknown site nor a repetition are
   as many as the sites that are not missing.
   */
  lemma CountingLaw(records: seq<Record>, layout: InterposerLayout, tolerance: int)
    requires DistinctSites(layout.sites)
    ensures var vs := Violations(records, layout, tolerance);
            |records| - CountUnknown(vs) - CountDuplicate(vs) == |layout.sites| - CountMissing(vs)
  {
    var n, m := |records|, |layout.sites|;
    var seen := Seen(records, layout, n);
    var first, second := RecordViolations(records, layout, tolerance, n), MissingViolations(layout.sites, seen, m);
    var third := OverlapViolations(records, layout, n);
    CountRecordPass(records, layout, tolerance, n);
    CountMissingPass(layout.sites, seen, m);
    forall v | v in third ensures v.Overlap? { InOverlapViolations(v, records, layout, n); }
    CountsAbsent(third);
    CountsAdd(first, second);
    CountsAdd(first + second, third);
    SeenAreSites(records, layout, n);
    assert seen * SiteIds(layout.sites, m) == seen;
  }

  lemma SeenAreSites(records: seq<Record>, layout: InterposerLayout, n: nat)
    requires n <= |records|
    ensures Seen(records, layout, n) <= SiteIds(layout.sites, |layout.sites|)
  {
    hide FindSite;
    forall j | 0 <= j < n && Known(records[j], layout)
      ensures records[j].siteId in SiteIds(layout.sites, |layout.sites|)
    {
      FindSiteFinds(layout.sites, records[j].siteId);
    }
  }
}
