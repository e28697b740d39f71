/**
 The report spelled out: which violations there are, how often and in which order, in terms of the
 records and of the two lists of the layout alone.
 */
module VerifyLaws {
  import opened Utf8
  import opened Layout
  import opened Verify

  // ---------- what is wrong with a placement ----------

  /** No site has the id of record `i`. */
  ghost predicate Stray(records: seq<Record>, layout: InterposerLayout, i: nat)
    requires i < |records|
  {
    forall k | 0 <= k < |layout.sites| :: layout.sites[k].siteId != records[i].siteId
  }

  /** An earlier record has it. */
  ghost predicate Again(records: seq<Record>, i: nat)
    requires i < |records|
  {
    exists j :: 0 <= j < i && records[j].siteId == records[i].siteId
  }

  /** The first site with the id asks for another orientation. */
  ghost predicate Turned(r: Record, layout: InterposerLayout)
  {
    exists k: nat :: FirstAt(layout.sites, r.siteId, k) && layout.sites[k].orientation != r.orientation
  }

  function Distance(a: int, b: int): nat { if a < b then b - a else a - b }

  function OffBy(r: Record): nat
  {
    Distance(r.placed.x, r.nominal.x) + Distance(r.placed.y, r.nominal.y)
  }

  /** The first footprint of the chiplet, put at the reported position, sticks out. */
  ghost predicate Outside(r: Record, layout: InterposerLayout)
  {
    exists k: nat ::
      FirstDieAt(layout.dies, r.chipletId, k)
      && (r.placed.x < 0 || r.placed.y < 0
          || layout.width < r.placed.x + layout.dies[k].width || layout.height < r.placed.y + layout.dies[k].height)
  }

  /** The first footprints of both chiplets, put at the reported positions, overlap. */
  ghost predicate Collide(a: Record, b: Record, layout: InterposerLayout)
  {
    exists k: nat, m: nat ::
      FirstDieAt(layout.dies, a.chipletId, k) && FirstDieAt(layout.dies, b.chipletId, m)
      && a.placed.x < b.placed.x + layout.dies[m].width && b.placed.x < a.placed.x + layout.dies[k].width
      && a.placed.y < b.placed.y + layout.dies[m].height && b.placed.y < a.placed.y + layout.dies[k].height
  }

  // ---------- the report ----------

  ghost function Said(wrong: bool, v: Violation): seq<Violation> { if wrong then [v] else [] }

  ghost function OnRecord(records: seq<Record>, layout: InterposerLayout, tolerance: int, i: nat): seq<Violation>
    requires i < |records|
  {
    var r := records[i];
    if Stray(records, layout, i) then [UnknownSite(r.siteId)]
    else if Again(records, i) then [DuplicatePlacement(r.siteId)]
    else
      Said(Turned(r, layout), OrientationMismatch(r.siteId))
      + Said(OffBy(r) > tolerance, OffTarget(r.siteId, OffBy(r), tolerance))
      + Said(Outside(r, layout), OutOfBounds(r.siteId, r.placed))
  }

  ghost function OnRecords(records: seq<Record>, layout: InterposerLayout, tolerance: int, n: nat): seq<Violation>
    requires n <= |records|
  {
    if n == 0 then [] else OnRecords(records, layout, tolerance, n - 1) + OnRecord(records, layout, tolerance, n - 1)
  }

  ghost predicate Empty(records: seq<Record>, site: SiteSpec)
  {
    forall i | 0 <= i < |records| :: records[i].siteId != site.siteId
  }

  ghost function OnSites(records: seq<Record>, sites: seq<SiteSpec>, n: nat): seq<Violation>
    requires n <= |sites|
  {
    if n == 0 then []
    else OnSites(records, sites, n - 1) + Said(Empty(records, sites[n - 1]), MissingPlacement(sites[n - 1].siteId))
  }

  ghost function OnPairsOf(records: seq<Record>, layout: InterposerLayout, i: nat, n: nat): seq<Violation>
    requires i < n <= |records|
  {
    if n == i + 1 then []
    else
      OnPairsOf(records, layout, i, n - 1)
      + Said(Collide(records[i], records[n - 1], layout), Overlap(records[i].siteId, records[n - 1].siteId))
  }

  ghost function OnPairs(records: seq<Record>, layout: InterposerLayout, n: nat): seq<Violation>
    requires n <= |records|
  {
    if n == 0 then [] else OnPairs(records, layout, n - 1) + OnPairsOf(records, layout, n - 1, |records|)
  }

  // ---------- the proof ----------

  lemma FirstAtIsUnique(sites: seq<SiteSpec>, id: Text, k: nat, m: nat)
    requires FirstAt(sites, id, k) && FirstAt(sites, id, m)
    ensures k == m
  {
  }

  lemma FirstDieAtIsUnique(dies: seq<DieSpec>, id: Text, k: nat, m: nat)
    requires FirstDieAt(dies, id, k) && FirstDieAt(dies, id, m)
    ensures k == m
  {
  }

  lemma StrayIff(records: seq<Record>, layout: InterposerLayout, i: nat)
    requires i < |records|
    ensures Stray(records, layout, i) <==> !Known(records[i], layout)
  {
    FindSiteFinds(layout.sites, records[i].siteId);
    hide FindSite;
  }

  lemma TurnedIff(r: Record, layout: InterposerLayout)
    requires Known(r, layout)
    ensures Turned(r, layout) <==> r.orientation != FindSite(layout.sites, r.siteId).value.orientation
  {
    FindSiteFinds(layout.sites, r.siteId);
    hide FindSite;
    var k: nat :| FirstAt(layout.sites, r.siteId, k) && FindSite(layout.sites, r.siteId).value == layout.sites[k];
    if m: nat :| FirstAt(layout.sites, r.siteId, m) && layout.sites[m].orientation != r.orientation {
      FirstAtIsUnique(layout.sites, r.siteId, k, m);
    }
  }

  lemma OutsideIff(r: Record, layout: InterposerLayout)
    ensures Outside(r, layout) <==> Misplaced(r, layout)
  {
    FindDieFinds(layout.dies, r.chipletId);
    hide FindDie;
    if FindDie(layout.dies, r.chipletId).Some? {
      var k: nat :| FirstDieAt(layout.dies, r.chipletId, k) && FindDie(layout.dies, r.chipletId).value == layout.dies[k];
      forall m: nat | FirstDieAt(layout.dies, r.chipletId, m) ensures m == k {
        FirstDieAtIsUnique(layout.dies, r.chipletId, k, m);
      }
    }
  }

  lemma CollideIff(a: Record, b: Record, layout: InterposerLayout)
    ensures Collide(a, b, layout) <==> Overlapping(a, b, layout)
  {
    FindDieFinds(layout.dies, a.chipletId);
    FindDieFinds(layout.dies, b.chipletId);
    hide FindDie;
    if FindDie(layout.dies, a.chipletId).Some? && FindDie(layout.dies, b.chipletId).Some? {
      var k: nat :| FirstDieAt(layout.dies, a.chipletId, k) && FindDie(layout.dies, a.chipletId).value == layout.dies[k];
      var m: nat :| FirstDieAt(layout.dies, b.chipletId, m) && FindDie(layout.dies, b.chipletId).value == layout.dies[m];
      forall n: nat | FirstDieAt(layout.dies, a.chipletId, n) ensures n == k {
        FirstDieAtIsUnique(layout.dies, a.chipletId, k, n);
      }
      forall n: nat | FirstDieAt(layout.dies, b.chipletId, n) ensures n == m {
        FirstDieAtIsUnique(layout.dies, b.chipletId, m, n);
      }
    }
  }

  lemma RecordIsSpelledOut(records: seq<Record>, layout: InterposerLayout, tolerance: int, i: nat)
    requires i < |records|
    ensures AtRecord(records, layout, tolerance, i) == OnRecord(records, layout, tolerance, i)
  {
    hide Stray, Turned, Outside, Misplaced, FindSite;
    var r := records[i];
    StrayIff(records, layout, i);
    if Known(r, layout) {
      TurnedIff(r, layout);
      OutsideIff(r, layout);
      assert Deviation(r) == OffBy(r);
    }
  }

  lemma {:induction false} RecordsAreSpelledOut(records: seq<Record>, layout: InterposerLayout, tolerance: int, n: nat)
    requires n <= |records|
    ensures RecordViolations(records, layout, tolerance, n) == OnRecords(records, layout, tolerance, n)
  {
    hide AtRecord, OnRecord;
    if n > 0 {
      RecordsAreSpelledOut(records, layout, tolerance, n - 1);
      RecordIsSpelledOut(records, layout, tolerance, n - 1);
    }
  }

  lemma {:induction false} SitesAreSpelledOut(records: seq<Record>, layout: InterposerLayout, n: nat)
    requires n <= |layout.sites|
    ensures MissingViolations(layout.sites, Seen(records, layout, |records|), n) == OnSites(records, layout.sites, n)
  {
    hide Seen;
    if n > 0 {
      SitesAreSpelledOut(records, layout, n - 1);
      MissingMeansUnplaced(layout.sites[n - 1].siteId, records, layout);
    }
  }

  lemma {:induction false} RowIsSpelledOut(records: seq<Record>, layout: InterposerLayout, i: nat, n: nat)
    requires i < n <= |records|
    ensures RowOverlaps(records, layout, i, n) == OnPairsOf(records, layout, i, n)
  {
    hide Overlapping, Collide;
    if n > i + 1 {
      RowIsSpelledOut(records, layout, i, n - 1);
      CollideIff(records[i], records[n - 1], layout);
    }
  }

  lemma {:induction false} PairsAreSpelledOut(records: seq<Record>, layout: InterposerLayout, n: nat)
    requires n <= |records|
    ensures OverlapViolations(records, layout, n) == OnPairs(records, layout, n)
  {
    hide RowOverlaps, OnPairsOf;
    if n > 0 {
      PairsAreSpelledOut(records, layout, n - 1);
      RowIsSpelledOut(records, layout, n - 1, |records|);
    }
  }

  /**
   The whole report: record by record, then site by site, then pair by pair, whatever the records and
   the layout, with every lookup resolved to the first entry of its list.
   */
  lemma ReportIsSpelledOut(records: seq<Record>, layout: InterposerLayout, tolerance: int)
    ensures Violations(records, layout, tolerance)
         == OnRecords(records, layout, tolerance, |records|) + OnSites(records, layout.sites, |layout.sites|)
            + OnPairs(records, layout, |records|)
  {
    hide RecordViolations, MissingViolations, OverlapViolations, Seen, OnRecords, OnSites, OnPairs;
    RecordsAreSpelledOut(records, layout, tolerance, |records|);
    SitesAreSpelledOut(records, layout, |layout.sites|);
    PairsAreSpelledOut(records, layout, |records|);
  }

  /** A known footprint that sticks out, or two that overlap, never go unreported. */
  lemma BadFootprintsAreReported(records: seq<Record>, layout: InterposerLayout, tolerance: int, i: nat, j: nat)
    requires i < |records| && j < |records|
    ensures i < j && Collide(records[i], records[j], layout)
        ==> Overlap(records[i].siteId, records[j].siteId) in Violations(records, layout, tolerance)
    ensures Outside(records[j], layout) && !Stray(records, layout, j) && !Again(records, j)
        ==> OutOfBounds(records[j].siteId, records[j].placed) in Violations(records, layout, tolerance)
  {
    hide Violations, Collide, Outside, Stray, Overlapping, Misplaced, FindSite;
    CollideIff(records[i], records[j], layout);
    OutsideIff(records[j], layout);
    StrayIff(records, layout, j);
    assert First(records, layout, j) <==> !Stray(records, layout, j) && !Again(records, j);
    ReportIsExact(Overlap(records[i].siteId, records[j].siteId), records, layout, tolerance);
    ReportIsExact(OutOfBounds(records[j].siteId, records[j].placed), records, layout, tolerance);
  }
}
