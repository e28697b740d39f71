/**
 The margins are exact: for footprints of known size, a plan verifies under every jitter of the window
 only if it has them.
 */
module Margins {
  import opened Outcomes
  import opened Bytes
  import opened Layout
  import opened AssemblyRun
  import opened Lockstep
  import opened Verify
  import opened EndToEnd

  /** Targets that stay within U4 however they are jittered. */
  predicate InRange(plan: seq<Command>)
  {
    forall i | 0 <= i < |plan| ::
      0 <= plan[i].target.x <= TWO32 - JITTER - 1 && 0 <= plan[i].target.y <= TWO32 - JITTER - 1
  }

  predicate FootprintsSized(plan: seq<Command>, layout: InterposerLayout)
  {
    forall i | 0 <= i < |plan| ::
      var die := FindDie(layout.dies, plan[i].chipletId); die.Some? ==> die.value.width > 0 && die.value.height > 0
  }

  /** The report on the records of the completed run is empty. */
  predicate RunVerifies(c: Config, layout: InterposerLayout, tolerance: int)
    requires WellFormed(c)
  {
    Violations(Records(c, L(c)), layout, tolerance) == []
  }

  /** It is so for every jitter of the window. */
  ghost predicate AlwaysVerifies(c: Config, layout: InterposerLayout, tolerance: int)
  {
    forall js: seq<Point> ::
      WellFormed(c.(jitter := js)) && JitterInWindow(c.(jitter := js)) ==> RunVerifies(c.(jitter := js), layout, tolerance)
  }

  lemma RecordsOfRun(c: Config)
    requires WellFormed(c) && SameTask(c)
    ensures var rs := Records(c, L(c));
            && |rs| == |c.hostPlan|
            && forall i :: 0 <= i < |rs| ==> rs[i] == RecordOf(c, c.hostPlan[i], ReportedPosition(c, i))
  {
    MatchingIff(c);
    hide Agreed, ReportedPosition, RecordOf;
  }

  /** A verifying run has conforming records. */
  lemma RunRecordsConform(c: Config, js: seq<Point>, layout: InterposerLayout, tolerance: int) returns (rs: seq<Record>)
    requires SameTask(c) && AlwaysVerifies(c, layout, tolerance)
    requires |js| == |c.equipPlan| && JitterInWindow(c.(jitter := js))
    ensures |rs| == |c.hostPlan| && Conforms(rs, layout, tolerance)
    ensures forall i :: 0 <= i < |rs| ==>
              rs[i] == RecordOf(c, c.hostPlan[i], Point(ToU4(c.hostPlan[i].target.x + js[i].x),
                                                        ToU4(c.hostPlan[i].target.y + js[i].y)))
  {
    var run := c.(jitter := js);
    rs := Records(run, L(run));
    RecordsOfRun(run);
    ReportIsEmptyIff(rs, layout, tolerance);
    hide Records, Agreed, Violations, Conforms, JitterInWindow, ToU4;
    assert RunVerifies(run, layout, tolerance);
  }

  lemma ConformingPlan(plan: seq<Command>, rs: seq<Record>, layout: InterposerLayout, tolerance: int)
    requires |rs| == |plan| && Conforms(rs, layout, tolerance)
    requires forall i | 0 <= i < |plan| :: rs[i].siteId == plan[i].siteId && rs[i].orientation == plan[i].orientation
    ensures PlansLayout(plan, layout)
  {
    hide FindSite, Deviation, Misplaced, Overlapping;
    assert OrientedAsAsked(plan, layout) && OnePerSite(plan);
    forall k | 0 <= k < |layout.sites| ensures IsPlanned(plan, layout.sites[k].siteId) {
      var i :| 0 <= i < |rs| && rs[i].siteId == layout.sites[k].siteId;
      assert plan[i].siteId == layout.sites[k].siteId;
    }
  }

  lemma PlanIsForLayout(c: Config, layout: InterposerLayout, tolerance: int)
    requires SameTask(c) && AlwaysVerifies(c, layout, tolerance)
    ensures PlansLayout(c.hostPlan, layout)
  {
    hide AlwaysVerifies, Conforms, PlansLayout, ToU4;
    var rs := RunRecordsConform(c, seq(|c.equipPlan|, i => Point(0, 0)), layout, tolerance);
    ConformingPlan(c.hostPlan, rs, layout, tolerance);
  }

  /** The jitter at the far corner of the window takes up the whole margin and the whole tolerance. */
  lemma FarCorner(command: Command, r: Record, layout: InterposerLayout, tolerance: int)
    requires 0 <= command.target.x <= TWO32 - JITTER - 1 && 0 <= command.target.y <= TWO32 - JITTER - 1
    requires r.chipletId == command.chipletId && r.nominal == command.target
    requires r.placed == Point(ToU4(command.target.x + JITTER), ToU4(command.target.y + JITTER))
    requires Deviation(r) <= tolerance && !Misplaced(r, layout)
    ensures HasMargin(command, layout) && tolerance >= 2 * JITTER
  {
    hide FindDie;
    assert r.placed == Point(command.target.x + JITTER, command.target.y + JITTER);
  }

  lemma ConformsAt(rs: seq<Record>, layout: InterposerLayout, tolerance: int, i: nat)
    requires Conforms(rs, layout, tolerance) && i < |rs|
    ensures Deviation(rs[i]) <= tolerance && !Misplaced(rs[i], layout)
  {
    hide Overlapping, FindSite, Deviation, Misplaced;
  }

  lemma MarginIsThere(c: Config, layout: InterposerLayout, tolerance: int, i: nat)
    requires SameTask(c) && AlwaysVerifies(c, layout, tolerance) && InRange(c.hostPlan)
    requires i < |c.hostPlan|
    ensures HasMargin(c.hostPlan[i], layout) && tolerance >= 2 * JITTER
  {
    hide AlwaysVerifies, Conforms, Deviation, Misplaced, HasMargin, ToU4;
    var rs := RunRecordsConform(c, seq(|c.equipPlan|, k => Point(JITTER, JITTER)), layout, tolerance);
    ConformsAt(rs, layout, tolerance, i);
    FarCorner(c.hostPlan[i], rs[i], layout, tolerance);
  }

  /** Two extents with less than twice the jitter between them can be jittered into each other. */
  lemma AxisMeets(a: int, wa: int, b: int, wb: int) returns (ja: int, jb: int)
    requires 0 <= a <= TWO32 - JITTER - 1 && 0 <= b <= TWO32 - JITTER - 1 && wa > 0 && wb > 0
    requires a + wa + 2 * JITTER > b && b + wb + 2 * JITTER > a
    ensures -JITTER <= ja <= JITTER && -JITTER <= jb <= JITTER
    ensures ToU4(a + ja) < ToU4(b + jb) + wb && ToU4(b + jb) < ToU4(a + ja) + wa
  {
    ja, jb := 0, 0;
    if b >= a + wa {
      ja := if b - a - wa + 1 < JITTER then b - a - wa + 1 else JITTER;
      jb := ja - (b - a - wa + 1);
    } else if a >= b + wb {
      jb := if a - b - wb + 1 < JITTER then a - b - wb + 1 else JITTER;
      ja := jb - (a - b - wb + 1);
    }
  }

  lemma ConformingAreApart(rs: seq<Record>, layout: InterposerLayout, tolerance: int, i: nat, j: nat)
    requires Conforms(rs, layout, tolerance) && i < j < |rs|
    ensures !Overlapping(rs[i], rs[j], layout)
  {
    hide Overlapping, FindSite, Deviation, Misplaced;
  }

  lemma MeetingFootprintsOverlap(ra: Record, rb: Record, da: DieSpec, db: DieSpec, layout: InterposerLayout)
    requires FindDie(layout.dies, ra.chipletId) == Some(da) && FindDie(layout.dies, rb.chipletId) == Some(db)
    requires ra.placed.x < rb.placed.x + db.width && rb.placed.x < ra.placed.x + da.width
    requires ra.placed.y < rb.placed.y + db.height && rb.placed.y < ra.placed.y + da.height
    ensures Overlapping(ra, rb, layout)
  {
    hide FindDie;
  }

  lemma ClearanceIsThere(c: Config, layout: InterposerLayout, tolerance: int, i: nat, j: nat)
    requires SameTask(c) && AlwaysVerifies(c, layout, tolerance)
    requires InRange(c.hostPlan) && FootprintsSized(c.hostPlan, layout) && i < j < |c.hostPlan|
    ensures Clear(c.hostPlan[i], c.hostPlan[j], layout)
  {
    var a, b := c.hostPlan[i], c.hostPlan[j];
    var da, db := FindDie(layout.dies, a.chipletId), FindDie(layout.dies, b.chipletId);
    hide FindDie, ToU4, Conforms, Overlapping;
    if !Clear(a, b, layout) {
      var ax, bx := AxisMeets(a.target.x, da.value.width, b.target.x, db.value.width);
      var ay, by' := AxisMeets(a.target.y, da.value.height, b.target.y, db.value.height);
      var js := seq(|c.equipPlan|, k => if k == i then Point(ax, ay) else if k == j then Point(bx, by') else Point(0, 0));
      var rs := RunRecordsConform(c, js, layout, tolerance);
      ConformingAreApart(rs, layout, tolerance, i, j);
      MeetingFootprintsOverlap(rs[i], rs[j], da.value, db.value, layout);
    }
  }

  /** A plan verifies under every jitter of the window exactly when it has the margins and the clearances. */
  lemma {:induction false} ManufacturableIff(c: Config, layout: InterposerLayout, tolerance: int)
    requires SameTask(c) && InRange(c.hostPlan) && FootprintsSized(c.hostPlan, layout)
    ensures AlwaysVerifies(c, layout, tolerance)
       <==> Manufacturable(c.hostPlan, layout) && (c.hostPlan == [] || tolerance >= 2 * JITTER)
  {
    hide HasMargin, Clear, PlansLayout, JitterInWindow;
    if AlwaysVerifies(c, layout, tolerance) {
      PlanIsForLayout(c, layout, tolerance);
      forall i | 0 <= i < |c.hostPlan| ensures HasMargin(c.hostPlan[i], layout) && tolerance >= 2 * JITTER {
        MarginIsThere(c, layout, tolerance, i);
      }
      assert c.hostPlan != [] ==> HasMargin(c.hostPlan[0], layout) && tolerance >= 2 * JITTER;
      forall i, j | 0 <= i < j < |c.hostPlan| ensures Clear(c.hostPlan[i], c.hostPlan[j], layout) {
        ClearanceIsThere(c, layout, tolerance, i, j);
      }
    }
    if Manufacturable(c.hostPlan, layout) && (c.hostPlan == [] || tolerance >= 2 * JITTER) {
      forall js: seq<Point> | WellFormed(c.(jitter := js)) && JitterInWindow(c.(jitter := js))
        ensures RunVerifies(c.(jitter := js), layout, tolerance)
      {
        RunConforms(c.(jitter := js), layout, tolerance);
      }
    }
  }
}
