/**
 From plan to verdict: a plan with enough clearance, run against the simulated equipment in any
 interleaving and over any splitting of the bytes, always passes verification.
 */
module EndToEnd {
  import opened Bytes
  import opened Utf8
  import opened Layout
  import opened AssemblyRun
  import opened Lockstep
  import opened WireRun
  import opened WireRefinement
  import opened Verify

  /** Half the placement window of the simulated equipment, per axis. */
  const JITTER := 15

  /** `simulated_equipment_tolerance_nm`. */
  const SIMULATED_TOLERANCE := JITTER * 2 * 2

  /** Both sides have been given the same commands and the same technique. */
  predicate SameTask(c: Config) { c.hostPlan == c.equipPlan && SameTechnique(c) }

  predicate JitterInWindow(c: Config)
    requires WellFormed(c)
  {
    forall i | 0 <= i < |c.jitter| :: -JITTER <= c.jitter[i].x <= JITTER && -JITTER <= c.jitter[i].y <= JITTER
  }

  predicate OrientedAsAsked(plan: seq<Command>, layout: InterposerLayout)
  {
    forall i | 0 <= i < |plan| ::
      var site := FindSite(layout.sites, plan[i].siteId); site.Some? && site.value.orientation == plan[i].orientation
  }

  predicate OnePerSite(plan: seq<Command>)
  {
    forall i, j | 0 <= i < j < |plan| :: plan[i].siteId != plan[j].siteId
  }

  predicate IsPlanned(plan: seq<Command>, id: Text)
  {
    exists i :: 0 <= i < |plan| && plan[i].siteId == id
  }

  predicate FillsLayout(plan: seq<Command>, layout: InterposerLayout)
  {
    forall k | 0 <= k < |layout.sites| :: IsPlanned(plan, layout.sites[k].siteId)
  }

  /** One command per site of the layout, oriented as the layout asks. */
  predicate PlansLayout(plan: seq<Command>, layout: InterposerLayout)
  {
    OrientedAsAsked(plan, layout) && OnePerSite(plan) && FillsLayout(plan, layout)
  }

  /** Jittered targets stay within U4 and, as far as the footprint is known, inside the high edges. */
  predicate HasMargin(command: Command, layout: InterposerLayout)
  {
    && 0 <= command.target.x <= TWO32 - JITTER - 1 && 0 <= command.target.y <= TWO32 - JITTER - 1
    && var die := FindDie(layout.dies, command.chipletId);
       die.Some? ==>
         && command.target.x + die.value.width + JITTER <= layout.width
         && command.target.y + die.value.height + JITTER <= layout.height
  }

  /** Twice the largest jitter of clearance on some axis. */
  predicate Clear(a: Command, b: Command, layout: InterposerLayout)
  {
    var da, db := FindDie(layout.dies, a.chipletId), FindDie(layout.dies, b.chipletId);
    da.Some? && db.Some? ==>
      || a.target.x + da.value.width + 2 * JITTER <= b.target.x
      || b.target.x + db.value.width + 2 * JITTER <= a.target.x
      || a.target.y + da.value.height + 2 * JITTER <= b.target.y
      || b.target.y + db.value.height + 2 * JITTER <= a.target.y
  }

  predicate Manufacturable(plan: seq<Command>, layout: InterposerLayout)
  {
    && PlansLayout(plan, layout)
    && (forall i | 0 <= i < |plan| :: HasMargin(plan[i], layout))
    && (forall i, j | 0 <= i < j < |plan| :: Clear(plan[i], plan[j], layout))
  }

  /** The clamp and the U4 transport move a position by at most the window. */
  lemma ReportedIsNear(t: int, j: int)
    requires 0 <= t <= TWO32 - JITTER - 1 && -JITTER <= j <= JITTER
    ensures 0 <= ToU4(t + j) && t - JITTER <= ToU4(t + j) <= t + JITTER
  {
  }

  lemma RecordIsNear(c: Config, i: nat)
    requires WellFormed(c) && JitterInWindow(c) && c.hostPlan == c.equipPlan && i < |c.hostPlan|
    requires var t := c.hostPlan[i].target; 0 <= t.x <= TWO32 - JITTER - 1 && 0 <= t.y <= TWO32 - JITTER - 1
    ensures var p, t := ReportedPosition(c, i), c.hostPlan[i].target;
            && 0 <= p.x && t.x - JITTER <= p.x <= t.x + JITTER
            && 0 <= p.y && t.y - JITTER <= p.y <= t.y + JITTER
  {
    var t, j := c.hostPlan[i].target, c.jitter[i];
    ReportedIsNear(t.x, j.x);
    ReportedIsNear(t.y, j.y);
    hide ToU4;
  }

  /** Records that follow the plan conform as soon as their positions are in order. */
  lemma FollowingThePlanConforms(plan: seq<Command>, records: seq<Record>, layout: InterposerLayout, tolerance: int)
    requires PlansLayout(plan, layout) && |records| == |plan|
    requires forall i | 0 <= i < |plan| ::
               records[i].siteId == plan[i].siteId && records[i].orientation == plan[i].orientation
    requires forall i | 0 <= i < |plan| :: Deviation(records[i]) <= tolerance && !Misplaced(records[i], layout)
    requires forall i, j | 0 <= i < j < |plan| :: !Overlapping(records[i], records[j], layout)
    ensures Conforms(records, layout, tolerance)
  {
    hide Deviation, Misplaced, Overlapping, FindSite;
    forall k | 0 <= k < |layout.sites|
      ensures exists i :: 0 <= i < |records| && records[i].siteId == layout.sites[k].siteId
    {
      assert IsPlanned(plan, layout.sites[k].siteId);
      var i :| 0 <= i < |plan| && plan[i].siteId == layout.sites[k].siteId;
      assert records[i].siteId == layout.sites[k].siteId;
    }
    assert forall i | 0 <= i < |records| :: Deviation(records[i]) <= tolerance;
    assert forall i | 0 <= i < |records| :: !Misplaced(records[i], layout);
  }

  /** The records of a completed run conform, whatever the jitter. */
  lemma {:induction false} RunConforms(c: Config, layout: InterposerLayout, tolerance: int)
    requires WellFormed(c) && JitterInWindow(c) && SameTask(c)
    requires Manufacturable(c.hostPlan, layout) && (c.hostPlan == [] || tolerance >= 2 * JITTER)
    ensures L(c) == |c.hostPlan| && Violations(Records(c, L(c)), layout, tolerance) == []
  {
    MatchingIff(c);
    hide Agreed, ReportedPosition, FindSite, FindDie, JitterInWindow;
    var plan, records := c.hostPlan, Records(c, L(c));
    forall i | 0 <= i < |plan|
      ensures records[i] == RecordOf(c, plan[i], ReportedPosition(c, i))
    {
    }
    forall i | 0 <= i < |plan|
      ensures Deviation(records[i]) <= tolerance && !Misplaced(records[i], layout)
    {
      assert HasMargin(plan[i], layout);
      RecordIsNear(c, i);
    }
    forall i, j | 0 <= i < j < |plan|
      ensures !Overlapping(records[i], records[j], layout)
    {
      assert HasMargin(plan[i], layout) && HasMargin(plan[j], layout) && Clear(plan[i], plan[j], layout);
      RecordIsNear(c, i);
      RecordIsNear(c, j);
    }
    hide Violations;
    FollowingThePlanConforms(plan, records, layout, tolerance);
    ReportIsEmptyIff(records, layout, tolerance);
  }

  /**
   Every finished byte-level run of such a plan completes on both sides, and `verify_placements`
   finds nothing wrong with the records it produced.
   */
  lemma {:induction false} PlacementRunVerifies(c: Config, layout: InterposerLayout, trace: seq<Wire>)
    requires WellFormed(c) && Transmittable(c) && JitterInWindow(c)
    requires SameTask(c) && Manufacturable(c.hostPlan, layout)
    requires IsWireRun(c, trace) && WireStuck(trace[|trace| - 1])
    ensures var w := trace[|trace| - 1];
            && w.host.pc.HostDone? && w.equip.pc.EquipDone?
            && |w.host.records| == |c.hostPlan|
            && Violations(w.host.records, layout, SIMULATED_TOLERANCE) == []
  {
    RunConforms(c, layout, SIMULATED_TOLERANCE);
    var run := WireRunEnds(c, trace);
    hide Violations, Manufacturable, IsWireRun, WireStuck, IsRun, Stuck, Records, Agreed;
  }
}
