/** Which result each die of a sorted map carries, and when the passes on the map are those of the tally. */
module WaferLaws {
  import opened Bins
  import opened Wafer
  import opened BinSort

  // ---------- the last result for a die ----------

  predicate LastFor(rs: seq<DieTestResult>, coord: DieCoord, j: nat)
  {
    j < |rs| && rs[j].coord == coord && forall k :: j < k < |rs| ==> rs[k].coord != coord
  }

  ghost predicate Fate(before: Die, after: Die, rs: seq<DieTestResult>, program: TestProgram, taxonomy: BinTaxonomy)
  {
    && after.coord == before.coord
    && (before.state.Excluded? ==> after == before)
    && (!before.state.Excluded? ==>
          && (forall j: nat :: LastFor(rs, before.coord, j) ==>
                var a := SortDie(rs[j], program, taxonomy);
                after.state == Tested(DieTestOutcome(a.passed, a.hardBin, a.softBin)))
          && ((forall j :: 0 <= j < |rs| ==> rs[j].coord != before.coord) ==> after == before))
  }

  lemma LastGrows(rs: seq<DieTestResult>, r: DieTestResult, coord: DieCoord, j: nat)
    ensures LastFor(rs + [r], coord, j) <==> if r.coord == coord then j == |rs| else LastFor(rs, coord, j)
  {
    var all := rs + [r];
    assert all[|rs|] == r && forall k :: 0 <= k < |rs| ==> all[k] == rs[k];
  }

  lemma FateStep(before: Die, mid: Die, after: Die, rs: seq<DieTestResult>, r: DieTestResult, program: TestProgram,
                 taxonomy: BinTaxonomy)
    requires Fate(before, mid, rs, program, taxonomy)
    requires after == if r.coord == mid.coord && !mid.state.Excluded?
                      then Die(mid.coord, Tested(OutcomeOf(SortDie(r, program, taxonomy)))) else mid
    requires mid.state.Excluded? ==> before.state.Excluded?
    ensures Fate(before, after, rs + [r], program, taxonomy)
  {
    hide SortDie;
    var all := rs + [r];
    assert all[|rs|] == r;
    forall j: nat ensures LastFor(all, before.coord, j) <==> if r.coord == before.coord then j == |rs| else LastFor(rs, before.coord, j) {
      LastGrows(rs, r, before.coord, j);
    }
    if (forall j :: 0 <= j < |all| ==> all[j].coord != before.coord) {
      assert forall j :: 0 <= j < |rs| ==> rs[j] == all[j];
    }
  }

  /** What recording one result does to each die. */
  lemma RecordedAt(dies: seq<Die>, coord: DieCoord, o: DieTestOutcome, k: nat)
    requires InOrder(dies) && k < |dies|
    ensures var p := Recorded(dies, coord, o);
            && |p.dies| == |dies|
            && p.dies[k] == if coord == dies[k].coord && !dies[k].state.Excluded? then Die(coord, Tested(o)) else dies[k]
  {
    var at := Find(dies, coord);
    if at.Some? && dies[k].coord == coord {
      assert at.value == k;
    }
  }

  lemma RecordedKeepsOrder(dies: seq<Die>, coord: DieCoord, o: DieTestOutcome)
    requires InOrder(dies)
    ensures InOrder(Recorded(dies, coord, o).dies)
  {
    FoundIsThere(dies, coord, o);
  }

  /**
   After sorting, every die of the map that is not excluded carries the assignment of the last result
   for its coordinate, and is as it was if there is none; excluded dies are never touched.
   */
  lemma {:induction false} EachDieKeepsItsLastResult(dies: seq<Die>, rs: seq<DieTestResult>, program: TestProgram,
                                                     taxonomy: BinTaxonomy)
    requires InOrder(dies)
    ensures var after := SortedWafer(dies, rs, program, taxonomy).dies;
            && InOrder(after) && |after| == |dies|
            && forall k :: 0 <= k < |dies| ==> Fate(dies[k], after[k], rs, program, taxonomy)
                                               && (after[k].state.Excluded? <==> dies[k].state.Excluded?)
  {
    if rs != [] {
      hide SortDie, Recorded, InOrder, Fate;
      var n := |rs| - 1;
      EachDieKeepsItsLastResult(dies, rs[..n], program, taxonomy);
      var mid := SortedWafer(dies, rs[..n], program, taxonomy).dies;
      var o := OutcomeOf(SortDie(rs[n], program, taxonomy));
      var after := Recorded(mid, rs[n].coord, o).dies;
      RecordedKeepsOrder(mid, rs[n].coord, o);
      assert rs == rs[..n] + [rs[n]];
      if mid == [] {
        NothingRecorded(rs[n].coord, o);
      } else {
        RecordedAt(mid, rs[n].coord, o, 0);
      }
      forall k | 0 <= k < |dies|
        ensures Fate(dies[k], after[k], rs, program, taxonomy) && (after[k].state.Excluded? <==> dies[k].state.Excluded?)
      {
        RecordedAt(mid, rs[n].coord, o, k);
        FateStep(dies[k], mid[k], after[k], rs[..n], rs[n], program, taxonomy);
      }
    } else {
      hide SortDie;
    }
  }

  lemma NothingRecorded(coord: DieCoord, o: DieTestOutcome)
    ensures Recorded([], coord, o).dies == []
  {
  }

  // ---------- passes ----------

  predicate OnMap(dies: seq<Die>, coord: DieCoord)
  {
    exists k :: 0 <= k < |dies| && dies[k].coord == coord && !dies[k].state.Excluded?
  }

  /** Every passing result found its die, and none came after it for the same die. */
  predicate NoPassIsLost(dies: seq<Die>, rs: seq<DieTestResult>, program: TestProgram, taxonomy: BinTaxonomy)
  {
    forall j :: 0 <= j < |rs| && SortDie(rs[j], program, taxonomy).passed ==>
      OnMap(dies, rs[j].coord) && LastFor(rs, rs[j].coord, j)
  }

  predicate Passing(d: Die) { d.state.Tested? && d.state.outcome.passed }

  lemma {:induction false} PassesSplit(a: seq<DieTestOutcome>, b: seq<DieTestOutcome>)
    ensures PassesIn(a + b) == PassesIn(a) + PassesIn(b)
  {
    if b == [] {
      assert a + b == a;
    } else {
      var n := |b| - 1;
      assert (a + b)[..|a| + n] == a + b[..n];
      PassesSplit(a, b[..n]);
    }
  }

  lemma PassesOfOne(d: Die)
    ensures PassesIn(OutcomesOn([d])) == if Passing(d) then 1 else 0
  {
    assert [d][1..] == [];
    if d.state.Tested? {
      assert OutcomesOn([d]) == [d.state.outcome];
      assert [d.state.outcome][..0] == [];
    }
  }

  lemma PassesAfterUpdate(dies: seq<Die>, i: nat, d: Die)
    requires i < |dies|
    ensures PassesIn(OutcomesOn(dies[i := d])) + (if Passing(dies[i]) then 1 else 0)
         == PassesIn(OutcomesOn(dies)) + if Passing(d) then 1 else 0
  {
    hide OutcomesOn, PassesIn;
    var before, after := dies[..i], dies[i + 1..];
    assert dies == before + ([dies[i]] + after) && dies[i := d] == before + ([d] + after);
    OutcomesSplit(before, [dies[i]] + after);
    OutcomesSplit([dies[i]], after);
    OutcomesSplit(before, [d] + after);
    OutcomesSplit([d], after);
    PassesSplit(OutcomesOn(before), OutcomesOn([dies[i]] + after));
    PassesSplit(OutcomesOn([dies[i]]), OutcomesOn(after));
    PassesSplit(OutcomesOn(before), OutcomesOn([d] + after));
    PassesSplit(OutcomesOn([d]), OutcomesOn(after));
    PassesOfOne(dies[i]);
    PassesOfOne(d);
  }

  /** Recording a result takes the pass of the die away, if it had one, and gives it the new one. */
  lemma PassesAfterRecord(dies: seq<Die>, coord: DieCoord, o: DieTestOutcome)
    requires InOrder(dies)
    ensures var p := Recorded(dies, coord, o);
            var lost := exists k :: 0 <= k < |dies| && dies[k].coord == coord && Passing(dies[k]);
            && (p.ok <==> OnMap(dies, coord))
            && PassesIn(OutcomesOn(p.dies)) + (if lost then 1 else 0)
               == PassesIn(OutcomesOn(dies)) + if p.ok && o.passed then 1 else 0
  {
    hide OutcomesOn, PassesIn;
    var at := Find(dies, coord);
    if at.Some? {
      assert forall k :: 0 <= k < |dies| && dies[k].coord == coord ==> k == at.value;
      if !dies[at.value].state.Excluded? {
        PassesAfterUpdate(dies, at.value, Die(coord, Tested(o)));
      }
    }
  }

  /** A die passes exactly when the last result for it does. */
  lemma PassingIff(dies: seq<Die>, rs: seq<DieTestResult>, program: TestProgram, taxonomy: BinTaxonomy, coord: DieCoord)
    requires InOrder(dies) && NoneTested(dies)
    ensures var after := SortedWafer(dies, rs, program, taxonomy).dies;
            (exists k :: 0 <= k < |after| && after[k].coord == coord && Passing(after[k]))
            <==> OnMap(dies, coord) && exists j: nat :: LastFor(rs, coord, j) && SortDie(rs[j], program, taxonomy).passed
  {
    EachDieKeepsItsLastResult(dies, rs, program, taxonomy);
    var after := SortedWafer(dies, rs, program, taxonomy).dies;
    hide SortDie, SortedWafer, InOrder;
    if j: nat :| OnMap(dies, coord) && LastFor(rs, coord, j) && SortDie(rs[j], program, taxonomy).passed {
      var k :| 0 <= k < |dies| && dies[k].coord == coord && !dies[k].state.Excluded?;
      assert Fate(dies[k], after[k], rs, program, taxonomy);
      assert Passing(after[k]);
    }
    if k :| 0 <= k < |after| && after[k].coord == coord && Passing(after[k]) {
      assert Fate(dies[k], after[k], rs, program, taxonomy);
      assert !dies[k].state.Tested? && !dies[k].state.Excluded?;
      var j := LastOrNone(rs, coord);
      assert LastFor(rs, coord, j);
    }
  }

  lemma LastOrNone(rs: seq<DieTestResult>, coord: DieCoord) returns (j: nat)
    ensures LastFor(rs, coord, j) || forall k :: 0 <= k < |rs| ==> rs[k].coord != coord
  {
    j := |rs|;
    while j > 0 && rs[j - 1].coord != coord
      invariant j <= |rs| && forall k :: j <= k < |rs| ==> rs[k].coord != coord
    {
      j := j - 1;
    }
    if j > 0 {
      j := j - 1;
    }
  }

  lemma LostStep(dies: seq<Die>, rs: seq<DieTestResult>, r: DieTestResult, program: TestProgram, taxonomy: BinTaxonomy)
    ensures NoPassIsLost(dies, rs + [r], program, taxonomy)
       <==> && NoPassIsLost(dies, rs, program, taxonomy)
            && !(exists j: nat :: LastFor(rs, r.coord, j) && SortDie(rs[j], program, taxonomy).passed)
            && (SortDie(r, program, taxonomy).passed ==> OnMap(dies, r.coord))
  {
    hide SortDie, OnMap;
    var all := rs + [r];
    assert all[|rs|] == r && forall k :: 0 <= k < |rs| ==> all[k] == rs[k];
    forall j: nat | j < |rs| ensures LastFor(all, rs[j].coord, j) <==> rs[j].coord != r.coord && LastFor(rs, rs[j].coord, j) {
      LastGrows(rs, r, rs[j].coord, j);
    }
    LastGrows(rs, r, r.coord, |rs|);
  }

  /** The passes on the map are at most those counted, and as many exactly when no pass is lost. */
  lemma {:induction false} PassesOnMapIff(dies: seq<Die>, rs: seq<DieTestResult>, program: TestProgram, taxonomy: BinTaxonomy)
    requires InOrder(dies) && NoneTested(dies)
    ensures var good := PassesIn(OutcomesOn(SortedWafer(dies, rs, program, taxonomy).dies));
            var passed := PassesIn(OutcomesOf(rs, program, taxonomy));
            good <= passed && (good == passed <==> NoPassIsLost(dies, rs, program, taxonomy))
  {
    if rs == [] {
      NoOutcomesYet(dies);
    } else {
      hide SortDie, Recorded, OutcomesOn, PassesIn, InOrder, NoPassIsLost, OnMap;
      var n := |rs| - 1;
      var front, r := rs[..n], rs[n];
      PassesOnMapIff(dies, front, program, taxonomy);
      EachDieKeepsItsLastResult(dies, front, program, taxonomy);
      var mid := SortedWafer(dies, front, program, taxonomy).dies;
      var o := OutcomeOf(SortDie(r, program, taxonomy));
      PassesAfterRecord(mid, r.coord, o);
      PassingIff(dies, front, program, taxonomy, r.coord);
      LostStep(dies, front, r, program, taxonomy);
      SameMap(dies, mid, front, program, taxonomy, r.coord);
      OneMorePass(front, r, program, taxonomy);
      assert rs == front + [r];
    }
  }

  lemma SameMap(dies: seq<Die>, mid: seq<Die>, rs: seq<DieTestResult>, program: TestProgram, taxonomy: BinTaxonomy,
                coord: DieCoord)
    requires |mid| == |dies|
    requires forall k :: 0 <= k < |dies| ==> Fate(dies[k], mid[k], rs, program, taxonomy)
                                             && (mid[k].state.Excluded? <==> dies[k].state.Excluded?)
    ensures OnMap(mid, coord) <==> OnMap(dies, coord)
  {
    hide SortDie;
    if k :| 0 <= k < |dies| && dies[k].coord == coord && !dies[k].state.Excluded? {
      assert Fate(dies[k], mid[k], rs, program, taxonomy);
      assert mid[k].coord == coord;
    }
    if k :| 0 <= k < |mid| && mid[k].coord == coord && !mid[k].state.Excluded? {
      assert Fate(dies[k], mid[k], rs, program, taxonomy);
      assert dies[k].coord == coord;
    }
  }

  lemma OneMorePass(rs: seq<DieTestResult>, r: DieTestResult, program: TestProgram, taxonomy: BinTaxonomy)
    ensures PassesIn(OutcomesOf(rs + [r], program, taxonomy))
         == PassesIn(OutcomesOf(rs, program, taxonomy)) + if SortDie(r, program, taxonomy).passed then 1 else 0
  {
    hide SortDie;
    var os := OutcomesOf(rs + [r], program, taxonomy);
    assert os[..|rs|] == OutcomesOf(rs, program, taxonomy);
  }

  // ---------- results that found no die ----------

  function OffMap(dies: seq<Die>, rs: seq<DieTestResult>): nat
  {
    if rs == [] then 0 else OffMap(dies, rs[..|rs| - 1]) + if OnMap(dies, rs[|rs| - 1].coord) then 0 else 1
  }

  /** As many results are unmatched as are for no die of the map, or for an excluded one. */
  lemma {:induction false} UnmatchedAreOffMap(dies: seq<Die>, rs: seq<DieTestResult>, program: TestProgram,
                                              taxonomy: BinTaxonomy)
    requires InOrder(dies)
    ensures SortedWafer(dies, rs, program, taxonomy).unmatched == OffMap(dies, rs)
  {
    if rs != [] {
      hide SortDie, Recorded, OutcomesOn, PassesIn, InOrder, OnMap, Fate;
      var n := |rs| - 1;
      UnmatchedAreOffMap(dies, rs[..n], program, taxonomy);
      EachDieKeepsItsLastResult(dies, rs[..n], program, taxonomy);
      var mid := SortedWafer(dies, rs[..n], program, taxonomy).dies;
      PassesAfterRecord(mid, rs[n].coord, OutcomeOf(SortDie(rs[n], program, taxonomy)));
      SameMap(dies, mid, rs[..n], program, taxonomy, rs[n].coord);
    }
  }
}
