/** Bin sorting: from what happened to each die to the wafer map and to the tally, which must agree. */
module BinSort {
  import opened Outcomes
  import opened Bytes
  import opened Utf8
  import opened Bins
  import opened Wafer

  const DEFAULT_PARAMETRIC_SOFT_BIN: u16 := 10
  const DEFAULT_FUNCTIONAL_SOFT_BIN: u16 := 11
  const ABORT_SOFT_BIN: u16 := 12
  const PASS_SOFT_BIN: u16 := 1

  /** Limits and values are bit patterns of 32-bit floats. */
  datatype TestSpec = TestSpec(
    testNumber: u32, name: Text, unit: Text, loLimit: Option<u32>, hiLimit: Option<u32>, failSoftBin: u16)

  datatype PatternGroup = PatternGroup(name: Text, testNumber: u32, failSoftBin: u16)

  datatype TestProgram = TestProgram(
    designName: Text, lotId: Text, partType: Text, tests: seq<TestSpec>, patternGroups: seq<PatternGroup>)

  datatype MeasurementOutcome = MeasurementOutcome(testNumber: u32, value: u32, passed: bool)
  datatype PatternOutcome = PatternOutcome(name: Text, testNumber: u32, passed: bool)

  datatype DieTestResult = DieTestResult(
    coord: DieCoord, measurements: seq<MeasurementOutcome>, patterns: seq<PatternOutcome>, aborted: bool)

  datatype BinAssignment = BinAssignment(
    coord: DieCoord, passed: bool, hardBin: u16, softBin: u16, failingTest: Option<u32>)

  // ---------- one die ----------

  function FindSpec(tests: seq<TestSpec>, number: u32): Option<TestSpec>
  {
    if tests == [] then None else if tests[0].testNumber == number then Some(tests[0]) else FindSpec(tests[1..], number)
  }

  function FindGroup(groups: seq<PatternGroup>, number: u32): Option<PatternGroup>
  {
    if groups == [] then None
    else if groups[0].testNumber == number then Some(groups[0])
    else FindGroup(groups[1..], number)
  }

  predicate MeasurementsPass(ms: seq<MeasurementOutcome>)
  {
    forall i :: 0 <= i < |ms| ==> ms[i].passed
  }

  predicate PatternsPass(ps: seq<PatternOutcome>)
  {
    forall i :: 0 <= i < |ps| ==> ps[i].passed
  }

  function Failed(coord: DieCoord, softBin: u16, fallback: u16, failing: Option<u32>, taxonomy: BinTaxonomy): BinAssignment
  {
    var soft := if softBin == 0 then fallback else softBin;
    BinAssignment(coord, false, taxonomy.HardBinOf(soft), soft, failing)
  }

  function FailedMeasurement(coord: DieCoord, m: MeasurementOutcome, program: TestProgram, taxonomy: BinTaxonomy)
    : BinAssignment
  {
    var spec := FindSpec(program.tests, m.testNumber);
    Failed(coord, if spec.Some? then spec.value.failSoftBin else 0, DEFAULT_PARAMETRIC_SOFT_BIN,
           Some(m.testNumber), taxonomy)
  }

  function FailedPattern(coord: DieCoord, p: PatternOutcome, program: TestProgram, taxonomy: BinTaxonomy): BinAssignment
  {
    var group := FindGroup(program.patternGroups, p.testNumber);
    Failed(coord, if group.Some? then group.value.failSoftBin else 0, DEFAULT_FUNCTIONAL_SOFT_BIN,
           Some(p.testNumber), taxonomy)
  }

  function SortPatterns(coord: DieCoord, ps: seq<PatternOutcome>, program: TestProgram, taxonomy: BinTaxonomy)
    : (a: BinAssignment)
    ensures a.coord == coord
  {
    if ps == [] then BinAssignment(coord, true, taxonomy.HardBinOf(PASS_SOFT_BIN), PASS_SOFT_BIN, None)
    else if !ps[0].passed then FailedPattern(coord, ps[0], program, taxonomy)
    else SortPatterns(coord, ps[1..], program, taxonomy)
  }

  function SortMeasurements(coord: DieCoord, ms: seq<MeasurementOutcome>, ps: seq<PatternOutcome>,
                            program: TestProgram, taxonomy: BinTaxonomy): (a: BinAssignment)
    ensures a.coord == coord
  {
    if ms == [] then SortPatterns(coord, ps, program, taxonomy)
    else if !ms[0].passed then FailedMeasurement(coord, ms[0], program, taxonomy)
    else SortMeasurements(coord, ms[1..], ps, program, taxonomy)
  }

  function SortDie(r: DieTestResult, program: TestProgram, taxonomy: BinTaxonomy): (a: BinAssignment)
    ensures a.coord == r.coord
  {
    if r.aborted then Failed(r.coord, ABORT_SOFT_BIN, ABORT_SOFT_BIN, None, taxonomy)
    else SortMeasurements(r.coord, r.measurements, r.patterns, program, taxonomy)
  }

  /** `sort_die` as it runs: two searches with early returns. */
  method AssignBin(r: DieTestResult, program: TestProgram, taxonomy: BinTaxonomy) returns (a: BinAssignment)
    ensures a == SortDie(r, program, taxonomy)
  {
    if r.aborted {
      return Failed(r.coord, ABORT_SOFT_BIN, ABORT_SOFT_BIN, None, taxonomy);
    }
    for i := 0 to |r.measurements|
      invariant SortDie(r, program, taxonomy)
             == SortMeasurements(r.coord, r.measurements[i..], r.patterns, program, taxonomy)
    {
      if !r.measurements[i].passed {
        return FailedMeasurement(r.coord, r.measurements[i], program, taxonomy);
      }
      assert r.measurements[i..][1..] == r.measurements[i + 1..];
    }
    for i := 0 to |r.patterns|
      invariant SortDie(r, program, taxonomy) == SortPatterns(r.coord, r.patterns[i..], program, taxonomy)
    {
      if !r.patterns[i].passed {
        return FailedPattern(r.coord, r.patterns[i], program, taxonomy);
      }
      assert r.patterns[i..][1..] == r.patterns[i + 1..];
    }
    return BinAssignment(r.coord, true, taxonomy.HardBinOf(PASS_SOFT_BIN), PASS_SOFT_BIN, None);
  }

  lemma {:induction false} PatternsDecide(coord: DieCoord, ps: seq<PatternOutcome>, program: TestProgram,
                                          taxonomy: BinTaxonomy)
    ensures var a := SortPatterns(coord, ps, program, taxonomy);
            && (a.passed <==> PatternsPass(ps))
            && forall i :: 0 <= i < |ps| && !ps[i].passed && PatternsPass(ps[..i])
                           ==> a == FailedPattern(coord, ps[i], program, taxonomy)
  {
    if ps != [] && ps[0].passed {
      PatternsDecide(coord, ps[1..], program, taxonomy);
      assert PatternsPass(ps) <==> PatternsPass(ps[1..]);
      forall i | 0 <= i < |ps| && !ps[i].passed && PatternsPass(ps[..i])
        ensures SortPatterns(coord, ps, program, taxonomy) == FailedPattern(coord, ps[i], program, taxonomy)
      {
        assert ps[1..][..i - 1] == ps[..i][1..] && ps[1..][i - 1] == ps[i];
      }
    } else if ps != [] {
      forall i | 0 < i < |ps| ensures !PatternsPass(ps[..i]) {
        assert !ps[..i][0].passed;
      }
    }
  }

  lemma {:induction false} MeasurementsDecide(coord: DieCoord, ms: seq<MeasurementOutcome>, ps: seq<PatternOutcome>,
                                              program: TestProgram, taxonomy: BinTaxonomy)
    ensures var a := SortMeasurements(coord, ms, ps, program, taxonomy);
            && (MeasurementsPass(ms) ==> a == SortPatterns(coord, ps, program, taxonomy))
            && (a.passed ==> MeasurementsPass(ms))
            && forall i :: 0 <= i < |ms| && !ms[i].passed && MeasurementsPass(ms[..i])
                           ==> a == FailedMeasurement(coord, ms[i], program, taxonomy)
  {
    if ms != [] && ms[0].passed {
      MeasurementsDecide(coord, ms[1..], ps, program, taxonomy);
      assert MeasurementsPass(ms) <==> MeasurementsPass(ms[1..]);
      forall i | 0 <= i < |ms| && !ms[i].passed && MeasurementsPass(ms[..i])
        ensures SortMeasurements(coord, ms, ps, program, taxonomy) == FailedMeasurement(coord, ms[i], program, taxonomy)
      {
        assert ms[1..][..i - 1] == ms[..i][1..] && ms[1..][i - 1] == ms[i];
      }
    } else if ms != [] {
      forall i | 0 < i < |ms| ensures !MeasurementsPass(ms[..i]) {
        assert !ms[..i][0].passed;
      }
    }
  }

  /** A die passes when nothing failed; otherwise its first failure, measurements first, decides its bin. */
  lemma FirstFailureDecides(r: DieTestResult, program: TestProgram, taxonomy: BinTaxonomy)
    ensures var a := SortDie(r, program, taxonomy);
            && (a.passed <==> !r.aborted && MeasurementsPass(r.measurements) && PatternsPass(r.patterns))
            && (forall i :: 0 <= i < |r.measurements| && !r.aborted && !r.measurements[i].passed
                            && MeasurementsPass(r.measurements[..i])
                            ==> a == FailedMeasurement(r.coord, r.measurements[i], program, taxonomy))
            && (forall i :: 0 <= i < |r.patterns| && !r.aborted && MeasurementsPass(r.measurements)
                            && !r.patterns[i].passed && PatternsPass(r.patterns[..i])
                            ==> a == FailedPattern(r.coord, r.patterns[i], program, taxonomy))
  {
    MeasurementsDecide(r.coord, r.measurements, r.patterns, program, taxonomy);
    PatternsDecide(r.coord, r.patterns, program, taxonomy);
  }

  /** With the default taxonomy a failed die counts as good exactly when the program sends it to soft bin 1. */
  lemma DefaultPassBinIff(r: DieTestResult, program: TestProgram)
    ensures var a := SortDie(r, program, Defaults());
            && (Defaults().IsPassHardBin(a.hardBin) <==> a.softBin == PASS_SOFT_BIN)
            && (a.passed ==> a.softBin == PASS_SOFT_BIN) && a.softBin != 0
  {
    hide Ascii;
    HardBinFollows(r.coord, r.measurements, r.patterns, program, Defaults());
  }

  lemma {:induction false} PatternBinFollows(coord: DieCoord, ps: seq<PatternOutcome>, program: TestProgram,
                                             taxonomy: BinTaxonomy)
    ensures var a := SortPatterns(coord, ps, program, taxonomy);
            a.hardBin == taxonomy.HardBinOf(a.softBin) && a.softBin != 0 && (a.passed ==> a.softBin == PASS_SOFT_BIN)
  {
    if ps != [] {
      PatternBinFollows(coord, ps[1..], program, taxonomy);
    }
  }

  lemma {:induction false} HardBinFollows(coord: DieCoord, ms: seq<MeasurementOutcome>, ps: seq<PatternOutcome>,
                                          program: TestProgram, taxonomy: BinTaxonomy)
    ensures var a := SortMeasurements(coord, ms, ps, program, taxonomy);
            a.hardBin == taxonomy.HardBinOf(a.softBin) && a.softBin != 0 && (a.passed ==> a.softBin == PASS_SOFT_BIN)
  {
    if ms == [] {
      PatternBinFollows(coord, ps, program, taxonomy);
    } else {
      HardBinFollows(coord, ms[1..], ps, program, taxonomy);
    }
  }

  // ---------- a whole wafer ----------

  function OutcomeOf(a: BinAssignment): DieTestOutcome
  {
    DieTestOutcome(a.passed, a.hardBin, a.softBin)
  }

  /** What each result was sorted into, in the order of the results. */
  function OutcomesOf(rs: seq<DieTestResult>, program: TestProgram, taxonomy: BinTaxonomy): (os: seq<DieTestOutcome>)
    ensures |os| == |rs|
  {
    seq(|rs|, i requires 0 <= i < |rs| => OutcomeOf(SortDie(rs[i], program, taxonomy)))
  }

  datatype Sorting = Sorting(dies: seq<Die>, unmatched: nat)

  function SortedWafer(dies: seq<Die>, rs: seq<DieTestResult>, program: TestProgram, taxonomy: BinTaxonomy): Sorting
  {
    if rs == [] then Sorting(dies, 0)
    else
      var before := SortedWafer(dies, rs[..|rs| - 1], program, taxonomy);
      var a := SortDie(rs[|rs| - 1], program, taxonomy);
      var p := Recorded(before.dies, a.coord, OutcomeOf(a));
      Sorting(p.dies, before.unmatched + if p.ok then 0 else 1)
  }

  method SortWafer(rs: seq<DieTestResult>, wafer: WaferDieMap, program: TestProgram, taxonomy: BinTaxonomy)
    returns (unmatched: nat)
    requires InOrder(wafer.dies)
    modifies wafer
    ensures InOrder(wafer.dies)
    ensures Sorting(wafer.dies, unmatched) == SortedWafer(old(wafer.dies), rs, program, taxonomy)
  {
    hide SortDie, Recorded;
    unmatched := 0;
    for i := 0 to |rs|
      invariant InOrder(wafer.dies)
      invariant Sorting(wafer.dies, unmatched) == SortedWafer(old(wafer.dies), rs[..i], program, taxonomy)
    {
      assert rs[..i + 1][..i] == rs[..i];
      var a := AssignBin(rs[i], program, taxonomy);
      var ok := wafer.Record(a.coord, OutcomeOf(a));
      if !ok {
        unmatched := unmatched + 1;
      }
    }
    assert rs[..|rs|] == rs;
  }

  function Aborts(rs: seq<DieTestResult>): nat
  {
    if rs == [] then 0 else (if rs[|rs| - 1].aborted then 1 else 0) + Aborts(rs[..|rs| - 1])
  }

  lemma NoCounts(program: TestProgram, taxonomy: BinTaxonomy)
    ensures var os := OutcomesOf([], program, taxonomy);
            PassesIn(os) == 0 && CountsOf(HardBinsIn(os)) == [] && CountsOf(SoftBinsIn(os)) == [] && Aborts([]) == 0
  {
  }

  lemma AbortsGrow(rs: seq<DieTestResult>, i: nat)
    requires i < |rs|
    ensures Aborts(rs[..i + 1]) == Aborts(rs[..i]) + if rs[i].aborted then 1 else 0
  {
    assert rs[..i + 1][..i] == rs[..i];
  }

  lemma OutcomesGrow(rs: seq<DieTestResult>, i: nat, program: TestProgram, taxonomy: BinTaxonomy)
    requires i < |rs|
    ensures OutcomesOf(rs[..i + 1], program, taxonomy)
         == OutcomesOf(rs[..i], program, taxonomy) + [OutcomeOf(SortDie(rs[i], program, taxonomy))]
  {
    hide SortDie;
  }

  method Tally(rs: seq<DieTestResult>, program: TestProgram, taxonomy: BinTaxonomy) returns (out: BinTally)
    ensures fresh(out)
    ensures var os := OutcomesOf(rs, program, taxonomy);
            && out.totalTested == |rs| && out.totalPassed == PassesIn(os) && out.aborted == Aborts(rs)
            && out.hardBins == CountsOf(HardBinsIn(os)) && out.softBins == CountsOf(SoftBinsIn(os))
  {
    hide SortDie, CountsOf, HardBinsIn, SoftBinsIn, OutcomesOf, PassesIn, Aborts, Bump;
    NoCounts(program, taxonomy);
    assert rs[..0] == [];
    out := new BinTally();
    for i := 0 to |rs|
      invariant fresh(out)
      invariant var os := OutcomesOf(rs[..i], program, taxonomy);
                && out.totalTested == i && out.totalPassed == PassesIn(os) && out.aborted == Aborts(rs[..i])
                && out.hardBins == CountsOf(HardBinsIn(os)) && out.softBins == CountsOf(SoftBinsIn(os))
    {
      var a := AssignBin(rs[i], program, taxonomy);
      OneMoreOutcome(OutcomesOf(rs[..i], program, taxonomy), OutcomeOf(a));
      OutcomesGrow(rs, i, program, taxonomy);
      AbortsGrow(rs, i);
      out.Record(a.passed, a.hardBin, a.softBin);
      if rs[i].aborted {
        out.aborted := out.aborted + 1;
      }
    }
    assert rs[..|rs|] == rs;
  }

  // ---------- the map and the tally agree ----------

  predicate DistinctCoords(rs: seq<DieTestResult>)
  {
    forall i, j :: 0 <= i < j < |rs| ==> rs[i].coord != rs[j].coord
  }

  predicate TestedAt(dies: seq<Die>, coord: DieCoord)
  {
    exists i :: 0 <= i < |dies| && dies[i].coord == coord && dies[i].state.Tested?
  }

  predicate ResultAt(rs: seq<DieTestResult>, coord: DieCoord)
  {
    exists j :: 0 <= j < |rs| && rs[j].coord == coord
  }

  /** Where the map stands after some results: every tested die has a result, and vice versa if all matched. */
  ghost predicate Accounts(s: Sorting, rs: seq<DieTestResult>, os: seq<DieTestOutcome>)
  {
    && InOrder(s.dies)
    && (forall c :: TestedAt(s.dies, c) ==> ResultAt(rs, c))
    && (s.unmatched == 0 ==> forall c :: ResultAt(rs, c) ==> TestedAt(s.dies, c))
    && |OutcomesOn(s.dies)| + s.unmatched <= |rs|
    && (|OutcomesOn(s.dies)| == |rs| <==> s.unmatched == 0 && DistinctCoords(rs))
    && (|OutcomesOn(s.dies)| == |rs| ==> multiset(OutcomesOn(s.dies)) == multiset(os))
  }

  lemma FoundIsThere(dies: seq<Die>, coord: DieCoord, o: DieTestOutcome)
    requires InOrder(dies)
    ensures var p := Recorded(dies, coord, o);
            && InOrder(p.dies)
            && (p.ok ==> forall c :: TestedAt(p.dies, c) <==> c == coord || TestedAt(dies, c))
            && (!p.ok ==> p.dies == dies)
  {
    var at, p := Find(dies, coord), Recorded(dies, coord, o);
    if p.ok {
      var i := at.value;
      assert p.dies[i].coord == coord && p.dies[i].state.Tested?;
      forall c ensures TestedAt(p.dies, c) <==> c == coord || TestedAt(dies, c) {
        if c != coord && TestedAt(dies, c) {
          var k :| 0 <= k < |dies| && dies[k].coord == c && dies[k].state.Tested?;
          assert p.dies[k] == dies[k];
        }
        if c != coord && TestedAt(p.dies, c) {
          var k :| 0 <= k < |p.dies| && p.dies[k].coord == c && p.dies[k].state.Tested?;
          assert p.dies[k] == dies[k];
        }
      }
    }
  }

  lemma RecordedShifts(dies: seq<Die>, coord: DieCoord, o: DieTestOutcome)
    requires Recorded(dies, coord, o).ok
    ensures var at := dies[Find(dies, coord).value];
            multiset(OutcomesOn(Recorded(dies, coord, o).dies)) + multiset(OutcomesOn([at]))
            == multiset(OutcomesOn(dies)) + multiset{o}
    ensures var at := dies[Find(dies, coord).value];
            OutcomesOn([at]) == if at.state.Tested? then [at.state.outcome] else []
  {
    var i := Find(dies, coord).value;
    var die := Die(coord, Tested(o));
    OutcomesAfterUpdate(dies, i, die);
    assert [die][1..] == [] && [dies[i]][1..] == [];
    assert OutcomesOn([die]) == [o];
  }

  lemma TestedIff(dies: seq<Die>, coord: DieCoord)
    requires InOrder(dies) && Find(dies, coord).Some?
    ensures TestedAt(dies, coord) <==> dies[Find(dies, coord).value].state.Tested?
  {
    var i := Find(dies, coord).value;
    forall k | 0 <= k < |dies| && dies[k].coord == coord ensures k == i {
    }
  }

  lemma SizesAdd<T>(a: multiset<T>, b: multiset<T>, c: multiset<T>, d: multiset<T>)
    requires a + b == c + d
    ensures |a| + |b| == |c| + |d|
  {
    assert |a + b| == |a| + |b| && |c + d| == |c| + |d|;
  }

  /** Recording adds an outcome to an untested die, and replaces the one of a tested die. */
  lemma RecordedOutcomes(dies: seq<Die>, coord: DieCoord, o: DieTestOutcome)
    requires InOrder(dies) && Recorded(dies, coord, o).ok
    ensures var after := OutcomesOn(Recorded(dies, coord, o).dies);
            if TestedAt(dies, coord) then |after| == |OutcomesOn(dies)|
            else multiset(after) == multiset(OutcomesOn(dies) + [o]) && |after| == |OutcomesOn(dies)| + 1
  {
    RecordedShifts(dies, coord, o);
    TestedIff(dies, coord);
    hide OutcomesOn, InOrder, TestedAt;
    var after, before := OutcomesOn(Recorded(dies, coord, o).dies), OutcomesOn(dies);
    var old' := OutcomesOn([dies[Find(dies, coord).value]]);
    SizesAdd(multiset(after), multiset(old'), multiset(before), multiset{o});
    if old' == [] {
      assert multiset(before + [o]) == multiset(before) + multiset{o};
    }
  }

  lemma AccountsStep(s: Sorting, rs: seq<DieTestResult>, os: seq<DieTestOutcome>, r: DieTestResult, o: DieTestOutcome)
    requires |os| == |rs| && Accounts(s, rs, os)
    ensures var p := Recorded(s.dies, r.coord, o);
            Accounts(Sorting(p.dies, s.unmatched + if p.ok then 0 else 1), rs + [r], os + [o])
  {
    hide OutcomesOn, Find, InOrder;
    var p := Recorded(s.dies, r.coord, o);
    FoundIsThere(s.dies, r.coord, o);
    ResultsGrow(rs, r);
    if p.ok {
      RecordedOutcomes(s.dies, r.coord, o);
    }
    hide Recorded, TestedAt, ResultAt, DistinctCoords;
  }

  lemma ResultsGrow(rs: seq<DieTestResult>, r: DieTestResult)
    ensures forall c :: ResultAt(rs + [r], c) <==> c == r.coord || ResultAt(rs, c)
    ensures DistinctCoords(rs + [r]) <==> DistinctCoords(rs) && !ResultAt(rs, r.coord)
  {
    var all := rs + [r];
    assert all[|rs|] == r;
    forall c ensures ResultAt(all, c) <==> c == r.coord || ResultAt(rs, c) {
      if ResultAt(rs, c) {
        var j :| 0 <= j < |rs| && rs[j].coord == c;
        assert all[j].coord == c;
      }
      if ResultAt(all, c) && c != r.coord {
        var j :| 0 <= j < |all| && all[j].coord == c;
        assert rs[j].coord == c;
      }
    }
    if DistinctCoords(all) {
      forall i, j | 0 <= i < j < |rs| ensures rs[i].coord != rs[j].coord {
        assert all[i].coord != all[j].coord;
      }
      forall j | 0 <= j < |rs| ensures rs[j].coord != r.coord {
        assert all[j].coord != all[|rs|].coord;
      }
    }
  }

  lemma {:induction false} NoOutcomesYet(dies: seq<Die>)
    requires NoneTested(dies)
    ensures OutcomesOn(dies) == []
  {
    if dies != [] {
      NoOutcomesYet(dies[1..]);
    }
  }

  lemma {:induction false} SortingAccounts(dies: seq<Die>, rs: seq<DieTestResult>, program: TestProgram,
                                           taxonomy: BinTaxonomy)
    requires InOrder(dies) && NoneTested(dies)
    ensures Accounts(SortedWafer(dies, rs, program, taxonomy), rs, OutcomesOf(rs, program, taxonomy))
  {
    if rs == [] {
      NoOutcomesYet(dies);
    } else {
      hide SortDie, Accounts, Recorded;
      var n := |rs| - 1;
      SortingAccounts(dies, rs[..n], program, taxonomy);
      var o := OutcomeOf(SortDie(rs[n], program, taxonomy));
      AccountsStep(SortedWafer(dies, rs[..n], program, taxonomy), rs[..n],
                   OutcomesOf(rs[..n], program, taxonomy), rs[n], o);
      assert rs == rs[..n] + [rs[n]];
      assert OutcomesOf(rs, program, taxonomy) == OutcomesOf(rs[..n], program, taxonomy) + [o];
    }
  }

  // ---------- counting does not depend on order ----------

  function Map<T, U>(f: T -> U, s: seq<T>): (r: seq<U>)
    ensures |r| == |s|
  {
    seq(|s|, i requires 0 <= i < |s| => f(s[i]))
  }

  lemma TakeOut<T>(s: seq<T>, k: nat)
    requires k < |s|
    ensures multiset(s) == multiset(s[..k] + s[k + 1..]) + multiset{s[k]}
  {
    assert s == s[..k] + [s[k]] + s[k + 1..];
  }

  lemma OneLess<T>(a: multiset<T>, b: multiset<T>, x: T)
    requires a + multiset{x} == b + multiset{x}
    ensures a == b
  {
    assert a == (a + multiset{x}) - multiset{x};
    assert b == (b + multiset{x}) - multiset{x};
  }

  function Without<T>(s: seq<T>, k: nat): seq<T>
    requires k < |s|
  {
    s[..k] + s[k + 1..]
  }

  lemma MapWithout<T, U>(f: T -> U, s: seq<T>, k: nat)
    requires k < |s|
    ensures multiset(s) == multiset(Without(s, k)) + multiset{s[k]}
    ensures multiset(Map(f, s)) == multiset(Map(f, Without(s, k))) + multiset{f(s[k])}
  {
    TakeOut(s, k);
    TakeOut(Map(f, s), k);
    assert Map(f, s)[..k] + Map(f, s)[k + 1..] == Map(f, Without(s, k));
  }

  lemma {:induction false} MapKeepsMultisets<T, U>(f: T -> U, a: seq<T>, b: seq<T>)
    requires multiset(a) == multiset(b)
    ensures multiset(Map(f, a)) == multiset(Map(f, b))
    decreases |a|
  {
    if a == [] {
      assert |multiset(b)| == 0;
    } else {
      assert a[0] in multiset(b);
      var k :| 0 <= k < |b| && b[k] == a[0];
      assert |Without(a, 0)| < |a|;
      hide Map, Without;
      MapWithout(f, a, 0);
      MapWithout(f, b, k);
      OneLess(multiset(Without(a, 0)), multiset(Without(b, k)), a[0]);
      MapKeepsMultisets(f, Without(a, 0), Without(b, k));
    }
  }

  lemma {:induction false} PassesCounted(os: seq<DieTestOutcome>)
    ensures PassesIn(os) == multiset(Map((o: DieTestOutcome) => o.passed, os))[true]
  {
    if os != [] {
      var f := (o: DieTestOutcome) => o.passed;
      var front, last := os[..|os| - 1], os[|os| - 1];
      PassesCounted(front);
      assert Map(f, os) == Map(f, front) + [f(last)];
      assert Map((o: DieTestOutcome) => o.passed, front) == Map(f, front);
      assert Map((o: DieTestOutcome) => o.passed, os) == Map(f, os);
    }
  }

  lemma SameOutcomesSameCounts(a: seq<DieTestOutcome>, b: seq<DieTestOutcome>)
    requires multiset(a) == multiset(b)
    ensures CountsOf(HardBinsIn(a)) == CountsOf(HardBinsIn(b))
    ensures CountsOf(SoftBinsIn(a)) == CountsOf(SoftBinsIn(b))
    ensures PassesIn(a) == PassesIn(b)
  {
    var hard := (o: DieTestOutcome) => o.hardBin;
    var soft := (o: DieTestOutcome) => o.softBin;
    var passed := (o: DieTestOutcome) => o.passed;
    MapKeepsMultisets(hard, a, b);
    MapKeepsMultisets(soft, a, b);
    MapKeepsMultisets(passed, a, b);
    assert Map(hard, a) == HardBinsIn(a) && Map(hard, b) == HardBinsIn(b);
    assert Map(soft, a) == SoftBinsIn(a) && Map(soft, b) == SoftBinsIn(b);
    SameBinsSameCounts(HardBinsIn(a), HardBinsIn(b));
    SameBinsSameCounts(SoftBinsIn(a), SoftBinsIn(b));
    PassesCounted(a);
    PassesCounted(b);
    assert Map((o: DieTestOutcome) => o.passed, a) == Map(passed, a);
    assert Map((o: DieTestOutcome) => o.passed, b) == Map(passed, b);
  }

  /**
   The counts taken from the map are those of the tally exactly when every result found its die and
   no two results were for the same one.
   */
  lemma CountsAgreeIff(dies: seq<Die>, rs: seq<DieTestResult>, program: TestProgram, taxonomy: BinTaxonomy)
    requires InOrder(dies) && NoneTested(dies)
    ensures var s := SortedWafer(dies, rs, program, taxonomy);
            var onMap, all := OutcomesOn(s.dies), OutcomesOf(rs, program, taxonomy);
            var clean := s.unmatched == 0 && DistinctCoords(rs);
            && (clean <==> |onMap| == |rs|)
            && (clean <==> CountsOf(HardBinsIn(onMap)) == CountsOf(HardBinsIn(all)))
            && (clean <==> CountsOf(SoftBinsIn(onMap)) == CountsOf(SoftBinsIn(all)))
            && (clean ==> PassesIn(onMap) == PassesIn(all))
  {
    hide SortedWafer, DistinctCoords, OutcomesOn, OutcomesOf, HardBinsIn, SoftBinsIn, PassesIn, TestedAt, ResultAt, InOrder;
    SortingAccounts(dies, rs, program, taxonomy);
    var s := SortedWafer(dies, rs, program, taxonomy);
    var onMap, all := OutcomesOn(s.dies), OutcomesOf(rs, program, taxonomy);
    CountsAreExact(HardBinsIn(onMap), 0);
    CountsAreExact(HardBinsIn(all), 0);
    CountsAreExact(SoftBinsIn(onMap), 0);
    CountsAreExact(SoftBinsIn(all), 0);
    if s.unmatched == 0 && DistinctCoords(rs) {
      SameOutcomesSameCounts(onMap, all);
    }
  }
}
