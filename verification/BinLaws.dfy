/** Which bin a die gets, read off the result, the program and the taxonomy alone. */
module BinLaws {
  import opened Outcomes
  import opened Bytes
  import opened Utf8
  import opened Bins
  import opened Wafer
  import opened BinSort

  // ---------- declared bins ----------

  predicate FirstSpecAt(tests: seq<TestSpec>, number: u32, k: nat)
  {
    k < |tests| && tests[k].testNumber == number && forall j :: 0 <= j < k ==> tests[j].testNumber != number
  }

  predicate FirstGroupAt(groups: seq<PatternGroup>, number: u32, k: nat)
  {
    k < |groups| && groups[k].testNumber == number && forall j :: 0 <= j < k ==> groups[j].testNumber != number
  }

  /** The first test with that number declares a bin of its own. */
  ghost predicate TestDeclares(program: TestProgram, number: u32, bin: u16)
  {
    bin != 0 && exists k: nat :: FirstSpecAt(program.tests, number, k) && program.tests[k].failSoftBin == bin
  }

  ghost predicate GroupDeclares(program: TestProgram, number: u32, bin: u16)
  {
    bin != 0 && exists k: nat :: FirstGroupAt(program.patternGroups, number, k) && program.patternGroups[k].failSoftBin == bin
  }

  /** The soft bin for a failure under that number: the declared one, or the default of its class. */
  ghost predicate TestBin(program: TestProgram, number: u32, bin: u16)
  {
    TestDeclares(program, number, bin) || (bin == 10 && forall b: u16 :: !TestDeclares(program, number, b))
  }

  ghost predicate GroupBin(program: TestProgram, number: u32, bin: u16)
  {
    GroupDeclares(program, number, bin) || (bin == 11 && forall b: u16 :: !GroupDeclares(program, number, b))
  }

  // ---------- what decides ----------

  predicate FirstFailedMeasurement(r: DieTestResult, i: nat)
  {
    && i < |r.measurements| && !r.measurements[i].passed
    && forall j :: 0 <= j < i ==> r.measurements[j].passed
  }

  predicate FirstFailedPattern(r: DieTestResult, i: nat)
  {
    && (forall j :: 0 <= j < |r.measurements| ==> r.measurements[j].passed)
    && i < |r.patterns| && !r.patterns[i].passed
    && forall j :: 0 <= j < i ==> r.patterns[j].passed
  }

  predicate NothingFailed(r: DieTestResult)
  {
    && (forall j :: 0 <= j < |r.measurements| ==> r.measurements[j].passed)
    && forall j :: 0 <= j < |r.patterns| ==> r.patterns[j].passed
  }

  /** The soft bin and the failing test of a die. */
  ghost predicate Decided(r: DieTestResult, program: TestProgram, soft: u16, failing: Option<u32>)
  {
    if r.aborted then soft == 12 && failing == None
    else
      && (forall i: nat :: FirstFailedMeasurement(r, i) ==>
            var number := r.measurements[i].testNumber;
            failing == Some(number) && TestBin(program, number, soft))
      && (forall i: nat :: FirstFailedPattern(r, i) ==>
            var number := r.patterns[i].testNumber;
            failing == Some(number) && GroupBin(program, number, soft))
      && (NothingFailed(r) ==> soft == 1 && failing == None)
  }

  /** The assignment of a die, hard bin included: that of its soft bin, or the abort bin if that is unknown. */
  ghost predicate Assigned(a: BinAssignment, r: DieTestResult, program: TestProgram, taxonomy: BinTaxonomy)
  {
    && a.coord == r.coord && (a.passed <==> !r.aborted && NothingFailed(r))
    && Decided(r, program, a.softBin, a.failingTest)
    && a.hardBin == (if a.softBin in taxonomy.softBins then taxonomy.softBins[a.softBin].hardBin else 12)
  }

  // ---------- the proof ----------

  lemma {:induction false} FindSpecFinds(tests: seq<TestSpec>, number: u32)
    ensures FindSpec(tests, number).None? <==> forall k :: 0 <= k < |tests| ==> tests[k].testNumber != number
    ensures forall k: nat :: FirstSpecAt(tests, number, k) ==> FindSpec(tests, number) == Some(tests[k])
    ensures FindSpec(tests, number).Some? ==> exists k: nat :: FirstSpecAt(tests, number, k)
  {
    if tests != [] {
      FindSpecFinds(tests[1..], number);
      if tests[0].testNumber == number {
        assert FirstSpecAt(tests, number, 0);
      } else {
        assert forall k :: 0 < k < |tests| ==> tests[k] == tests[1..][k - 1];
        forall k: nat | FirstSpecAt(tests, number, k) ensures FindSpec(tests, number) == Some(tests[k]) {
          assert FirstSpecAt(tests[1..], number, k - 1);
        }
        if k: nat :| FirstSpecAt(tests[1..], number, k) {
          assert FirstSpecAt(tests, number, k + 1);
        }
      }
    }
  }

  lemma {:induction false} FindGroupFinds(groups: seq<PatternGroup>, number: u32)
    ensures FindGroup(groups, number).None? <==> forall k :: 0 <= k < |groups| ==> groups[k].testNumber != number
    ensures forall k: nat :: FirstGroupAt(groups, number, k) ==> FindGroup(groups, number) == Some(groups[k])
    ensures FindGroup(groups, number).Some? ==> exists k: nat :: FirstGroupAt(groups, number, k)
  {
    if groups != [] {
      FindGroupFinds(groups[1..], number);
      if groups[0].testNumber == number {
        assert FirstGroupAt(groups, number, 0);
      } else {
        assert forall k :: 0 < k < |groups| ==> groups[k] == groups[1..][k - 1];
        forall k: nat | FirstGroupAt(groups, number, k) ensures FindGroup(groups, number) == Some(groups[k]) {
          assert FirstGroupAt(groups[1..], number, k - 1);
        }
        if k: nat :| FirstGroupAt(groups[1..], number, k) {
          assert FirstGroupAt(groups, number, k + 1);
        }
      }
    }
  }

  lemma MeasurementBin(coord: DieCoord, m: MeasurementOutcome, program: TestProgram, taxonomy: BinTaxonomy, bin: u16)
    ensures TestBin(program, m.testNumber, bin) <==> bin == FailedMeasurement(coord, m, program, taxonomy).softBin
  {
    FindSpecFinds(program.tests, m.testNumber);
    hide FindSpec;
    var found, soft := FindSpec(program.tests, m.testNumber), FailedMeasurement(coord, m, program, taxonomy).softBin;
    if found.Some? && found.value.failSoftBin != 0 {
      assert TestDeclares(program, m.testNumber, soft);
      assert TestDeclares(program, m.testNumber, bin) ==> bin == soft;
    } else {
      assert forall b: u16 :: !TestDeclares(program, m.testNumber, b);
    }
  }

  lemma PatternBin(coord: DieCoord, p: PatternOutcome, program: TestProgram, taxonomy: BinTaxonomy, bin: u16)
    ensures GroupBin(program, p.testNumber, bin) <==> bin == FailedPattern(coord, p, program, taxonomy).softBin
  {
    FindGroupFinds(program.patternGroups, p.testNumber);
    hide FindGroup;
    var found, soft := FindGroup(program.patternGroups, p.testNumber), FailedPattern(coord, p, program, taxonomy).softBin;
    if found.Some? && found.value.failSoftBin != 0 {
      assert GroupDeclares(program, p.testNumber, soft);
      assert GroupDeclares(program, p.testNumber, bin) ==> bin == soft;
    } else {
      assert forall b: u16 :: !GroupDeclares(program, p.testNumber, b);
    }
  }

  /** Something decides: the abort, one first failure, or none. */
  lemma SomethingDecides(r: DieTestResult)
    returns (i: nat)
    ensures FirstFailedMeasurement(r, i) || FirstFailedPattern(r, i) || NothingFailed(r)
  {
    i := 0;
    while i < |r.measurements| && r.measurements[i].passed
      invariant i <= |r.measurements| && forall j :: 0 <= j < i ==> r.measurements[j].passed
    {
      i := i + 1;
    }
    if i < |r.measurements| {
      return;
    }
    i := 0;
    while i < |r.patterns| && r.patterns[i].passed
      invariant i <= |r.patterns| && forall j :: 0 <= j < i ==> r.patterns[j].passed
    {
      i := i + 1;
    }
  }

  /** A die gets exactly the assignment described, and there is only one such. */
  lemma AssignedIff(a: BinAssignment, r: DieTestResult, program: TestProgram, taxonomy: BinTaxonomy)
    ensures Assigned(a, r, program, taxonomy) <==> a == SortDie(r, program, taxonomy)
  {
    FirstFailureDecides(r, program, taxonomy);
    hide FailedMeasurement, FailedPattern, TestBin, GroupBin;
    if !r.aborted {
      var i := SomethingDecides(r);
      if FirstFailedMeasurement(r, i) {
        MeasurementDecides(a, r, program, taxonomy, i);
      } else if FirstFailedPattern(r, i) {
        PatternDecides(a, r, program, taxonomy, i);
      } else {
        PassDecides(a, r, program, taxonomy);
      }
    }
  }

  lemma MeasurementDecides(a: BinAssignment, r: DieTestResult, program: TestProgram, taxonomy: BinTaxonomy, i: nat)
    requires !r.aborted && FirstFailedMeasurement(r, i)
    ensures Assigned(a, r, program, taxonomy) <==> a == SortDie(r, program, taxonomy)
  {
    FirstFailureDecides(r, program, taxonomy);
    hide FailedPattern, FindSpec, TestBin, GroupBin, SortDie;
    MeasurementBin(r.coord, r.measurements[i], program, taxonomy, a.softBin);
    assert MeasurementsPass(r.measurements[..i]);
    assert SortDie(r, program, taxonomy) == FailedMeasurement(r.coord, r.measurements[i], program, taxonomy);
    assert forall j: nat :: FirstFailedMeasurement(r, j) ==> j == i;
  }

  lemma PatternDecides(a: BinAssignment, r: DieTestResult, program: TestProgram, taxonomy: BinTaxonomy, i: nat)
    requires !r.aborted && FirstFailedPattern(r, i)
    ensures Assigned(a, r, program, taxonomy) <==> a == SortDie(r, program, taxonomy)
  {
    FirstFailureDecides(r, program, taxonomy);
    hide FailedMeasurement, FindGroup, TestBin, GroupBin, SortDie;
    PatternBin(r.coord, r.patterns[i], program, taxonomy, a.softBin);
    assert PatternsPass(r.patterns[..i]) && MeasurementsPass(r.measurements);
    assert SortDie(r, program, taxonomy) == FailedPattern(r.coord, r.patterns[i], program, taxonomy);
    assert forall j: nat :: FirstFailedPattern(r, j) ==> j == i;
    assert forall j: nat :: !FirstFailedMeasurement(r, j);
  }

  lemma PassDecides(a: BinAssignment, r: DieTestResult, program: TestProgram, taxonomy: BinTaxonomy)
    requires !r.aborted && NothingFailed(r)
    ensures Assigned(a, r, program, taxonomy) <==> a == SortDie(r, program, taxonomy)
  {
    MeasurementsDecide(r.coord, r.measurements, r.patterns, program, taxonomy);
    NoPatternFails(r.coord, r.patterns, program, taxonomy);
    hide FailedMeasurement, FailedPattern, TestBin, GroupBin, SortPatterns, SortMeasurements;
  }

  lemma {:induction false} NoPatternFails(coord: DieCoord, ps: seq<PatternOutcome>, program: TestProgram, taxonomy: BinTaxonomy)
    requires forall j :: 0 <= j < |ps| ==> ps[j].passed
    ensures SortPatterns(coord, ps, program, taxonomy)
         == BinAssignment(coord, true, taxonomy.HardBinOf(1), 1, None)
  {
    if ps != [] {
      NoPatternFails(coord, ps[1..], program, taxonomy);
    }
  }

  // ---------- the tally ----------

  /** How many results satisfy a condition on their assignment. */
  function Matching(rs: seq<DieTestResult>, program: TestProgram, taxonomy: BinTaxonomy, test: BinAssignment -> bool): nat
  {
    if rs == [] then 0
    else
      var n := |rs| - 1;
      Matching(rs[..n], program, taxonomy, test) + if test(SortDie(rs[n], program, taxonomy)) then 1 else 0
  }

  lemma OneMoreResult(rs: seq<DieTestResult>, program: TestProgram, taxonomy: BinTaxonomy)
    requires rs != []
    ensures var n := |rs| - 1;
            var front, o := OutcomesOf(rs[..n], program, taxonomy), OutcomeOf(SortDie(rs[n], program, taxonomy));
            && HardBinsIn(OutcomesOf(rs, program, taxonomy)) == HardBinsIn(front) + [o.hardBin]
            && SoftBinsIn(OutcomesOf(rs, program, taxonomy)) == SoftBinsIn(front) + [o.softBin]
  {
    hide SortDie;
  }

  lemma {:induction false} HardBinsAreCounted(rs: seq<DieTestResult>, program: TestProgram, taxonomy: BinTaxonomy, bin: u16)
    ensures multiset(HardBinsIn(OutcomesOf(rs, program, taxonomy)))[bin]
         == Matching(rs, program, taxonomy, (a: BinAssignment) => a.hardBin == bin)
  {
    hide SortDie, OutcomesOf;
    if rs == [] {
      assert |HardBinsIn(OutcomesOf([], program, taxonomy))| == 0;
    } else {
      HardBinsAreCounted(rs[..|rs| - 1], program, taxonomy, bin);
      OneMoreResult(rs, program, taxonomy);
      hide HardBinsIn;
    }
  }

  lemma {:induction false} SoftBinsAreCounted(rs: seq<DieTestResult>, program: TestProgram, taxonomy: BinTaxonomy, bin: u16)
    ensures multiset(SoftBinsIn(OutcomesOf(rs, program, taxonomy)))[bin]
         == Matching(rs, program, taxonomy, (a: BinAssignment) => a.softBin == bin)
  {
    hide SortDie, OutcomesOf;
    if rs == [] {
      assert |SoftBinsIn(OutcomesOf([], program, taxonomy))| == 0;
    } else {
      SoftBinsAreCounted(rs[..|rs| - 1], program, taxonomy, bin);
      OneMoreResult(rs, program, taxonomy);
      hide SoftBinsIn;
    }
  }

  /** The counts of a tally say of every bin how many results were sorted into it. */
  lemma TallyIsExact(rs: seq<DieTestResult>, program: TestProgram, taxonomy: BinTaxonomy, bin: u16)
    ensures var os := OutcomesOf(rs, program, taxonomy);
            && Lookup(CountsOf(HardBinsIn(os)), bin) == Matching(rs, program, taxonomy, (a: BinAssignment) => a.hardBin == bin)
            && Lookup(CountsOf(SoftBinsIn(os)), bin) == Matching(rs, program, taxonomy, (a: BinAssignment) => a.softBin == bin)
  {
    hide OutcomesOf, HardBinsIn, SoftBinsIn, CountsOf, Lookup;
    var os := OutcomesOf(rs, program, taxonomy);
    CountsAreExact(HardBinsIn(os), bin);
    CountsAreExact(SoftBinsIn(os), bin);
    HardBinsAreCounted(rs, program, taxonomy, bin);
    SoftBinsAreCounted(rs, program, taxonomy, bin);
  }

  // ---------- the default taxonomy ----------

  /** Four bins of each kind, each soft bin in the hard bin of its number, and only number 1 passes. */
  lemma DefaultBins(bin: u16)
    ensures var t := Defaults();
            && (bin in t.softBins <==> bin in {1, 10, 11, 12}) && (bin in t.hardBins <==> bin in {1, 10, 11, 12})
            && (bin in t.softBins ==> t.softBins[bin].hardBin == bin)
            && (bin in t.hardBins ==> (t.hardBins[bin].pass <==> bin == 1))
            && t.hardBins[1].name == Ascii("PASS") && t.hardBins[10].name == Ascii("PARAMETRIC_FAIL")
            && t.hardBins[11].name == Ascii("FUNCTIONAL_FAIL") && t.hardBins[12].name == Ascii("ABORT")
            && t.softBins[1].name == Ascii("PASS_ALL") && t.softBins[10].name == Ascii("FAIL_PARAMETRIC")
            && t.softBins[11].name == Ascii("FAIL_FUNCTIONAL") && t.softBins[12].name == Ascii("FAIL_ABORT")
  {
    hide Ascii;
  }
}
