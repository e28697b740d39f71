/**
 From a finished run to its file: the structure of the stream, its redundant counters, and exactly
 when reading the file gives the run back, wafer map included.
 */
module RunFile {
  import opened Outcomes
  import opened Bytes
  import opened Utf8
  import opened StdfRecords
  import opened Bins
  import opened Wafer
  import opened BinSort
  import opened WaferMapGdr
  import opened Recording
  import opened RecordingTheorems

  // ---------- BPS and EPS ----------

  /** One record later: inside a section or not, or `None` when it may not stand there. */
  function SectionStep(open: bool, r: Record): Option<bool>
  {
    match r
    case Bps => if open then None else Some(true)
    case Eps => if open then Some(false) else None
    case Ptr(_, _, _, _, _, _, _, _, _) => if open then Some(true) else None
    case Ftr(_, _, _, _, _, _, _, _, _, _, _, _, _, _, _, _, _, _, _) => if open then Some(true) else None
    case _ => if open then None else Some(false)
  }

  function After(open: bool, rs: seq<Record>): Option<bool>
  {
    if rs == [] then Some(open)
    else
      var before := After(open, rs[..|rs| - 1]);
      if before.Some? then SectionStep(before.value, rs[|rs| - 1]) else None
  }

  lemma {:induction false} AfterSplits(open: bool, a: seq<Record>, b: seq<Record>)
    ensures After(open, a + b) == if After(open, a).Some? then After(After(open, a).value, b) else None
  {
    if b == [] {
      assert a + b == a;
    } else {
      var n := |b| - 1;
      assert (a + b)[..|a| + n] == a + b[..n];
      AfterSplits(open, a, b[..n]);
    }
  }

  lemma {:induction false} StaysAt(open: bool, rs: seq<Record>)
    requires forall i :: 0 <= i < |rs| ==> SectionStep(open, rs[i]) == Some(open)
    ensures After(open, rs) == Some(open)
  {
    if rs != [] {
      StaysAt(open, rs[..|rs| - 1]);
    }
  }

  lemma DieIsOneSection(r: DieTestResult, program: TestProgram)
    ensures After(false, DieRecords(r, program)) == Some(false)
  {
    var ptrs, ftrs := Ptrs(r.measurements, program), Ftrs(r.patterns);
    StaysAt(true, ptrs);
    StaysAt(true, ftrs);
    assert After(false, [Bps]) == Some(true) by { assert [Bps][..0] == []; }
    assert After(true, [Eps]) == Some(false) by { assert [Eps][..0] == []; }
    hide Ptrs, Ftrs, After;
    AfterSplits(false, [Bps], ptrs);
    AfterSplits(false, [Bps] + ptrs, ftrs);
    AfterSplits(false, [Bps] + ptrs + ftrs, [Eps]);
  }

  lemma {:induction false} DiesAreSections(rs: seq<DieTestResult>, program: TestProgram)
    ensures After(false, DieSection(rs, program)) == Some(false)
  {
    if rs != [] {
      hide DieRecords;
      var n := |rs| - 1;
      DiesAreSections(rs[..n], program);
      DieIsOneSection(rs[n], program);
      AfterSplits(false, DieSection(rs[..n], program), DieRecords(rs[n], program));
    }
  }

  /** BPS and EPS alternate, results stand only between them, and everything else only outside. */
  lemma StreamIsSectioned(program: TestProgram, wafer: WaferMap, results: seq<DieTestResult>, tally: TallyCounts,
                          taxonomy: BinTaxonomy, metadata: RunMetadata)
    ensures After(false, RunRecords(program, wafer, results, tally, taxonomy, metadata)) == Some(false)
  {
    OthersStayOutside(program, wafer, results, tally, taxonomy, metadata);
    hide After, Front, DieSection, SpecTsrs, GroupTsrs, Counters, Hbrs, Sbrs, Back, ByCoord;
    var a, b := Front(program, wafer, metadata), DieSection(ByCoord(results), program);
    var c, d := SpecTsrs(program.tests, results), GroupTsrs(program.patternGroups, results);
    var e := Counters(wafer, tally.aborted, metadata.finishT);
    var g, h := Hbrs(tally.hardBins, taxonomy), Sbrs(tally.softBins, taxonomy);
    DiesAreSections(ByCoord(results), program);
    AfterSplits(false, a, b);
    AfterSplits(false, a + b, c);
    AfterSplits(false, a + b + c, d);
    AfterSplits(false, a + b + c + d, e);
    AfterSplits(false, a + b + c + d + e, g);
    AfterSplits(false, a + b + c + d + e + g, h);
    AfterSplits(false, a + b + c + d + e + g + h, Back(wafer, metadata.finishT));
  }

  lemma OthersStayOutside(program: TestProgram, wafer: WaferMap, results: seq<DieTestResult>, tally: TallyCounts,
                          taxonomy: BinTaxonomy, metadata: RunMetadata)
    ensures After(false, Front(program, wafer, metadata)) == Some(false)
    ensures After(false, SpecTsrs(program.tests, results)) == Some(false)
    ensures After(false, GroupTsrs(program.patternGroups, results)) == Some(false)
    ensures After(false, Counters(wafer, tally.aborted, metadata.finishT)) == Some(false)
    ensures After(false, Hbrs(tally.hardBins, taxonomy)) == Some(false)
    ensures After(false, Sbrs(tally.softBins, taxonomy)) == Some(false)
    ensures After(false, Back(wafer, metadata.finishT)) == Some(false)
  {
    hide After, LotStrings, Ascii, OutcomesOn, PassesIn, EncodeMap, Summary, Truncated16;
    StaysAt(false, Front(program, wafer, metadata));
    StaysAt(false, SpecTsrs(program.tests, results));
    StaysAt(false, GroupTsrs(program.patternGroups, results));
    StaysAt(false, Counters(wafer, tally.aborted, metadata.finishT));
    StaysAt(false, Hbrs(tally.hardBins, taxonomy));
    StaysAt(false, Sbrs(tally.softBins, taxonomy));
    StaysAt(false, Back(wafer, metadata.finishT));
  }

  // ---------- counters ----------

  function HbrCount(): Record -> int { (r: Record) => if r.Hbr? then r.binCnt else 0 }
  function SbrCount(): Record -> int { (r: Record) => if r.Sbr? then r.binCnt else 0 }
  function WrrParts(): Record -> int { (r: Record) => if r.Wrr? then r.partCnt else 0 }
  function PcrParts(site: int): Record -> int { (r: Record) => if r.Pcr? && r.siteNum == site then r.partCnt else 0 }

  lemma {:induction false} BinsTotal(cs: seq<BinCount>, taxonomy: BinTaxonomy)
    ensures Sum(HbrCount(), Hbrs(cs, taxonomy)) == Total(cs)
    ensures Sum(SbrCount(), Sbrs(cs, taxonomy)) == Total(cs)
  {
    if cs != [] {
      BinsTotal(cs[1..], taxonomy);
      assert Hbrs(cs, taxonomy) == [HbrOf(cs[0], taxonomy)] + Hbrs(cs[1..], taxonomy);
      assert Sbrs(cs, taxonomy) == [SbrOf(cs[0], taxonomy)] + Sbrs(cs[1..], taxonomy);
      SumSplits(HbrCount(), [HbrOf(cs[0], taxonomy)], Hbrs(cs[1..], taxonomy));
      SumSplits(SbrCount(), [SbrOf(cs[0], taxonomy)], Sbrs(cs[1..], taxonomy));
      SumOfOne(HbrCount(), HbrOf(cs[0], taxonomy));
      SumOfOne(SbrCount(), SbrOf(cs[0], taxonomy));
    }
  }

  lemma {:induction false} NothingOnDies(f: Record -> int, rs: seq<DieTestResult>, program: TestProgram)
    requires forall r: Record :: r.Bps? || r.Eps? || r.Ptr? || r.Ftr? ==> f(r) == 0
    ensures Sum(f, DieSection(rs, program)) == 0
  {
    if rs != [] {
      NothingOnDies(f, rs[..|rs| - 1], program);
      SumIsZero(f, DieRecords(rs[|rs| - 1], program));
      SumSplits(f, DieSection(rs[..|rs| - 1], program), DieRecords(rs[|rs| - 1], program));
    }
  }

  lemma CountersTotal(wafer: WaferMap, aborted: nat, finish: u32)
    ensures var tested := |OutcomesOn(wafer.dies)|; var c := Counters(wafer, aborted, finish);
            && Sum(WrrParts(), c) == tested && Sum(PcrParts(1), c) == tested && Sum(PcrParts(255), c) == tested
  {
    hide OutcomesOn, PassesIn, Sum;
    var c := Counters(wafer, aborted, finish);
    assert c == [c[0]] + [c[1]] + [c[2]];
    CounterSum(WrrParts(), c);
    CounterSum(PcrParts(1), c);
    CounterSum(PcrParts(255), c);
  }

  lemma CounterSum(f: Record -> int, c: seq<Record>)
    requires |c| == 3
    ensures Sum(f, c) == f(c[0]) + f(c[1]) + f(c[2])
  {
    hide Sum;
    assert c == [c[0]] + [c[1]] + [c[2]];
    SumSplits(f, [c[0]], [c[1]]);
    SumSplits(f, [c[0]] + [c[1]], [c[2]]);
    SumOfOne(f, c[0]);
    SumOfOne(f, c[1]);
    SumOfOne(f, c[2]);
  }

  /** Where the bin records and the counters of a stream come from. */
  lemma StreamTotals(program: TestProgram, wafer: WaferMap, results: seq<DieTestResult>, tally: TallyCounts,
                     taxonomy: BinTaxonomy, metadata: RunMetadata)
    ensures var stream := RunRecords(program, wafer, results, tally, taxonomy, metadata);
            var tested := |OutcomesOn(wafer.dies)|;
            && Sum(HbrCount(), stream) == Total(tally.hardBins) && Sum(SbrCount(), stream) == Total(tally.softBins)
            && Sum(WrrParts(), stream) == tested
            && Sum(PcrParts(1), stream) == tested && Sum(PcrParts(255), stream) == tested
  {
    SumOverCounters(HbrCount(), program, wafer, results, tally, taxonomy, metadata);
    SumOverCounters(SbrCount(), program, wafer, results, tally, taxonomy, metadata);
    SumOverCounters(WrrParts(), program, wafer, results, tally, taxonomy, metadata);
    SumOverCounters(PcrParts(1), program, wafer, results, tally, taxonomy, metadata);
    SumOverCounters(PcrParts(255), program, wafer, results, tally, taxonomy, metadata);
    BinsTotal(tally.hardBins, taxonomy);
    BinsTotal(tally.softBins, taxonomy);
    NothingOn(HbrCount(), wafer, tally, taxonomy, metadata);
    NothingOn(SbrCount(), wafer, tally, taxonomy, metadata);
    NothingOn(WrrParts(), wafer, tally, taxonomy, metadata);
    NothingOn(PcrParts(1), wafer, tally, taxonomy, metadata);
    NothingOn(PcrParts(255), wafer, tally, taxonomy, metadata);
    hide RunRecords, Sum, Hbrs, Sbrs, Counters, OutcomesOn, HbrCount, SbrCount, WrrParts, PcrParts, Total;
    CountersTotal(wafer, tally.aborted, metadata.finishT);
  }

  /** A measure of bin records and counters sees only their three sections. */
  lemma SumOverCounters(f: Record -> int, program: TestProgram, wafer: WaferMap, results: seq<DieTestResult>,
                        tally: TallyCounts, taxonomy: BinTaxonomy, metadata: RunMetadata)
    requires forall r: Record :: !r.Hbr? && !r.Sbr? && !r.Wrr? && !r.Pcr? ==> f(r) == 0
    ensures Sum(f, RunRecords(program, wafer, results, tally, taxonomy, metadata))
         == Sum(f, Counters(wafer, tally.aborted, metadata.finishT))
            + Sum(f, Hbrs(tally.hardBins, taxonomy)) + Sum(f, Sbrs(tally.softBins, taxonomy))
  {
    hide Sum, LotStrings, Ascii, OutcomesOn, PassesIn, EncodeMap, Summary, Truncated16, RunRecords, Counters, Hbrs, Sbrs,
         DieSection, ByCoord;
    StreamSum(f, program, wafer, results, tally, taxonomy, metadata);
    SumIsZero(f, Front(program, wafer, metadata));
    NothingOnDies(f, ByCoord(results), program);
    SumIsZero(f, SpecTsrs(program.tests, results));
    SumIsZero(f, GroupTsrs(program.patternGroups, results));
    SumIsZero(f, Back(wafer, metadata.finishT));
  }

  /** Each section is blank for the measures of the other kinds. */
  lemma NothingOn(f: Record -> int, wafer: WaferMap, tally: TallyCounts, taxonomy: BinTaxonomy, metadata: RunMetadata)
    ensures (forall r: Record :: r.Hbr? ==> f(r) == 0) ==> Sum(f, Hbrs(tally.hardBins, taxonomy)) == 0
    ensures (forall r: Record :: r.Sbr? ==> f(r) == 0) ==> Sum(f, Sbrs(tally.softBins, taxonomy)) == 0
    ensures (forall r: Record :: r.Wrr? || r.Pcr? ==> f(r) == 0)
            ==> Sum(f, Counters(wafer, tally.aborted, metadata.finishT)) == 0
  {
    hide Sum, OutcomesOn, PassesIn;
    if forall r: Record :: r.Hbr? ==> f(r) == 0 {
      SumIsZero(f, Hbrs(tally.hardBins, taxonomy));
    }
    if forall r: Record :: r.Sbr? ==> f(r) == 0 {
      SumIsZero(f, Sbrs(tally.softBins, taxonomy));
    }
    if forall r: Record :: r.Wrr? || r.Pcr? ==> f(r) == 0 {
      SumIsZero(f, Counters(wafer, tally.aborted, metadata.finishT));
    }
  }

  /** A wafer map after sorting, and the tally of the same results. */
  function AfterSorting(wafer: WaferMap, results: seq<DieTestResult>, program: TestProgram, taxonomy: BinTaxonomy): WaferMap
  {
    wafer.(dies := SortedWafer(wafer.dies, results, program, taxonomy).dies)
  }

  function TallyOf(results: seq<DieTestResult>, program: TestProgram, taxonomy: BinTaxonomy): TallyCounts
  {
    var os := OutcomesOf(results, program, taxonomy);
    TallyCounts(CountsOf(HardBinsIn(os)), CountsOf(SoftBinsIn(os)), Aborts(results))
  }

  /**
   The HBR and the SBR counts of a run's stream each add up to its results. The parts counted by WRR
   and by both PCRs are as many exactly when every result found its die and no die had two.
   */
  lemma StreamCountersAgreeIff(program: TestProgram, wafer: WaferMap, results: seq<DieTestResult>,
                               taxonomy: BinTaxonomy, metadata: RunMetadata)
    requires InOrder(wafer.dies) && NoneTested(wafer.dies)
    ensures var stream := RunRecords(program, AfterSorting(wafer, results, program, taxonomy), results,
                                     TallyOf(results, program, taxonomy), taxonomy, metadata);
            var parts := Sum(WrrParts(), stream);
            && Sum(HbrCount(), stream) == |results| && Sum(SbrCount(), stream) == |results|
            && Sum(PcrParts(1), stream) == parts && Sum(PcrParts(255), stream) == parts
            && (parts == |results| <==> SortedWafer(wafer.dies, results, program, taxonomy).unmatched == 0
                                        && DistinctCoords(results))
  {
    hide Sum, RunRecords, SortedWafer, OutcomesOn, OutcomesOf, CountsOf, HardBinsIn, SoftBinsIn, DistinctCoords, Total,
         HbrCount, SbrCount, WrrParts, PcrParts, InOrder;
    StreamTotals(program, AfterSorting(wafer, results, program, taxonomy), results, TallyOf(results, program, taxonomy),
                 taxonomy, metadata);
    var os := OutcomesOf(results, program, taxonomy);
    CountsAreExact(HardBinsIn(os), 0);
    CountsAreExact(SoftBinsIn(os), 0);
    CountsAgreeIff(wafer.dies, results, program, taxonomy);
  }

  // ---------- every synopsis record ----------

  lemma {:induction false} NoSynopsisOnDies(t: Record, rs: seq<DieTestResult>, program: TestProgram)
    requires t.Tsr?
    ensures t !in DieSection(rs, program)
  {
    if rs != [] {
      NoSynopsisOnDies(t, rs[..|rs| - 1], program);
    }
  }

  /** The test number a synopsis speaks for, and whether for patterns. */
  predicate IsSynopsisOf(t: Record, functional: bool, number: u32, results: seq<DieTestResult>)
  {
    && t.Tsr? && t.testNum == number && t.testTyp == (if functional then LETTER_F else LETTER_P) as int
    && t.execCnt == Summary(results, Pick(functional, number)).exec
    && t.failCnt == Summary(results, Pick(functional, number)).fail
  }

  lemma SynopsisOrigin(t: Record, program: TestProgram, wafer: WaferMap, results: seq<DieTestResult>,
                       tally: TallyCounts, taxonomy: BinTaxonomy, metadata: RunMetadata)
    returns (functional: bool, number: u32)
    requires t.Tsr? && t in RunRecords(program, wafer, results, tally, taxonomy, metadata)
    ensures IsSynopsisOf(t, functional, number, results)
  {
    hide LotStrings, Ascii, OutcomesOn, PassesIn, EncodeMap, Summary, Truncated16, DieSection, ByCoord, Pick;
    NoSynopsisOnDies(t, ByCoord(results), program);
    if t in SpecTsrs(program.tests, results) {
      var i :| 0 <= i < |program.tests| && t == SpecTsr(program.tests[i], results);
      return false, program.tests[i].testNumber;
    }
    assert t in GroupTsrs(program.patternGroups, results) by {
      hide GroupTsrs, SpecTsrs;
      assert t !in Front(program, wafer, metadata) && t !in Counters(wafer, tally.aborted, metadata.finishT);
      assert t !in Hbrs(tally.hardBins, taxonomy) && t !in Sbrs(tally.softBins, taxonomy);
      assert t !in Back(wafer, metadata.finishT);
    }
    var i :| 0 <= i < |program.patternGroups| && t == GroupTsr(program.patternGroups[i], results);
    return true, program.patternGroups[i].testNumber;
  }

  /**
   Every TSR of a stream: its counts are at most those of the PTRs (for patterns, the FTRs) with its
   number, and equal to them exactly when no die repeats the number, or none of its repeats fails.
   */
  lemma {:induction false} EveryTsrAgreesIff(t: Record, program: TestProgram, wafer: WaferMap, results: seq<DieTestResult>,
                          tally: TallyCounts, taxonomy: BinTaxonomy, metadata: RunMetadata)
    requires t.Tsr? && t in RunRecords(program, wafer, results, tally, taxonomy, metadata)
    ensures 0 <= t.testNum < TWO32
    ensures var stream := RunRecords(program, wafer, results, tally, taxonomy, metadata);
            var functional, number: u32 := t.testTyp == LETTER_F as int, t.testNum;
            var executed := Sum(Counted(functional, false, number), stream);
            var failed := Sum(Counted(functional, true, number), stream);
            && t.execCnt <= executed && t.failCnt <= failed
            && (t.execCnt == executed <==> forall r :: r in results ==> DieCount(functional, false, number)(r) <= 1)
            && (t.failCnt == failed <==> forall r :: r in results ==> OnlyFirstFails(Verdicts(functional, r), number))
  {
    hide RunRecords, Sum, Summary, Pick, Counted, DieCount, OnlyFirstFails, Verdicts;
    var functional, number := SynopsisOrigin(t, program, wafer, results, tally, taxonomy, metadata);
    SynopsisAgreesIff(functional, number, program, wafer, results, tally, taxonomy, metadata);
  }
}
