/**
 The recorded stream against the run: its yield, by sums over the whole stream, and what every single
 record in it says.
 */
module StreamLaws {
  import opened Outcomes
  import opened Bytes
  import opened Utf8
  import opened StdfRecords
  import StdfLayout
  import StdfFlagLaws
  import opened Bins
  import opened Wafer
  import opened BinSort
  import opened BinLaws
  import opened WaferLaws
  import opened WaferMapGdr
  import opened Recording
  import opened RecordingTheorems
  import opened RunFile

  // ---------- the yield ----------

  function Wrrs(): Record -> int { (r: Record) => if r.Wrr? then 1 else 0 }
  function WrrGood(): Record -> int { (r: Record) => if r.Wrr? then r.goodCnt else 0 }
  function WrrAborts(): Record -> int { (r: Record) => if r.Wrr? then r.abrtCnt else 0 }
  function WrrRetests(): Record -> int { (r: Record) => if r.Wrr? then r.rtstCnt else 0 }
  function WrrFunctional(): Record -> int { (r: Record) => if r.Wrr? then r.funcCnt else 0 }

  function Pcrs(site: int): Record -> int { (r: Record) => if r.Pcr? && r.siteNum == site then 1 else 0 }
  function PcrGood(site: int): Record -> int { (r: Record) => if r.Pcr? && r.siteNum == site then r.goodCnt else 0 }
  function PcrAborts(site: int): Record -> int { (r: Record) => if r.Pcr? && r.siteNum == site then r.abrtCnt else 0 }
  function PcrRetests(site: int): Record -> int { (r: Record) => if r.Pcr? && r.siteNum == site then r.rtstCnt else 0 }
  function PcrFunctional(site: int): Record -> int { (r: Record) => if r.Pcr? && r.siteNum == site then r.funcCnt else 0 }

  function PassingDies(): Die -> int { (d: Die) => if d.state.Tested? && d.state.outcome.passed then 1 else 0 }
  function AbortedResults(): DieTestResult -> int { (r: DieTestResult) => if r.aborted then 1 else 0 }

  /** Of a measure of WRR and PCR, the stream has what the three counter records have. */
  lemma OnlyCounters(f: Record -> int, program: TestProgram, wafer: WaferMap, results: seq<DieTestResult>,
                     tally: TallyCounts, taxonomy: BinTaxonomy, metadata: RunMetadata)
    requires forall r: Record :: !r.Wrr? && !r.Pcr? ==> f(r) == 0
    ensures var c := Counters(wafer, tally.aborted, metadata.finishT);
            Sum(f, RunRecords(program, wafer, results, tally, taxonomy, metadata)) == f(c[0]) + f(c[1]) + f(c[2])
  {
    hide Sum, RunRecords, Hbrs, Sbrs, OutcomesOn, PassesIn;
    SumOverCounters(f, program, wafer, results, tally, taxonomy, metadata);
    NothingOn(f, wafer, tally, taxonomy, metadata);
    CounterSum(f, Counters(wafer, tally.aborted, metadata.finishT));
  }

  lemma {:induction false} PassesAreSummed(dies: seq<Die>)
    ensures PassesIn(OutcomesOn(dies)) == Sum(PassingDies(), dies)
  {
    if dies != [] {
      var n := |dies| - 1;
      PassesAreSummed(dies[..n]);
      assert dies == dies[..n] + [dies[n]];
      OutcomesSplit(dies[..n], [dies[n]]);
      hide OutcomesOn, PassesIn;
      PassesSplit(OutcomesOn(dies[..n]), OutcomesOn([dies[n]]));
      PassesOfOne(dies[n]);
    }
  }

  lemma {:induction false} AbortsAreSummed(rs: seq<DieTestResult>)
    ensures Aborts(rs) == Sum(AbortedResults(), rs)
  {
    if rs != [] {
      AbortsAreSummed(rs[..|rs| - 1]);
    }
  }

  /**
   One WRR and one PCR for each of the sites 1 and 255; each counts as good the passing dies of the map,
   as aborted what it was told, and neither retests nor functional parts.
   */
  lemma StreamYield(program: TestProgram, wafer: WaferMap, results: seq<DieTestResult>, tally: TallyCounts,
                    taxonomy: BinTaxonomy, metadata: RunMetadata, site: int)
    requires site == 1 || site == 255
    ensures var stream := RunRecords(program, wafer, results, tally, taxonomy, metadata);
            var good := Sum(PassingDies(), wafer.dies);
            && Sum(Wrrs(), stream) == 1 && Sum(Pcrs(site), stream) == 1
            && Sum(WrrGood(), stream) == good && Sum(PcrGood(site), stream) == good
            && Sum(WrrAborts(), stream) == tally.aborted && Sum(PcrAborts(site), stream) == tally.aborted
            && Sum(WrrRetests(), stream) == 0 && Sum(PcrRetests(site), stream) == 0
            && Sum(WrrFunctional(), stream) == 0 && Sum(PcrFunctional(site), stream) == 0
  {
    hide Sum, RunRecords, OutcomesOn, PassesIn;
    PassesAreSummed(wafer.dies);
    OnlyCounters(Wrrs(), program, wafer, results, tally, taxonomy, metadata);
    OnlyCounters(WrrGood(), program, wafer, results, tally, taxonomy, metadata);
    OnlyCounters(WrrAborts(), program, wafer, results, tally, taxonomy, metadata);
    OnlyCounters(WrrRetests(), program, wafer, results, tally, taxonomy, metadata);
    OnlyCounters(WrrFunctional(), program, wafer, results, tally, taxonomy, metadata);
    OnlyCounters(Pcrs(site), program, wafer, results, tally, taxonomy, metadata);
    OnlyCounters(PcrGood(site), program, wafer, results, tally, taxonomy, metadata);
    OnlyCounters(PcrAborts(site), program, wafer, results, tally, taxonomy, metadata);
    OnlyCounters(PcrRetests(site), program, wafer, results, tally, taxonomy, metadata);
    OnlyCounters(PcrFunctional(site), program, wafer, results, tally, taxonomy, metadata);
  }

  /**
   The stream of sorted results: the good count is at most the number of results that pass, and equal to
   it exactly when no pass is lost; the abort count is the number of aborted results.
   */
  lemma StreamYieldAgreesIff(program: TestProgram, wafer: WaferMap, results: seq<DieTestResult>, taxonomy: BinTaxonomy,
                             metadata: RunMetadata)
    requires InOrder(wafer.dies) && NoneTested(wafer.dies)
    ensures var stream := RunRecords(program, AfterSorting(wafer, results, program, taxonomy), results,
                                     TallyOf(results, program, taxonomy), taxonomy, metadata);
            var passed := PassesIn(OutcomesOf(results, program, taxonomy));
            && Sum(WrrGood(), stream) <= passed
            && (Sum(WrrGood(), stream) == passed <==> NoPassIsLost(wafer.dies, results, program, taxonomy))
            && Sum(WrrAborts(), stream) == Sum(AbortedResults(), results)
  {
    hide Sum, RunRecords, SortedWafer, OutcomesOn, OutcomesOf, PassesIn, CountsOf, HardBinsIn, SoftBinsIn, InOrder,
         NoPassIsLost, WrrGood, WrrAborts, PassingDies;
    StreamYield(program, AfterSorting(wafer, results, program, taxonomy), results, TallyOf(results, program, taxonomy),
                taxonomy, metadata, 1);
    PassesAreSummed(AfterSorting(wafer, results, program, taxonomy).dies);
    PassesOnMapIff(wafer.dies, results, program, taxonomy);
    AbortsAreSummed(results);
  }

  // ---------- every record ----------

  /** The low 16 bits of a coordinate, in two's complement. */
  predicate IsLow16(v: int, n: int)
  {
    -0x8000 <= n < 0x8000 && (v - n) % 0x1_0000 == 0
  }

  function Or0(o: Option<u32>): u32 { if o.Some? then o.value else 0 }

  /** A PTR with the value, the verdict and the limits of a measurement. */
  ghost predicate TellsMeasurement(r: Record, m: MeasurementOutcome, program: TestProgram)
  {
    && r.Ptr? && r.testNum == m.testNumber && r.result == m.value && r.headNum == 1 && r.siteNum == 1
    && r.testFlg == (if m.passed then 0 else 1) && r.parmFlg == 0x10 && r.alarmId == []
    && r.ptr.optFlg == Some(0) && r.ptr.resScal == r.ptr.llmScal == r.ptr.hlmScal == Some(0)
    && (forall k: nat :: FirstSpecAt(program.tests, m.testNumber, k) ==>
          var spec := program.tests[k];
          && r.testTxt == spec.name && r.ptr.units == spec.unit
          && r.ptr.loLimit == Some(Or0(spec.loLimit) as int) && r.ptr.hiLimit == Some(Or0(spec.hiLimit) as int))
    && ((forall k :: 0 <= k < |program.tests| ==> program.tests[k].testNumber != m.testNumber) ==>
          r.testTxt == [] && r.ptr.units == [] && r.ptr.loLimit == Some(0) && r.ptr.hiLimit == Some(0))
  }

  predicate TellsPattern(r: Record, p: PatternOutcome)
  {
    && r.Ftr? && r.testNum == p.testNumber && r.headNum == 1 && r.siteNum == 1
    && r.testFlg == (if p.passed then 8 else 9) && r.numFail == (if p.passed then 0 else 1) && r.optFlg == 0
    && r.rtnNam == [] && r.pgmNam == [p.name] && r.ftr == FtrOptional(None, None, None, None)
  }

  /** P and F, for bins and for synopses. */
  function Letter(good: bool): int { if good then 80 else 70 }

  predicate TellsHardBin(r: Record, counts: seq<BinCount>, taxonomy: BinTaxonomy)
  {
    && r.Hbr? && r.headNum == 1 && r.siteNum == 255
    && (exists i :: 0 <= i < |counts| && counts[i].bin == r.binNum && counts[i].count == r.binCnt)
    && (if r.binNum in taxonomy.hardBins then
          r.binPf == Letter(taxonomy.hardBins[r.binNum].pass) && r.binNam == taxonomy.hardBins[r.binNum].name
        else r.binPf == Letter(false) && r.binNam == [])
  }

  /** A soft bin is good if the hard bin it belongs to is. */
  predicate TellsSoftBin(r: Record, counts: seq<BinCount>, taxonomy: BinTaxonomy)
  {
    && r.Sbr? && r.headNum == 1 && r.siteNum == 255
    && (exists i :: 0 <= i < |counts| && counts[i].bin == r.binNum && counts[i].count == r.binCnt)
    && (if r.binNum in taxonomy.softBins then
          var soft := taxonomy.softBins[r.binNum];
          r.binPf == Letter(soft.hardBin in taxonomy.hardBins && taxonomy.hardBins[soft.hardBin].pass)
          && r.binNam == soft.name
        else r.binPf == Letter(false) && r.binNam == [])
  }

  predicate TellsSynopsis(r: Record, program: TestProgram)
  {
    && r.Tsr? && r.headNum == 1 && r.siteNum == 255 && r.alarmCnt == 0 && r.seqName == [] && r.testLbl == []
    && (r.testTyp == 80 || r.testTyp == 70)
    && (r.testTyp == 80 ==> exists t :: t in program.tests && t.testNumber == r.testNum && t.name == r.testNam)
    && (r.testTyp == 70 ==> exists g :: g in program.patternGroups && g.testNumber == r.testNum && g.name == r.testNam)
  }

  predicate TellsLot(r: Record, program: TestProgram, wafer: WaferMap, metadata: RunMetadata)
  {
    match r
    case Far(cpu, version) => cpu == 3 && version == 4
    case Atr(time, line) => time == metadata.startT && line == Ascii("tpt-ate-test wafer sort: ") + program.designName
    case Mir(setup, start, stat, mode, rtn, prot, burn, cmt, ts) =>
      && setup == start == metadata.startT && stat == burn == cmt == 0 && mode == rtn == prot == 32
      && |ts| == 30 && ts[..5] == [program.lotId, program.partType, metadata.nodeName, metadata.testerType, program.designName]
      && ts[5..8] == [[], wafer.waferId, metadata.operator]
      && ts[8..11] == [Ascii("tpt-ate-test"), Ascii("0.1.0"), Ascii("W")]
      && forall i :: 11 <= i < 30 ==> ts[i] == []
    case Mrr(finish, disp, usr, exc, usrDesc, excDesc) =>
      finish == metadata.finishT && disp == 32 && usr == exc == 0 && usrDesc == excDesc == []
    case Pmr(pin, typ, chan, phy, log, head, site) =>
      && pin == 1 && typ == 0 && head == site == Some(1)
      && chan == Ascii("SIM-CHAN-1") && phy == Ascii("PHYS-1") && log == Ascii("LOG-1")
    case _ => false
  }

  predicate TellsWafer(r: Record, wafer: WaferMap, metadata: RunMetadata)
  {
    match r
    case Wir(head, group, start, id) => head == 1 && group == 0 && start == metadata.startT && id == wafer.waferId
    case Wcr(size, height, width, units, flat, x, y, posX, posY) =>
      && size == 0x4316_0000 && height == wafer.dieHeight && width == wafer.dieWidth && units == 3 && flat == 4
      && IsLow16(wafer.center.x, x) && IsLow16(wafer.center.y, y) && posX == 82 && posY == 84
    case Wrr(head, group, finish, _, _, _, _, _, id, fab, frame, mask, usr, exc) =>
      && head == 1 && group == 0 && finish == metadata.finishT && id == wafer.waferId
      && fab == frame == mask == usr == exc == []
    case Pcr(head, site, _, _, _, _, _) => head == 1 && (site == 1 || site == 255)
    case Gdr(data) => data == EncodeMap(wafer.waferId, wafer.dies)
    case _ => false
  }

  /** What a record of a run may say. */
  ghost predicate TellsTheTruth(r: Record, program: TestProgram, wafer: WaferMap, results: seq<DieTestResult>,
                                tally: TallyCounts, taxonomy: BinTaxonomy, metadata: RunMetadata)
  {
    || r.Bps? || r.Eps?
    || TellsLot(r, program, wafer, metadata) || TellsWafer(r, wafer, metadata)
    || (exists d, m :: d in results && m in d.measurements && TellsMeasurement(r, m, program))
    || (exists d, p :: d in results && p in d.patterns && TellsPattern(r, p))
    || TellsSynopsis(r, program)
    || TellsHardBin(r, tally.hardBins, taxonomy) || TellsSoftBin(r, tally.softBins, taxonomy)
  }

  lemma PtrTells(m: MeasurementOutcome, program: TestProgram)
    ensures TellsMeasurement(PtrOf(m, program), m, program)
  {
    FindSpecFinds(program.tests, m.testNumber);
    hide FindSpec;
  }

  lemma {:induction false} DieRecordsTell(rs: seq<DieTestResult>, program: TestProgram, r: Record)
    requires r in DieSection(rs, program)
    ensures r.Bps? || r.Eps?
         || (exists d, m :: d in rs && m in d.measurements && TellsMeasurement(r, m, program))
         || (exists d, p :: d in rs && p in d.patterns && TellsPattern(r, p))
  {
    hide PtrOf, TellsMeasurement, TellsPattern, FtrOf;
    var n := |rs| - 1;
    if r in DieSection(rs[..n], program) {
      DieRecordsTell(rs[..n], program, r);
    } else if r in Ptrs(rs[n].measurements, program) {
      var i :| 0 <= i < |rs[n].measurements| && r == PtrOf(rs[n].measurements[i], program);
      PtrTells(rs[n].measurements[i], program);
      assert rs[n] in rs && rs[n].measurements[i] in rs[n].measurements;
    } else if r in Ftrs(rs[n].patterns) {
      var i :| 0 <= i < |rs[n].patterns| && r == FtrOf(rs[n].patterns[i]);
      assert TellsPattern(r, rs[n].patterns[i]) by { FtrTells(rs[n].patterns[i]); }
      assert rs[n] in rs && rs[n].patterns[i] in rs[n].patterns;
    }
  }

  lemma FtrTells(p: PatternOutcome)
    ensures TellsPattern(FtrOf(p), p)
  {
  }

  lemma FrontTells(r: Record, program: TestProgram, wafer: WaferMap, metadata: RunMetadata)
    requires r in Front(program, wafer, metadata)
    ensures TellsLot(r, program, wafer, metadata) || TellsWafer(r, wafer, metadata)
  {
    LowBits(wafer.center.x);
    LowBits(wafer.center.y);
    hide Truncated16, IsLow16, Ascii;
  }

  lemma LowBits(v: int)
    ensures IsLow16(v, Truncated16(v))
  {
    SmallPowers();
  }

  lemma BinsTell(r: Record, tally: TallyCounts, taxonomy: BinTaxonomy)
    requires r in Hbrs(tally.hardBins, taxonomy) + Sbrs(tally.softBins, taxonomy)
    ensures TellsHardBin(r, tally.hardBins, taxonomy) || TellsSoftBin(r, tally.softBins, taxonomy)
  {
  }

  lemma SynopsesTell(r: Record, program: TestProgram, results: seq<DieTestResult>)
    requires r in SpecTsrs(program.tests, results) + GroupTsrs(program.patternGroups, results)
    ensures TellsSynopsis(r, program)
  {
    hide Summary, Pick;
  }

  lemma CountersTell(r: Record, wafer: WaferMap, aborted: nat, metadata: RunMetadata)
    requires r in Counters(wafer, aborted, metadata.finishT)
    ensures TellsWafer(r, wafer, metadata)
  {
    hide OutcomesOn, PassesIn;
  }

  lemma BackTells(r: Record, program: TestProgram, wafer: WaferMap, metadata: RunMetadata)
    requires r in Back(wafer, metadata.finishT)
    ensures TellsLot(r, program, wafer, metadata) || TellsWafer(r, wafer, metadata)
  {
    hide EncodeMap;
  }

  /** Every record of a run's stream says what the run, the program, the map and the tally say. */
  lemma EveryRecordTellsTheTruth(r: Record, program: TestProgram, wafer: WaferMap, results: seq<DieTestResult>,
                                 tally: TallyCounts, taxonomy: BinTaxonomy, metadata: RunMetadata)
    requires r in RunRecords(program, wafer, results, tally, taxonomy, metadata)
    ensures TellsTheTruth(r, program, wafer, results, tally, taxonomy, metadata)
  {
    hide Front, DieSection, SpecTsrs, GroupTsrs, Counters, Hbrs, Sbrs, Back, ByCoord, TellsMeasurement, TellsPattern,
         TellsLot, TellsWafer, TellsSynopsis, TellsHardBin, TellsSoftBin;
    if r in Front(program, wafer, metadata) {
      FrontTells(r, program, wafer, metadata);
    } else if r in DieSection(ByCoord(results), program) {
      ByCoordSorts(results, DieCoord(0, 0));
      forall d ensures d in ByCoord(results) <==> d in results {
        assert d in multiset(ByCoord(results)) <==> d in multiset(results);
      }
      DieRecordsTell(ByCoord(results), program, r);
    } else if r in SpecTsrs(program.tests, results) + GroupTsrs(program.patternGroups, results) {
      SynopsesTell(r, program, results);
    } else if r in Counters(wafer, tally.aborted, metadata.finishT) {
      CountersTell(r, wafer, tally.aborted, metadata);
    } else if r in Hbrs(tally.hardBins, taxonomy) + Sbrs(tally.softBins, taxonomy) {
      BinsTell(r, tally, taxonomy);
    } else {
      BackTells(r, program, wafer, metadata);
    }
  }

  // ---------- the map in the stream ----------

  /** Coordinates, hard bin and soft bin least significant byte first, then the verdict. */
  function EntrySpelled(d: Die): seq<byte>
  {
    StdfLayout.Word4(d.coord.x) + StdfLayout.Word4(d.coord.y)
    + (match d.state
       case Tested(o) => StdfLayout.Word2(o.hardBin) + StdfLayout.Word2(o.softBin) + [if o.passed then 1 else 0]
       case _ => [0, 0, 0, 0, 0])
  }

  function EntriesSpelled(dies: seq<Die>): (ps: seq<seq<byte>>)
    ensures |ps| == |dies|
  {
    seq(|dies|, i requires 0 <= i < |dies| => EntrySpelled(dies[i]))
  }

  lemma EntryIsSpelledOut(d: Die)
    ensures EntryBytes(d) == EntrySpelled(d)
  {
    SmallPowers();
    StdfLayout.LittleDigits(ToUnsigned(d.coord.x, 4));
    StdfLayout.LittleDigits(ToUnsigned(d.coord.y, 4));
    SignedWord(d.coord.x);
    SignedWord(d.coord.y);
    if d.state.Tested? {
      StdfLayout.LittleDigits(d.state.outcome.hardBin);
      StdfLayout.LittleDigits(d.state.outcome.softBin);
    }
    hide LittleEndian, StdfLayout.Word4, StdfLayout.Word2;
  }

  lemma SignedWord(v: i32)
    ensures v < 0 ==> StdfLayout.Word4(v + TWO32) == StdfLayout.Word4(v)
  {
    var a, b, c := v / 256, v / 0x1_0000, v / 0x100_0000;
    assert (v + TWO32) / 256 == a + 0x100_0000;
    assert (v + TWO32) / 0x1_0000 == b + 0x1_0000;
    assert (v + TWO32) / 0x100_0000 == c + 0x100;
    LowByte(v, 0x100_0000);
    LowByte(a, 0x1_0000);
    LowByte(b, 0x100);
    LowByte(c, 1);
  }

  /** The payload of the GDR byte for byte: the id behind the low byte of its length, and an entry per die. */
  lemma {:induction false} MapIsSpelledOut(waferId: Text, dies: seq<Die>)
    ensures EncodeMap(waferId, dies) == [|waferId| % 256] + waferId + StdfLayout.Joined(EntriesSpelled(dies))
  {
    EntriesAreSpelledOut(dies);
    hide EntriesBytes, StdfLayout.Joined, EntriesSpelled;
  }

  lemma {:induction false} EntriesAreSpelledOut(dies: seq<Die>)
    ensures EntriesBytes(dies) == StdfLayout.Joined(EntriesSpelled(dies))
  {
    hide EntryBytes, EntrySpelled;
    if dies != [] {
      EntryIsSpelledOut(dies[0]);
      EntriesAreSpelledOut(dies[1..]);
      assert EntriesSpelled(dies)[1..] == EntriesSpelled(dies[1..]);
    }
  }

  // ---------- the order of the stream ----------

  /** Where a kind of record stands in a stream. */
  function Rank(r: Record): nat
  {
    match r
    case Far(_, _) => 0
    case Atr(_, _) => 1
    case Mir(_, _, _, _, _, _, _, _, _) => 2
    case Pmr(_, _, _, _, _, _, _) => 3
    case Wir(_, _, _, _) => 4
    case Wcr(_, _, _, _, _, _, _, _, _) => 5
    case Bps => 6
    case Eps => 6
    case Ptr(_, _, _, _, _, _, _, _, _) => 6
    case Ftr(_, _, _, _, _, _, _, _, _, _, _, _, _, _, _, _, _, _, _) => 6
    case Tsr(_, _, typ, _, _, _, _, _, _, _) => if typ == 80 then 7 else 8
    case Wrr(_, _, _, _, _, _, _, _, _, _, _, _, _, _) => 9
    case Pcr(_, _, _, _, _, _, _) => 10
    case Hbr(_, _, _, _, _, _) => 11
    case Sbr(_, _, _, _, _, _) => 12
    case Gdr(_) => 13
    case Mrr(_, _, _, _, _, _) => 14
    case _ => 15
  }

  /** In order, from kind `lo` to kind `hi`. */
  predicate InRankOrder(rs: seq<Record>, lo: nat, hi: nat)
  {
    && (forall i :: 0 <= i < |rs| ==> lo <= Rank(rs[i]) <= hi)
    && forall i, j :: 0 <= i < j < |rs| ==> Rank(rs[i]) <= Rank(rs[j])
  }

  lemma OrdersJoin(a: seq<Record>, b: seq<Record>, lo: nat, mid: nat, next: nat, hi: nat)
    requires InRankOrder(a, lo, mid) && InRankOrder(b, next, hi) && lo <= mid <= next <= hi
    ensures InRankOrder(a + b, lo, hi)
  {
    hide Rank;
  }

  lemma ResultRanks(m: MeasurementOutcome, p: PatternOutcome, program: TestProgram)
    ensures Rank(PtrOf(m, program)) == 6 && Rank(FtrOf(p)) == 6 && Rank(Bps) == 6 && Rank(Eps) == 6
  {
    hide FindSpec;
  }

  lemma DieInRank(d: DieTestResult, program: TestProgram)
    ensures InRankOrder(DieRecords(d, program), 6, 6)
  {
    hide Rank, PtrOf, FtrOf;
    var rs, n, m := DieRecords(d, program), |d.measurements|, |d.patterns|;
    forall i | 0 <= i < |rs| ensures Rank(rs[i]) == 6 {
      var someM, someP := MeasurementOutcome(0, 0, true), PatternOutcome([], 0, true);
      ResultRanks(if 0 < i <= n then d.measurements[i - 1] else someM,
                  if n < i <= n + m then d.patterns[i - 1 - n] else someP, program);
    }
  }

  lemma {:induction false} DiesInRank(rs: seq<DieTestResult>, program: TestProgram)
    ensures InRankOrder(DieSection(rs, program), 6, 6)
  {
    hide DieRecords, Rank;
    if rs != [] {
      var n := |rs| - 1;
      DiesInRank(rs[..n], program);
      DieInRank(rs[n], program);
      OrdersJoin(DieSection(rs[..n], program), DieRecords(rs[n], program), 6, 6, 6, 6);
    }
  }

  lemma EndsInRank(program: TestProgram, wafer: WaferMap, metadata: RunMetadata)
    ensures InRankOrder(Front(program, wafer, metadata), 0, 5) && InRankOrder(Back(wafer, metadata.finishT), 13, 14)
  {
    hide LotStrings, Ascii, EncodeMap, Truncated16;
  }

  lemma SynopsesInRank(program: TestProgram, results: seq<DieTestResult>)
    ensures InRankOrder(SpecTsrs(program.tests, results), 7, 7)
    ensures InRankOrder(GroupTsrs(program.patternGroups, results), 8, 8)
  {
    hide Summary, Pick;
  }

  lemma CountersInRank(wafer: WaferMap, tally: TallyCounts, taxonomy: BinTaxonomy, finish: u32)
    ensures InRankOrder(Counters(wafer, tally.aborted, finish), 9, 10)
    ensures InRankOrder(Hbrs(tally.hardBins, taxonomy), 11, 11) && InRankOrder(Sbrs(tally.softBins, taxonomy), 12, 12)
  {
    hide OutcomesOn, PassesIn;
  }

  /** The kinds of records follow one another in a fixed order, from FAR to MRR. */
  lemma StreamIsInOrder(program: TestProgram, wafer: WaferMap, results: seq<DieTestResult>, tally: TallyCounts,
                        taxonomy: BinTaxonomy, metadata: RunMetadata)
    ensures InRankOrder(RunRecords(program, wafer, results, tally, taxonomy, metadata), 0, 14)
  {
    hide InRankOrder, Front, DieSection, SpecTsrs, GroupTsrs, Counters, Hbrs, Sbrs, Back, ByCoord;
    EndsInRank(program, wafer, metadata);
    SynopsesInRank(program, results);
    CountersInRank(wafer, tally, taxonomy, metadata.finishT);
    var a, b := Front(program, wafer, metadata), DieSection(ByCoord(results), program);
    var c, d := SpecTsrs(program.tests, results), GroupTsrs(program.patternGroups, results);
    var e := Counters(wafer, tally.aborted, metadata.finishT);
    var g, h := Hbrs(tally.hardBins, taxonomy), Sbrs(tally.softBins, taxonomy);
    DiesInRank(ByCoord(results), program);
    OrdersJoin(a, b, 0, 5, 6, 6);
    OrdersJoin(a + b, c, 0, 6, 7, 7);
    OrdersJoin(a + b + c, d, 0, 7, 8, 8);
    OrdersJoin(a + b + c + d, e, 0, 8, 9, 10);
    OrdersJoin(a + b + c + d + e, g, 0, 10, 11, 11);
    OrdersJoin(a + b + c + d + e + g, h, 0, 11, 12, 12);
    OrdersJoin(a + b + c + d + e + g + h, Back(wafer, metadata.finishT), 0, 12, 13, 14);
  }

  // ---------- the results in it ----------

  /** A verdict of a test, by measurement or by pattern. */
  datatype Spoken = Spoken(functional: bool, number: int, passed: bool)

  function SpokenBy(r: Record): seq<Spoken>
  {
    if r.Ptr? then [Spoken(false, r.testNum, r.testFlg % 2 == 0)]
    else if r.Ftr? then [Spoken(true, r.testNum, r.testFlg % 2 == 0)]
    else []
  }

  function SpokenIn(rs: seq<Record>): seq<Spoken>
  {
    if rs == [] then [] else SpokenIn(rs[..|rs| - 1]) + SpokenBy(rs[|rs| - 1])
  }

  /** The verdicts of a die: its measurements, then its patterns, as they were made. */
  function VerdictsOf(d: DieTestResult): seq<Spoken>
  {
    seq(|d.measurements|, i requires 0 <= i < |d.measurements| =>
      Spoken(false, d.measurements[i].testNumber, d.measurements[i].passed))
    + seq(|d.patterns|, i requires 0 <= i < |d.patterns| =>
        Spoken(true, d.patterns[i].testNumber, d.patterns[i].passed))
  }

  function AllVerdicts(ds: seq<DieTestResult>): seq<Spoken>
  {
    if ds == [] then [] else AllVerdicts(ds[..|ds| - 1]) + VerdictsOf(ds[|ds| - 1])
  }

  lemma {:induction false} SpokenSplits(a: seq<Record>, b: seq<Record>)
    ensures SpokenIn(a + b) == SpokenIn(a) + SpokenIn(b)
  {
    hide SpokenBy;
    if b == [] {
      assert a + b == a && SpokenIn(a) + [] == SpokenIn(a);
    } else {
      var n := |b| - 1;
      assert (a + b)[..|a| + n] == a + b[..n];
      SpokenSplits(a, b[..n]);
      Associates(SpokenIn(a), SpokenIn(b[..n]), SpokenBy(b[n]));
    }
  }

  lemma {:induction false} OneEach(rs: seq<Record>, vs: seq<Spoken>)
    requires |rs| == |vs| && forall i :: 0 <= i < |rs| ==> SpokenBy(rs[i]) == [vs[i]]
    ensures SpokenIn(rs) == vs
  {
    hide SpokenBy;
    if rs != [] {
      var n := |rs| - 1;
      OneEach(rs[..n], vs[..n]);
      assert vs == vs[..n] + [vs[n]];
    }
  }

  lemma {:induction false} SilentRecords(rs: seq<Record>)
    requires forall i :: 0 <= i < |rs| ==> !rs[i].Ptr? && !rs[i].Ftr?
    ensures SpokenIn(rs) == []
  {
    if rs != [] {
      SilentRecords(rs[..|rs| - 1]);
    }
  }

  lemma DieSpeaks(d: DieTestResult, program: TestProgram)
    ensures SpokenIn(DieRecords(d, program)) == VerdictsOf(d)
  {
    hide SpokenIn;
    var ptrs, ftrs, n := Ptrs(d.measurements, program), Ftrs(d.patterns), |d.measurements|;
    OneEach(ptrs, VerdictsOf(d)[..n]);
    OneEach(ftrs, VerdictsOf(d)[n..]);
    SilentRecords([Bps]);
    SilentRecords([Eps]);
    SpokenSplits([Bps], ptrs);
    SpokenSplits([Bps] + ptrs, ftrs);
    SpokenSplits([Bps] + ptrs + ftrs, [Eps]);
  }

  lemma {:induction false} DiesSpeak(ds: seq<DieTestResult>, program: TestProgram)
    ensures SpokenIn(DieSection(ds, program)) == AllVerdicts(ds)
  {
    hide DieRecords, VerdictsOf;
    if ds != [] {
      var n := |ds| - 1;
      DiesSpeak(ds[..n], program);
      DieSpeaks(ds[n], program);
      SpokenSplits(DieSection(ds[..n], program), DieRecords(ds[n], program));
    }
  }

  lemma OthersAreSilent(program: TestProgram, wafer: WaferMap, results: seq<DieTestResult>, tally: TallyCounts,
                        taxonomy: BinTaxonomy, metadata: RunMetadata)
    ensures var finish := metadata.finishT;
            var behind := SpecTsrs(program.tests, results) + GroupTsrs(program.patternGroups, results)
                          + Counters(wafer, tally.aborted, finish) + Hbrs(tally.hardBins, taxonomy)
                          + Sbrs(tally.softBins, taxonomy) + Back(wafer, finish);
            && SpokenIn(Front(program, wafer, metadata)) == [] && SpokenIn(behind) == []
            && RunRecords(program, wafer, results, tally, taxonomy, metadata)
               == Front(program, wafer, metadata) + DieSection(ByCoord(results), program) + behind
  {
    hide LotStrings, Ascii, OutcomesOn, PassesIn, EncodeMap, Summary, Truncated16, Pick, SpokenIn, DieSection, ByCoord;
    SilentRecords(Front(program, wafer, metadata));
    SilentRecords(SpecTsrs(program.tests, results) + GroupTsrs(program.patternGroups, results)
                  + Counters(wafer, tally.aborted, metadata.finishT) + Hbrs(tally.hardBins, taxonomy)
                  + Sbrs(tally.softBins, taxonomy) + Back(wafer, metadata.finishT));
  }

  /** The PTRs and FTRs of a stream are the verdicts of its dies, all of them, die by die in coordinate order. */
  lemma ResultsAreInOrder(program: TestProgram, wafer: WaferMap, results: seq<DieTestResult>, tally: TallyCounts,
                          taxonomy: BinTaxonomy, metadata: RunMetadata)
    ensures SpokenIn(RunRecords(program, wafer, results, tally, taxonomy, metadata)) == AllVerdicts(ByCoord(results))
  {
    OthersAreSilent(program, wafer, results, tally, taxonomy, metadata);
    hide SpokenIn, RunRecords, Front, DieSection, SpecTsrs, GroupTsrs, Counters, Hbrs, Sbrs, Back, ByCoord, AllVerdicts;
    var behind := SpecTsrs(program.tests, results) + GroupTsrs(program.patternGroups, results)
                  + Counters(wafer, tally.aborted, metadata.finishT) + Hbrs(tally.hardBins, taxonomy)
                  + Sbrs(tally.softBins, taxonomy) + Back(wafer, metadata.finishT);
    DiesSpeak(ByCoord(results), program);
    SpokenSplits(Front(program, wafer, metadata), DieSection(ByCoord(results), program));
    SpokenSplits(Front(program, wafer, metadata) + DieSection(ByCoord(results), program), behind);
  }

  /** What a payload is read as: nothing, out of range, or its id and as many entries as there are whole ones. */
  lemma {:induction false} PayloadCases(data: seq<byte>)
    ensures DecodeMap(data) == Absent <==> data == []
    ensures DecodeMap(data) == Panics <==> data != [] && data[0] as int > |data| - 1
    ensures DecodeMap(data).Snapshot? ==>
              0 <= |data| - 1 - data[0] as int - 13 * |DecodeMap(data).snapshot.dies| < 13
  {
    hide DecodeEntry, FromUtf8Lossy;
    if data != [] && data[0] as int <= |data| - 1 {
      WholeEntries(data[1 + data[0] as int..]);
    }
  }

  lemma {:induction false} WholeEntries(rest: seq<byte>)
    ensures 0 <= |rest| - 13 * |DecodeEntries(rest)| < 13
  {
    hide DecodeEntry;
    if |rest| >= 13 {
      WholeEntries(rest[13..]);
    }
  }

  /** Least significant byte first, as a number with or without a sign. */
  function Low2(b: seq<byte>, i: nat): nat
    requires i + 2 <= |b|
  {
    b[i] + b[i + 1] as int * 0x100
  }

  function Signed4(b: seq<byte>, i: nat): int
    requires i + 4 <= |b|
  {
    var n := b[i] + b[i + 1] as int * 0x100 + b[i + 2] as int * 0x1_0000 + b[i + 3] as int * 0x100_0000;
    if n < 0x8000_0000 then n else n - 0x1_0000_0000
  }

  /** Any thirteen bytes as an entry: untested if all five behind the coordinates are 0, passed if the last is not. */
  lemma EntryIsRead(b: seq<byte>)
    requires |b| >= 13
    ensures var entry := DecodeEntry(b);
            && entry.coord.x == Signed4(b, 0) && entry.coord.y == Signed4(b, 4)
            && (entry.tested.None? <==> Low2(b, 8) == Low2(b, 10) == 0 && b[12] == 0)
            && (entry.tested.Some? ==> entry.tested.value == DieTestOutcome(b[12] != 0, Low2(b, 8), Low2(b, 10)))
  {
    SmallPowers();
    StdfFlagLaws.FourBytes(b, 0, Little);
    StdfFlagLaws.FourBytes(b, 4, Little);
    StdfFlagLaws.TwoBytes(b, 8, Little);
    StdfFlagLaws.TwoBytes(b, 10, Little);
    assert b[..4] == b[0..4];
    hide FromLittleEndian, LittleEndian, Pow256;
  }

  /** The results in a stream go by x first and by y among equal x. */
  lemma ResultsGoByXThenY(results: seq<DieTestResult>, i: nat, j: nat)
    requires i < j < |ByCoord(results)|
    ensures var a, b := ByCoord(results)[i].coord, ByCoord(results)[j].coord;
            a.x < b.x || (a.x == b.x && a.y <= b.y)
  {
    ByCoordSorts(results, DieCoord(0, 0));
    hide ByCoord;
  }
}
