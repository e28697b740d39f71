/** The record stream of a finished wafer run, section by section and as it is assembled. */
module Recording {
  import opened Outcomes
  import opened Bytes
  import opened Utf8
  import opened StdfRecords
  import opened StdfStream
  import opened Bins
  import opened Wafer
  import opened BinSort
  import opened WaferMapGdr

  datatype RunMetadata = RunMetadata(nodeName: Text, testerType: Text, operator: Text, startT: u32, finishT: u32)

  /** What the recorder takes from the tally. */
  datatype TallyCounts = TallyCounts(hardBins: seq<BinCount>, softBins: seq<BinCount>, aborted: nat)

  const SPACE: byte := 32
  const LETTER_F: byte := 70
  const LETTER_P: byte := 80
  const LETTER_R: byte := 82
  const LETTER_T: byte := 84

  const TEST_FAILED: byte := 0x01
  const PASS_FAIL_FIELD: byte := 0x08

  /** The bit pattern of the 32-bit float 150.0. */
  const WAFER_SIZE: u32 := 0x4316_0000

  // ---------- records of one die ----------

  /** `Ptr::measured` at head 1, site 1. */
  function MeasuredPtr(number: u32, value: u32, name: Text, units: Text, lo: u32, hi: u32, flags: byte): Record
  {
    Ptr(number, 1, 1, flags, OPT_FLAG_PRESENT, value, name, [],
        PtrOptional(Some(0), Some(0), Some(0), Some(0), Some(lo), Some(hi), units))
  }

  function LimitBits(limit: Option<u32>): u32
  {
    if limit.Some? then limit.value else 0
  }

  function PtrOf(m: MeasurementOutcome, program: TestProgram): Record
  {
    var flags := if m.passed then 0 else TEST_FAILED;
    match FindSpec(program.tests, m.testNumber)
    case Some(spec) =>
      MeasuredPtr(m.testNumber, m.value, spec.name, spec.unit, LimitBits(spec.loLimit), LimitBits(spec.hiLimit), flags)
    case None => MeasuredPtr(m.testNumber, m.value, [], [], 0, 0, flags)
  }

  /** `Ftr::pattern` at head 1, site 1. */
  function FtrOf(p: PatternOutcome): Record
  {
    Ftr(p.testNumber, 1, 1, if p.passed then PASS_FAIL_FIELD else PASS_FAIL_FIELD + TEST_FAILED, 0,
        0, 0, 0, if p.passed then 0 else 1, 0, 0, 0, 0, 0, 0, 0, [], [p.name], FtrOptional(None, None, None, None))
  }

  function Ptrs(ms: seq<MeasurementOutcome>, program: TestProgram): (rs: seq<Record>)
    ensures |rs| == |ms|
  {
    seq(|ms|, i requires 0 <= i < |ms| => PtrOf(ms[i], program))
  }

  function Ftrs(ps: seq<PatternOutcome>): (rs: seq<Record>)
    ensures |rs| == |ps|
  {
    seq(|ps|, i requires 0 <= i < |ps| => FtrOf(ps[i]))
  }

  function DieRecords(r: DieTestResult, program: TestProgram): seq<Record>
  {
    [Bps] + Ptrs(r.measurements, program) + Ftrs(r.patterns) + [Eps]
  }

  function DieSection(rs: seq<DieTestResult>, program: TestProgram): seq<Record>
  {
    if rs == [] then [] else DieSection(rs[..|rs| - 1], program) + DieRecords(rs[|rs| - 1], program)
  }

  // ---------- results in coordinate order ----------

  /** A stable sort: equal coordinates keep their order. */
  function Insert(r: DieTestResult, rs: seq<DieTestResult>): seq<DieTestResult>
  {
    if rs == [] || !Before(rs[0].coord, r.coord) then [r] + rs else [rs[0]] + Insert(r, rs[1..])
  }

  function ByCoord(rs: seq<DieTestResult>): seq<DieTestResult>
  {
    if rs == [] then [] else Insert(rs[0], ByCoord(rs[1..]))
  }

  // ---------- synopses ----------

  datatype Synopsis = Synopsis(exec: nat, fail: nat)

  datatype Verdict = Verdict(testNumber: u32, passed: bool)

  /** The verdicts of a die's patterns, or of its measurements, in execution order. */
  function Verdicts(functional: bool, r: DieTestResult): seq<Verdict>
  {
    if functional then
      seq(|r.patterns|, i requires 0 <= i < |r.patterns| => Verdict(r.patterns[i].testNumber, r.patterns[i].passed))
    else
      seq(|r.measurements|, i requires 0 <= i < |r.measurements| =>
        Verdict(r.measurements[i].testNumber, r.measurements[i].passed))
  }

  function FirstVerdict(vs: seq<Verdict>, number: u32): Option<bool>
  {
    if vs == [] then None
    else if vs[0].testNumber == number then Some(vs[0].passed)
    else FirstVerdict(vs[1..], number)
  }

  /** What a synopsis asks of each die: the first verdict under its number. */
  function Pick(functional: bool, number: u32): DieTestResult -> Option<bool>
  {
    (r: DieTestResult) => FirstVerdict(Verdicts(functional, r), number)
  }

  function Summary(rs: seq<DieTestResult>, pick: DieTestResult -> Option<bool>): Synopsis
  {
    if rs == [] then Synopsis(0, 0)
    else
      var s := Summary(rs[..|rs| - 1], pick);
      match pick(rs[|rs| - 1])
      case None => s
      case Some(passed) => Synopsis(s.exec + 1, s.fail + if passed then 0 else 1)
  }

  method Summarize(rs: seq<DieTestResult>, pick: DieTestResult -> Option<bool>) returns (exec: nat, fail: nat)
    ensures Synopsis(exec, fail) == Summary(rs, pick)
  {
    exec, fail := 0, 0;
    for i := 0 to |rs|
      invariant Synopsis(exec, fail) == Summary(rs[..i], pick)
    {
      assert rs[..i + 1][..i] == rs[..i];
      var picked := pick(rs[i]);
      if picked.Some? {
        exec := exec + 1;
        fail := fail + if picked.value then 0 else 1;
      }
    }
    assert rs[..|rs|] == rs;
  }

  function SynopsisRecord(kind: byte, number: u32, name: Text, s: Synopsis): Record
  {
    Tsr(1, 255, kind, number, s.exec, s.fail, 0, name, [], [])
  }

  function SpecTsr(spec: TestSpec, rs: seq<DieTestResult>): Record
  {
    SynopsisRecord(LETTER_P, spec.testNumber, spec.name, Summary(rs, Pick(false, spec.testNumber)))
  }

  function GroupTsr(group: PatternGroup, rs: seq<DieTestResult>): Record
  {
    SynopsisRecord(LETTER_F, group.testNumber, group.name, Summary(rs, Pick(true, group.testNumber)))
  }

  function SpecTsrs(specs: seq<TestSpec>, rs: seq<DieTestResult>): (ts: seq<Record>)
    ensures |ts| == |specs|
  {
    seq(|specs|, i requires 0 <= i < |specs| => SpecTsr(specs[i], rs))
  }

  function GroupTsrs(groups: seq<PatternGroup>, rs: seq<DieTestResult>): (ts: seq<Record>)
    ensures |ts| == |groups|
  {
    seq(|groups|, i requires 0 <= i < |groups| => GroupTsr(groups[i], rs))
  }

  // ---------- counters ----------

  function HbrOf(c: BinCount, taxonomy: BinTaxonomy): Record
  {
    if c.bin in taxonomy.hardBins then
      var b := taxonomy.hardBins[c.bin];
      Hbr(1, 255, c.bin, c.count, if b.pass then LETTER_P else LETTER_F, b.name)
    else Hbr(1, 255, c.bin, c.count, LETTER_F, [])
  }

  function SbrOf(c: BinCount, taxonomy: BinTaxonomy): Record
  {
    if c.bin in taxonomy.softBins then
      var b := taxonomy.softBins[c.bin];
      Sbr(1, 255, c.bin, c.count, if taxonomy.IsPassHardBin(b.hardBin) then LETTER_P else LETTER_F, b.name)
    else Sbr(1, 255, c.bin, c.count, LETTER_F, [])
  }

  function Hbrs(cs: seq<BinCount>, taxonomy: BinTaxonomy): (rs: seq<Record>)
    ensures |rs| == |cs|
  {
    seq(|cs|, i requires 0 <= i < |cs| => HbrOf(cs[i], taxonomy))
  }

  function Sbrs(cs: seq<BinCount>, taxonomy: BinTaxonomy): (rs: seq<Record>)
    ensures |rs| == |cs|
  {
    seq(|cs|, i requires 0 <= i < |cs| => SbrOf(cs[i], taxonomy))
  }

  // ---------- the stream ----------

  function LotStrings(program: TestProgram, waferId: Text, metadata: RunMetadata): (ts: seq<Text>)
    ensures |ts| == MIR_STRINGS
  {
    [program.lotId, program.partType, metadata.nodeName, metadata.testerType, program.designName, [], waferId,
     metadata.operator, Ascii("tpt-ate-test"), Ascii("0.1.0"), Ascii("W")] + seq(19, _ => [])
  }

  /** `as i16`: the low 16 bits. */
  function Truncated16(v: int): int
  {
    ToSigned(v % 0x1_0000, 2)
  }

  function Front(program: TestProgram, wafer: WaferMap, metadata: RunMetadata): seq<Record>
  {
    var start := metadata.startT;
    [X86_FAR,
     Atr(start, Ascii("tpt-ate-test wafer sort: ") + program.designName),
     Mir(start, start, 0, SPACE, SPACE, SPACE, 0, 0, LotStrings(program, wafer.waferId, metadata)),
     Pmr(1, 0, Ascii("SIM-CHAN-1"), Ascii("PHYS-1"), Ascii("LOG-1"), Some(1), Some(1)),
     Wir(1, 0, start, wafer.waferId),
     Wcr(WAFER_SIZE, wafer.dieHeight, wafer.dieWidth, 3, 4, Truncated16(wafer.center.x), Truncated16(wafer.center.y),
         LETTER_R, LETTER_T)]
  }

  function Counters(wafer: WaferMap, aborted: nat, finish: u32): seq<Record>
  {
    var tested, passed := |OutcomesOn(wafer.dies)|, PassesIn(OutcomesOn(wafer.dies));
    [Wrr(1, 0, finish, tested, 0, aborted, passed, 0, wafer.waferId, [], [], [], [], []),
     Pcr(1, 1, tested, 0, aborted, passed, 0),
     Pcr(1, 255, tested, 0, aborted, passed, 0)]
  }

  function Back(wafer: WaferMap, finish: u32): seq<Record>
  {
    [Gdr(EncodeMap(wafer.waferId, wafer.dies)), Mrr(finish, SPACE, 0, 0, [], [])]
  }

  function RunRecords(program: TestProgram, wafer: WaferMap, results: seq<DieTestResult>, tally: TallyCounts,
                      taxonomy: BinTaxonomy, metadata: RunMetadata): seq<Record>
  {
    Front(program, wafer, metadata)
    + DieSection(ByCoord(results), program)
    + SpecTsrs(program.tests, results)
    + GroupTsrs(program.patternGroups, results)
    + Counters(wafer, tally.aborted, metadata.finishT)
    + Hbrs(tally.hardBins, taxonomy)
    + Sbrs(tally.softBins, taxonomy)
    + Back(wafer, metadata.finishT)
  }

  // ---------- as it is assembled ----------

  class RecordList {
    var items: seq<Record>

    constructor ()
      ensures items == []
    {
      items := [];
    }

    method Push(r: Record)
      modifies this
      ensures items == old(items) + [r]
    {
      items := items + [r];
    }
  }

  method PushFront(out: RecordList, program: TestProgram, wafer: WaferDieMap, metadata: RunMetadata)
    modifies out
    ensures out.items == old(out.items) + Front(program, wafer.Contents(), metadata)
  {
    hide LotStrings, Ascii, Truncated16;
    var start := metadata.startT;
    out.Push(X86_FAR);
    out.Push(Atr(start, Ascii("tpt-ate-test wafer sort: ") + program.designName));
    out.Push(Mir(start, start, 0, SPACE, SPACE, SPACE, 0, 0, LotStrings(program, wafer.waferId, metadata)));
    out.Push(Pmr(1, 0, Ascii("SIM-CHAN-1"), Ascii("PHYS-1"), Ascii("LOG-1"), Some(1), Some(1)));
    out.Push(Wir(1, 0, start, wafer.waferId));
    out.Push(Wcr(WAFER_SIZE, wafer.dieHeight, wafer.dieWidth, 3, 4, Truncated16(wafer.center.x),
                 Truncated16(wafer.center.y), LETTER_R, LETTER_T));
  }

  method PushDie(out: RecordList, r: DieTestResult, program: TestProgram)
    modifies out
    ensures out.items == old(out.items) + DieRecords(r, program)
  {
    hide PtrOf, FtrOf;
    ghost var start := out.items;
    out.Push(Bps);
    for i := 0 to |r.measurements|
      invariant out.items == start + [Bps] + Ptrs(r.measurements[..i], program)
    {
      out.Push(PtrOf(r.measurements[i], program));
      assert Ptrs(r.measurements[..i + 1], program)
          == Ptrs(r.measurements[..i], program) + [PtrOf(r.measurements[i], program)];
    }
    assert r.measurements[..|r.measurements|] == r.measurements;
    ghost var ptrs := Ptrs(r.measurements, program);
    for i := 0 to |r.patterns|
      invariant out.items == start + [Bps] + ptrs + Ftrs(r.patterns[..i])
    {
      out.Push(FtrOf(r.patterns[i]));
      assert Ftrs(r.patterns[..i + 1]) == Ftrs(r.patterns[..i]) + [FtrOf(r.patterns[i])];
    }
    assert r.patterns[..|r.patterns|] == r.patterns;
    out.Push(Eps);
  }

  method PushDies(out: RecordList, sorted: seq<DieTestResult>, program: TestProgram)
    modifies out
    ensures out.items == old(out.items) + DieSection(sorted, program)
  {
    hide DieRecords;
    ghost var start := out.items;
    for i := 0 to |sorted|
      invariant out.items == start + DieSection(sorted[..i], program)
    {
      PushDie(out, sorted[i], program);
      assert sorted[..i + 1][..i] == sorted[..i];
      Associates(start, DieSection(sorted[..i], program), DieRecords(sorted[i], program));
    }
    assert sorted[..|sorted|] == sorted;
  }

  method PushSynopses(out: RecordList, program: TestProgram, results: seq<DieTestResult>)
    modifies out
    ensures out.items == old(out.items) + SpecTsrs(program.tests, results) + GroupTsrs(program.patternGroups, results)
  {
    hide Summary;
    ghost var start := out.items;
    for i := 0 to |program.tests|
      invariant out.items == start + SpecTsrs(program.tests[..i], results)
    {
      var spec := program.tests[i];
      var exec, fail := Summarize(results, Pick(false, spec.testNumber));
      out.Push(SynopsisRecord(LETTER_P, spec.testNumber, spec.name, Synopsis(exec, fail)));
      assert SpecTsrs(program.tests[..i + 1], results)
          == SpecTsrs(program.tests[..i], results) + [SpecTsr(spec, results)];
    }
    assert program.tests[..|program.tests|] == program.tests;
    ghost var specs := start + SpecTsrs(program.tests, results);
    for i := 0 to |program.patternGroups|
      invariant out.items == specs + GroupTsrs(program.patternGroups[..i], results)
    {
      var group := program.patternGroups[i];
      var exec, fail := Summarize(results, Pick(true, group.testNumber));
      out.Push(SynopsisRecord(LETTER_F, group.testNumber, group.name, Synopsis(exec, fail)));
      assert GroupTsrs(program.patternGroups[..i + 1], results)
          == GroupTsrs(program.patternGroups[..i], results) + [GroupTsr(group, results)];
    }
    assert program.patternGroups[..|program.patternGroups|] == program.patternGroups;
  }

  method PushCounters(out: RecordList, wafer: WaferDieMap, aborted: nat, finish: u32)
    modifies out
    ensures out.items == old(out.items) + Counters(wafer.Contents(), aborted, finish)
  {
    hide OutcomesOn, PassesIn;
    var tested, passed := wafer.TestedCounts();
    out.Push(Wrr(1, 0, finish, tested, 0, aborted, passed, 0, wafer.waferId, [], [], [], [], []));
    out.Push(Pcr(1, 1, tested, 0, aborted, passed, 0));
    out.Push(Pcr(1, 255, tested, 0, aborted, passed, 0));
  }

  method PushBins(out: RecordList, hard: seq<BinCount>, soft: seq<BinCount>, taxonomy: BinTaxonomy)
    modifies out
    ensures out.items == old(out.items) + Hbrs(hard, taxonomy) + Sbrs(soft, taxonomy)
  {
    hide HbrOf, SbrOf;
    ghost var start := out.items;
    for i := 0 to |hard|
      invariant out.items == start + Hbrs(hard[..i], taxonomy)
    {
      out.Push(HbrOf(hard[i], taxonomy));
      assert Hbrs(hard[..i + 1], taxonomy) == Hbrs(hard[..i], taxonomy) + [HbrOf(hard[i], taxonomy)];
    }
    assert hard[..|hard|] == hard;
    ghost var hbrs := start + Hbrs(hard, taxonomy);
    for i := 0 to |soft|
      invariant out.items == hbrs + Sbrs(soft[..i], taxonomy)
    {
      out.Push(SbrOf(soft[i], taxonomy));
      assert Sbrs(soft[..i + 1], taxonomy) == Sbrs(soft[..i], taxonomy) + [SbrOf(soft[i], taxonomy)];
    }
    assert soft[..|soft|] == soft;
  }

  method BuildWaferRunRecords(program: TestProgram, wafer: WaferDieMap, results: seq<DieTestResult>, tally: BinTally,
                              taxonomy: BinTaxonomy, metadata: RunMetadata) returns (records: seq<Record>)
    ensures records == RunRecords(program, wafer.Contents(), results,
                                  TallyCounts(tally.hardBins, tally.softBins, tally.aborted), taxonomy, metadata)
  {
    hide Front, DieSection, SpecTsrs, GroupTsrs, Counters, Hbrs, Sbrs, ByCoord, EncodeMap;
    var out := new RecordList();
    PushFront(out, program, wafer, metadata);
    PushDies(out, ByCoord(results), program);
    PushSynopses(out, program, results);
    PushCounters(out, wafer, tally.aborted, metadata.finishT);
    PushBins(out, tally.hardBins, tally.softBins, taxonomy);
    var payload := EncodeWaferMap(wafer);
    out.Push(Gdr(payload));
    out.Push(Mrr(metadata.finishT, SPACE, 0, 0, [], []));
    records := out.items;
  }
}
