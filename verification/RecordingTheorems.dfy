/** What holds of every recorded stream: sections, synopses, redundant counters, and the way to the file. */
module RecordingTheorems {
  import opened Outcomes
  import opened Bytes
  import opened Utf8
  import opened StdfRecords
  import opened Bins
  import opened Wafer
  import opened BinSort
  import opened WaferMapGdr
  import opened Recording

  // ---------- the sort ----------

  predicate Sorted(rs: seq<DieTestResult>)
  {
    forall i, j :: 0 <= i < j < |rs| ==> !Before(rs[j].coord, rs[i].coord)
  }

  /** The results for one coordinate, in order. */
  function For(c: DieCoord, rs: seq<DieTestResult>): seq<DieTestResult>
  {
    if rs == [] then [] else (if rs[0].coord == c then [rs[0]] else []) + For(c, rs[1..])
  }

  lemma {:induction false} InsertSorts(r: DieTestResult, rs: seq<DieTestResult>)
    requires Sorted(rs)
    ensures Sorted(Insert(r, rs))
    ensures rs != [] ==> Insert(r, rs)[0] == r || Insert(r, rs)[0] == rs[0]
  {
    if rs == [] || !Before(rs[0].coord, r.coord) {
      HeadSorted(r, rs);
    } else {
      InsertSorts(r, rs[1..]);
      assert rs[1..] != [] ==> !Before(rs[1].coord, rs[0].coord);
      HeadSorted(rs[0], Insert(r, rs[1..]));
    }
  }

  lemma {:induction false} InsertPermutes(r: DieTestResult, rs: seq<DieTestResult>)
    ensures multiset(Insert(r, rs)) == multiset(rs) + multiset{r}
  {
    if rs != [] && Before(rs[0].coord, r.coord) {
      InsertPermutes(r, rs[1..]);
      assert rs == [rs[0]] + rs[1..];
    }
  }

  lemma {:induction false} InsertIsStable(r: DieTestResult, rs: seq<DieTestResult>, c: DieCoord)
    ensures For(c, Insert(r, rs)) == (if r.coord == c then [r] else []) + For(c, rs)
  {
    if rs == [] || !Before(rs[0].coord, r.coord) {
      assert ([r] + rs)[1..] == rs;
    } else {
      InsertIsStable(r, rs[1..], c);
      assert ([rs[0]] + Insert(r, rs[1..]))[1..] == Insert(r, rs[1..]);
      assert rs[0].coord != r.coord;
    }
  }

  lemma HeadSorted(r: DieTestResult, rs: seq<DieTestResult>)
    requires Sorted(rs) && (rs != [] ==> !Before(rs[0].coord, r.coord))
    ensures Sorted([r] + rs)
  {
  }

  /** A stable sort by coordinate: the same results, in order, and none overtakes another of its own die. */
  lemma {:induction false} ByCoordSorts(rs: seq<DieTestResult>, c: DieCoord)
    ensures Sorted(ByCoord(rs)) && multiset(ByCoord(rs)) == multiset(rs) && For(c, ByCoord(rs)) == For(c, rs)
  {
    if rs != [] {
      hide Insert, Sorted, Before;
      ByCoordSorts(rs[1..], c);
      InsertSorts(rs[0], ByCoord(rs[1..]));
      InsertPermutes(rs[0], ByCoord(rs[1..]));
      InsertIsStable(rs[0], ByCoord(rs[1..]), c);
      assert rs == [rs[0]] + rs[1..];
    }
  }

  // ---------- sums ----------

  function Sum<T>(f: T -> int, s: seq<T>): int
  {
    if s == [] then 0 else Sum(f, s[..|s| - 1]) + f(s[|s| - 1])
  }

  lemma {:induction false} SumSplits<T>(f: T -> int, a: seq<T>, b: seq<T>)
    ensures Sum(f, a + b) == Sum(f, a) + Sum(f, b)
  {
    if b == [] {
      assert a + b == a;
    } else {
      var n := |b| - 1;
      assert (a + b)[..|a| + n] == a + b[..n];
      SumSplits(f, a, b[..n]);
    }
  }

  lemma SumOfOne<T>(f: T -> int, x: T)
    ensures Sum(f, [x]) == f(x)
  {
    assert [x][..0] == [];
  }

  lemma SumWithout<T>(f: T -> int, s: seq<T>, k: nat)
    requires k < |s|
    ensures Sum(f, s) == Sum(f, Without(s, k)) + f(s[k])
    ensures multiset(s) == multiset(Without(s, k)) + multiset{s[k]}
  {
    hide Sum;
    TakeOut(s, k);
    SumOfOne(f, s[k]);
    var before, after := s[..k], s[k + 1..];
    assert s == before + ([s[k]] + after);
    SumSplits(f, before, [s[k]] + after);
    SumSplits(f, [s[k]], after);
    SumSplits(f, before, after);
  }

  /** A sum does not depend on the order of its terms. */
  lemma {:induction false} SumPermutes<T>(f: T -> int, a: seq<T>, b: seq<T>)
    requires multiset(a) == multiset(b)
    ensures Sum(f, a) == Sum(f, b)
    decreases |a|
  {
    if a == [] {
      assert |multiset(b)| == 0;
    } else {
      assert a[0] in multiset(b);
      var k :| 0 <= k < |b| && b[k] == a[0];
      assert |Without(a, 0)| < |a|;
      hide Sum, Without;
      SumWithout(f, a, 0);
      SumWithout(f, b, k);
      OneLess(multiset(Without(a, 0)), multiset(Without(b, k)), a[0]);
      SumPermutes(f, Without(a, 0), Without(b, k));
    }
  }

  lemma {:induction false} SumIsZero<T>(f: T -> int, s: seq<T>)
    requires forall i :: 0 <= i < |s| ==> f(s[i]) == 0
    ensures Sum(f, s) == 0
  {
    if s != [] {
      SumIsZero(f, s[..|s| - 1]);
    }
  }

  /** Of two sums that dominate term by term, one reaches the other exactly when every term does. */
  lemma {:induction false} SumsMeetIff<T>(f: T -> int, g: T -> int, s: seq<T>)
    requires forall i :: 0 <= i < |s| ==> f(s[i]) <= g(s[i])
    ensures Sum(f, s) <= Sum(g, s)
    ensures Sum(f, s) == Sum(g, s) <==> forall i :: 0 <= i < |s| ==> f(s[i]) == g(s[i])
  {
    if s != [] {
      SumsMeetIff(f, g, s[..|s| - 1]);
    }
  }

  // ---------- counting records ----------

  predicate IsPtr(r: Record, number: u32) { r.Ptr? && r.testNum == number }
  predicate IsFtr(r: Record, number: u32) { r.Ftr? && r.testNum == number }
  predicate HasFailed(r: Record) { (r.Ptr? && Flag(r.testFlg, 1)) || (r.Ftr? && Flag(r.testFlg, 1)) }

  function One(b: bool): int { if b then 1 else 0 }

  /** Which records a synopsis is checked against: PTRs or FTRs of one number, all or the failed ones. */
  function Counted(functional: bool, failed: bool, number: u32): Record -> int
  {
    (r: Record) => One((if functional then IsFtr(r, number) else IsPtr(r, number)) && (failed ==> HasFailed(r)))
  }

  function CountedVerdict(failed: bool, number: u32): Verdict -> int
  {
    (v: Verdict) => One(v.testNumber == number && (failed ==> !v.passed))
  }

  /** How many of a die's verdicts carry a number. */
  function DieCount(functional: bool, failed: bool, number: u32): DieTestResult -> int
  {
    (r: DieTestResult) => Sum(CountedVerdict(failed, number), Verdicts(functional, r))
  }

  lemma {:induction false} SumsMatch<T, U>(f: T -> int, g: U -> int, a: seq<T>, b: seq<U>)
    requires |a| == |b| && forall i :: 0 <= i < |a| ==> f(a[i]) == g(b[i])
    ensures Sum(f, a) == Sum(g, b)
  {
    if a != [] {
      SumsMatch(f, g, a[..|a| - 1], b[..|b| - 1]);
    }
  }

  lemma PtrsCount(functional: bool, failed: bool, number: u32, r: DieTestResult, program: TestProgram)
    ensures Sum(Counted(functional, failed, number), Ptrs(r.measurements, program))
         == if functional then 0 else Sum(CountedVerdict(failed, number), Verdicts(false, r))
  {
    hide Sum;
    if functional {
      SumIsZero(Counted(functional, failed, number), Ptrs(r.measurements, program));
    } else {
      SumsMatch(Counted(false, failed, number), CountedVerdict(failed, number),
                Ptrs(r.measurements, program), Verdicts(false, r));
    }
  }

  lemma FtrsCount(functional: bool, failed: bool, number: u32, r: DieTestResult)
    ensures Sum(Counted(functional, failed, number), Ftrs(r.patterns))
         == if functional then Sum(CountedVerdict(failed, number), Verdicts(true, r)) else 0
  {
    hide Sum;
    if functional {
      SumsMatch(Counted(true, failed, number), CountedVerdict(failed, number), Ftrs(r.patterns), Verdicts(true, r));
    } else {
      SumIsZero(Counted(functional, failed, number), Ftrs(r.patterns));
    }
  }

  lemma DieRecordsCount(functional: bool, failed: bool, number: u32, r: DieTestResult, program: TestProgram)
    ensures Sum(Counted(functional, failed, number), DieRecords(r, program)) == DieCount(functional, failed, number)(r)
  {
    var f := Counted(functional, failed, number);
    PtrsCount(functional, failed, number, r, program);
    FtrsCount(functional, failed, number, r);
    SumOfOne(f, Bps);
    SumOfOne(f, Eps);
    hide Sum, Ptrs, Ftrs;
    var ptrs, ftrs := Ptrs(r.measurements, program), Ftrs(r.patterns);
    SumSplits(f, [Bps], ptrs);
    SumSplits(f, [Bps] + ptrs, ftrs);
    SumSplits(f, [Bps] + ptrs + ftrs, [Eps]);
  }

  lemma {:induction false} DieSectionCount(functional: bool, failed: bool, number: u32, rs: seq<DieTestResult>,
                                           program: TestProgram)
    ensures Sum(Counted(functional, failed, number), DieSection(rs, program))
         == Sum(DieCount(functional, failed, number), rs)
  {
    if rs != [] {
      hide DieRecords;
      var n := |rs| - 1;
      DieSectionCount(functional, failed, number, rs[..n], program);
      DieRecordsCount(functional, failed, number, rs[n], program);
      SumSplits(Counted(functional, failed, number), DieSection(rs[..n], program), DieRecords(rs[n], program));
    }
  }

  /** Any sum over the stream is the sum over its eight sections. */
  lemma StreamSum(f: Record -> int, program: TestProgram, wafer: WaferMap, results: seq<DieTestResult>,
                  tally: TallyCounts, taxonomy: BinTaxonomy, metadata: RunMetadata)
    ensures Sum(f, RunRecords(program, wafer, results, tally, taxonomy, metadata))
         == Sum(f, Front(program, wafer, metadata)) + Sum(f, DieSection(ByCoord(results), program))
            + Sum(f, SpecTsrs(program.tests, results)) + Sum(f, GroupTsrs(program.patternGroups, results))
            + Sum(f, Counters(wafer, tally.aborted, metadata.finishT))
            + Sum(f, Hbrs(tally.hardBins, taxonomy)) + Sum(f, Sbrs(tally.softBins, taxonomy))
            + Sum(f, Back(wafer, metadata.finishT))
  {
    hide Sum, Front, DieSection, SpecTsrs, GroupTsrs, Counters, Hbrs, Sbrs, Back, ByCoord;
    var a, b := Front(program, wafer, metadata), DieSection(ByCoord(results), program);
    var c, d := SpecTsrs(program.tests, results), GroupTsrs(program.patternGroups, results);
    var e := Counters(wafer, tally.aborted, metadata.finishT);
    var g, h := Hbrs(tally.hardBins, taxonomy), Sbrs(tally.softBins, taxonomy);
    var i := Back(wafer, metadata.finishT);
    SumSplits(f, a, b);
    SumSplits(f, a + b, c);
    SumSplits(f, a + b + c, d);
    SumSplits(f, a + b + c + d, e);
    SumSplits(f, a + b + c + d + e, g);
    SumSplits(f, a + b + c + d + e + g, h);
    SumSplits(f, a + b + c + d + e + g + h, i);
  }

  /** All the PTRs and FTRs of a stream are in its die section. */
  lemma StreamCount(functional: bool, failed: bool, number: u32, program: TestProgram, wafer: WaferMap,
                    results: seq<DieTestResult>, tally: TallyCounts, taxonomy: BinTaxonomy, metadata: RunMetadata)
    ensures Sum(Counted(functional, failed, number), RunRecords(program, wafer, results, tally, taxonomy, metadata))
         == Sum(DieCount(functional, failed, number), results)
  {
    var f := Counted(functional, failed, number);
    var s := ByCoord(results);
    NoResultsOutside(f, program, wafer, results, tally, taxonomy, metadata);
    hide Sum, Front, DieSection, SpecTsrs, GroupTsrs, Counters, Hbrs, Sbrs, Back, ByCoord, RunRecords, Counted;
    StreamSum(f, program, wafer, results, tally, taxonomy, metadata);
    DieSectionCount(functional, failed, number, s, program);
    ByCoordSorts(results, DieCoord(0, 0));
    SumPermutes(DieCount(functional, failed, number), s, results);
  }

  lemma NoResultsOutside(f: Record -> int, program: TestProgram, wafer: WaferMap, results: seq<DieTestResult>,
                         tally: TallyCounts, taxonomy: BinTaxonomy, metadata: RunMetadata)
    requires forall r: Record :: !r.Ptr? && !r.Ftr? ==> f(r) == 0
    ensures Sum(f, Front(program, wafer, metadata)) == 0
    ensures Sum(f, SpecTsrs(program.tests, results)) == 0 && Sum(f, GroupTsrs(program.patternGroups, results)) == 0
    ensures Sum(f, Counters(wafer, tally.aborted, metadata.finishT)) == 0
    ensures Sum(f, Hbrs(tally.hardBins, taxonomy)) == 0 && Sum(f, Sbrs(tally.softBins, taxonomy)) == 0
    ensures Sum(f, Back(wafer, metadata.finishT)) == 0
  {
    hide Sum, LotStrings, Ascii, OutcomesOn, PassesIn, EncodeMap, Summary, Truncated16;
    SumIsZero(f, Front(program, wafer, metadata));
    SumIsZero(f, SpecTsrs(program.tests, results));
    SumIsZero(f, GroupTsrs(program.patternGroups, results));
    SumIsZero(f, Counters(wafer, tally.aborted, metadata.finishT));
    SumIsZero(f, Hbrs(tally.hardBins, taxonomy));
    SumIsZero(f, Sbrs(tally.softBins, taxonomy));
    SumIsZero(f, Back(wafer, metadata.finishT));
  }

  // ---------- synopses ----------

  function Execs(pick: DieTestResult -> Option<bool>): DieTestResult -> int
  {
    (r: DieTestResult) => One(pick(r).Some?)
  }

  function Fails(pick: DieTestResult -> Option<bool>): DieTestResult -> int
  {
    (r: DieTestResult) => One(pick(r) == Some(false))
  }

  lemma {:induction false} SummaryIsSum(rs: seq<DieTestResult>, pick: DieTestResult -> Option<bool>)
    ensures Summary(rs, pick).exec == Sum(Execs(pick), rs) && Summary(rs, pick).fail == Sum(Fails(pick), rs)
  {
    if rs != [] {
      SummaryIsSum(rs[..|rs| - 1], pick);
    }
  }

  predicate NoneOf(failed: bool, number: u32, vs: seq<Verdict>)
  {
    forall i :: 0 <= i < |vs| ==> CountedVerdict(failed, number)(vs[i]) == 0
  }

  lemma {:induction false} CountIsZeroIff(failed: bool, number: u32, vs: seq<Verdict>)
    ensures Sum(CountedVerdict(failed, number), vs) >= 0
    ensures Sum(CountedVerdict(failed, number), vs) == 0 <==> NoneOf(failed, number, vs)
  {
    if vs != [] {
      CountIsZeroIff(failed, number, vs[..|vs| - 1]);
    }
  }

  /** No verdict under the number is a failure unless it is the first one under it. */
  predicate OnlyFirstFails(vs: seq<Verdict>, number: u32)
  {
    forall i, j :: 0 <= i < j < |vs| && vs[i].testNumber == number && vs[j].testNumber == number ==> vs[j].passed
  }

  /** The first verdict speaks for the die exactly when there is no other, or none that fails. */
  lemma {:induction false} FirstSpeaksIff(vs: seq<Verdict>, number: u32)
    ensures var first := FirstVerdict(vs, number);
            var all := Sum(CountedVerdict(false, number), vs);
            var failed := Sum(CountedVerdict(true, number), vs);
            && One(first.Some?) <= all && (One(first.Some?) == all <==> all <= 1)
            && One(first == Some(false)) <= failed
            && (One(first == Some(false)) == failed <==> OnlyFirstFails(vs, number))
  {
    if vs != [] {
      var head, rest := [vs[0]], vs[1..];
      assert vs == head + rest;
      CountIsZeroIff(false, number, rest);
      CountIsZeroIff(true, number, rest);
      SumSplits(CountedVerdict(false, number), head, rest);
      SumSplits(CountedVerdict(true, number), head, rest);
      SumOfOne(CountedVerdict(false, number), vs[0]);
      SumOfOne(CountedVerdict(true, number), vs[0]);
      OnlyFirstFailsStep(vs, number);
      if vs[0].testNumber != number {
        FirstSpeaksIff(rest, number);
      }
    }
  }

  lemma OnlyFirstFailsStep(vs: seq<Verdict>, number: u32)
    requires vs != []
    ensures OnlyFirstFails(vs, number)
       <==> if vs[0].testNumber == number then NoneOf(true, number, vs[1..]) else OnlyFirstFails(vs[1..], number)
  {
    var rest := vs[1..];
    if vs[0].testNumber == number {
      if OnlyFirstFails(vs, number) {
        forall i | 0 <= i < |rest| ensures CountedVerdict(true, number)(rest[i]) == 0 {
          assert rest[i] == vs[i + 1];
        }
      }
      if NoneOf(true, number, rest) {
        forall i, j | 0 <= i < j < |vs| && vs[i].testNumber == number && vs[j].testNumber == number ensures vs[j].passed {
          assert CountedVerdict(true, number)(rest[j - 1]) == 0;
        }
      }
    } else {
      if OnlyFirstFails(vs, number) {
        forall i, j | 0 <= i < j < |rest| && rest[i].testNumber == number && rest[j].testNumber == number
          ensures rest[j].passed
        {
          assert rest[i] == vs[i + 1] && rest[j] == vs[j + 1];
        }
      }
      if OnlyFirstFails(rest, number) {
        forall i, j | 0 <= i < j < |vs| && vs[i].testNumber == number && vs[j].testNumber == number ensures vs[j].passed {
          assert rest[i - 1] == vs[i] && rest[j - 1] == vs[j];
        }
      }
    }
  }

  /**
   EXEC_CNT and FAIL_CNT of a synopsis never exceed the PTRs, or FTRs, in the stream under its number.
   They are equal exactly when no die reports the number twice, and when none of its repeats fails.
   */
  lemma {:induction false} SynopsisAgreesIff(functional: bool, number: u32, program: TestProgram, wafer: WaferMap,
                          results: seq<DieTestResult>, tally: TallyCounts, taxonomy: BinTaxonomy, metadata: RunMetadata)
    ensures var s := Summary(results, Pick(functional, number));
            var stream := RunRecords(program, wafer, results, tally, taxonomy, metadata);
            var executed := Sum(Counted(functional, false, number), stream);
            var failed := Sum(Counted(functional, true, number), stream);
            && s.exec <= executed && s.fail <= failed
            && (s.exec == executed <==> forall r :: r in results ==> DieCount(functional, false, number)(r) <= 1)
            && (s.fail == failed <==> forall r :: r in results ==> OnlyFirstFails(Verdicts(functional, r), number))
  {
    var pick := Pick(functional, number);
    forall i | 0 <= i < |results|
      ensures Execs(pick)(results[i]) <= DieCount(functional, false, number)(results[i])
      ensures Execs(pick)(results[i]) == DieCount(functional, false, number)(results[i])
         <==> DieCount(functional, false, number)(results[i]) <= 1
      ensures Fails(pick)(results[i]) <= DieCount(functional, true, number)(results[i])
      ensures Fails(pick)(results[i]) == DieCount(functional, true, number)(results[i])
         <==> OnlyFirstFails(Verdicts(functional, results[i]), number)
    {
      FirstSpeaksIff(Verdicts(functional, results[i]), number);
    }
    hide Sum, RunRecords, FirstVerdict, Verdicts, OnlyFirstFails, Counted, Pick, Summary, DieCount, Execs, Fails;
    SummaryIsSum(results, pick);
    StreamCount(functional, false, number, program, wafer, results, tally, taxonomy, metadata);
    StreamCount(functional, true, number, program, wafer, results, tally, taxonomy, metadata);
    SumsMeetIff(Execs(pick), DieCount(functional, false, number), results);
    SumsMeetIff(Fails(pick), DieCount(functional, true, number), results);
  }
}
