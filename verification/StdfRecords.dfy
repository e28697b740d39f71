/**
 STDF V4 records: how each is written and parsed. Every modelled record starts with a row of
 mandatory fields; PMR, WRR, TSR, PTR and FTR go on with fields whose presence depends on flags,
 or on whether bytes are left.
 */
module StdfRecords {
  import opened Outcomes
  import opened Bytes
  import opened Utf8
  import opened StdfCodec

  datatype PtrOptional = PtrOptional(
    optFlg: Option<int>, resScal: Option<int>, llmScal: Option<int>, hlmScal: Option<int>,
    loLimit: Option<int>, hiLimit: Option<int>, units: Text)

  datatype FtrOptional = FtrOptional(
    alarmId: Option<Text>, optFlg2: Option<int>, program: Option<Text>, testLabel: Option<Text>)

  datatype Record =
    | Far(cpuType: int, stdfVer: int)
    | Atr(modTimn: int, cmdLine: Text)
    | Mir(setupT: int, startT: int, statBin: int, modeCod: int, rtnCod: int, protCod: int,
          burnDay: int, cmtCnt: int, strings: seq<Text>)
    | Mrr(finishT: int, dispCod: int, usrCod: int, excCod: int, usrDesc: Text, excDesc: Text)
    | Pcr(headNum: int, siteNum: int, partCnt: int, rtstCnt: int, abrtCnt: int, goodCnt: int, funcCnt: int)
    | Hbr(headNum: int, siteNum: int, binNum: int, binCnt: int, binPf: int, binNam: Text)
    | Sbr(headNum: int, siteNum: int, binNum: int, binCnt: int, binPf: int, binNam: Text)
    | Pmr(pinIdx: int, chanTyp: int, chanNam: Text, phyNam: Text, logNam: Text,
          head: Option<int>, site: Option<int>)
    | Wir(headNum: int, siteGrp: int, startT: int, waferId: Text)
    | Wrr(headNum: int, siteGrp: int, finishT: int, partCnt: int, rtstCnt: int, abrtCnt: int,
          goodCnt: int, funcCnt: int, waferId: Text,
          fabwfId: Text, frameId: Text, maskId: Text, usrDesc: Text, excDesc: Text)
    | Wcr(wafrSiz: int, dieHt: int, dieWid: int, wfUnits: int, wfFlat: int,
          centerX: int, centerY: int, posX: int, posY: int)
    | Ptr(testNum: int, headNum: int, siteNum: int, testFlg: int, parmFlg: int, result: int,
          testTxt: Text, alarmId: Text, ptr: PtrOptional)
    | Ftr(testNum: int, headNum: int, siteNum: int, testFlg: int, optFlg: int,
          cyclCnt: int, relVpos: int, reptCnt: int, numFail: int,
          xFailAdj: int, yFailAdj: int, vectOffset: int,
          rtnIcq: int, rtnIlim: int, pgmIcq: int, pgmIlim: int,
          rtnNam: seq<Text>, pgmNam: seq<Text>, ftr: FtrOptional)
    | Tsr(headNum: int, siteNum: int, testTyp: int, testNum: int, execCnt: int, failCnt: int, alarmCnt: int,
          testNam: Text, seqName: Text, testLbl: Text)
    | Gdr(genData: seq<byte>)
    | Dtr(textDat: Text)
    | Bps
    | Eps
    | Unknown(typ: byte, sub: byte, data: seq<byte>)

  datatype RecordType = RecordType(typ: byte, sub: byte)

  function TypeOf(r: Record): RecordType
  {
    match r
    case Far(_, _) => RecordType(0, 10)
    case Atr(_, _) => RecordType(0, 20)
    case Mir(_, _, _, _, _, _, _, _, _) => RecordType(1, 10)
    case Mrr(_, _, _, _, _, _) => RecordType(1, 20)
    case Pcr(_, _, _, _, _, _, _) => RecordType(1, 30)
    case Hbr(_, _, _, _, _, _) => RecordType(1, 40)
    case Sbr(_, _, _, _, _, _) => RecordType(1, 50)
    case Pmr(_, _, _, _, _, _, _) => RecordType(5, 10)
    case Wir(_, _, _, _) => RecordType(2, 10)
    case Wrr(_, _, _, _, _, _, _, _, _, _, _, _, _, _) => RecordType(2, 20)
    case Wcr(_, _, _, _, _, _, _, _, _) => RecordType(2, 30)
    case Ptr(_, _, _, _, _, _, _, _, _) => RecordType(15, 10)
    case Ftr(_, _, _, _, _, _, _, _, _, _, _, _, _, _, _, _, _, _, _) => RecordType(15, 20)
    case Tsr(_, _, _, _, _, _, _, _, _, _) => RecordType(5, 30)
    case Gdr(_) => RecordType(20, 10)
    case Dtr(_) => RecordType(20, 30)
    case Bps => RecordType(20, 15)
    case Eps => RecordType(20, 20)
    case Unknown(typ, sub, _) => RecordType(typ, sub)
  }

  const MIR_STRINGS := 30

  const FTR_KINDS: seq<Kind> := [U4, U1, U1, U1, U1, U4, U4, U4, U4, I2, I2, I2, U2, U2, U2, U2, Sn, Sn]

  /** The mandatory fields of a modelled record type. */
  function Prefix(t: RecordType): Option<seq<Kind>>
  {
    if t == RecordType(0, 10) then Some([U1, U1])
    else if t == RecordType(0, 20) then Some([U4, Cn])
    else if t == RecordType(1, 10) then Some([U4, U4, U1, U1, U1, U1, U2, U1] + seq(MIR_STRINGS, _ => Cn))
    else if t == RecordType(1, 20) then Some([U4, U1, U1, U1, Cn, Cn])
    else if t == RecordType(1, 30) then Some([U1, U1, U4, U4, U4, U4, U4])
    else if t == RecordType(1, 40) then Some([U1, U1, U2, U4, U1, Cn])
    else if t == RecordType(1, 50) then Some([U1, U1, U2, U4, U1, Cn])
    else if t == RecordType(5, 10) then Some([U2, U2, Cn, Cn, Cn])
    else if t == RecordType(2, 10) then Some([U1, U1, U4, Cn])
    else if t == RecordType(2, 20) then Some([U1, U1, U4, U4, U4, U4, U4, U4, Cn])
    else if t == RecordType(2, 30) then Some([R4, R4, R4, U1, U1, I2, I2, U1, U1])
    else if t == RecordType(15, 10) then Some([U4, U1, U1, U1, U1, R4, Cn, Cn])
    else if t == RecordType(15, 20) then
      Some(FTR_KINDS)
    else if t == RecordType(5, 30) then Some([U1, U1, U1, U4, U4, U4, U4])
    else if t == RecordType(20, 10) then Some([Kn])
    else if t == RecordType(20, 30) then Some([Cn])
    else if t == RecordType(20, 15) then Some([])
    else if t == RecordType(20, 20) then Some([])
    else None
  }

  function StrValues(ts: seq<Text>): (vs: seq<Value>)
    ensures |vs| == |ts|
  {
    seq(|ts|, i requires 0 <= i < |ts| => Str(ts[i]))
  }

  /** The values of the mandatory fields, in order. */
  function Row(r: Record): seq<Value>
  {
    match r
    case Far(a, b) => [Num(a), Num(b)]
    case Atr(a, b) => [Num(a), Str(b)]
    case Mir(a, b, c, d, e, f, g, h, ts) =>
      [Num(a), Num(b), Num(c), Num(d), Num(e), Num(f), Num(g), Num(h)] + StrValues(ts)
    case Mrr(a, b, c, d, e, f) => [Num(a), Num(b), Num(c), Num(d), Str(e), Str(f)]
    case Pcr(a, b, c, d, e, f, g) => [Num(a), Num(b), Num(c), Num(d), Num(e), Num(f), Num(g)]
    case Hbr(a, b, c, d, e, f) => [Num(a), Num(b), Num(c), Num(d), Num(e), Str(f)]
    case Sbr(a, b, c, d, e, f) => [Num(a), Num(b), Num(c), Num(d), Num(e), Str(f)]
    case Pmr(a, b, c, d, e, _, _) => [Num(a), Num(b), Str(c), Str(d), Str(e)]
    case Wir(a, b, c, d) => [Num(a), Num(b), Num(c), Str(d)]
    case Wrr(a, b, c, d, e, f, g, h, w, _, _, _, _, _) =>
      [Num(a), Num(b), Num(c), Num(d), Num(e), Num(f), Num(g), Num(h), Str(w)]
    case Wcr(a, b, c, d, e, f, g, h, i) =>
      [Num(a), Num(b), Num(c), Num(d), Num(e), Num(f), Num(g), Num(h), Num(i)]
    case Ptr(a, b, c, d, e, f, g, h, _) =>
      [Num(a), Num(b), Num(c), Num(d), Num(e), Num(f), Str(g), Str(h)]
    case Ftr(a, b, c, d, e, f, g, h, i, j, k, l, m, n, o, p, q, s, _) =>
      [Num(a), Num(b), Num(c), Num(d), Num(e), Num(f), Num(g), Num(h), Num(i), Num(j), Num(k), Num(l),
       Num(m), Num(n), Num(o), Num(p), Strs(q), Strs(s)]
    case Tsr(a, b, c, d, e, f, g, _, _, _) => [Num(a), Num(b), Num(c), Num(d), Num(e), Num(f), Num(g)]
    case Gdr(d) => [Data(d)]
    case Dtr(t) => [Str(t)]
    case _ => []
  }

  // ---------- optional fields ----------

  predicate Flag(flags: int, mask: int)
    requires mask > 0
  {
    flags / mask % 2 == 1
  }

  const OPT_FLAG_PRESENT := 0x10

  function OptValue(o: Option<int>): Option<Value>
  {
    if o.Some? then Some(Num(o.value)) else None
  }

  function OptStr(o: Option<Text>): Option<Value>
  {
    if o.Some? then Some(Str(o.value)) else None
  }

  predicate FitOpt(k: Kind, o: Option<Value>) { o.Some? ==> Fit(k, o.value) }

  /** Write a field if its flags call for it and it has a value. */
  function PutOpt(wanted: bool, k: Kind, o: Option<Value>): seq<byte>
    requires FitOpt(k, o)
  {
    if wanted && o.Some? then Put(k, o.value) else []
  }

  datatype GotOpt = GotOpt(value: Option<Value>, rest: seq<byte>)

  /** Read a field if its flags call for it and bytes are left. */
  function GetOpt(wanted: bool, k: Kind, data: seq<byte>, e: Endian): (r: Result<GotOpt, StdfError>)
    ensures r.Ok? && Numeric(k) && r.value.value.Some? ==> r.value.value.value.Num?
    ensures r.Ok? && k.Nn? && r.value.value.Some? ==> r.value.value.value.Str?
  {
    if wanted && data != [] then
      var got :- Get(k, data, e);
      Ok(GotOpt(Some(got.value), got.rest))
    else Ok(GotOpt(None, data))
  }

  /** Which of RES_SCAL, LLM_SCAL, HLM_SCAL, LO_LIMIT and HI_LIMIT an OPT_FLAG calls for. */
  function PtrWanted(optFlg: Option<int>): (ws: seq<bool>)
    ensures |ws| == 5
  {
    var f := if optFlg.Some? then optFlg.value else 0;
    var has := optFlg.Some?;
    [has && !Flag(f, 0x01), has && !Flag(f, 0x02), has && !Flag(f, 0x04), has && !Flag(f, 0x08), has && !Flag(f, 0x10)]
  }

  const PTR_KINDS: seq<Kind> := [I1, I1, I1, R4, R4]

  function PtrValues(p: PtrOptional): (vs: seq<Option<Value>>)
    ensures |vs| == 5
  {
    [OptValue(p.resScal), OptValue(p.llmScal), OptValue(p.hlmScal), OptValue(p.loLimit), OptValue(p.hiLimit)]
  }

  predicate FitOpts(ks: seq<Kind>, vs: seq<Option<Value>>)
  {
    |ks| == |vs| && forall i | 0 <= i < |ks| :: FitOpt(ks[i], vs[i])
  }

  function PutOpts(ws: seq<bool>, ks: seq<Kind>, vs: seq<Option<Value>>): seq<byte>
    requires |ws| == |ks| && FitOpts(ks, vs)
  {
    if ks == [] then [] else PutOpt(ws[0], ks[0], vs[0]) + PutOpts(ws[1..], ks[1..], vs[1..])
  }

  datatype GotOpts = GotOpts(values: seq<Option<Value>>, rest: seq<byte>)

  function GetOpts(ws: seq<bool>, ks: seq<Kind>, data: seq<byte>, e: Endian): (r: Result<GotOpts, StdfError>)
    requires |ws| == |ks|
    ensures r.Ok? ==> |r.value.values| == |ks|
    ensures r.Ok? ==> forall i | 0 <= i < |ks| :: Numeric(ks[i]) && r.value.values[i].Some? ==> r.value.values[i].value.Num?
  {
    if ks == [] then Ok(GotOpts([], data))
    else
      var first :- GetOpt(ws[0], ks[0], data, e);
      var others :- GetOpts(ws[1..], ks[1..], first.rest, e);
      Ok(GotOpts([first.value] + others.values, others.rest))
  }

  predicate PtrFits(p: PtrOptional)
  {
    FitOpt(U1, OptValue(p.optFlg)) && FitOpts(PTR_KINDS, PtrValues(p)) && ShortText(p.units)
  }

  /** The tail of a PTR: OPT_FLAG, the fields it calls for, and always the units. */
  function PtrTail(p: PtrOptional): seq<byte>
    requires PtrFits(p)
  {
    PutOpt(true, U1, OptValue(p.optFlg))
    + (PutOpts(PtrWanted(p.optFlg), PTR_KINDS, PtrValues(p)) + CnBytes(p.units))
  }

  function AsInt(o: Option<Value>): Option<int>
  {
    if o.Some? && o.value.Num? then Some(o.value.n) else None
  }

  function AsText(o: Option<Value>): Option<Text>
  {
    if o.Some? && o.value.Str? then Some(o.value.text) else None
  }

  /** A string, or the empty one when no byte is left. */
  function GetCnOrEmpty(data: seq<byte>, e: Endian): (r: Result<Got, StdfError>)
    ensures r.Ok? ==> r.value.value.Str?
  {
    if data == [] then Ok(Got(Str([]), [])) else Get(Cn, data, e)
  }

  /** What follows OPT_FLAG in a PTR. */
  function ParsePtrFields(optFlg: Option<int>, data: seq<byte>, e: Endian): (r: Result<PtrOptional, StdfError>)
    ensures r.Ok? ==> r.value.optFlg == optFlg
  {
    var fields :- GetOpts(PtrWanted(optFlg), PTR_KINDS, data, e);
    var units :- GetCnOrEmpty(fields.rest, e);
    var vs := fields.values;
    Ok(PtrOptional(optFlg, AsInt(vs[0]), AsInt(vs[1]), AsInt(vs[2]), AsInt(vs[3]), AsInt(vs[4]), units.value.text))
  }

  function ParsePtrTail(parmFlg: int, data: seq<byte>, e: Endian): Result<PtrOptional, StdfError>
  {
    var opt :- GetOpt(Flag(parmFlg, OPT_FLAG_PRESENT), U1, data, e);
    ParsePtrFields(AsInt(opt.value), opt.rest, e)
  }

  predicate FtrFits(p: FtrOptional)
  {
    && FitOpt(Cn, OptStr(p.alarmId)) && FitOpt(U1, OptValue(p.optFlg2))
    && FitOpt(Nn, OptStr(p.program)) && FitOpt(Nn, OptStr(p.testLabel))
  }

  function Flags2(p: FtrOptional): int
  {
    if p.optFlg2.Some? then p.optFlg2.value else 0
  }

  /** The tail of an FTR: nothing without an alarm id. */
  function FtrTail(p: FtrOptional): seq<byte>
    requires FtrFits(p)
  {
    if p.alarmId.None? then []
    else
      CnBytes(p.alarmId.value)
      + (Put(U1, Num(Flags2(p)))
         + (PutOpt(p.optFlg2.None? || !Flag(Flags2(p), 0x02), Nn, OptStr(p.program))
            + PutOpt(p.optFlg2.None? || !Flag(Flags2(p), 0x04), Nn, OptStr(p.testLabel))))
  }

  function ParseFtrTail(optFlg: int, data: seq<byte>, e: Endian): Result<FtrOptional, StdfError>
  {
    if Flag(optFlg, 0x01) && data != [] then
      var alarm :- Get(Cn, data, e);
      var opt2 :- GetOpt(true, U1, alarm.rest, e);
      var flags := if opt2.value.Some? && opt2.value.value.Num? then opt2.value.value.n else 0;
      var program :- GetOpt(!Flag(flags, 0x02), Nn, opt2.rest, e);
      var testLabel :- GetOpt(!Flag(flags, 0x04), Nn, program.rest, e);
      Ok(FtrOptional(Some(alarm.value.text), Some(flags), AsText(program.value), AsText(testLabel.value)))
    else Ok(FtrOptional(None, None, None, None))
  }

  /** Strings that are always written, and read as empty once the record has ended. */
  function GetTexts(data: seq<byte>, count: nat, e: Endian): (r: Result<seq<Text>, StdfError>)
    ensures r.Ok? ==> |r.value| == count
    decreases count
  {
    if count == 0 then Ok([])
    else
      var first :- GetCnOrEmpty(data, e);
      var others :- GetTexts(first.rest, count - 1, e);
      Ok([first.value.text] + others)
  }

  function PmrTail(head: Option<int>, site: Option<int>): seq<byte>
    requires FitOpt(U1, OptValue(head)) && FitOpt(U1, OptValue(site))
  {
    if head.Some? && site.Some? then Put(U1, Num(head.value)) + Put(U1, Num(site.value)) else []
  }

  datatype HeadSite = HeadSite(head: Option<int>, site: Option<int>)

  function ParsePmrTail(data: seq<byte>, e: Endian): Result<HeadSite, StdfError>
  {
    if data == [] then Ok(HeadSite(None, None))
    else
      var head :- Get(U1, data, e);
      var site :- Get(U1, head.rest, e);
      Ok(HeadSite(Some(head.value.n), Some(site.value.n)))
  }

  // ---------- whole records ----------

  /** The strings at the end of a WRR or a TSR. */
  function TailTexts(r: Record): seq<Text>
  {
    match r
    case Wrr(_, _, _, _, _, _, _, _, _, a, b, c, d, e) => [a, b, c, d, e]
    case Tsr(_, _, _, _, _, _, _, a, b, c) => [a, b, c]
    case _ => []
  }

  predicate TailFits(r: Record)
  {
    match r
    case Pmr(_, _, _, _, _, head, site) => FitOpt(U1, OptValue(head)) && FitOpt(U1, OptValue(site))
    case Ptr(_, _, _, _, _, _, _, _, p) => PtrFits(p)
    case Ftr(_, _, _, _, _, _, _, _, _, _, _, _, _, _, _, _, _, _, p) => FtrFits(p)
    case _ => AllShort(TailTexts(r))
  }

  /** What Rust's field types and the writer's asserts demand. */
  predicate Writable(r: Record)
  {
    r.Unknown? || (AllFit(Prefix(TypeOf(r)).value, Row(r)) && TailFits(r))
  }

  function Tail(r: Record): seq<byte>
    requires TailFits(r)
  {
    match r
    case Pmr(_, _, _, _, _, head, site) => PmrTail(head, site)
    case Ptr(_, _, _, _, _, _, _, _, p) => PtrTail(p)
    case Ftr(_, _, _, _, _, _, _, _, _, _, _, _, _, _, _, _, _, _, p) => FtrTail(p)
    case _ => CnsBytes(TailTexts(r))
  }

  function Body(r: Record): seq<byte>
    requires Writable(r)
  {
    if r.Unknown? then r.data else PutAll(Prefix(TypeOf(r)).value, Row(r)) + Tail(r)
  }

  function N(vs: seq<Value>, i: nat): int
  {
    if i < |vs| && vs[i].Num? then vs[i].n else 0
  }

  function T(vs: seq<Value>, i: nat): Text
  {
    if i < |vs| && vs[i].Str? then vs[i].text else []
  }

  function Ts(vs: seq<Value>, i: nat): seq<Text>
  {
    if i < |vs| && vs[i].Strs? then vs[i].texts else []
  }

  /** The record made of its mandatory values and whatever follows them. */
  function Build(t: RecordType, v: seq<Value>, rest: seq<byte>, e: Endian): Result<Record, StdfError>
    requires Prefix(t).Some?
  {
    if t == RecordType(0, 10) then Ok(Far(N(v, 0), N(v, 1)))
    else if t == RecordType(0, 20) then Ok(Atr(N(v, 0), T(v, 1)))
    else if t == RecordType(1, 10) then
      Ok(Mir(N(v, 0), N(v, 1), N(v, 2), N(v, 3), N(v, 4), N(v, 5), N(v, 6), N(v, 7),
             seq(MIR_STRINGS, i requires 0 <= i => T(v, 8 + i))))
    else if t == RecordType(1, 20) then Ok(Mrr(N(v, 0), N(v, 1), N(v, 2), N(v, 3), T(v, 4), T(v, 5)))
    else if t == RecordType(1, 30) then Ok(Pcr(N(v, 0), N(v, 1), N(v, 2), N(v, 3), N(v, 4), N(v, 5), N(v, 6)))
    else if t == RecordType(1, 40) then Ok(Hbr(N(v, 0), N(v, 1), N(v, 2), N(v, 3), N(v, 4), T(v, 5)))
    else if t == RecordType(1, 50) then Ok(Sbr(N(v, 0), N(v, 1), N(v, 2), N(v, 3), N(v, 4), T(v, 5)))
    else if t == RecordType(5, 10) then
      var hs :- ParsePmrTail(rest, e);
      Ok(Pmr(N(v, 0), N(v, 1), T(v, 2), T(v, 3), T(v, 4), hs.head, hs.site))
    else if t == RecordType(2, 10) then Ok(Wir(N(v, 0), N(v, 1), N(v, 2), T(v, 3)))
    else if t == RecordType(2, 20) then
      var ts :- GetTexts(rest, 5, e);
      Ok(Wrr(N(v, 0), N(v, 1), N(v, 2), N(v, 3), N(v, 4), N(v, 5), N(v, 6), N(v, 7), T(v, 8),
             ts[0], ts[1], ts[2], ts[3], ts[4]))
    else if t == RecordType(2, 30) then
      Ok(Wcr(N(v, 0), N(v, 1), N(v, 2), N(v, 3), N(v, 4), N(v, 5), N(v, 6), N(v, 7), N(v, 8)))
    else if t == RecordType(15, 10) then
      var p :- ParsePtrTail(N(v, 4), rest, e);
      Ok(Ptr(N(v, 0), N(v, 1), N(v, 2), N(v, 3), N(v, 4), N(v, 5), T(v, 6), T(v, 7), p))
    else if t == RecordType(15, 20) then
      var p :- ParseFtrTail(N(v, 4), rest, e);
      Ok(Ftr(N(v, 0), N(v, 1), N(v, 2), N(v, 3), N(v, 4), N(v, 5), N(v, 6), N(v, 7), N(v, 8), N(v, 9), N(v, 10),
             N(v, 11), N(v, 12), N(v, 13), N(v, 14), N(v, 15), Ts(v, 16), Ts(v, 17), p))
    else if t == RecordType(5, 30) then
      var ts :- GetTexts(rest, 3, e);
      Ok(Tsr(N(v, 0), N(v, 1), N(v, 2), N(v, 3), N(v, 4), N(v, 5), N(v, 6), ts[0], ts[1], ts[2]))
    else if t == RecordType(20, 10) then Ok(Gdr(if v != [] && v[0].Data? then v[0].bytes else []))
    else if t == RecordType(20, 30) then Ok(Dtr(T(v, 0)))
    else if t == RecordType(20, 15) then Ok(Bps)
    else Ok(Eps)
  }

  /** `Record::parse`: bytes behind the known fields are dropped. */
  function Parse(t: RecordType, data: seq<byte>, e: Endian): Result<Record, StdfError>
  {
    if Prefix(t).None? then Ok(Unknown(t.typ, t.sub, data))
    else
      var row :- GetAll(Prefix(t).value, data, e);
      Build(t, row.values, row.rest, e)
  }

  // ---------- which records survive ----------

  /** The optional fields of a PTR are there exactly when its flags say so. */
  predicate PtrFlagsMatch(parmFlg: int, p: PtrOptional)
  {
    && (p.optFlg.Some? <==> Flag(parmFlg, OPT_FLAG_PRESENT))
    && forall i | 0 <= i < 5 :: PtrValues(p)[i].Some? <==> PtrWanted(p.optFlg)[i]
  }

  /** The alarm id needs its flag; what follows it needs the alarm id and must not be skipped over. */
  predicate FtrFlagsMatch(optFlg: int, p: FtrOptional)
  {
    if p.alarmId.None? then p.optFlg2.None? && p.program.None? && p.testLabel.None?
    else
      && Flag(optFlg, 0x01) && p.optFlg2.Some?
      && (p.program.Some? ==> !Flag(p.optFlg2.value, 0x02))
      && (p.testLabel.Some? ==> !Flag(p.optFlg2.value, 0x04)
                                && (p.program.Some? || Flag(p.optFlg2.value, 0x02)))
  }

  /** The 16-bit lengths announce the whole names. */
  predicate NamesFit(p: FtrOptional)
  {
    && (p.program.Some? ==> |p.program.value| <= 0xFFFF)
    && (p.testLabel.Some? ==> |p.testLabel.value| <= 0xFFFF)
  }

  /** The records whose optional fields are there when, and only when, their flags say so. */
  predicate Consistent(r: Record)
  {
    match r
    case Unknown(typ, sub, _) => Prefix(RecordType(typ, sub)).None?
    case Pmr(_, _, _, _, _, head, site) => head.Some? <==> site.Some?
    case Ptr(_, _, _, _, parmFlg, _, _, _, p) => PtrFlagsMatch(parmFlg, p)
    case Ftr(_, _, _, _, optFlg, _, _, _, _, _, _, _, _, _, _, _, _, _, p) => FtrFlagsMatch(optFlg, p) && NamesFit(p)
    case _ => true
  }
}
