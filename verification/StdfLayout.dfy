/**
 STDF records byte for byte: every field of every record type as the bytes that stand for it, without
 the tables of kinds and flags that the codec works with.
 */
module StdfLayout {
  import opened Outcomes
  import opened Bytes
  import opened Utf8
  import opened StdfCodec
  import opened StdfRecords
  import opened StdfRoundTrip
  import opened StdfStream

  // ---------- fields ----------

  /** Numbers least significant byte first; negative ones in two's complement. */
  function Byte(n: int): seq<byte> { [n % 256] }
  function Word2(n: int): seq<byte> { [n % 256, n / 256 % 256] }
  function Word4(n: int): seq<byte> { [n % 256, n / 256 % 256, n / 0x1_0000 % 256, n / 0x100_0000 % 256] }

  function Text1(t: Text): seq<byte> { Byte(|t|) + t }
  function Text2(t: Text): seq<byte> { Word2(|t|) + t }

  function Joined(pieces: seq<seq<byte>>): seq<byte>
  {
    if pieces == [] then [] else pieces[0] + Joined(pieces[1..])
  }

  function Texts1(ts: seq<Text>): (pieces: seq<seq<byte>>)
    ensures |pieces| == |ts|
  {
    seq(|ts|, i requires 0 <= i < |ts| => Text1(ts[i]))
  }

  function List2(ts: seq<Text>): seq<byte> { Word2(|ts|) + Joined(Texts1(ts)) }

  function When(there: bool, bytes: seq<byte>): seq<byte> { if there then bytes else [] }

  function Or0(o: Option<int>): int { if o.Some? then o.value else 0 }

  /** A bit of a flag byte is clear. */
  predicate Clear(flags: int, bit: int)
    requires bit > 0
  {
    flags / bit % 2 == 0
  }

  // ---------- records ----------

  /** OPT_FLAG, the fields whose bits in it are clear and that have a value, and the units. */
  function PtrPieces(p: PtrOptional): seq<seq<byte>>
  {
    var there, f := p.optFlg.Some?, Or0(p.optFlg);
    [When(there, Byte(f)),
     When(there && Clear(f, 0x01) && p.resScal.Some?, Byte(Or0(p.resScal))),
     When(there && Clear(f, 0x02) && p.llmScal.Some?, Byte(Or0(p.llmScal))),
     When(there && Clear(f, 0x04) && p.hlmScal.Some?, Byte(Or0(p.hlmScal))),
     When(there && Clear(f, 0x08) && p.loLimit.Some?, Word4(Or0(p.loLimit))),
     When(there && Clear(f, 0x10) && p.hiLimit.Some?, Word4(Or0(p.hiLimit))),
     Text1(p.units)]
  }

  /** Nothing without an alarm id; else the second flags, and the names whose bits in them are clear. */
  function FtrPieces(p: FtrOptional): seq<seq<byte>>
  {
    if p.alarmId.None? then []
    else
      var f := Or0(p.optFlg2);
      [Text1(p.alarmId.value), Byte(f),
       if Clear(f, 0x02) && p.program.Some? then Text2(p.program.value) else [],
       if Clear(f, 0x04) && p.testLabel.Some? then Text2(p.testLabel.value) else []]
  }

  function MirPieces(r: Record): seq<seq<byte>>
    requires r.Mir?
  {
    [Word4(r.setupT), Word4(r.startT), Byte(r.statBin), Byte(r.modeCod), Byte(r.rtnCod), Byte(r.protCod),
     Word2(r.burnDay), Byte(r.cmtCnt)]
    + Texts1(r.strings)
  }

  function WrrPieces(r: Record): seq<seq<byte>>
    requires r.Wrr?
  {
    [Byte(r.headNum), Byte(r.siteGrp), Word4(r.finishT), Word4(r.partCnt), Word4(r.rtstCnt), Word4(r.abrtCnt),
     Word4(r.goodCnt), Word4(r.funcCnt), Text1(r.waferId)]
    + [Text1(r.fabwfId), Text1(r.frameId), Text1(r.maskId), Text1(r.usrDesc), Text1(r.excDesc)]
  }

  function WcrPieces(r: Record): seq<seq<byte>>
    requires r.Wcr?
  {
    [Word4(r.wafrSiz), Word4(r.dieHt), Word4(r.dieWid), Byte(r.wfUnits), Byte(r.wfFlat), Word2(r.centerX),
     Word2(r.centerY), Byte(r.posX), Byte(r.posY)]
  }

  function FtrHeadPieces(r: Record): (ps: seq<seq<byte>>)
    requires r.Ftr?
    ensures |ps| == 9
  {
    [Word4(r.testNum), Byte(r.headNum), Byte(r.siteNum), Byte(r.testFlg), Byte(r.optFlg), Word4(r.cyclCnt),
     Word4(r.relVpos), Word4(r.reptCnt), Word4(r.numFail)]
  }

  function FtrMorePieces(r: Record): (ps: seq<seq<byte>>)
    requires r.Ftr?
    ensures |ps| == 9
  {
    [Word2(r.xFailAdj), Word2(r.yFailAdj), Word2(r.vectOffset), Word2(r.rtnIcq), Word2(r.rtnIlim), Word2(r.pgmIcq),
     Word2(r.pgmIlim), List2(r.rtnNam), List2(r.pgmNam)]
  }

  /** The fields of a record, in order. */
  function Pieces(r: Record): seq<seq<byte>>
  {
    match r
    case Far(cpu, ver) => [Byte(cpu), Byte(ver)]
    case Atr(time, line) => [Word4(time), Text1(line)]
    case Mir(_, _, _, _, _, _, _, _, _) => MirPieces(r)
    case Mrr(finish, disp, usr, exc, usrDesc, excDesc) =>
      [Word4(finish), Byte(disp), Byte(usr), Byte(exc), Text1(usrDesc), Text1(excDesc)]
    case Pcr(head, site, part, rtst, abrt, good, func) =>
      [Byte(head), Byte(site), Word4(part), Word4(rtst), Word4(abrt), Word4(good), Word4(func)]
    case Hbr(head, site, num, cnt, pf, nam) => [Byte(head), Byte(site), Word2(num), Word4(cnt), Byte(pf), Text1(nam)]
    case Sbr(head, site, num, cnt, pf, nam) => [Byte(head), Byte(site), Word2(num), Word4(cnt), Byte(pf), Text1(nam)]
    case Pmr(idx, typ, chan, phy, log, head, site) =>
      [Word2(idx), Word2(typ), Text1(chan), Text1(phy), Text1(log)]
      + [When(head.Some? && site.Some?, Byte(Or0(head)) + Byte(Or0(site)))]
    case Wir(head, grp, start, id) => [Byte(head), Byte(grp), Word4(start), Text1(id)]
    case Wrr(_, _, _, _, _, _, _, _, _, _, _, _, _, _) => WrrPieces(r)
    case Wcr(_, _, _, _, _, _, _, _, _) => WcrPieces(r)
    case Ptr(num, head, site, test, parm, result, txt, alarm, p) =>
      [Word4(num), Byte(head), Byte(site), Byte(test), Byte(parm), Word4(result), Text1(txt), Text1(alarm)] + PtrPieces(p)
    case Ftr(_, _, _, _, _, _, _, _, _, _, _, _, _, _, _, _, _, _, p) =>
      FtrHeadPieces(r) + FtrMorePieces(r) + FtrPieces(p)
    case Tsr(head, site, typ, num, exec, fail, alarm, nam, sq, lbl) =>
      [Byte(head), Byte(site), Byte(typ), Word4(num), Word4(exec), Word4(fail), Word4(alarm)]
      + [Text1(nam), Text1(sq), Text1(lbl)]
    case Gdr(data) => [Word2(|data|) + data]
    case Dtr(text) => [Text1(text)]
    case Bps => []
    case Eps => []
    case Unknown(_, _, data) => [data]
  }

  /** The type and subtype of every modelled record. */
  function TypeBytes(r: Record): seq<byte>
  {
    match r
    case Far(_, _) => [0, 10]
    case Atr(_, _) => [0, 20]
    case Mir(_, _, _, _, _, _, _, _, _) => [1, 10]
    case Mrr(_, _, _, _, _, _) => [1, 20]
    case Pcr(_, _, _, _, _, _, _) => [1, 30]
    case Hbr(_, _, _, _, _, _) => [1, 40]
    case Sbr(_, _, _, _, _, _) => [1, 50]
    case Wir(_, _, _, _) => [2, 10]
    case Wrr(_, _, _, _, _, _, _, _, _, _, _, _, _, _) => [2, 20]
    case Wcr(_, _, _, _, _, _, _, _, _) => [2, 30]
    case Pmr(_, _, _, _, _, _, _) => [5, 10]
    case Tsr(_, _, _, _, _, _, _, _, _, _) => [5, 30]
    case Ptr(_, _, _, _, _, _, _, _, _) => [15, 10]
    case Ftr(_, _, _, _, _, _, _, _, _, _, _, _, _, _, _, _, _, _, _) => [15, 20]
    case Gdr(_) => [20, 10]
    case Bps => [20, 15]
    case Eps => [20, 20]
    case Dtr(_) => [20, 30]
    case Unknown(typ, sub, _) => [typ, sub]
  }

  // ---------- the proof: fields ----------

  lemma {:induction false} JoinedSplits(a: seq<seq<byte>>, b: seq<seq<byte>>)
    ensures Joined(a + b) == Joined(a) + Joined(b)
  {
    if a == [] {
      assert a + b == b;
    } else {
      assert (a + b)[0] == a[0] && (a + b)[1..] == a[1..] + b;
      JoinedSplits(a[1..], b);
      Associates(a[0], Joined(a[1..]), Joined(b));
    }
  }

  lemma JoinedOne(piece: seq<byte>)
    ensures Joined([piece]) == piece && Joined([]) == []
  {
    assert [piece][1..] == [];
    assert piece + [] == piece;
  }

  lemma LittleDigits(n: nat)
    ensures LittleEndian(n, 1) == Byte(n) && LittleEndian(n, 2) == Word2(n) && LittleEndian(n, 4) == Word4(n)
  {
    assert LittleEndian(n, 1) == [n % 256] + LittleEndian(n / 256, 0);
    assert LittleEndian(n / 256, 1) == [n / 256 % 256] + LittleEndian(n / 256 / 256, 0);
    assert LittleEndian(n / 0x100_0000, 1) == [n / 0x100_0000 % 256] + LittleEndian(n / 0x100_0000 / 256, 0);
    assert n / 256 / 256 == n / 0x1_0000 && n / 0x1_0000 / 256 == n / 0x100_0000;
    assert LittleEndian(n / 0x1_0000, 2) == [n / 0x1_0000 % 256] + LittleEndian(n / 0x100_0000, 1);
    assert LittleEndian(n / 256, 3) == [n / 256 % 256] + LittleEndian(n / 0x1_0000, 2);
  }

  lemma SignedDigits(v: int)
    ensures -0x80 <= v < 0 ==> Byte(v + 0x100) == Byte(v)
    ensures -0x8000 <= v < 0 ==> Word2(v + 0x1_0000) == Word2(v)
  {
  }

  /** A field of a kind, as its bytes. */
  function Piece(k: Kind, v: Value): seq<byte>
    requires HasShape(k, v)
  {
    match k
    case U1 | I1 => Byte(v.n)
    case U2 | I2 => Word2(v.n)
    case U4 | R4 => Word4(v.n)
    case Cn => Text1(v.text)
    case Nn => Text2(v.text)
    case Kn => Word2(|v.bytes|) + v.bytes
    case Sn => List2(v.texts)
  }

  lemma FitHasShape(k: Kind, v: Value)
    requires Fit(k, v)
    ensures HasShape(k, v)
  {
  }

  lemma {:induction false} CnsAreTexts(ts: seq<Text>)
    requires AllShort(ts)
    ensures CnsBytes(ts) == Joined(Texts1(ts))
  {
    hide ValidText;
    if ts != [] {
      CnsAreTexts(ts[1..]);
      assert Texts1(ts)[1..] == Texts1(ts[1..]);
    }
  }

  lemma FieldIsPiece(k: Kind, v: Value)
    requires Fit(k, v)
    ensures HasShape(k, v) && Put(k, v) == Piece(k, v)
  {
    SmallPowers();
    hide ValidText, LittleEndian;
    if Numeric(k) {
      LittleDigits(Bits(k, v));
      SignedDigits(v.n);
    } else if k.Nn? {
      LittleDigits(|v.text| % 0x1_0000);
      LowWord(|v.text|);
    } else if k.Kn? {
      LittleDigits(|v.bytes|);
    } else if k.Sn? {
      LittleDigits(|v.texts|);
      CnsAreTexts(v.texts);
    }
  }

  lemma LowWord(n: nat)
    ensures Word2(n % 0x1_0000) == Word2(n)
  {
    var q, m := n / 0x1_0000, n % 0x1_0000;
    assert n == q * 0x1_0000 + m;
    assert n / 256 == q * 256 + m / 256;
  }

  // ---------- the proof: rows ----------

  function RowPieces(ks: seq<Kind>, vs: seq<Value>): (ps: seq<seq<byte>>)
    requires |ks| == |vs| && forall i :: 0 <= i < |ks| ==> HasShape(ks[i], vs[i])
    ensures |ps| == |ks|
  {
    seq(|ks|, i requires 0 <= i < |ks| => Piece(ks[i], vs[i]))
  }

  lemma {:induction false} RowIsJoined(ks: seq<Kind>, vs: seq<Value>)
    requires AllFit(ks, vs)
    ensures forall i :: 0 <= i < |ks| ==> HasShape(ks[i], vs[i])
    ensures PutAll(ks, vs) == Joined(RowPieces(ks, vs))
  {
    hide Fit, Put, Piece, HasShape;
    if ks != [] {
      FieldIsPiece(ks[0], vs[0]);
      RowIsJoined(ks[1..], vs[1..]);
      forall i | 0 <= i < |ks| ensures HasShape(ks[i], vs[i]) {
        assert i > 0 ==> ks[i] == ks[1..][i - 1] && vs[i] == vs[1..][i - 1];
      }
      assert RowPieces(ks, vs)[1..] == RowPieces(ks[1..], vs[1..]);
    }
  }

  /** The pieces of a record behind its mandatory fields. */
  function TailPieces(r: Record): seq<seq<byte>>
  {
    match r
    case Pmr(_, _, _, _, _, head, site) => [When(head.Some? && site.Some?, Byte(Or0(head)) + Byte(Or0(site)))]
    case Ptr(_, _, _, _, _, _, _, _, p) => PtrPieces(p)
    case Ftr(_, _, _, _, _, _, _, _, _, _, _, _, _, _, _, _, _, _, p) => FtrPieces(p)
    case _ => Texts1(TailTexts(r))
  }

  predicate RowsUp(r: Record, ks: seq<Kind>)
  {
    var vs := Row(r);
    && |ks| == |vs| && (forall i :: 0 <= i < |vs| ==> HasShape(ks[i], vs[i]))
    && Pieces(r) == RowPieces(ks, vs) + TailPieces(r)
  }

  lemma AllHaveShape(ks: seq<Kind>, vs: seq<Value>)
    requires AllFit(ks, vs)
    ensures forall i :: 0 <= i < |vs| ==> HasShape(ks[i], vs[i])
  {
    hide Fit;
    forall i | 0 <= i < |vs| ensures HasShape(ks[i], vs[i]) {
      FitHasShape(ks[i], vs[i]);
    }
  }

  lemma FarRowsUp(r: Record)
    requires r.Far? && AllFit([U1, U1], Row(r))
    ensures RowsUp(r, [U1, U1])
  {
    AllHaveShape([U1, U1], Row(r));
    hide Fit, Word4, Word2, Byte, Text1, List2, PtrPieces, FtrPieces, StrValues;
  }

  lemma AtrRowsUp(r: Record)
    requires r.Atr? && AllFit([U4, Cn], Row(r))
    ensures RowsUp(r, [U4, Cn])
  {
    AllHaveShape([U4, Cn], Row(r));
    hide Fit, Word4, Word2, Byte, Text1, List2, PtrPieces, FtrPieces, StrValues;
  }

  lemma MrrRowsUp(r: Record)
    requires r.Mrr? && AllFit([U4, U1, U1, U1, Cn, Cn], Row(r))
    ensures RowsUp(r, [U4, U1, U1, U1, Cn, Cn])
  {
    AllHaveShape([U4, U1, U1, U1, Cn, Cn], Row(r));
    hide Fit, Word4, Word2, Byte, Text1, List2, PtrPieces, FtrPieces, StrValues;
  }

  lemma PcrRowsUp(r: Record)
    requires r.Pcr? && AllFit([U1, U1, U4, U4, U4, U4, U4], Row(r))
    ensures RowsUp(r, [U1, U1, U4, U4, U4, U4, U4])
  {
    AllHaveShape([U1, U1, U4, U4, U4, U4, U4], Row(r));
    hide Fit, Word4, Word2, Byte, Text1, List2, PtrPieces, FtrPieces, StrValues;
  }

  lemma HbrRowsUp(r: Record)
    requires r.Hbr? && AllFit([U1, U1, U2, U4, U1, Cn], Row(r))
    ensures RowsUp(r, [U1, U1, U2, U4, U1, Cn])
  {
    AllHaveShape([U1, U1, U2, U4, U1, Cn], Row(r));
    hide Fit, Word4, Word2, Byte, Text1, List2, PtrPieces, FtrPieces, StrValues;
  }

  lemma SbrRowsUp(r: Record)
    requires r.Sbr? && AllFit([U1, U1, U2, U4, U1, Cn], Row(r))
    ensures RowsUp(r, [U1, U1, U2, U4, U1, Cn])
  {
    AllHaveShape([U1, U1, U2, U4, U1, Cn], Row(r));
    hide Fit, Word4, Word2, Byte, Text1, List2, PtrPieces, FtrPieces, StrValues;
  }

  lemma PmrRowsUp(r: Record)
    requires r.Pmr? && AllFit([U2, U2, Cn, Cn, Cn], Row(r))
    ensures RowsUp(r, [U2, U2, Cn, Cn, Cn])
  {
    AllHaveShape([U2, U2, Cn, Cn, Cn], Row(r));
    hide Fit, Word4, Word2, Byte, Text1, List2, PtrPieces, FtrPieces, StrValues;
  }

  lemma WirRowsUp(r: Record)
    requires r.Wir? && AllFit([U1, U1, U4, Cn], Row(r))
    ensures RowsUp(r, [U1, U1, U4, Cn])
  {
    AllHaveShape([U1, U1, U4, Cn], Row(r));
    hide Fit, Word4, Word2, Byte, Text1, List2, PtrPieces, FtrPieces, StrValues;
  }

  lemma WrrRowsUp(r: Record)
    requires r.Wrr? && AllFit([U1, U1, U4, U4, U4, U4, U4, U4, Cn], Row(r))
    ensures RowsUp(r, [U1, U1, U4, U4, U4, U4, U4, U4, Cn])
  {
    AllHaveShape([U1, U1, U4, U4, U4, U4, U4, U4, Cn], Row(r));
    hide Fit, Word4, Word2, Byte, Text1, List2, PtrPieces, FtrPieces, StrValues;
  }

  lemma WcrRowsUp(r: Record)
    requires r.Wcr? && AllFit([R4, R4, R4, U1, U1, I2, I2, U1, U1], Row(r))
    ensures RowsUp(r, [R4, R4, R4, U1, U1, I2, I2, U1, U1])
  {
    AllHaveShape([R4, R4, R4, U1, U1, I2, I2, U1, U1], Row(r));
    hide Fit, Word4, Word2, Byte, Text1, List2, PtrPieces, FtrPieces, StrValues;
  }

  lemma PtrRowsUp(r: Record)
    requires r.Ptr? && AllFit([U4, U1, U1, U1, U1, R4, Cn, Cn], Row(r))
    ensures RowsUp(r, [U4, U1, U1, U1, U1, R4, Cn, Cn])
  {
    AllHaveShape([U4, U1, U1, U1, U1, R4, Cn, Cn], Row(r));
    hide Fit, Word4, Word2, Byte, Text1, List2, PtrPieces, FtrPieces, StrValues;
  }

  lemma TsrRowsUp(r: Record)
    requires r.Tsr? && AllFit([U1, U1, U1, U4, U4, U4, U4], Row(r))
    ensures RowsUp(r, [U1, U1, U1, U4, U4, U4, U4])
  {
    AllHaveShape([U1, U1, U1, U4, U4, U4, U4], Row(r));
    hide Fit, Word4, Word2, Byte, Text1, List2, PtrPieces, FtrPieces, StrValues;
  }

  lemma GdrRowsUp(r: Record)
    requires r.Gdr? && AllFit([Kn], Row(r))
    ensures RowsUp(r, [Kn])
  {
    AllHaveShape([Kn], Row(r));
    hide Fit, Word4, Word2, Byte, Text1, List2, PtrPieces, FtrPieces, StrValues;
  }

  lemma DtrRowsUp(r: Record)
    requires r.Dtr? && AllFit([Cn], Row(r))
    ensures RowsUp(r, [Cn])
  {
    AllHaveShape([Cn], Row(r));
    hide Fit, Word4, Word2, Byte, Text1, List2, PtrPieces, FtrPieces, StrValues;
  }

  lemma EmptyRowsUp(r: Record)
    requires (r.Bps? || r.Eps?) && AllFit([], Row(r))
    ensures RowsUp(r, [])
  {
    AllHaveShape([], Row(r));
    hide Fit, Word4, Word2, Byte, Text1, List2, PtrPieces, FtrPieces, StrValues;
  }

  lemma MirRowsUp(r: Record)
    requires r.Mir? && AllFit([U4, U4, U1, U1, U1, U1, U2, U1] + seq(MIR_STRINGS, _ => Cn), Row(r))
    ensures RowsUp(r, [U4, U4, U1, U1, U1, U1, U2, U1] + seq(MIR_STRINGS, _ => Cn))
  {
    var ks, vs := [U4, U4, U1, U1, U1, U1, U2, U1] + seq(MIR_STRINGS, _ => Cn), Row(r);
    AllHaveShape(ks, vs);
    hide Fit, Word4, Word2, Byte, Text1, List2;
    assert forall i :: 8 <= i < |vs| ==> ks[i] == Cn && vs[i] == Str(r.strings[i - 8]);
  }

  lemma FtrRowsUp(r: Record)
    requires r.Ftr? && AllFit(FTR_KINDS, Row(r))
    ensures RowsUp(r, FTR_KINDS)
  {
    AllHaveShape(FTR_KINDS, Row(r));
    hide Fit, Word4, Word2, Byte, Text1, List2, FtrPieces;
    FtrHeadRow(r);
    FtrMoreRow(r);
    hide FtrHeadPieces, FtrMorePieces, Row, Piece, HasShape;
  }

  lemma FtrHeadRow(r: Record)
    requires r.Ftr? && |Row(r)| == 18 && forall i :: 0 <= i < 18 ==> HasShape(FTR_KINDS[i], Row(r)[i])
    ensures RowPieces(FTR_KINDS, Row(r))[..9] == FtrHeadPieces(r)
  {
    hide Word4, Word2, Byte, Text1, List2;
  }

  lemma FtrMoreRow(r: Record)
    requires r.Ftr? && |Row(r)| == 18 && forall i :: 0 <= i < 18 ==> HasShape(FTR_KINDS[i], Row(r)[i])
    ensures RowPieces(FTR_KINDS, Row(r))[9..] == FtrMorePieces(r)
  {
    hide Word4, Word2, Byte, Text1, List2;
  }

  // ---------- the proof: optional fields ----------

  function OptPiece(wanted: bool, k: Kind, o: Option<Value>): seq<byte>
    requires FitOpt(k, o)
  {
    if wanted && o.Some? then Put(k, o.value) else []
  }

  lemma {:induction false} OptsAreJoined(ws: seq<bool>, ks: seq<Kind>, vs: seq<Option<Value>>, ps: seq<seq<byte>>)
    requires |ws| == |ks| == |ps| && FitOpts(ks, vs)
    requires forall i :: 0 <= i < |ks| ==> ps[i] == PutOpt(ws[i], ks[i], vs[i])
    ensures PutOpts(ws, ks, vs) == Joined(ps)
  {
    hide PutOpt, FitOpt;
    if ks != [] {
      OptsAreJoined(ws[1..], ks[1..], vs[1..], ps[1..]);
    }
  }

  /** A number of `w` bytes that is written when the bit is clear. */
  lemma NumberPiece(wanted: bool, k: Kind, o: Option<int>)
    requires (k.U1? || k.I1? || k.R4?) && FitOpt(k, OptValue(o))
    ensures PutOpt(wanted, k, OptValue(o)) == When(wanted && o.Some?, if k.R4? then Word4(Or0(o)) else Byte(Or0(o)))
  {
    if o.Some? {
      hide Put, Fit, Word4, Byte;
      FieldIsPiece(k, Num(o.value));
    }
  }

  lemma PtrScale(p: PtrOptional, i: nat)
    requires PtrFits(p) && i < 3
    ensures FitOpt(PTR_KINDS[i], PtrValues(p)[i])
    ensures PtrPieces(p)[1 + i] == PutOpt(PtrWanted(p.optFlg)[i], PTR_KINDS[i], PtrValues(p)[i])
  {
    assert FitOpt(PTR_KINDS[i], PtrValues(p)[i]);
    hide PutOpt, FitOpt, FitOpts, Word4, Byte;
    NumberPiece(PtrWanted(p.optFlg)[i], I1, if i == 0 then p.resScal else if i == 1 then p.llmScal else p.hlmScal);
  }

  lemma PtrLimit(p: PtrOptional, i: nat)
    requires PtrFits(p) && 3 <= i < 5
    ensures FitOpt(PTR_KINDS[i], PtrValues(p)[i])
    ensures PtrPieces(p)[1 + i] == PutOpt(PtrWanted(p.optFlg)[i], PTR_KINDS[i], PtrValues(p)[i])
  {
    assert FitOpt(PTR_KINDS[i], PtrValues(p)[i]);
    hide PutOpt, FitOpt, FitOpts, Word4, Byte;
    NumberPiece(PtrWanted(p.optFlg)[i], R4, if i == 3 then p.loLimit else p.hiLimit);
  }

  lemma PtrNumbersAreJoined(p: PtrOptional)
    requires PtrFits(p)
    ensures |PtrPieces(p)| == 7
    ensures PutOpts(PtrWanted(p.optFlg), PTR_KINDS, PtrValues(p)) == Joined(PtrPieces(p)[1..6])
  {
    assert |PtrPieces(p)| == 7;
    hide PutOpt, FitOpt, PtrPieces, PtrWanted, PtrValues, Joined;
    var ws, vs, ps := PtrWanted(p.optFlg), PtrValues(p), PtrPieces(p)[1..6];
    forall i | 0 <= i < 5 ensures ps[i] == PutOpt(ws[i], PTR_KINDS[i], vs[i]) {
      if i < 3 {
        PtrScale(p, i);
      } else {
        PtrLimit(p, i);
      }
    }
    OptsAreJoined(ws, PTR_KINDS, vs, ps);
  }

  lemma PtrTailIsJoined(p: PtrOptional)
    requires PtrFits(p)
    ensures PtrTail(p) == Joined(PtrPieces(p))
  {
    PtrNumbersAreJoined(p);
    NumberPiece(true, U1, p.optFlg);
    var ps := PtrPieces(p);
    hide PutOpt, PutOpts, Fit, Joined, PtrWanted, PtrValues, PtrPieces;
    assert ps == [ps[0]] + (ps[1..6] + [ps[6]]);
    JoinedSplits([ps[0]], ps[1..6] + [ps[6]]);
    JoinedSplits(ps[1..6], [ps[6]]);
    JoinedOne(ps[0]);
    JoinedOne(ps[6]);
    assert ps[0] == PutOpt(true, U1, OptValue(p.optFlg)) && ps[6] == CnBytes(p.units) by { PtrEnds(p); }
  }

  lemma PtrEnds(p: PtrOptional)
    requires PtrFits(p)
    ensures PtrPieces(p)[0] == PutOpt(true, U1, OptValue(p.optFlg)) && PtrPieces(p)[6] == CnBytes(p.units)
  {
    NumberPiece(true, U1, p.optFlg);
    hide PutOpt, ValidText;
  }

  lemma NamePiece(wanted: bool, o: Option<Text>)
    requires FitOpt(Nn, OptStr(o))
    ensures PutOpt(wanted, Nn, OptStr(o)) == if wanted && o.Some? then Text2(o.value) else []
  {
    if o.Some? {
      hide Put, Fit, Text2;
      FieldIsPiece(Nn, Str(o.value));
    }
  }

  lemma FourJoined(a: seq<byte>, b: seq<byte>, c: seq<byte>, d: seq<byte>)
    ensures Joined([a, b, c, d]) == a + (b + (c + d))
  {
    hide Joined;
    assert [a, b, c, d] == [a] + ([b] + ([c] + [d]));
    JoinedSplits([a], [b] + ([c] + [d]));
    JoinedSplits([b], [c] + [d]);
    JoinedSplits([c], [d]);
    JoinedOne(a);
    JoinedOne(b);
    JoinedOne(c);
    JoinedOne(d);
  }

  lemma FtrTailIsJoined(p: FtrOptional)
    requires FtrFits(p)
    ensures FtrTail(p) == Joined(FtrPieces(p))
  {
    if p.alarmId.Some? {
      var f := Flags2(p);
      SmallPowers();
      assert Fit(U1, Num(f));
      var program := PutOpt(p.optFlg2.None? || !Flag(f, 0x02), Nn, OptStr(p.program));
      var named := PutOpt(p.optFlg2.None? || !Flag(f, 0x04), Nn, OptStr(p.testLabel));
      assert FtrTail(p) == CnBytes(p.alarmId.value) + (Put(U1, Num(f)) + (program + named));
      hide Put, PutOpt, Fit, Text2, Byte, Joined, FtrTail;
      FieldIsPiece(U1, Num(f));
      NamePiece(p.optFlg2.None? || !Flag(f, 0x02), p.program);
      NamePiece(p.optFlg2.None? || !Flag(f, 0x04), p.testLabel);
      FtrPiecesAre(p, Text1(p.alarmId.value), Put(U1, Num(f)), program, named);
      AlarmIsText(p.alarmId.value);
      FourJoined(Text1(p.alarmId.value), Put(U1, Num(f)), program, named);
    }
  }

  lemma AlarmIsText(t: Text)
    requires |t| <= 255
    ensures CnBytes(t) == Text1(t)
  {
  }

  lemma FtrPiecesAre(p: FtrOptional, a: seq<byte>, b: seq<byte>, c: seq<byte>, d: seq<byte>)
    requires p.alarmId.Some? && a == Text1(p.alarmId.value) && b == Byte(Flags2(p))
    requires c == if (p.optFlg2.None? || !Flag(Flags2(p), 0x02)) && p.program.Some? then Text2(p.program.value) else []
    requires d == if (p.optFlg2.None? || !Flag(Flags2(p), 0x04)) && p.testLabel.Some? then Text2(p.testLabel.value) else []
    ensures FtrPieces(p) == [a, b, c, d]
  {
    hide Text1, Text2, Byte;
  }

  lemma TailIsJoined(r: Record)
    requires TailFits(r)
    ensures Tail(r) == Joined(TailPieces(r))
  {
    if r.Ptr? {
      hide PtrTail, PtrFits, Joined, PtrPieces;
      PtrTailIsJoined(r.ptr);
    } else if r.Ftr? {
      hide FtrTail, FtrFits, Joined, FtrPieces;
      FtrTailIsJoined(r.ftr);
    } else if r.Pmr? {
      NumberPiece(true, U1, r.head);
      NumberPiece(true, U1, r.site);
      hide Put, Fit, Joined, Byte;
      JoinedOne(When(r.head.Some? && r.site.Some?, Byte(Or0(r.head)) + Byte(Or0(r.site))));
    } else {
      hide AllShort, CnsBytes, Joined;
      CnsAreTexts(TailTexts(r));
    }
  }

  // ---------- whole records ----------

  lemma SmallRows(r: Record)
    requires r.Far? || r.Atr? || r.Gdr? || r.Dtr? || r.Bps? || r.Eps?
    requires Prefix(TypeOf(r)).Some? && AllFit(Prefix(TypeOf(r)).value, Row(r))
    ensures RowsUp(r, Prefix(TypeOf(r)).value)
  {
    hide RowsUp, AllFit, Row;
    if r.Far? {
      FarRowsUp(r);
    } else if r.Atr? {
      AtrRowsUp(r);
    } else if r.Gdr? {
      GdrRowsUp(r);
    } else if r.Dtr? {
      DtrRowsUp(r);
    } else {
      EmptyRowsUp(r);
    }
  }

  lemma LotRows(r: Record)
    requires r.Mir? || r.Mrr? || r.Pcr? || r.Hbr? || r.Sbr?
    requires Prefix(TypeOf(r)).Some? && AllFit(Prefix(TypeOf(r)).value, Row(r))
    ensures RowsUp(r, Prefix(TypeOf(r)).value)
  {
    hide RowsUp, AllFit, Row;
    if r.Mir? {
      MirRowsUp(r);
    } else if r.Mrr? {
      MrrRowsUp(r);
    } else if r.Pcr? {
      PcrRowsUp(r);
    } else if r.Hbr? {
      HbrRowsUp(r);
    } else {
      SbrRowsUp(r);
    }
  }

  lemma OtherRows(r: Record)
    requires r.Pmr? || r.Tsr? || r.Wir? || r.Wrr? || r.Wcr? || r.Ptr? || r.Ftr?
    requires Prefix(TypeOf(r)).Some? && AllFit(Prefix(TypeOf(r)).value, Row(r))
    ensures RowsUp(r, Prefix(TypeOf(r)).value)
  {
    hide RowsUp, AllFit, Row;
    if r.Pmr? {
      PmrRowsUp(r);
    } else if r.Tsr? {
      TsrRowsUp(r);
    } else if r.Wir? {
      WirRowsUp(r);
    } else if r.Wrr? {
      WrrRowsUp(r);
    } else if r.Wcr? {
      WcrRowsUp(r);
    } else if r.Ptr? {
      PtrRowsUp(r);
    } else {
      FtrRowsUp(r);
    }
  }

  lemma BodyIsSpelledOut(r: Record)
    requires Writable(r)
    ensures Body(r) == Joined(Pieces(r))
  {
    if r.Unknown? {
      JoinedOne(r.data);
    } else {
      OnlyUnknownLacksPrefix(r);
      var ks := Prefix(TypeOf(r)).value;
      hide RowsUp, AllFit, Row, Prefix, TypeOf, Joined, Tail, TailFits, Pieces, TailPieces;
      if r.Far? || r.Atr? || r.Gdr? || r.Dtr? || r.Bps? || r.Eps? {
        SmallRows(r);
      } else if r.Mir? || r.Mrr? || r.Pcr? || r.Hbr? || r.Sbr? {
        LotRows(r);
      } else {
        OtherRows(r);
      }
      RowIsJoined(ks, Row(r));
      TailIsJoined(r);
      PiecesOf(r, ks);
      JoinedSplits(RowPieces(ks, Row(r)), TailPieces(r));
    }
  }

  lemma PiecesOf(r: Record, ks: seq<Kind>)
    requires RowsUp(r, ks)
    ensures |ks| == |Row(r)| && forall i :: 0 <= i < |ks| ==> HasShape(ks[i], Row(r)[i])
    ensures Pieces(r) == RowPieces(ks, Row(r)) + TailPieces(r)
  {
    hide Pieces, Row, TailPieces;
  }

  lemma TypeIsSpelledOut(r: Record)
    ensures TypeBytes(r) == [TypeOf(r).typ, TypeOf(r).sub]
  {
  }

  /**
   Every record as it is written: the low 16 bits of the length of its fields, its type, and its
   fields one after the other, each as the bytes that stand for it.
   */
  lemma RecordIsSpelledOut(r: Record)
    requires Writable(r)
    ensures RecordBytes(r) == Word2(|Joined(Pieces(r))|) + TypeBytes(r) + Joined(Pieces(r))
  {
    BodyIsSpelledOut(r);
    TypeIsSpelledOut(r);
    hide Writable, Body, Joined, Pieces, TypeBytes, TypeOf;
    LittleDigits(|Body(r)| % 0x1_0000);
    LowWord(|Body(r)|);
  }

  // ---------- files ----------

  /** A file that was not given a FAR starts with one: two bytes of length, type 0, subtype 10, x86, V4. */
  lemma FileStartsWithFar(rs: seq<Record>)
    requires AllWritable(rs) && rs != [] && !rs[0].Far?
    ensures AllWritable(InFile(false, rs))
    ensures StreamBytes(InFile(false, rs)) == [2, 0, 0, 10, 3, 4] + StreamBytes(rs)
  {
    hide Writable, RecordBytes, StreamBytes, InFile;
    InFileIsWritable(false, rs);
    FarIsWritable();
    FarIsSixBytes(CPU_X86, STDF_V4);
    StreamStep([X86_FAR] + rs);
    assert ([X86_FAR] + rs)[1..] == rs;
    FarInFront(rs);
  }

  lemma FarIsSixBytes(cpu: byte, version: byte)
    ensures Writable(Far(cpu, version)) && RecordBytes(Far(cpu, version)) == [2, 0, 0, 10, cpu, version]
  {
    hide Writable, Body, TypeOf;
    var r := Far(cpu, version);
    FarBytes(r);
    FarBody(r);
    LittleDigits(2);
  }

  lemma FarInFront(rs: seq<Record>)
    requires rs != [] && !rs[0].Far?
    ensures InFile(false, rs) == [X86_FAR] + rs
  {
  }

  /** The announced length of a record, and how a source fails to have it. */
  lemma WhatIsNoRecord(s: ReaderState)
    ensures s.rest == [] ==> NextRecord(s).outcome == Ok(None)
    ensures 0 < |s.rest| < 4 ==> NextRecord(s).outcome == Err(ShortRecordHeader)
    ensures |s.rest| >= 4 && !s.sawFar && s.rest[2..4] != [0, 10] ==>
              NextRecord(s).outcome == Err(MalformedRecord(s.rest[2], s.rest[3]))
    ensures |s.rest| >= 4 && (s.sawFar || s.rest[2..4] == [0, 10]) ==>
              var length := s.rest[0] + s.rest[1] as int * 0x100;
              |s.rest| - 4 < length ==> NextRecord(s).outcome == Err(UnexpectedEof(length, |s.rest| - 4))
  {
    if |s.rest| >= 4 {
      var b := s.rest[..2];
      assert FromLittleEndian(b) == b[0] + 256 * FromLittleEndian(b[1..]);
      assert FromLittleEndian(b[1..]) == b[1..][0] + 256 * FromLittleEndian(b[1..][1..]);
      assert b[1..][1..] == [];
      assert s.rest[2..4] == [s.rest[2], s.rest[3]];
    }
    hide Parse, FromLittleEndian;
  }

  /** A FAR sets the byte order: big-endian for processor type 1, little-endian for any other. */
  lemma FarSetsTheOrder(cpu: byte, version: byte, s: seq<byte>, e: Endian, sawFar: bool)
    ensures NextRecord(ReaderState([2, 0, 0, 10, cpu, version] + s, e, sawFar))
         == Reading(Ok(Some(Far(cpu, version))), ReaderState(s, if cpu == 1 then Big else Little, true))
  {
    hide Writable, Body, Parse, TypeOf, Consistent, SameRecord, NextRecord, RecordBytes;
    var r := Far(cpu, version);
    var order := if cpu == 1 then Big else Little;
    FarIsSixBytes(cpu, version);
    FarBody(r);
    FarRow(r);
    FarIsSame(r, order);
    NextOfWritten(r, s, e, sawFar);
    RecordReadsIff(r, order);
  }

  lemma FarIsSame(r: Record, e: Endian)
    requires r.Far? && Writable(r)
    ensures SameRecord(e, r)
  {
    FarRow(r);
    var ks, vs := [U1, U1], Row(r);
    forall i | 0 <= i < 2 ensures SameIn(e, ks[i], vs[i]) {
      assert Fit(ks[i], vs[i]);
      ByteIsSame(e, ks[i], vs[i]);
    }
    hide Mirrored, Prefix;
  }
}
