/**
 What the flag bytes of a PTR and of an FTR mean, on the bytes behind them: which bit drops which
 field, and where the fields that are there begin.
 */
module StdfFlagLaws {
  import opened Outcomes
  import opened Bytes
  import opened Utf8
  import opened StdfCodec
  import opened StdfRecords
  import opened StdfRoundTrip
  import opened StdfLayout

  // ---------- numbers ----------

  function SignedByte(b: byte): int { if b < 0x80 then b else b - 0x100 }

  /** Four bytes from offset `i` on. */
  function Number4(d: seq<byte>, i: nat, e: Endian): nat
    requires i + 4 <= |d|
  {
    match e
    case Little => d[i] + d[i + 1] as int * 0x100 + d[i + 2] as int * 0x1_0000 + d[i + 3] as int * 0x100_0000
    case Big => d[i] as int * 0x100_0000 + d[i + 1] as int * 0x1_0000 + d[i + 2] as int * 0x100 + d[i + 3]
  }

  function Number2(d: seq<byte>, i: nat, e: Endian): nat
    requires i + 2 <= |d|
  {
    match e
    case Little => d[i] + d[i + 1] as int * 0x100
    case Big => d[i] as int * 0x100 + d[i + 1]
  }

  lemma OneByte(b: byte, e: Endian)
    ensures FromBytes([b], e) == b
  {
    assert FromLittleEndian([b]) == b + 256 * FromLittleEndian([]);
    assert FromBigEndian([b]) == FromBigEndian([]) * 256 + b by { assert [b][..0] == []; }
  }

  lemma TwoBytes(d: seq<byte>, i: nat, e: Endian)
    requires i + 2 <= |d|
    ensures FromBytes(d[i..i + 2], e) == Number2(d, i, e)
  {
    var b := d[i..i + 2];
    assert b == [d[i]] + [d[i + 1]];
    OneByte(d[i], e);
    OneByte(d[i + 1], e);
    assert b[1..] == [d[i + 1]] && b[..1] == [d[i]];
  }

  lemma FourBytes(d: seq<byte>, i: nat, e: Endian)
    requires i + 4 <= |d|
    ensures FromBytes(d[i..i + 4], e) == Number4(d, i, e)
  {
    var b := d[i..i + 4];
    TwoBytes(d, i, Big);
    TwoBytes(d, i + 2, Little);
    assert b[..3][..2] == d[i..i + 2] && b[1..][1..] == d[i + 2..i + 4];
    assert b[3] == d[i + 3] && b[..3][2] == d[i + 2] && b[1..][0] == d[i + 1] && b[0] == d[i];
    if e == Big {
      assert FromBigEndian(b) == FromBigEndian(b[..3]) * 256 + b[3];
      assert FromBigEndian(b[..3]) == FromBigEndian(b[..3][..2]) * 256 + b[..3][2];
    } else {
      assert FromLittleEndian(b) == b[0] + 256 * FromLittleEndian(b[1..]);
      assert FromLittleEndian(b[1..]) == b[1..][0] + 256 * FromLittleEndian(b[1..][1..]);
    }
  }

  // ---------- PTR ----------

  /** The bytes a field takes: none if its bit is set. */
  function Takes(flags: int, bit: int, width: nat): nat
    requires bit > 0
  {
    if Clear(flags, bit) then width else 0
  }

  lemma ScaleIsRead(wanted: bool, d: seq<byte>, i: nat, e: Endian)
    requires i + (if wanted then 1 else 0) <= |d|
    ensures GetOpt(wanted, I1, d[i..], e)
         == Ok(if wanted then GotOpt(Some(Num(SignedByte(d[i]))), d[i + 1..]) else GotOpt(None, d[i..]))
  {
    if wanted {
      SmallPowers();
      assert d[i..][..1] == [d[i]] && d[i..][1..] == d[i + 1..];
      OneByte(d[i], e);
    }
  }

  lemma LimitIsRead(wanted: bool, d: seq<byte>, i: nat, e: Endian)
    requires i + (if wanted then 4 else 0) <= |d|
    ensures GetOpt(wanted, R4, d[i..], e)
         == Ok(if wanted then GotOpt(Some(Num(Number4(d, i, e))), d[i + 4..]) else GotOpt(None, d[i..]))
  {
    if wanted {
      assert d[i..][..4] == d[i..i + 4] && d[i..][4..] == d[i + 4..];
      FourBytes(d, i, e);
    }
  }

  lemma GetOptsStep(ws: seq<bool>, ks: seq<Kind>, d: seq<byte>, e: Endian, first: GotOpt, vs: seq<Option<Value>>, rest: seq<byte>)
    requires |ws| == |ks| > 0 && GetOpt(ws[0], ks[0], d, e) == Ok(first)
    requires GetOpts(ws[1..], ks[1..], first.rest, e) == Ok(GotOpts(vs, rest))
    ensures GetOpts(ws, ks, d, e) == Ok(GotOpts([first.value] + vs, rest))
  {
    hide GetOpt;
  }

  /** A string at offset `i`, one byte of length in front, or the empty one at the end. */
  predicate StringAt(d: seq<byte>, i: nat)
  {
    i <= |d| && (i < |d| ==> i + 1 + d[i] <= |d|)
  }

  function TextAt(d: seq<byte>, i: nat): Text
    requires StringAt(d, i)
  {
    if i == |d| then [] else FromUtf8Lossy(d[i + 1..i + 1 + d[i]])
  }

  lemma TextIsRead(d: seq<byte>, i: nat, e: Endian)
    requires StringAt(d, i)
    ensures var r := GetCnOrEmpty(d[i..], e); r.Ok? && r.value.value == Str(TextAt(d, i))
    ensures i < |d| ==> GetCn(d[i..]) == Ok(Got(Str(TextAt(d, i)), d[i + 1 + d[i]..]))
  {
    hide FromUtf8Lossy;
    if i < |d| {
      var s := d[i..];
      assert s[..1] == [d[i]] && s[1..][..d[i]] == d[i + 1..i + 1 + d[i]] && s[1..][d[i]..] == d[i + 1 + d[i]..];
    }
  }

  /** The bits that drop RES_SCAL, LLM_SCAL, HLM_SCAL, LO_LIMIT and HI_LIMIT. */
  function Bit(field: nat): (bit: int)
    requires field < 5
    ensures bit > 0
  {
    if field == 0 then 0x01 else if field == 1 then 0x02 else if field == 2 then 0x04 else if field == 3 then 0x08 else 0x10
  }

  /** Where a field begins behind the OPT_FLAG: after the ones before it that are there. */
  function Offset(f: int, field: nat): nat
    requires field <= 5
  {
    if field == 0 then 0 else Offset(f, field - 1) + Takes(f, Bit(field - 1), if field <= 3 then 1 else 4)
  }

  function ScaleAt(f: byte, field: nat, d: seq<byte>): Option<int>
    requires field < 3 && Offset(f, field + 1) <= |d|
  {
    if Clear(f, Bit(field)) then Some(SignedByte(d[Offset(f, field)])) else None
  }

  function LimitAt(f: byte, field: nat, d: seq<byte>, e: Endian): Option<int>
    requires 3 <= field < 5 && Offset(f, field + 1) <= |d|
  {
    if Clear(f, Bit(field)) then Some(Number4(d, Offset(f, field), e)) else None
  }

  /** What an OPT_FLAG makes of the bytes behind it. */
  function PtrRead(f: byte, d: seq<byte>, e: Endian): PtrOptional
    requires StringAt(d, Offset(f, 5))
  {
    OffsetsGrow(f, 5);
    PtrOptional(Some(f), ScaleAt(f, 0, d), ScaleAt(f, 1, d), ScaleAt(f, 2, d), LimitAt(f, 3, d, e), LimitAt(f, 4, d, e),
                TextAt(d, Offset(f, 5)))
  }

  lemma {:induction false} OffsetsGrow(f: int, n: nat)
    requires n <= 5
    ensures forall i :: 0 <= i <= n ==> Offset(f, i) <= Offset(f, n)
  {
    hide Clear, Bit;
    if n > 0 {
      OffsetsGrow(f, n - 1);
    }
  }

  function NumberRead(f: byte, field: nat, d: seq<byte>, e: Endian): Option<Value>
    requires field < 5 && Offset(f, field + 1) <= |d|
  {
    OptValue(if field < 3 then ScaleAt(f, field, d) else LimitAt(f, field, d, e))
  }

  lemma WantedByBits(f: byte, field: nat)
    requires field < 5
    ensures PtrWanted(Some(f))[field] == Clear(f, Bit(field)) && PTR_KINDS[field] == if field < 3 then I1 else R4
  {
  }

  lemma PtrNumberRead(f: byte, d: seq<byte>, field: nat, e: Endian)
    requires field < 5 && Offset(f, field + 1) <= |d|
    ensures Offset(f, field) <= |d|
    ensures GetOpt(PtrWanted(Some(f))[field], PTR_KINDS[field], d[Offset(f, field)..], e)
         == Ok(GotOpt(NumberRead(f, field, d, e), d[Offset(f, field + 1)..]))
  {
    hide Clear, GetOpt, PtrWanted, Number4, SignedByte, Bit;
    WantedByBits(f, field);
    var wanted, o := Clear(f, Bit(field)), Offset(f, field);
    assert Offset(f, field + 1) == o + if wanted then (if field < 3 then 1 else 4) else 0;
    hide Offset;
    if field < 3 {
      ScaleIsRead(wanted, d, o, e);
    } else {
      LimitIsRead(wanted, d, o, e);
    }
  }

  lemma PtrNumbersRead(f: byte, d: seq<byte>, e: Endian)
    requires Offset(f, 5) <= |d|
    ensures forall i :: 0 <= i <= 5 ==> Offset(f, i) <= |d|
    ensures GetOpts(PtrWanted(Some(f)), PTR_KINDS, d, e)
         == Ok(GotOpts(seq(5, i requires 0 <= i < 5 => NumberRead(f, i, d, e)), d[Offset(f, 5)..]))
  {
    hide Clear, GetOpt, GetOpts, PtrWanted, NumberRead;
    assert Offset(f, 0) == 0;
    hide Offset;
    OffsetsGrow(f, 5);
    assert forall i :: 0 <= i <= 5 ==> Offset(f, i) <= |d|;
    var ds := seq(6, i requires 0 <= i < 6 => d[Offset(f, i)..]);
    var vs := seq(5, i requires 0 <= i < 5 => NumberRead(f, i, d, e));
    forall i | 0 <= i < 5
      ensures GetOpt(PtrWanted(Some(f))[i], PTR_KINDS[i], ds[i], e) == Ok(GotOpt(vs[i], ds[i + 1]))
    {
      PtrNumberRead(f, d, i, e);
    }
    FiveOpts(PtrWanted(Some(f)), ds, vs, e);
    assert d[0..] == d;
  }

  /** Five fields read one after the other, each where the last one stopped. */
  lemma FiveOpts(ws: seq<bool>, ds: seq<seq<byte>>, vs: seq<Option<Value>>, e: Endian)
    requires |ws| == |vs| == 5 && |ds| == 6
    requires forall i :: 0 <= i < 5 ==> GetOpt(ws[i], PTR_KINDS[i], ds[i], e) == Ok(GotOpt(vs[i], ds[i + 1]))
    ensures GetOpts(ws, PTR_KINDS, ds[0], e) == Ok(GotOpts(vs, ds[5]))
  {
    OptsFrom(ws, ds, vs, 0, e);
    assert ws[0..] == ws && PTR_KINDS[0..] == PTR_KINDS && vs[0..] == vs;
  }

  lemma {:induction false} OptsFrom(ws: seq<bool>, ds: seq<seq<byte>>, vs: seq<Option<Value>>, i: nat, e: Endian)
    requires |ws| == |vs| == 5 && |ds| == 6 && i <= 5
    requires forall j :: 0 <= j < 5 ==> GetOpt(ws[j], PTR_KINDS[j], ds[j], e) == Ok(GotOpt(vs[j], ds[j + 1]))
    ensures GetOpts(ws[i..], PTR_KINDS[i..], ds[i], e) == Ok(GotOpts(vs[i..], ds[5]))
    decreases 5 - i
  {
    hide GetOpt, GetOpts;
    if i == 5 {
      NoneLeft(ds[5], e);
    } else {
      OptsFrom(ws, ds, vs, i + 1, e);
      assert ws[i..][1..] == ws[i + 1..] && PTR_KINDS[i..][1..] == PTR_KINDS[i + 1..];
      assert vs[i..] == [vs[i]] + vs[i + 1..];
      GetOptsStep(ws[i..], PTR_KINDS[i..], ds[i], e, GotOpt(vs[i], ds[i + 1]), vs[i + 1..], ds[5]);
    }
  }

  lemma NoneLeft(d: seq<byte>, e: Endian)
    ensures GetOpts([], [], d, e) == Ok(GotOpts([], d))
  {
  }

  /**
   A PTR that announces OPT_FLAG: which optional fields it has, and from which bytes each is read, in
   either byte order.
   */
  lemma PtrIsReadByItsBits(parmFlg: int, f: byte, d: seq<byte>, e: Endian)
    requires parmFlg / 0x10 % 2 == 1 && StringAt(d, Offset(f, 5))
    ensures ParsePtrTail(parmFlg, [f] + d, e) == Ok(PtrRead(f, d, e))
  {
    hide ParsePtrTail, ScaleAt, LimitAt, Offset, GetOpts, PtrWanted, GetCnOrEmpty, TextAt;
    OptFlagIsRead(parmFlg, f, d, e);
    PtrNumbersRead(f, d, e);
    TextIsRead(d, Offset(f, 5), e);
  }

  lemma OptFlagIsRead(parmFlg: int, f: byte, d: seq<byte>, e: Endian)
    requires parmFlg / 0x10 % 2 == 1
    ensures ParsePtrTail(parmFlg, [f] + d, e) == ParsePtrFields(Some(f), d, e)
  {
    OneByte(f, e);
    assert ([f] + d)[..1] == [f] && ([f] + d)[1..] == d;
    hide ParsePtrFields, FromBytes;
  }

  /** A PTR that does not announce it has none of them. */
  lemma PtrWithoutOptFlag(parmFlg: int, d: seq<byte>, e: Endian)
    requires parmFlg / 0x10 % 2 == 0 && StringAt(d, 0)
    ensures ParsePtrTail(parmFlg, d, e) == Ok(PtrOptional(None, None, None, None, None, None, TextAt(d, 0)))
  {
    TextIsRead(d, 0, e);
    assert d[0..] == d;
    hide TextAt, GetCnOrEmpty, Get;
    FiveOpts(PtrWanted(None), [d, d, d, d, d, d], [None, None, None, None, None], e);
  }

  // ---------- FTR ----------

  /** A name at offset `i`, two bytes of length in front. */
  predicate NameAt(d: seq<byte>, i: nat, e: Endian)
  {
    i + 2 <= |d| && i + 2 + Number2(d, i, e) <= |d|
  }

  function AfterNameAt(d: seq<byte>, i: nat, e: Endian): nat
    requires NameAt(d, i, e)
  {
    i + 2 + Number2(d, i, e)
  }

  lemma NameIsRead(wanted: bool, d: seq<byte>, i: nat, e: Endian)
    requires i <= |d| && (wanted && i < |d| ==> NameAt(d, i, e))
    ensures GetOpt(wanted, Nn, d[i..], e)
         == Ok(if wanted && i < |d| then GotOpt(Some(Str(FromUtf8Lossy(d[i + 2..AfterNameAt(d, i, e)]))), d[AfterNameAt(d, i, e)..])
               else GotOpt(None, d[i..]))
  {
    hide FromUtf8Lossy;
    if wanted && i < |d| {
      var s, n := d[i..], Number2(d, i, e);
      TwoBytes(d, i, e);
      assert s[..2] == d[i..i + 2] && s[2..][..n] == d[i + 2..i + 2 + n] && s[2..][n..] == d[i + 2 + n..];
    }
  }

  /**
   An FTR that announces its alarm id: the alarm id, the second flags behind it, and the names whose
   bits in them are clear, unless the record has ended, each from the bytes it is read from.
   */
  lemma FtrIsReadByItsBits(optFlg: int, d: seq<byte>, e: Endian)
    requires optFlg % 2 == 1 && d != [] && 1 + d[0] as int < |d|
    requires var o: nat := 1 + d[0] as int;
             var program := Clear(d[o], 0x02) && o + 1 < |d|;
             && (program ==> NameAt(d, o + 1, e))
             && var o2 := if program then AfterNameAt(d, o + 1, e) else o + 1;
                Clear(d[o], 0x04) && o2 < |d| ==> NameAt(d, o2, e)
    ensures var o: nat := 1 + d[0] as int;
            var program := Clear(d[o], 0x02) && o + 1 < |d|;
            var o2 := if program then AfterNameAt(d, o + 1, e) else o + 1;
            var named := Clear(d[o], 0x04) && o2 < |d|;
            ParseFtrTail(optFlg, d, e)
            == Ok(FtrOptional(Some(FromUtf8Lossy(d[1..o])), Some(d[o]),
                              if program then Some(FromUtf8Lossy(d[o + 3..o2])) else None,
                              if named then Some(FromUtf8Lossy(d[o2 + 2..AfterNameAt(d, o2, e)])) else None))
  {
    hide GetOpt, GetCn, Get, FromUtf8Lossy, Number2;
    var o: nat := 1 + d[0] as int;
    AlarmIsRead(d, e);
    assert optFlg / 0x01 == optFlg;
    NameIsRead(Clear(d[o], 0x02), d, o + 1, e);
    var o2 := if Clear(d[o], 0x02) && o + 1 < |d| then AfterNameAt(d, o + 1, e) else o + 1;
    NameIsRead(Clear(d[o], 0x04), d, o2, e);
  }

  lemma AlarmIsRead(d: seq<byte>, e: Endian)
    requires d != [] && 1 + d[0] as int < |d|
    ensures var o: nat := 1 + d[0] as int;
            && Get(Cn, d, e) == Ok(Got(Str(FromUtf8Lossy(d[1..o])), d[o..]))
            && GetOpt(true, U1, d[o..], e) == Ok(GotOpt(Some(Num(d[o])), d[o + 1..]))
  {
    hide FromUtf8Lossy, GetCn, FromBytes;
    var o: nat := 1 + d[0] as int;
    TextIsRead(d, 0, e);
    assert d[0..] == d;
    ByteIsRead(d[o..], e);
    assert d[o..][1..] == d[o + 1..];
  }

  lemma ByteIsRead(d: seq<byte>, e: Endian)
    requires d != []
    ensures GetOpt(true, U1, d, e) == Ok(GotOpt(Some(Num(d[0])), d[1..]))
  {
    assert d[..1] == [d[0]];
    OneByte(d[0], e);
    hide FromBytes;
  }

  /** An FTR that does not announce it, or ends before it, has none of the four. */
  lemma FtrWithoutAlarm(optFlg: int, d: seq<byte>, e: Endian)
    requires optFlg % 2 == 0 || d == []
    ensures ParseFtrTail(optFlg, d, e) == Ok(FtrOptional(None, None, None, None))
  {
    assert optFlg / 0x01 == optFlg;
  }

  // ---------- the ends of other records ----------

  /** A PMR with one byte left is cut short; with more it has a head and a site, and drops the rest. */
  lemma PmrTailCases(d: seq<byte>, e: Endian)
    ensures d == [] ==> ParsePmrTail(d, e) == Ok(HeadSite(None, None))
    ensures |d| == 1 ==> ParsePmrTail(d, e) == Err(UnexpectedEof(1, 0))
    ensures |d| >= 2 ==> ParsePmrTail(d, e) == Ok(HeadSite(Some(d[0]), Some(d[1])))
  {
    if d != [] {
      OneByte(d[0], e);
      assert d[..1] == [d[0]];
      if |d| >= 2 {
        OneByte(d[1], e);
        assert d[1..][..1] == [d[1]];
      }
    }
    hide FromBytes;
  }

  function Blanks(n: nat): (ts: seq<Text>) { seq(n, _ => []) }

  /** Strings that the record ended without are read as empty ones. */
  lemma {:induction false} MissingStringsAreEmpty(ts: seq<Text>, count: nat, e: Endian)
    requires AllShort(ts) && |ts| <= count
    ensures GetTexts(CnsBytes(ts), count, e) == Ok(ts + Blanks(count - |ts|))
    decreases count
  {
    hide GetCn, CnBytes, ValidText;
    if count > 0 {
      if ts == [] {
        MissingStringsAreEmpty(ts, count - 1, e);
        assert [[]] + (ts + Blanks(count - 1)) == ts + Blanks(count);
      } else {
        CnRoundTrip(ts[0], CnsBytes(ts[1..]));
        UnitsRoundTrip(ts[0], e);
        MissingStringsAreEmpty(ts[1..], count - 1, e);
        assert CnBytes(ts[0]) + CnsBytes(ts[1..]) != [];
        assert [ts[0]] + (ts[1..] + Blanks(count - |ts|)) == ts + Blanks(count - |ts|);
      }
    } else {
      assert ts + Blanks(0) == [];
    }
  }

  /** The types whose records end with their mandatory fields. */
  predicate EndsWithRow(t: RecordType)
  {
    Prefix(t).Some?
    && t !in [RecordType(5, 10), RecordType(2, 20), RecordType(5, 30), RecordType(15, 10), RecordType(15, 20)]
  }

  /** Of those, bytes behind the known fields change nothing. */
  lemma TrailingBytesAreDropped(t: RecordType, d: seq<byte>, more: seq<byte>, e: Endian)
    requires EndsWithRow(t) && Parse(t, d, e).Ok?
    ensures Parse(t, d + more, e) == Parse(t, d, e)
  {
    hide Prefix, GetAll, N, T;
    GetAllIsLocal(Prefix(t).value, d, more, e);
  }
}
