/**
 Reading a record and writing it again. The record documentation promises that such a pass loses no
 byte, even where fields are conditional. `Intact` says, of the bytes of a body alone, when that is so.
 */
module StdfLossless {
  import opened Outcomes
  import opened Bytes
  import opened Utf8
  import opened StdfCodec
  import opened StdfRecords
  import opened StdfRoundTrip

  // ---------- bodies that survive ----------

  /** Exactly `count` well-formed strings and nothing behind them. */
  predicate StringsFill(d: seq<byte>, count: nat)
    decreases count
  {
    if count == 0 then d == []
    else d != [] && GetCn(d).Ok? && CleanCn(d) && StringsFill(GetCn(d).value.rest, count - 1)
  }

  /** How many bytes the wanted ones of a row of numbers take. */
  function WantedBytes(ws: seq<bool>, ks: seq<Kind>): nat
    requires |ws| == |ks| && forall i :: 0 <= i < |ks| ==> Numeric(ks[i])
  {
    if ks == [] then 0 else (if ws[0] then Width(ks[0]) else 0) + WantedBytes(ws[1..], ks[1..])
  }

  /** OPT_FLAG is there if announced, then every number it calls for, then the units and nothing else. */
  predicate PtrTailIntact(parmFlg: int, d: seq<byte>)
  {
    var has := Flag(parmFlg, OPT_FLAG_PRESENT);
    && (has ==> d != [])
    && var n := WantedBytes(PtrWanted(if has then Some(d[0]) else None), PTR_KINDS);
       var after := if has then d[1..] else d;
       n <= |after| && StringsFill(after[n..], 1)
  }

  /** A name that is wanted is well formed, unless the record has ended. */
  predicate NameIntact(wanted: bool, d: seq<byte>)
  {
    wanted && d != [] ==> Get(Nn, d, Little).Ok? && Clean(Nn, d)
  }

  function AfterName(wanted: bool, d: seq<byte>): seq<byte>
    requires NameIntact(wanted, d)
  {
    if wanted && d != [] then Get(Nn, d, Little).value.rest else d
  }

  predicate NamesFill(flags: byte, d: seq<byte>)
  {
    var wp, wl := !Flag(flags, 0x02), !Flag(flags, 0x04);
    NameIntact(wp, d) && NameIntact(wl, AfterName(wp, d)) && AfterName(wl, AfterName(wp, d)) == []
  }

  /** Nothing, or an announced alarm id, the second flags, and the names those call for. */
  predicate FtrTailIntact(optFlg: int, d: seq<byte>)
  {
    d == []
    || (&& Flag(optFlg, 0x01) && GetCn(d).Ok? && CleanCn(d)
        && GetCn(d).value.rest != [] && NamesFill(GetCn(d).value.rest[0], GetCn(d).value.rest[1..]))
  }

  /** What may follow the mandatory values `v` of a record of type `t`. */
  predicate TailIntact(t: RecordType, v: seq<Value>, rest: seq<byte>)
  {
    if t == RecordType(5, 10) then rest == [] || |rest| == 2
    else if t == RecordType(2, 20) then StringsFill(rest, 5)
    else if t == RecordType(5, 30) then StringsFill(rest, 3)
    else if t == RecordType(15, 10) then PtrTailIntact(N(v, 4), rest)
    else if t == RecordType(15, 20) then FtrTailIntact(N(v, 4), rest)
    else rest == []
  }

  /** A body that comes out of a read and write pass as it went in. */
  predicate Intact(t: RecordType, d: seq<byte>)
  {
    Prefix(t).None?
    || (var row := GetAll(Prefix(t).value, d, Little);
        row.Ok? && AllClean(Prefix(t).value, d) && TailIntact(t, row.value.values, row.value.rest))
  }

  // ---------- what was written is intact ----------

  lemma {:induction false} StringsAreIntact(ts: seq<Text>)
    requires AllShort(ts)
    ensures StringsFill(CnsBytes(ts), |ts|)
  {
    hide GetCn, CleanCn, CnBytes, ValidText;
    if ts != [] {
      CnRoundTrip(ts[0], CnsBytes(ts[1..]));
      CnIsClean(ts[0], CnsBytes(ts[1..]));
      UnitsRoundTrip(ts[0], Little);
      StringsAreIntact(ts[1..]);
    }
  }

  lemma {:induction false} OptsSize(ws: seq<bool>, ks: seq<Kind>, vs: seq<Option<Value>>)
    requires |ws| == |ks| && FitOpts(ks, vs)
    requires forall i :: 0 <= i < |ks| ==> Numeric(ks[i]) && vs[i].Some? == ws[i]
    ensures |PutOpts(ws, ks, vs)| == WantedBytes(ws, ks)
  {
    hide LittleEndian, Bits;
    if ks != [] {
      OptsSize(ws[1..], ks[1..], vs[1..]);
    }
  }

  lemma PtrTailIsIntact(parmFlg: int, p: PtrOptional)
    requires PtrFits(p) && PtrFlagsMatch(parmFlg, p)
    ensures PtrTailIntact(parmFlg, PtrTail(p))
  {
    PtrNumbersSize(parmFlg, p);
    FlagByte(p.optFlg);
    StringsAreIntact([p.units]);
    assert CnsBytes([p.units]) == CnBytes(p.units) + CnsBytes([]);
    assert CnsBytes([p.units]) == CnBytes(p.units);
    hide Flag, Put, Fit, PutOpts, CnBytes, CnsBytes, StringsFill, PtrWanted, WantedBytes, PtrValues, ShortText, PtrFits;
    var numbers := PutOpts(PtrWanted(p.optFlg), PTR_KINDS, PtrValues(p));
    var after := numbers + CnBytes(p.units);
    assert after[|numbers|..] == CnBytes(p.units);
    if p.optFlg.Some? {
      assert PtrTail(p) == [p.optFlg.value] + after;
      assert ([p.optFlg.value] + after)[1..] == after;
    } else {
      assert [] + after == after;
    }
  }

  lemma FlagByte(o: Option<int>)
    requires FitOpt(U1, OptValue(o))
    ensures o.Some? ==> 0 <= o.value < 0x100 && PutOpt(true, U1, OptValue(o)) == [o.value]
    ensures o.None? ==> PutOpt(true, U1, OptValue(o)) == []
  {
    SmallPowers();
    if o.Some? {
      assert Fit(U1, Num(o.value));
      assert LittleEndian(o.value, 1) == [o.value % 256] + LittleEndian(o.value / 256, 0);
    }
  }

  lemma PtrNumbersSize(parmFlg: int, p: PtrOptional)
    requires PtrFits(p) && PtrFlagsMatch(parmFlg, p)
    ensures |PutOpts(PtrWanted(p.optFlg), PTR_KINDS, PtrValues(p))| == WantedBytes(PtrWanted(p.optFlg), PTR_KINDS)
    ensures p.optFlg.Some? == Flag(parmFlg, OPT_FLAG_PRESENT)
  {
    var ws, vs := PtrWanted(p.optFlg), PtrValues(p);
    hide PtrWanted, PtrValues, Flag, Fit, ShortText;
    forall i | 0 <= i < 5 ensures vs[i].Some? == ws[i] {
      assert vs[i].Some? <==> ws[i];
    }
    OptsSize(ws, PTR_KINDS, vs);
  }

  /** One name of an FTR: written if wanted, or absent at the very end. */
  lemma NameIsIntact(wanted: bool, o: Option<Value>, rest: seq<byte>)
    requires FitOpt(Nn, o) && SameOpt(Little, Nn, o) && (o.Some? ==> wanted) && (o.None? && wanted ==> rest == [])
    ensures NameIntact(wanted, PutOpt(wanted, Nn, o) + rest)
    ensures AfterName(wanted, PutOpt(wanted, Nn, o) + rest) == rest
  {
    hide Get, Put, Fit, SameIn, Clean;
    if o.Some? {
      FieldReadsIff(Nn, o.value, rest, Little);
      FieldIsClean(Nn, o.value, rest);
      PutIsNotEmpty(Nn, o.value);
    } else {
      assert [] + rest == rest;
    }
  }

  lemma FtrNamesAreIntact(flags: byte, program: Option<Value>, testLabel: Option<Value>)
    requires FitOpt(Nn, program) && FitOpt(Nn, testLabel) && SameOpt(Little, Nn, program) && SameOpt(Little, Nn, testLabel)
    requires program.Some? ==> !Flag(flags, 0x02)
    requires testLabel.Some? ==> !Flag(flags, 0x04) && (program.Some? || Flag(flags, 0x02))
    ensures NamesFill(flags, PutOpt(!Flag(flags, 0x02), Nn, program) + PutOpt(!Flag(flags, 0x04), Nn, testLabel))
  {
    hide Get, Put, Fit, SameIn, Clean, Flag, NameIntact, AfterName;
    var wp, wl := !Flag(flags, 0x02), !Flag(flags, 0x04);
    var tail := PutOpt(wl, Nn, testLabel);
    assert tail + [] == tail;
    NameIsIntact(wl, testLabel, []);
    NameIsIntact(wp, program, tail);
  }

  lemma FtrTailIsIntact(optFlg: int, p: FtrOptional)
    requires FtrFits(p) && FtrFlagsMatch(optFlg, p) && NamesFit(p)
    ensures FtrTailIntact(optFlg, FtrTail(p))
  {
    hide Flag, ValidText, NamesFill, GetCn, CleanCn, Put;
    if p.alarmId.Some? {
      var flags := p.optFlg2.value;
      FlagByte(p.optFlg2);
      var names := PutOpt(!Flag(flags, 0x02), Nn, OptStr(p.program)) + PutOpt(!Flag(flags, 0x04), Nn, OptStr(p.testLabel));
      FtrNamesAreIntact(flags, OptStr(p.program), OptStr(p.testLabel));
      assert FtrTail(p) == CnBytes(p.alarmId.value) + ([flags] + names);
      CnRoundTrip(p.alarmId.value, [flags] + names);
      CnIsClean(p.alarmId.value, [flags] + names);
      assert ([flags] + names)[1..] == names;
    }
  }

  // ---------- whole records are intact ----------

  lemma PlainTailIsIntact(r: Record)
    requires !r.Unknown? && !r.Wrr? && !r.Tsr? && !r.Pmr? && !r.Ptr? && !r.Ftr? && TailFits(r)
    ensures TailIntact(TypeOf(r), Row(r), Tail(r))
  {
    hide Row, StringsFill, PtrTailIntact, FtrTailIntact, TailTexts;
    assert TailTexts(r) == [] by { NoTailTexts(r); }
  }

  lemma NoTailTexts(r: Record)
    requires !r.Wrr? && !r.Tsr?
    ensures TailTexts(r) == []
  {
  }

  lemma StringTailIsIntact(r: Record)
    requires (r.Wrr? || r.Tsr?) && TailFits(r)
    ensures TailIntact(TypeOf(r), Row(r), Tail(r))
  {
    hide Row, StringsFill, PtrTailIntact, FtrTailIntact, AllShort, CnsBytes;
    StringsAreIntact(TailTexts(r));
  }

  lemma PmrTailIsIntact(r: Record)
    requires r.Pmr? && TailFits(r) && Consistent(r)
    ensures TailIntact(TypeOf(r), Row(r), Tail(r))
  {
    hide Row, Fit, Put;
    FlagByte(r.head);
    FlagByte(r.site);
  }

  lemma FlaggedTailIsIntact(r: Record)
    requires (r.Ptr? || r.Ftr?) && TailFits(r) && Consistent(r)
    ensures TailIntact(TypeOf(r), Row(r), Tail(r))
  {
    hide StringsFill, PtrTailIntact, FtrTailIntact, PtrFits, FtrFits, PtrFlagsMatch, FtrFlagsMatch, NamesFit;
    hide PtrTail, FtrTail;
    if r.Ptr? {
      assert N(Row(r), 4) == r.parmFlg;
      PtrTailIsIntact(r.parmFlg, r.ptr);
    } else {
      assert N(Row(r), 4) == r.optFlg;
      FtrTailIsIntact(r.optFlg, r.ftr);
    }
  }

  lemma WrittenTailIsIntact(r: Record)
    requires !r.Unknown? && TailFits(r) && Consistent(r)
    ensures TailIntact(TypeOf(r), Row(r), Tail(r))
  {
    hide Row, TypeOf, Tail, TailFits, Consistent, TailIntact;
    if r.Ptr? || r.Ftr? {
      FlaggedTailIsIntact(r);
    } else if r.Pmr? {
      PmrTailIsIntact(r);
    } else if r.Wrr? || r.Tsr? {
      StringTailIsIntact(r);
    } else {
      PlainTailIsIntact(r);
    }
  }

  /** What the writer makes of a consistent record loses nothing when it is read and written again. */
  lemma WrittenIsIntact(r: Record)
    requires Writable(r) && Consistent(r)
    ensures Intact(TypeOf(r), Body(r))
  {
    if r.Unknown? {
      hide Prefix;
    } else {
      OnlyUnknownLacksPrefix(r);
      hide Prefix, Row, TypeOf, Tail, TailFits, Consistent, TailIntact, Fit, AllFit, PutAll, GetAll, AllClean, SameTail;
      var ks, row := Prefix(TypeOf(r)).value, Row(r);
      LittleRowIsSame(r);
      FieldsReadIff(ks, row, Tail(r), Little);
      FieldsAreClean(ks, row, Tail(r));
      WrittenTailIsIntact(r);
    }
  }

  // ---------- what is intact is written back ----------

  lemma {:induction false} StringsRewrite(d: seq<byte>, count: nat)
    requires StringsFill(d, count)
    ensures var ts := GetTexts(d, count, Little);
            ts.Ok? && |ts.value| == count && AllShort(ts.value) && CnsBytes(ts.value) == d
    decreases count
  {
    hide GetCn, CleanCn, CnBytes, ValidText;
    if count > 0 {
      var first := GetCn(d).value;
      CnRewrites(d);
      StringsRewrite(first.rest, count - 1);
      var ts := GetTexts(d, count, Little).value;
      assert ts[1..] == GetTexts(first.rest, count - 1, Little).value;
    }
  }

  lemma PmrTailRewrites(d: seq<byte>)
    requires d == [] || |d| == 2
    ensures var hs := ParsePmrTail(d, Little);
            && hs.Ok? && FitOpt(U1, OptValue(hs.value.head)) && FitOpt(U1, OptValue(hs.value.site))
            && PmrTail(hs.value.head, hs.value.site) == d
  {
    if d != [] {
      NumberRewrites(U1, d);
      var head := Get(U1, d, Little).value;
      hide Put, Fit;
      assert |head.rest| == 1;
      NumberRewrites(U1, head.rest);
      var site := Get(U1, head.rest, Little).value;
      assert site.rest == [];
      assert Put(U1, site.value) + [] == Put(U1, site.value);
    }
  }

  /** The numbers that are wanted, and no others, are read, and put back in front of what they left. */
  predicate OptsComeBack(ws: seq<bool>, ks: seq<Kind>, r: Result<GotOpts, StdfError>, d: seq<byte>)
    requires |ws| == |ks|
  {
    && r.Ok? && FitOpts(ks, r.value.values)
    && (forall i :: 0 <= i < |ks| ==> r.value.values[i].Some? == ws[i])
    && PutOpts(ws, ks, r.value.values) + r.value.rest == d
  }

  lemma {:induction false} OptsRewrite(ws: seq<bool>, ks: seq<Kind>, d: seq<byte>)
    requires |ws| == |ks| && forall i :: 0 <= i < |ks| ==> Numeric(ks[i])
    requires WantedBytes(ws, ks) <= |d|
    ensures OptsComeBack(ws, ks, GetOpts(ws, ks, d, Little), d)
  {
    hide Put, Fit, FitOpts, GetOpt, PutOpt, OptsComeBack;
    if ks == [] {
      NoOptsComeBack(ws, ks, d);
    } else {
      OptRewrites(ws[0], ks[0], d);
      OptsRewrite(ws[1..], ks[1..], GetOpt(ws[0], ks[0], d, Little).value.rest);
      OptsComeBackStep(ws, ks, d);
    }
  }

  lemma NoOptsComeBack(ws: seq<bool>, ks: seq<Kind>, d: seq<byte>)
    requires |ws| == |ks| == 0
    ensures OptsComeBack(ws, ks, GetOpts(ws, ks, d, Little), d)
  {
    hide GetOpt, PutOpt;
    assert [] + d == d;
  }

  lemma OptsComeBackStep(ws: seq<bool>, ks: seq<Kind>, d: seq<byte>)
    requires |ws| == |ks| > 0
    requires var got := GetOpt(ws[0], ks[0], d, Little);
             && got.Ok? && FitOpt(ks[0], got.value.value) && got.value.value.Some? == ws[0]
             && PutOpt(ws[0], ks[0], got.value.value) + got.value.rest == d
             && OptsComeBack(ws[1..], ks[1..], GetOpts(ws[1..], ks[1..], got.value.rest, Little), got.value.rest)
    ensures OptsComeBack(ws, ks, GetOpts(ws, ks, d, Little), d)
  {
    hide GetOpt, PutOpt, FitOpt;
    var first := GetOpt(ws[0], ks[0], d, Little).value;
    var others := GetOpts(ws[1..], ks[1..], first.rest, Little).value;
    var values := [first.value] + others.values;
    assert GetOpts(ws, ks, d, Little) == Ok(GotOpts(values, others.rest));
    assert values[1..] == others.values;
    forall i | 0 <= i < |ks| ensures FitOpt(ks[i], values[i]) && values[i].Some? == ws[i] {
      assert i > 0 ==> ks[i] == ks[1..][i - 1] && values[i] == values[1..][i - 1] && ws[i] == ws[1..][i - 1];
    }
    Associates(PutOpt(ws[0], ks[0], first.value), PutOpts(ws[1..], ks[1..], others.values), others.rest);
  }

  lemma OptRewrites(wanted: bool, k: Kind, d: seq<byte>)
    requires Numeric(k) && (wanted ==> Width(k) <= |d|)
    ensures var got := GetOpt(wanted, k, d, Little);
            && got.Ok? && FitOpt(k, got.value.value) && got.value.value.Some? == wanted
            && PutOpt(wanted, k, got.value.value) + got.value.rest == d
            && |got.value.rest| == |d| - if wanted then Width(k) else 0
  {
    if wanted {
      hide Put, Fit, FromBits, FromBytes;
      NumberRewrites(k, d);
    } else {
      assert [] + d == d;
    }
  }

  lemma OneStringRewrites(d: seq<byte>)
    requires StringsFill(d, 1)
    ensures d != [] && GetCn(d).Ok? && GetCn(d).value.rest == []
    ensures var t := GetCn(d).value.value.text; ShortText(t) && CnBytes(t) == d
  {
    hide GetCn, CleanCn, CnBytes, ValidText;
    CnRewrites(d);
    var got := GetCn(d).value;
    assert StringsFill(got.rest, 0);
    assert CnBytes(got.value.text) + [] == CnBytes(got.value.text);
  }

  lemma PtrNumbersRewrite(ws: seq<bool>, d: seq<byte>)
    requires |ws| == 5 && WantedBytes(ws, PTR_KINDS) <= |d|
    ensures var n := WantedBytes(ws, PTR_KINDS);
            var got := GetOpts(ws, PTR_KINDS, d, Little);
            && got.Ok? && FitOpts(PTR_KINDS, got.value.values)
            && PutOpts(ws, PTR_KINDS, got.value.values) == d[..n] && got.value.rest == d[n..]
  {
    hide WantedBytes, Fit, GetOpts, PutOpts;
    OptsRewrite(ws, PTR_KINDS, d);
    var got := GetOpts(ws, PTR_KINDS, d, Little).value;
    OptsSize(ws, PTR_KINDS, got.values);
  }

  /** The optional fields of a PTR are the numbers and the units that were read. */
  lemma PtrFieldsRead(optFlg: Option<int>, d: seq<byte>, vs: seq<Option<Value>>, rest: seq<byte>, units: Text)
    requires GetOpts(PtrWanted(optFlg), PTR_KINDS, d, Little) == Ok(GotOpts(vs, rest))
    requires GetCnOrEmpty(rest, Little) == Ok(Got(Str(units), []))
    ensures var p := ParsePtrFields(optFlg, d, Little);
            p.Ok? && PtrValues(p.value) == vs && p.value.units == units
  {
    assert forall i :: 0 <= i < 5 && vs[i].Some? ==> Numeric(PTR_KINDS[i]) && vs[i].value.Num?;
    hide PtrWanted, GetOpts, GetCnOrEmpty, PtrValues, AsInt;
    NumbersAreValues(vs, ParsePtrFields(optFlg, d, Little).value);
  }

  lemma PtrFieldsRewrite(optFlg: Option<int>, d: seq<byte>)
    requires var n := WantedBytes(PtrWanted(optFlg), PTR_KINDS); n <= |d| && StringsFill(d[n..], 1)
    ensures var p := ParsePtrFields(optFlg, d, Little);
            && p.Ok? && FitOpts(PTR_KINDS, PtrValues(p.value)) && ShortText(p.value.units)
            && PutOpts(PtrWanted(optFlg), PTR_KINDS, PtrValues(p.value)) + CnBytes(p.value.units) == d
  {
    hide PtrWanted, WantedBytes, FitOpts, GetOpts, PutOpts, GetCn, ShortText, StringsFill, PtrValues, ParsePtrFields;
    var ws := PtrWanted(optFlg);
    var n := WantedBytes(ws, PTR_KINDS);
    PtrNumbersRewrite(ws, d);
    OneStringRewrites(d[n..]);
    var units := GetCn(d[n..]).value.value.text;
    PtrFieldsRead(optFlg, d, GetOpts(ws, PTR_KINDS, d, Little).value.values, d[n..], units);
  }

  lemma NumbersAreValues(vs: seq<Option<Value>>, p: PtrOptional)
    requires |vs| == 5 && forall i :: 0 <= i < 5 && vs[i].Some? ==> vs[i].value.Num?
    requires [AsInt(vs[0]), AsInt(vs[1]), AsInt(vs[2]), AsInt(vs[3]), AsInt(vs[4])]
          == [p.resScal, p.llmScal, p.hlmScal, p.loLimit, p.hiLimit]
    ensures vs == PtrValues(p)
  {
    if vs != PtrValues(p) {
      DifferentFields(vs, p);
      assert false;
    }
  }

  lemma PtrTailRewrites(parmFlg: int, d: seq<byte>)
    requires PtrTailIntact(parmFlg, d)
    ensures var p := ParsePtrTail(parmFlg, d, Little); p.Ok? && PtrFits(p.value) && PtrTail(p.value) == d
  {
    var has := Flag(parmFlg, OPT_FLAG_PRESENT);
    var optFlg: Option<int> := if has then Some(d[0]) else None;
    var after := if has then d[1..] else d;
    hide Flag, PtrWanted, WantedBytes, StringsFill, Put, PutOpts, ParsePtrFields, PtrValues, FitOpts, ShortText, CnBytes;
    FlagIsRead(has, d);
    PtrFieldsRewrite(optFlg, after);
  }

  lemma FlagIsRead(has: bool, d: seq<byte>)
    requires has ==> d != []
    ensures var o: Option<int> := if has then Some(d[0]) else None;
            && GetOpt(has, U1, d, Little) == Ok(GotOpt(OptValue(o), if has then d[1..] else d))
            && FitOpt(U1, OptValue(o)) && PutOpt(true, U1, OptValue(o)) + (if has then d[1..] else d) == d
  {
    if has {
      var o: Option<int> := Some(d[0]);
      SmallPowers();
      assert FromLittleEndian(d[..1]) == d[0] by {
        assert d[..1] == [d[0]];
        assert FromLittleEndian([d[0]]) == d[0] + 256 * FromLittleEndian([]);
      }
      FlagByte(o);
    }
  }

  // ---------- the names of an FTR ----------

  lemma NameRewrites(wanted: bool, d: seq<byte>)
    requires NameIntact(wanted, d)
    ensures var got := GetOpt(wanted, Nn, d, Little);
            && got.Ok? && FitOpt(Nn, got.value.value) && got.value.rest == AfterName(wanted, d)
            && PutOpt(wanted, Nn, got.value.value) + AfterName(wanted, d) == d
  {
    hide Get, Put, Fit, Clean;
    if wanted && d != [] {
      NnRewrites(d);
    } else {
      assert [] + d == d;
    }
  }

  lemma FtrNamesRewrite(flags: byte, d: seq<byte>)
    requires NamesFill(flags, d)
    ensures var wp, wl := !Flag(flags, 0x02), !Flag(flags, 0x04);
            var program := GetOpt(wp, Nn, d, Little);
            && program.Ok?
            && var testLabel := GetOpt(wl, Nn, program.value.rest, Little);
            && testLabel.Ok? && FitOpt(Nn, program.value.value) && FitOpt(Nn, testLabel.value.value)
            && PutOpt(wp, Nn, program.value.value) + PutOpt(wl, Nn, testLabel.value.value) == d
  {
    hide Flag, NameIntact, AfterName, GetOpt, PutOpt, FitOpt;
    var wp, wl := !Flag(flags, 0x02), !Flag(flags, 0x04);
    NameRewrites(wp, d);
    NameRewrites(wl, AfterName(wp, d));
    var program := GetOpt(wp, Nn, d, Little).value;
    var testLabel := GetOpt(wl, Nn, program.rest, Little).value;
    assert PutOpt(wl, Nn, testLabel.value) + [] == PutOpt(wl, Nn, testLabel.value);
  }

  lemma TextsAreValues(o: Option<Value>)
    requires o.Some? ==> o.value.Str?
    ensures OptStr(AsText(o)) == o
  {
  }

  lemma FtrTailRewrites(optFlg: int, d: seq<byte>)
    requires FtrTailIntact(optFlg, d)
    ensures var p := ParseFtrTail(optFlg, d, Little); p.Ok? && FtrFits(p.value) && FtrTail(p.value) == d
  {
    if d != [] {
      var alarm := GetCn(d).value;
      var flags, names := alarm.rest[0], alarm.rest[1..];
      FlagIsRead(true, alarm.rest);
      FlagByte(Some(flags));
      CnRewrites(d);
      hide Flag, NamesFill, GetCn, CleanCn, Put, CnBytes, ShortText;
      FtrNamesRewrite(flags, names);
      hide GetOpt, PutOpt;
      var program := GetOpt(!Flag(flags, 0x02), Nn, names, Little).value;
      var testLabel := GetOpt(!Flag(flags, 0x04), Nn, program.rest, Little).value;
      TextsAreValues(program.value);
      TextsAreValues(testLabel.value);
    }
  }

  // ---------- whole records are written back ----------

  /** A tail that is intact is parsed into a record that writes just that tail. */
  predicate TailComesBack(r: Result<Record, StdfError>, rest: seq<byte>)
  {
    r.Ok? && !r.value.Unknown? && TailFits(r.value) && Tail(r.value) == rest
  }

  lemma PlainTailComesBack(t: RecordType, v: seq<Value>)
    requires Prefix(t).Some? && t !in [RecordType(2, 20), RecordType(5, 30)]
    requires t !in [RecordType(5, 10), RecordType(15, 10), RecordType(15, 20)]
    ensures TailComesBack(Build(t, v, [], Little), [])
  {
    hide Prefix, N, T, Ts, Row;
  }

  lemma StringTailComesBack(t: RecordType, v: seq<Value>, rest: seq<byte>)
    requires Prefix(t).Some? && t in [RecordType(2, 20), RecordType(5, 30)] && TailIntact(t, v, rest)
    ensures TailComesBack(Build(t, v, rest, Little), rest)
  {
    hide Prefix, N, T, Ts, Row, StringsFill, GetTexts, CnsBytes, AllShort;
    if t == RecordType(2, 20) {
      StringsRewrite(rest, 5);
      var ts := GetTexts(rest, 5, Little).value;
      assert ts == [ts[0], ts[1], ts[2], ts[3], ts[4]];
    } else {
      StringsRewrite(rest, 3);
      var ts := GetTexts(rest, 3, Little).value;
      assert ts == [ts[0], ts[1], ts[2]];
    }
  }

  lemma FlaggedTailComesBack(t: RecordType, v: seq<Value>, rest: seq<byte>)
    requires Prefix(t).Some? && t in [RecordType(5, 10), RecordType(15, 10), RecordType(15, 20)] && TailIntact(t, v, rest)
    ensures TailComesBack(Build(t, v, rest, Little), rest)
  {
    hide Prefix, N, T, Ts, Row, PtrTailIntact, FtrTailIntact, ParsePtrTail, ParseFtrTail, ParsePmrTail, PtrFits, FtrFits;
    hide PtrTail, FtrTail, PmrTail, FitOpt;
    if t == RecordType(5, 10) {
      PmrTailRewrites(rest);
    } else if t == RecordType(15, 10) {
      PtrTailRewrites(N(v, 4), rest);
    } else {
      FtrTailRewrites(N(v, 4), rest);
    }
  }

  lemma TailRewrites(t: RecordType, v: seq<Value>, rest: seq<byte>)
    requires Prefix(t).Some? && TailIntact(t, v, rest)
    ensures TailComesBack(Build(t, v, rest, Little), rest)
  {
    hide Prefix, Build, TailComesBack, StringsFill, PtrTailIntact, FtrTailIntact;
    if t in [RecordType(5, 10), RecordType(15, 10), RecordType(15, 20)] {
      FlaggedTailComesBack(t, v, rest);
    } else if t in [RecordType(2, 20), RecordType(5, 30)] {
      StringTailComesBack(t, v, rest);
    } else {
      PlainTailComesBack(t, v);
    }
  }

  lemma IntactIsWrittenBack(t: RecordType, d: seq<byte>)
    requires Intact(t, d)
    ensures var r := Parse(t, d, Little); r.Ok? && Writable(r.value) && Body(r.value) == d
  {
    hide Prefix, Build, Row, TypeOf, Tail, TailFits, AllFit, PutAll, GetAll, AllClean, Shaped, TailIntact;
    if Prefix(t).Some? {
      var ks, all := Prefix(t).value, GetAll(Prefix(t).value, d, Little).value;
      FieldsRewrite(ks, d);
      GetAllIsShaped(ks, d, Little);
      BuiltRow(t, all.values, all.rest, Little);
      TailRewrites(t, all.values, all.rest);
    }
  }

  /**
   Reading a body, of any type and in either byte order, and writing the record again gives the same
   bytes exactly when the body is intact and its numbers do not depend on the byte order.
   */
  lemma {:induction false} LosslessIff(t: RecordType, d: seq<byte>, e: Endian)
    ensures var r := Parse(t, d, e);
            r.Ok? && Writable(r.value) && Body(r.value) == d <==> Intact(t, d) && r == Parse(t, d, Little)
  {
    ParsedIsKnownIff(t, d, e);
    hide Parse, TypeOf, Consistent, SameRecord, Body, Writable, Intact;
    var p := Parse(t, d, e);
    if p.Ok? && Writable(p.value) && Body(p.value) == d {
      RecordReadsIff(p.value, e);
      LittleIsSame(p.value);
      RecordReadsIff(p.value, Little);
      WrittenIsIntact(p.value);
    }
    if Intact(t, d) {
      IntactIsWrittenBack(t, d);
    }
  }

  // ---------- two ways to lose the bytes ----------

  /** A BPS record that arrives with a byte of its own is written without it. */
  lemma {:induction false} TailIsDropped()
    ensures Parse(RecordType(20, 15), [1], Little) == Ok(Bps)
    ensures Writable(Bps) && Body(Bps) == []
  {
    assert TypeOf(Bps) == RecordType(20, 15) && Prefix(RecordType(20, 15)) == Some([]);
    assert GetAll([], [1], Little) == Ok(GotAll([], [1]));
  }

  const PTR_TYPE := RecordType(15, 10)

  const NO_PTR_FIELDS := PtrOptional(None, None, None, None, None, None, [])

  lemma NothingBehindPtr(parmFlg: int, e: Endian)
    ensures ParsePtrTail(parmFlg, [], e) == Ok(NO_PTR_FIELDS)
  {
    hide Flag, Get, GetOpts;
    NoOptsAtTheEnd(PtrWanted(None), PTR_KINDS, e);
  }

  lemma NothingWrittenButUnits()
    ensures PtrFits(NO_PTR_FIELDS) && PtrTail(NO_PTR_FIELDS) == [0]
  {
    var p := NO_PTR_FIELDS;
    var vs := PtrValues(p);
    assert forall i :: 0 <= i < 5 ==> vs[i].None?;
    assert ShortText([]) && CnBytes([]) == [0];
    hide PtrWanted, PtrValues, PutOpts, ShortText, CnBytes;
    NoOptsWritten(PtrWanted(None), PTR_KINDS, vs);
  }

  lemma {:induction false} NoOptsAtTheEnd(ws: seq<bool>, ks: seq<Kind>, e: Endian)
    requires |ws| == |ks|
    ensures var r := GetOpts(ws, ks, [], e);
            r.Ok? && r.value.rest == [] && forall i :: 0 <= i < |ks| ==> r.value.values[i].None?
  {
    hide Get;
    if ks != [] {
      NoOptsAtTheEnd(ws[1..], ks[1..], e);
    }
  }

  lemma {:induction false} NoOptsWritten(ws: seq<bool>, ks: seq<Kind>, vs: seq<Option<Value>>)
    requires |ws| == |ks| && FitOpts(ks, vs) && forall i :: 0 <= i < |ks| ==> vs[i].None?
    ensures PutOpts(ws, ks, vs) == []
  {
    hide Put, Fit;
    if ks != [] {
      NoOptsWritten(ws[1..], ks[1..], vs[1..]);
    }
  }

  lemma OnlyUnits(r: Record)
    requires r.Ptr? && r.ptr == NO_PTR_FIELDS
    ensures TailFits(r) && Tail(r) == [0]
  {
    NothingWrittenButUnits();
    hide PtrFits, PtrTail;
  }

  lemma PtrBuilt(v: seq<Value>, rest: seq<byte>, e: Endian, p: PtrOptional)
    requires Prefix(PTR_TYPE).Some? && ParsePtrTail(N(v, 4), rest, e) == Ok(p)
    ensures var r := Build(PTR_TYPE, v, rest, e); r.Ok? && r.value.Ptr? && r.value.ptr == p
  {
    hide Prefix, ParsePtrTail, N, T, Ts, ParseFtrTail, ParsePmrTail, GetTexts;
  }

  lemma PtrWithoutTail(v: seq<Value>)
    requires Prefix(PTR_TYPE).Some?
    ensures var r := Build(PTR_TYPE, v, [], Little); r.Ok? && r.value.Ptr? && r.value.ptr == NO_PTR_FIELDS
  {
    hide Build, Prefix, ParsePtrTail, N;
    NothingBehindPtr(N(v, 4), Little);
    PtrBuilt(v, [], Little, NO_PTR_FIELDS);
  }

  lemma RowIsRead(v: seq<Value>, rest: seq<byte>)
    requires AllFit(Prefix(PTR_TYPE).value, v)
    ensures GetAll(Prefix(PTR_TYPE).value, PutAll(Prefix(PTR_TYPE).value, v) + rest, Little) == Ok(GotAll(v, rest))
  {
    NoNamesInRows(PTR_TYPE);
    var ks := Prefix(PTR_TYPE).value;
    hide Prefix, GetAll, PutAll, Fit;
    forall i | 0 <= i < |ks| ensures SameIn(Little, ks[i], v[i]) {
      assert !ks[i].Nn?;
    }
    FieldsReadIff(ks, v, rest, Little);
  }

  /** Every PTR that ends with its mandatory fields comes out with one more byte: empty units. */
  lemma {:induction false} UnitsAreAdded(v: seq<Value>)
    requires AllFit(Prefix(PTR_TYPE).value, v)
    ensures var d := PutAll(Prefix(PTR_TYPE).value, v);
            var r := Parse(PTR_TYPE, d, Little);
            r.Ok? && Writable(r.value) && Body(r.value) == d + [0]
  {
    var ks := Prefix(PTR_TYPE).value;
    var d := PutAll(ks, v);
    hide Prefix, GetAll, PutAll, Fit, Shaped, Row, TypeOf, Build, TailFits, Tail;
    RowIsRead(v, []);
    assert d + [] == d;
    GetAllIsShaped(ks, d, Little);
    BuiltRow(PTR_TYPE, v, [], Little);
    PtrWithoutTail(v);
    OnlyUnits(Build(PTR_TYPE, v, [], Little).value);
  }
}
