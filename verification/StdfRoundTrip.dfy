/**
 When an STDF record reads back as it was written: exactly when its optional fields match its flags
 and none of its numbers is turned around by the byte order of the reader.
 */
module StdfRoundTrip {
  import opened Outcomes
  import opened Bytes
  import opened Utf8
  import opened StdfCodec
  import opened StdfRecords

  // ---------- what a reader in byte order `e` gets right ----------

  predicate SameOpt(e: Endian, k: Kind, o: Option<Value>)
    requires FitOpt(k, o)
  {
    o.Some? ==> SameIn(e, k, o.value)
  }

  predicate SameOpts(e: Endian, ks: seq<Kind>, vs: seq<Option<Value>>)
    requires FitOpts(ks, vs)
  {
    forall i | 0 <= i < |ks| :: SameOpt(e, ks[i], vs[i])
  }

  predicate SameNames(e: Endian, p: FtrOptional)
    requires FtrFits(p)
  {
    SameOpt(e, Nn, OptStr(p.program)) && SameOpt(e, Nn, OptStr(p.testLabel))
  }

  predicate SameTail(e: Endian, r: Record)
    requires TailFits(r)
  {
    match r
    case Ptr(_, _, _, _, _, _, _, _, p) => SameOpts(e, PTR_KINDS, PtrValues(p))
    case Ftr(_, _, _, _, _, _, _, _, _, _, _, _, _, _, _, _, _, _, p) => SameNames(e, p)
    case _ => true
  }

  /** No number or length of the record changes when its bytes are taken in order `e`. */
  predicate SameRecord(e: Endian, r: Record)
    requires Writable(r)
  {
    r.Unknown? || (AllSameIn(e, Prefix(TypeOf(r)).value, Row(r)) && SameTail(e, r))
  }

  lemma NoNamesInRows(t: RecordType)
    requires Prefix(t).Some?
    ensures forall i :: 0 <= i < |Prefix(t).value| ==> !Prefix(t).value[i].Nn?
  {
    var ks := Prefix(t).value;
    forall i | 0 <= i < |ks| ensures !ks[i].Nn? {
    }
  }

  /** A reader of little-endian files gets every consistent record right. */
  lemma LittleIsSame(r: Record)
    requires Writable(r) && Consistent(r)
    ensures SameRecord(Little, r)
  {
    if !r.Unknown? {
      hide Prefix, Row, TypeOf, SameTail, TailFits, Consistent, AllFit, AllSameIn;
      LittleRowIsSame(r);
      LittleTailIsSame(r);
    }
  }

  lemma LittleRowIsSame(r: Record)
    requires !r.Unknown? && Prefix(TypeOf(r)).Some? && AllFit(Prefix(TypeOf(r)).value, Row(r))
    ensures AllSameIn(Little, Prefix(TypeOf(r)).value, Row(r))
  {
    NoNamesInRows(TypeOf(r));
    hide Prefix, Row, TypeOf, Fit;
    var ks, vs := Prefix(TypeOf(r)).value, Row(r);
    forall i | 0 <= i < |ks| ensures SameIn(Little, ks[i], vs[i]) {
      assert !ks[i].Nn?;
    }
  }

  lemma LittleTailIsSame(r: Record)
    requires TailFits(r) && Consistent(r)
    ensures SameTail(Little, r)
  {
    hide ShortText, PtrFlagsMatch, FtrFlagsMatch, PtrValues, Flag, LittleEndian, BigEndian;
  }

  lemma SameNamesFit(e: Endian, p: FtrOptional)
    requires FtrFits(p) && SameNames(e, p)
    ensures NamesFit(p)
  {
  }

  lemma ByteIsSame(e: Endian, k: Kind, v: Value)
    requires (k.U1? || k.I1?) && Fit(k, v)
    ensures SameIn(e, k, v)
  {
    hide Mirrored;
    OneByteIsMirrored(Bits(k, v));
  }

  // ---------- optional fields ----------

  lemma PutIsNotEmpty(k: Kind, v: Value)
    requires Fit(k, v)
    ensures Put(k, v) != []
  {
    hide LittleEndian, ValidText;
  }

  /** One optional field with bytes behind it: it must be there when wanted, and only then. */
  lemma OptReadsIff(written: bool, wanted: bool, k: Kind, o: Option<Value>, rest: seq<byte>, e: Endian)
    requires FitOpt(k, o) && (rest != [] || o.Some?) && (wanted ==> written)
    ensures var r := GetOpt(wanted, k, PutOpt(written, k, o) + rest, e);
            if o.Some? == wanted && SameOpt(e, k, o) then r == Ok(GotOpt(o, rest))
            else r.Ok? ==> r.value.value != o
  {
    hide Get, Put, Fit, SameIn;
    if wanted && o.Some? {
      FieldReadsIff(k, o.value, rest, e);
      PutIsNotEmpty(k, o.value);
    } else {
      assert [] + rest == rest;
    }
  }

  predicate OptsMatch(ws: seq<bool>, ks: seq<Kind>, vs: seq<Option<Value>>, e: Endian)
    requires |ws| == |ks| && FitOpts(ks, vs)
  {
    forall i | 0 <= i < |ks| :: vs[i].Some? == ws[i] && SameOpt(e, ks[i], vs[i])
  }

  lemma {:induction false} OptsReadIff(ws: seq<bool>, ks: seq<Kind>, vs: seq<Option<Value>>, rest: seq<byte>, e: Endian)
    requires |ws| == |ks| && FitOpts(ks, vs) && rest != []
    ensures var r := GetOpts(ws, ks, PutOpts(ws, ks, vs) + rest, e);
            if OptsMatch(ws, ks, vs, e) then r == Ok(GotOpts(vs, rest)) else r.Ok? ==> r.value.values != vs
  {
    hide GetOpt, PutOpt, FitOpt, SameOpt, OptsMatch;
    if ks == [] {
      assert OptsMatch(ws, ks, vs, e) by { NothingMatches(ws, ks, vs, e); }
      assert PutOpts(ws, ks, vs) + rest == rest;
    } else {
      var tail := PutOpts(ws[1..], ks[1..], vs[1..]) + rest;
      Associates(PutOpt(ws[0], ks[0], vs[0]), PutOpts(ws[1..], ks[1..], vs[1..]), rest);
      OptReadsIff(ws[0], ws[0], ks[0], vs[0], tail, e);
      OptsReadIff(ws[1..], ks[1..], vs[1..], rest, e);
      assert vs == [vs[0]] + vs[1..];
      OptsMatchStep(ws, ks, vs, e);
    }
  }

  lemma NothingMatches(ws: seq<bool>, ks: seq<Kind>, vs: seq<Option<Value>>, e: Endian)
    requires |ws| == |ks| == 0 && FitOpts(ks, vs)
    ensures OptsMatch(ws, ks, vs, e)
  {
  }

  lemma OptsMatchStep(ws: seq<bool>, ks: seq<Kind>, vs: seq<Option<Value>>, e: Endian)
    requires |ws| == |ks| > 0 && FitOpts(ks, vs)
    ensures OptsMatch(ws, ks, vs, e)
       <==> vs[0].Some? == ws[0] && SameOpt(e, ks[0], vs[0]) && OptsMatch(ws[1..], ks[1..], vs[1..], e)
  {
    hide FitOpt, SameOpt;
  }

  lemma UnitsRoundTrip(t: Text, e: Endian)
    requires ShortText(t)
    ensures CnBytes(t) != [] && GetCnOrEmpty(CnBytes(t), e) == Ok(Got(Str(t), []))
  {
    hide ValidText;
    CnRoundTrip(t, []);
    assert CnBytes(t) + [] == CnBytes(t);
  }

  lemma PtrMatchIff(parmFlg: int, p: PtrOptional, e: Endian)
    requires PtrFits(p)
    ensures PtrFlagsMatch(parmFlg, p) && SameOpts(e, PTR_KINDS, PtrValues(p))
       <==> p.optFlg.Some? == Flag(parmFlg, OPT_FLAG_PRESENT) && OptsMatch(PtrWanted(p.optFlg), PTR_KINDS, PtrValues(p), e)
  {
    hide Flag, Fit, PtrWanted, SameOpt, ShortText;
    var ws, vs := PtrWanted(p.optFlg), PtrValues(p);
    if PtrFlagsMatch(parmFlg, p) && SameOpts(e, PTR_KINDS, vs) {
      forall i | 0 <= i < 5 ensures vs[i].Some? == ws[i] && SameOpt(e, PTR_KINDS[i], vs[i]) {
        assert vs[i].Some? <==> ws[i];
      }
    }
  }

  lemma FlagByteIsSame(e: Endian, o: Option<int>)
    requires FitOpt(U1, OptValue(o))
    ensures SameOpt(e, U1, OptValue(o))
  {
    if o.Some? {
      ByteIsSame(e, U1, Num(o.value));
    }
  }

  lemma PtrFieldsReadIff(p: PtrOptional, e: Endian)
    requires PtrFits(p)
    ensures var ws, vs := PtrWanted(p.optFlg), PtrValues(p);
            ParsePtrFields(p.optFlg, PutOpts(ws, PTR_KINDS, vs) + CnBytes(p.units), e) == Ok(p)
            <==> OptsMatch(ws, PTR_KINDS, vs, e)
  {
    hide GetOpt, PutOpt, Get, Put, Fit, GetOpts, PutOpts, GetCnOrEmpty, CnBytes, PtrWanted, Flag, OptsMatch, ValidText;
    var ws, vs, units := PtrWanted(p.optFlg), PtrValues(p), CnBytes(p.units);
    UnitsRoundTrip(p.units, e);
    OptsReadIff(ws, PTR_KINDS, vs, units, e);
    var got := GetOpts(ws, PTR_KINDS, PutOpts(ws, PTR_KINDS, vs) + units, e);
    if got.Ok? && got.value.values != vs {
      DifferentFields(got.value.values, p);
    }
  }

  /** A PTR's optional fields read back exactly when they match the flags and the byte order. */
  lemma PtrTailReadsIff(parmFlg: int, p: PtrOptional, e: Endian)
    requires PtrFits(p)
    ensures ParsePtrTail(parmFlg, PtrTail(p), e) == Ok(p)
       <==> PtrFlagsMatch(parmFlg, p) && SameOpts(e, PTR_KINDS, PtrValues(p))
  {
    var present := Flag(parmFlg, OPT_FLAG_PRESENT);
    var fields := PutOpts(PtrWanted(p.optFlg), PTR_KINDS, PtrValues(p)) + CnBytes(p.units);
    FlagByteIsSame(e, p.optFlg);
    hide GetOpt, PutOpt, Fit, PutOpts, CnBytes, PtrWanted, Flag, PtrFlagsMatch, SameOpts, SameIn, OptsMatch, ShortText,
         ParsePtrFields, PtrValues, SameOpt, Get, Put;
    PtrMatchIff(parmFlg, p, e);
    UnitsRoundTrip(p.units, e);
    OptReadsIff(true, present, U1, OptValue(p.optFlg), fields, e);
    PtrFieldsReadIff(p, e);
  }

  lemma DifferentFields(vs: seq<Option<Value>>, p: PtrOptional)
    requires |vs| == 5 && vs != PtrValues(p)
    requires forall i | 0 <= i < 5 :: vs[i].Some? ==> vs[i].value.Num?
    ensures [AsInt(vs[0]), AsInt(vs[1]), AsInt(vs[2]), AsInt(vs[3]), AsInt(vs[4])]
         != [p.resScal, p.llmScal, p.hlmScal, p.loLimit, p.hiLimit]
  {
    var i :| 0 <= i < 5 && vs[i] != PtrValues(p)[i];
  }

  /** A last optional field may be absent although wanted: the record has simply ended. */
  lemma LastOptReadsIff(wanted: bool, k: Kind, o: Option<Value>, e: Endian)
    requires FitOpt(k, o)
    ensures var r := GetOpt(wanted, k, PutOpt(wanted, k, o), e);
            if o.Some? ==> wanted && SameOpt(e, k, o) then r == Ok(GotOpt(o, []))
            else r.Ok? ==> r.value.value != o
  {
    hide SameIn, Put, Get;
    assert PutOpt(wanted, k, o) + [] == PutOpt(wanted, k, o);
    if o.Some? {
      OptReadsIff(wanted, wanted, k, o, [], e);
    }
  }

  /** The program and the test label of an FTR, given its second flags. */
  lemma FtrNamesReadIff(flags: int, program: Option<Value>, testLabel: Option<Value>, e: Endian)
    requires FitOpt(Nn, program) && FitOpt(Nn, testLabel)
    ensures var wp, wl := !Flag(flags, 0x02), !Flag(flags, 0x04);
            var p := GetOpt(wp, Nn, PutOpt(wp, Nn, program) + PutOpt(wl, Nn, testLabel), e);
            (p.Ok? && p.value.value == program
             && var l := GetOpt(wl, Nn, p.value.rest, e); l.Ok? && l.value.value == testLabel)
            <==> (program.Some? ==> wp) && (testLabel.Some? ==> wl && (program.Some? || !wp))
                 && SameOpt(e, Nn, program) && SameOpt(e, Nn, testLabel)
  {
    hide Get, Put, Fit, Flag, SameIn;
    var wp, wl := !Flag(flags, 0x02), !Flag(flags, 0x04);
    var tail := PutOpt(wl, Nn, testLabel);
    LastOptReadsIff(wl, Nn, testLabel, e);
    if testLabel.Some? && wl {
      PutIsNotEmpty(Nn, testLabel.value);
    }
    if tail != [] || program.Some? {
      OptReadsIff(wp, wp, Nn, program, tail, e);
    } else {
      assert PutOpt(wp, Nn, program) + tail == [];
    }
  }

  /** An FTR's names read back exactly when they match both flag bytes and the byte order. */
  lemma FtrTailReadsIff(optFlg: int, p: FtrOptional, e: Endian)
    requires FtrFits(p)
    ensures ParseFtrTail(optFlg, FtrTail(p), e) == Ok(p) <==> FtrFlagsMatch(optFlg, p) && SameNames(e, p)
  {
    hide Get, Put, Fit, Flag, CnBytes, PutOpt, GetOpt, SameIn;
    if p.alarmId.Some? {
      var flags := Flags2(p);
      var names := PutOpt(p.optFlg2.None? || !Flag(flags, 0x02), Nn, OptStr(p.program))
                 + PutOpt(p.optFlg2.None? || !Flag(flags, 0x04), Nn, OptStr(p.testLabel));
      FtrHeadReadsBack(p, names, e);
      if Flag(optFlg, 0x01) && p.optFlg2.Some? {
        FtrNamesReadIff(flags, OptStr(p.program), OptStr(p.testLabel), e);
      }
    }
  }

  lemma FtrHeadReadsBack(p: FtrOptional, names: seq<byte>, e: Endian)
    requires FtrFits(p) && p.alarmId.Some?
    ensures Fit(U1, Num(Flags2(p))) && |p.alarmId.value| <= 255
    ensures var flags := Put(U1, Num(Flags2(p))) + names;
            var data := CnBytes(p.alarmId.value) + flags;
            && data != []
            && Get(Cn, data, e) == Ok(Got(Str(p.alarmId.value), flags))
            && GetOpt(true, U1, flags, e) == Ok(GotOpt(Some(Num(Flags2(p))), names))
  {
    SmallPowers();
    hide ValidText, LittleEndian, FromBytes;
    var v := Num(Flags2(p));
    assert Fit(U1, v);
    ByteIsSame(e, U1, v);
    CnRoundTrip(p.alarmId.value, Put(U1, v) + names);
    hide GetCn, SameIn;
    OptReadsIff(true, true, U1, Some(v), names, e);
  }

  /** Trailing strings always read back. */
  lemma {:induction false} TextsRoundTrip(ts: seq<Text>, e: Endian)
    requires AllShort(ts)
    ensures GetTexts(CnsBytes(ts), |ts|, e) == Ok(ts)
  {
    hide CnBytes, GetCn, ValidText;
    if ts != [] {
      assert CnBytes(ts[0]) + CnsBytes(ts[1..]) != [] by { UnitsRoundTrip(ts[0], e); }
      CnRoundTrip(ts[0], CnsBytes(ts[1..]));
      TextsRoundTrip(ts[1..], e);
      assert ts == [ts[0]] + ts[1..];
    }
  }

  lemma PmrTailReadsIff(head: Option<int>, site: Option<int>, e: Endian)
    requires FitOpt(U1, OptValue(head)) && FitOpt(U1, OptValue(site))
    ensures ParsePmrTail(PmrTail(head, site), e) == Ok(HeadSite(head, site)) <==> (head.Some? <==> site.Some?)
  {
    if head.Some? && site.Some? {
      ByteIsSame(e, U1, Num(head.value));
      ByteIsSame(e, U1, Num(site.value));
      hide Get, Put, Fit, SameIn;
      FieldReadsIff(U1, Num(head.value), Put(U1, Num(site.value)), e);
      FieldReadsIff(U1, Num(site.value), [], e);
      assert Put(U1, Num(site.value)) + [] == Put(U1, Num(site.value));
      PutIsNotEmpty(U1, Num(head.value));
    }
  }

  // ---------- building loses no mandatory value ----------

  predicate IsRowOf(r: Result<Record, StdfError>, t: RecordType, v: seq<Value>)
  {
    r.Ok? ==> !r.value.Unknown? && TypeOf(r.value) == t && Row(r.value) == v
  }

  /** The mandatory values can be taken back out of every record that is built from them. */
  lemma {:induction false} BuiltRow(t: RecordType, v: seq<Value>, rest: seq<byte>, e: Endian)
    requires Prefix(t).Some? && Shaped(Prefix(t).value, v)
    ensures IsRowOf(Build(t, v, rest, e), t, v)
  {
    hide Prefix, Build, Shaped, IsRowOf;
    if t == RecordType(1, 10) {
      MirRow(v, rest, e);
    } else if t.typ == 1 {
      LotRow(t, v, rest, e);
    } else if t.typ == 2 {
      WaferRow(t, v, rest, e);
    } else if t.typ == 5 {
      PinRow(t, v, rest, e);
    } else if t == RecordType(15, 10) {
      PtrRow(t, v, rest, e);
    } else if t == RecordType(15, 20) {
      FtrRow(t, v, rest, e);
    } else {
      OtherRow(t, v, rest, e);
    }
  }

  lemma LotRow(t: RecordType, v: seq<Value>, rest: seq<byte>, e: Endian)
    requires Prefix(t).Some? && Shaped(Prefix(t).value, v) && t.typ == 1 && t.sub != 10
    ensures IsRowOf(Build(t, v, rest, e), t, v)
  {
    hide Flag, GetTexts, ParsePtrTail, ParseFtrTail, ParsePmrTail, StrValues;
    assert forall i | 0 <= i < |v| :: HasShape(Prefix(t).value[i], v[i]);
  }

  lemma WaferRow(t: RecordType, v: seq<Value>, rest: seq<byte>, e: Endian)
    requires Prefix(t).Some? && Shaped(Prefix(t).value, v) && t.typ == 2
    ensures IsRowOf(Build(t, v, rest, e), t, v)
  {
    hide Flag, GetTexts, ParsePtrTail, ParseFtrTail, ParsePmrTail, StrValues;
    assert forall i | 0 <= i < |v| :: HasShape(Prefix(t).value[i], v[i]);
  }

  lemma PinRow(t: RecordType, v: seq<Value>, rest: seq<byte>, e: Endian)
    requires Prefix(t).Some? && Shaped(Prefix(t).value, v) && t.typ == 5
    ensures IsRowOf(Build(t, v, rest, e), t, v)
  {
    hide Flag, GetTexts, ParsePtrTail, ParseFtrTail, ParsePmrTail, StrValues;
    assert forall i | 0 <= i < |v| :: HasShape(Prefix(t).value[i], v[i]);
  }

  lemma PtrRow(t: RecordType, v: seq<Value>, rest: seq<byte>, e: Endian)
    requires Prefix(t).Some? && Shaped(Prefix(t).value, v) && t == RecordType(15, 10)
    ensures IsRowOf(Build(t, v, rest, e), t, v)
  {
    hide Flag, GetTexts, ParsePtrTail, ParseFtrTail, ParsePmrTail, StrValues;
    assert forall i | 0 <= i < |v| :: HasShape(Prefix(t).value[i], v[i]);
  }

  /** Eighteen values of the right sorts are the values of an FTR. */
  lemma FtrValues(v: seq<Value>)
    requires Shaped(FTR_KINDS, v)
    ensures v == [Num(N(v, 0)), Num(N(v, 1)), Num(N(v, 2)), Num(N(v, 3)), Num(N(v, 4)), Num(N(v, 5)), Num(N(v, 6)),
                  Num(N(v, 7)), Num(N(v, 8)), Num(N(v, 9)), Num(N(v, 10)), Num(N(v, 11)), Num(N(v, 12)),
                  Num(N(v, 13)), Num(N(v, 14)), Num(N(v, 15)), Strs(Ts(v, 16)), Strs(Ts(v, 17))]
  {
    forall i | 0 <= i < 18 ensures if i < 16 then v[i] == Num(N(v, i)) else v[i] == Strs(Ts(v, i)) {
      assert HasShape(FTR_KINDS[i], v[i]);
    }
  }

  lemma FtrPrefix()
    ensures Prefix(RecordType(15, 20)) == Some(FTR_KINDS)
  {
  }

  lemma FtrRow(t: RecordType, v: seq<Value>, rest: seq<byte>, e: Endian)
    requires t == RecordType(15, 20) && Shaped(Prefix(t).value, v)
    ensures IsRowOf(Build(t, v, rest, e), t, v)
  {
    FtrPrefix();
    FtrValues(v);
    hide Prefix, N, Ts, T, Shaped, Flag, GetTexts, ParsePtrTail, ParseFtrTail, ParsePmrTail, StrValues;
  }

  lemma OtherRow(t: RecordType, v: seq<Value>, rest: seq<byte>, e: Endian)
    requires Prefix(t).Some? && Shaped(Prefix(t).value, v)
    requires t.typ !in [1, 2, 5] && t != RecordType(15, 10) && t != RecordType(15, 20)
    ensures IsRowOf(Build(t, v, rest, e), t, v)
  {
    hide Flag, GetTexts, ParsePtrTail, ParseFtrTail, ParsePmrTail, StrValues;
    assert forall i | 0 <= i < |v| :: HasShape(Prefix(t).value[i], v[i]);
  }

  lemma MirRow(v: seq<Value>, rest: seq<byte>, e: Endian)
    requires Shaped(Prefix(RecordType(1, 10)).value, v)
    ensures IsRowOf(Build(RecordType(1, 10), v, rest, e), RecordType(1, 10), v)
  {
    var ks := Prefix(RecordType(1, 10)).value;
    var row := Row(Build(RecordType(1, 10), v, rest, e).value);
    assert forall i | 8 <= i < |ks| :: ks[i] == Cn;
    assert |row| == |v|;
    forall i | 0 <= i < |v| ensures row[i] == v[i] {
      assert HasShape(ks[i], v[i]);
    }
  }

  // ---------- whole records ----------

  /** The records without flags come back from their row and their strings. */
  lemma PlainBuild(r: Record, e: Endian)
    requires Writable(r) && !r.Unknown? && !r.Pmr? && !r.Ptr? && !r.Ftr?
    ensures Build(TypeOf(r), Row(r), Tail(r), e) == Ok(r)
  {
    if r.Wrr? || r.Tsr? {
      TextsBuild(r, e);
    } else {
      FixedBuild(r, e);
    }
  }

  lemma TextsBuild(r: Record, e: Endian)
    requires Writable(r) && (r.Wrr? || r.Tsr?)
    ensures Build(TypeOf(r), Row(r), Tail(r), e) == Ok(r)
  {
    hide Fit, CnsBytes, GetTexts, AllShort, AllFit;
    TextsRoundTrip(TailTexts(r), e);
  }

  lemma MirBuild(r: Record, e: Endian)
    requires Writable(r) && r.Mir?
    ensures Build(TypeOf(r), Row(r), Tail(r), e) == Ok(r)
  {
    hide Fit, CnsBytes, GetTexts, AllShort, TailFits, Tail, ParsePtrTail, ParseFtrTail, ParsePmrTail;
    assert |r.strings| == MIR_STRINGS;
    assert r.strings == seq(MIR_STRINGS, i requires 0 <= i => T(Row(r), 8 + i));
  }

  lemma FixedBuild(r: Record, e: Endian)
    requires Writable(r) && !r.Unknown? && !r.Pmr? && !r.Ptr? && !r.Ftr? && !r.Wrr? && !r.Tsr?
    ensures Build(TypeOf(r), Row(r), Tail(r), e) == Ok(r)
  {
    if r.Mir? {
      hide Writable, Build, TypeOf, Row, Tail;
      MirBuild(r, e);
    } else {
      hide Prefix, Fit, CnsBytes, GetTexts, AllShort, TailFits, Tail, ParsePtrTail, ParseFtrTail, ParsePmrTail;
    }
  }

  lemma PmrBuildIff(r: Record, e: Endian)
    requires Writable(r) && r.Pmr?
    ensures Build(TypeOf(r), Row(r), Tail(r), e) == Ok(r) <==> Consistent(r) && SameTail(e, r)
  {
    hide Fit, AllFit, ParsePmrTail, PmrTail, FitOpt;
    PmrTailReadsIff(r.head, r.site, e);
  }

  lemma PtrBuildIff(r: Record, e: Endian)
    requires Writable(r) && r.Ptr?
    ensures Build(TypeOf(r), Row(r), Tail(r), e) == Ok(r) <==> Consistent(r) && SameTail(e, r)
  {
    hide Fit, AllFit, ParsePtrTail, PtrTail, PtrFits, PtrFlagsMatch, SameOpts, PtrValues;
    PtrTailReadsIff(r.parmFlg, r.ptr, e);
  }

  lemma FtrBuildIff(r: Record, e: Endian)
    requires Writable(r) && r.Ftr?
    ensures Build(TypeOf(r), Row(r), Tail(r), e) == Ok(r) <==> Consistent(r) && SameTail(e, r)
  {
    hide Fit, AllFit, ParseFtrTail, FtrTail, FtrFits, FtrFlagsMatch, SameNames, NamesFit;
    FtrTailReadsIff(r.optFlg, r.ftr, e);
    if SameNames(e, r.ftr) {
      SameNamesFit(e, r.ftr);
    }
  }

  lemma PlainIsConsistent(r: Record, e: Endian)
    requires !r.Unknown? && !r.Pmr? && !r.Ptr? && !r.Ftr? && TailFits(r)
    ensures Consistent(r) && SameTail(e, r)
  {
  }

  lemma BuildIff(r: Record, e: Endian)
    requires Writable(r) && !r.Unknown?
    ensures Build(TypeOf(r), Row(r), Tail(r), e) == Ok(r) <==> Consistent(r) && SameTail(e, r)
  {
    hide TypeOf, Row, Tail, TailFits, Build, Consistent, SameTail, Prefix, AllFit;
    if r.Pmr? {
      PmrBuildIff(r, e);
    } else if r.Ptr? {
      PtrBuildIff(r, e);
    } else if r.Ftr? {
      FtrBuildIff(r, e);
    } else {
      PlainBuild(r, e);
      PlainIsConsistent(r, e);
    }
  }

  /** Parsing a written body ends in the mandatory values, with the tail left over, or in other values. */
  lemma ParseOfRow(t: RecordType, row: seq<Value>, tail: seq<byte>, e: Endian)
    requires Prefix(t).Some? && AllFit(Prefix(t).value, row)
    ensures var p := Parse(t, PutAll(Prefix(t).value, row) + tail, e);
            if AllSameIn(e, Prefix(t).value, row) then p == Build(t, row, tail, e)
            else p.Ok? ==> Row(p.value) != row
  {
    hide Prefix, Build, AllFit, GetAll, PutAll, Row, TypeOf, AllSameIn, Shaped;
    var ks := Prefix(t).value;
    var data := PutAll(ks, row) + tail;
    FieldsReadIff(ks, row, tail, e);
    if GetAll(ks, data, e).Ok? {
      var got := GetAll(ks, data, e).value;
      GetAllIsShaped(ks, data, e);
      BuiltRow(t, got.values, got.rest, e);
    }
  }

  lemma OnlyUnknownLacksPrefix(r: Record)
    ensures !r.Unknown? ==> Prefix(TypeOf(r)).Some?
  {
  }

  lemma KnownReadsIff(r: Record, e: Endian)
    requires Writable(r) && !r.Unknown?
    ensures Parse(TypeOf(r), Body(r), e) == Ok(r) <==> Consistent(r) && SameRecord(e, r)
  {
    OnlyUnknownLacksPrefix(r);
    hide TypeOf, Prefix, Row, Tail, TailFits, Build, Consistent, AllFit, PutAll, Parse, AllSameIn, SameTail;
    ParseOfRow(TypeOf(r), Row(r), Tail(r), e);
    BuildIff(r, e);
  }

  /** A modelled type never parses to an unknown record. */
  lemma ParsedIsKnownIff(t: RecordType, data: seq<byte>, e: Endian)
    ensures var p := Parse(t, data, e);
            p.Ok? ==> TypeOf(p.value) == t && (p.value.Unknown? <==> Prefix(t).None?)
  {
    hide GetAll, Prefix, Build, Shaped, Row;
    if Prefix(t).Some? && GetAll(Prefix(t).value, data, e).Ok? {
      var got := GetAll(Prefix(t).value, data, e).value;
      GetAllIsShaped(Prefix(t).value, data, e);
      BuiltRow(t, got.values, got.rest, e);
    }
  }

  lemma UnknownReadsIff(r: Record, e: Endian)
    requires r.Unknown?
    ensures Parse(TypeOf(r), Body(r), e) == Ok(r) <==> Consistent(r)
  {
    hide GetAll, Prefix, Build;
    assert TypeOf(r) == RecordType(r.typ, r.sub) && Body(r) == r.data;
    ParsedIsKnownIff(TypeOf(r), r.data, e);
  }

  /**
   A written record reads back exactly when its optional fields are consistent with its flags and
   nothing in it depends on the byte order of the reader.
   */
  lemma {:induction false} RecordReadsIff(r: Record, e: Endian)
    requires Writable(r)
    ensures Parse(TypeOf(r), Body(r), e) == Ok(r) <==> Consistent(r) && SameRecord(e, r)
  {
    if r.Unknown? {
      UnknownReadsIff(r, e);
    } else {
      hide Parse, Consistent, TypeOf, Writable, Body, SameRecord;
      KnownReadsIff(r, e);
    }
  }
}
