/**
 Bodies of 65536 bytes and more. REC_LEN keeps the low 16 bits of the length, so the reader is handed
 the front of such a body; it never makes the written record of it.
 */
module StdfOverlong {
  import opened Outcomes
  import opened Bytes
  import opened Utf8
  import opened StdfCodec
  import opened StdfRecords
  import opened StdfRoundTrip

  // ---------- only the names of an FTR are long ----------

  lemma {:induction false} StringsAreShort(ts: seq<Text>)
    requires AllShort(ts)
    ensures |CnsBytes(ts)| <= 256 * |ts|
  {
    hide ValidText;
    if ts != [] {
      StringsAreShort(ts[1..]);
    }
  }

  lemma NumberIsShort(wanted: bool, k: Kind, o: Option<Value>)
    requires Numeric(k) && FitOpt(k, o)
    ensures |PutOpt(wanted, k, o)| <= 4
  {
    hide LittleEndian;
  }

  lemma {:induction false} NumbersAreShort(ws: seq<bool>, ks: seq<Kind>, vs: seq<Option<Value>>)
    requires |ws| == |ks| && FitOpts(ks, vs) && forall i :: 0 <= i < |ks| ==> Numeric(ks[i])
    ensures |PutOpts(ws, ks, vs)| <= 4 * |ks|
  {
    hide FitOpt, PutOpt;
    if ks != [] {
      NumberIsShort(ws[0], ks[0], vs[0]);
      NumbersAreShort(ws[1..], ks[1..], vs[1..]);
    }
  }

  lemma PtrTailIsShort(p: PtrOptional)
    requires PtrFits(p)
    ensures |PtrTail(p)| <= 1000
  {
    NumberIsShort(true, U1, OptValue(p.optFlg));
    hide PutOpt, FitOpt, PutOpts, PtrWanted;
    NumbersAreShort(PtrWanted(p.optFlg), PTR_KINDS, PtrValues(p));
  }

  lemma PmrTailIsShort(head: Option<int>, site: Option<int>)
    requires FitOpt(U1, OptValue(head)) && FitOpt(U1, OptValue(site))
    ensures |PmrTail(head, site)| <= 8
  {
    NumberIsShort(true, U1, OptValue(head));
    NumberIsShort(true, U1, OptValue(site));
    hide Put, Fit;
  }

  lemma OnlyFtrTailIsLong(r: Record)
    requires TailFits(r) && !r.Ftr?
    ensures |Tail(r)| <= 2000
  {
    hide PtrTail, PmrTail, PtrFits, FitOpt, AllShort, CnsBytes;
    if r.Ptr? {
      PtrTailIsShort(r.ptr);
    } else if r.Pmr? {
      PmrTailIsShort(r.head, r.site);
    } else {
      StringsAreShort(TailTexts(r));
    }
  }

  // ---------- the names of an FTR are not read from less ----------

  /** Where a field ends does not depend on the bytes that were cut off far behind it. */
  lemma OptOfCut(wanted: bool, k: Kind, o: Option<Value>, tail: seq<byte>, d: seq<byte>, x: seq<byte>, e: Endian)
    requires FitOpt(k, o) && PutOpt(wanted, k, o) + tail == d + x
    requires var r := GetOpt(wanted, k, d, e); r.Ok? && r.value.value == o
    ensures tail == GetOpt(wanted, k, d, e).value.rest + x
  {
    hide Get, Put, Fit, SameIn;
    if o.Some? {
      GetIsLocal(k, d, x, e);
      FieldReadsIff(k, o.value, tail, e);
    } else {
      assert [] + tail == tail;
    }
  }

  lemma FtrNamesOfCut(flags: int, program: Option<Value>, testLabel: Option<Value>, d: seq<byte>, x: seq<byte>, e: Endian)
    requires FitOpt(Nn, program) && FitOpt(Nn, testLabel)
    requires PutOpt(!Flag(flags, 0x02), Nn, program) + PutOpt(!Flag(flags, 0x04), Nn, testLabel) == d + x
    requires var p := GetOpt(!Flag(flags, 0x02), Nn, d, e);
             && p.Ok? && p.value.value == program
             && var l := GetOpt(!Flag(flags, 0x04), Nn, p.value.rest, e); l.Ok? && l.value.value == testLabel
    ensures x == []
  {
    hide GetOpt, PutOpt, FitOpt, Flag;
    var wp, wl := !Flag(flags, 0x02), !Flag(flags, 0x04);
    var tail := PutOpt(wl, Nn, testLabel);
    OptOfCut(wp, Nn, program, tail, d, x, e);
    assert tail + [] == tail;
    OptOfCut(wl, Nn, testLabel, [], GetOpt(wp, Nn, d, e).value.rest, x, e);
  }

  /** The second flags and the names, as `ParseFtrTail` reads them behind the alarm id. */
  predicate FlagsAndNamesRead(p: FtrOptional, d: seq<byte>, e: Endian)
  {
    var flags, f := Flags2(p), GetOpt(true, U1, d, e);
    && f.Ok? && flags == (if f.value.value.Some? && f.value.value.value.Num? then f.value.value.value.n else 0)
    && var program := GetOpt(!Flag(flags, 0x02), Nn, f.value.rest, e);
       && program.Ok? && program.value.value == OptStr(p.program)
       && var named := GetOpt(!Flag(flags, 0x04), Nn, program.value.rest, e);
          named.Ok? && named.value.value == OptStr(p.testLabel)
  }

  lemma FtrTailIsRead(optFlg: int, p: FtrOptional, d: seq<byte>, e: Endian)
    requires p.alarmId.Some? && ParseFtrTail(optFlg, d, e) == Ok(p)
    ensures p.optFlg2.Some?
    ensures var alarm := GetOpt(true, Cn, d, e);
            && alarm.Ok? && alarm.value.value == OptStr(p.alarmId)
            && FlagsAndNamesRead(p, alarm.value.rest, e)
  {
    hide Get, Flag;
  }

  lemma FlagsAndNamesOfCut(p: FtrOptional, d: seq<byte>, x: seq<byte>, e: Endian)
    requires FtrFits(p) && p.optFlg2.Some? && FlagsAndNamesRead(p, d, e)
    requires Put(U1, Num(Flags2(p))) + (PutOpt(!Flag(Flags2(p), 0x02), Nn, OptStr(p.program))
                                        + PutOpt(!Flag(Flags2(p), 0x04), Nn, OptStr(p.testLabel))) == d + x
    ensures |x| <= 1
  {
    var flags := Flags2(p);
    assert |Put(U1, Num(flags))| == 1;
    hide Flag, Get, Put, Fit;
    if d != [] {
      var names := PutOpt(!Flag(flags, 0x02), Nn, OptStr(p.program)) + PutOpt(!Flag(flags, 0x04), Nn, OptStr(p.testLabel));
      OptOfCut(true, U1, Some(Num(flags)), names, d, x, e);
      FtrNamesOfCut(flags, OptStr(p.program), OptStr(p.testLabel), GetOpt(true, U1, d, e).value.rest, x, e);
    }
  }

  /** An FTR is not read from the front of its own optional fields, if more than one byte is cut off. */
  lemma FtrTailOfCut(optFlg: int, p: FtrOptional, d: seq<byte>, x: seq<byte>, e: Endian)
    requires FtrFits(p) && FtrTail(p) == d + x && ParseFtrTail(optFlg, d, e) == Ok(p)
    ensures |x| <= 1
  {
    hide Flag, Get, Put, Fit, ParseFtrTail, FlagsAndNamesRead;
    if p.alarmId.Some? {
      FtrTailIsRead(optFlg, p, d, e);
      var flags := Flags2(p);
      var names := PutOpt(!Flag(flags, 0x02), Nn, OptStr(p.program)) + PutOpt(!Flag(flags, 0x04), Nn, OptStr(p.testLabel));
      AlarmBytes(p.alarmId.value);
      hide GetOpt, CnBytes;
      assert FtrTail(p) == CnBytes(p.alarmId.value) + (Put(U1, Num(flags)) + names);
      OptOfCut(true, Cn, OptStr(p.alarmId), Put(U1, Num(flags)) + names, d, x, e);
      FlagsAndNamesOfCut(p, GetOpt(true, Cn, d, e).value.rest, x, e);
    }
  }

  lemma AlarmBytes(t: Text)
    requires Fit(Cn, Str(t))
    ensures |t| <= 255 && Put(Cn, Str(t)) == CnBytes(t)
  {
    hide ValidText;
  }

  // ---------- whole records ----------

  lemma BuiltFtr(v: seq<Value>, rest: seq<byte>, e: Endian)
    requires Prefix(RecordType(15, 20)).Some?
    ensures var r := Build(RecordType(15, 20), v, rest, e);
            r.Ok? && r.value.Ftr? ==> ParseFtrTail(N(v, 4), rest, e) == Ok(r.value.ftr)
  {
    hide Prefix, ParseFtrTail, ParsePtrTail, ParsePmrTail, GetTexts, N, T, Ts;
  }

  /** The tail that a record was read from is not far from the whole of its own. */
  lemma TailOfCut(r: Record, v: seq<Value>, d: seq<byte>, x: seq<byte>, e: Endian)
    requires !r.Unknown? && Prefix(TypeOf(r)).Some? && TailFits(r) && Tail(r) == d + x && |x| > 2000
    ensures Build(TypeOf(r), v, d, e) != Ok(r)
  {
    hide Prefix, Build, FtrFits, FtrTail, ParseFtrTail, N;
    if r.Ftr? {
      BuiltFtr(v, d, e);
      if Build(TypeOf(r), v, d, e) == Ok(r) {
        FtrTailOfCut(N(v, 4), r.ftr, d, x, e);
      }
    } else {
      OnlyFtrTailIsLong(r);
    }
  }

  lemma KnownOfCut(r: Record, d: seq<byte>, x: seq<byte>, e: Endian)
    requires !r.Unknown? && Writable(r) && Body(r) == d + x && |x| > 2000
    ensures Parse(TypeOf(r), d, e) != Ok(r)
  {
    OnlyUnknownLacksPrefix(r);
    hide Prefix, TypeOf, Row, Tail, TailFits, Build, AllFit, PutAll, GetAll, Shaped, AllSameIn;
    var ks := Prefix(TypeOf(r)).value;
    if Parse(TypeOf(r), d, e) == Ok(r) {
      var row := GetAll(ks, d, e).value;
      GetAllIsShaped(ks, d, e);
      BuiltRow(TypeOf(r), row.values, row.rest, e);
      GetAllIsLocal(ks, d, x, e);
      FieldsReadIff(ks, Row(r), Tail(r), e);
      TailOfCut(r, row.values, row.rest, x, e);
    }
  }

  /** A record whose body REC_LEN cannot announce is not read back, in either byte order. */
  lemma {:induction false} OverlongIsNotRead(r: Record, e: Endian)
    requires Writable(r) && |Body(r)| > 0xFFFF
    ensures Parse(TypeOf(r), Body(r)[..|Body(r)| % 0x1_0000], e) != Ok(r)
  {
    var d := Body(r)[..|Body(r)| % 0x1_0000];
    if r.Unknown? {
      hide Prefix, Build, GetAll;
      assert Body(r) == r.data && TypeOf(r) == RecordType(r.typ, r.sub);
      ParsedIsKnownIff(TypeOf(r), d, e);
    } else {
      hide Parse, TypeOf, Body, Writable;
      assert Body(r) == d + Body(r)[|d|..];
      KnownOfCut(r, d, Body(r)[|d|..], e);
    }
  }
}
