/**
 Reading a record, writing it and reading it again: when the second reading gives the first one back.
 */
module StdfReread {
  import opened Outcomes
  import opened Bytes
  import opened StdfCodec
  import opened StdfRecords
  import opened StdfRoundTrip
  import opened StdfLossless

  /**
   A PTR body reaches as far as its flags ask: the announced OPT_FLAG is there, and behind it a byte
   for every byte of the numbers it calls for.
   */
  predicate PtrReaches(d: seq<byte>, e: Endian)
  {
    var row := GetAll(Prefix(PTR_TYPE).value, d, e);
    && row.Ok?
    && var has, rest := Flag(N(row.value.values, 4), OPT_FLAG_PRESENT), row.value.rest;
       && (has ==> rest != [])
       && WantedBytes(PtrWanted(if has then Some(rest[0]) else None), PTR_KINDS) <= |rest| - if has then 1 else 0
  }

  /** Numbers that were read are all there exactly when there were bytes for all of them. */
  lemma {:induction false} AllReadIff(ws: seq<bool>, ks: seq<Kind>, d: seq<byte>, e: Endian)
    requires |ws| == |ks| && forall i :: 0 <= i < |ks| ==> Numeric(ks[i])
    requires GetOpts(ws, ks, d, e).Ok?
    ensures (forall i :: 0 <= i < |ks| ==> GetOpts(ws, ks, d, e).value.values[i].Some? == ws[i])
       <==> WantedBytes(ws, ks) <= |d|
  {
    hide FromBytes, FromBits;
    if ks != [] {
      var first := GetOpt(ws[0], ks[0], d, e).value;
      var others := GetOpts(ws[1..], ks[1..], first.rest, e).value.values;
      OneReadIff(ws[0], ks[0], d, e);
      hide GetOpt;
      AllReadIff(ws[1..], ks[1..], first.rest, e);
      FirstAndOthers(ws, [first.value] + others);
      assert ([first.value] + others)[1..] == others;
    }
  }

  lemma OneReadIff(wanted: bool, k: Kind, d: seq<byte>, e: Endian)
    requires Numeric(k) && GetOpt(wanted, k, d, e).Ok?
    ensures var got := GetOpt(wanted, k, d, e).value;
            var w := if wanted then Width(k) else 0;
            && (got.value.Some? == wanted <==> w <= |d|)
            && |got.rest| == if w <= |d| then |d| - w else 0
  {
    hide FromBytes, FromBits;
  }

  lemma FirstAndOthers(ws: seq<bool>, vs: seq<Option<Value>>)
    requires |ws| == |vs| > 0
    ensures (forall i :: 0 <= i < |ws| ==> vs[i].Some? == ws[i])
       <==> vs[0].Some? == ws[0] && forall i :: 0 <= i < |ws[1..]| ==> vs[1..][i].Some? == ws[1..][i]
  {
    if vs[0].Some? == ws[0] && forall i :: 0 <= i < |ws[1..]| ==> vs[1..][i].Some? == ws[1..][i] {
      forall i | 0 <= i < |ws| ensures vs[i].Some? == ws[i] {
        assert i > 0 ==> vs[i] == vs[1..][i - 1] && ws[i] == ws[1..][i - 1];
      }
    }
  }

  /** The same for the numbers of a PTR, whose values are those read. */
  lemma PtrNumbersMatchIff(optFlg: Option<int>, d: seq<byte>, e: Endian)
    requires ParsePtrFields(optFlg, d, e).Ok?
    ensures var p := ParsePtrFields(optFlg, d, e).value;
            (forall i | 0 <= i < 5 :: PtrValues(p)[i].Some? <==> PtrWanted(p.optFlg)[i])
            <==> WantedBytes(PtrWanted(optFlg), PTR_KINDS) <= |d|
  {
    var ws, p := PtrWanted(optFlg), ParsePtrFields(optFlg, d, e).value;
    var vs := GetOpts(ws, PTR_KINDS, d, e).value.values;
    assert forall i :: 0 <= i < 5 && vs[i].Some? ==> Numeric(PTR_KINDS[i]) && vs[i].value.Num?;
    hide PtrWanted, GetOpts, GetCnOrEmpty, WantedBytes;
    NumbersAreValues(vs, p);
    hide PtrValues, ParsePtrFields;
    AllReadIff(ws, PTR_KINDS, d, e);
    assert p.optFlg == optFlg;
  }

  lemma OneByteRead(d: seq<byte>, e: Endian)
    requires d != []
    ensures GetOpt(true, U1, d, e) == Ok(GotOpt(Some(Num(d[0])), d[1..]))
  {
    var b := d[..1];
    assert b == [d[0]];
    assert FromLittleEndian(b) == b[0] + 256 * FromLittleEndian(b[1..]);
    assert FromBigEndian(b) == FromBigEndian(b[..0]) * 256 + b[0];
  }

  lemma PtrTailMatchesIff(parmFlg: int, d: seq<byte>, e: Endian)
    requires ParsePtrTail(parmFlg, d, e).Ok?
    ensures var has := Flag(parmFlg, OPT_FLAG_PRESENT);
            PtrFlagsMatch(parmFlg, ParsePtrTail(parmFlg, d, e).value)
            <==> && (has ==> d != [])
                 && WantedBytes(PtrWanted(if has then Some(d[0]) else None), PTR_KINDS) <= |d| - if has then 1 else 0
  {
    var has := Flag(parmFlg, OPT_FLAG_PRESENT);
    hide Flag, PtrWanted, WantedBytes, PtrValues, ParsePtrFields, Get;
    if has && d != [] {
      OneByteRead(d, e);
      PtrNumbersMatchIff(Some(d[0]), d[1..], e);
    } else {
      PtrNumbersMatchIff(None, d, e);
    }
  }

  lemma ParsedFtrMatches(optFlg: int, data: seq<byte>, e: Endian)
    requires ParseFtrTail(optFlg, data, e).Ok?
    ensures FtrFlagsMatch(optFlg, ParseFtrTail(optFlg, data, e).value)
  {
    hide Get, Flag;
  }

  lemma ParsedPtrIsConsistentIff(d: seq<byte>, e: Endian)
    requires Parse(PTR_TYPE, d, e).Ok?
    ensures Consistent(Parse(PTR_TYPE, d, e).value) <==> PtrReaches(d, e)
  {
    PtrIsModelled(d, e);
    hide GetAll, PtrFlagsMatch, ParsePtrTail, Prefix, Flag, N, T, PtrWanted, WantedBytes;
    var row := GetAll(Prefix(PTR_TYPE).value, d, e).value;
    PtrTailMatchesIff(N(row.values, 4), row.rest, e);
  }

  lemma OtherIsConsistentIff(t: RecordType, d: seq<byte>, e: Endian)
    requires t != PTR_TYPE && Parse(t, d, e).Ok?
    ensures var r := Parse(t, d, e).value;
            Consistent(r) <==> (r.Ftr? ==> NamesFit(r.ftr))
  {
    ParsedIsKnownIff(t, d, e);
    hide GetAll, GetTexts, ParsePtrTail, FtrFlagsMatch, ParseFtrTail, Prefix, N, T, Ts, NamesFit;
    if t == RecordType(15, 20) && Prefix(t).Some? {
      var row := GetAll(Prefix(t).value, d, e).value;
      ParsedFtrMatches(N(row.values, 4), row.rest, e);
    }
  }

  /** Only a PTR that stops short of its own flags can be read and not be consistent. */
  lemma {:induction false} ParsedIsConsistentIff(t: RecordType, d: seq<byte>, e: Endian)
    requires Parse(t, d, e).Ok?
    ensures var r := Parse(t, d, e).value;
            Consistent(r) <==> (if t == PTR_TYPE then PtrReaches(d, e) else r.Ftr? ==> NamesFit(r.ftr))
  {
    hide Parse, Prefix, Consistent, PtrReaches, NamesFit;
    if t == PTR_TYPE {
      ParsedPtrIsConsistentIff(d, e);
    } else {
      OtherIsConsistentIff(t, d, e);
    }
  }

  lemma PtrIsModelled(d: seq<byte>, e: Endian)
    ensures Prefix(PTR_TYPE).Some?
    ensures Parse(PTR_TYPE, d, e).Ok? ==> GetAll(Prefix(PTR_TYPE).value, d, e).Ok?
  {
    hide GetAll, Build;
  }

  /**
   A record that was read, in either byte order, and whose repaired strings still fit, is read back
   the same after writing it, unless it is a PTR that stops short of its own flags or an FTR whose
   repaired names have outgrown their lengths.
   */
  lemma {:induction false} RereadIff(t: RecordType, d: seq<byte>, e: Endian)
    requires Parse(t, d, e).Ok? && Writable(Parse(t, d, e).value)
    ensures var r := Parse(t, d, e).value;
            Parse(t, Body(r), Little) == Ok(r)
            <==> (if t == PTR_TYPE then PtrReaches(d, e) else r.Ftr? ==> NamesFit(r.ftr))
  {
    ParsedIsKnownIff(t, d, e);
    ParsedIsConsistentIff(t, d, e);
    hide TypeOf, Consistent, Body, Parse, Prefix, Writable, PtrReaches, NamesFit, SameRecord;
    var r := Parse(t, d, e).value;
    RecordReadsIff(r, Little);
    if Consistent(r) {
      LittleIsSame(r);
    }
  }

  lemma ZeroAsOptFlag(parmFlg: int, e: Endian)
    requires Flag(parmFlg, OPT_FLAG_PRESENT)
    ensures ParsePtrTail(parmFlg, [0], e) == Ok(NO_PTR_FIELDS.(optFlg := Some(0)))
  {
    OneByteRead([0], e);
    hide Flag, Get, GetOpts;
    NoOptsAtTheEnd(PtrWanted(Some(0)), PTR_KINDS, e);
  }

  lemma PtrWithZero(v: seq<Value>, e: Endian)
    requires Prefix(PTR_TYPE).Some? && Flag(N(v, 4), OPT_FLAG_PRESENT)
    ensures var r := Build(PTR_TYPE, v, [0], e); r.Ok? && r.value.Ptr? && r.value.ptr.optFlg == Some(0)
  {
    hide Build, Prefix, ParsePtrTail, N, Flag;
    ZeroAsOptFlag(N(v, 4), e);
    PtrBuilt(v, [0], e, NO_PTR_FIELDS.(optFlg := Some(0)));
  }

  /**
   Every PTR that announces OPT_FLAG and ends before it is read differently the second time: the empty
   units that the writer has added are now the OPT_FLAG.
   */
  lemma {:induction false} CutPtrIsNotStable(v: seq<Value>)
    requires AllFit(Prefix(PTR_TYPE).value, v) && Flag(N(v, 4), OPT_FLAG_PRESENT)
    ensures var r := Parse(PTR_TYPE, PutAll(Prefix(PTR_TYPE).value, v), Little);
            && r.Ok? && r.value.Ptr? && r.value.ptr.optFlg.None? && Writable(r.value)
            && var again := Parse(PTR_TYPE, Body(r.value), Little);
               again.Ok? && again.value.Ptr? && again.value.ptr.optFlg == Some(0)
  {
    UnitsAreAdded(v);
    RowIsRead(v, []);
    RowIsRead(v, [0]);
    hide Prefix, GetAll, PutAll, AllFit, Build, Body, Writable, Flag, N;
    var d := PutAll(Prefix(PTR_TYPE).value, v);
    assert d + [] == d;
    PtrWithoutTail(v);
    PtrWithZero(v, Little);
  }
}
