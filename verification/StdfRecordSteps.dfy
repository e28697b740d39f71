/**
 The flag-dependent halves of the PTR and FTR codecs as they run: a body buffer that is appended to,
 and a reader that advances. Each is tied to the function that specifies it.
 */
module StdfRecordSteps {
  import opened Outcomes
  import opened Bytes
  import opened Utf8
  import opened StdfCodec
  import opened StdfRecords

  method WriteOpt(body: ByteBuffer, wanted: bool, k: Kind, o: Option<Value>)
    requires FitOpt(k, o)
    modifies body
    ensures body.data == old(body.data) + PutOpt(wanted, k, o)
  {
    hide Put, Fit;
    if wanted && o.Some? {
      body.Extend(Put(k, o.value));
    } else {
      assert body.data + [] == body.data;
    }
  }

  lemma PutOptsFrom(ws: seq<bool>, ks: seq<Kind>, vs: seq<Option<Value>>, i: nat)
    requires |ws| == |ks| && FitOpts(ks, vs) && i < |ks|
    ensures FitOpts(ks[i..], vs[i..]) && FitOpts(ks[i + 1..], vs[i + 1..])
    ensures PutOpts(ws[i..], ks[i..], vs[i..])
         == PutOpt(ws[i], ks[i], vs[i]) + PutOpts(ws[i + 1..], ks[i + 1..], vs[i + 1..])
  {
    hide PutOpt, FitOpt;
    assert ws[i..][1..] == ws[i + 1..] && ks[i..][1..] == ks[i + 1..] && vs[i..][1..] == vs[i + 1..];
  }

  /** The optional fields of a PTR from the `i`th on. */
  ghost function Unwritten(p: PtrOptional, i: nat): seq<byte>
    requires PtrFits(p) && i <= 5
  {
    PutOpts(PtrWanted(p.optFlg)[i..], PTR_KINDS[i..], PtrValues(p)[i..])
  }

  lemma UnwrittenEnds(p: PtrOptional)
    requires PtrFits(p)
    ensures Unwritten(p, 0) == PutOpts(PtrWanted(p.optFlg), PTR_KINDS, PtrValues(p)) && Unwritten(p, 5) == []
  {
    hide PutOpt, FitOpt, PtrWanted, ShortText;
    var ws, vs := PtrWanted(p.optFlg), PtrValues(p);
    assert ws[0..] == ws && PTR_KINDS[0..] == PTR_KINDS && vs[0..] == vs;
    NoMoreToWrite(ws[5..], PTR_KINDS[5..], vs[5..]);
  }

  method WriteField(body: ByteBuffer, wanted: bool, i: nat, p: PtrOptional)
    requires PtrFits(p) && i < 5 && wanted == PtrWanted(p.optFlg)[i]
    modifies body
    ensures body.data + Unwritten(p, i + 1) == old(body.data) + Unwritten(p, i)
  {
    hide PutOpt, PutOpts, Flag;
    ghost var ws, vs := PtrWanted(p.optFlg), PtrValues(p);
    PutOptsFrom(ws, PTR_KINDS, vs, i);
    Associates(body.data, PutOpt(wanted, PTR_KINDS[i], vs[i]), PutOpts(ws[i + 1..], PTR_KINDS[i + 1..], vs[i + 1..]));
    WriteOpt(body, wanted, PTR_KINDS[i], PtrValues(p)[i]);
  }

  method EncodePtrFields(p: PtrOptional, body: ByteBuffer)
    requires PtrFits(p)
    modifies body
    ensures body.data == old(body.data) + PutOpts(PtrWanted(p.optFlg), PTR_KINDS, PtrValues(p))
  {
    UnwrittenEnds(p);
    hide Unwritten, Flag, PtrFits, PTR_KINDS, PutOpts, PtrValues;
    if p.optFlg.Some? {
      var flags := p.optFlg.value;
      WriteField(body, !Flag(flags, 0x01), 0, p);
      WriteField(body, !Flag(flags, 0x02), 1, p);
      WriteField(body, !Flag(flags, 0x04), 2, p);
      WriteField(body, !Flag(flags, 0x08), 3, p);
      WriteField(body, !Flag(flags, 0x10), 4, p);
    } else {
      NothingWanted(p);
    }
  }

  lemma NothingWanted(p: PtrOptional)
    requires PtrFits(p) && p.optFlg.None?
    ensures PutOpts(PtrWanted(p.optFlg), PTR_KINDS, PtrValues(p)) == []
  {
    hide Fit, Put;
    UnwrittenEnds(p);
    PutOptsFrom(PtrWanted(None), PTR_KINDS, PtrValues(p), 4);
    PutOptsFrom(PtrWanted(None), PTR_KINDS, PtrValues(p), 3);
    PutOptsFrom(PtrWanted(None), PTR_KINDS, PtrValues(p), 2);
    PutOptsFrom(PtrWanted(None), PTR_KINDS, PtrValues(p), 1);
    PutOptsFrom(PtrWanted(None), PTR_KINDS, PtrValues(p), 0);
  }

  /** The second half of `encode_ptr`. */
  method EncodePtrTail(p: PtrOptional, body: ByteBuffer)
    requires PtrFits(p)
    modifies body
    ensures body.data == old(body.data) + PtrTail(p)
  {
    hide Fit, CnBytes, ValidText, PutOpt, PutOpts, PtrWanted, PtrValues, PTR_KINDS;
    WriteOpt(body, true, U1, OptValue(p.optFlg));
    EncodePtrFields(p, body);
    body.Extend(CnBytes(p.units));
  }

  lemma NoMoreToWrite(ws: seq<bool>, ks: seq<Kind>, vs: seq<Option<Value>>)
    requires |ws| == |ks| == 0 && FitOpts(ks, vs)
    ensures PutOpts(ws, ks, vs) == []
  {
  }

  /** The second half of `encode_ftr`. */
  method EncodeFtrTail(p: FtrOptional, body: ByteBuffer)
    requires FtrFits(p)
    modifies body
    ensures body.data == old(body.data) + FtrTail(p)
  {
    hide Put, Flag, CnBytes, ValidText, PutOpt, Pow256;
    if p.alarmId.Some? {
      body.Extend(CnBytes(p.alarmId.value));
      var flags := if p.optFlg2.Some? then p.optFlg2.value else 0;
      SmallPowers();
      body.Extend(Put(U1, Num(flags)));
      WriteOpt(body, p.optFlg2.None? || !Flag(flags, 0x02), Nn, OptStr(p.program));
      WriteOpt(body, p.optFlg2.None? || !Flag(flags, 0x04), Nn, OptStr(p.testLabel));
    } else {
      assert body.data + [] == body.data;
    }
  }

  // ---------- reading ----------

  method ReadOpt(r: Reader, wanted: bool, k: Kind) returns (o: Result<Option<Value>, StdfError>)
    requires r.Valid()
    modifies r
    ensures r.Valid()
    ensures match GetOpt(wanted, k, old(r.Rest()), r.endian)
            case Ok(got) => o == Ok(got.value) && r.Rest() == got.rest
            case Err(e) => o == Err(e)
  {
    hide Get;
    if wanted && !r.IsEmpty() {
      var v := r.Field(k);
      if v.Err? {
        return Err(v.error);
      }
      return Ok(Some(v.value));
    }
    return Ok(None);
  }

  ghost function OptsBehind(front: seq<Option<Value>>, r: Result<GotOpts, StdfError>): Result<GotOpts, StdfError>
  {
    if r.Ok? then Ok(GotOpts(front + r.value.values, r.value.rest)) else r
  }

  lemma OptsStep(front: seq<Option<Value>>, ws: seq<bool>, ks: seq<Kind>, i: nat, data: seq<byte>, e: Endian)
    requires |ws| == |ks| && i < |ks|
    ensures var now := OptsBehind(front, GetOpts(ws[i..], ks[i..], data, e));
            match GetOpt(ws[i], ks[i], data, e)
            case Err(err) => now == Err(err)
            case Ok(got) => now == OptsBehind(front + [got.value], GetOpts(ws[i + 1..], ks[i + 1..], got.rest, e))
  {
    hide GetOpt;
    assert ws[i..][1..] == ws[i + 1..] && ks[i..][1..] == ks[i + 1..];
    var first := GetOpt(ws[i], ks[i], data, e);
    if first.Ok? && GetOpts(ws[i + 1..], ks[i + 1..], first.value.rest, e).Ok? {
      Associates(front, [first.value.value], GetOpts(ws[i + 1..], ks[i + 1..], first.value.rest, e).value.values);
    }
  }

  lemma NothingBehind(r: Result<GotOpts, StdfError>)
    ensures OptsBehind([], r) == r
  {
    if r.Ok? {
      assert [] + r.value.values == r.value.values;
    }
  }

  lemma NoMoreOpts(front: seq<Option<Value>>, ws: seq<bool>, ks: seq<Kind>, data: seq<byte>, e: Endian)
    requires |ws| == |ks| == 0
    ensures OptsBehind(front, GetOpts(ws, ks, data, e)) == Ok(GotOpts(front, data))
  {
    assert front + [] == front;
  }

  /** What reading the optional fields of a PTR from the `i`th on adds to those in `front`. */
  ghost function Unread(optFlg: Option<int>, i: nat, front: seq<Option<Value>>, data: seq<byte>, e: Endian)
    : Result<GotOpts, StdfError>
    requires i <= 5
  {
    OptsBehind(front, GetOpts(PtrWanted(optFlg)[i..], PTR_KINDS[i..], data, e))
  }

  lemma UnreadEnds(optFlg: Option<int>, front: seq<Option<Value>>, data: seq<byte>, e: Endian)
    ensures Unread(optFlg, 0, [], data, e) == GetOpts(PtrWanted(optFlg), PTR_KINDS, data, e)
    ensures Unread(optFlg, 5, front, data, e) == Ok(GotOpts(front, data))
  {
    hide GetOpt, PtrWanted, OptsBehind;
    var ws := PtrWanted(optFlg);
    assert ws[0..] == ws && PTR_KINDS[0..] == PTR_KINDS;
    NothingBehind(GetOpts(ws, PTR_KINDS, data, e));
    NoMoreOpts(front, ws[5..], PTR_KINDS[5..], data, e);
  }

  method ReadPtrField(r: Reader, optFlg: Option<int>, wanted: bool, i: nat, front: seq<Option<Value>>)
    returns (vs: Result<seq<Option<Value>>, StdfError>)
    requires r.Valid() && i < 5 && wanted == PtrWanted(optFlg)[i]
    modifies r
    ensures r.Valid()
    ensures Unread(optFlg, i, front, old(r.Rest()), r.endian)
         == match vs
            case Err(e) => Err(e)
            case Ok(got) => Unread(optFlg, i + 1, got, r.Rest(), r.endian)
  {
    hide GetOpt, Flag, GetOpts, OptsBehind, PtrWanted;
    OptsStep(front, PtrWanted(optFlg), PTR_KINDS, i, r.Rest(), r.endian);
    var field := ReadOpt(r, wanted, PTR_KINDS[i]);
    if field.Err? {
      return Err(field.error);
    }
    return Ok(front + [field.value]);
  }

  /** The five optional fields of a PTR, read one after the other, each where the last one stopped. */
  method ReadPtrFields(r: Reader, optFlg: Option<int>) returns (vs: Result<seq<Option<Value>>, StdfError>)
    requires r.Valid()
    modifies r
    ensures r.Valid()
    ensures match GetOpts(PtrWanted(optFlg), PTR_KINDS, old(r.Rest()), r.endian)
            case Ok(got) => vs == Ok(got.values) && r.Rest() == got.rest
            case Err(e) => vs == Err(e)
  {
    hide Flag, GetOpts, Unread, PTR_KINDS;
    UnreadEnds(optFlg, [], r.Rest(), r.endian);
    var has, flags := optFlg.Some?, if optFlg.Some? then optFlg.value else 0;
    var resScal := ReadPtrField(r, optFlg, has && !Flag(flags, 0x01), 0, []);
    if resScal.Err? { return resScal; }
    var llmScal := ReadPtrField(r, optFlg, has && !Flag(flags, 0x02), 1, resScal.value);
    if llmScal.Err? { return llmScal; }
    var hlmScal := ReadPtrField(r, optFlg, has && !Flag(flags, 0x04), 2, llmScal.value);
    if hlmScal.Err? { return hlmScal; }
    var loLimit := ReadPtrField(r, optFlg, has && !Flag(flags, 0x08), 3, hlmScal.value);
    if loLimit.Err? { return loLimit; }
    var hiLimit := ReadPtrField(r, optFlg, has && !Flag(flags, 0x10), 4, loLimit.value);
    if hiLimit.Err? { return hiLimit; }
    UnreadEnds(optFlg, hiLimit.value, r.Rest(), r.endian);
    vs := hiLimit;
  }

  /** The PTR arm of `Record::parse` behind the mandatory fields. */
  method ReadPtrTail(r: Reader, parmFlg: int) returns (p: Result<PtrOptional, StdfError>)
    requires r.Valid()
    modifies r
    ensures r.Valid() && p == ParsePtrTail(parmFlg, old(r.Rest()), r.endian)
  {
    hide GetOpt, Flag, GetOpts, Get, PtrWanted;
    var opt := ReadOpt(r, Flag(parmFlg, OPT_FLAG_PRESENT), U1);
    if opt.Err? {
      return Err(opt.error);
    }
    var optFlg := AsInt(opt.value);
    var fields := ReadPtrFields(r, optFlg);
    if fields.Err? {
      return Err(fields.error);
    }
    var units: Text := [];
    if !r.IsEmpty() {
      var read := r.Field(Cn);
      if read.Err? {
        return Err(read.error);
      }
      units := read.value.text;
    }
    var vs := fields.value;
    return Ok(PtrOptional(optFlg, AsInt(vs[0]), AsInt(vs[1]), AsInt(vs[2]), AsInt(vs[3]), AsInt(vs[4]), units));
  }

  /** The FTR arm of `Record::parse` behind the mandatory fields. */
  method ReadFtrTail(r: Reader, optFlg: int) returns (p: Result<FtrOptional, StdfError>)
    requires r.Valid()
    modifies r
    ensures r.Valid() && p == ParseFtrTail(optFlg, old(r.Rest()), r.endian)
  {
    hide GetOpt, Flag, Get;
    if !Flag(optFlg, 0x01) || r.IsEmpty() {
      return Ok(FtrOptional(None, None, None, None));
    }
    var alarm := r.Field(Cn);
    if alarm.Err? {
      return Err(alarm.error);
    }
    var opt2 := ReadOpt(r, true, U1);
    if opt2.Err? {
      return Err(opt2.error);
    }
    var flags := if opt2.value.Some? && opt2.value.value.Num? then opt2.value.value.n else 0;
    var program := ReadOpt(r, !Flag(flags, 0x02), Nn);
    if program.Err? {
      return Err(program.error);
    }
    var testLabel := ReadOpt(r, !Flag(flags, 0x04), Nn);
    if testLabel.Err? {
      return Err(testLabel.error);
    }
    return Ok(FtrOptional(Some(alarm.value.text), Some(flags), AsText(program.value), AsText(testLabel.value)));
  }
}
