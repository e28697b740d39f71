/**
 STDF files: the writer that puts a FAR in front, the reader that takes its byte order from it, and
 when a file reads back as the records it was written from.
 */
module StdfStream {
  import opened Outcomes
  import opened Bytes
  import opened StdfCodec
  import opened StdfRecords
  import opened StdfRoundTrip
  import opened StdfOverlong

  const CPU_M68000 := 1
  const CPU_X86 := 3
  const STDF_V4 := 4

  const X86_FAR := Far(CPU_X86, STDF_V4)

  const FAR_TYPE := RecordType(0, 10)

  predicate AllWritable(rs: seq<Record>)
  {
    forall i :: 0 <= i < |rs| ==> Writable(rs[i])
  }

  // ---------- writing ----------

  /** `Record::encode`: REC_LEN keeps only the low 16 bits of the body length. */
  function RecordBytes(r: Record): (b: seq<byte>)
    requires Writable(r)
    ensures |b| == 4 + |Body(r)|
  {
    LittleEndian(|Body(r)| % 0x1_0000, 2) + [TypeOf(r).typ, TypeOf(r).sub] + Body(r)
  }

  function StreamBytes(rs: seq<Record>): seq<byte>
    requires AllWritable(rs)
  {
    if rs == [] then [] else RecordBytes(rs[0]) + StreamBytes(rs[1..])
  }

  /** The records that end up in the file: a FAR comes first, whether or not it was given. */
  function InFile(wroteFar: bool, rs: seq<Record>): seq<Record>
  {
    if rs == [] || wroteFar || rs[0].Far? then rs else [X86_FAR] + rs
  }

  lemma ByteField(n: int)
    requires 0 <= n < 0x100
    ensures Fit(U1, Num(n)) && Put(U1, Num(n)) == [n]
  {
    SmallPowers();
  }

  lemma TwoByteRow(a: int, b: int)
    requires 0 <= a < 0x100 && 0 <= b < 0x100
    ensures AllFit([U1, U1], [Num(a), Num(b)]) && PutAll([U1, U1], [Num(a), Num(b)]) == [a, b]
  {
    ByteField(a);
    ByteField(b);
    hide Fit, Put;
    assert [U1, U1][1..] == [U1] && [Num(a), Num(b)][1..] == [Num(b)];
    assert PutAll([U1], [Num(b)]) == Put(U1, Num(b)) + PutAll([], []);
  }

  lemma FarRow(r: Record)
    requires r.Far?
    ensures TypeOf(r) == FAR_TYPE && Prefix(FAR_TYPE) == Some([U1, U1]) && Row(r) == [Num(r.cpuType), Num(r.stdfVer)]
    ensures TailFits(r) && Tail(r) == [] && Consistent(r)
  {
    assert TailTexts(r) == [];
  }

  lemma FarBytes(r: Record)
    requires r.Far? && 0 <= r.cpuType < 0x100 && 0 <= r.stdfVer < 0x100
    ensures Writable(r) && Body(r) == [r.cpuType, r.stdfVer]
  {
    hide TypeOf, Prefix, Row, TailFits, Tail, AllFit, PutAll, Consistent;
    FarRow(r);
    TwoByteRow(r.cpuType, r.stdfVer);
    assert [r.cpuType, r.stdfVer] + [] == [r.cpuType, r.stdfVer];
  }

  /** A FAR is its two bytes. */
  lemma FarBody(r: Record)
    requires r.Far? && Writable(r)
    ensures TypeOf(r) == FAR_TYPE && Body(r) == [r.cpuType, r.stdfVer]
  {
    FarRow(r);
    SmallPowers();
    assert Fit(U1, Row(r)[0]) && Fit(U1, Row(r)[1]);
    hide Body, Writable;
    FarBytes(r);
  }

  lemma FarIsWritable()
    ensures Writable(X86_FAR) && Consistent(X86_FAR) && TypeOf(X86_FAR) == FAR_TYPE
    ensures Body(X86_FAR) == [CPU_X86, STDF_V4]
  {
    hide Writable, Consistent, TypeOf, Body;
    FarRow(X86_FAR);
    FarBytes(X86_FAR);
  }

  lemma InFileIsWritable(wroteFar: bool, rs: seq<Record>)
    requires AllWritable(rs)
    ensures AllWritable(InFile(wroteFar, rs))
  {
    hide Writable;
    FarIsWritable();
  }

  lemma StreamStep(rs: seq<Record>)
    requires rs != [] && AllWritable(rs)
    ensures Writable(rs[0]) && AllWritable(rs[1..])
    ensures StreamBytes(rs) == RecordBytes(rs[0]) + StreamBytes(rs[1..])
  {
    hide Writable, RecordBytes;
  }

  lemma {:induction false} StreamsConcatenate(rs: seq<Record>, more: seq<Record>)
    requires AllWritable(rs) && AllWritable(more)
    ensures AllWritable(rs + more) && StreamBytes(rs + more) == StreamBytes(rs) + StreamBytes(more)
  {
    hide Writable, RecordBytes, StreamBytes;
    if rs == [] {
      NoBytes();
      assert [] + more == more && [] + StreamBytes(more) == StreamBytes(more);
    } else {
      assert AllWritable(rs[1..]);
      StreamsConcatenate(rs[1..], more);
      assert (rs + more)[0] == rs[0] && (rs + more)[1..] == rs[1..] + more;
      assert AllWritable(rs + more);
      hide AllWritable;
      StreamStep(rs);
      StreamStep(rs + more);
      Associates(RecordBytes(rs[0]), StreamBytes(rs[1..]), StreamBytes(more));
    }
  }

  lemma NoBytes()
    ensures StreamBytes([]) == []
  {
  }

  lemma OneInStream(r: Record)
    requires Writable(r)
    ensures StreamBytes([r]) == RecordBytes(r)
  {
    hide Writable, RecordBytes;
    assert StreamBytes([r]) == RecordBytes(r) + StreamBytes([]);
  }

  lemma TwoInStream(a: Record, b: Record)
    requires Writable(a) && Writable(b)
    ensures AllWritable([a, b]) && StreamBytes([a, b]) == RecordBytes(a) + RecordBytes(b)
  {
    hide Writable, RecordBytes;
    OneInStream(b);
    assert [a, b][1..] == [b];
  }

  class StdfWriter {
    var inner: seq<byte>
    var wroteFar: bool

    constructor ()
      ensures inner == [] && !wroteFar
    {
      inner, wroteFar := [], false;
    }

    method EncodeRecord(r: Record)
      requires Writable(r)
      modifies this`inner
      ensures inner == old(inner) + RecordBytes(r)
    {
      hide Writable, Body, TypeOf;
      var body := Body(r);
      inner := inner + LittleEndian(|body| % 0x1_0000, 2);
      inner := inner + [TypeOf(r).typ, TypeOf(r).sub];
      inner := inner + body;
      assert inner == old(inner) + RecordBytes(r);
    }

    /** One record, behind an automatic FAR if it is the first and not itself a FAR. */
    method Write(r: Record)
      requires Writable(r)
      modifies this
      ensures wroteFar && AllWritable(InFile(old(wroteFar), [r]))
      ensures inner == old(inner) + StreamBytes(InFile(old(wroteFar), [r]))
    {
      hide Writable, RecordBytes, StreamBytes;
      InFileIsWritable(wroteFar, [r]);
      OneInStream(r);
      if !wroteFar {
        wroteFar := true;
        FarIsWritable();
        var far := if r.Far? then r else X86_FAR;
        EncodeRecord(far);
        if r.Far? {
          return;
        }
        TwoInStream(X86_FAR, r);
        assert InFile(false, [r]) == [X86_FAR, r];
        Associates(old(inner), RecordBytes(X86_FAR), RecordBytes(r));
      }
      EncodeRecord(r);
    }

    method WriteAll(records: seq<Record>)
      requires AllWritable(records)
      modifies this
      ensures wroteFar == (old(wroteFar) || records != [])
      ensures AllWritable(InFile(old(wroteFar), records))
      ensures inner == old(inner) + StreamBytes(InFile(old(wroteFar), records))
    {
      hide Writable, RecordBytes, StreamBytes;
      InFileIsWritable(wroteFar, records);
      InFileIsWritable(wroteFar, []);
      assert StreamBytes(InFile(wroteFar, [])) == [] by { NoBytes(); }
      for i := 0 to |records|
        invariant wroteFar == (old(wroteFar) || i > 0)
        invariant AllWritable(InFile(old(wroteFar), records[..i]))
        invariant inner == old(inner) + StreamBytes(InFile(old(wroteFar), records[..i]))
      {
        ghost var before := InFile(old(wroteFar), records[..i]);
        ghost var emitted := InFile(wroteFar, [records[i]]);
        InFileIsWritable(wroteFar, [records[i]]);
        Write(records[i]);
        StreamsConcatenate(before, emitted);
        assert records[..i + 1] == records[..i] + [records[i]];
        assert InFile(old(wroteFar), records[..i + 1]) == before + emitted;
        Associates(old(inner), StreamBytes(before), StreamBytes(emitted));
      }
      assert records[..|records|] == records;
    }
  }

  // ---------- reading ----------

  datatype ReaderState = ReaderState(rest: seq<byte>, endian: Endian, sawFar: bool)

  function Opened(file: seq<byte>): ReaderState
  {
    ReaderState(file, Little, false)
  }

  datatype Reading = Reading(outcome: Result<Option<Record>, StdfError>, next: ReaderState)

  /** The byte order in force once a record of type `t` has been seen. */
  function OrderAfter(e: Endian, t: RecordType, body: seq<byte>): Endian
  {
    if t == FAR_TYPE && body != [] then (if body[0] == CPU_M68000 then Big else Little) else e
  }

  /** `next_record`, over a source that fills the four header bytes in one read if it has them. */
  function NextRecord(s: ReaderState): Reading
  {
    if s.rest == [] then Reading(Ok(None), s)
    else if |s.rest| < 4 then Reading(Err(ShortRecordHeader), s.(rest := []))
    else
      var t := RecordType(s.rest[2], s.rest[3]);
      var len := FromLittleEndian(s.rest[..2]);
      var tail := s.rest[4..];
      if !s.sawFar && t != FAR_TYPE then Reading(Err(MalformedRecord(t.typ, t.sub)), s.(rest := tail))
      else if |tail| < len then Reading(Err(UnexpectedEof(len, |tail|)), s.(rest := []))
      else
        var body := tail[..len];
        var next := ReaderState(tail[len..], OrderAfter(s.endian, t, body), s.sawFar || t == FAR_TYPE);
        match Parse(t, body, next.endian)
        case Ok(r) => Reading(Ok(Some(r)), next)
        case Err(e) => Reading(Err(e), next)
  }

  lemma NextConsumes(s: ReaderState)
    ensures var n := NextRecord(s); n.outcome.Ok? && n.outcome.value.Some? ==> |n.next.rest| < |s.rest|
  {
    hide Parse;
  }

  function ReadAll(s: ReaderState): Result<seq<Record>, StdfError>
    decreases |s.rest|
  {
    NextConsumes(s);
    var n := NextRecord(s);
    match n.outcome
    case Err(e) => Err(e)
    case Ok(None) => Ok([])
    case Ok(Some(r)) =>
      var others :- ReadAll(n.next);
      Ok([r] + others)
  }

  class StdfReader {
    var inner: seq<byte>
    var endian: Endian
    var sawFar: bool

    ghost function State(): ReaderState
      reads this
    {
      ReaderState(inner, endian, sawFar)
    }

    constructor (file: seq<byte>)
      ensures State() == Opened(file)
    {
      inner, endian, sawFar := file, Little, false;
    }

    /** One read of the underlying source: at least one byte if any is left, and how many is up to it. */
    method ReadSome(want: nat) returns (chunk: seq<byte>)
      requires want > 0
      modifies this`inner
      ensures chunk + inner == old(inner) && |chunk| <= want
      ensures chunk == [] <==> old(inner) == []
    {
      if inner == [] {
        return [];
      }
      var n: nat :| 0 < n <= want && n <= |inner|;
      chunk, inner := inner[..n], inner[n..];
    }

    /** The fill loop: all `len` bytes, or how many there were before the end. */
    method FillBody(len: nat) returns (r: Result<seq<byte>, StdfError>)
      modifies this`inner
      ensures if |old(inner)| < len then r == Err(UnexpectedEof(len, |old(inner)|)) && inner == []
              else r == Ok(old(inner)[..len]) && inner == old(inner)[len..]
    {
      var body: seq<byte> := [];
      while |body| < len
        invariant |body| <= len && body + inner == old(inner)
      {
        var chunk := ReadSome(len - |body|);
        if chunk == [] {
          return Err(UnexpectedEof(len, |body|));
        }
        Associates(body, chunk, inner);
        body := body + chunk;
      }
      return Ok(body);
    }

    method Next() returns (r: Result<Option<Record>, StdfError>)
      modifies this
      ensures Reading(r, State()) == NextRecord(old(State()))
    {
      hide Parse, FromLittleEndian;
      if inner == [] {
        return Ok(None);
      }
      if |inner| < 4 {
        inner := [];
        return Err(ShortRecordHeader);
      }
      var header := inner[..4];
      inner := inner[4..];
      var t := RecordType(header[2], header[3]);
      if !sawFar && t != FAR_TYPE {
        return Err(MalformedRecord(t.typ, t.sub));
      }
      assert header[..2] == old(inner)[..2];
      var filled := FillBody(FromLittleEndian(header[..2]));
      if filled.Err? {
        return Err(filled.error);
      }
      var body := filled.value;
      if t == FAR_TYPE {
        sawFar := true;
        if body != [] {
          endian := if body[0] == CPU_M68000 then Big else Little;
        }
      }
      match Parse(t, body, endian) {
        case Ok(record) => return Ok(Some(record));
        case Err(e) => return Err(e);
      }
    }

    method Records() returns (r: Result<seq<Record>, StdfError>)
      modifies this
      ensures r == ReadAll(old(State()))
    {
      hide NextRecord;
      var records: seq<Record> := [];
      ghost var start := State();
      NothingRead(start);
      while true
        invariant ReadAll(start) == Behind(records, ReadAll(State()))
        decreases |inner|
      {
        NextConsumes(State());
        OneMore(records, State());
        var next := Next();
        if next.Err? {
          return Err(next.error);
        }
        if next.value.None? {
          assert records + [] == records;
          return Ok(records);
        }
        records := records + [next.value.value];
      }
    }
  }

  ghost function Behind(front: seq<Record>, r: Result<seq<Record>, StdfError>): Result<seq<Record>, StdfError>
  {
    if r.Ok? then Ok(front + r.value) else r
  }

  lemma NothingRead(s: ReaderState)
    ensures ReadAll(s) == Behind([], ReadAll(s))
  {
    hide ReadAll;
    if ReadAll(s).Ok? {
      assert [] + ReadAll(s).value == ReadAll(s).value;
    }
  }

  lemma OneMore(front: seq<Record>, s: ReaderState)
    ensures var n := NextRecord(s);
            match n.outcome
            case Err(e) => Behind(front, ReadAll(s)) == Err(e)
            case Ok(None) => Behind(front, ReadAll(s)) == Ok(front + [])
            case Ok(Some(r)) => Behind(front, ReadAll(s)) == Behind(front + [r], ReadAll(n.next))
  {
    var n := NextRecord(s);
    hide NextRecord;
    if n.outcome.Ok? && n.outcome.value.Some? && ReadAll(n.next).Ok? {
      Associates(front, [n.outcome.value.value], ReadAll(n.next).value);
    }
  }

  // ---------- when a file reads back ----------

  /** Every body is one that REC_LEN can announce. */
  predicate Measured(rs: seq<Record>)
    requires AllWritable(rs)
  {
    forall i :: 0 <= i < |rs| ==> |Body(rs[i])| <= 0xFFFF
  }

  /** A written record in front of anything is read, in the byte order in force, from its own body. */
  lemma NextOfWritten(r: Record, s: seq<byte>, e: Endian, sawFar: bool)
    requires Writable(r) && |Body(r)| <= 0xFFFF && (sawFar || TypeOf(r) == FAR_TYPE)
    ensures var e' := OrderAfter(e, TypeOf(r), Body(r));
            var parsed := Parse(TypeOf(r), Body(r), e');
            NextRecord(ReaderState(RecordBytes(r) + s, e, sawFar))
            == Reading(if parsed.Ok? then Ok(Some(parsed.value)) else Err(parsed.error), ReaderState(s, e', true))
  {
    hide Parse, Body, TypeOf, Writable, LittleEndian, FromLittleEndian;
    var t, body := TypeOf(r), Body(r);
    var data := RecordBytes(r) + s;
    SmallPowers();
    LittleEndianRoundTrip(|body|, 2);
    assert data[..2] == LittleEndian(|body|, 2) && data[2] == t.typ && data[3] == t.sub;
    assert data[4..][..|body|] == body && data[4..][|body|..] == s;
  }

  /** A longer one is not read as the record it is. */
  lemma NextOfOverlong(r: Record, s: seq<byte>, e: Endian, sawFar: bool)
    requires Writable(r) && |Body(r)| > 0xFFFF && (sawFar || TypeOf(r) == FAR_TYPE)
    ensures var outcome := NextRecord(ReaderState(RecordBytes(r) + s, e, sawFar)).outcome;
            outcome != Ok(Some(r)) && outcome != Ok(None)
  {
    hide Parse, Body, TypeOf, Writable, LittleEndian, FromLittleEndian;
    var t, body := TypeOf(r), Body(r);
    var len := |body| % 0x1_0000;
    var data := RecordBytes(r) + s;
    SmallPowers();
    LittleEndianRoundTrip(len, 2);
    assert data[..2] == LittleEndian(len, 2) && data[2] == t.typ && data[3] == t.sub;
    assert data[4..][..len] == body[..len];
    OverlongIsNotRead(r, OrderAfter(e, t, body[..len]));
  }

  /**
   Every record is consistent with its flags, and looks the same in the byte order that the last FAR
   up to it has set.
   */
  predicate Survives(e: Endian, rs: seq<Record>)
    requires AllWritable(rs)
    decreases |rs|
  {
    rs == []
    || (var e' := OrderAfter(e, TypeOf(rs[0]), Body(rs[0]));
        Consistent(rs[0]) && SameRecord(e', rs[0]) && Survives(e', rs[1..]))
  }

  lemma MeasuredStep(rs: seq<Record>)
    requires AllWritable(rs) && rs != []
    ensures Measured(rs) <==> |Body(rs[0])| <= 0xFFFF && Measured(rs[1..])
  {
    hide Writable, Body;
  }

  /** Reading a list of records is reading the first one and then the others. */
  lemma ReadAllStep(s: ReaderState, rs: seq<Record>)
    requires rs != []
    ensures var n := NextRecord(s);
            ReadAll(s) == Ok(rs) <==> n.outcome == Ok(Some(rs[0])) && ReadAll(n.next) == Ok(rs[1..])
  {
    hide NextRecord;
    var n := NextRecord(s);
    assert rs == [rs[0]] + rs[1..];
    if n.outcome.Ok? && n.outcome.value.Some? && ReadAll(n.next).Ok? {
      var r, others := n.outcome.value.value, ReadAll(n.next).value;
      assert ([r] + others)[0] == r && ([r] + others)[1..] == others;
    }
  }

  /** A written file reads back as its records exactly when each has been measured and survives. */
  lemma {:induction false} ReadsBackIff(e: Endian, sawFar: bool, rs: seq<Record>)
    requires AllWritable(rs) && (rs == [] || sawFar || TypeOf(rs[0]) == FAR_TYPE)
    ensures ReadAll(ReaderState(StreamBytes(rs), e, sawFar)) == Ok(rs) <==> Measured(rs) && Survives(e, rs)
    decreases |rs|
  {
    var s := ReaderState(StreamBytes(rs), e, sawFar);
    if rs == [] {
      hide Parse, Body, TypeOf, Writable, RecordBytes, OrderAfter, NextRecord, Consistent, SameRecord;
      NextOfNothing(s);
    } else {
      MeasuredStep(rs);
      ReadAllStep(s, rs);
      hide Parse, Body, TypeOf, Writable, RecordBytes, OrderAfter, NextRecord, Consistent, SameRecord, Measured, ReadAll;
      if |Body(rs[0])| <= 0xFFFF {
        var e' := OrderAfter(e, TypeOf(rs[0]), Body(rs[0]));
        NextOfWritten(rs[0], StreamBytes(rs[1..]), e, sawFar);
        RecordReadsIff(rs[0], e');
        ReadsBackIff(e', true, rs[1..]);
      } else {
        NextOfOverlong(rs[0], StreamBytes(rs[1..]), e, sawFar);
      }
    }
  }

  lemma NextOfNothing(s: ReaderState)
    requires s.rest == []
    ensures NextRecord(s) == Reading(Ok(None), s)
  {
  }

  /** Reading what the writer wrote gives the records back, behind a FAR if they did not start with one. */
  lemma {:induction false} FileReadsBackIff(rs: seq<Record>)
    requires AllWritable(rs)
    ensures AllWritable(InFile(false, rs))
    ensures var file := InFile(false, rs);
            ReadAll(Opened(StreamBytes(file))) == Ok(file) <==> Measured(rs) && Survives(Little, file)
  {
    InFileIsWritable(false, rs);
    FarIsWritable();
    var file := InFile(false, rs);
    assert file != [] ==> TypeOf(file[0]) == FAR_TYPE;
    hide Writable, Body, TypeOf, ReadAll, Survives, StreamBytes;
    ReadsBackIff(Little, false, file);
    if file != rs {
      assert file[1..] == rs;
      MeasuredStep(file);
    }
  }

  /** No FAR announces the big-endian processor. */
  predicate NoM68000(rs: seq<Record>)
  {
    forall i :: 0 <= i < |rs| && rs[i].Far? ==> rs[i].cpuType != CPU_M68000
  }

  predicate AllConsistent(rs: seq<Record>)
  {
    forall i :: 0 <= i < |rs| ==> Consistent(rs[i])
  }

  lemma OnlyFarHasFarType(r: Record)
    requires TypeOf(r) == FAR_TYPE && Consistent(r)
    ensures r.Far?
  {
  }

  /** Without such a FAR, all that matters is that each record agrees with its own flags. */
  lemma {:induction false} LittleSurvivesIff(rs: seq<Record>)
    requires AllWritable(rs) && NoM68000(rs)
    ensures Survives(Little, rs) <==> AllConsistent(rs)
    decreases |rs|
  {
    hide Writable, Body, TypeOf, Consistent, SameRecord;
    if rs != [] {
      ConsistentStep(rs);
      if Consistent(rs[0]) {
        if TypeOf(rs[0]) == FAR_TYPE {
          OnlyFarHasFarType(rs[0]);
          FarBody(rs[0]);
        }
        assert OrderAfter(Little, TypeOf(rs[0]), Body(rs[0])) == Little;
        LittleIsSame(rs[0]);
        LittleSurvivesIff(rs[1..]);
      }
    }
  }

  lemma {:induction false} LittleFileReadsBackIff(rs: seq<Record>)
    requires AllWritable(rs) && NoM68000(rs)
    ensures AllWritable(InFile(false, rs))
    ensures ReadAll(Opened(StreamBytes(InFile(false, rs)))) == Ok(InFile(false, rs))
       <==> Measured(rs) && AllConsistent(rs)
  {
    FarIsWritable();
    FileReadsBackIff(rs);
    hide Writable, Consistent, ReadAll, StreamBytes, Survives, Measured;
    var file := InFile(false, rs);
    LittleSurvivesIff(file);
    if file != rs {
      assert file[1..] == rs;
      ConsistentStep(file);
    }
  }

  lemma ConsistentStep(rs: seq<Record>)
    requires rs != []
    ensures AllConsistent(rs) <==> Consistent(rs[0]) && AllConsistent(rs[1..])
  {
    hide Consistent;
    if Consistent(rs[0]) && AllConsistent(rs[1..]) {
      forall i | 0 <= i < |rs| ensures Consistent(rs[i]) {
        assert i > 0 ==> rs[i] == rs[1..][i - 1];
      }
    }
  }

  /** A FAR of the big-endian processor spoils the file: the writer writes little-endian all the same. */
  lemma {:induction false} M68000FileDoesNotReadBack()
    ensures var rs := [Far(CPU_M68000, STDF_V4), Atr(1, [])];
            && AllWritable(rs) && Measured(rs) && Consistent(rs[0]) && Consistent(rs[1])
            && ReadAll(Opened(StreamBytes(rs))) != Ok(rs)
  {
    var rs := [Far(CPU_M68000, STDF_V4), Atr(1, [])];
    hide Writable, Consistent, Body, TypeOf, SameRecord, StreamBytes, ReadAll;
    M68000Example();
    FarBody(rs[0]);
    ReadsBackIff(Little, false, rs);
    assert rs[1..] == [rs[1]];
  }

  lemma M68000Example()
    ensures var far, atr := Far(CPU_M68000, STDF_V4), Atr(1, []);
            && Writable(far) && Writable(atr) && Consistent(far) && Consistent(atr) && |Body(atr)| == 5
            && TypeOf(atr) != FAR_TYPE && !SameRecord(Big, atr)
  {
    SmallPowers();
    var far, atr := Far(CPU_M68000, STDF_V4), Atr(1, []);
    assert TailTexts(far) == [] && TailTexts(atr) == [];
    assert Row(atr) == [Num(1), Str([])] && Prefix(TypeOf(atr)) == Some([U4, Cn]);
    assert Fit(U4, Row(atr)[0]) && Fit(Cn, Row(atr)[1]);
    assert !Mirrored(1, 4) by {
      BigEndian4(1);
      assert LittleEndian(1, 4)[0] == 1;
    }
    assert !SameIn(Big, U4, Row(atr)[0]);
  }
}
