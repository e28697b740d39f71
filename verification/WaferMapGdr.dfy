/** The wafer map inside the file: how it is packed into a GDR payload and read out again. */
module WaferMapGdr {
  import opened Outcomes
  import opened Bytes
  import opened Utf8
  import opened StdfCodec
  import opened StdfRecords
  import opened StdfRoundTrip
  import opened StdfStream
  import opened Wafer

  const ENTRY := 13

  /** x, y, hard bin, soft bin and verdict; all zeros behind the coordinate of an untested die. */
  function OutcomeBytes(state: DieState): (b: seq<byte>)
    ensures |b| == 5
  {
    match state
    case Tested(o) => LittleEndian(o.hardBin, 2) + LittleEndian(o.softBin, 2) + [if o.passed then 1 else 0]
    case _ => [0, 0, 0, 0, 0]
  }

  function EntryBytes(d: Die): (b: seq<byte>)
    ensures |b| == ENTRY
  {
    SmallPowers();
    LittleEndian(ToUnsigned(d.coord.x, 4), 4) + LittleEndian(ToUnsigned(d.coord.y, 4), 4) + OutcomeBytes(d.state)
  }

  function EntriesBytes(dies: seq<Die>): (b: seq<byte>)
  {
    if dies == [] then [] else EntryBytes(dies[0]) + EntriesBytes(dies[1..])
  }

  /** The id length is cut to one byte. */
  function EncodeMap(waferId: Text, dies: seq<Die>): seq<byte>
  {
    [|waferId| % 256] + waferId + EntriesBytes(dies)
  }

  method EncodeWaferMap(wafer: WaferDieMap) returns (out: seq<byte>)
    ensures out == EncodeMap(wafer.waferId, wafer.dies)
  {
    hide EntryBytes;
    out := [|wafer.waferId| % 256];
    out := out + wafer.waferId;
    ghost var head := out;
    for i := 0 to |wafer.dies|
      invariant out == head + EntriesBytes(wafer.dies[..i])
    {
      EntriesGrow(wafer.dies, i);
      Associates(head, EntriesBytes(wafer.dies[..i]), EntryBytes(wafer.dies[i]));
      out := out + EntryBytes(wafer.dies[i]);
    }
    assert wafer.dies[..|wafer.dies|] == wafer.dies;
  }

  lemma {:induction false} EntriesGrow(dies: seq<Die>, i: nat)
    requires i < |dies|
    ensures EntriesBytes(dies[..i + 1]) == EntriesBytes(dies[..i]) + EntryBytes(dies[i])
    decreases i
  {
    hide EntryBytes;
    if i == 0 {
      assert dies[..1] == [dies[0]] && dies[..1][1..] == [] && dies[..0] == [];
    } else {
      EntriesGrow(dies[1..], i - 1);
      assert dies[..i + 1][1..] == dies[1..][..i] && dies[..i][1..] == dies[1..][..i - 1];
      Associates(EntryBytes(dies[0]), EntriesBytes(dies[1..][..i - 1]), EntryBytes(dies[i]));
    }
  }

  // ---------- reading ----------

  datatype DieEntry = DieEntry(coord: DieCoord, tested: Option<DieTestOutcome>)
  datatype WaferMapSnapshot = WaferMapSnapshot(waferId: Text, dies: seq<DieEntry>)

  /** `Panics` is the slice that is out of range when the announced id is longer than the payload. */
  datatype MapReading = Absent | Panics | Snapshot(snapshot: WaferMapSnapshot)

  function Word(b: seq<byte>): (n: u16)
    requires |b| == 2
  {
    SmallPowers();
    LittleEndianInverse(b);
    FromLittleEndian(b)
  }

  function Coordinate(b: seq<byte>): (v: i32)
    requires |b| == 4
  {
    SmallPowers();
    LittleEndianInverse(b);
    UnsignedRoundTrip(FromLittleEndian(b), 4);
    ToSigned(FromLittleEndian(b), 4)
  }

  function DecodeEntry(b: seq<byte>): DieEntry
    requires |b| >= ENTRY
  {
    var hard, soft, passed := Word(b[8..10]), Word(b[10..12]), b[12] != 0;
    DieEntry(DieCoord(Coordinate(b[..4]), Coordinate(b[4..8])),
             if hard == 0 && soft == 0 && !passed then None else Some(DieTestOutcome(passed, hard, soft)))
  }

  /** Whole entries only: a shorter rest is dropped. */
  function DecodeEntries(rest: seq<byte>): seq<DieEntry>
  {
    if |rest| < ENTRY then [] else [DecodeEntry(rest)] + DecodeEntries(rest[ENTRY..])
  }

  function DecodeMap(data: seq<byte>): MapReading
  {
    if data == [] then Absent
    else
      var idLen: nat := data[0];
      if |data| < 1 + idLen then Panics
      else Snapshot(WaferMapSnapshot(FromUtf8Lossy(data[1..1 + idLen]), DecodeEntries(data[1 + idLen..])))
  }

  method DecodeWaferMap(data: seq<byte>) returns (r: MapReading)
    ensures r == DecodeMap(data)
  {
    hide DecodeEntry, FromUtf8Lossy;
    if data == [] {
      return Absent;
    }
    var idLen: nat := data[0];
    if |data| < 1 + idLen {
      return Panics;
    }
    var id := FromUtf8Lossy(data[1..1 + idLen]);
    var rest := data[1 + idLen..];
    var dies: seq<DieEntry> := [];
    while |rest| >= ENTRY
      invariant dies + DecodeEntries(rest) == DecodeEntries(data[1 + idLen..])
    {
      Associates(dies, [DecodeEntry(rest)], DecodeEntries(rest[ENTRY..]));
      dies := dies + [DecodeEntry(rest)];
      rest := rest[ENTRY..];
    }
    assert dies + [] == dies;
    return Snapshot(WaferMapSnapshot(id, dies));
  }

  // ---------- the round trip ----------

  /** A failed die in bins 0 and 0 looks untested, and so does an excluded one. */
  predicate LooksUntested(state: DieState)
  {
    !state.Tested? || state.outcome == DieTestOutcome(false, 0, 0)
  }

  /** What the file can say about a die. */
  function Seen(state: DieState): Option<DieTestOutcome>
  {
    if LooksUntested(state) then None else Some(state.outcome)
  }

  function SeenDies(dies: seq<Die>): (s: seq<DieEntry>)
    ensures |s| == |dies|
  {
    seq(|dies|, i requires 0 <= i < |dies| => DieEntry(dies[i].coord, Seen(dies[i].state)))
  }

  lemma CoordinateRoundTrip(v: i32)
    ensures 0 <= ToUnsigned(v, 4) && Coordinate(LittleEndian(ToUnsigned(v, 4), 4)) == v
  {
    SmallPowers();
    SignedRoundTrip(v, 4);
    LittleEndianRoundTrip(ToUnsigned(v, 4), 4);
  }

  lemma WordRoundTrip(n: u16)
    ensures Word(LittleEndian(n, 2)) == n
  {
    SmallPowers();
    LittleEndianRoundTrip(n, 2);
  }

  lemma ZeroWord()
    ensures Word([0, 0]) == 0
  {
    assert LittleEndian(0, 2) == [0] + LittleEndian(0, 1) == [0, 0];
    WordRoundTrip(0);
  }

  lemma EntryRoundTrip(d: Die, s: seq<byte>)
    ensures DecodeEntry(EntryBytes(d) + s) == DieEntry(d.coord, Seen(d.state))
  {
    SmallPowers();
    hide LittleEndian, Word, Coordinate, Pow256;
    var b := EntryBytes(d) + s;
    var x, y := LittleEndian(ToUnsigned(d.coord.x, 4), 4), LittleEndian(ToUnsigned(d.coord.y, 4), 4);
    assert b[..4] == x && b[4..8] == y && b[8..ENTRY] == OutcomeBytes(d.state);
    CoordinateRoundTrip(d.coord.x);
    CoordinateRoundTrip(d.coord.y);
    var ob := OutcomeBytes(d.state);
    assert b[8..10] == ob[..2] && b[10..12] == ob[2..4] && b[12] == ob[4];
    if d.state.Tested? {
      var o := d.state.outcome;
      WordRoundTrip(o.hardBin);
      WordRoundTrip(o.softBin);
      assert ob[..2] == LittleEndian(o.hardBin, 2) && ob[2..4] == LittleEndian(o.softBin, 2);
    } else {
      ZeroWord();
      assert ob[..2] == [0, 0] && ob[2..4] == [0, 0];
    }
  }

  lemma {:induction false} EntriesRoundTrip(dies: seq<Die>)
    ensures DecodeEntries(EntriesBytes(dies)) == SeenDies(dies)
  {
    hide EntryBytes, DecodeEntry;
    if dies != [] {
      var b := EntriesBytes(dies);
      EntryRoundTrip(dies[0], EntriesBytes(dies[1..]));
      assert b[ENTRY..] == EntriesBytes(dies[1..]);
      EntriesRoundTrip(dies[1..]);
      assert SeenDies(dies) == [DieEntry(dies[0].coord, Seen(dies[0].state))] + SeenDies(dies[1..]);
    }
  }

  lemma EncodedMapReads(waferId: Text, dies: seq<Die>)
    ensures var n := |waferId| % 256;
            && DecodeMap(EncodeMap(waferId, dies)).Snapshot?
            && DecodeMap(EncodeMap(waferId, dies)).snapshot.waferId == FromUtf8Lossy(waferId[..n])
            && (n == |waferId| ==> DecodeMap(EncodeMap(waferId, dies)).snapshot.dies == DecodeEntries(EntriesBytes(dies)))
  {
    hide FromUtf8Lossy, EntriesBytes, DecodeEntries;
    var data, n := EncodeMap(waferId, dies), |waferId| % 256;
    assert data[0] == n && data[1..1 + n] == waferId[..n];
    if n == |waferId| {
      assert data[1 + n..] == EntriesBytes(dies);
    }
  }

  /** The map comes out of its payload, die by die, exactly when one byte can hold the length of its id. */
  lemma {:induction false} MapReadsBackIff(waferId: Text, dies: seq<Die>)
    requires ValidText(waferId)
    ensures DecodeMap(EncodeMap(waferId, dies)) == Snapshot(WaferMapSnapshot(waferId, SeenDies(dies)))
       <==> |waferId| <= 255
  {
    hide ValidText, FromUtf8Lossy, EntriesBytes, DecodeEntries, DecodeMap, EncodeMap, SeenDies;
    var n := |waferId| % 256;
    EncodedMapReads(waferId, dies);
    LossyOfCut(waferId, n);
    if |waferId| <= 255 {
      assert waferId[..n] == waferId;
      LossyKeepsValid(waferId);
      EntriesRoundTrip(dies);
    }
  }

  /**
   Two states of a die are read as the same thing, whatever follows their entries, only if they are
   the same or both look untested; and an outcome that does not is read as it was recorded.
   */
  lemma {:induction false} StatesReadAlikeIff(coord: DieCoord, a: DieState, b: DieState, s: seq<byte>, t: seq<byte>)
    ensures DecodeEntry(EntryBytes(Die(coord, a)) + s) == DecodeEntry(EntryBytes(Die(coord, b)) + t)
       <==> a == b || (LooksUntested(a) && LooksUntested(b))
    ensures DecodeEntry(EntryBytes(Die(coord, a)) + s)
         == DieEntry(coord, if LooksUntested(a) then None else Some(a.outcome))
  {
    hide DecodeEntry, EntryBytes;
    EntryRoundTrip(Die(coord, a), s);
    EntryRoundTrip(Die(coord, b), t);
  }

  // ---------- through the file ----------

  lemma GdrRow(p: seq<byte>)
    ensures TypeOf(Gdr(p)) == RecordType(20, 10) && Prefix(RecordType(20, 10)) == Some([Kn])
    ensures Row(Gdr(p)) == [Data(p)] && TailTexts(Gdr(p)) == [] && TailFits(Gdr(p)) && Tail(Gdr(p)) == []
    ensures Consistent(Gdr(p))
  {
    assert TailTexts(Gdr(p)) == [];
  }

  lemma GdrBody(p: seq<byte>)
    requires |p| <= 0xFFFF
    ensures Writable(Gdr(p)) && Body(Gdr(p)) == LittleEndian(|p|, 2) + p
  {
    hide Put, Fit, LittleEndian, Row, TypeOf, Prefix, TailFits, Tail, PutAll, AllFit, TailTexts, Consistent;
    GdrField(p);
    GdrRow(p);
    OneField(Kn, Data(p));
    assert Body(Gdr(p)) == PutAll([Kn], [Data(p)]) + [];
  }

  lemma GdrField(p: seq<byte>)
    requires |p| <= 0xFFFF
    ensures Fit(Kn, Data(p)) && Put(Kn, Data(p)) == LittleEndian(|p|, 2) + p
  {
    hide LittleEndian;
  }

  lemma OneField(k: Kind, v: Value)
    requires Fit(k, v)
    ensures AllFit([k], [v]) && PutAll([k], [v]) == Put(k, v)
  {
    hide Fit, Put;
    assert PutAll([], []) == [];
  }

  /** A GDR is read back from a little-endian file exactly when REC_LEN can announce its body. */
  lemma GdrReadsBackIff(p: seq<byte>, s: seq<byte>)
    requires |p| <= 0xFFFF
    ensures Writable(Gdr(p))
    ensures NextRecord(ReaderState(RecordBytes(Gdr(p)) + s, Little, true)).outcome == Ok(Some(Gdr(p)))
       <==> |p| <= 0xFFFD
  {
    GdrRow(p);
    GdrBody(p);
    if |p| <= 0xFFFD {
      RecordReadsIff(Gdr(p), Little);
      hide Parse, Writable, Body, TypeOf, NextRecord;
      NextOfWritten(Gdr(p), s, Little, true);
    } else {
      hide Parse, Writable, Body, TypeOf, NextRecord;
      NextOfOverlong(Gdr(p), s, Little, true);
    }
  }
}
