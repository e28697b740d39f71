/** Exactly when the file of a finished run reads back, and what the wafer map in it then says. */
module RunFileRoundTrip {
  import opened Outcomes
  import opened Bytes
  import opened Utf8
  import opened StdfCodec
  import opened StdfRecords
  import opened StdfRoundTrip
  import opened StdfOverlong
  import opened StdfStream
  import opened Bins
  import opened Wafer
  import opened BinSort
  import opened WaferMapGdr
  import opened Recording

  // ---------- the records of a run ----------

  /** What every record of a run has in common; `payload` is the packed wafer map. */
  predicate RunRecord(r: Record, payload: seq<byte>)
  {
    && Consistent(r) && !r.Unknown?
    && (r.Far? ==> r.cpuType == CPU_X86)
    && (r.Gdr? ==> r.genData == payload)
    && (r.Ftr? ==> r.rtnNam == [] && |r.pgmNam| == 1 && r.ftr.alarmId.None?)
  }

  lemma MeasuredPtrIsRunRecord(m: MeasurementOutcome, program: TestProgram, payload: seq<byte>)
    ensures RunRecord(PtrOf(m, program), payload)
  {
    var r := PtrOf(m, program);
    assert r.Ptr? && r.parmFlg == OPT_FLAG_PRESENT && r.ptr.optFlg == Some(0);
    assert Flag(OPT_FLAG_PRESENT, OPT_FLAG_PRESENT);
    assert PtrFlagsMatch(r.parmFlg, r.ptr);
  }

  lemma {:induction false} DieRecordsAreRunRecords(rs: seq<DieTestResult>, program: TestProgram, payload: seq<byte>,
                                                   r: Record)
    requires r in DieSection(rs, program)
    ensures RunRecord(r, payload)
  {
    hide PtrOf, PtrFlagsMatch;
    var n := |rs| - 1;
    if r in DieSection(rs[..n], program) {
      DieRecordsAreRunRecords(rs[..n], program, payload, r);
    } else if r in Ptrs(rs[n].measurements, program) {
      var i :| 0 <= i < |rs[n].measurements| && r == PtrOf(rs[n].measurements[i], program);
      MeasuredPtrIsRunRecord(rs[n].measurements[i], program, payload);
    }
  }

  lemma StreamOfRunRecords(program: TestProgram, wafer: WaferMap, results: seq<DieTestResult>, tally: TallyCounts,
                           taxonomy: BinTaxonomy, metadata: RunMetadata, r: Record)
    requires r in RunRecords(program, wafer, results, tally, taxonomy, metadata)
    ensures RunRecord(r, EncodeMap(wafer.waferId, wafer.dies))
  {
    hide DieSection, ByCoord, EncodeMap, LotStrings, Ascii, OutcomesOn, PassesIn, Summary, Truncated16, PtrFlagsMatch,
         Pick;
    if r in DieSection(ByCoord(results), program) {
      DieRecordsAreRunRecords(ByCoord(results), program, EncodeMap(wafer.waferId, wafer.dies), r);
    }
  }

  // ---------- bodies ----------

  lemma FieldIsShort(k: Kind, v: Value)
    requires Fit(k, v) && !k.Nn? && !k.Kn? && (k.Sn? ==> |v.texts| <= 1)
    ensures |Put(k, v)| <= 258
  {
    hide LittleEndian, ValidText, Pow256;
    if k.Sn? && v.texts != [] {
      assert v.texts[1..] == [];
      assert CnsBytes(v.texts) == CnBytes(v.texts[0]) + CnsBytes([]);
      assert |CnBytes(v.texts[0])| <= 256;
    }
  }

  lemma {:induction false} RowIsShort(ks: seq<Kind>, vs: seq<Value>)
    requires AllFit(ks, vs) && forall i :: 0 <= i < |ks| ==> |Put(ks[i], vs[i])| <= 258
    ensures |PutAll(ks, vs)| <= 258 * |ks|
  {
    hide Put, Fit;
    if ks != [] {
      RowIsShort(ks[1..], vs[1..]);
    }
  }

  /** Fields with long lengths are only in FTR and GDR. */
  predicate FewLongFields(t: RecordType, ks: seq<Kind>)
  {
    && |ks| <= 38
    && forall i :: 0 <= i < |ks| ==>
         !ks[i].Nn? && (ks[i].Kn? ==> t == RecordType(20, 10)) && (ks[i].Sn? ==> t == RecordType(15, 20))
  }

  lemma LotFields(t: RecordType)
    requires t.typ == 1 && Prefix(t).Some?
    ensures FewLongFields(t, Prefix(t).value)
  {
    var ks := Prefix(t).value;
    forall i | 0 <= i < |ks| ensures !ks[i].Nn? && !ks[i].Kn? && !ks[i].Sn? {
    }
  }

  lemma OtherFields(t: RecordType)
    requires t.typ != 1 && Prefix(t).Some?
    ensures FewLongFields(t, Prefix(t).value)
  {
    var ks := Prefix(t).value;
    assert |ks| <= 18;
    forall i | 0 <= i < |ks|
      ensures !ks[i].Nn? && (ks[i].Kn? ==> t == RecordType(20, 10)) && (ks[i].Sn? ==> t == RecordType(15, 20))
    {
    }
  }

  lemma EveryTypeHasFewLongFields(r: Record)
    requires !r.Unknown?
    ensures Prefix(TypeOf(r)).Some? && FewLongFields(TypeOf(r), Prefix(TypeOf(r)).value)
    ensures TypeOf(r) == RecordType(20, 10) <==> r.Gdr?
  {
    OnlyUnknownLacksPrefix(r);
    hide Prefix, FewLongFields;
    if TypeOf(r).typ == 1 {
      LotFields(TypeOf(r));
    } else {
      OtherFields(TypeOf(r));
    }
  }

  lemma RowHasFewTexts(r: Record)
    requires r.Ftr? ==> r.rtnNam == [] && |r.pgmNam| == 1
    ensures forall i :: 0 <= i < |Row(r)| && Row(r)[i].Strs? ==> |Row(r)[i].texts| <= 1
  {
  }

  lemma RunRowIsShort(r: Record, payload: seq<byte>)
    requires Writable(r) && RunRecord(r, payload) && !r.Gdr?
    ensures Prefix(TypeOf(r)).Some? && |PutAll(Prefix(TypeOf(r)).value, Row(r))| <= 258 * 38
  {
    EveryTypeHasFewLongFields(r);
    RowHasFewTexts(r);
    hide Prefix, TypeOf, Row, Put, TailFits, Consistent, Pow256, ValidText, InSignedRange;
    var ks, vs := Prefix(TypeOf(r)).value, Row(r);
    forall i | 0 <= i < |ks| ensures |Put(ks[i], vs[i])| <= 258 {
      assert Fit(ks[i], vs[i]);
      assert !ks[i].Nn?;
      FieldIsShort(ks[i], vs[i]);
    }
    RowIsShort(ks, vs);
  }

  lemma RunTailIsShort(r: Record, payload: seq<byte>)
    requires Writable(r) && RunRecord(r, payload)
    ensures TailFits(r) && |Tail(r)| <= 2000
  {
    hide AllFit, Prefix, Row, Consistent, FtrFits;
    if !r.Ftr? {
      hide Tail, TailFits;
      OnlyFtrTailIsLong(r);
    }
  }

  lemma RunBodyIsShort(r: Record, payload: seq<byte>)
    requires Writable(r) && RunRecord(r, payload) && !r.Gdr?
    ensures |Body(r)| <= 0xFFFF
  {
    RunRowIsShort(r, payload);
    RunTailIsShort(r, payload);
    hide PutAll, Tail, TailFits, AllFit, Prefix, Row, TypeOf, Consistent;
  }

  // ---------- the file ----------

  lemma MapIsLastButOne(program: TestProgram, wafer: WaferMap, results: seq<DieTestResult>, tally: TallyCounts,
                        taxonomy: BinTaxonomy, metadata: RunMetadata)
    ensures var stream := RunRecords(program, wafer, results, tally, taxonomy, metadata);
            && |stream| >= 2 && stream[0] == X86_FAR
            && stream[|stream| - 2] == Gdr(EncodeMap(wafer.waferId, wafer.dies))
  {
    hide DieSection, ByCoord, SpecTsrs, GroupTsrs, Counters, Hbrs, Sbrs, LotStrings, Ascii, EncodeMap, Truncated16;
  }

  lemma RunRecordsBehave(program: TestProgram, wafer: WaferMap, results: seq<DieTestResult>, tally: TallyCounts,
                         taxonomy: BinTaxonomy, metadata: RunMetadata)
    ensures var stream := RunRecords(program, wafer, results, tally, taxonomy, metadata);
            && NoM68000(stream) && AllConsistent(stream)
            && forall i :: 0 <= i < |stream| ==> RunRecord(stream[i], EncodeMap(wafer.waferId, wafer.dies))
  {
    hide RunRecords, EncodeMap, Consistent;
    var stream := RunRecords(program, wafer, results, tally, taxonomy, metadata);
    forall i | 0 <= i < |stream| ensures RunRecord(stream[i], EncodeMap(wafer.waferId, wafer.dies)) {
      StreamOfRunRecords(program, wafer, results, tally, taxonomy, metadata, stream[i]);
    }
  }

  /** The bodies of run records can be announced exactly when that of the wafer map can. */
  lemma RunIsMeasuredIff(rs: seq<Record>, payload: seq<byte>)
    requires AllWritable(rs) && forall i :: 0 <= i < |rs| ==> RunRecord(rs[i], payload)
    requires |rs| >= 2 && rs[|rs| - 2] == Gdr(payload)
    ensures Measured(rs) <==> |payload| <= 0xFFFD
  {
    hide Body, Writable, Consistent;
    GdrSize(rs[|rs| - 2]);
    forall i | 0 <= i < |rs| ensures |Body(rs[i])| <= 0xFFFF || |payload| > 0xFFFD {
      if rs[i].Gdr? {
        GdrSize(rs[i]);
      } else {
        RunBodyIsShort(rs[i], payload);
      }
    }
  }

  lemma GdrSize(r: Record)
    requires r.Gdr? && Writable(r)
    ensures |Body(r)| == 2 + |r.genData|
  {
    GdrRow(r.genData);
    assert Fit(Kn, Row(r)[0]);
    hide Body, Writable;
    GdrBody(r.genData);
  }

  /**
   Reading the file of a run gives back its records exactly when the packed wafer map, 13 bytes a die
   behind the id and its length, leaves room for its own length in a record body.
   */
  lemma {:induction false} RunFileReadsBackIff(program: TestProgram, wafer: WaferMap, results: seq<DieTestResult>,
                                               tally: TallyCounts, taxonomy: BinTaxonomy, metadata: RunMetadata)
    requires AllWritable(RunRecords(program, wafer, results, tally, taxonomy, metadata))
    ensures var stream := RunRecords(program, wafer, results, tally, taxonomy, metadata);
            && InFile(false, stream) == stream
            && (ReadAll(Opened(StreamBytes(stream))) == Ok(stream)
                <==> 1 + |wafer.waferId| + ENTRY * |wafer.dies| <= 0xFFFD)
  {
    var stream := RunRecords(program, wafer, results, tally, taxonomy, metadata);
    var payload := EncodeMap(wafer.waferId, wafer.dies);
    PayloadSize(wafer.waferId, wafer.dies);
    hide RunRecords, EncodeMap, EntriesBytes, Writable, RunRecord, Measured, AllConsistent, ReadAll, StreamBytes;
    MapIsLastButOne(program, wafer, results, tally, taxonomy, metadata);
    RunRecordsBehave(program, wafer, results, tally, taxonomy, metadata);
    RunIsMeasuredIff(stream, payload);
    LittleFileReadsBackIff(stream);
  }

  lemma {:induction false} EntriesSize(dies: seq<Die>)
    ensures |EntriesBytes(dies)| == ENTRY * |dies|
  {
    hide EntryBytes;
    if dies != [] {
      EntriesSize(dies[1..]);
    }
  }

  lemma PayloadSize(waferId: Text, dies: seq<Die>)
    ensures |EncodeMap(waferId, dies)| == 1 + |waferId| + ENTRY * |dies|
  {
    EntriesSize(dies);
  }

  /** When it does, the map in the last record but one says of every die what the wafer map said. */
  lemma {:induction false} MapSurvivesTheFile(program: TestProgram, wafer: WaferMap, results: seq<DieTestResult>,
                                              tally: TallyCounts, taxonomy: BinTaxonomy, metadata: RunMetadata)
    requires AllWritable(RunRecords(program, wafer, results, tally, taxonomy, metadata))
    requires 1 + |wafer.waferId| + ENTRY * |wafer.dies| <= 0xFFFD
    ensures var stream := RunRecords(program, wafer, results, tally, taxonomy, metadata);
            var read := ReadAll(Opened(StreamBytes(stream)));
            && read.Ok? && |read.value| >= 2 && read.value[|read.value| - 2].Gdr?
            && DecodeMap(read.value[|read.value| - 2].genData)
               == Snapshot(WaferMapSnapshot(wafer.waferId, SeenDies(wafer.dies)))
  {
    var stream := RunRecords(program, wafer, results, tally, taxonomy, metadata);
    WirFitsId(program, wafer, results, tally, taxonomy, metadata);
    hide RunRecords, EncodeMap, Writable, ReadAll, StreamBytes, DecodeMap, SeenDies, ValidText;
    MapIsLastButOne(program, wafer, results, tally, taxonomy, metadata);
    RunFileReadsBackIff(program, wafer, results, tally, taxonomy, metadata);
    MapReadsBackIff(wafer.waferId, wafer.dies);
  }

  /** The wafer id also stands in the WIR, so a writable stream has a short one. */
  lemma WirFitsId(program: TestProgram, wafer: WaferMap, results: seq<DieTestResult>, tally: TallyCounts,
                  taxonomy: BinTaxonomy, metadata: RunMetadata)
    requires AllWritable(RunRecords(program, wafer, results, tally, taxonomy, metadata))
    ensures ShortText(wafer.waferId)
  {
    hide DieSection, ByCoord, SpecTsrs, GroupTsrs, Counters, Hbrs, Sbrs, Back, LotStrings, Ascii, Truncated16, Writable;
    var stream := RunRecords(program, wafer, results, tally, taxonomy, metadata);
    assert stream[4] == Front(program, wafer, metadata)[4] == Wir(1, 0, metadata.startT, wafer.waferId);
    WritableWir(stream[4]);
  }

  lemma WritableWir(r: Record)
    requires r.Wir? && Writable(r)
    ensures ShortText(r.waferId)
  {
    assert Prefix(TypeOf(r)).value[3] == Cn && Row(r)[3] == Str(r.waferId);
    assert Fit(Cn, Row(r)[3]);
  }
}
