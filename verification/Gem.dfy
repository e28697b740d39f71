/** GEM message bodies (SEMI E30) and their parsers, and how each side answers primaries. */
module Gem {
  import opened Outcomes
  import opened Bytes
  import opened Utf8
  import opened SecsItem
  import opened Session

  const HCACK_OK: byte := 0

  datatype Report = Report(rptId: u32, variables: seq<Item>)
  datatype EventReport = EventReport(dataId: u32, ceid: u32, reports: seq<Report>)
  datatype Param = Param(name: Text, value: Item)
  datatype HostCommand = HostCommand(rcmd: Text, params: seq<Param>)

  // ---------- accessors ----------

  function U4Item(v: u32): Item { Number(U4, [v]) }

  /** First element of a `U4` item; its elements are 32-bit words. */
  function AsU4(i: Item): Option<u32>
  {
    if i.Number? && i.number.U4? && i.values != [] && 0 <= i.values[0] < TWO32 then Some(i.values[0]) else None
  }

  function AsAscii(i: Item): Option<Text>
  {
    if i.Ascii? then Some(i.text) else None
  }

  // ---------- S1 ----------

  function S1F2(model: Text, softRev: Text): Item { List([Ascii(model), Ascii(softRev)]) }

  function S1F14(accepted: bool): Item
  {
    List([Boolean([accepted]), Ascii(if accepted then Utf8.Ascii("Established") else Utf8.Ascii("Refused"))])
  }

  /** `parse_online_data`: the model name and the software revision. */
  function ParseOnlineData(reply: Option<Item>): Result<(Text, Text), SecsError>
  {
    if reply.None? || !reply.value.List? then Err(Gem("S1F2 body is not a list"))
    else
      var items := reply.value.items;
      if |items| < 1 || !items[0].Ascii? then Err(Gem("S1F2 MDLN missing"))
      else if |items| < 2 || !items[1].Ascii? then Err(Gem("S1F2 SOFTREV missing"))
      else Ok((items[0].text, items[1].text))
  }

  /** The COMMACK flag of an S1F14. */
  function ParseCommAck(reply: Option<Item>): Result<bool, SecsError>
  {
    if reply.None? || !reply.value.List? then Err(Gem("S1F14 body is not a list"))
    else
      var items := reply.value.items;
      if |items| < 1 || !items[0].Boolean? || items[0].flags == [] then Err(Gem("S1F14 COMMACK missing"))
      else Ok(items[0].flags[0])
  }

  // ---------- S6F11, S6F12 ----------

  function ReportItem(r: Report): Item { List([U4Item(r.rptId), List(r.variables)]) }

  function ReportItems(rs: seq<Report>): seq<Item>
  {
    if rs == [] then [] else [ReportItem(rs[0])] + ReportItems(rs[1..])
  }

  function S6F11(e: EventReport): Item
  {
    List([U4Item(e.dataId), U4Item(e.ceid), List(ReportItems(e.reports))])
  }

  function S6F12(ack: byte): Item { Binary([ack]) }

  function ParseReport(i: Item): Result<Report, SecsError>
  {
    if !i.List? then Err(Gem("S6F11 report entry is not a list"))
    else if |i.items| != 2 then Err(Gem("S6F11 report entry has wrong size"))
    else if AsU4(i.items[0]).None? then Err(Gem("S6F11 RPTID is not U4"))
    else if !i.items[1].List? then Err(Gem("S6F11 V-list is not a list"))
    else Ok(Report(AsU4(i.items[0]).value, i.items[1].items))
  }

  function ParseReports(items: seq<Item>): Result<seq<Report>, SecsError>
  {
    if items == [] then Ok([])
    else
      var first :- ParseReport(items[0]);
      var rest :- ParseReports(items[1..]);
      Ok([first] + rest)
  }

  function ParseS6F11(body: Item): Result<EventReport, SecsError>
  {
    if !body.List? then Err(Gem("S6F11 body is not a list"))
    else if |body.items| != 3 then Err(Gem("S6F11 body has wrong size"))
    else if AsU4(body.items[0]).None? then Err(Gem("S6F11 DATAID is not U4"))
    else if AsU4(body.items[1]).None? then Err(Gem("S6F11 CEID is not U4"))
    else if !body.items[2].List? then Err(Gem("S6F11 report list is not a list"))
    else
      var reports :- ParseReports(body.items[2].items);
      Ok(EventReport(AsU4(body.items[0]).value, AsU4(body.items[1]).value, reports))
  }

  lemma {:induction false} ReportsRoundTrip(rs: seq<Report>)
    ensures ParseReports(ReportItems(rs)) == Ok(rs)
  {
    if rs != [] {
      ReportsRoundTrip(rs[1..]);
      assert ReportItems(rs)[1..] == ReportItems(rs[1..]);
      assert rs == [rs[0]] + rs[1..];
    }
  }

  /** An event report survives its body. */
  lemma S6F11RoundTrip(e: EventReport)
    ensures ParseS6F11(S6F11(e)) == Ok(e)
  {
    ReportsRoundTrip(e.reports);
  }

  /** `parse_s6f11` with its loop over report entries. */
  method ParseReportsLoop(items: seq<Item>) returns (r: Result<seq<Report>, SecsError>)
    ensures r == ParseReports(items)
  {
    var reports: seq<Report> := [];
    var k := 0;
    assert items[0..] == items;
    AfterNothing(ParseReports(items));
    while k < |items|
      invariant k <= |items|
      invariant ParseReports(items) == AfterReports(reports, ParseReports(items[k..]))
    {
      assert items[k..][1..] == items[k + 1..];
      var report := ParseReport(items[k]);
      AfterOne(reports, items[k..]);
      if report.Err? {
        return Err(report.error);
      }
      reports := reports + [report.value];
      k := k + 1;
    }
    assert reports + [] == reports;
    return Ok(reports);
  }

  lemma AfterNothing(r: Result<seq<Report>, SecsError>)
    ensures AfterReports([], r) == r
  {
    if r.Ok? {
      assert [] + r.value == r.value;
    }
  }

  lemma AfterOne(front: seq<Report>, items: seq<Item>)
    requires items != []
    ensures AfterReports(front, ParseReports(items))
         == match ParseReport(items[0])
            case Err(e) => Err(e)
            case Ok(report) => AfterReports(front + [report], ParseReports(items[1..]))
  {
    if ParseReport(items[0]).Ok? && ParseReports(items[1..]).Ok? {
      Associates(front, [ParseReport(items[0]).value], ParseReports(items[1..]).value);
    }
  }

  ghost function AfterReports(front: seq<Report>, rest: Result<seq<Report>, SecsError>): Result<seq<Report>, SecsError>
  {
    if rest.Ok? then Ok(front + rest.value) else rest
  }

  // ---------- S2F41, S2F42 ----------

  function ParamItem(p: Param): Item { List([Ascii(p.name), p.value]) }

  function ParamItems(ps: seq<Param>): seq<Item>
  {
    if ps == [] then [] else [ParamItem(ps[0])] + ParamItems(ps[1..])
  }

  function S2F41(c: HostCommand): Item { List([Ascii(c.rcmd), List(ParamItems(c.params))]) }

  function S2F42(hcack: byte): Item { Binary([hcack]) }

  function ParseParam(i: Item): Result<Param, SecsError>
  {
    if !i.List? then Err(Gem("S2F41 parameter entry is not a list"))
    else if |i.items| != 2 then Err(Gem("S2F41 parameter entry has wrong size"))
    else if !i.items[0].Ascii? then Err(Gem("S2F41 CPNAME is not ASCII"))
    else Ok(Param(i.items[0].text, i.items[1]))
  }

  function ParseParams(items: seq<Item>): Result<seq<Param>, SecsError>
  {
    if items == [] then Ok([])
    else
      var first :- ParseParam(items[0]);
      var rest :- ParseParams(items[1..]);
      Ok([first] + rest)
  }

  function ParseS2F41(body: Item): Result<HostCommand, SecsError>
  {
    if !body.List? then Err(Gem("S2F41 body is not a list"))
    else if |body.items| != 2 then Err(Gem("S2F41 body has wrong size"))
    else if !body.items[0].Ascii? then Err(Gem("S2F41 RCMD is not ASCII"))
    else if !body.items[1].List? then Err(Gem("S2F41 parameter list is not a list"))
    else
      var params :- ParseParams(body.items[1].items);
      Ok(HostCommand(body.items[0].text, params))
  }

  lemma {:induction false} ParamsRoundTrip(ps: seq<Param>)
    ensures ParseParams(ParamItems(ps)) == Ok(ps)
  {
    if ps != [] {
      ParamsRoundTrip(ps[1..]);
      assert ParamItems(ps)[1..] == ParamItems(ps[1..]);
      assert ps == [ps[0]] + ps[1..];
    }
  }

  lemma ThreeParams(ps: seq<Param>)
    requires |ps| == 3
    ensures ParamItems(ps) == [ParamItem(ps[0]), ParamItem(ps[1]), ParamItem(ps[2])]
  {
    hide ParamItem;
    assert ps[1..][1..] == ps[2..] && ps[2..][1..] == [];
    assert ParamItems(ps[2..]) == [ParamItem(ps[2])];
  }

  /** A host command survives its body. */
  lemma S2F41RoundTrip(c: HostCommand)
    ensures ParseS2F41(S2F41(c)) == Ok(c)
  {
    ParamsRoundTrip(c.params);
  }

  // ---------- answering primaries ----------

  /** `EquipmentGem::serve_one`: the reply depends on the function alone. */
  function EquipmentReply(model: Text, softRev: Text): Responder
  {
    (stream: byte, f: byte, body: Option<Item>) =>
      if f == 1 then Some(S1F2(model, softRev))
      else if f == 13 then Some(S1F14(true))
      else if f == 41 then Some(S2F42(HCACK_OK))
      else None
  }

  /** `HostGem::serve_event_reports`: every primary is acknowledged. */
  function HostReply(): Responder
  {
    (stream: byte, f: byte, body: Option<Item>) => Some(S6F12(0))
  }

  /** A short list of encodable items is encodable. */
  lemma ListIsEncodable(items: seq<Item>)
    requires |items| <= MAX_LENGTH && forall k | 0 <= k < |items| :: Encodable(items[k])
    ensures Encodable(List(items))
  {
  }

  lemma TextIsEncodable(t: Text)
    requires ValidText(t) && |t| <= MAX_LENGTH
    ensures Encodable(Ascii(t))
  {
  }

  lemma OneByteIsEncodable(b: byte)
    ensures Encodable(Binary([b])) && Encodable(Boolean([b != 0]))
  {
  }

  lemma S1F2IsEncodable(model: Text, softRev: Text)
    requires ValidText(model) && |model| <= MAX_LENGTH && ValidText(softRev) && |softRev| <= MAX_LENGTH
    ensures Encodable(S1F2(model, softRev))
  {
    TextIsEncodable(model);
    TextIsEncodable(softRev);
    hide Encodable;
    ListIsEncodable([Ascii(model), Ascii(softRev)]);
  }

  lemma AsciiTextIsEncodable(s: string)
    requires |s| <= MAX_LENGTH && forall k | 0 <= k < |s| :: s[k] as int < 0x80
    ensures Encodable(Ascii(Utf8.Ascii(s)))
  {
    AsciiIsValid(Utf8.Ascii(s));
    TextIsEncodable(Utf8.Ascii(s));
  }

  lemma S1F14IsEncodable()
    ensures Encodable(S1F14(true))
  {
    AsciiTextIsEncodable("Established");
    OneByteIsEncodable(1);
    hide Encodable, Utf8.Ascii;
    ListIsEncodable([Boolean([true]), Ascii(Utf8.Ascii("Established"))]);
  }

  lemma {:induction false} HostRepliesCanBeSent()
    ensures RepliesEncodable(HostReply())
  {
    OneByteIsEncodable(0);
    hide Encodable;
  }

  lemma EquipmentRepliesCanBeSent(model: Text, softRev: Text)
    requires ValidText(model) && |model| <= MAX_LENGTH && ValidText(softRev) && |softRev| <= MAX_LENGTH
    ensures RepliesEncodable(EquipmentReply(model, softRev))
  {
    S1F2IsEncodable(model, softRev);
    S1F14IsEncodable();
    OneByteIsEncodable(HCACK_OK);
    assert Encodable(S2F42(HCACK_OK));
    hide Encodable, S1F2, S1F14, S2F42, ValidText, Utf8.Ascii;
    var respond := EquipmentReply(model, softRev);
    forall s, f, b | respond(s, f, b).Some?
      ensures Encodable(respond(s, f, b).value)
    {
      if f == 1 {
        assert respond(s, f, b) == Some(S1F2(model, softRev));
      } else if f == 13 {
        assert respond(s, f, b) == Some(S1F14(true));
      } else {
        assert respond(s, f, b) == Some(S2F42(HCACK_OK));
      }
    }
  }
}
