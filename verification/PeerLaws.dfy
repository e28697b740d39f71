/**
 What each side of a placement run makes of any message at all: when it goes on, when it takes no
 notice, and when it gives up; and what it answers.
 */
module PeerLaws {
  import opened Outcomes
  import opened Bytes
  import opened Utf8
  import opened SecsItem
  import opened Hsms
  import opened Session
  import opened Gem
  import opened Layout
  import opened AssemblyRun
  import opened PlacementTerms

  // ---------- bodies ----------

  predicate IsU4(i: Item) { i.Number? && i.number == U4 && i.values != [] && 0 <= i.values[0] < TWO32 }

  predicate StartsWithByte(body: Option<Item>, b: byte)
  {
    body.Some? && body.value.Binary? && body.value.bytes != [] && body.value.bytes[0] == b
  }

  /** A report is a list of an id and a list of variables. */
  predicate IsReport(i: Item)
  {
    i.List? && |i.items| == 2 && IsU4(i.items[0]) && i.items[1].List?
  }

  /** An event report: data id, event id, and a list of reports. */
  predicate IsEventBody(i: Item)
  {
    && i.List? && |i.items| == 3 && IsU4(i.items[0]) && IsU4(i.items[1]) && i.items[2].List?
    && forall k :: 0 <= k < |i.items[2].items| ==> IsReport(i.items[2].items[k])
  }

  /** A command: a name, and a list of pairs of a name and a value. */
  predicate IsCommandBody(i: Item)
  {
    && i.List? && |i.items| == 2 && i.items[0].Ascii? && i.items[1].List?
    && forall k :: 0 <= k < |i.items[1].items| ==>
         var p := i.items[1].items[k]; p.List? && |p.items| == 2 && p.items[0].Ascii?
  }

  function Variables(report: Item): seq<Item>
  {
    if IsReport(report) then report.items[1].items else []
  }

  predicate SpeaksOf(report: Item, site: Text)
  {
    |Variables(report)| == 3 && Variables(report)[0] == SecsItem.Ascii(site)
  }

  /** A report of three variables that is for some other site. */
  predicate SpeaksOfAnother(report: Item, site: Text)
  {
    var v := Variables(report); |v| == 3 && v[0].Ascii? && v[0].text != site
  }

  /** All reports before number `k` are for other sites. */
  predicate OthersBefore(reports: seq<Item>, site: Text, k: nat)
    requires k <= |reports|
  {
    forall j :: 0 <= j < k ==> SpeaksOfAnother(reports[j], site)
  }

  /** Report number `k` is the first for the site, and says where. */
  predicate TellsPlace(reports: seq<Item>, site: Text, k: nat)
  {
    && k < |reports| && OthersBefore(reports, site, k) && SpeaksOf(reports[k], site)
    && IsU4(Variables(reports[k])[1]) && IsU4(Variables(reports[k])[2])
  }

  // ---------- the parsers ----------

  lemma {:induction false} ReportsParseIff(items: seq<Item>)
    ensures ParseReports(items).Ok? <==> forall k :: 0 <= k < |items| ==> IsReport(items[k])
    ensures ParseReports(items).Ok? ==>
              && |ParseReports(items).value| == |items|
              && forall k :: 0 <= k < |items| ==> ParseReports(items).value[k].variables == Variables(items[k])
  {
    if items != [] {
      ReportsParseIff(items[1..]);
      assert forall k :: 0 < k < |items| ==> items[k] == items[1..][k - 1];
      assert IsReport(items[0]) <==> ParseReport(items[0]).Ok?;
      hide ParseReport, IsReport;
      if (forall k :: 0 <= k < |items| ==> IsReport(items[k])) {
        assert forall k :: 0 <= k < |items[1..]| ==> IsReport(items[1..][k]);
      }
    }
  }

  lemma EventParsesIff(i: Item)
    ensures ParseS6F11(i).Ok? <==> IsEventBody(i)
    ensures IsEventBody(i) ==>
              && ParseS6F11(i).value.ceid == i.items[1].values[0]
              && |ParseS6F11(i).value.reports| == |i.items[2].items|
              && forall k :: 0 <= k < |i.items[2].items| ==>
                   ParseS6F11(i).value.reports[k].variables == Variables(i.items[2].items[k])
  {
    hide ParseReports, IsReport;
    if i.List? && |i.items| == 3 && i.items[2].List? {
      ReportsParseIff(i.items[2].items);
    }
  }

  lemma {:induction false} ParamsParseIff(items: seq<Item>)
    ensures ParseParams(items).Ok? <==>
            forall k :: 0 <= k < |items| ==> items[k].List? && |items[k].items| == 2 && items[k].items[0].Ascii?
  {
    if items != [] {
      ParamsParseIff(items[1..]);
      assert forall k :: 0 < k < |items| ==> items[k] == items[1..][k - 1];
    }
  }

  lemma CommandParsesIff(i: Item)
    ensures ParseS2F41(i).Ok? <==> IsCommandBody(i)
    ensures IsCommandBody(i) ==> ParseS2F41(i).value.rcmd == i.items[0].text
  {
    if i.List? && |i.items| == 2 && i.items[1].List? {
      ParamsParseIff(i.items[1].items);
    }
    hide ParseParams;
  }

  lemma TellsLater(reports: seq<Item>, site: Text, k: nat)
    requires reports != [] && SpeaksOfAnother(reports[0], site)
    ensures TellsPlace(reports, site, k + 1) <==> TellsPlace(reports[1..], site, k)
    ensures k <= |reports[1..]| ==> (OthersBefore(reports, site, k + 1) <==> OthersBefore(reports[1..], site, k))
  {
    hide SpeaksOfAnother, SpeaksOf, Variables, IsU4;
    assert forall j :: 0 < j < |reports| ==> reports[j] == reports[1..][j - 1];
    if k <= |reports[1..]| {
      if OthersBefore(reports, site, k + 1) {
        forall j | 0 <= j < k ensures SpeaksOfAnother(reports[1..][j], site) {
          assert SpeaksOfAnother(reports[j + 1], site);
        }
      }
    }
  }

  /** The place that report `k` tells. */
  function PlaceOf(report: Item): Point
    requires |Variables(report)| == 3 && IsU4(Variables(report)[1]) && IsU4(Variables(report)[2])
  {
    Point(Variables(report)[1].values[0], Variables(report)[2].values[0])
  }

  /** The scan finds the first report for the site, none if all are for others, and fails on all else. */
  lemma {:induction false} ScanIff(site: Text, rs: seq<Report>, items: seq<Item>)
    requires |rs| == |items| && forall k :: 0 <= k < |items| ==> rs[k].variables == Variables(items[k])
    ensures forall k: nat :: TellsPlace(items, site, k) ==> ScanReports(site, rs) == Found(PlaceOf(items[k]))
    ensures ScanReports(site, rs).Found? ==> exists k: nat :: TellsPlace(items, site, k)
    ensures ScanReports(site, rs) == Absent <==> OthersBefore(items, site, |items|)
  {
    if items != [] {
      if SpeaksOfAnother(items[0], site) {
        ScanGoesOn(site, rs, items[0]);
        hide ScanReports, Variables, IsU4, SpeaksOfAnother;
        ScanIff(site, rs[1..], items[1..]);
        forall k: nat | TellsPlace(items, site, k) ensures ScanReports(site, rs) == Found(PlaceOf(items[k])) {
          NotTheFirst(items, site, k);
          TellsLater(items, site, k - 1);
        }
        if k: nat :| TellsPlace(items[1..], site, k) {
          TellsLater(items, site, k);
        }
        TellsLater(items, site, |items| - 1);
      } else {
        ScanStops(site, rs, items);
      }
    }
  }

  lemma NotTheFirst(items: seq<Item>, site: Text, k: nat)
    requires TellsPlace(items, site, k) && SpeaksOfAnother(items[0], site)
    ensures k > 0
  {
  }

  lemma ScanGoesOn(site: Text, rs: seq<Report>, item: Item)
    requires rs != [] && rs[0].variables == Variables(item) && SpeaksOfAnother(item, site)
    ensures ScanReports(site, rs) == ScanReports(site, rs[1..])
  {
  }

  lemma ScanStops(site: Text, rs: seq<Report>, items: seq<Item>)
    requires |rs| == |items| > 0 && rs[0].variables == Variables(items[0]) && !SpeaksOfAnother(items[0], site)
    ensures forall k: nat :: TellsPlace(items, site, k) ==> k == 0
    ensures TellsPlace(items, site, 0) ==> ScanReports(site, rs) == Found(PlaceOf(items[0]))
    ensures ScanReports(site, rs).Found? ==> TellsPlace(items, site, 0)
    ensures ScanReports(site, rs) != Absent && !OthersBefore(items, site, |items|)
  {
    assert OthersBefore(items, site, 0);
    assert forall k: nat :: 0 < k < |items| && OthersBefore(items, site, k) ==> SpeaksOfAnother(items[0], site);
    hide Variables;
  }

  // ---------- the host ----------

  /** The reply to a request: its system bytes decide, and its function only where it is checked. */
  predicate IsReply(m: Message, sb: u32) { m.Data? && m.systemBytes == sb }

  predicate IsEvent(m: Message)
  {
    m.Data? && m.stream == 6 && m.function_ == 11
  }

  /** An event of the placement kind, for number `k` of whose reports is the first for the site. */
  predicate IsPlacementOf(m: Message, site: Text, k: nat)
  {
    && IsEvent(m) && m.body.Some? && IsEventBody(m.body.value) && m.body.value.items[1].values[0] == 201
    && TellsPlace(m.body.value.items[2].items, site, k)
  }

  /** A primary that says nothing of the site: not an event, or an event of another kind or for other sites. */
  predicate SaysNothingOf(m: Message, site: Text)
  {
    && m.Data?
    && (IsEvent(m) ==>
          && m.body.Some? && IsEventBody(m.body.value)
          && (m.body.value.items[1].values[0] == 201 ==>
                OthersBefore(m.body.value.items[2].items, site, |m.body.value.items[2].items|)))
  }

  predicate HostIgnores(c: Config, pc: HostPc, m: Message)
  {
    || m.LinktestReq?
    || (match pc
        case Selecting => false
        case Collecting(i) =>
          || (!m.Data? && !m.Separate?)
          || (i < |c.hostPlan| && SaysNothingOf(m, c.hostPlan[i].siteId))
        case _ => m.SelectReq?)
  }

  ghost predicate HostAdvances(c: Config, pc: HostPc, m: Message)
  {
    match pc
    case Selecting => m.SelectRsp? && m.status == Selected
    case Identifying(sb) =>
      && IsReply(m, sb) && m.body.Some? && m.body.value.List? && |m.body.value.items| >= 2
      && m.body.value.items[0].Ascii? && m.body.value.items[0].text != [] && m.body.value.items[1].Ascii?
    case Establishing(sb) =>
      && IsReply(m, sb) && m.body.Some? && m.body.value.List? && |m.body.value.items| >= 1
      && m.body.value.items[0].Boolean? && m.body.value.items[0].flags != [] && m.body.value.items[0].flags[0]
    case Commanding(_, sb) => IsReply(m, sb) && m.function_ == 42 && StartsWithByte(m.body, 0)
    case Collecting(i) => i < |c.hostPlan| && exists k: nat :: IsPlacementOf(m, c.hostPlan[i].siteId, k)
    case _ => false
  }

  /** Where a host goes from there. */
  function HostGoesTo(c: Config, h: Host): HostPc
  {
    match h.pc
    case Selecting => Identifying(h.nextSb)
    case Identifying(_) => Establishing(h.nextSb)
    case Establishing(_) => if c.hostPlan == [] then HostDone else Commanding(0, h.nextSb)
    case Commanding(i, _) => Collecting(i)
    case Collecting(i) => if i + 1 < |c.hostPlan| then Commanding(i + 1, h.nextSb) else HostDone
    case _ => h.pc
  }

  lemma HostCollects(c: Config, h: Host, i: nat, m: Message)
    requires h.pc == Collecting(i) && i < |c.hostPlan| && m.Data?
    ensures var after := HostCollect(c, h, i, Primary(m.stream, m.function_, m.body));
            && (SaysNothingOf(m, c.hostPlan[i].siteId) ==> after == h)
            && (forall k: nat :: IsPlacementOf(m, c.hostPlan[i].siteId, k) ==>
                  && after.pc == HostGoesTo(c, h)
                  && after.records == h.records + [RecordOf(c, c.hostPlan[i], PlaceOf(m.body.value.items[2].items[k]))])
            && (!SaysNothingOf(m, c.hostPlan[i].siteId) && !(exists k: nat :: IsPlacementOf(m, c.hostPlan[i].siteId, k))
                ==> after.pc == HostFailed)
  {
    if IsEvent(m) && m.body.Some? {
      EventParsesIff(m.body.value);
      if IsEventBody(m.body.value) {
        ScanIff(c.hostPlan[i].siteId, ParseS6F11(m.body.value).value.reports, m.body.value.items[2].items);
      }
    }
    hide ParseS6F11, ScanReports, TellsPlace, OthersBefore, IsEventBody, RecordOf, CommandBody;
  }

  /** The next machine state after a message, by the three cases. */
  ghost predicate HostTakes(c: Config, h: Host, m: Message, after: Host)
  {
    && (HostIgnores(c, h.pc, m) ==> after.pc == h.pc && after.records == h.records)
    && (HostAdvances(c, h.pc, m) ==> after.pc == HostGoesTo(c, h))
    && (!HostIgnores(c, h.pc, m) && !HostAdvances(c, h.pc, m) ==> after.pc == HostFailed)
  }

  lemma HostShakesHands(c: Config, h: Host, m: Message)
    requires h.pc.Selecting? || h.pc.Identifying? || h.pc.Establishing?
    ensures HostTakes(c, h, m, HostReceive(c, h, m))
  {
    hide CommandBody;
  }

  lemma HostCommands(c: Config, h: Host, m: Message)
    requires h.pc.Commanding?
    ensures HostTakes(c, h, m, HostReceive(c, h, m))
  {
    hide CommandBody;
  }

  lemma HostReceivesInCollecting(c: Config, h: Host, m: Message)
    requires h.pc.Collecting? && h.pc.index < |c.hostPlan| && m.Data?
    ensures var p := Primary(m.stream, m.function_, m.body);
            HostReceive(c, h, m)
            == HostCollect(c, h.(out := h.out + RepliesTo(HostReply(), m)), h.pc.index, p)
  {
    hide HostCollect, RepliesTo;
  }

  lemma HostWaitsForEvent(c: Config, h: Host, m: Message)
    requires h.pc.Collecting? && h.pc.index < |c.hostPlan|
    ensures HostTakes(c, h, m, HostReceive(c, h, m))
  {
    if m.Data? {
      hide HostReceive, HostCollect, RepliesTo, IsPlacementOf, SaysNothingOf, RecordOf;
      HostReceivesInCollecting(c, h, m);
      HostCollects(c, h.(out := h.out + RepliesTo(HostReply(), m)), h.pc.index, m);
    } else {
      hide HostContinue;
    }
  }

  /**
   Any message at all, in any wait of the host: it goes on for exactly the messages described, takes no
   notice of exactly the others described, and gives up on every other one.
   */
  lemma HostTakesAny(c: Config, h: Host, m: Message)
    requires HostWaits(h.pc) && (h.pc.Collecting? ==> h.pc.index < |c.hostPlan|)
    ensures HostTakes(c, h, m, HostReceive(c, h, m))
  {
    hide HostReceive, HostTakes;
    match h.pc
    case Commanding(_, _) => HostCommands(c, h, m);
    case Collecting(_) => HostWaitsForEvent(c, h, m);
    case _ => HostShakesHands(c, h, m);
  }

  /** And when it goes on from an event, it has recorded the place that the first report for the site tells. */
  lemma HostRecords(c: Config, h: Host, m: Message, k: nat)
    requires h.pc.Collecting? && h.pc.index < |c.hostPlan| && IsPlacementOf(m, c.hostPlan[h.pc.index].siteId, k)
    ensures var command := c.hostPlan[h.pc.index];
            HostReceive(c, h, m).records
            == h.records + [Record(command.siteId, command.chipletId, c.hostTechnique, command.target,
                                   PlaceOf(m.body.value.items[2].items[k]), command.orientation)]
  {
    hide HostReceive, HostCollect, RepliesTo;
    HostReceivesInCollecting(c, h, m);
    HostCollects(c, h.(out := h.out + RepliesTo(HostReply(), m)), h.pc.index, m);
  }

  // ---------- the equipment ----------

  predicate EquipIgnores(pc: EquipPc, m: Message)
  {
    || m.LinktestReq?
    || (match pc
        case AwaitingSelect => false
        case Reporting(_, _) => m.SelectReq?
        case _ => !m.Data? && !m.Separate?)
  }

  predicate EquipAdvances(c: Config, pc: EquipPc, m: Message)
  {
    match pc
    case AwaitingSelect => m.SelectReq?
    case Handshaking(_) => m.Data?
    case Serving(i) =>
      && i < |c.equipPlan| && m.Data? && m.stream == 2 && m.function_ == 41 && m.body.Some? && IsCommandBody(m.body.value)
      && m.body.value.items[0].text == RcmdBytes(c.equipTechnique)
    case Reporting(_, sb) =>
      && IsReply(m, sb) && m.function_ == 12
      && (m.body.Some? && m.body.value.Binary? && m.body.value.bytes != [] ==> m.body.value.bytes[0] == 0)
    case _ => false
  }

  function EquipGoesTo(c: Config, e: Equip): EquipPc
  {
    match e.pc
    case AwaitingSelect => Handshaking(0)
    case Handshaking(0) => Handshaking(1)
    case Handshaking(_) => if c.equipPlan == [] then EquipDone else Serving(0)
    case Serving(i) => Reporting(i, e.nextSb)
    case Reporting(i, _) => if i + 1 < |c.equipPlan| then Serving(i + 1) else EquipDone
    case _ => e.pc
  }

  predicate EquipTakes(c: Config, e: Equip, m: Message, after: Equip)
  {
    && (EquipIgnores(e.pc, m) ==> after.pc == e.pc)
    && (EquipAdvances(c, e.pc, m) ==> after.pc == EquipGoesTo(c, e))
    && (!EquipIgnores(e.pc, m) && !EquipAdvances(c, e.pc, m) ==> after.pc == EquipFailed)
  }

  lemma EquipServes(c: Config, e: Equip, m: Message)
    requires WellFormed(c) && e.pc.Serving?
    ensures EquipTakes(c, e, m, EquipReceive(c, e, m))
  {
    RcmdSpelled(c.equipTechnique);
    if m.Data? && m.body.Some? {
      CommandParsesIff(m.body.value);
    }
    hide ParseS2F41, IsCommandBody, EventBody, Rcmd, RcmdBytes, S1F2, S1F14, ModelName;
  }

  lemma EquipOther(c: Config, e: Equip, m: Message)
    requires WellFormed(c) && EquipWaits(e.pc) && !e.pc.Serving?
    ensures EquipTakes(c, e, m, EquipReceive(c, e, m))
  {
    hide ParseS2F41, EventBody, Rcmd, S1F2, S1F14, ModelName, EquipServe;
  }

  /** The same for the equipment; the parameters of a command are not looked at. */
  lemma EquipTakesAny(c: Config, e: Equip, m: Message)
    requires WellFormed(c) && EquipWaits(e.pc)
    ensures EquipTakes(c, e, m, EquipReceive(c, e, m))
  {
    hide EquipReceive, EquipTakes;
    if e.pc.Serving? {
      EquipServes(c, e, m);
    } else {
      EquipOther(c, e, m);
    }
  }

  // ---------- the answers ----------

  /** What the equipment answers to a primary, by its function alone. */
  lemma EquipmentAnswers(model: Text, softRev: Text, stream: byte, f: byte, body: Option<Item>)
    ensures var respond := EquipmentReply(model, softRev);
            respond(stream, f, body)
            == if f == 1 then Some(List([SecsItem.Ascii(model), SecsItem.Ascii(softRev)]))
               else if f == 13 then Some(List([Boolean([true]), SecsItem.Ascii(Utf8.Ascii("Established"))]))
               else if f == 41 then Some(Binary([0]))
               else None
  {
    assert S1F2(model, softRev) == List([SecsItem.Ascii(model), SecsItem.Ascii(softRev)]);
    assert S1F14(true) == List([Boolean([true]), SecsItem.Ascii(Utf8.Ascii("Established"))]);
    hide Utf8.Ascii, S1F2, S1F14;
    var respond := EquipmentReply(model, softRev);
    if f == 1 {
      assert respond(stream, f, body) == Some(S1F2(model, softRev));
    } else if f == 13 {
      assert respond(stream, f, body) == Some(S1F14(true));
    } else if f == 41 {
      assert respond(stream, f, body) == Some(S2F42(HCACK_OK));
    } else {
      assert respond(stream, f, body) == None;
    }
  }

  /** What the host answers while it waits for an event: an acknowledge, to whatever asks for a reply. */
  lemma HostAnswers(c: Config, h: Host, m: Message)
    requires h.pc.Collecting? && h.pc.index < |c.hostPlan| && m.Data?
    ensures var replies := React(HostWaitsFor(h.pc), m).replies;
            replies == if m.wBit then [Data(m.session, m.stream, (m.function_ + 1) % 256, false, m.systemBytes, Some(Binary([0])))]
                       else []
  {
  }

  /** The two identifications read back, and the flag of the acknowledge. */
  lemma HandshakeRoundTrip(model: Text, softRev: Text, accepted: bool)
    ensures ParseOnlineData(Some(S1F2(model, softRev))) == Ok((model, softRev))
    ensures ParseCommAck(Some(S1F14(accepted))) == Ok(accepted)
  {
    hide Utf8.Ascii;
  }
}
