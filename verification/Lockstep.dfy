/**
 Where a run can be. Each side's whole output is fixed by the two plans, so a reachable state is
 fixed by four counters: messages written and read by either side. `OnGrid` says so; it is the
 invariant of every interleaving.
 */
module Lockstep {
  import opened Outcomes
  import opened Bytes
  import opened Utf8
  import opened SecsItem
  import opened Hsms
  import opened Gem
  import opened Layout
  import opened AssemblyRun

  predicate SameTechnique(c: Config) { c.hostTechnique == c.equipTechnique }

  /** How many commands are carried out. */
  function L(c: Config): nat { if SameTechnique(c) then Agreed(c.hostPlan, c.equipPlan) else 0 }

  /** Both plans go on after their agreed part, but for different sites. */
  predicate Diverges(c: Config) { SameTechnique(c) && L(c) < |c.hostPlan| && L(c) < |c.equipPlan| }

  /** The equipment acknowledges the first command and then finds it is not of its technique. */
  predicate Refused(c: Config) { !SameTechnique(c) && c.hostPlan != [] && c.equipPlan != [] }

  /** Both sides have the same sites in the same order, and the technique for them. */
  predicate Matching(c: Config)
  {
    SamePlan(c.hostPlan, c.equipPlan) && (SameTechnique(c) || c.hostPlan == [])
  }

  lemma MatchingIff(c: Config)
    ensures Matching(c) <==> L(c) == |c.hostPlan| == |c.equipPlan|
  {
    hide Agreed, SamePlan;
    SamePlanAgrees(c.hostPlan, c.equipPlan);
  }

  /** All messages the host, and the equipment, will write in this run. */
  function HostTotal(c: Config): nat
  {
    3 + 2 * L(c) + (if L(c) < |c.hostPlan| then 1 else 0) + (if Diverges(c) then 1 else 0)
  }

  function EquipTotal(c: Config): nat
  {
    3 + 2 * L(c) + (if Diverges(c) then 2 else if Refused(c) then 1 else 0)
  }

  function Sb(n: nat): u32 { n % TWO32 }

  /** The `k`-th message of the host: select, S1F1, S1F13, then S2F41 and S6F12 in turn. */
  function HostMsg(c: Config, k: nat): Message
    requires k < HostTotal(c)
  {
    if k == 0 then SelectReq(1)
    else if k == 1 then Data(c.hostSession, 1, 1, true, Sb(2), Some(List([])))
    else if k == 2 then Data(c.hostSession, 1, 13, true, Sb(3), Some(List([])))
    else if k % 2 == 1 then
      var i := (k - 3) / 2;
      Data(c.hostSession, 2, 41, true, Sb(4 + i), Some(CommandBody(c.hostTechnique, c.hostPlan[i])))
    else
      Data(c.equipSession, 6, 12, false, Sb((k - 4) / 2 + 1), Some(S6F12(0)))
  }

  /** The `k`-th message of the equipment: Select.rsp, S1F2, S1F14, then S2F42 and S6F11 in turn. */
  function EquipMsg(c: Config, k: nat): Message
    requires WellFormed(c) && k < EquipTotal(c)
  {
    if k == 0 then SelectRsp(1, Selected)
    else if k == 1 then Data(c.hostSession, 1, 2, false, Sb(2), Some(S1F2(ModelName(c.equipTechnique), c.softRev)))
    else if k == 2 then Data(c.hostSession, 1, 14, false, Sb(3), Some(S1F14(true)))
    else if k % 2 == 1 then Data(c.hostSession, 2, 42, false, Sb(4 + (k - 3) / 2), Some(S2F42(HCACK_OK)))
    else
      var i := (k - 4) / 2;
      Data(c.equipSession, 6, 11, true, Sb(i + 1), Some(EventBody(c, i)))
  }

  function HostMsgs(c: Config, from: nat, to: nat): (ms: seq<Message>)
    requires from <= to <= HostTotal(c)
    ensures |ms| == to - from
  {
    seq(to - from, k requires 0 <= k < to - from => HostMsg(c, from + k))
  }

  function EquipMsgs(c: Config, from: nat, to: nat): (ms: seq<Message>)
    requires WellFormed(c) && from <= to <= EquipTotal(c)
    ensures |ms| == to - from
  {
    seq(to - from, k requires 0 <= k < to - from => EquipMsg(c, from + k))
  }

  function Min(a: nat, b: nat): nat { if a < b then a else b }

  // ---------- each side as a function of how much it has read ----------

  /** How much the host has produced after reading `r` messages. */
  function HostGen(c: Config, r: nat): (n: nat)
    ensures n <= HostTotal(c)
  {
    if r < 3 then r + 1 else Min(2 * ((r + 1) / 2), HostTotal(c))
  }

  function EquipGen(c: Config, r: nat): (n: nat)
    ensures n <= EquipTotal(c)
  {
    if r < 3 then r else Min(2 * (r / 2) + 1, EquipTotal(c))
  }

  function HostPcAt(c: Config, r: nat): HostPc
    requires r <= EquipTotal(c)
  {
    if r == 0 then Selecting
    else if r == 1 then Identifying(Sb(2))
    else if r == 2 then Establishing(Sb(3))
    else if r == 5 + 2 * L(c) then Collecting(L(c))
    else if r % 2 == 1 then
      if (r - 3) / 2 < |c.hostPlan| then Commanding((r - 3) / 2, Sb(4 + (r - 3) / 2)) else HostDone
    else Collecting((r - 4) / 2)
  }

  function HostNextSbAt(c: Config, r: nat): u32
  {
    if r < 3 then Sb(r + 2) else Sb(4 + Min((r - 1) / 2, Min(|c.hostPlan|, L(c) + 1)))
  }

  /** The record of command `i`, as the equipment reports it. */
  function RecordAt(c: Config, i: nat): Record
    requires WellFormed(c) && i < L(c)
  {
    RecordOf(c, c.hostPlan[i], ReportedPosition(c, i))
  }

  function Records(c: Config, n: nat): (rs: seq<Record>)
    requires WellFormed(c) && n <= L(c)
    ensures |rs| == n
  {
    seq(n, i requires 0 <= i < n => RecordAt(c, i))
  }

  function HostAt(c: Config, r: nat, out: seq<Message>): Host
    requires WellFormed(c) && r <= EquipTotal(c)
  {
    Host(HostPcAt(c, r), out, HostNextSbAt(c, r), Records(c, if r < 3 then 0 else Min((r - 3) / 2, L(c))))
  }

  function EquipPcAt(c: Config, r: nat): EquipPc
  {
    if r == 0 then AwaitingSelect
    else if r < 3 then Handshaking(r - 1)
    else if r > 3 && Refused(c) then EquipFailed
    else if r % 2 == 1 then if (r - 3) / 2 < |c.equipPlan| then Serving((r - 3) / 2) else EquipDone
    else Reporting((r - 4) / 2, Sb((r - 4) / 2 + 1))
  }

  function EquipAt(c: Config, r: nat, out: seq<Message>): Equip
  {
    Equip(EquipPcAt(c, r), out, if r < 3 || Refused(c) then 1 else Sb((r - 2) / 2 + 1))
  }

  // ---------- one message read on the grid ----------

  lemma SbStep(n: nat)
    ensures (Sb(n) + 1) % TWO32 == Sb(n + 1)
  {
  }

  lemma HostHandshakeStep(c: Config, r: nat)
    requires WellFormed(c) && r < 3
    ensures HostReceive(c, HostAt(c, r, []), Normalize(EquipMsg(c, r)))
         == HostAt(c, r + 1, HostMsgs(c, HostGen(c, r), HostGen(c, r + 1)))
  {
    hide Utf8.Ascii, CommandBody, Agreed;
    var out := HostMsgs(c, HostGen(c, r), HostGen(c, r + 1));
    SbStep(r + 2);
    if r < 2 {
      assert out == [HostMsg(c, r + 1)];
    } else if |c.hostPlan| > 0 {
      assert out == [HostMsg(c, 3)];
    } else {
      assert out == [];
    }
  }

  lemma HostReceivesAck(c: Config, h: Host, i: nat, sb: u32)
    requires h.pc == Commanding(i, sb) && h.out == []
    ensures HostReceive(c, h, Data(c.hostSession, 2, 42, false, sb, Some(S2F42(HCACK_OK)))) == h.(pc := Collecting(i))
  {
    assert h.out + [] == h.out;
  }

  /** An acknowledge changes where the host stands, and makes it say nothing. */
  lemma HostAfterAck(c: Config, i: nat)
    requires WellFormed(c) && 3 + 2 * i < EquipTotal(c)
    ensures HostAt(c, 3 + 2 * i, []).pc == Commanding(i, Sb(4 + i))
    ensures HostAt(c, 4 + 2 * i, []) == HostAt(c, 3 + 2 * i, []).(pc := Collecting(i))
    ensures HostMsgs(c, HostGen(c, 3 + 2 * i), HostGen(c, 4 + 2 * i)) == []
  {
    hide Agreed, RecordAt, HostMsg, Records, CommandBody, EventBody;
    assert i <= L(c) && i < |c.hostPlan| && 2 * i == (3 + 2 * i) - 3;
    assert HostGen(c, 3 + 2 * i) == HostGen(c, 4 + 2 * i);
  }

  lemma AckOf(c: Config, i: nat)
    requires WellFormed(c) && 3 + 2 * i < EquipTotal(c)
    ensures Normalize(EquipMsg(c, 3 + 2 * i)) == Data(c.hostSession, 2, 42, false, Sb(4 + i), Some(S2F42(HCACK_OK)))
  {
    hide Agreed, EventBody;
  }

  lemma HostAckStep(c: Config, i: nat)
    requires WellFormed(c) && 3 + 2 * i < EquipTotal(c)
    ensures HostReceive(c, HostAt(c, 3 + 2 * i, []), Normalize(EquipMsg(c, 3 + 2 * i)))
         == HostAt(c, 4 + 2 * i, HostMsgs(c, HostGen(c, 3 + 2 * i), HostGen(c, 4 + 2 * i)))
  {
    HostAfterAck(c, i);
    AckOf(c, i);
    hide HostReceive, HostPcAt, HostNextSbAt, Records, HostMsgs, HostGen, EquipMsg, EquipTotal;
    HostReceivesAck(c, HostAt(c, 3 + 2 * i, []), i, Sb(4 + i));
  }

  /** Looking for the host's site in the one report the equipment sends. */
  lemma ScanStep(c: Config, site: Text, i: nat)
    requires WellFormed(c) && i < |c.equipPlan|
    ensures ParseS6F11(EventBody(c, i)).Ok? && ParseS6F11(EventBody(c, i)).value.ceid == CEID_PLACEMENT_DONE
    ensures ScanReports(site, ParseS6F11(EventBody(c, i)).value.reports)
         == if c.equipPlan[i].siteId == site then Found(ReportedPosition(c, i)) else Absent
  {
    var p := ReportedPosition(c, i);
    var report := Report(1, [SecsItem.Ascii(c.equipPlan[i].siteId), U4Item(p.x), U4Item(p.y)]);
    S6F11RoundTrip(EventReport(1, CEID_PLACEMENT_DONE, [report]));
    assert [report][1..] == [];
  }

  /** What the event report of the equipment's command `i` does to a host collecting its own. */
  lemma HostReceivesEvent(c: Config, h: Host, i: nat, sb: u32)
    requires WellFormed(c) && i < |c.hostPlan| && i < |c.equipPlan| && h.pc == Collecting(i) && h.out == []
    ensures var acked := h.(out := [Data(c.equipSession, 6, 12, false, sb, Some(S6F12(0)))]);
            HostReceive(c, h, Data(c.equipSession, 6, 11, true, sb, Some(EventBody(c, i))))
            == if c.hostPlan[i].siteId != c.equipPlan[i].siteId then acked
               else HostNext(c, acked.(records := h.records + [RecordOf(c, c.hostPlan[i], ReportedPosition(c, i))]), i + 1)
  {
    hide EventBody, ParseS6F11, ScanReports, ReportedPosition, HostNext, RecordOf;
    ScanStep(c, c.hostPlan[i].siteId, i);
    var ack := Data(c.equipSession, 6, 12, false, sb, Some(S6F12(0)));
    assert [] + [ack] == [ack];
  }

  /** The host answers an event, and goes on to its next command if there is one. */
  lemma OutputAfterEvent(c: Config, i: nat)
    requires 4 + 2 * i < EquipTotal(c)
    ensures i <= L(c) && 4 + 2 * i < HostTotal(c)
    ensures i < L(c) && i + 1 < |c.hostPlan| ==>
              5 + 2 * i < HostTotal(c) && HostNextSbAt(c, 5 + 2 * i) == Sb(6 + i) &&
              HostMsgs(c, HostGen(c, 4 + 2 * i), HostGen(c, 5 + 2 * i)) == [HostMsg(c, 4 + 2 * i), HostMsg(c, 5 + 2 * i)]
    ensures i == L(c) || i + 1 == |c.hostPlan| ==>
              HostNextSbAt(c, 5 + 2 * i) == Sb(5 + i) &&
              HostMsgs(c, HostGen(c, 4 + 2 * i), HostGen(c, 5 + 2 * i)) == [HostMsg(c, 4 + 2 * i)]
  {
    hide HostMsg, Agreed, Sb;
    var from, to := HostGen(c, 4 + 2 * i), HostGen(c, 5 + 2 * i);
    assert from == 4 + 2 * i;
    if i < L(c) && i + 1 < |c.hostPlan| {
      assert to == 6 + 2 * i;
      assert HostMsgs(c, from, to) == [HostMsg(c, 4 + 2 * i), HostMsg(c, 5 + 2 * i)];
    } else {
      assert to == 5 + 2 * i;
      assert HostMsgs(c, from, to) == [HostMsg(c, 4 + 2 * i)];
    }
  }

  /** Where an event leaves the host: at its next command, done, or still waiting. */
  lemma HostAfterEvent(c: Config, i: nat)
    requires WellFormed(c) && 4 + 2 * i < EquipTotal(c)
    ensures i <= L(c) && i < |c.hostPlan| && i < |c.equipPlan|
    ensures var h := HostAt(c, 4 + 2 * i, []);
            h.pc == Collecting(i) && h.out == [] && h.records == Records(c, i) && h.nextSb == Sb(5 + i)
    ensures HostGen(c, 4 + 2 * i) <= HostGen(c, 5 + 2 * i)
    ensures var out := HostMsgs(c, HostGen(c, 4 + 2 * i), HostGen(c, 5 + 2 * i));
            var pc := if i == L(c) then Collecting(i)
                      else if i + 1 < |c.hostPlan| then Commanding(i + 1, Sb(5 + i)) else HostDone;
            HostAt(c, 5 + 2 * i, out) == Host(pc, out, HostNextSbAt(c, 5 + 2 * i), Records(c, Min(i + 1, L(c))))
  {
    hide Agreed, RecordAt, Sb, HostMsgs;
  }

  lemma AckAndCommandOf(c: Config, i: nat)
    ensures 4 + 2 * i < HostTotal(c) ==>
              HostMsg(c, 4 + 2 * i) == Data(c.equipSession, 6, 12, false, Sb(i + 1), Some(S6F12(0)))
    ensures 3 + 2 * i < HostTotal(c) && i < |c.hostPlan| ==>
              HostMsg(c, 3 + 2 * i)
              == Data(c.hostSession, 2, 41, true, Sb(4 + i), Some(CommandBody(c.hostTechnique, c.hostPlan[i])))
  {
    hide HostTotal, CommandBody;
  }

  lemma EventOf(c: Config, i: nat)
    requires WellFormed(c) && 4 + 2 * i < EquipTotal(c)
    ensures i < |c.equipPlan| && SameTechnique(c)
    ensures Normalize(EquipMsg(c, 4 + 2 * i)) == Data(c.equipSession, 6, 11, true, Sb(i + 1), Some(EventBody(c, i)))
  {
    hide Agreed, EventBody;
  }

  /** What the host says to an event, and where it then is. */
  lemma HostTakesEvent(c: Config, h: Host, i: nat)
    requires WellFormed(c) && i < |c.hostPlan| && i < |c.equipPlan|
    requires h.pc == Collecting(i) && h.out == [] && h.nextSb == Sb(5 + i)
    ensures var ack := Data(c.equipSession, 6, 12, false, Sb(i + 1), Some(S6F12(0)));
            var records := h.records + [RecordOf(c, c.hostPlan[i], ReportedPosition(c, i))];
            HostReceive(c, h, Data(c.equipSession, 6, 11, true, Sb(i + 1), Some(EventBody(c, i))))
            == if c.hostPlan[i].siteId != c.equipPlan[i].siteId then h.(out := [ack])
               else if i + 1 < |c.hostPlan| then
                 Host(Commanding(i + 1, Sb(5 + i)),
                      [ack, Data(c.hostSession, 2, 41, true, Sb(5 + i),
                                 Some(CommandBody(c.hostTechnique, c.hostPlan[i + 1])))],
                      Sb(6 + i), records)
               else Host(HostDone, [ack], Sb(5 + i), records)
  {
    SbStep(5 + i);
    hide CommandBody, EventBody, ReportedPosition, HostReceive, RecordOf, Sb, S6F12;
    HostReceivesEvent(c, h, i, Sb(i + 1));
  }

  lemma HostEventStep(c: Config, i: nat)
    requires WellFormed(c) && 4 + 2 * i < EquipTotal(c)
    ensures HostReceive(c, HostAt(c, 4 + 2 * i, []), Normalize(EquipMsg(c, 4 + 2 * i)))
         == HostAt(c, 5 + 2 * i, HostMsgs(c, HostGen(c, 4 + 2 * i), HostGen(c, 5 + 2 * i)))
  {
    hide CommandBody, EventBody, ReportedPosition, Agreed, HostReceive, RecordOf, HostGen, HostMsgs, HostAt, EquipMsg,
         EquipTotal, HostTotal, HostNextSbAt, HostMsg, Sb, Normalize, S6F12;
    HostAfterEvent(c, i);
    EventOf(c, i);
    AgreedSites(c.hostPlan, c.equipPlan, i);
    OutputAfterEvent(c, i);
    AckAndCommandOf(c, i);
    AckAndCommandOf(c, i + 1);
    HostTakesEvent(c, HostAt(c, 4 + 2 * i, []), i);
    if i < L(c) {
      assert Records(c, i + 1) == Records(c, i) + [RecordAt(c, i)];
    }
  }

  /** Reading the next message the equipment wrote moves the host one column on. */
  lemma HostStep(c: Config, r: nat)
    requires WellFormed(c) && r < EquipTotal(c)
    ensures HostWaits(HostPcAt(c, r))
    ensures HostReceive(c, HostAt(c, r, []), Normalize(EquipMsg(c, r)))
         == HostAt(c, r + 1, HostMsgs(c, HostGen(c, r), HostGen(c, r + 1)))
  {
    hide HostReceive, Normalize, EquipMsg, HostMsgs, HostGen, HostNextSbAt, Records;
    if r < 3 {
      HostHandshakeStep(c, r);
    } else if r % 2 == 1 {
      HostAckStep(c, (r - 3) / 2);
    } else {
      HostEventStep(c, (r - 4) / 2);
    }
  }

  lemma EquipHandshakeStep(c: Config, r: nat)
    requires WellFormed(c) && r < 3
    ensures EquipReceive(c, EquipAt(c, r, []), Normalize(HostMsg(c, r)))
         == EquipAt(c, r + 1, EquipMsgs(c, EquipGen(c, r), EquipGen(c, r + 1)))
  {
    hide Utf8.Ascii, CommandBody, EventBody, S1F2, S1F14, Agreed;
    assert EquipMsgs(c, EquipGen(c, r), EquipGen(c, r + 1)) == [EquipMsg(c, r)];
  }

  lemma CommandBodyParses(t: Technique, command: Command)
    ensures ParseS2F41(CommandBody(t, command)).Ok?
    ensures ParseS2F41(CommandBody(t, command)).value.rcmd == Rcmd(t)
  {
    S2F41RoundTrip(HostCommand(Rcmd(t), [Param(Utf8.Ascii("SITE"), SecsItem.Ascii(command.siteId)),
                                         Param(Utf8.Ascii("X"), U4Item(ToU4(command.target.x))),
                                         Param(Utf8.Ascii("Y"), U4Item(ToU4(command.target.y)))]));
  }

  /** A host command makes the equipment acknowledge it and report its own command `i`, or fail. */
  lemma EquipReceivesCommand(c: Config, e: Equip, i: nat, sb: u32, command: Command)
    requires WellFormed(c) && i < |c.equipPlan| && e.pc == Serving(i) && e.out == []
    ensures var hcack := Data(c.hostSession, 2, 42, false, sb, Some(S2F42(HCACK_OK)));
            EquipReceive(c, e, Data(c.hostSession, 2, 41, true, sb, Some(CommandBody(c.hostTechnique, command))))
            == if SameTechnique(c) then
                 Equip(Reporting(i, e.nextSb), [hcack, Data(c.equipSession, 6, 11, true, e.nextSb, Some(EventBody(c, i)))],
                       (e.nextSb + 1) % TWO32)
               else Equip(EquipFailed, [hcack], e.nextSb)
  {
    hide EventBody, CommandBody, S1F2, S1F14, ParseS2F41, Rcmd;
    CommandBodyParses(c.hostTechnique, command);
    RcmdsAreDistinct(c.hostTechnique, c.equipTechnique);
    var hcack := Data(c.hostSession, 2, 42, false, sb, Some(S2F42(HCACK_OK)));
    assert [] + [hcack] == [hcack];
  }

  /** Where a command leaves the equipment, and what it then says. */
  lemma EquipAfterCommand(c: Config, i: nat)
    requires WellFormed(c) && 3 + 2 * i < HostTotal(c) && i < |c.equipPlan|
    ensures i < |c.hostPlan|
    ensures EquipAt(c, 3 + 2 * i, []) == Equip(Serving(i), [], Sb(i + 1))
    ensures var hcack := Data(c.hostSession, 2, 42, false, Sb(4 + i), Some(S2F42(HCACK_OK)));
            var event := Data(c.equipSession, 6, 11, true, Sb(i + 1), Some(EventBody(c, i)));
            EquipAt(c, 4 + 2 * i, EquipMsgs(c, EquipGen(c, 3 + 2 * i), EquipGen(c, 4 + 2 * i)))
            == if SameTechnique(c) then Equip(Reporting(i, Sb(i + 1)), [hcack, event], Sb(i + 2))
               else Equip(EquipFailed, [hcack], Sb(i + 1))
  {
    hide EventBody, CommandBody, Agreed;
    if SameTechnique(c) {
      assert EquipMsgs(c, EquipGen(c, 3 + 2 * i), EquipGen(c, 4 + 2 * i))
          == [EquipMsg(c, 3 + 2 * i), EquipMsg(c, 4 + 2 * i)];
    } else {
      assert EquipMsgs(c, EquipGen(c, 3), EquipGen(c, 4)) == [EquipMsg(c, 3)];
    }
  }

  lemma EquipCommandStep(c: Config, i: nat)
    requires WellFormed(c) && 3 + 2 * i < HostTotal(c) && i < |c.equipPlan|
    ensures EquipReceive(c, EquipAt(c, 3 + 2 * i, []), Normalize(HostMsg(c, 3 + 2 * i)))
         == EquipAt(c, 4 + 2 * i, EquipMsgs(c, EquipGen(c, 3 + 2 * i), EquipGen(c, 4 + 2 * i)))
  {
    hide EventBody, CommandBody, Agreed, EquipReceive, HostMsg, EquipMsgs, EquipMsg, EquipGen, EquipAt, Sb, S2F42, HostTotal;
    EquipAfterCommand(c, i);
    AckAndCommandOf(c, i);
    EquipReceivesCommand(c, EquipAt(c, 3 + 2 * i, []), i, Sb(4 + i), c.hostPlan[i]);
    SbStep(i + 1);
  }

  lemma EquipReceivesAck(c: Config, e: Equip, i: nat, sb: u32)
    requires WellFormed(c) && e.pc == Reporting(i, sb) && e.out == []
    ensures EquipReceive(c, e, Data(c.equipSession, 6, 12, false, sb, Some(S6F12(0)))) == EquipNext(c, e, i + 1)
  {
    assert e.out + [] == e.out;
  }

  lemma EquipAckStep(c: Config, i: nat)
    requires WellFormed(c) && 4 + 2 * i < HostTotal(c) && i < |c.equipPlan|
    ensures EquipReceive(c, EquipAt(c, 4 + 2 * i, []), Normalize(HostMsg(c, 4 + 2 * i)))
         == EquipAt(c, 5 + 2 * i, EquipMsgs(c, EquipGen(c, 4 + 2 * i), EquipGen(c, 5 + 2 * i)))
  {
    hide EquipReceive, Agreed;
    EquipReceivesAck(c, EquipAt(c, 4 + 2 * i, []), i, Sb(i + 1));
    assert EquipMsgs(c, EquipGen(c, 4 + 2 * i), EquipGen(c, 5 + 2 * i)) == [];
  }

  lemma {:induction false} EquipStep(c: Config, r: nat)
    requires WellFormed(c) && r < HostTotal(c) && r <= EquipTotal(c) && EquipWaits(EquipPcAt(c, r))
    ensures r < EquipTotal(c)
    ensures EquipReceive(c, EquipAt(c, r, []), Normalize(HostMsg(c, r)))
         == EquipAt(c, r + 1, EquipMsgs(c, EquipGen(c, r), EquipGen(c, r + 1)))
  {
    hide EquipReceive, Normalize, HostMsg, EquipMsgs, EquipGen;
    if r < 3 {
      EquipHandshakeStep(c, r);
    } else if r % 2 == 1 {
      EquipCommandStep(c, (r - 3) / 2);
    } else {
      EquipAckStep(c, (r - 4) / 2);
    }
  }
}
