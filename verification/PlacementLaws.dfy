/** Each program says what it has to say of its own plan, in order, whatever bytes come in. */
module PlacementLaws {
  import opened Outcomes
  import opened Bytes
  import opened SecsItem
  import opened Hsms
  import opened Transport
  import opened Session
  import opened Gem
  import opened Layout
  import opened AssemblyRun
  import opened PlacementTerms
  import opened Lockstep
  import opened RunTheorems
  import opened WireRun
  import HostObject = AssemblyHostObject
  import EquipObject = AssemblyEquipmentObject

  // ---------- the host, whatever bytes come in ----------

  /** The primary S2F41. */
  predicate IsOrder(m: Message) { m.Data? && m.wBit && m.stream == 2 && m.function_ == 41 }

  function OrdersIn(ms: seq<Message>): seq<Message>
  {
    if ms == [] then [] else (if IsOrder(ms[0]) then [ms[0]] else []) + OrdersIn(ms[1..])
  }

  lemma {:induction false} OrdersSplit(a: seq<Message>, b: seq<Message>)
    ensures OrdersIn(a + b) == OrdersIn(a) + OrdersIn(b)
  {
    if a == [] {
      assert a + b == b;
    } else {
      hide IsOrder;
      assert (a + b)[0] == a[0] && (a + b)[1..] == a[1..] + b;
      OrdersSplit(a[1..], b);
      Associates(if IsOrder(a[0]) then [a[0]] else [], OrdersIn(a[1..]), OrdersIn(b));
    }
  }

  /** The primaries `ms` order the plan, one by one from command `n` on. */
  predicate OrderThePlan(c: Config, ms: seq<Message>, n: nat)
  {
    && n + |ms| <= |c.hostPlan|
    && forall k :: 0 <= k < |ms| ==>
         IsOrder(ms[k]) && ms[k].session == c.hostSession && ms[k].body.Some?
         && OrdersPlacement(ms[k].body.value, c.hostTechnique, c.hostPlan[n + k])
  }

  /** How many commands a host has sent. */
  function Ordered(c: Config, pc: HostPc): nat
  {
    match pc
    case Commanding(i, _) => i + 1
    case Collecting(i) => i + 1
    case HostDone => |c.hostPlan|
    case _ => 0
  }

  /** All messages of the host machine run on the bytes `s`. */
  ghost function HostMessages(c: Config, h: Host, s: seq<byte>): seq<Message>
    decreases |s|
  {
    var next := NextMessage(s);
    h.out + if HostWaits(h.pc) && next.message.Ok?
            then HostMessages(c, HostReceive(c, h.(out := []), next.message.value), next.rest) else []
  }

  lemma {:induction false} SoloWritesMessages(c: Config, h: Host, s: seq<byte>)
    requires HostObject.PlanCanBeSent(c) && AllSendable(h.out)
    ensures AllSendable(HostMessages(c, h, s))
    ensures HostObject.HostSolo(c, h, s).written == EncodeReplies(HostMessages(c, h, s))
    decreases |s|
  {
    hide NextMessage, HostReceive, EncodeMessage, HostObject.PlanCanBeSent, Sendable;
    var next := NextMessage(s);
    if HostWaits(h.pc) && next.message.Ok? {
      var m := next.message.value;
      HostObject.ReceiveIsSendable(c, h.(out := []), m);
      var after := HostReceive(c, h.(out := []), m);
      SoloWritesMessages(c, after, next.rest);
      RepliesConcatenate(h.out, HostMessages(c, after, next.rest));
    } else {
      assert h.out + [] == h.out;
    }
  }

  lemma OrdersInOne(m: Message)
    ensures OrdersIn([m]) == if IsOrder(m) then [m] else []
  {
    assert [m][1..] == [];
  }

  /** Going on to command `index` sends it, if there is one, and nothing else. */
  lemma NextOrders(c: Config, h: Host, index: nat)
    ensures var after := HostNext(c, h, index);
            && OrdersIn(after.out) == OrdersIn(h.out) + OrdersIn(HostNext(c, h.(out := []), index).out)
            && OrderThePlan(c, OrdersIn(HostNext(c, h.(out := []), index).out), if index < |c.hostPlan| then index else |c.hostPlan|)
            && (HostWaits(after.pc) ==> Ordered(c, after.pc) == index + 1
                                        && |OrdersIn(HostNext(c, h.(out := []), index).out)| == 1)
            && (!HostWaits(after.pc) ==> OrdersIn(HostNext(c, h.(out := []), index).out) == [])
  {
    hide CommandBody, OrdersPlacement;
    if index < |c.hostPlan| {
      var m := Data(c.hostSession, 2, 41, true, h.nextSb, Some(CommandBody(c.hostTechnique, c.hostPlan[index])));
      CommandBodyOrders(c.hostTechnique, c.hostPlan[index]);
      OrdersInOne(m);
      OrdersSplit(h.out, [m]);
      assert [] + [m] == [m];
    } else {
      assert OrdersIn(h.out) + [] == OrdersIn(h.out);
    }
  }

  /** Replies and acknowledges are not commands. */
  lemma AnswersOrderNothing(pc: HostPc, m: Message)
    requires HostWaits(pc)
    ensures var r := React(HostWaitsFor(pc), m);
            && (r.Answer? ==> OrdersIn([r.reply]) == [])
            && (r.Finish? ==> OrdersIn(r.replies) == [])
  {
    var r := React(HostWaitsFor(pc), m);
    if r.Answer? {
      OrdersInOne(r.reply);
    } else if r.Finish? && r.replies != [] {
      OrdersInOne(r.replies[0]);
    }
  }

  lemma ContinueOrders(c: Config, h: Host, v: Value)
    requires HostWaits(h.pc) && OrdersIn(h.out) == []
    ensures var after := HostContinue(c, h, v);
            var n := Ordered(c, h.pc);
            && (n <= |c.hostPlan| ==> OrderThePlan(c, OrdersIn(after.out), n))
            && (HostWaits(after.pc) ==> Ordered(c, after.pc) == n + |OrdersIn(after.out)|)
  {
    hide ParseS6F11, ScanReports, ParseOnlineData, ParseCommAck, FirstByte, RecordOf, HostNext, OrdersIn, OrdersPlacement;
    assert OrdersIn([]) == [] by { NoOrders(); }
    match h.pc
    case Selecting => SendOrdersNothing(c, h, 1, Identifying(h.nextSb));
    case Identifying(_) => SendOrdersNothing(c, h, 13, Establishing(h.nextSb));
    case Establishing(_) => GoOn(c, h, 0);
    case Collecting(index) =>
      if v.Primary? && index < |c.hostPlan| {
        forall placed {
          GoOn(c, h.(records := h.records + [RecordOf(c, c.hostPlan[index], placed)]), index + 1);
        }
      }
    case _ =>
  }

  lemma SendOrdersNothing(c: Config, h: Host, f: byte, pc: HostPc)
    requires f != 41 && OrdersIn(h.out) == []
    ensures OrdersIn(HostSend(c, h, 1, f, List([]), pc).out) == []
  {
    var m := Data(c.hostSession, 1, f, true, h.nextSb, Some(List([])));
    OrdersInOne(m);
    OrdersSplit(h.out, [m]);
  }

  lemma GoOn(c: Config, h: Host, index: nat)
    requires OrdersIn(h.out) == [] && index <= |c.hostPlan|
    ensures var after := HostNext(c, h, index);
            && OrderThePlan(c, OrdersIn(after.out), index)
            && (HostWaits(after.pc) ==> Ordered(c, after.pc) == index + |OrdersIn(after.out)|)
  {
    hide HostNext, OrdersIn, OrdersPlacement;
    NextOrders(c, h, index);
    var own := OrdersIn(HostNext(c, h.(out := []), index).out);
    assert [] + own == own;
  }

  /** One message received adds at most the next command. */
  lemma ReceiveOrders(c: Config, h: Host, m: Message)
    requires HostWaits(h.pc) && h.out == []
    ensures var after := HostReceive(c, h, m);
            var n := Ordered(c, h.pc);
            && (n <= |c.hostPlan| ==> OrderThePlan(c, OrdersIn(after.out), n))
            && (HostWaits(after.pc) ==> Ordered(c, after.pc) == n + |OrdersIn(after.out)|)
  {
    hide HostContinue, React, OrdersIn, HostWaitsFor;
    AnswersOrderNothing(h.pc, m);
    match React(HostWaitsFor(h.pc), m)
    case Answer(reply) => assert [] + [reply] == [reply];
    case Finish(v, replies) =>
      assert [] + replies == replies;
      ContinueOrders(c, h.(out := replies), v);
    case Abort(_, _) => assert OrdersIn([]) == [] by { NoOrders(); }
  }

  lemma NoOrders()
    ensures OrdersIn([]) == []
  {
  }

  lemma {:induction false} MessagesOrder(c: Config, h: Host, s: seq<byte>) returns (own: seq<Message>)
    requires Ordered(c, h.pc) <= |c.hostPlan|
    ensures OrdersIn(HostMessages(c, h, s)) == OrdersIn(h.out) + own
    ensures if HostWaits(h.pc) then OrderThePlan(c, own, Ordered(c, h.pc)) else own == []
    decreases |s|
  {
    hide NextMessage, HostReceive, OrdersIn, Ordered, OrdersPlacement, IsOrder;
    var next := NextMessage(s);
    if HostWaits(h.pc) && next.message.Ok? {
      var idle := h.(out := []);
      var after := HostReceive(c, idle, next.message.value);
      var n := Ordered(c, h.pc);
      assert Ordered(c, idle.pc) == n;
      ReceiveOrders(c, idle, next.message.value);
      var first := OrdersIn(after.out);
      var later: seq<Message> := [];
      if HostWaits(after.pc) {
        later := MessagesOrder(c, after, next.rest);
      } else {
        assert HostMessages(c, after, next.rest) == after.out;
      }
      own := first + later;
      assert first + [] == first;
      OrdersSplit(h.out, HostMessages(c, after, next.rest));
    } else {
      own := [];
      assert h.out + [] == h.out && OrdersIn(h.out) + [] == OrdersIn(h.out);
    }
  }

  // ---------- the same, on the bytes ----------

  /** Fits a frame, and a primary means on the wire what it says. */
  predicate Sayable(m: Message)
  {
    Frameable(m) && (m.Data? && m.wBit ==> m.stream < 128 && m.function_ < 128)
  }

  predicate AllSayable(ms: seq<Message>)
  {
    forall k | 0 <= k < |ms| :: Sayable(ms[k])
  }

  lemma HostAnswersAreSayable(pc: HostPc, m: Message)
    requires HostWaits(pc)
    ensures var r := React(HostWaitsFor(pc), m);
            (r.Answer? ==> Sayable(r.reply)) && (r.Finish? ==> AllSayable(r.replies))
  {
    SmallBodiesWithin();
    hide Within, Frameable;
    var r := React(HostWaitsFor(pc), m);
    if r.Answer? {
      DataIsFrameable(r.reply);
    } else if r.Finish? && r.replies != [] {
      DataIsFrameable(r.replies[0]);
    }
  }

  lemma NextIsSayable(c: Config, h: Host, index: nat)
    requires Transmittable(c) && AllSayable(h.out)
    ensures AllSayable(HostNext(c, h, index).out)
  {
    hide Within, Frameable, GoodText, CommandBody;
    if index < |c.hostPlan| {
      CommandBodyWithin(c.hostTechnique, c.hostPlan[index]);
      DataIsFrameable(Data(c.hostSession, 2, 41, true, h.nextSb, Some(CommandBody(c.hostTechnique, c.hostPlan[index]))));
    }
  }

  lemma ContinueIsSayable(c: Config, h: Host, v: Value)
    requires Transmittable(c) && AllSayable(h.out)
    ensures AllSayable(HostContinue(c, h, v).out)
  {
    SmallBodiesWithin();
    hide Within, Frameable, ParseS6F11, ScanReports, ParseOnlineData, ParseCommAck, FirstByte, RecordOf, HostNext, Transmittable;
    match h.pc
    case Selecting => DataIsFrameable(Data(c.hostSession, 1, 1, true, h.nextSb, Some(List([]))));
    case Identifying(_) => DataIsFrameable(Data(c.hostSession, 1, 13, true, h.nextSb, Some(List([]))));
    case Establishing(_) => NextIsSayable(c, h, 0);
    case Collecting(index) =>
      if v.Primary? && index < |c.hostPlan| {
        forall placed {
          NextIsSayable(c, h.(records := h.records + [RecordOf(c, c.hostPlan[index], placed)]), index + 1);
        }
      }
    case _ =>
  }

  lemma ReceiveIsSayable(c: Config, h: Host, m: Message)
    requires Transmittable(c) && HostWaits(h.pc) && h.out == []
    ensures AllSayable(HostReceive(c, h, m).out)
  {
    hide HostContinue, React, HostWaitsFor, Sayable, Transmittable;
    HostAnswersAreSayable(h.pc, m);
    match React(HostWaitsFor(h.pc), m)
    case Answer(reply) => assert [] + [reply] == [reply];
    case Finish(v, replies) =>
      assert [] + replies == replies;
      ContinueIsSayable(c, h.(out := replies), v);
    case Abort(_, _) =>
  }

  lemma {:induction false} MessagesAreSayable(c: Config, h: Host, s: seq<byte>)
    requires Transmittable(c) && AllSayable(h.out)
    ensures AllSayable(HostMessages(c, h, s))
    decreases |s|
  {
    hide NextMessage, HostReceive, Sayable, Transmittable;
    var next := NextMessage(s);
    if HostWaits(h.pc) && next.message.Ok? {
      ReceiveIsSayable(c, h.(out := []), next.message.value);
      MessagesAreSayable(c, HostReceive(c, h.(out := []), next.message.value), next.rest);
    }
  }

  lemma {:induction false} SayableReadsBack(ms: seq<Message>)
    requires AllSayable(ms)
    ensures AllSendable(ms) && AllFrameable(ms) && Frames(ms) == EncodeReplies(ms)
    ensures OrdersIn(NormalizeAll(ms)) == OrdersIn(ms)
  {
    hide EncodeMessage, BodyBytes, Encodable;
    if ms != [] {
      SayableReadsBack(ms[1..]);
      assert NormalizeAll(ms)[1..] == NormalizeAll(ms[1..]);
    }
  }

  /**
   Whatever bytes come in, the host program writes frames whose S2F41 primaries, read back from the
   bytes, order the commands of its plan, in order and none twice.
   */
  lemma {:induction false} HostOrdersItsPlan(c: Config, s: seq<byte>) returns (ms: seq<Message>)
    requires HostObject.PlanCanBeSent(c) && Transmittable(c)
    ensures AllSendable(HostStart().out)
    ensures ReadMessages(HostObject.HostSolo(c, HostStart(), s).written, |ms|) == Ok(ReceivedAll(ms, []))
    ensures OrderThePlan(c, OrdersIn(ms), 0)
  {
    hide HostObject.HostSolo, HostObject.PlanCanBeSent, HostMessages, ReadMessages, OrdersIn, OrderThePlan, Transmittable;
    var h := HostStart();
    StartIsSayable();
    var sent := HostMessages(c, h, s);
    MessagesAreSayable(c, h, s);
    SayableReadsBack(sent);
    SoloWritesMessages(c, h, s);
    FramesReadBack(sent, []);
    assert Frames(sent) + [] == Frames(sent);
    var own := MessagesOrder(c, h, s);
    assert [] + own == own;
    ms := NormalizeAll(sent);
  }

  lemma StartIsSayable()
    ensures AllSayable(HostStart().out) && AllSendable(HostStart().out) && OrdersIn(HostStart().out) == []
  {
    DataIsFrameable(SelectReq(1));
    OrdersInOne(SelectReq(1));
  }

  // ---------- the equipment, whatever bytes come in ----------

  /** The primary S6F11. */
  predicate IsEvent(m: Message) { m.Data? && m.wBit && m.stream == 6 && m.function_ == 11 }

  function EventsIn(ms: seq<Message>): seq<Message>
  {
    if ms == [] then [] else (if IsEvent(ms[0]) then [ms[0]] else []) + EventsIn(ms[1..])
  }

  lemma {:induction false} EventsSplit(a: seq<Message>, b: seq<Message>)
    ensures EventsIn(a + b) == EventsIn(a) + EventsIn(b)
  {
    if a == [] {
      assert a + b == b;
    } else {
      hide IsEvent;
      assert (a + b)[0] == a[0] && (a + b)[1..] == a[1..] + b;
      EventsSplit(a[1..], b);
      Associates(if IsEvent(a[0]) then [a[0]] else [], EventsIn(a[1..]), EventsIn(b));
    }
  }

  lemma EventsInOne(m: Message)
    ensures EventsIn([m]) == if IsEvent(m) then [m] else []
    ensures EventsIn([]) == []
  {
    assert [m][1..] == [];
  }

  /** The primaries `ms` report the equipment's own commands, one by one from command `n` on. */
  predicate ReportThePlan(c: Config, ms: seq<Message>, n: nat)
    requires WellFormed(c)
  {
    && n + |ms| <= |c.equipPlan|
    && forall k :: 0 <= k < |ms| ==>
         IsEvent(ms[k]) && ms[k].session == c.equipSession && ms[k].body.Some?
         && ReportsPlacement(ms[k].body.value, c.equipPlan[n + k], c.jitter[n + k])
  }

  /** How many events an equipment has sent. */
  function Reported(c: Config, pc: EquipPc): nat
  {
    match pc
    case Serving(i) => i
    case Reporting(i, _) => i + 1
    case EquipDone => |c.equipPlan|
    case _ => 0
  }

  /** All messages of the equipment machine run on the bytes `s`. */
  ghost function EquipMessages(c: Config, e: Equip, s: seq<byte>): seq<Message>
    requires WellFormed(c)
    decreases |s|
  {
    var next := NextMessage(s);
    e.out + if EquipWaits(e.pc) && next.message.Ok?
            then EquipMessages(c, EquipReceive(c, e.(out := []), next.message.value), next.rest) else []
  }

  lemma {:induction false} EquipSoloWritesMessages(c: Config, e: Equip, s: seq<byte>)
    requires EquipObject.EventsCanBeSent(c) && AllSendable(e.out)
    ensures AllSendable(EquipMessages(c, e, s))
    ensures EquipObject.EquipSolo(c, e, s).written == EncodeReplies(EquipMessages(c, e, s))
    decreases |s|
  {
    assert WellFormed(c);
    hide NextMessage, EquipReceive, EncodeMessage, EquipObject.EventsCanBeSent, Sendable;
    var next := NextMessage(s);
    if EquipWaits(e.pc) && next.message.Ok? {
      var m := next.message.value;
      EquipObject.ReceiveIsSendable(c, e.(out := []), m);
      var after := EquipReceive(c, e.(out := []), m);
      EquipSoloWritesMessages(c, after, next.rest);
      RepliesConcatenate(e.out, EquipMessages(c, after, next.rest));
    } else {
      assert e.out + [] == e.out;
    }
  }

  lemma AnswersReportNothing(c: Config, pc: EquipPc, m: Message)
    requires EquipWaits(pc)
    ensures var r := React(EquipWaitsFor(c, pc), m);
            && (r.Answer? ==> EventsIn([r.reply]) == [])
            && (r.Finish? ==> EventsIn(r.replies) == [])
            && EventsIn([]) == []
  {
    hide S1F2, S1F14, ModelName;
    EventsInOne(m);
    var r := React(EquipWaitsFor(c, pc), m);
    if r.Answer? {
      EventsInOne(r.reply);
    } else if r.Finish? && r.replies != [] {
      EventsInOne(r.replies[0]);
    }
  }

  lemma ServeReports(c: Config, e: Equip, index: nat, p: Value)
    requires WellFormed(c) && p.Primary? && index < |c.equipPlan| && EventsIn(e.out) == []
    ensures var after := EquipServe(c, e, index, p);
            && ReportThePlan(c, EventsIn(after.out), index)
            && (EquipWaits(after.pc) ==> Reported(c, after.pc) == index + |EventsIn(after.out)|)
  {
    hide ParseS2F41, EventBody, ReportsPlacement, Rcmd;
    var m := Data(c.equipSession, 6, 11, true, e.nextSb, Some(EventBody(c, index)));
    EventBodyReports(c, index);
    EventsInOne(m);
    EventsSplit(e.out, [m]);
  }

  lemma EquipContinueReports(c: Config, e: Equip, v: Value)
    requires WellFormed(c) && EquipWaits(e.pc) && EventsIn(e.out) == [] && Reported(c, e.pc) <= |c.equipPlan|
    ensures var after := EquipContinue(c, e, v);
            var n := Reported(c, e.pc);
            && ReportThePlan(c, EventsIn(after.out), n)
            && (EquipWaits(after.pc) ==> Reported(c, after.pc) == n + |EventsIn(after.out)|)
  {
    hide EquipServe, EventsIn, ReportsPlacement, FirstByte;
    if e.pc.Serving? && v.Primary? && e.pc.index < |c.equipPlan| {
      ServeReports(c, e, e.pc.index, v);
    }
  }

  lemma EquipReceiveReports(c: Config, e: Equip, m: Message)
    requires WellFormed(c) && EquipWaits(e.pc) && e.out == [] && Reported(c, e.pc) <= |c.equipPlan|
    ensures var after := EquipReceive(c, e, m);
            var n := Reported(c, e.pc);
            && ReportThePlan(c, EventsIn(after.out), n)
            && (EquipWaits(after.pc) ==> Reported(c, after.pc) == n + |EventsIn(after.out)|)
  {
    hide EquipContinue, React, EventsIn, EquipWaitsFor;
    AnswersReportNothing(c, e.pc, m);
    match React(EquipWaitsFor(c, e.pc), m)
    case Answer(reply) => assert [] + [reply] == [reply];
    case Finish(v, replies) =>
      assert [] + replies == replies;
      EquipContinueReports(c, e.(out := replies), v);
    case Abort(_, _) =>
  }

  lemma {:induction false} MessagesReport(c: Config, e: Equip, s: seq<byte>) returns (own: seq<Message>)
    requires WellFormed(c) && Reported(c, e.pc) <= |c.equipPlan|
    ensures EventsIn(EquipMessages(c, e, s)) == EventsIn(e.out) + own
    ensures if EquipWaits(e.pc) then ReportThePlan(c, own, Reported(c, e.pc)) else own == []
    decreases |s|
  {
    hide NextMessage, EquipReceive, EventsIn, Reported, ReportsPlacement, IsEvent;
    var next := NextMessage(s);
    if EquipWaits(e.pc) && next.message.Ok? {
      var idle := e.(out := []);
      var after := EquipReceive(c, idle, next.message.value);
      assert Reported(c, idle.pc) == Reported(c, e.pc);
      EquipReceiveReports(c, idle, next.message.value);
      var first := EventsIn(after.out);
      var later: seq<Message> := [];
      if EquipWaits(after.pc) {
        later := MessagesReport(c, after, next.rest);
      } else {
        assert EquipMessages(c, after, next.rest) == after.out;
      }
      own := first + later;
      assert first + [] == first;
      EventsSplit(e.out, EquipMessages(c, after, next.rest));
    } else {
      own := [];
      assert e.out + [] == e.out && EventsIn(e.out) + [] == EventsIn(e.out);
    }
  }

  lemma EquipAnswersAreSayable(c: Config, pc: EquipPc, m: Message)
    requires Transmittable(c) && EquipWaits(pc)
    ensures var r := React(EquipWaitsFor(c, pc), m);
            (r.Answer? ==> Sayable(r.reply)) && (r.Finish? ==> AllSayable(r.replies))
  {
    SmallBodiesWithin();
    IdentificationWithin(c);
    CommAckWithin();
    hide Within, Frameable, S1F2, S1F14, GoodText, ModelName;
    var r := React(EquipWaitsFor(c, pc), m);
    if r.Answer? {
      DataIsFrameable(r.reply);
    } else if r.Finish? && r.replies != [] {
      DataIsFrameable(r.replies[0]);
    }
  }

  lemma EquipContinueIsSayable(c: Config, e: Equip, v: Value)
    requires WellFormed(c) && Transmittable(c) && AllSayable(e.out)
    ensures AllSayable(EquipContinue(c, e, v).out)
  {
    hide Within, Frameable, ParseS2F41, FirstByte, EventBody, GoodText, Rcmd;
    if e.pc.Serving? && e.pc.index < |c.equipPlan| {
      EventBodyWithin(c, e.pc.index);
      DataIsFrameable(Data(c.equipSession, 6, 11, true, e.nextSb, Some(EventBody(c, e.pc.index))));
    }
  }

  lemma EquipReceiveIsSayable(c: Config, e: Equip, m: Message)
    requires WellFormed(c) && Transmittable(c) && EquipWaits(e.pc) && e.out == []
    ensures AllSayable(EquipReceive(c, e, m).out)
  {
    hide EquipContinue, React, EquipWaitsFor, Sayable, Transmittable;
    EquipAnswersAreSayable(c, e.pc, m);
    match React(EquipWaitsFor(c, e.pc), m)
    case Answer(reply) => assert [] + [reply] == [reply];
    case Finish(v, replies) =>
      assert [] + replies == replies;
      EquipContinueIsSayable(c, e.(out := replies), v);
    case Abort(_, _) =>
  }

  lemma {:induction false} EquipMessagesAreSayable(c: Config, e: Equip, s: seq<byte>)
    requires WellFormed(c) && Transmittable(c) && AllSayable(e.out)
    ensures AllSayable(EquipMessages(c, e, s))
    decreases |s|
  {
    hide NextMessage, EquipReceive, Sayable, Transmittable;
    var next := NextMessage(s);
    if EquipWaits(e.pc) && next.message.Ok? {
      EquipReceiveIsSayable(c, e.(out := []), next.message.value);
      EquipMessagesAreSayable(c, EquipReceive(c, e.(out := []), next.message.value), next.rest);
    }
  }

  lemma {:induction false} SayableEventsReadBack(ms: seq<Message>)
    requires AllSayable(ms)
    ensures EventsIn(NormalizeAll(ms)) == EventsIn(ms)
  {
    hide EncodeMessage, BodyBytes, Encodable;
    if ms != [] {
      SayableEventsReadBack(ms[1..]);
      assert NormalizeAll(ms)[1..] == NormalizeAll(ms[1..]);
    }
  }

  /**
   Whatever bytes come in, the equipment program writes frames whose S6F11 primaries, read back from
   the bytes, report its own commands, in order and none twice, each where its deviation puts it.
   */
  lemma {:induction false} EquipReportsItsPlan(c: Config, s: seq<byte>) returns (ms: seq<Message>)
    requires EquipObject.EventsCanBeSent(c) && WellFormed(c) && Transmittable(c)
    ensures AllSendable(EquipStart().out)
    ensures ReadMessages(EquipObject.EquipSolo(c, EquipStart(), s).written, |ms|) == Ok(ReceivedAll(ms, []))
    ensures ReportThePlan(c, EventsIn(ms), 0)
  {
    hide EquipObject.EquipSolo, EquipObject.EventsCanBeSent, EquipMessages, ReadMessages, EventsIn, OrdersIn, ReportThePlan,
         Transmittable;
    var e := EquipStart();
    var sent := EquipMessages(c, e, s);
    EquipMessagesAreSayable(c, e, s);
    SayableReadsBack(sent);
    SayableEventsReadBack(sent);
    EquipSoloWritesMessages(c, e, s);
    FramesReadBack(sent, []);
    assert Frames(sent) + [] == Frames(sent);
    var own := MessagesReport(c, e, s);
    EventsInOne(SelectReq(1));
    assert [] + own == own;
    ms := NormalizeAll(sent);
  }

  // ---------- the records ----------

  /** With the same plan and technique, a stopped run has recorded what happened to each command. */
  lemma RecordsAreTrue(c: Config, trace: seq<State>)
    requires WellFormed(c) && IsRun(c, trace) && Stuck(trace[|trace| - 1])
    requires SameTechnique(c) && c.hostPlan == c.equipPlan
    ensures var s := trace[|trace| - 1];
            && |s.host.records| == |c.hostPlan|
            && forall i :: 0 <= i < |c.hostPlan| ==>
                 RecordsPlacement(s.host.records[i], c.hostTechnique, c.hostPlan[i], c.jitter[i])
  {
    SamePlanCompletes(c, trace);
    hide IsRun, Stuck, RecordsPlacement, RecordOf, ReportedPosition;
    var s := trace[|trace| - 1];
    forall i | 0 <= i < |c.hostPlan|
      ensures RecordsPlacement(s.host.records[i], c.hostTechnique, c.hostPlan[i], c.jitter[i])
    {
      RecordOfRecords(c, c.hostPlan[i], i);
    }
  }
}
