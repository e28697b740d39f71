/**
 The two programs on the two pipes: what each of them writes is what the other reads, and a run on
 the wire, however it interleaves and splits the bytes, ends each of them as it ends on its own.
 */
module ProgramsOnTheWire {
  import opened Outcomes
  import opened Bytes
  import opened Utf8
  import opened SecsItem
  import opened Hsms
  import opened Transport
  import opened Session
  import opened Gem
  import opened Layout
  import opened AssemblyRun
  import opened Lockstep
  import opened RunTheorems
  import opened WireRun
  import opened WireRefinement
  import HostObject = AssemblyHostObject
  import EquipObject = AssemblyEquipmentObject

  // ---------- what is said in a step, and from a step on ----------

  /** The frame a side wrote between two states: its first pending message, if that is gone. */
  ghost function Said(before: seq<Message>, after: seq<Message>): seq<byte>
  {
    if |after| < |before| && Sendable(before[0]) then EncodeMessage(before[0]) else []
  }

  ghost function HostSays(trace: seq<Wire>, k: nat): seq<byte>
    requires k < |trace|
    decreases |trace| - k
  {
    if k + 1 == |trace| then [] else Said(trace[k].host.out, trace[k + 1].host.out) + HostSays(trace, k + 1)
  }

  ghost function EquipSays(trace: seq<Wire>, k: nat): seq<byte>
    requires k < |trace|
    decreases |trace| - k
  {
    if k + 1 == |trace| then [] else Said(trace[k].equip.out, trace[k + 1].equip.out) + EquipSays(trace, k + 1)
  }

  // ---------- what holds along a run ----------

  ghost predicate Speakable(c: Config)
  {
    WellFormed(c) && HostObject.PlanCanBeSent(c) && EquipObject.EventsCanBeSent(c)
  }

  lemma TransmittableIsSpeakable(c: Config)
    requires WellFormed(c) && Transmittable(c)
    ensures Speakable(c)
  {
    hide CommandBody, EventBody, GoodText, Encode, Encodable, Rcmd, RepliesEncodable;
    forall k | 0 <= k < |c.hostPlan| ensures Encodable(CommandBody(c.hostTechnique, c.hostPlan[k])) {
      CommandBodyWithin(c.hostTechnique, c.hostPlan[k]);
    }
    forall k | 0 <= k < |c.equipPlan| ensures Encodable(EventBody(c, k)) {
      EventBodyWithin(c, k);
    }
    ModelCanBeSent(c);
  }

  lemma ModelCanBeSent(c: Config)
    requires GoodText(c.softRev)
    ensures RepliesEncodable(EquipResponder(c))
  {
    RcmdWithin(c.equipTechnique);
    assert Encodable(SecsItem.Ascii(ModelName(c.equipTechnique)));
    assert ValidText(ModelName(c.equipTechnique)) && |ModelName(c.equipTechnique)| <= MAX_LENGTH;
    hide ValidText, RepliesEncodable, EquipmentReply, ModelName, Encode;
    EquipmentRepliesCanBeSent(ModelName(c.equipTechnique), c.softRev);
  }

  /** A frame under construction never runs past its own end. */
  predicate Partial(frame: seq<byte>)
  {
    |frame| >= 4 ==> |frame| <= 4 + FromBigEndian(frame[..4])
  }

  ghost predicate WireOk(w: Wire)
  {
    && AllSendable(w.host.out) && AllSendable(w.equip.out)
    && Partial(w.hostFrame) && Partial(w.equipFrame)
    && (w.hostGone ==> w.host.out == [] && !HostWaits(w.host.pc))
    && (w.equipGone ==> w.equip.out == [] && !EquipWaits(w.equip.pc))
  }

  lemma PartialGrows(frame: seq<byte>, queue: seq<byte>, n: nat)
    requires Partial(frame) && CanTake(frame, queue, n)
    ensures Partial(frame + queue[..n])
  {
    if |frame| >= 4 {
      assert (frame + queue[..n])[..4] == frame[..4];
    }
  }

  lemma OkStep(c: Config, w: Wire, a: WireAction)
    requires Speakable(c) && WireOk(w) && WireCan(w, a)
    ensures WireOk(WireDo(c, w, a))
  {
    hide HostReceive, EquipReceive, FrameFromBytes, EncodeMessage, RepliesEncodable, Encodable, EventBody, Sendable;
    match a
    case HostTakes(n) => PartialGrows(w.hostFrame, w.toHost, n);
    case EquipTakes(n) => PartialGrows(w.equipFrame, w.toEquip, n);
    case HostDecodes =>
      if FrameFromBytes(w.hostFrame).Ok? {
        HostObject.ReceiveIsSendable(c, w.host, FrameFromBytes(w.hostFrame).value.message);
      }
    case EquipDecodes =>
      if FrameFromBytes(w.equipFrame).Ok? {
        EquipObject.ReceiveIsSendable(c, w.equip, FrameFromBytes(w.equipFrame).value.message);
      }
    case _ =>
  }

  lemma {:induction false} RunIsOk(c: Config, trace: seq<Wire>, k: nat)
    requires Speakable(c) && IsWireRun(c, trace) && k < |trace|
    ensures WireOk(trace[k])
  {
    hide WireDo, WireCan, HostObject.PlanCanBeSent, EquipObject.EventsCanBeSent, WireOk;
    if k == 0 {
      InitIsOk();
    } else {
      RunIsOk(c, trace, k - 1);
      assert WireNext(c, trace[k - 1], trace[k]);
      var a :| WireCan(trace[k - 1], a) && trace[k] == WireDo(c, trace[k - 1], a);
      OkStep(c, trace[k - 1], a);
    }
  }

  lemma InitIsOk()
    ensures WireOk(WireInit())
  {
  }

  lemma GoneStep(c: Config, w: Wire, a: WireAction)
    requires Speakable(c) && WireOk(w) && WireCan(w, a)
    ensures var w' := WireDo(c, w, a);
            && (w.hostGone ==> w'.hostGone && Said(w.host.out, w'.host.out) == [])
            && (w.equipGone ==> w'.equipGone && Said(w.equip.out, w'.equip.out) == [])
  {
    hide EncodeMessage, HostDecode, EquipDecode, Sendable, Partial, Complete, HostObject.PlanCanBeSent,
         EquipObject.EventsCanBeSent, AllSendable;
  }

  /** A side that is gone says nothing any more. */
  lemma {:induction false} GoneIsSilent(c: Config, trace: seq<Wire>, k: nat)
    requires Speakable(c) && IsWireRun(c, trace) && k < |trace|
    ensures trace[k].hostGone ==> HostSays(trace, k) == []
    ensures trace[k].equipGone ==> EquipSays(trace, k) == []
    decreases |trace| - k
  {
    hide Said, WireDo, WireCan, HostObject.PlanCanBeSent, EquipObject.EventsCanBeSent, WireOk;
    if k + 1 < |trace| {
      RunIsOk(c, trace, k);
      assert WireNext(c, trace[k], trace[k + 1]);
      var a :| WireCan(trace[k], a) && trace[k + 1] == WireDo(c, trace[k], a);
      GoneStep(c, trace[k], a);
      GoneIsSilent(c, trace, k + 1);
    }
  }

  lemma CompleteIsNext(frame: seq<byte>, s: seq<byte>)
    requires Complete(frame)
    ensures NextMessage(frame + s)
         == Received(if FrameFromBytes(frame).Ok? then Ok(FrameFromBytes(frame).value.message)
                     else Err(FrameFromBytes(frame).error), s)
  {
    hide FrameFromBytes;
    var data := frame + s;
    assert data[..4] == frame[..4] && data[..|frame|] == frame && data[|frame|..] == s;
  }

  lemma IncompleteIsNotNext(frame: seq<byte>)
    requires Partial(frame) && !Complete(frame)
    ensures NextMessage(frame).message.Err?
  {
    hide FrameFromBytes;
  }

  lemma SilentRest(trace: seq<Wire>, k: nat)
    requires k + 1 < |trace|
    ensures EquipSays(trace, k) == [] ==> EquipSays(trace, k + 1) == []
    ensures HostSays(trace, k) == [] ==> HostSays(trace, k + 1) == []
  {
  }

  // ---------- the host ----------

  /** The host on its own, from state `k` on, with all that will still reach it. */
  ghost predicate HostAgrees(c: Config, trace: seq<Wire>, k: nat)
    requires Speakable(c) && k < |trace| && WireOk(trace[k])
  {
    var w, last := trace[k], trace[|trace| - 1];
    var e := HostObject.HostSolo(c, w.host, w.hostFrame + w.toHost + EquipSays(trace, k));
    e.host == last.host && e.written == HostSays(trace, k)
  }

  lemma HostSendAgrees(c: Config, h: Host, s: seq<byte>)
    requires Speakable(c) && h.out != [] && AllSendable(h.out)
    ensures Sendable(h.out[0]) && AllSendable(h.out[1..])
    ensures HostObject.HostSolo(c, h, s)
         == HostObject.Behind(EncodeMessage(h.out[0]), HostObject.HostSolo(c, h.(out := h.out[1..]), s))
  {
    hide HostObject.HostSolo, EncodeMessage, Sendable, HostObject.PlanCanBeSent, EquipObject.EventsCanBeSent;
    HostObject.FlushFirst(c, h, s);
    HostObject.FlushFirst(c, h.(out := h.out[1..]), s);
    HostObject.BehindTwice(EncodeMessage(h.out[0]), EncodeReplies(h.out[1..]), HostObject.HostSolo(c, h.(out := []), s));
  }

  lemma HostDecodeAgrees(c: Config, h: Host, frame: seq<byte>, s: seq<byte>)
    requires Speakable(c) && h.out == [] && HostWaits(h.pc) && Complete(frame)
    ensures AllSendable(HostDecode(c, h, frame).out)
    ensures var before := HostObject.HostSolo(c, h, frame + s);
            var after := HostObject.HostSolo(c, HostDecode(c, h, frame), s);
            before.host == after.host && before.written == after.written
  {
    hide HostObject.HostSolo, NextMessage, FrameFromBytes, HostReceive, HostObject.PlanCanBeSent,
         EquipObject.EventsCanBeSent, EncodeMessage;
    CompleteIsNext(frame, s);
    HostObject.SoloReceives(c, h, frame + s);
    if FrameFromBytes(frame).Err? {
      HostObject.SoloStops(c, h.(pc := HostFailed), s);
    }
  }

  lemma HostEofAgrees(c: Config, h: Host, frame: seq<byte>)
    requires Speakable(c) && h.out == [] && HostWaits(h.pc) && Partial(frame) && !Complete(frame)
    ensures var before, after := HostObject.HostSolo(c, h, frame), HostObject.HostSolo(c, h.(pc := HostFailed), frame);
            before.host == after.host && before.written == after.written
  {
    hide HostObject.HostSolo, NextMessage, HostObject.PlanCanBeSent, EquipObject.EventsCanBeSent;
    IncompleteIsNotNext(frame);
    HostObject.SoloReceives(c, h, frame);
    HostObject.SoloStops(c, h.(pc := HostFailed), frame);
  }

  lemma HostOwnStepAgrees(c: Config, w: Wire, a: WireAction, later: seq<byte>)
    requires Speakable(c) && WireOk(w) && WireCan(w, a) && WireOk(WireDo(c, w, a))
    requires a.HostSends? || a.HostTakes? || a.HostDecodes? || a.HostEnds? || a.HostHangsUp?
    requires w.equipGone ==> later == []
    ensures var w' := WireDo(c, w, a);
            var before := HostObject.HostSolo(c, w.host, w.hostFrame + w.toHost + later);
            var after := HostObject.HostSolo(c, w'.host, w'.hostFrame + w'.toHost + later);
            && before.host == after.host
            && before.written == Said(w.host.out, w'.host.out) + after.written
  {
    hide HostObject.HostSolo, FrameFromBytes, HostReceive, EquipReceive, EncodeMessage, NextMessage, Sendable,
         HostDecode, EquipDecode, Partial, Complete, HostObject.PlanCanBeSent, EquipObject.EventsCanBeSent;
    var w' := WireDo(c, w, a);
    var after := HostObject.HostSolo(c, w'.host, w'.hostFrame + w'.toHost + later);
    assert [] + after.written == after.written;
    match a
    case HostSends =>
      HostSendAgrees(c, w.host, w.hostFrame + w.toHost + later);
    case HostTakes(n) =>
      assert w.hostFrame + w.toHost == (w.hostFrame + w.toHost[..n]) + w.toHost[n..];
    case HostDecodes =>
      HostDecodeAgrees(c, w.host, w.hostFrame, w.toHost + later);
      Associates(w.hostFrame, w.toHost, later);
      assert [] + w.toHost == w.toHost;
    case HostEnds =>
      HostEofAgrees(c, w.host, w.hostFrame);
      assert w.hostFrame + w.toHost + later == w.hostFrame;
    case HostHangsUp =>
  }

  /** The host hears what the equipment sends. */
  lemma HostHearsAgrees(c: Config, w: Wire, later: seq<byte>)
    requires Speakable(c) && WireOk(w) && WireCan(w, EquipSends) && WireOk(WireDo(c, w, EquipSends))
    ensures var w' := WireDo(c, w, EquipSends);
            && w'.host == w.host && w'.hostFrame == w.hostFrame
            && w.hostFrame + w.toHost + (Said(w.equip.out, w'.equip.out) + later) == w'.hostFrame + w'.toHost + later
  {
    hide EncodeMessage, Sendable, HostObject.PlanCanBeSent, EquipObject.EventsCanBeSent;
    var m := EncodeMessage(w.equip.out[0]);
    Associates(w.hostFrame + w.toHost, m, later);
    Associates(w.hostFrame, w.toHost, m);
  }

  /** Nothing else the equipment does reaches the host. */
  lemma HostUnmoved(c: Config, w: Wire, a: WireAction, later: seq<byte>)
    requires Speakable(c) && WireOk(w) && WireCan(w, a) && WireOk(WireDo(c, w, a))
    requires a.EquipTakes? || a.EquipDecodes? || a.EquipEnds? || a.EquipHangsUp?
    ensures var w' := WireDo(c, w, a);
            && w'.host == w.host && w'.hostFrame == w.hostFrame && w'.toHost == w.toHost
            && Said(w.equip.out, w'.equip.out) + later == later
  {
    hide FrameFromBytes, EquipReceive, EncodeMessage, Sendable, EquipDecode, Partial, Complete, HostObject.PlanCanBeSent,
         EquipObject.EventsCanBeSent;
    assert [] + later == later;
  }

  /** One step of the run, seen from the host: its end does not move. */
  lemma HostStepAgrees(c: Config, w: Wire, a: WireAction, later: seq<byte>)
    requires Speakable(c) && WireOk(w) && WireCan(w, a) && WireOk(WireDo(c, w, a))
    requires w.equipGone ==> later == []
    ensures var w' := WireDo(c, w, a);
            var toCome := Said(w.equip.out, w'.equip.out) + later;
            var before := HostObject.HostSolo(c, w.host, w.hostFrame + w.toHost + toCome);
            var after := HostObject.HostSolo(c, w'.host, w'.hostFrame + w'.toHost + later);
            && before.host == after.host
            && before.written == Said(w.host.out, w'.host.out) + after.written
  {
    var w' := WireDo(c, w, a);
    if a.HostSends? || a.HostTakes? || a.HostDecodes? || a.HostEnds? || a.HostHangsUp? {
      hide HostObject.HostSolo, HostReceive, EncodeMessage, Sendable, HostDecode, Complete, HostObject.PlanCanBeSent,
           EquipObject.EventsCanBeSent;
      assert w'.equip == w.equip && [] + later == later;
      HostOwnStepAgrees(c, w, a, later);
    } else {
      hide HostObject.HostSolo, WireDo, WireCan, WireOk, HostObject.PlanCanBeSent, EquipObject.EventsCanBeSent;
      var after := HostObject.HostSolo(c, w'.host, w'.hostFrame + w'.toHost + later);
      assert [] + after.written == after.written;
      if a.EquipSends? {
        HostHearsAgrees(c, w, later);
      } else {
        HostUnmoved(c, w, a, later);
      }
    }
  }

  lemma {:induction false} HostRunAgrees(c: Config, trace: seq<Wire>, k: nat)
    requires Speakable(c) && IsWireRun(c, trace) && k < |trace| && WireOk(trace[k])
    requires var last := trace[|trace| - 1]; last.host.out == [] && !HostWaits(last.host.pc)
    ensures HostAgrees(c, trace, k)
    decreases |trace| - k
  {
    var w := trace[k];
    if k + 1 == |trace| {
      HostObject.SoloStops(c, w.host, w.hostFrame + w.toHost + EquipSays(trace, k));
    } else {
      hide WireDo, WireCan, HostObject.PlanCanBeSent, EquipObject.EventsCanBeSent, WireOk, HostObject.HostSolo, Said;
      RunIsOk(c, trace, k + 1);
      assert WireNext(c, w, trace[k + 1]);
      var a :| WireCan(w, a) && trace[k + 1] == WireDo(c, w, a);
      HostRunAgrees(c, trace, k + 1);
      GoneIsSilent(c, trace, k);
      SilentRest(trace, k);
      HostStepAgrees(c, w, a, EquipSays(trace, k + 1));
    }
  }

  // ---------- the equipment ----------

  /** The equipment on its own, from state `k` on, with all that will still reach it. */
  ghost predicate EquipAgrees(c: Config, trace: seq<Wire>, k: nat)
    requires Speakable(c) && k < |trace| && WireOk(trace[k])
  {
    var w, last := trace[k], trace[|trace| - 1];
    var end := EquipObject.EquipSolo(c, w.equip, w.equipFrame + w.toEquip + HostSays(trace, k));
    end.equip == last.equip && end.written == EquipSays(trace, k)
  }

  lemma EquipSendAgrees(c: Config, e: Equip, s: seq<byte>)
    requires Speakable(c) && e.out != [] && AllSendable(e.out)
    ensures Sendable(e.out[0]) && AllSendable(e.out[1..])
    ensures EquipObject.EquipSolo(c, e, s)
         == EquipObject.Behind(EncodeMessage(e.out[0]), EquipObject.EquipSolo(c, e.(out := e.out[1..]), s))
  {
    hide EquipObject.EquipSolo, EncodeMessage, Sendable, HostObject.PlanCanBeSent, EquipObject.EventsCanBeSent;
    EquipObject.FlushFirst(c, e, s);
    EquipObject.FlushFirst(c, e.(out := e.out[1..]), s);
    EquipObject.BehindTwice(EncodeMessage(e.out[0]), EncodeReplies(e.out[1..]), EquipObject.EquipSolo(c, e.(out := []), s));
  }

  lemma EquipDecodeAgrees(c: Config, e: Equip, frame: seq<byte>, s: seq<byte>)
    requires Speakable(c) && e.out == [] && EquipWaits(e.pc) && Complete(frame)
    ensures AllSendable(EquipDecode(c, e, frame).out)
    ensures var before := EquipObject.EquipSolo(c, e, frame + s);
            var after := EquipObject.EquipSolo(c, EquipDecode(c, e, frame), s);
            before.equip == after.equip && before.written == after.written
  {
    hide EquipObject.EquipSolo, NextMessage, FrameFromBytes, EquipReceive, HostObject.PlanCanBeSent,
         EquipObject.EventsCanBeSent, EncodeMessage;
    CompleteIsNext(frame, s);
    EquipObject.SoloReceives(c, e, frame + s);
    if FrameFromBytes(frame).Err? {
      EquipObject.SoloStops(c, e.(pc := EquipFailed), s);
    }
  }

  lemma EquipEofAgrees(c: Config, e: Equip, frame: seq<byte>)
    requires Speakable(c) && e.out == [] && EquipWaits(e.pc) && Partial(frame) && !Complete(frame)
    ensures var before, after := EquipObject.EquipSolo(c, e, frame), EquipObject.EquipSolo(c, e.(pc := EquipFailed), frame);
            before.equip == after.equip && before.written == after.written
  {
    hide EquipObject.EquipSolo, NextMessage, HostObject.PlanCanBeSent, EquipObject.EventsCanBeSent;
    IncompleteIsNotNext(frame);
    EquipObject.SoloReceives(c, e, frame);
    EquipObject.SoloStops(c, e.(pc := EquipFailed), frame);
  }

  lemma EquipOwnStepAgrees(c: Config, w: Wire, a: WireAction, later: seq<byte>)
    requires Speakable(c) && WireOk(w) && WireCan(w, a) && WireOk(WireDo(c, w, a))
    requires a.EquipSends? || a.EquipTakes? || a.EquipDecodes? || a.EquipEnds? || a.EquipHangsUp?
    requires w.hostGone ==> later == []
    ensures var w' := WireDo(c, w, a);
            var before := EquipObject.EquipSolo(c, w.equip, w.equipFrame + w.toEquip + later);
            var after := EquipObject.EquipSolo(c, w'.equip, w'.equipFrame + w'.toEquip + later);
            && before.equip == after.equip
            && before.written == Said(w.equip.out, w'.equip.out) + after.written
  {
    hide EquipObject.EquipSolo, FrameFromBytes, EquipReceive, HostReceive, EncodeMessage, NextMessage, Sendable,
         EquipDecode, HostDecode, Partial, Complete, HostObject.PlanCanBeSent, EquipObject.EventsCanBeSent;
    var w' := WireDo(c, w, a);
    var after := EquipObject.EquipSolo(c, w'.equip, w'.equipFrame + w'.toEquip + later);
    assert [] + after.written == after.written;
    match a
    case EquipSends =>
      EquipSendAgrees(c, w.equip, w.equipFrame + w.toEquip + later);
    case EquipTakes(n) =>
      assert w.equipFrame + w.toEquip == (w.equipFrame + w.toEquip[..n]) + w.toEquip[n..];
    case EquipDecodes =>
      EquipDecodeAgrees(c, w.equip, w.equipFrame, w.toEquip + later);
      Associates(w.equipFrame, w.toEquip, later);
      assert [] + w.toEquip == w.toEquip;
    case EquipEnds =>
      EquipEofAgrees(c, w.equip, w.equipFrame);
      assert w.equipFrame + w.toEquip + later == w.equipFrame;
    case EquipHangsUp =>
  }

  /** One step of the run, seen from the equipment: its end does not move. */
  lemma EquipStepAgrees(c: Config, w: Wire, a: WireAction, later: seq<byte>)
    requires Speakable(c) && WireOk(w) && WireCan(w, a) && WireOk(WireDo(c, w, a))
    requires w.hostGone ==> later == []
    ensures var w' := WireDo(c, w, a);
            var toCome := Said(w.host.out, w'.host.out) + later;
            var before := EquipObject.EquipSolo(c, w.equip, w.equipFrame + w.toEquip + toCome);
            var after := EquipObject.EquipSolo(c, w'.equip, w'.equipFrame + w'.toEquip + later);
            && before.equip == after.equip
            && before.written == Said(w.equip.out, w'.equip.out) + after.written
  {
    hide EquipObject.EquipSolo, FrameFromBytes, EquipReceive, HostReceive, EncodeMessage, NextMessage, Sendable,
         EquipDecode, HostDecode, Partial, Complete, HostObject.PlanCanBeSent, EquipObject.EventsCanBeSent;
    var w' := WireDo(c, w, a);
    assert [] + later == later;
    if a.EquipSends? || a.EquipTakes? || a.EquipDecodes? || a.EquipEnds? || a.EquipHangsUp? {
      assert w'.host == w.host;
      EquipOwnStepAgrees(c, w, a, later);
    } else {
      var after := EquipObject.EquipSolo(c, w'.equip, w'.equipFrame + w'.toEquip + later);
      assert [] + after.written == after.written;
      if a.HostSends? {
        var m := EncodeMessage(w.host.out[0]);
        Associates(w.equipFrame + w.toEquip, m, later);
        Associates(w.equipFrame, w.toEquip, m);
      }
    }
  }

  lemma {:induction false} EquipRunAgrees(c: Config, trace: seq<Wire>, k: nat)
    requires Speakable(c) && IsWireRun(c, trace) && k < |trace| && WireOk(trace[k])
    requires var last := trace[|trace| - 1]; last.equip.out == [] && !EquipWaits(last.equip.pc)
    ensures EquipAgrees(c, trace, k)
    decreases |trace| - k
  {
    var w := trace[k];
    if k + 1 == |trace| {
      EquipObject.SoloStops(c, w.equip, w.equipFrame + w.toEquip + HostSays(trace, k));
    } else {
      hide WireDo, WireCan, HostObject.PlanCanBeSent, EquipObject.EventsCanBeSent, WireOk, EquipObject.EquipSolo, Said;
      RunIsOk(c, trace, k + 1);
      assert WireNext(c, w, trace[k + 1]);
      var a :| WireCan(w, a) && trace[k + 1] == WireDo(c, w, a);
      EquipRunAgrees(c, trace, k + 1);
      GoneIsSilent(c, trace, k);
      SilentRest(trace, k);
      EquipStepAgrees(c, w, a, HostSays(trace, k + 1));
    }
  }

  // ---------- both ----------

  /**
   Whenever both sides have returned: the host program, given the bytes the equipment wrote, writes
   the bytes the equipment read and returns what it returned in the run, and the other way round.
   */
  lemma {:induction false} ProgramsMeet(c: Config, trace: seq<Wire>)
    requires WellFormed(c) && Transmittable(c) && IsWireRun(c, trace)
    requires var last := trace[|trace| - 1];
             last.host.out == [] && last.equip.out == [] && !HostWaits(last.host.pc) && !EquipWaits(last.equip.pc)
    ensures Speakable(c) && AllSendable(HostStart().out)
    ensures var last := trace[|trace| - 1];
            var h := HostObject.HostSolo(c, HostStart(), EquipSays(trace, 0));
            var e := EquipObject.EquipSolo(c, EquipStart(), HostSays(trace, 0));
            && h.host == last.host && h.written == HostSays(trace, 0)
            && e.equip == last.equip && e.written == EquipSays(trace, 0)
  {
    TransmittableIsSpeakable(c);
    InitIsOk();
    hide HostObject.HostSolo, EquipObject.EquipSolo, HostObject.PlanCanBeSent, EquipObject.EventsCanBeSent, WireNext;
    HostRunAgrees(c, trace, 0);
    EquipRunAgrees(c, trace, 0);
    assert [] + [] + EquipSays(trace, 0) == EquipSays(trace, 0);
    assert [] + [] + HostSays(trace, 0) == HostSays(trace, 0);
  }

  /**
   With the same plan on both sides, in every finished run on the wire: fed with what the equipment
   wrote, the host program is done and returns one record per command, in order.
   */
  lemma HostProgramCompletes(c: Config, trace: seq<Wire>)
    requires WellFormed(c) && Transmittable(c) && Matching(c)
    requires IsWireRun(c, trace) && WireStuck(trace[|trace| - 1])
    ensures Speakable(c) && AllSendable(HostStart().out)
    ensures var h := HostObject.HostSolo(c, HostStart(), EquipSays(trace, 0)).host;
            && h.pc == HostDone && |h.records| == |c.hostPlan|
            && forall i | 0 <= i < |c.hostPlan| ::
                 h.records[i] == RecordOf(c, c.hostPlan[i], ReportedPosition(c, i))
  {
    var run := WireRunEnds(c, trace);
    SamePlanCompletes(c, run);
    TransmittableIsSpeakable(c);
    var last := trace[|trace| - 1];
    RunIsOk(c, trace, |trace| - 1);
    assert last.host.out == [] && last.equip.out == [] by { StuckHasWritten(last); }
    hide IsWireRun, WireStuck, IsRun, Stuck, Ending, Matching, ReportedPosition, HostObject.HostSolo,
         HostObject.PlanCanBeSent, EquipObject.EventsCanBeSent;
    ProgramsMeet(c, trace);
  }

  lemma StuckHasWritten(w: Wire)
    requires WireStuck(w) && WireOk(w)
    ensures w.host.out == [] && w.equip.out == []
  {
    assert !WireCan(w, HostSends) && !WireCan(w, EquipSends);
  }
}
