/**
 The same run over bytes. Queues hold bytes, a write appends one encoded frame, and a reader takes
 any number of bytes it still wants at a time, decoding once its frame is complete. Every such run
 is a run of `AssemblyRun`, so all that holds there holds on the wire.
 */
module WireRun {
  import opened Bytes
  import opened Utf8
  import opened SecsItem
  import opened Hsms
  import opened Transport
  import opened Gem
  import opened Layout
  import opened AssemblyRun
  import opened Lockstep

  datatype Wire = Wire(
    host: Host,
    equip: Equip,
    hostFrame: seq<byte>,
    equipFrame: seq<byte>,
    toEquip: seq<byte>,
    toHost: seq<byte>,
    hostGone: bool,
    equipGone: bool)

  datatype WireAction =
    | HostSends | HostTakes(n: nat) | HostDecodes | HostEnds | HostHangsUp
    | EquipSends | EquipTakes(n: nat) | EquipDecodes | EquipEnds | EquipHangsUp

  function WireInit(): Wire
  {
    Wire(HostStart(), EquipStart(), [], [], [], [], false, false)
  }

  /** The length prefix is there, and as many bytes as it announces. */
  predicate Complete(frame: seq<byte>)
  {
    |frame| >= 4 && |frame| == 4 + FromBigEndian(frame[..4])
  }

  /** What `read_message` still asks for: the prefix first, then the rest. */
  function Wanted(frame: seq<byte>): int
  {
    if |frame| < 4 then 4 - |frame| else 4 + FromBigEndian(frame[..4]) - |frame|
  }

  predicate CanTake(frame: seq<byte>, queue: seq<byte>, n: nat)
  {
    0 < n <= Wanted(frame) && n <= |queue|
  }

  predicate HostReady(w: Wire) { w.host.out == [] && HostWaits(w.host.pc) }

  predicate EquipReady(w: Wire) { w.equip.out == [] && EquipWaits(w.equip.pc) }

  ghost predicate WireCan(w: Wire, a: WireAction)
  {
    match a
    case HostSends => w.host.out != [] && Sendable(w.host.out[0])
    case HostTakes(n) => HostReady(w) && CanTake(w.hostFrame, w.toHost, n)
    case HostDecodes => HostReady(w) && Complete(w.hostFrame)
    case HostEnds => HostReady(w) && !Complete(w.hostFrame) && w.toHost == [] && w.equipGone
    case HostHangsUp => w.host.out == [] && !HostWaits(w.host.pc) && !w.hostGone
    case EquipSends => w.equip.out != [] && Sendable(w.equip.out[0])
    case EquipTakes(n) => EquipReady(w) && CanTake(w.equipFrame, w.toEquip, n)
    case EquipDecodes => EquipReady(w) && Complete(w.equipFrame)
    case EquipEnds => EquipReady(w) && !Complete(w.equipFrame) && w.toEquip == [] && w.hostGone
    case EquipHangsUp => w.equip.out == [] && !EquipWaits(w.equip.pc) && !w.equipGone
  }

  function HostDecode(c: Config, h: Host, frame: seq<byte>): Host
    requires HostWaits(h.pc)
  {
    match FrameFromBytes(frame)
    case Ok(f) => HostReceive(c, h, f.message)
    case Err(_) => h.(pc := HostFailed)
  }

  function EquipDecode(c: Config, e: Equip, frame: seq<byte>): Equip
    requires EquipWaits(e.pc) && WellFormed(c)
  {
    match FrameFromBytes(frame)
    case Ok(f) => EquipReceive(c, e, f.message)
    case Err(_) => e.(pc := EquipFailed)
  }

  ghost function WireDo(c: Config, w: Wire, a: WireAction): Wire
    requires WellFormed(c) && WireCan(w, a)
  {
    match a
    case HostSends =>
      w.(toEquip := w.toEquip + EncodeMessage(w.host.out[0]), host := w.host.(out := w.host.out[1..]))
    case HostTakes(n) => w.(hostFrame := w.hostFrame + w.toHost[..n], toHost := w.toHost[n..])
    case HostDecodes => w.(hostFrame := [], host := HostDecode(c, w.host, w.hostFrame))
    case HostEnds => w.(host := w.host.(pc := HostFailed))
    case HostHangsUp => w.(hostGone := true)
    case EquipSends =>
      w.(toHost := w.toHost + EncodeMessage(w.equip.out[0]), equip := w.equip.(out := w.equip.out[1..]))
    case EquipTakes(n) => w.(equipFrame := w.equipFrame + w.toEquip[..n], toEquip := w.toEquip[n..])
    case EquipDecodes => w.(equipFrame := [], equip := EquipDecode(c, w.equip, w.equipFrame))
    case EquipEnds => w.(equip := w.equip.(pc := EquipFailed))
    case EquipHangsUp => w.(equipGone := true)
  }

  ghost predicate WireNext(c: Config, w: Wire, w': Wire)
    requires WellFormed(c)
  {
    exists a :: WireCan(w, a) && w' == WireDo(c, w, a)
  }

  ghost predicate WireStuck(w: Wire)
  {
    forall a :: !WireCan(w, a)
  }

  ghost predicate IsWireRun(c: Config, trace: seq<Wire>)
    requires WellFormed(c)
  {
    |trace| > 0 && trace[0] == WireInit() &&
    forall k {:trigger trace[k]} | 0 < k < |trace| :: WireNext(c, trace[k - 1], trace[k])
  }

  // ---------- one direction ----------

  /** A partly read frame and the bytes behind it are exactly the frames of some messages. */
  predicate Carries(frame: seq<byte>, bytes: seq<byte>, queue: seq<Message>)
  {
    && AllFrameable(queue)
    && frame + bytes == Frames(queue)
    && (queue != [] ==> |frame| <= |EncodeMessage(queue[0])|)
  }

  lemma CarriesAfterSend(frame: seq<byte>, bytes: seq<byte>, queue: seq<Message>, m: Message)
    requires Carries(frame, bytes, queue) && Frameable(m)
    ensures Carries(frame, bytes + EncodeMessage(m), queue + [m])
  {
    hide EncodeMessage, BodyBytes, Encodable;
    FramesAppend(queue, m);
    Associates(frame, bytes, EncodeMessage(m));
  }

  /** Where the first frame ends is known from its own prefix. */
  lemma FrameBoundary(frame: seq<byte>, bytes: seq<byte>, queue: seq<Message>)
    requires Carries(frame, bytes, queue) && queue != []
    ensures frame == EncodeMessage(queue[0])[..|frame|]
    ensures Complete(frame) <==> |frame| == |EncodeMessage(queue[0])|
    ensures |frame| + Wanted(frame) <= |EncodeMessage(queue[0])|
  {
    hide FromBigEndian, BodyBytes, Encodable;
    var first := EncodeMessage(queue[0]);
    PrefixAnnounces(queue[0]);
    hide EncodeMessage;
    assert frame == (frame + bytes)[..|frame|] == Frames(queue)[..|frame|] == first[..|frame|];
    if |frame| >= 4 {
      assert frame[..4] == first[..4];
    }
  }

  lemma CarriesAfterTake(frame: seq<byte>, bytes: seq<byte>, queue: seq<Message>, n: nat)
    requires Carries(frame, bytes, queue) && CanTake(frame, bytes, n)
    ensures Carries(frame + bytes[..n], bytes[n..], queue)
  {
    hide EncodeMessage, BodyBytes, Encodable, Wanted;
    assert queue != [];
    FrameBoundary(frame, bytes, queue);
    assert bytes == bytes[..n] + bytes[n..];
    Associates(frame, bytes[..n], bytes[n..]);
  }

  lemma CompleteFrame(frame: seq<byte>, bytes: seq<byte>, queue: seq<Message>)
    requires Carries(frame, bytes, queue) && Complete(frame)
    ensures queue != [] && Carries([], bytes, queue[1..])
    ensures FrameFromBytes(frame).Ok? && FrameFromBytes(frame).value.message == Normalize(queue[0])
  {
    hide EncodeMessage, BodyBytes, Encodable, Complete, FrameFromBytes, Normalize;
    assert queue != [] by { NonEmptyQueue(frame, bytes, queue); }
    FrameBoundary(frame, bytes, queue);
    var first := EncodeMessage(queue[0]);
    assert first == first[..|frame|] == frame;
    assert bytes == (frame + bytes)[|frame|..] == Frames(queue[1..]);
    FrameRoundTrip(queue[0], []);
    assert first + [] == first;
    assert [] + bytes == bytes;
  }

  lemma NonEmptyQueue(frame: seq<byte>, bytes: seq<byte>, queue: seq<Message>)
    requires Carries(frame, bytes, queue) && (Complete(frame) || frame + bytes != [])
    ensures queue != []
  {
    assert Complete(frame) ==> |frame + bytes| >= 4;
  }

  /** With a message in the queue, the reader can go on; without one, nothing is left. */
  lemma ReaderProgress(frame: seq<byte>, bytes: seq<byte>, queue: seq<Message>)
    requires Carries(frame, bytes, queue)
    ensures queue != [] ==> Complete(frame) || CanTake(frame, bytes, 1)
    ensures queue == [] ==> frame == [] && bytes == []
    ensures bytes == [] && !Complete(frame) ==> queue == []
  {
    hide EncodeMessage, BodyBytes, Encodable;
    if queue != [] {
      FrameBoundary(frame, bytes, queue);
      if !Complete(frame) {
        FrameStrictlyShorter(frame, bytes, queue);
      }
    } else {
      assert |frame + bytes| == 0;
    }
  }

  lemma FrameStrictlyShorter(frame: seq<byte>, bytes: seq<byte>, queue: seq<Message>)
    requires Carries(frame, bytes, queue) && queue != [] && !Complete(frame)
    ensures bytes != [] && Wanted(frame) > 0
  {
    hide FromBigEndian, BodyBytes, Encodable;
    PrefixAnnounces(queue[0]);
    var first := EncodeMessage(queue[0]);
    FrameBoundary(frame, bytes, queue);
    assert |Frames(queue)| >= |first|;
    if |frame| >= 4 {
      assert frame[..4] == first[..4];
    }
  }

  // ---------- everything the run sends fits a frame ----------

  predicate GoodText(t: Text) { ValidText(t) && |t| <= MAX_LENGTH }

  /** Site ids and the software revision are strings short enough to encode. */
  predicate Transmittable(c: Config)
  {
    && GoodText(c.softRev)
    && (forall k | 0 <= k < |c.hostPlan| :: GoodText(c.hostPlan[k].siteId))
    && (forall k | 0 <= k < |c.equipPlan| :: GoodText(c.equipPlan[k].siteId))
  }

  /** Encodable, in at most `bound` bytes. */
  predicate Within(i: Item, bound: nat)
  {
    Encodable(i) && |Encode(i)| <= bound
  }

  lemma TextWithin(t: Text)
    requires GoodText(t)
    ensures Within(SecsItem.Ascii(t), 4 + MAX_LENGTH)
  {
    hide ValidText;
  }

  lemma LiteralWithin(s: string)
    requires |s| <= MAX_LENGTH && forall k | 0 <= k < |s| :: s[k] as int < 0x80
    ensures Within(SecsItem.Ascii(Utf8.Ascii(s)), 4 + MAX_LENGTH)
  {
    AsciiIsValid(Utf8.Ascii(s));
    TextWithin(Utf8.Ascii(s));
  }

  lemma U4Within(v: u32)
    ensures Within(U4Item(v), 4 + MAX_LENGTH)
  {
    SmallPowers();
    assert InRange(U4, v);
    assert ByteCount(U4, 1) == 4;
  }

  lemma ByteWithin(b: byte)
    ensures Within(Binary([b]), 4 + MAX_LENGTH) && Within(Boolean([b != 0]), 4 + MAX_LENGTH)
  {
  }

  /** Short lists stay within a multiple of what their items need. */
  lemma ListWithin(items: seq<Item>, bound: nat)
    requires |items| <= 3 && forall k | 0 <= k < |items| :: Within(items[k], bound)
    ensures Within(List(items), 4 + 3 * bound)
  {
    hide Header, Payload;
    ListIsEncodable(items);
    hide Encodable;
    if |items| >= 1 {
      assert |EncodeAll(items)| == |Encode(items[0])| + |EncodeAll(items[1..])|;
    }
    if |items| >= 2 {
      assert items[1..][1..] == items[2..];
      assert |EncodeAll(items[1..])| == |Encode(items[1])| + |EncodeAll(items[2..])|;
    }
    if |items| >= 3 {
      assert items[2..][1..] == [];
      assert |EncodeAll(items[2..])| == |Encode(items[2])| + |EncodeAll([])|;
    }
    assert EncodeAll([]) == [];
    HeaderIsShort(ListFormat, |items|);
  }

  lemma HeaderIsShort(f: Format, length: nat)
    requires length <= MAX_LENGTH
    ensures |Header(f, length)| <= 4
  {
  }

  const LEAF := 4 + MAX_LENGTH
  const LEVEL1 := 4 + 3 * LEAF
  const LEVEL2 := 4 + 3 * LEVEL1
  const LEVEL3 := 4 + 3 * LEVEL2
  const LEVEL4 := 4 + 3 * LEVEL3

  lemma ParamWithin(name: string, value: Item)
    requires |name| <= MAX_LENGTH && forall k | 0 <= k < |name| :: name[k] as int < 0x80
    requires Within(value, LEAF)
    ensures Within(ParamItem(Param(Utf8.Ascii(name), value)), LEVEL1)
  {
    LiteralWithin(name);
    hide Within, Utf8.Ascii;
    ListWithin([SecsItem.Ascii(Utf8.Ascii(name)), value], LEAF);
  }

  lemma RcmdWithin(t: Technique)
    ensures Within(SecsItem.Ascii(Rcmd(t)), LEAF) && Within(SecsItem.Ascii(ModelName(t)), LEAF)
  {
    hide Within, Utf8.Ascii;
    match t
    case WireBond =>
      LiteralWithin("PLACE_WB");
      LiteralWithin("TPT-SIM-WB");
    case FlipChip =>
      LiteralWithin("PLACE_FC");
      LiteralWithin("TPT-SIM-FC");
    case ChipletPickPlace =>
      LiteralWithin("PLACE_PP");
      LiteralWithin("TPT-SIM-PP");
  }

  lemma CommandWithin(rcmd: Text, ps: seq<Param>)
    requires |ps| == 3 && Within(SecsItem.Ascii(rcmd), LEAF)
    requires forall k | 0 <= k < 3 :: Within(ParamItem(ps[k]), LEVEL1)
    ensures Within(S2F41(HostCommand(rcmd, ps)), LEVEL4)
  {
    hide Within, ParamItem;
    ThreeParams(ps);
    ListWithin(ParamItems(ps), LEVEL1);
    WithinMore(SecsItem.Ascii(rcmd), LEAF, LEVEL2);
    ListWithin([SecsItem.Ascii(rcmd), List(ParamItems(ps))], LEVEL2);
    WithinMore(S2F41(HostCommand(rcmd, ps)), LEVEL3, LEVEL4);
  }

  lemma CommandBodyWithin(t: Technique, command: Command)
    requires GoodText(command.siteId)
    ensures Within(CommandBody(t, command), LEVEL4)
  {
    hide Within, Utf8.Ascii, GoodText, ToU4, Rcmd, ModelName, ParamItem, U4Item;
    var x, y := ToU4(command.target.x), ToU4(command.target.y);
    TextWithin(command.siteId);
    U4Within(x);
    U4Within(y);
    RcmdWithin(t);
    ParamWithin("SITE", SecsItem.Ascii(command.siteId));
    ParamWithin("X", U4Item(x));
    ParamWithin("Y", U4Item(y));
    CommandWithin(Rcmd(t), [Param(Utf8.Ascii("SITE"), SecsItem.Ascii(command.siteId)),
                            Param(Utf8.Ascii("X"), U4Item(x)), Param(Utf8.Ascii("Y"), U4Item(y))]);
  }

  lemma WithinMore(i: Item, small: nat, large: nat)
    requires Within(i, small) && small <= large
    ensures Within(i, large)
  {
    hide Encode, Encodable;
  }

  lemma ReportWithin(site: Text, x: u32, y: u32)
    requires GoodText(site)
    ensures Within(ReportItem(Report(1, [SecsItem.Ascii(site), U4Item(x), U4Item(y)])), LEVEL2)
  {
    hide Within, GoodText, U4Item;
    TextWithin(site);
    U4Within(x);
    U4Within(y);
    U4Within(1);
    var v := [SecsItem.Ascii(site), U4Item(x), U4Item(y)];
    ListWithin(v, LEAF);
    WithinMore(U4Item(1), LEAF, LEVEL1);
    ListWithin([U4Item(1), List(v)], LEVEL1);
  }

  lemma EventWithin(report: Report)
    requires Within(ReportItem(report), LEVEL2)
    ensures Within(S6F11(EventReport(1, CEID_PLACEMENT_DONE, [report])), LEVEL4)
  {
    hide Within, U4Item, ReportItem;
    U4Within(1);
    U4Within(CEID_PLACEMENT_DONE);
    assert ReportItems([report]) == [ReportItem(report)];
    ListWithin([ReportItem(report)], LEVEL2);
    WithinMore(U4Item(1), LEAF, LEVEL3);
    WithinMore(U4Item(CEID_PLACEMENT_DONE), LEAF, LEVEL3);
    ListWithin([U4Item(1), U4Item(CEID_PLACEMENT_DONE), List([ReportItem(report)])], LEVEL3);
  }

  lemma EventBodyWithin(c: Config, i: nat)
    requires WellFormed(c) && i < |c.equipPlan| && GoodText(c.equipPlan[i].siteId)
    ensures Within(EventBody(c, i), LEVEL4)
  {
    var p := ReportedPosition(c, i);
    assert 0 <= p.x < TWO32 && 0 <= p.y < TWO32;
    hide Within, GoodText, ReportedPosition, U4Item, ReportItem, S6F11;
    ReportWithin(c.equipPlan[i].siteId, p.x, p.y);
    EventWithin(Report(1, [SecsItem.Ascii(c.equipPlan[i].siteId), U4Item(p.x), U4Item(p.y)]));
  }

  lemma IdentificationWithin(c: Config)
    requires GoodText(c.softRev)
    ensures Within(S1F2(ModelName(c.equipTechnique), c.softRev), LEVEL4)
  {
    RcmdWithin(c.equipTechnique);
    TextWithin(c.softRev);
    hide Within, ModelName, GoodText;
    ListWithin([SecsItem.Ascii(ModelName(c.equipTechnique)), SecsItem.Ascii(c.softRev)], LEAF);
    WithinMore(S1F2(ModelName(c.equipTechnique), c.softRev), LEVEL1, LEVEL4);
  }

  lemma CommAckWithin()
    ensures Within(S1F14(true), LEVEL4)
  {
    LiteralWithin("Established");
    ByteWithin(1);
    hide Within, Utf8.Ascii;
    ListWithin([Boolean([true]), SecsItem.Ascii(Utf8.Ascii("Established"))], LEAF);
    WithinMore(S1F14(true), LEVEL1, LEVEL4);
  }

  lemma SmallBodiesWithin()
    ensures Within(List([]), LEVEL4) && Within(S2F42(HCACK_OK), LEVEL4) && Within(S6F12(0), LEVEL4)
  {
    ByteWithin(0);
    hide Within;
    ListWithin([], LEAF);
    WithinMore(List([]), LEVEL1, LEVEL4);
    WithinMore(Binary([0]), LEAF, LEVEL4);
  }

  lemma DataIsFrameable(m: Message)
    requires m.Data? && m.body.Some? ==> Within(m.body.value, LEVEL4)
    ensures Frameable(m)
  {
    hide Encode, Encodable;
  }

  lemma HostMsgIsFrameable(c: Config, k: nat)
    requires Transmittable(c) && k < HostTotal(c)
    ensures Frameable(HostMsg(c, k))
  {
    SmallBodiesWithin();
    hide Within, Frameable, CommandBody, Agreed, GoodText;
    if k >= 3 && k % 2 == 1 {
      CommandBodyWithin(c.hostTechnique, c.hostPlan[(k - 3) / 2]);
    }
    DataIsFrameable(HostMsg(c, k));
  }

  lemma {:induction false} EquipMsgIsFrameable(c: Config, k: nat)
    requires WellFormed(c) && Transmittable(c) && k < EquipTotal(c)
    ensures Frameable(EquipMsg(c, k))
  {
    SmallBodiesWithin();
    IdentificationWithin(c);
    CommAckWithin();
    hide Within, Frameable, EventBody, Agreed, GoodText, S1F2, S1F14;
    if k >= 3 && k % 2 == 0 {
      EventBodyWithin(c, (k - 4) / 2);
    }
    DataIsFrameable(EquipMsg(c, k));
  }
}
