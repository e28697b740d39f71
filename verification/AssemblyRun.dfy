/**
 One placement run: the host (`AssemblyHost::connect`, then `execute_plan`) and the equipment
 (`AssemblyEquipment::run`) over two FIFO queues of messages.

 Each side is a machine that alternates between writing what it has to write and reading one
 message; `React` says what the session makes of that message. `Can` and `Do` are the atomic
 steps, so a run is any interleaving of them.
 */
module AssemblyRun {
  import opened Outcomes
  import opened Bytes
  import opened Utf8
  import opened SecsItem
  import opened Hsms
  import opened Session
  import opened Gem
  import opened Layout

  const CEID_PLACEMENT_DONE: u32 := 201

  /** Both sides of a run. `jitter` holds the equipment's deviation for each of its commands. */
  datatype Config = Config(
    hostTechnique: Technique,
    equipTechnique: Technique,
    hostPlan: seq<Command>,
    equipPlan: seq<Command>,
    jitter: seq<Point>,
    hostSession: u16,
    equipSession: u16,
    softRev: Text)

  predicate WellFormed(c: Config) { |c.jitter| == |c.equipPlan| }

  /** `v.max(0) as u32`. */
  function ToU4(v: int): u32
  {
    (if v < 0 then 0 else v) % TWO32
  }

  // ---------- the host ----------

  datatype HostPc =
    | Selecting
    | Identifying(sb: u32)
    | Establishing(sb: u32)
    | Commanding(index: nat, sb: u32)
    | Collecting(index: nat)
    | HostDone
    | HostFailed

  datatype Host = Host(pc: HostPc, out: seq<Message>, nextSb: u32, records: seq<Record>)

  predicate HostWaits(pc: HostPc) { !pc.HostDone? && !pc.HostFailed? }

  function HostWaitsFor(pc: HostPc): Waiting
    requires HostWaits(pc)
  {
    match pc
    case Selecting => ForSelectRsp
    case Identifying(sb) => ForReply(sb, 2)
    case Establishing(sb) => ForReply(sb, 14)
    case Commanding(_, sb) => ForReply(sb, 42)
    case Collecting(_) => ForPrimary(HostReply())
  }

  function HostStart(): Host
  {
    Host(Selecting, [SelectReq(1)], 2, [])
  }

  function HostSend(c: Config, h: Host, stream: byte, f: byte, body: Item, pc: HostPc): Host
  {
    h.(pc := pc, nextSb := (h.nextSb + 1) % TWO32,
       out := h.out + [Data(c.hostSession, stream, f, true, h.nextSb, Some(body))])
  }

  function CommandBody(t: Technique, command: Command): Item
  {
    S2F41(HostCommand(Rcmd(t), [Param(Utf8.Ascii("SITE"), SecsItem.Ascii(command.siteId)),
                                Param(Utf8.Ascii("X"), U4Item(ToU4(command.target.x))),
                                Param(Utf8.Ascii("Y"), U4Item(ToU4(command.target.y)))]))
  }

  /** The loop of `execute_plan`: send the next command, or be done. */
  function HostNext(c: Config, h: Host, index: nat): Host
  {
    if index < |c.hostPlan| then
      HostSend(c, h, 2, 41, CommandBody(c.hostTechnique, c.hostPlan[index]), Commanding(index, h.nextSb))
    else h.(pc := HostDone)
  }

  datatype Scan = Found(placed: Point) | Absent | Malformed

  /** Look for the report of one site among the reports of an event. */
  function ScanReports(site: Text, reports: seq<Report>): Scan
  {
    if reports == [] then Absent
    else
      var v := reports[0].variables;
      if |v| != 3 || AsAscii(v[0]).None? then Malformed
      else if AsAscii(v[0]).value != site then ScanReports(site, reports[1..])
      else if AsU4(v[1]).None? || AsU4(v[2]).None? then Malformed
      else Found(Point(AsU4(v[1]).value, AsU4(v[2]).value))
  }

  function RecordOf(c: Config, command: Command, placed: Point): Record
  {
    Record(command.siteId, command.chipletId, c.hostTechnique, command.target, placed, command.orientation)
  }

  /** `await_placement_event`, once a primary has been read and acknowledged. */
  function HostCollect(c: Config, h: Host, index: nat, p: Value): Host
    requires p.Primary? && index < |c.hostPlan|
  {
    if p.stream != 6 || p.function_ != 11 then h
    else if p.body.None? then h.(pc := HostFailed)
    else
      match ParseS6F11(p.body.value)
      case Err(_) => h.(pc := HostFailed)
      case Ok(e) =>
        if e.ceid != CEID_PLACEMENT_DONE then h
        else
          match ScanReports(c.hostPlan[index].siteId, e.reports)
          case Malformed => h.(pc := HostFailed)
          case Absent => h
          case Found(placed) =>
            HostNext(c, h.(records := h.records + [RecordOf(c, c.hostPlan[index], placed)]), index + 1)
  }

  /** HCACK, or DACKN: the first byte of a binary reply. */
  function FirstByte(body: Option<Item>): Option<byte>
  {
    if body.Some? && body.value.Binary? && body.value.bytes != [] then Some(body.value.bytes[0]) else None
  }

  function HostContinue(c: Config, h: Host, v: Value): Host
  {
    match h.pc
    case Selecting => HostSend(c, h, 1, 1, List([]), Identifying(h.nextSb))
    case Identifying(_) =>
      if !v.Reply? || ParseOnlineData(v.body).Err? || ParseOnlineData(v.body).value.0 == [] then h.(pc := HostFailed)
      else HostSend(c, h, 1, 13, List([]), Establishing(h.nextSb))
    case Establishing(_) =>
      if !v.Reply? || ParseCommAck(v.body) != Ok(true) then h.(pc := HostFailed) else HostNext(c, h, 0)
    case Commanding(index, _) =>
      if !v.Reply? || v.function_ != 42 || FirstByte(v.body) != Some(HCACK_OK) then h.(pc := HostFailed)
      else h.(pc := Collecting(index))
    case Collecting(index) =>
      if v.Primary? && index < |c.hostPlan| then HostCollect(c, h, index, v) else h.(pc := HostFailed)
    case _ => h
  }

  function HostReceive(c: Config, h: Host, m: Message): Host
    requires HostWaits(h.pc)
  {
    match React(HostWaitsFor(h.pc), m)
    case Answer(reply) => h.(out := h.out + [reply])
    case Abort(_, _) => h.(pc := HostFailed)
    case Finish(v, replies) => HostContinue(c, h.(out := h.out + replies), v)
  }

  // ---------- the equipment ----------

  datatype EquipPc =
    | AwaitingSelect
    | Handshaking(served: nat)
    | Serving(index: nat)
    | Reporting(index: nat, sb: u32)
    | EquipDone
    | EquipFailed

  datatype Equip = Equip(pc: EquipPc, out: seq<Message>, nextSb: u32)

  predicate EquipWaits(pc: EquipPc) { !pc.EquipDone? && !pc.EquipFailed? }

  function EquipResponder(c: Config): Responder
  {
    EquipmentReply(ModelName(c.equipTechnique), c.softRev)
  }

  function EquipWaitsFor(c: Config, pc: EquipPc): Waiting
    requires EquipWaits(pc)
  {
    match pc
    case AwaitingSelect => ForSelectReq
    case Handshaking(_) => ForPrimary(EquipResponder(c))
    case Serving(_) => ForPrimary(EquipResponder(c))
    case Reporting(_, sb) => ForReply(sb, 12)
  }

  function EquipStart(): Equip
  {
    Equip(AwaitingSelect, [], 1)
  }

  /** The as-placed position the equipment reports: jittered, clamped at 0, sent as U4. */
  function ReportedPosition(c: Config, index: nat): Point
    requires WellFormed(c) && index < |c.equipPlan|
  {
    var target := c.equipPlan[index].target;
    Point(ToU4(target.x + c.jitter[index].x), ToU4(target.y + c.jitter[index].y))
  }

  function EventBody(c: Config, index: nat): Item
    requires WellFormed(c) && index < |c.equipPlan|
  {
    var p := ReportedPosition(c, index);
    S6F11(EventReport(1, CEID_PLACEMENT_DONE,
                      [Report(1, [SecsItem.Ascii(c.equipPlan[index].siteId), U4Item(p.x), U4Item(p.y)])]))
  }

  function EquipNext(c: Config, e: Equip, index: nat): Equip
  {
    e.(pc := if index < |c.equipPlan| then Serving(index) else EquipDone)
  }

  /** One turn of the command loop of `run`, once the host command has been read and answered. */
  function EquipServe(c: Config, e: Equip, index: nat, p: Value): Equip
    requires p.Primary? && WellFormed(c) && index < |c.equipPlan|
  {
    if p.stream != 2 || p.function_ != 41 || p.body.None? then e.(pc := EquipFailed)
    else
      match ParseS2F41(p.body.value)
      case Err(_) => e.(pc := EquipFailed)
      case Ok(command) =>
        if command.rcmd != Rcmd(c.equipTechnique) then e.(pc := EquipFailed)
        else
          e.(pc := Reporting(index, e.nextSb), nextSb := (e.nextSb + 1) % TWO32,
             out := e.out + [Data(c.equipSession, 6, 11, true, e.nextSb, Some(EventBody(c, index)))])
  }

  function EquipContinue(c: Config, e: Equip, v: Value): Equip
    requires WellFormed(c)
  {
    match e.pc
    case AwaitingSelect => e.(pc := Handshaking(0))
    case Handshaking(served) => if served + 1 < 2 then e.(pc := Handshaking(served + 1)) else EquipNext(c, e, 0)
    case Serving(index) =>
      if v.Primary? && index < |c.equipPlan| then EquipServe(c, e, index, v) else e.(pc := EquipFailed)
    case Reporting(index, _) =>
      if !v.Reply? || v.function_ != 12 || (FirstByte(v.body).Some? && FirstByte(v.body).value != 0)
      then e.(pc := EquipFailed)
      else EquipNext(c, e, index + 1)
    case _ => e
  }

  function EquipReceive(c: Config, e: Equip, m: Message): Equip
    requires EquipWaits(e.pc) && WellFormed(c)
  {
    match React(EquipWaitsFor(c, e.pc), m)
    case Answer(reply) => e.(out := e.out + [reply])
    case Abort(_, _) => e.(pc := EquipFailed)
    case Finish(v, replies) => EquipContinue(c, e.(out := e.out + replies), v)
  }

  // ---------- the run ----------

  datatype State = State(
    host: Host,
    equip: Equip,
    toEquip: seq<Message>,
    toHost: seq<Message>,
    hostGone: bool,
    equipGone: bool)

  datatype Action =
    | HostWrites | HostReads | HostHitsEof | HostDrops
    | EquipWrites | EquipReads | EquipHitsEof | EquipDrops

  function Init(): State
  {
    State(HostStart(), EquipStart(), [], [], false, false)
  }

  /** A side reads only when it has nothing to write; it drops its half once it has returned. */
  predicate Can(s: State, a: Action)
  {
    match a
    case HostWrites => s.host.out != []
    case HostReads => s.host.out == [] && HostWaits(s.host.pc) && s.toHost != []
    case HostHitsEof => s.host.out == [] && HostWaits(s.host.pc) && s.toHost == [] && s.equipGone
    case HostDrops => s.host.out == [] && !HostWaits(s.host.pc) && !s.hostGone
    case EquipWrites => s.equip.out != []
    case EquipReads => s.equip.out == [] && EquipWaits(s.equip.pc) && s.toEquip != []
    case EquipHitsEof => s.equip.out == [] && EquipWaits(s.equip.pc) && s.toEquip == [] && s.hostGone
    case EquipDrops => s.equip.out == [] && !EquipWaits(s.equip.pc) && !s.equipGone
  }

  function Do(c: Config, s: State, a: Action): State
    requires WellFormed(c) && Can(s, a)
  {
    match a
    case HostWrites => s.(toEquip := s.toEquip + [s.host.out[0]], host := s.host.(out := s.host.out[1..]))
    case HostReads => s.(toHost := s.toHost[1..], host := HostReceive(c, s.host, Normalize(s.toHost[0])))
    case HostHitsEof => s.(host := s.host.(pc := HostFailed))
    case HostDrops => s.(hostGone := true)
    case EquipWrites => s.(toHost := s.toHost + [s.equip.out[0]], equip := s.equip.(out := s.equip.out[1..]))
    case EquipReads => s.(toEquip := s.toEquip[1..], equip := EquipReceive(c, s.equip, Normalize(s.toEquip[0])))
    case EquipHitsEof => s.(equip := s.equip.(pc := EquipFailed))
    case EquipDrops => s.(equipGone := true)
  }

  ghost predicate Next(c: Config, s: State, s': State)
    requires WellFormed(c)
  {
    exists a :: Can(s, a) && s' == Do(c, s, a)
  }

  ghost predicate Stuck(s: State)
  {
    forall a :: !Can(s, a)
  }

  /** Any interleaving from the start. */
  ghost predicate IsRun(c: Config, trace: seq<State>)
    requires WellFormed(c)
  {
    |trace| > 0 && trace[0] == Init() &&
    forall k {:trigger trace[k]} | 0 < k < |trace| :: Next(c, trace[k - 1], trace[k])
  }

  // ---------- how far two plans agree ----------

  /** Number of leading commands for which both plans name the same site. */
  function Agreed(p: seq<Command>, q: seq<Command>): (n: nat)
    ensures n <= |p| && n <= |q|
  {
    if p == [] || q == [] || p[0].siteId != q[0].siteId then 0 else 1 + Agreed(p[1..], q[1..])
  }

  lemma {:induction false} AgreedSites(p: seq<Command>, q: seq<Command>, k: nat)
    requires k < |p| && k < |q| && k <= Agreed(p, q)
    ensures p[k].siteId == q[k].siteId <==> k < Agreed(p, q)
  {
    if p[0].siteId == q[0].siteId && k > 0 {
      AgreedSites(p[1..], q[1..], k - 1);
    }
  }

  predicate SamePlan(p: seq<Command>, q: seq<Command>)
  {
    |p| == |q| && forall k | 0 <= k < |p| :: p[k].siteId == q[k].siteId
  }

  lemma {:induction false} SamePlanAgrees(p: seq<Command>, q: seq<Command>)
    ensures SamePlan(p, q) <==> Agreed(p, q) == |p| == |q|
  {
    if SamePlan(p, q) && p != [] {
      SamePlanAgrees(p[1..], q[1..]);
    }
    if Agreed(p, q) == |p| == |q| {
      forall k | 0 <= k < |p| ensures p[k].siteId == q[k].siteId { AgreedSites(p, q, k); }
    }
  }
}
