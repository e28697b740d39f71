/**
 The host as the program it is: `connect`, `place`, `await_placement_event` and `execute_plan` over
 an HSMS session. Whatever bytes come in, it writes what the host machine of `AssemblyRun` writes
 and ends as that machine ends.
 */
module AssemblyHostObject {
  import opened Outcomes
  import opened Bytes
  import opened Utf8
  import opened SecsItem
  import opened Hsms
  import opened Transport
  import opened Session
  import opened Gem
  import opened Layout
  import opened AssemblyRun
  import opened PlacementTerms
  import opened SessionWaits

  // ---------- the machine on its own ----------

  /** Every command of the plan has a body that can be encoded. */
  predicate PlanCanBeSent(c: Config)
  {
    forall k :: 0 <= k < |c.hostPlan| ==> Encodable(CommandBody(c.hostTechnique, c.hostPlan[k]))
  }

  datatype HostEnd = HostEnd(host: Host, rest: seq<byte>, written: seq<byte>)

  /** What follows a wait adds at most one message, and that does not depend on what was pending. */
  lemma ContinueAppends(c: Config, h: Host, v: Value)
    requires PlanCanBeSent(c) && AllSendable(h.out)
    ensures var idle := HostContinue(c, h.(out := []), v);
            && AllSendable(idle.out)
            && HostContinue(c, h, v) == idle.(out := h.out + idle.out)
            && AllSendable(h.out + idle.out)
  {
    hide Encodable, CommandBody, ParseS6F11, ScanReports, ParseOnlineData, ParseCommAck, FirstByte, RecordOf;
    EmptyListIsEncodable();
    assert h.out + [] == h.out;
  }

  /** The host machine run to its end on the bytes `s`, with nothing else to come. */
  ghost function HostSolo(c: Config, h: Host, s: seq<byte>): HostEnd
    requires PlanCanBeSent(c) && AllSendable(h.out)
    decreases |s|
  {
    var idle, written := h.(out := []), EncodeReplies(h.out);
    if !HostWaits(h.pc) then HostEnd(idle, s, written)
    else
      var next := NextMessage(s);
      match next.message
      case Err(_) => HostEnd(idle.(pc := HostFailed), next.rest, written)
      case Ok(m) =>
        ReceiveIsSendable(c, idle, m);
        var later := HostSolo(c, HostReceive(c, idle, m), next.rest);
        later.(written := written + later.written)
  }

  lemma HostWaitIsWellBehaved(pc: HostPc)
    requires HostWaits(pc)
    ensures WellBehaved(HostWaitsFor(pc))
  {
    HostRepliesCanBeSent();
  }

  lemma ReceiveIsSendable(c: Config, h: Host, m: Message)
    requires PlanCanBeSent(c) && HostWaits(h.pc) && h.out == []
    ensures AllSendable(HostReceive(c, h, m).out)
  {
    HostWaitIsWellBehaved(h.pc);
    hide HostContinue, React, HostWaitsFor, PlanCanBeSent;
    var w := HostWaitsFor(h.pc);
    RepliesAreSendable(w, m);
    var r := React(w, m);
    if r.Finish? {
      ContinueAppends(c, h.(out := r.replies), r.value);
      assert h.out + r.replies == r.replies;
    }
  }

  /** Pending messages are written first; nothing else depends on them. */
  lemma FlushFirst(c: Config, h: Host, s: seq<byte>)
    requires PlanCanBeSent(c) && AllSendable(h.out)
    ensures var idle := HostSolo(c, h.(out := []), s);
            HostSolo(c, h, s) == idle.(written := EncodeReplies(h.out) + idle.written)
  {
    hide NextMessage, HostReceive, EncodeMessage, PlanCanBeSent;
    var idle := h.(out := []);
    assert EncodeReplies(idle.out) == [];
    assert idle.(out := []) == idle;
    assert EncodeReplies(h.out) + [] == EncodeReplies(h.out);
    if HostWaits(h.pc) && NextMessage(s).message.Ok? {
      var m := NextMessage(s).message.value;
      ReceiveIsSendable(c, idle, m);
      var later := HostSolo(c, HostReceive(c, idle, m), NextMessage(s).rest);
      assert [] + later.written == later.written;
    }
  }

  /** `e`, with bytes written before it. */
  function Behind(written: seq<byte>, e: HostEnd): HostEnd
  {
    e.(written := written + e.written)
  }

  /** Where the machine gets from a wait that ends with `o`. */
  ghost function AfterWait(c: Config, h: Host, o: Outcome): HostEnd
    requires PlanCanBeSent(c) && h.out == []
  {
    match o.result
    case Err(_) => HostEnd(h.(pc := HostFailed), o.rest, o.written)
    case Ok(v) =>
      ContinueAppends(c, h, v);
      Behind(o.written, HostSolo(c, HostContinue(c, h, v), o.rest))
  }

  lemma BehindTwice(a: seq<byte>, b: seq<byte>, e: HostEnd)
    ensures Behind(a + b, e) == Behind(a, Behind(b, e))
  {
    Associates(a, b, e.written);
  }

  lemma SoloReceives(c: Config, h: Host, s: seq<byte>)
    requires PlanCanBeSent(c) && HostWaits(h.pc) && h.out == []
    ensures WellBehaved(HostWaitsFor(h.pc))
    ensures var next := NextMessage(s);
            next.message.Err? ==> HostSolo(c, h, s) == HostEnd(h.(pc := HostFailed), next.rest, [])
    ensures var next := NextMessage(s);
            next.message.Ok? ==>
              && AllSendable(HostReceive(c, h, next.message.value).out)
              && HostSolo(c, h, s) == HostSolo(c, HostReceive(c, h, next.message.value), next.rest)
  {
    HostWaitIsWellBehaved(h.pc);
    hide NextMessage, HostReceive, EncodeMessage, PlanCanBeSent, HostWaitsFor;
    assert h.(out := []) == h;
    if NextMessage(s).message.Ok? {
      var m := NextMessage(s).message.value;
      ReceiveIsSendable(c, h, m);
      var later := HostSolo(c, HostReceive(c, h, m), NextMessage(s).rest);
      assert [] + later.written == later.written;
    }
  }

  lemma FinishedWait(c: Config, h: Host, v: Value, replies: seq<Message>, rest: seq<byte>)
    requires PlanCanBeSent(c) && h.out == [] && AllSendable(replies)
    ensures AllSendable(HostContinue(c, h.(out := replies), v).out) && AllSendable(HostContinue(c, h, v).out)
    ensures HostSolo(c, HostContinue(c, h.(out := replies), v), rest)
         == Behind(EncodeReplies(replies), HostSolo(c, HostContinue(c, h, v), rest))
  {
    hide HostContinue, HostSolo, EncodeReplies, PlanCanBeSent;
    var pending := h.(out := replies);
    assert pending.(out := []) == h;
    ContinueAppends(c, pending, v);
    var after := HostContinue(c, h, v);
    AppendSendable(replies, after.out);
    FlushFirst(c, after, rest);
    FlushFirst(c, after.(out := replies + after.out), rest);
    BehindTwice(EncodeReplies(replies), EncodeReplies(after.out), HostSolo(c, after.(out := []), rest));
  }

  /** A wait of the session is a stretch of the machine's run. */
  lemma {:induction false} SoloWaits(c: Config, h: Host, s: seq<byte>)
    requires PlanCanBeSent(c) && HostWaits(h.pc) && h.out == []
    ensures WellBehaved(HostWaitsFor(h.pc))
    ensures HostSolo(c, h, s) == AfterWait(c, h, Drive(HostWaitsFor(h.pc), s))
    decreases |s|
  {
    HostWaitIsWellBehaved(h.pc);
    SoloReceives(c, h, s);
    var w, next := HostWaitsFor(h.pc), NextMessage(s);
    hide NextMessage, EncodeMessage, PlanCanBeSent, HostWaitsFor, HostSolo, HostContinue, React, WellBehaved;
    if next.message.Ok? {
      var m := next.message.value;
      RepliesAreSendable(w, m);
      var r := React(w, m);
      assert Drive(w, s) == AfterReaction(w, r, next.rest);
      match r {
        case Answer(reply) =>
          OneReply(reply);
          FlushFirst(c, h.(out := [reply]), next.rest);
          assert h.(out := [reply]).(out := []) == h && h.out + [reply] == [reply];
          SoloWaits(c, h, next.rest);
          AnsweredWait(c, h, EncodeMessage(reply), Drive(w, next.rest));
        case Finish(v, replies) =>
          assert h.out + replies == replies;
          FinishedWait(c, h, v, replies, next.rest);
        case Abort(_, _) =>
          SoloStops(c, h.(pc := HostFailed), next.rest);
      }
    }
  }

  lemma SoloStops(c: Config, h: Host, s: seq<byte>)
    requires PlanCanBeSent(c) && h.out == [] && !HostWaits(h.pc)
    ensures HostSolo(c, h, s) == HostEnd(h, s, [])
  {
    assert h.(out := []) == h;
  }

  lemma AnsweredWait(c: Config, h: Host, answer: seq<byte>, o: Outcome)
    requires PlanCanBeSent(c) && h.out == []
    ensures AfterWait(c, h, o.(written := answer + o.written)) == Behind(answer, AfterWait(c, h, o))
  {
    hide HostSolo, HostContinue;
    if o.result.Ok? {
      ContinueAppends(c, h, o.result.value);
      BehindTwice(answer, o.written, HostSolo(c, HostContinue(c, h, o.result.value), o.rest));
    }
  }

  // ---------- a call is a stretch of the run ----------

  /** The end of the run seen from a session that has read and written this far. */
  ghost function Destiny(c: Config, h: Host, st: SessionState): HostEnd
    requires PlanCanBeSent(c) && AllSendable(h.out)
  {
    Behind(st.output, HostSolo(c, h, st.input))
  }

  /** A wait of the session brings the machine to what it does with the outcome. */
  lemma WaitKeepsDestiny(c: Config, h: Host, st: SessionState)
    requires PlanCanBeSent(c) && HostWaits(h.pc) && h.out == []
    ensures WellBehaved(HostWaitsFor(h.pc))
    ensures var co := Await(st, HostWaitsFor(h.pc));
            co.result.Err? ==> Destiny(c, h, st) == Destiny(c, h.(pc := HostFailed), co.after)
    ensures var co := Await(st, HostWaitsFor(h.pc));
            co.result.Ok? ==>
              && RightKind(HostWaitsFor(h.pc), co.result.value)
              && co.after.nextSystemBytes == st.nextSystemBytes
              && co.after.state == (if h.pc.Selecting? then SessionSelected else st.state)
              && AllSendable(HostContinue(c, h, co.result.value).out)
              && Destiny(c, h, st) == Destiny(c, HostContinue(c, h, co.result.value), co.after)
  {
    SoloWaits(c, h, st.input);
    WaitGivesItsKind(HostWaitsFor(h.pc), st.input);
    hide HostSolo, Drive, HostContinue, HostWaitsFor, PlanCanBeSent, WellBehaved;
    var o := Drive(HostWaitsFor(h.pc), st.input);
    if o.result.Ok? {
      ContinueAppends(c, h, o.result.value);
      BehindTwice(st.output, o.written, HostSolo(c, HostContinue(c, h, o.result.value), o.rest));
    } else {
      SoloStops(c, h.(pc := HostFailed), o.rest);
    }
  }

  /** Sending what is pending brings it from the machine to the output. */
  lemma SendKeepsDestiny(c: Config, h: Host, m: Message, st: SessionState)
    requires PlanCanBeSent(c) && Sendable(m) && h.out == [m]
    ensures Destiny(c, h, st) == Destiny(c, h.(out := []), st.(output := st.output + EncodeMessage(m)))
  {
    hide HostSolo, EncodeMessage, PlanCanBeSent, Sendable;
    FlushFirst(c, h, st.input);
    OneReply(m);
    BehindTwice(st.output, EncodeMessage(m), HostSolo(c, h.(out := []), st.input));
  }

  /** A transaction: the primary goes out, and the machine takes up the reply. */
  lemma TransactKeepsDestiny(c: Config, h: Host, st: SessionState, stream: byte, f: byte, body: Item, pc: HostPc)
    requires PlanCanBeSent(c) && h.out == [] && st.nextSystemBytes == h.nextSb && st.state == SessionSelected
    requires Encodable(body) && f < 255 && HostWaits(pc) && HostWaitsFor(pc) == ForReply(h.nextSb, f + 1)
    ensures var sent := HostSend(c, h, stream, f, body, pc);
            var co := Invoke(st, c.hostSession, Call.Transact(stream, f, Some(body)));
            co.result.Err? ==>
              AllSendable(sent.out) && Destiny(c, sent, st) == Destiny(c, sent.(out := [], pc := HostFailed), co.after)
    ensures var sent := HostSend(c, h, stream, f, body, pc);
            var co := Invoke(st, c.hostSession, Call.Transact(stream, f, Some(body)));
            co.result.Ok? ==>
              && AllSendable(sent.out) && co.result.value.Reply?
              && co.after.nextSystemBytes == sent.nextSb && co.after.state == SessionSelected
              && AllSendable(HostContinue(c, sent.(out := []), co.result.value).out)
              && Destiny(c, sent, st) == Destiny(c, HostContinue(c, sent.(out := []), co.result.value), co.after)
  {
    hide Destiny, HostContinue, Encodable, EncodeMessage, PlanCanBeSent, Drive, HostWaitsFor;
    var sent := HostSend(c, h, stream, f, body, pc);
    var m := Data(c.hostSession, stream, f, true, h.nextSb, Some(body));
    assert sent.out == [m];
    SendKeepsDestiny(c, sent, m, st);
    var after := Send(st, m);
    assert Destiny(c, sent.(out := []), st.(output := st.output + EncodeMessage(m))) == Destiny(c, sent.(out := []), after)
      by { SameDestiny(c, sent.(out := []), st.(output := st.output + EncodeMessage(m)), after); }
    WaitKeepsDestiny(c, sent.(out := []), after);
  }

  lemma SameDestiny(c: Config, h: Host, a: SessionState, b: SessionState)
    requires PlanCanBeSent(c) && AllSendable(h.out) && a.input == b.input && a.output == b.output
    ensures Destiny(c, h, a) == Destiny(c, h, b)
  {
  }

  /** The request is the first thing a transaction writes. */
  lemma TransactWrites(st: SessionState, sessionId: u16, stream: byte, f: byte, body: Item)
    requires st.state == SessionSelected && f < 255 && Encodable(body)
    ensures var m := Data(sessionId, stream, f, true, st.nextSystemBytes, Some(body));
            st.output + EncodeMessage(m) <= Invoke(st, sessionId, Call.Transact(stream, f, Some(body))).after.output
  {
    hide EncodeMessage, Drive, Encodable;
  }

  // ---------- the object ----------

  datatype AssemblyError =
    | Comm(error: SecsError)
    | CommandRejected(siteId: Text, hcack: byte)
    | MalformedEvent(siteId: Text)

  method FindReport(site: Text, reports: seq<Report>) returns (r: Result<Option<Point>, AssemblyError>)
    ensures match ScanReports(site, reports)
            case Found(p) => r == Ok(Some(p))
            case Absent => r == Ok(None)
            case Malformed => r == Err(MalformedEvent(site))
  {
    for i := 0 to |reports|
      invariant ScanReports(site, reports) == ScanReports(site, reports[i..])
    {
      assert reports[i..][0] == reports[i] && reports[i..][1..] == reports[i + 1..];
      var v := reports[i].variables;
      if |v| != 3 || AsAscii(v[0]).None? {
        return Err(MalformedEvent(site));
      }
      if AsAscii(v[0]).value == site {
        if AsU4(v[1]).None? || AsU4(v[2]).None? {
          return Err(MalformedEvent(site));
        }
        return Ok(Some(Point(AsU4(v[1]).value, AsU4(v[2]).value)));
      }
    }
    return Ok(None);
  }

  class AssemblyHost {
    const session: HsmsSession

    /** The session stands where the machine, in a state like `h`, says it stands. */
    ghost predicate Ready(c: Config, h: Host)
      reads this, session, session.inp, session.outp
    {
      && session.Valid() && session.sessionId == c.hostSession && session.state == SessionSelected
      && h.out == [] && session.nextSystemBytes == h.nextSb
    }

    constructor (session: HsmsSession)
      ensures this.session == session
    {
      this.session := session;
    }

    /** Wait for the event of one site, acknowledging every primary meanwhile. */
    method AwaitPlacementEvent(siteId: Text, ghost c: Config, ghost h: Host, ghost index: nat)
      returns (r: Result<Point, AssemblyError>)
      requires PlanCanBeSent(c) && index < |c.hostPlan| && c.hostPlan[index].siteId == siteId
      requires Ready(c, h) && h.pc == Collecting(index)
      modifies session, session.inp, session.outp
      ensures session.Valid() && old(session.outp.Stream()) <= session.outp.Stream()
      ensures r.Ok? ==>
        var next := HostNext(c, h.(records := h.records + [RecordOf(c, c.hostPlan[index], r.value)]), index + 1);
        Ready(c, h) && AllSendable(next.out) && old(Destiny(c, h, session.Abs())) == Destiny(c, next, session.Abs())
      ensures r.Err? ==> old(Destiny(c, h, session.Abs())) == Destiny(c, h.(pc := HostFailed), session.Abs())
      ensures r.Err? && !r.error.Comm? ==> r.error == MalformedEvent(siteId)
    {
      hide Destiny, HostNext, Drive, ScanReports, ParseS6F11, RecordOf, PlanCanBeSent;
      ghost var d := Destiny(c, h, session.Abs());
      HostRepliesCanBeSent();
      while true
        invariant Ready(c, h) && d == Destiny(c, h, session.Abs())
        invariant old(session.outp.Stream()) <= session.outp.Stream()
        decreases |session.inp.Stream()|
      {
        ghost var st := session.Abs();
        WaitKeepsDestiny(c, h, st);
        WaitUsesInput(HostWaitsFor(h.pc), st.input);
        var served := session.ServeOne(HostReply());
        if served.Err? {
          return Err(Comm(served.error));
        }
        var p := served.value;
        assert HostContinue(c, h, p) == HostCollect(c, h, index, p);
        if p.stream == 6 && p.function_ == 11 {
          if p.body.None? {
            return Err(Comm(MissingDataBody(6, 11)));
          }
          var event := ParseS6F11(p.body.value);
          if event.Err? {
            return Err(Comm(event.error));
          }
          if event.value.ceid == CEID_PLACEMENT_DONE {
            var found := FindReport(siteId, event.value.reports);
            if found.Err? {
              return Err(found.error);
            }
            if found.value.Some? {
              return Ok(found.value.value);
            }
          }
        }
      }
    }

    /** One host command, its acknowledge, and the event that reports where the chiplet went. */
    method Place(technique: Technique, command: Command, ghost c: Config, ghost h: Host, ghost index: nat)
      returns (r: Result<Point, AssemblyError>)
      requires PlanCanBeSent(c) && c.hostTechnique == technique
      requires index < |c.hostPlan| && c.hostPlan[index] == command && Ready(c, h)
      modifies session, session.inp, session.outp
      ensures session.Valid() && AllSendable(HostNext(c, h, index).out)
      ensures exists body :: OrdersPlacement(body, technique, command) && Encodable(body) &&
                old(session.outp.Stream()) + EncodeMessage(Data(c.hostSession, 2, 41, true, h.nextSb, Some(body)))
                <= session.outp.Stream()
      ensures r.Ok? ==>
        var placed := h.(nextSb := session.nextSystemBytes, records := h.records + [RecordOf(c, command, r.value)]);
        && Ready(c, placed) && AllSendable(HostNext(c, placed, index + 1).out)
        && old(Destiny(c, HostNext(c, h, index), session.Abs()))
           == Destiny(c, HostNext(c, placed, index + 1), session.Abs())
      ensures r.Err? ==>
        var failed := h.(pc := HostFailed, nextSb := (h.nextSb + 1) % TWO32);
        old(Destiny(c, HostNext(c, h, index), session.Abs())) == Destiny(c, failed, session.Abs())
      ensures r.Err? && !r.error.Comm? ==>
        r.error.siteId == command.siteId && (r.error.CommandRejected? ==> r.error.hcack != 0)
    {
      hide Destiny, Drive, CommandBody, RecordOf, Encodable, FirstByte, Invoke, OrdersPlacement, EncodeMessage,
           ParseS2F41, IsU4Item;
      CommandBodyOrders(technique, command);
      var body := CommandBody(technique, command);
      ghost var st, pc := session.Abs(), Commanding(index, h.nextSb);
      ghost var sent := HostNext(c, h, index);
      assert sent == HostSend(c, h, 2, 41, body, pc);
      TransactKeepsDestiny(c, h, st, 2, 41, body, pc);
      TransactWrites(st, c.hostSession, 2, 41, body);
      var acknowledged := session.Transact(2, 41, Some(body));
      if acknowledged.Err? {
        return Err(Comm(acknowledged.error));
      }
      var reply := acknowledged.value;
      if reply.function_ != 42 {
        return Err(Comm(UnexpectedStreamFunction(2, reply.function_)));
      }
      var hcack := if FirstByte(reply.body).Some? then FirstByte(reply.body).value else 1;
      if hcack != HCACK_OK {
        return Err(CommandRejected(command.siteId, hcack));
      }
      ghost var collecting := sent.(out := [], pc := Collecting(index));
      assert HostContinue(c, sent.(out := []), reply) == collecting;
      r := AwaitPlacementEvent(command.siteId, c, collecting, index);
    }

    /** `execute_plan`: the commands in order, one record each. */
    method ExecutePlan(technique: Technique, plan: seq<Command>, ghost c: Config, ghost h: Host)
      returns (r: Result<seq<Record>, AssemblyError>)
      requires PlanCanBeSent(c) && c.hostTechnique == technique && c.hostPlan == plan && Ready(c, h) && h.records == []
      modifies session, session.inp, session.outp
      ensures session.Valid() && AllSendable(HostNext(c, h, 0).out)
      ensures var e := old(Destiny(c, HostNext(c, h, 0), session.Abs()));
              && e.rest == session.inp.Stream() && e.written == session.outp.Stream()
              && (if r.Ok? then e.host.pc == HostDone && e.host.records == r.value else e.host.pc == HostFailed)
    {
      hide Destiny, HostNext, RecordOf, PlanCanBeSent, OrdersPlacement, EncodeMessage, Encodable, Sendable;
      NextIsSendable(c, h, 0);
      var records: seq<Record> := [];
      ghost var d := Destiny(c, HostNext(c, h, 0), session.Abs());
      assert h.(nextSb := session.nextSystemBytes, records := records) == h;
      for i := 0 to |plan|
        invariant session.Valid()
        invariant Ready(c, h.(nextSb := session.nextSystemBytes, records := records))
        invariant AllSendable(HostNext(c, h.(nextSb := session.nextSystemBytes, records := records), i).out)
        invariant d == Destiny(c, HostNext(c, h.(nextSb := session.nextSystemBytes, records := records), i), session.Abs())
      {
        var command := plan[i];
        ghost var now := h.(nextSb := session.nextSystemBytes, records := records);
        var placed := Place(technique, command, c, now, i);
        if placed.Err? {
          EndOfDestiny(c, now.(pc := HostFailed, nextSb := (now.nextSb + 1) % TWO32), session.Abs());
          return Err(placed.error);
        }
        assert RecordOf(c, command, placed.value)
            == Record(command.siteId, command.chipletId, technique, command.target, placed.value, command.orientation) by {
          RecordIs(c, command, placed.value);
        }
        records := records + [Record(command.siteId, command.chipletId, technique, command.target, placed.value,
                                     command.orientation)];
      }
      PlanIsDone(c, h.(nextSb := session.nextSystemBytes, records := records));
      EndOfDestiny(c, HostNext(c, h.(nextSb := session.nextSystemBytes, records := records), |plan|), session.Abs());
      return Ok(records);
    }
  }

  /** What a fresh host does first: select, then wait. */
  lemma SelectKeepsDestiny(c: Config, st: SessionState)
    requires PlanCanBeSent(c) && st.nextSystemBytes == 1
    ensures AllSendable(HostStart().out)
    ensures var co := Invoke(st, c.hostSession, Call.Select); var waiting := HostStart().(out := []);
            co.result.Err? ==> Destiny(c, HostStart(), st) == Destiny(c, waiting.(pc := HostFailed), co.after)
    ensures var co := Invoke(st, c.hostSession, Call.Select); var waiting := HostStart().(out := []);
            co.result.Ok? ==>
              && co.result.value.Established? && co.after.state == SessionSelected && co.after.nextSystemBytes == 2
              && AllSendable(HostContinue(c, waiting, co.result.value).out)
              && Destiny(c, HostStart(), st) == Destiny(c, HostContinue(c, waiting, co.result.value), co.after)
  {
    hide Destiny, HostContinue, EncodeMessage, PlanCanBeSent, Drive;
    var h, m := HostStart(), SelectReq(1);
    SendKeepsDestiny(c, h, m, st);
    SameDestiny(c, h.(out := []), st.(output := st.output + EncodeMessage(m)), Send(st, m));
    WaitKeepsDestiny(c, h.(out := []), Send(st, m));
  }

  /** `AssemblyHost::connect`: select, identify, establish communications. */
  method Connect(inp: Pipe, outp: Pipe, sessionId: u16, ghost c: Config) returns (r: Result<AssemblyHost, SecsError>)
    requires inp != outp && inp.Valid() && outp.Valid() && outp.inFlight == [] && !outp.closed
    requires PlanCanBeSent(c) && c.hostSession == sessionId
    modifies inp, outp
    ensures AllSendable(HostStart().out)
    ensures r.Ok? ==>
      var session := r.value.session; var h := Host(Selecting, [], session.nextSystemBytes, []);
      && fresh(r.value) && fresh(session) && session.inp == inp && session.outp == outp && r.value.Ready(c, h)
      && AllSendable(HostNext(c, h, 0).out)
      && Behind(old(outp.Stream()), HostSolo(c, HostStart(), old(inp.Stream())))
         == Destiny(c, HostNext(c, h, 0), session.Abs())
    ensures r.Err? ==>
      var e := Behind(old(outp.Stream()), HostSolo(c, HostStart(), old(inp.Stream())));
      e.host.pc == HostFailed && e.rest == inp.Stream() && e.written == outp.Stream()
  {
    hide Drive, Encodable, Invoke, HostSolo, CommandBody, ParseOnlineData, ParseCommAck;
    EmptyListIsEncodable();
    ghost var s0, o0 := inp.Stream(), outp.Stream();
    var session := new HsmsSession(inp, outp, sessionId);
    SelectKeepsDestiny(c, session.Abs());
    var selected := session.Select();
    ghost var h1 := HostStart().(out := []);
    if selected.Err? {
      EndOfDestiny(c, h1.(pc := HostFailed), session.Abs());
      return Err(selected.error);
    }
    TransactKeepsDestiny(c, h1, session.Abs(), 1, 1, List([]), Identifying(h1.nextSb));
    ghost var h2 := HostSend(c, h1, 1, 1, List([]), Identifying(h1.nextSb)).(out := []);
    var identity := session.Transact(1, 1, Some(List([])));
    if identity.Err? {
      EndOfDestiny(c, h2.(pc := HostFailed), session.Abs());
      return Err(identity.error);
    }
    var online := ParseOnlineData(identity.value.body);
    if online.Err? || online.value.0 == [] {
      EndOfDestiny(c, h2.(pc := HostFailed), session.Abs());
      return Err(if online.Err? then online.error else SecsError.Gem("equipment reported empty model number"));
    }
    TransactKeepsDestiny(c, h2, session.Abs(), 1, 13, List([]), Establishing(h2.nextSb));
    ghost var h3 := HostSend(c, h2, 1, 13, List([]), Establishing(h2.nextSb)).(out := []);
    var established := session.Transact(1, 13, Some(List([])));
    if established.Err? {
      EndOfDestiny(c, h3.(pc := HostFailed), session.Abs());
      return Err(established.error);
    }
    var accepted := ParseCommAck(established.value.body);
    if accepted != Ok(true) {
      EndOfDestiny(c, h3.(pc := HostFailed), session.Abs());
      return Err(if accepted.Err? then accepted.error
                 else SecsError.Gem("equipment refused to establish communications"));
    }
    NextIsSendable(c, Host(Selecting, [], session.nextSystemBytes, []), 0);
    assert HostContinue(c, h3, established.value) == HostNext(c, Host(Selecting, [], session.nextSystemBytes, []), 0);
    var host := new AssemblyHost(session);
    return Ok(host);
  }

  /**
   The whole host: whatever the equipment sends, it returns its records exactly when the machine is
   done, with the machine's records, having written and read exactly what the machine does.
   */
  method RunHost(inp: Pipe, outp: Pipe, sessionId: u16, technique: Technique, plan: seq<Command>, ghost c: Config)
    returns (r: Result<seq<Record>, AssemblyError>)
    requires inp != outp && inp.Valid() && outp.Valid() && outp.inFlight == [] && !outp.closed
    requires PlanCanBeSent(c) && c.hostSession == sessionId && c.hostTechnique == technique && c.hostPlan == plan
    modifies inp, outp
    ensures AllSendable(HostStart().out)
    ensures var e := HostSolo(c, HostStart(), old(inp.Stream()));
            && inp.Stream() == e.rest && outp.Stream() == old(outp.Stream()) + e.written
            && (if r.Ok? then e.host.pc == HostDone && e.host.records == r.value else e.host.pc == HostFailed)
  {
    hide HostSolo, PlanCanBeSent, HostNext;
    var connected := Connect(inp, outp, sessionId, c);
    if connected.Err? {
      return Err(Comm(connected.error));
    }
    var host := connected.value;
    r := host.ExecutePlan(technique, plan, c, Host(Selecting, [], host.session.nextSystemBytes, []));
  }

  lemma RecordIs(c: Config, command: Command, placed: Point)
    ensures RecordOf(c, command, placed)
         == Record(command.siteId, command.chipletId, c.hostTechnique, command.target, placed, command.orientation)
  {
  }

  lemma NextIsSendable(c: Config, h: Host, index: nat)
    requires PlanCanBeSent(c) && h.out == []
    ensures AllSendable(HostNext(c, h, index).out)
  {
    hide Encodable, CommandBody;
  }

  lemma PlanIsDone(c: Config, h: Host)
    requires h.out == []
    ensures var done := HostNext(c, h, |c.hostPlan|); done == h.(pc := HostDone) && done.out == []
  {
  }

  lemma EndOfDestiny(c: Config, h: Host, st: SessionState)
    requires PlanCanBeSent(c) && h.out == [] && !HostWaits(h.pc)
    ensures Destiny(c, h, st) == HostEnd(h, st.input, st.output)
  {
    hide HostSolo, PlanCanBeSent;
    SoloStops(c, h, st.input);
    assert st.output + [] == st.output;
  }
}
