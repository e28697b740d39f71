/**
 The equipment as the program it is: `AssemblyEquipment::run` over an HSMS session. Whatever bytes
 come in, it writes what the equipment machine of `AssemblyRun` writes and ends as that machine ends.
 */
module AssemblyEquipmentObject {
  import opened Outcomes
  import opened Bytes
  import opened Utf8
  import opened SecsItem
  import opened Hsms
  import opened Transport
  import opened Session
  import opened Gem
  import opened Layout
  import opened AssemblyRun
  import opened SessionWaits

  // ---------- the machine on its own ----------

  /** Model and revision are strings that can be encoded, and so is every event of the plan. */
  ghost predicate EventsCanBeSent(c: Config)
  {
    && WellFormed(c)
    && RepliesEncodable(EquipResponder(c))
    && forall k :: 0 <= k < |c.equipPlan| ==> Encodable(EventBody(c, k))
  }

  datatype EquipEnd = EquipEnd(equip: Equip, rest: seq<byte>, written: seq<byte>)

  /** What follows a wait adds at most one message, and that does not depend on what was pending. */
  lemma ContinueAppends(c: Config, e: Equip, v: Value)
    requires EventsCanBeSent(c) && AllSendable(e.out)
    ensures var idle := EquipContinue(c, e.(out := []), v);
            && AllSendable(idle.out)
            && EquipContinue(c, e, v) == idle.(out := e.out + idle.out)
            && AllSendable(e.out + idle.out)
  {
    hide Encodable, EventBody, ParseS2F41, FirstByte, RepliesEncodable;
    assert e.out + [] == e.out;
  }

  /** The equipment machine run to its end on the bytes `s`, with nothing else to come. */
  ghost function EquipSolo(c: Config, e: Equip, s: seq<byte>): EquipEnd
    requires EventsCanBeSent(c) && AllSendable(e.out)
    decreases |s|
  {
    var idle, written := e.(out := []), EncodeReplies(e.out);
    if !EquipWaits(e.pc) then EquipEnd(idle, s, written)
    else
      var next := NextMessage(s);
      match next.message
      case Err(_) => EquipEnd(idle.(pc := EquipFailed), next.rest, written)
      case Ok(m) =>
        ReceiveIsSendable(c, idle, m);
        var later := EquipSolo(c, EquipReceive(c, idle, m), next.rest);
        later.(written := written + later.written)
  }

  lemma EquipWaitIsWellBehaved(c: Config, pc: EquipPc)
    requires EventsCanBeSent(c) && EquipWaits(pc)
    ensures WellBehaved(EquipWaitsFor(c, pc))
  {
    hide RepliesEncodable;
  }

  lemma ReceiveIsSendable(c: Config, e: Equip, m: Message)
    requires EventsCanBeSent(c) && EquipWaits(e.pc) && e.out == []
    ensures AllSendable(EquipReceive(c, e, m).out)
  {
    EquipWaitIsWellBehaved(c, e.pc);
    hide EquipContinue, React, EquipWaitsFor, RepliesEncodable, Encodable, WellBehaved;
    var w := EquipWaitsFor(c, e.pc);
    RepliesAreSendable(w, m);
    var r := React(w, m);
    if r.Finish? {
      ContinueAppends(c, e.(out := r.replies), r.value);
      assert e.out + r.replies == r.replies;
    }
  }

  /** Pending messages are written first; nothing else depends on them. */
  lemma FlushFirst(c: Config, e: Equip, s: seq<byte>)
    requires EventsCanBeSent(c) && AllSendable(e.out)
    ensures var idle := EquipSolo(c, e.(out := []), s);
            EquipSolo(c, e, s) == idle.(written := EncodeReplies(e.out) + idle.written)
  {
    hide NextMessage, EquipReceive, EncodeMessage, RepliesEncodable, Encodable, EventBody;
    var idle := e.(out := []);
    assert EncodeReplies(idle.out) == [];
    assert idle.(out := []) == idle;
    assert EncodeReplies(e.out) + [] == EncodeReplies(e.out);
    if EquipWaits(e.pc) && NextMessage(s).message.Ok? {
      var m := NextMessage(s).message.value;
      ReceiveIsSendable(c, idle, m);
      var later := EquipSolo(c, EquipReceive(c, idle, m), NextMessage(s).rest);
      assert [] + later.written == later.written;
    }
  }

  /** `e`, with bytes written before it. */
  function Behind(written: seq<byte>, e: EquipEnd): EquipEnd
  {
    e.(written := written + e.written)
  }

  lemma BehindTwice(a: seq<byte>, b: seq<byte>, e: EquipEnd)
    ensures Behind(a + b, e) == Behind(a, Behind(b, e))
  {
    Associates(a, b, e.written);
  }

  /** Where the machine gets from a wait that ends with `o`. */
  ghost function AfterWait(c: Config, e: Equip, o: Outcome): EquipEnd
    requires EventsCanBeSent(c) && e.out == []
  {
    match o.result
    case Err(_) => EquipEnd(e.(pc := EquipFailed), o.rest, o.written)
    case Ok(v) =>
      ContinueAppends(c, e, v);
      Behind(o.written, EquipSolo(c, EquipContinue(c, e, v), o.rest))
  }

  lemma SoloReceives(c: Config, e: Equip, s: seq<byte>)
    requires EventsCanBeSent(c) && EquipWaits(e.pc) && e.out == []
    ensures WellBehaved(EquipWaitsFor(c, e.pc))
    ensures var next := NextMessage(s);
            next.message.Err? ==> EquipSolo(c, e, s) == EquipEnd(e.(pc := EquipFailed), next.rest, [])
    ensures var next := NextMessage(s);
            next.message.Ok? ==>
              && AllSendable(EquipReceive(c, e, next.message.value).out)
              && EquipSolo(c, e, s) == EquipSolo(c, EquipReceive(c, e, next.message.value), next.rest)
  {
    EquipWaitIsWellBehaved(c, e.pc);
    hide NextMessage, EquipReceive, EncodeMessage, RepliesEncodable, Encodable, EventBody, EquipWaitsFor;
    assert e.(out := []) == e;
    if NextMessage(s).message.Ok? {
      var m := NextMessage(s).message.value;
      ReceiveIsSendable(c, e, m);
      var later := EquipSolo(c, EquipReceive(c, e, m), NextMessage(s).rest);
      assert [] + later.written == later.written;
    }
  }

  lemma FinishedWait(c: Config, e: Equip, v: Value, replies: seq<Message>, rest: seq<byte>)
    requires EventsCanBeSent(c) && e.out == [] && AllSendable(replies)
    ensures AllSendable(EquipContinue(c, e.(out := replies), v).out) && AllSendable(EquipContinue(c, e, v).out)
    ensures EquipSolo(c, EquipContinue(c, e.(out := replies), v), rest)
         == Behind(EncodeReplies(replies), EquipSolo(c, EquipContinue(c, e, v), rest))
  {
    hide EquipContinue, EquipSolo, EncodeReplies, RepliesEncodable, Encodable, EventBody;
    var pending := e.(out := replies);
    assert pending.(out := []) == e;
    ContinueAppends(c, pending, v);
    var after := EquipContinue(c, e, v);
    AppendSendable(replies, after.out);
    FlushFirst(c, after, rest);
    FlushFirst(c, after.(out := replies + after.out), rest);
    BehindTwice(EncodeReplies(replies), EncodeReplies(after.out), EquipSolo(c, after.(out := []), rest));
  }

  lemma SoloStops(c: Config, e: Equip, s: seq<byte>)
    requires EventsCanBeSent(c) && e.out == [] && !EquipWaits(e.pc)
    ensures EquipSolo(c, e, s) == EquipEnd(e, s, [])
  {
    assert e.(out := []) == e;
  }

  lemma AnsweredWait(c: Config, e: Equip, answer: seq<byte>, o: Outcome)
    requires EventsCanBeSent(c) && e.out == []
    ensures AfterWait(c, e, o.(written := answer + o.written)) == Behind(answer, AfterWait(c, e, o))
  {
    hide EquipSolo, EquipContinue;
    if o.result.Ok? {
      ContinueAppends(c, e, o.result.value);
      BehindTwice(answer, o.written, EquipSolo(c, EquipContinue(c, e, o.result.value), o.rest));
    }
  }

  /** A wait of the session is a stretch of the machine's run. */
  lemma {:induction false} SoloWaits(c: Config, e: Equip, s: seq<byte>)
    requires EventsCanBeSent(c) && EquipWaits(e.pc) && e.out == []
    ensures WellBehaved(EquipWaitsFor(c, e.pc))
    ensures EquipSolo(c, e, s) == AfterWait(c, e, Drive(EquipWaitsFor(c, e.pc), s))
    decreases |s|
  {
    EquipWaitIsWellBehaved(c, e.pc);
    SoloReceives(c, e, s);
    var w, next := EquipWaitsFor(c, e.pc), NextMessage(s);
    hide NextMessage, EncodeMessage, EquipWaitsFor, EquipSolo, EquipContinue, React, WellBehaved,
         RepliesEncodable, Encodable;
    if next.message.Ok? {
      var m := next.message.value;
      RepliesAreSendable(w, m);
      var r := React(w, m);
      assert Drive(w, s) == AfterReaction(w, r, next.rest);
      match r {
        case Answer(reply) =>
          OneReply(reply);
          FlushFirst(c, e.(out := [reply]), next.rest);
          assert e.(out := [reply]).(out := []) == e && e.out + [reply] == [reply];
          SoloWaits(c, e, next.rest);
          AnsweredWait(c, e, EncodeMessage(reply), Drive(w, next.rest));
        case Finish(v, replies) =>
          assert e.out + replies == replies;
          FinishedWait(c, e, v, replies, next.rest);
        case Abort(_, _) =>
          SoloStops(c, e.(pc := EquipFailed), next.rest);
      }
    }
  }

  // ---------- a call is a stretch of the run ----------

  /** The end of the run seen from a session that has read and written this far. */
  ghost function Destiny(c: Config, e: Equip, st: SessionState): EquipEnd
    requires EventsCanBeSent(c) && AllSendable(e.out)
  {
    Behind(st.output, EquipSolo(c, e, st.input))
  }

  /** A wait of the session brings the machine to what it does with the outcome. */
  lemma WaitKeepsDestiny(c: Config, e: Equip, st: SessionState)
    requires EventsCanBeSent(c) && EquipWaits(e.pc) && e.out == []
    ensures WellBehaved(EquipWaitsFor(c, e.pc))
    ensures var co := Await(st, EquipWaitsFor(c, e.pc));
            co.result.Err? ==> Destiny(c, e, st) == Destiny(c, e.(pc := EquipFailed), co.after)
    ensures var co := Await(st, EquipWaitsFor(c, e.pc));
            co.result.Ok? ==>
              && RightKind(EquipWaitsFor(c, e.pc), co.result.value)
              && co.after.nextSystemBytes == st.nextSystemBytes
              && co.after.state == (if e.pc.AwaitingSelect? then SessionSelected else st.state)
              && AllSendable(EquipContinue(c, e, co.result.value).out)
              && Destiny(c, e, st) == Destiny(c, EquipContinue(c, e, co.result.value), co.after)
  {
    SoloWaits(c, e, st.input);
    WaitGivesItsKind(EquipWaitsFor(c, e.pc), st.input);
    hide EquipSolo, Drive, EquipContinue, WellBehaved, RepliesEncodable, Encodable;
    var o := Drive(EquipWaitsFor(c, e.pc), st.input);
    if o.result.Ok? {
      ContinueAppends(c, e, o.result.value);
      BehindTwice(st.output, o.written, EquipSolo(c, EquipContinue(c, e, o.result.value), o.rest));
    } else {
      SoloStops(c, e.(pc := EquipFailed), o.rest);
    }
  }

  /** Sending what is pending brings it from the machine to the output. */
  lemma SendKeepsDestiny(c: Config, e: Equip, m: Message, a: SessionState, b: SessionState)
    requires EventsCanBeSent(c) && Sendable(m) && e.out == [m]
    requires b.input == a.input && b.output == a.output + EncodeMessage(m)
    ensures Destiny(c, e, a) == Destiny(c, e.(out := []), b)
  {
    hide EquipSolo, EncodeMessage, RepliesEncodable, Encodable, EventBody, Sendable;
    FlushFirst(c, e, a.input);
    OneReply(m);
    BehindTwice(a.output, EncodeMessage(m), EquipSolo(c, e.(out := []), a.input));
  }

  lemma EndOfDestiny(c: Config, e: Equip, st: SessionState)
    requires EventsCanBeSent(c) && e.out == [] && !EquipWaits(e.pc)
    ensures Destiny(c, e, st) == EquipEnd(e, st.input, st.output)
  {
    hide EquipSolo, EventsCanBeSent;
    SoloStops(c, e, st.input);
    assert st.output + [] == st.output;
  }

  // ---------- the object ----------

  /** `EquipmentGem`: the session, and what its answers are made of. */
  class EquipmentGem {
    const session: HsmsSession
    const modelName: Text
    const softRev: Text

    constructor (session: HsmsSession, modelName: Text, softRev: Text)
      ensures this.session == session && this.modelName == modelName && this.softRev == softRev
    {
      this.session, this.modelName, this.softRev := session, modelName, softRev;
    }

    /** The session stands where the machine, in a state like `e`, says it stands. */
    ghost predicate Ready(c: Config, e: Equip)
      reads this, session, session.inp, session.outp
    {
      && session.Valid() && session.sessionId == c.equipSession && session.state == SessionSelected
      && modelName == ModelName(c.equipTechnique) && softRev == c.softRev
      && e.out == [] && session.nextSystemBytes == e.nextSb
    }

    /** Serve one primary, with the standard answers. */
    method ServeOne(ghost c: Config, ghost e: Equip) returns (r: Result<Value, SecsError>)
      requires EventsCanBeSent(c) && Ready(c, e) && EquipWaits(e.pc)
      requires EquipWaitsFor(c, e.pc) == ForPrimary(EquipResponder(c))
      modifies session, session.inp, session.outp
      ensures session.Valid()
      ensures r.Ok? ==>
        && Ready(c, e) && r.value.Primary? && AllSendable(EquipContinue(c, e, r.value).out)
        && old(Destiny(c, e, session.Abs())) == Destiny(c, EquipContinue(c, e, r.value), session.Abs())
      ensures r.Err? ==> old(Destiny(c, e, session.Abs())) == Destiny(c, e.(pc := EquipFailed), session.Abs())
    {
      hide Destiny, EquipContinue, Drive, RepliesEncodable, Encodable, EventBody;
      WaitKeepsDestiny(c, e, session.Abs());
      r := session.ServeOne(EquipmentReply(modelName, softRev));
    }

    /** Send an event report and take its acknowledge. */
    method SendEventReport(body: Item, ghost c: Config, ghost e: Equip, ghost index: nat) returns (r: Result<(), SecsError>)
      requires EventsCanBeSent(c) && Ready(c, e) && index < |c.equipPlan| && body == EventBody(c, index)
      modifies session, session.inp, session.outp
      ensures session.Valid() && AllSendable(Reported(c, e, index).out)
      ensures r.Ok? ==>
        var next := EquipNext(c, e.(nextSb := session.nextSystemBytes), index + 1);
        && Ready(c, next) && old(Destiny(c, Reported(c, e, index), session.Abs())) == Destiny(c, next, session.Abs())
      ensures r.Err? ==>
        var failed := e.(pc := EquipFailed, nextSb := (e.nextSb + 1) % TWO32);
        old(Destiny(c, Reported(c, e, index), session.Abs())) == Destiny(c, failed, session.Abs())
    {
      hide Destiny, Drive, RepliesEncodable, Encodable, EventBody, FirstByte, EncodeMessage;
      ghost var st, sent := session.Abs(), Reported(c, e, index);
      ghost var m := Data(c.equipSession, 6, 11, true, e.nextSb, Some(body));
      ghost var waiting := sent.(out := []);
      SendKeepsDestiny(c, sent, m, st, Send(st, m));
      WaitKeepsDestiny(c, waiting, Send(st, m));
      var acknowledged := session.Transact(6, 11, Some(body));
      if acknowledged.Err? {
        return Err(acknowledged.error);
      }
      var reply := acknowledged.value;
      if reply.function_ != 12 {
        return Err(UnexpectedStreamFunction(6, reply.function_));
      }
      var dackn := FirstByte(reply.body);
      if dackn.Some? && dackn.value != 0 {
        return Err(SecsError.Gem("host rejected event report"));
      }
      return Ok(());
    }
  }

  /** The machine with the event for command `index` ready to go. */
  function Reported(c: Config, e: Equip, index: nat): Equip
    requires WellFormed(c) && index < |c.equipPlan| && e.out == []
  {
    e.(pc := Reporting(index, e.nextSb), nextSb := (e.nextSb + 1) % TWO32,
       out := [Data(c.equipSession, 6, 11, true, e.nextSb, Some(EventBody(c, index)))])
  }

  /** What a fresh equipment does first: wait to be selected. */
  lemma AcceptKeepsDestiny(c: Config, st: SessionState)
    requires EventsCanBeSent(c) && st.nextSystemBytes == 1
    ensures var co := Invoke(st, c.equipSession, Call.AcceptSelect);
            co.result.Err? ==> Destiny(c, EquipStart(), st) == Destiny(c, EquipStart().(pc := EquipFailed), co.after)
    ensures var co := Invoke(st, c.equipSession, Call.AcceptSelect);
            co.result.Ok? ==>
              && co.after.state == SessionSelected && co.after.nextSystemBytes == 1
              && Destiny(c, EquipStart(), st) == Destiny(c, EquipStart().(pc := Handshaking(0)), co.after)
  {
    hide Destiny, Drive, RepliesEncodable, Encodable, EventBody;
    WaitKeepsDestiny(c, EquipStart(), st);
  }

  /** `run`: be selected, answer twice, then serve and report each command of the plan. */
  method Run(inp: Pipe, outp: Pipe, sessionId: u16, technique: Technique, softRev: Text, commands: seq<Command>,
             jitter: seq<Point>, ghost c: Config) returns (r: Result<(), SecsError>)
    requires inp != outp && inp.Valid() && outp.Valid() && outp.inFlight == [] && !outp.closed
    requires EventsCanBeSent(c) && c.equipSession == sessionId && c.equipTechnique == technique && c.softRev == softRev
    requires c.equipPlan == commands && c.jitter == jitter
    modifies inp, outp
    ensures var e := EquipSolo(c, EquipStart(), old(inp.Stream()));
            && inp.Stream() == e.rest && outp.Stream() == old(outp.Stream()) + e.written
            && e.equip.pc == if r.Ok? then EquipDone else EquipFailed
  {
    hide Destiny, EquipSolo, RepliesEncodable, Encodable, EventBody, Drive;
    var session := new HsmsSession(inp, outp, sessionId);
    ghost var d := Destiny(c, EquipStart(), session.Abs());
    assert d == Behind(old(outp.Stream()), EquipSolo(c, EquipStart(), old(inp.Stream()))) by {
      DestinyIs(c, EquipStart(), session.Abs());
    }
    AcceptKeepsDestiny(c, session.Abs());
    var accepted := session.AcceptSelect();
    if accepted.Err? {
      EndOfDestiny(c, EquipStart().(pc := EquipFailed), session.Abs());
      return Err(accepted.error);
    }
    var gem := new EquipmentGem(session, ModelName(technique), softRev);
    var served := 0;
    while served < 2
      invariant served <= 2
      invariant gem.Ready(c, EquipStart())
      invariant d == Destiny(c, if served < 2 then EquipStart().(pc := Handshaking(served))
                                else EquipNext(c, EquipStart(), 0), session.Abs())
    {
      ghost var now := EquipStart().(pc := Handshaking(served));
      var one := gem.ServeOne(c, now);
      if one.Err? {
        EndOfDestiny(c, now.(pc := EquipFailed), session.Abs());
        return Err(one.error);
      }
      served := served + 1;
    }
    r := RunCommands(gem, technique, commands, jitter, c);
  }

  lemma DestinyIs(c: Config, e: Equip, st: SessionState)
    requires EventsCanBeSent(c) && AllSendable(e.out)
    ensures Destiny(c, e, st) == Behind(st.output, EquipSolo(c, e, st.input))
  {
  }

  /** The loop over the commands. */
  method RunCommands(gem: EquipmentGem, technique: Technique, commands: seq<Command>, jitter: seq<Point>, ghost c: Config)
    returns (r: Result<(), SecsError>)
    requires EventsCanBeSent(c) && gem.Ready(c, EquipStart())
    requires c.equipTechnique == technique && c.equipPlan == commands && c.jitter == jitter
    modifies gem.session, gem.session.inp, gem.session.outp
    ensures gem.session.Valid()
    ensures var e := old(Destiny(c, EquipNext(c, EquipStart(), 0), gem.session.Abs()));
            && e.rest == gem.session.inp.Stream() && e.written == gem.session.outp.Stream()
            && e.equip.pc == if r.Ok? then EquipDone else EquipFailed
  {
    hide Destiny, RepliesEncodable, Encodable, EventBody, ParseS2F41, Rcmd;
    var session := gem.session;
    ghost var d := Destiny(c, EquipNext(c, EquipStart(), 0), session.Abs());
    for index := 0 to |commands|
      invariant gem.Ready(c, EquipNext(c, EquipStart().(nextSb := session.nextSystemBytes), index))
      invariant d == Destiny(c, EquipNext(c, EquipStart().(nextSb := session.nextSystemBytes), index), session.Abs())
    {
      var command := commands[index];
      ghost var now := EquipNext(c, EquipStart().(nextSb := session.nextSystemBytes), index);
      var served := gem.ServeOne(c, now);
      if served.Err? {
        EndOfDestiny(c, now.(pc := EquipFailed), session.Abs());
        return Err(served.error);
      }
      var p := served.value;
      assert EquipContinue(c, now, p) == EquipServe(c, now, index, p);
      if p.stream != 2 || p.function_ != 41 {
        EndOfDestiny(c, now.(pc := EquipFailed), session.Abs());
        return Err(UnexpectedStreamFunction(p.stream, p.function_));
      }
      if p.body.None? {
        EndOfDestiny(c, now.(pc := EquipFailed), session.Abs());
        return Err(MissingDataBody(2, 41));
      }
      var order := ParseS2F41(p.body.value);
      if order.Err? {
        EndOfDestiny(c, now.(pc := EquipFailed), session.Abs());
        return Err(order.error);
      }
      if order.value.rcmd != Rcmd(technique) {
        EndOfDestiny(c, now.(pc := EquipFailed), session.Abs());
        return Err(SecsError.Gem("equipment got another host command"));
      }
      var x, y := command.target.x + jitter[index].x, command.target.y + jitter[index].y;
      var body := S6F11(EventReport(1, CEID_PLACEMENT_DONE,
                                    [Report(1, [SecsItem.Ascii(command.siteId), U4Item(ToU4(x)), U4Item(ToU4(y))])]));
      EventBodyIs(c, index);
      ServeReports(c, now, index, p);
      var reported := gem.SendEventReport(body, c, now, index);
      if reported.Err? {
        EndOfDestiny(c, now.(pc := EquipFailed, nextSb := (now.nextSb + 1) % TWO32), session.Abs());
        return Err(reported.error);
      }
    }
    EndOfDestiny(c, EquipNext(c, EquipStart().(nextSb := session.nextSystemBytes), |commands|), session.Abs());
    return Ok(());
  }

  /** A proper host command makes the machine report. */
  lemma ServeReports(c: Config, e: Equip, index: nat, p: Value)
    requires WellFormed(c) && index < |c.equipPlan| && e.out == [] && p.Primary?
    requires p.stream == 2 && p.function_ == 41 && p.body.Some?
    requires ParseS2F41(p.body.value).Ok? && ParseS2F41(p.body.value).value.rcmd == Rcmd(c.equipTechnique)
    ensures EquipServe(c, e, index, p) == Reported(c, e, index)
  {
    hide EventBody, ParseS2F41, Rcmd;
    var m := Data(c.equipSession, 6, 11, true, e.nextSb, Some(EventBody(c, index)));
    assert e.out + [m] == [m];
  }

  lemma EventBodyIs(c: Config, index: nat)
    requires WellFormed(c) && index < |c.equipPlan|
    ensures var target := c.equipPlan[index].target;
            EventBody(c, index)
            == S6F11(EventReport(1, CEID_PLACEMENT_DONE,
                                 [Report(1, [SecsItem.Ascii(c.equipPlan[index].siteId),
                                             U4Item(ToU4(target.x + c.jitter[index].x)),
                                             U4Item(ToU4(target.y + c.jitter[index].y))])]))
  {
  }
}
