/**
 The HSMS session (SEMI E37.1, single selected session): what it does with each message while it
 waits for something, and the calls built from those waits. `React` and `Invoke` specify them;
 the class carries them out over two pipes.
 */
module Session {
  import opened Outcomes
  import opened Bytes
  import opened SecsItem
  import opened Hsms
  import opened Transport

  datatype HsmsState = NotConnected | ConnectedNotSelected | SessionSelected

  const ILLEGAL_STATUS: byte := 4

  /** `make_reply`: the reply body for a primary, if it gets one. */
  type Responder = (byte, byte, Option<Item>) -> Option<Item>

  ghost predicate RepliesEncodable(respond: Responder)
  {
    forall s, f, b :: respond(s, f, b).Some? ==> Encodable(respond(s, f, b).value)
  }

  datatype Waiting =
    | ForSelectRsp
    | ForSelectReq
    | ForReply(systemBytes: u32, wanted: byte)
    | ForPrimary(respond: Responder)

  ghost predicate WellBehaved(w: Waiting)
  {
    w.ForPrimary? ==> RepliesEncodable(w.respond)
  }

  datatype Value =
    | Established
    | Reply(function_: byte, body: Option<Item>)
    | Primary(stream: byte, function_: byte, body: Option<Item>)

  /** What one inbound message does to a waiting session. */
  datatype Reaction =
    | Answer(reply: Message)                       // write it and keep waiting
    | Finish(value: Value, replies: seq<Message>)  // write these and return
    | Abort(error: SecsError, deselect: bool)

  function React(w: Waiting, m: Message): Reaction
  {
    if m.LinktestReq? then Answer(LinktestRsp(m.systemBytes))
    else
      match w
      case ForSelectRsp =>
        if m.SelectRsp? && m.status == Selected then Finish(Established, [])
        else if m.SelectRsp? then Abort(Gem("select rejected"), false)
        else Abort(Gem("unexpected while awaiting Select.rsp"), false)
      case ForSelectReq =>
        if m.SelectReq? then Finish(Established, [SelectRsp(m.systemBytes, Selected)])
        else Abort(Gem("unexpected while awaiting Select.req"), false)
      case ForReply(sb, wanted) =>
        if m.Data? && m.systemBytes == sb then Finish(Reply(m.function_, m.body), [])
        else if m.SelectReq? then Answer(SelectRsp(m.systemBytes, AlreadySelected))
        else if m.Separate? then Abort(Gem("peer sent Separate; session deselected"), true)
        else Abort(UnexpectedStreamFunction(0, wanted), false)
      case ForPrimary(respond) =>
        if m.Data? then Finish(Primary(m.stream, m.function_, m.body), RepliesTo(respond, m))
        else if m.SelectReq? then Answer(SelectRsp(m.systemBytes, AlreadySelected))
        else if m.Separate? then Abort(Gem("peer sent Separate; session deselected"), true)
        else Answer(Reject(m.systemBytes, ILLEGAL_STATUS, 0, 0))
  }

  /** The secondary of a primary: same session and system bytes, next function, no W-bit. */
  function RepliesTo(respond: Responder, m: Message): seq<Message>
    requires m.Data?
  {
    var reply := if m.wBit then respond(m.stream, m.function_, m.body) else None;
    if reply.None? then []
    else [Data(m.session, m.stream, (m.function_ + 1) % 256, false, m.systemBytes, reply)]
  }

  predicate AllSendable(ms: seq<Message>)
  {
    forall k | 0 <= k < |ms| :: Sendable(ms[k])
  }

  function EncodeReplies(ms: seq<Message>): seq<byte>
    requires AllSendable(ms)
  {
    if ms == [] then [] else EncodeMessage(ms[0]) + EncodeReplies(ms[1..])
  }

  lemma RepliesAreSendable(w: Waiting, m: Message)
    requires WellBehaved(w)
    ensures Sound(React(w, m))
  {
  }

  datatype Outcome =
    Outcome(result: Result<Value, SecsError>, deselected: bool, rest: seq<byte>, written: seq<byte>)

  ghost predicate Sound(r: Reaction)
  {
    (r.Answer? ==> Sendable(r.reply)) && (r.Finish? ==> AllSendable(r.replies))
  }

  /** The whole wait: read messages off a byte stream until one of them ends it. */
  ghost function Drive(w: Waiting, s: seq<byte>): Outcome
    requires WellBehaved(w)
    decreases |s|, 0
  {
    var next := NextMessage(s);
    match next.message
    case Err(e) => Outcome(Err(e), false, next.rest, [])
    case Ok(m) =>
      RepliesAreSendable(w, m);
      AfterReaction(w, React(w, m), next.rest)
  }

  /** The rest of a wait, once a message has been read and `rest` is what follows it. */
  ghost function AfterReaction(w: Waiting, r: Reaction, rest: seq<byte>): Outcome
    requires WellBehaved(w) && Sound(r)
    decreases |rest|, 1
  {
    match r
    case Answer(reply) =>
      var later := Drive(w, rest);
      later.(written := EncodeMessage(reply) + later.written)
    case Finish(value, replies) => Outcome(Ok(value), false, rest, EncodeReplies(replies))
    case Abort(error, deselect) => Outcome(Err(error), deselect, rest, [])
  }

  // ---------- calls ----------

  datatype Call =
    | Select
    | AcceptSelect
    | Transact(stream: byte, function_: byte, body: Option<Item>)
    | ServeOne(respond: Responder)

  datatype SessionState =
    SessionState(state: HsmsState, nextSystemBytes: u32, input: seq<byte>, output: seq<byte>)

  datatype CallOutcome = CallOutcome(after: SessionState, result: Result<Value, SecsError>)

  /** What a call may be given: functions leave room for `function + 1`, bodies can be encoded. */
  ghost predicate Allowed(c: Call)
  {
    match c
    case Transact(_, f, body) => f < 255 && (body.Some? ==> Encodable(body.value))
    case ServeOne(respond) => RepliesEncodable(respond)
    case _ => true
  }

  ghost function Await(st: SessionState, w: Waiting): CallOutcome
    requires WellBehaved(w)
  {
    var o := Drive(w, st.input);
    var state :=
      if o.deselected then ConnectedNotSelected
      else if o.result.Ok? && o.result.value.Established? then SessionSelected
      else st.state;
    CallOutcome(st.(state := state, input := o.rest, output := st.output + o.written), o.result)
  }

  ghost function Send(st: SessionState, m: Message): SessionState
    requires Sendable(m)
  {
    st.(output := st.output + EncodeMessage(m), nextSystemBytes := (st.nextSystemBytes + 1) % TWO32)
  }

  ghost function Invoke(st: SessionState, sessionId: u16, c: Call): CallOutcome
    requires Allowed(c)
  {
    match c
    case Select => Await(Send(st, SelectReq(st.nextSystemBytes)), ForSelectRsp)
    case AcceptSelect => Await(st, ForSelectReq)
    case Transact(stream, f, body) =>
      if st.state != SessionSelected then CallOutcome(st, Err(NotSelected))
      else
        var sb := st.nextSystemBytes;
        Await(Send(st, Data(sessionId, stream, f, true, sb, body)), ForReply(sb, f + 1))
    case ServeOne(respond) =>
      if st.state != SessionSelected then CallOutcome(st, Err(NotSelected))
      else Await(st, ForPrimary(respond))
  }

  ghost function InvokeAll(st: SessionState, sessionId: u16, cs: seq<Call>): SessionState
    requires forall k | 0 <= k < |cs| :: Allowed(cs[k])
    decreases cs
  {
    if cs == [] then st else InvokeAll(Invoke(st, sessionId, cs[0]).after, sessionId, cs[1..])
  }

  /** While not selected, data calls neither read nor write, however many of them are made. */
  lemma {:induction false} DataCallsAreSilentUntilSelected(st: SessionState, sessionId: u16, cs: seq<Call>)
    requires st.state != SessionSelected
    requires forall k | 0 <= k < |cs| :: Allowed(cs[k]) && (cs[k].Transact? || cs[k].ServeOne?)
    ensures InvokeAll(st, sessionId, cs) == st
  {
    if cs != [] {
      DataCallsAreSilentUntilSelected(st, sessionId, cs[1..]);
    }
  }

  // ---------- what serving one primary writes ----------

  /** Control traffic that `serve_one` answers and skips. */
  predicate Skipped(m: Message) { !m.Data? && !m.Separate? }

  function ControlAnswer(m: Message): Message
  {
    match m
    case LinktestReq(sb) => LinktestRsp(sb)
    case SelectReq(sb) => SelectRsp(sb, AlreadySelected)
    case _ => Reject(m.systemBytes, ILLEGAL_STATUS, 0, 0)
  }

  function ControlAnswers(ms: seq<Message>): (answers: seq<Message>)
    ensures |answers| == |ms| && AllSendable(answers)
  {
    seq(|ms|, k requires 0 <= k < |ms| => ControlAnswer(Normalize(ms[k])))
  }

  /** The step of a wait over one well-framed message. */
  lemma DriveStep(w: Waiting, m: Message, s: seq<byte>)
    requires WellBehaved(w) && Frameable(m)
    ensures var r := React(w, Normalize(m));
            Sound(r) && Drive(w, EncodeMessage(m) + s) == AfterReaction(w, r, s)
  {
    hide EncodeMessage, NextMessage, React, Normalize, BodyBytes;
    NextMessageRoundTrip(m, s);
    RepliesAreSendable(w, Normalize(m));
  }

  lemma SkippedStep(respond: Responder, m: Message, s: seq<byte>)
    requires RepliesEncodable(respond) && Frameable(m) && Skipped(m)
    ensures var later := Drive(ForPrimary(respond), s);
            Drive(ForPrimary(respond), EncodeMessage(m) + s)
            == later.(written := EncodeMessage(ControlAnswer(Normalize(m))) + later.written)
  {
    hide EncodeMessage, NextMessage, Drive;
    DriveStep(ForPrimary(respond), m, s);
  }

  /** Control frames in front of anything are answered one by one, in order, and change nothing else. */
  lemma {:induction false} ControlIsAnsweredInOrder(respond: Responder, control: seq<Message>, tail: seq<byte>)
    requires RepliesEncodable(respond)
    requires AllFrameable(control) && forall k | 0 <= k < |control| :: Skipped(control[k])
    ensures var later := Drive(ForPrimary(respond), tail);
            Drive(ForPrimary(respond), Frames(control) + tail)
            == later.(written := EncodeReplies(ControlAnswers(control)) + later.written)
  {
    hide EncodeMessage, NextMessage, BodyBytes, Drive, ControlAnswer, Normalize;
    if control == [] {
      assert Frames(control) + tail == tail;
    } else {
      var answers := ControlAnswers(control);
      Associates(EncodeMessage(control[0]), Frames(control[1..]), tail);
      SkippedStep(respond, control[0], Frames(control[1..]) + tail);
      ControlIsAnsweredInOrder(respond, control[1..], tail);
      assert answers[1..] == ControlAnswers(control[1..]);
      Associates(EncodeMessage(answers[0]), EncodeReplies(answers[1..]), Drive(ForPrimary(respond), tail).written);
    }
  }

  /**
   Serving one primary behind any control traffic: one answer per control frame, in order, then
   the reply if the W-bit asks for one and there is one, and everything behind is left unread.
   */
  lemma {:induction false} ServeAnswersInOrder(respond: Responder, control: seq<Message>, m: Message, s: seq<byte>)
    requires RepliesEncodable(respond)
    requires AllFrameable(control) && forall k | 0 <= k < |control| :: Skipped(control[k])
    requires Frameable(m) && m.Data?
    ensures var n := Normalize(m);
            AllSendable(RepliesTo(respond, n)) &&
            Drive(ForPrimary(respond), Frames(control) + (EncodeMessage(m) + s))
            == Outcome(Ok(Primary(n.stream, n.function_, n.body)), false, s,
                       EncodeReplies(ControlAnswers(control)) + EncodeReplies(RepliesTo(respond, n)))
  {
    hide EncodeMessage, NextMessage, BodyBytes, Drive, EncodeReplies, Frames;
    DriveStep(ForPrimary(respond), m, s);
    ControlIsAnsweredInOrder(respond, control, EncodeMessage(m) + s);
  }

  /** The calls that serve one primary each, with a responder each. */
  ghost function Serves(rs: seq<Responder>): (cs: seq<Call>)
    ensures |cs| == |rs|
  {
    seq(|rs|, k requires 0 <= k < |rs| => ServeOne(rs[k]))
  }

  /** One primary per responder, with any control traffic in front of each. */
  ghost predicate ServedBy(rs: seq<Responder>, ms: seq<Message>)
    decreases |ms|
  {
    if rs == [] || ms == [] then rs == [] && ms == []
    else if ms[0].Data? then ServedBy(rs[1..], ms[1..])
    else Skipped(ms[0]) && ServedBy(rs, ms[1..])
  }

  /** What goes back for such a mix: an answer per control frame and the replies, each in its place. */
  ghost function AnswersTo(rs: seq<Responder>, ms: seq<Message>): seq<Message>
    requires ServedBy(rs, ms)
    decreases |ms|
  {
    if ms == [] then []
    else if ms[0].Data? then RepliesTo(rs[0], Normalize(ms[0])) + AnswersTo(rs[1..], ms[1..])
    else [ControlAnswer(Normalize(ms[0]))] + AnswersTo(rs, ms[1..])
  }

  lemma {:induction false} RepliesConcatenate(a: seq<Message>, b: seq<Message>)
    requires AllSendable(a) && AllSendable(b)
    ensures AllSendable(a + b) && EncodeReplies(a + b) == EncodeReplies(a) + EncodeReplies(b)
  {
    hide EncodeMessage, BodyBytes, Sendable;
    if a == [] {
      assert a + b == b;
    } else {
      assert (a + b)[1..] == a[1..] + b;
      RepliesConcatenate(a[1..], b);
      Associates(EncodeMessage(a[0]), EncodeReplies(a[1..]), EncodeReplies(b));
    }
  }

  lemma AnswersAreSendable(m: Message)
    ensures Sendable(ControlAnswer(Normalize(m)))
    ensures m.Data? ==> Normalize(m).Data?
  {
  }

  /** A control frame in front of a serving call is the call itself, made one answer later. */
  lemma SkippedCall(st: SessionState, sessionId: u16, respond: Responder, m: Message, s: seq<byte>)
    requires RepliesEncodable(respond) && Frameable(m) && Skipped(m)
    requires st.state == SessionSelected && st.input == EncodeMessage(m) + s
    ensures Invoke(st, sessionId, ServeOne(respond))
         == Invoke(st.(input := s, output := st.output + EncodeMessage(ControlAnswer(Normalize(m)))), sessionId, ServeOne(respond))
  {
    AnswersAreSendable(m);
    hide EncodeMessage, NextMessage, Drive, ControlAnswer;
    SkippedStep(respond, m, s);
    Associates(st.output, EncodeMessage(ControlAnswer(Normalize(m))), Drive(ForPrimary(respond), s).written);
  }

  lemma ServedCall(st: SessionState, sessionId: u16, respond: Responder, m: Message, s: seq<byte>)
    requires RepliesEncodable(respond) && Frameable(m) && m.Data?
    requires st.state == SessionSelected && st.input == EncodeMessage(m) + s
    ensures AllSendable(RepliesTo(respond, Normalize(m)))
    ensures Invoke(st, sessionId, ServeOne(respond)).after
         == st.(input := s, output := st.output + EncodeReplies(RepliesTo(respond, Normalize(m))))
  {
    hide EncodeMessage, NextMessage, Drive, EncodeReplies;
    DriveStep(ForPrimary(respond), m, s);
  }

  /**
   Any number of serving calls over a mix of primaries and control traffic: what they write, taken
   together, is the answer to every frame in the order the frames came, and they leave unread what is
   behind the last primary.
   */
  lemma {:induction false} MixIsAnsweredInOrder(st: SessionState, sessionId: u16, rs: seq<Responder>, ms: seq<Message>,
                                                tail: seq<byte>)
    requires st.state == SessionSelected && (forall k | 0 <= k < |rs| :: RepliesEncodable(rs[k]))
    requires AllFrameable(ms) && ServedBy(rs, ms) && st.input == Frames(ms) + tail
    ensures AllSendable(AnswersTo(rs, ms))
    ensures InvokeAll(st, sessionId, Serves(rs))
         == st.(input := tail, output := st.output + EncodeReplies(AnswersTo(rs, ms)))
    decreases |ms|
  {
    hide EncodeMessage, NextMessage, BodyBytes, Drive, Invoke, RepliesTo, ControlAnswer, Normalize, Sendable, RepliesEncodable;
    if ms == [] {
      assert st.input == tail && st.output + [] == st.output;
    } else {
      var m, s := ms[0], Frames(ms[1..]) + tail;
      AnswersAreSendable(m);
      Associates(EncodeMessage(m), Frames(ms[1..]), tail);
      assert Serves(rs)[1..] == Serves(rs[1..]);
      if m.Data? {
        ServedCall(st, sessionId, rs[0], m, s);
        var replies := RepliesTo(rs[0], Normalize(m));
        MixIsAnsweredInOrder(Invoke(st, sessionId, ServeOne(rs[0])).after, sessionId, rs[1..], ms[1..], tail);
        RepliesConcatenate(replies, AnswersTo(rs[1..], ms[1..]));
        Associates(st.output, EncodeReplies(replies), EncodeReplies(AnswersTo(rs[1..], ms[1..])));
      } else {
        SkippedCall(st, sessionId, rs[0], m, s);
        var answer := ControlAnswer(Normalize(m));
        var later := st.(input := s, output := st.output + EncodeMessage(answer));
        MixIsAnsweredInOrder(later, sessionId, rs, ms[1..], tail);
        Associates(st.output, EncodeMessage(answer), EncodeReplies(AnswersTo(rs, ms[1..])));
      }
    }
  }

  /** What goes back: nothing, or exactly one secondary of the primary that was read. */
  lemma {:induction false} SecondaryOfPrimary(respond: Responder, m: Message)
    requires m.Data? && m.function_ < 128
    ensures m.wBit && respond(m.stream, m.function_, m.body).Some? <==> RepliesTo(respond, m) != []
    ensures RepliesTo(respond, m) != [] ==>
              RepliesTo(respond, m) == [Data(m.session, m.stream, m.function_ + 1, false, m.systemBytes,
                                             respond(m.stream, m.function_, m.body))]
    // The wire keeps seven bits of the function, so the reply to function 127 arrives as 0.
    ensures RepliesTo(respond, m) != [] ==>
              (Normalize(RepliesTo(respond, m)[0]).function_ == m.function_ + 1 <==> m.function_ < 127)
  {
  }

  /** A Separate ends the wait without a reply and deselects the session. */
  lemma {:induction false} SeparateDeselects(respond: Responder, control: seq<Message>, sb: u32, s: seq<byte>)
    requires RepliesEncodable(respond)
    requires AllFrameable(control) && forall k | 0 <= k < |control| :: Skipped(control[k])
    ensures var o := Drive(ForPrimary(respond), Frames(control) + (EncodeMessage(Separate(sb)) + s));
            o.result.Err? && o.deselected && o.rest == s && o.written == EncodeReplies(ControlAnswers(control))
  {
    hide EncodeMessage, NextMessage, Drive, EncodeReplies, Frames;
    DriveStep(ForPrimary(respond), Separate(sb), s);
    ControlIsAnsweredInOrder(respond, control, EncodeMessage(Separate(sb)) + s);
  }

  /** After a Separate, data calls of any number read and write nothing at all. */
  lemma {:induction false} SilentAfterSeparate(st: SessionState, sessionId: u16, respond: Responder, control: seq<Message>,
                            sb: u32, s: seq<byte>, cs: seq<Call>)
    requires RepliesEncodable(respond) && st.state == SessionSelected
    requires AllFrameable(control) && forall k | 0 <= k < |control| :: Skipped(control[k])
    requires st.input == Frames(control) + (EncodeMessage(Separate(sb)) + s)
    requires forall k | 0 <= k < |cs| :: Allowed(cs[k]) && (cs[k].Transact? || cs[k].ServeOne?)
    ensures InvokeAll(Invoke(st, sessionId, ServeOne(respond)).after, sessionId, cs)
         == st.(state := ConnectedNotSelected, input := s,
                output := st.output + EncodeReplies(ControlAnswers(control)))
  {
    hide EncodeMessage, Drive, EncodeReplies, Frames, InvokeAll;
    SeparateDeselects(respond, control, sb, s);
    var after := Invoke(st, sessionId, ServeOne(respond)).after;
    DataCallsAreSilentUntilSelected(after, sessionId, cs);
  }

  // ---------- the session object ----------

  /** A wait that began on (`s0`, `out0`) and has come as far as (`s`, `out`). */
  ghost predicate Waited(w: Waiting, s0: seq<byte>, out0: seq<byte>, s: seq<byte>, out: seq<byte>)
    requires WellBehaved(w)
  {
    var whole, left := Drive(w, s0), Drive(w, s);
    && left.(written := whole.written) == whole
    && out + left.written == out0 + whole.written
  }

  /** The end of a wait, as `Drive` foretold it. */
  ghost predicate Ended(w: Waiting, s0: seq<byte>, out0: seq<byte>, s: seq<byte>, out: seq<byte>,
                        result: Result<Value, SecsError>, deselected: bool)
    requires WellBehaved(w)
  {
    var whole := Drive(w, s0);
    whole.result == result && whole.deselected == deselected && whole.rest == s && out0 + whole.written == out
  }

  lemma WaitedStep(w: Waiting, s0: seq<byte>, out0: seq<byte>, s: seq<byte>, out: seq<byte>,
                   message: Result<Message, SecsError>, rest: seq<byte>)
    requires WellBehaved(w) && Waited(w, s0, out0, s, out)
    requires NextMessage(s) == Received(message, rest)
    ensures message.Err? ==> Ended(w, s0, out0, rest, out, Err(message.error), false)
    ensures message.Ok? ==> Sound(React(w, message.value)) && Reacted(w, s0, out0, rest, out, React(w, message.value))
  {
    hide EncodeMessage, NextMessage, React, Sound, AllSendable;
    if message.Ok? {
      RepliesAreSendable(w, message.value);
      var r := React(w, message.value);
      assert Drive(w, s) == AfterReaction(w, r, rest);
      if r.Answer? {
        assert Sendable(r.reply) by { RepliesAreSendable(w, message.value); SoundParts(r); }
        Associates(out, EncodeMessage(r.reply), Drive(w, rest).written);
      }
    } else {
      assert out + [] == out;
    }
  }

  lemma SoundParts(r: Reaction)
    requires Sound(r)
    ensures r.Answer? ==> Sendable(r.reply)
    ensures r.Finish? ==> AllSendable(r.replies)
  {
  }

  ghost predicate Reacted(w: Waiting, s0: seq<byte>, out0: seq<byte>, rest: seq<byte>, out: seq<byte>, r: Reaction)
    requires WellBehaved(w) && Sound(r)
  {
    match r
    case Answer(reply) => Waited(w, s0, out0, rest, out + EncodeMessage(reply))
    case Finish(value, replies) => Ended(w, s0, out0, rest, out + EncodeReplies(replies), Ok(value), false)
    case Abort(error, deselect) => Ended(w, s0, out0, rest, out, Err(error), deselect)
  }

  class HsmsSession {
    const inp: Pipe
    const outp: Pipe
    const sessionId: u16
    var state: HsmsState
    var nextSystemBytes: u32

    ghost predicate Valid()
      reads this, inp, outp
    {
      inp != outp && inp.Valid() && outp.Valid() && outp.inFlight == [] && !outp.closed
    }

    ghost function Abs(): SessionState
      reads this, inp, outp
    {
      SessionState(state, nextSystemBytes, inp.Stream(), outp.Stream())
    }

    constructor (inp: Pipe, outp: Pipe, sessionId: u16)
      requires inp != outp && inp.Valid() && outp.Valid() && outp.inFlight == [] && !outp.closed
      ensures Valid() && this.inp == inp && this.outp == outp && this.sessionId == sessionId
      ensures Abs() == SessionState(ConnectedNotSelected, 1, inp.Stream(), outp.Stream())
    {
      this.inp, this.outp, this.sessionId := inp, outp, sessionId;
      state, nextSystemBytes := ConnectedNotSelected, 1;
    }

    method WriteMessage(m: Message)
      requires Valid() && Sendable(m)
      modifies outp
      ensures Valid() && outp.Stream() == old(outp.Stream()) + EncodeMessage(m)
    {
      var out := new ByteBuffer();
      EncodeMessageInto(m, out);
      assert out.data == EncodeMessage(m);
      var ok := outp.WriteBytes(out.data);
    }

    method NextSystemBytes() returns (sb: u32)
      modifies this`nextSystemBytes
      ensures sb == old(nextSystemBytes) && nextSystemBytes == (sb + 1) % TWO32
    {
      sb := nextSystemBytes;
      nextSystemBytes := (nextSystemBytes + 1) % TWO32;
    }

    method Select() returns (r: Result<Value, SecsError>)
      requires Valid()
      modifies this, inp, outp
      ensures Valid()
      ensures CallOutcome(Abs(), r) == Invoke(old(Abs()), sessionId, Call.Select)
    {
      hide EncodeMessage, NextMessage, Drive;
      var sb := NextSystemBytes();
      WriteMessage(SelectReq(sb));
      ghost var s0, out0 := inp.Stream(), outp.Stream();
      while true
        invariant Valid() && Waited(ForSelectRsp, s0, out0, inp.Stream(), outp.Stream())
        invariant nextSystemBytes == (sb + 1) % TWO32 && state == old(state)
        decreases |inp.Stream()|
      {
        ghost var s := inp.Stream();
        var m := ReadMessage(inp);
        WaitedStep(ForSelectRsp, s0, out0, s, outp.Stream(), m, inp.Stream());
        if m.Err? {
          return Err(m.error);
        }
        match m.value {
          case SelectRsp(_, status) =>
            if status == Selected {
              state := SessionSelected;
              assert outp.Stream() + [] == outp.Stream();
              return Ok(Established);
            }
            return Err(Gem("select rejected"));
          case LinktestReq(sb) =>
            WriteMessage(LinktestRsp(sb));
          case _ =>
            return Err(Gem("unexpected while awaiting Select.rsp"));
        }
      }
    }

    method AcceptSelect() returns (r: Result<Value, SecsError>)
      requires Valid()
      modifies this, inp, outp
      ensures Valid()
      ensures CallOutcome(Abs(), r) == Invoke(old(Abs()), sessionId, Call.AcceptSelect)
    {
      hide EncodeMessage, NextMessage, Drive;
      ghost var s0, out0 := inp.Stream(), outp.Stream();
      while true
        invariant Valid() && Waited(ForSelectReq, s0, out0, inp.Stream(), outp.Stream())
        invariant nextSystemBytes == old(nextSystemBytes) && state == old(state)
        decreases |inp.Stream()|
      {
        ghost var s := inp.Stream();
        var m := ReadMessage(inp);
        WaitedStep(ForSelectReq, s0, out0, s, outp.Stream(), m, inp.Stream());
        if m.Err? {
          return Err(m.error);
        }
        match m.value {
          case SelectReq(sb) =>
            OneReply(SelectRsp(sb, Selected));
            WriteMessage(SelectRsp(sb, Selected));
            state := SessionSelected;
            return Ok(Established);
          case LinktestReq(sb) =>
            WriteMessage(LinktestRsp(sb));
          case _ =>
            return Err(Gem("unexpected while awaiting Select.req"));
        }
      }
    }

    method AwaitReply(systemBytes: u32, wanted: byte) returns (r: Result<Value, SecsError>)
      requires Valid()
      modifies this, inp, outp
      ensures Valid()
      ensures CallOutcome(Abs(), r) == Await(old(Abs()), ForReply(systemBytes, wanted))
    {
      hide EncodeMessage, NextMessage, Drive;
      ghost var w, s0, out0 := ForReply(systemBytes, wanted), inp.Stream(), outp.Stream();
      while true
        invariant Valid() && Waited(w, s0, out0, inp.Stream(), outp.Stream())
        invariant nextSystemBytes == old(nextSystemBytes) && state == old(state)
        decreases |inp.Stream()|
      {
        ghost var s := inp.Stream();
        var m := ReadMessage(inp);
        WaitedStep(w, s0, out0, s, outp.Stream(), m, inp.Stream());
        if m.Err? {
          return Err(m.error);
        }
        match m.value {
          case Data(_, _, f, _, sb, body) =>
            if sb == systemBytes {
              assert outp.Stream() + [] == outp.Stream();
              return Ok(Reply(f, body));
            }
            return Err(UnexpectedStreamFunction(0, wanted));
          case LinktestReq(sb) =>
            WriteMessage(LinktestRsp(sb));
          case SelectReq(sb) =>
            WriteMessage(SelectRsp(sb, AlreadySelected));
          case Separate(_) =>
            state := ConnectedNotSelected;
            return Err(Gem("peer sent Separate; session deselected"));
          case _ =>
            return Err(UnexpectedStreamFunction(0, wanted));
        }
      }
    }

    method Transact(stream: byte, f: byte, body: Option<Item>) returns (r: Result<Value, SecsError>)
      requires Valid() && Allowed(Call.Transact(stream, f, body))
      modifies this, inp, outp
      ensures Valid()
      ensures CallOutcome(Abs(), r) == Invoke(old(Abs()), sessionId, Call.Transact(stream, f, body))
    {
      hide EncodeMessage, Drive;
      if state != SessionSelected {
        return Err(NotSelected);
      }
      var sb := NextSystemBytes();
      WriteMessage(Data(sessionId, stream, f, true, sb, body));
      r := AwaitReply(sb, f + 1);
    }

    method ServeOne(respond: Responder) returns (r: Result<Value, SecsError>)
      requires Valid() && Allowed(Call.ServeOne(respond))
      modifies this, inp, outp
      ensures Valid()
      ensures CallOutcome(Abs(), r) == Invoke(old(Abs()), sessionId, Call.ServeOne(respond))
    {
      hide EncodeMessage, NextMessage, Drive, BodyBytes, Encodable, EncodeReplies, RepliesEncodable;
      if state != SessionSelected {
        return Err(NotSelected);
      }
      ghost var w, s0, out0 := ForPrimary(respond), inp.Stream(), outp.Stream();
      while true
        invariant Valid() && Waited(w, s0, out0, inp.Stream(), outp.Stream())
        invariant nextSystemBytes == old(nextSystemBytes) && state == old(state)
        decreases |inp.Stream()|
      {
        ghost var s := inp.Stream();
        var m := ReadMessage(inp);
        WaitedStep(w, s0, out0, s, outp.Stream(), m, inp.Stream());
        if m.Err? {
          return Err(m.error);
        }
        match m.value {
          case Data(session, stream, f, wBit, sb, body) =>
            var reply := if wBit then respond(stream, f, body) else None;
            ReplyBytes(respond, m.value);
            if reply.Some? {
              WriteMessage(Data(session, stream, (f + 1) % 256, false, sb, reply));
            } else {
              assert outp.Stream() + [] == outp.Stream();
            }
            return Ok(Primary(stream, f, body));
          case LinktestReq(sb) =>
            WriteMessage(LinktestRsp(sb));
          case SelectReq(sb) =>
            WriteMessage(SelectRsp(sb, AlreadySelected));
          case Separate(_) =>
            state := ConnectedNotSelected;
            return Err(Gem("peer sent Separate; session deselected"));
          case _ =>
            WriteMessage(Reject(m.value.systemBytes, ILLEGAL_STATUS, 0, 0));
        }
      }
    }
  }

  /** What is written for a primary: its one reply, or nothing. */
  lemma ReplyBytes(respond: Responder, m: Message)
    requires RepliesEncodable(respond) && m.Data?
    ensures AllSendable(RepliesTo(respond, m))
    ensures var reply := if m.wBit then respond(m.stream, m.function_, m.body) else None;
            if reply.None? then EncodeReplies(RepliesTo(respond, m)) == []
            else
              var secondary := Data(m.session, m.stream, (m.function_ + 1) % 256, false, m.systemBytes, reply);
              Sendable(secondary) && EncodeReplies(RepliesTo(respond, m)) == EncodeMessage(secondary)
  {
    hide EncodeMessage, Encodable;
  }

  lemma OneReply(m: Message)
    requires Sendable(m)
    ensures EncodeReplies([m]) == EncodeMessage(m)
  {
    hide EncodeMessage;
    assert EncodeReplies([m][1..]) == [];
  }
}
