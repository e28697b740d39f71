/**
 How each wait of a session ends, on the inbound bytes: any control frames it answers, then the one
 frame that decides.
 */
module SessionLaws {
  import opened Outcomes
  import opened Bytes
  import opened SecsItem
  import opened Hsms
  import opened Transport
  import opened Session

  // ---------- what is answered ----------

  /** Linktests are answered in every wait. */
  predicate AllLinktests(ms: seq<Message>)
  {
    AllFrameable(ms) && forall k :: 0 <= k < |ms| ==> ms[k].LinktestReq?
  }

  function LinktestAnswers(ms: seq<Message>): (answers: seq<Message>)
    requires AllLinktests(ms)
    ensures |answers| == |ms| && AllSendable(answers)
  {
    seq(|ms|, k requires 0 <= k < |ms| => LinktestRsp(ms[k].systemBytes))
  }

  /** While waiting for a reply, so are selects. */
  predicate AllHandled(ms: seq<Message>)
  {
    AllFrameable(ms) && forall k :: 0 <= k < |ms| ==> ms[k].LinktestReq? || ms[k].SelectReq?
  }

  function HandledAnswers(ms: seq<Message>): (answers: seq<Message>)
    requires AllHandled(ms)
    ensures |answers| == |ms| && AllSendable(answers)
  {
    seq(|ms|, k requires 0 <= k < |ms| =>
      if ms[k].LinktestReq? then LinktestRsp(ms[k].systemBytes) else SelectRsp(ms[k].systemBytes, AlreadySelected))
  }

  /** Frames that a wait answers one by one put their answers in front of what is written later. */
  lemma {:induction false} AnsweredInFront(w: Waiting, ms: seq<Message>, answers: seq<Message>, tail: seq<byte>)
    requires WellBehaved(w) && AllFrameable(ms) && |answers| == |ms| && AllSendable(answers)
    requires forall k :: 0 <= k < |ms| ==> React(w, Normalize(ms[k])) == Answer(answers[k])
    ensures var later := Drive(w, tail);
            Drive(w, Frames(ms) + tail) == later.(written := EncodeReplies(answers) + later.written)
  {
    hide EncodeMessage, NextMessage, BodyBytes, Drive, React, Normalize, Sendable;
    if ms == [] {
      assert Frames(ms) + tail == tail;
      assert [] + Drive(w, tail).written == Drive(w, tail).written;
    } else {
      Associates(EncodeMessage(ms[0]), Frames(ms[1..]), tail);
      DriveStep(w, ms[0], Frames(ms[1..]) + tail);
      AnsweredInFront(w, ms[1..], answers[1..], tail);
      Associates(EncodeMessage(answers[0]), EncodeReplies(answers[1..]), Drive(w, tail).written);
    }
  }

  // ---------- transactions ----------

  /**
   A transaction over any control frames and one frame more: only a data message with the system bytes
   of its own request is its reply; a Separate deselects; anything else, other data messages included,
   ends it in an error. What follows stays unread.
   */
  lemma TransactEnds(st: SessionState, sessionId: u16, stream: byte, f: byte, body: Option<Item>,
                     control: seq<Message>, m: Message, s: seq<byte>)
    requires st.state == SessionSelected && f < 255 && (body.Some? ==> Encodable(body.value))
    requires AllHandled(control) && Frameable(m) && !m.LinktestReq? && !m.SelectReq?
    requires st.input == Frames(control) + (EncodeMessage(m) + s)
    ensures var sb := st.nextSystemBytes;
            var request := Data(sessionId, stream, f, true, sb, body);
            var co := Invoke(st, sessionId, Transact(stream, f, body));
            && co.after.input == s && co.after.nextSystemBytes == (sb + 1) % TWO32
            && co.after.output == st.output + EncodeMessage(request) + EncodeReplies(HandledAnswers(control))
            && (if m.Data? && m.systemBytes == sb then
                  co.result == Ok(Reply(m.function_ % 128, m.body)) && co.after.state == SessionSelected
                else if m.Separate? then co.result.Err? && co.after.state == ConnectedNotSelected
                else co.result == Err(UnexpectedStreamFunction(0, f + 1)) && co.after.state == SessionSelected)
  {
    hide EncodeMessage, NextMessage, Drive, EncodeReplies, Frames, Encodable;
    var w := ForReply(st.nextSystemBytes, f + 1);
    AnsweredInFront(w, control, HandledAnswers(control), EncodeMessage(m) + s);
    DriveStep(w, m, s);
    NoReplies();
  }

  lemma NoReplies()
    ensures EncodeReplies([]) == []
  {
  }

  // ---------- selecting ----------

  /** The selecting side: linktests, then the Select.rsp, which selects if its status says so; all else fails. */
  lemma SelectEnds(st: SessionState, sessionId: u16, control: seq<Message>, m: Message, s: seq<byte>)
    requires AllLinktests(control) && Frameable(m) && !m.LinktestReq?
    requires st.input == Frames(control) + (EncodeMessage(m) + s)
    ensures var sb := st.nextSystemBytes;
            var co := Invoke(st, sessionId, Select);
            && co.after.input == s && co.after.nextSystemBytes == (sb + 1) % TWO32
            && co.after.output == st.output + EncodeMessage(SelectReq(sb)) + EncodeReplies(LinktestAnswers(control))
            && (if m.SelectRsp? && m.status == Selected then co.result == Ok(Established) && co.after.state == SessionSelected
                else co.result.Err? && co.after.state == st.state)
  {
    hide EncodeMessage, NextMessage, Drive, EncodeReplies, Frames;
    AnsweredInFront(ForSelectRsp, control, LinktestAnswers(control), EncodeMessage(m) + s);
    DriveStep(ForSelectRsp, m, s);
    NoReplies();
  }

  /** The selected side: linktests, then the Select.req, which is answered with Selected; all else fails. */
  lemma AcceptSelectEnds(st: SessionState, sessionId: u16, control: seq<Message>, m: Message, s: seq<byte>)
    requires AllLinktests(control) && Frameable(m) && !m.LinktestReq?
    requires st.input == Frames(control) + (EncodeMessage(m) + s)
    ensures var co := Invoke(st, sessionId, AcceptSelect);
            && co.after.input == s && co.after.nextSystemBytes == st.nextSystemBytes
            && (if m.SelectReq? then
                  && co.result == Ok(Established) && co.after.state == SessionSelected
                  && co.after.output == st.output + (EncodeReplies(LinktestAnswers(control))
                                                     + EncodeMessage(SelectRsp(m.systemBytes, Selected)))
                else
                  && co.result.Err? && co.after.state == st.state
                  && co.after.output == st.output + EncodeReplies(LinktestAnswers(control)))
  {
    hide EncodeMessage, NextMessage, Drive, EncodeReplies, Frames;
    AnsweredInFront(ForSelectReq, control, LinktestAnswers(control), EncodeMessage(m) + s);
    DriveStep(ForSelectReq, m, s);
    NoReplies();
    if m.SelectReq? {
      OneReply(SelectRsp(m.systemBytes, Selected));
    }
  }

  // ---------- serving ----------

  /** While waiting for a primary, every frame but a data message and a Separate is answered, and how. */
  lemma ControlAnswersSpelledOut(ms: seq<Message>, k: nat)
    requires k < |ms|
    ensures var m, answer := ms[k], ControlAnswers(ms)[k];
            && (m.LinktestReq? ==> answer == LinktestRsp(m.systemBytes))
            && (m.SelectReq? ==> answer == SelectRsp(m.systemBytes, AlreadySelected))
            && (m.LinktestRsp? ==> answer == Reject(m.systemBytes, 4, 0, 0))
            && (m.SelectRsp? || m.Reject? ==>
                  answer.Reject? && answer.reason == 4 && answer.rejectedS == answer.rejectedF == 0)
  {
  }
}
