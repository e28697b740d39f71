/** What any wait of a session yields, and how what it writes adds up. */
module SessionWaits {
  import opened Bytes
  import opened SecsItem
  import opened Hsms
  import opened Transport
  import opened Session

  lemma EmptyListIsEncodable()
    ensures Encodable(List([]))
  {
  }

  lemma {:induction false} AppendSendable(a: seq<Message>, b: seq<Message>)
    requires AllSendable(a) && AllSendable(b)
    ensures AllSendable(a + b) && EncodeReplies(a + b) == EncodeReplies(a) + EncodeReplies(b)
  {
    hide Sendable, EncodeMessage;
    if a == [] {
      assert a + b == b;
    } else {
      assert (a + b)[1..] == a[1..] + b;
      AppendSendable(a[1..], b);
      Associates(EncodeMessage(a[0]), EncodeReplies(a[1..]), EncodeReplies(b));
    }
  }

  /** The value a wait can end with. */
  predicate RightKind(w: Waiting, v: Value)
  {
    match w
    case ForReply(_, _) => v.Reply?
    case ForPrimary(_) => v.Primary?
    case _ => v.Established?
  }

  lemma {:induction false} WaitGivesItsKind(w: Waiting, s: seq<byte>)
    requires WellBehaved(w)
    ensures var o := Drive(w, s); o.result.Ok? ==> RightKind(w, o.result.value) && !o.deselected
    decreases |s|
  {
    hide NextMessage, EncodeMessage;
    var next := NextMessage(s);
    if next.message.Ok? {
      RepliesAreSendable(w, next.message.value);
      if React(w, next.message.value).Answer? {
        WaitGivesItsKind(w, next.rest);
      }
    }
  }

  lemma {:induction false} WaitUsesInput(w: Waiting, s: seq<byte>)
    requires WellBehaved(w)
    ensures Drive(w, s).result.Ok? ==> |Drive(w, s).rest| < |s|
    decreases |s|
  {
    hide NextMessage, EncodeMessage, React;
    var next := NextMessage(s);
    if next.message.Ok? {
      RepliesAreSendable(w, next.message.value);
      if React(w, next.message.value).Answer? {
        WaitUsesInput(w, next.rest);
      }
    }
  }
}
