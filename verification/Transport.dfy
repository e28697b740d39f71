/**
 The in-memory byte pipe and the framed reader on top of it.

 A `Pipe` is one direction of the duplex. `inFlight` is what its writer will still write before
 it is dropped; a blocked reader wakes up when some of it has arrived, however it was split.
 */
module Transport {
  import opened Outcomes
  import opened Bytes
  import opened SecsItem
  import opened Hsms

  class Pipe {
    var buffer: seq<byte>
    var closed: bool
    var inFlight: seq<byte>

    ghost predicate Valid()
      reads this
    {
      closed ==> inFlight == []
    }

    /** Everything that will ever be read from here. */
    ghost function Stream(): seq<byte>
      reads this
    {
      buffer + inFlight
    }

    constructor (inFlight: seq<byte>)
      ensures Valid() && buffer == [] && Stream() == inFlight && !closed
    {
      buffer, closed, this.inFlight := [], false, inFlight;
    }

    /** `write_bytes`: all of it, or nothing once the pipe is closed. */
    method WriteBytes(data: seq<byte>) returns (ok: bool)
      requires Valid() && inFlight == []
      modifies this`buffer
      ensures Valid()
      ensures ok == !closed
      ensures Stream() == if ok then old(Stream()) + data else old(Stream())
    {
      if closed {
        return false;
      }
      buffer := buffer + data;
      return true;
    }

    /** The condition variable: sleep until bytes have arrived or the writer is gone. */
    method Wait()
      requires Valid() && !closed
      modifies this
      ensures Valid() && Stream() == old(Stream())
      ensures buffer != old(buffer) || closed
    {
      if inFlight == [] {
        closed := true;
      } else {
        var n :| 0 < n <= |inFlight|;
        assert inFlight == inFlight[..n] + inFlight[n..];
        buffer, inFlight := buffer + inFlight[..n], inFlight[n..];
      }
    }

    /** `read_bytes`: at most `want` bytes; none only when nothing will ever come. */
    method ReadBytes(want: nat) returns (got: seq<byte>)
      requires Valid() && want > 0
      modifies this
      ensures Valid()
      ensures |got| <= want && got + Stream() == old(Stream())
      ensures got == [] <==> old(Stream()) == []
    {
      if buffer == [] && !closed {
        Wait();
      }
      if buffer == [] {
        return [];
      }
      var n := if want < |buffer| then want else |buffer|;
      got := buffer[..n];
      assert buffer == got + buffer[n..];
      Associates(got, buffer[n..], inFlight);
      buffer := buffer[n..];
    }

    /** Dropping the writing half: what was written stays readable. */
    method Close()
      requires Valid() && inFlight == []
      modifies this`closed
      ensures Valid() && closed && Stream() == old(Stream())
    {
      closed := true;
    }
  }

  // ---------- framed reading ----------

  /** `wanted` bytes off the front of a stream, or how far it got. */
  function TakeExact(s: seq<byte>, wanted: nat): Result<seq<byte>, SecsError>
  {
    if |s| < wanted then Err(UnexpectedEof(wanted, |s|)) else Ok(s[..wanted])
  }

  function RestAfter(s: seq<byte>, wanted: nat): seq<byte>
  {
    if |s| < wanted then [] else s[wanted..]
  }

  datatype Received = Received(message: Result<Message, SecsError>, rest: seq<byte>)

  /** What one `read_message` makes of a stream: its outcome and the bytes left over. */
  function NextMessage(s: seq<byte>): (r: Received)
    ensures r.message.Ok? ==> |r.rest| + 4 <= |s|
  {
    if |s| < 4 then Received(Err(UnexpectedEof(4, |s|)), [])
    else
      var total := FromBigEndian(s[..4]);
      if |s| - 4 < total then Received(Err(UnexpectedEof(total, |s| - 4)), [])
      else
        var frame := FrameFromBytes(s[..4 + total]);
        Received(if frame.Ok? then Ok(frame.value.message) else Err(frame.error), s[4 + total..])
  }

  /** `read_exact_counted`: read in pieces until the buffer is full. */
  method ReadExactCounted(pipe: Pipe, wanted: nat) returns (r: Result<seq<byte>, SecsError>)
    requires pipe.Valid()
    modifies pipe
    ensures pipe.Valid()
    ensures r == TakeExact(old(pipe.Stream()), wanted)
    ensures pipe.Stream() == RestAfter(old(pipe.Stream()), wanted)
  {
    var buf: seq<byte> := [];
    while |buf| < wanted
      invariant pipe.Valid() && |buf| <= wanted
      invariant buf + pipe.Stream() == old(pipe.Stream())
      decreases wanted - |buf|
    {
      var got := pipe.ReadBytes(wanted - |buf|);
      if got == [] {
        assert pipe.Stream() == [];
        return Err(UnexpectedEof(wanted, |buf|));
      }
      Associates(buf, got, pipe.Stream());
      buf := buf + got;
    }
    return Ok(buf);
  }

  /** `read_message`: the length prefix, then that many bytes, then decode the whole frame. */
  method ReadMessage(pipe: Pipe) returns (r: Result<Message, SecsError>)
    requires pipe.Valid()
    modifies pipe
    ensures pipe.Valid()
    ensures NextMessage(old(pipe.Stream())) == Received(r, pipe.Stream())
  {
    hide FrameFromBytes;
    var lengthBytes := ReadExactCounted(pipe, 4);
    if lengthBytes.Err? {
      return Err(lengthBytes.error);
    }
    var total := FromBigEndian(lengthBytes.value);
    var rest := ReadExactCounted(pipe, total);
    if rest.Err? {
      return Err(rest.error);
    }
    assert lengthBytes.value + rest.value == old(pipe.Stream())[..4 + total];
    var frame := FrameFromBytes(lengthBytes.value + rest.value);
    return if frame.Ok? then Ok(frame.value.message) else Err(frame.error);
  }

  predicate AllFrameable(ms: seq<Message>)
  {
    forall k | 0 <= k < |ms| :: Frameable(ms[k])
  }

  /** The bytes of messages sent one after the other. */
  function Frames(ms: seq<Message>): seq<byte>
    requires AllFrameable(ms)
  {
    if ms == [] then [] else EncodeMessage(ms[0]) + Frames(ms[1..])
  }

  lemma {:induction false} FramesAppend(ms: seq<Message>, m: Message)
    requires AllFrameable(ms) && Frameable(m)
    ensures AllFrameable(ms + [m])
    ensures Frames(ms + [m]) == Frames(ms) + EncodeMessage(m)
  {
    hide EncodeMessage, BodyBytes, Encodable;
    if ms == [] {
      assert (ms + [m])[1..] == [];
    } else {
      FramesAppend(ms[1..], m);
      assert (ms + [m])[1..] == ms[1..] + [m];
      Associates(EncodeMessage(ms[0]), Frames(ms[1..]), EncodeMessage(m));
    }
  }

  /** The length prefix of an encoding announces the rest of it. */
  lemma PrefixAnnounces(m: Message)
    requires Frameable(m)
    ensures FromBigEndian(EncodeMessage(m)[..4]) == |EncodeMessage(m)| - 4
  {
    hide BodyBytes, HeaderBytes, BigEndian, FromBigEndian;
    assert EncodeMessage(m)[..4] == BigEndian(10 + |BodyBytes(m)|, 4);
    SmallPowers();
    BigEndianRoundTrip(10 + |BodyBytes(m)|, 4);
  }

  lemma NextMessageRoundTrip(m: Message, s: seq<byte>)
    requires Frameable(m)
    ensures NextMessage(EncodeMessage(m) + s) == Received(Ok(Normalize(m)), s)
  {
    hide EncodeMessage, FrameFromBytes, Normalize, BodyBytes, Encodable, FromBigEndian;
    var frame := EncodeMessage(m);
    var data := frame + s;
    PrefixAnnounces(m);
    assert data[..4] == frame[..4];
    assert data[..|frame|] == frame + [] && data[|frame|..] == s;
    FrameRoundTrip(m, []);
  }

  datatype ReceivedAll = ReceivedAll(messages: seq<Message>, rest: seq<byte>)

  /** `count` calls of `read_message`, stopping at the first error. */
  function ReadMessages(s: seq<byte>, count: nat): Result<ReceivedAll, SecsError>
  {
    if count == 0 then Ok(ReceivedAll([], s))
    else
      var next := NextMessage(s);
      var first :- next.message;
      var others :- ReadMessages(next.rest, count - 1);
      Ok(ReceivedAll([first] + others.messages, others.rest))
  }

  function NormalizeAll(ms: seq<Message>): (ns: seq<Message>)
    ensures |ns| == |ms|
  {
    seq(|ms|, k requires 0 <= k < |ms| => Normalize(ms[k]))
  }

  /** Reading as many messages as were sent yields their normal forms in order and no more. */
  lemma {:induction false} FramesReadBack(ms: seq<Message>, s: seq<byte>)
    requires AllFrameable(ms)
    ensures ReadMessages(Frames(ms) + s, |ms|) == Ok(ReceivedAll(NormalizeAll(ms), s))
  {
    hide EncodeMessage, NextMessage, Normalize, BodyBytes, Encodable;
    if ms == [] {
      assert Frames(ms) + s == s;
    } else {
      Associates(EncodeMessage(ms[0]), Frames(ms[1..]), s);
      NextMessageRoundTrip(ms[0], Frames(ms[1..]) + s);
      FramesReadBack(ms[1..], s);
      assert NormalizeAll(ms) == [Normalize(ms[0])] + NormalizeAll(ms[1..]);
    }
  }

  /** The same over a pipe: however the reads are split, the messages come out in order. */
  method ReceiveMessages(pipe: Pipe, count: nat) returns (r: Result<seq<Message>, SecsError>)
    requires pipe.Valid()
    modifies pipe
    ensures pipe.Valid()
    ensures match ReadMessages(old(pipe.Stream()), count)
            case Ok(all) => r == Ok(all.messages) && pipe.Stream() == all.rest
            case Err(e) => r == Err(e)
  {
    hide NextMessage;
    if count == 0 {
      return Ok([]);
    }
    var first := ReadMessage(pipe);
    if first.Err? {
      return Err(first.error);
    }
    var others := ReceiveMessages(pipe, count - 1);
    if others.Err? {
      return Err(others.error);
    }
    return Ok([first.value] + others.value);
  }
}
