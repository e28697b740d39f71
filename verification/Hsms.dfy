/**
 HSMS message framing (SEMI E37): a 4-byte length, a 10-byte header and, for data messages, a
 SECS-II body. The status of a Select.rsp and the fields of a Reject.req are written over system
 bytes, so a message survives the wire only up to `Normalize`.
 */
module Hsms {
  import opened Outcomes
  import opened Bytes
  import opened SecsItem

  datatype SelectStatus = Selected | AlreadySelected | SelectRefused

  datatype Message =
    | Data(session: u16, stream: byte, function_: byte, wBit: bool, systemBytes: u32, body: Option<Item>)
    | SelectReq(systemBytes: u32)
    | SelectRsp(systemBytes: u32, status: SelectStatus)
    | LinktestReq(systemBytes: u32)
    | LinktestRsp(systemBytes: u32)
    | Separate(systemBytes: u32)
    | Reject(systemBytes: u32, reason: byte, rejectedS: byte, rejectedF: byte)

  datatype Frame = Frame(message: Message, used: nat)

  function StatusCode(s: SelectStatus): byte
  {
    match s
    case Selected => 0
    case AlreadySelected => 1
    case SelectRefused => 2
  }

  function StatusOf(b: byte): SelectStatus
  {
    if b == 0 then Selected else if b == 1 then AlreadySelected else SelectRefused
  }

  function SType(m: Message): byte
  {
    match m
    case Data(_, _, _, _, _, _) => 0
    case SelectReq(_) => 1
    case SelectRsp(_, _) => 2
    case LinktestReq(_) => 5
    case LinktestRsp(_) => 6
    case Separate(_) => 9
    case Reject(_, _, _, _) => 7
  }

  /** What `encode` asks of its argument: the body, if any, can be encoded. */
  predicate Sendable(m: Message)
  {
    m.Data? && m.body.Some? ==> Encodable(m.body.value)
  }

  function BodyBytes(m: Message): seq<byte>
    requires Sendable(m)
  {
    if m.Data? && m.body.Some? then Encode(m.body.value) else []
  }

  /** The last four header bytes: the system bytes, partly overwritten. */
  function SystemWord(m: Message): (b: seq<byte>)
    ensures |b| == 4
  {
    var word := BigEndian(m.systemBytes, 4);
    match m
    case SelectRsp(_, status) => word[..3] + [StatusCode(status)]
    case Reject(_, reason, s, f) => [word[0], s, f, reason]
    case _ => word
  }

  function HeaderBytes(m: Message): (h: seq<byte>)
    ensures |h| == 10
  {
    (if m.Data? then BigEndian(m.session, 2) + [m.stream % 128 + if m.wBit then 128 else 0, m.function_ % 128]
     else [0, 0, 0, 0])
    + [0, SType(m)] + SystemWord(m)
  }

  /** `HsmsMessage::encode`; the length prefix is the truncating cast of the source. */
  function EncodeMessage(m: Message): (b: seq<byte>)
    requires Sendable(m)
    ensures |b| == 14 + |BodyBytes(m)|
  {
    BigEndian((10 + |BodyBytes(m)|) % TWO32, 4) + (HeaderBytes(m) + BodyBytes(m))
  }

  /** Messages whose length fits the 4-byte prefix. */
  predicate Frameable(m: Message)
  {
    Sendable(m) && 10 + |BodyBytes(m)| < TWO32
  }

  // ---------- decoding ----------

  function DecodeBody(body: seq<byte>): Result<Option<Item>, SecsError>
  {
    if body == [] then Ok(None)
    else
      var item :- ItemFromBytes(body);
      Ok(Some(item.item))
  }

  function DecodeMessage(header: seq<byte>, body: seq<byte>): Result<Message, SecsError>
    requires |header| == 10
  {
    BigEndianInverse(header[..2]);
    BigEndianInverse(header[6..10]);
    SmallPowers();
    var sb: u32 := FromBigEndian(header[6..10]);
    var stype := header[5];
    if stype == 0 && header[4] != 0 then Err(UnsupportedPType(header[4]))
    else if stype == 0 then
      var item :- DecodeBody(body);
      Ok(Data(FromBigEndian(header[..2]), header[2] % 128, header[3] % 128, header[2] >= 128, sb, item))
    else if stype == 1 then Ok(SelectReq(sb))
    else if stype == 2 then Ok(SelectRsp(sb, StatusOf(header[9])))
    else if stype == 5 then Ok(LinktestReq(sb))
    else if stype == 6 then Ok(LinktestRsp(sb))
    else if stype == 9 then Ok(Separate(sb))
    else if stype == 7 then Ok(Reject(sb, header[9], header[7], header[8]))
    else Ok(Reject(sb, stype, header[7], header[8]))
  }

  /** `HsmsMessage::from_bytes`: one message from the front of `data`. */
  function FrameFromBytes(data: seq<byte>): (r: Result<Frame, SecsError>)
    ensures r.Ok? ==> 14 <= r.value.used <= |data|
  {
    if |data| < 4 then Err(UnexpectedEof(4, |data|))
    else
      var total := FromBigEndian(data[..4]);
      if total < 10 then Err(BadHeaderSize(total))
      else if |data| < 4 + total then Err(UnexpectedEof(4 + total, |data|))
      else
        var message :- DecodeMessage(data[4..14], data[14..4 + total]);
        Ok(Frame(message, 4 + total))
  }

  // ---------- what survives the wire ----------

  function Normalize(m: Message): Message
  {
    match m
    case Data(session, stream, f, w, sb, body) => Data(session, stream % 128, f % 128, w, sb, body)
    case SelectRsp(sb, status) => SelectRsp(sb - sb % 256 + StatusCode(status), status)
    case Reject(sb, reason, s, f) =>
      Reject(sb - sb % 0x100_0000 + s * 0x1_0000 + f * 0x100 + reason, reason, s, f)
    case _ => m
  }

  lemma OverlayLow(n: u32, b: byte)
    ensures var o := n - n % 256 + b; 0 <= o < TWO32 && o / 256 == n / 256 && o % 256 == b
  {
  }

  lemma OverlayLow3(n: u32, x: byte, y: byte, z: byte)
    ensures var o := n - n % 0x100_0000 + x * 0x1_0000 + y * 0x100 + z;
            0 <= o < TWO32 && BigEndian(o, 4) == [n / 0x100_0000, x, y, z]
  {
    var q := n / 0x100_0000;
    var o := q * 0x100_0000 + x * 0x1_0000 + y * 0x100 + z;
    assert o / 0x100 == q * 0x1_0000 + x * 0x100 + y && o % 0x100 == z;
    assert o / 0x1_0000 == q * 0x100 + x && o / 0x100 % 0x100 == y;
    assert o / 0x100_0000 == q && o / 0x1_0000 % 0x100 == x;
    BigEndian4(o);
  }

  lemma SelectWordIsNormal(m: Message)
    requires m.SelectRsp?
    ensures SystemWord(m) == BigEndian(Normalize(m).systemBytes, 4)
  {
    var n, status := m.systemBytes, StatusCode(m.status);
    OverlayLow(n, status);
    assert BigEndian(n, 4)[..3] == BigEndian(n / 256, 3);
    assert SystemWord(m) == BigEndian(n / 256, 3) + [status];
  }

  lemma RejectWordIsNormal(m: Message)
    requires m.Reject?
    ensures SystemWord(m) == BigEndian(Normalize(m).systemBytes, 4)
  {
    hide BigEndian;
    OverlayLow3(m.systemBytes, m.rejectedS, m.rejectedF, m.reason);
    BigEndian4(m.systemBytes);
  }

  lemma SystemWordIsNormal(m: Message)
    ensures SystemWord(m) == BigEndian(Normalize(m).systemBytes, 4)
  {
    if m.SelectRsp? {
      SelectWordIsNormal(m);
    } else if m.Reject? {
      RejectWordIsNormal(m);
    } else {
      hide BigEndian;
    }
  }

  lemma SystemWordReadsBack(m: Message)
    ensures FromBigEndian(SystemWord(m)) == Normalize(m).systemBytes
  {
    SystemWordIsNormal(m);
    SmallPowers();
    BigEndianRoundTrip(Normalize(m).systemBytes, 4);
  }

  lemma HeaderRoundTrip(m: Message, body: seq<byte>)
    requires DecodeBody(body) == Ok(if m.Data? then m.body else None)
    ensures DecodeMessage(HeaderBytes(m), body) == Ok(Normalize(m))
  {
    hide DecodeBody, BigEndian, FromBigEndian, SystemWord;
    var h := HeaderBytes(m);
    assert h[6..10] == SystemWord(m);
    SystemWordReadsBack(m);
    assert h[4..6] == [0, SType(m)] && h[4] == h[4..6][0] && h[5] == h[4..6][1];
    assert forall k | 0 <= k < 4 :: h[6 + k] == SystemWord(m)[k];
    if m.Data? {
      assert h[..2] == BigEndian(m.session, 2);
      SmallPowers();
      BigEndianRoundTrip(m.session, 2);
    }
    if m.SelectRsp? || m.Reject? {
      assert h[9] == SystemWord(m)[3] && h[8] == SystemWord(m)[2] && h[7] == SystemWord(m)[1];
      OverlaidFields(m);
    }
  }

  lemma OverlaidFields(m: Message)
    ensures m.SelectRsp? ==> SystemWord(m)[3] == StatusCode(m.status)
    ensures m.Reject? ==> SystemWord(m)[1..] == [m.rejectedS, m.rejectedF, m.reason]
  {
  }

  // ---------- round trip ----------

  lemma BodyRoundTrip(m: Message)
    requires Sendable(m)
    ensures DecodeBody(BodyBytes(m)) == Ok(if m.Data? then m.body else None)
  {
    if m.Data? && m.body.Some? {
      var b := Encode(m.body.value);
      ItemRoundTrip(m.body.value, []);
      assert b + [] == b;
    }
  }

  /** One message from the front of its encoding, whatever follows: its normal form. */
  lemma FrameRoundTrip(m: Message, s: seq<byte>)
    requires Frameable(m)
    ensures FrameFromBytes(EncodeMessage(m) + s) == Ok(Frame(Normalize(m), |EncodeMessage(m)|))
  {
    hide DecodeMessage, HeaderBytes, BodyBytes, DecodeBody, Normalize, Sendable, BigEndian, FromBigEndian;
    var header, body, total := HeaderBytes(m), BodyBytes(m), 10 + |BodyBytes(m)|;
    var data := EncodeMessage(m) + s;
    assert data[..4] == BigEndian(total, 4);
    SmallPowers();
    BigEndianRoundTrip(total, 4);
    assert data[4..14] == header && data[14..4 + total] == body;
    BodyRoundTrip(m);
    HeaderRoundTrip(m, body);
  }

  /** Normalizing twice is normalizing once, and it does not change what is sent. */
  lemma NormalizeIsCanonical(m: Message)
    requires Sendable(m)
    ensures Normalize(Normalize(m)) == Normalize(m)
    ensures Sendable(Normalize(m)) && EncodeMessage(Normalize(m)) == EncodeMessage(m)
  {
    hide BigEndian;
    var n := Normalize(m);
    SystemWordIsNormal(m);
    SystemWordIsNormal(n);
    OverlayTwice(m);
    assert HeaderBytes(n) == HeaderBytes(m);
  }

  lemma OverlayTwice(m: Message)
    ensures Normalize(Normalize(m)) == Normalize(m)
  {
    match m
    case SelectRsp(sb, status) => OverlayLow(sb, StatusCode(status));
    case Reject(sb, reason, s, f) =>
      var low := s * 0x1_0000 + f * 0x100 + reason;
      var q := sb / 0x100_0000;
      assert (q * 0x100_0000 + low) % 0x100_0000 == low;
    case _ =>
  }

  /** Exactly which messages the wire leaves unchanged. */
  lemma {:induction false} UnchangedOnTheWireIff(m: Message)
    ensures Normalize(m) == m <==>
            match m
            case Data(_, stream, f, _, _, _) => stream < 128 && f < 128
            case SelectRsp(sb, status) => sb % 256 == StatusCode(status)
            case Reject(sb, reason, s, f) => sb % 0x100_0000 == s * 0x1_0000 + f * 0x100 + reason
            case _ => true
  {
  }

  /**
   Decoded frames are not always in normal form: an unknown SType becomes a Reject whose reason is
   the SType, and an unknown status becomes `SelectRefused`. They are in normal form exactly when
   the last header byte already holds what an encoder would write there.
   */
  lemma {:induction false} DecodedFrameIsNormalIff(header: seq<byte>, body: seq<byte>)
    requires |header| == 10 && DecodeMessage(header, body).Ok?
    ensures var m := DecodeMessage(header, body).value;
            Normalize(m) == m <==>
            (header[5] in {0, 1, 5, 6, 7, 9} || (header[5] == 2 && header[9] <= 2) || header[9] == header[5])
  {
    hide DecodeBody;
    var m := DecodeMessage(header, body).value;
    var word := header[6..10];
    BigEndianInverse(word);
    SmallPowers();
    hide BigEndian, FromBigEndian;
    BigEndian4(m.systemBytes);
    assert [word[0], word[1], word[2], word[3]] == word;
    assert m.systemBytes % 256 == header[9];
    UnchangedOnTheWireIff(m);
    LowThreeBytes(m.systemBytes);
  }

  lemma LowThreeBytes(n: u32)
    ensures n % 0x100_0000 == (n / 0x1_0000 % 256) * 0x1_0000 + (n / 256 % 256) * 0x100 + n % 256
  {
    var q1, q2, q3 := n / 0x100, n / 0x1_0000, n / 0x100_0000;
    assert n == q1 * 256 + n % 256;
    assert q1 == q2 * 256 + q1 % 256;
    assert q2 == q3 * 256 + q2 % 256;
    var low := (q2 % 256) * 0x1_0000 + (q1 % 256) * 0x100 + n % 256;
    assert n == q3 * 0x100_0000 + low && 0 <= low < 0x100_0000;
  }

  // ---------- encoding into a buffer ----------

  lemma HeaderFields(m: Message)
    ensures var h := HeaderBytes(m);
            && (forall k | 0 <= k < 4 :: h[6 + k] == SystemWord(m)[k])
            && (forall k | 6 <= k < 10 :: h[k] == SystemWord(m)[k - 6])
            && h[4] == 0 && h[5] == SType(m)
            && (!m.Data? ==> h[0] == h[1] == h[2] == h[3] == 0)
            && (m.Data? ==> h[0] == BigEndian(m.session, 2)[0] && h[1] == BigEndian(m.session, 2)[1])
            && (m.Data? ==> h[2] == m.stream % 128 + (if m.wBit then 128 else 0) && h[3] == m.function_ % 128)
  {
    hide BigEndian, SystemWord;
  }

  /** The header array, zeroed and then written field by field. */
  method FillHeader(m: Message, header: array<byte>)
    requires header.Length == 10 && forall k | 0 <= k < 10 :: header[k] == 0
    modifies header
    ensures header[..] == HeaderBytes(m)
  {
    hide BigEndian, HeaderBytes;
    header[5] := SType(m);
    var word := BigEndian(m.systemBytes, 4);
    header[6], header[7], header[8], header[9] := word[0], word[1], word[2], word[3];
    match m {
      case Data(session, stream, f, w, _, item) =>
        var id := BigEndian(session, 2);
        var b2 := stream % 128;
        if w {
          b2 := b2 + 128;
        }
        header[0], header[1], header[2], header[3] := id[0], id[1], b2, f % 128;
      case SelectRsp(_, status) =>
        header[9] := StatusCode(status);
      case Reject(_, reason, s, f) =>
        header[7], header[8], header[9] := s, f, reason;
      case _ =>
    }
    HeaderFields(m);
    assert forall k | 0 <= k < 4 :: header[6 + k] == SystemWord(m)[k];
    assert forall k | 0 <= k < 10 :: header[..][k] == HeaderBytes(m)[k];
  }

  /** `HsmsMessage::encode`: append length, header and body to a buffer. */
  method EncodeMessageInto(m: Message, out: ByteBuffer)
    requires Sendable(m)
    modifies out
    ensures out.data == old(out.data) + EncodeMessage(m)
  {
    hide BigEndian, HeaderBytes, Encode;
    var header := new byte[10](_ => 0);
    FillHeader(m, header);
    var body := new ByteBuffer();
    if m.Data? && m.body.Some? {
      EncodeInto(m.body.value, body);
    }
    var length := BigEndian((10 + |body.data|) % TWO32, 4);
    out.Extend(length);
    out.Extend(header[..]);
    out.Extend(body.data);
    Associates(old(out.data), length, header[..] + body.data);
    Associates(old(out.data) + length, header[..], body.data);
  }
}
