/**
 SECS-II items and HSMS frames byte for byte, and which bytes are no frame: the wire format without the
 functions that the encoder and the decoder share.
 */
module WireLayout {
  import opened Outcomes
  import opened Bytes
  import opened Utf8
  import opened SecsItem
  import opened Hsms
  import opened Transport

  // ---------- numbers ----------

  /** Byte `k` of a number of `width` bytes, most significant first; negative ones in two's complement. */
  function Digit(n: int, width: nat, k: nat): byte
    requires k < width
  {
    n / Pow256(width - 1 - k) % 256
  }

  function Digits(n: int, width: nat): (b: seq<byte>)
    ensures |b| == width
  {
    seq(width, k requires 0 <= k < width => Digit(n, width, k))
  }

  lemma {:induction false} BigEndianDigits(n: nat, width: nat)
    ensures BigEndian(n, width) == Digits(n, width)
  {
    if width > 0 {
      BigEndianDigits(n / 256, width - 1);
      forall k | 0 <= k < width ensures BigEndian(n, width)[k] == Digit(n, width, k) {
        if k < width - 1 {
          DivDiv(n, Pow256(width - 2 - k));
          assert BigEndian(n, width)[k] == BigEndian(n / 256, width - 1)[k];
        }
      }
    }
  }

  lemma DivDiv(n: nat, p: nat)
    requires p > 0
    ensures n / 256 / p == n / (256 * p)
  {
    var q, r := n / 256, n % 256;
    var a, b := q / p, q % p;
    assert q == a * p + b && n == q * 256 + r;
    assert n == a * (256 * p) + (b * 256 + r);
    assert b * 256 + r < 256 * p;
    QuotientIs(n, 256 * p, a, b * 256 + r);
  }

  lemma Multiples(k: int, d: int)
    requires d > 0
    ensures k > 0 ==> k * d >= d
    ensures k < 0 ==> k * d <= -d
  {
  }

  lemma QuotientIs(n: int, d: int, q: int, r: int)
    requires d > 0 && n == q * d + r && 0 <= r < d
    ensures n / d == q && n % d == r
  {
    var k := n / d - q;
    Multiples(k, d);
    assert k * d == n / d * d - q * d;
  }

  lemma WrapsAt(v: int, p: int, m: int)
    requires p > 0
    ensures (v + p * m * 256) / p % 256 == v / p % 256
  {
    var q, r := v / p, v % p;
    assert v + p * m * 256 == (q + m * 256) * p + r;
    QuotientIs(v + p * m * 256, p, q + m * 256, r);
    LowByte(q, m);
  }

  lemma WrappedDigits(v: int, width: nat)
    requires width > 0
    ensures Digits(v + Pow256(width), width) == Digits(v, width)
  {
    forall k | 0 <= k < width ensures Digit(v + Pow256(width), width, k) == Digit(v, width, k) {
      PowersMultiply(width - 1 - k, k);
      hide Pow256;
      WrapsAt(v, Pow256(width - 1 - k), Pow256(k));
    }
  }

  lemma {:induction false} PowersMultiply(a: nat, b: nat)
    ensures Pow256(a + b + 1) == Pow256(a) * Pow256(b) * 256
  {
    if b == 0 {
      assert Pow256(a) * Pow256(0) * 256 == 256 * Pow256(a);
    } else {
      PowersMultiply(a, b - 1);
      Regroup(Pow256(a), Pow256(b - 1));
    }
  }

  lemma Regroup(p: nat, q: nat)
    ensures 256 * (p * q * 256) == p * (256 * q) * 256
  {
  }

  // ---------- items ----------

  /** The format codes. SEMI E5 gives F4 the code octal 44, which is 36. */
  function FormatCode(f: Format): nat
  {
    match f
    case ListFormat => 0
    case BinaryFormat => 8
    case BooleanFormat => 9
    case AsciiFormat => 16
    case JisFormat => 17
    case NumberFormat(n) =>
      match n
      case I8 => 24
      case I1 => 25
      case I2 => 26
      case I4 => 28
      case F8 => 32
      case F4 => 33
      case U8 => 40
      case U1 => 41
      case U2 => 42
      case U4 => 44
  }

  /** The format code with the number of length bytes in its two low bits, and the length. */
  function HeaderSpelled(code: nat, length: nat): seq<byte>
    requires code < 64 && length < 0x100_0000
  {
    if length < 0x100 then [4 * code + 1, length]
    else if length < 0x1_0000 then [4 * code + 2, length / 0x100, length % 0x100]
    else [4 * code + 3, length / 0x1_0000, length / 0x100 % 0x100, length % 0x100]
  }

  function NumbersSpelled(values: seq<int>, width: nat): (b: seq<byte>)
  {
    if values == [] then [] else Digits(values[0], width) + NumbersSpelled(values[1..], width)
  }

  function NumberWidth(n: NumberFormat): nat
  {
    match n
    case I1 | U1 => 1
    case I2 | U2 => 2
    case I4 | U4 | F4 => 4
    case I8 | U8 | F8 => 8
  }

  /** An item as its bytes: a list counts its items, anything else its bytes. */
  ghost function ItemSpelled(i: Item): seq<byte>
    requires Fits(i)
    decreases i, 1
  {
    match i
    case List(items) => HeaderSpelled(0, |items|) + ItemsSpelled(items)
    case Binary(b) => HeaderSpelled(8, |b|) + b
    case Boolean(flags) => HeaderSpelled(9, |flags|) + seq(|flags|, k requires 0 <= k < |flags| => if flags[k] then 1 else 0)
    case Ascii(text) => HeaderSpelled(16, |text|) + text
    case Jis(b) => HeaderSpelled(17, |b|) + b
    case Number(n, values) =>
      HeaderSpelled(FormatCode(NumberFormat(n)), NumberWidth(n) * |values|) + NumbersSpelled(values, NumberWidth(n))
  }

  ghost function ItemsSpelled(items: seq<Item>): seq<byte>
    requires forall k | 0 <= k < |items| :: Fits(items[k])
    decreases items, 0
  {
    if items == [] then [] else ItemSpelled(items[0]) + ItemsSpelled(items[1..])
  }

  lemma OneMore(n: nat, width: nat)
    requires width > 0
    ensures BigEndian(n, width) == BigEndian(n / 256, width - 1) + [n % 256]
    ensures BigEndian(n, 0) == []
  {
  }

  lemma OneDigit(n: nat)
    ensures BigEndian(n, 1) == [n % 256]
  {
    hide BigEndian;
    OneMore(n, 1);
    OneMore(n / 256, 1);
  }

  lemma TwoDigits(n: nat)
    ensures BigEndian(n, 2) == [n / 256 % 256, n % 256]
  {
    hide BigEndian;
    OneMore(n, 2);
    OneDigit(n / 256);
  }

  lemma ThreeDigits(n: nat)
    ensures BigEndian(n, 3) == [n / 0x1_0000 % 256, n / 256 % 256, n % 256]
  {
    hide BigEndian;
    OneMore(n, 3);
    TwoDigits(n / 256);
    DivDiv(n, 256);
  }

  lemma CodeIsFormatCode(f: Format)
    ensures Code(f) == 4 * FormatCode(f) && FormatCode(f) < 64
  {
  }

  lemma HeaderIsSpelledOut(f: Format, length: nat)
    requires length <= MAX_LENGTH
    ensures FormatCode(f) < 64 && Header(f, length) == HeaderSpelled(FormatCode(f), length)
  {
    hide Code, FormatCode, BigEndian;
    CodeIsFormatCode(f);
    OneDigit(length);
    TwoDigits(length);
    ThreeDigits(length);
  }

  lemma ElementIsSpelledOut(n: NumberFormat, v: int)
    requires InRange(n, v)
    ensures BigEndian(ToBits(n, v), Width(n)) == Digits(v, NumberWidth(n))
  {
    BigEndianDigits(ToBits(n, v), Width(n));
    WrappedDigits(v, Width(n));
    hide Digits, Pow256, BigEndian;
  }

  lemma {:induction false} ElementsAreSpelledOut(n: NumberFormat, values: seq<int>)
    requires AllInRange(n, values)
    ensures Elements(n, values) == NumbersSpelled(values, NumberWidth(n))
  {
    hide BigEndian, Digits, InRange, ToBits;
    if values != [] {
      ElementIsSpelledOut(n, values[0]);
      ElementsAreSpelledOut(n, values[1..]);
    }
  }

  /** Every item as it is written, at every depth. */
  lemma {:induction false} ItemIsSpelledOut(i: Item)
    requires Encodable(i)
    ensures Encode(i) == ItemSpelled(i)
    decreases i, 1
  {
    hide Header, HeaderSpelled, Elements, NumbersSpelled, ValidText;
    HeaderIsSpelledOut(FormatOf(i), HeaderLength(i));
    match i
    case List(items) => ItemsAreSpelledOut(items);
    case Number(n, values) => ElementsAreSpelledOut(n, values);
    case _ =>
  }

  lemma {:induction false} ItemsAreSpelledOut(items: seq<Item>)
    requires AllEncodable(items)
    ensures EncodeAll(items) == ItemsSpelled(items)
    decreases items, 0
  {
    hide Encode, ItemSpelled;
    if items != [] {
      ItemIsSpelledOut(items[0]);
      ItemsAreSpelledOut(items[1..]);
    }
  }

  // ---------- frames ----------

  function Word(n: u32): seq<byte>
  {
    [n / 0x100_0000, n / 0x1_0000 % 256, n / 0x100 % 256, n % 256]
  }

  /** Session, stream with the W-bit on top, function, and the two bytes of the kind. */
  function HeaderOf(m: Message): seq<byte>
  {
    match m
    case Data(session, stream, f, w, sb, _) =>
      [session / 256, session % 256, stream % 128 + (if w then 128 else 0), f % 128, 0, 0] + Word(sb)
    case SelectReq(sb) => [0, 0, 0, 0, 0, 1] + Word(sb)
    case SelectRsp(sb, status) =>
      [0, 0, 0, 0, 0, 2] + Word(sb)[..3] + [match status case Selected => 0 case AlreadySelected => 1 case SelectRefused => 2]
    case LinktestReq(sb) => [0, 0, 0, 0, 0, 5] + Word(sb)
    case LinktestRsp(sb) => [0, 0, 0, 0, 0, 6] + Word(sb)
    case Reject(sb, reason, s, f) => [0, 0, 0, 0, 0, 7] + [sb / 0x100_0000, s, f, reason]
    case Separate(sb) => [0, 0, 0, 0, 0, 9] + Word(sb)
  }

  function BodyOf(m: Message): (b: seq<byte>)
    requires Sendable(m)
  {
    if m.Data? && m.body.Some? then Encode(m.body.value) else []
  }

  lemma WordIs(n: u32)
    ensures BigEndian(n, 4) == Word(n)
  {
    hide BigEndian;
    BigEndian4(n);
  }

  lemma BodyOfIsBody(m: Message)
    requires Sendable(m)
    ensures BodyBytes(m) == BodyOf(m)
  {
    hide Encode, Encodable;
  }

  /** Every frame as it is written: its length, its header, its body. */
  lemma FrameIsSpelledOut(m: Message)
    requires Frameable(m)
    ensures EncodeMessage(m) == Word(10 + |BodyOf(m)|) + HeaderOf(m) + BodyOf(m)
  {
    hide BigEndian, BodyOf, BodyBytes, HeaderOf, HeaderBytes, Word, Sendable;
    BodyOfIsBody(m);
    WordIs(10 + |BodyOf(m)|);
    HeaderOfIsHeader(m);
    Associates(Word(10 + |BodyOf(m)|), HeaderOf(m), BodyOf(m));
  }

  lemma HeaderOfIsHeader(m: Message)
    ensures HeaderBytes(m) == HeaderOf(m)
  {
    hide BigEndian;
    BigEndian4(m.systemBytes);
    if m.Data? {
      TwoDigits(m.session);
    }
  }

  // ---------- what is no item and no frame ----------

  lemma {:induction false} FromBigEndianDigits(b: seq<byte>)
    ensures |b| == 1 ==> FromBigEndian(b) == b[0]
    ensures |b| == 2 ==> FromBigEndian(b) == b[0] as int * 0x100 + b[1]
    ensures |b| == 3 ==> FromBigEndian(b) == b[0] as int * 0x1_0000 + b[1] as int * 0x100 + b[2]
    ensures |b| == 4 ==>
              FromBigEndian(b) == b[0] as int * 0x100_0000 + b[1] as int * 0x1_0000 + b[2] as int * 0x100 + b[3]
  {
    if 1 <= |b| <= 4 {
      var front := b[..|b| - 1];
      FromBigEndianDigits(front);
      assert forall k :: 0 <= k < |front| ==> front[k] == b[k];
    }
  }

  /** The format codes that there are. */
  predicate IsCode(code: nat)
  {
    code in {0, 8, 9, 16, 17, 24, 25, 26, 28, 32, 33, 40, 41, 42, 44}
  }

  /** How the front of a byte string fails to be the header of an item. */
  lemma WhatIsNoItem(d: seq<byte>)
    ensures d == [] ==> DecodeItem(d) == Err(UnexpectedEof(1, 0))
    ensures d != [] && !IsCode(d[0] / 4) ==> DecodeItem(d) == Err(InvalidItemHeader(d[0]))
    ensures d != [] && IsCode(d[0] / 4) && d[0] % 4 == 0 ==> DecodeItem(d) == Err(InvalidItemLengthBits)
    ensures d != [] && IsCode(d[0] / 4) && d[0] % 4 > |d| - 1 ==>
              DecodeItem(d) == Err(UnexpectedEof(d[0] % 4, |d| - 1))
  {
    hide FromBigEndian, DecodeItems, FromPayload;
    if d != [] {
      var code := d[0] - d[0] % 4;
      assert code == d[0] / 4 * 4;
    }
  }

  /** And how what follows the header of an item other than a list can be too short. */
  lemma WhatIsTooShort(d: seq<byte>, length: nat)
    requires d != [] && IsCode(d[0] / 4) && d[0] / 4 != 0 && 0 < d[0] % 4 <= |d| - 1
    requires var b := d[1..1 + d[0] % 4];
             length == if |b| == 1 then b[0] else if |b| == 2 then b[0] as int * 0x100 + b[1]
                       else b[0] as int * 0x1_0000 + b[1] as int * 0x100 + b[2]
    ensures var left := |d| - 1 - d[0] % 4;
            if length > left then DecodeItem(d) == Err(ItemLengthOverflow(length, left)) else DecodeItem(d).Ok?
  {
    FromBigEndianDigits(d[1..1 + d[0] % 4]);
    var code := d[0] - d[0] % 4;
    assert code == d[0] / 4 * 4;
    hide FromBigEndian, DecodeItems, FromPayload;
  }

  /** How a byte string fails to start with a frame. */
  lemma WhatIsNoFrame(d: seq<byte>, total: nat)
    requires |d| >= 4 ==>
               total == d[0] as int * 0x100_0000 + d[1] as int * 0x1_0000 + d[2] as int * 0x100 + d[3]
    ensures |d| < 4 ==> FrameFromBytes(d) == Err(UnexpectedEof(4, |d|))
    ensures |d| >= 4 && total < 10 ==> FrameFromBytes(d) == Err(BadHeaderSize(total))
    ensures 4 <= |d| < 4 + total && total >= 10 ==> FrameFromBytes(d) == Err(UnexpectedEof(4 + total, |d|))
    ensures |d| >= 4 + total && total >= 10 ==>
              && (d[9] != 0 ==> FrameFromBytes(d).Ok?)
              && (d[9] == 0 && d[8] != 0 ==> FrameFromBytes(d) == Err(UnsupportedPType(d[8])))
              && (d[9] == 0 && d[8] == 0 ==>
                    (FrameFromBytes(d).Ok? <==> total == 10 || ItemFromBytes(d[14..4 + total]).Ok?))
  {
    if |d| >= 4 {
      FromBigEndianDigits(d[..4]);
      assert d[..4][0] == d[0] && d[..4][1] == d[1] && d[..4][2] == d[2] && d[..4][3] == d[3];
    }
    hide FromBigEndian, ItemFromBytes;
  }

  /** A stream that ends within a frame: how much was wanted and how much there was. */
  lemma CutFrameIsNoMessage(m: Message, n: nat)
    requires Frameable(m) && n < |EncodeMessage(m)|
    ensures NextMessage(EncodeMessage(m)[..n])
         == Received(Err(if n < 4 then UnexpectedEof(4, n) else UnexpectedEof(|EncodeMessage(m)| - 4, n - 4)), [])
  {
    hide EncodeMessage, FromBigEndian, FrameFromBytes, BodyBytes;
    PrefixAnnounces(m);
    if n >= 4 {
      assert EncodeMessage(m)[..n][..4] == EncodeMessage(m)[..4];
    }
  }

  /** Kinds of frames that no encoder writes: an unknown status is a refusal, an unknown kind a rejection of it. */
  lemma WhatUnknownFramesAre(h: seq<byte>, body: seq<byte>)
    requires |h| == 10
    ensures h[5] == 2 && h[9] > 1 ==>
              var m := DecodeMessage(h, body); m.Ok? && m.value.SelectRsp? && m.value.status == SelectRefused
    ensures h[5] !in {0, 1, 2, 5, 6, 7, 9} ==>
              var m := DecodeMessage(h, body);
              && m.Ok? && m.value.Reject? && Word(m.value.systemBytes) == h[6..10]
              && m.value.reason == h[5] && m.value.rejectedS == h[7] && m.value.rejectedF == h[8]
  {
    BigEndianInverse(h[6..10]);
    SmallPowers();
    WordIs(FromBigEndian(h[6..10]));
    hide FromBigEndian, BigEndian, Word, DecodeBody;
  }

  // ---------- payloads that no encoder writes ----------

  lemma {:induction false} ElementsAreRead(n: NumberFormat, b: seq<byte>, k: nat)
    requires k < |FromElements(n, b)|
    ensures var w := NumberWidth(n);
            var v := FromElements(n, b)[k];
            0 <= k * w && k * w + w <= |b| && InRange(n, v) && Digits(v, w) == b[k * w..k * w + w]
    decreases k
  {
    hide InRange, Digits, FromElements, NumberWidth;
    if k == 0 {
      FirstElement(n, b);
    } else {
      OtherElements(n, b);
      ElementsAreRead(n, b[NumberWidth(n)..], k - 1);
      ShiftedSlice(b, NumberWidth(n), k);
    }
  }

  lemma OtherElements(n: NumberFormat, b: seq<byte>)
    requires FromElements(n, b) != []
    ensures NumberWidth(n) <= |b| && FromElements(n, b)[1..] == FromElements(n, b[NumberWidth(n)..])
  {
    hide FromBits, BigEndian, FromBigEndian;
  }

  lemma ShiftedSlice(b: seq<byte>, w: nat, k: nat)
    requires k > 0 && w <= |b| && 0 <= (k - 1) * w && (k - 1) * w + w <= |b| - w
    ensures 0 <= k * w && k * w + w <= |b| && b[w..][(k - 1) * w..(k - 1) * w + w] == b[k * w..k * w + w]
  {
    assert (k - 1) * w + w == k * w;
  }

  lemma FirstElement(n: NumberFormat, b: seq<byte>)
    requires FromElements(n, b) != []
    ensures var w := NumberWidth(n);
            w <= |b| && InRange(n, FromElements(n, b)[0]) && Digits(FromElements(n, b)[0], w) == b[..w]
  {
    var w := NumberWidth(n);
    hide Digits, BigEndian, FromBigEndian, Pow256, InRange, ToBits;
    BigEndianInverse(b[..w]);
    var v := FromBits(n, FromBigEndian(b[..w]));
    assert FromElements(n, b)[0] == v;
    ElementIsSpelledOut(n, v);
  }

  lemma {:induction false} ElementsAreCounted(n: NumberFormat, b: seq<byte>)
    ensures var w := NumberWidth(n); 0 <= |b| - w * |FromElements(n, b)| < w
    decreases |b|
  {
    var w := NumberWidth(n);
    hide FromBits, BigEndian, FromBigEndian;
    if |b| >= w {
      ElementsAreCounted(n, b[w..]);
      var c := |FromElements(n, b[w..])|;
      assert |FromElements(n, b)| == c + 1 && w * (c + 1) == w * c + w;
    }
  }

  /** Any byte but 0 is true; numbers are read from whole elements, and a rest too short for one is dropped. */
  lemma PayloadIsRead(f: Format, b: seq<byte>)
    requires f.BooleanFormat? || f.NumberFormat?
    ensures var i := FromPayload(f, b);
            && (f.BooleanFormat? ==> i.Boolean? && |i.flags| == |b| && forall k :: 0 <= k < |b| ==> (i.flags[k] <==> b[k] != 0))
            && (f.NumberFormat? ==>
                  && i.Number? && i.number == f.number
                  && 0 <= |b| - NumberWidth(f.number) * |i.values| < NumberWidth(f.number))
  {
    if f.NumberFormat? {
      ElementsAreCounted(f.number, b);
    }
    hide FromElements;
  }

  /** Bytes behind the item of a body are counted and refused. */
  lemma TrailingBytesAreCounted(i: Item, s: seq<byte>)
    requires Encodable(i)
    ensures ItemFromBytes(Encode(i) + s)
         == if s == [] then Ok(Decoded(i, |Encode(i)|)) else Err(TrailingBytesAfterItem(|s|))
  {
    hide DecodeItem, Encode, Encodable;
    ItemRoundTrip(i, s);
  }
}
