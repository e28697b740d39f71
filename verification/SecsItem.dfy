/**
 SECS-II data items (SEMI E5): the value model and the wire codec.

 `Encode` and `DecodeItem` are the codec as functions; `Item.EncodeInto` and `DecodeItemBytes`
 are the same algorithms with their buffers and loops.
 */
module SecsItem {
  import opened Outcomes
  import opened Bytes
  import opened Utf8

  /** The fixed-width element formats. Floats are carried as their bit patterns. */
  datatype NumberFormat = I8 | I1 | I2 | I4 | F8 | F4 | U8 | U1 | U2 | U4

  datatype Format = ListFormat | BinaryFormat | BooleanFormat | AsciiFormat | JisFormat
                  | NumberFormat(number: NumberFormat)

  datatype Item =
    | List(items: seq<Item>)
    | Binary(bytes: seq<byte>)
    | Boolean(flags: seq<bool>)
    | Ascii(text: Text)
    | Jis(bytes: seq<byte>)
    | Number(number: NumberFormat, values: seq<int>)

  datatype SecsError =
    | UnexpectedEof(wanted: nat, had: nat)
    | InvalidItemHeader(header: byte)
    | InvalidItemLengthBits
    | ItemLengthOverflow(length: nat, remaining: nat)
    | TrailingBytesAfterItem(count: nat)
    | BadHeaderSize(size: nat)
    | UnsupportedPType(ptype: byte)
    | NotSelected
    | MissingDataBody(stream: byte, function_: byte)
    | UnexpectedStreamFunction(stream: byte, function_: byte)
    | Gem(detail: string)

  const MAX_LENGTH := 0xFF_FFFF

  // ---------- formats ----------

  function Width(n: NumberFormat): (w: nat)
    ensures w in {1, 2, 4, 8}
  {
    match n
    case I1 | U1 => 1
    case I2 | U2 => 2
    case I4 | U4 | F4 => 4
    case I8 | U8 | F8 => 8
  }

  /** `values.len() * elem_size`. */
  function ByteCount(n: NumberFormat, count: nat): nat
  {
    match n
    case I1 | U1 => count
    case I2 | U2 => 2 * count
    case I4 | U4 | F4 => 4 * count
    case I8 | U8 | F8 => 8 * count
  }

  predicate Signed(n: NumberFormat)
  {
    n.I1? || n.I2? || n.I4? || n.I8?
  }

  /** The header byte of a format with its two length bits clear. */
  function Code(f: Format): (c: byte)
    ensures c % 4 == 0
  {
    match f
    case ListFormat => 0x00
    case BinaryFormat => 0x20
    case BooleanFormat => 0x24
    case AsciiFormat => 0x40
    case JisFormat => 0x44
    case NumberFormat(n) =>
      match n
      case I8 => 0x60
      case I1 => 0x64
      case I2 => 0x68
      case I4 => 0x70
      case F8 => 0x80
      case F4 => 0x84
      case U8 => 0xA0
      case U1 => 0xA4
      case U2 => 0xA8
      case U4 => 0xB0
  }

  function FromByte(header: byte): Option<Format>
  {
    var code := header - header % 4;
    if code == 0x00 then Some(ListFormat)
    else if code == 0x20 then Some(BinaryFormat)
    else if code == 0x24 then Some(BooleanFormat)
    else if code == 0x40 then Some(AsciiFormat)
    else if code == 0x44 then Some(JisFormat)
    else if code == 0x60 then Some(NumberFormat(I8))
    else if code == 0x64 then Some(NumberFormat(I1))
    else if code == 0x68 then Some(NumberFormat(I2))
    else if code == 0x70 then Some(NumberFormat(I4))
    else if code == 0x80 then Some(NumberFormat(F8))
    else if code == 0x84 then Some(NumberFormat(F4))
    else if code == 0xA0 then Some(NumberFormat(U8))
    else if code == 0xA4 then Some(NumberFormat(U1))
    else if code == 0xA8 then Some(NumberFormat(U2))
    else if code == 0xB0 then Some(NumberFormat(U4))
    else None
  }

  function FormatOf(i: Item): Format
  {
    match i
    case List(_) => ListFormat
    case Binary(_) => BinaryFormat
    case Boolean(_) => BooleanFormat
    case Ascii(_) => AsciiFormat
    case Jis(_) => JisFormat
    case Number(n, _) => NumberFormat(n)
  }

  // ---------- element arrays ----------

  predicate InRange(n: NumberFormat, v: int)
  {
    if Signed(n) then InSignedRange(v, Width(n)) else 0 <= v < Pow256(Width(n))
  }

  function ToBits(n: NumberFormat, v: int): (bits: nat)
    requires InRange(n, v)
    ensures bits < Pow256(Width(n))
  {
    if Signed(n) then ToUnsigned(v, Width(n)) else v
  }

  function FromBits(n: NumberFormat, bits: nat): (v: int)
    requires bits < Pow256(Width(n))
    ensures InRange(n, v) && ToBits(n, v) == bits
  {
    if Signed(n) then ToSigned(bits, Width(n)) else bits
  }

  predicate AllInRange(n: NumberFormat, values: seq<int>)
  {
    forall k | 0 <= k < |values| :: InRange(n, values[k])
  }

  function Elements(n: NumberFormat, values: seq<int>): (b: seq<byte>)
    requires AllInRange(n, values)
    ensures |b| == ByteCount(n, |values|)
  {
    if values == [] then [] else BigEndian(ToBits(n, values[0]), Width(n)) + Elements(n, values[1..])
  }

  /** `as_chunks`: whole elements only; a partial last element is dropped. */
  function FromElements(n: NumberFormat, b: seq<byte>): (values: seq<int>)
    ensures AllInRange(n, values)
    ensures ByteCount(n, |values|) <= |b|
    decreases |b|
  {
    var w := Width(n);
    if |b| < w then []
    else
      BigEndianInverse(b[..w]);
      [FromBits(n, FromBigEndian(b[..w]))] + FromElements(n, b[w..])
  }

  lemma BitsRoundTrip(n: NumberFormat, v: int)
    requires InRange(n, v)
    ensures FromBits(n, ToBits(n, v)) == v
  {
  }

  lemma ElementRoundTrip(n: NumberFormat, v: int, rest: seq<byte>)
    requires InRange(n, v)
    ensures FromElements(n, BigEndian(ToBits(n, v), Width(n)) + rest) == [v] + FromElements(n, rest)
  {
    hide BigEndian, FromBigEndian, ToBits, FromBits, InRange, ByteCount;
    var w := Width(n);
    var b := BigEndian(ToBits(n, v), w) + rest;
    assert b[..w] == BigEndian(ToBits(n, v), w);
    assert b[w..] == rest;
    BigEndianRoundTrip(ToBits(n, v), w);
    BitsRoundTrip(n, v);
  }

  lemma {:induction false} ElementsRoundTrip(n: NumberFormat, values: seq<int>)
    requires AllInRange(n, values)
    ensures FromElements(n, Elements(n, values)) == values
  {
    if values != [] {
      hide ToBits, InRange, ByteCount, FromElements;
      ElementsRoundTrip(n, values[1..]);
      ElementRoundTrip(n, values[0], Elements(n, values[1..]));
      assert values == [values[0]] + values[1..];
    }
  }

  function BoolBytes(flags: seq<bool>): (b: seq<byte>)
    ensures |b| == |flags|
  {
    seq(|flags|, k requires 0 <= k < |flags| => if flags[k] then 1 else 0)
  }

  function BytesToBools(b: seq<byte>): (flags: seq<bool>)
    ensures |flags| == |b|
  {
    seq(|b|, k requires 0 <= k < |b| => b[k] != 0)
  }

  // ---------- items ----------

  /** What Rust's types guarantee: elements in range and text well formed, at every depth. */
  predicate Valid(i: Item)
  {
    match i
    case List(items) => forall k | 0 <= k < |items| :: Valid(items[k])
    case Ascii(text) => ValidText(text)
    case Number(n, values) => AllInRange(n, values)
    case _ => true
  }

  /** The length `push_header` asserts on: items of a list, bytes of anything else. */
  function HeaderLength(i: Item): nat
  {
    match i
    case List(items) => |items|
    case Binary(b) => |b|
    case Boolean(flags) => |flags|
    case Ascii(text) => |text|
    case Jis(b) => |b|
    case Number(n, values) => ByteCount(n, |values|)
  }

  predicate Fits(i: Item)
  {
    HeaderLength(i) <= MAX_LENGTH &&
    (i.List? ==> forall k | 0 <= k < |i.items| :: Fits(i.items[k]))
  }

  predicate Encodable(i: Item) { Valid(i) && Fits(i) }

  predicate AllEncodable(items: seq<Item>)
  {
    forall k | 0 <= k < |items| :: Encodable(items[k])
  }

  /** The bytes after the header of a non-list item, and the item they stand for. */
  function Payload(i: Item): (b: seq<byte>)
    requires !i.List? && Valid(i)
    ensures |b| == HeaderLength(i)
  {
    match i
    case Binary(bytes) => bytes
    case Boolean(flags) => BoolBytes(flags)
    case Ascii(text) => text
    case Jis(bytes) => bytes
    case Number(n, values) => Elements(n, values)
  }

  function FromPayload(f: Format, b: seq<byte>): (i: Item)
    requires !f.ListFormat?
    ensures FormatOf(i) == f
  {
    match f
    case BinaryFormat => Binary(b)
    case BooleanFormat => Boolean(BytesToBools(b))
    case AsciiFormat => Ascii(FromUtf8Lossy(b))
    case JisFormat => Jis(b)
    case NumberFormat(n) => Number(n, FromElements(n, b))
  }

  /** Header: the format byte with 1 to 3 in its low bits, then that many length bytes. */
  function LengthBytes(length: nat): (n: nat)
    ensures 1 <= n <= 3
  {
    if length <= 0xFF then 1 else if length <= 0xFFFF then 2 else 3
  }

  function Header(f: Format, length: nat): seq<byte>
    requires length <= MAX_LENGTH
  {
    [Code(f) + LengthBytes(length)] + BigEndian(length, LengthBytes(length))
  }

  function Encode(i: Item): seq<byte>
    requires Encodable(i)
    decreases i, 1
  {
    Header(FormatOf(i), HeaderLength(i)) + if i.List? then EncodeAll(i.items) else Payload(i)
  }

  function EncodeAll(items: seq<Item>): seq<byte>
    requires AllEncodable(items)
    decreases items, 0
  {
    if items == [] then [] else Encode(items[0]) + EncodeAll(items[1..])
  }

  // ---------- decoding ----------

  datatype HeaderInfo = HeaderInfo(format: Format, size: nat, length: nat)
  datatype Decoded = Decoded(item: Item, used: nat)
  datatype DecodedList = DecodedList(items: seq<Item>, used: nat)

  /** Format, header size and announced length at the front of `data`. */
  function ParseHeader(data: seq<byte>): (r: Result<HeaderInfo, SecsError>)
    ensures r.Ok? ==> 2 <= r.value.size <= 4 && r.value.size <= |data|
  {
    if data == [] then Err(UnexpectedEof(1, 0))
    else if FromByte(data[0]).None? then Err(InvalidItemHeader(data[0]))
    else if data[0] % 4 == 0 then Err(InvalidItemLengthBits)
    else if |data| - 1 < data[0] % 4 then Err(UnexpectedEof(data[0] % 4, |data| - 1))
    else
      var size := 1 + data[0] % 4;
      Ok(HeaderInfo(FromByte(data[0]).value, size, FromBigEndian(data[1..size])))
  }

  /** One item from the front of `data`, with the number of bytes it took. */
  function DecodeItem(data: seq<byte>): (r: Result<Decoded, SecsError>)
    ensures r.Ok? ==> 2 <= r.value.used <= |data|
    decreases |data|, 0
  {
    var HeaderInfo(format, size, length) :- ParseHeader(data);
    var body := data[size..];
    if format.ListFormat? then
      var list :- DecodeItems(body, length);
      Ok(Decoded(List(list.items), size + list.used))
    else if length > |body| then Err(ItemLengthOverflow(length, |body|))
    else Ok(Decoded(FromPayload(format, body[..length]), size + length))
  }

  /** `count` items one after the other. */
  function DecodeItems(data: seq<byte>, count: nat): (r: Result<DecodedList, SecsError>)
    ensures r.Ok? ==> |r.value.items| == count && r.value.used <= |data|
    decreases |data|, 1
  {
    if count == 0 then Ok(DecodedList([], 0))
    else
      var first :- DecodeItem(data);
      var rest :- DecodeItems(data[first.used..], count - 1);
      Ok(DecodedList([first.item] + rest.items, first.used + rest.used))
  }

  /** `SecsItem::from_bytes`: exactly one item, nothing after it. */
  function ItemFromBytes(data: seq<byte>): Result<Decoded, SecsError>
  {
    var decoded :- DecodeItem(data);
    if decoded.used != |data| then Err(TrailingBytesAfterItem(|data| - decoded.used)) else Ok(decoded)
  }

  // ---------- round trip ----------

  lemma HeaderRoundTrip(f: Format, length: nat, s: seq<byte>)
    requires length <= MAX_LENGTH
    ensures ParseHeader(Header(f, length) + s) == Ok(HeaderInfo(f, 1 + LengthBytes(length), length))
    ensures (Header(f, length) + s)[1 + LengthBytes(length)..] == s
  {
    hide FromBigEndian, BigEndian;
    var n := LengthBytes(length);
    var data := Header(f, length) + s;
    assert data[0] == Code(f) + n;
    SmallPowers();
    BigEndianRoundTrip(length, n);
    assert data[1..1 + n] == BigEndian(length, n);
    assert data[0] % 4 == n && FromByte(data[0]) == Some(f);
  }

  lemma PayloadRoundTrip(i: Item)
    requires !i.List? && Valid(i)
    ensures FromPayload(FormatOf(i), Payload(i)) == i
  {
    match i
    case Boolean(flags) => assert BytesToBools(BoolBytes(flags)) == flags;
    case Ascii(text) => LossyKeepsValid(text);
    case Number(n, values) => ElementsRoundTrip(n, values);
    case _ =>
  }

  /** One decoding step, once the header and the bytes after it are known. */
  lemma DecodeStep(data: seq<byte>, f: Format, size: nat, length: nat, body: seq<byte>)
    requires ParseHeader(data) == Ok(HeaderInfo(f, size, length)) && data[size..] == body
    ensures f.ListFormat? && DecodeItems(body, length).Ok? ==>
              var list := DecodeItems(body, length).value;
              DecodeItem(data) == Ok(Decoded(List(list.items), size + list.used))
    ensures !f.ListFormat? && length <= |body| ==>
              DecodeItem(data) == Ok(Decoded(FromPayload(f, body[..length]), size + length))
  {
    hide ParseHeader, FromPayload;
  }

  lemma DecodeItemsStep(data: seq<byte>, rest: seq<byte>, count: nat)
    requires count > 0
    requires DecodeItem(data).Ok? && data[DecodeItem(data).value.used..] == rest
    requires DecodeItems(rest, count - 1).Ok?
    ensures var first := DecodeItem(data).value;
            var list := DecodeItems(rest, count - 1).value;
            DecodeItems(data, count) == Ok(DecodedList([first.item] + list.items, first.used + list.used))
  {
    hide DecodeItem, ParseHeader, FromPayload;
  }

  lemma LeafRoundTrip(i: Item, s: seq<byte>)
    requires Encodable(i) && !i.List?
    ensures DecodeItem(Header(FormatOf(i), HeaderLength(i)) + (Payload(i) + s)) == Ok(Decoded(i, |Encode(i)|))
  {
    hide ParseHeader, FromByte, Elements, FromPayload, DecodeItem;
    var f, length, payload := FormatOf(i), HeaderLength(i), Payload(i);
    HeaderRoundTrip(f, length, payload + s);
    DecodeStep(Header(f, length) + (payload + s), f, 1 + LengthBytes(length), length, payload + s);
    assert (payload + s)[..length] == payload;
    PayloadRoundTrip(i);
  }

  lemma ListRoundTrip(items: seq<Item>, tail: seq<byte>, used: nat)
    requires |items| <= MAX_LENGTH && DecodeItems(tail, |items|) == Ok(DecodedList(items, used))
    ensures DecodeItem(Header(ListFormat, |items|) + tail)
         == Ok(Decoded(List(items), |Header(ListFormat, |items|)| + used))
  {
    hide ParseHeader, FromByte, DecodeItems, DecodeItem;
    HeaderRoundTrip(ListFormat, |items|, tail);
    DecodeStep(Header(ListFormat, |items|) + tail, ListFormat, 1 + LengthBytes(|items|), |items|, tail);
  }

  /** Decoding an encoding followed by anything gives the item back and stops at its last byte. */
  lemma {:induction false} ItemRoundTrip(i: Item, s: seq<byte>)
    requires Encodable(i)
    ensures DecodeItem(Encode(i) + s) == Ok(Decoded(i, |Encode(i)|))
    decreases i, 1
  {
    hide DecodeItem, DecodeItems, Payload, Code, LengthBytes, BigEndian;
    var header := Header(FormatOf(i), HeaderLength(i));
    if i.List? {
      var body := EncodeAll(i.items);
      ItemsRoundTrip(i.items, s);
      ListRoundTrip(i.items, body + s, |body|);
      Associates(header, body, s);
    } else {
      LeafRoundTrip(i, s);
      Associates(header, Payload(i), s);
    }
  }

  lemma {:induction false} ItemsRoundTrip(items: seq<Item>, s: seq<byte>)
    requires AllEncodable(items)
    ensures DecodeItems(EncodeAll(items) + s, |items|) == Ok(DecodedList(items, |EncodeAll(items)|))
    decreases items, 0
  {
    hide DecodeItem, Encode;
    if items != [] {
      var first := Encode(items[0]);
      var rest := EncodeAll(items[1..]) + s;
      var data := EncodeAll(items) + s;
      assert data == first + rest;
      ItemRoundTrip(items[0], rest);
      ItemsRoundTrip(items[1..], s);
      DecodeItemsStep(data, rest, |items|);
      assert items == [items[0]] + items[1..];
    }
  }

  /** Encodings are prefix-free, hence injective. */
  lemma EncodingIsPrefixFree(a: Item, s: seq<byte>, b: Item, t: seq<byte>)
    requires Encodable(a) && Encodable(b)
    requires Encode(a) + s == Encode(b) + t
    ensures a == b && s == t
  {
    ItemRoundTrip(a, s);
    ItemRoundTrip(b, t);
    assert s == (Encode(a) + s)[|Encode(a)|..];
    assert t == (Encode(b) + t)[|Encode(b)|..];
  }

  // ---------- locality ----------

  /** A successful decode looks at nothing beyond the bytes it reports as used. */
  lemma {:induction false} DecodeIsLocal(d: seq<byte>, e: seq<byte>)
    requires DecodeItem(d).Ok?
    requires var used := DecodeItem(d).value.used; used <= |e| && e[..used] == d[..used]
    ensures DecodeItem(e) == DecodeItem(d)
    decreases |d|, 0
  {
    hide ParseHeader, FromPayload, DecodeItems;
    var used := DecodeItem(d).value.used;
    var HeaderInfo(format, size, length) := ParseHeader(d).value;
    SliceOfPrefix(d, e, used, size);
    ParseHeaderIsLocal(d, e);
    var d', e' := d[size..], e[size..];
    if format.ListFormat? {
      DecodeItemsIsLocal(d', e', length);
    } else {
      assert used - size == length;
    }
    DecodeStep(e, format, size, length, e');
  }

  lemma ParseHeaderIsLocal(d: seq<byte>, e: seq<byte>)
    requires ParseHeader(d).Ok?
    requires var size := ParseHeader(d).value.size; size <= |e| && e[..size] == d[..size]
    ensures ParseHeader(e) == ParseHeader(d)
  {
    var size := ParseHeader(d).value.size;
    assert e[0] == e[..size][0] && d[0] == d[..size][0];
    assert e[1..size] == e[..size][1..] && d[1..size] == d[..size][1..];
  }

  lemma SliceOfPrefix(d: seq<byte>, e: seq<byte>, used: nat, from: nat)
    requires from <= used <= |d| && used <= |e| && e[..used] == d[..used]
    ensures e[..from] == d[..from]
    ensures e[from..][..used - from] == d[from..][..used - from]
  {
    assert e[from..][..used - from] == e[..used][from..];
    assert d[from..][..used - from] == d[..used][from..];
    assert e[..from] == e[..used][..from];
  }

  lemma {:induction false} DecodeItemsIsLocal(d: seq<byte>, e: seq<byte>, count: nat)
    requires DecodeItems(d, count).Ok?
    requires var used := DecodeItems(d, count).value.used; used <= |e| && e[..used] == d[..used]
    ensures DecodeItems(e, count) == DecodeItems(d, count)
    decreases |d|, 1
  {
    hide DecodeItem, ParseHeader;
    if count > 0 {
      var used := DecodeItem(d).value.used;
      var more := DecodeItems(d[used..], count - 1).value.used;
      SliceOfPrefix(d, e, used + more, used);
      DecodeIsLocal(d, e);
      DecodeItemsIsLocal(d[used..], e[used..], count - 1);
      DecodeItemsStep(e, e[used..], count);
    }
  }

  /** Every strict prefix of the bytes a successful decode used is rejected. */
  lemma StrictPrefixIsRejected(d: seq<byte>, k: nat)
    requires DecodeItem(d).Ok? && k < DecodeItem(d).value.used
    ensures DecodeItem(d[..k]).Err?
  {
    var p := d[..k];
    if DecodeItem(p).Ok? {
      assert d[..DecodeItem(p).value.used] == p[..DecodeItem(p).value.used];
      DecodeIsLocal(p, d);
    }
  }

  function Nodes(i: Item): nat
    decreases i, 1
  {
    1 + if i.List? then NodesAll(i.items) else 0
  }

  function NodesAll(items: seq<Item>): nat
    decreases items, 0
  {
    if items == [] then 0 else Nodes(items[0]) + NodesAll(items[1..])
  }

  /** The decoded tree is at most half as large as the bytes it came from. */
  lemma {:induction false} TreeIsBounded(d: seq<byte>)
    requires DecodeItem(d).Ok?
    ensures 2 * Nodes(DecodeItem(d).value.item) <= DecodeItem(d).value.used
    decreases |d|, 0
  {
    hide ParseHeader;
    var HeaderInfo(format, size, length) := ParseHeader(d).value;
    if format.ListFormat? {
      TreesAreBounded(d[size..], length);
    }
  }

  lemma {:induction false} TreesAreBounded(d: seq<byte>, count: nat)
    requires DecodeItems(d, count).Ok?
    ensures 2 * NodesAll(DecodeItems(d, count).value.items) <= DecodeItems(d, count).value.used
    decreases |d|, 1
  {
    hide DecodeItem, ParseHeader;
    if count > 0 {
      var used := DecodeItem(d).value.used;
      var rest := DecodeItems(d[used..], count - 1).value.items;
      TreeIsBounded(d);
      TreesAreBounded(d[used..], count - 1);
      assert DecodeItems(d, count).value.items[1..] == rest;
    }
  }

  // ---------- normal form ----------

  /** The text items in these bytes, at any depth, are well formed as they stand. */
  predicate CleanItem(d: seq<byte>)
    requires DecodeItem(d).Ok?
    decreases |d|, 0
  {
    var HeaderInfo(format, size, length) := ParseHeader(d).value;
    if format.ListFormat? then CleanItems(d[size..], length)
    else format.AsciiFormat? ==> ValidText(d[size..][..length])
  }

  predicate CleanItems(d: seq<byte>, count: nat)
    requires DecodeItems(d, count).Ok?
    decreases |d|, 1
  {
    count == 0 || (CleanItem(d) && CleanItems(d[DecodeItem(d).value.used..], count - 1))
  }

  lemma PayloadNormalizes(f: Format, b: seq<byte>)
    requires !f.ListFormat?
    ensures Valid(FromPayload(f, b))
    ensures (f.AsciiFormat? ==> ValidText(b)) ==> HeaderLength(FromPayload(f, b)) <= |b|
  {
    if f.AsciiFormat? {
      LossyIsValid(b);
      LossyUnchangedIff(b);
    }
  }

  /** Fewer length bytes than the header had can only shorten it. */
  lemma HeaderIsMinimal(d: seq<byte>, length: nat)
    requires ParseHeader(d).Ok? && length <= ParseHeader(d).value.length
    ensures length <= MAX_LENGTH && 1 + LengthBytes(length) <= ParseHeader(d).value.size
  {
    var HeaderInfo(_, size, announced) := ParseHeader(d).value;
    hide FromBigEndian, Pow256, LengthBytes;
    BigEndianInverse(d[1..size]);
    LengthBytesSuffice(length, announced, size - 1);
  }

  lemma LengthBytesSuffice(length: nat, announced: nat, n: nat)
    requires length <= announced < Pow256(n) && 1 <= n <= 3
    ensures length <= MAX_LENGTH && LengthBytes(length) <= n
  {
    SmallPowers();
    hide Pow256;
  }

  /** Whatever was decoded is a value of the model. */
  lemma {:induction false} DecodedIsValid(d: seq<byte>)
    requires DecodeItem(d).Ok?
    ensures Valid(DecodeItem(d).value.item)
    decreases |d|, 0
  {
    hide ParseHeader, FromPayload;
    var HeaderInfo(format, size, length) := ParseHeader(d).value;
    if format.ListFormat? {
      DecodedAreValid(d[size..], length);
    } else {
      PayloadNormalizes(format, d[size..][..length]);
    }
  }

  lemma {:induction false} DecodedAreValid(d: seq<byte>, count: nat)
    requires DecodeItems(d, count).Ok?
    ensures forall k | 0 <= k < count :: Valid(DecodeItems(d, count).value.items[k])
    decreases |d|, 1
  {
    hide DecodeItem, ParseHeader;
    if count > 0 {
      DecodedIsValid(d);
      DecodedAreValid(d[DecodeItem(d).value.used..], count - 1);
    }
  }

  /**
   Decoding reaches a normal form: unless text had to be repaired, a decoded item can be encoded
   again, in no more bytes than it was read from.
   */
  lemma {:induction false} DecodedReencodes(d: seq<byte>)
    requires DecodeItem(d).Ok? && CleanItem(d)
    ensures Encodable(DecodeItem(d).value.item)
    ensures |Encode(DecodeItem(d).value.item)| <= DecodeItem(d).value.used
    decreases |d|, 0
  {
    hide ParseHeader, FromPayload, ValidText;
    DecodedIsValid(d);
    var HeaderInfo(format, size, length) := ParseHeader(d).value;
    var i := DecodeItem(d).value.item;
    if format.ListFormat? {
      DecodedReencodeAll(d[size..], length);
    } else {
      PayloadNormalizes(format, d[size..][..length]);
    }
    HeaderIsMinimal(d, HeaderLength(i));
  }

  lemma {:induction false} DecodedReencodeAll(d: seq<byte>, count: nat)
    requires DecodeItems(d, count).Ok? && CleanItems(d, count)
    ensures AllEncodable(DecodeItems(d, count).value.items)
    ensures |EncodeAll(DecodeItems(d, count).value.items)| <= DecodeItems(d, count).value.used
    decreases |d|, 1
  {
    hide DecodeItem, ParseHeader, Encode, CleanItem;
    if count > 0 {
      var items := DecodeItems(d, count).value.items;
      var used := DecodeItem(d).value.used;
      var rest := DecodeItems(d[used..], count - 1).value.items;
      assert items[1..] == rest && items[0] == DecodeItem(d).value.item;
      DecodedReencodes(d);
      DecodedReencodeAll(d[used..], count - 1);
    }
  }

  /** Decoding, encoding and decoding again changes nothing. */
  lemma NormalFormIsStable(d: seq<byte>, s: seq<byte>)
    requires DecodeItem(d).Ok? && Fits(DecodeItem(d).value.item)
    ensures var i := DecodeItem(d).value.item; Encodable(i) && DecodeItem(Encode(i) + s) == Ok(Decoded(i, |Encode(i)|))
  {
    DecodedIsValid(d);
    ItemRoundTrip(DecodeItem(d).value.item, s);
  }

  // ---------- the codec with its buffers and loops ----------

  method PushHeader(f: Format, length: nat, out: ByteBuffer)
    requires length <= MAX_LENGTH
    modifies out
    ensures out.data == old(out.data) + Header(f, length)
  {
    out.Push(Code(f) + LengthBytes(length));
    assert BigEndian(length / 0x1_0000, 1) == [length / 0x1_0000];
    assert BigEndian(length / 0x100, 2) == BigEndian(length / 0x1_0000, 1) + [length / 0x100 % 0x100];
    if length <= 0xFF {
      assert BigEndian(length, 1) == [length];
      out.Push(length);
    } else if length <= 0xFFFF {
      assert BigEndian(length, 2) == [length / 0x100, length % 0x100];
      out.Extend([length / 0x100, length % 0x100]);
    } else {
      assert BigEndian(length, 3) == [length / 0x1_0000, length / 0x100 % 0x100, length % 0x100];
      out.Extend([length / 0x1_0000, length / 0x100 % 0x100, length % 0x100]);
    }
  }

  method PushFixed(n: NumberFormat, values: seq<int>, out: ByteBuffer)
    requires AllInRange(n, values) && ByteCount(n, |values|) <= MAX_LENGTH
    modifies out
    ensures out.data == old(out.data) + Encode(Number(n, values))
  {
    hide BigEndian, ToBits, InRange, ByteCount, Width, Code;
    PushHeader(NumberFormat(n), ByteCount(n, |values|), out);
    ghost var start := out.data;
    var k := 0;
    assert values[0..] == values;
    while k < |values|
      invariant k <= |values|
      invariant out.data + Elements(n, values[k..]) == start + Elements(n, values)
    {
      assert values[k..][1..] == values[k + 1..];
      Associates(out.data, BigEndian(ToBits(n, values[k]), Width(n)), Elements(n, values[k + 1..]));
      out.Extend(BigEndian(ToBits(n, values[k]), Width(n)));
      k := k + 1;
    }
    Associates(old(out.data), Header(NumberFormat(n), ByteCount(n, |values|)), Elements(n, values));
  }

  /** `SecsItem::encode`: append the encoding of an item to a buffer. */
  method EncodeInto(i: Item, out: ByteBuffer)
    requires Encodable(i)
    modifies out
    ensures out.data == old(out.data) + Encode(i)
    decreases i, 1
  {
    match i
    case List(items) =>
      PushHeader(ListFormat, |items|, out);
      EncodeItemsInto(items, out);
      Associates(old(out.data), Header(ListFormat, |items|), EncodeAll(items));
    case Number(n, values) =>
      PushFixed(n, values, out);
    case _ =>
      PushHeader(FormatOf(i), HeaderLength(i), out);
      out.Extend(Payload(i));
      Associates(old(out.data), Header(FormatOf(i), HeaderLength(i)), Payload(i));
  }

  method EncodeItemsInto(items: seq<Item>, out: ByteBuffer)
    requires AllEncodable(items)
    modifies out
    ensures out.data == old(out.data) + EncodeAll(items)
    decreases items, 0
  {
    hide Encode;
    var k := 0;
    assert items[0..] == items;
    while k < |items|
      invariant k <= |items|
      invariant out.data + EncodeAll(items[k..]) == old(out.data) + EncodeAll(items)
    {
      assert items[k..][1..] == items[k + 1..];
      Associates(out.data, Encode(items[k]), EncodeAll(items[k + 1..]));
      EncodeInto(items[k], out);
      k := k + 1;
    }
  }

  /** `decode_item`: the recursive decoder with its length loop and its loop over list items. */
  method DecodeItemBytes(data: seq<byte>) returns (r: Result<Decoded, SecsError>)
    ensures r == DecodeItem(data)
    decreases |data|, 0
  {
    if data == [] {
      return Err(UnexpectedEof(1, 0));
    }
    var format := FromByte(data[0]);
    if format.None? {
      return Err(InvalidItemHeader(data[0]));
    }
    var lengthBits, rest := data[0] % 4, data[1..];
    if lengthBits == 0 {
      return Err(InvalidItemLengthBits);
    }
    if |rest| < lengthBits {
      return Err(UnexpectedEof(lengthBits, |rest|));
    }
    var length := ReadLength(rest[..lengthBits]);
    assert rest[..lengthBits] == data[1..1 + lengthBits];
    assert ParseHeader(data) == Ok(HeaderInfo(format.value, 1 + lengthBits, length));
    var body := rest[lengthBits..];
    assert body == data[1 + lengthBits..];
    hide ParseHeader, FromByte, FromPayload;
    if format.value.ListFormat? {
      r := DecodeListBytes(data, body, length);
    } else if length > |body| {
      r := Err(ItemLengthOverflow(length, |body|));
    } else {
      r := Ok(Decoded(FromPayload(format.value, body[..length]), 1 + lengthBits + length));
    }
  }

  method ReadLength(b: seq<byte>) returns (length: nat)
    ensures length == FromBigEndian(b)
  {
    length := 0;
    for k := 0 to |b|
      invariant length == FromBigEndian(b[..k])
    {
      assert b[..k + 1][..k] == b[..k];
      length := length * 256 + b[k];
    }
    assert b[..|b|] == b;
  }

  /** Items decoded so far, in front of what is still to be decoded. */
  ghost function Prepend(items: seq<Item>, used: nat, rest: Result<DecodedList, SecsError>)
    : Result<DecodedList, SecsError>
  {
    match rest
    case Ok(list) => Ok(DecodedList(items + list.items, used + list.used))
    case Err(e) => Err(e)
  }

  lemma PrependNothing(r: Result<DecodedList, SecsError>)
    ensures Prepend([], 0, r) == r
  {
    if r.Ok? {
      assert [] + r.value.items == r.value.items;
    }
  }

  lemma PrependEnd(items: seq<Item>, used: nat, cursor: seq<byte>)
    ensures Prepend(items, used, DecodeItems(cursor, 0)) == Ok(DecodedList(items, used))
  {
    assert items + [] == items;
  }

  lemma PrependStep(items: seq<Item>, used: nat, cursor: seq<byte>, count: nat)
    requires count > 0
    ensures match DecodeItem(cursor)
            case Err(e) => Prepend(items, used, DecodeItems(cursor, count)) == Err(e)
            case Ok(first) =>
              Prepend(items, used, DecodeItems(cursor, count))
              == Prepend(items + [first.item], used + first.used, DecodeItems(cursor[first.used..], count - 1))
  {
    hide DecodeItem;
    if DecodeItem(cursor).Ok? {
      var first := DecodeItem(cursor).value;
      var rest := DecodeItems(cursor[first.used..], count - 1);
      if rest.Ok? {
        Associates(items, [first.item], rest.value.items);
      }
    }
  }

  lemma DecodeListStep(data: seq<byte>, body: seq<byte>, length: nat)
    requires ParseHeader(data).Ok? && |body| <= |data| && body == data[|data| - |body|..]
    requires ParseHeader(data).value == HeaderInfo(ListFormat, |data| - |body|, length)
    ensures match DecodeItems(body, length)
            case Ok(list) => DecodeItem(data) == Ok(Decoded(List(list.items), |data| - |body| + list.used))
            case Err(e) => DecodeItem(data) == Err(e)
  {
    hide ParseHeader, DecodeItems, FromPayload;
  }

  method DecodeListBytes(data: seq<byte>, body: seq<byte>, length: nat)
      returns (r: Result<Decoded, SecsError>)
    requires ParseHeader(data).Ok? && |body| <= |data| && body == data[|data| - |body|..]
    requires ParseHeader(data).value == HeaderInfo(ListFormat, |data| - |body|, length)
    ensures r == DecodeItem(data)
    decreases |body|, 1
  {
    hide DecodeItem, ParseHeader, DecodeItems, Prepend;
    var cursor, items := body, [];
    var k := 0;
    PrependNothing(DecodeItems(body, length));
    while k < length
      invariant k <= length && |cursor| <= |body|
      invariant DecodeItems(body, length) == Prepend(items, |body| - |cursor|, DecodeItems(cursor, length - k))
      decreases length - k
    {
      var item := DecodeItemBytes(cursor);
      PrependStep(items, |body| - |cursor|, cursor, length - k);
      if item.Err? {
        DecodeListStep(data, body, length);
        return Err(item.error);
      }
      items := items + [item.value.item];
      cursor := cursor[item.value.used..];
      k := k + 1;
    }
    DecodeListStep(data, body, length);
    PrependEnd(items, |body| - |cursor|, cursor);
    r := Ok(Decoded(List(items), |data| - |cursor|));
  }
}
