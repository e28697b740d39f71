/**
 STDF V4 field codec: fixed-width numbers, length-prefixed strings and byte arrays. Writing is
 always little-endian; reading follows the byte order of the file. A `Kind` is one of the field
 types; `Put` and `Get` write and read one field, `PutAll` and `GetAll` a row of them.
 */
module StdfCodec {
  import opened Outcomes
  import opened Bytes
  import opened Utf8

  datatype StdfError =
    | UnexpectedEof(wanted: nat, had: nat)
    | ShortRecordHeader
    | MalformedRecord(typ: byte, sub: byte)

  datatype Kind = U1 | U2 | U4 | I1 | I2 | R4 | Cn | Kn | Sn | Nn

  /** `Num` also carries R*4 fields, as bit patterns. */
  datatype Value = Num(n: int) | Str(text: Text) | Data(bytes: seq<byte>) | Strs(texts: seq<Text>)

  datatype Got = Got(value: Value, rest: seq<byte>)
  datatype GotAll = GotAll(values: seq<Value>, rest: seq<byte>)

  // ---------- writing ----------

  predicate Numeric(k: Kind) { !k.Cn? && !k.Kn? && !k.Sn? && !k.Nn? }

  function Width(k: Kind): nat
    requires Numeric(k)
  {
    match k
    case U1 | I1 => 1
    case U2 | I2 => 2
    case U4 | R4 => 4
  }

  predicate ShortText(t: Text) { ValidText(t) && |t| <= 255 }

  /**
   What a field may hold: the range of its type, and the length the writer asserts. `Nn` asserts
   none and cuts the length it announces to 16 bits.
   */
  predicate Fit(k: Kind, v: Value)
  {
    match k
    case U1 | U2 | U4 | R4 => v.Num? && 0 <= v.n < Pow256(Width(k))
    case I1 | I2 => v.Num? && InSignedRange(v.n, Width(k))
    case Cn => v.Str? && ShortText(v.text)
    case Nn => v.Str? && ValidText(v.text)
    case Kn => v.Data? && |v.bytes| <= 0xFFFF
    case Sn => v.Strs? && |v.texts| <= 0xFFFF && AllShort(v.texts)
  }

  function Bits(k: Kind, v: Value): (n: nat)
    requires Numeric(k) && Fit(k, v)
    ensures n < Pow256(Width(k))
  {
    if k.I1? || k.I2? then ToUnsigned(v.n, Width(k)) else v.n
  }

  function CnBytes(t: Text): seq<byte>
    requires |t| <= 255
  {
    [|t|] + t
  }

  predicate AllShort(ts: seq<Text>)
  {
    forall i :: 0 <= i < |ts| ==> ShortText(ts[i])
  }

  function CnsBytes(ts: seq<Text>): seq<byte>
    requires AllShort(ts)
  {
    if ts == [] then [] else CnBytes(ts[0]) + CnsBytes(ts[1..])
  }

  function Put(k: Kind, v: Value): seq<byte>
    requires Fit(k, v)
  {
    match k
    case Cn => CnBytes(v.text)
    case Nn => LittleEndian(|v.text| % 0x1_0000, 2) + v.text
    case Kn => LittleEndian(|v.bytes|, 2) + v.bytes
    case Sn => LittleEndian(|v.texts|, 2) + CnsBytes(v.texts)
    case _ => LittleEndian(Bits(k, v), Width(k))
  }

  predicate AllFit(ks: seq<Kind>, vs: seq<Value>)
  {
    |ks| == |vs| && forall i | 0 <= i < |ks| :: Fit(ks[i], vs[i])
  }

  function PutAll(ks: seq<Kind>, vs: seq<Value>): seq<byte>
    requires AllFit(ks, vs)
  {
    if ks == [] then [] else Put(ks[0], vs[0]) + PutAll(ks[1..], vs[1..])
  }

  // ---------- reading ----------

  datatype Taken = Taken(bytes: seq<byte>, rest: seq<byte>)

  /** `Reader::take`. */
  function Take(data: seq<byte>, n: nat): (r: Result<Taken, StdfError>)
    ensures r.Ok? ==> r.value.bytes + r.value.rest == data && |r.value.bytes| == n
  {
    if |data| < n then Err(UnexpectedEof(n, |data|)) else Ok(Taken(data[..n], data[n..]))
  }

  function FromBits(k: Kind, n: nat): Value
    requires Numeric(k)
  {
    Num(if k.I1? || k.I2? then ToSigned(n, Width(k)) else n)
  }

  function GetCn(data: seq<byte>): (r: Result<Got, StdfError>)
    ensures r.Ok? ==> r.value.value.Str? && |r.value.rest| < |data|
  {
    var length :- Take(data, 1);
    var text :- Take(length.rest, length.bytes[0]);
    Ok(Got(Str(FromUtf8Lossy(text.bytes)), text.rest))
  }

  function GetCns(data: seq<byte>, count: nat): (r: Result<Got, StdfError>)
    ensures r.Ok? ==> r.value.value.Strs? && |r.value.rest| <= |data|
    decreases count
  {
    if count == 0 then Ok(Got(Strs([]), data))
    else
      var first :- GetCn(data);
      var others :- GetCns(first.rest, count - 1);
      Ok(Got(Strs([first.value.text] + others.value.texts), others.rest))
  }

  /** The sort of value each kind of field holds. */
  predicate HasShape(k: Kind, v: Value)
  {
    match k
    case Cn | Nn => v.Str?
    case Kn => v.Data?
    case Sn => v.Strs?
    case _ => v.Num?
  }

  predicate Shaped(ks: seq<Kind>, vs: seq<Value>)
  {
    |ks| == |vs| && forall i | 0 <= i < |ks| :: HasShape(ks[i], vs[i])
  }

  function Get(k: Kind, data: seq<byte>, e: Endian): (r: Result<Got, StdfError>)
    ensures r.Ok? ==> |r.value.rest| < |data| && HasShape(k, r.value.value)
  {
    match k
    case Cn => GetCn(data)
    case Nn =>
      var length :- Take(data, 2);
      var text :- Take(length.rest, FromBytes(length.bytes, e));
      Ok(Got(Str(FromUtf8Lossy(text.bytes)), text.rest))
    case Kn =>
      var length :- Take(data, 2);
      var bytes :- Take(length.rest, FromBytes(length.bytes, e));
      Ok(Got(Data(bytes.bytes), bytes.rest))
    case Sn =>
      var count :- Take(data, 2);
      GetCns(count.rest, FromBytes(count.bytes, e))
    case _ =>
      var bytes :- Take(data, Width(k));
      Ok(Got(FromBits(k, FromBytes(bytes.bytes, e)), bytes.rest))
  }

  function GetAll(ks: seq<Kind>, data: seq<byte>, e: Endian): (r: Result<GotAll, StdfError>)
    ensures r.Ok? ==> |r.value.values| == |ks| && |r.value.rest| <= |data|
  {
    if ks == [] then Ok(GotAll([], data))
    else
      var first :- Get(ks[0], data, e);
      var others :- GetAll(ks[1..], first.rest, e);
      Ok(GotAll([first.value] + others.values, others.rest))
  }

  lemma {:induction false} GetAllIsShaped(ks: seq<Kind>, data: seq<byte>, e: Endian)
    requires GetAll(ks, data, e).Ok?
    ensures Shaped(ks, GetAll(ks, data, e).value.values)
  {
    hide Get, HasShape;
    if ks != [] {
      GetAllIsShaped(ks[1..], Get(ks[0], data, e).value.rest, e);
    }
  }

  // ---------- round trips ----------

  lemma TakeFront(a: seq<byte>, s: seq<byte>)
    ensures Take(a + s, |a|) == Ok(Taken(a, s))
  {
  }

  lemma CnRoundTrip(t: Text, s: seq<byte>)
    requires ShortText(t)
    ensures GetCn(CnBytes(t) + s) == Ok(Got(Str(t), s))
  {
    hide ValidText, FromUtf8Lossy;
    var data := CnBytes(t) + s;
    assert data[..1] == [|t|] && data[1..] == t + s;
    TakeFront(t, s);
    LossyKeepsValid(t);
  }

  lemma {:induction false} CnsRoundTrip(ts: seq<Text>, s: seq<byte>)
    requires AllShort(ts)
    ensures GetCns(CnsBytes(ts) + s, |ts|) == Ok(Got(Strs(ts), s))
  {
    hide GetCn, CnBytes, ValidText;
    if ts == [] {
      assert CnsBytes(ts) + s == s;
    } else {
      Associates(CnBytes(ts[0]), CnsBytes(ts[1..]), s);
      CnRoundTrip(ts[0], CnsBytes(ts[1..]) + s);
      CnsRoundTrip(ts[1..], s);
      assert ts == [ts[0]] + ts[1..];
    }
  }

  /** A number whose bytes are the same in both orders. */
  predicate Mirrored(n: nat, width: nat)
  {
    LittleEndian(n, width) == BigEndian(n, width)
  }

  predicate SameNumber(e: Endian, n: nat, width: nat)
  {
    e.Little? || Mirrored(n, width)
  }

  /** Files are written little-endian: what a reader in order `e` gets right. */
  predicate SameIn(e: Endian, k: Kind, v: Value)
    requires Fit(k, v)
  {
    match k
    case Cn => true
    case Nn => |v.text| <= 0xFFFF && SameNumber(e, |v.text|, 2)
    case Kn => SameNumber(e, |v.bytes|, 2)
    case Sn => SameNumber(e, |v.texts|, 2)
    case _ => SameNumber(e, Bits(k, v), Width(k))
  }

  lemma OneByteIsMirrored(n: nat)
    ensures Mirrored(n, 1)
  {
    assert BigEndian(n, 1) == BigEndian(n / 256, 0) + [n % 256];
  }

  lemma NumberReadsIff(n: nat, width: nat, e: Endian)
    requires n < Pow256(width)
    ensures FromBytes(LittleEndian(n, width), e) == n <==> SameNumber(e, n, width)
  {
    LittleEndianRoundTrip(n, width);
    BigEndianRoundTrip(n, width);
    BigEndianInverse(LittleEndian(n, width));
  }

  lemma CountReadsIff(n: nat, s: seq<byte>, e: Endian)
    requires n <= 0xFFFF
    ensures Take(LittleEndian(n, 2) + s, 2) == Ok(Taken(LittleEndian(n, 2), s))
    ensures FromBytes(LittleEndian(n, 2), e) == n <==> SameNumber(e, n, 2)
  {
    TakeFront(LittleEndian(n, 2), s);
    SmallPowers();
    NumberReadsIff(n, 2, e);
  }

  /** What a field that reads `v` and leaves `s`, or does not read `v`, looks like. */
  predicate Reads(good: bool, r: Result<Got, StdfError>, v: Value, s: seq<byte>)
  {
    if good then r == Ok(Got(v, s)) else r.Ok? ==> r.value.value != v
  }

  lemma FixedReadsIff(k: Kind, v: Value, s: seq<byte>, e: Endian)
    requires Numeric(k) && Fit(k, v)
    ensures Reads(SameIn(e, k, v), Get(k, Put(k, v) + s, e), v, s)
  {
    hide LittleEndian, FromBytes, Mirrored;
    var bits, width := Bits(k, v), Width(k);
    TakeFront(Put(k, v), s);
    NumberReadsIff(bits, width, e);
    var n := FromBytes(LittleEndian(bits, width), e);
    FromBytesFits(LittleEndian(bits, width), e);
    if k.I1? || k.I2? {
      UnsignedRoundTrip(n, width);
      SignedRoundTrip(v.n, width);
    }
  }

  lemma FromBytesFits(b: seq<byte>, e: Endian)
    ensures FromBytes(b, e) < Pow256(|b|)
  {
    LittleEndianInverse(b);
    BigEndianInverse(b);
  }

  lemma {:induction false} CnsCount(d: seq<byte>, count: nat)
    ensures var r := GetCns(d, count); r.Ok? ==> |r.value.value.texts| == count
    decreases count
  {
    hide GetCn;
    if count > 0 && GetCn(d).Ok? {
      CnsCount(GetCn(d).value.rest, count - 1);
    }
  }

  /** A written field reads back exactly when it looks the same in the reader's byte order. */
  lemma FieldReadsIff(k: Kind, v: Value, s: seq<byte>, e: Endian)
    requires Fit(k, v)
    ensures Reads(SameIn(e, k, v), Get(k, Put(k, v) + s, e), v, s)
  {
    match k
    case Cn => CnRoundTrip(v.text, s);
    case Nn => NnReadsIff(v.text, s, e);
    case Kn => KnReadsIff(v.bytes, s, e);
    case Sn => SnReadsIff(v.texts, s, e);
    case _ => FixedReadsIff(k, v, s, e);
  }

  /** A two-byte length misread in the other order is off by at least 255. */
  lemma MisreadIsFarOff(n: nat)
    requires n <= 0xFFFF
    ensures var m := FromBytes(LittleEndian(n, 2), Big);
            m == n % 256 * 256 + n / 256 && (m == n || m >= n + 255 || m + 255 <= n)
  {
    assert LittleEndian(n, 2) == [n % 256] + LittleEndian(n / 256, 1) == [n % 256, n / 256];
    assert FromBigEndian([n % 256]) == n % 256;
    assert FromBigEndian([n % 256, n / 256]) == FromBigEndian([n % 256, n / 256][..1]) * 256 + n / 256;
    assert [n % 256, n / 256][..1] == [n % 256];
  }

  lemma OtherLengthOtherText(t: Text, s: seq<byte>, n: nat)
    requires ValidText(t) && n <= |t + s| && (n > |t| || n + 2 < |t|)
    ensures FromUtf8Lossy((t + s)[..n]) != t
  {
    hide ValidText, FromUtf8Lossy, ScalarAtFront, Matched;
    if n > |t| {
      var x := s[..n - |t|];
      assert (t + s)[..n] == t + x;
      LossyBehindValid(t, x);
      LossyIsSomething(x);
    } else {
      assert (t + s)[..n] == t[..n];
      LossyOfCut(t, n);
    }
  }

  lemma LossyIsSomething(b: Text)
    requires b != []
    ensures FromUtf8Lossy(b) != []
  {
  }

  /** The length announced for a text, if it is not the right one, is not close to it either. */
  lemma AnnouncedIsFarOff(length: nat, e: Endian)
    ensures var n := FromBytes(LittleEndian(length % 0x1_0000, 2), e);
            && (n == length <==> length <= 0xFFFF && SameNumber(e, length, 2))
            && (n == length || n > length || n + 2 < length)
  {
    var m := length % 0x1_0000;
    SmallPowers();
    NumberReadsIff(m, 2, e);
    NumberReadsIff(m, 2, Little);
    MisreadIsFarOff(m);
    FromBytesFits(LittleEndian(m, 2), e);
    hide LittleEndian, FromLittleEndian, FromBigEndian, Mirrored;
  }

  lemma NnReadsIff(t: Text, s: seq<byte>, e: Endian)
    requires ValidText(t)
    ensures Reads(SameIn(e, Nn, Str(t)), Get(Nn, Put(Nn, Str(t)) + s, e), Str(t), s)
  {
    hide LittleEndian, FromBytes, FromUtf8Lossy, ValidText, Mirrored, SameNumber;
    AnnouncedIsFarOff(|t|, e);
    var length := LittleEndian(|t| % 0x1_0000, 2);
    Associates(length, t, s);
    TakeFront(length, t + s);
    TakeFront(t, s);
    LossyKeepsValid(t);
    var n := FromBytes(length, e);
    if n != |t| && n <= |t + s| {
      OtherLengthOtherText(t, s, n);
    }
  }

  lemma KnReadsIff(d: seq<byte>, s: seq<byte>, e: Endian)
    requires |d| <= 0xFFFF
    ensures Reads(SameIn(e, Kn, Data(d)), Get(Kn, Put(Kn, Data(d)) + s, e), Data(d), s)
  {
    hide LittleEndian, FromBytes, Mirrored;
    Associates(LittleEndian(|d|, 2), d, s);
    CountReadsIff(|d|, d + s, e);
    TakeFront(d, s);
  }

  lemma SnReadsIff(ts: seq<Text>, s: seq<byte>, e: Endian)
    requires |ts| <= 0xFFFF && AllShort(ts)
    ensures Reads(SameIn(e, Sn, Strs(ts)), Get(Sn, Put(Sn, Strs(ts)) + s, e), Strs(ts), s)
  {
    hide LittleEndian, FromBytes, CnsBytes, GetCns, Mirrored;
    Associates(LittleEndian(|ts|, 2), CnsBytes(ts), s);
    CountReadsIff(|ts|, CnsBytes(ts) + s, e);
    CnsRoundTrip(ts, s);
    CnsCount(CnsBytes(ts) + s, FromBytes(LittleEndian(|ts|, 2), e));
  }

  predicate AllSameIn(e: Endian, ks: seq<Kind>, vs: seq<Value>)
    requires AllFit(ks, vs)
  {
    forall i | 0 <= i < |ks| :: SameIn(e, ks[i], vs[i])
  }

  /** The same for a row of fields. */
  lemma {:induction false} FieldsReadIff(ks: seq<Kind>, vs: seq<Value>, s: seq<byte>, e: Endian)
    requires AllFit(ks, vs)
    ensures var r := GetAll(ks, PutAll(ks, vs) + s, e);
            if AllSameIn(e, ks, vs) then r == Ok(GotAll(vs, s)) else r.Ok? ==> r.value.values != vs
  {
    hide Get, Put, Fit, SameIn, AllSameIn;
    if ks == [] {
      assert AllSameIn(e, ks, vs) by { NoneDiffers(e, ks, vs); }
      assert PutAll(ks, vs) + s == s;
    } else {
      Associates(Put(ks[0], vs[0]), PutAll(ks[1..], vs[1..]), s);
      FieldReadsIff(ks[0], vs[0], PutAll(ks[1..], vs[1..]) + s, e);
      FieldsReadIff(ks[1..], vs[1..], s, e);
      AllSameStep(e, ks, vs);
      assert vs == [vs[0]] + vs[1..];
    }
  }

  lemma NoneDiffers(e: Endian, ks: seq<Kind>, vs: seq<Value>)
    requires AllFit(ks, vs) && ks == []
    ensures AllSameIn(e, ks, vs)
  {
  }

  lemma AllSameStep(e: Endian, ks: seq<Kind>, vs: seq<Value>)
    requires AllFit(ks, vs) && ks != []
    ensures AllSameIn(e, ks, vs) <==> SameIn(e, ks[0], vs[0]) && AllSameIn(e, ks[1..], vs[1..])
  {
    hide SameIn, Fit;
  }

  // ---------- rewriting what was read ----------

  /** The text of a string field is well formed as it stands in the bytes, so that nothing is repaired. */
  predicate CleanCn(d: seq<byte>)
    requires GetCn(d).Ok?
  {
    ValidText(d[1..][..d[0]])
  }

  predicate CleanCns(d: seq<byte>, count: nat)
    requires GetCns(d, count).Ok?
    decreases count
  {
    count == 0 || (CleanCn(d) && CleanCns(GetCn(d).value.rest, count - 1))
  }

  predicate Clean(k: Kind, d: seq<byte>)
    requires Get(k, d, Little).Ok?
  {
    match k
    case Cn => CleanCn(d)
    case Nn => ValidText(d[2..][..FromBytes(d[..2], Little)])
    case Sn => CleanCns(d[2..], FromBytes(d[..2], Little))
    case _ => true
  }

  predicate AllClean(ks: seq<Kind>, d: seq<byte>)
    requires GetAll(ks, d, Little).Ok?
  {
    ks == [] || (Clean(ks[0], d) && AllClean(ks[1..], Get(ks[0], d, Little).value.rest))
  }

  lemma CnRewrites(d: seq<byte>)
    requires GetCn(d).Ok? && CleanCn(d)
    ensures var got := GetCn(d).value;
            ShortText(got.value.text) && CnBytes(got.value.text) + got.rest == d
  {
    hide ValidText, FromUtf8Lossy;
    var n, tail := d[0], d[1..];
    assert d[..1] == [n] && d == [n] + tail;
    LossyKeepsValid(tail[..n]);
    assert tail == tail[..n] + tail[n..];
    Associates([n], tail[..n], tail[n..]);
  }

  lemma {:induction false} CnsRewrite(d: seq<byte>, count: nat)
    requires GetCns(d, count).Ok? && CleanCns(d, count)
    ensures var got := GetCns(d, count).value;
            && |got.value.texts| == count && AllShort(got.value.texts)
            && CnsBytes(got.value.texts) + got.rest == d
    decreases count
  {
    hide ValidText, CleanCn, CnBytes, GetCn;
    var got := GetCns(d, count).value;
    if count == 0 {
      assert CnsBytes([]) + d == d;
    } else {
      var first := GetCn(d).value;
      assert got.value.texts[0] == first.value.text;
      assert got.value.texts[1..] == GetCns(first.rest, count - 1).value.value.texts;
      CnRewrites(d);
      CnsRewrite(first.rest, count - 1);
      Associates(CnBytes(first.value.text), CnsBytes(got.value.texts[1..]), got.rest);
    }
  }

  lemma CountRewrites(d: seq<byte>)
    requires |d| >= 2
    ensures var n := FromBytes(d[..2], Little); n <= 0xFFFF && LittleEndian(n, 2) + d[2..] == d
  {
    SmallPowers();
    LittleEndianInverse(d[..2]);
    assert d[..2] + d[2..] == d;
  }

  lemma NumberRewrites(k: Kind, d: seq<byte>)
    requires Numeric(k) && Get(k, d, Little).Ok?
    ensures var got := Get(k, d, Little).value; Fit(k, got.value) && Put(k, got.value) + got.rest == d
  {
    hide LittleEndian, FromLittleEndian;
    LittleEndianInverse(d[..Width(k)]);
    assert d[..Width(k)] + d[Width(k)..] == d;
  }

  lemma NnRewrites(d: seq<byte>)
    requires Get(Nn, d, Little).Ok? && Clean(Nn, d)
    ensures var got := Get(Nn, d, Little).value; Fit(Nn, got.value) && Put(Nn, got.value) + got.rest == d
  {
    hide LittleEndian, FromLittleEndian, FromUtf8Lossy, ValidText;
    CountRewrites(d);
    var n := FromBytes(d[..2], Little);
    LossyKeepsValid(d[2..][..n]);
    assert d[2..] == d[2..][..n] + d[2..][n..];
    Associates(LittleEndian(n, 2), d[2..][..n], d[2..][n..]);
  }

  lemma KnRewrites(d: seq<byte>)
    requires Get(Kn, d, Little).Ok?
    ensures var got := Get(Kn, d, Little).value; Fit(Kn, got.value) && Put(Kn, got.value) + got.rest == d
  {
    hide LittleEndian, FromLittleEndian;
    CountRewrites(d);
    var n := FromBytes(d[..2], Little);
    assert d[2..] == d[2..][..n] + d[2..][n..];
    Associates(LittleEndian(n, 2), d[2..][..n], d[2..][n..]);
  }

  lemma SnRewrites(d: seq<byte>)
    requires Get(Sn, d, Little).Ok? && Clean(Sn, d)
    ensures var got := Get(Sn, d, Little).value; Fit(Sn, got.value) && Put(Sn, got.value) + got.rest == d
  {
    hide LittleEndian, FromLittleEndian, GetCns, CnsBytes, ShortText, CleanCns;
    CountRewrites(d);
    var n := FromBytes(d[..2], Little);
    CnsRewrite(d[2..], n);
    var got := GetCns(d[2..], n).value;
    Associates(LittleEndian(n, 2), CnsBytes(got.value.texts), got.rest);
  }

  lemma CnIsClean(t: Text, s: seq<byte>)
    requires ShortText(t)
    ensures GetCn(CnBytes(t) + s).Ok? && CleanCn(CnBytes(t) + s)
  {
    hide ValidText;
    CnRoundTrip(t, s);
    var d := CnBytes(t) + s;
    assert d[0] == |t| && d[1..][..|t|] == t;
  }

  lemma {:induction false} CnsAreClean(ts: seq<Text>, s: seq<byte>)
    requires AllShort(ts)
    ensures GetCns(CnsBytes(ts) + s, |ts|).Ok? && CleanCns(CnsBytes(ts) + s, |ts|)
  {
    hide GetCn, CleanCn, CnBytes, ValidText;
    CnsRoundTrip(ts, s);
    if ts != [] {
      var rest := CnsBytes(ts[1..]) + s;
      Associates(CnBytes(ts[0]), CnsBytes(ts[1..]), s);
      CnIsClean(ts[0], rest);
      CnRoundTrip(ts[0], rest);
      CnsAreClean(ts[1..], s);
    }
  }

  lemma CleanName(d: seq<byte>, t: Text, s: seq<byte>)
    requires |d| >= 2 && FromBytes(d[..2], Little) == |t| && d[2..] == t + s && ValidText(t)
    ensures Get(Nn, d, Little).Ok? && Clean(Nn, d)
  {
    hide FromBytes, ValidText, FromUtf8Lossy;
    assert d[2..][..|t|] == t;
  }

  lemma ShortName(t: Text)
    requires ValidText(t) && |t| <= 0xFFFF
    ensures Put(Nn, Str(t)) == LittleEndian(|t|, 2) + t
  {
    hide LittleEndian, ValidText;
  }

  lemma NnIsClean(t: Text, s: seq<byte>)
    requires ValidText(t) && |t| <= 0xFFFF
    ensures Get(Nn, Put(Nn, Str(t)) + s, Little).Ok? && Clean(Nn, Put(Nn, Str(t)) + s)
  {
    hide LittleEndian, FromBytes, ValidText, Get, Put, Clean;
    var length := LittleEndian(|t|, 2);
    CountReadsIff(|t|, t + s, Little);
    ShortName(t);
    var d := (length + t) + s;
    assert d[..2] == length && d[2..] == t + s;
    CleanName(d, t, s);
  }

  lemma SnIsClean(ts: seq<Text>, s: seq<byte>)
    requires AllShort(ts) && |ts| <= 0xFFFF
    ensures Get(Sn, Put(Sn, Strs(ts)) + s, Little).Ok? && Clean(Sn, Put(Sn, Strs(ts)) + s)
  {
    hide LittleEndian, FromBytes, GetCns, CnsBytes, CleanCns, ShortText, Mirrored;
    Associates(LittleEndian(|ts|, 2), CnsBytes(ts), s);
    CountReadsIff(|ts|, CnsBytes(ts) + s, Little);
    CnsAreClean(ts, s);
    var d := Put(Sn, Strs(ts)) + s;
    assert d[..2] == LittleEndian(|ts|, 2) && d[2..] == CnsBytes(ts) + s;
  }

  /** What the writer wrote is well formed. */
  lemma FieldIsClean(k: Kind, v: Value, s: seq<byte>)
    requires Fit(k, v) && SameIn(Little, k, v)
    ensures Get(k, Put(k, v) + s, Little).Ok? && Clean(k, Put(k, v) + s)
  {
    FieldReadsIff(k, v, s, Little);
    match k
    case Cn => CnIsClean(v.text, s);
    case Nn => NnIsClean(v.text, s);
    case Sn => SnIsClean(v.texts, s);
    case _ =>
  }

  /** A field is written back to the very bytes it was read from exactly when its text is well formed. */
  lemma {:induction false} FieldRewritesIff(k: Kind, d: seq<byte>)
    requires Get(k, d, Little).Ok?
    ensures var got := Get(k, d, Little).value;
            Clean(k, d) <==> Fit(k, got.value) && Put(k, got.value) + got.rest == d
  {
    var got := Get(k, d, Little).value;
    if Clean(k, d) {
      match k
      case Cn => CnRewrites(d);
      case Nn => NnRewrites(d);
      case Kn => KnRewrites(d);
      case Sn => SnRewrites(d);
      case _ => NumberRewrites(k, d);
    }
    hide Get, Put, Fit, Clean, SameIn;
    if Fit(k, got.value) && Put(k, got.value) + got.rest == d {
      FieldReadsIff(k, got.value, got.rest, Little);
      FieldIsClean(k, got.value, got.rest);
    }
  }

  lemma {:induction false} FieldsRewrite(ks: seq<Kind>, d: seq<byte>)
    requires GetAll(ks, d, Little).Ok? && AllClean(ks, d)
    ensures var all := GetAll(ks, d, Little).value;
            AllFit(ks, all.values) && PutAll(ks, all.values) + all.rest == d
  {
    hide Get, Put, Fit, Clean;
    var all := GetAll(ks, d, Little).value;
    if ks == [] {
      assert PutAll([], []) + d == d;
    } else {
      var first := Get(ks[0], d, Little).value;
      var others := GetAll(ks[1..], first.rest, Little).value;
      assert all.values[0] == first.value && all.values[1..] == others.values;
      FieldRewritesIff(ks[0], d);
      FieldsRewrite(ks[1..], first.rest);
      Associates(Put(ks[0], all.values[0]), PutAll(ks[1..], all.values[1..]), all.rest);
    }
  }

  lemma {:induction false} FieldsAreClean(ks: seq<Kind>, vs: seq<Value>, s: seq<byte>)
    requires AllFit(ks, vs) && AllSameIn(Little, ks, vs)
    ensures GetAll(ks, PutAll(ks, vs) + s, Little).Ok? && AllClean(ks, PutAll(ks, vs) + s)
  {
    hide Get, Put, Fit, Clean, SameIn;
    FieldsReadIff(ks, vs, s, Little);
    if ks != [] {
      var rest := PutAll(ks[1..], vs[1..]) + s;
      Associates(Put(ks[0], vs[0]), PutAll(ks[1..], vs[1..]), s);
      FieldReadsIff(ks[0], vs[0], rest, Little);
      FieldIsClean(ks[0], vs[0], rest);
      FieldsAreClean(ks[1..], vs[1..], s);
    }
  }

  /** The same for a row of fields. */
  lemma {:induction false} FieldsRewriteIff(ks: seq<Kind>, d: seq<byte>)
    requires GetAll(ks, d, Little).Ok?
    ensures var all := GetAll(ks, d, Little).value;
            AllClean(ks, d) <==> AllFit(ks, all.values) && PutAll(ks, all.values) + all.rest == d
  {
    hide GetAll, PutAll, AllFit, AllClean, AllSameIn;
    var all := GetAll(ks, d, Little).value;
    if AllClean(ks, d) {
      FieldsRewrite(ks, d);
    }
    if AllFit(ks, all.values) && PutAll(ks, all.values) + all.rest == d {
      FieldsReadIff(ks, all.values, all.rest, Little);
      FieldsAreClean(ks, all.values, all.rest);
    }
  }

  // ---------- reading is local ----------

  /** A field that can be read is read the same with more bytes behind. */
  lemma GetIsLocal(k: Kind, d: seq<byte>, more: seq<byte>, e: Endian)
    requires Get(k, d, e).Ok?
    ensures var got := Get(k, d, e).value; Get(k, d + more, e) == Ok(Got(got.value, got.rest + more))
  {
    hide FromBytes, FromUtf8Lossy, GetCns;
    match k
    case Cn => CnIsLocal(d, more);
    case Nn =>
      TakeIsLocal(d, 2, more);
      TakeIsLocal(d[2..], FromBytes(d[..2], e), more);
    case Kn =>
      TakeIsLocal(d, 2, more);
      TakeIsLocal(d[2..], FromBytes(d[..2], e), more);
    case Sn =>
      TakeIsLocal(d, 2, more);
      CnsAreLocal(d[2..], FromBytes(d[..2], e), more);
    case _ => TakeIsLocal(d, Width(k), more);
  }

  lemma TakeIsLocal(d: seq<byte>, n: nat, more: seq<byte>)
    requires n <= |d|
    ensures Take(d + more, n) == Ok(Taken(d[..n], d[n..] + more))
  {
    assert (d + more)[..n] == d[..n] && (d + more)[n..] == d[n..] + more;
  }

  lemma CnIsLocal(d: seq<byte>, more: seq<byte>)
    requires GetCn(d).Ok?
    ensures GetCn(d + more) == Ok(Got(GetCn(d).value.value, GetCn(d).value.rest + more))
  {
    hide FromUtf8Lossy;
    TakeIsLocal(d, 1, more);
    TakeIsLocal(d[1..], d[..1][0], more);
  }

  lemma {:induction false} CnsAreLocal(d: seq<byte>, count: nat, more: seq<byte>)
    requires GetCns(d, count).Ok?
    ensures GetCns(d + more, count) == Ok(Got(GetCns(d, count).value.value, GetCns(d, count).value.rest + more))
    decreases count
  {
    hide GetCn;
    if count > 0 {
      CnIsLocal(d, more);
      CnsAreLocal(GetCn(d).value.rest, count - 1, more);
    }
  }

  lemma {:induction false} GetAllIsLocal(ks: seq<Kind>, d: seq<byte>, more: seq<byte>, e: Endian)
    requires GetAll(ks, d, e).Ok?
    ensures var all := GetAll(ks, d, e).value; GetAll(ks, d + more, e) == Ok(GotAll(all.values, all.rest + more))
  {
    hide Get;
    if ks != [] {
      GetIsLocal(ks[0], d, more, e);
      GetAllIsLocal(ks[1..], Get(ks[0], d, e).value.rest, more, e);
    }
  }

  // ---------- the cursor ----------

  /** `Reader`: a position that advances over one record's bytes. */
  class Reader {
    const data: seq<byte>
    const endian: Endian
    var pos: nat

    ghost predicate Valid()
      reads this
    {
      pos <= |data|
    }

    ghost function Rest(): seq<byte>
      requires Valid()
      reads this
    {
      data[pos..]
    }

    constructor (data: seq<byte>, endian: Endian)
      ensures Valid() && Rest() == data && this.endian == endian
    {
      this.data, this.endian, pos := data, endian, 0;
    }

    method TakeBytes(n: nat) returns (r: Result<seq<byte>, StdfError>)
      requires Valid()
      modifies this
      ensures Valid()
      ensures match Take(old(Rest()), n)
              case Ok(taken) => r == Ok(taken.bytes) && Rest() == taken.rest
              case Err(e) => r == Err(e) && Rest() == old(Rest())
    {
      if |data| - pos < n {
        return Err(UnexpectedEof(n, |data| - pos));
      }
      r := Ok(data[pos..pos + n]);
      assert data[pos..pos + n] == data[pos..][..n] && data[pos + n..] == data[pos..][n..];
      pos := pos + n;
    }

    /** `cn`: one length byte, then that many bytes of text. */
    method ReadCn() returns (r: Result<Value, StdfError>)
      requires Valid()
      modifies this
      ensures Valid()
      ensures match GetCn(old(Rest()))
              case Ok(got) => r == Ok(got.value) && Rest() == got.rest
              case Err(e) => r == Err(e)
    {
      hide FromUtf8Lossy;
      var length := TakeBytes(1);
      if length.Err? {
        return Err(length.error);
      }
      var text := TakeBytes(length.value[0]);
      if text.Err? {
        return Err(text.error);
      }
      return Ok(Str(FromUtf8Lossy(text.value)));
    }

    /** `sn`: a two-byte count, then that many strings. */
    method ReadSn() returns (r: Result<Value, StdfError>)
      requires Valid()
      modifies this
      ensures Valid()
      ensures match Get(Sn, old(Rest()), endian)
              case Ok(got) => r == Ok(got.value) && Rest() == got.rest
              case Err(e) => r == Err(e)
    {
      hide GetCn;
      var countBytes := TakeBytes(2);
      if countBytes.Err? {
        return Err(countBytes.error);
      }
      var count := FromBytes(countBytes.value, endian);
      ghost var start := Rest();
      var strings: seq<Text> := [];
      NothingBefore(GetCns(start, count));
      for k := 0 to count
        invariant Valid()
        invariant GetCns(start, count) == StringsBefore(strings, GetCns(Rest(), count - k))
      {
        StringsStep(strings, Rest(), count - k);
        var s := ReadCn();
        if s.Err? {
          return Err(s.error);
        }
        strings := strings + [s.value.text];
      }
      assert strings + [] == strings;
      return Ok(Strs(strings));
    }

    predicate IsEmpty()
      requires Valid()
      reads this
      ensures IsEmpty() <==> Rest() == []
    {
      pos == |data|
    }

    /** `u1`, `u2`, `u4`, `i1`, `i2`, `r4`, `cn`, `sn`, `k_bytes` and `nn`, by kind. */
    method Field(k: Kind) returns (r: Result<Value, StdfError>)
      requires Valid()
      modifies this
      ensures Valid()
      ensures match Get(k, old(Rest()), endian)
              case Ok(got) => r == Ok(got.value) && Rest() == got.rest
              case Err(e) => r == Err(e)
    {
      hide FromUtf8Lossy, FromBytes, GetCn, GetCns;
      match k {
        case Cn => r := ReadCn();
        case Sn => r := ReadSn();
        case Nn =>
          var length := TakeBytes(2);
          if length.Err? {
            return Err(length.error);
          }
          var text := TakeBytes(FromBytes(length.value, endian));
          if text.Err? {
            return Err(text.error);
          }
          r := Ok(Str(FromUtf8Lossy(text.value)));
        case Kn =>
          var length := TakeBytes(2);
          if length.Err? {
            return Err(length.error);
          }
          var bytes := TakeBytes(FromBytes(length.value, endian));
          if bytes.Err? {
            return Err(bytes.error);
          }
          r := Ok(Data(bytes.value));
        case _ =>
          var bytes := TakeBytes(Width(k));
          if bytes.Err? {
            return Err(bytes.error);
          }
          r := Ok(FromBits(k, FromBytes(bytes.value, endian)));
      }
    }
  }

  ghost function StringsBefore(front: seq<Text>, r: Result<Got, StdfError>): Result<Got, StdfError>
    requires r.Ok? ==> r.value.value.Strs?
  {
    if r.Ok? then Ok(Got(Strs(front + r.value.value.texts), r.value.rest)) else r
  }

  lemma NothingBefore(r: Result<Got, StdfError>)
    requires r.Ok? ==> r.value.value.Strs?
    ensures StringsBefore([], r) == r
  {
    if r.Ok? {
      assert [] + r.value.value.texts == r.value.value.texts;
    }
  }

  lemma StringsStep(front: seq<Text>, d: seq<byte>, count: nat)
    requires count > 0
    ensures match GetCn(d)
            case Err(e) => StringsBefore(front, GetCns(d, count)) == Err(e)
            case Ok(got) =>
              StringsBefore(front, GetCns(d, count))
              == StringsBefore(front + [got.value.text], GetCns(got.rest, count - 1))
  {
    hide GetCn;
    if GetCn(d).Ok? && GetCns(GetCn(d).value.rest, count - 1).Ok? {
      Associates(front, [GetCn(d).value.value.text], GetCns(GetCn(d).value.rest, count - 1).value.value.texts);
    }
  }
}
