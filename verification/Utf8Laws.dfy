/**
 UTF-8 by its scalar values: the well-formed texts are the encodings of sequences of Unicode scalar
 values, and what is replaced in others are the longest pieces that such an encoding could begin with.
 */
module Utf8Laws {
  import opened Bytes
  import opened Utf8

  predicate IsScalar(c: int)
  {
    0 <= c < 0xD800 || 0xE000 <= c < 0x11_0000
  }

  function EncodeScalar(c: int): (b: Text)
    requires IsScalar(c)
  {
    if c < 0x80 then [c]
    else if c < 0x800 then [0xC0 + c / 0x40, 0x80 + c % 0x40]
    else if c < 0x1_0000 then [0xE0 + c / 0x1000, 0x80 + c / 0x40 % 0x40, 0x80 + c % 0x40]
    else [0xF0 + c / 0x4_0000, 0x80 + c / 0x1000 % 0x40, 0x80 + c / 0x40 % 0x40, 0x80 + c % 0x40]
  }

  predicate AllScalars(cs: seq<int>)
  {
    forall i :: 0 <= i < |cs| ==> IsScalar(cs[i])
  }

  function EncodeScalars(cs: seq<int>): Text
    requires AllScalars(cs)
  {
    if cs == [] then [] else EncodeScalar(cs[0]) + EncodeScalars(cs[1..])
  }

  /** What a byte carries below a mark. */
  function Less(b: byte, mark: int): int { b as int - mark }

  function Six(b: byte): int { Less(b, 0x80) }

  /** The scalar value of one to four bytes, if they encode one. */
  function ScalarOf(b: Text): int
    requires 1 <= |b| <= 4
  {
    if |b| == 1 then b[0]
    else if |b| == 2 then Less(b[0], 0xC0) * 0x40 + Six(b[1])
    else if |b| == 3 then (Less(b[0], 0xE0) * 0x40 + Six(b[1])) * 0x40 + Six(b[2])
    else ((Less(b[0], 0xF0) * 0x40 + Six(b[1])) * 0x40 + Six(b[2])) * 0x40 + Six(b[3])
  }

  lemma TwoParts(hi: int, lo: int)
    requires 0 <= lo < 0x40
    ensures (hi * 0x40 + lo) / 0x40 == hi && (hi * 0x40 + lo) % 0x40 == lo
  {
  }

  lemma ThreeBytes(b: Text)
    requires |b| == 3 && ScalarAtFront(b) && Matched(b) == 3
    ensures IsScalar(ScalarOf(b)) && EncodeScalar(ScalarOf(b)) == b
  {
    var q := Less(b[0], 0xE0) * 0x40 + Six(b[1]);
    TwoParts(q, Six(b[2]));
    TwoParts(Less(b[0], 0xE0), Six(b[1]));
    Twice(ScalarOf(b));
  }

  lemma FourBytes(b: Text)
    requires |b| == 4 && ScalarAtFront(b) && Matched(b) == 4
    ensures IsScalar(ScalarOf(b)) && EncodeScalar(ScalarOf(b)) == b
  {
    var q := Less(b[0], 0xF0) * 0x40 + Six(b[1]);
    var p := q * 0x40 + Six(b[2]);
    TwoParts(p, Six(b[3]));
    TwoParts(q, Six(b[2]));
    TwoParts(Less(b[0], 0xF0), Six(b[1]));
    Twice(ScalarOf(b));
  }

  lemma TwoBytes(b: Text)
    requires |b| == 2 && ScalarAtFront(b) && Matched(b) == 2
    ensures IsScalar(ScalarOf(b)) && EncodeScalar(ScalarOf(b)) == b
  {
    TwoParts(Less(b[0], 0xC0), Six(b[1]));
  }

  lemma FrontIsScalar(b: Text)
    requires b != [] && ScalarAtFront(b)
    ensures |b[..Matched(b)]| <= 4
    ensures IsScalar(ScalarOf(b[..Matched(b)])) && EncodeScalar(ScalarOf(b[..Matched(b)])) == b[..Matched(b)]
  {
    var f := b[..Matched(b)];
    assert ScalarAtFront(f) && Matched(f) == |f| <= 4;
    if |f| == 2 {
      hide Matched, ScalarAtFront, ScalarOf, EncodeScalar;
      TwoBytes(f);
    } else if |f| == 3 {
      hide Matched, ScalarAtFront, ScalarOf, EncodeScalar;
      ThreeBytes(f);
    } else if |f| == 4 {
      hide Matched, ScalarAtFront, ScalarOf, EncodeScalar;
      FourBytes(f);
    }
  }

  lemma Twice(c: int)
    ensures c / 0x1000 == c / 0x40 / 0x40 && c / 0x4_0000 == c / 0x40 / 0x40 / 0x40
  {
  }

  lemma ScalarIsFront(c: int, rest: Text)
    requires IsScalar(c)
    ensures var b := EncodeScalar(c) + rest; ScalarAtFront(b) && Matched(b) == |EncodeScalar(c)|
  {
    Twice(c);
  }

  lemma {:induction false} EncodingIsValid(cs: seq<int>)
    requires AllScalars(cs)
    ensures ValidText(EncodeScalars(cs))
  {
    hide EncodeScalar, IsScalar, ScalarAtFront, Matched;
    if cs != [] {
      var rest := EncodeScalars(cs[1..]);
      EncodingIsValid(cs[1..]);
      ScalarIsFront(cs[0], rest);
      ScalarIsSomething(cs[0]);
      assert (EncodeScalar(cs[0]) + rest)[|EncodeScalar(cs[0])|..] == rest;
    }
  }

  lemma ScalarIsSomething(c: int)
    requires IsScalar(c)
    ensures EncodeScalar(c) != []
  {
  }

  lemma {:induction false} ValidIsEncoding(b: Text) returns (cs: seq<int>)
    requires ValidText(b)
    ensures AllScalars(cs) && EncodeScalars(cs) == b
  {
    hide EncodeScalar, IsScalar, ScalarAtFront, Matched, ScalarOf;
    cs := [];
    if b != [] {
      var m := Matched(b);
      FrontIsScalar(b);
      var others := ValidIsEncoding(b[m..]);
      cs := [ScalarOf(b[..m])] + others;
      assert b == b[..m] + b[m..] && cs[1..] == others;
    }
  }

  /** A text is well formed exactly when it encodes some sequence of scalar values. */
  lemma ValidTextIff(b: Text)
    ensures ValidText(b) <==> exists cs :: AllScalars(cs) && EncodeScalars(cs) == b
  {
    hide ValidText, EncodeScalars, AllScalars;
    if ValidText(b) {
      var cs := ValidIsEncoding(b);
    }
    if cs :| AllScalars(cs) && EncodeScalars(cs) == b {
      EncodingIsValid(cs);
    }
  }

  // ---------- what is replaced ----------

  /** The first `n` bytes could begin the encoding of a scalar value. */
  ghost predicate Begins(b: Text, n: nat)
  {
    n <= |b| && exists c :: IsScalar(c) && n <= |EncodeScalar(c)| && EncodeScalar(c)[..n] == b[..n]
  }

  /** The bytes that match are not surpassed by any encoding. */
  lemma NothingMatchesMore(b: Text, c: int, n: nat)
    requires b != [] && IsScalar(c) && n <= |b| && n <= |EncodeScalar(c)| && EncodeScalar(c)[..n] == b[..n]
    ensures n <= Matched(b)
  {
    var e := EncodeScalar(c);
    ScalarIsFront(c, []);
    assert e + [] == e;
    assert forall i :: 0 <= i < n ==> e[i] == b[i] by {
      assert forall i :: 0 <= i < n ==> e[..n][i] == b[..n][i];
    }
    hide EncodeScalar;
    MatchesAgree(e, b, n);
  }

  /** Of two byte strings with a common front, each matches as far as the front, if the other does. */
  lemma MatchesAgree(e: Text, b: Text, n: nat)
    requires e != [] && b != [] && n <= |e| && n <= |b| && n <= Matched(e)
    requires forall i :: 0 <= i < n ==> e[i] == b[i]
    ensures n <= Matched(b)
  {
  }

  /** A lead byte and the continuation bytes that match it begin an encoding. */
  lemma MatchedBegins(b: Text)
    requires b != [] && Matched(b) >= 2
    ensures Begins(b, Matched(b))
  {
    var m := Matched(b);
    var full := Completed(b[..m], Announced(b[0]));
    CompletedIsScalar(b);
    var c := ScalarOf(full[..Matched(full)]);
    FrontIsScalar(full);
    assert full[..Matched(full)] == full;
    assert EncodeScalar(c)[..m] == b[..m] by {
      assert full[..m] == b[..m];
    }
  }

  /** Filled up with the smallest continuation bytes. */
  function Completed(b: Text, n: nat): Text
    requires |b| <= n
  {
    b + seq(n - |b|, _ => 0x80 as byte)
  }

  lemma CompletedIsScalar(b: Text)
    requires b != [] && Matched(b) >= 2
    ensures Matched(b) <= Announced(b[0]) <= 4
    ensures var full := Completed(b[..Matched(b)], Announced(b[0]));
            |full| == Announced(b[0]) && ScalarAtFront(full) && Matched(full) == |full|
  {
  }

  /**
   A replaced piece is as long as can be: more of the bytes could not begin any encoding, and these do,
   unless it is a single byte. The pieces that are copied are encodings.
   */
  lemma PieceIsMaximal(b: Text)
    requires b != []
    ensures forall n: nat :: Begins(b, n) ==> n <= Matched(b)
    ensures Matched(b) == 1 || Begins(b, Matched(b))
    ensures ScalarAtFront(b) <==> exists c :: IsScalar(c) && EncodeScalar(c) <= b
  {
    forall n: nat | Begins(b, n) ensures n <= Matched(b) {
      var c :| IsScalar(c) && n <= |EncodeScalar(c)| && EncodeScalar(c)[..n] == b[..n];
      NothingMatchesMore(b, c, n);
    }
    if Matched(b) >= 2 {
      MatchedBegins(b);
    }
    hide EncodeScalar, IsScalar, Matched, ScalarAtFront, ScalarOf;
    if ScalarAtFront(b) {
      FrontIsScalar(b);
      assert EncodeScalar(ScalarOf(b[..Matched(b)])) <= b;
    }
    if c :| IsScalar(c) && EncodeScalar(c) <= b {
      ScalarIsFront(c, b[|EncodeScalar(c)|..]);
      assert b == EncodeScalar(c) + b[|EncodeScalar(c)|..];
    }
  }

  /** One step of reading text: an encoding at the front is copied, anything else becomes U+FFFD. */
  lemma LossyStep(b: Text)
    requires b != []
    ensures FromUtf8Lossy(b)
         == (if exists c :: IsScalar(c) && EncodeScalar(c) <= b then b[..Matched(b)] else EncodeScalar(0xFFFD))
            + FromUtf8Lossy(b[Matched(b)..])
  {
    assert EncodeScalar(0xFFFD) == REPLACEMENT;
    hide EncodeScalar, IsScalar, Matched, ScalarAtFront;
    PieceIsMaximal(b);
  }
}
