/**
 Text. A Rust `String` is carried as its UTF-8 bytes, so every text value is a well-formed byte
 sequence. `FromUtf8Lossy` is the standard library's `String::from_utf8_lossy`: well-formed
 scalars are copied and every maximal ill-formed piece becomes U+FFFD.
 */
module Utf8 {
  import opened Bytes

  type Text = seq<byte>

  const REPLACEMENT: Text := [0xEF, 0xBF, 0xBD]

  predicate Continuation(b: byte) { 0x80 <= b <= 0xBF }

  /** The allowed second bytes after a lead byte (Unicode, Table 3-7). */
  predicate SecondByte(lead: byte, b: byte)
  {
    if lead == 0xE0 then 0xA0 <= b <= 0xBF
    else if lead == 0xED then 0x80 <= b <= 0x9F
    else if lead == 0xF0 then 0x90 <= b <= 0xBF
    else if lead == 0xF4 then 0x80 <= b <= 0x8F
    else Continuation(b)
  }

  /** Length of the scalar a lead byte announces, or 0 when it cannot lead one. */
  function Announced(lead: byte): nat
  {
    if lead < 0x80 then 1
    else if 0xC2 <= lead <= 0xDF then 2
    else if 0xE0 <= lead <= 0xEF then 3
    else if 0xF0 <= lead <= 0xF4 then 4
    else 0
  }

  /** How many of the announced bytes are really there, counting the lead byte. */
  function Matched(b: Text): (n: nat)
    requires b != []
    ensures 1 <= n <= |b|
  {
    var want := Announced(b[0]);
    if want < 2 || |b| < 2 || !SecondByte(b[0], b[1]) then 1
    else if want < 3 || |b| < 3 || !Continuation(b[2]) then 2
    else if want < 4 || |b| < 4 || !Continuation(b[3]) then 3
    else 4
  }

  predicate ScalarAtFront(b: Text)
    requires b != []
  {
    Matched(b) == Announced(b[0])
  }

  predicate ValidText(b: Text)
  {
    b == [] || (ScalarAtFront(b) && ValidText(b[Matched(b)..]))
  }

  function FromUtf8Lossy(b: Text): Text
  {
    if b == [] then []
    else
      (if ScalarAtFront(b) then b[..Matched(b)] else REPLACEMENT) + FromUtf8Lossy(b[Matched(b)..])
  }

  /** Whether U+FFFD occurs anywhere in a text. */
  predicate ShowsReplacement(b: Text)
  {
    exists k {:trigger b[k..]} :: 0 <= k <= |b| && REPLACEMENT <= b[k..]
  }

  lemma MatchedPrefix(b: Text, s: Text)
    requires b != [] && ScalarAtFront(b)
    ensures ScalarAtFront(b[..Matched(b)] + s)
    ensures Matched(b[..Matched(b)] + s) == Matched(b)
  {
  }

  /** Whatever the bytes, the text read from them is well formed. */
  lemma {:induction false} LossyIsValid(b: Text)
    ensures ValidText(FromUtf8Lossy(b))
  {
    if b != [] {
      var rest := FromUtf8Lossy(b[Matched(b)..]);
      LossyIsValid(b[Matched(b)..]);
      var front := if ScalarAtFront(b) then b[..Matched(b)] else REPLACEMENT;
      var whole := front + rest;
      if ScalarAtFront(b) {
        MatchedPrefix(b, rest);
      }
      assert ScalarAtFront(whole) && whole[Matched(whole)..] == rest;
    }
  }

  /** Well-formed bytes are read unchanged. */
  lemma {:induction false} LossyKeepsValid(b: Text)
    requires ValidText(b)
    ensures FromUtf8Lossy(b) == b
  {
    if b != [] {
      LossyKeepsValid(b[Matched(b)..]);
      assert b == b[..Matched(b)] + b[Matched(b)..];
    }
  }

  /** So the bytes that are read unchanged are exactly the well-formed ones. */
  lemma LossyUnchangedIff(b: Text)
    ensures FromUtf8Lossy(b) == b <==> ValidText(b)
  {
    hide FromUtf8Lossy, ValidText;
    LossyIsValid(b);
    if ValidText(b) {
      LossyKeepsValid(b);
    }
  }

  lemma ReplacementSpreads(front: Text, rest: Text)
    ensures ShowsReplacement(rest) ==> ShowsReplacement(front + rest)
    ensures ShowsReplacement(REPLACEMENT + rest)
  {
    var t := front + rest;
    if ShowsReplacement(rest) {
      var k :| 0 <= k <= |rest| && REPLACEMENT <= rest[k..];
      assert t[|front| + k..] == rest[k..];
    }
    assert (REPLACEMENT + rest)[0..] == REPLACEMENT + rest;
  }

  /** A read text without U+FFFD is exactly the bytes it was read from. */
  lemma {:induction false} NoReplacementMeansUnchanged(b: Text)
    requires !ShowsReplacement(FromUtf8Lossy(b))
    ensures FromUtf8Lossy(b) == b
  {
    hide ShowsReplacement, Matched;
    if b != [] {
      ReplacementSpreads(b[..Matched(b)], FromUtf8Lossy(b[Matched(b)..]));
      NoReplacementMeansUnchanged(b[Matched(b)..]);
      assert b == b[..Matched(b)] + b[Matched(b)..];
    }
  }

  /** Reading goes on behind a well-formed front as if it stood alone. */
  lemma {:induction false} LossyBehindValid(t: Text, s: Text)
    requires ValidText(t)
    ensures FromUtf8Lossy(t + s) == t + FromUtf8Lossy(s)
  {
    if t == [] {
      assert t + s == s;
    } else {
      var m := Matched(t);
      assert t == t[..m] + t[m..] && t + s == t[..m] + (t[m..] + s);
      MatchedPrefix(t, t[m..] + s);
      assert (t + s)[..m] == t[..m] && (t + s)[m..] == t[m..] + s;
      LossyBehindValid(t[m..], s);
      hide Matched, ScalarAtFront;
      Associates(t[..m], t[m..], FromUtf8Lossy(s));
      LossyKeepsValid(t);
      LossyKeepsValid(t[m..]);
    }
  }

  /** A well-formed text cut anywhere grows by at most two bytes: the piece of its last scalar. */
  lemma {:induction false} LossyOfCut(t: Text, n: nat)
    requires ValidText(t) && n <= |t|
    ensures |FromUtf8Lossy(t[..n])| <= n + 2
  {
    if n > 0 {
      var m := Matched(t);
      if m <= n {
        assert t[..n] == t[..m] + t[m..][..n - m];
        MatchedPrefix(t, t[m..][..n - m]);
        assert t[..n][m..] == t[m..][..n - m];
        LossyOfCut(t[m..], n - m);
      } else {
        assert Matched(t[..n]) == n && t[..n][n..] == [];
      }
    }
  }

  /** ASCII literals of the program as text. */
  function Ascii(s: string): (t: Text)
    requires forall k | 0 <= k < |s| :: s[k] as int < 0x80
    ensures |t| == |s|
    ensures forall k | 0 <= k < |s| :: t[k] == s[k] as int
  {
    seq(|s|, k requires 0 <= k < |s| => s[k] as int)
  }

  lemma {:induction false} AsciiIsValid(t: Text)
    requires forall k | 0 <= k < |t| :: t[k] < 0x80
    ensures ValidText(t)
  {
    if t != [] {
      AsciiIsValid(t[1..]);
    }
  }
}
