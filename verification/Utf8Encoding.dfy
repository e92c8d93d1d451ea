/** UTF-8 as an encoder sees it (section 3 of RFC 3629): the validity test that
    the modules share accepts exactly the encodings of Unicode scalar values. */
module Utf8Encoding {
  import opened Bytes
  import opened Text

  predicate Scalar(c: nat) { c < 0xd800 || 0xe000 <= c < 0x11_0000 }

  function EncodeChar(c: nat): (r: seq<byte>)
    requires Scalar(c)
    ensures 1 <= |r| <= 4
  {
    if c < 0x80 then [c]
    else if c < 0x800 then [0xc0 + c / 64, 0x80 + c % 64]
    else if c < 0x1_0000 then [0xe0 + c / 4096, 0x80 + c / 64 % 64, 0x80 + c % 64]
    else [0xf0 + c / 262144, 0x80 + c / 4096 % 64, 0x80 + c / 64 % 64, 0x80 + c % 64]
  }

  function EncodeText(cs: seq<nat>): seq<byte>
    requires forall c :: c in cs ==> Scalar(c)
  {
    if cs == [] then [] else EncodeChar(cs[0]) + EncodeText(cs[1..])
  }

  lemma Sixes(c: nat)
    ensures c == 64 * (c / 64) + c % 64 && c / 64 == 64 * (c / 4096) + c / 64 % 64 && c / 4096 == 64 * (c / 262144) + c / 4096 % 64
  {
    assert c / 4096 == c / 64 / 64 && c / 262144 == c / 4096 / 64;
  }

  /** The test finds the whole character at the front. */
  lemma CharIsFound(c: nat, rest: seq<byte>)
    requires Scalar(c)
    ensures CharLen(EncodeChar(c) + rest) == |EncodeChar(c)|
  {
    Sixes(c);
    var e := EncodeChar(c);
    var s := e + rest;
    assert forall k :: 0 <= k < |e| ==> s[k] == e[k];
    if c >= 0x1_0000 {
      FourBytes(c);
    } else if c >= 0x800 {
      ThreeBytes(c);
    }
  }

  lemma ThreeBytes(c: nat)
    requires Scalar(c) && 0x800 <= c < 0x1_0000
    ensures var a, b := 0xe0 + c / 4096, 0x80 + c / 64 % 64;
            0xe0 <= a < 0xf0 && !(a == 0xe0 && b < 0xa0) && !(a == 0xed && b >= 0xa0)
  {
    Sixes(c);
  }

  lemma FourBytes(c: nat)
    requires 0x1_0000 <= c < 0x11_0000
    ensures var a, b := 0xf0 + c / 262144, 0x80 + c / 4096 % 64;
            0xf0 <= a < 0xf5 && !(a == 0xf0 && b < 0x90) && !(a == 0xf4 && b >= 0x90)
  {
    Sixes(c);
  }

  /** The scalar value that a found character encodes. */
  function DecodeChar(s: seq<byte>): nat
    requires s != [] && CharLen(s) > 0
  {
    var n := CharLen(s);
    if n == 1 then s[0]
    else if n == 2 then Bits(0, 0, s[0] - 0xc0, s[1] - 0x80)
    else if n == 3 then Bits(0, s[0] - 0xe0, s[1] - 0x80, s[2] - 0x80)
    else Bits(s[0] - 0xf0, s[1] - 0x80, s[2] - 0x80, s[3] - 0x80)
  }

  function Bits(a: nat, b: nat, c: nat, d: nat): nat { 262144 * a + 4096 * b + 64 * c + d }

  lemma Digits(a: nat, b: nat, c: nat, d: nat)
    requires b < 64 && c < 64 && d < 64
    ensures var n := Bits(a, b, c, d);
            n / 262144 == a && n / 4096 % 64 == b && n / 64 % 64 == c && n % 64 == d && n / 64 == 4096 * a + 64 * b + c && n / 4096 == 64 * a + b
  {
    var n := Bits(a, b, c, d);
    assert n / 64 == 4096 * a + 64 * b + c;
    assert n / 4096 == 64 * a + b;
  }

  /** Whatever the test finds is the encoding of one scalar value. */
  lemma FoundIsChar(s: seq<byte>)
    requires s != [] && CharLen(s) > 0
    ensures Scalar(DecodeChar(s)) && EncodeChar(DecodeChar(s)) == s[..CharLen(s)]
  {
    var n := CharLen(s);
    assert forall k :: 1 <= k < n ==> Continuation(s[k]);
    if n == 2 {
      Digits(0, 0, s[0] - 0xc0, s[1] - 0x80);
    } else if n == 3 {
      FoundThree(s);
    } else if n == 4 {
      FoundFour(s);
    }
  }

  lemma FoundThree(s: seq<byte>)
    requires s != [] && CharLen(s) == 3 && forall k :: 1 <= k < 3 ==> Continuation(s[k])
    ensures Scalar(DecodeChar(s)) && EncodeChar(DecodeChar(s)) == s[..3]
  {
    Digits(0, s[0] - 0xe0, s[1] - 0x80, s[2] - 0x80);
  }

  lemma FoundFour(s: seq<byte>)
    requires s != [] && CharLen(s) == 4 && forall k :: 1 <= k < 4 ==> Continuation(s[k])
    ensures Scalar(DecodeChar(s)) && EncodeChar(DecodeChar(s)) == s[..4]
  {
    Digits(s[0] - 0xf0, s[1] - 0x80, s[2] - 0x80, s[3] - 0x80);
  }

  lemma {:induction false} EncodingIsUtf8(cs: seq<nat>)
    requires forall c :: c in cs ==> Scalar(c)
    ensures Utf8(EncodeText(cs))
  {
    if cs != [] {
      hide CharLen, EncodeChar;
      EncodingIsUtf8(cs[1..]);
      CharIsFound(cs[0], EncodeText(cs[1..]));
      var s, n := EncodeText(cs), |EncodeChar(cs[0])|;
      assert s[n..] == EncodeText(cs[1..]);
    }
  }

  lemma FirstFound(s: seq<byte>)
    requires Utf8(s) && s != []
    ensures CharLen(s) > 0 && Utf8(s[CharLen(s)..])
  {
  }

  lemma {:induction false} Utf8IsEncoding(s: seq<byte>) returns (cs: seq<nat>)
    requires Utf8(s)
    ensures (forall c :: c in cs ==> Scalar(c)) && EncodeText(cs) == s
    decreases |s|
  {
    hide *;
    if s == [] {
      EncodeNone();
      return [];
    }
    FirstFound(s);
    var n, c := CharLen(s), DecodeChar(s);
    FoundIsChar(s);
    var rest := Utf8IsEncoding(s[n..]);
    cs := [c] + rest;
    EncodeCons(c, rest);
    assert s == s[..n] + s[n..];
  }

  lemma EncodeNone()
    ensures EncodeText([]) == []
  {
  }

  lemma EncodeCons(c: nat, rest: seq<nat>)
    requires Scalar(c) && forall d :: d in rest ==> Scalar(d)
    ensures EncodeText([c] + rest) == EncodeChar(c) + EncodeText(rest)
  {
    hide EncodeChar;
    assert ([c] + rest)[1..] == rest;
  }

  /** Main result: a text is UTF-8 exactly if it encodes scalar values. */
  lemma Utf8Exactly(s: seq<byte>)
    ensures Utf8(s) <==> exists cs: seq<nat> :: (forall c :: c in cs ==> Scalar(c)) && EncodeText(cs) == s
  {
    if Utf8(s) { var cs := Utf8IsEncoding(s); }
    forall cs: seq<nat> | (forall c :: c in cs ==> Scalar(c)) && EncodeText(cs) == s ensures Utf8(s) { EncodingIsUtf8(cs); }
  }
}
