/** Signed cookies: signing, percent encoding, and finding a pair in a Cookie
    header. The keyed hash is a function of the text; its value is base64url
    text, so ASCII and without a dot. */
module Cookies {
  import opened Bytes
  import opened Text

  const DOT: byte := 0x2e
  const EQUALS: byte := 0x3d
  const SEMICOLON: byte := 0x3b
  const PERCENT: byte := 0x25
  const PLUS: byte := 0x2b

  // ----- signatures -----

  ghost predicate IsMac(mac: seq<byte> -> seq<byte>) {
    forall v :: DOT !in mac(v) && forall i :: 0 <= i < |mac(v)| ==> mac(v)[i] < 0x80
  }

  function Sign(v: seq<byte>, mac: seq<byte> -> seq<byte>): seq<byte> { v + [DOT] + mac(v) }

  function LastDot(s: seq<byte>): (i: Option<nat>)
    ensures i.Some? ==> i.value < |s| && s[i.value] == DOT && DOT !in s[i.value + 1..]
    ensures i.None? ==> DOT !in s
  {
    if s == [] then None else
    var n := |s| - 1;
    if s[n] == DOT then Some(n) else
    assert s == s[..n] + [s[n]];
    var r := LastDot(s[..n]);
    assert r.Some? ==> s[r.value + 1..] == s[..n][r.value + 1..] + [s[n]];
    r
  }

  function Unsign(s: seq<byte>, mac: seq<byte> -> seq<byte>): Option<seq<byte>> {
    match LastDot(s)
    case None => None
    case Some(i) => if s[i + 1..] == mac(s[..i]) then Some(s[..i]) else None
  }

  lemma SignedDot(v: seq<byte>, mac: seq<byte> -> seq<byte>)
    requires IsMac(mac)
    ensures LastDot(Sign(v, mac)) == Some(|v|)
  {
    var s := Sign(v, mac);
    assert s[|v|] == DOT && s[|v| + 1..] == mac(v);
    var i := LastDot(s).value;
    assert forall k :: |v| < k < |s| ==> s[k] == mac(v)[k - |v| - 1];
    assert forall k :: i < k < |s| ==> s[k] == s[i + 1..][k - i - 1];
  }

  /** The verifier accepts exactly what the signer makes. */
  lemma UnsignExact(s: seq<byte>, v: seq<byte>, mac: seq<byte> -> seq<byte>)
    requires IsMac(mac)
    ensures Unsign(s, mac) == Some(v) <==> s == Sign(v, mac)
  {
    hide LastDot;
    SignedDot(v, mac);
    assert Sign(v, mac)[|v| + 1..] == mac(v) && Sign(v, mac)[..|v|] == v;
    var i := LastDot(s);
    if Unsign(s, mac) == Some(v) { assert s == s[..i.value] + [s[i.value]] + s[i.value + 1..]; }
  }

  /** Compares every byte; true exactly when the texts are equal. */
  method TimingEq(left: seq<byte>, right: seq<byte>) returns (same: bool)
    ensures same == (left == right)
  {
    if |left| != |right| { return false; }
    var diff: nat := 0;
    for i := 0 to |left|
      invariant diff == 0 <==> left[..i] == right[..i]
    {
      XorIsZero(left[i], right[i]);
      OrIsZero(diff, Xor(left[i], right[i]));
      diff := Or(diff, Xor(left[i], right[i]));
      assert left[..i + 1] == left[..i] + [left[i]] && right[..i + 1] == right[..i] + [right[i]];
    }
    assert left[..|left|] == left && right[..|left|] == right;
    same := diff == 0;
  }

  /** `unsign_value`, with its comparison of every byte. */
  method UnsignValue(s: seq<byte>, mac: seq<byte> -> seq<byte>) returns (r: Option<seq<byte>>)
    ensures r == Unsign(s, mac)
  {
    var i := LastDot(s);
    if i.None? { return None; }
    var raw := s[..i.value];
    var same := TimingEq(s[i.value + 1..], mac(raw));
    r := if same then Some(raw) else None;
  }

  // ----- percent encoding -----

  predicate Unreserved(b: byte) {
    0x30 <= b <= 0x39 || 0x41 <= b <= 0x5a || 0x61 <= b <= 0x7a || b == 0x2d || b == 0x5f || b == DOT || b == 0x7e
  }

  function HexDigit(n: nat): byte
    requires n < 16
  {
    if n < 10 then 0x30 + n else 0x41 + n - 10
  }

  function HexValue(b: byte): Option<nat> {
    if 0x30 <= b <= 0x39 then Some(b - 0x30)
    else if 0x41 <= b <= 0x46 then Some(b - 0x41 + 10)
    else if 0x61 <= b <= 0x66 then Some(b - 0x61 + 10)
    else None
  }

  /** Two digits of an escape. The number parser takes a plus sign before one digit. */
  function HexPair(a: byte, b: byte): Option<byte> {
    match (HexValue(a), HexValue(b))
    case (Some(x), Some(y)) => Some(16 * x + y)
    case (None, Some(y)) => if a == PLUS then Some(y) else None
    case _ => None
  }

  function EncodeByte(b: byte): seq<byte> {
    if Unreserved(b) then [b] else [PERCENT, HexDigit(b / 16), HexDigit(b % 16)]
  }

  function Encode(v: seq<byte>): seq<byte> { if v == [] then [] else EncodeByte(v[0]) + Encode(v[1..]) }

  function DecodeBytes(s: seq<byte>): Option<seq<byte>>
    decreases |s|
  {
    if s == [] then Some([])
    else if s[0] != PERCENT then Prepend(s[0], DecodeBytes(s[1..]))
    else if |s| < 3 then None
    else match HexPair(s[1], s[2]) case None => None case Some(b) => Prepend(b, DecodeBytes(s[3..]))
  }

  function Prepend(b: byte, r: Option<seq<byte>>): Option<seq<byte>> {
    match r case None => None case Some(s) => Some([b] + s)
  }

  function Decode(s: seq<byte>): Option<seq<byte>> {
    match DecodeBytes(s) case None => None case Some(v) => if Utf8(v) then Some(v) else None
  }

  lemma EncodeEnd(output: seq<byte>, v: seq<byte>)
    ensures output + Encode(v[|v|..]) == output
  {
  }

  lemma EncodeStep(output: seq<byte>, v: seq<byte>, i: nat)
    requires i < |v|
    ensures output + Encode(v[i..]) == output + EncodeByte(v[i]) + Encode(v[i + 1..])
  {
    hide EncodeByte;
    assert v[i..][1..] == v[i + 1..];
  }

  method PercentEncode(v: seq<byte>) returns (output: seq<byte>)
    ensures output == Encode(v)
  {
    output := [];
    assert v[0..] == v;
    hide Encode;
    for i := 0 to |v|
      invariant output + Encode(v[i..]) == Encode(v)
    {
      var b := v[i];
      EncodeStep(output, v, i);
      if Unreserved(b) { output := output + [b]; } else { output := output + [PERCENT, HexDigit(b / 16), HexDigit(b % 16)]; }
    }
    EncodeEnd(output, v);
  }

  method PercentDecode(s: seq<byte>) returns (r: Option<seq<byte>>)
    ensures r == Decode(s)
  {
    var out: seq<byte> := [];
    var index: nat := 0;
    assert s[0..] == s;
    Onto([], 0, DecodeBytes(s));
    while index < |s|
      invariant index <= |s| && DecodeBytes(s) == Append(out, DecodeBytes(s[index..]))
    {
      var rest := s[index..];
      assert rest[1..] == s[index + 1..];
      if s[index] == PERCENT {
        if index + 2 >= |s| { return None; }
        assert rest[3..] == s[index + 3..];
        var b := HexPair(s[index + 1], s[index + 2]);
        if b.None? { return None; }
        Onto(out, b.value, DecodeBytes(s[index + 3..]));
        out := out + [b.value];
        index := index + 3;
      } else {
        Onto(out, s[index], DecodeBytes(s[index + 1..]));
        out := out + [s[index]];
        index := index + 1;
      }
    }
    assert s[index..] == [] && out + [] == out;
    r := if Utf8(out) then Some(out) else None;
  }

  function Append(done: seq<byte>, r: Option<seq<byte>>): Option<seq<byte>> {
    match r case None => None case Some(s) => Some(done + s)
  }

  lemma Onto(done: seq<byte>, b: byte, r: Option<seq<byte>>)
    ensures Append(done, Prepend(b, r)) == Append(done + [b], r) && Append([], r) == r
  {
    if r.Some? { assert done + ([b] + r.value) == done + [b] + r.value && [] + r.value == r.value; }
  }

  lemma {:induction false} DecodeEncode(v: seq<byte>)
    ensures DecodeBytes(Encode(v)) == Some(v)
  {
    if v != [] {
      var b, rest := v[0], Encode(v[1..]);
      DecodeEncode(v[1..]);
      assert v == [b] + v[1..];
      if Unreserved(b) {
        assert Encode(v)[1..] == rest;
      } else {
        assert Encode(v)[3..] == rest;
        assert HexPair(HexDigit(b / 16), HexDigit(b % 16)) == Some(b);
      }
    }
  }

  // ----- where the decoder is lenient -----

  /** Two hexadecimal digits and nothing else. */
  function StrictPair(a: byte, b: byte): Option<byte> {
    match (HexValue(a), HexValue(b))
    case (Some(x), Some(y)) => Some(16 * x + y)
    case _ => None
  }

  function StrictBytes(s: seq<byte>): Option<seq<byte>>
    decreases |s|
  {
    if s == [] then Some([])
    else if s[0] != PERCENT then Prepend(s[0], StrictBytes(s[1..]))
    else if |s| < 3 then None
    else match StrictPair(s[1], s[2]) case None => None case Some(b) => Prepend(b, StrictBytes(s[3..]))
  }

  function StrictDecode(s: seq<byte>): Option<seq<byte>> {
    match StrictBytes(s) case None => None case Some(v) => if Utf8(v) then Some(v) else None
  }

  /** Some escape of the text has a plus sign for its first digit. */
  predicate PlusEscape(s: seq<byte>)
    decreases |s|
  {
    if s == [] then false
    else if s[0] != PERCENT then PlusEscape(s[1..])
    else |s| >= 3 && (s[1] == PLUS || PlusEscape(s[3..]))
  }

  lemma {:induction false} StrictOrPlus(s: seq<byte>)
    ensures if PlusEscape(s) then StrictBytes(s).None? else DecodeBytes(s) == StrictBytes(s)
    decreases |s|
  {
    if s != [] {
      if s[0] != PERCENT { StrictOrPlus(s[1..]); } else if |s| >= 3 { StrictOrPlus(s[3..]); }
    }
  }

  /** The decoder agrees with the strict one on exactly the texts that it does
      not accept with a plus sign in an escape. */
  lemma StrictExactly(s: seq<byte>)
    ensures DecodeBytes(s) == StrictBytes(s) <==> !(DecodeBytes(s).Some? && PlusEscape(s))
    ensures Decode(s) == StrictDecode(s) <==> !(Decode(s).Some? && PlusEscape(s))
  {
    StrictOrPlus(s);
  }

  /** It takes the text `%+A` for the byte 10. */
  lemma PlusIsTaken(s: seq<byte>)
    requires s == [PERCENT, PLUS, 0x41]
    ensures Decode(s) == Some([10]) && StrictDecode(s) == None && PlusEscape(s)
  {
    assert HexPair(s[1], s[2]) == Some(10) && StrictPair(s[1], s[2]) == None;
    assert DecodeBytes(s) == Prepend(10, DecodeBytes(s[3..])) && s[3..] == [];
    var v: seq<byte> := [10];
    assert v + [] == v && DecodeBytes(s) == Some(v);
    AsciiIsUtf8(v);
  }

  /** Encoded text is safe in a cookie pair. */
  lemma {:induction false} EncodeIsSafe(v: seq<byte>)
    ensures forall i :: 0 <= i < |Encode(v)| ==> Encode(v)[i] == PERCENT || Unreserved(Encode(v)[i])
    ensures v != [] ==> Encode(v) != []
  {
    if v != [] { EncodeIsSafe(v[1..]); }
  }

  const UPPER := "0123456789ABCDEF"
  const LOWER := "0123456789abcdef"

  predicate IsPlain(c: char) { 'A' <= c <= 'Z' || 'a' <= c <= 'z' || '0' <= c <= '9' || c in "-_.~" }

  /** What a byte is encoded as: itself, if it is one of the unreserved
      characters of section 2.3 of RFC 3986, and otherwise a percent sign and
      its two hexadecimal digits in upper case. */
  lemma EncodingOf(b: byte)
    ensures Encode([b]) == if IsPlain(b as char) then [b] else [0x25, UPPER[b / 16] as int, UPPER[b % 16] as int]
  {
    assert [b][1..] == [] && Encode([b]) == EncodeByte(b) + [];
    PlainBytes(b);
    DigitText(b / 16);
    DigitText(b % 16);
  }

  lemma {:induction false} EncodeAppend(v: seq<byte>, w: seq<byte>)
    ensures Encode(v + w) == Encode(v) + Encode(w)
  {
    hide EncodeByte;
    if v == [] {
      assert v + w == w;
    } else {
      EncodeAppend(v[1..], w);
      assert (v + w)[1..] == v[1..] + w;
      assert EncodeByte(v[0]) + (Encode(v[1..]) + Encode(w)) == Encode(v) + Encode(w);
    }
  }

  lemma PlainBytes(b: byte)
    ensures Unreserved(b) <==> IsPlain(b as char)
  {
  }

  lemma DigitText(n: nat)
    requires n < 16
    ensures HexDigit(n) == UPPER[n] as int
    ensures HexValue(UPPER[n] as int) == Some(n) && HexValue(LOWER[n] as int) == Some(n)
  {
  }

  /** An escape in either case stands for its byte, and a byte that is no
      hexadecimal digit makes none. */
  lemma EscapesDecode(b: byte, rest: seq<byte>, high: byte, low: byte)
    requires high in {UPPER[b / 16] as int, LOWER[b / 16] as int} && low in {UPPER[b % 16] as int, LOWER[b % 16] as int}
    ensures DecodeBytes([0x25, high, low] + rest) == Prepend(b, DecodeBytes(rest))
  {
    DigitText(b / 16);
    DigitText(b % 16);
    assert ([0x25, high, low] + rest)[3..] == rest;
    assert HexPair(high, low) == Some(b);
  }

  lemma OtherBytesAreNoDigits(b: byte)
    ensures HexValue(b).Some? <==> b as char in UPPER || b as char in LOWER
  {
    if HexValue(b).Some? { DigitText(HexValue(b).value); }
  }

  // ----- the Cookie header -----

  /** ASCII white space, which is all a header's text can hold. */
  predicate Space(b: byte) { 9 <= b <= 13 || b == 0x20 }

  function TrimStart(s: seq<byte>): seq<byte> { if s != [] && Space(s[0]) then TrimStart(s[1..]) else s }

  function TrimEnd(s: seq<byte>): seq<byte> { if s != [] && Space(s[|s| - 1]) then TrimEnd(s[..|s| - 1]) else s }

  function Trim(s: seq<byte>): seq<byte> { TrimEnd(TrimStart(s)) }

  datatype Pair = Pair(name: seq<byte>, value: seq<byte>)

  /** Name and value around the first equals sign. */
  function PairOf(s: seq<byte>): Option<Pair> {
    if s == [] then None
    else if s[0] == EQUALS then Some(Pair([], s[1..]))
    else match PairOf(s[1..]) case None => None case Some(p) => Some(Pair([s[0]] + p.name, p.value))
  }

  predicate Names(part: seq<byte>, name: seq<byte>) {
    var p := PairOf(Trim(part));
    p.Some? && p.value.name == name
  }

  function FindIn(parts: seq<seq<byte>>, name: seq<byte>): Option<seq<byte>> {
    if parts == [] then None
    else if Names(parts[0], name) then Decode(PairOf(Trim(parts[0])).value.value)
    else FindIn(parts[1..], name)
  }

  function ReadSigned(header: Option<seq<byte>>, name: seq<byte>, mac: seq<byte> -> seq<byte>): Option<seq<byte>> {
    if header.None? then None else
    match FindIn(SplitOn(header.value, SEMICOLON), name) case None => None case Some(s) => Unsign(s, mac)
  }

  /** `parse_cookie`: the first pair of that name decides. */
  method ParseCookie(header: seq<byte>, name: seq<byte>) returns (r: Option<seq<byte>>)
    ensures r == FindIn(SplitOn(header, SEMICOLON), name)
  {
    var parts := SplitOn(header, SEMICOLON);
    assert parts[0..] == parts;
    for i := 0 to |parts|
      invariant FindIn(parts, name) == FindIn(parts[i..], name)
    {
      assert parts[i..][1..] == parts[i + 1..];
      var pair := PairOf(Trim(parts[i]));
      if pair.Some? && pair.value.name == name {
        r := PercentDecode(pair.value.value);
        return;
      }
    }
    r := None;
  }

  predicate IsBlank(b: byte) { b in {9, 10, 11, 12, 13, 32} }

  lemma {:induction false} TrimStartIs(s: seq<byte>) returns (n: nat)
    ensures n <= |s| && TrimStart(s) == s[n..] && (forall i :: 0 <= i < n ==> IsBlank(s[i])) && (n < |s| ==> !IsBlank(s[n]))
  {
    if s == [] || !Space(s[0]) { return 0; }
    var m := TrimStartIs(s[1..]);
    n := m + 1;
    assert s[n..] == s[1..][m..];
    forall i | 0 <= i < n ensures IsBlank(s[i]) { if i > 0 { assert s[i] == s[1..][i - 1]; } }
  }

  lemma {:induction false} TrimEndIs(s: seq<byte>) returns (n: nat)
    ensures n <= |s| && TrimEnd(s) == s[..n] && (forall i :: n <= i < |s| ==> IsBlank(s[i])) && (n > 0 ==> !IsBlank(s[n - 1]))
    decreases |s|
  {
    if s == [] || !Space(s[|s| - 1]) { return |s|; }
    n := TrimEndIs(s[..|s| - 1]);
    assert s[..n] == s[..|s| - 1][..n];
    forall i | n <= i < |s| ensures IsBlank(s[i]) { if i < |s| - 1 { assert s[i] == s[..|s| - 1][i]; } }
  }

  /** Trimming takes white space off both ends and nothing else, all of it. */
  lemma TrimMeans(s: seq<byte>) returns (i: nat, j: nat)
    ensures i <= j <= |s| && Trim(s) == s[i..j]
    ensures (forall k :: 0 <= k < i ==> IsBlank(s[k])) && forall k :: j <= k < |s| ==> IsBlank(s[k])
    ensures i < j ==> !IsBlank(s[i]) && !IsBlank(s[j - 1])
  {
    i := TrimStartIs(s);
    var t := s[i..];
    var n := TrimEndIs(t);
    j := i + n;
    assert t[..n] == s[i..j];
    forall k | j <= k < |s| ensures IsBlank(s[k]) { assert s[k] == t[k - i]; }
    if n > 0 { assert t[n - 1] == s[j - 1] && t[0] == s[i]; }
  }

  // ----- the round trip -----

  ghost predicate Blank(s: seq<byte>) { forall i :: 0 <= i < |s| ==> Space(s[i]) }

  lemma {:induction false} TrimLead(lead: seq<byte>, s: seq<byte>)
    requires Blank(lead) && s != [] && !Space(s[0])
    ensures TrimStart(lead + s) == s
  {
    if lead == [] { assert lead + s == s; } else {
      TrimLead(lead[1..], s);
      assert (lead + s)[1..] == lead[1..] + s;
    }
  }

  lemma {:induction false} TrimTrail(s: seq<byte>, trail: seq<byte>)
    requires Blank(trail) && s != [] && !Space(s[|s| - 1])
    ensures TrimEnd(s + trail) == s
    decreases |trail|
  {
    if trail == [] { assert s + trail == s; } else {
      TrimTrail(s, trail[..|trail| - 1]);
      assert (s + trail)[..|s + trail| - 1] == s + trail[..|trail| - 1];
    }
  }

  lemma {:induction false} PairBack(name: seq<byte>, value: seq<byte>)
    requires EQUALS !in name
    ensures PairOf(name + [EQUALS] + value) == Some(Pair(name, value))
  {
    var s := name + [EQUALS] + value;
    if name == [] { assert s[1..] == value; } else {
      PairBack(name[1..], value);
      assert s[1..] == name[1..] + [EQUALS] + value;
      assert [name[0]] + name[1..] == name;
    }
  }

  /** A pair as a client sends it back, with any blanks around it. */
  function Sent(lead: seq<byte>, name: seq<byte>, value: seq<byte>, trail: seq<byte>): seq<byte> {
    lead + (name + [EQUALS] + value + trail)
  }

  ghost predicate IsName(name: seq<byte>) {
    EQUALS !in name && SEMICOLON !in name && (name != [] ==> !Space(name[0]))
  }

  lemma SentParses(lead: seq<byte>, name: seq<byte>, value: seq<byte>, trail: seq<byte>)
    requires Blank(lead) && Blank(trail) && IsName(name)
    requires value != [] && forall i :: 0 <= i < |value| ==> value[i] == PERCENT || Unreserved(value[i])
    ensures PairOf(Trim(Sent(lead, name, value, trail))) == Some(Pair(name, value))
    ensures SEMICOLON !in Sent(lead, name, value, trail)
  {
    hide PairOf, TrimStart, TrimEnd;
    var pair := name + [EQUALS] + value;
    TrimLead(lead, pair + trail);
    TrimTrail(pair, trail);
    PairBack(name, value);
  }

  lemma {:induction false} FindAfter(before: seq<seq<byte>>, rest: seq<seq<byte>>, name: seq<byte>)
    requires forall i :: 0 <= i < |before| ==> !Names(before[i], name)
    ensures FindIn(before + rest, name) == FindIn(rest, name)
  {
    if before == [] { assert before + rest == rest; } else {
      FindAfter(before[1..], rest, name);
      assert (before + rest)[1..] == before[1..] + rest;
    }
  }

  lemma FindHere(part: seq<byte>, after: seq<seq<byte>>, name: seq<byte>, value: seq<byte>)
    requires PairOf(Trim(part)) == Some(Pair(name, value))
    ensures FindIn([part] + after, name) == Decode(value)
  {
    hide PairOf, Trim, Decode;
  }

  lemma FindAnywhere(before: seq<seq<byte>>, part: seq<byte>, after: seq<seq<byte>>, name: seq<byte>, value: seq<byte>)
    requires PairOf(Trim(part)) == Some(Pair(name, value)) && SEMICOLON !in part
    requires forall i :: 0 <= i < |before| ==> !Names(before[i], name)
    requires Separated(before, SEMICOLON) && Separated(after, SEMICOLON)
    ensures FindIn(SplitOn(Join(before + ([part] + after), SEMICOLON), SEMICOLON), name) == Decode(value)
  {
    FindHere(part, after, name, value);
    FindAfter(before, [part] + after, name);
    assert Separated([part] + after, SEMICOLON);
    assert Separated(before + ([part] + after), SEMICOLON);
    hide *;
    SplitJoin(before + ([part] + after), SEMICOLON);
  }

  /** A signed cookie sent back anywhere behind pairs of other names is read as
      the value that was signed. */
  lemma CookieRoundTrip(before: seq<seq<byte>>, lead: seq<byte>, name: seq<byte>, v: seq<byte>, trail: seq<byte>,
                        after: seq<seq<byte>>, mac: seq<byte> -> seq<byte>)
    requires IsMac(mac) && Utf8(v) && Blank(lead) && Blank(trail) && IsName(name)
    requires forall i :: 0 <= i < |before| ==> !Names(before[i], name)
    requires Separated(before, SEMICOLON) && Separated(after, SEMICOLON)
    ensures var pair := Sent(lead, name, Encode(Sign(v, mac)), trail);
            ReadSigned(Some(Join(before + ([pair] + after), SEMICOLON)), name, mac) == Some(v)
  {
    hide Trim, PairOf, Encode, DecodeBytes, Utf8, Unsign, Sign, Sent, Names, FindIn, SplitOn, Join, IsName, Blank, IsMac;
    var signed := Sign(v, mac);
    SignIsText(v, mac);
    EncodeIsSafe(signed);
    var pair := Sent(lead, name, Encode(signed), trail);
    SentParses(lead, name, Encode(signed), trail);
    FindAnywhere(before, pair, after, name, Encode(signed));
    DecodeEncode(signed);
    UnsignExact(signed, v, mac);
  }

  lemma SignIsText(v: seq<byte>, mac: seq<byte> -> seq<byte>)
    requires IsMac(mac) && Utf8(v)
    ensures Utf8(Sign(v, mac)) && Sign(v, mac) != []
  {
    AsciiIsUtf8([DOT] + mac(v));
    Utf8Append(v, [DOT] + mac(v));
    assert Sign(v, mac) == v + ([DOT] + mac(v));
  }

  /** Nothing is read but a value whose signature the header carries. */
  lemma OnlySignedIsRead(header: seq<byte>, name: seq<byte>, v: seq<byte>, mac: seq<byte> -> seq<byte>)
    requires IsMac(mac)
    ensures ReadSigned(Some(header), name, mac) == Some(v) <==>
      FindIn(SplitOn(header, SEMICOLON), name) == Some(Sign(v, mac))
  {
    var found := FindIn(SplitOn(header, SEMICOLON), name);
    if found.Some? { UnsignExact(found.value, v, mac); }
  }
}
