/** Text as bytes: UTF-8, splitting on a byte and joining again, byte order. */
module Text {
  import opened Bytes

  predicate Continuation(b: byte) { 0x80 <= b < 0xc0 }

  /** Length of the UTF-8 character a text starts with, or 0 if it is not one
      (the table of well-formed sequences in section 4 of RFC 3629). */
  function CharLen(s: seq<byte>): (n: nat)
    requires s != []
    ensures n <= |s|
  {
    var a := s[0];
    var len := if a < 0x80 then 1 else if 0xc2 <= a < 0xe0 then 2 else if 0xe0 <= a < 0xf0 then 3 else if 0xf0 <= a < 0xf5 then 4 else 0;
    if len > |s| || len == 0 then 0
    else if exists k :: 1 <= k < len && !Continuation(s[k]) then 0
    else if (a == 0xe0 && s[1] < 0xa0) || (a == 0xed && s[1] >= 0xa0) || (a == 0xf0 && s[1] < 0x90) || (a == 0xf4 && s[1] >= 0x90) then 0
    else len
  }

  predicate Utf8(s: seq<byte>)
    decreases |s|
  {
    s == [] || (CharLen(s) > 0 && Utf8(s[CharLen(s)..]))
  }

  lemma FirstChar(a: seq<byte>, b: seq<byte>)
    requires a != [] && CharLen(a) > 0
    ensures CharLen(a + b) == CharLen(a)
  {
    var len := CharLen(a);
    assert forall k :: 0 <= k < len ==> (a + b)[k] == a[k];
  }

  /** Texts on either side of a character boundary are text together. */
  lemma {:induction false} Utf8Append(a: seq<byte>, b: seq<byte>)
    requires Utf8(a) && Utf8(b)
    ensures Utf8(a + b)
    decreases |a|
  {
    hide CharLen;
    if a == [] {
      assert a + b == b;
    } else {
      var n := CharLen(a);
      FirstChar(a, b);
      Utf8Append(a[n..], b);
      assert (a + b)[n..] == a[n..] + b;
    }
  }

  lemma {:induction false} AsciiIsUtf8(s: seq<byte>)
    requires forall i :: 0 <= i < |s| ==> s[i] < 0x80
    ensures Utf8(s)
  {
    if s != [] { AsciiIsUtf8(s[1..]); }
  }

  /** The parts between delimiters. */
  function SplitOn(s: seq<byte>, d: byte): (r: seq<seq<byte>>)
    ensures r != []
    decreases |s|
  {
    if s == [] then [[]]
    else var rest := SplitOn(s[1..], d);
         if s[0] == d then [[]] + rest else [[s[0]] + rest[0]] + rest[1..]
  }

  function Join(pieces: seq<seq<byte>>, d: byte): seq<byte>
    requires pieces != []
  {
    if |pieces| == 1 then pieces[0] else pieces[0] + [d] + Join(pieces[1..], d)
  }

  /** No part holds the delimiter. */
  predicate Separated(parts: seq<seq<byte>>, d: byte) { forall i :: 0 <= i < |parts| ==> d !in parts[i] }

  /** Parts without the delimiter are split as they were joined. */
  lemma {:induction false} SplitJoin(parts: seq<seq<byte>>, d: byte)
    requires parts != [] && Separated(parts, d)
    ensures SplitOn(Join(parts, d), d) == parts
    decreases |parts|, |parts[0]|
  {
    var s := Join(parts, d);
    if parts[0] == [] {
      if |parts| == 1 {
        assert parts == [[]];
      } else {
        SplitJoin(parts[1..], d);
        assert s[1..] == Join(parts[1..], d);
        assert parts == [[]] + parts[1..];
      }
    } else {
      var qs := parts[0 := parts[0][1..]];
      SplitJoin(qs, d);
      assert qs[1..] == parts[1..];
      assert |parts| > 1 ==> Join(qs, d) == parts[0][1..] + [d] + Join(parts[1..], d);
      assert s[0] == parts[0][0] && s[1..] == Join(qs, d);
      assert [s[0]] + qs[0] == parts[0] && [parts[0]] + parts[1..] == parts;
    }
  }

  // ----- byte order -----

  predicate Less(a: seq<byte>, b: seq<byte>) {
    if b == [] then false else if a == [] then true
    else a[0] < b[0] || (a[0] == b[0] && Less(a[1..], b[1..]))
  }

  lemma {:induction false} LessTransitive(a: seq<byte>, b: seq<byte>, c: seq<byte>)
    requires Less(a, b) && Less(b, c)
    ensures Less(a, c)
    decreases |a|
  {
    if a != [] && a[0] == b[0] && b[0] == c[0] { LessTransitive(a[1..], b[1..], c[1..]); }
  }

  lemma {:induction false} LessTotal(a: seq<byte>, b: seq<byte>)
    ensures a == b || Less(a, b) || Less(b, a)
    ensures !(Less(a, b) && Less(b, a)) && !Less(a, a)
    decreases |a|
  {
    if a != [] { LessIrreflexive(a); }
    if a != [] && b != [] && a[0] == b[0] {
      LessTotal(a[1..], b[1..]);
      assert a == [a[0]] + a[1..] && b == [b[0]] + b[1..];
    }
  }

  lemma {:induction false} LessIrreflexive(a: seq<byte>)
    ensures !Less(a, a)
  {
    if a != [] { LessIrreflexive(a[1..]); }
  }

  /** Where the texts first differ decides, and a text comes before its own
      extensions. */
  lemma {:induction false} LessMeans(a: seq<byte>, b: seq<byte>)
    ensures Less(a, b) <==> exists k :: 0 <= k <= |a| && k < |b| && a[..k] == b[..k] && (k == |a| || a[k] < b[k])
    decreases |a|
  {
    if a == [] {
      assert b != [] ==> a[..0] == b[..0];
    } else if b != [] {
      LessMeans(a[1..], b[1..]);
      if Less(a, b) {
        if a[0] < b[0] {
          assert a[..0] == b[..0];
        } else {
          var k :| 0 <= k <= |a| - 1 && k < |b| - 1 && a[1..][..k] == b[1..][..k] && (k == |a| - 1 || a[1..][k] < b[1..][k]);
          assert a[..k + 1] == [a[0]] + a[1..][..k] && b[..k + 1] == [b[0]] + b[1..][..k];
        }
      }
      forall k | 0 <= k <= |a| && k < |b| && a[..k] == b[..k] && (k == |a| || a[k] < b[k]) ensures Less(a, b) {
        if k > 0 {
          assert a[0] == a[..k][0] && b[0] == b[..k][0] && a[1..][..k - 1] == a[..k][1..] && b[1..][..k - 1] == b[..k][1..];
          assert 0 <= k - 1 <= |a[1..]| && k - 1 < |b[1..]|;
        }
      }
    }
  }
}
