/** A plain ustar reader, as any other program has one: it knows the format and
    nothing of the canonical writer. Whatever the writer produces, it reads. */
module Untar {
  import opened Bytes
  import opened ArchivePaths
  import opened UstarHeader
  import opened Archive

  /** Text up to the first NUL, or all of it. */
  function UpToNul(field: seq<byte>): seq<byte> {
    if field == [] || field[0] == 0 then [] else [field[0]] + UpToNul(field[1..])
  }

  /** The octal number in front of the first byte that is no octal digit. */
  function Number(field: seq<byte>, sofar: nat): nat
    decreases |field|
  {
    if field == [] || !(0x30 <= field[0] <= 0x37) then sofar else Number(field[1..], 8 * sofar + (field[0] - 0x30))
  }

  /** The unsigned sum of the header, with blanks for the checksum. */
  function ChecksumOf(h: seq<byte>): nat
    requires |h| == 512
  {
    Total(h[..148]) + 8 * 0x20 + Total(h[156..])
  }

  predicate Sane(h: seq<byte>)
    requires |h| == 512
  {
    Number(h[148..156], 0) == ChecksumOf(h) && h[257..262] == [0x75, 0x73, 0x74, 0x61, 0x72] && h[156] == 0x30
  }

  /** Files up to the first zero block; each occupies whole blocks. */
  function Read(b: seq<byte>): Option<seq<Member>>
    decreases |b|
  {
    if |b| < 512 then None
    else if forall i :: 0 <= i < 512 ==> b[i] == 0 then Some([])
    else
      var h := b[..512];
      var size := Number(h[124..136], 0);
      var next := 512 + 512 * ((size + 511) / 512);
      if !Sane(h) || next > |b| then None else
      var name, prefix := UpToNul(h[0..100]), UpToNul(h[345..500]);
      var path := if prefix == [] then name else prefix + [0x2f] + name;
      match Read(b[next..])
      case None => None
      case Some(ms) => Some([Member(path, b[512..512 + size])] + ms)
  }

  // ----- its fields agree with those of a header -----

  lemma {:induction false} UpToNulIs(field: seq<byte>, from: nat)
    requires from <= |field|
    ensures UpToNul(field[from..]) == field[from..FirstNul(field, from)]
    decreases |field| - from
  {
    if from < |field| && field[from] != 0 {
      UpToNulIs(field, from + 1);
      assert field[from..][1..] == field[from + 1..];
    }
  }

  lemma NameIs(field: seq<byte>)
    requires NulField(field).Some?
    ensures UpToNul(field) == NulField(field).value
  {
    UpToNulIs(field, 0);
    assert field[0..] == field;
  }

  /** The value of octal digits, the first of them weighing most. */
  lemma {:induction false} ValueCons(d: byte, digits: seq<byte>)
    requires 0x30 <= d <= 0x37 && OctalDigits(digits)
    ensures Value([d] + digits) == (d - 0x30) * Pow8(|digits|) + Value(digits)
    decreases |digits|
  {
    var all := [d] + digits;
    if digits == [] {
      assert all[..0] == [] && all[0] == d;
    } else {
      var n := |digits| - 1;
      ValueCons(d, digits[..n]);
      assert all[..|all| - 1] == [d] + digits[..n] && all[|all| - 1] == digits[n];
      Scaled(d - 0x30, Pow8(n), Value(digits[..n]));
    }
  }

  lemma Scaled(x: nat, p: nat, v: nat)
    ensures 8 * (x * p + v) == x * (8 * p) + 8 * v
  {
  }

  lemma Weighed(x: nat, y: nat, p: nat)
    ensures (8 * x + y) * p == x * (8 * p) + y * p
  {
  }

  lemma {:induction false} NumberIs(digits: seq<byte>, rest: seq<byte>, sofar: nat)
    requires OctalDigits(digits) && (rest == [] || rest[0] == 0)
    ensures Number(digits + rest, sofar) == sofar * Pow8(|digits|) + Value(digits)
    decreases |digits|
  {
    if digits == [] {
      assert digits + rest == rest;
    } else {
      var d := digits[0];
      assert (digits + rest)[1..] == digits[1..] + rest && digits == [d] + digits[1..];
      NumberIs(digits[1..], rest, 8 * sofar + (d - 0x30));
      ValueCons(d, digits[1..]);
      Weighed(sofar, d - 0x30, Pow8(|digits| - 1));
    }
  }

  lemma {:induction false} TotalAppend(a: seq<byte>, b: seq<byte>)
    ensures Total(a + b) == Total(a) + Total(b)
  {
    SumIsTotal(a);
    SumIsTotal(b);
    SumIsTotal(a + b);
    SumAppend(a, b);
  }

  lemma {:induction false} SameTotal(s: seq<byte>, b: byte)
    requires forall i :: 0 <= i < |s| ==> s[i] == b
    ensures Total(s) == |s| * b
  {
    if s != [] { SameTotal(s[1..], b); }
  }

  lemma ChecksumIs(h: seq<byte>)
    requires |h| == 512
    ensures ChecksumOf(h) == Total(Blanked(h))
  {
    hide Total;
    var blanks: seq<byte> := [0x20, 0x20, 0x20, 0x20, 0x20, 0x20, 0x20, 0x20];
    TotalAppend(h[..148] + blanks, h[156..]);
    TotalAppend(h[..148], blanks);
    SameTotal(blanks, 0x20);
  }

  /** The reader takes a header for what it is. */
  lemma HeaderIsRead(p: Path, size: nat, h: seq<byte>)
    requires |h| == BLOCK && Header(p, size) == Some(h)
    ensures Sane(h) && Number(h[124..136], 0) == size
    ensures var name, prefix := UpToNul(h[0..100]), UpToNul(h[345..500]);
            p == if prefix == [] then name else prefix + [0x2f] + name
  {
    hide Header, Total, Value, FixedFields, Number;
    HeaderIsUstar(p, size, h);
    NameIs(h[0..100]);
    NameIs(h[345..500]);
    NumbersAreRead(h);
    ChecksumIs(h);
    assert h[156] == 0x30 && h[257..262] == [0x75, 0x73, 0x74, 0x61, 0x72] by { MagicIs(h); }
  }

  lemma NumbersAreRead(h: seq<byte>)
    requires |h| == BLOCK && OctalDigits(h[124..135]) && h[135] == 0 && OctalDigits(h[148..154]) && h[154] == 0
    ensures Number(h[124..136], 0) == Value(h[124..135]) && Number(h[148..156], 0) == Value(h[148..154])
  {
    hide Value, Number;
    assert h[124..136] == h[124..135] + [h[135]];
    NumberIs(h[124..135], [h[135]], 0);
    assert h[148..156] == h[148..154] + [h[154], h[155]];
    NumberIs(h[148..154], [h[154], h[155]], 0);
  }

  lemma MagicIs(h: seq<byte>)
    requires |h| == BLOCK && FixedFields(h)
    ensures h[156] == 0x30 && h[257..262] == [0x75, 0x73, 0x74, 0x61, 0x72]
  {
    assert h[257..262] == h[257..265][..5];
  }

  lemma BlocksOf(n: nat)
    ensures 512 + 512 * ((n + 511) / 512) == BLOCK + n + Pad(n)
  {
    var q, r := n / 512, n % 512;
    assert n == 512 * q + r;
    assert (n + 511) / 512 == if r == 0 then q else q + 1;
  }

  /** Main result: the archive of any list of members that the format can hold
      is read back by the plain reader, file by file. */
  lemma {:induction false} AnyReaderReadsIt(ms: seq<Member>)
    requires forall m :: m in ms ==> Holds(m)
    ensures Read(Layout(ms)) == Some(ms)
    decreases |ms|
  {
    if ms == [] {
      assert Layout(ms) == Zeros(1024);
    } else {
      AnyReaderReadsIt(ms[1..]);
      MemberIsRead(ms[0], Layout(ms[1..]));
      assert ms == [ms[0]] + ms[1..];
    }
  }

  lemma MemberIsRead(m: Member, rest: seq<byte>)
    requires Holds(m)
    ensures Read(Encoded(m) + rest) == if Read(rest).None? then None else Some([m] + Read(rest).value)
  {
    hide Header, Holds, Encoded, Sane;
    var b, n := Encoded(m) + rest, |m.bytes|;
    EncodedPieces(m, rest);
    assert Valid(m.path) && n < Pow8(11) by { HoldsMeans(m); }
    var h := Header(m.path, n).value;
    HeaderIsRead(m.path, n, h);
    BlocksOf(n);
    assert b[156] == h[156] == 0x30 by { SaneMeans(h); }
  }

  lemma HoldsMeans(m: Member)
    requires Holds(m)
    ensures Valid(m.path) && |m.bytes| < Pow8(11)
  {
  }

  lemma SaneMeans(h: seq<byte>)
    requires |h| == 512 && Sane(h)
    ensures h[156] == 0x30
  {
  }
}
