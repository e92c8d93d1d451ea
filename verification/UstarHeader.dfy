/** The 512-byte canonical ustar header: octal fields, NUL-padded names and
    the checksum. */
module UstarHeader {
  import opened Bytes
  import opened Text
  import opened ArchivePaths

  const BLOCK := 512
  const ZERO: byte := 0x30
  const SPACE: byte := 0x20
  const U64_LIMIT := 0x1_0000_0000_0000_0000

  function Zeros(n: nat): (z: seq<byte>)
    ensures |z| == n && forall i :: 0 <= i < n ==> z[i] == 0
  {
    seq(n, _ => 0)
  }

  predicate AllZero(s: seq<byte>) { forall i :: 0 <= i < |s| ==> s[i] == 0 }

  // ----- octal fields -----

  function Pow8(n: nat): nat { if n == 0 then 1 else 8 * Pow8(n - 1) }

  function Digits(value: nat, width: nat): (d: seq<byte>)
    ensures |d| == width && forall i :: 0 <= i < width ==> ZERO <= d[i] < ZERO + 8
  {
    if width == 0 then [] else Digits(value / 8, width - 1) + [ZERO + value % 8]
  }

  function Value(digits: seq<byte>): nat
    requires forall i :: 0 <= i < |digits| ==> ZERO <= digits[i] < ZERO + 8
  {
    if digits == [] then 0 else 8 * Value(digits[..|digits| - 1]) + (digits[|digits| - 1] - ZERO)
  }

  /** Octal text of a number, without padding. */
  function Octal(value: nat): (d: seq<byte>)
    ensures 0 < |d| && forall i :: 0 <= i < |d| ==> ZERO <= d[i] < ZERO + 8
  {
    if value < 8 then [ZERO + value] else Octal(value / 8) + [ZERO + value % 8]
  }

  /** Octal text padded with zeros to `width`, as the formatter prints it. */
  function OctalText(value: nat, width: nat): seq<byte> {
    var d := Octal(value);
    if |d| >= width then d else seq(width - |d|, _ => ZERO) + d
  }

  /** Padded text has its nominal width exactly when the value fits, and is then
      the fixed-width digits. */
  lemma {:induction false} TextFits(value: nat, width: nat)
    requires width > 0
    ensures |OctalText(value, width)| == width <==> value < Pow8(width)
    ensures value < Pow8(width) ==> OctalText(value, width) == Digits(value, width)
    decreases width
  {
    if value < 8 {
      Small(value, width);
    } else if width == 1 {
      assert |Octal(value)| >= 2 && Pow8(1) == 8;
    } else {
      TextFits(value / 8, width - 1);
      assert |Octal(value)| == |Octal(value / 8)| + 1;
      assert OctalText(value, width) == OctalText(value / 8, width - 1) + [ZERO + value % 8];
    }
  }

  lemma {:induction false} Small(value: nat, width: nat)
    requires value < 8 && width > 0
    ensures value < Pow8(width) && OctalText(value, width) == Digits(value, width)
    decreases width
  {
    assert value / 8 == 0 && value % 8 == value && Octal(value) == [ZERO + value];
    if width == 1 {
      assert Digits(0, 0) == [] && Pow8(0) == 1;
    } else {
      Small(0, width - 1);
      SmallText(value, width);
    }
  }

  lemma SmallText(value: nat, width: nat)
    requires value < 8 && width > 1
    ensures OctalText(value, width) == OctalText(0, width - 1) + [ZERO + value]
  {
    assert Octal(value) == [ZERO + value] && Octal(0) == [ZERO];
  }

  /** A numeric field of `len` bytes: zero-padded octal and a NUL, if it fits. */
  function OctalField(value: nat, len: nat): Option<seq<byte>> {
    if len < 2 || value >= Pow8(len - 1) then None else Some(Numeric(value, len))
  }

  function ParseOctal(field: seq<byte>): Option<nat> {
    if |field| < 2 || field[|field| - 1] != 0 then None else
    var digits := field[..|field| - 1];
    if exists i :: 0 <= i < |digits| && !(ZERO <= digits[i] < ZERO + 8) then None
    else if Value(digits) >= U64_LIMIT then None else Some(Value(digits))
  }

  lemma {:induction false} DigitsValue(value: nat, width: nat)
    requires value < Pow8(width)
    ensures Value(Digits(value, width)) == value
    decreases width
  {
    if width > 0 {
      DigitsValue(value / 8, width - 1);
      var d := Digits(value, width);
      assert d[..|d| - 1] == Digits(value / 8, width - 1);
    }
  }

  lemma LastDigit(t: nat, d: nat)
    requires d < 8
    ensures (8 * t + d) / 8 == t && (8 * t + d) % 8 == d
  {
  }

  lemma {:induction false} ValueDigits(digits: seq<byte>)
    requires forall i :: 0 <= i < |digits| ==> ZERO <= digits[i] < ZERO + 8
    ensures Value(digits) < Pow8(|digits|) && Digits(Value(digits), |digits|) == digits
    decreases |digits|
  {
    if digits != [] {
      var top := digits[..|digits| - 1];
      ValueDigits(top);
      assert digits == top + [digits[|digits| - 1]];
      LastDigit(Value(top), digits[|digits| - 1] - ZERO);
    }
  }

  /** Octal round trip: a field parses to a value exactly when writing that value gives the field. */
  lemma OctalRoundTrip(field: seq<byte>, value: nat)
    requires value < U64_LIMIT
    ensures ParseOctal(field) == Some(value) <==> OctalField(value, |field|) == Some(field)
  {
    if |field| >= 2 {
      var digits := field[..|field| - 1];
      if OctalField(value, |field|) == Some(field) {
        assert digits == Digits(value, |field| - 1);
        DigitsValue(value, |field| - 1);
      }
      if ParseOctal(field) == Some(value) {
        ValueDigits(digits);
        assert field == digits + [0];
      }
    }
  }

  /** `write_octal`: ok exactly when the value fits. */
  method WriteOctal(a: array<byte>, at: nat, len: nat, value: nat) returns (ok: bool)
    requires at + len <= a.Length
    modifies a
    ensures ok == OctalField(value, len).Some?
    ensures ok ==> Wrote(old(a[..]), a[..], at, OctalField(value, len).value)
  {
    if len == 0 { return false; }
    var text := OctalText(value, len - 1) + [0];
    if len > 1 { TextFits(value, len - 1); }
    if |text| != len { return false; }
    CopyInto(a, at, text);
    ok := true;
  }

  // ----- NUL-padded text -----

  /** Text up to the first NUL; None if anything follows it. */
  function NulField(field: seq<byte>): Option<seq<byte>> {
    var end := FirstNul(field, 0);
    if AllZero(field[end..]) then Some(field[..end]) else None
  }

  function FirstNul(field: seq<byte>, from: nat): (i: nat)
    requires from <= |field|
    ensures from <= i <= |field| && (i < |field| ==> field[i] == 0) && forall k :: from <= k < i ==> field[k] != 0
    decreases |field| - from
  {
    if from == |field| || field[from] == 0 then from else FirstNul(field, from + 1)
  }

  function Padded(text: seq<byte>, len: nat): (r: seq<byte>)
    requires |text| <= len
    ensures |r| == len
  {
    text + Zeros(len - |text|)
  }

  lemma NulRoundTrip(text: seq<byte>, len: nat)
    requires |text| <= len && 0 !in text
    ensures NulField(Padded(text, len)) == Some(text)
  {
    var f := Padded(text, len);
    var end := FirstNul(f, 0);
    assert forall i :: 0 <= i < len ==> f[i] == if i < |text| then text[i] else 0;
    assert |text| < len ==> f[|text|] == 0;
    assert end == |text|;
    assert f[..end] == text;
  }

  // ----- the block -----

  /** A numeric field that is sure to fit. */
  function Numeric(value: nat, len: nat): (f: seq<byte>)
    requires 0 < len
    ensures |f| == len
  {
    Digits(value, len - 1) + [0]
  }

  function Blanks(): (f: seq<byte>)
    ensures |f| == 8
  {
    [SPACE, SPACE, SPACE, SPACE, SPACE, SPACE, SPACE, SPACE]
  }

  const MAGIC: seq<byte> := [0x75, 0x73, 0x74, 0x61, 0x72, 0]

  /** Byte `i` of the header with the given size field and checksum field. */
  function HeaderByte(q: Parts, size: seq<byte>, checksum: seq<byte>, i: nat): byte
    requires |q.name| <= NAME_LEN && |q.prefix| <= PREFIX_LEN && |size| == 12 && |checksum| == 8
  {
    if i < 100 then (if i < |q.name| then q.name[i] else 0)
    else if i < 108 then Numeric(0x124, 8)[i - 100]
    else if i < 116 then Numeric(0, 8)[i - 108]
    else if i < 124 then Numeric(0, 8)[i - 116]
    else if i < 136 then size[i - 124]
    else if i < 148 then Numeric(0, 12)[i - 136]
    else if i < 156 then checksum[i - 148]
    else if i == 156 then ZERO
    else if 257 <= i < 263 then MAGIC[i - 257]
    else if 263 <= i < 265 then ZERO
    else if 329 <= i < 337 then Numeric(0, 8)[i - 329]
    else if 337 <= i < 345 then Numeric(0, 8)[i - 337]
    else if 345 <= i < 500 then (if i - 345 < |q.prefix| then q.prefix[i - 345] else 0)
    else 0
  }

  function Block(q: Parts, size: seq<byte>, checksum: seq<byte>): (h: seq<byte>)
    requires |q.name| <= NAME_LEN && |q.prefix| <= PREFIX_LEN && |size| == 12 && |checksum| == 8
    ensures |h| == BLOCK
  {
    seq(BLOCK, i requires 0 <= i => HeaderByte(q, size, checksum, i))
  }

  function Sum(s: seq<byte>): nat { if s == [] then 0 else Sum(s[..|s| - 1]) + s[|s| - 1] }

  /** The checksum field: six octal digits, a NUL and a space. */
  function ChecksumField(sum: nat): (c: seq<byte>)
    ensures |c| == 8
  {
    Digits(sum, 6) + [0, SPACE]
  }

  /** The header of a path and size; None for a bad path or a size that does not fit. */
  function Header(p: Path, size: nat): (h: Option<seq<byte>>)
    ensures h.Some? ==> |h.value| == BLOCK
    ensures h.Some? <==> Valid(p) && size < Pow8(11)
  {
    if !Valid(p) || OctalField(size, 12).None? then None else
    var q := UstarParts(p).value;
    var field := OctalField(size, 12).value;
    PartsRejoin(p);
    var sum := Sum(Block(q, field, Blanks()));
    Some(Block(q, field, ChecksumField(sum)))
  }

  lemma {:induction false} SumBound(s: seq<byte>)
    ensures Sum(s) <= 255 * |s|
  {
    if s != [] { SumBound(s[..|s| - 1]); }
  }

  /** The sum of a concatenation is that of its parts. */
  lemma {:induction false} SumAppend(a: seq<byte>, b: seq<byte>)
    ensures Sum(a + b) == Sum(a) + Sum(b)
    decreases |b|
  {
    if b == [] {
      assert a + b == a;
    } else {
      SumAppend(a, b[..|b| - 1]);
      assert (a + b)[..|a + b| - 1] == a + b[..|b| - 1];
    }
  }

  lemma SumOne(b: byte)
    ensures Sum([b]) == b
  {
    assert [b][..0] == [];
  }

  /** The total of some bytes, counted from the front. */
  function Total(s: seq<byte>): nat { if s == [] then 0 else s[0] + Total(s[1..]) }

  lemma {:induction false} SumIsTotal(s: seq<byte>)
    ensures Sum(s) == Total(s)
  {
    if s != [] {
      SumIsTotal(s[1..]);
      assert s == [s[0]] + s[1..];
      SumAppend([s[0]], s[1..]);
      SumOne(s[0]);
    }
  }

  /** Six octal digits always hold the sum of a block. */
  lemma ChecksumFits(h: seq<byte>)
    requires |h| == BLOCK
    ensures Sum(h) < Pow8(6)
  {
    SumBound(h);
    assert Pow8(6) == 262144;
  }

  /** The fields before the checksum. */
  method FillFront(h: array<byte>, q: Parts, size: nat) returns (ok: bool)
    requires h.Length == BLOCK && AllZero(h[..])
    requires |q.name| <= NAME_LEN && |q.prefix| <= PREFIX_LEN
    modifies h
    ensures ok == OctalField(size, 12).Some?
    ensures ok ==> forall i :: 0 <= i < BLOCK ==>
      h[i] == if i < 148 then HeaderByte(q, OctalField(size, 12).value, Blanks(), i) else 0
  {
    CopyInto(h, 0, q.name);
    ok := WriteOctal(h, 100, 8, 0x124);
    ok := WriteOctal(h, 108, 8, 0);
    ok := WriteOctal(h, 116, 8, 0);
    ok := WriteOctal(h, 124, 12, size);
    if !ok { return; }
    ok := WriteOctal(h, 136, 12, 0);
  }

  /** The fields from the checksum on, with blanks for the checksum. */
  method FillBack(h: array<byte>, q: Parts, ghost field: seq<byte>)
    requires h.Length == BLOCK && |field| == 12
    requires |q.name| <= NAME_LEN && |q.prefix| <= PREFIX_LEN
    requires forall i :: 0 <= i < BLOCK ==> h[i] == if i < 148 then HeaderByte(q, field, Blanks(), i) else 0
    modifies h
    ensures h[..] == Block(q, field, Blanks())
  {
    CopyInto(h, 148, Blanks());
    h[156] := ZERO;
    CopyInto(h, 257, MAGIC);
    CopyInto(h, 263, [ZERO, ZERO]);
    var ok := WriteOctal(h, 329, 8, 0);
    ok := WriteOctal(h, 337, 8, 0);
    CopyInto(h, 345, q.prefix);
  }

  /** `canonical_header`: fills a zeroed block field by field, sums it, then
      replaces the blanks by the sum. */
  method CanonicalHeader(p: Path, size: nat) returns (r: Option<seq<byte>>)
    ensures r == Header(p, size)
  {
    if !Valid(p) { return None; }
    var parts := FindParts(p);
    PartsRejoin(p);
    var q := parts.value;
    var h := new byte[BLOCK](_ => 0);
    var ok := FillFront(h, q, size);
    if !ok { return None; }
    ghost var field := OctalField(size, 12).value;
    FillBack(h, q, field);
    var sum := Sum(h[..]);
    ChecksumFits(h[..]);
    TextFits(sum, 6);
    var text := OctalText(sum, 6) + [0, SPACE];
    assert |text| == 8;
    CopyInto(h, 148, text);
    assert h[..] == Block(q, field, ChecksumField(sum));
    r := Some(h[..]);
  }

  // ----- reading a header back -----

  datatype Entry = Entry(path: Path, size: nat)

  /** What the parser takes from a header block, and whether it accepts it. */
  function ReadHeader(h: seq<byte>): Option<Entry>
    requires |h| == BLOCK
  {
    var name, prefix, size := NulField(h[0..100]), NulField(h[345..500]), ParseOctal(h[124..136]);
    if name.None? || prefix.None? then None else
    var p := Rejoin(Parts(prefix.value, name.value));
    if !Utf8(p) || !Valid(p) || size.None? then None
    else if Header(p, size.value) != Some(h) then None
    else Some(Entry(p, size.value))
  }

  /** The three fields of a block that the parser reads. */
  lemma BlockFields(q: Parts, size: seq<byte>, checksum: seq<byte>)
    requires |q.name| <= NAME_LEN && |q.prefix| <= PREFIX_LEN && |size| == 12 && |checksum| == 8
    ensures var h := Block(q, size, checksum);
            && h[0..100] == Padded(q.name, 100) && h[345..500] == Padded(q.prefix, 155)
            && h[124..136] == size && h[156] == ZERO
  {
  }

  /** Reading a header inverts writing it, only canonical headers are read, and
      no header is an all-zero block. */
  lemma HeaderRoundTrip(h: seq<byte>, e: Entry)
    requires |h| == BLOCK && e.size < U64_LIMIT
    ensures ReadHeader(h) == Some(e) <==> Utf8(e.path) && Header(e.path, e.size) == Some(h)
    ensures Header(e.path, e.size) == Some(h) ==> !AllZero(h)
  {
    if Header(e.path, e.size) == Some(h) {
      PartsRejoin(e.path);
      var q := UstarParts(e.path).value;
      var field := OctalField(e.size, 12).value;
      var sum := Sum(Block(q, field, Blanks()));
      BlockFields(q, field, ChecksumField(sum));
      NulRoundTrip(q.name, 100);
      NulRoundTrip(q.prefix, 155);
      OctalRoundTrip(field, e.size);
    }
  }

  // ----- the format, field by field -----

  /** The block with blanks for its checksum. */
  function Blanked(h: seq<byte>): (b: seq<byte>)
    requires |h| == BLOCK
    ensures |b| == BLOCK
  {
    h[..148] + [0x20, 0x20, 0x20, 0x20, 0x20, 0x20, 0x20, 0x20] + h[156..]
  }

  predicate OctalDigits(s: seq<byte>) { forall i :: 0 <= i < |s| ==> 0x30 <= s[i] <= 0x37 }

  /** The fields that are the same in every header: mode 0444, the owner, the
      group and the time zero, a regular file, the ustar magic and version 00,
      and nothing in what is left. */
  predicate FixedFields(h: seq<byte>)
    requires |h| == BLOCK
  {
    && h[100..108] == [0x30, 0x30, 0x30, 0x30, 0x34, 0x34, 0x34, 0]
    && h[108..116] == ZERO_FIELD && h[116..124] == ZERO_FIELD
    && h[136..148] == [0x30, 0x30, 0x30, 0x30, 0x30, 0x30, 0x30, 0x30, 0x30, 0x30, 0x30, 0]
    && h[156] == 0x30 && AllZero(h[157..257])
    && h[257..265] == [0x75, 0x73, 0x74, 0x61, 0x72, 0, 0x30, 0x30] && AllZero(h[265..329])
    && h[329..337] == ZERO_FIELD && h[337..345] == ZERO_FIELD && AllZero(h[500..])
  }

  const ZERO_FIELD: seq<byte> := [0x30, 0x30, 0x30, 0x30, 0x30, 0x30, 0x30, 0]

  lemma {:induction false} ZeroDigits(width: nat)
    ensures forall i :: 0 <= i < width ==> Digits(0, width)[i] == 0x30
  {
    if width > 0 { ZeroDigits(width - 1); }
  }

  lemma ModeDigits()
    ensures Digits(0x124, 7) == [0x30, 0x30, 0x30, 0x30, 0x34, 0x34, 0x34]
  {
    ZeroDigits(4);
    assert Digits(4, 5) == Digits(0, 4) + [0x34];
    assert Digits(36, 6) == Digits(4, 5) + [0x34];
    assert Digits(0x124, 7) == Digits(36, 6) + [0x34];
  }

  lemma BlockFixedFields(q: Parts, size: seq<byte>, checksum: seq<byte>)
    requires |q.name| <= NAME_LEN && |q.prefix| <= PREFIX_LEN && |size| == 12 && |checksum| == 8
    ensures FixedFields(Block(q, size, checksum))
  {
    hide Digits;
    var h := Block(q, size, checksum);
    ModeDigits();
    ZeroDigits(7);
    ZeroDigits(11);
    BlockFront(q, size, checksum);
    assert h[156] == 0x30 && AllZero(h[157..257]) && AllZero(h[265..329]) && AllZero(h[500..]);
    assert h[257..265] == MAGIC + [ZERO, ZERO];
  }

  lemma BlockFront(q: Parts, size: seq<byte>, checksum: seq<byte>)
    requires |q.name| <= NAME_LEN && |q.prefix| <= PREFIX_LEN && |size| == 12 && |checksum| == 8
    ensures var h := Block(q, size, checksum);
            && h[100..108] == Numeric(0x124, 8) && h[108..116] == Numeric(0, 8) && h[116..124] == Numeric(0, 8)
            && h[136..148] == Numeric(0, 12) && h[329..337] == Numeric(0, 8) && h[337..345] == Numeric(0, 8)
  {
    hide Digits;
  }

  /** The blanked header is the block the sum was taken of. */
  lemma BlankedBlock(q: Parts, size: seq<byte>, checksum: seq<byte>)
    requires |q.name| <= NAME_LEN && |q.prefix| <= PREFIX_LEN && |size| == 12 && |checksum| == 8
    ensures var h := Block(q, size, checksum); Blanked(h) == Block(q, size, Blanks()) && h[148..156] == checksum
  {
    hide Digits;
  }

  /** Main result: a header is what the ustar format says, in terms of its own
      bytes. Name and prefix give the path and the size field the size; the
      checksum field is in octal the total of all 512 bytes, its own eight
      counted as blanks; every other field is fixed. */
  lemma HeaderIsUstar(p: Path, size: nat, h: seq<byte>)
    requires |h| == BLOCK && Header(p, size) == Some(h)
    ensures NulField(h[0..100]).Some? && NulField(h[345..500]).Some?
    ensures var name, prefix := NulField(h[0..100]).value, NulField(h[345..500]).value;
            p == if prefix == [] then name else prefix + [0x2f] + name
    ensures OctalDigits(h[124..135]) && Value(h[124..135]) == size && h[135] == 0
    ensures OctalDigits(h[148..154]) && Value(h[148..154]) == Total(Blanked(h)) && h[154] == 0 && h[155] == 0x20
    ensures FixedFields(h)
  {
    PartsRejoin(p);
    var q := UstarParts(p).value;
    var field := OctalField(size, 12).value;
    var sum := Sum(Block(q, field, Blanks()));
    hide Block, Header, Digits, FixedFields;
    BlockFields(q, field, ChecksumField(sum));
    BlockFixedFields(q, field, ChecksumField(sum));
    NulRoundTrip(q.name, 100);
    NulRoundTrip(q.prefix, 155);
    SizeDigits(h, size);
    BlankedBlock(q, field, ChecksumField(sum));
    ChecksumDigits(h, sum);
    SumIsTotal(Block(q, field, Blanks()));
  }

  lemma SizeDigits(h: seq<byte>, size: nat)
    requires |h| == BLOCK && size < Pow8(11) && h[124..136] == Numeric(size, 12)
    ensures OctalDigits(h[124..135]) && Value(h[124..135]) == size && h[135] == 0
  {
    var d := Digits(size, 11);
    assert h[124..135] == h[124..136][..11] == d && h[135] == h[124..136][11];
    DigitsValue(size, 11);
  }

  lemma ChecksumDigits(h: seq<byte>, sum: nat)
    requires |h| == BLOCK && h[148..156] == ChecksumField(sum) && Sum(Blanked(h)) == sum
    ensures OctalDigits(h[148..154]) && Value(h[148..154]) == sum && h[154] == 0 && h[155] == 0x20
  {
    ChecksumFits(Blanked(h));
    assert h[148..154] == h[148..156][..6] == Digits(sum, 6) && h[154] == h[148..156][6] && h[155] == h[148..156][7];
    DigitsValue(sum, 6);
  }
}
