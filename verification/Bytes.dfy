/** Bytes, optional values and big-endian numbers shared by every module. */
module Bytes {

  type byte = x: int | 0 <= x < 256

  datatype Option<+T> = None | Some(value: T)

  datatype Result<+T> = Ok(value: T) | Err

  function U16(a: byte, b: byte): nat { 256 * a + b }

  function U24(a: byte, b: byte, c: byte): nat { 65536 * a + 256 * b + c }

  function U32(a: byte, b: byte, c: byte, d: byte): nat { 16777216 * a + 65536 * b + 256 * c + d }

  /** A 32-bit number without its top bit. */
  function Low31(x: nat): nat { if x < 0x8000_0000 then x else x - 0x8000_0000 }

  /** Bitwise exclusive or. */
  function Xor(a: nat, b: nat): nat
    decreases a + b
  {
    if a == 0 && b == 0 then 0 else 2 * Xor(a / 2, b / 2) + (a + b) % 2
  }

  /** Bitwise or. */
  function Or(a: nat, b: nat): nat
    decreases a + b
  {
    if a == 0 && b == 0 then 0 else 2 * Or(a / 2, b / 2) + if (a % 2) + (b % 2) > 0 then 1 else 0
  }

  lemma {:induction false} XorIsZero(a: nat, b: nat)
    ensures Xor(a, b) == 0 <==> a == b
    decreases a + b
  {
    if a + b > 0 { XorIsZero(a / 2, b / 2); }
  }

  lemma {:induction false} OrIsZero(a: nat, b: nat)
    ensures Or(a, b) == 0 <==> a == 0 && b == 0
    decreases a + b
  {
    if a + b > 0 { OrIsZero(a / 2, b / 2); }
  }

  function Min(a: nat, b: nat): nat { if a <= b then a else b }

  /** The byte stream a sequence of fragments carries. */
  function Flatten(chunks: seq<seq<byte>>): seq<byte> {
    if chunks == [] then [] else chunks[0] + Flatten(chunks[1..])
  }

  lemma {:induction false} FlattenSnoc(chunks: seq<seq<byte>>, last: seq<byte>)
    ensures Flatten(chunks + [last]) == Flatten(chunks) + last
  {
    if chunks != [] {
      FlattenSnoc(chunks[1..], last);
      assert (chunks + [last])[1..] == chunks[1..] + [last];
    }
  }

  /** `after` is `before` with `v` written over it at `at`. */
  ghost predicate Wrote(before: seq<byte>, after: seq<byte>, at: nat, v: seq<byte>) {
    && |after| == |before| && at + |v| <= |before|
    && forall i {:trigger after[i]} :: 0 <= i < |before| ==> after[i] == if at <= i < at + |v| then v[i - at] else before[i]
  }

  /** `copy_from_slice` into a buffer at an offset. */
  method CopyInto(a: array<byte>, at: nat, v: seq<byte>)
    requires at + |v| <= a.Length
    modifies a
    ensures Wrote(old(a[..]), a[..], at, v)
  {
    forall i | at <= i < at + |v| { a[i] := v[i - at]; }
  }
}
