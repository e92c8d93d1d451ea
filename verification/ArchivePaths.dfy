/** Member paths of the canonical archive: UTF-8 text as bytes, the rules a
    path must meet and its split over the two ustar fields. */
module ArchivePaths {
  import opened Bytes
  import opened Text

  type Path = seq<byte>

  const SLASH: byte := 0x2f
  const BACKSLASH: byte := 0x5c
  const DOT: byte := 0x2e
  const NAME_LEN := 100
  const PREFIX_LEN := 155

  /** The last slash, from `end` backwards, at which the path fits the fields. */
  function SplitBefore(p: Path, end: nat): (r: Option<nat>)
    requires end <= |p|
    ensures r.Some? ==> r.value < end && Fits(p, r.value) && forall i :: r.value < i < end ==> !Fits(p, i)
    ensures r.None? ==> forall i :: 0 <= i < end ==> !Fits(p, i)
  {
    if end == 0 then None
    else if Fits(p, end - 1) then Some(end - 1)
    else SplitBefore(p, end - 1)
  }

  predicate Fits(p: Path, i: nat)
    requires i < |p|
  {
    p[i] == SLASH && 0 < i <= PREFIX_LEN && 0 < |p| - i - 1 <= NAME_LEN
  }

  datatype Parts = Parts(prefix: seq<byte>, name: seq<byte>)

  function UstarParts(p: Path): Option<Parts> {
    if |p| <= NAME_LEN then Some(Parts([], p)) else
    match SplitBefore(p, |p|)
    case None => None
    case Some(i) => Some(Parts(p[..i], p[i + 1..]))
  }

  function Rejoin(parts: Parts): Path {
    if parts.prefix == [] then parts.name else parts.prefix + [SLASH] + parts.name
  }

  /** `validate_relative_path`. */
  predicate Valid(p: Path) {
    && p != [] && p[0] != SLASH && p[|p| - 1] != SLASH
    && (forall i :: 0 <= i < |p| ==> p[i] != BACKSLASH && 32 <= p[i] != 127)
    && (forall c :: c in SplitOn(p, SLASH) ==> c != [] && c != [DOT] && c != [DOT, DOT])
    && UstarParts(p).Some?
  }

  /** The loop that looks for the split point from the end. */
  method FindParts(p: Path) returns (r: Option<Parts>)
    ensures r == UstarParts(p)
  {
    if |p| <= NAME_LEN { return Some(Parts([], p)); }
    var i: nat := |p|;
    while i > 0
      invariant i <= |p| && SplitBefore(p, |p|) == SplitBefore(p, i)
    {
      i := i - 1;
      if p[i] == SLASH {
        var prefix, suffix := p[..i], p[i + 1..];
        if prefix != [] && |prefix| <= PREFIX_LEN && suffix != [] && |suffix| <= NAME_LEN {
          return Some(Parts(prefix, suffix));
        }
      }
    }
    r := None;
  }

  /** A valid path is recovered from its two fields, which hold no NUL. */
  lemma PartsRejoin(p: Path)
    requires Valid(p)
    ensures var q := UstarParts(p).value;
            && Rejoin(q) == p && 0 < |q.name| <= NAME_LEN && |q.prefix| <= PREFIX_LEN
            && 0 !in q.name && 0 !in q.prefix
  {
    var q := UstarParts(p).value;
    if |p| > NAME_LEN {
      var i := SplitBefore(p, |p|).value;
      assert p == p[..i] + [p[i]] + p[i + 1..];
    }
  }

  // ----- what a valid path is -----

  /** `p[i..j]` is a component: between slashes or the ends, without a slash. */
  predicate IsComponent(p: Path, i: nat, j: nat)
    requires i <= j <= |p|
  {
    (i == 0 || p[i - 1] == SLASH) && (j == |p| || p[j] == SLASH) && forall k :: i <= k < j ==> p[k] != SLASH
  }

  /** The part before the first slash. */
  lemma {:induction false} FirstPart(p: Path) returns (j: nat)
    ensures j <= |p| && IsComponent(p, 0, j) && SplitOn(p, SLASH)[0] == p[..j]
    decreases |p|
  {
    if p == [] || p[0] == SLASH { return 0; }
    var k := FirstPart(p[1..]);
    assert p[..k + 1] == [p[0]] + p[1..][..k];
    j := k + 1;
  }

  lemma ShiftComponent(p: Path, i: nat, j: nat)
    requires p != [] && 1 <= i <= j <= |p|
    ensures IsComponent(p, i, j) <==> IsComponent(p[1..], i - 1, j - 1) && (i == 1 ==> p[0] == SLASH)
    ensures p[i..j] == p[1..][i - 1..j - 1]
  {
    var q := p[1..];
    assert forall k :: 0 <= k < |q| ==> q[k] == p[k + 1];
    if IsComponent(p, i, j) {
      forall k | i - 1 <= k < j - 1 ensures q[k] != SLASH { assert p[k + 1] != SLASH; }
    }
    if IsComponent(q, i - 1, j - 1) {
      forall k | i <= k < j ensures p[k] != SLASH { assert q[k - 1] != SLASH; }
    }
  }

  /** Every component is a part. */
  lemma {:induction false} ComponentIsPart(p: Path, i: nat, j: nat)
    requires i <= j <= |p| && IsComponent(p, i, j)
    ensures p[i..j] in SplitOn(p, SLASH)
    ensures i > 0 ==> p[i..j] in SplitOn(p, SLASH)[1..]
    decreases |p|
  {
    var parts := SplitOn(p, SLASH);
    if i == 0 {
      var k := FirstPart(p);
      assert k == j;
      assert parts[0] in parts;
    } else {
      ShiftComponent(p, i, j);
      ComponentIsPart(p[1..], i - 1, j - 1);
      var rest := SplitOn(p[1..], SLASH);
      assert parts[1..] == if p[0] == SLASH then rest else rest[1..];
    }
  }

  /** Every part is a component. */
  lemma {:induction false} PartIsComponent(p: Path, n: nat) returns (i: nat, j: nat)
    requires n < |SplitOn(p, SLASH)|
    ensures i <= j <= |p| && IsComponent(p, i, j) && p[i..j] == SplitOn(p, SLASH)[n] && (n > 0 ==> i > 0)
    decreases |p|
  {
    if n == 0 {
      i := 0;
      j := FirstPart(p);
    } else {
      var rest := SplitOn(p[1..], SLASH);
      var m := if p[0] == SLASH then n - 1 else n;
      assert SplitOn(p, SLASH)[n] == rest[m];
      i, j := PartIsComponent(p[1..], m);
      i, j := i + 1, j + 1;
      ShiftComponent(p, i, j);
    }
  }

  /** Main result: a path is valid exactly if it is printable without a
      backslash, every component between its slashes is there and is neither
      the directory itself nor its parent, so that it names something below the
      root, and it fits the two fields of a header. */
  lemma ValidMeans(p: Path)
    ensures Valid(p) <==>
      && (forall k :: 0 <= k < |p| ==> 0x20 <= p[k] && p[k] != 0x7f && p[k] != 0x5c)
      && (forall i, j :: 0 <= i <= j <= |p| && IsComponent(p, i, j) ==> p[i..j] != [] && p[i..j] != [0x2e] && p[i..j] != [0x2e, 0x2e])
      && (|p| <= 100 || exists k :: 1 <= k <= 155 && k < |p| && p[k] == 0x2f && 1 <= |p| - k - 1 <= 100)
  {
    forall i, j | 0 <= i <= j <= |p| && IsComponent(p, i, j) ensures p[i..j] in SplitOn(p, SLASH) { ComponentIsPart(p, i, j); }
    var parts := SplitOn(p, SLASH);
    forall c | c in parts ensures exists i, j :: 0 <= i <= j <= |p| && IsComponent(p, i, j) && p[i..j] == c {
      var n :| 0 <= n < |parts| && parts[n] == c;
      var i, j := PartIsComponent(p, n);
    }
    EndsAreComponents(p);
    FitsSomewhere(p);
  }

  lemma EndsAreComponents(p: Path)
    ensures p == [] ==> IsComponent(p, 0, 0) && p[0..0] == []
    ensures p != [] && p[0] == SLASH ==> IsComponent(p, 0, 0) && p[0..0] == []
    ensures p != [] && p[|p| - 1] == SLASH ==> IsComponent(p, |p|, |p|) && p[|p|..|p|] == []
  {
  }

  lemma FitsSomewhere(p: Path)
    ensures UstarParts(p).Some? <==> |p| <= 100 || exists k :: 1 <= k <= 155 && k < |p| && p[k] == 0x2f && 1 <= |p| - k - 1 <= 100
  {
    if |p| > 100 {
      forall k | 1 <= k <= 155 && k < |p| && p[k] == 0x2f && 1 <= |p| - k - 1 <= 100 ensures UstarParts(p).Some? { assert Fits(p, k); }
      if UstarParts(p).Some? { assert Fits(p, SplitBefore(p, |p|).value); }
    }
  }
}
