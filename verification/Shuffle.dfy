/** Bounded draws by rejection, and the Fisher-Yates shuffle. The generator is
    a stream of words; a stream that ends before a draw is accepted has no
    result, as the original then draws for ever. */
module Shuffle {
  import opened Bytes
  import opened SplitMix

  // ----- bounded draws -----

  /** Words below this are rejected. */
  function Threshold(bound: Word): nat
    requires bound > 0
  {
    (TWO64 - bound) % TWO64 % bound
  }

  datatype Draw = ZeroBound | Drawn(value: nat, rest: seq<Word>) | Exhausted

  /** The first accepted word, reduced. */
  function Bounded(words: seq<Word>, bound: Word): (d: Draw)
    ensures d.Drawn? ==> d.value < bound
  {
    if bound == 0 then ZeroBound
    else if words == [] then Exhausted
    else if words[0] >= Threshold(bound) then Drawn(words[0] % bound, words[1..])
    else Bounded(words[1..], bound)
  }

  method DrawBounded(words: seq<Word>, bound: Word) returns (d: Draw)
    ensures d == Bounded(words, bound)
  {
    if bound == 0 { return ZeroBound; }
    var threshold := Threshold(bound);
    var i: nat := 0;
    assert words[0..] == words;
    while i < |words|
      invariant i <= |words| && Bounded(words, bound) == Bounded(words[i..], bound)
    {
      var word := words[i];
      if word >= threshold { return Drawn(word % bound, words[i + 1..]); }
      i := i + 1;
    }
    d := Exhausted;
  }

  /** Words of [lo, hi) with a given residue. */
  ghost function WithResidue(lo: nat, hi: nat, bound: nat, r: nat): set<nat>
    requires bound > 0
  {
    set w: nat | lo <= w < hi && w % bound == r
  }

  lemma {:induction false} FirstIn(lo: nat, bound: nat, r: nat) returns (w: nat)
    requires r < bound
    ensures lo <= w < lo + bound && w % bound == r
    decreases lo
  {
    if lo == 0 { return r; }
    w := FirstIn(lo - 1, bound, r);
    if w == lo - 1 {
      AddMultiple(w, 1, bound);
      w := w + bound;
    }
  }

  /** Each window of `bound` words has each residue once. */
  lemma OneIn(lo: nat, bound: nat, r: nat) returns (w: nat)
    requires r < bound
    ensures lo <= w < lo + bound && w % bound == r
    ensures forall v: nat :: lo <= v < lo + bound && v % bound == r ==> v == w
  {
    w := FirstIn(lo, bound, r);
    forall v: nat | lo <= v < lo + bound && v % bound == r ensures v == w { SameResidue(v, w, bound); }
  }

  lemma SameResidue(v: nat, w: nat, bound: nat)
    requires bound > 0 && v % bound == w % bound && v - w < bound && w - v < bound
    ensures v == w
  {
    assert v == bound * (v / bound) + v % bound && w == bound * (w / bound) + w % bound;
    assert v - w == bound * (v / bound - w / bound);
    Multiple(v - w, bound, v / bound - w / bound);
  }

  lemma {:induction false} ResidueCount(lo: nat, turns: nat, bound: nat, r: nat)
    requires r < bound
    ensures |WithResidue(lo, lo + turns * bound, bound, r)| == turns
    decreases turns
  {
    if turns == 0 {
      assert WithResidue(lo, lo, bound, r) == {};
    } else {
      ResidueCount(lo, turns - 1, bound, r);
      var mid := lo + (turns - 1) * bound;
      assert lo + turns * bound == mid + bound && lo <= mid;
      var w := OneIn(mid, bound, r);
      OneMore(lo, mid, bound, r, w);
    }
  }

  lemma OneMore(lo: nat, mid: nat, bound: nat, r: nat, w: nat)
    requires r < bound && lo <= mid <= w < mid + bound && w % bound == r
    requires forall v: nat :: mid <= v < mid + bound && v % bound == r ==> v == w
    ensures |WithResidue(lo, mid + bound, bound, r)| == |WithResidue(lo, mid, bound, r)| + 1
  {
    assert WithResidue(lo, mid + bound, bound, r) == WithResidue(lo, mid, bound, r) + {w};
  }

  /** The words that a draw accepts at once and reduces to `r`. */
  ghost function Giving(bound: Word, r: nat): set<nat> {
    set w: nat | w < TWO64 && Bounded([w], bound) == Drawn(r, [])
  }

  /** Draws are exactly uniform: every number below the bound is drawn from the
      same number of words, as many as there can be. */
  lemma DrawsAreUniform(bound: Word, r: nat)
    requires r < bound
    ensures |Giving(bound, r)| == TWO64 / bound
  {
    ThresholdIsRemainder(bound);
    ResidueCount(Threshold(bound), TWO64 / bound, bound, r);
    forall w: Word ensures Bounded([w], bound) == Drawn(r, []) <==> w >= Threshold(bound) && w % bound == r { OneWord(w, bound); }
    assert Giving(bound, r) == WithResidue(Threshold(bound), TWO64, bound, r);
  }

  lemma OneWord(w: Word, bound: Word)
    requires bound > 0
    ensures Bounded([w], bound) == if w >= Threshold(bound) then Drawn(w % bound, []) else Exhausted
  {
    assert [w][1..] == [];
  }

  /** A draw takes the first word that it would accept alone. */
  lemma {:induction false} FirstAccepted(words: seq<Word>, bound: Word)
    requires bound > 0
    ensures match Bounded(words, bound)
            case ZeroBound => false
            case Exhausted => forall i :: 0 <= i < |words| ==> Bounded([words[i]], bound) == Exhausted
            case Drawn(r, rest) =>
              exists k :: 0 <= k < |words| && Bounded([words[k]], bound) == Drawn(r, []) && rest == words[k + 1..]
                && forall i :: 0 <= i < k ==> Bounded([words[i]], bound) == Exhausted
  {
    if words != [] {
      var tail := words[1..];
      FirstAccepted(tail, bound);
      OneWord(words[0], bound);
      hide Threshold;
      if words[0] < Threshold(bound) && Bounded(tail, bound).Drawn? {
        var Drawn(r, rest) := Bounded(tail, bound);
        var k :| 0 <= k < |tail| && Bounded([tail[k]], bound) == Drawn(r, []) && rest == tail[k + 1..]
          && forall i :: 0 <= i < k ==> Bounded([tail[i]], bound) == Exhausted;
        assert words[k + 1] == tail[k] && words[k + 2..] == tail[k + 1..];
        forall i | 0 <= i < k + 1 ensures Bounded([words[i]], bound) == Exhausted { if i > 0 { assert words[i] == tail[i - 1]; } }
      } else if words[0] >= Threshold(bound) {
        assert words[0 + 1..] == tail;
      } else {
        forall i | 0 <= i < |words| ensures Bounded([words[i]], bound) == Exhausted { if i > 0 { assert words[i] == tail[i - 1]; } }
      }
    }
  }

  lemma ThresholdIsRemainder(bound: Word)
    requires bound > 0
    ensures Threshold(bound) + TWO64 / bound * bound == TWO64
  {
    AddMultiple(TWO64 - bound, 1, bound);
  }

  // ----- the shuffle -----

  function Swap<T>(v: seq<T>, i: nat, j: nat): (r: seq<T>)
    requires i < |v| && j < |v|
    ensures |r| == |v|
  {
    v[i := v[j]][j := v[i]]
  }

  lemma SwapKeeps<T>(v: seq<T>, i: nat, j: nat)
    requires i < |v| && j < |v|
    ensures multiset(Swap(v, i, j)) == multiset(v)
  {
  }

  /** One draw for each upper index, highest first. */
  ghost predicate Legal(draws: seq<nat>) {
    forall k :: 0 <= k < |draws| ==> draws[k] <= |draws| - k
  }

  /** Swaps for the upper indices |draws|, ..., 1. */
  function Shuffled<T>(v: seq<T>, draws: seq<nat>): (r: seq<T>)
    requires |draws| < |v| && Legal(draws)
    ensures |r| == |v|
    ensures forall i :: |draws| < i < |v| ==> r[i] == v[i]
    decreases |draws|
  {
    if draws == [] then v else Shuffled(Swap(v, |draws|, draws[0]), draws[1..])
  }

  /** A shuffle loses and duplicates nothing. */
  lemma {:induction false} ShuffledKeeps<T>(v: seq<T>, draws: seq<nat>)
    requires |draws| < |v| && Legal(draws)
    ensures multiset(Shuffled(v, draws)) == multiset(v)
    decreases |draws|
  {
    if draws != [] {
      SwapKeeps(v, |draws|, draws[0]);
      ShuffledKeeps(Swap(v, |draws|, draws[0]), draws[1..]);
    }
  }

  ghost predicate Distinct<T(!new)>(v: seq<T>) {
    forall i, j :: 0 <= i < j < |v| ==> v[i] != v[j]
  }

  /** The first swap settles the highest position. */
  lemma FirstSwap<T(!new)>(v: seq<T>, draws: seq<nat>)
    requires draws != [] && |draws| < |v| && Legal(draws)
    ensures var w := Swap(v, |draws|, draws[0]);
            && Legal(draws[1..]) && Shuffled(v, draws) == Shuffled(w, draws[1..])
            && Shuffled(v, draws)[|draws|] == v[draws[0]]
  {
  }

  lemma SwapDistinct<T(!new)>(v: seq<T>, i: nat, j: nat)
    requires i < |v| && j < |v| && Distinct(v)
    ensures Distinct(Swap(v, i, j))
  {
  }

  /** Different draws give different orders. */
  lemma {:induction false} DrawsAreUnique<T(!new)>(v: seq<T>, a: seq<nat>, b: seq<nat>)
    requires Distinct(v) && |a| == |b| < |v| && Legal(a) && Legal(b) && Shuffled(v, a) == Shuffled(v, b)
    ensures a == b
    decreases |a|
  {
    if a != [] {
      FirstSwap(v, a);
      FirstSwap(v, b);
      SwapDistinct(v, |a|, a[0]);
      assert a[0] == b[0];
      hide Shuffled, Distinct, Legal, Swap;
      DrawsAreUnique(Swap(v, |a|, a[0]), a[1..], b[1..]);
      assert a == [a[0]] + a[1..] && b == [b[0]] + b[1..];
    }
  }

  lemma SameBelow<T(!new)>(v: seq<T>, p: seq<T>, n: nat)
    requires n <= |v| == |p| && multiset(p) == multiset(v) && p[n..] == v[n..]
    ensures multiset(p[..n]) == multiset(v[..n])
  {
    assert v == v[..n] + v[n..] && p == p[..n] + p[n..];
    assert multiset(p[..n]) == multiset(p) - multiset(v[n..]);
    assert multiset(v[..n]) == multiset(v) - multiset(v[n..]);
  }

  /** A value a permutation has below a settled tail is found there. */
  lemma FindBelow<T(!new)>(v: seq<T>, p: seq<T>, n: nat) returns (j: nat)
    requires n < |v| == |p| && multiset(p) == multiset(v) && p[n + 1..] == v[n + 1..]
    ensures j <= n && v[j] == p[n] && (n == 0 ==> p == v)
  {
    SameBelow(v, p, n + 1);
    var below := v[..n + 1];
    assert p[n] == p[..n + 1][n];
    assert p[n] in multiset(p[..n + 1]);
    assert p[n] in below;
    j :| 0 <= j < |below| && below[j] == p[n];
    if n == 0 { assert v == [v[0]] + v[1..] && p == [p[0]] + p[1..]; }
  }

  /** Every order is given by some draws. */
  lemma {:induction false} DrawsReachAll<T(!new)>(v: seq<T>, p: seq<T>, n: nat) returns (draws: seq<nat>)
    requires n < |v| == |p| && multiset(p) == multiset(v) && p[n + 1..] == v[n + 1..]
    ensures |draws| == n && Legal(draws) && Shuffled(v, draws) == p
    decreases n
  {
    var j := FindBelow(v, p, n);
    if n == 0 { return []; }
    var w := Swap(v, n, j);
    SwapKeeps(v, n, j);
    assert w[n..] == p[n..] by { assert w[n] == p[n] && forall i :: n < i < |v| ==> w[i] == p[n + 1..][i - n - 1]; }
    var rest := DrawsReachAll(w, p, n - 1);
    draws := [j] + rest;
    assert draws[1..] == rest;
  }

  /** Each order of distinct values comes from exactly one run of legal draws. */
  lemma ExactlyOneRun<T(!new)>(v: seq<T>, p: seq<T>) returns (draws: seq<nat>)
    requires v != [] && Distinct(v) && multiset(p) == multiset(v)
    ensures |draws| == |v| - 1 && Legal(draws) && Shuffled(v, draws) == p
    ensures forall e: seq<nat> :: |e| == |v| - 1 && Legal(e) && Shuffled(v, e) == p ==> e == draws
  {
    hide Shuffled, Legal, Distinct;
    assert |p| == |multiset(p)| == |v|;
    draws := DrawsReachAll(v, p, |v| - 1);
    forall e: seq<nat> | |e| == |v| - 1 && Legal(e) && Shuffled(v, e) == p ensures e == draws {
      DrawsAreUnique(v, draws, e);
    }
  }

  // ----- the shuffle in place -----

  /** Draws for the upper indices n, ..., 1, if the words suffice. */
  function DrawAll(words: seq<Word>, n: nat): (ds: Option<seq<nat>>)
    requires n + 1 < TWO64
    ensures ds.Some? ==> |ds.value| == n && Legal(ds.value)
    decreases n
  {
    if n == 0 then Some([]) else
    match Bounded(words, n + 1)
    case Drawn(d, rest) => (match DrawAll(rest, n - 1) case None => None case Some(ds) => Some([d] + ds))
    case _ => None
  }

  /** Drawing and swapping in turn. */
  function ShuffledBy<T>(v: seq<T>, words: seq<Word>, n: nat): (r: Option<seq<T>>)
    requires n < |v| < TWO64
    decreases n
  {
    if n == 0 then Some(v) else
    match Bounded(words, n + 1)
    case Drawn(d, rest) => ShuffledBy(Swap(v, n, d), rest, n - 1)
    case _ => None
  }

  lemma ShuffledStep<T(!new)>(v: seq<T>, words: seq<Word>, n: nat)
    requires n < |v| < TWO64
    ensures n == 0 ==> ShuffledBy(v, words, n) == Some(v)
    ensures n > 0 ==> var d := Bounded(words, n + 1);
                      ShuffledBy(v, words, n) == if d.Drawn? then ShuffledBy(Swap(v, n, d.value), d.rest, n - 1) else None
  {
  }

  lemma {:induction false} ShuffledByDraws<T(!new)>(v: seq<T>, words: seq<Word>, n: nat)
    requires n < |v| < TWO64
    ensures var ds := DrawAll(words, n);
            ShuffledBy(v, words, n) == if ds.Some? then Some(Shuffled(v, ds.value)) else None
    decreases n
  {
    if n > 0 && Bounded(words, n + 1).Drawn? {
      var Drawn(d, rest) := Bounded(words, n + 1);
      ShuffledByDraws(Swap(v, n, d), rest, n - 1);
      var ds := DrawAll(rest, n - 1);
      if ds.Some? { assert ([d] + ds.value)[1..] == ds.value; }
    }
  }

  method SwapInPlace<T>(values: array<T>, i: nat, j: nat)
    requires i < values.Length && j < values.Length
    modifies values
    ensures values[..] == Swap(old(values[..]), i, j)
  {
    values[i], values[j] := values[j], values[i];
  }

  /** The loop of the shuffle. Whatever the words, nothing is lost or duplicated. */
  method ShuffleInPlace<T(!new)>(values: array<T>, words: seq<Word>) returns (ok: bool)
    requires 0 < values.Length < TWO64
    modifies values
    ensures multiset(values[..]) == multiset(old(values[..]))
    ensures ShuffledBy(old(values[..]), words, values.Length - 1) == if ok then Some(values[..]) else None
  {
    var upper: nat := values.Length - 1;
    var left := words;
    ghost var was := values[..];
    hide Bounded, Swap, ShuffledBy;
    while upper > 0
      invariant upper < values.Length == |was| && multiset(values[..]) == multiset(was)
      invariant ShuffledBy(was, words, |was| - 1) == ShuffledBy(values[..], left, upper)
    {
      ShuffledStep(values[..], left, upper);
      var d := DrawBounded(left, upper + 1);
      if !d.Drawn? { return false; }
      SwapKeeps(values[..], upper, d.value);
      SwapInPlace(values, upper, d.value);
      left := d.rest;
      upper := upper - 1;
    }
    ShuffledStep(values[..], left, 0);
    ok := true;
  }

  /** The shuffle: the order that the draws select. */
  method FisherYates<T(!new)>(values: array<T>, words: seq<Word>) returns (ok: bool)
    requires values.Length < TWO64
    modifies values
    ensures multiset(values[..]) == multiset(old(values[..]))
    ensures values.Length > 0 ==>
      var draws := DrawAll(words, values.Length - 1);
      ok == draws.Some? && (ok ==> values[..] == Shuffled(old(values[..]), draws.value))
  {
    if values.Length == 0 { return true; }
    ShuffledByDraws(values[..], words, values.Length - 1);
    ok := ShuffleInPlace(values, words);
  }
}
