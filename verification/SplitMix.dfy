/** SplitMix64, the generator behind schedules and bootstrap draws. */
module SplitMix {
  import opened Bytes

  // 64-bit words are the naturals below TWO64; wrapping arithmetic is written out.
  const TWO64 := 0x1_0000_0000_0000_0000
  type Word = x: nat | x < TWO64

  const GAMMA: Word := 0x9e37_79b9_7f4a_7c15
  const FIRST: Word := 0xbf58_476d_1ce4_e5b9
  const SECOND: Word := 0x94d0_49bb_1331_11eb

  /** Right shift. */
  function Shr(x: nat, k: nat): (r: nat)
    ensures r <= x
    decreases k
  {
    if k == 0 then x else Shr(x / 2, k - 1)
  }

  function XorShift(x: nat, k: nat): nat { Xor(x, Shr(x, k)) }

  function Pow2(n: nat): nat { if n == 0 then 1 else 2 * Pow2(n - 1) }

  lemma {:induction false} XorStays(a: nat, b: nat, bits: nat)
    requires a < Pow2(bits) && b < Pow2(bits)
    ensures Xor(a, b) < Pow2(bits)
    decreases bits
  {
    if a + b > 0 { XorStays(a / 2, b / 2, bits - 1); }
  }

  lemma {:induction false} ShrHalves(x: nat, k: nat)
    ensures Shr(x, k) / 2 == Shr(x / 2, k)
    decreases k
  {
    if k > 0 { ShrHalves(x / 2, k - 1); }
  }

  lemma XorShiftHalves(x: nat, k: nat)
    requires k > 0
    ensures XorShift(x, k) / 2 == XorShift(x / 2, k)
    ensures XorShift(x, k) % 2 == (x + Shr(x / 2, k - 1)) % 2
  {
    ShrHalves(x, k);
  }

  /** Xor with a right shift of itself loses nothing. */
  lemma {:induction false} XorShiftIsInjective(x: nat, y: nat, k: nat)
    requires k > 0 && XorShift(x, k) == XorShift(y, k)
    ensures x == y
    decreases x + y
  {
    if x + y > 0 {
      hide XorShift, Shr;
      XorShiftHalves(x, k);
      XorShiftHalves(y, k);
      XorShiftIsInjective(x / 2, y / 2, k);
    }
  }

  /** Multiplying by a unit modulo `n` loses nothing. */
  lemma TimesIsInjective(x: nat, y: nat, m: nat, inverse: nat, turns: nat, n: nat)
    requires x < n && y < n && (x * m) % n == (y * m) % n && m * inverse == 1 + turns * n
    ensures x == y
  {
    var q := x * m / n - y * m / n;
    assert (x - y) * m == n * q by { assert x * m == n * (x * m / n) + (x * m) % n && y * m == n * (y * m / n) + (y * m) % n; }
    var d := x - y;
    assert d * (1 + turns * n) == d * m * inverse == n * q * inverse;
    assert d == n * (q * inverse - d * turns);
    Multiple(d, n, q * inverse - d * turns);
  }

  lemma Multiple(d: int, n: int, k: int)
    requires d == n * k && -n < d < n
    ensures d == 0
  {
    assert k >= 1 ==> n * k >= n * 1;
    assert k <= -1 ==> n * k <= n * -1;
  }

  lemma {:induction false} PowAdds(a: nat, b: nat)
    ensures Pow2(a + b) == Pow2(a) * Pow2(b)
    decreases b
  {
    if b > 0 { PowAdds(a, b - 1); }
  }

  lemma WordBits()
    ensures Pow2(64) == TWO64
  {
    PowAdds(8, 8);
    PowAdds(16, 16);
    PowAdds(32, 32);
  }

  function Shifted(x: Word, k: nat): Word {
    WordBits();
    XorStays(x, Shr(x, k), 64);
    XorShift(x, k)
  }

  function Times(x: Word, m: Word): Word { (x * m) % TWO64 }

  function Mix(state: Word): Word {
    Shifted(Times(Shifted(Times(Shifted(state, 30), FIRST), 27), SECOND), 31)
  }

  lemma Units(x: Word, y: Word)
    ensures Times(x, FIRST) == Times(y, FIRST) ==> x == y
    ensures Times(x, SECOND) == Times(y, SECOND) ==> x == y
    ensures Times(x, GAMMA) == Times(y, GAMMA) ==> x == y
  {
    if Times(x, FIRST) == Times(y, FIRST) {
      TimesIsInjective(x, y, FIRST, 0x96de_1b17_3f11_9089, 0x70c3_bca7_8f27_f46c, TWO64);
    }
    if Times(x, SECOND) == Times(y, SECOND) {
      TimesIsInjective(x, y, SECOND, 0x3196_42b2_d24d_8ec3, 0x1cd3_36ed_a85f_1453, TWO64);
    }
    if Times(x, GAMMA) == Times(y, GAMMA) {
      TimesIsInjective(x, y, GAMMA, 0xf1de_83e1_9937_733d, 0x957b_bf35_006e_d677, TWO64);
    }
  }

  /** No two states give the same word. */
  lemma MixIsInjective(x: Word, y: Word)
    ensures Mix(x) == Mix(y) <==> x == y
  {
    hide Times, XorShift;
    if Mix(x) == Mix(y) { SameState(x, y); }
  }

  lemma SameState(x: Word, y: Word)
    requires Mix(x) == Mix(y)
    ensures x == y
  {
    hide Times, XorShift;
    var ax, ay := Times(Shifted(x, 30), FIRST), Times(Shifted(y, 30), FIRST);
    var bx, bz := Times(Shifted(ax, 27), SECOND), Times(Shifted(ay, 27), SECOND);
    XorShiftIsInjective(bx, bz, 31);
    Units(Shifted(ax, 27), Shifted(ay, 27));
    XorShiftIsInjective(ax, ay, 27);
    Units(Shifted(x, 30), Shifted(y, 30));
    XorShiftIsInjective(x, y, 30);
  }

  /** The state after a number of draws. */
  function StateAfter(seed: Word, draws: nat): Word { (seed + draws * GAMMA) % TWO64 }

  lemma AddMultiple(a: nat, k: nat, n: nat)
    requires n > 0
    ensures (a + k * n) % n == a % n
  {
    var b := a + k * n;
    assert b == n * (b / n) + b % n && a == n * (a / n) + a % n;
    assert b % n - a % n == n * (a / n + k - b / n);
    Multiple(b % n - a % n, n, a / n + k - b / n);
  }

  lemma NextState(seed: Word, draws: nat)
    ensures StateAfter(seed, draws + 1) == (StateAfter(seed, draws) + GAMMA) % TWO64
  {
    var x := seed + draws * GAMMA;
    assert seed + (draws + 1) * GAMMA == x + GAMMA;
    AddMultiple(x % TWO64 + GAMMA, x / TWO64, TWO64);
  }

  lemma StateModulo(seed: Word, draws: nat)
    ensures StateAfter(seed, draws) == (seed + Times(draws % TWO64, GAMMA)) % TWO64
  {
    var n, q, r := TWO64, draws / TWO64, draws % TWO64;
    assert draws * GAMMA == r * GAMMA + q * GAMMA * n;
    AddMultiple(seed + r * GAMMA, q * GAMMA, n);
    var t := r * GAMMA;
    AddMultiple(seed + t % n, t / n, n);
  }

  /** The generator repeats a word exactly every 2^64 draws. */
  lemma RepeatsExactly(seed: Word, i: nat, j: nat)
    ensures Mix(StateAfter(seed, i)) == Mix(StateAfter(seed, j)) <==> i % TWO64 == j % TWO64
  {
    hide Mix, StateAfter, Times;
    StateModulo(seed, i);
    StateModulo(seed, j);
    if Mix(StateAfter(seed, i)) == Mix(StateAfter(seed, j)) {
      MixIsInjective(StateAfter(seed, i), StateAfter(seed, j));
      Units(i % TWO64, j % TWO64);
    }
  }

  class SplitMix64 {
    var state: Word

    constructor (seed: Word)
      ensures state == seed == StateAfter(seed, 0)
    {
      state := seed;
    }

    method NextU64(ghost seed: Word, ghost drawn: nat) returns (word: Word)
      requires state == StateAfter(seed, drawn)
      modifies this
      ensures state == StateAfter(seed, drawn + 1) && word == Mix(state)
    {
      hide Times, Shifted, StateAfter;
      NextState(seed, drawn);
      state := (state + GAMMA) % TWO64;
      var value := state;
      value := Times(Shifted(value, 30), FIRST);
      value := Times(Shifted(value, 27), SECOND);
      word := Shifted(value, 31);
    }
  }
}
