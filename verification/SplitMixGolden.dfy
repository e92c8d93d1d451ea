/** The words SplitMix64 gives for seed 0, which the original checks itself
    against at start-up. */
module SplitMixGolden {
  import opened Bytes
  import opened SplitMix

  // ----- exclusive or, two bits at a time -----

  /** A digit to the base four. */
  predicate Quad(x: nat) { x < 4 }

  function QuadXor(x: nat, y: nat): int {
    if x == y then 0 else if x == 0 then y else if y == 0 then x else 6 - x - y
  }

  lemma XorBit(a: nat, b: nat, p: nat, q: nat)
    requires p < 2 && q < 2
    ensures Xor(2 * a + p, 2 * b + q) == 2 * Xor(a, b) + (if p == q then 0 else 1)
  {
    assert (2 * a + p) / 2 == a && (2 * b + q) / 2 == b && (2 * a + p + (2 * b + q)) % 2 == if p == q then 0 else 1;
    if 2 * a + p == 0 && 2 * b + q == 0 { assert Xor(0, 0) == 0; }
  }

  lemma XorQuad(a: nat, b: nat, x: nat, y: nat)
    requires Quad(x) && Quad(y)
    ensures Xor(4 * a + x, 4 * b + y) == 4 * Xor(a, b) + QuadXor(x, y)
  {
    hide Xor;
    var x1, y1 := if x >= 2 then 1 else 0, if y >= 2 then 1 else 0;
    XorBit(a, b, x1, y1);
    XorBit(2 * a + x1, 2 * b + y1, x - 2 * x1, y - 2 * y1);
  }

  /** One byte of each number, as four digits. */
  lemma XorByte(a: nat, b: nat, x3: nat, x2: nat, x1: nat, x0: nat, y3: nat, y2: nat, y1: nat, y0: nat)
    requires Quad(x3) && Quad(x2) && Quad(x1) && Quad(x0) && Quad(y3) && Quad(y2) && Quad(y1) && Quad(y0)
    ensures Xor(256 * a + 64 * x3 + 16 * x2 + 4 * x1 + x0, 256 * b + 64 * y3 + 16 * y2 + 4 * y1 + y0) ==
      256 * Xor(a, b) + 64 * QuadXor(x3, y3) + 16 * QuadXor(x2, y2) + 4 * QuadXor(x1, y1) + QuadXor(x0, y0)
  {
    hide Xor, QuadXor;
    XorQuad(a, b, x3, y3);
    XorQuad(4 * a + x3, 4 * b + y3, x2, y2);
    XorQuad(16 * a + 4 * x3 + x2, 16 * b + 4 * y3 + y2, x1, y1);
    XorQuad(64 * a + 16 * x3 + 4 * x2 + x1, 64 * b + 16 * y3 + 4 * y2 + y1, x0, y0);
  }

  // ----- shifts and products -----

  lemma {:induction false} ShrIs(x: nat, k: nat)
    ensures Pow2(k) > 0 && Shr(x, k) == x / Pow2(k)
    decreases k
  {
    if k > 0 {
      ShrIs(x / 2, k - 1);
      HalfThen(x, Pow2(k - 1));
    }
  }

  lemma HalfThen(x: nat, p: nat)
    requires p > 0
    ensures x / 2 / p == x / (2 * p)
  {
    var q, r := x / (2 * p), x % (2 * p);
    assert x == 2 * (p * q) + r;
    assert x / 2 == p * q + r / 2 && r / 2 < p;
    Quotient(p, q, r / 2);
  }

  lemma Quotient(p: nat, q: nat, r: nat)
    requires r < p
    ensures (p * q + r) / p == q
  {
    var d := (p * q + r) / p;
    assert p * q + r == p * d + (p * q + r) % p;
    assert p * (q - d) == (p * q + r) % p - r;
    Multiple((p * q + r) % p - r, p, q - d);
    assert p * (q - d) == 0;
  }

  lemma Powers()
    ensures Pow2(27) == 0x800_0000 && Pow2(30) == 0x4000_0000 && Pow2(31) == 0x8000_0000
  {
    PowAdds(8, 8);
    PowAdds(16, 8);
    PowAdds(24, 3);
    PowAdds(27, 3);
  }

  lemma Shift(x: Word, k: nat, y: nat, z: Word)
    requires (k == 27 && y == x / 0x800_0000) || (k == 30 && y == x / 0x4000_0000) || (k == 31 && y == x / 0x8000_0000)
    requires Xor(x, y) == z
    ensures Shifted(x, k) == z
  {
    hide Xor, Shr;
    Powers();
    ShrIs(x, k);
  }

  lemma Product(x: Word, m: Word, r: Word, turns: nat)
    requires x * m == r + turns * TWO64
    ensures Times(x, m) == r
  {
    AddMultiple(r, turns, TWO64);
    assert r % TWO64 == r;
  }

  // ----- the words -----

  lemma First1()
    ensures Shifted(0x9e37_79b9_7f4a_7c15, 30) == 0x9e37_79bb_0797_9af0
  {
    hide Shifted, Xor;
    XorByte(0x0, 0x0, 2, 1, 3, 2, 0, 0, 0, 0);
    XorByte(0x9e, 0x0, 0, 3, 1, 3, 0, 0, 0, 0);
    XorByte(0x9e37, 0x0, 1, 3, 2, 1, 0, 0, 0, 0);
    XorByte(0x9e_3779, 0x0, 2, 3, 2, 1, 0, 0, 0, 2);
    XorByte(0x9e37_79b9, 0x2, 1, 3, 3, 3, 1, 3, 2, 0);
    XorByte(0x9e_3779_b97f, 0x278, 1, 0, 2, 2, 3, 1, 3, 1);
    XorByte(0x9e37_79b9_7f4a, 0x2_78dd, 1, 3, 3, 0, 3, 2, 1, 2);
    XorByte(0x9e_3779_b97f_4a7c, 0x278_dde6, 0, 1, 1, 1, 3, 2, 1, 1);
    XorIsZero(0, 0);
    Shift(0x9e37_79b9_7f4a_7c15, 30, 0x2_78dd_e6e5, 0x9e37_79bb_0797_9af0);
  }

  lemma Second1()
    ensures Shifted(0x6f68_261b_57e7_a770, 27) == 0x6f68_2616_bae3_641a
  {
    hide Shifted, Xor;
    XorByte(0x0, 0x0, 1, 2, 3, 3, 0, 0, 0, 0);
    XorByte(0x6f, 0x0, 1, 2, 2, 0, 0, 0, 0, 0);
    XorByte(0x6f68, 0x0, 0, 2, 1, 2, 0, 0, 0, 0);
    XorByte(0x6f_6826, 0x0, 0, 1, 2, 3, 0, 0, 3, 1);
    XorByte(0x6f68_261b, 0xd, 1, 1, 1, 3, 3, 2, 3, 1);
    XorByte(0x6f_6826_1b57, 0xded, 3, 2, 1, 3, 0, 0, 1, 0);
    XorByte(0x6f68_261b_57e7, 0xd_ed04, 2, 2, 1, 3, 3, 0, 0, 3);
    XorByte(0x6f_6826_1b57_e7a7, 0xded_04c3, 1, 3, 0, 0, 1, 2, 2, 2);
    XorIsZero(0, 0);
    Shift(0x6f68_261b_57e7_a770, 27, 0xd_ed04_c36a, 0x6f68_2616_bae3_641a);
  }

  lemma Third1()
    ensures Shifted(0xe220_a838_bf5c_9dde, 31) == 0xe220_a839_7b1d_cdaf
  {
    hide Shifted, Xor;
    XorByte(0x0, 0x0, 3, 2, 0, 2, 0, 0, 0, 0);
    XorByte(0xe2, 0x0, 0, 2, 0, 0, 0, 0, 0, 0);
    XorByte(0xe220, 0x0, 2, 2, 2, 0, 0, 0, 0, 0);
    XorByte(0xe2_20a8, 0x0, 0, 3, 2, 0, 0, 0, 0, 1);
    XorByte(0xe220_a838, 0x1, 2, 3, 3, 3, 3, 0, 1, 0);
    XorByte(0xe2_20a8_38bf, 0x1c4, 1, 1, 3, 0, 1, 0, 0, 1);
    XorByte(0xe220_a838_bf5c, 0x1_c441, 2, 1, 3, 1, 1, 1, 0, 0);
    XorByte(0xe2_20a8_38bf_5c9d, 0x1c4_4150, 3, 1, 3, 2, 1, 3, 0, 1);
    XorIsZero(0, 0);
    Shift(0xe220_a838_bf5c_9dde, 31, 0x1_c441_5071, 0xe220_a839_7b1d_cdaf);
  }

  lemma Word1()
    ensures Mix(0x9e37_79b9_7f4a_7c15) == 0xe220_a839_7b1d_cdaf
  {
    hide Times, Shifted;
    First1();
    Product(0x9e37_79bb_0797_9af0, FIRST, 0x6f68_261b_57e7_a770, 0x7641_f309_3531_f526);
    Second1();
    Product(0x6f68_2616_bae3_641a, SECOND, 0xe220_a838_bf5c_9dde, 0x40c2_daba_32cd_b214);
    Third1();
  }

  lemma First2()
    ensures Shifted(0x3c6e_f372_fe94_f82a, 30) == 0x3c6e_f372_0f2f_35e1
  {
    hide Shifted, Xor;
    XorByte(0x0, 0x0, 0, 3, 3, 0, 0, 0, 0, 0);
    XorByte(0x3c, 0x0, 1, 2, 3, 2, 0, 0, 0, 0);
    XorByte(0x3c6e, 0x0, 3, 3, 0, 3, 0, 0, 0, 0);
    XorByte(0x3c_6ef3, 0x0, 1, 3, 0, 2, 0, 0, 0, 0);
    XorByte(0x3c6e_f372, 0x0, 3, 3, 3, 2, 3, 3, 0, 1);
    XorByte(0x3c_6ef3_72fe, 0xf1, 2, 1, 1, 0, 2, 3, 2, 3);
    XorByte(0x3c6e_f372_fe94, 0xf1bb, 3, 3, 2, 0, 3, 0, 3, 1);
    XorByte(0x3c_6ef3_72fe_94f8, 0xf1_bbcd, 0, 2, 2, 2, 3, 0, 2, 3);
    XorIsZero(0, 0);
    Shift(0x3c6e_f372_fe94_f82a, 30, 0xf1bb_cdcb, 0x3c6e_f372_0f2f_35e1);
  }

  lemma Second2()
    ensures Shifted(0x2a94_fcbf_ccb4_3499, 27) == 0x2a94_fcba_9e2b_a360
  {
    hide Shifted, Xor;
    XorByte(0x0, 0x0, 0, 2, 2, 2, 0, 0, 0, 0);
    XorByte(0x2a, 0x0, 2, 1, 1, 0, 0, 0, 0, 0);
    XorByte(0x2a94, 0x0, 3, 3, 3, 0, 0, 0, 0, 0);
    XorByte(0x2a_94fc, 0x0, 2, 3, 3, 3, 0, 0, 1, 1);
    XorByte(0x2a94_fcbf, 0x5, 3, 0, 3, 0, 1, 1, 0, 2);
    XorByte(0x2a_94fc_bfcc, 0x552, 2, 3, 1, 0, 2, 1, 3, 3);
    XorByte(0x2a94_fcbf_ccb4, 0x5_529f, 0, 3, 1, 0, 2, 1, 1, 3);
    XorByte(0x2a_94fc_bfcc_b434, 0x552_9f97, 2, 1, 2, 1, 3, 3, 2, 1);
    XorIsZero(0, 0);
    Shift(0x2a94_fcbf_ccb4_3499, 27, 0x5_529f_97f9, 0x2a94_fcba_9e2b_a360);
  }

  lemma Third2()
    ensures Shifted(0x6e78_9e6a_7d48_5920, 31) == 0x6e78_9e6a_a1b9_65f4
  {
    hide Shifted, Xor;
    XorByte(0x0, 0x0, 1, 2, 3, 2, 0, 0, 0, 0);
    XorByte(0x6e, 0x0, 1, 3, 2, 0, 0, 0, 0, 0);
    XorByte(0x6e78, 0x0, 2, 1, 3, 2, 0, 0, 0, 0);
    XorByte(0x6e_789e, 0x0, 1, 2, 2, 2, 0, 0, 0, 0);
    XorByte(0x6e78_9e6a, 0x0, 1, 3, 3, 1, 3, 1, 3, 0);
    XorByte(0x6e_789e_6a7d, 0xdc, 1, 0, 2, 0, 3, 3, 0, 1);
    XorByte(0x6e78_9e6a_7d48, 0xdcf1, 1, 1, 2, 1, 0, 3, 3, 0);
    XorByte(0x6e_789e_6a7d_4859, 0xdc_f13c, 0, 2, 0, 0, 3, 1, 1, 0);
    XorIsZero(0, 0);
    Shift(0x6e78_9e6a_7d48_5920, 31, 0xdcf1_3cd4, 0x6e78_9e6a_a1b9_65f4);
  }

  lemma Word2()
    ensures Mix(0x3c6e_f372_fe94_f82a) == 0x6e78_9e6a_a1b9_65f4
  {
    hide Times, Shifted;
    First2();
    Product(0x3c6e_f372_0f2f_35e1, FIRST, 0x2a94_fcbf_ccb4_3499, 0x2d2b_9ea2_501d_e6e0);
    Second2();
    Product(0x2a94_fcba_9e2b_a360, SECOND, 0x6e78_9e6a_7d48_5920, 0x18c0_c76c_d528_c995);
    Third2();
  }

  lemma First3()
    ensures Shifted(0xdaa6_6d2c_7ddf_743f, 30) == 0xdaa6_6d2f_1746_c08e
  {
    hide Shifted, Xor;
    XorByte(0x0, 0x0, 3, 1, 2, 2, 0, 0, 0, 0);
    XorByte(0xda, 0x0, 2, 2, 1, 2, 0, 0, 0, 0);
    XorByte(0xdaa6, 0x0, 1, 2, 3, 1, 0, 0, 0, 0);
    XorByte(0xda_a66d, 0x0, 0, 2, 3, 0, 0, 0, 0, 3);
    XorByte(0xdaa6_6d2c, 0x3, 1, 3, 3, 1, 1, 2, 2, 2);
    XorByte(0xda_a66d_2c7d, 0x36a, 3, 1, 3, 3, 2, 1, 2, 1);
    XorByte(0xdaa6_6d2c_7ddf, 0x3_6a99, 1, 3, 1, 0, 2, 3, 1, 0);
    XorByte(0xda_a66d_2c7d_df74, 0x36a_99b4, 0, 3, 3, 3, 2, 3, 0, 1);
    XorIsZero(0, 0);
    Shift(0xdaa6_6d2c_7ddf_743f, 30, 0x3_6a99_b4b1, 0xdaa6_6d2f_1746_c08e);
  }

  lemma Second3()
    ensures Shifted(0xf1c3_dd63_22d8_2c9e, 27) == 0xf1c3_dd7d_1aa3_80fa
  {
    hide Shifted, Xor;
    XorByte(0x0, 0x0, 3, 3, 0, 1, 0, 0, 0, 0);
    XorByte(0xf1, 0x0, 3, 0, 0, 3, 0, 0, 0, 0);
    XorByte(0xf1c3, 0x0, 3, 1, 3, 1, 0, 0, 0, 0);
    XorByte(0xf1_c3dd, 0x0, 1, 2, 0, 3, 0, 1, 3, 2);
    XorByte(0xf1c3_dd63, 0x1e, 0, 2, 0, 2, 0, 3, 2, 0);
    XorByte(0xf1_c3dd_6322, 0x1e38, 3, 1, 2, 0, 1, 3, 2, 3);
    XorByte(0xf1c3_dd63_22d8, 0x1e_387b, 0, 2, 3, 0, 2, 2, 3, 0);
    XorByte(0xf1_c3dd_6322_d82c, 0x1e38_7bac, 2, 1, 3, 2, 1, 2, 1, 0);
    XorIsZero(0, 0);
    Shift(0xf1c3_dd63_22d8_2c9e, 27, 0x1e_387b_ac64, 0xf1c3_dd7d_1aa3_80fa);
  }

  lemma Third3()
    ensures Shifted(0x6c4_5d18_8d81_ff7e, 31) == 0x6c4_5d18_8009_454f
  {
    hide Shifted, Xor;
    XorByte(0x0, 0x0, 0, 0, 1, 2, 0, 0, 0, 0);
    XorByte(0x6, 0x0, 3, 0, 1, 0, 0, 0, 0, 0);
    XorByte(0x6c4, 0x0, 1, 1, 3, 1, 0, 0, 0, 0);
    XorByte(0x6_c45d, 0x0, 0, 1, 2, 0, 0, 0, 0, 0);
    XorByte(0x6c4_5d18, 0x0, 2, 0, 3, 1, 0, 0, 3, 1);
    XorByte(0x6_c45d_188d, 0xd, 2, 0, 0, 1, 2, 0, 2, 0);
    XorByte(0x6c4_5d18_8d81, 0xd88, 3, 3, 3, 3, 2, 3, 2, 2);
    XorByte(0x6_c45d_188d_81ff, 0xd_88ba, 1, 3, 3, 2, 0, 3, 0, 1);
    XorIsZero(0, 0);
    Shift(0x6c4_5d18_8d81_ff7e, 31, 0xd88_ba31, 0x6c4_5d18_8009_454f);
  }

  lemma Word3()
    ensures Mix(0xdaa6_6d2c_7ddf_743f) == 0x6c4_5d18_8009_454f
  {
    hide Times, Shifted;
    First3();
    Product(0xdaa6_6d2f_1746_c08e, FIRST, 0xf1c3_dd63_22d8_2c9e, 0xa36d_91ad_0460_0adc);
    Second3();
    Product(0xf1c3_dd7d_1aa3_80fa, SECOND, 0x6c4_5d18_8d81_ff7e, 0x8c89_f0d1_cf67_833e);
    Third3();
  }

  lemma First4()
    ensures Shifted(0x78dd_e6e5_fd29_f054, 30) == 0x78dd_e6e4_1e5e_6bc3
  {
    hide Shifted, Xor;
    XorByte(0x0, 0x0, 1, 3, 2, 0, 0, 0, 0, 0);
    XorByte(0x78, 0x0, 3, 1, 3, 1, 0, 0, 0, 0);
    XorByte(0x78dd, 0x0, 3, 2, 1, 2, 0, 0, 0, 0);
    XorByte(0x78_dde6, 0x0, 3, 2, 1, 1, 0, 0, 0, 1);
    XorByte(0x78dd_e6e5, 0x1, 3, 3, 3, 1, 3, 2, 0, 3);
    XorByte(0x78_dde6_e5fd, 0x1e3, 0, 2, 2, 1, 1, 3, 1, 3);
    XorByte(0x78dd_e6e5_fd29, 0x1_e377, 3, 3, 0, 0, 2, 1, 2, 3);
    XorByte(0x78_dde6_e5fd_29f0, 0x1e3_779b, 1, 1, 1, 0, 2, 1, 1, 3);
    XorIsZero(0, 0);
    Shift(0x78dd_e6e5_fd29_f054, 30, 0x1_e377_9b97, 0x78dd_e6e4_1e5e_6bc3);
  }

  lemma Second4()
    ensures Shifted(0x1482_40ec_b64d_4eeb, 27) == 0x1482_40ee_2605_537d
  {
    hide Shifted, Xor;
    XorByte(0x0, 0x0, 0, 1, 1, 0, 0, 0, 0, 0);
    XorByte(0x14, 0x0, 2, 0, 0, 2, 0, 0, 0, 0);
    XorByte(0x1482, 0x0, 1, 0, 0, 0, 0, 0, 0, 0);
    XorByte(0x14_8240, 0x0, 3, 2, 3, 0, 0, 0, 0, 2);
    XorByte(0x1482_40ec, 0x2, 2, 3, 1, 2, 2, 1, 0, 0);
    XorByte(0x14_8240_ecb6, 0x290, 1, 0, 3, 1, 1, 0, 2, 0);
    XorByte(0x1482_40ec_b64d, 0x2_9048, 1, 0, 3, 2, 0, 1, 3, 1);
    XorByte(0x14_8240_ecb6_4d4e, 0x290_481d, 3, 2, 2, 3, 2, 1, 1, 2);
    XorIsZero(0, 0);
    Shift(0x1482_40ec_b64d_4eeb, 27, 0x2_9048_1d96, 0x1482_40ee_2605_537d);
  }

  lemma Third4()
    ensures Shifted(0xf88b_b8a9_835b_f0bf, 31) == 0xf88b_b8a8_724c_81ec
  {
    hide Shifted, Xor;
    XorByte(0x0, 0x0, 3, 3, 2, 0, 0, 0, 0, 0);
    XorByte(0xf8, 0x0, 2, 0, 2, 3, 0, 0, 0, 0);
    XorByte(0xf88b, 0x0, 2, 3, 2, 0, 0, 0, 0, 0);
    XorByte(0xf8_8bb8, 0x0, 2, 2, 2, 1, 0, 0, 0, 1);
    XorByte(0xf88b_b8a9, 0x1, 2, 0, 0, 3, 3, 3, 0, 1);
    XorByte(0xf8_8bb8_a983, 0x1f1, 1, 1, 2, 3, 0, 1, 1, 3);
    XorByte(0xf88b_b8a9_835b, 0x1_f117, 3, 3, 0, 0, 1, 3, 0, 1);
    XorByte(0xf8_8bb8_a983_5bf0, 0x1f1_1771, 2, 3, 3, 3, 1, 1, 0, 3);
    XorIsZero(0, 0);
    Shift(0xf88b_b8a9_835b_f0bf, 31, 0x1_f117_7153, 0xf88b_b8a8_724c_81ec);
  }

  lemma Word4()
    ensures Mix(0x78dd_e6e5_fd29_f054) == 0xf88b_b8a8_724c_81ec
  {
    hide Times, Shifted;
    First4();
    Product(0x78dd_e6e4_1e5e_6bc3, FIRST, 0x1482_40ec_b64d_4eeb, 0x5a57_3d44_a03b_cdc1);
    Second4();
    Product(0x1482_40ee_2605_537d, SECOND, 0xf88b_b8a9_835b_f0bf, 0xbeb_fd46_90ac_e894);
    Third4();
  }

  /** The first four words for seed 0. */
  lemma GoldenWords()
    ensures Mix(StateAfter(0, 1)) == 0xe220_a839_7b1d_cdaf && Mix(StateAfter(0, 2)) == 0x6e78_9e6a_a1b9_65f4
    ensures Mix(StateAfter(0, 3)) == 0x6c4_5d18_8009_454f && Mix(StateAfter(0, 4)) == 0xf88b_b8a8_724c_81ec
  {
    hide Mix;
    Word1();
    Word2();
    Word3();
    Word4();
    assert StateAfter(0, 1) == 0x9e37_79b9_7f4a_7c15 && StateAfter(0, 2) == 0x3c6e_f372_fe94_f82a;
    assert StateAfter(0, 3) == 0xdaa6_6d2c_7ddf_743f && StateAfter(0, 4) == 0x78dd_e6e5_fd29_f054;
  }
}
