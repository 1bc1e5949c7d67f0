/** The constants of SHA-256 in libane/ane_sha256.c, as sections 4.2.2 and 5.3.3 of FIPS 180-4 define them:
    the fractional parts of the cube and square roots of the first primes. */
module Sha256Constants {
  import opened Sha256Block
  import opened Sha256

  // ---- the first sixty-four primes ----

  const PRIMES: seq<nat> :=
    [2, 3, 5, 7, 11, 13, 17, 19]
    + [23, 29, 31, 37, 41, 43, 47, 53]
    + [59, 61, 67, 71, 73, 79, 83, 89]
    + [97, 101, 103, 107, 109, 113, 127, 131]
    + [137, 139, 149, 151, 157, 163, 167, 173]
    + [179, 181, 191, 193, 197, 199, 211, 223]
    + [227, 229, 233, 239, 241, 251, 257, 263]
    + [269, 271, 277, 281, 283, 293, 307, 311]

  ghost predicate Prime(q: nat) { q >= 2 && forall d :: 2 <= d < q ==> q % d != 0 }

  /** No prime below 18 divides q, but q itself. */
  predicate Survives(q: nat) {
    && (q % 2 != 0 || q == 2) && (q % 3 != 0 || q == 3) && (q % 5 != 0 || q == 5) && (q % 7 != 0 || q == 7)
    && (q % 11 != 0 || q == 11) && (q % 13 != 0 || q == 13) && (q % 17 != 0 || q == 17)
  }

  lemma Multiple(p: nat, n: nat)
    requires p > 0
    ensures (p * n) % p == 0
  {
    var x := p * n;
    var q, r := x / p, x % p;
    Remainder(p, n, q, r);
  }

  lemma Remainder(p: nat, n: int, q: int, r: nat)
    requires r < p && p * n == p * q + r
    ensures r == 0
  {
    Distribute(p, n, q);
    if n > q {
      AtLeast(p, n - q);
    } else if n < q {
      AtLeast(p, q - n);
    }
  }

  lemma Distribute(p: int, n: int, q: int)
    ensures p * (n - q) == p * n - p * q == 0 - p * (q - n)
  {
  }

  lemma AtLeast(p: nat, k: nat)
    requires k >= 1
    ensures p * k >= p
  {
  }

  /** A divisor below 18 is a multiple of one of the seven primes. */
  lemma SmallDivisor(q: nat, d: nat, e: nat)
    requires 2 <= d < 18 && d < q && q == d * e
    ensures !Survives(q)
  {
    var p := if d % 2 == 0 then 2 else if d % 3 == 0 then 3 else if d == 5 then 5 else if d == 7 then 7
      else if d == 11 then 11 else if d == 13 then 13 else 17;
    var f := d / p;
    assert d == p * f;
    assert p * f * e == p * (f * e);
    Multiple(p, f * e);
  }

  /** Below 18 squared the seven primes decide. */
  lemma PrimeTest(q: nat)
    requires 2 <= q < 324
    ensures Survives(q) <==> Prime(q)
  {
    hide Survives;
    if Prime(q) {
      PrimeSurvives(q);
    } else {
      hide Prime;
      var d := Divisor(q);
      Divided(q, d);
    }
  }

  lemma PrimeSurvives(q: nat)
    requires Prime(q)
    ensures Survives(q)
  {
  }

  lemma Divisor(q: nat) returns (d: nat)
    requires q >= 2 && !Prime(q)
    ensures 2 <= d < q && q % d == 0
  {
    d :| 2 <= d < q && q % d == 0;
  }

  lemma Divided(q: nat, d: nat)
    requires 2 <= d < q < 324 && q % d == 0
    ensures !Survives(q)
  {
    hide Survives;
    var e := q / d;
    assert q == d * e;
    Cofactor(d, e);
    if d < 18 {
      SmallDivisor(q, d, e);
    } else {
      SmallDivisor(q, e, d);
    }
  }

  lemma Cofactor(d: nat, e: nat)
    requires 2 <= d < d * e < 324
    ensures 2 <= e < d * e && (d >= 18 ==> e < 18)
  {
    Grows(d, e, 1);
    Grows(e, 2, d);
    Grows(d, 18, e);
    Grows(18, 18, d);
  }

  lemma Grows(c: nat, a: nat, b: nat)
    ensures a <= b ==> c * a <= c * b
  {
  }

  /** b is the next number after a that survives. */
  predicate Follows(a: nat, b: nat) { a < b && Survives(b) && NoneSurvives(a + 1, b) }

  predicate NoneSurvives(lo: nat, hi: nat)
    decreases hi - lo
  {
    lo >= hi || (!Survives(lo) && NoneSurvives(lo + 1, hi))
  }

  lemma {:induction false} NoneBetween(lo: nat, hi: nat, q: nat)
    requires NoneSurvives(lo, hi) && lo <= q < hi
    ensures !Survives(q)
    decreases hi - lo
  {
    hide Survives;
    if lo < q {
      NoneBetween(lo + 1, hi, q);
    }
  }

  lemma Primes0()
    ensures PRIMES[0] == 2 && PRIMES[1] == 3 && PRIMES[2] == 5 && PRIMES[3] == 7
            && PRIMES[4] == 11 && PRIMES[5] == 13 && PRIMES[6] == 17 && PRIMES[7] == 19
  {
  }

  lemma Gaps0()
    ensures Follows(2, 3) && Follows(3, 5) && Follows(5, 7) && Follows(7, 11)
            && Follows(11, 13) && Follows(13, 17) && Follows(17, 19) && Follows(19, 23)
  {
  }

  lemma Primes1()
    ensures PRIMES[8] == 23 && PRIMES[9] == 29 && PRIMES[10] == 31 && PRIMES[11] == 37
            && PRIMES[12] == 41 && PRIMES[13] == 43 && PRIMES[14] == 47 && PRIMES[15] == 53
  {
  }

  lemma Gaps1()
    ensures Follows(23, 29) && Follows(29, 31) && Follows(31, 37) && Follows(37, 41)
            && Follows(41, 43) && Follows(43, 47) && Follows(47, 53) && Follows(53, 59)
  {
  }

  lemma Primes2()
    ensures PRIMES[16] == 59 && PRIMES[17] == 61 && PRIMES[18] == 67 && PRIMES[19] == 71
            && PRIMES[20] == 73 && PRIMES[21] == 79 && PRIMES[22] == 83 && PRIMES[23] == 89
  {
  }

  lemma Gaps2()
    ensures Follows(59, 61) && Follows(61, 67) && Follows(67, 71) && Follows(71, 73)
            && Follows(73, 79) && Follows(79, 83) && Follows(83, 89) && Follows(89, 97)
  {
  }

  lemma Primes3()
    ensures PRIMES[24] == 97 && PRIMES[25] == 101 && PRIMES[26] == 103 && PRIMES[27] == 107
            && PRIMES[28] == 109 && PRIMES[29] == 113 && PRIMES[30] == 127 && PRIMES[31] == 131
  {
  }

  lemma Gaps3()
    ensures Follows(97, 101) && Follows(101, 103) && Follows(103, 107) && Follows(107, 109)
            && Follows(109, 113) && Follows(113, 127) && Follows(127, 131) && Follows(131, 137)
  {
  }

  lemma Primes4()
    ensures PRIMES[32] == 137 && PRIMES[33] == 139 && PRIMES[34] == 149 && PRIMES[35] == 151
            && PRIMES[36] == 157 && PRIMES[37] == 163 && PRIMES[38] == 167 && PRIMES[39] == 173
  {
  }

  lemma Gaps4()
    ensures Follows(137, 139) && Follows(139, 149) && Follows(149, 151) && Follows(151, 157)
            && Follows(157, 163) && Follows(163, 167) && Follows(167, 173) && Follows(173, 179)
  {
  }

  lemma Primes5()
    ensures PRIMES[40] == 179 && PRIMES[41] == 181 && PRIMES[42] == 191 && PRIMES[43] == 193
            && PRIMES[44] == 197 && PRIMES[45] == 199 && PRIMES[46] == 211 && PRIMES[47] == 223
  {
  }

  lemma Gaps5()
    ensures Follows(179, 181) && Follows(181, 191) && Follows(191, 193) && Follows(193, 197)
            && Follows(197, 199) && Follows(199, 211) && Follows(211, 223) && Follows(223, 227)
  {
  }

  lemma Primes6()
    ensures PRIMES[48] == 227 && PRIMES[49] == 229 && PRIMES[50] == 233 && PRIMES[51] == 239
            && PRIMES[52] == 241 && PRIMES[53] == 251 && PRIMES[54] == 257 && PRIMES[55] == 263
  {
  }

  lemma Gaps6()
    ensures Follows(227, 229) && Follows(229, 233) && Follows(233, 239) && Follows(239, 241)
            && Follows(241, 251) && Follows(251, 257) && Follows(257, 263) && Follows(263, 269)
  {
  }

  lemma Primes7()
    ensures PRIMES[56] == 269 && PRIMES[57] == 271 && PRIMES[58] == 277 && PRIMES[59] == 281
            && PRIMES[60] == 283 && PRIMES[61] == 293 && PRIMES[62] == 307 && PRIMES[63] == 311
  {
  }

  lemma Gaps7()
    ensures Follows(269, 271) && Follows(271, 277) && Follows(277, 281) && Follows(281, 283)
            && Follows(283, 293) && Follows(293, 307) && Follows(307, 311)
  {
  }

  lemma Follow0(i: nat)
    requires 0 <= i < 8
    ensures |PRIMES| == 64 && Follows(PRIMES[i], PRIMES[i + 1])
  {
    assert |PRIMES| == 64;
    hide *;
    Primes0();
    Primes1();
    Gaps0();
  }

  lemma Follow1(i: nat)
    requires 8 <= i < 16
    ensures |PRIMES| == 64 && Follows(PRIMES[i], PRIMES[i + 1])
  {
    assert |PRIMES| == 64;
    hide *;
    Primes1();
    Primes2();
    Gaps1();
  }

  lemma Follow2(i: nat)
    requires 16 <= i < 24
    ensures |PRIMES| == 64 && Follows(PRIMES[i], PRIMES[i + 1])
  {
    assert |PRIMES| == 64;
    hide *;
    Primes2();
    Primes3();
    Gaps2();
  }

  lemma Follow3(i: nat)
    requires 24 <= i < 32
    ensures |PRIMES| == 64 && Follows(PRIMES[i], PRIMES[i + 1])
  {
    assert |PRIMES| == 64;
    hide *;
    Primes3();
    Primes4();
    Gaps3();
  }

  lemma Follow4(i: nat)
    requires 32 <= i < 40
    ensures |PRIMES| == 64 && Follows(PRIMES[i], PRIMES[i + 1])
  {
    assert |PRIMES| == 64;
    hide *;
    Primes4();
    Primes5();
    Gaps4();
  }

  lemma Follow5(i: nat)
    requires 40 <= i < 48
    ensures |PRIMES| == 64 && Follows(PRIMES[i], PRIMES[i + 1])
  {
    assert |PRIMES| == 64;
    hide *;
    Primes5();
    Primes6();
    Gaps5();
  }

  lemma Follow6(i: nat)
    requires 48 <= i < 56
    ensures |PRIMES| == 64 && Follows(PRIMES[i], PRIMES[i + 1])
  {
    assert |PRIMES| == 64;
    hide *;
    Primes6();
    Primes7();
    Gaps6();
  }

  lemma Follow7(i: nat)
    requires 56 <= i < 63
    ensures |PRIMES| == 64 && Follows(PRIMES[i], PRIMES[i + 1])
  {
    assert |PRIMES| == 64;
    hide *;
    Primes7();
    Gaps7();
  }

  lemma Listed(i: nat)
    requires i < 63
    ensures |PRIMES| == 64 && Follows(PRIMES[i], PRIMES[i + 1])
  {
    assert |PRIMES| == 64;
    hide *;
    match i / 8 {
      case 0 => Follow0(i);
      case 1 => Follow1(i);
      case 2 => Follow2(i);
      case 3 => Follow3(i);
      case 4 => Follow4(i);
      case 5 => Follow5(i);
      case 6 => Follow6(i);
      case _ => Follow7(i);
    }
  }

  lemma AllFollow(i: nat)
    requires i < 63
    ensures |PRIMES| == 64 && PRIMES[i] < PRIMES[i + 1] && Survives(PRIMES[i + 1])
    ensures forall q :: PRIMES[i] < q < PRIMES[i + 1] ==> !Survives(q)
  {
    Listed(i);
    hide Survives, PRIMES, NoneSurvives;
    forall q | PRIMES[i] < q < PRIMES[i + 1]
      ensures !Survives(q)
    {
      NoneBetween(PRIMES[i] + 1, PRIMES[i + 1], q);
    }
  }

  lemma Ends()
    ensures |PRIMES| == 64 && PRIMES[0] == 2 && PRIMES[63] == 311
  {
  }

  lemma {:induction false} Ascending(i: nat, j: nat)
    requires i < j < 64
    ensures PRIMES[i] < PRIMES[j]
  {
    hide PRIMES;
    AllFollow(j - 1);
    if i < j - 1 {
      Ascending(i, j - 1);
    }
  }

  /** What survives up to the last prime is in the list. */
  lemma {:induction false} Found(q: nat, i: nat) returns (k: nat)
    requires i < 64 && PRIMES[i] <= q <= 311 && Survives(q)
    ensures k < 64 && PRIMES[k] == q
    decreases 64 - i
  {
    Ends();
    hide PRIMES, Survives;
    if i == 63 || PRIMES[i] == q {
      k := i;
    } else {
      AllFollow(i);
      k := Found(q, i + 1);
    }
  }

  lemma ListedSurvive(i: nat)
    requires i < 64
    ensures 2 <= PRIMES[i] <= 311 && Survives(PRIMES[i])
  {
    Ends();
    assert Survives(2);
    hide PRIMES, Survives;
    if i > 0 {
      AllFollow(i - 1);
      Ascending(0, i);
    }
    if i < 63 {
      Ascending(i, 63);
    }
  }

  /** THE FIRST PRIMES. The sixty-four numbers are all the primes below 312, in order. */
  lemma FirstPrimes()
    ensures |PRIMES| == 64 && forall q :: q in PRIMES <==> q < 312 && Prime(q)
    ensures forall i, j :: 0 <= i < j < 64 ==> PRIMES[i] < PRIMES[j]
  {
    Ends();
    hide PRIMES, Survives, Prime;
    forall q
      ensures q in PRIMES <==> q < 312 && Prime(q)
    {
      if q in PRIMES {
        var i :| 0 <= i < 64 && PRIMES[i] == q;
        ListedSurvive(i);
        PrimeTest(q);
      } else if q < 312 && Prime(q) {
        PrimeLarge(q);
        PrimeTest(q);
        var k := Found(q, 0);
      }
    }
    forall i, j | 0 <= i < j < 64
      ensures PRIMES[i] < PRIMES[j]
    {
      Ascending(i, j);
    }
  }

  lemma PrimeLarge(q: nat)
    requires Prime(q)
    ensures q >= 2
  {
  }

  // ---- roots ----

  const TWO32: nat := 0x1_0000_0000

  /** n is the whole part of 2^32 times the cube root of p. */
  ghost predicate CubeRoot(n: nat, p: nat) {
    n * n * n <= p * (TWO32 * TWO32 * TWO32) < (n + 1) * (n + 1) * (n + 1)
  }

  ghost predicate SquareRoot(n: nat, p: nat) { n * n <= p * (TWO32 * TWO32) < (n + 1) * (n + 1) }

  /** The word holds the first 32 bits of the fractional part of the cube root of p. */
  ghost predicate CubeBits(p: nat, k: Word) { exists n: nat :: CubeRoot(n, p) && n % TWO32 == k as int }

  ghost predicate SquareBits(p: nat, k: Word) { exists n: nat :: SquareRoot(n, p) && n % TWO32 == k as int }

  lemma Cube(p: nat, k: Word, n: nat)
    requires CubeRoot(n, p) && n % TWO32 == k as int
    ensures CubeBits(p, k)
  {
  }

  lemma Square(p: nat, k: Word, n: nat)
    requires SquareRoot(n, p) && n % TWO32 == k as int
    ensures SquareBits(p, k)
  {
  }

  predicate Row(w: seq<Word>, i: nat, a: Word, b: Word, c: Word, d: Word, e: Word, f: Word, g: Word, h: Word)
    requires i + 8 <= |w|
  {
    && w[i] == a && w[i + 1] == b && w[i + 2] == c && w[i + 3] == d
    && w[i + 4] == e && w[i + 5] == f && w[i + 6] == g && w[i + 7] == h
  }

  lemma Row0()
    ensures Row(K, 0, 0x428a_2f98, 0x7137_4491, 0xb5c0_fbcf, 0xe9b5_dba5,
      0x3956_c25b, 0x59f1_11f1, 0x923f_82a4, 0xab1c_5ed5)
  {
  }

  lemma Cubes0()
    ensures forall t :: 0 <= t < 8 ==> CubeBits(PRIMES[t], K[t])
  {
    Row0();
    Primes0();
    hide CubeBits, K, PRIMES;
    Cube(2, 0x428a_2f98, 0x1_428a_2f98);
    Cube(3, 0x7137_4491, 0x1_7137_4491);
    Cube(5, 0xb5c0_fbcf, 0x1_b5c0_fbcf);
    Cube(7, 0xe9b5_dba5, 0x1_e9b5_dba5);
    Cube(11, 0x3956_c25b, 0x2_3956_c25b);
    Cube(13, 0x59f1_11f1, 0x2_59f1_11f1);
    Cube(17, 0x923f_82a4, 0x2_923f_82a4);
    Cube(19, 0xab1c_5ed5, 0x2_ab1c_5ed5);
  }

  lemma Row1()
    ensures Row(K, 8, 0xd807_aa98, 0x1283_5b01, 0x2431_85be, 0x550c_7dc3,
      0x72be_5d74, 0x80de_b1fe, 0x9bdc_06a7, 0xc19b_f174)
  {
  }

  lemma Cubes1()
    ensures forall t :: 8 <= t < 16 ==> CubeBits(PRIMES[t], K[t])
  {
    Row1();
    Primes1();
    hide CubeBits, K, PRIMES;
    Cube(23, 0xd807_aa98, 0x2_d807_aa98);
    Cube(29, 0x1283_5b01, 0x3_1283_5b01);
    Cube(31, 0x2431_85be, 0x3_2431_85be);
    Cube(37, 0x550c_7dc3, 0x3_550c_7dc3);
    Cube(41, 0x72be_5d74, 0x3_72be_5d74);
    Cube(43, 0x80de_b1fe, 0x3_80de_b1fe);
    Cube(47, 0x9bdc_06a7, 0x3_9bdc_06a7);
    Cube(53, 0xc19b_f174, 0x3_c19b_f174);
  }

  lemma Row2()
    ensures Row(K, 16, 0xe49b_69c1, 0xefbe_4786, 0x0fc1_9dc6, 0x240c_a1cc,
      0x2de9_2c6f, 0x4a74_84aa, 0x5cb0_a9dc, 0x76f9_88da)
  {
  }

  lemma Cubes2()
    ensures forall t :: 16 <= t < 24 ==> CubeBits(PRIMES[t], K[t])
  {
    Row2();
    Primes2();
    hide CubeBits, K, PRIMES;
    Cube(59, 0xe49b_69c1, 0x3_e49b_69c1);
    Cube(61, 0xefbe_4786, 0x3_efbe_4786);
    Cube(67, 0x0fc1_9dc6, 0x4_0fc1_9dc6);
    Cube(71, 0x240c_a1cc, 0x4_240c_a1cc);
    Cube(73, 0x2de9_2c6f, 0x4_2de9_2c6f);
    Cube(79, 0x4a74_84aa, 0x4_4a74_84aa);
    Cube(83, 0x5cb0_a9dc, 0x4_5cb0_a9dc);
    Cube(89, 0x76f9_88da, 0x4_76f9_88da);
  }

  lemma Row3()
    ensures Row(K, 24, 0x983e_5152, 0xa831_c66d, 0xb003_27c8, 0xbf59_7fc7,
      0xc6e0_0bf3, 0xd5a7_9147, 0x06ca_6351, 0x1429_2967)
  {
  }

  lemma Cubes3()
    ensures forall t :: 24 <= t < 32 ==> CubeBits(PRIMES[t], K[t])
  {
    Row3();
    Primes3();
    hide CubeBits, K, PRIMES;
    Cube(97, 0x983e_5152, 0x4_983e_5152);
    Cube(101, 0xa831_c66d, 0x4_a831_c66d);
    Cube(103, 0xb003_27c8, 0x4_b003_27c8);
    Cube(107, 0xbf59_7fc7, 0x4_bf59_7fc7);
    Cube(109, 0xc6e0_0bf3, 0x4_c6e0_0bf3);
    Cube(113, 0xd5a7_9147, 0x4_d5a7_9147);
    Cube(127, 0x06ca_6351, 0x5_06ca_6351);
    Cube(131, 0x1429_2967, 0x5_1429_2967);
  }

  lemma Row4()
    ensures Row(K, 32, 0x27b7_0a85, 0x2e1b_2138, 0x4d2c_6dfc, 0x5338_0d13,
      0x650a_7354, 0x766a_0abb, 0x81c2_c92e, 0x9272_2c85)
  {
  }

  lemma Cubes4()
    ensures forall t :: 32 <= t < 40 ==> CubeBits(PRIMES[t], K[t])
  {
    Row4();
    Primes4();
    hide CubeBits, K, PRIMES;
    Cube(137, 0x27b7_0a85, 0x5_27b7_0a85);
    Cube(139, 0x2e1b_2138, 0x5_2e1b_2138);
    Cube(149, 0x4d2c_6dfc, 0x5_4d2c_6dfc);
    Cube(151, 0x5338_0d13, 0x5_5338_0d13);
    Cube(157, 0x650a_7354, 0x5_650a_7354);
    Cube(163, 0x766a_0abb, 0x5_766a_0abb);
    Cube(167, 0x81c2_c92e, 0x5_81c2_c92e);
    Cube(173, 0x9272_2c85, 0x5_9272_2c85);
  }

  lemma Row5()
    ensures Row(K, 40, 0xa2bf_e8a1, 0xa81a_664b, 0xc24b_8b70, 0xc76c_51a3,
      0xd192_e819, 0xd699_0624, 0xf40e_3585, 0x106a_a070)
  {
  }

  lemma Cubes5()
    ensures forall t :: 40 <= t < 48 ==> CubeBits(PRIMES[t], K[t])
  {
    Row5();
    Primes5();
    hide CubeBits, K, PRIMES;
    Cube(179, 0xa2bf_e8a1, 0x5_a2bf_e8a1);
    Cube(181, 0xa81a_664b, 0x5_a81a_664b);
    Cube(191, 0xc24b_8b70, 0x5_c24b_8b70);
    Cube(193, 0xc76c_51a3, 0x5_c76c_51a3);
    Cube(197, 0xd192_e819, 0x5_d192_e819);
    Cube(199, 0xd699_0624, 0x5_d699_0624);
    Cube(211, 0xf40e_3585, 0x5_f40e_3585);
    Cube(223, 0x106a_a070, 0x6_106a_a070);
  }

  lemma Row6()
    ensures Row(K, 48, 0x19a4_c116, 0x1e37_6c08, 0x2748_774c, 0x34b0_bcb5,
      0x391c_0cb3, 0x4ed8_aa4a, 0x5b9c_ca4f, 0x682e_6ff3)
  {
  }

  lemma Cubes6()
    ensures forall t :: 48 <= t < 56 ==> CubeBits(PRIMES[t], K[t])
  {
    Row6();
    Primes6();
    hide CubeBits, K, PRIMES;
    Cube(227, 0x19a4_c116, 0x6_19a4_c116);
    Cube(229, 0x1e37_6c08, 0x6_1e37_6c08);
    Cube(233, 0x2748_774c, 0x6_2748_774c);
    Cube(239, 0x34b0_bcb5, 0x6_34b0_bcb5);
    Cube(241, 0x391c_0cb3, 0x6_391c_0cb3);
    Cube(251, 0x4ed8_aa4a, 0x6_4ed8_aa4a);
    Cube(257, 0x5b9c_ca4f, 0x6_5b9c_ca4f);
    Cube(263, 0x682e_6ff3, 0x6_682e_6ff3);
  }

  lemma Row7()
    ensures Row(K, 56, 0x748f_82ee, 0x78a5_636f, 0x84c8_7814, 0x8cc7_0208,
      0x90be_fffa, 0xa450_6ceb, 0xbef9_a3f7, 0xc671_78f2)
  {
  }

  lemma Cubes7()
    ensures forall t :: 56 <= t < 64 ==> CubeBits(PRIMES[t], K[t])
  {
    Row7();
    Primes7();
    hide CubeBits, K, PRIMES;
    Cube(269, 0x748f_82ee, 0x6_748f_82ee);
    Cube(271, 0x78a5_636f, 0x6_78a5_636f);
    Cube(277, 0x84c8_7814, 0x6_84c8_7814);
    Cube(281, 0x8cc7_0208, 0x6_8cc7_0208);
    Cube(283, 0x90be_fffa, 0x6_90be_fffa);
    Cube(293, 0xa450_6ceb, 0x6_a450_6ceb);
    Cube(307, 0xbef9_a3f7, 0x6_bef9_a3f7);
    Cube(311, 0xc671_78f2, 0x6_c671_78f2);
  }

  /** THE ROUND CONSTANTS. Word t holds the first 32 bits of the fractional part of the cube root of the t-th
      prime: section 4.2.2 of FIPS 180-4. */
  lemma RoundConstants(t: nat)
    requires t < 64
    ensures |K| == |PRIMES| == 64 && CubeBits(PRIMES[t], K[t])
  {
    hide CubeBits;
    Cubes0();
    Cubes1();
    Cubes2();
    Cubes3();
    Cubes4();
    Cubes5();
    Cubes6();
    Cubes7();
  }

  /** THE INITIAL VALUE. The eight words hold the first 32 bits of the fractional parts of the square roots of
      the first eight primes: section 5.3.3 of FIPS 180-4. */
  lemma InitialValue(t: nat)
    requires t < 8
    ensures SquareBits(PRIMES[t], HashWord(INITIAL, t))
  {
    Primes0();
    hide PRIMES, SquareBits;
    Square(2, 0x6a09_e667, 0x1_6a09_e667);
    Square(3, 0xbb67_ae85, 0x1_bb67_ae85);
    Square(5, 0x3c6e_f372, 0x2_3c6e_f372);
    Square(7, 0xa54f_f53a, 0x2_a54f_f53a);
    Square(11, 0x510e_527f, 0x3_510e_527f);
    Square(13, 0x9b05_688c, 0x3_9b05_688c);
    Square(17, 0x1f83_d9ab, 0x4_1f83_d9ab);
    Square(19, 0x5be0_cd19, 0x4_5be0_cd19);
  }
}
