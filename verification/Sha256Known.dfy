/** The SHA-256 of libane/ane_sha256.c on the message "abc", the example of FIPS 180-4, round by round. */
module Sha256Known {
  import opened Basics
  import opened Sha256Block
  import opened Sha256
  import opened Sha256Constants

  const ABC: seq<byte> := [0x61, 0x62, 0x63]

  // ---- the message schedule ----

  /** Words 16 to 63 follow from the words before them. */
  predicate Grown(w: seq<Word>, t: nat)
    requires 16 <= t < |w|
  {
    w[t] == Add(Add(Add(w[t - 16], SmallSigma0(w[t - 15])), w[t - 7]), SmallSigma1(w[t - 2]))
  }

  ghost predicate Grows(w: seq<Word>) { |w| == 64 && forall t :: 16 <= t < 64 ==> Grown(w, t) }

  predicate Words0(w: seq<Word>)
    requires |w| == 64
  {
    Row(w, 0, 0x6162_6380, 0x0000_0000, 0x0000_0000, 0x0000_0000,
      0x0000_0000, 0x0000_0000, 0x0000_0000, 0x0000_0000)
  }

  predicate Words1(w: seq<Word>)
    requires |w| == 64
  {
    Row(w, 8, 0x0000_0000, 0x0000_0000, 0x0000_0000, 0x0000_0000,
      0x0000_0000, 0x0000_0000, 0x0000_0000, 0x0000_0018)
  }

  predicate Words2(w: seq<Word>)
    requires |w| == 64
  {
    Row(w, 16, 0x6162_6380, 0x000f_0000, 0x7da8_6405, 0x6000_03c6,
      0x3e9d_7b78, 0x0183_fc00, 0x12dc_bfdb, 0xe2e2_c38e)
  }

  predicate Words3(w: seq<Word>)
    requires |w| == 64
  {
    Row(w, 24, 0xc821_5c1a, 0xb736_79a2, 0xe5bc_3909, 0x3266_3c5b,
      0x9d20_9d67, 0xec87_26cb, 0x7021_38a4, 0xd3b7_973b)
  }

  predicate Words4(w: seq<Word>)
    requires |w| == 64
  {
    Row(w, 32, 0x93f5_997f, 0x3b68_ba73, 0xaff4_ffc1, 0xf10a_5c62,
      0x0a8b_3996, 0x72af_830a, 0x9409_e33e, 0x2464_1522)
  }

  predicate Words5(w: seq<Word>)
    requires |w| == 64
  {
    Row(w, 40, 0x9f47_bf94, 0xf0a6_4f5a, 0x3e24_6a79, 0x2733_3ba3,
      0x0c47_63f2, 0x840a_bf27, 0x7a29_0d5d, 0x065c_43da)
  }

  predicate Words6(w: seq<Word>)
    requires |w| == 64
  {
    Row(w, 48, 0xfb3e_89cb, 0xcc76_17db, 0xb9e6_6c34, 0xa999_3667,
      0x84ba_dedd, 0xc214_62bc, 0x1487_472c, 0xb20f_7a99)
  }

  predicate Words7(w: seq<Word>)
    requires |w| == 64
  {
    Row(w, 56, 0xef57_b9cd, 0xebe6_b238, 0x9fe3_095e, 0x78bc_8d4b,
      0xa43f_cf15, 0x668b_2ff8, 0xeeab_a2cc, 0x12b1_edeb)
  }

  lemma Grow2(w: seq<Word>)
    requires Grows(w) && Words0(w) && Words1(w)
    ensures Words2(w)
  {
    assert Grown(w, 16) && Grown(w, 17) && Grown(w, 18) && Grown(w, 19)
           && Grown(w, 20) && Grown(w, 21) && Grown(w, 22) && Grown(w, 23);
  }

  lemma Grow3(w: seq<Word>)
    requires Grows(w) && Words1(w) && Words2(w)
    ensures Words3(w)
  {
    assert Grown(w, 24) && Grown(w, 25) && Grown(w, 26) && Grown(w, 27)
           && Grown(w, 28) && Grown(w, 29) && Grown(w, 30) && Grown(w, 31);
  }

  lemma Grow4(w: seq<Word>)
    requires Grows(w) && Words2(w) && Words3(w)
    ensures Words4(w)
  {
    assert Grown(w, 32) && Grown(w, 33) && Grown(w, 34) && Grown(w, 35)
           && Grown(w, 36) && Grown(w, 37) && Grown(w, 38) && Grown(w, 39);
  }

  lemma Grow5(w: seq<Word>)
    requires Grows(w) && Words3(w) && Words4(w)
    ensures Words5(w)
  {
    assert Grown(w, 40) && Grown(w, 41) && Grown(w, 42) && Grown(w, 43)
           && Grown(w, 44) && Grown(w, 45) && Grown(w, 46) && Grown(w, 47);
  }

  lemma Grow6(w: seq<Word>)
    requires Grows(w) && Words4(w) && Words5(w)
    ensures Words6(w)
  {
    assert Grown(w, 48) && Grown(w, 49) && Grown(w, 50) && Grown(w, 51)
           && Grown(w, 52) && Grown(w, 53) && Grown(w, 54) && Grown(w, 55);
  }

  lemma Grow7(w: seq<Word>)
    requires Grows(w) && Words5(w) && Words6(w)
    ensures Words7(w)
  {
    assert Grown(w, 56) && Grown(w, 57) && Grown(w, 58) && Grown(w, 59)
           && Grown(w, 60) && Grown(w, 61) && Grown(w, 62) && Grown(w, 63);
  }

  // ---- the rounds ----

  /** The working variables after a round with new a and e. */
  function Turn(v: Vars, a: Word, e: Word): Vars { Vars(a, v.a, v.b, v.c, e, v.e, v.f, v.g) }

  lemma Next(w: seq<Word>, n: nat, v: Vars, a: Word, e: Word) returns (u: Vars)
    requires |w| == 64 && n < 64 && Rounds(INITIAL, w, n) == v && Round(v, K[n], w[n]) == Turn(v, a, e)
    ensures u == Turn(v, a, e) && Rounds(INITIAL, w, n + 1) == u
  {
    hide Round, Turn;
    u := Turn(v, a, e);
  }

  const AT8 := Vars(0x85a0_7b5f, 0xe503_0380, 0x2b42_09f5, 0x0440_9a6a,
    0x0c65_7a79, 0x9b27_a401, 0x7142_60ad, 0x43ad_a245)
  const AT16 := Vars(0xb0fa_238e, 0xc064_5fde, 0xd932_eb16, 0x8791_2990,
    0x0759_0dcd, 0x0b92_f20c, 0x745a_48de, 0x1e57_8218)
  const AT24 := Vars(0xc5d5_3d8d, 0xa7a3_623f, 0xc260_6d6d, 0x9dc6_8b63,
    0xaa47_c347, 0x49f5_114a, 0xe125_7970, 0x8ada_8930)
  const AT32 := Vars(0x73b3_3bf5, 0xea99_2a22, 0xa006_0b30, 0x3634_82c9,
    0xba59_1112, 0x0109_ab3a, 0xade7_9437, 0x6112_a3b7)
  const AT40 := Vars(0x79ea_687a, 0x6dc5_7a8a, 0x34df_1604, 0x41a6_5cb1,
    0x1efb_c0a0, 0xf078_1bc8, 0xa507_a53d, 0x0772_a26b)
  const AT48 := Vars(0x4172_328d, 0xa14c_14b0, 0x72ab_4b91, 0x2662_8815,
    0xfecf_0bc6, 0xd57b_94a9, 0xb775_5da1, 0xa80f_11f0)
  const AT56 := Vars(0x38cc_9913, 0x3ec4_5cdb, 0xf570_2fdb, 0x101f_d28f,
    0x54cb_266b, 0xe50e_1b4f, 0x9f47_87c3, 0x529e_7d00)
  const AT64 := Vars(0x506e_3058, 0xd39a_2165, 0x04d2_4d6c, 0xb85e_2ce9,
    0x5ef5_0f24, 0xfb12_1210, 0x948d_25b6, 0x961f_4894)

  lemma Turns0(w: seq<Word>)
    requires |w| == 64 && Words0(w)
    ensures Rounds(INITIAL, w, 8) == AT8
  {
    assert Rounds(INITIAL, w, 0) == INITIAL;
    Row0();
    hide Rounds, K;
    var v := INITIAL;
    v := Next(w, 0, v, 0x5d6a_ebcd, 0xfa2a_4622);
    v := Next(w, 1, v, 0x5a6a_d9ad, 0x78ce_7989);
    v := Next(w, 2, v, 0xc8c3_47a7, 0xf929_39eb);
    v := Next(w, 3, v, 0xd550_f666, 0x24e0_0850);
    v := Next(w, 4, v, 0x0440_9a6a, 0x43ad_a245);
    v := Next(w, 5, v, 0x2b42_09f5, 0x7142_60ad);
    v := Next(w, 6, v, 0xe503_0380, 0x9b27_a401);
    v := Next(w, 7, v, 0x85a0_7b5f, 0x0c65_7a79);
  }

  lemma Turns1(w: seq<Word>)
    requires |w| == 64 && Words1(w) && Rounds(INITIAL, w, 8) == AT8
    ensures Rounds(INITIAL, w, 16) == AT16
  {
    Row1();
    hide Rounds, K;
    var v := AT8;
    v := Next(w, 8, v, 0x8e04_ecb9, 0x32ca_2d8c);
    v := Next(w, 9, v, 0x8c87_346b, 0x1cc9_2596);
    v := Next(w, 10, v, 0x4798_a3f4, 0x436b_23e8);
    v := Next(w, 11, v, 0xf71f_c5a9, 0x816f_d6e9);
    v := Next(w, 12, v, 0x8791_2990, 0x1e57_8218);
    v := Next(w, 13, v, 0xd932_eb16, 0x745a_48de);
    v := Next(w, 14, v, 0xc064_5fde, 0x0b92_f20c);
    v := Next(w, 15, v, 0xb0fa_238e, 0x0759_0dcd);
  }

  lemma Turns2(w: seq<Word>)
    requires |w| == 64 && Words2(w) && Rounds(INITIAL, w, 16) == AT16
    ensures Rounds(INITIAL, w, 24) == AT24
  {
    Row2();
    hide Rounds, K;
    var v := AT16;
    v := Next(w, 16, v, 0x21da_9a9b, 0x8034_229c);
    v := Next(w, 17, v, 0xc2fb_d9d1, 0x846e_e454);
    v := Next(w, 18, v, 0xfe77_7bbf, 0xcc89_9961);
    v := Next(w, 19, v, 0xe1f2_0c33, 0xb063_8179);
    v := Next(w, 20, v, 0x9dc6_8b63, 0x8ada_8930);
    v := Next(w, 21, v, 0xc260_6d6d, 0xe125_7970);
    v := Next(w, 22, v, 0xa7a3_623f, 0x49f5_114a);
    v := Next(w, 23, v, 0xc5d5_3d8d, 0xaa47_c347);
  }

  lemma Turns3(w: seq<Word>)
    requires |w| == 64 && Words3(w) && Rounds(INITIAL, w, 24) == AT24
    ensures Rounds(INITIAL, w, 32) == AT32
  {
    Row3();
    hide Rounds, K;
    var v := AT24;
    v := Next(w, 24, v, 0x1c2c_2838, 0x2823_ef91);
    v := Next(w, 25, v, 0xcde8_037d, 0x1438_3d8e);
    v := Next(w, 26, v, 0xb62e_c4bc, 0xc74c_6516);
    v := Next(w, 27, v, 0x77d3_7528, 0xedff_bff8);
    v := Next(w, 28, v, 0x3634_82c9, 0x6112_a3b7);
    v := Next(w, 29, v, 0xa006_0b30, 0xade7_9437);
    v := Next(w, 30, v, 0xea99_2a22, 0x0109_ab3a);
    v := Next(w, 31, v, 0x73b3_3bf5, 0xba59_1112);
  }

  lemma Turns4(w: seq<Word>)
    requires |w| == 64 && Words4(w) && Rounds(INITIAL, w, 32) == AT32
    ensures Rounds(INITIAL, w, 40) == AT40
  {
    Row4();
    hide Rounds, K;
    var v := AT32;
    v := Next(w, 32, v, 0x98e1_2507, 0x9cd9_f5f6);
    v := Next(w, 33, v, 0xfe60_4df5, 0x5924_9dd3);
    v := Next(w, 34, v, 0xa9a7_738c, 0x085f_3833);
    v := Next(w, 35, v, 0x65a0_cfe4, 0xf4b0_02d6);
    v := Next(w, 36, v, 0x41a6_5cb1, 0x0772_a26b);
    v := Next(w, 37, v, 0x34df_1604, 0xa507_a53d);
    v := Next(w, 38, v, 0x6dc5_7a8a, 0xf078_1bc8);
    v := Next(w, 39, v, 0x79ea_687a, 0x1efb_c0a0);
  }

  lemma Turns5(w: seq<Word>)
    requires |w| == 64 && Words5(w) && Rounds(INITIAL, w, 40) == AT40
    ensures Rounds(INITIAL, w, 48) == AT48
  {
    Row5();
    hide Rounds, K;
    var v := AT40;
    v := Next(w, 40, v, 0xd667_0766, 0x2635_2d63);
    v := Next(w, 41, v, 0xdf46_652f, 0x838b_2711);
    v := Next(w, 42, v, 0x17aa_0dfe, 0xdecd_4715);
    v := Next(w, 43, v, 0x9d4b_af93, 0xfda2_4c2e);
    v := Next(w, 44, v, 0x2662_8815, 0xa80f_11f0);
    v := Next(w, 45, v, 0x72ab_4b91, 0xb775_5da1);
    v := Next(w, 46, v, 0xa14c_14b0, 0xd57b_94a9);
    v := Next(w, 47, v, 0x4172_328d, 0xfecf_0bc6);
  }

  lemma Turns6(w: seq<Word>)
    requires |w| == 64 && Words6(w) && Rounds(INITIAL, w, 48) == AT48
    ensures Rounds(INITIAL, w, 56) == AT56
  {
    Row6();
    hide Rounds, K;
    var v := AT48;
    v := Next(w, 48, v, 0x0575_7ceb, 0xbd71_4038);
    v := Next(w, 49, v, 0xf11b_faa8, 0x6e5c_390c);
    v := Next(w, 50, v, 0x7a05_08a1, 0x52f1_ccf7);
    v := Next(w, 51, v, 0x886e_7a22, 0x4923_1c1e);
    v := Next(w, 52, v, 0x101f_d28f, 0x529e_7d00);
    v := Next(w, 53, v, 0xf570_2fdb, 0x9f47_87c3);
    v := Next(w, 54, v, 0x3ec4_5cdb, 0xe50e_1b4f);
    v := Next(w, 55, v, 0x38cc_9913, 0x54cb_266b);
  }

  lemma Turns7(w: seq<Word>)
    requires |w| == 64 && Words7(w) && Rounds(INITIAL, w, 56) == AT56
    ensures Rounds(INITIAL, w, 64) == AT64
  {
    Row7();
    hide Rounds, K;
    var v := AT56;
    v := Next(w, 56, v, 0xfcd1_887b, 0x9b5e_906c);
    v := Next(w, 57, v, 0xc062_d46f, 0x7e44_008e);
    v := Next(w, 58, v, 0xffb7_0472, 0x6d83_bfc6);
    v := Next(w, 59, v, 0xb6ae_8fff, 0xb21b_ad3d);
    v := Next(w, 60, v, 0xb85e_2ce9, 0x961f_4894);
    v := Next(w, 61, v, 0x04d2_4d6c, 0x948d_25b6);
    v := Next(w, 62, v, 0xd39a_2165, 0xfb12_1210);
    v := Next(w, 63, v, 0x506e_3058, 0x5ef5_0f24);
  }

  lemma AllTurns(w: seq<Word>)
    requires Grows(w) && Words0(w) && Words1(w)
    ensures Rounds(INITIAL, w, 64) == AT64
  {
    assert |w| == 64;
    hide Rounds, Grows, Words0, Words1, Words2, Words3, Words4, Words5, Words6, Words7;
    Grow2(w);
    Grow3(w);
    Grow4(w);
    Grow5(w);
    Grow6(w);
    Grow7(w);
    Turns0(w);
    Turns1(w);
    Turns2(w);
    Turns3(w);
    Turns4(w);
    Turns5(w);
    Turns6(w);
    Turns7(w);
  }

  // ---- the block ----

  lemma {:induction false} SchedulePrefix(p: Chunk, n: nat, m: nat)
    requires n <= m <= 64
    ensures Schedule(p, m)[..n] == Schedule(p, n)
  {
    hide BigEndian, Expand;
    if n < m {
      SchedulePrefix(p, n, m - 1);
    }
  }

  lemma ScheduleAt(p: Chunk, t: nat)
    requires t < 64
    ensures var w := Schedule(p, 64);
            w[t] == if t < 16 then BigEndian(p, 4 * t) else
              Add(Add(Add(w[t - 16], SmallSigma0(w[t - 15])), w[t - 7]), SmallSigma1(w[t - 2]))
  {
    hide BigEndian, SmallSigma0, SmallSigma1, Add;
    var w := Schedule(p, 64);
    SchedulePrefix(p, t + 1, 64);
    SchedulePrefix(p, t, 64);
    assert w[..t + 1][t] == w[t];
    assert t >= 16 ==> w[..t][t - 16] == w[t - 16] && w[..t][t - 15] == w[t - 15] && w[..t][t - 7] == w[t - 7]
                       && w[..t][t - 2] == w[t - 2];
  }

  /** The padded message: "abc", a one bit, zeros, and the length of 24 bits. */
  predicate IsAbc(p: Chunk) {
    && p[0] == 0x61 && p[1] == 0x62 && p[2] == 0x63 && p[3] == 0x80 && p[63] == 24
    && forall i :: 4 <= i < 63 ==> p[i] == 0
  }

  lemma FirstWord(p: Chunk)
    requires IsAbc(p)
    ensures BigEndian(p, 0) == 0x6162_6380
  {
    assert 0x61 as Word << 24 == 0x6100_0000 && 0x62 as Word << 16 == 0x62_0000 && 0x63 as Word << 8 == 0x6300;
  }

  lemma LastWord(p: Chunk)
    requires IsAbc(p)
    ensures BigEndian(p, 60) == 24
  {
  }

  lemma ZeroWord(p: Chunk, i: nat)
    requires IsAbc(p) && 4 <= i <= 56
    ensures BigEndian(p, i) == 0
  {
    assert p[i] == p[i + 1] == p[i + 2] == p[i + 3] == 0;
  }

  lemma AbcWords(p: Chunk)
    requires IsAbc(p)
    ensures var w := Schedule(p, 64); Grows(w) && Words0(w) && Words1(w)
  {
    hide BigEndian, SmallSigma0, SmallSigma1, Add, Schedule, IsAbc;
    var w := Schedule(p, 64);
    forall t | 0 <= t < 64
      ensures t >= 16 ==> Grown(w, t)
      ensures t < 16 ==> w[t] == BigEndian(p, 4 * t)
    {
      ScheduleAt(p, t);
    }
    FirstWord(p);
    LastWord(p);
    forall t | 1 <= t < 15
      ensures w[t] == 0
    {
      ZeroWord(p, 4 * t);
    }
  }

  lemma AbcPadded()
    ensures |Padded(ABC)| == 64 && IsAbc(Padded(ABC))
  {
    assert PadZeros(3) == 52;
    AbcLength();
  }

  lemma AbcLength()
    ensures LengthBytes(24, 8) == [0, 0, 0, 0, 0, 0, 0, 24]
  {
  }

  lemma AbcBlock(p: Chunk)
    requires IsAbc(p)
    ensures Compress(INITIAL, p) == Vars(0xba78_16bf, 0x8f01_cfea, 0x4141_40de, 0x5dae_2223,
      0xb003_61a3, 0x9617_7a9c, 0xb410_ff61, 0xf200_15ad)
  {
    hide IsAbc, Rounds, Schedule;
    AbcWords(p);
    hide Grows, Words0, Words1;
    AllTurns(Schedule(p, 64));
  }

  /** KNOWN ANSWER. The hash of "abc" is the one FIPS 180-4 gives. */
  lemma HashOfAbc()
    ensures Hash(ABC) == [0xba, 0x78, 0x16, 0xbf, 0x8f, 0x01, 0xcf, 0xea,
               0x41, 0x41, 0x40, 0xde, 0x5d, 0xae, 0x22, 0x23,
               0xb0, 0x03, 0x61, 0xa3, 0x96, 0x17, 0x7a, 0x9c,
               0xb4, 0x10, 0xff, 0x61, 0xf2, 0x00, 0x15, 0xad]
  {
    hide Compress, Padded, IsAbc, WordByte;
    var p := Padded(ABC);
    AbcPadded();
    assert p[..BLOCK] == p && p[BLOCK..] == [];
    AbcBlock(p);
    hide Blocks;
    AbcBytes();
  }

  lemma AbcBytes()
    ensures Output(Vars(0xba78_16bf, 0x8f01_cfea, 0x4141_40de, 0x5dae_2223,
      0xb003_61a3, 0x9617_7a9c, 0xb410_ff61, 0xf200_15ad)) ==
      [0xba, 0x78, 0x16, 0xbf, 0x8f, 0x01, 0xcf, 0xea,
       0x41, 0x41, 0x40, 0xde, 0x5d, 0xae, 0x22, 0x23,
       0xb0, 0x03, 0x61, 0xa3, 0x96, 0x17, 0x7a, 0x9c,
       0xb4, 0x10, 0xff, 0x61, 0xf2, 0x00, 0x15, 0xad]
  {
  }
}
