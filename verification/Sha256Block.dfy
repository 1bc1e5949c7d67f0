/** The SHA-256 compression of one block: FIPS 180-4, and the portable form of libane/ane_sha256.c. */
module Sha256Block {
  import opened Basics

  type Word = bv32

  const K: seq<Word> :=
    [0x428a_2f98, 0x7137_4491, 0xb5c0_fbcf, 0xe9b5_dba5, 0x3956_c25b, 0x59f1_11f1, 0x923f_82a4, 0xab1c_5ed5]
    + [0xd807_aa98, 0x1283_5b01, 0x2431_85be, 0x550c_7dc3, 0x72be_5d74, 0x80de_b1fe, 0x9bdc_06a7, 0xc19b_f174]
    + [0xe49b_69c1, 0xefbe_4786, 0x0fc1_9dc6, 0x240c_a1cc, 0x2de9_2c6f, 0x4a74_84aa, 0x5cb0_a9dc, 0x76f9_88da]
    + [0x983e_5152, 0xa831_c66d, 0xb003_27c8, 0xbf59_7fc7, 0xc6e0_0bf3, 0xd5a7_9147, 0x06ca_6351, 0x1429_2967]
    + [0x27b7_0a85, 0x2e1b_2138, 0x4d2c_6dfc, 0x5338_0d13, 0x650a_7354, 0x766a_0abb, 0x81c2_c92e, 0x9272_2c85]
    + [0xa2bf_e8a1, 0xa81a_664b, 0xc24b_8b70, 0xc76c_51a3, 0xd192_e819, 0xd699_0624, 0xf40e_3585, 0x106a_a070]
    + [0x19a4_c116, 0x1e37_6c08, 0x2748_774c, 0x34b0_bcb5, 0x391c_0cb3, 0x4ed8_aa4a, 0x5b9c_ca4f, 0x682e_6ff3]
    + [0x748f_82ee, 0x78a5_636f, 0x84c8_7814, 0x8cc7_0208, 0x90be_fffa, 0xa450_6ceb, 0xbef9_a3f7, 0xc671_78f2]

  const BLOCK: nat := 64

  type Chunk = p: seq<byte> | |p| == BLOCK witness seq<byte>(BLOCK, _ => 0)

  // ---- section 4.1.2: functions, and addition modulo 2^32 ----

  function Rotr(x: Word, n: bv6): Word
    requires 0 < n < 32
  {
    (x >> n) | (x << (32 - n))
  }

  function Ch(x: Word, y: Word, z: Word): Word { (x & y) ^ (!x & z) }

  function Maj(x: Word, y: Word, z: Word): Word { (x & y) ^ (x & z) ^ (y & z) }

  function BigSigma0(x: Word): Word { Rotr(x, 2) ^ Rotr(x, 13) ^ Rotr(x, 22) }

  function BigSigma1(x: Word): Word { Rotr(x, 6) ^ Rotr(x, 11) ^ Rotr(x, 25) }

  function SmallSigma0(x: Word): Word { Rotr(x, 7) ^ Rotr(x, 18) ^ (x >> 3) }

  function SmallSigma1(x: Word): Word { Rotr(x, 17) ^ Rotr(x, 19) ^ (x >> 10) }

  function Add(x: Word, y: Word): Word { x + y }

  function Constant(t: nat): Word
    requires t < 64
  {
    K[t]
  }

  // ---- section 6.2.2 ----

  /** Four bytes, most significant first. */
  function BigEndian(p: Chunk, i: nat): Word
    requires i + 4 <= |p|
  {
    (p[i] as Word << 24) | (p[i + 1] as Word << 16) | (p[i + 2] as Word << 8) | (p[i + 3] as Word)
  }

  /** The next schedule word. */
  function Expand(w: seq<Word>): Word
    requires |w| >= 16
  {
    var t := |w|;
    Add(Add(Add(w[t - 16], SmallSigma0(w[t - 15])), w[t - 7]), SmallSigma1(w[t - 2]))
  }

  /** The first n words of the message schedule. */
  function Schedule(p: Chunk, n: nat): (w: seq<Word>)
    requires n <= 64
    ensures |w| == n
  {
    if n == 0 then []
    else
      var w := Schedule(p, n - 1);
      w + [if n <= 16 then BigEndian(p, 4 * (n - 1)) else Expand(w)]
  }

  /** The working variables, and the hash value between blocks. */
  datatype Vars = Vars(a: Word, b: Word, c: Word, d: Word, e: Word, f: Word, g: Word, h: Word)

  function T1(v: Vars, k: Word, w: Word): Word {
    Add(Add(Add(Add(v.h, BigSigma1(v.e)), Ch(v.e, v.f, v.g)), k), w)
  }

  function T2(v: Vars): Word { Add(BigSigma0(v.a), Maj(v.a, v.b, v.c)) }

  function Round(v: Vars, k: Word, w: Word): Vars {
    Vars(Add(T1(v, k, w), T2(v)), v.a, v.b, v.c, Add(v.d, T1(v, k, w)), v.e, v.f, v.g)
  }

  function Rounds(v: Vars, w: seq<Word>, n: nat): Vars
    requires |w| == 64 && n <= 64
  {
    if n == 0 then v else Round(Rounds(v, w, n - 1), Constant(n - 1), w[n - 1])
  }

  function Sum(h: Vars, v: Vars): Vars {
    Vars(Add(h.a, v.a), Add(h.b, v.b), Add(h.c, v.c), Add(h.d, v.d), Add(h.e, v.e), Add(h.f, v.f), Add(h.g, v.g),
      Add(h.h, v.h))
  }

  /** The hash value after one more block: sixty-four rounds over its schedule, added in. */
  function Compress(h: Vars, p: Chunk): Vars {
    var w := Schedule(p, |p|);
    Sum(h, Rounds(h, w, |w|))
  }

  // ---- the portable block, in place ----

  method FillSchedule(p: Chunk) returns (w: seq<Word>)
    ensures w == Schedule(p, |p|)
  {
    hide BigEndian, SmallSigma0, SmallSigma1, Add;
    var a := new Word[64](_ => 0);
    for i := 0 to 16
      invariant a[..i] == Schedule(p, i)
    {
      a[i] := BigEndian(p, 4 * i);
      assert a[..i + 1] == a[..i] + [a[i]];
    }
    for i := 16 to 64
      invariant a[..i] == Schedule(p, i)
    {
      var s0 := SmallSigma0(a[i - 15]);
      var s1 := SmallSigma1(a[i - 2]);
      ghost var before := a[..i];
      a[i] := Add(Add(Add(a[i - 16], s0), a[i - 7]), s1);
      assert a[..i + 1] == before + [a[i]];
    }
    w := a[..64];
  }

  method RunRounds(v: Vars, w: seq<Word>) returns (r: Vars)
    requires |w| == 64
    ensures r == Rounds(v, w, |w|)
  {
    hide BigSigma0, BigSigma1, Ch, Maj, Add, Constant;
    var a, b, c, d, e, f, g, h := v.a, v.b, v.c, v.d, v.e, v.f, v.g, v.h;
    for i := 0 to 64
      invariant Vars(a, b, c, d, e, f, g, h) == Rounds(v, w, i)
    {
      var t1 := Add(Add(Add(Add(h, BigSigma1(e)), Ch(e, f, g)), Constant(i)), w[i]);
      var t2 := Add(BigSigma0(a), Maj(a, b, c));
      h := g;
      g := f;
      f := e;
      e := Add(d, t1);
      d := c;
      c := b;
      b := a;
      a := Add(t1, t2);
    }
    r := Vars(a, b, c, d, e, f, g, h);
  }

  /** sha256_block_portable. */
  method CompressBlock(st: Vars, p: Chunk) returns (r: Vars)
    ensures r == Compress(st, p)
  {
    hide Rounds, Schedule, Add;
    var w := FillSchedule(p);
    var v := RunRounds(st, w);
    r := Vars(Add(st.a, v.a), Add(st.b, v.b), Add(st.c, v.c), Add(st.d, v.d), Add(st.e, v.e), Add(st.f, v.f),
      Add(st.g, v.g), Add(st.h, v.h));
  }
}
