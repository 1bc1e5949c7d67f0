/** The streaming SHA-256 of libane/ane_sha256.c against FIPS 180-4. */
module Sha256 {
  import opened Basics
  import opened Sha256Block

  const INITIAL := Vars(0x6a09_e667, 0xbb67_ae85, 0x3c6e_f372, 0xa54f_f53a, 0x510e_527f, 0x9b05_688c, 0x1f83_d9ab,
    0x5be0_cd19)

  // ---- the hash of a message ----

  /** The blocks of a padded message, in order. */
  function Blocks(h: Vars, m: seq<byte>): Vars
    requires |m| % BLOCK == 0
    decreases |m|
  {
    if m == [] then h
    else
      CutBlock(m);
      Blocks(Compress(h, m[..BLOCK]), m[BLOCK..])
  }

  lemma CutBlock(m: seq<byte>)
    requires |m| % BLOCK == 0 && m != []
    ensures |m| >= BLOCK && |m[BLOCK..]| % BLOCK == 0
  {
  }

  function Zeros(n: nat): (r: seq<byte>)
    ensures |r| == n
  {
    seq<byte>(n, _ => 0)
  }

  /** The low n bytes of a number, most significant first. */
  function LengthBytes(v: nat, n: nat): (r: seq<byte>)
    ensures |r| == n
  {
    if n == 0 then [] else LengthBytes(v / 256, n - 1) + [v % 256]
  }

  function PadZeros(n: nat): nat { (119 - n % 64) % 64 }

  /** Section 5.1.1 of FIPS 180-4: the least number of zero bytes that leaves eight for the length. */
  lemma PadLeast(n: nat, z: nat)
    requires (n + 1 + z) % 64 == 56
    ensures (n + 1 + PadZeros(n)) % 64 == 56 && PadZeros(n) <= z
  {
    var q, r, k := n / 64, n % 64, (n + 1 + z) / 64;
    PadBytes(n);
    assert n == 64 * q + r && n + 1 + z == 64 * k + 56;
    assert if r <= 55 then PadZeros(n) == 55 - r else PadZeros(n) == 119 - r;
  }

  lemma PadBytes(n: nat)
    ensures PadZeros(n) == (if n % 64 <= 55 then 55 - n % 64 else 119 - n % 64) && (n + 1 + PadZeros(n)) % 64 == 56
  {
  }

  lemma PadFits(n: nat)
    ensures (n + (PadZeros(n) + 9)) % BLOCK == 0
  {
  }

  /** A one bit, zeros, and the length in bits as 64 bits. */
  function Padding(n: nat): (r: seq<byte>)
    ensures (n + |r|) % BLOCK == 0
  {
    PadFits(n);
    var r := [0x80] + Zeros(PadZeros(n)) + LengthBytes(8 * n, 8);
    assert |r| == PadZeros(n) + 9;
    r
  }

  function Padded(m: seq<byte>): (r: seq<byte>)
    ensures |r| % BLOCK == 0
  {
    m + Padding(|m|)
  }

  /** The number bytes spell, most significant first. */
  function FromBig(b: seq<byte>): nat { if b == [] then 0 else 256 * FromBig(b[..|b| - 1]) + b[|b| - 1] }

  /** How many numbers n bytes spell. */
  function Room(n: nat): nat { if n == 0 then 1 else 256 * Room(n - 1) }

  lemma {:induction false} LengthBack(v: nat, n: nat)
    requires v < Room(n)
    ensures FromBig(LengthBytes(v, n)) == v
  {
    if n > 0 {
      LengthBack(v / 256, n - 1);
      var b := LengthBytes(v, n);
      assert b[..n - 1] == LengthBytes(v / 256, n - 1);
    }
  }

  /** PADDING, section 5.1.1 of FIPS 180-4. After the message come one set bit, zeros, and the message length in bits
      as a big-endian 64-bit word, to the end of a block. */
  lemma PaddedIs(m: seq<byte>)
    requires |m| < 0x2000_0000_0000_0000
    ensures var p := Padded(m);
            && |p| % 64 == 0 && |m| + 9 <= |p| < |m| + 73 && p[..|m|] == m && p[|m|] == 0x80
            && (forall i :: |m| < i < |p| - 8 ==> p[i] == 0) && FromBig(p[|p| - 8..]) == 8 * |m|
  {
    hide LengthBytes, FromBig, Room;
    EightBytes();
    LengthBack(8 * |m|, 8);
    var p := Padded(m);
    assert p[|p| - 8..] == LengthBytes(8 * |m|, 8);
  }

  lemma EightBytes()
    ensures Room(8) == 0x1_0000_0000_0000_0000
  {
    assert Room(2) == 0x1_0000;
    assert Room(4) == 0x1_0000_0000;
    assert Room(6) == 0x1_0000_0000_0000;
  }

  function HashWords(m: seq<byte>): Vars { Blocks(INITIAL, Padded(m)) }

  // ---- the 32 output bytes ----

  const DIGEST: nat := 32

  function HashWord(v: Vars, i: nat): Word
    requires i < 8
  {
    match i
    case 0 => v.a case 1 => v.b case 2 => v.c case 3 => v.d
    case 4 => v.e case 5 => v.f case 6 => v.g case _ => v.h
  }

  /** Byte k of a word, the most significant first. */
  function WordByte(w: Word, k: nat): byte
    requires k < 4
  {
    var b := ((match k case 0 => w >> 24 case 1 => w >> 16 case 2 => w >> 8 case _ => w) & 0xff) as bv8;
    b as int
  }

  function Output(v: Vars): (o: seq<byte>)
    ensures |o| == DIGEST
  {
    seq<byte>(DIGEST, j requires 0 <= j < DIGEST => WordByte(HashWord(v, j / 4), j % 4))
  }

  /** The hash value of section 6.2.2, as bytes. */
  function Hash(m: seq<byte>): (o: seq<byte>)
    ensures |o| == DIGEST
  {
    Output(HashWords(m))
  }

  lemma SameByte(a: bv8, b: bv8)
    requires a as int == b as int
    ensures a == b
  {
    assert (a as int) as bv8 == a;
  }

  lemma SameBits(w: Word, u: Word)
    requires ((w >> 24) & 0xff) as bv8 == ((u >> 24) & 0xff) as bv8
             && ((w >> 16) & 0xff) as bv8 == ((u >> 16) & 0xff) as bv8
    requires ((w >> 8) & 0xff) as bv8 == ((u >> 8) & 0xff) as bv8 && (w & 0xff) as bv8 == (u & 0xff) as bv8
    ensures w == u
  {
  }

  lemma SameWord(w: Word, u: Word)
    requires forall k :: 0 <= k < 4 ==> WordByte(w, k) == WordByte(u, k)
    ensures w == u
  {
    assert WordByte(w, 0) == WordByte(u, 0) && WordByte(w, 1) == WordByte(u, 1);
    assert WordByte(w, 2) == WordByte(u, 2) && WordByte(w, 3) == WordByte(u, 3);
    SameByte(((w >> 24) & 0xff) as bv8, ((u >> 24) & 0xff) as bv8);
    SameByte(((w >> 16) & 0xff) as bv8, ((u >> 16) & 0xff) as bv8);
    SameByte(((w >> 8) & 0xff) as bv8, ((u >> 8) & 0xff) as bv8);
    SameByte((w & 0xff) as bv8, (u & 0xff) as bv8);
    SameBits(w, u);
  }

  /** The output bytes lose nothing: they determine the eight words. */
  lemma OutputInjective(v: Vars, u: Vars)
    requires Output(v) == Output(u)
    ensures v == u
  {
    hide WordByte, HashWord;
    forall i | 0 <= i < 8
      ensures HashWord(v, i) == HashWord(u, i)
    {
      forall k | 0 <= k < 4
        ensures WordByte(HashWord(v, i), k) == WordByte(HashWord(u, i), k)
      {
        assert (4 * i + k) / 4 == i && (4 * i + k) % 4 == k;
        assert Output(v)[4 * i + k] == Output(u)[4 * i + k];
      }
      SameWord(HashWord(v, i), HashWord(u, i));
    }
    SameVars(v, u);
  }

  lemma SameVars(v: Vars, u: Vars)
    requires forall i :: 0 <= i < 8 ==> HashWord(v, i) == HashWord(u, i)
    ensures v == u
  {
    assert HashWord(v, 0) == HashWord(u, 0) && HashWord(v, 1) == HashWord(u, 1) && HashWord(v, 2) == HashWord(u, 2);
    assert HashWord(v, 3) == HashWord(u, 3) && HashWord(v, 4) == HashWord(u, 4) && HashWord(v, 5) == HashWord(u, 5);
    assert HashWord(v, 6) == HashWord(u, 6) && HashWord(v, 7) == HashWord(u, 7);
  }

  /** The big-endian words, stored one after another. */
  method StoreWords(v: Vars, out: array<byte>)
    requires out.Length == DIGEST
    modifies out
    ensures out[..] == Output(v)
  {
    hide WordByte, HashWord;
    for i := 0 to 8
      invariant forall j :: 0 <= j < 4 * i ==> out[j] == Output(v)[j]
    {
      ghost var o := Output(v);
      var w := HashWord(v, i);
      assert o[4 * i] == WordByte(w, 0) && o[4 * i + 1] == WordByte(w, 1) && o[4 * i + 2] == WordByte(w, 2)
        && o[4 * i + 3] == WordByte(w, 3);
      out[4 * i] := WordByte(w, 0);
      out[4 * i + 1] := WordByte(w, 1);
      out[4 * i + 2] := WordByte(w, 2);
      out[4 * i + 3] := WordByte(w, 3);
    }
  }

  // ---- blocks and cuts ----

  lemma {:induction false} BlocksConcat(h: Vars, a: seq<byte>, b: seq<byte>)
    requires |a| % BLOCK == 0 && |b| % BLOCK == 0
    ensures |a + b| % BLOCK == 0 && Blocks(h, a + b) == Blocks(Blocks(h, a), b)
    decreases |a|
  {
    hide Compress;
    if a == [] {
      assert a + b == b;
    } else {
      assert (a + b)[..BLOCK] == a[..BLOCK] && (a + b)[BLOCK..] == a[BLOCK..] + b;
      BlocksConcat(Compress(h, a[..BLOCK]), a[BLOCK..], b);
    }
  }

  lemma BlocksOne(h: Vars, p: Chunk)
    ensures Blocks(h, p) == Compress(h, p)
  {
    hide Compress;
    assert p[..BLOCK] == p && p[BLOCK..] == [];
  }

  lemma BlocksNext(h: Vars, a: seq<byte>, p: Chunk)
    requires |a| % BLOCK == 0
    ensures |a + p| % BLOCK == 0 && Blocks(h, a + p) == Compress(Blocks(h, a), p)
  {
    hide Compress, Blocks;
    BlocksConcat(h, a, p);
    BlocksOne(Blocks(h, a), p);
  }

  /** `done` whole blocks of the message are in st, the rest is in the buffer. */
  ghost predicate Holds(m: seq<byte>, st: Vars, rest: seq<byte>) {
    && |rest| <= |m| && (|m| - |rest|) % BLOCK == 0
    && m[|m| - |rest|..] == rest && st == Blocks(INITIAL, m[..|m| - |rest|])
  }

  lemma HoldsEmpty()
    ensures Holds([], INITIAL, [])
  {
    hide Compress;
  }

  lemma HoldsMore(m: seq<byte>, st: Vars, rest: seq<byte>, data: seq<byte>)
    requires Holds(m, st, rest)
    ensures Holds(m + data, st, rest + data)
  {
    hide Blocks;
    assert (m + data)[..|m| - |rest|] == m[..|m| - |rest|];
    assert (m + data)[|m| - |rest|..] == rest + data;
  }

  lemma HoldsBlock(m: seq<byte>, st: Vars, rest: seq<byte>)
    requires Holds(m, st, rest) && |rest| >= BLOCK
    ensures Holds(m, Compress(st, rest[..BLOCK]), rest[BLOCK..])
  {
    hide Blocks, Compress;
    var k := |m| - |rest|;
    assert m[..k + BLOCK] == m[..k] + rest[..BLOCK];
    BlocksNext(INITIAL, m[..k], rest[..BLOCK]);
    assert m[k + BLOCK..] == rest[BLOCK..];
  }

  // ---- the context ----

  const MAX_TOTAL: nat := 0x1_0000_0000_0000_0000

  lemma TotalAdds(n: nat, more: nat)
    ensures (n % MAX_TOTAL + more) % MAX_TOTAL == (n + more) % MAX_TOTAL
  {
  }

  lemma JoinSplit(a: seq<byte>, b: seq<byte>, take: nat)
    requires take <= |b|
    ensures (a + b)[..|a| + take] == a + b[..take] && (a + b)[|a| + take..] == b[take..]
  {
  }

  class Context {
    var st: Vars
    const buf: array<byte>
    var buflen: nat
    var total: nat
    /** What was hashed so far. */
    ghost var message: seq<byte>

    ghost predicate Valid()
      reads this, buf
    {
      buf.Length == BLOCK && buflen < BLOCK && total == |message| % MAX_TOTAL && Holds(message, st, buf[..buflen])
    }

    constructor ()
      ensures Valid() && fresh(buf) && message == []
    {
      st := INITIAL;
      buf := new byte[BLOCK](_ => 0);
      buflen, total, message := 0, 0, [];
      new;
      HoldsEmpty();
      assert buf[..0] == [];
    }

    /** memcpy to the end of the buffer. */
    method Append(data: seq<byte>)
      requires buf.Length == BLOCK && buflen + |data| <= BLOCK
      modifies buf
      ensures buf[..buflen + |data|] == old(buf[..buflen]) + data
    {
      for i := 0 to |data|
        invariant buf[..buflen + i] == old(buf[..buflen]) + data[..i]
      {
        buf[buflen + i] := data[i];
        assert data[..i + 1] == data[..i] + [data[i]];
        assert buf[..buflen + i + 1] == buf[..buflen + i] + [data[i]];
      }
      assert data[..|data|] == data;
    }

    method Update(data: seq<byte>)
      requires Valid()
      modifies this, buf
      ensures Valid() && message == old(message) + data
    {
      hide Holds, Compress;
      TotalAdds(|message|, |data|);
      ghost var m := message + data;
      HoldsMore(message, st, buf[..buflen], data);
      total := (total + |data|) % MAX_TOTAL;
      message := m;
      var p := data;
      if buflen > 0 {
        var take := BLOCK - buflen;
        if take > |data| {
          Append(data);
          buflen := buflen + |data|;
          return;
        }
        ghost var rest := buf[..buflen] + data;
        JoinSplit(buf[..buflen], data, take);
        Append(data[..take]);
        assert buf[..] == buf[..BLOCK];
        assert rest[..BLOCK] == buf[..] && rest[BLOCK..] == data[take..];
        HoldsBlock(m, st, rest);
        st := CompressBlock(st, buf[..]);
        buflen := 0;
        p := data[take..];
      } else {
        assert buf[..buflen] + data == data;
      }
      while |p| >= BLOCK
        invariant Holds(m, st, p) && buflen == 0 && message == m && total == |m| % MAX_TOTAL
        decreases |p|
      {
        HoldsBlock(m, st, p);
        st := CompressBlock(st, p[..BLOCK]);
        p := p[BLOCK..];
      }
      Append(p);
      buflen := |p|;
      assert buf[..buflen] == p;
    }

    /** The padding, the last one or two blocks, the 32 bytes of the hash. */
    method Final(out: array<byte>)
      requires Valid() && |message| < 0x2000_0000_0000_0000 && out.Length == DIGEST && out != buf
      modifies this, out
      ensures out[..] == Hash(message) && message == old(message)
    {
      hide Holds, Compress, HashWords, Output;
      var bits := 8 * total % MAX_TOTAL;
      var rest := buf[..buflen];
      var tail := new byte[BLOCK](_ => 0);
      var rem := buflen;
      SetTail(tail, rest);
      if rem >= 56 {
        st := CompressBlock(st, tail[..]);
        ghost var first := tail[..];
        ClearTail(tail);
        SetLength(tail, bits);
        TwoBlocks(message, old(st), rest, first, tail[..]);
      } else {
        ghost var first := tail[..];
        SetLength(tail, bits);
        OneBlock(message, old(st), rest, tail[..]);
      }
      st := CompressBlock(st, tail[..]);
      StoreWords(st, out);
    }
  }

  /** The start of the tail: the buffered bytes and the one bit. */
  method SetTail(tail: array<byte>, rest: seq<byte>)
    requires tail.Length == BLOCK && |rest| < BLOCK && tail[..] == Zeros(BLOCK)
    modifies tail
    ensures tail[..] == rest + [0x80] + Zeros(BLOCK - |rest| - 1)
  {
    for i := 0 to |rest|
      invariant tail[..i] == rest[..i] && forall k :: i <= k < BLOCK ==> tail[k] == 0
    {
      tail[i] := rest[i];
      assert rest[..i + 1] == rest[..i] + [rest[i]];
      assert tail[..i + 1] == tail[..i] + [rest[i]];
    }
    tail[|rest|] := 0x80;
    assert tail[..|rest|] == rest;
    assert tail[..] == tail[..|rest|] + [tail[|rest|]] + tail[|rest| + 1..];
  }

  method ClearTail(tail: array<byte>)
    requires tail.Length == BLOCK
    modifies tail
    ensures tail[..] == Zeros(BLOCK)
  {
    for i := 0 to BLOCK
      invariant forall k :: 0 <= k < i ==> tail[k] == 0
    {
      tail[i] := 0;
    }
  }

  function Shifted(v: nat, i: nat): nat {
    if i == 0 then v else Shifted(v, i - 1) / 256
  }

  lemma {:induction false} ShiftedHalf(v: nat, i: nat)
    ensures Shifted(v / 256, i) == Shifted(v, i + 1)
  {
    if i > 0 {
      ShiftedHalf(v, i - 1);
    }
  }

  lemma {:induction false} LengthByte(v: nat, n: nat, i: nat)
    requires i < n
    ensures LengthBytes(v, n)[n - 1 - i] == Shifted(v, i) % 256
  {
    if i > 0 {
      LengthByte(v / 256, n - 1, i - 1);
      ShiftedHalf(v, i - 1);
    }
  }

  /** The last eight bytes of the tail, from the last to the first. */
  method SetLength(tail: array<byte>, bits: nat)
    requires tail.Length == BLOCK
    modifies tail
    ensures tail[..] == old(tail[..56]) + LengthBytes(bits, 8)
  {
    hide LengthBytes;
    for i := 0 to 8
      invariant forall k :: 0 <= k < 56 ==> tail[k] == old(tail[k])
      invariant forall k :: 0 <= k < i ==> tail[63 - k] == Shifted(bits, k) % 256
    {
      tail[63 - i] := Shifted(bits, i) % 256;
    }
    forall k | 0 <= k < 8
      ensures tail[56 + k] == LengthBytes(bits, 8)[k]
    {
      LengthByte(bits, 8, 7 - k);
      assert tail[63 - (7 - k)] == Shifted(bits, 7 - k) % 256;
    }
  }

  lemma LengthExact(n: nat)
    requires n < 0x2000_0000_0000_0000
    ensures 8 * (n % MAX_TOTAL) % MAX_TOTAL == 8 * n
  {
  }

  ghost function ShortBlock(rest: seq<byte>, bits: nat): seq<byte>
    requires |rest| < 56
  {
    (rest + [0x80] + Zeros(BLOCK - |rest| - 1))[..56] + LengthBytes(bits, 8)
  }

  /** With room for the length, the tail block is the rest of the message and all its padding. */
  lemma OneBlock(m: seq<byte>, st: Vars, rest: seq<byte>, tail: seq<byte>)
    requires Holds(m, st, rest) && |rest| < 56 && |m| < 0x2000_0000_0000_0000
    requires tail == ShortBlock(rest, 8 * (|m| % MAX_TOTAL) % MAX_TOTAL)
    ensures |tail| == BLOCK && Compress(st, tail) == HashWords(m)
  {
    hide Compress, Blocks, LengthBytes, PadZeros, Zeros, Padding, ShortBlock, Padded;
    var k := |m| - |rest|;
    LengthExact(|m|);
    ShortIsPadding(|m|, rest);
    Together(m, k, rest, tail);
    BlocksNext(INITIAL, m[..k], tail);
  }

  lemma ShortIsPadding(n: nat, rest: seq<byte>)
    requires |rest| < 56 && |rest| <= n && (n - |rest|) % BLOCK == 0
    ensures ShortBlock(rest, 8 * n) == rest + Padding(n) && |ShortBlock(rest, 8 * n)| == BLOCK
  {
    hide LengthBytes, PadZeros;
    PadShort(n, |rest|);
    ShortTail(rest, 8 * n);
  }

  lemma PadShort(n: nat, r: nat)
    requires r < BLOCK && r <= n && (n - r) % BLOCK == 0
    ensures PadZeros(n) == if r < 56 then 55 - r else 119 - r
  {
    assert n % BLOCK == r;
  }

  lemma ShortTail(rest: seq<byte>, bits: nat)
    requires |rest| < 56
    ensures (rest + [0x80] + Zeros(BLOCK - |rest| - 1))[..56] + LengthBytes(bits, 8)
            == rest + ([0x80] + Zeros(55 - |rest|) + LengthBytes(bits, 8))
  {
    hide LengthBytes;
    assert (rest + [0x80] + Zeros(BLOCK - |rest| - 1))[..56] == rest + [0x80] + Zeros(55 - |rest|);
  }

  lemma LongTail(rest: seq<byte>, bits: nat)
    requires 56 <= |rest| < BLOCK
    ensures (rest + [0x80] + Zeros(BLOCK - |rest| - 1)) + (Zeros(BLOCK)[..56] + LengthBytes(bits, 8))
            == rest + ([0x80] + Zeros(119 - |rest|) + LengthBytes(bits, 8))
  {
    hide LengthBytes;
    assert Zeros(BLOCK - |rest| - 1) + Zeros(BLOCK)[..56] == Zeros(119 - |rest|);
  }

  lemma Together(m: seq<byte>, k: nat, rest: seq<byte>, tail: seq<byte>)
    requires k <= |m| && m[k..] == rest && tail == rest + Padding(|m|)
    ensures Padded(m) == m[..k] + tail
  {
    hide Padding;
    assert m == m[..k] + rest;
  }

  ghost function LongBlock(rest: seq<byte>): seq<byte>
    requires |rest| < BLOCK
  {
    rest + [0x80] + Zeros(BLOCK - |rest| - 1)
  }

  ghost function LastBlock(bits: nat): seq<byte> { Zeros(BLOCK)[..56] + LengthBytes(bits, 8) }

  lemma LongIsPadding(n: nat, rest: seq<byte>)
    requires 56 <= |rest| < BLOCK && |rest| <= n && (n - |rest|) % BLOCK == 0
    ensures LongBlock(rest) + LastBlock(8 * n) == rest + Padding(n) && |LongBlock(rest)| == |LastBlock(8 * n)| == BLOCK
  {
    hide LengthBytes, PadZeros;
    PadShort(n, |rest|);
    LongTail(rest, 8 * n);
  }

  /** Without room for it, the length goes into a block of its own. */
  lemma TwoBlocks(m: seq<byte>, st: Vars, rest: seq<byte>, first: seq<byte>, tail: seq<byte>)
    requires Holds(m, st, rest) && 56 <= |rest| < BLOCK && |m| < 0x2000_0000_0000_0000
    requires first == LongBlock(rest) && tail == LastBlock(8 * (|m| % MAX_TOTAL) % MAX_TOTAL)
    ensures |first| == |tail| == BLOCK && Compress(Compress(st, first), tail) == HashWords(m)
  {
    hide Compress, Blocks, LengthBytes, PadZeros, Zeros, Padding, LongBlock, LastBlock, Padded;
    var k := |m| - |rest|;
    LengthExact(|m|);
    LongIsPadding(|m|, rest);
    Together(m, k, rest, first + tail);
    assert m[..k] + (first + tail) == m[..k] + first + tail;
    BlocksNext(INITIAL, m[..k], first);
    BlocksNext(INITIAL, m[..k] + first, tail);
  }

  // ---- any split ----

  function Joined(parts: seq<seq<byte>>): seq<byte> {
    if parts == [] then [] else Joined(parts[..|parts| - 1]) + parts[|parts| - 1]
  }

  /** STREAMING. However a message of fewer than 2^61 bytes is cut into updates, the result is its
      hash. */
  method HashParts(parts: seq<seq<byte>>) returns (r: seq<byte>)
    requires |Joined(parts)| < 0x2000_0000_0000_0000
    ensures r == Hash(Joined(parts))
  {
    hide Hash, Holds;
    var c := new Context();
    for i := 0 to |parts|
      invariant c.Valid() && fresh(c) && fresh(c.buf) && c.message == Joined(parts[..i])
    {
      assert parts[..i + 1][..i] == parts[..i];
      c.Update(parts[i]);
    }
    assert parts[..|parts|] == parts;
    var out := new byte[DIGEST](_ => 0);
    c.Final(out);
    r := out[..];
  }

  /** ane_sha256. */
  method HashOnce(data: seq<byte>) returns (r: seq<byte>)
    requires |data| < 0x2000_0000_0000_0000
    ensures r == Hash(data)
  {
    hide Hash, Holds;
    var c := new Context();
    c.Update(data);
    assert [] + data == data;
    var out := new byte[DIGEST](_ => 0);
    c.Final(out);
    r := out[..];
  }
}
