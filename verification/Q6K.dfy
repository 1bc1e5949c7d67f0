/** The Q6_K matrix-vector kernel of tools/q6k_head.c, in exact arithmetic: dequantise-then-dot, the
    grouped vector form, and the split of the rows over threads. */
module Q6K {
  import opened Basics
  import opened H14Bytes

  const QK: nat := 256
  const BLOCK_BYTES: nat := 210

  /** half_to_float, whatever it is: the value of a block's fp16 scale. */
  type HalfValue = nat -> real

  function Signed(b: byte): int { if b < 128 then b else b - 256 }

  predicate HasBlock(w: seq<byte>, base: nat) { base + BLOCK_BYTES <= |w| }

  // ---- one weight ----

  /** Two bits of the high part, for the first to the fourth quarter of a half. */
  function High(b: byte, quarter: nat): (h: nat)
    ensures h < 4
  {
    (if quarter == 0 then b else if quarter == 1 then b / 4 else if quarter == 2 then b / 16 else b / 64) % 4
  }

  /** The 6-bit value at lane l of a quarter of a half, without its offset of 32. */
  function Code(w: seq<byte>, base: nat, half: nat, quarter: nat, l: nat): nat
    requires HasBlock(w, base) && half < 2 && quarter < 4 && l < 32
  {
    var low := w[base + 64 * half + (if quarter % 2 == 0 then l else l + 32)];
    (if quarter < 2 then low % 16 else low / 16) + 16 * High(w[base + 128 + 32 * half + l], quarter)
  }

  function Scale(w: seq<byte>, base: nat, half: nat, quarter: nat, l: nat): int
    requires HasBlock(w, base) && half < 2 && quarter < 4 && l < 32
  {
    Signed(w[base + 192 + 8 * half + l / 16 + 2 * quarter])
  }

  function Delta(f: HalfValue, w: seq<byte>, base: nat): real
    requires HasBlock(w, base)
  {
    f(Le16(w, base + 208))
  }

  function WeightAt(f: HalfValue, w: seq<byte>, base: nat, half: nat, quarter: nat, l: nat): real
    requires HasBlock(w, base) && half < 2 && quarter < 4 && l < 32
  {
    Delta(f, w, base) * Scale(w, base, half, quarter, l) as real * (Code(w, base, half, quarter, l) - 32) as real
  }

  /** Weight p of a block. */
  function Weight(f: HalfValue, w: seq<byte>, base: nat, p: nat): real
    requires HasBlock(w, base) && p < QK
  {
    WeightAt(f, w, base, p / 128, p % 128 / 32, p % 32)
  }

  lemma WeightIs(f: HalfValue, w: seq<byte>, base: nat, half: nat, quarter: nat, l: nat)
    requires HasBlock(w, base) && half < 2 && quarter < 4 && l < 32
    ensures Weight(f, w, base, 128 * half + 32 * quarter + l) == WeightAt(f, w, base, half, quarter, l)
  {
    hide WeightAt;
    var p := 128 * half + 32 * quarter + l;
    assert p / 128 == half && p % 128 == 32 * quarter + l && p % 32 == l;
  }

  // ---- packing ----

  ghost predicate Packable(codes: seq<nat>, scales: seq<int>, delta: nat) {
    && |codes| == QK && (forall p :: 0 <= p < QK ==> codes[p] < 64)
    && |scales| == 16 && (forall g :: 0 <= g < 16 ==> -128 <= scales[g] < 128) && delta < 0x1_0000
  }

  /** Byte j of a block: 128 bytes of low nibbles, 64 of high bit pairs, 16 signed scales, and the fp16 scale. */
  function PackedByte(codes: seq<nat>, scales: seq<int>, delta: nat, j: nat): (b: byte)
    requires Packable(codes, scales, delta) && j < BLOCK_BYTES
  {
    if j < 128 then
      var p := 128 * (j / 64) + j % 64;
      codes[p] % 16 + 16 * (codes[p + 64] % 16)
    else if j < 192 then
      var p := 128 * ((j - 128) / 32) + (j - 128) % 32;
      codes[p] / 16 + 4 * (codes[p + 32] / 16) + 16 * (codes[p + 64] / 16) + 64 * (codes[p + 96] / 16)
    else if j < 208 then (scales[j - 192] + 256) % 256
    else if j == 208 then delta % 256 else delta / 256
  }

  function Packed(codes: seq<nat>, scales: seq<int>, delta: nat): (w: seq<byte>)
    requires Packable(codes, scales, delta)
    ensures |w| == BLOCK_BYTES
  {
    seq<byte>(BLOCK_BYTES, j requires 0 <= j < BLOCK_BYTES => PackedByte(codes, scales, delta, j))
  }

  lemma LowBits(codes: seq<nat>, scales: seq<int>, delta: nat, half: nat, odd: nat, l: nat)
    requires Packable(codes, scales, delta) && half < 2 && odd < 2 && l < 32
    ensures var p := 128 * half + 32 * odd + l;
            PackedByte(codes, scales, delta, 64 * half + 32 * odd + l) == codes[p] % 16 + 16 * (codes[p + 64] % 16)
  {
    var j := 64 * half + 32 * odd + l;
    assert j / 64 == half && j % 64 == 32 * odd + l;
  }

  lemma HighBits(codes: seq<nat>, scales: seq<int>, delta: nat, half: nat, l: nat)
    requires Packable(codes, scales, delta) && half < 2 && l < 32
    ensures var p, b := 128 * half + l, PackedByte(codes, scales, delta, 128 + 32 * half + l);
            && High(b, 0) == codes[p] / 16 && High(b, 1) == codes[p + 32] / 16
            && High(b, 2) == codes[p + 64] / 16 && High(b, 3) == codes[p + 96] / 16
  {
    var j, p := 32 * half + l, 128 * half + l;
    assert j / 32 == half && j % 32 == l;
    Quarters(codes[p] / 16, codes[p + 32] / 16, codes[p + 64] / 16, codes[p + 96] / 16);
  }

  lemma Quarters(a: nat, b: nat, c: nat, d: nat)
    requires a < 4 && b < 4 && c < 4 && d < 4
    ensures var v := a + 4 * b + 16 * c + 64 * d; v % 4 == a && v / 4 % 4 == b && v / 16 % 4 == c && v / 64 % 4 == d
  {
  }

  lemma CodeBack(codes: seq<nat>, scales: seq<int>, delta: nat, half: nat, quarter: nat, l: nat)
    requires Packable(codes, scales, delta) && half < 2 && quarter < 4 && l < 32
    ensures Code(Packed(codes, scales, delta), 0, half, quarter, l) == codes[128 * half + 32 * quarter + l]
  {
    hide PackedByte, High;
    LowBits(codes, scales, delta, half, quarter % 2, l);
    HighBits(codes, scales, delta, half, l);
    var p := 128 * half + 32 * quarter + l;
    assert codes[p] == codes[p] % 16 + 16 * (codes[p] / 16);
  }

  lemma SignedBack(s: int)
    requires -128 <= s < 128
    ensures Signed((s + 256) % 256) == s
  {
  }

  /** PACKING. A block packed from 6-bit codes, sixteen signed scales and an fp16 scale dequantises, at each position,
      to the fp16 scale times the signed scale of its sixteen times the code less 32. */
  lemma PackedWeight(f: HalfValue, codes: seq<nat>, scales: seq<int>, delta: nat, p: nat)
    requires Packable(codes, scales, delta) && p < QK
    ensures Weight(f, Packed(codes, scales, delta), 0, p) ==
              f(delta) * scales[p / 16] as real * (codes[p] as int - 32) as real
  {
    hide Code;
    var w, half, quarter, l := Packed(codes, scales, delta), p / 128, p % 128 / 32, p % 32;
    assert p == 128 * half + 32 * quarter + l;
    CodeBack(codes, scales, delta, half, quarter, l);
    var g := 8 * half + l / 16 + 2 * quarter;
    assert g == p / 16;
    SignedBack(scales[g]);
    assert w[192 + g] == (scales[g] + 256) % 256;
    assert w[208] == delta % 256 && w[209] == delta / 256;
  }

  // ---- dequantise ----

  /** Position p has been written once lanes below l of `half` and all of the halves before are done. */
  predicate Done(p: nat, half: nat, l: nat) {
    p < 128 * half || (p < 128 * half + 128 && p % 32 < l)
  }

  ghost predicate BlockDone(f: HalfValue, w: seq<byte>, base: nat, out: seq<real>, half: nat, l: nat)
    requires HasBlock(w, base)
  {
    |out| == QK && forall p :: 0 <= p < QK && Done(p, half, l) ==> out[p] == Weight(f, w, base, p)
  }

  lemma LaneDone(f: HalfValue, w: seq<byte>, base: nat, out: seq<real>, half: nat, l: nat)
    requires HasBlock(w, base) && half < 2 && l < 32 && BlockDone(f, w, base, out, half, l)
    ensures var p := 128 * half + l;
            var next := out[p := WeightAt(f, w, base, half, 0, l)][p + 32 := WeightAt(f, w, base, half, 1,
              l)][p + 64 := WeightAt(f, w, base, half, 2, l)]
                           [p + 96 := WeightAt(f, w, base, half, 3, l)];
            BlockDone(f, w, base, next, half, l + 1)
  {
    hide WeightAt, Weight;
    WeightIs(f, w, base, half, 0, l);
    WeightIs(f, w, base, half, 1, l);
    WeightIs(f, w, base, half, 2, l);
    WeightIs(f, w, base, half, 3, l);
    forall p: nat | p < QK && Done(p, half, l + 1) && !Done(p, half, l)
      ensures p == 128 * half + l || p == 128 * half + 32 + l || p == 128 * half + 64 + l || p == 128 * half + 96 + l
    {
      LaneOf(p - 128 * half, l);
    }
  }

  lemma LaneOf(r: int, l: nat)
    requires 0 <= r < 128 && r % 32 == l
    ensures r == l || r == 32 + l || r == 64 + l || r == 96 + l
  {
  }

  lemma HalfDone(f: HalfValue, w: seq<byte>, base: nat, out: seq<real>, half: nat)
    requires HasBlock(w, base)
    ensures BlockDone(f, w, base, out, half, 32) <==> BlockDone(f, w, base, out, half + 1, 0)
  {
    hide Weight;
    forall p: nat
      ensures Done(p, half, 32) <==> Done(p, half + 1, 0)
    {
    }
  }

  /** q6k_dequant_row on one block. */
  method DequantBlock(f: HalfValue, w: seq<byte>, base: nat) returns (out: seq<real>)
    requires HasBlock(w, base)
    ensures |out| == QK && forall p :: 0 <= p < QK ==> out[p] == Weight(f, w, base, p)
  {
    hide Weight, WeightAt, BlockDone;
    var d := Delta(f, w, base);
    out := seq(QK, _ => 0.0);
    NothingDone(f, w, base, out);
    for half := 0 to 2
      invariant BlockDone(f, w, base, out, half, 0)
    {
      for l := 0 to 32
        invariant BlockDone(f, w, base, out, half, l)
      {
        BlockLength(f, w, base, out, half, l);
        LaneDone(f, w, base, out, half, l);
        var w1 := LaneWeight(f, w, base, d, half, 0, l);
        var w2 := LaneWeight(f, w, base, d, half, 1, l);
        var w3 := LaneWeight(f, w, base, d, half, 2, l);
        var w4 := LaneWeight(f, w, base, d, half, 3, l);
        var p := 128 * half + l;
        out := out[p := w1][p + 32 := w2][p + 64 := w3][p + 96 := w4];
      }
      HalfDone(f, w, base, out, half);
    }
    AllDone(f, w, base, out);
  }

  /** One lane as the source spells it. */
  method LaneWeight(f: HalfValue, w: seq<byte>, base: nat, d: real, half: nat, quarter: nat, l: nat) returns (r: real)
    requires HasBlock(w, base) && half < 2 && quarter < 4 && l < 32 && d == Delta(f, w, base)
    ensures r == WeightAt(f, w, base, half, quarter, l)
  {
    r := d * Scale(w, base, half, quarter, l) as real * (Code(w, base, half, quarter, l) - 32) as real;
  }

  lemma NothingDone(f: HalfValue, w: seq<byte>, base: nat, out: seq<real>)
    requires HasBlock(w, base) && |out| == QK
    ensures BlockDone(f, w, base, out, 0, 0)
  {
  }

  lemma BlockLength(f: HalfValue, w: seq<byte>, base: nat, out: seq<real>, half: nat, l: nat)
    requires HasBlock(w, base) && BlockDone(f, w, base, out, half, l)
    ensures |out| == QK
  {
  }

  lemma AllDone(f: HalfValue, w: seq<byte>, base: nat, out: seq<real>)
    requires HasBlock(w, base) && BlockDone(f, w, base, out, 2, 0)
    ensures |out| == QK && forall p :: 0 <= p < QK ==> out[p] == Weight(f, w, base, p)
  {
    hide Weight;
    forall p | 0 <= p < QK
      ensures out[p] == Weight(f, w, base, p)
    {
      assert Done(p, 2, 0);
    }
  }

  // ---- dequantise, then dot ----

  /** The first n terms of a block's part of the dot product. */
  ghost function BlockDot(f: HalfValue, w: seq<byte>, base: nat, x: seq<real>, at: nat, n: nat): real
    requires HasBlock(w, base) && n <= QK && at + QK <= |x|
  {
    if n == 0 then 0.0 else BlockDot(f, w, base, x, at, n - 1) + Weight(f, w, base, n - 1) * x[at + n - 1]
  }

  predicate HasRow(w: seq<byte>, base: nat, nb: nat, x: seq<real>) {
    base + nb * BLOCK_BYTES <= |w| && nb * QK <= |x|
  }

  /** The dot product of a row of nb blocks with x. */
  ghost function RowDot(f: HalfValue, w: seq<byte>, base: nat, nb: nat, x: seq<real>): real
    requires HasRow(w, base, nb, x)
  {
    if nb == 0 then 0.0
    else RowDot(f, w, base, nb - 1, x) + BlockDot(f, w, base + (nb - 1) * BLOCK_BYTES, x, (nb - 1) * QK, QK)
  }

  /** The scalar form. */
  method RowDotScalar(f: HalfValue, w: seq<byte>, base: nat, nb: nat, x: seq<real>) returns (acc: real)
    requires HasRow(w, base, nb, x)
    ensures acc == RowDot(f, w, base, nb, x)
  {
    hide Weight;
    acc := 0.0;
    for b := 0 to nb
      invariant acc == RowDot(f, w, base, b, x)
    {
      var tmp := DequantBlock(f, w, base + b * BLOCK_BYTES);
      ghost var before := acc;
      for i := 0 to QK
        invariant acc == before + BlockDot(f, w, base + b * BLOCK_BYTES, x, b * QK, i)
      {
        acc := acc + tmp[i] * x[b * QK + i];
      }
    }
  }

  // ---- the grouped form ----

  datatype Lanes = Lanes(a: real, b: real, c: real, d: real)

  function Total(v: Lanes): real { v.a + v.b + v.c + v.d }

  /** Sixteen codes against sixteen inputs, four lanes at a time, scaled once. */
  function Group(u: seq<int>, x: seq<real>, at: nat, acc: Lanes, dsc: real): Lanes
    requires |u| == 16 && at + 16 <= |x|
  {
    Lanes(acc.a + Lane(u, x, at, 0) * dsc, acc.b + Lane(u, x, at, 1) * dsc, acc.c + Lane(u, x, at, 2) * dsc,
      acc.d + Lane(u, x, at, 3) * dsc)
  }

  function Term(u: seq<int>, x: seq<real>, at: nat, i: nat): real
    requires i < |u| && at + |u| <= |x|
  {
    (u[i] - 32) as real * x[at + i]
  }

  function Lane(u: seq<int>, x: seq<real>, at: nat, j: nat): real
    requires |u| == 16 && at + 16 <= |x| && j < 4
  {
    Term(u, x, at, j) + Term(u, x, at, j + 4) + Term(u, x, at, j + 8) + Term(u, x, at, j + 12)
  }

  ghost function GroupDot(u: seq<int>, x: seq<real>, at: nat, n: nat): real
    requires n <= |u| && at + |u| <= |x|
  {
    if n == 0 then 0.0 else GroupDot(u, x, at, n - 1) + Term(u, x, at, n - 1)
  }

  lemma LanesDot(u: seq<int>, x: seq<real>, at: nat)
    requires |u| == 16 && at + 16 <= |x|
    ensures Lane(u, x, at, 0) + Lane(u, x, at, 1) + Lane(u, x, at, 2) + Lane(u, x, at, 3) == GroupDot(u, x, at, |u|)
  {
    hide Term;
    assert GroupDot(u, x, at, 0) == 0.0;
    FourMore(u, x, at, 0);
    FourMore(u, x, at, 4);
    FourMore(u, x, at, 8);
    FourMore(u, x, at, 12);
  }

  lemma FourMore(u: seq<int>, x: seq<real>, at: nat, n: nat)
    requires n + 4 <= |u| && at + |u| <= |x|
    ensures GroupDot(u, x, at, n + 4) ==
            GroupDot(u, x, at, n) + Term(u, x, at, n) + Term(u, x, at, n + 1) + Term(u, x, at, n + 2) + Term(u, x, at,
            n + 3)
  {
    hide Term;
    assert GroupDot(u, x, at, n + 1) == GroupDot(u, x, at, n) + Term(u, x, at, n);
    assert GroupDot(u, x, at, n + 2) == GroupDot(u, x, at, n + 1) + Term(u, x, at, n + 1);
    assert GroupDot(u, x, at, n + 3) == GroupDot(u, x, at, n + 2) + Term(u, x, at, n + 2);
  }

  lemma GroupTotal(u: seq<int>, x: seq<real>, at: nat, acc: Lanes, dsc: real)
    requires |u| == 16 && at + 16 <= |x|
    ensures Total(Group(u, x, at, acc, dsc)) == Total(acc) + GroupDot(u, x, at, |u|) * dsc
  {
    hide Lane, GroupDot;
    LanesDot(u, x, at);
    Spread(Lane(u, x, at, 0), Lane(u, x, at, 1), Lane(u, x, at, 2), Lane(u, x, at, 3), dsc);
  }

  lemma Spread(a: real, b: real, c: real, d: real, k: real)
    ensures a * k + b * k + c * k + d * k == (a + b + c + d) * k
  {
  }

  /** The codes of a group: lanes 16 * side on, of one quarter. */
  function Codes(w: seq<byte>, base: nat, half: nat, quarter: nat, side: nat): (u: seq<int>)
    requires HasBlock(w, base) && half < 2 && quarter < 4 && side < 2
    ensures |u| == 16
  {
    seq<int>(16, i requires 0 <= i < 16 => VectorCode(w, base, half, quarter, 16 * side + i))
  }

  /** The vector form of a code: its last quarter shifts without masking. */
  function VectorCode(w: seq<byte>, base: nat, half: nat, quarter: nat, l: nat): nat
    requires HasBlock(w, base) && half < 2 && quarter < 4 && l < 32
  {
    var ql, qh := w[base + 64 * half + (if quarter % 2 == 0 then l else l + 32)], w[base + 128 + 32 * half + l];
    if quarter == 0 then ql % 16 + qh % 4 * 16
    else if quarter == 1 then ql % 16 + qh / 4 % 4 * 16
    else if quarter == 2 then ql / 16 + qh / 16 % 4 * 16
    else ql / 16 + qh / 64 * 16
  }

  lemma SameCode(w: seq<byte>, base: nat, half: nat, quarter: nat, l: nat)
    requires HasBlock(w, base) && half < 2 && quarter < 4 && l < 32
    ensures VectorCode(w, base, half, quarter, l) == Code(w, base, half, quarter, l)
  {
  }

  function GroupScale(w: seq<byte>, base: nat, half: nat, quarter: nat, side: nat): int
    requires HasBlock(w, base) && half < 2 && quarter < 4 && side < 2
  {
    Signed(w[base + 192 + 8 * half + 2 * quarter + side])
  }

  lemma GroupWeight(f: HalfValue, w: seq<byte>, base: nat, half: nat, quarter: nat, side: nat, i: nat)
    requires HasBlock(w, base) && half < 2 && quarter < 4 && side < 2 && i < 16
    ensures Weight(f, w, base, 128 * half + 32 * quarter + 16 * side + i) ==
              Delta(f, w, base) * GroupScale(w, base, half, quarter,
                side) as real * (Codes(w, base, half, quarter, side)[i] - 32) as real
  {
    hide Weight, VectorCode, Code;
    var l := 16 * side + i;
    WeightIs(f, w, base, half, quarter, l);
    SameCode(w, base, half, quarter, l);
    assert l / 16 == side;
  }

  /** A scaled group sum is the part of the block's dot product over its sixteen positions. */
  lemma {:induction false} GroupPart(f: HalfValue, w: seq<byte>, base: nat, x: seq<real>, at: nat, half: nat,
                                     quarter: nat, side: nat, n: nat)
    requires HasBlock(w, base) && half < 2 && quarter < 4 && side < 2 && n <= 16 && at + QK <= |x|
    ensures var p := 128 * half + 32 * quarter + 16 * side;
            BlockDot(f, w, base, x, at, p + n) - BlockDot(f, w, base, x, at, p)
            == GroupDot(Codes(w, base, half, quarter, side), x, at + p,
              n) * (Delta(f, w, base) * GroupScale(w, base, half, quarter, side) as real)
  {
    hide Weight, Codes, GroupScale, Delta;
    if n > 0 {
      GroupPart(f, w, base, x, at, half, quarter, side, n - 1);
      GroupWeight(f, w, base, half, quarter, side, n - 1);
      var p := 128 * half + 32 * quarter + 16 * side;
      var u, k := Codes(w, base, half, quarter, side),
        Delta(f, w, base) * GroupScale(w, base, half, quarter, side) as real;
      Factor(GroupDot(u, x, at + p, n - 1), (u[n - 1] - 32) as real, x[at + p + n - 1], k);
    }
  }

  lemma Factor(s: real, q: real, v: real, k: real)
    ensures (s + q * v) * k == s * k + k * q * v
  {
    assert (s + q * v) * k == s * k + q * v * k;
  }

  /** One group of a half. */
  method AddGroup(f: HalfValue, w: seq<byte>, base: nat, x: seq<real>, at: nat, half: nat, quarter: nat, side: nat,
                  acc: Lanes) returns (r: Lanes)
    requires HasBlock(w, base) && half < 2 && quarter < 4 && side < 2 && at + QK <= |x|
    ensures Total(r) == Total(acc) + Part(f, w, base, x, at, half, quarter, side)
  {
    hide Codes, GroupScale, Delta, GroupDot, Group, BlockDot, Total;
    var p := 128 * half + 32 * quarter + 16 * side;
    var u, dsc := Codes(w, base, half, quarter, side),
      Delta(f, w, base) * GroupScale(w, base, half, quarter, side) as real;
    r := Group(u, x, at + p, acc, dsc);
    GroupTotal(u, x, at + p, acc, dsc);
    GroupPart(f, w, base, x, at, half, quarter, side, |u|);
  }

  ghost function Part(f: HalfValue, w: seq<byte>, base: nat, x: seq<real>, at: nat, half: nat, quarter: nat,
                      side: nat): real
    requires HasBlock(w, base) && half < 2 && quarter < 4 && side < 2 && at + QK <= |x|
  {
    var p := 128 * half + 32 * quarter + 16 * side;
    BlockDot(f, w, base, x, at, p + 16) - BlockDot(f, w, base, x, at, p)
  }

  /** The eight groups of a half, in the order of the vector code. */
  method AddHalf(f: HalfValue, w: seq<byte>, base: nat, x: seq<real>, at: nat, half: nat, start: Lanes)
    returns (acc: Lanes)
    requires HasBlock(w, base) && half < 2 && at + QK <= |x|
    ensures Total(acc) == Total(start) + (BlockDot(f, w, base, x, at, 128 * half + 128) - BlockDot(f, w, base, x, at,
            128 * half))
  {
    hide Total, BlockDot;
    acc := AddGroup(f, w, base, x, at, half, 0, 0, start);
    acc := AddGroup(f, w, base, x, at, half, 1, 0, acc);
    acc := AddGroup(f, w, base, x, at, half, 2, 0, acc);
    acc := AddGroup(f, w, base, x, at, half, 3, 0, acc);
    acc := AddGroup(f, w, base, x, at, half, 0, 1, acc);
    acc := AddGroup(f, w, base, x, at, half, 1, 1, acc);
    acc := AddGroup(f, w, base, x, at, half, 2, 1, acc);
    acc := AddGroup(f, w, base, x, at, half, 3, 1, acc);
  }

  /** GROUPED REFINES SIMPLE. The vector form, scaling each group of sixteen once and adding the four
      lanes at the end, computes the dot product of the dequantised row. */
  method RowDotGrouped(f: HalfValue, w: seq<byte>, base: nat, nb: nat, x: seq<real>) returns (dot: real)
    requires HasRow(w, base, nb, x)
    ensures dot == RowDot(f, w, base, nb, x)
  {
    hide BlockDot;
    var acc := Lanes(0.0, 0.0, 0.0, 0.0);
    for b := 0 to nb
      invariant Total(acc) == RowDot(f, w, base, b, x)
    {
      hide Total;
      EmptyDot(f, w, base + b * BLOCK_BYTES, x, b * QK);
      acc := AddHalf(f, w, base + b * BLOCK_BYTES, x, b * QK, 0, acc);
      acc := AddHalf(f, w, base + b * BLOCK_BYTES, x, b * QK, 1, acc);
    }
    dot := acc.a + acc.b + acc.c + acc.d;
  }

  lemma EmptyDot(f: HalfValue, w: seq<byte>, base: nat, x: seq<real>, at: nat)
    requires HasBlock(w, base) && at + QK <= |x|
    ensures BlockDot(f, w, base, x, at, 0) == 0.0
  {
  }

  // ---- the rows over the threads ----

  function Threads(wanted: int, rows: nat): (n: nat)
    ensures 1 <= n <= 64
  {
    var a := if wanted < 1 then 1 else wanted;
    var b := if a > rows then (if rows > 0 then rows else 1) else a;
    if b > 64 then 64 else b
  }

  /** Where job t starts. */
  function Start(rows: nat, n: nat, t: nat): nat
    requires n > 0
  {
    rows * t / n
  }

  lemma StartsGrow(rows: nat, n: nat, t: nat, u: nat)
    requires n > 0 && t <= u
    ensures Start(rows, n, t) <= Start(rows, n, u)
  {
    assert rows * t <= rows * u;
    DivGrows(rows * t, rows * u, n);
  }

  lemma DivGrows(a: nat, b: nat, n: nat)
    requires n > 0 && a <= b
    ensures a / n <= b / n
  {
    Between(a, n);
    Between(b, n);
    if b / n + 1 <= a / n {
      Times(n, b / n + 1, a / n);
    }
  }

  lemma Between(a: nat, n: nat)
    requires n > 0
    ensures n * (a / n) <= a < n * (a / n) + n
  {
  }

  lemma Times(n: nat, p: nat, q: nat)
    requires p <= q
    ensures n * p <= n * q
  {
  }

  lemma StartEnds(rows: nat, n: nat)
    requires n > 0
    ensures Start(rows, n, 0) == 0 && Start(rows, n, n) == rows
  {
    DivExact(0, n);
    DivExact(rows, n);
  }

  lemma DivExact(r: nat, n: nat)
    requires n > 0
    ensures r * n / n == r
  {
    var q := r * n / n;
    Between(r * n, n);
    if q < r {
      Times(n, q + 1, r);
    } else if r < q {
      Times(n, r + 1, q);
    }
  }

  /** Job t of n has row r. */
  predicate Owns(rows: nat, n: nat, t: nat, r: nat)
    requires n > 0
  {
    Start(rows, n, t) <= r < Start(rows, n, t + 1)
  }

  lemma {:induction false} SomeOwner(rows: nat, n: nat, k: nat, r: nat) returns (t: nat)
    requires n > 0 && k <= n && r < Start(rows, n, k)
    ensures t < k && Owns(rows, n, t, r)
  {
    hide Start;
    StartEnds(rows, n);
    if Start(rows, n, k - 1) <= r {
      t := k - 1;
    } else {
      t := SomeOwner(rows, n, k - 1, r);
    }
  }

  /** EACH ROW ONCE. Whatever the row and thread counts, every row belongs to exactly one job. */
  lemma OwnedOnce(rows: nat, n: nat, r: nat) returns (t: nat)
    requires n > 0 && r < rows
    ensures t < n && Owns(rows, n, t, r) && forall u: nat :: u < n && Owns(rows, n, u, r) ==> u == t
  {
    hide Start;
    StartEnds(rows, n);
    t := SomeOwner(rows, n, n, r);
    forall u: nat | u < n && Owns(rows, n, u, r)
      ensures u == t
    {
      if u < t {
        StartsGrow(rows, n, u + 1, t);
      } else if t < u {
        StartsGrow(rows, n, t + 1, u);
      }
    }
  }

  predicate HasMatrix(w: seq<byte>, rows: nat, nb: nat, x: seq<real>) {
    rows * (nb * BLOCK_BYTES) <= |w| && nb * QK <= |x|
  }

  lemma RowFits(w: seq<byte>, rows: nat, nb: nat, x: seq<real>, r: nat)
    requires HasMatrix(w, rows, nb, x) && r < rows
    ensures HasRow(w, r * (nb * BLOCK_BYTES), nb, x)
  {
    var s := nb * BLOCK_BYTES;
    assert (r + 1) * s <= rows * s;
    assert (r + 1) * s == r * s + s;
  }

  ghost predicate RowRight(f: HalfValue, w: seq<byte>, rows: nat, nb: nat, x: seq<real>, y: seq<real>, r: nat)
    requires HasMatrix(w, rows, nb, x) && r < rows == |y|
  {
    RowFits(w, rows, nb, x, r);
    y[r] == RowDot(f, w, r * (nb * BLOCK_BYTES), nb, x)
  }

  /** One turn of run_job's loop: row r is computed and stored, no other changes. */
  method RunRow(f: HalfValue, w: seq<byte>, rows: nat, nb: nat, x: seq<real>, y: array<real>, r: nat)
    requires HasMatrix(w, rows, nb, x) && r < rows == y.Length
    modifies y
    ensures forall k :: 0 <= k < rows && k != r ==> y[k] == old(y[k])
    ensures RowRight(f, w, rows, nb, x, y[..], r)
  {
    hide RowDot, HasRow, HasMatrix;
    RowFits(w, rows, nb, x, r);
    y[r] := RowDotGrouped(f, w, r * (nb * BLOCK_BYTES), nb, x);
  }

  /** How often a job takes a turn. */
  function Turns(schedule: seq<nat>, t: nat): nat { multiset(schedule)[t] }

  /** A schedule that gives every job at least a turn per row. */
  ghost predicate Exhausts(schedule: seq<nat>, rows: nat, n: nat)
    requires n > 0
  {
    && (forall i :: 0 <= i < |schedule| ==> schedule[i] < n)
    && forall t: nat :: t < n ==> Start(rows, n, t + 1) <= Start(rows, n, t) + Turns(schedule, t)
  }

  /** Where job t is after its turns: past as many rows, at most all of its own. */
  function Reached(rows: nat, n: nat, schedule: seq<nat>, t: nat): nat
    requires n > 0
  {
    var next := Start(rows, n, t) + Turns(schedule, t);
    if next < Start(rows, n, t + 1) then next else Start(rows, n, t + 1)
  }

  lemma NextTurn(rows: nat, n: nat, schedule: seq<nat>, i: nat, t: nat)
    requires n > 0 && i < |schedule|
    ensures Turns(schedule[..i + 1], t) == Turns(schedule[..i], t) + if schedule[i] == t then 1 else 0
  {
    assert schedule[..i + 1] == schedule[..i] + [schedule[i]];
  }

  /** Every job is where its turns have brought it. */
  ghost predicate Advanced(rows: nat, n: nat, schedule: seq<nat>, at: seq<nat>)
    requires n > 0
  {
    |at| == n && forall t :: 0 <= t < n ==> at[t] == Reached(rows, n, schedule, t)
  }

  lemma AdvancedStart(rows: nat, n: nat, at: seq<nat>)
    requires n > 0 && |at| == n && forall t :: 0 <= t < n ==> at[t] == Start(rows, n, t)
    ensures Advanced(rows, n, [], at)
  {
    hide Start;
    forall t | 0 <= t < n
      ensures at[t] == Reached(rows, n, [], t)
    {
      StartsGrow(rows, n, t, t + 1);
    }
  }

  lemma AdvancedStep(rows: nat, n: nat, schedule: seq<nat>, at: seq<nat>, i: nat, t: nat, next: nat)
    requires n > 0 && i < |schedule| && Advanced(rows, n, schedule[..i], at) && schedule[i] == t < n
    requires next == if at[t] < Start(rows, n, t + 1) then at[t] + 1 else at[t]
    ensures Advanced(rows, n, schedule[..i + 1], at[t := next])
  {
    hide Start, Turns;
    var after, done := at[t := next], schedule[..i + 1];
    forall u | 0 <= u < n
      ensures after[u] == Reached(rows, n, done, u)
    {
      NextTurn(rows, n, schedule, i, u);
    }
  }

  lemma AdvancedBounds(rows: nat, n: nat, schedule: seq<nat>, at: seq<nat>, t: nat)
    requires n > 0 && Advanced(rows, n, schedule, at) && t < n
    ensures at[t] <= Start(rows, n, t + 1) <= rows
    ensures Start(rows, n, t + 1) <= Start(rows, n, t) + Turns(schedule, t) ==> at[t] == Start(rows, n, t + 1)
  {
    hide Start, Turns;
    StartEnds(rows, n);
    StartsGrow(rows, n, t + 1, n);
  }

  /** The rows each job has passed are right. */
  ghost predicate Passed(f: HalfValue, w: seq<byte>, rows: nat, nb: nat, x: seq<real>, y: seq<real>, n: nat,
                         at: seq<nat>)
    requires HasMatrix(w, rows, nb, x) && n > 0 && |at| == n && |y| == rows
  {
    forall t, r :: 0 <= t < n && 0 <= r < rows && Start(rows, n, t) <= r < at[t] ==> RowRight(f, w, rows, nb, x, y, r)
  }

  lemma PassedStep(f: HalfValue, w: seq<byte>, rows: nat, nb: nat, x: seq<real>, y: seq<real>, z: seq<real>, n: nat,
                   at: seq<nat>, t: nat)
    requires HasMatrix(w, rows, nb, x) && n > 0 && |at| == n && |y| == |z| == rows && t < n && at[t] < rows
    requires Passed(f, w, rows, nb, x, y, n, at) && RowRight(f, w, rows, nb, x, z, at[t])
    requires forall k :: 0 <= k < rows && k != at[t] ==> z[k] == y[k]
    ensures Passed(f, w, rows, nb, x, z, n, at[t := at[t] + 1])
  {
    hide Start, RowRight, HasMatrix;
    var next := at[t := at[t] + 1];
    forall u, r | 0 <= u < n && 0 <= r < rows && Start(rows, n, u) <= r < next[u]
      ensures RowRight(f, w, rows, nb, x, z, r)
    {
      if r != at[t] {
        assert RowRight(f, w, rows, nb, x, y, r);
        SameRow(f, w, rows, nb, x, y, z, r);
      }
    }
  }

  /** q6k_matvec_f32: the jobs take turns as `schedule` says, a row at a time, in any interleaving that runs
      them all to their end. */
  method MatVec(f: HalfValue, w: seq<byte>, rows: nat, nb: nat, x: seq<real>, y: array<real>, wanted: int,
                schedule: seq<nat>)
    requires HasMatrix(w, rows, nb, x) && y.Length == rows && Exhausts(schedule, rows, Threads(wanted, rows))
    modifies y
    ensures forall r :: 0 <= r < rows ==> RowRight(f, w, rows, nb, x, y[..], r)
  {
    hide HasMatrix, RowRight, Start, Threads, Turns, Advanced, Passed;
    var n := Threads(wanted, rows);
    var at: seq<nat> := seq<nat>(n, t requires 0 <= t < n => Start(rows, n, t));
    AdvancedStart(rows, n, at);
    NonePassed(f, w, rows, nb, x, y[..], n, at);
    assert schedule[..0] == [];
    for i := 0 to |schedule|
      invariant |at| == n && Advanced(rows, n, schedule[..i], at) && Passed(f, w, rows, nb, x, y[..], n, at)
    {
      var t := schedule[i];
      AdvancedBounds(rows, n, schedule[..i], at, t);
      AdvancedStep(rows, n, schedule, at, i, t, if at[t] < Start(rows, n, t + 1) then at[t] + 1 else at[t]);
      if at[t] < Start(rows, n, t + 1) {
        ghost var was := y[..];
        RunRow(f, w, rows, nb, x, y, at[t]);
        PassedStep(f, w, rows, nb, x, was, y[..], n, at, t);
        at := at[t := at[t] + 1];
      } else {
        assert at[t := at[t]] == at;
      }
    }
    assert schedule[..|schedule|] == schedule;
    AllPassed(f, w, rows, nb, x, y[..], n, at, schedule);
  }

  lemma NonePassed(f: HalfValue, w: seq<byte>, rows: nat, nb: nat, x: seq<real>, y: seq<real>, n: nat, at: seq<nat>)
    requires HasMatrix(w, rows, nb, x) && n > 0 && |at| == n && |y| == rows
             && forall t :: 0 <= t < n ==> at[t] == Start(rows, n, t)
    ensures Passed(f, w, rows, nb, x, y, n, at)
  {
    hide Start, RowRight, HasMatrix;
  }

  lemma AllPassed(f: HalfValue, w: seq<byte>, rows: nat, nb: nat, x: seq<real>, y: seq<real>, n: nat, at: seq<nat>,
                  schedule: seq<nat>)
    requires HasMatrix(w, rows, nb, x) && n > 0 && |at| == n && |y| == rows
    requires Passed(f, w, rows, nb, x, y, n, at) && Advanced(rows, n, schedule, at) && Exhausts(schedule, rows, n)
    ensures forall r :: 0 <= r < rows ==> RowRight(f, w, rows, nb, x, y, r)
  {
    hide Start, RowRight, HasMatrix, Turns, Advanced;
    forall r: nat | r < rows
      ensures RowRight(f, w, rows, nb, x, y, r)
    {
      var t := OwnedOnce(rows, n, r);
      AdvancedBounds(rows, n, schedule, at, t);
    }
  }

  lemma SameRow(f: HalfValue, w: seq<byte>, rows: nat, nb: nat, x: seq<real>, y: seq<real>, z: seq<real>, r: nat)
    requires HasMatrix(w, rows, nb, x) && r < rows == |y| == |z| && y[r] == z[r] && RowRight(f, w, rows, nb, x, y, r)
    ensures RowRight(f, w, rows, nb, x, z, r)
  {
  }
}
