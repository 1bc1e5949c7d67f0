/** The program digest of libane/ane_m2.c: the driver's key for an already loaded program. */
module ProgramDigest {
  import opened Basics
  import opened Sha256

  // ---- what is hashed ----

  const IDS: seq<nat> := [1, 2, 3, 4, 5, 7]

  const WORD_LIMIT: nat := 0x1_0000_0000_0000_0000

  /** The n low bytes of a number, least significant first. */
  function LittleEndian(v: nat, n: nat): (r: seq<byte>)
    ensures |r| == n
  {
    if n == 0 then [] else [v % 256] + LittleEndian(v / 256, n - 1)
  }

  function Power(n: nat): nat { if n == 0 then 1 else 256 * Power(n - 1) }

  lemma {:induction false} LittleEndianInjective(v: nat, u: nat, n: nat)
    requires v < Power(n) && u < Power(n) && LittleEndian(v, n) == LittleEndian(u, n)
    ensures v == u
  {
    if n > 0 {
      var a, b := LittleEndian(v, n), LittleEndian(u, n);
      assert a[0] == b[0] && a[1..] == b[1..] && a[1..] == LittleEndian(v / 256, n - 1)
        && b[1..] == LittleEndian(u / 256, n - 1);
      LittleEndianInjective(v / 256, u / 256, n - 1);
    }
  }

  /** One section: its id and its size as 64-bit words, then its bytes. */
  function Section(id: nat, data: seq<byte>): seq<byte> {
    LittleEndian(id, 8) + LittleEndian(|data|, 8) + data
  }

  /** The first n sections, in id order. */
  function Encoded(secs: seq<seq<byte>>, n: nat): seq<byte>
    requires n <= |secs| == |IDS|
  {
    if n == 0 then [] else Encoded(secs, n - 1) + Section(IDS[n - 1], secs[n - 1])
  }

  /** The sections from the k-th on: the same bytes, read from the front. */
  ghost function EncodedFrom(secs: seq<seq<byte>>, k: nat): seq<byte>
    requires k <= |secs| == |IDS|
    decreases |IDS| - k
  {
    if k == |IDS| then [] else Section(IDS[k], secs[k]) + EncodedFrom(secs, k + 1)
  }

  lemma {:induction false} EncodedSplit(secs: seq<seq<byte>>, k: nat)
    requires k <= |secs| == |IDS|
    ensures Encoded(secs, |IDS|) == Encoded(secs, k) + EncodedFrom(secs, k)
    decreases |IDS| - k
  {
    hide Section;
    if k < |IDS| {
      EncodedSplit(secs, k + 1);
      assert Encoded(secs, k + 1) == Encoded(secs, k) + Section(IDS[k], secs[k]);
    }
  }

  ghost predicate Sized(secs: seq<seq<byte>>) {
    |secs| == |IDS| && forall i :: 0 <= i < |secs| ==> |secs[i]| < WORD_LIMIT
  }

  lemma SectionCut(id: nat, data: seq<byte>, rest: seq<byte>)
    ensures var all := Section(id, data) + rest;
            && |all| >= 16 + |data| && all[8..16] == LittleEndian(|data|, 8)
            && all[16..16 + |data|] == data && all[16 + |data|..] == rest
  {
    hide LittleEndian;
  }

  lemma PowerEight()
    ensures Power(8) == WORD_LIMIT
  {
    assert Power(4) == 0x1_0000_0000;
  }

  lemma {:induction false} FromInjective(a: seq<seq<byte>>, b: seq<seq<byte>>, k: nat)
    requires Sized(a) && Sized(b) && k <= |IDS| && EncodedFrom(a, k) == EncodedFrom(b, k)
    ensures a[k..] == b[k..]
    decreases |IDS| - k
  {
    hide Section, LittleEndian;
    if k < |IDS| {
      SectionCut(IDS[k], a[k], EncodedFrom(a, k + 1));
      SectionCut(IDS[k], b[k], EncodedFrom(b, k + 1));
      PowerEight();
      LittleEndianInjective(|a[k]|, |b[k]|, 8);
      FromInjective(a, b, k + 1);
      assert a[k..] == [a[k]] + a[k + 1..] && b[k..] == [b[k]] + b[k + 1..];
    }
  }

  /** NO AMBIGUITY. The hashed bytes determine all six sections. */
  lemma EncodedInjective(a: seq<seq<byte>>, b: seq<seq<byte>>)
    requires Sized(a) && Sized(b) && Encoded(a, |IDS|) == Encoded(b, |IDS|)
    ensures a == b
  {
    hide EncodedFrom;
    EncodedSplit(a, 0);
    EncodedSplit(b, 0);
    assert Encoded(a, 0) == [] && Encoded(b, 0) == [];
    assert [] + EncodedFrom(a, 0) == EncodedFrom(a, 0) && [] + EncodedFrom(b, 0) == EncodedFrom(b, 0);
    FromInjective(a, b, 0);
    assert a[0..] == a && b[0..] == b;
  }

  /** The number eight bytes stand for, least significant first. */
  function FromLittle(b: seq<byte>): nat {
    if b == [] then 0 else b[0] + 256 * FromLittle(b[1..])
  }

  lemma {:induction false} LittleBack(v: nat, n: nat)
    requires v < Power(n)
    ensures FromLittle(LittleEndian(v, n)) == v
  {
    if n > 0 {
      LittleBack(v / 256, n - 1);
      assert LittleEndian(v, n)[1..] == LittleEndian(v / 256, n - 1);
    }
  }

  /** HEADERS. Section k of the hashed bytes starts with its id, 1 to 5 and then 7, and its size, each as a 64-bit
      word, least significant byte first, and its bytes follow. */
  lemma SectionHeader(secs: seq<seq<byte>>, k: nat)
    requires Sized(secs) && k < 6
    ensures var all, at := Encoded(secs, 6), |Encoded(secs, k)|;
            && at + 16 + |secs[k]| <= |all|
            && FromLittle(all[at..at + 8]) == (if k < 5 then k + 1 else 7)
            && FromLittle(all[at + 8..at + 16]) == |secs[k]|
            && all[at + 16..at + 16 + |secs[k]|] == secs[k]
  {
    hide LittleEndian, FromLittle;
    EncodedSplit(secs, k);
    var all, at := Encoded(secs, 6), |Encoded(secs, k)|;
    var id, rest := IDS[k], EncodedFrom(secs, k + 1);
    assert id == if k < 5 then k + 1 else 7;
    var sec := Section(id, secs[k]);
    assert all == Encoded(secs, k) + (sec + rest);
    SectionCut(id, secs[k], rest);
    SliceAfter(Encoded(secs, k), sec + rest, 0, 8);
    SliceAfter(Encoded(secs, k), sec + rest, 8, 16);
    SliceAfter(Encoded(secs, k), sec + rest, 16, 16 + |secs[k]|);
    SectionId(id, secs[k], rest);
    PowerEight();
    LittleBack(id, 8);
    LittleBack(|secs[k]|, 8);
  }

  lemma SectionId(id: nat, data: seq<byte>, rest: seq<byte>)
    ensures |Section(id, data) + rest| >= 8 && (Section(id, data) + rest)[0..8] == LittleEndian(id, 8)
  {
    hide LittleEndian;
  }

  lemma SliceAfter(p: seq<byte>, q: seq<byte>, i: nat, j: nat)
    requires i <= j <= |q|
    ensures (p + q)[|p| + i..|p| + j] == q[i..j]
  {
  }

  // ---- the digest ----

  /** ane_m2_program_digest: refused when a section is empty, else the hash of the encoding. */
  method Compute(secs: seq<seq<byte>>) returns (r: Option<seq<byte>>)
    requires Sized(secs) && |Encoded(secs, |IDS|)| < 0x2000_0000_0000_0000
    ensures r.None? <==> exists i :: 0 <= i < |secs| && secs[i] == []
    ensures r.Some? ==> r.value == Hash(Encoded(secs, |IDS|))
  {
    hide Hash, Holds, Section, LittleEndian;
    var c := new Context();
    for i := 0 to |IDS|
      invariant c.Valid() && fresh(c) && fresh(c.buf) && c.message == Encoded(secs, i)
      invariant forall k :: 0 <= k < i ==> secs[k] != []
    {
      if secs[i] == [] {
        return None;
      }
      c.Update(LittleEndian(IDS[i], 8) + LittleEndian(|secs[i]|, 8));
      c.Update(secs[i]);
      SectionIs(IDS[i], secs[i]);
      assert c.message == Encoded(secs, i) + Section(IDS[i], secs[i]);
    }
    var out := new byte[DIGEST](_ => 0);
    c.Final(out);
    r := Some(out[..]);
  }

  lemma SectionIs(id: nat, data: seq<byte>)
    ensures Section(id, data) == LittleEndian(id, 8) + LittleEndian(|data|, 8) + data
  {
  }
}
