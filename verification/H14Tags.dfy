/** The tag rules of derive_refs (libane/ane_m2.c): which buffer a BAR slot reads or writes. */
module H14Tags {
  import opened Basics
  import opened H14Bytes
  import opened H14Records
  import opened H14Sort
  import opened H14Scan

  // ---- the smallest channel that fits ----

  predicate Fits(io: Io, dir: nat, reach: nat) { io.dir == dir && io.size >= reach }

  /** The better of two fitting channels: the smaller, then the lower id. */
  predicate Better(a: Io, b: Io) { a.size < b.size || (a.size == b.size && a.bufferId < b.bufferId) }

  function SmallestFit(ios: seq<Io>, dir: nat, reach: nat): Option<Io> {
    if ios == [] then None
    else
      var n := |ios| - 1;
      var before := SmallestFit(ios[..n], dir, reach);
      if Fits(ios[n], dir, reach) && (before.None? || Better(ios[n], before.value)) then Some(ios[n]) else before
  }

  method PickSmallestFit(ios: seq<Io>, dir: nat, reach: nat) returns (best: Option<Io>)
    ensures best == SmallestFit(ios, dir, reach)
  {
    best := None;
    for n := 0 to |ios|
      invariant best == SmallestFit(ios[..n], dir, reach)
    {
      assert ios[..n + 1][..n] == ios[..n];
      if !Fits(ios[n], dir, reach) {
        continue;
      }
      if best.None? || Better(ios[n], best.value) {
        best := Some(ios[n]);
      }
    }
    assert ios[..|ios|] == ios;
  }

  /** The pick is a fitting channel no fitting channel beats; there is none only when none fits. */
  lemma {:induction false} SmallestFitMeans(ios: seq<Io>, dir: nat, reach: nat)
    ensures var best := SmallestFit(ios, dir, reach);
            && (best.None? <==> forall i :: 0 <= i < |ios| ==> ios[i].dir != dir || ios[i].size < reach)
            && (best.Some? ==>
                  && best.value in ios && best.value.dir == dir && best.value.size >= reach
                  && forall i :: 0 <= i < |ios| && ios[i].dir == dir && ios[i].size >= reach ==>
                       || best.value.size < ios[i].size
                       || (best.value.size == ios[i].size && best.value.bufferId <= ios[i].bufferId))
  {
    if ios != [] {
      var n := |ios| - 1;
      SmallestFitMeans(ios[..n], dir, reach);
      forall i | 0 <= i < n
        ensures ios[..n][i] == ios[i]
      {
      }
    }
  }

  /** The first smallest output, whatever the reach. */
  function SmallestOutput(ios: seq<Io>): Option<Io> {
    if ios == [] then None
    else
      var n := |ios| - 1;
      var before := SmallestOutput(ios[..n]);
      if ios[n].dir == 1 && (before.None? || ios[n].size < before.value.size) then Some(ios[n]) else before
  }

  lemma {:induction false} SmallestOutputMeans(ios: seq<Io>)
    ensures var best := SmallestOutput(ios);
            && (best.None? <==> forall i :: 0 <= i < |ios| ==> ios[i].dir != 1)
            && (best.Some? ==> best.value in ios && best.value.dir == 1
                               && forall i :: 0 <= i < |ios| && ios[i].dir == 1 ==> best.value.size <= ios[i].size)
  {
    if ios != [] {
      var n := |ios| - 1;
      SmallestOutputMeans(ios[..n]);
      forall i | 0 <= i < n
        ensures ios[..n][i] == ios[i]
      {
      }
    }
  }

  /** The largest input allocation, truncated to 32 bits as the builder holds it. */
  function MaxIn(ios: seq<Io>): nat {
    if ios == [] then 0
    else
      var n := |ios| - 1;
      var before, size := MaxIn(ios[..n]), ios[n].size % 0x1_0000_0000;
      if ios[n].dir == 0 && size > before then size else before
  }

  lemma {:induction false} MaxInMeans(ios: seq<Io>)
    ensures forall i :: 0 <= i < |ios| && ios[i].dir == 0 ==> ios[i].size % 0x1_0000_0000 <= MaxIn(ios)
    ensures MaxIn(ios) == 0
            || exists i :: 0 <= i < |ios| && ios[i].dir == 0 && ios[i].size % 0x1_0000_0000 == MaxIn(ios)
  {
    if ios != [] {
      var n := |ios| - 1;
      MaxInMeans(ios[..n]);
      assert forall i :: 0 <= i < n ==> ios[..n][i] == ios[i];
    }
  }

  // ---- the context of a program ----

  /** Everything pass 2 reads: the bound channels, the scratch id (0 when disabled), the scan, and
      the source A and source B input slots in ascending order. */
  datatype Context = Context(ios: seq<Io>, scratch: nat, sc: Scan, srcA: seq<nat>, srcB: seq<nat>)

  function Id(n: nat): nat { n }

  /** The slots in ascending order, repetitions kept. */
  ghost function Ascending(slots: seq<nat>): (r: seq<nat>)
    ensures SortedBy(r, Id) && multiset(r) == multiset(slots)
  {
    if slots == [] then []
    else
      var n := |slots| - 1;
      assert slots == slots[..n] + [slots[n]];
      Insert(Ascending(slots[..n]), slots[n])
  }

  ghost function Insert(s: seq<nat>, x: nat): (r: seq<nat>)
    requires SortedBy(s, Id)
    ensures SortedBy(r, Id) && multiset(r) == multiset(s) + multiset{x}
  {
    if s == [] || Id(s[|s| - 1]) <= Id(x) then
      InsertLast(s, x);
      s + [x]
    else
      var n := |s| - 1;
      assert s == s[..n] + [s[n]];
      var r := Insert(s[..n], x);
      InsertUnder(r, s[..n], x, s[n]);
      r + [s[n]]
  }

  lemma InsertLast(s: seq<nat>, x: nat)
    requires SortedBy(s, Id) && (s == [] || Id(s[|s| - 1]) <= Id(x))
    ensures SortedBy(s + [x], Id)
  {
  }

  lemma InsertUnder(r: seq<nat>, p: seq<nat>, x: nat, top: nat)
    requires SortedBy(r, Id) && SortedBy(p + [top], Id) && multiset(r) == multiset(p) + multiset{x} && Id(x) < Id(top)
    ensures SortedBy(r + [top], Id)
  {
    var s := p + [top];
    forall i | 0 <= i < |r|
      ensures Id(r[i]) <= Id(top)
    {
      assert r[i] in multiset(r);
      if r[i] != x {
        var k :| 0 <= k < |p| && p[k] == r[i];
        assert Id(s[k]) <= Id(s[|p|]);
      }
    }
  }

  lemma LastIsLargest(a: seq<nat>, x: nat)
    requires SortedBy(a, Id) && x in multiset(a)
    ensures a != [] && x <= a[|a| - 1]
  {
    var i :| 0 <= i < |a| && a[i] == x;
    assert i == |a| - 1 || Id(a[i]) <= Id(a[|a| - 1]);
  }

  lemma DropLast(a: seq<nat>)
    requires a != [] && SortedBy(a, Id)
    ensures multiset(a) == multiset(a[..|a| - 1]) + multiset{a[|a| - 1]} && SortedBy(a[..|a| - 1], Id)
  {
    assert a == a[..|a| - 1] + [a[|a| - 1]];
  }

  lemma Cancel(p: multiset<nat>, q: multiset<nat>, x: nat)
    requires p + multiset{x} == q + multiset{x}
    ensures p == q
  {
    assert p == (p + multiset{x}) - multiset{x} && q == (q + multiset{x}) - multiset{x};
  }

  /** There is one ascending order. */
  lemma {:induction false} AscendingUnique(a: seq<nat>, b: seq<nat>)
    requires SortedBy(a, Id) && SortedBy(b, Id) && multiset(a) == multiset(b)
    ensures a == b
  {
    hide SortedBy;
    assert |multiset(a)| == |a| && |multiset(b)| == |b|;
    if a != [] {
      var n := |a| - 1;
      DropLast(a);
      DropLast(b);
      LastIsLargest(a, b[n]);
      LastIsLargest(b, a[n]);
      Cancel(multiset(a[..n]), multiset(b[..n]), a[n]);
      AscendingUnique(a[..n], b[..n]);
      assert a == a[..n] + [a[n]] && b == b[..n] + [b[n]];
    }
  }

  method SortSlots(slots: seq<nat>) returns (sorted: seq<nat>)
    ensures sorted == Ascending(slots)
  {
    var a := new nat[|slots|](i requires 0 <= i < |slots| => slots[i]);
    assert a[..] == slots && a[..|slots|] == a[..];
    InsertionSort(a, Id, |slots|);
    sorted := a[..|slots|];
    AscendingUnique(sorted, Ascending(slots));
  }

  ghost function ContextOf(ios: seq<Io>, scratch: nat, sc: Scan): Context {
    Context(ios, scratch, sc, Ascending(sc.srcA), Ascending(sc.srcB))
  }

  method BuildContext(ios: seq<Io>, scratch: nat, sc: Scan) returns (c: Context)
    ensures c == ContextOf(ios, scratch, sc)
  {
    var a := SortSlots(sc.srcA);
    var b := SortSlots(sc.srcB);
    c := Context(ios, scratch, sc, a, b);
  }

  /** The select pipeline: some source B input slot lies below some source A input slot ... */
  predicate Blend(c: Context) {
    c.srcA != [] && c.srcB != [] && c.srcB[0] < c.srcA[|c.srcA| - 1]
  }

  /** ... whatever order pass 1 met the slots in. */
  lemma BlendMeans(ios: seq<Io>, scratch: nat, sc: Scan)
    ensures Blend(ContextOf(ios, scratch, sc)) <==> exists b, a :: b in sc.srcB && a in sc.srcA && b < a
  {
    hide SortedBy, Ascending;
    var c := ContextOf(ios, scratch, sc);
    SameMembers(sc.srcA);
    SameMembers(sc.srcB);
    if Blend(c) {
      assert c.srcB[0] in sc.srcB && c.srcA[|c.srcA| - 1] in sc.srcA;
    }
    forall b, a | b in sc.srcB && a in sc.srcA && b < a
      ensures Blend(c)
    {
      FirstIsSmallest(c.srcB, b);
      LastIsLargest(c.srcA, a);
    }
  }

  lemma SameMembers(slots: seq<nat>)
    ensures forall x :: x in slots <==> x in Ascending(slots)
  {
    forall x
      ensures x in slots <==> x in Ascending(slots)
    {
      assert x in slots <==> x in multiset(slots);
      assert x in Ascending(slots) <==> x in multiset(Ascending(slots));
    }
  }

  lemma FirstIsSmallest(a: seq<nat>, x: nat)
    requires SortedBy(a, Id) && x in a
    ensures a != [] && a[0] <= x
  {
    var i :| 0 <= i < |a| && a[i] == x;
    assert i == 0 || Id(a[0]) <= Id(a[i]);
  }

  predicate Matmul(c: Context) { |c.srcA| >= 2 }

  /** The order ranks are given in: source B slots descending, then source A slots ascending. */
  function RankOrder(c: Context): seq<nat> {
    seq(|c.srcB|, i requires 0 <= i < |c.srcB| => c.srcB[|c.srcB| - 1 - i]) + c.srcA
  }

  /** The last position of a slot in the order; a repeated slot is ranked again. */
  function LastIndex(order: seq<nat>, slot: nat): (r: Option<nat>)
    ensures r.Some? ==>
              r.value < |order| && order[r.value] == slot
              && forall i :: r.value < i < |order| ==> order[i] != slot
    ensures r.None? <==> slot !in order
  {
    if order == [] then None
    else if order[|order| - 1] == slot then Some(|order| - 1)
    else
      assert order == order[..|order| - 1] + [order[|order| - 1]];
      LastIndex(order[..|order| - 1], slot)
  }

  function Rank(c: Context, slot: nat): Option<nat> {
    var k := LastIndex(RankOrder(c), slot);
    if k.Some? then Some(5 + k.value) else None
  }

  /** Source B slots take ranks first, from the highest slot down; source A slots follow, ascending. */
  lemma RankOrdered(c: Context, s: nat, t: nat)
    requires SortedBy(c.srcA, Id) && SortedBy(c.srcB, Id) && Rank(c, s).Some? && Rank(c, t).Some?
    ensures s in c.srcA && t in c.srcA && s < t ==> Rank(c, s).value < Rank(c, t).value
    ensures s !in c.srcA && t in c.srcA ==> Rank(c, s).value < Rank(c, t).value
    ensures s !in c.srcA && t !in c.srcA && s > t ==> Rank(c, s).value < Rank(c, t).value
  {
    var order := RankOrder(c);
    var i, j, n := LastIndex(order, s).value, LastIndex(order, t).value, |c.srcB|;
    hide LastIndex, SortedBy;
    RankPart(c, s, i);
    RankPart(c, t, j);
    if s in c.srcA && t in c.srcA && j <= i {
      SortedAt(c.srcA, j - n, i - n);
    }
    if s !in c.srcA && t !in c.srcA && j <= i {
      SortedAt(c.srcB, n - 1 - i, n - 1 - j);
    }
  }

  lemma RankPart(c: Context, s: nat, i: nat)
    requires i < |RankOrder(c)| && RankOrder(c)[i] == s && forall k :: i < k < |RankOrder(c)| ==> RankOrder(c)[k] != s
    ensures s in c.srcA <==> i >= |c.srcB|
    ensures if i >= |c.srcB| then c.srcA[i - |c.srcB|] == s else c.srcB[|c.srcB| - 1 - i] == s
  {
    if s in c.srcA {
      var k :| 0 <= k < |c.srcA| && c.srcA[k] == s;
      assert RankOrder(c)[|c.srcB| + k] == s;
    }
  }

  lemma SortedAt(l: seq<nat>, i: nat, j: nat)
    requires SortedBy(l, Id) && i <= j < |l|
    ensures l[i] <= l[j]
  {
    assert i == j || Id(l[i]) <= Id(l[j]);
  }

  // ---- the rules ----

  predicate IsKdma(addr: nat) { KDMA_LO <= addr < KDMA_HI }

  predicate IsSrc(addr: nat) { addr == SRC_A || addr == SRC_B }

  function OrErr(o: Option<Io>, why: Why): Result<nat> {
    if o.Some? then Ok(o.value.bufferId) else Err(why)
  }

  function TagLegacy(addr: nat, slot: nat): Result<nat> {
    if IsKdma(addr) then Ok(KERNEL_TAG)
    else if addr == DST then Ok(4)
    else if IsSrc(addr) then
      if slot <= 1 then Ok(KERNEL_TAG)
      else if slot <= 3 then Err(RefSlot23)
      else Ok(if addr == SRC_A then 5 else 6)
    else Err(RefRole)
  }

  function TagExtents(c: Context, addr: nat, slot: nat): Result<nat>
    requires ScanShape(c.sc) && slot < SLOTS
  {
    if IsKdma(addr) then Ok(KERNEL_TAG)
    else if addr == DST then
      var o := c.sc.dst[slot];
      if o.chunk == 0 then OrErr(SmallestOutput(c.ios), NoChannel)
      else
        var fit := SmallestFit(c.ios, 1, o.max + o.chunk);
        if fit.Some? then Ok(fit.value.bufferId)
        else
          var bare := SmallestFit(c.ios, 1, o.max);
          if bare.Some? then Ok(bare.value.bufferId)
          else if c.scratch != 0 then Ok(c.scratch)
          else Err(NoChannel)
    else if IsSrc(addr) then
      if slot <= 1 then Ok(KERNEL_TAG)
      else if Matmul(c) then Ok(slot)
      else
        var o := c.sc.src[slot];
        OrErr(SmallestFit(c.ios, 0, o.max + (if o.chunk == 0 then MaxIn(c.ios) else o.chunk)), NoChannel)
    else Err(RefRole)
  }

  /** The tag of a BAR reference in this program. */
  function TagOf(c: Context, addr: nat, slot: nat): Result<nat>
    requires ScanShape(c.sc) && slot < SLOTS
  {
    if Blend(c) && IsSrc(addr) && slot > 1 then
      var rank := Rank(c, slot);
      if rank.Some? then Ok(rank.value)
      else if c.scratch == 0 then Err(ScratchDisabled)
      else Ok(c.scratch)
    else if Matmul(c) || Blend(c) then TagExtents(c, addr, slot)
    else TagLegacy(addr, slot)
  }

  /** The tag is that of the smallest channel of a direction that reaches, the lowest id among
      equals. */
  ghost predicate Reaches(c: Context, dir: nat, reach: nat, tag: nat) {
    exists i :: && 0 <= i < |c.ios| && c.ios[i].bufferId == tag && c.ios[i].dir == dir && c.ios[i].size >= reach
                && forall k :: 0 <= k < |c.ios| && c.ios[k].dir == dir && c.ios[k].size >= reach ==>
                     c.ios[i].size < c.ios[k].size || (c.ios[i].size == c.ios[k].size && tag <= c.ios[k].bufferId)
  }

  ghost predicate NoneReaches(c: Context, dir: nat, reach: nat) {
    forall k :: 0 <= k < |c.ios| ==> c.ios[k].dir != dir || c.ios[k].size < reach
  }

  lemma PickReaches(c: Context, dir: nat, reach: nat)
    ensures SmallestFit(c.ios, dir, reach).None? <==> NoneReaches(c, dir, reach)
    ensures SmallestFit(c.ios, dir, reach).Some? ==>
            Reaches(c, dir, reach, SmallestFit(c.ios, dir, reach).value.bufferId)
  {
    hide SmallestFit;
    SmallestFitMeans(c.ios, dir, reach);
    var best := SmallestFit(c.ios, dir, reach);
    if best.Some? {
      var i :| 0 <= i < |c.ios| && c.ios[i] == best.value;
    }
  }

  /** The tag is that of an output none is smaller than. */
  ghost predicate SmallestOut(c: Context, tag: nat) {
    exists i :: && 0 <= i < |c.ios| && c.ios[i].bufferId == tag && c.ios[i].dir == 1
                && forall k :: 0 <= k < |c.ios| && c.ios[k].dir == 1 ==> c.ios[i].size <= c.ios[k].size
  }

  lemma OutputPicked(c: Context)
    ensures SmallestOutput(c.ios).None? <==> forall k :: 0 <= k < |c.ios| ==> c.ios[k].dir != 1
    ensures SmallestOutput(c.ios).Some? ==> SmallestOut(c, SmallestOutput(c.ios).value.bufferId)
  {
    hide SmallestOutput;
    SmallestOutputMeans(c.ios);
    var best := SmallestOutput(c.ios);
    if best.Some? {
      var i :| 0 <= i < |c.ios| && c.ios[i] == best.value;
    }
  }

  /** WHAT A TAG COVERS. Under the extents rule a destination with several writes goes to the smallest
      output that holds the last write and one chunk, else to the smallest that holds its offset,
      else to scratch, and one with a single write to the smallest output; a source goes to the
      smallest input that holds its last read and one chunk. */
  lemma ExtentsCover(c: Context, slot: nat)
    requires ScanShape(c.sc) && slot < SLOTS
    ensures var o, tag := c.sc.dst[slot], TagExtents(c, DST, slot);
            o.chunk != 0 && tag.Ok? ==>
              || Reaches(c, 1, o.max + o.chunk, tag.value)
              || (NoneReaches(c, 1, o.max + o.chunk) && Reaches(c, 1, o.max, tag.value))
              || (NoneReaches(c, 1, o.max) && c.scratch != 0 && tag.value == c.scratch)
    ensures c.sc.dst[slot].chunk == 0 ==>
              && (TagExtents(c, DST, slot).Err? <==> forall k :: 0 <= k < |c.ios| ==> c.ios[k].dir != 1)
              && (TagExtents(c, DST, slot).Ok? ==> SmallestOut(c, TagExtents(c, DST, slot).value))
    ensures slot > 1 && !Matmul(c) ==> TagExtents(c, SRC_A, slot) == TagExtents(c, SRC_B, slot)
    ensures var o, tag := c.sc.src[slot], TagExtents(c, SRC_A, slot);
            slot > 1 && !Matmul(c) && tag.Ok? ==>
              Reaches(c, 0, o.max + (if o.chunk == 0 then MaxIn(c.ios) else o.chunk), tag.value)
    ensures slot > 1 && !Matmul(c) && TagExtents(c, SRC_A, slot).Err? ==>
              NoneReaches(c, 0, c.sc.src[slot].max + (if c.sc.src[slot].chunk == 0 then MaxIn(c.ios)
                else c.sc.src[slot].chunk))
  {
    hide SmallestFit, SmallestOutput, SmallestOut, MaxIn, Reaches, NoneReaches, ScanShape;
    OutputPicked(c);
    assert |c.sc.dst| == |c.sc.src| == SLOTS by { ShapeLengths(c.sc); }
    var d, s := c.sc.dst[slot], c.sc.src[slot];
    PickReaches(c, 1, d.max + d.chunk);
    PickReaches(c, 1, d.max);
    PickReaches(c, 0, s.max + (if s.chunk == 0 then MaxIn(c.ios) else s.chunk));
  }

  lemma ShapeLengths(sc: Scan)
    requires ScanShape(sc)
    ensures |sc.dst| == |sc.src| == SLOTS
  {
  }

  /** The channel of a register class: the destination is 4, source A 5 and source B 6; kernel reads, and
      sources at slots 0 and 1, are the kernel's. */
  function RoleTag(addr: nat, slot: nat): nat {
    if IsKdma(addr) then KERNEL_TAG
      else if addr == DST then 4 else if slot <= 1 then KERNEL_TAG else if addr == SRC_A then 5 else 6
  }

  lemma ElementwiseTag(c: Context, addr: nat, slot: nat)
    requires ScanShape(c.sc) && slot < SLOTS && !Matmul(c) && !Blend(c) && TagOf(c, addr, slot).Ok?
    ensures TagOf(c, addr, slot).value == RoleTag(addr, slot) && (RoleTag(addr, slot) in {5, 6} ==> slot > 3)
  {
    hide Matmul, Blend, TagExtents, ScanShape;
  }

  predicate Eligible(addr: nat) { addr == DST || IsKdma(addr) || IsSrc(addr) }

  /** Every register that receives a tag may be merged to scratch, so the builder's refusal of an
      ineligible mix is never reached. */
  lemma TaggedIsEligible(c: Context, addr: nat, slot: nat)
    requires ScanShape(c.sc) && slot < SLOTS && TagOf(c, addr, slot).Ok?
    ensures Eligible(addr)
  {
  }
}
