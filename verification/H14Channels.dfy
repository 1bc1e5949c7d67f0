/** The slot-to-channel inference of derive_refs (libane/ane_m2.c) told from the records alone: which
    channel each register class of an elementwise, a matmul and a blend program is bound to. */
module H14Channels {
  import opened Basics
  import opened H14Bytes
  import opened H14Stream
  import opened H14Records
  import opened H14Sort
  import opened H14Scan
  import opened H14Tags
  import opened H14Derive
  import opened H14Ports
  import opened H14Build
  import opened H14DerivedBuild

  // ---- the input slots pass 1 lists ----

  /** The slots above 1 read through source B before any destination write, one entry for each such read. */
  ghost function ReadsB(rs: seq<Record>): seq<nat> {
    if rs == [] then []
    else
      var n := |rs| - 1;
      var before, slot := ReadsB(rs[..n]), Slot(rs[n].header);
      if slot > 1 && At(rs[n], slot, SRC_B, SRC_B) && !Sees(rs[..n], n, slot, DST, DST) then before + [slot] else before
  }

  ghost predicate Distinct(l: seq<nat>) { forall i, j :: 0 <= i < j < |l| ==> l[i] != l[j] }

  lemma NothingListed()
    ensures ScanAll(Start(), []) == Ok(Start()) && Start().srcB == ReadsB([]) && Distinct(Start().srcA)
  {
  }

  lemma {:induction false} Listed(rs: seq<Record>)
    requires Payloaded(rs) && ScanAll(Start(), rs).Ok?
    ensures ScanAll(Start(), rs).value.srcB == ReadsB(rs) && Distinct(ScanAll(Start(), rs).value.srcA)
    decreases |rs|
  {
    hide ScanAll, ScanShape, ScanRecord, Slot, ReadsB, ReadsLast, Sees, Distinct;
    if rs == [] {
      NothingListed();
    } else {
      var n := |rs| - 1;
      ScanLast(rs);
      Listed(rs[..n]);
      var before, after := ScanAll(Start(), rs[..n]).value, ScanAll(Start(), rs).value;
      SlotScanned(rs[..n], Slot(rs[n].header));
      SourceAScanned(rs, before, after);
      SourceBScanned(rs, before, after);
      ReadsStep(rs);
    }
  }

  ghost predicate ReadsLast(rs: seq<Record>)
    requires rs != []
  {
    var n, slot := |rs| - 1, Slot(rs[|rs| - 1].header);
    slot > 1 && At(rs[n], slot, SRC_B, SRC_B) && !Sees(rs[..n], n, slot, DST, DST)
  }

  lemma ReadsStep(rs: seq<Record>)
    requires rs != []
    ensures var n := |rs| - 1;
            ReadsB(rs) == if ReadsLast(rs) then ReadsB(rs[..n]) + [Slot(rs[n].header)] else ReadsB(rs[..n])
  {
    hide Slot, At, Sees;
  }

  lemma SourceBScanned(rs: seq<Record>, before: Scan, after: Scan)
    requires Payloaded(rs) && rs != [] && ScanShape(before) && ScanRecord(before, rs[|rs| - 1]) == Ok(after)
    requires var n, slot := |rs| - 1, Slot(rs[|rs| - 1].header);
             before.hasDst[slot] <==> Sees(rs[..n], n, slot, DST, DST)
    ensures after.srcB == if ReadsLast(rs) then before.srcB + [Slot(rs[|rs| - 1].header)] else before.srcB
  {
    hide Track, IsBarRef, Slot, Addr, HasBit28, Sees;
  }

  lemma SourceAScanned(rs: seq<Record>, before: Scan, after: Scan)
    requires Payloaded(rs) && rs != [] && ScanShape(before) && ScanRecord(before, rs[|rs| - 1]) == Ok(after)
    requires var slot := Slot(rs[|rs| - 1].header); slot in before.srcA ==> before.seenA[slot]
    requires Distinct(before.srcA)
    ensures Distinct(after.srcA)
  {
    hide Track, IsBarRef, Slot, Addr, HasBit28;
  }

  /** What pass 1 knows of a slot. */
  lemma SlotScanned(rs: seq<Record>, slot: nat)
    requires Payloaded(rs) && ScanAll(Start(), rs).Ok? && slot < SLOTS
    ensures var sc := ScanAll(Start(), rs).value;
            && (sc.hasDst[slot] <==> Sees(rs, |rs|, slot, DST, DST))
            && (slot in sc.srcA ==> sc.seenA[slot])
  {
    hide ScanAll, TrackAll, OffsetsAt, Sees, IsInputA, IsInputB;
    ScanMeans(rs, slot);
    SeenIfListed(rs, slot);
  }

  lemma SeenIfListed(rs: seq<Record>, slot: nat)
    ensures IsInputA(rs, slot) ==> Sees(rs, |rs|, slot, SRC_A, SRC_A)
  {
    hide At;
  }

  lemma Members(rs: seq<Record>, slot: nat)
    requires Payloaded(rs) && ScanAll(Start(), rs).Ok?
    ensures slot in ScanAll(Start(), rs).value.srcA <==> IsInputA(rs, slot)
    ensures slot in ScanAll(Start(), rs).value.srcB <==> IsInputB(rs, slot)
  {
    hide ScanAll, IsInputA, IsInputB, TrackAll, OffsetsAt, Sees;
    if slot < SLOTS {
      ScanMeans(rs, slot);
    } else {
      NoInput(rs, ScanAll(Start(), rs).value, slot);
    }
  }

  // ---- matmul and blend, from the records ----

  /** Two slots are inputs of source A. */
  ghost predicate MatmulRecords(rs: seq<Record>) {
    exists a: nat, b: nat :: a != b && IsInputA(rs, a) && IsInputA(rs, b)
  }

  /** Some input slot of source B lies below one of source A. */
  ghost predicate BlendRecords(rs: seq<Record>) {
    exists b: nat, a: nat :: IsInputB(rs, b) && IsInputA(rs, a) && b < a
  }

  lemma SortedLength(l: seq<nat>)
    ensures |Ascending(l)| == |l|
  {
    hide Ascending, SortedBy;
    assert |multiset(Ascending(l))| == |Ascending(l)| && |multiset(l)| == |l|;
  }

  lemma MatmulOfRecords(rs: seq<Record>, ios: seq<Io>, scratch: nat)
    requires Payloaded(rs) && ScanAll(Start(), rs).Ok?
    ensures Matmul(ContextOf(ios, scratch, ScanAll(Start(), rs).value)) <==> MatmulRecords(rs)
  {
    hide ScanAll, Ascending, IsInputA, ReadsB;
    var srcA := ScanAll(Start(), rs).value.srcA;
    Listed(rs);
    SortedLength(srcA);
    if |srcA| >= 2 {
      Members(rs, srcA[0]);
      Members(rs, srcA[1]);
    }
    if a: nat, b: nat :| a != b && IsInputA(rs, a) && IsInputA(rs, b) {
      Members(rs, a);
      Members(rs, b);
      var i :| 0 <= i < |srcA| && srcA[i] == a;
      var j :| 0 <= j < |srcA| && srcA[j] == b;
    }
  }

  // ---- positions in sorted lists ----

  /** How many entries are at least x. */
  function AtLeast(l: seq<nat>, x: nat): nat {
    if l == [] then 0 else AtLeast(l[..|l| - 1], x) + if l[|l| - 1] >= x then 1 else 0
  }

  lemma AtLeastSplit(l: seq<nat>, r: seq<nat>, x: nat)
    ensures AtLeast(l + r, x) == AtLeast(l, x) + AtLeast(r, x)
    decreases |r|
  {
    if r == [] {
      assert l + r == l;
    } else {
      var n := |r| - 1;
      assert (l + r)[..|l + r| - 1] == l + r[..n];
      AtLeastSplit(l, r[..n], x);
    }
  }

  lemma AtLeastMore(s: seq<nat>, y: nat, x: nat)
    ensures AtLeast(s + [y], x) == AtLeast(s, x) + if y >= x then 1 else 0
  {
    assert (s + [y])[..|s|] == s;
  }

  lemma {:induction false} AtLeastInsert(s: seq<nat>, y: nat, x: nat)
    requires SortedBy(s, Id)
    ensures AtLeast(Insert(s, y), x) == AtLeast(s, x) + if y >= x then 1 else 0
    decreases |s|
  {
    hide SortedBy, AtLeast;
    if s == [] || Id(s[|s| - 1]) <= Id(y) {
      AtLeastMore(s, y, x);
    } else {
      var n := |s| - 1;
      DropLast(s);
      AtLeastInsert(s[..n], y, x);
      AtLeastMore(s[..n], s[n], x);
      AtLeastMore(Insert(s[..n], y), s[n], x);
      assert s == s[..n] + [s[n]];
    }
  }

  lemma {:induction false} AtLeastSorted(l: seq<nat>, x: nat)
    ensures AtLeast(Ascending(l), x) == AtLeast(l, x)
    decreases |l|
  {
    hide SortedBy, Insert;
    if l != [] {
      var n := |l| - 1;
      AtLeastSorted(l[..n], x);
      AtLeastInsert(Ascending(l[..n]), l[n], x);
    }
  }

  lemma {:induction false} AllAtLeast(l: seq<nat>, x: nat)
    ensures (forall i :: 0 <= i < |l| ==> l[i] >= x) ==> AtLeast(l, x) == |l|
    ensures (forall i :: 0 <= i < |l| ==> l[i] < x) ==> AtLeast(l, x) == 0
  {
    if l != [] {
      AllAtLeast(l[..|l| - 1], x);
    }
  }

  /** In an ascending list the first entry that is x has the entries at least x from it on. */
  lemma SortedFrom(l: seq<nat>, k: nat)
    requires SortedBy(l, Id) && k < |l| && (k > 0 ==> l[k - 1] != l[k])
    ensures AtLeast(l, l[k]) == |l| - k
  {
    hide SortedBy, AtLeast;
    var x, low, high := l[k], l[..k], l[k..];
    assert l == low + high;
    AtLeastSplit(low, high, x);
    AllAtLeast(low, x);
    AllAtLeast(high, x);
    forall i | 0 <= i < |low|
      ensures low[i] < x
    {
      SortedAt(l, i, k - 1);
      SortedAt(l, k - 1, k);
    }
    forall i | 0 <= i < |high|
      ensures high[i] >= x
    {
      SortedAt(l, k, k + i);
    }
  }

  // ---- the channel of a blend source ----

  /** The input slots of source A below a slot. */
  ghost function InputsBelow(rs: seq<Record>, slot: nat): set<nat> { set a: nat | a < slot && IsInputA(rs, a) }

  /** The channel a source of a blend program reads at a slot above 1: the reads of source B at this slot and
      above come first, then the source A slots, ascending; a slot written before it is read is scratch. */
  ghost function BlendChannel(rs: seq<Record>, slot: nat): nat {
    if IsInputA(rs, slot) then 5 + |ReadsB(rs)| + |InputsBelow(rs, slot)|
    else if IsInputB(rs, slot) then 4 + AtLeast(ReadsB(rs), slot)
    else 0x40
  }

  ghost function Entries(l: seq<nat>): set<nat> { set x | x in l }

  /** In an ascending list without repetition the position of an entry is the number of smaller ones. */
  lemma {:induction false} Position(l: seq<nat>, k: nat)
    requires SortedBy(l, Id) && Distinct(l) && k < |l|
    ensures |Entries(l[..k])| == k && forall x :: x in l[..k] <==> x in l && x < l[k]
    decreases k
  {
    forall i | 0 <= i < k
      ensures l[i] < l[k]
    {
      SortedAt(l, i, k);
    }
    forall i | k <= i < |l|
      ensures l[i] >= l[k]
    {
      SortedAt(l, k, i);
    }
    DistinctSize(l, k);
    forall x
      ensures x in l[..k] <==> x in l && x < l[k]
    {
      if x in l && x < l[k] {
        var i :| 0 <= i < |l| && l[i] == x;
        assert l[..k][i] == x;
      }
    }
  }

  lemma {:induction false} DistinctSize(l: seq<nat>, k: nat)
    requires Distinct(l) && k <= |l|
    ensures |Entries(l[..k])| == k
  {
    if k > 0 {
      DistinctSize(l, k - 1);
      MoreMembers(l[..k - 1], l[k - 1]);
      assert l[..k] == l[..k - 1] + [l[k - 1]];
    }
  }

  lemma MoreMembers(l: seq<nat>, y: nat)
    requires y !in l
    ensures |Entries(l + [y])| == |Entries(l)| + 1
  {
    assert Entries(l + [y]) == Entries(l) + {y};
  }

  lemma SortedDistinctNats(l: seq<nat>)
    requires Distinct(l)
    ensures Distinct(Ascending(l))
  {
    hide Ascending, SortedBy;
    var r := Ascending(l);
    forall i, j | 0 <= i < j < |r|
      ensures r[i] != r[j]
    {
      if r[i] == r[j] {
        Twice(r, i, j);
        Once(l, r[i]);
      }
    }
  }

  lemma Twice(l: seq<nat>, i: nat, j: nat)
    requires i < j < |l| && l[i] == l[j]
    ensures multiset(l)[l[i]] >= 2
  {
    assert l == l[..j] + l[j..] && l[..j][i] == l[i] && l[j..][0] == l[i];
    assert multiset(l) == multiset(l[..j]) + multiset(l[j..]);
    assert l[i] in l[..j] && l[i] in l[j..];
  }

  lemma {:induction false} Once(l: seq<nat>, x: nat)
    requires Distinct(l)
    ensures multiset(l)[x] <= 1
    decreases |l|
  {
    if l != [] {
      var n := |l| - 1;
      Once(l[..n], x);
      assert l == l[..n] + [l[n]];
      if x == l[n] {
        assert x !in l[..n];
        assert x !in multiset(l[..n]);
      }
    }
  }

  lemma BlendRank(rs: seq<Record>, ios: seq<Io>, scratch: nat, slot: nat)
    requires Payloaded(rs) && ScanAll(Start(), rs).Ok?
    ensures var rank := Rank(ContextOf(ios, scratch, ScanAll(Start(), rs).value), slot);
            && (rank.None? <==> !IsInputA(rs, slot) && !IsInputB(rs, slot))
            && (rank.Some? ==> rank.value == BlendChannel(rs, slot))
  {
    hide ScanAll, Ascending, SortedBy, IsInputA, IsInputB, LastIndex, ReadsB, AtLeast, Distinct;
    var sc := ScanAll(Start(), rs).value;
    var c := ContextOf(ios, scratch, sc);
    Listed(rs);
    Members(rs, slot);
    SameMembers(sc.srcA);
    SameMembers(sc.srcB);
    SortedLength(sc.srcB);
    InOrder(c, slot);
    var k := LastIndex(RankOrder(c), slot);
    if k.Some? {
      RankPart(c, slot, k.value);
      if slot in c.srcA {
        RankA(rs, sc, c.srcA, slot, k.value - |c.srcB|);
      } else {
        RankB(c, slot, k.value);
        AtLeastSorted(sc.srcB, slot);
      }
    }
  }

  lemma InOrder(c: Context, slot: nat)
    ensures slot in RankOrder(c) <==> slot in c.srcA || slot in c.srcB
  {
    if slot in c.srcA {
      var i :| 0 <= i < |c.srcA| && c.srcA[i] == slot;
      assert RankOrder(c)[|c.srcB| + i] == slot;
    }
    if slot in c.srcB {
      var i :| 0 <= i < |c.srcB| && c.srcB[i] == slot;
      assert RankOrder(c)[|c.srcB| - 1 - i] == slot;
    }
  }

  lemma RankA(rs: seq<Record>, sc: Scan, sorted: seq<nat>, slot: nat, k: nat)
    requires Payloaded(rs) && ScanAll(Start(), rs) == Ok(sc) && Distinct(sc.srcA) && sorted == Ascending(sc.srcA)
    requires k < |sorted| && sorted[k] == slot
    ensures |InputsBelow(rs, slot)| == k
  {
    hide ScanAll, Ascending, SortedBy, IsInputA, Distinct;
    SortedDistinctNats(sc.srcA);
    Position(sorted, k);
    SameMembers(sc.srcA);
    forall x: nat
      ensures x in sc.srcA <==> IsInputA(rs, x)
    {
      Members(rs, x);
    }
    assert InputsBelow(rs, slot) == Entries(sorted[..k]);
  }

  lemma RankB(c: Context, slot: nat, k: nat)
    requires SortedBy(c.srcB, Id) && k < |c.srcB| && c.srcB[|c.srcB| - 1 - k] == slot
    requires forall i :: k < i < |RankOrder(c)| ==> RankOrder(c)[i] != slot
    ensures AtLeast(c.srcB, slot) == k + 1
  {
    hide SortedBy, AtLeast;
    var at := |c.srcB| - 1 - k;
    if at > 0 {
      assert RankOrder(c)[k + 1] == c.srcB[at - 1];
    }
    SortedFrom(c.srcB, at);
  }

  // ---- one output ----

  /** The channels of a package have one output: channel 4. */
  ghost predicate OneOutput(ios: seq<Io>, size: nat) {
    && (exists i :: 0 <= i < |ios| && ios[i] == Io(4, 1, size))
    && forall i :: 0 <= i < |ios| && ios[i].dir == 1 ==> ios[i] == Io(4, 1, size)
  }

  lemma PicksOutput(ios: seq<Io>, size: nat, reach: nat)
    requires OneOutput(ios, size)
    ensures SmallestOutput(ios) == Some(Io(4, 1, size))
    ensures SmallestFit(ios, 1, reach) == if size >= reach then Some(Io(4, 1, size)) else None
  {
    hide SmallestOutput, SmallestFit;
    SmallestOutputMeans(ios);
    SmallestFitMeans(ios, 1, reach);
    var i :| 0 <= i < |ios| && ios[i] == Io(4, 1, size);
    assert Fits(ios[i], 1, reach) <==> size >= reach;
    var best := SmallestFit(ios, 1, reach);
    if best.Some? {
      var k :| 0 <= k < |ios| && ios[k] == best.value;
    }
  }

  /** The writes at a slot do not fit an output of this size: two or more, no two in a row at one offset, and
      one past the end. */
  ghost predicate Spills(offsets: seq<nat>, size: nat) {
    && |offsets| >= 2 && (forall i :: 0 <= i < |offsets| - 1 ==> offsets[i] != offsets[i + 1])
    && exists i :: 0 <= i < |offsets| && offsets[i] > size
  }

  lemma SpillsMeans(offsets: seq<nat>, size: nat)
    ensures var o := TrackAll(offsets); Spills(offsets, size) <==> o.chunk != 0 && o.max > size
  {
    hide TrackAll, Gap;
    TrackMeans(offsets);
    var o := TrackAll(offsets);
    if |offsets| >= 2 {
      ChunkNonzero(offsets, o.chunk);
    }
    if o.chunk != 0 && o.max > size {
      var i :| 0 <= i < |offsets| && offsets[i] == o.max;
    }
  }

  lemma ChunkNonzero(offsets: seq<nat>, chunk: nat)
    requires |offsets| >= 2 && IsChunk(offsets, chunk)
    ensures chunk != 0 <==> forall i :: 0 <= i < |offsets| - 1 ==> offsets[i] != offsets[i + 1]
  {
    var k :| 0 <= k < |offsets| - 1 && chunk == GapAt(offsets, k);
    if chunk != 0 {
      forall i | 0 <= i < |offsets| - 1
        ensures offsets[i] != offsets[i + 1]
      {
        assert chunk <= GapAt(offsets, i);
      }
    }
  }

  // ---- the channel of a reference ----

  /** The channel a reference through register addr binds a slot to, in a program with these records and an
      output of this size. */
  ghost function Role(rs: seq<Record>, size: nat, addr: nat, slot: nat): nat
    requires Payloaded(rs)
  {
    if 0x1900 <= addr < 0x1a40 then 2
    else if addr == 0x1508 then
      if (MatmulRecords(rs) || BlendRecords(rs)) && Spills(OffsetsAt(rs, slot, 0x1508, 0x1508), size) then 0x40 else 4
    else if slot <= 1 then 2
    else if BlendRecords(rs) then BlendChannel(rs, slot)
    else if MatmulRecords(rs) then slot
    else if addr == 0x1110 then 5 else 6
  }

  lemma BlendIs(rs: seq<Record>, ios: seq<Io>, scratch: nat)
    requires Payloaded(rs) && ScanAll(Start(), rs).Ok?
    ensures Blend(ContextOf(ios, scratch, ScanAll(Start(), rs).value)) <==> BlendRecords(rs)
  {
    hide ScanAll, Ascending, Blend, IsInputA, IsInputB;
    var sc := ScanAll(Start(), rs).value;
    BlendMeans(ios, scratch, sc);
    forall slot: nat
      ensures slot in sc.srcA <==> IsInputA(rs, slot)
      ensures slot in sc.srcB <==> IsInputB(rs, slot)
    {
      Members(rs, slot);
    }
  }

  lemma DstTracked(rs: seq<Record>, slot: nat)
    requires Payloaded(rs) && ScanAll(Start(), rs).Ok? && slot < SLOTS
    ensures ScanAll(Start(), rs).value.dst[slot] == TrackAll(OffsetsAt(rs, slot, 0x1508, 0x1508))
  {
    hide ScanAll, TrackAll, OffsetsAt, Sees, IsInputA, IsInputB;
    ScanMeans(rs, slot);
  }

  lemma DstRole(rs: seq<Record>, ios: seq<Io>, size: nat, slot: nat)
    requires Payloaded(rs) && ScanAll(Start(), rs).Ok? && slot < SLOTS && OneOutput(ios, size)
    ensures TagExtents(ContextOf(ios, 0x40, ScanAll(Start(), rs).value), DST, slot) ==
              Ok(if Spills(OffsetsAt(rs, slot, 0x1508, 0x1508), size) then 0x40 else 4)
  {
    hide ScanAll, Ascending, TrackAll, OffsetsAt, SmallestFit, SmallestOutput, OneOutput, Spills, Matmul, ScanShape;
    ShapeLengths(ScanAll(Start(), rs).value);
    var o := ScanAll(Start(), rs).value.dst[slot];
    DstTracked(rs, slot);
    SpillsMeans(OffsetsAt(rs, slot, 0x1508, 0x1508), size);
    PicksOutput(ios, size, o.max + o.chunk);
    PicksOutput(ios, size, o.max);
  }

  /** Every tag is the role of its register. */
  lemma TagIsRole(rs: seq<Record>, ios: seq<Io>, size: nat, addr: nat, slot: nat)
    requires Payloaded(rs) && ScanAll(Start(), rs).Ok? && slot < SLOTS && OneOutput(ios, size)
    ensures var tag := TagOf(ContextOf(ios, 0x40, ScanAll(Start(), rs).value), addr, slot);
            tag.Ok? ==> tag.value == Role(rs, size, addr, slot)
  {
    hide ScanAll, Ascending, OffsetsAt, OneOutput, Spills, Matmul, Blend, MatmulRecords, BlendRecords, BlendChannel,
      Rank, ScanShape, IsInputA, IsInputB, SmallestFit, SmallestOutput, MaxIn;
    MatmulOfRecords(rs, ios, 0x40);
    BlendIs(rs, ios, 0x40);
    BlendRank(rs, ios, 0x40, slot);
    Unranked(rs, slot);
    DstRole(rs, ios, size, slot);
    var c := ContextOf(ios, 0x40, ScanAll(Start(), rs).value);
    if addr == DST {
      assert TagOf(c, addr, slot) == if Matmul(c) || Blend(c) then TagExtents(c, DST, slot) else Ok(4);
    } else if IsSrc(addr) && !IsKdma(addr) && !Blend(c) && Matmul(c) && slot > 1 {
      assert TagOf(c, addr, slot) == Ok(slot);
    }
  }

  lemma Unranked(rs: seq<Record>, slot: nat)
    ensures !IsInputA(rs, slot) && !IsInputB(rs, slot) ==> BlendChannel(rs, slot) == 0x40
  {
  }

  // ---- the derived refs ----

  /** Task i names the slot, first through a register of this channel. */
  ghost predicate NamesChannel(s: seq<byte>, ts: seq<Task>, size: nat, i: int, slot: nat, tag: nat)
    requires RecordsFit(s, ts)
  {
    && 0 <= i < |ts|
    && var first := FirstAt(Records(s, ts[i]).value, slot);
       first.Some? && Role(AllRecords(s, ts), size, Addr(first.value.header), slot) == tag
  }

  /** Some task names the slot, and all that do name it as this channel. */
  ghost predicate AllName(s: seq<byte>, ts: seq<Task>, size: nat, slot: nat, tag: nat)
    requires RecordsFit(s, ts)
  {
    && (exists i :: NamesChannel(s, ts, size, i, slot, tag))
    && forall i, t :: NamesChannel(s, ts, size, i, slot, t) ==> t == tag
  }

  /** Two tasks name the slot as different channels. */
  ghost predicate TwoName(s: seq<byte>, ts: seq<Task>, size: nat, slot: nat)
    requires RecordsFit(s, ts)
  {
    exists i, j, t, u :: NamesChannel(s, ts, size, i, slot, t) && NamesChannel(s, ts, size, j, slot, u) && t != u
  }

  lemma NamesIs(s: seq<byte>, ts: seq<Task>, ios: seq<Io>, size: nat, i: int, slot: nat, tag: nat)
    requires Derivable(s, ts, ios, 0x40) && OneOutput(ios, size)
    ensures Names(ProgramContext(s, ts, ios, 0x40), s, ts, i, slot, tag) <==> NamesChannel(s, ts, size, i, slot, tag)
  {
    hide ScanShape, Records, AllRecords, ScanAll, IsBarRef, TagOf, Addr, FirstAt, HasBit28, Role, OneOutput, TagsKnown,
      SlotTag, ContextOf;
    if 0 <= i < |ts| {
      var c, rs := ProgramContext(s, ts, ios, 0x40), Records(s, ts[i]).value;
      var first := FirstAt(rs, slot);
      if first.Some? {
        FirstIsIn(rs, slot);
        var k :| 0 <= k < |rs| && rs[k] == first.value;
        assert Tagged(c, rs) && TagRef(c, rs[k]).Ok?;
        TagIsRole(AllRecords(s, ts), ios, size, Addr(rs[k].header), slot);
      }
    }
  }

  lemma RefsByChannel(s: seq<byte>, ts: seq<Task>, ios: seq<Io>, size: nat, refs: seq<Ref>, slot: nat, tag: nat)
    requires Derivable(s, ts, ios, 0x40) && Derived(s, ts, ios, 0x40, refs) && OneOutput(ios, size)
    ensures Ref(slot, tag) in refs <==> AllName(s, ts, size, slot, tag) || (tag == 0x40 && TwoName(s, ts, size, slot))
    ensures Ref(slot, tag) in refs ==> Known(ProgramContext(s, ts, ios, 0x40), tag)
  {
    hide ScanShape, Records, AllRecords, ScanAll, SlotTag, Known, StrictlySorted, FirstTag, NamesChannel, Names,
      AllTagged, OneOutput;
    var c := ProgramContext(s, ts, ios, 0x40);
    forall i, t: nat
      ensures Names(c, s, ts, i, slot, t) <==> NamesChannel(s, ts, size, i, slot, t)
    {
      NamesIs(s, ts, ios, size, i, slot, t);
    }
    SlotTagMeans(c, s, ts, slot);
    assert Ref(slot, tag) in refs <==> SlotTag(c, s, ts, slot) == Tag(tag);
    assert SlotTag(c, s, ts, slot) != Conflict;
  }

  // ---- the built model ----

  /** The tasks of a package, and the size of its output. */
  ghost function TasksOf(d: seq<byte>): seq<Task>
    requires AcceptsDerived(d)
  {
    Split(Desc(d), 0, MAX_TASKS).value
  }

  ghost function OutputOf(d: seq<byte>): nat
    requires AcceptsDerived(d)
  {
    Tiles(d, 4) * 0x4000
  }

  lemma ChannelsOneOutput(d: seq<byte>, inputs: nat)
    requires |d| >= HEADER_BYTES && inputs <= 3
    ensures OneOutput(ChannelIos(d, inputs), Tiles(d, 4) * 0x4000)
  {
    hide Tiles;
    assert ChannelIos(d, inputs)[inputs] == Io(4, 1, Tiles(d, 4) * 0x4000);
  }

  /** THE CHANNELS. The built model of any program, elementwise, matmul or blend, binds a slot to the channel of
      the register its tasks first name it through exactly when all of them agree, and to scratch exactly
      when two differ. */
  lemma ChannelModel(d: seq<byte>, m: Model, slot: nat, tag: nat)
    requires AcceptsDerived(d) && IsDerivedBuild(d, m)
    ensures RecordsFit(Desc(d), TasksOf(d))
    ensures Ref(slot, tag) in m.refs <==>
              || AllName(Desc(d), TasksOf(d), OutputOf(d), slot, tag)
              || (tag == 0x40 && TwoName(Desc(d), TasksOf(d), OutputOf(d), slot))
  {
    hide Split, BlockCount, ChannelsOk, ScratchIo, Records, AllRecords, ScanAll, Resolved, Derived, AllName, TwoName,
      Zeros, ReadHeader, Tiles, ChannelIos, OneOutput, IosAre, SplitOk, Desc;
    ChannelsOneOutput(d, ReadHeader(d).inputCount);
    RefsByChannel(Desc(d), TasksOf(d), ChannelIos(d, ReadHeader(d).inputCount), OutputOf(d), m.refs, slot, tag);
  }

  /** Task i names the slot. */
  ghost predicate NamesSlot(s: seq<byte>, ts: seq<Task>, i: int, slot: nat)
    requires RecordsFit(s, ts)
  {
    0 <= i < |ts| && FirstAt(Records(s, ts[i]).value, slot).Some?
  }

  /** Some task names the slot, and all that do name it first through a source register. */
  ghost predicate OnlyRead(s: seq<byte>, ts: seq<Task>, slot: nat)
    requires RecordsFit(s, ts)
  {
    && (exists i :: NamesSlot(s, ts, i, slot))
    && forall i :: NamesSlot(s, ts, i, slot) ==>
         Addr(FirstAt(Records(s, ts[i]).value, slot).value.header) in {0x1110, 0x1128}
  }

  /** All tasks name a slot that is only read as the same channel. */
  lemma OnlyReadNames(s: seq<byte>, ts: seq<Task>, size: nat, slot: nat, tag: nat)
    requires RecordsFit(s, ts) && OnlyRead(s, ts, slot)
    requires Role(AllRecords(s, ts), size, 0x1110, slot) == Role(AllRecords(s, ts), size, 0x1128, slot)
    ensures AllName(s, ts, size, slot, tag) <==> tag == Role(AllRecords(s, ts), size, 0x1110, slot)
    ensures !TwoName(s, ts, size, slot)
  {
    hide Records, AllRecords, Role, Addr, FirstAt;
    var tag0 := Role(AllRecords(s, ts), size, 0x1110, slot);
    forall i, t: nat
      ensures NamesChannel(s, ts, size, i, slot, t) <==> NamesSlot(s, ts, i, slot) && t == tag0
    {
    }
    var i :| NamesSlot(s, ts, i, slot);
    assert NamesChannel(s, ts, size, i, slot, tag0);
  }

  lemma FirstEligible(s: seq<byte>, ts: seq<Task>, ios: seq<Io>, i: int, slot: nat)
    requires Derivable(s, ts, ios, 0x40) && NamesSlot(s, ts, i, slot)
    ensures Eligible(Addr(FirstAt(Records(s, ts[i]).value, slot).value.header))
  {
    hide ScanShape, Records, AllRecords, ScanAll, IsBarRef, TagOf, Addr, FirstAt, HasBit28, Eligible, TagsKnown,
      SlotTag, ContextOf;
    var c, rs := ProgramContext(s, ts, ios, 0x40), Records(s, ts[i]).value;
    FirstIsIn(rs, slot);
    var k :| 0 <= k < |rs| && rs[k] == FirstAt(rs, slot).value;
    assert Tagged(c, rs) && TagRef(c, rs[k]).Ok?;
    TaggedIsEligible(c, Addr(rs[k].header), slot);
  }

  lemma TaskEligible(d: seq<byte>, i: int, slot: nat)
    requires AcceptsDerived(d) && RecordsFit(Desc(d), TasksOf(d)) && NamesSlot(Desc(d), TasksOf(d), i, slot)
    ensures Eligible(Addr(FirstAt(Records(Desc(d), TasksOf(d)[i]).value, slot).value.header))
  {
    hide Split, BlockCount, ChannelsOk, Records, Resolved, Zeros, ReadHeader, ChannelIos, SplitOk, Desc, Eligible,
      NamesSlot, Derivable, Addr, FirstAt;
    FirstEligible(Desc(d), TasksOf(d), ChannelIos(d, ReadHeader(d).inputCount), i, slot);
  }

  /** A tag that is neither the kernel's nor scratch is the output or one of the inputs. */
  lemma BoundChannel(d: seq<byte>, m: Model, r: Ref)
    requires AcceptsDerived(d) && IsDerivedBuild(d, m) && r in m.refs && r.tag !in {2, 0x40}
    ensures r.tag == 4 || 5 <= r.tag < 5 + ReadHeader(d).inputCount
  {
    hide Split, BlockCount, ChannelsOk, Derived, Derivable, SplitOk, Tiles, Records, AllRecords;
    DerivedTagsBound(d, m, r);
    var k :| 0 <= k < |m.ios| && m.ios[k].bufferId == r.tag;
    var channels := ChannelIos(d, ReadHeader(d).inputCount);
    if k < |channels| {
      assert m.ios[k] == channels[k];
    }
  }

  /** A register that binds a slot of a matmul program to the channel of the slot's own number: a source, or the
      kernel at slot 2, or a destination at slot 4 whose writes fit the output. */
  ghost predicate OwnRegister(rs: seq<Record>, size: nat, addr: nat, slot: nat)
    requires Payloaded(rs)
  {
    || addr in {0x1110, 0x1128} || (slot == 2 && 0x1900 <= addr < 0x1a40)
    || (slot == 4 && addr == 0x1508 && !Spills(OffsetsAt(rs, slot, 0x1508, 0x1508), size))
  }

  lemma MatmulRole(rs: seq<Record>, size: nat, addr: nat, slot: nat)
    requires Payloaded(rs) && MatmulRecords(rs) && !BlendRecords(rs) && 1 < slot < 0x40 && Eligible(addr)
    ensures Role(rs, size, addr, slot) == slot <==> OwnRegister(rs, size, addr, slot)
  {
    hide MatmulRecords, BlendRecords, BlendChannel, OffsetsAt, Spills;
  }

  ghost predicate OwnFirst(s: seq<byte>, ts: seq<Task>, size: nat, i: int, slot: nat)
    requires RecordsFit(s, ts) && NamesSlot(s, ts, i, slot)
  {
    OwnRegister(AllRecords(s, ts), size, Addr(FirstAt(Records(s, ts[i]).value, slot).value.header), slot)
  }

  /** Some task names the slot, and all that do name it first through a register of the slot's own channel. */
  ghost predicate OnlyOwn(s: seq<byte>, ts: seq<Task>, size: nat, slot: nat)
    requires RecordsFit(s, ts)
  {
    && (exists i :: NamesSlot(s, ts, i, slot))
    && forall i :: NamesSlot(s, ts, i, slot) ==> OwnFirst(s, ts, size, i, slot)
  }

  lemma NamedSlot(s: seq<byte>, ts: seq<Task>, i: int, slot: nat)
    requires RecordsFit(s, ts) && NamesSlot(s, ts, i, slot)
    ensures slot < 0x40
  {
    hide Records, FirstAt;
    FirstIsIn(Records(s, ts[i]).value, slot);
  }

  lemma OwnNames(d: seq<byte>, slot: nat, i: int)
    requires AcceptsDerived(d) && RecordsFit(Desc(d), TasksOf(d)) && slot > 1
    requires var rs := AllRecords(Desc(d), TasksOf(d)); MatmulRecords(rs) && !BlendRecords(rs)
    requires NamesSlot(Desc(d), TasksOf(d), i, slot)
    ensures slot < 0x40
    ensures NamesChannel(Desc(d), TasksOf(d), OutputOf(d), i, slot, slot) <==>
              OwnFirst(Desc(d), TasksOf(d), OutputOf(d), i, slot)
  {
    assert HeaderOk(d);
    hide Desc, TasksOf, OutputOf, Records, AllRecords, Role, Addr, FirstAt, MatmulRecords, BlendRecords, AcceptsDerived,
      OwnRegister, Eligible;
    var s, ts, size := Desc(d), TasksOf(d), OutputOf(d);
    NamedSlot(s, ts, i, slot);
    TaskEligible(d, i, slot);
    MatmulRole(AllRecords(s, ts), size, Addr(FirstAt(Records(s, ts[i]).value, slot).value.header), slot);
  }

  /** A task names a slot as exactly one channel. */
  lemma NamesOne(s: seq<byte>, ts: seq<Task>, size: nat, i: int, slot: nat)
    requires RecordsFit(s, ts)
    ensures NamesSlot(s, ts, i, slot) <==> exists t: nat :: NamesChannel(s, ts, size, i, slot, t)
    ensures forall t: nat, u: nat ::
              NamesChannel(s, ts, size, i, slot, t) && NamesChannel(s, ts, size, i, slot, u) ==> t == u
  {
    hide Records, AllRecords, Role, Addr, FirstAt;
    if NamesSlot(s, ts, i, slot) {
      var addr := Addr(FirstAt(Records(s, ts[i]).value, slot).value.header);
      assert NamesChannel(s, ts, size, i, slot, Role(AllRecords(s, ts), size, addr, slot));
    }
  }

  lemma AllNameOwn(s: seq<byte>, ts: seq<Task>, size: nat, slot: nat)
    requires RecordsFit(s, ts)
    requires forall i :: NamesSlot(s, ts, i, slot) ==>
               (NamesChannel(s, ts, size, i, slot, slot) <==> OwnFirst(s, ts, size, i, slot))
    ensures AllName(s, ts, size, slot, slot) <==> OnlyOwn(s, ts, size, slot)
    ensures AllName(s, ts, size, slot, slot) || TwoName(s, ts, size, slot) ==> exists i :: NamesSlot(s, ts, i, slot)
  {
    hide NamesSlot, NamesChannel, OwnFirst;
    forall i: int
      ensures NamesSlot(s, ts, i, slot) <==> exists t: nat :: NamesChannel(s, ts, size, i, slot, t)
      ensures forall t: nat, u: nat ::
                NamesChannel(s, ts, size, i, slot, t) && NamesChannel(s, ts, size, i, slot, u) ==> t == u
    {
      NamesOne(s, ts, size, i, slot);
    }
    if OnlyOwn(s, ts, size, slot) {
      forall i, t: nat | NamesChannel(s, ts, size, i, slot, t)
        ensures t == slot
      {
        assert NamesSlot(s, ts, i, slot);
      }
      var i :| NamesSlot(s, ts, i, slot);
      assert NamesChannel(s, ts, size, i, slot, slot);
    }
    if AllName(s, ts, size, slot, slot) {
      forall i | NamesSlot(s, ts, i, slot)
        ensures OwnFirst(s, ts, size, i, slot)
      {
        var t: nat :| NamesChannel(s, ts, size, i, slot, t);
      }
      var i :| NamesChannel(s, ts, size, i, slot, slot);
      assert NamesSlot(s, ts, i, slot);
    }
    if TwoName(s, ts, size, slot) {
      var i, j, t, u :| NamesChannel(s, ts, size, i, slot, t) && NamesChannel(s, ts, size, j, slot, u) && t != u;
      assert NamesSlot(s, ts, i, slot);
    }
  }

  /** THE MATMUL BINDING. When two slots are read through source A before they are written, and no slot read so
      through source B lies below one of them, a slot above 1 is bound to the channel of its own number exactly
      when all tasks that name it name it first through a source register (or the kernel's at slot 2, or a
      destination that fits at slot 4). */
  lemma MatmulModel(d: seq<byte>, m: Model, slot: nat)
    requires AcceptsDerived(d) && IsDerivedBuild(d, m) && RecordsFit(Desc(d), TasksOf(d)) && slot > 1
    requires var rs := AllRecords(Desc(d), TasksOf(d)); MatmulRecords(rs) && !BlendRecords(rs)
    ensures Ref(slot, slot) in m.refs <==> OnlyOwn(Desc(d), TasksOf(d), OutputOf(d), slot)
    ensures Ref(slot, slot) in m.refs ==> slot in {2, 4} || 5 <= slot < 5 + ReadHeader(d).inputCount
  {
    assert HeaderOk(d);
    hide *;
    var s, ts, size := Desc(d), TasksOf(d), OutputOf(d);
    ChannelModel(d, m, slot, slot);
    forall i | NamesSlot(s, ts, i, slot)
      ensures slot < 0x40 && (NamesChannel(s, ts, size, i, slot, slot) <==> OwnFirst(s, ts, size, i, slot))
    {
      OwnNames(d, slot, i);
    }
    AllNameOwn(s, ts, size, slot);
    if Ref(slot, slot) in m.refs && slot != 2 {
      BoundChannel(d, m, Ref(slot, slot));
    }
  }

  /** THE BLEND BINDING. In a blend program an input slot that is only read is bound to its place in the order of
      inputs, from channel 5 on: the reads of source B from the highest slot down, then the slots of
      source A upward. */
  lemma BlendModel(d: seq<byte>, m: Model, slot: nat, tag: nat)
    requires AcceptsDerived(d) && IsDerivedBuild(d, m) && RecordsFit(Desc(d), TasksOf(d))
    requires BlendRecords(AllRecords(Desc(d), TasksOf(d))) && slot > 1 && OnlyRead(Desc(d), TasksOf(d), slot)
    ensures Ref(slot, tag) in m.refs <==> tag == BlendChannel(AllRecords(Desc(d), TasksOf(d)), slot)
  {
    assert HeaderOk(d);
    hide *;
    BlendRole(AllRecords(Desc(d), TasksOf(d)), OutputOf(d), slot);
    ChannelModel(d, m, slot, tag);
    OnlyReadNames(Desc(d), TasksOf(d), OutputOf(d), slot, tag);
  }

  lemma BlendRole(rs: seq<Record>, size: nat, slot: nat)
    requires Payloaded(rs) && BlendRecords(rs) && slot > 1
    ensures Role(rs, size, 0x1110, slot) == Role(rs, size, 0x1128, slot) == BlendChannel(rs, slot)
  {
    hide BlendRecords, BlendChannel;
  }

  // ---- repeated reads ----

  ghost function EntriesFrom(l: seq<nat>, x: nat): set<nat> { set y | y in l && y >= x }

  /** No entry from x on occurs twice. */
  ghost predicate OnceFrom(l: seq<nat>, x: nat) { forall i, j :: 0 <= i < j < |l| && l[i] == l[j] ==> l[i] < x }

  lemma {:induction false} CountOnce(l: seq<nat>, x: nat)
    ensures |EntriesFrom(l, x)| <= AtLeast(l, x)
    ensures |EntriesFrom(l, x)| == AtLeast(l, x) <==> OnceFrom(l, x)
    decreases |l|
  {
    if l == [] {
      assert EntriesFrom(l, x) == {};
    } else {
      var n := |l| - 1;
      var before, y := l[..n], l[n];
      CountOnce(before, x);
      assert l == before + [y];
      if y >= x {
        assert EntriesFrom(l, x) == EntriesFrom(before, x) + {y};
        if y in before {
          var i :| 0 <= i < n && before[i] == y;
          assert l[i] == l[n] && !OnceFrom(l, x);
        } else {
          assert OnceFrom(l, x) <==> OnceFrom(before, x) by { OnceMore(l, x); }
        }
      } else {
        assert EntriesFrom(l, x) == EntriesFrom(before, x);
        OnceMore(l, x);
      }
    }
  }

  lemma OnceMore(l: seq<nat>, x: nat)
    requires l != [] && (l[|l| - 1] < x || l[|l| - 1] !in l[..|l| - 1])
    ensures OnceFrom(l, x) <==> OnceFrom(l[..|l| - 1], x)
  {
    var n := |l| - 1;
    var before := l[..n];
    assert forall i :: 0 <= i < n ==> before[i] == l[i];
    if OnceFrom(before, x) {
      forall i, j | 0 <= i < j < |l| && l[i] == l[j]
        ensures l[i] < x
      {
        if j < n {
          assert before[i] == before[j];
        } else {
          assert before[i] == l[n];
        }
      }
    }
  }

  /** The input slots of source B from a slot on. */
  ghost function InputsFrom(rs: seq<Record>, slot: nat): set<nat> { set b: nat | slot <= b < 0x40 && IsInputB(rs, b) }

  /** ONE CHANNEL PER SLOT. A source B slot takes channel 5 plus the number of source B slots above it exactly when
      none of these slots, nor itself, is read twice through source B before it is written: a second read
      is listed again and moves the slots after it one channel up. */
  lemma BlendBySlots(rs: seq<Record>, slot: nat)
    requires Payloaded(rs) && ScanAll(Start(), rs).Ok? && IsInputB(rs, slot) && !IsInputA(rs, slot)
    ensures |InputsFrom(rs, slot)| >= 1
    ensures BlendChannel(rs, slot) == 5 + (|InputsFrom(rs, slot)| - 1) <==> OnceFrom(ReadsB(rs), slot)
  {
    hide ScanAll, IsInputA, IsInputB, ReadsB, AtLeast, OnceFrom;
    Listed(rs);
    forall b: nat
      ensures b in ReadsB(rs) <==> IsInputB(rs, b)
      ensures IsInputB(rs, b) ==> b < 0x40
    {
      Members(rs, b);
      InputBelow(rs, b);
    }
    assert InputsFrom(rs, slot) == EntriesFrom(ReadsB(rs), slot);
    assert slot in InputsFrom(rs, slot);
    CountOnce(ReadsB(rs), slot);
  }

  lemma InputBelow(rs: seq<Record>, b: nat)
    ensures IsInputB(rs, b) ==> b < 0x40
  {
    hide IsBarRef, Addr;
  }

  /** A read of slot 6 through source A, and reads of slots 5 and 4 through source B. */
  const READ6 := Record(8, 0x2300_0444, [0])
  const READ5 := Record(8, 0x2280_044a, [0])
  const READ4 := Record(8, 0x2200_044a, [0])

  /** A record that only reads a slot, through one register. */
  ghost predicate Reads(r: Record, slot: nat, reg: nat) {
    && |r.payload| == 1 && Slot(r.header) == slot
    && forall s, a, b {:trigger At(r, s, a, b)} :: At(r, s, a, b) <==> s == slot && (reg == a || reg == b)
  }

  lemma ReadsAre()
    ensures Reads(READ6, 6, SRC_A) && Reads(READ5, 5, SRC_B) && Reads(READ4, 4, SRC_B)
  {
    assert 0x2300_0444 / 0x80_0000 == 70 && 0x2300_0444 % 0x8000 == 0x444 && 0x2300_0444 / 0x2000_0000 == 1;
    assert 0x2280_044a / 0x80_0000 == 69 && 0x2280_044a % 0x8000 == 0x44a && 0x2280_044a / 0x2000_0000 == 1;
    assert 0x2200_044a / 0x80_0000 == 68 && 0x2200_044a % 0x8000 == 0x44a && 0x2200_044a / 0x2000_0000 == 1;
  }

  /** A list of reads: what pass 1 lists when nothing is written. */
  lemma NothingWritten(rs: seq<Record>)
    requires rs != [] && forall i, s :: 0 <= i < |rs| ==> !At(rs[i], s, DST, DST)
    ensures ReadsLast(rs) <==> var r := rs[|rs| - 1]; Slot(r.header) > 1 && At(r, Slot(r.header), SRC_B, SRC_B)
  {
    hide Slot, At;
  }

  lemma FourReads(p: Record, a: Record, b: Record)
    requires Reads(p, 6, SRC_A) && Reads(a, 5, SRC_B) && Reads(b, 4, SRC_B)
    ensures ReadsB([p, a, a, b]) == [5, 5, 4]
  {
    hide At, Slot, ReadsB, ReadsLast;
    var rs := [p, a, a, b];
    assert rs[..3] == [p, a, a] && [p, a, a][..2] == [p, a] && [p, a][..1] == [p] && [p][..0] == [];
    assert ReadsB([]) == [] by { EmptyReads(); }
    NothingWritten(rs);
    NothingWritten([p, a, a]);
    NothingWritten([p, a]);
    NothingWritten([p]);
    ReadsStep(rs);
    ReadsStep([p, a, a]);
    ReadsStep([p, a]);
    ReadsStep([p]);
  }

  lemma FourInputs(p: Record, a: Record, b: Record, slot: nat)
    requires Reads(p, 6, SRC_A) && Reads(a, 5, SRC_B) && Reads(b, 4, SRC_B)
    ensures IsInputA([p, a, a, b], slot) <==> slot == 6
    ensures IsInputB([p, a, a, b], slot) <==> slot == 5 || slot == 4
  {
    hide At, Slot;
    var rs := [p, a, a, b];
    assert rs[0] == p && rs[1] == a && rs[3] == b;
  }

  /** In this blend, reading slot 5 twice through source B gives it channel 6, slot 4 channel 7 and the source A slot
      channel 8, although no source B slot lies above 5, one above 4, and there are two in all. */
  lemma RepeatedRead()
    ensures var rs := [READ6, READ5, READ5, READ4];
            && Payloaded(rs) && BlendRecords(rs) && !OnceFrom(ReadsB(rs), 5)
            && BlendChannel(rs, 5) == 6 && BlendChannel(rs, 4) == 7 && BlendChannel(rs, 6) == 8
            && forall slot :: IsInputB(rs, slot) <==> slot == 5 || slot == 4
  {
    var rs := [READ6, READ5, READ5, READ4];
    ReadsAre();
    FourReads(READ6, READ5, READ4);
    Counts();
    assert Payloaded(rs) by {
      assert |READ6.payload| == |READ5.payload| == |READ4.payload| == 1;
    }
    hide ReadsB, IsInputA, IsInputB, AtLeast, OnceFrom, Reads;
    forall slot: nat
      ensures IsInputA(rs, slot) <==> slot == 6
      ensures IsInputB(rs, slot) <==> slot == 5 || slot == 4
    {
      FourInputs(READ6, READ5, READ4, slot);
    }
    assert InputsBelow(rs, 6) == {};
    assert IsInputB(rs, 5) && IsInputA(rs, 6);
  }

  lemma EmptyReads()
    ensures ReadsB([]) == []
  {
  }

  lemma Counts()
    ensures AtLeast([5, 5, 4], 5) == 2 && AtLeast([5, 5, 4], 4) == 3 && !OnceFrom([5, 5, 4], 5)
  {
    var l: seq<nat> := [5, 5, 4];
    assert l[..2] == [5, 5] && [5, 5][..1] == [5] && [5][..0] == [] && l[0] == l[1];
  }
}
