/** A package whose scratch buffer is too small for a second scratch slot: the derived builder
    (libane/ane_m2.c) sizes scratch by the lowest slot only. */
module H14Scratch {
  import opened Basics
  import opened H14Bytes
  import opened H14Stream
  import opened H14Records
  import opened H14Words
  import opened H14Scan
  import opened H14Tags
  import opened H14Derive
  import opened H14Ports
  import opened H14Build
  import opened H14DerivedBuild

  // ---- the stream ----

  const DST4: nat := 0x22000542
  const DST5: nat := 0x22800542
  const KDMA4: nat := 0x22000640
  const KDMA5: nat := 0x22800640

  /** Two tasks of twelve words after a zero frame. The first writes through slots 4 and 5, slot 5 at
      offset 0x10000; the second reads both as kernel slots. */
  function WordList(): (xs: seq<nat>)
    ensures |xs| == 28 && Conv.Fits(xs, 0x1_0000_0000)
  {
    [0, 0, 0, 0,
     0xc_0000, 0, 0, 0, 0, 0, 0, 0, DST4, 0, DST5, 0x1_0000,
     0xc_0000, 0, 0, 0, 0, 0, 0, 0, KDMA4, 0, KDMA5, 0]
  }

  function Stream(): (s: seq<byte>)
    ensures |s| == 112
  {
    Conv.PackAll32(WordList())
  }

  const FIRST := Task(16, 12)
  const SECOND := Task(64, 12)

  lemma ListIs()
    ensures var xs := WordList();
            && xs[0] == 0 && xs[1] == 0 && xs[2] == 0 && xs[3] == 0
            && xs[4] == 0xc_0000 && xs[11] == 0 && xs[12] == DST4 && xs[13] == 0 && xs[14] == DST5 && xs[15] == 0x1_0000
            && xs[16] == 0xc_0000 && xs[23] == 0 && xs[24] == KDMA4 && xs[25] == 0 && xs[26] == KDMA5 && xs[27] == 0
  {
  }

  lemma StreamCounts()
    ensures var s := Stream();
            && WordCount(s, 0) == 0 && WordCount(s, 16) == 12 && WordCount(s, 64) == 12
            && Zeros(s, 0, FRAME_BYTES)
  {
    hide WordList, Conv.PackAll32, Conv.Fits, WordCount;
    ListIs();
    CountAt(WordList(), 0);
    CountAt(WordList(), 4);
    CountAt(WordList(), 16);
    ZeroFrameAt(WordList());
  }

  lemma StreamWords()
    ensures var s := Stream();
            && Word(s, FIRST, 7) == 0 && Word(s, SECOND, 7) == 0
            && Word(s, FIRST, 8) == DST4 && Word(s, FIRST, 9) == 0 && Word(s, FIRST, 10) == DST5
            && Word(s, FIRST, 11) == 0x1_0000
            && Word(s, SECOND, 8) == KDMA4 && Word(s, SECOND, 9) == 0 && Word(s, SECOND, 10) == KDMA5
            && Word(s, SECOND, 11) == 0
  {
    hide WordList, Conv.PackAll32, Conv.Fits, Word;
    ListIs();
    forall i: nat | 7 <= i < 12
      ensures Word(Stream(), FIRST, i) == WordList()[4 + i] && Word(Stream(), SECOND, i) == WordList()[16 + i]
    {
      WordAt(WordList(), FIRST, i);
      WordAt(WordList(), SECOND, i);
    }
  }

  lemma Headers()
    ensures PayloadCount(DST4) == PayloadCount(DST5) == PayloadCount(KDMA4) == PayloadCount(KDMA5) == 1
    ensures IsBarRef(DST4) && IsBarRef(DST5) && IsBarRef(KDMA4) && IsBarRef(KDMA5)
    ensures !HasBit28(DST4) && !HasBit28(DST5) && !HasBit28(KDMA4) && !HasBit28(KDMA5)
    ensures Slot(DST4) == Slot(KDMA4) == 4 && Slot(DST5) == Slot(KDMA5) == 5
    ensures Addr(DST4) == Addr(DST5) == DST && Addr(KDMA4) == Addr(KDMA5) == KDMA_LO
  {
  }

  function Two(h: nat, p: nat, k: nat, q: nat): seq<Record> { [Record(8, h, [p]), Record(10, k, [q])] }

  lemma TaskRecords(s: seq<byte>, t: Task, h: nat, p: nat, k: nat, q: nat)
    requires InStream(s, t) && t.words == 12 && Word(s, t, 7) == 0
    requires Word(s, t, 8) == h && Word(s, t, 9) == p && Word(s, t, 10) == k && Word(s, t, 11) == q
    requires PayloadCount(h) == PayloadCount(k) == 1
    ensures Records(s, t) == Ok(Two(h, p, k, q))
  {
    hide Word, PayloadCount, InStream;
    assert RecordsFrom(s, t, 12) == Ok([]);
    var last := Record(10, k, [q]);
    assert Payload(s, t, 10, 1) == [q] && Payload(s, t, 8, 1) == [p];
    assert RecordsFrom(s, t, 10) == Ok([last] + []) && [last] + [] == [last];
    assert RecordsFrom(s, t, 8) == Ok([Record(8, h, [p])] + [last]) && [Record(8, h, [p])] + [last] == Two(h, p, k, q);
  }

  function Tasks2(): seq<Task> { [FIRST, SECOND] }

  lemma StreamRecords()
    ensures var s, ts := Stream(), Tasks2();
            && RecordsFit(s, ts)
            && Records(s, FIRST) == Ok(Two(DST4, 0, DST5, 0x1_0000))
            && Records(s, SECOND) == Ok(Two(KDMA4, 0, KDMA5, 0))
            && AllRecords(s, ts) == Two(DST4, 0, DST5, 0x1_0000) + Two(KDMA4, 0, KDMA5, 0)
  {
    hide Stream, Word, PayloadCount, Records, IsBarRef, HasBit28, Slot, Addr, WordCount, Zeros;
    var s, ts := Stream(), Tasks2();
    StreamWords();
    Headers();
    TaskRecords(s, FIRST, DST4, 0, DST5, 0x1_0000);
    TaskRecords(s, SECOND, KDMA4, 0, KDMA5, 0);
    assert ts[0] == FIRST && ts[1] == SECOND && ts[..1] == [FIRST] && ts[..1][..0] == [];
    assert AllRecords(s, ts[..1]) == [] + Records(s, FIRST).value;
  }

  lemma StreamSplits(s: seq<byte>)
    requires |s| == 112 && WordCount(s, 0) == 0 && WordCount(s, 16) == 12 && WordCount(s, 64) == 12
    ensures Split(s, 0, MAX_TASKS) == Ok(Tasks2()) && Tiled(s, FRAME_BYTES, Tasks2())
  {
    hide WordCount;
    FrameEnds();
    assert Split(s, 112, 126) == Ok([]);
    assert Split(s, 64, 127) == Ok([SECOND] + []) && [SECOND] + [] == [SECOND];
    assert Split(s, 16, 128) == Ok([FIRST] + [SECOND]) && [FIRST] + [SECOND] == Tasks2();
    assert TaskEnd(s, FIRST) == 64 && TaskEnd(s, SECOND) == 112;
  }

  lemma FrameEnds()
    ensures FrameEnd(112, 16, 12) == 64 && FrameEnd(112, 64, 12) == 112
  {
  }

  // ---- its scan and its tags ----

  lemma ScanQuiet(sc: Scan, h: nat, p: nat, k: nat, q: nat)
    requires ScanShape(sc) && IsBarRef(h) && IsBarRef(k) && !HasBit28(h) && !HasBit28(k)
    requires (Addr(h) == DST || Addr(h) == KDMA_LO) && (Addr(k) == DST || Addr(k) == KDMA_LO)
    ensures ScanAll(sc, Two(h, p, k, q)).Ok?
    ensures ScanAll(sc, Two(h, p, k, q)).value.srcA == sc.srcA && ScanAll(sc, Two(h, p, k, q)).value.srcB == sc.srcB
  {
    hide IsBarRef, HasBit28, Addr, Slot, Track;
    var rs := Two(h, p, k, q);
    var one := ScanRecord(sc, rs[0]);
    assert one.Ok? && one.value.srcA == sc.srcA && one.value.srcB == sc.srcB;
    assert rs[1..][0] == rs[1] && rs[1..][1..] == [];
    var two := ScanRecord(one.value, rs[1]);
    assert ScanAll(two.value, []) == two;
    assert ScanAll(one.value, rs[1..]) == two;
  }

  /** No source slot is seen, so the program is elementwise. */
  lemma Quiet()
    ensures var s, ts := Stream(), Tasks2();
            && RecordsFit(s, ts) && ScanAll(Start(), AllRecords(s, ts)).Ok?
            && ScanAll(Start(), AllRecords(s, ts)).value.srcA == []
            && ScanAll(Start(), AllRecords(s, ts)).value.srcB == []
  {
    hide Stream, Records, IsBarRef, HasBit28, Slot, Addr, ScanAll, AllRecords;
    StreamRecords();
    Headers();
    var a, b := Two(DST4, 0, DST5, 0x1_0000), Two(KDMA4, 0, KDMA5, 0);
    ScanQuiet(Start(), DST4, 0, DST5, 0x1_0000);
    var mid := ScanAll(Start(), a).value;
    ScanQuiet(mid, KDMA4, 0, KDMA5, 0);
    ScanConcat(Start(), a, b);
  }

  lemma NoSlots()
    ensures Ascending([]) == []
  {
  }

  ghost function Ctx(ios: seq<Io>): (c: Context)
    ensures ScanShape(c.sc)
  {
    Quiet();
    ProgramContext(Stream(), Tasks2(), ios, SCRATCH_BUFID)
  }

  lemma CtxIs(ios: seq<Io>)
    ensures !Matmul(Ctx(ios)) && !Blend(Ctx(ios)) && Ctx(ios).scratch == SCRATCH_BUFID && Ctx(ios).ios == ios
  {
    hide Stream, Records, ScanAll, AllRecords, Ascending;
    Quiet();
    NoSlots();
  }

  lemma RefTag(c: Context, at: nat, h: nat, p: nat)
    requires ScanShape(c.sc) && !Matmul(c) && !Blend(c) && !HasBit28(h) && (Addr(h) == DST || Addr(h) == KDMA_LO)
    ensures TagRef(c, Record(at, h, [p])) == Ok(TaskRef(Slot(h), if Addr(h) == DST then 4 else KERNEL_TAG, Addr(h)))
  {
    hide HasBit28, Addr, Matmul, Blend, ScanShape, TagExtents;
  }

  lemma TwoTagged(c: Context, h: nat, p: nat, k: nat, q: nat, tag: nat, slot: nat)
    requires ScanShape(c.sc) && IsBarRef(h) && IsBarRef(k) && Slot(h) == 4 && Slot(k) == 5
    requires TagRef(c, Record(8, h, [p])).Ok? && TagRef(c, Record(8, h, [p])).value.tag == tag
    requires TagRef(c, Record(10, k, [q])).Ok? && TagRef(c, Record(10, k, [q])).value.tag == tag
    ensures Tagged(c, Two(h, p, k, q))
            && FirstTag(c, Two(h, p, k, q), slot) == if slot in {4, 5} then Some(tag) else None
  {
    hide IsBarRef, Slot, ScanShape, TagRef, FirstAt;
    FirstOfTwo(h, p, k, q, slot);
  }

  lemma TaskTags2(c: Context, slot: nat)
    requires ScanShape(c.sc) && !Matmul(c) && !Blend(c)
    ensures Tagged(c, Two(DST4, 0, DST5, 0x1_0000)) && Tagged(c, Two(KDMA4, 0, KDMA5, 0))
    ensures FirstTag(c, Two(DST4, 0, DST5, 0x1_0000), slot) == (if slot in {4, 5} then Some(4) else None)
    ensures FirstTag(c, Two(KDMA4, 0, KDMA5, 0), slot) == (if slot in {4, 5} then Some(KERNEL_TAG) else None)
  {
    hide IsBarRef, HasBit28, Slot, Addr, Matmul, Blend, ScanShape, TagRef, Tagged, FirstTag, Two;
    Headers();
    RefTag(c, 8, DST4, 0);
    RefTag(c, 10, DST5, 0x1_0000);
    RefTag(c, 8, KDMA4, 0);
    RefTag(c, 10, KDMA5, 0);
    TwoTagged(c, DST4, 0, DST5, 0x1_0000, 4, slot);
    TwoTagged(c, KDMA4, 0, KDMA5, 0, KERNEL_TAG, slot);
  }

  /** What the two tasks first name each slot as. */
  lemma FirstTags(c: Context)
    requires ScanShape(c.sc) && !Matmul(c) && !Blend(c)
    ensures var s, ts := Stream(), Tasks2();
            && AllTagged(c, s, ts) && Records(s, FIRST).Ok? && Records(s, SECOND).Ok?
            && forall slot: nat ::
                 && FirstTag(c, Records(s, FIRST).value, slot) == (if slot in {4, 5} then Some(4) else None)
                 && FirstTag(c, Records(s, SECOND).value, slot) == (if slot in {4, 5} then Some(KERNEL_TAG) else None)
  {
    hide Stream, Records, AllRecords, Matmul, Blend, ScanShape, Tagged, FirstTag, Two;
    StreamRecords();
    TaskTags2(c, 0);
    forall slot: nat
      ensures FirstTag(c, Two(DST4, 0, DST5, 0x1_0000), slot) == (if slot in {4, 5} then Some(4) else None)
      ensures FirstTag(c, Two(KDMA4, 0, KDMA5, 0), slot) == (if slot in {4, 5} then Some(KERNEL_TAG) else None)
    {
      TaskTags2(c, slot);
    }
    var s, ts := Stream(), Tasks2();
    assert ts[0] == FIRST && ts[1] == SECOND;
  }

  lemma FirstOfTwo(h: nat, p: nat, k: nat, q: nat, slot: nat)
    requires IsBarRef(h) && IsBarRef(k) && Slot(h) != Slot(k)
    ensures FirstAt(Two(h, p, k, q), slot) ==
              if slot == Slot(h) then Some(Record(8, h, [p]))
                else if slot == Slot(k) then Some(Record(10, k, [q])) else None
  {
    hide IsBarRef, Slot;
    var rs := Two(h, p, k, q);
    assert rs[1..][0] == rs[1] && rs[1..][1..] == [];
    assert FirstAt([], slot) == None;
  }

  /** Slots 4 and 5 go to scratch, no other is bound. */
  lemma Tags(c: Context, slot: nat)
    requires ScanShape(c.sc) && !Matmul(c) && !Blend(c) && c.scratch == SCRATCH_BUFID
    ensures RecordsFit(Stream(), Tasks2())
    ensures SlotTag(c, Stream(), Tasks2(), slot) == if slot in {4, 5} then Tag(SCRATCH_BUFID) else Unused
  {
    hide Stream, Records, Matmul, Blend, ScanShape, FirstTag;
    StreamRecords();
    FirstTags(c);
    var s, ts := Stream(), Tasks2();
    assert ts[1] == SECOND && ts[..1] == [FIRST] && [FIRST][0] == FIRST && [FIRST][..0] == [];
    assert SlotTag(c, s, [FIRST], slot) == MergeTag(c.scratch, Unused, FirstTag(c, Records(s, FIRST).value, slot));
  }

  lemma StreamDerivable(ios: seq<Io>)
    ensures Derivable(Stream(), Tasks2(), ios, SCRATCH_BUFID)
  {
    hide Stream, Records, Matmul, Blend, ScanShape, SlotTag, ScanAll, AllRecords, AllTagged;
    Quiet();
    CtxIs(ios);
    var c := Ctx(ios);
    FirstTags(c);
    forall slot: nat
      ensures SlotTag(c, Stream(), Tasks2(), slot) == if slot in {4, 5} then Tag(SCRATCH_BUFID) else Unused
    {
      Tags(c, slot);
    }
    assert SlotTag(c, Stream(), Tasks2(), 4) != Unused;
  }

  // ---- the package ----

  function TileList(): seq<nat> { seq<nat>(32, c => if c == 4 || c == 5 then 1 else 0) }

  function Package(): Conv.Emitted<seq<byte>> {
    Conv.Packed(Stream(), [], [48, 48], 1, TileList(), seq<nat>(192, _ => 0))
  }

  lemma PackageMade()
    ensures Package().Done?
    ensures var d := Package().value;
            && HeaderOk(d) && |d| >= HEADER_BYTES && Desc(d) == Stream() && ReadHeader(d).inputCount == 1
            && ReadHeader(d).taskCount == 2
            && ReadHeader(d).firstTask == 48 && Tiles(d, 4) == 1 && Tiles(d, 5) == 1
  {
    hide Stream, Conv.Lead, Conv.Tail, HeaderOk, Desc, ReadHeader, Kernel;
    Conv.PackedReadBack(Stream(), [], [48, 48], 1, TileList(), seq<nat>(192, _ => 0));
  }

  lemma PackageAccepted()
    ensures Package().Done? && |Package().value| >= HEADER_BYTES && AcceptsDerived(Package().value)
    ensures Split(Desc(Package().value), 0, MAX_TASKS) == Ok(Tasks2()) && Desc(Package().value) == Stream()
    ensures Tiles(Package().value, 4) == 1 && ReadHeader(Package().value).inputCount == 1
  {
    hide Package, Stream, HeaderOk, Desc, ReadHeader, Tiles, Split, BlockCount, Derivable, Tiled, WordCount, Word;
    PackageMade();
    var d := Package().value;
    StreamCounts();
    StreamSplits(Stream());
    StreamDerivable(ChannelIos(d, 1));
    BlockCountIsTaskCount(Stream(), MAX_TASKS);
  }

  lemma LargestOffsets()
    ensures RecordsFit(Stream(), Tasks2())
    ensures MaxFrom(0, AllRecords(Stream(), Tasks2()), 4) == 0
            && MaxFrom(0, AllRecords(Stream(), Tasks2()), 5) == 0x1_0000
  {
    hide Stream, Records, IsBarRef, Slot;
    StreamRecords();
    Headers();
    var a, b := Two(DST4, 0, DST5, 0x1_0000), Two(KDMA4, 0, KDMA5, 0);
    MaxOfTwo(0, DST4, 0, DST5, 0x1_0000, 4);
    MaxOfTwo(0, DST4, 0, DST5, 0x1_0000, 5);
    MaxOfTwo(0, KDMA4, 0, KDMA5, 0, 4);
    MaxOfTwo(0x1_0000, KDMA4, 0, KDMA5, 0, 5);
    MaxConcat(0, a, b, 4);
    MaxConcat(0, a, b, 5);
  }

  lemma MaxOfTwo(m: nat, h: nat, p: nat, k: nat, q: nat, slot: nat)
    requires IsBarRef(h) && IsBarRef(k) && Slot(h) == 4 && Slot(k) == 5
    ensures MaxFrom(m, Two(h, p, k, q), slot) ==
              if slot == 4 && p > m then p else if slot == 5 && q > m then q else m
  {
    hide IsBarRef, Slot;
    var rs := Two(h, p, k, q);
    assert rs[1..][0] == rs[1] && rs[1..][1..] == [];
    var m1 := if Touches(rs[0], slot) && rs[0].payload[0] > m then rs[0].payload[0] else m;
    var m2 := if Touches(rs[1], slot) && rs[1].payload[0] > m1 then rs[1].payload[0] else m1;
    assert MaxFrom(m2, [], slot) == m2;
    assert MaxFrom(m1, rs[1..], slot) == m2;
  }

  /** THE SECOND SCRATCH SLOT IS NOT HELD. The derived builder accepts this package and binds slots 4 and 5
      to one scratch buffer of 0x8000 bytes, while slot 5 is written at offset 0x10000. */
  lemma SecondSlotOutside(m: Model)
    requires Package().Done? && AcceptsDerived(Package().value) && IsDerivedBuild(Package().value, m)
    ensures Ref(4, SCRATCH_BUFID) in m.refs && Ref(5, SCRATCH_BUFID) in m.refs
    ensures m.ios != [] && m.ios[|m.ios| - 1].size == 0x8000
    ensures RecordsFit(m.desc, Split(m.desc, 0, MAX_TASKS).value)
            && Refers(m.desc, Split(m.desc, 0, MAX_TASKS).value, 5, 0x1_0000)
  {
    hide Package, Stream, HeaderOk, Desc, ReadHeader, Tiles, Split, BlockCount, Derivable, SplitOk, ChannelsOk,
      ChannelIos, IosAre, MaxFrom, AllRecords, Refers, Records,
      SlotTag, ScanShape, Matmul, Blend, Holds;
    PackageAccepted();
    var d := Package().value;
    LowestIsFour(d, m);
    ScratchCovers(d, m, 4, 5);
    LargestOffsets();
    LargestIs(Stream(), Tasks2(), 5);
  }

  lemma LowestIsFour(d: seq<byte>, m: Model)
    requires |d| >= HEADER_BYTES && AcceptsDerived(d) && IsDerivedBuild(d, m) && Desc(d) == Stream()
             && Split(Desc(d), 0, MAX_TASKS) == Ok(Tasks2())
    ensures LowestScratch(m.refs, 4) && Ref(5, SCRATCH_BUFID) in m.refs
  {
    hide Stream, HeaderOk, Desc, Split, BlockCount, ChannelsOk, ChannelIos, IosAre, SlotTag, ScanShape, Matmul, Blend,
      Records, AllRecords, ScanAll, Resolved;
    var ios := ChannelIos(d, ReadHeader(d).inputCount);
    CtxIs(ios);
    var c := Ctx(ios);
    forall slot: nat
      ensures SlotTag(c, Stream(), Tasks2(), slot) == if slot in {4, 5} then Tag(SCRATCH_BUFID) else Unused
    {
      Tags(c, slot);
    }
    assert Derived(Stream(), Tasks2(), ios, SCRATCH_BUFID, m.refs);
    forall r | r in m.refs && r.tag == SCRATCH_BUFID
      ensures 4 <= r.slot
    {
      assert r == Ref(r.slot, SCRATCH_BUFID);
      assert SlotTag(c, Stream(), Tasks2(), r.slot) == Tag(SCRATCH_BUFID);
    }
  }
}
