/** Packages that differ in one record header: the converter (tools/hwx_h14_staged_to_anec.py) emits them
    all and the port derivation (tools/hwx_ports.py) reports no exception on any, but the builder
    (libane/ane_m2.c) takes only those whose record fits its task. */
module H14Overrun {
  import opened Basics
  import opened H14Bytes
  import opened H14Stream
  import opened H14Records
  import opened H14Words
  import opened H14Ports
  import opened H14Build
  import opened H14PortTable
  import opened H14Pipeline

  // ---- the stream ----

  /** A destination reference through slot 4. */
  const DST4: nat := 0x22000542

  predicate IsHeader(h: nat) { h < 0x1_0000_0000 && !IsBarRef(h) }

  /** A zero frame and one task of twelve words: a write through slot 4 at offset 0, and a record with
      header h and one word after it. */
  function WordList(h: nat): (xs: seq<nat>)
    requires IsHeader(h)
    ensures |xs| == 16 && Conv.Fits(xs, 0x1_0000_0000)
  {
    [0, 0, 0, 0, 0xc_0000, 0, 0, 0, 0, 0, 0, 0, DST4, 0, h, 0]
  }

  function Stream(h: nat): (s: seq<byte>)
    requires IsHeader(h)
    ensures |s| == 64
  {
    Conv.PackAll32(WordList(h))
  }

  const TASK := Task(16, 12)

  lemma ListIs(h: nat)
    requires IsHeader(h)
    ensures var xs := WordList(h);
            && xs[0] == xs[1] == xs[2] == xs[3] == 0 && xs[4] == 0xc_0000 && xs[11] == 0
            && xs[12] == DST4 && xs[13] == 0 && xs[14] == h && xs[15] == 0
  {
  }

  lemma StreamCounts(h: nat)
    requires IsHeader(h)
    ensures WordCount(Stream(h), 0) == 0 && WordCount(Stream(h), 16) == 12 && Zeros(Stream(h), 0, FRAME_BYTES)
  {
    hide WordList, Conv.PackAll32, Conv.Fits, WordCount, IsHeader;
    ListIs(h);
    CountAt(WordList(h), 0);
    CountAt(WordList(h), 4);
    ZeroFrameAt(WordList(h));
  }

  lemma StreamWords(h: nat)
    requires IsHeader(h)
    ensures InStream(Stream(h), TASK)
    ensures Word(Stream(h), TASK, 7) == 0 && Word(Stream(h), TASK, 8) == DST4 && Word(Stream(h), TASK, 9) == 0
    ensures Word(Stream(h), TASK, 10) == h && Word(Stream(h), TASK, 11) == 0
  {
    hide WordList, Conv.PackAll32, Conv.Fits, Word, IsHeader;
    ListIs(h);
    forall i: nat | 7 <= i < 12
      ensures Word(Stream(h), TASK, i) == WordList(h)[4 + i]
    {
      WordAt(WordList(h), TASK, i);
    }
  }

  lemma Header4()
    ensures PayloadCount(DST4) == 1 && IsBarRef(DST4) && Slot(DST4) == 4
  {
  }

  lemma FrameEnds()
    ensures FrameEnd(64, 16, 12) == 64 && RoundUp16(64) == 64
  {
  }

  /** Both splitters see one task, no gap and no filler after the zero frame. */
  lemma StreamSplits(s: seq<byte>)
    requires |s| == 64 && WordCount(s, 0) == 0 && WordCount(s, 16) == 12
    ensures PythonSplit(s) == Ok([48]) && GapsZero(s, 0) && Walked(s, 0) == Done([TASK])
            && Tiled(s, FRAME_BYTES, [TASK])
  {
    hide WordCount, RoundUp16;
    FrameEnds();
    assert Sizes(s, 64) == Ok([]) && GapsZero(s, 64) && Walked(s, 64) == Done([]);
    FollowTwice([48], [], Sizes(s, 64));
    assert Sizes(s, 16) == Follow([48], Sizes(s, 64));
    assert GapsZero(s, 16);
    assert Walked(s, 16) == Done([TASK] + []) && [TASK] + [] == [TASK];
    assert TaskEnd(s, TASK) == 64;
  }

  // ---- the uses, and whether the records fit ----

  lemma StreamUses(s: seq<byte>, h: nat)
    requires |s| == 64 && WordCount(s, 0) == 0 && WordCount(s, 16) == 12 && IsHeader(h) && InStream(s, TASK)
    requires Word(s, TASK, 7) == 0 && Word(s, TASK, 8) == DST4 && Word(s, TASK, 9) == 0 && Word(s, TASK, 10) == h
    ensures Uses(s, 0, map[]) == Done(map[4 := 0])
  {
    hide WordCount, RoundUp16, Word, PayloadCount, IsBarRef, Slot;
    FrameEnds();
    Header4();
    var at := 11 + PayloadCount(h);
    var used: map<nat, nat> := map[4 := 0];
    assert Scanned(s, TASK, at, used) == Done(used);
    assert Scanned(s, TASK, 10, used) == Done(used);
    assert Payload(s, TASK, 8, 1) == [0];
    assert Note(map[], Record(8, DST4, [0])) == used;
    assert Scanned(s, TASK, 8, map[]) == Done(used);
    assert Uses(s, 64, used) == Done(used);
    assert Uses(s, 16, map[]) == Done(used);
  }

  lemma StreamFits(s: seq<byte>, h: nat)
    requires InStream(s, TASK) && Word(s, TASK, 7) == 0 && Word(s, TASK, 8) == DST4 && Word(s, TASK, 10) == h
    ensures RecordsFit(s, [TASK]) <==> PayloadCount(h) == 1
  {
    hide Word, PayloadCount, InStream;
    Header4();
    assert RecordsFrom(s, TASK, 12) == Ok([]);
    assert RecordsFrom(s, TASK, 10).Ok? <==> PayloadCount(h) == 1;
    assert RecordsFrom(s, TASK, 8).Ok? <==> RecordsFrom(s, TASK, 10).Ok?;
    assert [TASK][0] == TASK;
  }

  // ---- the package ----

  const ADDRESS: nat := 0x1_0000
  const BYTES: nat := 0x4000

  const SURFACE := Conv.Tensor(2, [1, 1, 1, 1], [0, 0, 0, 0], BYTES)

  /** One output tensor in one buffer of one tile. */
  function Source(h: nat): Conv.Hwx
    requires IsHeader(h)
  {
    Conv.Hwx(Stream(h), [], 1, [ADDRESS], map[ADDRESS := BYTES], [SURFACE])
  }

  lemma PlanIs()
    ensures Conv.Plan([SURFACE]) == [Conv.Planned(SURFACE, 4)] && |Conv.Bound([SURFACE], 1)| == 0
    ensures Conv.Totals([Conv.Planned(SURFACE, 4)]) == [BYTES]
  {
    assert [SURFACE][..0] == [];
    assert Conv.Bound([], 1) == [] && Conv.Bound([], 2) == [];
    assert Conv.Bound([SURFACE], 2) == [SURFACE];
  }

  const BUFFER := Conv.Buffer(ADDRESS, BYTES)

  lemma BufferFound()
    ensures Conv.Buffers([ADDRESS], map[ADDRESS := BYTES]) == Conv.Done([BUFFER])
  {
    assert [ADDRESS][..0] == [] && Conv.Buffers([], map[ADDRESS := BYTES]) == Conv.Done([]);
    assert [] + [BUFFER] == [BUFFER];
  }

  lemma BufferAlone()
    ensures Conv.ByIova([BUFFER]) == [BUFFER]
  {
    assert [BUFFER][..0] == [] && Conv.ByIova([]) == [];
    assert Conv.InsertByIova(BUFFER, []) == [BUFFER] + [];
  }

  lemma BufferTaken()
    ensures Conv.Matched([BYTES], [BUFFER]) == Conv.Done([BUFFER])
  {
    assert Conv.FirstFit([BUFFER], BYTES) == 0;
    assert [BYTES][1..] == [] && Conv.Matched([], Conv.Without([BUFFER], 0)) == Conv.Done([]);
    assert [BUFFER] + [] == [BUFFER];
  }

  lemma PlanWords()
    ensures Conv.PlanInRange([Conv.Planned(SURFACE, 4)])
    ensures var tiles := Conv.PlanTiles([Conv.Planned(SURFACE, 4)], [BUFFER]);
            Conv.Fits(tiles, 0x1_0000_0000)
    ensures Conv.Fits(Conv.PlanLayouts([Conv.Planned(SURFACE, 4)]), 0x1_0000_0000_0000_0000)
  {
    var p, b := [Conv.Planned(SURFACE, 4)], [BUFFER];
    assert p[..0] == [] && b[..0] == [];
    Conv.EmptyPlan();
    assert Conv.PlanTiles(p, b) == Conv.PlanTiles([], [])[4 := Conv.TilesFor(BYTES)];
    var before := Conv.PlanLayouts([]);
    assert Conv.PlanLayouts(p) == before[..24] + Conv.Layout(SURFACE) + before[30..];
  }

  lemma SourceConverts(h: nat)
    requires IsHeader(h) && PythonSplit(Stream(h)) == Ok([48]) && Zeros(Stream(h), 0, FRAME_BYTES)
    ensures Conv.WellTyped(Source(h)) && Conv.Converted(Source(h)).Done? && Conv.Cleared(Stream(h)) == Stream(h)
  {
    hide Stream, PythonSplit, Conv.Plan, Conv.Bound, Conv.Totals, Conv.Buffers, Conv.ByIova, Conv.Matched,
      Conv.PlanTiles, Conv.PlanLayouts, Conv.Lead, Conv.Tail, IsHeader;
    assert Conv.Cleared(Stream(h)) == Stream(h);
    PlanIs();
    BufferFound();
    BufferAlone();
    BufferTaken();
    PlanWords();
  }

  // ---- the table ----

  const NAMED := Tensor("y", 2, true, true, 2)

  /** The text, the constants, two empty slots, and the output in slot 4. */
  const TABLE := Hwx([1, 2, 0, 0, ADDRESS], map[ADDRESS := BYTES], map[ADDRESS := "y"], [NAMED])

  const ENTRY := Entry(Port(1, 4, 4, BYTES), BYTES)

  lemma TableIs(tiles: seq<nat>)
    requires |tiles| == 32 && tiles[4] == 1
    ensures Entries(TABLE, tiles) == Done([ENTRY]) && |OfBinding(TABLE.tensors, 1)| == 0
    ensures TableOk(TABLE) && NoTwins(TABLE.tensors)
  {
    assert [NAMED][..0] == [] && OfBinding([], 1) == [] && OfBinding([], 2) == [];
    assert OfBinding([NAMED], 2) == [NAMED] && OfBinding([NAMED], 1) == [];
    assert ChannelOrder([NAMED]) == [NAMED];
    assert IndexOf([NAMED], "y") == 0;
    assert SlotEntry(TABLE, tiles, 4) == Done(ENTRY);
    assert IoEntries(TABLE, tiles, 4) == Done([]);
    assert IoEntries(TABLE, tiles, 5) == Done([] + [ENTRY]) && [] + [ENTRY] == [ENTRY];
  }

  lemma NothingRaised(krn: nat)
    ensures NoExceptions([ENTRY], map[4 := 0], krn)
  {
    assert [ENTRY][0] == ENTRY;
  }

  lemma OutputTiles(h: nat)
    requires IsHeader(h) && Conv.WellTyped(Source(h)) && Conv.Converted(Source(h)).Done?
    ensures var d := Conv.Converted(Source(h)).value;
            && |d| >= HEADER_BYTES && HeaderOk(d) && Tiles(d, 4) == 1 && ReadHeader(d).inputCount == 0
            && |Stream(h)| >= FRAME_BYTES && Desc(d) == Conv.Cleared(Stream(h))
  {
    hide Stream, Conv.Converted, Conv.Plan, Conv.Bound, HeaderOk, Desc, ReadHeader, Tiles, StreamOk, GapsZero, IsHeader,
      Conv.Cleared, Conv.WellTyped;
    Conv.ConvertMeetsBuilder(Source(h));
    PlanIs();
    var d := Conv.Converted(Source(h)).value;
    LongEnough(d);
    assert Conv.Plan([SURFACE])[0] == Conv.Planned(SURFACE, 4);
    assert Conv.TilesFor(BYTES) == 1;
  }

  lemma LongEnough(d: seq<byte>)
    requires HeaderOk(d)
    ensures |d| >= HEADER_BYTES
  {
  }

  /** THE OVERRUN IS NOT NOTICED. Whatever the header of the second record, the converter emits the package,
      the port derivation reports no exception on it, and every other condition of the builder holds; the
      builder accepts it exactly when the record has one payload word and so ends with its task. */
  lemma OverrunDecides(h: nat)
    requires IsHeader(h)
    ensures Conv.WellTyped(Source(h)) && Conv.Converted(Source(h)).Done?
    ensures var d := Conv.Converted(Source(h)).value;
            && Derives(TABLE, d) && TableOk(TABLE) && |Desc(d)| % 4 == 0 && GapsZero(Desc(d), 0)
            && Walked(Desc(d), 0) == Done([TASK]) && Tiled(Desc(d), FRAME_BYTES, [TASK])
            && TablePorts(TABLE, d) == [Port(1, 4, 4, BYTES)]
            && (Accepts(d, TablePorts(TABLE, d)) <==> PayloadCount(h) == 1)
  {
    hide Stream, WordCount, Word, InStream, PythonSplit, GapsZero, Walked, Tiled, Uses, RecordsFit, Records, Zeros,
      Conv.WellTyped, Conv.Converted, Conv.Cleared, HeaderOk, Desc, ReadHeader, Tiles, Entries, NoExceptions, TableOk,
      NoTwins, OfBinding, PayloadCount, IsHeader, Accepts;
    var s := Stream(h);
    StreamCounts(h);
    StreamWords(h);
    StreamSplits(s);
    StreamUses(s, h);
    StreamFits(s, h);
    SourceConverts(h);
    OutputTiles(h);
    var d := Conv.Converted(Source(h)).value;
    TableIs(TileCounts(d));
    NothingRaised(ReadHeader(d).krnSize);
    PipelineBuilds(Source(h), TABLE);
  }

  /** One of the refused ones: a record that claims 64 payload words with one left. */
  lemma OverrunRefused()
    ensures IsHeader(0x1f8000) && Conv.WellTyped(Source(0x1f8000)) && Conv.Converted(Source(0x1f8000)).Done?
    ensures var d := Conv.Converted(Source(0x1f8000)).value; Derives(TABLE, d) && !Accepts(d, TablePorts(TABLE, d))
  {
    hide Conv.Converted, Conv.WellTyped, Derives, Accepts, TablePorts, Source;
    ManyWords();
    OverrunDecides(0x1f8000);
  }

  lemma ManyWords()
    ensures IsHeader(0x1f8000) && PayloadCount(0x1f8000) == 64
  {
  }
}
