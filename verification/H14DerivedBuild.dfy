/** ane_m2_program_build (libane/ane_m2.c): the package builder that infers its ref set. */
module H14DerivedBuild {
  import opened Basics
  import opened H14Bytes
  import opened H14Stream
  import opened H14Records
  import opened H14Sort
  import opened H14Scan
  import opened H14Tags
  import opened H14Derive
  import opened H14Ports
  import opened H14Build

  const MAX_TASKS: nat := 128
  const TILE: nat := 0x4000

  // ---- the scratch extent ----

  predicate Touches(rec: Record, slot: nat) { IsBarRef(rec.header) && Slot(rec.header) == slot }

  /** The largest first payload word at a slot, at least `m`. */
  function MaxFrom(m: nat, rs: seq<Record>, slot: nat): nat
    requires forall i :: 0 <= i < |rs| ==> |rs[i].payload| >= 1
    decreases |rs|
  {
    if rs == [] then m
    else MaxFrom(if Touches(rs[0], slot) && rs[0].payload[0] > m then rs[0].payload[0] else m, rs[1..], slot)
  }

  lemma {:induction false} MaxConcat(m: nat, a: seq<Record>, b: seq<Record>, slot: nat)
    requires Payloaded(a) && Payloaded(b)
    ensures Payloaded(a + b) && MaxFrom(m, a + b, slot) == MaxFrom(MaxFrom(m, a, slot), b, slot)
    decreases |a|
  {
    hide Touches;
    if a == [] {
      assert a + b == b;
    } else {
      assert (a + b)[0] == a[0] && (a + b)[1..] == a[1..] + b;
      MaxConcat(if Touches(a[0], slot) && a[0].payload[0] > m then a[0].payload[0] else m, a[1..], b, slot);
    }
  }

  /** It is reached: no touching record is above it, and it is `m` or one of them. */
  lemma {:induction false} MaxMeans(m: nat, rs: seq<Record>, slot: nat)
    requires Payloaded(rs)
    ensures m <= MaxFrom(m, rs, slot)
    ensures forall i :: 0 <= i < |rs| && Touches(rs[i], slot) ==> rs[i].payload[0] <= MaxFrom(m, rs, slot)
    ensures MaxFrom(m, rs, slot) == m
            || exists i :: 0 <= i < |rs| && Touches(rs[i], slot) && rs[i].payload[0] == MaxFrom(m, rs, slot)
    decreases |rs|
  {
    hide Touches;
    if rs != [] {
      var m1 := if Touches(rs[0], slot) && rs[0].payload[0] > m then rs[0].payload[0] else m;
      MaxMeans(m1, rs[1..], slot);
      assert forall i :: 1 <= i < |rs| ==> rs[1..][i - 1] == rs[i];
      assert forall i :: 0 <= i < |rs| - 1 ==> rs[i + 1] == rs[1..][i];
    }
  }

  method MaxOfTask(s: seq<byte>, t: Task, slot: nat, start: nat) returns (r: Result<nat>)
    requires InStream(s, t)
    ensures r.Ok? <==> Records(s, t).Ok?
    ensures r.Ok? ==> r.value == MaxFrom(start, Records(s, t).value, slot)
  {
    hide PayloadCount, Touches;
    var m := start;
    var at := FirstRecord(s, t);
    while at < t.words
      invariant Records(s, t).Ok? <==> RecordsFrom(s, t, at).Ok?
      invariant Records(s, t).Ok? ==>
                MaxFrom(start, Records(s, t).value, slot) == MaxFrom(m, RecordsFrom(s, t, at).value, slot)
      decreases t.words - at
    {
      var h := Word(s, t, at);
      var n := PayloadCount(h);
      if at + 1 + n > t.words {
        return Err(RecordOverruns);
      }
      ghost var rec := Record(at, h, Payload(s, t, at, n));
      ghost var rest := RecordsFrom(s, t, at + 1 + n);
      if rest.Ok? {
        assert ([rec] + rest.value)[1..] == rest.value && ([rec] + rest.value)[0] == rec;
      }
      var p0 := Word(s, t, at + 1);
      TouchesIs(rec, slot);
      if IsBarRef(h) && Slot(h) == slot && p0 > m {
        m := p0;
      }
      at := at + 1 + n;
    }
    r := Ok(m);
  }

  lemma TouchesIs(rec: Record, slot: nat)
    ensures Touches(rec, slot) <==> IsBarRef(rec.header) && Slot(rec.header) == slot
  {
  }

  function RoundUpTile(n: nat): (r: nat)
    ensures r % TILE == 0 && n <= r < n + TILE
  {
    (n + TILE - 1) / TILE * TILE
  }

  /** scratch_size_bytes. */
  method ScratchSize(s: seq<byte>, ts: seq<Task>, slot: nat, output: nat) returns (r: Result<nat>)
    requires forall i :: 0 <= i < |ts| ==> InStream(s, ts[i])
    ensures r.Ok? <==> RecordsFit(s, ts)
    ensures r.Ok? ==> r.value == RoundUpTile(MaxFrom(0, AllRecords(s, ts), slot) + output)
  {
    hide Records, MaxFrom, InStream, AllRecords;
    NothingTouched(s, slot);
    var m := 0;
    for i := 0 to |ts|
      invariant RecordsFit(s, ts[..i]) && m == MaxFrom(0, AllRecords(s, ts[..i]), slot)
    {
      var next := MaxOfTask(s, ts[i], slot, m);
      if next.Err? {
        return next;
      }
      assert ts[..i + 1][..i] == ts[..i];
      assert RecordsFit(s, ts[..i + 1]);
      AllRecordsLast(s, ts[..i + 1]);
      MaxConcat(0, AllRecords(s, ts[..i]), Records(s, ts[i]).value, slot);
      m := next.value;
    }
    assert ts[..|ts|] == ts;
    r := Ok(RoundUpTile(m + output));
  }

  lemma NothingTouched(s: seq<byte>, slot: nat)
    ensures AllRecords(s, []) == [] && MaxFrom(0, [], slot) == 0
  {
  }

  // ---- the io table ----

  predicate TilesOk(d: seq<byte>, channel: nat)
    requires |d| >= HEADER_BYTES && channel < TILE_COUNT
  {
    0 < Tiles(d, channel) <= 0x10_0000
  }

  function ChannelIo(d: seq<byte>, channel: nat): Io
    requires |d| >= HEADER_BYTES && channel < TILE_COUNT
  {
    Io(channel, if channel == 4 then 1 else 0, Tiles(d, channel) * TILE)
  }

  /** Inputs on channels 5, 6, 7, then the output on channel 4. */
  function Channel(inputs: nat, k: nat): (channel: nat)
    requires k <= inputs <= 3
    ensures channel < TILE_COUNT
  {
    if k < inputs then 5 + k else 4
  }

  predicate ChannelsOk(d: seq<byte>, inputs: nat)
    requires |d| >= HEADER_BYTES && inputs <= 3
  {
    forall k :: 0 <= k <= inputs ==> TilesOk(d, Channel(inputs, k))
  }

  function ChannelIos(d: seq<byte>, inputs: nat): seq<Io>
    requires |d| >= HEADER_BYTES && inputs <= 3
  {
    seq(inputs + 1, k requires 0 <= k <= inputs => ChannelIo(d, Channel(inputs, k)))
  }

  method BuildChannels(d: seq<byte>, inputs: nat) returns (r: Result<seq<Io>>)
    requires |d| >= HEADER_BYTES && inputs <= 3
    ensures r.Ok? <==> ChannelsOk(d, inputs)
    ensures r.Ok? ==> r.value == ChannelIos(d, inputs)
  {
    hide TilesOk, ChannelIo, Channel;
    var ios: seq<Io> := [];
    for k := 0 to inputs + 1
      invariant |ios| == k
      invariant forall i :: 0 <= i < k ==> TilesOk(d, Channel(inputs, i)) && ios[i] == ChannelIo(d, Channel(inputs, i))
    {
      if !TilesOk(d, Channel(inputs, k)) {
        return Err(TileCount);
      }
      ios := ios + [ChannelIo(d, Channel(inputs, k))];
    }
    r := Ok(ios);
  }

  // ---- the build ----

  predicate SplitOk(desc: seq<byte>, taskCount: nat, firstTask: nat) {
    && |desc| >= FRAME_BYTES && Zeros(desc, 0, FRAME_BYTES)
    && var ts := Split(desc, 0, MAX_TASKS);
       ts.Ok? && ts.value != [] && |ts.value| == taskCount && firstTask == 4 * ts.value[0].words
  }

  ghost predicate AcceptsDerived(d: seq<byte>) {
    && HeaderOk(d)
    && var h := ReadHeader(d);
       && 1 <= h.inputCount <= 3 && ChannelsOk(d, h.inputCount)
       && SplitOk(Desc(d), h.taskCount, h.firstTask)
       && Derivable(Desc(d), Split(Desc(d), 0, MAX_TASKS).value, ChannelIos(d, h.inputCount), SCRATCH_BUFID)
       && BlockCount(Desc(d)).Ok? && BlockCount(Desc(d)).value > 0
  }

  /** The lowest slot tagged scratch; only this one sizes the scratch buffer. */
  ghost predicate LowestScratch(refs: seq<Ref>, slot: nat) {
    Ref(slot, SCRATCH_BUFID) in refs && forall r :: r in refs && r.tag == SCRATCH_BUFID ==> slot <= r.slot
  }

  ghost predicate ScratchIo(s: seq<byte>, ts: seq<Task>, refs: seq<Ref>, output: nat, io: Io)
    requires RecordsFit(s, ts)
  {
    && io.bufferId == SCRATCH_BUFID && io.dir == 2
    && exists slot: nat :: LowestScratch(refs, slot)
         && io.size == RoundUpTile(MaxFrom(0, AllRecords(s, ts), slot) + output) + TILE
  }

  /** The channels, and the scratch entry exactly when some ref is tagged with it. */
  ghost predicate IosAre(d: seq<byte>, ts: seq<Task>, refs: seq<Ref>, ios: seq<Io>)
    requires HeaderOk(d) && ReadHeader(d).inputCount <= 3 && RecordsFit(Desc(d), ts)
  {
    var channels := ChannelIos(d, ReadHeader(d).inputCount);
    if forall r :: r in refs ==> r.tag != SCRATCH_BUFID then ios == channels
    else
      && |ios| == |channels| + 1 && ios[..|channels|] == channels
      && ScratchIo(Desc(d), ts, refs, Tiles(d, 4) * TILE, ios[|channels|])
  }

  ghost predicate IsDerivedBuild(d: seq<byte>, m: Model)
    requires AcceptsDerived(d)
  {
    var ts := Split(Desc(d), 0, MAX_TASKS).value;
    && Derived(Desc(d), ts, ChannelIos(d, ReadHeader(d).inputCount), SCRATCH_BUFID, m.refs)
    && IosAre(d, ts, m.refs, m.ios)
    && m.desc == Desc(d) && m.kernel == Kernel(d) && BlockCount(m.desc) == Ok(m.blocks)
  }

  method FirstScratch(refs: seq<Ref>) returns (found: bool, slot: nat)
    requires StrictlySorted(refs)
    ensures !found ==> forall r :: r in refs ==> r.tag != SCRATCH_BUFID
    ensures found ==> LowestScratch(refs, slot)
  {
    for i := 0 to |refs|
      invariant forall k :: 0 <= k < i ==> refs[k].tag != SCRATCH_BUFID
    {
      if refs[i].tag == SCRATCH_BUFID {
        assert refs[i] == Ref(refs[i].slot, SCRATCH_BUFID);
        return true, refs[i].slot;
      }
    }
    return false, 0;
  }

  method SplitStream(desc: seq<byte>, taskCount: nat, firstTask: nat) returns (r: Result<seq<Task>>)
    ensures r.Ok? <==> SplitOk(desc, taskCount, firstTask)
    ensures r.Ok? ==> r == Split(desc, 0, MAX_TASKS) && forall i :: 0 <= i < |r.value| ==> InStream(desc, r.value[i])
  {
    hide Split, Zeros;
    if |desc| < FRAME_BYTES {
      return Err(ShortStream);
    }
    var zero := AllZero(desc, 0, FRAME_BYTES);
    if !zero {
      return Err(FrameNotZero);
    }
    r := SplitTasks(desc, MAX_TASKS);
    if r.Err? {
      return;
    }
    if r.value == [] {
      return Err(NoTask);
    }
    if |r.value| != taskCount {
      return Err(TaskCountDiffers);
    }
    if firstTask != 4 * r.value[0].words {
      return Err(FirstTaskBytes);
    }
    TasksInStream(desc, MAX_TASKS);
  }

  method AddScratch(d: seq<byte>, ts: seq<Task>, refs: seq<Ref>, channels: seq<Io>) returns (ios: seq<Io>)
    requires HeaderOk(d) && ReadHeader(d).inputCount <= 3 && RecordsFit(Desc(d), ts) && StrictlySorted(refs)
    requires channels == ChannelIos(d, ReadHeader(d).inputCount)
    ensures IosAre(d, ts, refs, ios)
  {
    hide Records, MaxFrom, LowestScratch, AllRecords, HeaderOk, Tiles;
    var found, slot := FirstScratch(refs);
    if !found {
      return channels;
    }
    LowestIsIn(refs, slot);
    var output := channels[|channels| - 1].size;
    var size := ScratchSize(Desc(d), ts, slot, output);
    var io := Io(SCRATCH_BUFID, 2, size.value + TILE);
    ios := channels + [io];
  }

  lemma LowestIsIn(refs: seq<Ref>, slot: nat)
    requires LowestScratch(refs, slot)
    ensures Ref(slot, SCRATCH_BUFID) in refs
  {
  }

  /** The header checks. */
  method CheckHeader(d: seq<byte>) returns (r: Result<Header>)
    ensures r.Ok? <==> HeaderOk(d) && 1 <= ReadHeader(d).inputCount <= 3
    ensures r.Ok? ==> r.value == ReadHeader(d)
  {
    if |d| < HEADER_BYTES {
      return Err(ShortPackage);
    }
    var h := ReadHeader(d);
    if h.payload != |d| - HEADER_BYTES {
      return Err(PayloadSize);
    }
    if h.version != 1 {
      return Err(Version);
    }
    if h.inputCount < 1 || h.inputCount > 3 {
      return Err(InputCount);
    }
    if h.krnSize > h.payload {
      return Err(ConstTooLarge);
    }
    var constOff := h.payload - h.krnSize;
    if constOff % 64 != 0 {
      return Err(ConstMisaligned);
    }
    if h.tskSize > constOff {
      return Err(StreamReachesConst);
    }
    r := Ok(h);
  }

  method CountBlocks(desc: seq<byte>) returns (r: Result<nat>)
    ensures r.Ok? <==> BlockCount(desc).Ok? && BlockCount(desc).value > 0
    ensures r.Ok? ==> r == BlockCount(desc)
  {
    hide BlockCount;
    r := TdpropBlockCount(desc);
    if r.Ok? && r.value == 0 {
      return Err(NoBlock);
    }
  }

  method BuildDerived(d: seq<byte>) returns (r: Result<Model>)
    ensures r.Ok? <==> AcceptsDerived(d)
    ensures r.Ok? ==> IsDerivedBuild(d, r.value)
  {
    hide Split, Zeros, BlockCount, Derivable, Derived, IosAre, ChannelsOk, ChannelIos, SplitOk, InStream, RecordsFit,
      ReadHeader, HeaderOk, Desc, Kernel;
    var h := CheckHeader(d);
    if h.Err? {
      return Err(h.why);
    }
    HeaderLong(d);
    var channels := BuildChannels(d, h.value.inputCount);
    if channels.Err? {
      return Err(channels.why);
    }
    var desc := Desc(d);
    var ts := SplitStream(desc, h.value.taskCount, h.value.firstTask);
    if ts.Err? {
      return Err(ts.why);
    }
    var refs := DeriveRefs(desc, ts.value, channels.value, SCRATCH_BUFID);
    if refs.Err? {
      return Err(refs.why);
    }
    DerivedSorted(desc, ts.value, channels.value, refs.value);
    var ios := AddScratch(d, ts.value, refs.value, channels.value);
    var blocks := CountBlocks(desc);
    if blocks.Err? {
      return Err(blocks.why);
    }
    r := Ok(Model(ios, refs.value, desc, Kernel(d), blocks.value));
  }

  lemma HeaderLong(d: seq<byte>)
    requires HeaderOk(d)
    ensures |d| >= HEADER_BYTES
  {
  }

  lemma DerivedSorted(s: seq<byte>, ts: seq<Task>, ios: seq<Io>, refs: seq<Ref>)
    requires RecordsFit(s, ts) && ScanAll(Start(), AllRecords(s, ts)).Ok? && Derived(s, ts, ios, SCRATCH_BUFID, refs)
    ensures StrictlySorted(refs)
  {
  }

  // ---- what an accepted package guarantees ----

  /** The derived builder, too, declares as many blocks as there are tasks and as the header
      announces, and its tasks tile the stream. */
  lemma DerivedCountsAgree(d: seq<byte>, m: Model)
    requires AcceptsDerived(d) && IsDerivedBuild(d, m)
    ensures var ts := Split(m.desc, 0, MAX_TASKS);
            ts.Ok? && m.blocks == |ts.value| == ReadHeader(d).taskCount && Tiled(m.desc, FRAME_BYTES, ts.value)
  {
    hide Split, BlockCount, Tiled, Zeros, Derivable, Derived, IosAre, ChannelsOk;
    BlockCountIsTaskCount(Desc(d), MAX_TASKS);
  }

  /** The tile count of a channel lies in the words from 0x28 on, 1 to 0x100000. */
  lemma ChannelsAre(d: seq<byte>, inputs: nat)
    requires |d| >= 0x1000 && inputs <= 3
    ensures ChannelsOk(d, inputs) <==>
              forall channel: nat :: 4 <= channel <= 4 + inputs ==> 1 <= Le32(d, 0x28 + 4 * channel) <= 0x10_0000
  {
    hide Le32;
    if ChannelsOk(d, inputs) {
      forall channel: nat | 4 <= channel <= 4 + inputs
        ensures 1 <= Le32(d, 0x28 + 4 * channel) <= 0x10_0000
      {
        assert TilesOk(d, Channel(inputs, if channel == 4 then inputs else channel - 5));
      }
    }
  }

  /** THE TABLE of a derived build: one to three inputs on channels 5, 6 and 7, the output on channel 4, each as large
      as its tile count says, and scratch exactly when some slot is bound to it. */
  lemma DerivedTable(d: seq<byte>, m: Model)
    requires AcceptsDerived(d) && IsDerivedBuild(d, m)
    ensures |d| >= 0x1000
    ensures var n := Le32(d, 0x20);
            && 1 <= n <= 3 && n + 1 <= |m.ios| <= n + 2 && m.ios[n] == Io(4, 1, 0x4000 * Le32(d, 0x38))
            && (forall k :: 0 <= k < n ==> m.ios[k] == Io(5 + k, 0, 0x4000 * Le32(d, 0x3c + 4 * k)))
            && (|m.ios| == n + 2 <==> exists r :: r in m.refs && r.tag == 0x40)
            && (|m.ios| == n + 2 ==> m.ios[n + 1].bufferId == 0x40 && m.ios[n + 1].dir == 2)
    ensures m.blocks == Le32(d, 0x0c) <= 128
  {
    hide Split, BlockCount, Tiled, Zeros, Derivable, Derived, ChannelsOk, Le32, Le64, MaxFrom, AllRecords,
      LowestScratch;
    DerivedCountsAgree(d, m);
    SplitMeans(Desc(d), 0, MAX_TASKS, Split(Desc(d), 0, MAX_TASKS).value);
  }

  /** Every tag denotes the kernel section or an io record of the built table. */
  lemma DerivedTagsBound(d: seq<byte>, m: Model, r: Ref)
    requires AcceptsDerived(d) && IsDerivedBuild(d, m) && r in m.refs
    ensures r.tag == KERNEL_TAG || exists k :: 0 <= k < |m.ios| && m.ios[k].bufferId == r.tag
  {
    hide Split, BlockCount, ChannelIos, ChannelsOk, ScratchIo, SlotTag, Records, AllRecords, ScanAll, ScanShape,
      AllTagged;
    var ts, channels := Split(Desc(d), 0, MAX_TASKS).value, ChannelIos(d, ReadHeader(d).inputCount);
    var c := ProgramContext(Desc(d), ts, channels, SCRATCH_BUFID);
    assert r == Ref(r.slot, r.tag);
    assert SlotTag(c, Desc(d), ts, r.slot) == Tag(r.tag);
    assert Known(c, r.tag);
    TagInTable(d, ts, m, r);
  }

  lemma TagInTable(d: seq<byte>, ts: seq<Task>, m: Model, r: Ref)
    requires HeaderOk(d) && ReadHeader(d).inputCount <= 3 && RecordsFit(Desc(d), ts) && IosAre(d, ts, m.refs, m.ios)
             && r in m.refs
    requires r.tag == KERNEL_TAG || r.tag == SCRATCH_BUFID
             || exists i :: 0 <= i < |ChannelIos(d, ReadHeader(d).inputCount)|
                  && ChannelIos(d, ReadHeader(d).inputCount)[i].bufferId == r.tag
    ensures r.tag == KERNEL_TAG || exists k :: 0 <= k < |m.ios| && m.ios[k].bufferId == r.tag
  {
    hide Records, AllRecords, MaxFrom, LowestScratch, ChannelIos;
    var channels := ChannelIos(d, ReadHeader(d).inputCount);
    if r.tag == SCRATCH_BUFID {
      assert m.ios[|channels|].bufferId == r.tag;
    } else if r.tag != KERNEL_TAG {
      var i :| 0 <= i < |channels| && channels[i].bufferId == r.tag;
      assert m.ios[i] == channels[i];
    }
  }

  ghost predicate Elementwise(d: seq<byte>)
    requires AcceptsDerived(d)
  {
    var c := ProgramContext(Desc(d), Split(Desc(d), 0, MAX_TASKS).value, ChannelIos(d, ReadHeader(d).inputCount),
      SCRATCH_BUFID);
    !Matmul(c) && !Blend(c)
  }

  /** THE CHANNEL CONTRACT. The built model of an elementwise program binds a slot to the channel of the
      register class its tasks first name it through (4 destination, 5 source A, 6 source B, 2 kernel)
      exactly when all of them do, and to scratch exactly when two differ. A second source takes a
      second input. */
  lemma ElementwiseModel(d: seq<byte>, m: Model, slot: nat, tag: nat)
    requires AcceptsDerived(d) && IsDerivedBuild(d, m) && Elementwise(d)
    ensures var s, ts := m.desc, Split(m.desc, 0, MAX_TASKS).value;
            && RecordsFit(s, ts)
            && (Ref(slot, tag) in m.refs <==>
                  Agreed(s, ts, slot, tag) || (tag == SCRATCH_BUFID && Disputed(s, ts, slot)))
            && (forall i, t :: NamedAs(s, ts, i, slot, t) ==> t in {KERNEL_TAG, 4, 5, 6} && (t in {5, 6} ==> slot > 3))
    ensures Ref(slot, 6) in m.refs ==> ReadHeader(d).inputCount >= 2
  {
    hide Split, BlockCount, ChannelsOk, ScratchIo, Records, AllRecords, ScanAll, Resolved, Derived, NamedAs,
      Agreed, Disputed, Zeros,
      ReadHeader, Matmul, Blend, Tiles;
    var ts, channels := Split(Desc(d), 0, MAX_TASKS).value, ChannelIos(d, ReadHeader(d).inputCount);
    ElementwiseRefs(Desc(d), ts, channels, SCRATCH_BUFID, m.refs, slot, tag);
    if Ref(slot, 6) in m.refs {
      SecondInput(d, m, Ref(slot, 6));
    }
  }

  lemma SecondInput(d: seq<byte>, m: Model, r: Ref)
    requires AcceptsDerived(d) && IsDerivedBuild(d, m) && r in m.refs && r.tag == 6
    ensures ReadHeader(d).inputCount >= 2
  {
    hide Split, BlockCount, ChannelsOk, Derived, Derivable, SplitOk, Tiles, Records, AllRecords;
    DerivedTagsBound(d, m, r);
    var k :| 0 <= k < |m.ios| && m.ios[k].bufferId == 6;
    var channels := ChannelIos(d, ReadHeader(d).inputCount);
    if k < |channels| {
      assert m.ios[k] == channels[k];
    }
  }

  /** Some record of a task refers to a slot at this offset. */
  ghost predicate Refers(s: seq<byte>, ts: seq<Task>, slot: nat, offset: nat)
    requires RecordsFit(s, ts)
  {
    exists i, rec :: 0 <= i < |ts| && rec in Records(s, ts[i]).value && Touches(rec, slot) && |rec.payload| >= 1
      && rec.payload[0] == offset
  }

  /** A buffer of `size` bytes holds `room` bytes at every offset of the slot. */
  ghost predicate Holds(s: seq<byte>, ts: seq<Task>, slot: nat, room: nat, size: nat)
    requires RecordsFit(s, ts)
  {
    forall offset: nat :: Refers(s, ts, slot, offset) ==> offset + room <= size
  }

  /** SCRATCH EXTENT. The scratch buffer is sized by the lowest slot bound to it and holds, at each of its
      offsets, a whole output and a guard tile; it holds as much at another slot exactly when that slot's
      largest offset plus an output rounds up to no more tiles. */
  lemma ScratchCovers(d: seq<byte>, m: Model, lowest: nat, slot: nat)
    requires AcceptsDerived(d) && IsDerivedBuild(d, m) && LowestScratch(m.refs, lowest)
    ensures var ts, output := Split(m.desc, 0, MAX_TASKS).value, Tiles(d, 4) * TILE;
            && RecordsFit(m.desc, ts) && m.ios != []
            && var all, size := AllRecords(m.desc, ts), m.ios[|m.ios| - 1].size;
               && size == RoundUpTile(MaxFrom(0, all, lowest) + output) + TILE
               && Holds(m.desc, ts, lowest, output + TILE, size)
               && (Holds(m.desc, ts, slot, output + TILE, size) <==>
                     MaxFrom(0, all, slot) + output <= RoundUpTile(MaxFrom(0, all, lowest) + output))
  {
    hide Split, BlockCount, ChannelsOk, SlotTag, Records, AllRecords, ScanAll, ScanShape, MaxFrom, Tiles, RoundUpTile,
      Resolved, RefsAre;
    hide IosAre, LowestScratch, ReadHeader, Zeros, Derived, Holds;
    var ts := Split(Desc(d), 0, MAX_TASKS).value;
    LowestUnique(m.refs, lowest);
    ScratchSized(d, ts, m, lowest);
    var output, size := Tiles(d, 4) * TILE, m.ios[|m.ios| - 1].size;
    HoldsIff(m.desc, ts, lowest, output + TILE, size);
    HoldsIff(m.desc, ts, slot, output + TILE, size);
  }

  lemma HoldsIff(s: seq<byte>, ts: seq<Task>, slot: nat, room: nat, size: nat)
    requires RecordsFit(s, ts) && room <= size
    ensures Holds(s, ts, slot, room, size) <==> MaxFrom(0, AllRecords(s, ts), slot) + room <= size
  {
    hide Refers, AllRecords, MaxFrom, Records;
    LargestIs(s, ts, slot);
  }

  lemma LargestIs(s: seq<byte>, ts: seq<Task>, slot: nat)
    requires RecordsFit(s, ts)
    ensures forall offset: nat :: Refers(s, ts, slot, offset) ==> offset <= MaxFrom(0, AllRecords(s, ts), slot)
    ensures MaxFrom(0, AllRecords(s, ts), slot) > 0 ==> Refers(s, ts, slot, MaxFrom(0, AllRecords(s, ts), slot))
  {
    hide Records, AllRecords, Touches, MaxFrom;
    var rs := AllRecords(s, ts);
    MaxMeans(0, rs, slot);
    forall offset: nat | Refers(s, ts, slot, offset)
      ensures offset <= MaxFrom(0, rs, slot)
    {
      var i, rec :| 0 <= i < |ts| && rec in Records(s, ts[i]).value && Touches(rec, slot) && |rec.payload| >= 1
        && rec.payload[0] == offset;
      LargestCovers(s, ts, i, rec, slot);
    }
    if MaxFrom(0, rs, slot) > 0 {
      var k :| 0 <= k < |rs| && Touches(rs[k], slot) && rs[k].payload[0] == MaxFrom(0, rs, slot);
      RecordOrigin(s, ts, rs[k]);
    }
  }

  lemma LargestCovers(s: seq<byte>, ts: seq<Task>, i: nat, rec: Record, slot: nat)
    requires RecordsFit(s, ts) && i < |ts| && rec in Records(s, ts[i]).value && Touches(rec, slot)
    ensures |rec.payload| >= 1 && rec.payload[0] <= MaxFrom(0, AllRecords(s, ts), slot)
  {
    hide Records, AllRecords, Touches, MaxFrom;
    AllRecordsHolds(s, ts, i, rec);
    var rs := AllRecords(s, ts);
    MaxMeans(0, rs, slot);
    var k :| 0 <= k < |rs| && rs[k] == rec;
  }

  lemma LowestUnique(refs: seq<Ref>, slot: nat)
    requires LowestScratch(refs, slot)
    ensures forall other: nat :: LowestScratch(refs, other) ==> other == slot
  {
    forall other: nat | LowestScratch(refs, other)
      ensures other == slot
    {
      assert Ref(other, SCRATCH_BUFID) in refs && Ref(slot, SCRATCH_BUFID) in refs;
    }
  }

  lemma ScratchSized(d: seq<byte>, ts: seq<Task>, m: Model, slot: nat)
    requires HeaderOk(d) && ReadHeader(d).inputCount <= 3 && RecordsFit(Desc(d), ts) && IosAre(d, ts, m.refs, m.ios)
    requires LowestScratch(m.refs, slot) && forall other: nat :: LowestScratch(m.refs, other) ==> other == slot
    ensures |m.ios| > 0
    ensures m.ios[|m.ios| - 1].size ==
            RoundUpTile(MaxFrom(0, AllRecords(Desc(d), ts), slot) + Tiles(d, 4) * TILE) + TILE
  {
    hide Records, AllRecords, MaxFrom, LowestScratch, ChannelIos, RoundUpTile, Tiles;
    LowestIsIn(m.refs, slot);
    var io := m.ios[|m.ios| - 1];
    var other: nat :| LowestScratch(m.refs, other)
      && io.size == RoundUpTile(MaxFrom(0, AllRecords(Desc(d), ts), other) + Tiles(d, 4) * TILE) + TILE;
    assert other == slot;
  }
}
