/** The port-table build of a whole package, and what its success guarantees. */
module H14Build {
  import opened Basics
  import opened H14Bytes
  import opened H14Stream
  import opened H14Records
  import opened H14Sort
  import opened H14Ports

  /** What a build hands to the section emitter. */
  datatype Model = Model(ios: seq<Io>, refs: seq<Ref>, desc: seq<byte>, kernel: seq<byte>, blocks: nat)

  /** The header words the builder reads. */
  datatype Header = Header(payload: nat, firstTask: nat, taskCount: nat, tskSize: nat, krnSize: nat, inputCount: nat,
    version: nat)

  function ReadHeader(d: seq<byte>): Header
    requires |d| >= HEADER_BYTES
  {
    Header(Le64(d, 0), Le32(d, 0x08), Le32(d, 0x0c), Le64(d, 0x10), Le64(d, 0x18), Le32(d, 0x20), Le32(d, 0x24))
  }

  /** The checks both builders make before they look at the stream. */
  predicate HeaderOk(d: seq<byte>) {
    && |d| >= HEADER_BYTES
    && var h := ReadHeader(d);
       && h.payload == |d| - HEADER_BYTES && h.version == 1
       && h.krnSize <= h.payload && (h.payload - h.krnSize) % 64 == 0
       && h.tskSize <= h.payload - h.krnSize
  }

  function Desc(d: seq<byte>): seq<byte>
    requires HeaderOk(d)
  {
    d[HEADER_BYTES..HEADER_BYTES + ReadHeader(d).tskSize]
  }

  function Kernel(d: seq<byte>): seq<byte>
    requires HeaderOk(d)
  {
    d[|d| - ReadHeader(d).krnSize..]
  }

  /** The tile count of a channel. */
  function Tiles(d: seq<byte>, channel: nat): nat
    requires |d| >= HEADER_BYTES && channel < TILE_COUNT
  {
    Le32(d, 0x28 + 4 * channel)
  }

  /** The stream opens with a zero frame and splits into the tasks the header announces. */
  predicate StreamOk(desc: seq<byte>, taskCount: nat, firstTask: nat) {
    && |desc| >= FRAME_BYTES && Zeros(desc, 0, FRAME_BYTES)
    && taskCount <= |desc| / 32
    && var ts := Split(desc, 0, taskCount);
       ts.Ok? && ts.value != [] && |ts.value| == taskCount && firstTask == 4 * ts.value[0].words
  }

  function Tasks(d: seq<byte>): seq<Task>
    requires HeaderOk(d) && StreamOk(Desc(d), ReadHeader(d).taskCount, ReadHeader(d).firstTask)
  {
    Split(Desc(d), 0, ReadHeader(d).taskCount).value
  }

  lemma TasksInStream(s: seq<byte>, cap: nat)
    requires Split(s, 0, cap).Ok?
    ensures forall i :: 0 <= i < |Split(s, 0, cap).value| ==> InStream(s, Split(s, 0, cap).value[i])
  {
    hide Split, WordCount, Zeros, Covered, TaskEnd;
    SplitMeans(s, 0, cap, Split(s, 0, cap).value);
  }

  ghost predicate TasksBound(s: seq<byte>, ts: seq<Task>, refs: seq<Ref>, ios: seq<Io>, krn: nat) {
    forall i :: 0 <= i < |ts| ==> InStream(s, ts[i]) && TaskBound(s, ts[i], refs, ios, krn)
  }

  /** The packages and port tables the builder accepts, as conditions on its input alone. */
  ghost predicate Accepts(d: seq<byte>, ports: seq<Port>) {
    && 0 < |ports| < MAX_BINDS
    && HeaderOk(d)
    && PortsOk(ports) && CountsOk(ports, ReadHeader(d).inputCount)
    && StreamOk(Desc(d), ReadHeader(d).taskCount, ReadHeader(d).firstTask)
    && TasksBound(Desc(d), Tasks(d), PortRefs(ports), IoTable(ports), ReadHeader(d).krnSize)
    && BlockCount(Desc(d)).Ok? && BlockCount(Desc(d)).value > 0
  }

  ghost predicate IsBuilt(d: seq<byte>, ports: seq<Port>, m: Model)
    requires HeaderOk(d)
  {
    && m.ios == IoTable(ports) && IsRefSet(ports, m.refs)
    && m.desc == Desc(d) && m.kernel == Kernel(d) && BlockCount(m.desc) == Ok(m.blocks)
  }

  lemma SameBound(s: seq<byte>, ts: seq<Task>, ports: seq<Port>, refs: seq<Ref>, ios: seq<Io>, krn: nat)
    requires PortsOk(ports) && IsRefSet(ports, refs)
    ensures TasksBound(s, ts, refs, ios, krn) <==> TasksBound(s, ts, PortRefs(ports), ios, krn)
  {
    hide PortsOk, IsRefSet, IsBarRef, Records, PortRefs, SlotRef, TagSize;
    forall slot: nat
      ensures SlotRef(refs, slot) == SlotRef(PortRefs(ports), slot)
    {
      SameLookup(ports, refs, slot);
    }
    forall rec: Record | |rec.payload| >= 1
      ensures Bound(refs, ios, krn, rec) <==> Bound(PortRefs(ports), ios, krn, rec)
    {
    }
  }

  /** The stream part of a build: split, count, first task, bound slots. */
  method CheckStream(desc: seq<byte>, taskCount: nat, firstTask: nat, refs: seq<Ref>, ios: seq<Io>, krn: nat)
    returns (why: Result<()>)
    ensures why.Ok? <==>
              StreamOk(desc, taskCount, firstTask)
              && TasksBound(desc, Split(desc, 0, taskCount).value, refs, ios, krn)
  {
    hide Split, TaskBound, Zeros;
    if |desc| < FRAME_BYTES {
      return Err(ShortStream);
    }
    var zero := AllZero(desc, 0, FRAME_BYTES);
    if !zero {
      return Err(FrameNotZero);
    }
    if taskCount > |desc| / 32 {
      return Err(TaskCountTooLarge);
    }
    var ts := SplitTasks(desc, taskCount);
    if ts.Err? {
      return Err(ts.why);
    }
    if ts.value == [] {
      return Err(NoTask);
    }
    if |ts.value| != taskCount {
      return Err(TaskCountDiffers);
    }
    if firstTask != 4 * ts.value[0].words {
      return Err(FirstTaskBytes);
    }
    TasksInStream(desc, taskCount);
    var bound := CheckBoundSlots(desc, ts.value, refs, ios, krn);
    return if bound then Ok(()) else Err(SlotUnbound);
  }

  method BuildPorts(d: seq<byte>, ports: seq<Port>) returns (r: Result<Model>)
    ensures r.Ok? <==> Accepts(d, ports)
    ensures r.Ok? ==> IsBuilt(d, ports, r.value)
  {
    hide PortsOk, CountsOk, IsRefSet, IoTable, BlockCount, PortRefs, TasksBound, Split, Zeros;
    if |ports| == 0 {
      return Err(PortListEmpty);
    }
    if |ports| >= MAX_BINDS {
      return Err(PortListFull);
    }
    if |d| < HEADER_BYTES {
      return Err(ShortPackage);
    }
    var h := ReadHeader(d);
    if h.payload != |d| - HEADER_BYTES {
      return Err(PayloadSize);
    }
    if h.version != 1 {
      return Err(Version);
    }
    if h.krnSize > h.payload {
      return Err(ConstTooLarge);
    }
    var constOff := h.payload - h.krnSize;
    if constOff % 64 != 0 {
      return Err(ConstMisaligned);
    }
    if h.tskSize > constOff {
      return Err(StreamReachesConst);
    }
    var portsOk := CheckPorts(ports, h.inputCount);
    if !portsOk {
      return Err(PortCounts);
    }
    var ios := BuildIoTable(ports);
    var refs := BuildRefs(ports);
    var desc := d[HEADER_BYTES..HEADER_BYTES + h.tskSize];
    var stream := CheckStream(desc, h.taskCount, h.firstTask, refs, ios, h.krnSize);
    if Split(desc, 0, h.taskCount).Ok? {
      SameBound(desc, Split(desc, 0, h.taskCount).value, ports, refs, ios, h.krnSize);
    }
    if stream.Err? {
      return Err(stream.why);
    }
    var kernel := d[HEADER_BYTES + constOff..HEADER_BYTES + constOff + h.krnSize];
    assert kernel == Kernel(d);
    var blocks := TdpropBlockCount(desc);
    if blocks.Err? {
      return Err(blocks.why);
    }
    if blocks.value == 0 {
      return Err(NoBlock);
    }
    r := Ok(Model(ios, refs, desc, kernel, blocks.value));
  }

  // ---- what an accepted package guarantees ----

  /** TASK COUNTS. The block count the tdprop section declares, the number of tasks the splitter
      found and the header's taskCount are one number, and the tasks tile the stream from offset
      16 to its end: no filler frame lies between them. */
  lemma CountsAgree(d: seq<byte>, ports: seq<Port>, m: Model)
    requires Accepts(d, ports) && IsBuilt(d, ports, m)
    ensures m.blocks == |Tasks(d)| == ReadHeader(d).taskCount
    ensures Tiled(m.desc, FRAME_BYTES, Tasks(d))
  {
    hide Split, BlockCount, Tiled, Zeros, IsRefSet, TasksBound, PortsOk, CountsOk, IoTable, PortRefs;
    BlockCountIsTaskCount(Desc(d), ReadHeader(d).taskCount);
  }

  ghost predicate DistinctIds(ios: seq<Io>) {
    forall i, j :: 0 <= i < j < |ios| ==> ios[i].bufferId != ios[j].bufferId
  }

  lemma {:induction false} OfDirDistinct(ports: seq<Port>, dir: nat)
    requires PortsApart(ports)
    ensures PortsApart(OfDir(ports, dir))
  {
    if ports != [] {
      var n := |ports| - 1;
      OfDirDistinct(ports[..n], dir);
      var before := OfDir(ports[..n], dir);
      forall i | 0 <= i < |before|
        ensures Apart(before[i], ports[n])
      {
        var k :| 0 <= k < n && ports[..n][k] == before[i];
        assert Apart(ports[k], ports[n]);
      }
    }
  }

  lemma OtherDir(ports: seq<Port>, d: nat, e: nat, i: nat, j: nat)
    requires PortsApart(ports) && d != e && i < |OfDir(ports, d)| && j < |OfDir(ports, e)|
    ensures OfDir(ports, d)[i].bufferId != OfDir(ports, e)[j].bufferId
  {
    var p, q := OfDir(ports, d)[i], OfDir(ports, e)[j];
    assert p in ports && q in ports;
    var a :| 0 <= a < |ports| && ports[a] == p;
    var b :| 0 <= b < |ports| && ports[b] == q;
    assert if a < b then Apart(ports[a], ports[b]) else a == b || Apart(ports[b], ports[a]);
  }

  lemma IoIdsDistinct(ports: seq<Port>)
    requires PortsApart(ports)
    ensures DistinctIds(IoTable(ports))
  {
    var p0, p1, p2 := OfDir(ports, 0), OfDir(ports, 1), OfDir(ports, 2);
    OfDirDistinct(ports, 0);
    OfDirDistinct(ports, 1);
    OfDirDistinct(ports, 2);
    forall i: nat, j: nat | i < |p0|
      && j < |p1| ensures p0[i].bufferId != p1[j].bufferId { OtherDir(ports, 0, 1, i, j); }
    forall i: nat, j: nat | i < |p0|
      && j < |p2| ensures p0[i].bufferId != p2[j].bufferId { OtherDir(ports, 0, 2, i, j); }
    forall i: nat, j: nat | i < |p1|
      && j < |p2| ensures p1[i].bufferId != p2[j].bufferId { OtherDir(ports, 1, 2, i, j); }
    hide OfDir;
    JoinDistinct(p0, p1, p2);
  }

  lemma JoinDistinct(p0: seq<Port>, p1: seq<Port>, p2: seq<Port>)
    requires PortsApart(p0) && PortsApart(p1) && PortsApart(p2)
    requires forall i, j :: 0 <= i < |p0| && 0 <= j < |p1| ==> p0[i].bufferId != p1[j].bufferId
    requires forall i, j :: 0 <= i < |p0| && 0 <= j < |p2| ==> p0[i].bufferId != p2[j].bufferId
    requires forall i, j :: 0 <= i < |p1| && 0 <= j < |p2| ==> p1[i].bufferId != p2[j].bufferId
    ensures DistinctIds(Ios(p0) + Ios(p1) + Ios(p2))
  {
    var all := p0 + p1 + p2;
    forall i, j | 0 <= i < j < |all|
      ensures all[i].bufferId != all[j].bufferId
    {
      var a, b := |p0|, |p0| + |p1|;
      if j < a {
        assert Apart(p0[i], p0[j]);
      } else if j < b && i >= a {
        assert Apart(p1[i - a], p1[j - a]);
      } else if i >= b {
        assert Apart(p2[i - b], p2[j - b]);
      }
    }
    var ios := Ios(p0) + Ios(p1) + Ios(p2);
    assert |ios| == |all| && forall i :: 0 <= i < |all| ==> ios[i] == IoOf(all[i]);
  }

  /** With distinct ids a tag denotes one buffer: the kernel constants, or one io record. */
  lemma {:induction false} TagSizeIs(ios: seq<Io>, krn: nat, tag: nat)
    requires DistinctIds(ios)
    ensures forall k :: 0 <= k < |ios| && ios[k].bufferId == tag ==> TagSize(ios, krn, tag) == ios[k].size
    ensures (forall k :: 0 <= k < |ios| ==> ios[k].bufferId != tag) ==>
              TagSize(ios, krn, tag) == if tag == KERNEL_TAG then krn else 0
  {
    if ios != [] {
      var n := |ios| - 1;
      TagSizeIs(ios[..n], krn, tag);
      if forall k :: 0 <= k < |ios| ==> ios[k].bufferId != tag {
        assert forall k :: 0 <= k < n ==> ios[..n][k].bufferId != tag;
      }
      forall k | 0 <= k < |ios| && ios[k].bufferId == tag
        ensures TagSize(ios, krn, tag) == ios[k].size
      {
        if k < n {
          assert ios[..n][k].bufferId == tag;
        }
      }
    }
  }

  /** `r` is the one ref of its slot, and its tag denotes exactly one buffer, of `size` bytes. */
  ghost predicate Denotes(m: Model, r: Ref, size: nat) {
    && r in m.refs && (forall q :: q in m.refs && q.slot == r.slot ==> q == r)
    && (if r.tag == KERNEL_TAG then size == |m.kernel|
         && forall k :: 0 <= k < |m.ios| ==> m.ios[k].bufferId != KERNEL_TAG
        else exists k :: && 0 <= k < |m.ios| && m.ios[k].bufferId == r.tag && m.ios[k].size == size
                         && forall l :: 0 <= l < |m.ios| && m.ios[l].bufferId == r.tag ==> l == k)
  }

  lemma KernelIdReserved(ports: seq<Port>)
    requires PortsOk(ports)
    ensures forall k :: 0 <= k < |IoTable(ports)| ==> IoTable(ports)[k].bufferId != KERNEL_TAG
  {
    var ios := IoTable(ports);
    forall k | 0 <= k < |ios|
      ensures ios[k].bufferId != KERNEL_TAG
    {
      var a, b := |OfDir(ports, 0)|, |OfDir(ports, 0)| + |OfDir(ports, 1)|;
      var p := if k < a then OfDir(ports, 0)[k] else if k < b then OfDir(ports, 1)[k - a] else OfDir(ports, 2)[k - b];
      assert p in ports && ios[k] == IoOf(p);
      var i :| 0 <= i < |ports| && ports[i] == p;
      assert PortOk(ports[i]);
    }
  }

  /** CONTAINMENT. Every BAR reference of every task of an accepted package names a slot that is
      bound exactly once, in a strictly ascending ref set, and its whole 64-bit offset lies
      below the size of the one buffer the slot's tag denotes: so does payload word 0, and with a second
      word the buffer is larger than that word times 2^32. */
  lemma Containment(d: seq<byte>, ports: seq<Port>, m: Model, i: nat, rec: Record)
    requires Accepts(d, ports) && IsBuilt(d, ports, m)
    requires i < |Tasks(d)| && InStream(m.desc, Tasks(d)[i])
    requires Records(m.desc, Tasks(d)[i]).Ok? && rec in BarRefs(Records(m.desc, Tasks(d)[i]).value)
    ensures StrictlySorted(m.refs)
    ensures |rec.payload| >= 1
    ensures exists r: Ref, size: nat ::
              && r.slot == Slot(rec.header) && Denotes(m, r, size) && Offset(rec.payload) < size
              && rec.payload[0] < size && (|rec.payload| >= 2 ==>
                   rec.payload[1] * 0x1_0000_0000 + rec.payload[0] < size)
  {
    hide Split, BlockCount, StreamOk, CountsOk, IoTable, PortRefs, PortsOk, SlotRef, TagSize, StrictlySorted, Offset,
      Slot;
    var t, krn := Tasks(d)[i], ReadHeader(d).krnSize;
    SameBound(m.desc, Tasks(d), ports, m.refs, m.ios, krn);
    assert TaskBound(m.desc, t, m.refs, m.ios, krn);
    var rs := Records(m.desc, t).value;
    var k :| 0 <= k < |rs| && rs[k] == rec;
    assert Bound(m.refs, m.ios, krn, rec);
    var r := SlotRef(m.refs, Slot(rec.header)).value;
    LookupDenotes(ports, m, krn, Slot(rec.header), r);
    assert |m.kernel| == krn;
    OffsetWords(rec.payload);
  }

  lemma OffsetWords(payload: seq<nat>)
    requires |payload| >= 1
    ensures payload[0] <= Offset(payload)
    ensures |payload| >= 2 ==> Offset(payload) == payload[1] * 0x1_0000_0000 + payload[0]
  {
  }

  lemma LookupDenotes(ports: seq<Port>, m: Model, krn: nat, slot: nat, r: Ref)
    requires PortsOk(ports) && m.ios == IoTable(ports) && IsRefSet(ports, m.refs) && |m.kernel| == krn
    requires SlotRef(m.refs, slot) == Ok(r) && TagSize(m.ios, krn, r.tag) > 0
    ensures r.slot == slot && Denotes(m, r, TagSize(m.ios, krn, r.tag))
  {
    hide PortsOk, SlotRef, TagSize, IoTable, PortRefs;
    assert DistinctSlots(m.refs);
    SlotRefIs(m.refs, slot, r);
    forall q | q in m.refs && q.slot == r.slot
      ensures q == r
    {
      SlotRefIs(m.refs, slot, q);
    }
    assert PortsApart(ports) by { PortsOkApart(ports); }
    IoIdsDistinct(ports);
    KernelIdReserved(ports);
    TagSizeIs(m.ios, krn, r.tag);
  }

  lemma PortsOkApart(ports: seq<Port>)
    requires PortsOk(ports)
    ensures PortsApart(ports)
  {
  }

  // ---- the shape of a built model ----

  lemma {:induction false} EveryDir(ports: seq<Port>)
    requires forall i :: 0 <= i < |ports| ==> ports[i].dir <= 2
    ensures |OfDir(ports, 0)| + |OfDir(ports, 1)| + |OfDir(ports, 2)| == |ports|
  {
    if ports != [] {
      EveryDir(ports[..|ports| - 1]);
    }
  }

  /** An io record of a port: whole tiles, and an id that is a channel other than 2 and 3, or scratch. */
  predicate IoShape(io: Io) {
    && io.size > 0 && io.size % 0x4000 == 0
    && (if io.dir == 2 then io.bufferId == 0x40 else io.dir <= 1 && io.bufferId < 32 && io.bufferId !in {2, 3})
  }

  /** The io record of some port. */
  ghost predicate RowOf(ports: seq<Port>, io: Io) {
    exists i :: 0 <= i < |ports| && io == Io(ports[i].bufferId, ports[i].dir, ports[i].tileBytes)
  }

  lemma TableShape(ports: seq<Port>, k: nat)
    requires PortsOk(ports) && k < |IoTable(ports)|
    ensures IoShape(IoTable(ports)[k])
    ensures IoTable(ports)[k].dir == if k < |OfDir(ports, 0)| then 0
              else if k < |OfDir(ports, 0)| + |OfDir(ports, 1)| then 1 else 2
    ensures RowOf(ports, IoTable(ports)[k])
  {
    var a, b := |OfDir(ports, 0)|, |OfDir(ports, 0)| + |OfDir(ports, 1)|;
    var p := if k < a then OfDir(ports, 0)[k] else if k < b then OfDir(ports, 1)[k - a] else OfDir(ports, 2)[k - b];
    assert p in ports && IoTable(ports)[k] == IoOf(p);
    var i :| 0 <= i < |ports| && ports[i] == p;
    assert PortOk(ports[i]);
  }

  /** THE TABLE. The io table of an accepted build has an entry for every port, inputs before outputs before scratch,
      with distinct ids and whole tiles; there are as many inputs as the package says, an output and at most one
      scratch. */
  lemma BuiltTable(d: seq<byte>, ports: seq<Port>, m: Model)
    requires Accepts(d, ports) && IsBuilt(d, ports, m)
    ensures 1 <= |m.ios| == |ports| <= 63 && DistinctIds(m.ios) && forall k :: 0 <= k < |m.ios| ==> IoShape(m.ios[k])
    ensures |d| >= 0x1000
    ensures var ins, outs := Le32(d, 0x20), |OfDir(ports, 1)|;
            && ins == |OfDir(ports, 0)| && outs >= 1 && ins + outs <= |m.ios| <= ins + outs + 1
            && forall k :: 0 <= k < |m.ios| ==> m.ios[k].dir == if k < ins then 0 else if k < ins + outs then 1 else 2
    ensures forall k :: 0 <= k < |m.ios| ==> RowOf(ports, m.ios[k])
  {
    hide StreamOk, TasksBound, BlockCount, OfDir, IsRefSet, PortsApart, Le32, Le64, RowOf, IoShape;
    assert forall i :: 0 <= i < |ports| ==> PortOk(ports[i]);
    EveryDir(ports);
    IoIdsDistinct(ports);
    hide PortOk;
    forall k: nat | k < |m.ios|
      ensures IoShape(m.ios[k])
      ensures m.ios[k].dir == if k < |OfDir(ports, 0)| then 0
                else if k < |OfDir(ports, 0)| + |OfDir(ports, 1)| then 1 else 2
      ensures RowOf(ports, m.ios[k])
    {
      TableShape(ports, k);
    }
  }

  /** THE PARTS. The header of an accepted package holds its payload size at 0, the first task's bytes at 8, the task
      count at 12, the sizes of the stream and of the constants at 16 and 24 and version 1 at 36; the stream
      follows the header, the constants end the package on a 64-byte boundary behind it. */
  lemma BuiltParts(d: seq<byte>, ports: seq<Port>, m: Model)
    requires Accepts(d, ports) && IsBuilt(d, ports, m)
    ensures |d| >= 0x1000 && Le64(d, 0) == |d| - 0x1000 && Le32(d, 0x24) == 1
    ensures |m.desc| == Le64(d, 0x10) && |m.kernel| == Le64(d, 0x18) && 0x1000 + |m.desc| + |m.kernel| <= |d|
    ensures m.desc == d[0x1000..0x1000 + |m.desc|] && m.kernel == d[|d| - |m.kernel|..]
    ensures (|d| - |m.kernel|) % 64 == 0
    ensures m.blocks == |Tasks(d)| == Le32(d, 0x0c) >= 1 && 4 * Tasks(d)[0].words == Le32(d, 8)
  {
    hide Split, BlockCount, Tiled, IsRefSet, TasksBound, PortsOk, CountsOk, IoTable, PortRefs, Le32, Le64, Zeros,
      HeaderOk, Desc, Kernel;
    CountsAgree(d, ports, m);
    HeaderParts(d);
  }

  lemma HeaderParts(d: seq<byte>)
    requires HeaderOk(d)
    ensures |d| >= 0x1000 && Le64(d, 0) == |d| - 0x1000 && Le32(d, 0x24) == 1
    ensures |Desc(d)| == Le64(d, 0x10) && |Kernel(d)| == Le64(d, 0x18) && 0x1000 + |Desc(d)| + |Kernel(d)| <= |d|
    ensures Desc(d) == d[0x1000..0x1000 + |Desc(d)|] && Kernel(d) == d[|d| - |Kernel(d)|..]
    ensures (|d| - |Kernel(d)|) % 64 == 0
  {
    hide Le32, Le64;
  }

  /** THE REFS. The ref set of an accepted build binds slot 1 to the kernel constants and the slot of every port, from 2
      to 0x3c, to its id, and nothing else. */
  lemma BuiltRefs(d: seq<byte>, ports: seq<Port>, m: Model, r: Ref)
    requires Accepts(d, ports) && IsBuilt(d, ports, m)
    ensures r in m.refs <==>
              r == Ref(1, 2) || exists i :: 0 <= i < |ports| && r == Ref(ports[i].slot, ports[i].bufferId)
    ensures r in m.refs ==> r == Ref(1, 2) || 2 <= r.slot <= 0x3c
  {
    hide StreamOk, TasksBound, BlockCount, OfDir, PortsApart, HeaderOk, CountsOk, StrictlySorted;
    assert r in m.refs <==> r in multiset(m.refs);
    assert r in PortRefs(ports) <==> r in multiset(PortRefs(ports));
    RefOfPort(ports, r);
    if i :| 0 <= i < |ports| && r == Ref(ports[i].slot, ports[i].bufferId) {
      assert PortOk(ports[i]);
    }
  }

  lemma RefOfPort(ports: seq<Port>, r: Ref)
    ensures r in PortRefs(ports) <==>
              r == Ref(1, 2) || exists i :: 0 <= i < |ports| && r == Ref(ports[i].slot, ports[i].bufferId)
  {
    var refs := PortRefs(ports);
    if r == Ref(1, 2) {
      assert refs[0] == r;
    }
    if i :| 0 <= i < |ports| && r == Ref(ports[i].slot, ports[i].bufferId) {
      assert refs[i + 1] == r;
    }
    if r in refs && r != Ref(1, 2) {
      var k :| 0 <= k < |refs| && refs[k] == r;
      assert r == Ref(ports[k - 1].slot, ports[k - 1].bufferId);
    }
  }
}
