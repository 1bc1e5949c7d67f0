/** From an HWX to a loadable program: the converter (tools/hwx_h14_staged_to_anec.py), the port
    derivation (tools/hwx_ports.py) and the builder (libane/ane_m2.c) one after another. */
module H14Pipeline {
  import opened Basics
  import opened H14Bytes
  import opened H14Stream
  import opened H14Records
  import opened H14Ports
  import opened H14Build
  import opened H14PortTable
  import Conv = H14Convert

  function TileCounts(d: seq<byte>): (r: seq<nat>)
    requires |d| >= HEADER_BYTES
    ensures |r| == 32
  {
    seq<nat>(32, c requires 0 <= c < 32 => Tiles(d, c))
  }

  ghost predicate NoTwins(ts: seq<Tensor>) {
    forall i, j :: 0 <= i < j < |ts| ==> ts[i].name != ts[j].name
  }

  /** derive_program gets through on the package, and none of its exceptions about sizes, bindings,
      offsets, unreferenced ports and the input count is raised. */
  ghost predicate Derives(hwx: Hwx, d: seq<byte>) {
    && |d| >= HEADER_BYTES && HeaderOk(d) && |hwx.slots| >= 4 && NoTwins(hwx.tensors)
    && Entries(hwx, TileCounts(d)).Done? && Uses(Desc(d), 0, map[]).Done?
    && ReadHeader(d).inputCount == |OfBinding(hwx.tensors, 1)|
    && NoExceptions(Entries(hwx, TileCounts(d)).value, Uses(Desc(d), 0, map[]).value, ReadHeader(d).krnSize)
  }

  ghost function TablePorts(hwx: Hwx, d: seq<byte>): seq<Port>
    requires Derives(hwx, d)
  {
    PortsOf(Entries(hwx, TileCounts(d)).value)
  }

  // ---- which tensor each io slot names ----

  ghost predicate Names(hwx: Hwx, slot: nat) {
    slot < |hwx.slots| && hwx.slots[slot] in hwx.names
      && IndexOf(hwx.tensors, hwx.names[hwx.slots[slot]]) < |hwx.tensors|
  }

  ghost function Named(hwx: Hwx, slot: nat): Tensor
    requires Names(hwx, slot)
  {
    hwx.tensors[IndexOf(hwx.tensors, hwx.names[hwx.slots[slot]])]
  }

  predicate Mirrors(p: Port, t: Tensor) { (t.binding == 1 && p.dir == 0) || (t.binding == 2 && p.dir == 1) }

  /** What an io entry says of its slot. */
  ghost predicate EntryOf(hwx: Hwx, slot: nat, p: Port) {
    && Names(hwx, slot) && p.slot == slot
    && Mirrors(p, Named(hwx, slot))
    && p.bufferId == 4 + IndexOf(ChannelOrder(hwx.tensors), Named(hwx, slot).name)
    && IndexOf(ChannelOrder(hwx.tensors), Named(hwx, slot).name) < |ChannelOrder(hwx.tensors)|
  }

  lemma {:induction false} EntriesNamed(hwx: Hwx, tiles: seq<nat>, n: nat, k: nat)
    requires 4 <= k < n <= |hwx.slots| && IoEntries(hwx, tiles, n).Done?
    ensures var es := IoEntries(hwx, tiles, n).value; |es| == n - 4 && EntryOf(hwx, k, es[k - 4].port)
  {
    hide ChannelOrder, IndexOf;
    IoEntriesShape(hwx, tiles, n);
    if k < n - 1 {
      EntriesNamed(hwx, tiles, n - 1, k);
      IoEntriesShape(hwx, tiles, n - 1);
    }
  }

  /** No two io slots carry the name of one tensor. */
  ghost predicate NamedOnce(hwx: Hwx) {
    forall a, b :: 4 <= a < b < |hwx.slots| && Names(hwx, a) && Names(hwx, b) ==>
      Named(hwx, a).name != Named(hwx, b).name
  }

  /** One channel, one tensor. */
  lemma ChannelNames(hwx: Hwx, a: nat, p: Port, b: nat, q: Port)
    requires EntryOf(hwx, a, p) && EntryOf(hwx, b, q)
    ensures p.bufferId == q.bufferId <==> Named(hwx, a).name == Named(hwx, b).name
  {
    hide ChannelOrder;
  }

  // ---- counting directions ----

  /** The tensors named by slots 4 .. n - 1. */
  ghost function Picked(hwx: Hwx, n: nat): (ts: seq<Tensor>)
    requires forall k :: 4 <= k < n ==> Names(hwx, k)
    ensures |ts| == if n <= 4 then 0 else n - 4
    ensures forall i :: 0 <= i < |ts| ==> ts[i] == Named(hwx, i + 4)
  {
    if n <= 4 then [] else Picked(hwx, n - 1) + [Named(hwx, n - 1)]
  }

  lemma BindingStep(ts: seq<Tensor>, n: nat, binding: nat)
    requires n < |ts|
    ensures |OfBinding(ts[..n + 1], binding)| ==
              |OfBinding(ts[..n], binding)| + if ts[n].binding == binding then 1 else 0
  {
    assert ts[..n + 1][..n] == ts[..n];
  }

  lemma DirStep(ports: seq<Port>, n: nat, dir: nat)
    requires n < |ports|
    ensures |OfDir(ports[..n + 1], dir)| == |OfDir(ports[..n], dir)| + if ports[n].dir == dir then 1 else 0
  {
    hide OfDir;
    OfDirStep(ports, n, dir);
  }

  lemma NoneCounted(ports: seq<Port>, ts: seq<Tensor>)
    ensures |OfDir(ports[..0], 0)| == |OfDir(ports[..0], 1)| == |OfDir(ports[..0], 2)| == 0
    ensures |OfBinding(ts[..0], 1)| == |OfBinding(ts[..0], 2)| == 0
  {
    assert ports[..0] == [] && ts[..0] == [];
  }

  ghost predicate CountedAlike(ports: seq<Port>, ts: seq<Tensor>, n: nat)
    requires n <= |ports| == |ts|
  {
    && |OfDir(ports[..n], 0)| == |OfBinding(ts[..n], 1)| && |OfDir(ports[..n], 1)| == |OfBinding(ts[..n], 2)|
    && |OfDir(ports[..n], 2)| == 0
  }

  lemma {:induction false} DirsOfBindings(ports: seq<Port>, ts: seq<Tensor>, n: nat)
    requires n <= |ports| == |ts| && forall i :: 0 <= i < |ts| ==> Mirrors(ports[i], ts[i])
    ensures CountedAlike(ports, ts, n)
    decreases n
  {
    hide OfDir, OfBinding;
    if n == 0 {
      NoneCounted(ports, ts);
    } else {
      DirsOfBindings(ports, ts, n - 1);
      CountOne(ports, ts, n - 1);
    }
  }

  lemma CountOne(ports: seq<Port>, ts: seq<Tensor>, n: nat)
    requires n < |ports| == |ts| && Mirrors(ports[n], ts[n]) && CountedAlike(ports, ts, n)
    ensures CountedAlike(ports, ts, n + 1)
  {
    hide OfDir, OfBinding;
    DirStep(ports, n, 0);
    DirStep(ports, n, 1);
    DirStep(ports, n, 2);
    BindingStep(ts, n, 1);
    BindingStep(ts, n, 2);
  }

  ghost function Those(ts: seq<Tensor>, binding: nat): set<Tensor> { set t | t in ts && t.binding == binding }

  lemma {:induction false} BindingCount(ts: seq<Tensor>, binding: nat)
    requires NoTwins(ts)
    ensures |OfBinding(ts, binding)| == |Those(ts, binding)|
    decreases |ts|
  {
    if ts != [] {
      var n := |ts| - 1;
      var before, last := ts[..n], ts[n];
      BindingCount(before, binding);
      assert ts == before + [last];
      assert last !in before;
      assert Those(ts, binding) == Those(before, binding) + (if last.binding == binding then {last} else {});
    }
  }

  lemma {:induction false} Distinct(ts: seq<Tensor>)
    requires NoTwins(ts)
    ensures |set t | t in ts| == |ts|
    decreases |ts|
  {
    if ts != [] {
      var n := |ts| - 1;
      var before, last := ts[..n], ts[n];
      Distinct(before);
      assert ts == before + [last];
      assert last !in before;
      assert (set t | t in ts) == (set t | t in before) + {last};
    }
  }

  lemma SubsetFills(a: set<Tensor>, b: set<Tensor>)
    requires a <= b && |a| == |b|
    ensures a == b
  {
    assert |b - a| == |b| - |a|;
  }

  /** As many tensors as named slots, each named once: the slots name them all. */
  lemma AllNamed(a: seq<Tensor>, b: seq<Tensor>, binding: nat)
    requires NoTwins(a) && NoTwins(b) && |a| == |b| && forall i :: 0 <= i < |a| ==> a[i] in b
    ensures |OfBinding(a, binding)| == |OfBinding(b, binding)|
  {
    hide OfBinding, NoTwins;
    Distinct(a);
    Distinct(b);
    var inA, inB := set t | t in a, set t | t in b;
    SubsetFills(inA, inB);
    assert Those(a, binding) == Those(b, binding) by {
      forall t ensures t in a <==> t in b { assert t in inA <==> t in inB; }
    }
    BindingCount(a, binding);
    BindingCount(b, binding);
  }

  // ---- the table the builder takes ----

  /** What the builder asks of a derived table beyond what the tool checks: a BAR slot below 0x3d for
      every port, one tensor per slot, and an output. */
  ghost predicate TableOk(hwx: Hwx) {
    |hwx.slots| <= 0x3d && NamedOnce(hwx) && OfBinding(hwx.tensors, 2) != []
  }

  /** The parts of a derived table: the io ports of slots 4 and up, then at most one scratch. */
  ghost predicate Parts(hwx: Hwx, ports: seq<Port>) {
    && |hwx.slots| >= 4 && |hwx.tensors| == |hwx.slots| - 4
    && |hwx.tensors| <= |ports| <= |hwx.tensors| + 1
    && (forall i :: 0 <= i < |hwx.tensors| ==> EntryOf(hwx, i + 4, ports[i]))
    && (|ports| > |hwx.tensors| ==>
           ports[|hwx.tensors|].dir == 2 && ports[|hwx.tensors|].slot == 3
           && ports[|hwx.tensors|].bufferId == SCRATCH_BUFID)
  }

  lemma TableParts(hwx: Hwx, tiles: seq<nat>)
    requires |hwx.slots| >= 4 && Entries(hwx, tiles).Done?
    ensures Parts(hwx, PortsOf(Entries(hwx, tiles).value))
  {
    hide EntryOf, SlotEntry;
    var es := IoEntries(hwx, tiles, |hwx.slots|).value;
    IoEntriesShape(hwx, tiles, |hwx.slots|);
    forall i | 0 <= i < |es|
      ensures EntryOf(hwx, i + 4, es[i].port)
    {
      EntriesNamed(hwx, tiles, |hwx.slots|, i + 4);
    }
  }

  lemma ApartIffNamedOnce(hwx: Hwx, ports: seq<Port>)
    requires Parts(hwx, ports) && forall i :: 0 <= i < |ports| ==> ports[i].dir != 2 ==> ports[i].bufferId < TILE_COUNT
    ensures PortsApart(ports) <==> NamedOnce(hwx)
  {
    hide ChannelOrder, IndexOf, Names, Named;
    var n := |hwx.tensors|;
    if PortsApart(ports) {
      forall a, b | 4 <= a < b < |hwx.slots| && Names(hwx, a) && Names(hwx, b)
        ensures Named(hwx, a).name != Named(hwx, b).name
      {
        assert EntryOf(hwx, a - 4 + 4, ports[a - 4]) && EntryOf(hwx, b - 4 + 4, ports[b - 4]);
        assert Apart(ports[a - 4], ports[b - 4]);
        ChannelNames(hwx, a, ports[a - 4], b, ports[b - 4]);
      }
    }
    if NamedOnce(hwx) {
      forall i, j | 0 <= i < j < |ports|
        ensures Apart(ports[i], ports[j])
      {
        assert EntryOf(hwx, i + 4, ports[i]);
        if j < n {
          assert EntryOf(hwx, j + 4, ports[j]);
          ChannelNames(hwx, i + 4, ports[i], j + 4, ports[j]);
        }
      }
    }
  }

  lemma PickedMirrors(hwx: Hwx, ports: seq<Port>)
    requires Parts(hwx, ports)
    ensures |hwx.slots| >= 4 && forall k :: 4 <= k < |hwx.slots| ==> Names(hwx, k)
    ensures var picked := Picked(hwx, |hwx.slots|);
            |picked| == |hwx.tensors| <= |ports| && forall i :: 0 <= i < |picked| ==> Mirrors(ports[i], picked[i])
  {
    hide ChannelOrder, IndexOf, Names, Named, Mirrors;
    forall k | 4 <= k < |hwx.slots|
      ensures Names(hwx, k)
    {
      assert EntryOf(hwx, k - 4 + 4, ports[k - 4]);
    }
    var picked := Picked(hwx, |hwx.slots|);
    forall i | 0 <= i < |picked|
      ensures Mirrors(ports[i], picked[i])
    {
      assert EntryOf(hwx, i + 4, ports[i]);
    }
  }

  /** The last part of a table is at most one scratch. */
  lemma ScratchLast(hwx: Hwx, ports: seq<Port>)
    requires Parts(hwx, ports)
    ensures |hwx.tensors| <= |ports| <= |hwx.tensors| + 1
    ensures |ports| > |hwx.tensors| ==> ports[|hwx.tensors|].dir == 2
  {
    hide EntryOf;
  }

  /** Ports that mirror the tensors one for one, and at most a scratch after them, count as the tensors do. */
  lemma CountsOfParts(ports: seq<Port>, ts: seq<Tensor>)
    requires |ts| <= |ports| <= |ts| + 1 && (|ports| > |ts| ==> ports[|ts|].dir == 2)
    requires forall i :: 0 <= i < |ts| ==> Mirrors(ports[i], ts[i])
    ensures |OfDir(ports, 0)| == |OfBinding(ts, 1)| && |OfDir(ports, 1)| == |OfBinding(ts, 2)|
    ensures |OfDir(ports, 2)| <= 1
  {
    hide OfBinding, OfDir, Mirrors;
    var n := |ts|;
    var head := ports[..n];
    DirsOfBindings(head, ts, n);
    assert ts[..n] == ts && head[..n] == head;
    if |ports| > n {
      assert ports[..n + 1] == ports;
      DirStep(ports, n, 0);
      DirStep(ports, n, 1);
      DirStep(ports, n, 2);
    } else {
      assert head == ports;
    }
  }

  lemma DirCounts(hwx: Hwx, ports: seq<Port>)
    requires Parts(hwx, ports)
    ensures |hwx.slots| >= 4 && forall k :: 4 <= k < |hwx.slots| ==> Names(hwx, k)
    ensures |OfDir(ports, 0)| == |OfBinding(Picked(hwx, |hwx.slots|), 1)|
    ensures |OfDir(ports, 1)| == |OfBinding(Picked(hwx, |hwx.slots|), 2)|
    ensures |OfDir(ports, 2)| <= 1
  {
    hide OfBinding, OfDir, Names, Named, Parts, Mirrors, EntryOf;
    PickedMirrors(hwx, ports);
    ScratchLast(hwx, ports);
    CountsOfParts(ports, Picked(hwx, |hwx.slots|));
  }

  lemma PickedFrom(hwx: Hwx)
    requires |hwx.slots| >= 4 && |hwx.tensors| == |hwx.slots| - 4 && forall k :: 4 <= k < |hwx.slots| ==> Names(hwx, k)
    ensures forall t :: t in Picked(hwx, |hwx.slots|) ==> t in hwx.tensors
    ensures NoTwins(hwx.tensors) && NamedOnce(hwx) ==>
              forall b :: |OfBinding(Picked(hwx, |hwx.slots|), b)| == |OfBinding(hwx.tensors, b)|
  {
    hide OfBinding, IndexOf;
    var picked := Picked(hwx, |hwx.slots|);
    forall i | 0 <= i < |picked|
      ensures picked[i] in hwx.tensors
    {
      assert Names(hwx, i + 4) && picked[i] == Named(hwx, i + 4);
    }
    if NoTwins(hwx.tensors) && NamedOnce(hwx) {
      assert NoTwins(picked);
      forall b
        ensures |OfBinding(picked, b)| == |OfBinding(hwx.tensors, b)|
      {
        AllNamed(picked, hwx.tensors, b);
      }
    }
  }

  lemma CountsIffOutput(hwx: Hwx, ports: seq<Port>)
    requires Parts(hwx, ports) && NoTwins(hwx.tensors) && NamedOnce(hwx)
    ensures CountsOk(ports, |OfBinding(hwx.tensors, 1)|) <==> OfBinding(hwx.tensors, 2) != []
  {
    hide Parts, OfBinding, OfDir, NamedOnce, NoTwins, Names;
    DirCounts(hwx, ports);
    PartsCount(hwx, ports);
    PickedFrom(hwx);
  }

  lemma PartsCount(hwx: Hwx, ports: seq<Port>)
    requires Parts(hwx, ports)
    ensures |hwx.slots| >= 4 && |hwx.tensors| == |hwx.slots| - 4
  {
    hide EntryOf;
  }

  /** Every port of an exception-free table is a port of its own size. */
  lemma PortsSized(hwx: Hwx, d: seq<byte>)
    requires Derives(hwx, d)
    ensures var ports := TablePorts(hwx, d);
            forall i :: 0 <= i < |ports| ==>
              && ports[i].tileBytes > 0 && ports[i].tileBytes % 0x4000 == 0 && ports[i].dir <= 2 && ports[i].slot >= 3
              && (ports[i].dir != 2 ==> 4 <= ports[i].bufferId < TILE_COUNT)
              && (ports[i].dir == 2 ==> ports[i].bufferId == SCRATCH_BUFID && ports[i].slot == 3)
  {
    hide Entries, Uses, HeaderOk, Desc, ReadHeader, NoTwins, OfBinding;
    var es, uses := Entries(hwx, TileCounts(d)).value, Uses(Desc(d), 0, map[]).value;
    EntriesShape(hwx, TileCounts(d));
    forall i | 0 <= i < |es|
      ensures es[i].port.tileBytes > 0 && es[i].port.tileBytes % 0x4000 == 0 && EntryShape(es[i], TileCounts(d))
    {
      assert SizedRight(es[i]) && EntryShape(es[i], TileCounts(d));
      assert Contained(es, ReadHeader(d).krnSize, es[i].port.slot, uses[es[i].port.slot]);
    }
  }

  /** The port checks of the builder, on a derived table. */
  lemma TableAccepted(hwx: Hwx, d: seq<byte>)
    requires Derives(hwx, d)
    ensures var ports := TablePorts(hwx, d);
            0 < |ports| < MAX_BINDS && PortsOk(ports) && CountsOk(ports, ReadHeader(d).inputCount) <==> TableOk(hwx)
  {
    hide Entries, Uses, HeaderOk, Desc, ReadHeader, NoTwins, OfBinding, NoExceptions, CountsOk, PortsApart, NamedOnce;
    var ports := TablePorts(hwx, d);
    TableParts(hwx, TileCounts(d));
    PortsSized(hwx, d);
    ApartIffNamedOnce(hwx, ports);
    if NamedOnce(hwx) {
      CountsIffOutput(hwx, ports);
    }
    SlotsFit(hwx, ports);
    OutputNeedsTensor(hwx);
  }

  lemma OutputNeedsTensor(hwx: Hwx)
    ensures OfBinding(hwx.tensors, 2) != [] ==> |hwx.tensors| > 0
  {
  }

  lemma SlotsFit(hwx: Hwx, ports: seq<Port>)
    requires Parts(hwx, ports)
    ensures (forall i :: 0 <= i < |ports| ==> ports[i].slot <= 0x3c) <==> |hwx.slots| <= 0x3d
  {
    hide ChannelOrder, IndexOf, Names, Named;
    var n := |hwx.tensors|;
    assert forall i :: 0 <= i < n ==> EntryOf(hwx, i + 4, ports[i]);
    assert forall i :: 0 <= i < n ==> ports[i].slot == i + 4;
    if |hwx.slots| > 0x3d {
      assert ports[n - 1].slot == |hwx.slots| - 1;
    }
  }

  // ---- the whole pipeline ----

  lemma StreamAccepted(hwx: Hwx, d: seq<byte>)
    requires Derives(hwx, d) && StreamOk(Desc(d), ReadHeader(d).taskCount, ReadHeader(d).firstTask)
    ensures var s, ts, ports := Desc(d), Tasks(d), TablePorts(hwx, d);
            && Walked(s, 0) == Done(ts)
            && (TasksBound(s, ts, PortRefs(ports), IoTable(ports), ReadHeader(d).krnSize) <==> RecordsFit(s, ts))
            && (BlockCount(s).Ok? && BlockCount(s).value > 0 <==> Tiled(s, FRAME_BYTES, ts))
  {
    hide Entries, Uses, HeaderOk, ReadHeader, NoTwins, OfBinding, NoExceptions, Split, BlockCount, Tiled, Zeros, Walked,
      RecordsFit, TasksBound;
    DerivedIsBound(hwx, TileCounts(d), Desc(d), ReadHeader(d).taskCount, ReadHeader(d).krnSize);
    BlockCountIsTaskCount(Desc(d), ReadHeader(d).taskCount);
  }

  /** THE PIPELINE. When the converter emits a package and the port derivation reports no exception on
      it, the builder accepts the two exactly when the alignment gaps hold zeros, no record overruns
      its task, no filler frame lies between tasks, every BAR slot is below 0x3d, no two slots name one
      tensor, and there is an output. None of these is looked at by the two tools. */
  lemma PipelineBuilds(h: Conv.Hwx, hwx: Hwx)
    requires Conv.WellTyped(h) && Conv.Converted(h).Done? && Derives(hwx, Conv.Converted(h).value)
    ensures var d := Conv.Converted(h).value;
            && |h.text| >= FRAME_BYTES && Desc(d) == Conv.Cleared(h.text) && |Desc(d)| % 4 == 0
            && Walked(Desc(d), 0).Done?
            && (Accepts(d, TablePorts(hwx, d)) <==>
                  && TableOk(hwx) && GapsZero(Desc(d), 0)
                  && RecordsFit(Desc(d), Walked(Desc(d), 0).value)
                  && Tiled(Desc(d), FRAME_BYTES, Walked(Desc(d), 0).value))
  {
    hide Conv.WellTyped, Conv.Converted, Conv.Cleared, Conv.Plan, Conv.Bound, Conv.PlanInRange, Conv.ChannelsMade;
    hide StreamOk, GapsZero, ReadHeader, HeaderOk, Desc, TablePorts, PortsOk, CountsOk, TableOk, TasksBound, RecordsFit,
      Tiled, BlockCount,
      Walked, Derives, Tasks, PortRefs, IoTable;
    var d := Conv.Converted(h).value;
    Conv.ConvertMeetsBuilder(h);
    DerivesWalks(hwx, d);
    TableAccepted(hwx, d);
    if StreamOk(Desc(d), ReadHeader(d).taskCount, ReadHeader(d).firstTask) {
      StreamAccepted(hwx, d);
    }
  }

  lemma DerivesWalks(hwx: Hwx, d: seq<byte>)
    requires Derives(hwx, d)
    ensures |d| >= HEADER_BYTES && HeaderOk(d) && Walked(Desc(d), 0).Done?
  {
    hide Entries, Uses, HeaderOk, ReadHeader, NoTwins, OfBinding, NoExceptions, Walked;
    UsesNotes(Desc(d), 0, map[]);
  }
}
