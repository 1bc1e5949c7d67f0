/** What tools/hwx_h14_staged_to_anec.py puts where: the channel of every tensor, the words of the emitted header, and
    exactly when a package is emitted. */
module H14Emit {
  import opened Basics
  import opened H14Bytes
  import opened H14Stream
  import opened H14Ports
  import opened H14Build
  import opened H14Convert

  // ---- the channel of a tensor ----

  /** How many of the first k tensors have a binding. */
  function Before(tensors: seq<Tensor>, k: nat, binding: nat): nat
    requires k <= |tensors|
  {
    if k == 0 then 0 else Before(tensors, k - 1, binding) + if tensors[k - 1].binding == binding then 1 else 0
  }

  /** The first output is channel 4; the inputs follow from 5 in order; the other outputs come after them. */
  function ChannelOf(tensors: seq<Tensor>, k: nat): nat
    requires k < |tensors|
  {
    if tensors[k].binding == 1 then 5 + Before(tensors, k, 1)
    else if Before(tensors, k, 2) == 0 then 4
    else 4 + Before(tensors, |tensors|, 1) + Before(tensors, k, 2)
  }

  lemma {:induction false} BoundAt(tensors: seq<Tensor>, n: nat, binding: nat)
    requires n <= |tensors|
    ensures |Bound(tensors[..n], binding)| == Before(tensors, n, binding)
    ensures forall k :: 0 <= k < n && tensors[k].binding == binding ==>
              Before(tensors, k, binding) < Before(tensors, n, binding)
              && Bound(tensors[..n], binding)[Before(tensors, k, binding)] == tensors[k]
  {
    if n > 0 {
      BoundAt(tensors, n - 1, binding);
      assert tensors[..n][..n - 1] == tensors[..n - 1];
    }
  }

  /** THE PLAN. Every input and output tensor is planned on its channel. */
  lemma PlanMeans(tensors: seq<Tensor>, k: nat)
    requires k < |tensors| && tensors[k].binding in {1, 2}
    ensures Planned(tensors[k], ChannelOf(tensors, k)) in Plan(tensors)
  {
    hide Bound, Before;
    assert tensors[..|tensors|] == tensors;
    BoundAt(tensors, |tensors|, 1);
    BoundAt(tensors, |tensors|, 2);
    var outs, ins, p := Bound(tensors, 2), Bound(tensors, 1), Plan(tensors);
    if tensors[k].binding == 1 {
      var i := Before(tensors, k, 1);
      assert p[(if outs == [] then 0 else 1) + i] == Planned(ins[i], 5 + i);
    } else {
      var i := Before(tensors, k, 2);
      assert p[if i == 0 then 0 else |ins| + i] == Planned(outs[i], ChannelOf(tensors, k));
    }
  }

  /** The tiles that hold a tensor: whole tiles of 0x4000 bytes, as few as will do, and at least one. */
  ghost predicate FewestTiles(bytes: nat, tiles: nat) {
    tiles >= 1 && bytes <= tiles * 0x4000 && (tiles > 1 ==> (tiles - 1) * 0x4000 < bytes)
  }

  lemma TilesAreFewest(bytes: nat)
    ensures FewestTiles(bytes, TilesFor(bytes))
  {
  }

  /** At channel c the header has the tile count of a tensor in the words from 0x28 on and its shape, plane and row
      stride in the six words from 0xa8 on. */
  ghost predicate EmittedAt(d: seq<byte>, t: Tensor, c: nat) {
    && |d| >= 0x1000 && c < 32 && |t.shape| == 4 && |t.strides| == 4
    && FewestTiles(t.totalBytes, Le32(d, 0x28 + 4 * c))
    && Le64(d, 0xa8 + 48 * c) == t.shape[0] && Le64(d, 0xb0 + 48 * c) == t.shape[1]
    && Le64(d, 0xb8 + 48 * c) == t.shape[2] && Le64(d, 0xc0 + 48 * c) == t.shape[3]
    && Le64(d, 0xc8 + 48 * c) == t.strides[1] && Le64(d, 0xd0 + 48 * c) == t.strides[2]
  }

  /** THE HEADER OF A CONVERTED PACKAGE. Every input and output tensor has its words at its channel; word 0x20 counts
      the inputs. */
  lemma TensorEmitted(hwx: Hwx, k: nat)
    requires WellTyped(hwx) && Converted(hwx).Done? && k < |hwx.tensors| && hwx.tensors[k].binding in {1, 2}
    ensures var d := Converted(hwx).value;
            && EmittedAt(d, hwx.tensors[k], ChannelOf(hwx.tensors, k)) && |d| >= 0x1000
            && Le32(d, 0x20) == Before(hwx.tensors, |hwx.tensors|, 1)
  {
    var d, plan := Converted(hwx).value, Plan(hwx.tensors);
    hide *;
    EmittedHeader(hwx);
    PlanMeans(hwx.tensors, k);
    var i :| 0 <= i < |plan| && plan[i] == Planned(hwx.tensors[k], ChannelOf(hwx.tensors, k));
    PlannedWords(d, plan, i);
  }

  lemma EmittedHeader(hwx: Hwx)
    requires WellTyped(hwx) && Converted(hwx).Done?
    ensures var d, plan := Converted(hwx).value, Plan(hwx.tensors);
            && |d| >= 0x1000 && Le32(d, 0x20) == Before(hwx.tensors, |hwx.tensors|, 1)
            && PlanInRange(plan) && ChannelsMade(d, plan)
  {
    hide Converted, HeaderOk, Desc, Kernel, StreamOk, GapsZero, Plan, Cleared, Bound, Before, Le32, Le64, ChannelsMade,
      PlanInRange;
    ConvertMeetsBuilder(hwx);
    assert hwx.tensors[..|hwx.tensors|] == hwx.tensors;
    BoundAt(hwx.tensors, |hwx.tensors|, 1);
    LongHeader(Converted(hwx).value);
  }

  lemma PlannedWords(d: seq<byte>, plan: seq<Planned>, i: nat)
    requires |d| >= 0x1000 && PlanInRange(plan) && ChannelsMade(d, plan) && i < |plan|
    ensures EmittedAt(d, plan[i].tensor, plan[i].channel)
  {
    hide TilesFor, Le32, Le64, FewestTiles, Layout, LayoutAt;
    TilesAreFewest(plan[i].tensor.totalBytes);
    LayoutWords(d, plan[i].channel, plan[i].tensor);
  }

  lemma LongHeader(d: seq<byte>)
    requires HeaderOk(d)
    ensures |d| >= 0x1000
  {
  }

  lemma LayoutWords(d: seq<byte>, c: nat, t: Tensor)
    requires |d| >= HEADER_BYTES && c < CHANNEL_COUNT && |t.shape| == 4 && |t.strides| == 4
    requires LayoutAt(d, c) == Layout(t)
    ensures Le64(d, 0xa8 + 48 * c) == t.shape[0] && Le64(d, 0xb0 + 48 * c) == t.shape[1]
            && Le64(d, 0xb8 + 48 * c) == t.shape[2] && Le64(d, 0xc0 + 48 * c) == t.shape[3]
            && Le64(d, 0xc8 + 48 * c) == t.strides[1] && Le64(d, 0xd0 + 48 * c) == t.strides[2]
  {
    hide Le64;
    var l := LayoutAt(d, c);
    assert l[0] == t.shape[0] && l[1] == t.shape[1] && l[2] == t.shape[2] && l[3] == t.shape[3]
           && l[4] == t.strides[1] && l[5] == t.strides[2];
  }

  // ---- when a package is emitted ----

  lemma {:induction false} InsertKeeps(b: Buffer, bs: seq<Buffer>)
    ensures multiset(Allocations(InsertByIova(b, bs))) == multiset{b.allocation} + multiset(Allocations(bs))
    decreases |bs|
  {
    if bs == [] || b.iova < bs[0].iova {
      assert Allocations([b] + bs) == [b.allocation] + Allocations(bs);
    } else {
      InsertKeeps(b, bs[1..]);
      assert Allocations(bs) == [bs[0].allocation] + Allocations(bs[1..]);
      assert Allocations([bs[0]] + InsertByIova(b, bs[1..])) ==
             [bs[0].allocation] + Allocations(InsertByIova(b, bs[1..]));
    }
  }

  lemma {:induction false} PoolKeeps(bs: seq<Buffer>)
    ensures multiset(Allocations(ByIova(bs))) == multiset(Allocations(bs))
  {
    if bs == [] {
      assert Allocations([]) == [];
    } else {
      var n := |bs| - 1;
      PoolKeeps(bs[..n]);
      InsertKeeps(bs[n], ByIova(bs[..n]));
      assert Allocations(bs) == Allocations(bs[..n]) + [bs[n].allocation];
    }
  }

  /** Every address has a section, and there are no more than 28. */
  ghost predicate Backed(iovas: seq<nat>, fvmlib: map<nat, nat>) {
    |iovas| <= 28 && forall i :: 0 <= i < |iovas| ==> iovas[i] in fvmlib
  }

  function SectionSizes(iovas: seq<nat>, fvmlib: map<nat, nat>): seq<nat>
    requires forall i :: 0 <= i < |iovas| ==> iovas[i] in fvmlib
  {
    seq<nat>(|iovas|, i requires 0 <= i < |iovas| => fvmlib[iovas[i]])
  }

  lemma {:induction false} BuffersMean(iovas: seq<nat>, fvmlib: map<nat, nat>)
    ensures Buffers(iovas, fvmlib).Done? <==> Backed(iovas, fvmlib)
    ensures Backed(iovas, fvmlib) ==>
              Allocations(Buffers(iovas, fvmlib).value) == SectionSizes(iovas, fvmlib)
    decreases |iovas|
  {
    if iovas != [] {
      var n := |iovas| - 1;
      BuffersMean(iovas[..n], fvmlib);
      if Buffers(iovas, fvmlib).Done? {
        forall i | 0 <= i < |iovas|
          ensures iovas[i] in fvmlib
        {
          if i < n {
            assert iovas[..n][i] == iovas[i];
          }
        }
      }
      if Backed(iovas, fvmlib) {
        var before := Buffers(iovas[..n], fvmlib).value;
        assert Allocations(before + [Buffer(iovas[n], fvmlib[iovas[n]])]) == Allocations(before) + [fvmlib[iovas[n]]];
      }
    }
  }

  /** EMITTED. The tool gets as far as packing exactly when the stream has its zero frame and splits into the declared
      number of tasks, there is a backed buffer for every tensor, no channel is above 31, and the buffers
      include one of the exact size for every input and output; packing then fails only on a field too wide. */
  lemma EmittedExactly(hwx: Hwx)
    requires WellTyped(hwx)
    ensures Converted(hwx) != Stopped(Refuse) <==>
              && |hwx.text| >= 16 && PythonSplit(Cleared(hwx.text)).Ok?
              && |PythonSplit(Cleared(hwx.text)).value| == hwx.taskCount
              && Backed(hwx.iovas, hwx.fvmlib) && |hwx.iovas| == |hwx.tensors|
              && (forall i :: 0 <= i < |Plan(hwx.tensors)| ==> Plan(hwx.tensors)[i].channel < 32)
              && multiset(Totals(Plan(hwx.tensors))) <= multiset(SectionSizes(hwx.iovas, hwx.fvmlib))
  {
    hide PythonSplit, Cleared, Plan, Matched, Buffers, ByIova, Bound, Packed, PlanTiles, PlanLayouts, SectionSizes,
      Backed;
    BuffersMean(hwx.iovas, hwx.fvmlib);
    if Backed(hwx.iovas, hwx.fvmlib) {
      BufferCount(hwx.iovas, hwx.fvmlib);
      var bs, plan := Buffers(hwx.iovas, hwx.fvmlib).value, Plan(hwx.tensors);
      var totals, pool := Totals(plan), ByIova(bs);
      PoolKeeps(bs);
      MatchedMeans(totals, pool);
      assert Matched(totals, pool).Done? ==> |Allocations(Matched(totals, pool).value)| == |plan|;
      if |hwx.text| >= 16 && ChannelsFit(plan) && Matched(totals, pool).Done? && PythonSplit(Cleared(hwx.text)).Ok? {
        SizesNonempty(Cleared(hwx.text));
        PlanTyped(hwx);
        PackedStops(Cleared(hwx.text), hwx.consts, PythonSplit(Cleared(hwx.text)).value, |Bound(hwx.tensors, 1)|,
          PlanTiles(plan, Matched(totals, pool).value), PlanLayouts(plan));
      }
    }
  }

  lemma BufferCount(iovas: seq<nat>, fvmlib: map<nat, nat>)
    ensures Backed(iovas, fvmlib) ==> Buffers(iovas, fvmlib).Done? && |Buffers(iovas, fvmlib).value| == |iovas|
  {
    hide Buffers;
    BuffersMean(iovas, fvmlib);
    if Backed(iovas, fvmlib) {
      assert |Allocations(Buffers(iovas, fvmlib).value)| == |SectionSizes(iovas, fvmlib)|;
    }
  }

  /** Packing never refuses. */
  lemma PackedStops(stream: seq<byte>, consts: seq<byte>, sizes: seq<nat>, inputs: nat, tiles: seq<nat>,
                    layouts: seq<nat>)
    requires |sizes| > 0 && |tiles| == CHANNEL_COUNT && |layouts| == 6 * CHANNEL_COUNT
    ensures Packed(stream, consts, sizes, inputs, tiles, layouts) != Stopped(Refuse)
  {
    hide Lead, Tail;
  }
}
