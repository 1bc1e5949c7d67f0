/** The rows tools/hwx_ports.py derives, against the channels tools/hwx_h14_staged_to_anec.py plans for the same
    tensors. */
module H14PortRows {
  import opened Basics
  import opened H14Bytes
  import opened H14Ports
  import opened H14PortTable
  import opened H14Pipeline
  import Conv = H14Convert
  import Emit = H14Emit

  // ---- the channel of a tensor ----

  /** How many of the first k tensors have a binding. */
  function Before(ts: seq<Tensor>, k: nat, binding: nat): nat
    requires k <= |ts|
  {
    if k == 0 then 0 else Before(ts, k - 1, binding) + if ts[k - 1].binding == binding then 1 else 0
  }

  lemma {:induction false} PlaceOf(ts: seq<Tensor>, n: nat, binding: nat)
    requires n <= |ts| && NoTwins(ts)
    ensures |OfBinding(ts[..n], binding)| == Before(ts, n, binding) && NoTwins(OfBinding(ts[..n], binding))
    ensures forall t :: t in OfBinding(ts[..n], binding) ==> t in ts[..n] && t.binding == binding
    ensures forall k :: 0 <= k < n && ts[k].binding == binding ==>
              Before(ts, k, binding) < Before(ts, n, binding)
              && OfBinding(ts[..n], binding)[Before(ts, k, binding)] == ts[k]
  {
    if n > 0 {
      PlaceOf(ts, n - 1, binding);
      assert ts[..n][..n - 1] == ts[..n - 1];
    }
  }

  /** A name is found at the one place that has it. */
  lemma {:induction false} FoundAt(ts: seq<Tensor>, p: nat)
    requires p < |ts| && NoTwins(ts)
    ensures IndexOf(ts, ts[p].name) == p
  {
    if p > 0 {
      FoundAt(ts[1..], p - 1);
    }
  }

  lemma OrderApart(ts: seq<Tensor>)
    requires NoTwins(ts)
    ensures NoTwins(ChannelOrder(ts))
  {
    hide OfBinding;
    assert ts[..|ts|] == ts;
    PlaceOf(ts, |ts|, 1);
    PlaceOf(ts, |ts|, 2);
    var ins, outs, order := OfBinding(ts, 1), OfBinding(ts, 2), ChannelOrder(ts);
    forall a, b | a in ins && b in outs
      ensures a.name != b.name
    {
      var i :| 0 <= i < |ts| && ts[i] == a;
      var j :| 0 <= j < |ts| && ts[j] == b;
    }
    if outs != [] {
      forall i, j | 0 <= i < j < |order|
        ensures order[i].name != order[j].name
      {
        OrderAt(ts, i);
        OrderAt(ts, j);
      }
    }
  }

  lemma OrderAt(ts: seq<Tensor>, i: nat)
    requires i < |ChannelOrder(ts)| && OfBinding(ts, 2) != []
    ensures var ins, outs := OfBinding(ts, 1), OfBinding(ts, 2);
            && |ChannelOrder(ts)| == |ins| + |outs|
            && ChannelOrder(ts)[i] == if i == 0 then outs[0] else if i <= |ins| then ins[i - 1] else outs[i - |ins|]
  {
    hide OfBinding;
  }

  /** The converter's tensors have the bindings of the tool's. */
  ghost predicate SameBindings(cs: seq<Conv.Tensor>, ts: seq<Tensor>) {
    |cs| == |ts| && forall k :: 0 <= k < |ts| ==> cs[k].binding == ts[k].binding
  }

  lemma {:induction false} SameBefore(cs: seq<Conv.Tensor>, ts: seq<Tensor>, k: nat, binding: nat)
    requires SameBindings(cs, ts) && k <= |ts|
    ensures Emit.Before(cs, k, binding) == Before(ts, k, binding)
  {
    if k > 0 {
      SameBefore(cs, ts, k - 1, binding);
    }
  }

  function ToolChannel(ts: seq<Tensor>, name: string): nat { 4 + IndexOf(ChannelOrder(ts), name) }

  /** The place of a tensor in the channel order. */
  function Place(ts: seq<Tensor>, k: nat): nat
    requires k < |ts|
  {
    if ts[k].binding == 1 then (if Before(ts, |ts|, 2) == 0 then 0 else 1) + Before(ts, k, 1)
    else if Before(ts, k, 2) == 0 then 0
    else Before(ts, |ts|, 1) + Before(ts, k, 2)
  }

  lemma PlaceIn(ts: seq<Tensor>, k: nat)
    requires NoTwins(ts) && k < |ts|
    ensures |OfBinding(ts, 1)| == Before(ts, |ts|, 1) && |OfBinding(ts, 2)| == Before(ts, |ts|, 2)
    ensures var b := ts[k].binding;
            Before(ts, k, b) < |OfBinding(ts, b)| && OfBinding(ts, b)[Before(ts, k, b)] == ts[k]
  {
    hide OfBinding, Before, NoTwins;
    assert ts[..|ts|] == ts;
    PlaceOf(ts, |ts|, 1);
    PlaceOf(ts, |ts|, 2);
    PlaceOf(ts, |ts|, ts[k].binding);
  }

  lemma OrderPlace(ts: seq<Tensor>, k: nat)
    requires NoTwins(ts) && k < |ts| && ts[k].binding in {1, 2}
    ensures Place(ts, k) < |ChannelOrder(ts)| && ChannelOrder(ts)[Place(ts, k)] == ts[k]
  {
    hide OfBinding, Before, NoTwins;
    PlaceIn(ts, k);
    if OfBinding(ts, 2) != [] {
      hide ChannelOrder;
      OrderLength(ts);
      OrderAt(ts, Place(ts, k));
    }
  }

  lemma OrderLength(ts: seq<Tensor>)
    ensures |ChannelOrder(ts)| == |OfBinding(ts, 1)| + |OfBinding(ts, 2)|
  {
    hide OfBinding;
  }

  lemma ToolChannelIs(ts: seq<Tensor>, k: nat)
    requires NoTwins(ts) && k < |ts| && ts[k].binding in {1, 2}
    ensures ToolChannel(ts, ts[k].name) == 4 + Place(ts, k)
    ensures IndexOf(ChannelOrder(ts), ts[k].name) < |ChannelOrder(ts)|
  {
    hide ChannelOrder, Before, IndexOf, NoTwins;
    OrderPlace(ts, k);
    OrderApart(ts);
    FoundAt(ChannelOrder(ts), Place(ts, k));
  }

  /** ONE CHANNEL FOR BOTH TOOLS. The port derivation numbers a tensor as the converter does exactly when the tensor is
      an output or there is an output: without outputs it starts the inputs at channel 4 and the converter at 5. */
  lemma ChannelsAgree(cs: seq<Conv.Tensor>, ts: seq<Tensor>, k: nat)
    requires NoTwins(ts) && SameBindings(cs, ts) && k < |ts| && ts[k].binding in {1, 2}
    ensures ToolChannel(ts, ts[k].name) == Emit.ChannelOf(cs, k) <==>
              ts[k].binding == 2 || exists j :: 0 <= j < |ts| && ts[j].binding == 2
  {
    hide ToolChannel, Before, Emit.Before;
    ToolChannelIs(ts, k);
    SameBefore(cs, ts, k, 1);
    SameBefore(cs, ts, k, 2);
    SameBefore(cs, ts, |ts|, 1);
    NoneBefore(ts, |ts|, 2);
  }

  lemma {:induction false} NoneBefore(ts: seq<Tensor>, n: nat, binding: nat)
    requires n <= |ts|
    ensures Before(ts, n, binding) > 0 <==> exists j :: 0 <= j < n && ts[j].binding == binding
  {
    if n > 0 {
      NoneBefore(ts, n - 1, binding);
    }
  }

  // ---- which slots give a row ----

  /** The slot has the address of a named fp16 tensor, whose binding and symbol say input or say output. */
  ghost predicate RowAt(hwx: Hwx, slot: nat, k: nat)
    requires slot < |hwx.slots|
  {
    && k < |hwx.tensors| && hwx.slots[slot] in hwx.names && hwx.slots[slot] in hwx.lengths
    && var t := hwx.tensors[k];
       && t.name == hwx.names[hwx.slots[slot]] && t.fp16
       && ((t.binding == 1 && !t.outputSymbol) || (t.binding == 2 && t.outputSymbol))
  }

  /** THE ROW OF A SLOT. There is one exactly when the slot has such a tensor on a channel of the package; then it has
      its direction, its channel, the slot, the bytes of the channel's tiles and the section length as allocation. */
  lemma RowExactly(hwx: Hwx, tiles: seq<nat>, slot: nat)
    requires slot < |hwx.slots| && NoTwins(hwx.tensors)
    ensures SlotEntry(hwx, tiles, slot).Done? <==>
              exists k: nat :: RowAt(hwx, slot, k) && ToolChannel(hwx.tensors, hwx.tensors[k].name) < |tiles|
    ensures forall k: nat :: RowAt(hwx, slot, k) && ToolChannel(hwx.tensors, hwx.tensors[k].name) < |tiles| ==>
              var t, c := hwx.tensors[k], ToolChannel(hwx.tensors, hwx.tensors[k].name);
              SlotEntry(hwx, tiles, slot) ==
                Done(Entry(Port(t.binding - 1, c, slot, 0x4000 * tiles[c]), hwx.lengths[hwx.slots[slot]]))
  {
    hide ChannelOrder, IndexOf;
    forall k: nat | RowAt(hwx, slot, k)
      ensures IndexOf(hwx.tensors, hwx.tensors[k].name) == k
      ensures IndexOf(ChannelOrder(hwx.tensors), hwx.tensors[k].name) < |ChannelOrder(hwx.tensors)|
    {
      FoundAt(hwx.tensors, k);
      ToolChannelIs(hwx.tensors, k);
    }
    if SlotEntry(hwx, tiles, slot).Done? {
      assert RowAt(hwx, slot, IndexOf(hwx.tensors, hwx.names[hwx.slots[slot]]));
    }
  }
  /** THE ROWS. The derivation gets through exactly when every io slot has a row, there are as many io slots as tensors
      and a scratch address, when there is one, has a section; the rows come in slot order, scratch last, with
      its section length rounded up to whole tiles. */
  lemma RowsExactly(hwx: Hwx, tiles: seq<nat>)
    requires |hwx.slots| >= 4
    ensures Entries(hwx, tiles).Done? <==>
              && (forall slot :: 4 <= slot < |hwx.slots| ==> SlotEntry(hwx, tiles, slot).Done?)
              && |hwx.slots| == |hwx.tensors| + 4 && (hwx.slots[3] != 0 ==> hwx.slots[3] in hwx.lengths)
    ensures Entries(hwx, tiles).Done? ==>
              var es, n := Entries(hwx, tiles).value, |hwx.tensors|;
              && |es| == n + (if hwx.slots[3] == 0 then 0 else 1)
              && (forall i :: 0 <= i < n ==> SlotEntry(hwx, tiles, i + 4) == Done(es[i]))
              && (hwx.slots[3] != 0 ==> ScratchRow(es[n], hwx.lengths[hwx.slots[3]]))
  {
    hide SlotEntry;
    IoRows(hwx, tiles, |hwx.slots|);
  }

  ghost predicate ScratchRow(e: Entry, length: nat) {
    && e.port.dir == 2 && e.port.bufferId == 0x40 && e.port.slot == 3 && e.allocation == length
    && length <= e.port.tileBytes < length + 0x4000 && e.port.tileBytes % 0x4000 == 0
  }

  lemma {:induction false} IoRows(hwx: Hwx, tiles: seq<nat>, n: nat)
    requires 4 <= n <= |hwx.slots|
    ensures var es := IoEntries(hwx, tiles, n);
            && (es.Done? <==> forall slot :: 4 <= slot < n ==> SlotEntry(hwx, tiles, slot).Done?)
            && (es.Done? ==> |es.value| == n - 4 && forall i :: 0 <= i < n - 4 ==>
                               SlotEntry(hwx, tiles, i + 4) == Done(es.value[i]))
    decreases n
  {
    hide SlotEntry;
    if n > 4 {
      IoRows(hwx, tiles, n - 1);
    }
  }

  /** On package d the slot of tensor k has a row with its direction and channel and as many tiles as it needs: whole,
      and no more. */
  ghost predicate PortFits(d: seq<byte>, cs: seq<Conv.Tensor>, hwx: Hwx, slot: nat, k: nat)
    requires slot < |hwx.slots| && k < |hwx.tensors| && SameBindings(cs, hwx.tensors)
  {
    && |d| >= HEADER_BYTES
    && var e := SlotEntry(hwx, TileCounts(d), slot);
       && e.Done? && e.value.port.slot == slot && e.value.port.bufferId == Emit.ChannelOf(cs, k)
       && e.value.port.dir == hwx.tensors[k].binding - 1
       && exists n: nat :: Emit.FewestTiles(cs[k].totalBytes, n) && e.value.port.tileBytes == 0x4000 * n
  }

  lemma RowFits(d: seq<byte>, cs: seq<Conv.Tensor>, hwx: Hwx, slot: nat, k: nat)
    requires slot < |hwx.slots| && NoTwins(hwx.tensors) && SameBindings(cs, hwx.tensors) && RowAt(hwx, slot, k)
    requires exists j :: 0 <= j < |hwx.tensors| && hwx.tensors[j].binding == 2
    requires Emit.EmittedAt(d, cs[k], Emit.ChannelOf(cs, k))
    ensures PortFits(d, cs, hwx, slot, k)
  {
    hide SlotEntry, NoTwins, Le32, Le64, Emit.FewestTiles, Emit.ChannelOf, ToolChannel;
    ChannelsAgree(cs, hwx.tensors, k);
    RowExactly(hwx, TileCounts(d), slot);
    var c := Emit.ChannelOf(cs, k);
    assert TileCounts(d)[c] == Le32(d, 0x28 + 4 * c);
  }

  /** EVERY PORT HOLDS ITS TENSOR. When both tools read the same tensors, of which one is an output, each row the port
      derivation gives on the converter's package fits its tensor. */
  lemma PortHolds(h: Conv.Hwx, hwx: Hwx, slot: nat, k: nat)
    requires Conv.WellTyped(h) && Conv.Converted(h).Done?
    requires slot < |hwx.slots| && NoTwins(hwx.tensors) && SameBindings(h.tensors, hwx.tensors) && RowAt(hwx, slot, k)
    requires exists j :: 0 <= j < |hwx.tensors| && hwx.tensors[j].binding == 2
    ensures PortFits(Conv.Converted(h).value, h.tensors, hwx, slot, k)
  {
    assert h.tensors[k].binding in {1, 2};
    hide *;
    Emit.TensorEmitted(h, k);
    RowFits(Conv.Converted(h).value, h.tensors, hwx, slot, k);
  }
}
