/** tools/hwx_h14_staged_to_anec.py: the converter that emits H14 packages, against the builder
    that reads them. */
module H14Convert {
  import opened Basics
  import opened H14Bytes
  import opened H14Stream
  import opened H14Ports
  import opened H14Build

  const TILE_BYTES: nat := 0x4000
  const CHANNEL_COUNT: nat := 32

  datatype Tensor = Tensor(binding: nat, shape: seq<nat>, strides: seq<nat>, totalBytes: nat)

  /** The parts of a parsed HWX the converter uses. */
  datatype Hwx = Hwx(text: seq<byte>, consts: seq<byte>, taskCount: nat, iovas: seq<nat>, fvmlib: map<nat, nat>,
    tensors: seq<Tensor>)

  datatype Buffer = Buffer(iova: nat, allocation: nat)

  /** Why no package is emitted: a refusal of the tool, or a header field out of range. */
  datatype Stop = Refuse | StructError
  datatype Emitted<+T> = Done(value: T) | Stopped(stop: Stop)

  // ---- little-endian packing ----

  function Pack32(n: nat): (s: seq<byte>)
    requires n < 0x1_0000_0000
    ensures |s| == 4 && Le32(s, 0) == n
  {
    Digits(n);
    [n % 0x100, n / 0x100 % 0x100, n / 0x1_0000 % 0x100, n / 0x100_0000]
  }

  lemma Digits(n: nat)
    requires n < 0x1_0000_0000
    ensures n / 0x100_0000 < 0x100
    ensures n % 0x100 + 0x100 * (n / 0x100 % 0x100) + 0x1_0000 * (n / 0x1_0000 % 0x100)
            + 0x100_0000 * (n / 0x100_0000) == n
  {
    assert n / 0x1_0000 == n / 0x100 / 0x100 && n / 0x100_0000 == n / 0x1_0000 / 0x100;
  }

  function Pack64(n: nat): (s: seq<byte>)
    requires n < 0x1_0000_0000_0000_0000
    ensures |s| == 8 && Le64(s, 0) == n
  {
    Pack32(n % 0x1_0000_0000) + Pack32(n / 0x1_0000_0000)
  }

  function Zeroes(n: nat): seq<byte> { seq(n, _ => 0) }

  /** Reading a field of a concatenation is reading the part that holds it. */
  lemma ReadAt(before: seq<byte>, field: seq<byte>, after: seq<byte>)
    ensures |field| >= 4 ==> Le32(before + field + after, |before|) == Le32(field, 0)
    ensures |field| >= 8 ==> Le64(before + field + after, |before|) == Le64(field, 0)
  {
    var s := before + field + after;
    assert forall i :: 0 <= i < |field| ==> s[|before| + i] == field[i];
  }

  // ---- matching buffers to tensors ----

  /** The first buffer of the pool with the wanted allocation. */
  function FirstFit(pool: seq<Buffer>, bytes: nat): (k: nat)
    ensures k <= |pool| && (k < |pool| ==> pool[k].allocation == bytes)
    ensures forall i :: 0 <= i < k ==> pool[i].allocation != bytes
  {
    if pool == [] then 0
    else if pool[0].allocation == bytes then 0
    else 1 + FirstFit(pool[1..], bytes)
  }

  function Without(pool: seq<Buffer>, k: nat): seq<Buffer>
    requires k < |pool|
  {
    pool[..k] + pool[k + 1..]
  }

  /** The buffers the tensors take, one after another. */
  function Matched(totals: seq<nat>, pool: seq<Buffer>): Emitted<seq<Buffer>> {
    if totals == [] then Done([])
    else
      var k := FirstFit(pool, totals[0]);
      if k == |pool| then Stopped(Refuse)
      else
        var rest := Matched(totals[1..], Without(pool, k));
        if rest.Stopped? then rest else Done([pool[k]] + rest.value)
  }

  function Allocations(bs: seq<Buffer>): seq<nat> {
    seq(|bs|, i requires 0 <= i < |bs| => bs[i].allocation)
  }

  lemma WithoutMultiset(pool: seq<Buffer>, k: nat)
    requires k < |pool|
    ensures multiset(pool) == multiset{pool[k]} + multiset(Without(pool, k))
    ensures multiset(Allocations(pool)) == multiset{pool[k].allocation} + multiset(Allocations(Without(pool, k)))
  {
    assert pool == pool[..k] + [pool[k]] + pool[k + 1..];
    var a := Allocations(pool);
    assert a == a[..k] + [a[k]] + a[k + 1..];
    assert Allocations(Without(pool, k)) == a[..k] + a[k + 1..];
  }

  lemma MultisetCancel(x: nat, a: multiset<nat>, b: multiset<nat>)
    ensures multiset{x} + a <= multiset{x} + b <==> a <= b
  {
    if multiset{x} + a <= multiset{x} + b {
      forall y ensures a[y] <= b[y] { assert (multiset{x} + a)[y] <= (multiset{x} + b)[y]; }
    }
  }

  /** The greedy match uses no buffer twice and gives each tensor a buffer of exactly its size;
      it succeeds exactly when the pool holds enough buffers of every size. */
  lemma {:induction false} MatchedMeans(totals: seq<nat>, pool: seq<Buffer>)
    ensures Matched(totals, pool).Done? <==> multiset(totals) <= multiset(Allocations(pool))
    ensures Matched(totals, pool).Done? ==>
              && Allocations(Matched(totals, pool).value) == totals
              && multiset(Matched(totals, pool).value) <= multiset(pool)
  {
    if totals != [] {
      var k := FirstFit(pool, totals[0]);
      assert totals == [totals[0]] + totals[1..];
      if k == |pool| {
        assert totals[0] !in Allocations(pool);
        assert multiset(totals)[totals[0]] > 0;
      } else {
        WithoutMultiset(pool, k);
        MatchedMeans(totals[1..], Without(pool, k));
        var rest := Matched(totals[1..], Without(pool, k));
        MultisetCancel(totals[0], multiset(totals[1..]), multiset(Allocations(Without(pool, k))));
        if rest.Done? {
          assert Allocations([pool[k]] + rest.value) == [totals[0]] + Allocations(rest.value);
        }
      }
    }
  }

  // ---- the plan ----

  /** bufferId 4 + i is IOVA entry i, backed by the __FVMLIB section at that address. */
  function Buffers(iovas: seq<nat>, fvmlib: map<nat, nat>): Emitted<seq<Buffer>> {
    if iovas == [] then Done([])
    else
      var n := |iovas| - 1;
      var before := Buffers(iovas[..n], fvmlib);
      if before.Stopped? then before
      else if 4 + n >= CHANNEL_COUNT || iovas[n] !in fvmlib then Stopped(Refuse)
      else Done(before.value + [Buffer(iovas[n], fvmlib[iovas[n]])])
  }

  method CollectBuffers(iovas: seq<nat>, fvmlib: map<nat, nat>) returns (r: Emitted<seq<Buffer>>)
    ensures r == Buffers(iovas, fvmlib)
  {
    r := Done([]);
    for i := 0 to |iovas|
      invariant r == Buffers(iovas[..i], fvmlib)
    {
      assert iovas[..i + 1][..i] == iovas[..i];
      if r.Done? {
        r := if 4 + i >= CHANNEL_COUNT || iovas[i] !in fvmlib then Stopped(Refuse)
             else Done(r.value + [Buffer(iovas[i], fvmlib[iovas[i]])]);
      }
    }
    assert iovas[..|iovas|] == iovas;
  }

  function InsertByIova(b: Buffer, bs: seq<Buffer>): seq<Buffer> {
    if bs == [] || b.iova < bs[0].iova then [b] + bs else [bs[0]] + InsertByIova(b, bs[1..])
  }

  /** The pool: the buffers by ascending IOVA. */
  function ByIova(bs: seq<Buffer>): seq<Buffer> {
    if bs == [] then [] else InsertByIova(bs[|bs| - 1], ByIova(bs[..|bs| - 1]))
  }

  function Bound(tensors: seq<Tensor>, binding: nat): seq<Tensor> {
    if tensors == [] then []
    else
      var n := |tensors| - 1;
      var before := Bound(tensors[..n], binding);
      if tensors[n].binding == binding then before + [tensors[n]] else before
  }

  datatype Planned = Planned(tensor: Tensor, channel: nat)

  /** The first output is channel 4, the inputs follow from 5, the other outputs come after. */
  function Plan(tensors: seq<Tensor>): seq<Planned> {
    var outs, ins := Bound(tensors, 2), Bound(tensors, 1);
    (if outs == [] then [] else [Planned(outs[0], 4)])
    + seq(|ins|, i requires 0 <= i < |ins| => Planned(ins[i], 5 + i))
    + (if outs == [] then []
       else seq(|outs| - 1, i requires 0 <= i < |outs| - 1 => Planned(outs[i + 1], 5 + |ins| + i)))
  }

  /** No two tensors share a channel, and no channel is below 4. */
  lemma PlanChannels(tensors: seq<Tensor>)
    ensures var p := Plan(tensors);
            && (forall i :: 0 <= i < |p| ==> p[i].channel >= 4)
            && ChannelsDistinct(p)
  {
  }

  function Totals(p: seq<Planned>): seq<nat> {
    seq(|p|, i requires 0 <= i < |p| => p[i].tensor.totalBytes)
  }

  function TilesFor(allocation: nat): nat {
    var n := (allocation + TILE_BYTES - 1) / TILE_BYTES;
    if n == 0 then 1 else n
  }

  function PlanTiles(p: seq<Planned>, bs: seq<Buffer>): (tiles: seq<nat>)
    requires |p| == |bs| && forall i :: 0 <= i < |p| ==> p[i].channel < CHANNEL_COUNT
    ensures |tiles| == CHANNEL_COUNT
  {
    if p == [] then seq(CHANNEL_COUNT, _ => 0)
    else
      var n := |p| - 1;
      PlanTiles(p[..n], bs[..n])[p[n].channel := TilesFor(bs[n].allocation)]
  }

  function Layout(t: Tensor): (l: seq<nat>)
    requires |t.shape| == 4 && |t.strides| == 4
    ensures |l| == 6
  {
    t.shape + [t.strides[1], t.strides[2]]
  }

  function PlanLayouts(p: seq<Planned>): (layouts: seq<nat>)
    requires forall i :: 0 <= i < |p| ==>
               p[i].channel < CHANNEL_COUNT && |p[i].tensor.shape| == 4
               && |p[i].tensor.strides| == 4
    ensures |layouts| == 6 * CHANNEL_COUNT
  {
    if p == [] then seq(6 * CHANNEL_COUNT, _ => 0)
    else
      var n := |p| - 1;
      var before, at := PlanLayouts(p[..n]), 6 * p[n].channel;
      before[..at] + Layout(p[n].tensor) + before[at + 6..]
  }

  ghost predicate PlanInRange(p: seq<Planned>) {
    forall i :: 0 <= i < |p| ==> p[i].channel < CHANNEL_COUNT && |p[i].tensor.shape| == 4 && |p[i].tensor.strides| == 4
  }

  lemma Spliced(s: seq<nat>, at: nat, mid: seq<nat>, c: nat)
    requires at + 6 <= |s| && |mid| == 6 && c + 6 <= |s| && (c + 6 <= at || at + 6 <= c)
    ensures (s[..at] + mid + s[at + 6..])[c..c + 6] == s[c..c + 6]
  {
  }

  ghost predicate ChannelsDistinct(p: seq<Planned>) {
    forall a, b :: 0 <= a < b < |p| ==> p[a].channel != p[b].channel
  }

  /** Each planned channel holds the tile count of its own buffer, and the tiles hold the buffer. */
  lemma {:induction false} PlannedTiles(p: seq<Planned>, bs: seq<Buffer>, i: nat)
    requires |p| == |bs| && i < |p| && PlanInRange(p) && ChannelsDistinct(p)
    ensures PlanTiles(p, bs)[p[i].channel] == TilesFor(bs[i].allocation)
    ensures bs[i].allocation <= TilesFor(bs[i].allocation) * TILE_BYTES
    decreases |p|
  {
    hide TilesFor;
    var n := |p| - 1;
    TilesHold(bs[i].allocation);
    if i < n {
      PlannedTiles(p[..n], bs[..n], i);
      assert p[n].channel != p[i].channel;
    }
  }

  lemma TilesHold(allocation: nat)
    ensures allocation <= TilesFor(allocation) * TILE_BYTES
  {
  }

  /** And the layout of its own tensor. */
  lemma {:induction false} PlannedLayout(p: seq<Planned>, i: nat)
    requires i < |p| && PlanInRange(p) && ChannelsDistinct(p)
    ensures PlanLayouts(p)[6 * p[i].channel..6 * p[i].channel + 6] == Layout(p[i].tensor)
    decreases |p|
  {
    hide Layout;
    var n, c := |p| - 1, p[i].channel;
    var before, at := PlanLayouts(p[..n]), 6 * p[n].channel;
    if i < n {
      PlannedLayout(p[..n], i);
      assert p[n].channel != c;
      Spliced(before, at, Layout(p[n].tensor), 6 * c);
    }
  }

  /** Every channel outside the plan has no tiles. */
  lemma {:induction false} UnplannedZero(p: seq<Planned>, bs: seq<Buffer>)
    requires |p| == |bs| && PlanInRange(p)
    ensures forall c :: 0 <= c < CHANNEL_COUNT && (forall k :: 0 <= k < |p| ==> p[k].channel != c) ==>
            PlanTiles(p, bs)[c] == 0
  {
    if p != [] {
      var n := |p| - 1;
      UnplannedZero(p[..n], bs[..n]);
      forall c | 0 <= c < CHANNEL_COUNT && (forall k :: 0 <= k < |p| ==> p[k].channel != c)
        ensures PlanTiles(p, bs)[c] == 0
      {
        assert forall k :: 0 <= k < n ==> p[..n][k].channel != c;
      }
    }
  }

  // ---- the package ----

  predicate Fits(xs: seq<nat>, bound: nat) { forall i :: 0 <= i < |xs| ==> xs[i] < bound }

  function PackAll32(xs: seq<nat>): (s: seq<byte>)
    requires Fits(xs, 0x1_0000_0000)
    ensures |s| == 4 * |xs|
  {
    if xs == [] then [] else PackAll32(xs[..|xs| - 1]) + Pack32(xs[|xs| - 1])
  }

  function PackAll64(xs: seq<nat>): (s: seq<byte>)
    requires Fits(xs, 0x1_0000_0000_0000_0000)
    ensures |s| == 8 * |xs|
  {
    if xs == [] then [] else PackAll64(xs[..|xs| - 1]) + Pack64(xs[|xs| - 1])
  }

  function RoundUp64(n: nat): (r: nat)
    ensures n <= r < n + 64 && r % 64 == 0
  {
    (n + 63) / 64 * 64
  }

  /** The seven header words. */
  function Lead(h: Header): (s: seq<byte>)
    requires h.payload < 0x1_0000_0000_0000_0000 && h.tskSize < 0x1_0000_0000_0000_0000
             && h.krnSize < 0x1_0000_0000_0000_0000
    requires h.firstTask < 0x1_0000_0000 && h.taskCount < 0x1_0000_0000 && h.inputCount < 0x1_0000_0000
             && h.version < 0x1_0000_0000
    ensures |s| == 0x28
  {
    Pack64(h.payload) + Pack32(h.firstTask) + Pack32(h.taskCount) + Pack64(h.tskSize) + Pack64(h.krnSize)
    + Pack32(h.inputCount) + Pack32(h.version)
  }

  /** Whatever follows the lead, the builder reads the header back. */
  lemma LeadReadBack(h: Header, rest: seq<byte>)
    requires h.payload < 0x1_0000_0000_0000_0000 && h.tskSize < 0x1_0000_0000_0000_0000
             && h.krnSize < 0x1_0000_0000_0000_0000
    requires h.firstTask < 0x1_0000_0000 && h.taskCount < 0x1_0000_0000 && h.inputCount < 0x1_0000_0000
             && h.version < 0x1_0000_0000
    requires |rest| >= HEADER_BYTES - 0x28
    ensures ReadHeader(Lead(h) + rest) == h
  {
    hide Pack32, Pack64, Le32, Le64;
    var a, b, c, d := Pack64(h.payload), Pack32(h.firstTask), Pack32(h.taskCount), Pack64(h.tskSize);
    var e, f, g := Pack64(h.krnSize), Pack32(h.inputCount), Pack32(h.version);
    var s := Lead(h) + rest;
    assert s == [] + a + (b + c + d + e + f + g + rest);
    ReadAt([], a, b + c + d + e + f + g + rest);
    assert s == a + b + (c + d + e + f + g + rest);
    ReadAt(a, b, c + d + e + f + g + rest);
    assert s == (a + b) + c + (d + e + f + g + rest);
    ReadAt(a + b, c, d + e + f + g + rest);
    assert s == (a + b + c) + d + (e + f + g + rest);
    ReadAt(a + b + c, d, e + f + g + rest);
    assert s == (a + b + c + d) + e + (f + g + rest);
    ReadAt(a + b + c + d, e, f + g + rest);
    assert s == (a + b + c + d + e) + f + (g + rest);
    ReadAt(a + b + c + d + e, f, g + rest);
    assert s == (a + b + c + d + e + f) + g + rest;
    ReadAt(a + b + c + d + e + f, g, rest);
  }

  /** The descriptor stream with its leading frame zeroed. */
  function Cleared(text: seq<byte>): (s: seq<byte>)
    requires |text| >= FRAME_BYTES
    ensures |s| == |text| && Zeros(s, 0, FRAME_BYTES)
  {
    Zeroes(FRAME_BYTES) + text[FRAME_BYTES..]
  }

  function TileWords(content: nat, tiles: seq<nat>): seq<nat>
    requires |tiles| == CHANNEL_COUNT
  {
    [(content + TILE_BYTES - 1) / TILE_BYTES] + tiles[1..]
  }

  /** The bytes of a package, or struct.error when a field does not fit its width. */
  function Packed(stream: seq<byte>, consts: seq<byte>, sizes: seq<nat>, inputs: nat, tiles: seq<nat>,
                  layouts: seq<nat>): Emitted<seq<byte>>
    requires |sizes| > 0 && |tiles| == CHANNEL_COUNT && |layouts| == 6 * CHANNEL_COUNT
  {
    var content := RoundUp64(|stream|) + |consts|;
    if content >= 0x1_0000_0000_0000_0000 || sizes[0] >= 0x1_0000_0000 || |sizes| >= 0x1_0000_0000
      || inputs >= 0x1_0000_0000
       || !Fits(TileWords(content, tiles), 0x1_0000_0000) || !Fits(layouts, 0x1_0000_0000_0000_0000)
    then Stopped(StructError)
    else
      Done(Lead(Header(content, sizes[0], |sizes|, |stream|, |consts|, inputs, 1))
           + Tail(stream, consts, TileWords(content, tiles), layouts))
  }

  /** The tile counts, the layouts, padding to the header size, the stream, padding, constants. */
  function Tail(stream: seq<byte>, consts: seq<byte>, tiles: seq<nat>, layouts: seq<nat>): seq<byte>
    requires |tiles| == CHANNEL_COUNT && |layouts| == 6 * CHANNEL_COUNT
    requires Fits(tiles, 0x1_0000_0000) && Fits(layouts, 0x1_0000_0000_0000_0000)
  {
    PackAll32(tiles) + PackAll64(layouts) + Zeroes(HEADER_BYTES - 0x6a8)
    + stream + Zeroes(RoundUp64(|stream|) - |stream|) + consts
  }

  ghost predicate WellTyped(hwx: Hwx) {
    forall i :: 0 <= i < |hwx.tensors| ==> |hwx.tensors[i].shape| == 4 && |hwx.tensors[i].strides| == 4
  }

  predicate ChannelsFit(p: seq<Planned>) {
    forall i :: 0 <= i < |p| ==> p[i].channel < CHANNEL_COUNT
  }

  lemma {:induction false} BoundTyped(tensors: seq<Tensor>, binding: nat)
    requires forall i :: 0 <= i < |tensors| ==> |tensors[i].shape| == 4 && |tensors[i].strides| == 4
    ensures forall i :: 0 <= i < |Bound(tensors, binding)| ==>
                          |Bound(tensors, binding)[i].shape| == 4 && |Bound(tensors, binding)[i].strides| == 4
  {
    if tensors != [] {
      BoundTyped(tensors[..|tensors| - 1], binding);
    }
  }

  lemma PlanTyped(hwx: Hwx)
    requires WellTyped(hwx) && ChannelsFit(Plan(hwx.tensors))
    ensures PlanInRange(Plan(hwx.tensors))
  {
    BoundTyped(hwx.tensors, 1);
    BoundTyped(hwx.tensors, 2);
  }

  function Converted(hwx: Hwx): Emitted<seq<byte>>
    requires WellTyped(hwx)
  {
    if |hwx.text| < FRAME_BYTES then Stopped(Refuse) else
    var stream := Cleared(hwx.text);
    var sizes := PythonSplit(stream);
    if sizes.Err? || hwx.taskCount != |sizes.value| then Stopped(Refuse) else
    var buffers := Buffers(hwx.iovas, hwx.fvmlib);
    if buffers.Stopped? || |buffers.value| != |hwx.tensors| then Stopped(Refuse) else
    var plan := Plan(hwx.tensors);
    if !ChannelsFit(plan) then Stopped(Refuse) else
    var taken := Matched(Totals(plan), ByIova(buffers.value));
    if taken.Stopped? then Stopped(Refuse) else
    MatchedMeans(Totals(plan), ByIova(buffers.value));
    PlanTyped(hwx);
    Packed(stream, hwx.consts, sizes.value, |Bound(hwx.tensors, 1)|,
           PlanTiles(plan, taken.value), PlanLayouts(plan))
  }

  method FindFit(pool: seq<Buffer>, bytes: nat) returns (k: nat)
    ensures k == FirstFit(pool, bytes)
  {
    k := 0;
    while k < |pool| && pool[k].allocation != bytes
      invariant k <= |pool| && forall i :: 0 <= i < k ==> pool[i].allocation != bytes
    {
      k := k + 1;
    }
  }

  function After(taken: seq<Buffer>, r: Emitted<seq<Buffer>>): Emitted<seq<Buffer>> {
    if r.Done? then Done(taken + r.value) else r
  }

  lemma AfterTwice(a: seq<Buffer>, b: seq<Buffer>, r: Emitted<seq<Buffer>>)
    ensures After(a, After(b, r)) == After(a + b, r) && After([], r) == r && After(a, Done([])) == Done(a)
  {
    assert a + [] == a;
    if r.Done? {
      assert [] + r.value == r.value && a + (b + r.value) == (a + b) + r.value;
    }
  }

  lemma MatchedStep(totals: seq<nat>, i: nat, pool: seq<Buffer>)
    requires i < |totals|
    ensures var k := FirstFit(pool, totals[i]);
            Matched(totals[i..], pool) ==
              if k == |pool| then Stopped(Refuse) else After([pool[k]], Matched(totals[i + 1..], Without(pool, k)))
  {
    assert totals[i..][1..] == totals[i + 1..] && totals[i..][0] == totals[i];
  }

  /** The plan loop: each tensor takes a buffer out of the pool and fills in its channel. */
  method TakeAll(plan: seq<Planned>, start: seq<Buffer>) returns (r: Emitted<(seq<nat>, seq<nat>)>)
    requires PlanInRange(plan)
    ensures r.Done? <==> Matched(Totals(plan), start).Done?
    ensures r.Stopped? ==> r == Stopped(Refuse)
    ensures r.Done? ==>
      && |Matched(Totals(plan), start).value| == |plan|
      && r.value == (PlanTiles(plan, Matched(Totals(plan), start).value), PlanLayouts(plan))
  {
    hide Matched, PlanTiles, PlanLayouts, Without;
    var pool, taken := start, [];
    var tiles, layouts := seq(CHANNEL_COUNT, _ => 0), seq(6 * CHANNEL_COUNT, _ => 0);
    assert plan[..0] == [] && Totals(plan)[0..] == Totals(plan);
    EmptyPlan();
    AfterTwice([], [], Matched(Totals(plan), start));
    for i := 0 to |plan|
      invariant |taken| == i && tiles == PlanTiles(plan[..i], taken) && layouts == PlanLayouts(plan[..i])
      invariant Matched(Totals(plan), start) == After(taken, Matched(Totals(plan)[i..], pool))
    {
      MatchedStep(Totals(plan), i, pool);
      var k := FindFit(pool, plan[i].tensor.totalBytes);
      if k == |pool| {
        return Stopped(Refuse);
      }
      AfterTwice(taken, [pool[k]], Matched(Totals(plan)[i + 1..], Without(pool, k)));
      PlanStep(plan, i, taken + [pool[k]]);
      assert (taken + [pool[k]])[..i] == taken;
      var at := 6 * plan[i].channel;
      tiles := tiles[plan[i].channel := TilesFor(pool[k].allocation)];
      layouts := layouts[..at] + Layout(plan[i].tensor) + layouts[at + 6..];
      taken, pool := taken + [pool[k]], Without(pool, k);
    }
    assert plan[..|plan|] == plan && Totals(plan)[|plan|..] == [];
    NoTotals(pool);
    AfterTwice(taken, [], Done([]));
    r := Done((tiles, layouts));
  }

  lemma NoTotals(pool: seq<Buffer>)
    ensures Matched([], pool) == Done([])
  {
  }

  lemma EmptyPlan()
    ensures PlanTiles([], []) == seq(CHANNEL_COUNT, _ => 0) && PlanLayouts([]) == seq(6 * CHANNEL_COUNT, _ => 0)
  {
  }

  lemma PlanStep(plan: seq<Planned>, i: nat, taken: seq<Buffer>)
    requires PlanInRange(plan) && i < |plan| && |taken| == i + 1
    ensures PlanTiles(plan[..i + 1], taken) ==
            PlanTiles(plan[..i], taken[..i])[plan[i].channel := TilesFor(taken[i].allocation)]
    ensures var before, at := PlanLayouts(plan[..i]), 6 * plan[i].channel;
            PlanLayouts(plan[..i + 1]) == before[..at] + Layout(plan[i].tensor) + before[at + 6..]
  {
    assert plan[..i + 1][..i] == plan[..i] && plan[..i + 1][i] == plan[i];
  }

  method Convert(hwx: Hwx) returns (r: Emitted<seq<byte>>)
    requires WellTyped(hwx)
    ensures r == Converted(hwx)
  {
    hide PythonSplit, Packed, Plan, Matched, PlanTiles, PlanLayouts, Buffers, ByIova, Bound;
    if |hwx.text| < FRAME_BYTES {
      return Stopped(Refuse);
    }
    var stream := Cleared(hwx.text);
    var sizes := SplitSizes(stream);
    if sizes.Err? || hwx.taskCount != |sizes.value| {
      return Stopped(Refuse);
    }
    SizesNonempty(stream);
    var buffers := CollectBuffers(hwx.iovas, hwx.fvmlib);
    if buffers.Stopped? || |buffers.value| != |hwx.tensors| {
      return Stopped(Refuse);
    }
    var plan := Plan(hwx.tensors);
    if !ChannelsFit(plan) {
      return Stopped(Refuse);
    }
    PlanTyped(hwx);
    var taken := TakeAll(plan, ByIova(buffers.value));
    if taken.Stopped? {
      return Stopped(Refuse);
    }
    r := Packed(stream, hwx.consts, sizes.value, |Bound(hwx.tensors, 1)|, taken.value.0, taken.value.1);
  }

  lemma SizesNonempty(s: seq<byte>)
    ensures PythonSplit(s).Ok? ==> PythonSplit(s).value != []
  {
  }

  // ---- the converter meets the builder ----

  /** Reading inside one part of a concatenation. */
  lemma ReadIn(before: seq<byte>, part: seq<byte>, after: seq<byte>, p: nat)
    ensures p + 4 <= |part| ==> Le32(before + part + after, |before| + p) == Le32(part, p)
    ensures p + 8 <= |part| ==> Le64(before + part + after, |before| + p) == Le64(part, p)
  {
    var s := before + part + after;
    assert forall i :: 0 <= i < |part| ==> s[|before| + i] == part[i];
  }

  lemma {:induction false} Word32Back(xs: seq<nat>, i: nat)
    requires Fits(xs, 0x1_0000_0000) && i < |xs|
    ensures Le32(PackAll32(xs), 4 * i) == xs[i]
  {
    hide Pack32, Le32;
    var n := |xs| - 1;
    var front, last := PackAll32(xs[..n]), Pack32(xs[n]);
    assert PackAll32(xs) == [] + front + last == front + last + [];
    if i < n {
      Word32Back(xs[..n], i);
      ReadIn([], front, last, 4 * i);
    } else {
      ReadIn(front, last, [], 0);
    }
  }

  lemma {:induction false} Word64Back(xs: seq<nat>, i: nat)
    requires Fits(xs, 0x1_0000_0000_0000_0000) && i < |xs|
    ensures Le64(PackAll64(xs), 8 * i) == xs[i]
  {
    hide Pack64, Le64;
    var n := |xs| - 1;
    var front, last := PackAll64(xs[..n]), Pack64(xs[n]);
    assert PackAll64(xs) == [] + front + last == front + last + [];
    if i < n {
      Word64Back(xs[..n], i);
      ReadIn([], front, last, 8 * i);
    } else {
      ReadIn(front, last, [], 0);
    }
  }

  /** The six layout words of a channel: N, C, H, W, plane stride, row stride. */
  function LayoutAt(d: seq<byte>, channel: nat): (l: seq<nat>)
    requires |d| >= HEADER_BYTES && channel < CHANNEL_COUNT
    ensures |l| == 6
  {
    seq<nat>(6, k requires 0 <= k < 6 => Le64(d, 0xa8 + 48 * channel + 8 * k))
  }

  /** A package carries the tile counts and the layouts it was made with. */
  ghost predicate Carries(d: seq<byte>, tiles: seq<nat>, layouts: seq<nat>)
    requires |d| >= HEADER_BYTES && |tiles| == CHANNEL_COUNT && |layouts| == 6 * CHANNEL_COUNT
  {
    forall c :: 0 <= c < CHANNEL_COUNT ==> Tiles(d, c) == tiles[c] && LayoutAt(d, c) == layouts[6 * c..6 * c + 6]
  }

  lemma WordsReadBack(lead: seq<byte>, stream: seq<byte>, consts: seq<byte>, tiles: seq<nat>, layouts: seq<nat>)
    requires |lead| == 0x28 && |tiles| == CHANNEL_COUNT && |layouts| == 6 * CHANNEL_COUNT
    requires Fits(tiles, 0x1_0000_0000) && Fits(layouts, 0x1_0000_0000_0000_0000)
    ensures var d := lead + Tail(stream, consts, tiles, layouts); |d| >= HEADER_BYTES && Carries(d, tiles, layouts)
  {
    hide PackAll32, PackAll64, Fits, RoundUp64, Le32, Le64;
    var a, b := PackAll32(tiles), PackAll64(layouts);
    var rest := Zeroes(HEADER_BYTES - 0x6a8) + stream + Zeroes(RoundUp64(|stream|) - |stream|) + consts;
    var d := lead + Tail(stream, consts, tiles, layouts);
    assert d == lead + a + (b + rest);
    assert d == (lead + a) + b + rest;
    forall c | 0 <= c < CHANNEL_COUNT
      ensures Tiles(d, c) == tiles[c] && LayoutAt(d, c) == layouts[6 * c..6 * c + 6]
    {
      Word32Back(tiles, c);
      ReadIn(lead, a, b + rest, 4 * c);
      forall k | 0 <= k < 6
        ensures Le64(d, 0xa8 + 48 * c + 8 * k) == layouts[6 * c + k]
      {
        Word64Back(layouts, 6 * c + k);
        ReadIn(lead + a, b, rest, 8 * (6 * c + k));
      }
    }
  }

  lemma TailFacts(h: Header, stream: seq<byte>, consts: seq<byte>, tiles: seq<nat>, layouts: seq<nat>)
    requires |tiles| == CHANNEL_COUNT && |layouts| == 6 * CHANNEL_COUNT
    requires Fits(tiles, 0x1_0000_0000) && Fits(layouts, 0x1_0000_0000_0000_0000)
    ensures var t := Tail(stream, consts, tiles, layouts);
            && |t| == HEADER_BYTES - 0x28 + RoundUp64(|stream|) + |consts|
            && t[HEADER_BYTES - 0x28..HEADER_BYTES - 0x28 + |stream|] == stream
            && t[|t| - |consts|..] == consts
  {
    hide PackAll32, PackAll64, Fits, RoundUp64;
    var lead := PackAll32(tiles) + PackAll64(layouts) + Zeroes(HEADER_BYTES - 0x6a8);
    var pad := Zeroes(RoundUp64(|stream|) - |stream|);
    assert |lead| == HEADER_BYTES - 0x28;
    assert Tail(stream, consts, tiles, layouts) == lead + stream + pad + consts;
  }

  lemma PackedReadBack(stream: seq<byte>, consts: seq<byte>, sizes: seq<nat>, inputs: nat, tiles: seq<nat>,
                       layouts: seq<nat>)
    requires |sizes| > 0 && |tiles| == CHANNEL_COUNT && |layouts| == 6 * CHANNEL_COUNT
    requires Packed(stream, consts, sizes, inputs, tiles, layouts).Done?
    ensures var d := Packed(stream, consts, sizes, inputs, tiles, layouts).value;
            && HeaderOk(d) && Desc(d) == stream && Kernel(d) == consts
            && ReadHeader(d) == Header(RoundUp64(|stream|) + |consts|, sizes[0], |sizes|, |stream|, |consts|, inputs, 1)
            && |d| >= HEADER_BYTES && |TileWords(ReadHeader(d).payload, tiles)| == CHANNEL_COUNT
            && Carries(d, TileWords(ReadHeader(d).payload, tiles), layouts)
  {
    hide Lead, Tail, Fits, TileWords, ReadHeader, Carries;
    var content := RoundUp64(|stream|) + |consts|;
    var h := Header(content, sizes[0], |sizes|, |stream|, |consts|, inputs, 1);
    var words := TileWords(content, tiles);
    assert |words| == CHANNEL_COUNT by { TileWordsLength(content, tiles); }
    var tail := Tail(stream, consts, words, layouts);
    TailFacts(h, stream, consts, words, layouts);
    LeadReadBack(h, tail);
    WordsReadBack(Lead(h), stream, consts, words, layouts);
    var d := Lead(h) + tail;
    assert d[HEADER_BYTES..HEADER_BYTES + |stream|] == tail[HEADER_BYTES - 0x28..HEADER_BYTES - 0x28 + |stream|];
    assert d[|d| - |consts|..] == tail[|tail| - |consts|..];
  }

  lemma TileWordsLength(content: nat, tiles: seq<nat>)
    requires |tiles| == CHANNEL_COUNT
    ensures |TileWords(content, tiles)| == CHANNEL_COUNT
  {
  }

  /** A task frame is at least 32 bytes long, so n tasks need 32 n bytes. */
  lemma {:induction false} TasksNeedRoom(s: seq<byte>, off: nat, ts: seq<Task>)
    requires off <= |s| && IsSplit(s, off, ts)
    ensures off + 32 * |ts| <= |s|
    decreases |ts|
  {
    hide WordCount, Covered, IsFiller, Zeros;
    if ts != [] {
      var n := |ts| - 1;
      assert IsTask(s, ts[n]);
      TaskFacts(s, ts[n]);
      TasksStart(s, off, ts, n);
    }
  }

  lemma {:induction false} TasksStart(s: seq<byte>, off: nat, ts: seq<Task>, k: nat)
    requires Ordered(s, off, ts) && k < |ts|
    ensures off + 32 * k <= ts[k].off
  {
    hide WordCount, Zeros, IsTask, TaskEnd;
    if k > 0 {
      TasksStart(s, off, ts, k - 1);
      TaskFacts(s, ts[k - 1]);
    }
  }

  // ---- the channels of a converted package ----

  /** What the builder reads of the channels: a planned one has just enough tiles for its tensor and its
      tensor's layout, any other but channel 0 has no tiles. */
  ghost predicate ChannelsMade(d: seq<byte>, plan: seq<Planned>)
    requires |d| >= HEADER_BYTES && PlanInRange(plan)
  {
    && (forall i :: 0 <= i < |plan| ==>
          && Tiles(d, plan[i].channel) == TilesFor(plan[i].tensor.totalBytes)
          && plan[i].tensor.totalBytes <= Tiles(d, plan[i].channel) * TILE_BYTES
          && LayoutAt(d, plan[i].channel) == Layout(plan[i].tensor))
    && (forall c :: 1 <= c < CHANNEL_COUNT && (forall k :: 0 <= k < |plan| ==> plan[k].channel != c) ==>
         Tiles(d, c) == 0)
  }

  lemma ChannelsReadBack(d: seq<byte>, plan: seq<Planned>, bs: seq<Buffer>, content: nat)
    requires |d| >= HEADER_BYTES && PlanInRange(plan) && ChannelsDistinct(plan) && |plan| == |bs|
             && Allocations(bs) == Totals(plan)
    requires forall i :: 0 <= i < |plan| ==> plan[i].channel >= 4
    requires |TileWords(content, PlanTiles(plan, bs))| == CHANNEL_COUNT
    requires Carries(d, TileWords(content, PlanTiles(plan, bs)), PlanLayouts(plan))
    ensures ChannelsMade(d, plan)
  {
    hide PlanTiles, PlanLayouts, TilesFor, Layout, Tiles, LayoutAt;
    var tiles, layouts := PlanTiles(plan, bs), PlanLayouts(plan);
    forall i | 0 <= i < |plan|
      ensures && Tiles(d, plan[i].channel) == TilesFor(plan[i].tensor.totalBytes)
              && plan[i].tensor.totalBytes <= Tiles(d, plan[i].channel) * TILE_BYTES
              && LayoutAt(d, plan[i].channel) == Layout(plan[i].tensor)
    {
      assert bs[i].allocation == Allocations(bs)[i] == Totals(plan)[i] == plan[i].tensor.totalBytes;
      PlannedTiles(plan, bs, i);
      PlannedLayout(plan, i);
    }
    UnplannedZero(plan, bs);
  }

  /** PRODUCER MEETS CONSUMER. A converted package reads back as it was made, its channels included, and
      passes every header, alignment, zero-frame, task-count and first-task check of the builder exactly
      when the alignment gaps between its tasks hold zeros. */
  lemma ConvertMeetsBuilder(hwx: Hwx)
    requires WellTyped(hwx) && Converted(hwx).Done?
    ensures var d := Converted(hwx).value;
            && HeaderOk(d) && |hwx.text| >= FRAME_BYTES && |hwx.text| % 4 == 0
            && Desc(d) == Cleared(hwx.text) && Kernel(d) == hwx.consts
            && ReadHeader(d).inputCount == |Bound(hwx.tensors, 1)| && ReadHeader(d).taskCount == hwx.taskCount
            && PlanInRange(Plan(hwx.tensors)) && ChannelsMade(d, Plan(hwx.tensors))
            && (StreamOk(Desc(d), ReadHeader(d).taskCount, ReadHeader(d).firstTask) <==> GapsZero(Cleared(hwx.text), 0))
  {
    hide Packed, Plan, Matched, PlanTiles, PlanLayouts, Buffers, ByIova, Bound, Split, Sizes, ReadHeader, HeaderOk,
      Desc, Kernel,
      Cleared, Zeros, StreamOk, GapsZero, TileWords, Carries, ChannelsMade, PlanInRange, ChannelsDistinct;
    var stream, plan := Cleared(hwx.text), Plan(hwx.tensors);
    var sizes := PythonSplit(stream).value;
    var pool := ByIova(Buffers(hwx.iovas, hwx.fvmlib).value);
    var taken := Matched(Totals(plan), pool).value;
    MatchedMeans(Totals(plan), pool);
    assert |taken| == |Allocations(taken)| == |plan|;
    PlanTyped(hwx);
    PlanChannels(hwx.tensors);
    PackedReadBack(stream, hwx.consts, sizes, |Bound(hwx.tensors, 1)|, PlanTiles(plan, taken), PlanLayouts(plan));
    var d := Converted(hwx).value;
    ChannelsReadBack(d, plan, taken, ReadHeader(d).payload);
    StreamMeetsBuilder(stream, sizes);
  }

  lemma StreamMeetsBuilder(stream: seq<byte>, sizes: seq<nat>)
    requires |stream| >= FRAME_BYTES && Zeros(stream, 0, FRAME_BYTES) && PythonSplit(stream) == Ok(sizes)
    ensures |sizes| > 0 && |stream| % 4 == 0
    ensures StreamOk(stream, |sizes|, sizes[0]) <==> GapsZero(stream, 0)
  {
    hide Split, Sizes, Zeros, GapsZero;
    SplittersAgree(stream, 0, |sizes|);
    if Split(stream, 0, |sizes|).Ok? {
      var ts := Split(stream, 0, |sizes|).value;
      assert ByteSizes(ts) == sizes;
      assert |ts| == |sizes| && sizes[0] == 4 * ts[0].words;
      SplitMeans(stream, 0, |sizes|, ts);
      TasksNeedRoom(stream, 0, ts);
    }
  }

  // ---- a package the builder refuses ----

  /** A zero frame, a task of ten words and eight gap bytes, one of them `b`. */
  function GapText(b: byte): seq<byte> {
    seq<byte>(64, i => if i == 18 then 10 else if i == 60 then b else 0)
  }

  function GapHwx(b: byte): Hwx { Hwx(GapText(b), [], 1, [], map[], []) }

  lemma GapSizes(b: byte)
    ensures PythonSplit(GapText(b)) == Ok([40])
    ensures GapsZero(GapText(b), 0) <==> b == 0
  {
    hide RoundUp16;
    var s := GapText(b);
    assert WordCount(s, 0) == 0 && WordCount(s, 16) == 10;
    assert FrameEnd(64, 16, 10) == 64;
    assert Sizes(s, 64) == Ok([]);
    FollowTwice([40], [], Sizes(s, 64));
    assert Sizes(s, 16) == Follow([40], Sizes(s, 64));
    assert GapsZero(s, 16) <==> Zeros(s, 56, 64);
    assert s[60] == b;
  }

  /** CONVERTED BUT REFUSED. A package whose one alignment gap holds a nonzero byte is emitted by the
      converter and refused by the builder. */
  lemma GapRefused(b: byte)
    requires b != 0
    ensures WellTyped(GapHwx(b)) && Converted(GapHwx(b)).Done?
    ensures var d := Converted(GapHwx(b)).value;
            HeaderOk(d) && !StreamOk(Desc(d), ReadHeader(d).taskCount, ReadHeader(d).firstTask)
  {
    hide GapText, PythonSplit, GapsZero, StreamOk, HeaderOk, Desc, ReadHeader;
    var s := GapText(b);
    GapTextIs(b);
    GapSizes(b);
    GapConverts(b);
    ConvertMeetsBuilder(GapHwx(b));
  }

  lemma GapTextIs(b: byte)
    ensures |GapText(b)| == 64 && Cleared(GapText(b)) == GapText(b)
  {
  }

  lemma GapConverts(b: byte)
    requires |GapText(b)| == 64 && Cleared(GapText(b)) == GapText(b) && PythonSplit(GapText(b)) == Ok([40])
    ensures WellTyped(GapHwx(b)) && Converted(GapHwx(b)).Done?
  {
    hide GapText, PythonSplit, Cleared, Lead, Tail;
    assert Plan([]) == [] && Totals([]) == [];
    assert Buffers([], map[]) == Done([]);
    assert ByIova([]) == [];
    assert Matched([], []) == Done([]);
    EmptyPlan();
  }
}
