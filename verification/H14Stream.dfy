/** The H14 task stream: the C splitter, the firmware block walk and the Python splitter. */
module H14Stream {
  import opened Basics
  import opened H14Bytes

  datatype Task = Task(off: nat, words: nat)

  const FRAME_BYTES: nat := 16

  function Min(a: nat, b: nat): nat { if a < b then a else b }

  function RoundUp16(n: nat): (r: nat)
    ensures n <= r < n + 16 && r % 16 == 0
  {
    (n + 15) / 16 * 16
  }

  /** Bits 10:0 of the u16 at offset + 2: the task's word count, 0 for a filler frame. */
  function WordCount(s: seq<byte>, off: nat): nat
    requires off + 4 <= |s|
  {
    Le16(s, off + 2) % 0x800
  }

  /** The frame after a filler frame. */
  function NextFrame(size: nat, off: nat): (next: nat)
    requires off <= size && off % 16 == 0
    ensures off <= next <= size && (next % 16 == 0 || next == size) && (off < size ==> off < next)
  {
    Min(off + FRAME_BYTES, size)
  }

  /** The end of a task frame inside a stream of `size` bytes. */
  function FrameEnd(size: nat, off: nat, words: nat): (end: nat)
    ensures end <= size && (end % 16 == 0 || end == size)
    ensures off + 4 * words <= size ==> off + 4 * words <= end
  {
    Min(RoundUp16(off + 4 * words), size)
  }

  // ---- the C splitter ----

  /** The tasks from `off` on, at most `cap` of them. */
  function Split(s: seq<byte>, off: nat, cap: nat): Result<seq<Task>>
    decreases |s| - off
  {
    if off >= |s| then Ok([])
    else if |s| - off < 4 then
      if Zeros(s, off, |s|) then Ok([]) else Err(TrailingNonzero)
    else
      var words := WordCount(s, off);
      if words == 0 then Split(s, Min(off + FRAME_BYTES, |s|), cap)
      else if words < 8 then Err(TaskTooShort)
      else if 4 * words > |s| - off then Err(TaskOverruns)
      else
        var end := FrameEnd(|s|, off, words);
        if !Zeros(s, off + 4 * words, end) then Err(GapNonzero)
        else if cap == 0 then Err(TooManyTasks)
        else Prepend([Task(off, words)], Split(s, end, cap - 1))
  }

  function Prepend(ts: seq<Task>, r: Result<seq<Task>>): Result<seq<Task>> {
    if r.Ok? then Ok(ts + r.value) else r
  }

  lemma PrependTwice(a: seq<Task>, b: seq<Task>, r: Result<seq<Task>>)
    ensures Prepend(a, Prepend(b, r)) == Prepend(a + b, r)
    ensures Prepend([], r) == r && Prepend(a, Ok([])) == Ok(a)
  {
    assert a + [] == a;
    if r.Ok? {
      assert [] + r.value == r.value;
      assert a + (b + r.value) == (a + b) + r.value;
    }
  }

  method AllZero(s: seq<byte>, a: nat, b: nat) returns (zero: bool)
    requires a <= b <= |s|
    ensures zero <==> Zeros(s, a, b)
  {
    for i := a to b
      invariant Zeros(s, a, i)
    {
      if s[i] != 0 {
        return false;
      }
    }
    return true;
  }

  method SplitTasks(s: seq<byte>, cap: nat) returns (r: Result<seq<Task>>)
    ensures r == Split(s, 0, cap)
  {
    var off, tasks := 0, [];
    PrependTwice([], [], Split(s, 0, cap));
    while off < |s|
      invariant |tasks| <= cap
      invariant Split(s, 0, cap) == Prepend(tasks, Split(s, off, cap - |tasks|))
      decreases |s| - off
    {
      PrependTwice(tasks, [], Ok([]));
      if |s| - off < 4 {
        var zero := AllZero(s, off, |s|);
        return if zero then Ok(tasks) else Err(TrailingNonzero);
      }
      var words := WordCount(s, off);
      if words == 0 {
        off := Min(off + FRAME_BYTES, |s|);
        continue;
      }
      if words < 8 {
        return Err(TaskTooShort);
      }
      if 4 * words > |s| - off {
        return Err(TaskOverruns);
      }
      var end := FrameEnd(|s|, off, words);
      var zero := AllZero(s, off + 4 * words, end);
      if !zero {
        return Err(GapNonzero);
      }
      if |tasks| == cap {
        return Err(TooManyTasks);
      }
      PrependTwice(tasks, [Task(off, words)], Split(s, end, cap - |tasks| - 1));
      tasks := tasks + [Task(off, words)];
      off := end;
    }
    PrependTwice(tasks, [], Ok([]));
    r := Ok(tasks);
  }

  // ---- what a successful split means, position by position ----

  /** `t` is a task frame of the stream: its own word count, inside the stream, zero gap. */
  predicate IsTask(s: seq<byte>, t: Task) {
    && t.off % 16 == 0 && t.off + 4 <= |s|
    && t.words == WordCount(s, t.off) >= 8
    && t.off + 4 * t.words <= |s|
    && Zeros(s, t.off + 4 * t.words, FrameEnd(|s|, t.off, t.words))
  }

  function TaskEnd(s: seq<byte>, t: Task): nat {
    FrameEnd(|s|, t.off, t.words)
  }

  /** A position where no task starts: a filler frame, or a zero tail of under 4 bytes. */
  predicate IsFiller(s: seq<byte>, p: nat)
    requires p <= |s|
  {
    if |s| - p < 4 then Zeros(s, p, |s|) else WordCount(s, p) == 0
  }

  ghost predicate Ordered(s: seq<byte>, off: nat, ts: seq<Task>) {
    && (forall i :: 0 <= i < |ts| ==> off <= ts[i].off && IsTask(s, ts[i]))
    && (forall i, j :: 0 <= i < j < |ts| ==> TaskEnd(s, ts[i]) <= ts[j].off)
  }

  ghost predicate Covered(s: seq<byte>, ts: seq<Task>, p: nat) {
    exists i :: 0 <= i < |ts| && ts[i].off <= p < TaskEnd(s, ts[i])
  }

  /** The tasks are disjoint frames in stream order, and every frame position from `off` on that
      no task covers is filler. Nothing here mentions the walk. */
  ghost predicate IsSplit(s: seq<byte>, off: nat, ts: seq<Task>) {
    && Ordered(s, off, ts)
    && (forall p :: off <= p < |s| && p % 16 == 0 && !Covered(s, ts, p) ==> IsFiller(s, p))
  }

  lemma TaskFacts(s: seq<byte>, t: Task)
    requires IsTask(s, t)
    ensures t.off % 16 == 0 && t.off + 32 <= TaskEnd(s, t) <= |s|
    ensures TaskEnd(s, t) % 16 == 0 || TaskEnd(s, t) == |s|
  {
  }

  lemma SplitStepFiller(s: seq<byte>, off: nat, ts: seq<Task>)
    requires off % 16 == 0 && off < |s| && IsFiller(s, off)
    ensures IsSplit(s, off, ts) && !Covered(s, ts, off) <==> IsSplit(s, Min(off + 16, |s|), ts)
  {
    hide IsFiller, IsTask, TaskEnd;
    var next := Min(off + 16, |s|);
    if IsSplit(s, off, ts) && !Covered(s, ts, off) {
      forall i | 0 <= i < |ts|
        ensures next <= ts[i].off
      {
        TaskFacts(s, ts[i]);
      }
    }
    if IsSplit(s, next, ts) {
      forall p | off <= p < |s| && p % 16 == 0 && !Covered(s, ts, p)
        ensures IsFiller(s, p)
      {
        assert p == off || next <= p;
      }
    }
  }

  lemma OrderedCons(s: seq<byte>, t: Task, ts: seq<Task>)
    requires IsTask(s, t)
    ensures Ordered(s, TaskEnd(s, t), ts) <==> Ordered(s, t.off, [t] + ts)
  {
    hide IsTask, TaskEnd;
    TaskFacts(s, t);
    var all := [t] + ts;
    assert all[0] == t;
    if Ordered(s, t.off, all) {
      forall i | 0 <= i < |ts| ensures TaskEnd(s, t) <= ts[i].off && IsTask(s, ts[i]) { assert ts[i] == all[i + 1]; }
      forall i, j | 0 <= i < j < |ts|
        ensures TaskEnd(s, ts[i]) <= ts[j].off
      {
        assert ts[i] == all[i + 1] && ts[j] == all[j + 1];
      }
    }
  }

  lemma CoveredCons(s: seq<byte>, t: Task, ts: seq<Task>, p: nat)
    ensures Covered(s, [t] + ts, p) <==> t.off <= p < TaskEnd(s, t) || Covered(s, ts, p)
  {
    hide TaskEnd;
    var all := [t] + ts;
    if Covered(s, all, p) && !(t.off <= p < TaskEnd(s, t)) {
      var i :| 0 <= i < |all| && all[i].off <= p < TaskEnd(s, all[i]);
      assert ts[i - 1] == all[i];
    }
    if Covered(s, ts, p) {
      var i :| 0 <= i < |ts| && ts[i].off <= p < TaskEnd(s, ts[i]);
      assert all[i + 1] == ts[i];
    }
    if t.off <= p < TaskEnd(s, t) {
      assert all[0] == t;
    }
  }

  lemma SplitStepTask(s: seq<byte>, t: Task, ts: seq<Task>)
    requires IsTask(s, t)
    ensures IsSplit(s, TaskEnd(s, t), ts) <==> IsSplit(s, t.off, [t] + ts)
  {
    hide IsTask, TaskEnd, Ordered, Covered, IsFiller;
    TaskFacts(s, t);
    OrderedCons(s, t, ts);
    forall p: nat
      ensures Covered(s, [t] + ts, p) <==> t.off <= p < TaskEnd(s, t) || Covered(s, ts, p)
    {
      CoveredCons(s, t, ts, p);
    }
  }

  /** A frame position with a nonzero word count starts the first task; a filler frame does not. */
  lemma StartsAt(s: seq<byte>, off: nat, ts: seq<Task>)
    requires off % 16 == 0 && off + 4 <= |s| && IsSplit(s, off, ts)
    ensures WordCount(s, off) == 0 ==> !Covered(s, ts, off)
    ensures WordCount(s, off) != 0 ==> ts != [] && ts[0] == Task(off, WordCount(s, off)) && IsTask(s, ts[0])
  {
    hide WordCount, TaskEnd;
    if WordCount(s, off) != 0 && !Covered(s, ts, off) {
      assert false;
    }
    if Covered(s, ts, off) {
      var i :| 0 <= i < |ts| && ts[i].off <= off < TaskEnd(s, ts[i]);
      assert IsTask(s, ts[0]) && IsTask(s, ts[i]);
      if i > 0 {
        TaskFacts(s, ts[0]);
      }
    }
  }

  lemma SplitTail(s: seq<byte>, off: nat, ts: seq<Task>)
    requires off < |s| < off + 4 && off % 16 == 0
    ensures IsSplit(s, off, ts) <==> ts == [] && Zeros(s, off, |s|)
  {
    hide WordCount, TaskEnd, Zeros;
    if ts != [] {
      assert ts[0].off >= off ==> !IsTask(s, ts[0]);
    } else {
      assert !Covered(s, ts, off);
    }
  }

  /** The splitter succeeds with `ts` exactly when `ts` is the split of the stream and fits `cap`. */
  lemma {:induction false} SplitMeans(s: seq<byte>, off: nat, cap: nat, ts: seq<Task>)
    requires off % 16 == 0 || off >= |s|
    ensures Split(s, off, cap) == Ok(ts) <==> IsSplit(s, off, ts) && |ts| <= cap
    decreases |s| - off
  {
    hide Split, IsSplit, IsTask, WordCount, TaskEnd, Zeros;
    if off >= |s| {
      SplitMeansEnd(s, off, cap, ts);
    } else if |s| - off < 4 {
      SplitMeansTail(s, off, cap, ts);
    } else if WordCount(s, off) == 0 {
      SplitMeansFiller(s, off, cap, ts);
      SplitMeans(s, Min(off + FRAME_BYTES, |s|), cap, ts);
    } else {
      var t := Task(off, WordCount(s, off));
      SplitMeansTask(s, off, cap, ts);
      if IsTask(s, t) && cap > 0 && ts != [] {
        TaskFacts(s, t);
        SplitMeans(s, TaskEnd(s, t), cap - 1, ts[1..]);
      }
    }
  }

  lemma SplitMeansEnd(s: seq<byte>, off: nat, cap: nat, ts: seq<Task>)
    requires off >= |s|
    ensures Split(s, off, cap) == Ok(ts) <==> IsSplit(s, off, ts) && |ts| <= cap
  {
    hide WordCount, TaskEnd, Zeros, Covered, IsFiller;
    assert ts != [] && ts[0].off >= off ==> !IsTask(s, ts[0]);
  }

  lemma SplitMeansTail(s: seq<byte>, off: nat, cap: nat, ts: seq<Task>)
    requires off < |s| < off + 4 && off % 16 == 0
    ensures Split(s, off, cap) == Ok(ts) <==> IsSplit(s, off, ts) && |ts| <= cap
  {
    hide WordCount, TaskEnd, Zeros, IsSplit;
    SplitTail(s, off, ts);
  }

  lemma SplitMeansFiller(s: seq<byte>, off: nat, cap: nat, ts: seq<Task>)
    requires off % 16 == 0 && off + 4 <= |s| && WordCount(s, off) == 0
    ensures Split(s, off, cap) == Split(s, Min(off + FRAME_BYTES, |s|), cap)
    ensures IsSplit(s, off, ts) <==> IsSplit(s, Min(off + FRAME_BYTES, |s|), ts)
  {
    hide WordCount, Covered, IsSplit;
    SplitStepFiller(s, off, ts);
    if IsSplit(s, off, ts) {
      StartsAt(s, off, ts);
    }
  }

  lemma SplitMeansTask(s: seq<byte>, off: nat, cap: nat, ts: seq<Task>)
    requires off % 16 == 0 && off + 4 <= |s| && WordCount(s, off) != 0
    ensures var t := Task(off, WordCount(s, off));
            && (Split(s, off, cap) == Ok(ts) <==>
                  IsTask(s, t) && cap > 0 && ts != [] && ts[0] == t && Split(s, TaskEnd(s, t), cap - 1) == Ok(ts[1..]))
            && (IsSplit(s, off, ts) <==> IsTask(s, t) && ts != [] && ts[0] == t && IsSplit(s, TaskEnd(s, t), ts[1..]))
  {
    hide WordCount, Zeros, Covered, IsSplit, RoundUp16;
    var t := Task(off, WordCount(s, off));
    if IsSplit(s, off, ts) {
      StartsAt(s, off, ts);
    }
    if IsTask(s, t) && ts != [] && ts[0] == t {
      assert ts == [t] + ts[1..];
      SplitStepTask(s, t, ts[1..]);
    }
    if Split(s, off, cap).Ok? {
      var rest := Split(s, TaskEnd(s, t), cap - 1).value;
      assert ([t] + rest)[1..] == rest;
    }
  }

  // ---- the firmware block walk ----

  function BlockBytes(words: nat): nat {
    (4 * words + 15) % 0x4000 / 16 * 16
  }

  /** The block starts the firmware checker walks from `cur` on. */
  function Blocks(s: seq<byte>, cur: nat): Result<seq<nat>>
    decreases |s| - cur
  {
    if cur >= |s| then Ok([])
    else if |s| - cur < 4 then Err(BlockTruncated)
    else
      var words := WordCount(s, cur);
      if words == 0 then Err(BlockZero)
      else
        BlockBytesExact(words);
        Follow([cur], Blocks(s, cur + BlockBytes(words)))
  }

  function Follow(bs: seq<nat>, r: Result<seq<nat>>): Result<seq<nat>> {
    if r.Ok? then Ok(bs + r.value) else r
  }

  lemma FollowTwice(a: seq<nat>, b: seq<nat>, r: Result<seq<nat>>)
    ensures Follow(a, Follow(b, r)) == Follow(a + b, r)
    ensures Follow([], r) == r && Follow(a, Ok([])) == Ok(a)
  {
    assert a + [] == a;
    if r.Ok? {
      assert [] + r.value == r.value;
      assert a + (b + r.value) == (a + b) + r.value;
    }
  }

  lemma BlockBytesExact(words: nat)
    requires 0 < words < 0x800
    ensures BlockBytes(words) == RoundUp16(4 * words) > 0
  {
  }

  function BlockStride(s: seq<byte>): nat
    requires |s| >= 4
  {
    if Le32(s, 0) / 4 % 2 == 1 then 0x30 else 0x10
  }

  function Last(bs: seq<nat>): nat { if bs == [] then 0 else bs[|bs| - 1] }

  /** The number of blocks the descriptor's tdprop segment declares. */
  function BlockCount(s: seq<byte>): Result<nat> {
    if |s| < 4 then Err(BlockTruncated)
    else
      var bs := Blocks(s, BlockStride(s));
      if bs.Err? then Err(bs.why)
      else if Le32(s, 0) % 2 == 1 && |s| > BlockStride(s) then
        if |s| < Last(bs.value) + 0x1c then Err(TailTruncated)
        else if Le32(s, Last(bs.value) + 0x18) != 0 then Err(TailNonzero)
        else Ok(|bs.value|)
      else Ok(|bs.value|)
  }

  method TdpropBlockCount(s: seq<byte>) returns (r: Result<nat>)
    ensures r == BlockCount(s)
  {
    if |s| < 4 {
      return Err(BlockTruncated);
    }
    var stride := BlockStride(s);
    var cur, last, walked := stride, 0, 0;
    ghost var seen: seq<nat> := [];
    FollowTwice([], [], Blocks(s, stride));
    while cur < |s|
      invariant walked == |seen| && last == Last(seen) && last <= |s|
      invariant Blocks(s, stride) == Follow(seen, Blocks(s, cur))
      decreases |s| - cur
    {
      if |s| - cur < 4 {
        return Err(BlockTruncated);
      }
      var words := WordCount(s, cur);
      last := cur;
      if words == 0 {
        return Err(BlockZero);
      }
      BlockBytesExact(words);
      FollowTwice(seen, [cur], Blocks(s, cur + BlockBytes(words)));
      seen := seen + [cur];
      cur := cur + BlockBytes(words);
      walked := walked + 1;
    }
    FollowTwice(seen, [], Ok([]));
    if Le32(s, 0) % 2 == 1 && |s| > stride {
      if |s| - last < 0x1c {
        return Err(TailTruncated);
      }
      if Le32(s, last + 0x18) != 0 {
        return Err(TailNonzero);
      }
    }
    r := Ok(walked);
  }

  /** Block i has a nonzero word count and, rounded up to 16 bytes, ends at the next block or ends the stream. */
  ghost predicate BlockAt(s: seq<byte>, bs: seq<nat>, i: int)
    requires 0 <= i < |bs|
  {
    && bs[i] + 4 <= |s| && Le16(s, bs[i] + 2) % 0x800 != 0
    && var end := bs[i] + (4 * (Le16(s, bs[i] + 2) % 0x800) + 15) / 16 * 16;
       if i + 1 < |bs| then bs[i + 1] == end else end >= |s|
  }

  /** Blocks from `cur` to the end of the stream. */
  ghost predicate BlockChain(s: seq<byte>, cur: nat, bs: seq<nat>) {
    && (if bs == [] then cur >= |s| else bs[0] == cur)
    && forall i :: 0 <= i < |bs| ==> BlockAt(s, bs, i)
  }

  lemma {:induction false} BlocksMean(s: seq<byte>, cur: nat, bs: seq<nat>)
    ensures Blocks(s, cur) == Ok(bs) <==> BlockChain(s, cur, bs)
    decreases |s| - cur
  {
    if cur + 4 <= |s| && WordCount(s, cur) != 0 && bs != [] {
      var words := WordCount(s, cur);
      BlockBytesExact(words);
      var next := cur + BlockBytes(words);
      var rest := Blocks(s, next);
      BlocksMean(s, next, bs[1..]);
      ChainCons(s, cur, next, bs);
      assert rest.Ok? ==> ([cur] + rest.value)[1..] == rest.value && ([cur] + rest.value)[0] == cur;
      assert bs == [bs[0]] + bs[1..];
    } else if bs != [] {
      assert !BlockAt(s, bs, 0) || bs[0] != cur;
    }
  }

  lemma ChainCons(s: seq<byte>, cur: nat, next: nat, bs: seq<nat>)
    requires cur + 4 <= |s| && Le16(s, cur + 2) % 0x800 != 0 && bs != []
    requires next == cur + (4 * (Le16(s, cur + 2) % 0x800) + 15) / 16 * 16
    ensures BlockChain(s, cur, bs) <==> bs[0] == cur && BlockChain(s, next, bs[1..])
  {
    hide Le16;
    var tail := bs[1..];
    forall i | 0 <= i < |tail|
      ensures BlockAt(s, tail, i) <==> BlockAt(s, bs, i + 1)
    {
      assert tail[i] == bs[i + 1] && (i + 1 < |tail| ==> tail[i + 1] == bs[i + 2]);
    }
    if BlockChain(s, next, tail) && bs[0] == cur {
      forall i | 0 <= i < |bs|
        ensures BlockAt(s, bs, i)
      {
        assert i > 0 ==> BlockAt(s, tail, i - 1);
      }
    }
    if BlockChain(s, cur, bs) {
      assert BlockAt(s, bs, 0);
    }
  }

  /** THE BLOCK COUNT. The blocks start at offset 16, or 48 when bit 2 of the first word is set, and follow each other
      to the end of the stream; when bit 0 is set and there is a block, word 6 of the last one is zero. */
  lemma BlockCountMeans(s: seq<byte>, n: nat)
    ensures BlockCount(s) == Ok(n) <==>
              && |s| >= 4
              && var first := if Le32(s, 0) / 4 % 2 == 1 then 48 else 16;
                 exists bs :: && |bs| == n && BlockChain(s, first, bs)
                              && (Le32(s, 0) % 2 == 1 && bs != [] ==>
                                    bs[n - 1] + 28 <= |s| && Le32(s, bs[n - 1] + 24) == 0)
  {
    hide Blocks, Le32, BlockChain;
    if |s| >= 4 {
      var first := if Le32(s, 0) / 4 % 2 == 1 then 48 else 16;
      forall bs
        ensures Blocks(s, first) == Ok(bs) <==> BlockChain(s, first, bs)
        ensures BlockChain(s, first, bs) ==> (bs != [] <==> |s| > first)
      {
        BlocksMean(s, first, bs);
        ChainStarts(s, first, bs);
      }
    }
  }

  lemma ChainStarts(s: seq<byte>, cur: nat, bs: seq<nat>)
    ensures BlockChain(s, cur, bs) ==> (bs != [] <==> |s| > cur)
  {
    assert bs != [] && BlockChain(s, cur, bs) ==> BlockAt(s, bs, 0);
  }

  /** The tasks follow each other without a gap from `off` to the end of the stream. */
  ghost predicate Tiled(s: seq<byte>, off: nat, ts: seq<Task>) {
    && (if ts == [] then off >= |s| else ts[0].off == off && TaskEnd(s, ts[|ts| - 1]) == |s|)
    && (forall i :: 0 <= i < |ts| - 1 ==> ts[i + 1].off == TaskEnd(s, ts[i]))
  }

  lemma TiledCons(s: seq<byte>, t: Task, ts: seq<Task>)
    requires IsTask(s, t)
    ensures Tiled(s, t.off, [t] + ts) <==> Tiled(s, TaskEnd(s, t), ts)
  {
    hide IsTask, TaskEnd;
    TaskFacts(s, t);
    var all := [t] + ts;
    assert all[0] == t;
    if Tiled(s, t.off, all) && ts != [] {
      assert all[1].off == TaskEnd(s, all[0]);
      forall i | 0 <= i < |ts| - 1 ensures ts[i + 1].off ==
        TaskEnd(s, ts[i]) { assert all[i + 2].off == TaskEnd(s, all[i + 1]); }
    }
  }

  function Starts(ts: seq<Task>): seq<nat> {
    seq(|ts|, i requires 0 <= i < |ts| => ts[i].off)
  }

  /** On a stream the splitter accepts, the block walk succeeds exactly when the tasks tile the
      stream, and then it starts a block at every task and nowhere else. */
  lemma {:induction false} WalksAgree(s: seq<byte>, off: nat, cap: nat)
    requires off % 16 == 0 || off >= |s|
    requires Split(s, off, cap).Ok?
    ensures Blocks(s, off).Ok? <==> Tiled(s, off, Split(s, off, cap).value)
    ensures Blocks(s, off).Ok? ==> Blocks(s, off).value == Starts(Split(s, off, cap).value)
    decreases |s| - off
  {
    hide WordCount, Zeros, RoundUp16, IsTask, TaskEnd, FrameEnd, Starts;
    if off >= |s| {
      assert Starts([]) == [] by { StartsCons(Task(0, 0), []); }
    } else if |s| - off >= 4 {
      if WordCount(s, off) == 0 {
        WalksAgreeFiller(s, off, cap);
      } else {
        WalksAgreeTask(s, off, cap);
        var t := Task(off, WordCount(s, off));
        WalksAgree(s, TaskEnd(s, t), cap - 1);
        var rest := Split(s, TaskEnd(s, t), cap - 1).value;
        TiledCons(s, t, rest);
        StartsCons(t, rest);
      }
    }
  }

  lemma StartsCons(t: Task, ts: seq<Task>)
    ensures Starts([t] + ts) == [t.off] + Starts(ts) && Starts([]) == []
  {
  }

  lemma WalksAgreeFiller(s: seq<byte>, off: nat, cap: nat)
    requires off % 16 == 0 && off + 4 <= |s| && WordCount(s, off) == 0 && Split(s, off, cap).Ok?
    ensures !Tiled(s, off, Split(s, off, cap).value)
  {
    hide WordCount, Covered, TaskEnd, IsTask;
    var ts := Split(s, off, cap).value;
    SplitMeans(s, Min(off + FRAME_BYTES, |s|), cap, ts);
  }

  lemma WalksAgreeTask(s: seq<byte>, off: nat, cap: nat)
    requires off % 16 == 0 && off + 4 <= |s| && WordCount(s, off) != 0 && Split(s, off, cap).Ok?
    ensures var t := Task(off, WordCount(s, off));
            && IsTask(s, t) && cap > 0 && off < TaskEnd(s, t)
            && (TaskEnd(s, t) % 16 == 0 || TaskEnd(s, t) >= |s|)
            && Split(s, TaskEnd(s, t), cap - 1).Ok?
            && Split(s, off, cap).value == [t] + Split(s, TaskEnd(s, t), cap - 1).value
            && (Blocks(s, off).Ok? <==> Blocks(s, TaskEnd(s, t)).Ok?)
            && (Blocks(s, off).Ok? ==> Blocks(s, off).value == [off] + Blocks(s, TaskEnd(s, t)).value)
  {
    hide Zeros, RoundUp16, BlockBytes;
    var t := Task(off, WordCount(s, off));
    assert IsTask(s, t);
    TaskFacts(s, t);
    BlockBytesExact(t.words);
    RoundUpShift(off, 4 * t.words);
  }

  lemma RoundUpShift(off: nat, n: nat)
    requires off % 16 == 0
    ensures off + RoundUp16(n) == RoundUp16(off + n)
  {
  }

  lemma ZeroFrame(s: seq<byte>, cap: nat)
    requires |s| >= FRAME_BYTES && Zeros(s, 0, FRAME_BYTES)
    ensures Split(s, 0, cap) == Split(s, FRAME_BYTES, cap)
    ensures BlockCount(s) == if Blocks(s, FRAME_BYTES).Ok? then Ok(|Blocks(s, FRAME_BYTES).value|)
            else Err(Blocks(s, FRAME_BYTES).why)
  {
    assert WordCount(s, 0) == 0 && Le32(s, 0) == 0;
  }

  /** TWO WALKERS AGREE. On a stream that opens with a zero frame and splits, the firmware block
      count is defined exactly when the tasks tile the stream from offset 16 with no filler frame
      between or after them, and then it is the number of tasks. */
  lemma BlockCountIsTaskCount(s: seq<byte>, cap: nat)
    requires |s| >= FRAME_BYTES && Zeros(s, 0, FRAME_BYTES) && Split(s, 0, cap).Ok?
    ensures BlockCount(s).Ok? <==> Tiled(s, FRAME_BYTES, Split(s, 0, cap).value)
    ensures BlockCount(s).Ok? ==> BlockCount(s).value == |Split(s, 0, cap).value|
  {
    hide Zeros, Tiled;
    ZeroFrame(s, cap);
    WalksAgree(s, FRAME_BYTES, cap);
  }

  // ---- the Python splitter (tools/hwx_h14_staged_to_anec.py) ----

  /** Task byte lengths from `off` on; alignment gaps are not looked at. */
  function Sizes(s: seq<byte>, off: nat): Result<seq<nat>>
    requires |s| % 4 == 0 && off <= |s| && (off % 16 == 0 || off == |s|)
    decreases |s| - off
  {
    if off == |s| then Ok([])
    else
      var words := WordCount(s, off);
      if words == 0 then Sizes(s, NextFrame(|s|, off))
      else if words < 10 then Err(TaskTooShort)
      else if 4 * words > |s| - off then Err(TaskOverruns)
      else Follow([4 * words], Sizes(s, FrameEnd(|s|, off, words)))
  }

  function PythonSplit(s: seq<byte>): Result<seq<nat>> {
    if |s| == 0 || |s| % 4 != 0 then Err(StreamUnaligned)
    else
      var sizes := Sizes(s, 0);
      if sizes == Ok([]) then Err(NoTask) else sizes
  }

  method SplitSizes(s: seq<byte>) returns (r: Result<seq<nat>>)
    ensures r == PythonSplit(s)
  {
    if |s| == 0 || |s| % 4 != 0 {
      return Err(StreamUnaligned);
    }
    hide RoundUp16, WordCount, FrameEnd, NextFrame;
    var off: nat, sizes: seq<nat> := 0, [];
    FollowTwice([], [], Sizes(s, 0));
    while off != |s|
      invariant off <= |s| && (off % 16 == 0 || off == |s|)
      invariant Sizes(s, 0) == Follow(sizes, Sizes(s, off))
      decreases |s| - off
    {
      var words := WordCount(s, off);
      if words == 0 {
        off := NextFrame(|s|, off);
        continue;
      }
      if words < 10 {
        return Err(TaskTooShort);
      }
      if 4 * words > |s| - off {
        return Err(TaskOverruns);
      }
      FollowTwice(sizes, [4 * words], Sizes(s, FrameEnd(|s|, off, words)));
      sizes := sizes + [4 * words];
      off := FrameEnd(|s|, off, words);
    }
    FollowTwice(sizes, [], Ok([]));
    r := if sizes == [] then Err(NoTask) else Ok(sizes);
  }

  function ByteSizes(ts: seq<Task>): seq<nat> {
    seq(|ts|, i requires 0 <= i < |ts| => 4 * ts[i].words)
  }

  ghost predicate LongTasks(ts: seq<Task>) {
    forall i :: 0 <= i < |ts| ==> ts[i].words >= 10
  }

  /** The bytes between the end of every task and the next frame are zero, from `off` on. */
  predicate GapsZero(s: seq<byte>, off: nat)
    requires |s| % 4 == 0 && off <= |s| && (off % 16 == 0 || off == |s|)
    decreases |s| - off
  {
    if off == |s| then true
    else
      var words := WordCount(s, off);
      if words == 0 then GapsZero(s, NextFrame(|s|, off))
      else
        var end := FrameEnd(|s|, off, words);
        Zeros(s, off + 4 * words, end) && GapsZero(s, end)
  }

  /** The two splitters see the same tasks. With room for all of them the C splitter returns the
      Python list exactly when the alignment gaps, which Python does not look at, hold zeros, and
      refuses the gap otherwise; and the C list is the Python list whenever no task is shorter than
      the 10 words Python asks for. */
  lemma {:induction false} SplittersAgree(s: seq<byte>, off: nat, cap: nat)
    requires |s| % 4 == 0 && off <= |s| && (off % 16 == 0 || off == |s|)
    ensures Sizes(s, off).Ok? && |Sizes(s, off).value| <= cap ==>
              var c := Split(s, off, cap);
              if GapsZero(s, off) then c.Ok? && LongTasks(c.value) && ByteSizes(c.value) == Sizes(s, off).value
              else c == Err(GapNonzero)
    ensures Split(s, off, cap).Ok? && LongTasks(Split(s, off, cap).value) ==>
              GapsZero(s, off) && Sizes(s, off) == Ok(ByteSizes(Split(s, off, cap).value))
    decreases |s| - off
  {
    hide WordCount, Zeros, RoundUp16;
    if off < |s| {
      var words := WordCount(s, off);
      if words == 0 {
        SplittersAgree(s, NextFrame(|s|, off), cap);
      } else if words >= 8 && 4 * words <= |s| - off {
        var t, end := Task(off, words), FrameEnd(|s|, off, words);
        if cap > 0 {
          SplittersAgree(s, end, cap - 1);
          var c := Split(s, end, cap - 1);
          if c.Ok? {
            ByteSizesCons(t, c.value);
          }
        }
      }
    }
  }

  lemma ByteSizesCons(t: Task, ts: seq<Task>)
    ensures ByteSizes([t] + ts) == [4 * t.words] + ByteSizes(ts)
    ensures LongTasks([t] + ts) <==> t.words >= 10 && LongTasks(ts)
  {
    var all := [t] + ts;
    assert all[0] == t;
    if LongTasks(all) {
      forall i | 0 <= i < |ts| ensures ts[i].words >= 10 { assert all[i + 1] == ts[i]; }
    }
  }
}
