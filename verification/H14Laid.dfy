/** H14 task streams written out: the splitter and the record walk of libane/ane_m2.c find exactly the tasks and records
    a stream was laid out from, and read the fields of a record header at the bits they were put at. */
module H14Laid {
  import opened Basics
  import opened H14Bytes
  import opened H14Stream
  import opened H14Records
  import opened H14Words
  import Conv = H14Convert

  // ---- record headers ----

  /** A dense record: the register word in bits 14:0, the payload count less one in bits 20:15, the slot in bits 28:23
      and bit 29 for a BAR reference. */
  lemma DenseHeader(reg: nat, n: nat, low: nat, slot: nat, bar: bool, bit30: nat)
    requires reg < 0x8000 && 1 <= n <= 64 && low < 4 && slot < 64 && bit30 < 2
    ensures var h := reg + 0x8000 * (n - 1) + 0x20_0000 * low + 0x80_0000 * slot
              + (if bar then 0x2000_0000 else 0) + 0x4000_0000 * bit30;
            && PayloadCount(h) == n && (IsBarRef(h) <==> bar) && Slot(h) == slot && Addr(h) == 4 * reg
            && (HasBit28(h) <==> slot >= 32)
  {
    var b := if bar then 1 else 0;
    var h := reg + 0x8000 * (n - 1) + 0x20_0000 * low + 0x80_0000 * slot + 0x2000_0000 * b + 0x4000_0000 * bit30;
    assert h / 0x8000 == n - 1 + 0x40 * (low + 4 * slot + 0x100 * b + 0x200 * bit30);
    assert h / 0x80_0000 == slot + 0x40 * (b + 2 * bit30);
    assert h / 0x1000_0000 == slot / 32 + 2 * (b + 2 * bit30);
    assert h / 0x2000_0000 == b + 2 * bit30;
    assert h % 0x8000 == reg;
  }

  /** The bits of a mask, the lowest first. */
  function MaskOf(bits: seq<bool>): nat { if bits == [] then 0 else (if bits[0] then 1 else 0) + 2 * MaskOf(bits[1..]) }

  function SetBits(bits: seq<bool>): nat { if bits == [] then 0 else (if bits[0] then 1 else 0) + SetBits(bits[1..]) }

  lemma {:induction false} MaskCount(bits: seq<bool>)
    ensures PopCount(MaskOf(bits)) == SetBits(bits)
  {
    if bits != [] {
      MaskCount(bits[1..]);
    }
  }

  lemma {:induction false} MaskBound(bits: seq<bool>)
    ensures MaskOf(bits) < Pow2(|bits|)
  {
    if bits != [] {
      MaskBound(bits[1..]);
    }
  }

  /** A masked record has bit 31 set, its mask in bits 30:15, one payload word and one more for each bit of the mask. */
  lemma MaskedHeader(reg: nat, bits: seq<bool>)
    requires reg < 0x8000 && |bits| == 16
    ensures var h := 0x8000_0000 + 0x8000 * MaskOf(bits) + reg;
            PayloadCount(h) == 1 + SetBits(bits) && !IsBarRef(h) && Addr(h) == 4 * reg
  {
    hide PopCount, MaskOf, SetBits;
    MaskCount(bits);
    MaskBound(bits);
    assert Pow2(8) == 0x100;
    assert Pow2(16) == 0x1_0000;
    var m := MaskOf(bits);
    var h := 0x8000_0000 + 0x8000 * m + reg;
    assert h / 0x8000 == 0x1_0000 + m && h % 0x8000 == reg;
  }

  // ---- laying out ----

  datatype Rec = Rec(header: nat, payload: seq<nat>)

  /** A task: its records, and whether an extra header word precedes them. */
  datatype Laid = Laid(recs: seq<Rec>, extra: bool)

  predicate RecOk(r: Rec) {
    r.header < 0x1_0000_0000 && |r.payload| == PayloadCount(r.header) && Conv.Fits(r.payload, 0x1_0000_0000)
  }

  ghost predicate LaidOk(t: Laid) { (forall i :: 0 <= i < |t.recs| ==> RecOk(t.recs[i])) && Length(t) < 0x800 }

  function RecsLength(rs: seq<Rec>): nat { if rs == [] then 0 else 1 + |rs[0].payload| + RecsLength(rs[1..]) }

  function Start(t: Laid): nat { if t.extra then 9 else 8 }

  function Length(t: Laid): nat { Start(t) + RecsLength(t.recs) }

  ghost function RecsWords(rs: seq<Rec>): (xs: seq<nat>)
    requires forall i :: 0 <= i < |rs| ==> RecOk(rs[i])
    ensures |xs| == RecsLength(rs) && Conv.Fits(xs, 0x1_0000_0000)
  {
    if rs == [] then []
    else
      assert RecOk(rs[0]);
      var first, rest := [rs[0].header] + rs[0].payload, RecsWords(rs[1..]);
      FitsJoin([rs[0].header], rs[0].payload);
      FitsJoin(first, rest);
      first + rest
  }

  lemma FitsJoin(a: seq<nat>, b: seq<nat>)
    requires Conv.Fits(a, 0x1_0000_0000) && Conv.Fits(b, 0x1_0000_0000)
    ensures Conv.Fits(a + b, 0x1_0000_0000)
  {
  }

  function Padding(n: nat): (p: nat)
    ensures p < 4 && (n + p) % 4 == 0
  {
    (4 - n % 4) % 4
  }

  /** The word count in the high half of word 0, the extra word announced by word 7, the records, and zeros up to a
      whole frame. */
  ghost function TaskWords(t: Laid): (xs: seq<nat>)
    requires LaidOk(t)
    ensures |xs| == Length(t) + Padding(Length(t)) && Conv.Fits(xs, 0x1_0000_0000)
  {
    [Length(t) * 0x1_0000, 0, 0, 0, 0, 0, 0, if t.extra then 3 else 0] + (if t.extra then [0] else [])
    + RecsWords(t.recs) + seq(Padding(Length(t)), _ => 0)
  }

  ghost function TasksWords(ts: seq<Laid>): (xs: seq<nat>)
    requires forall i :: 0 <= i < |ts| ==> LaidOk(ts[i])
    ensures Conv.Fits(xs, 0x1_0000_0000) && |xs| % 4 == 0
  {
    if ts == [] then []
    else
      var first, rest := TaskWords(ts[0]), TasksWords(ts[1..]);
      FitsJoin(first, rest);
      LengthJoin(first, rest);
      first + rest
  }

  lemma LengthJoin(a: seq<nat>, b: seq<nat>)
    requires |a| % 4 == 0 && |b| % 4 == 0
    ensures |a + b| % 4 == 0
  {
  }

  /** A zero frame, then the tasks. */
  ghost function Stream(ts: seq<Laid>): (xs: seq<nat>)
    requires forall i :: 0 <= i < |ts| ==> LaidOk(ts[i])
    ensures Conv.Fits(xs, 0x1_0000_0000)
  {
    FitsJoin([0, 0, 0, 0], TasksWords(ts));
    [0, 0, 0, 0] + TasksWords(ts)
  }

  // ---- what the walks should find ----

  function Frames(ts: seq<Laid>, at: nat): seq<Task> {
    if ts == [] then []
    else [Task(4 * at, Length(ts[0]))] + Frames(ts[1..], at + Length(ts[0]) + Padding(Length(ts[0])))
  }

  function Found(rs: seq<Rec>, i: nat): seq<Record> {
    if rs == [] then [] else [Record(i, rs[0].header, rs[0].payload)] + Found(rs[1..], i + 1 + |rs[0].payload|)
  }

  // ---- and do ----

  lemma PartAt(xs: seq<nat>, from: nat, to: nat, j: nat)
    requires from + j < to <= |xs|
    ensures xs[from..to][j] == xs[from + j]
  {
  }

  lemma PartOf(xs: seq<nat>, from: nat, to: nat, i: nat, j: nat)
    requires i <= j && from + j <= to <= |xs|
    ensures xs[from..to][i..j] == xs[from + i..from + j]
  {
    var part := xs[from..to];
    forall k | 0 <= k < j - i
      ensures part[i..j][k] == xs[from + i..from + j][k]
    {
      PartAt(xs, from, to, i + k);
    }
  }

  lemma PayloadBack(xs: seq<nat>, t: Task, i: nat, r: Rec)
    requires Conv.Fits(xs, 0x1_0000_0000) && InStream(Conv.PackAll32(xs), t) && t.off % 4 == 0 && RecOk(r)
    requires i + 1 + |r.payload| <= t.words && t.off / 4 + t.words <= |xs|
    requires var at := t.off / 4; xs[at + i..at + i + 1 + |r.payload|] == [r.header] + r.payload
    ensures Word(Conv.PackAll32(xs), t, i) == r.header
    ensures Payload(Conv.PackAll32(xs), t, i, |r.payload|) == r.payload
  {
    hide Conv.PackAll32, Conv.Fits, Word, RecOk;
    var s, at, n := Conv.PackAll32(xs), t.off / 4, |r.payload|;
    WordAt(xs, t, i);
    PartAt(xs, at + i, at + i + 1 + n, 0);
    forall k | 0 <= k < n
      ensures Word(s, t, i + 1 + k) == r.payload[k]
    {
      WordAt(xs, t, i + 1 + k);
      PartAt(xs, at + i, at + i + 1 + n, 1 + k);
      assert ([r.header] + r.payload)[1 + k] == r.payload[k];
    }
  }

  lemma {:induction false} RecordsBack(xs: seq<nat>, t: Task, i: nat, rs: seq<Rec>)
    requires Conv.Fits(xs, 0x1_0000_0000) && InStream(Conv.PackAll32(xs), t) && t.off % 4 == 0
    requires i <= t.words && t.off / 4 + t.words <= |xs| && forall k :: 0 <= k < |rs| ==> RecOk(rs[k])
    requires xs[t.off / 4 + i..t.off / 4 + t.words] == RecsWords(rs)
    ensures RecordsFrom(Conv.PackAll32(xs), t, i) == Ok(Found(rs, i))
    decreases |rs|
  {
    hide Conv.PackAll32, Conv.Fits, Word, Payload, InStream, PayloadCount;
    if rs != [] {
      var at, n := t.off / 4, |rs[0].payload|;
      var part := xs[at + i..at + t.words];
      assert |part| == t.words - i >= 1 + n;
      assert part[..1 + n] == xs[at + i..at + i + 1 + n] && part[..1 + n] == [rs[0].header] + rs[0].payload;
      PayloadBack(xs, t, i, rs[0]);
      assert part[1 + n..] == xs[at + (i + 1 + n)..at + t.words];
      RecordsBack(xs, t, i + 1 + n, rs[1..]);
    }
  }

  /** A task at word `at` of the stream. */
  ghost predicate Holds(xs: seq<nat>, at: nat, t: Laid)
    requires LaidOk(t)
  {
    at % 4 == 0 && at + |TaskWords(t)| <= |xs| && xs[at..at + |TaskWords(t)|] == TaskWords(t)
  }

  lemma TaskIs(t: Laid)
    requires LaidOk(t)
    ensures var ys, n := TaskWords(t), Length(t);
            && |ys| == n + Padding(n) && 8 <= n && ys[0] == n * 0x1_0000 && ys[7] == (if t.extra then 3 else 0)
            && ys[Start(t)..n] == RecsWords(t.recs) && forall k :: n <= k < |ys| ==> ys[k] == 0
  {
  }

  lemma FirstBack(xs: seq<nat>, at: nat, t: Laid)
    requires Conv.Fits(xs, 0x1_0000_0000) && LaidOk(t) && Holds(xs, at, t)
    ensures InStream(Conv.PackAll32(xs), Task(4 * at, Length(t)))
    ensures FirstRecord(Conv.PackAll32(xs), Task(4 * at, Length(t))) == Start(t)
  {
    hide Conv.PackAll32, Conv.Fits, Word, TaskWords, LaidOk, Padding, Length, RecsWords, InStream;
    var all := |TaskWords(t)|;
    TaskIs(t);
    InStreamAt(xs, at, Length(t));
    WordAt(xs, Task(4 * at, Length(t)), 7);
    PartAt(xs, at, at + all, 7);
    assert 4 * at / 4 == at;
  }

  lemma InStreamAt(xs: seq<nat>, at: nat, n: nat)
    requires Conv.Fits(xs, 0x1_0000_0000) && 8 <= n && at + n <= |xs|
    ensures InStream(Conv.PackAll32(xs), Task(4 * at, n))
  {
    hide Conv.PackAll32;
  }

  /** The records of a laid task. */
  lemma TaskBack(xs: seq<nat>, at: nat, t: Laid)
    requires Conv.Fits(xs, 0x1_0000_0000) && LaidOk(t) && Holds(xs, at, t)
    ensures var s, task := Conv.PackAll32(xs), Task(4 * at, Length(t));
            InStream(s, task) && Records(s, task) == Ok(Found(t.recs, Start(t)))
  {
    hide Conv.PackAll32, Conv.Fits, Word, TaskWords, RecordsFrom, LaidOk, Found, InStream, FirstRecord, RecOk, Padding,
      RecsLength;
    var n, all := Length(t), |TaskWords(t)|;
    TaskIs(t);
    Recs(t);
    FirstBack(xs, at, t);
    PartOf(xs, at, at + all, Start(t), n);
    RecordsBack(xs, Task(4 * at, n), Start(t), t.recs);
  }

  lemma Recs(t: Laid)
    requires LaidOk(t)
    ensures Length(t) < 0x800 && forall k :: 0 <= k < |t.recs| ==> RecOk(t.recs[k])
  {
  }

  lemma FrameEnds(size: nat, at: nat, n: nat)
    requires at % 4 == 0 && 4 * (at + n + Padding(n)) <= size
    ensures FrameEnd(size, 4 * at, n) == 4 * (at + n + Padding(n))
  {
    var end := at + n + Padding(n);
    hide RoundUp16, Padding;
    EndsFrame(at, n, end);
    Up16(n, at / 4, end / 4);
    assert 16 * (at / 4) == 4 * at && 16 * (end / 4) == 4 * end;
  }

  lemma EndsFrame(at: nat, n: nat, end: nat)
    requires at % 4 == 0 && at + n <= end < at + n + 4 && (end - at) % 4 == 0
    ensures at == 4 * (at / 4) && end == 4 * (end / 4)
  {
  }

  lemma Up16(n: nat, i: nat, j: nat)
    requires 4 * i + n <= 4 * j < 4 * i + n + 4
    ensures RoundUp16(16 * i + 4 * n) == 16 * j
  {
    var m := 16 * i + 4 * n;
    assert (m + 15) / 16 == j;
  }

  /** The frame of a laid task: its word count, and zeros up to the next frame. */
  lemma FrameBack(xs: seq<nat>, at: nat, t: Laid)
    requires Conv.Fits(xs, 0x1_0000_0000) && LaidOk(t) && Holds(xs, at, t)
    ensures var s, n := Conv.PackAll32(xs), Length(t);
            && 4 * at + 4 <= |s| && WordCount(s, 4 * at) == n && 8 <= n && 4 * n <= |s| - 4 * at
            && FrameEnd(|s|, 4 * at, n) == 4 * (at + n + Padding(n))
            && Zeros(s, 4 * at + 4 * n, FrameEnd(|s|, 4 * at, n))
  {
    hide Conv.PackAll32, Conv.Fits, WordCount, TaskWords, Zeros, FrameEnd, LaidOk, Length, Padding, RecsWords;
    var n, all := Length(t), |TaskWords(t)|;
    TaskIs(t);
    Recs(t);
    CountAt(xs, at);
    PartAt(xs, at, at + all, 0);
    HighCount(n);
    FrameEnds(|Conv.PackAll32(xs)|, at, n);
    forall k | at + n <= k < at + all
      ensures xs[k] == 0
    {
      PartAt(xs, at, at + all, k - at);
    }
    ZeroWords(xs, at + n, at + all);
  }

  lemma HighCount(n: nat)
    requires n < 0x800
    ensures n * 0x1_0000 / 0x1_0000 % 0x800 == n
  {
  }

  lemma {:induction false} ZeroWords(xs: seq<nat>, a: nat, b: nat)
    requires Conv.Fits(xs, 0x1_0000_0000) && a <= b <= |xs| && forall k :: a <= k < b ==> xs[k] == 0
    ensures Zeros(Conv.PackAll32(xs), 4 * a, 4 * b)
    decreases b - a
  {
    hide Conv.PackAll32, Conv.Fits, WordCount;
    if a < b {
      ZeroWords(xs, a + 1, b);
      CountAt(xs, a);
    }
  }

  lemma SplitTask(s: seq<byte>, off: nat, cap: nat, n: nat)
    requires off + 4 <= |s| && WordCount(s, off) == n && 8 <= n && 4 * n <= |s| - off && cap > 0
    requires Zeros(s, off + 4 * n, FrameEnd(|s|, off, n))
    ensures Split(s, off, cap) == Prepend([Task(off, n)], Split(s, FrameEnd(|s|, off, n), cap - 1))
  {
    hide WordCount, Zeros, FrameEnd;
  }

  lemma SplitEnd(s: seq<byte>, cap: nat)
    ensures Split(s, |s|, cap) == Ok([])
  {
  }

  lemma {:induction false} SplitBack(xs: seq<nat>, at: nat, ts: seq<Laid>, cap: nat)
    requires Conv.Fits(xs, 0x1_0000_0000) && at % 4 == 0 && at <= |xs| && |ts| <= cap
    requires (forall i :: 0 <= i < |ts| ==> LaidOk(ts[i])) && xs[at..] == TasksWords(ts)
    ensures Split(Conv.PackAll32(xs), 4 * at, cap) == Ok(Frames(ts, at))
    decreases |ts|
  {
    hide Conv.PackAll32, Conv.Fits, WordCount, Zeros, TaskWords, LaidOk, FrameEnd, Split, Length, Padding;
    var s := Conv.PackAll32(xs);
    if ts == [] {
      SplitEnd(s, cap);
    } else {
      var all := |TaskWords(ts[0])|;
      assert xs[at..][..all] == xs[at..at + all] && xs[at..][all..] == xs[at + all..];
      assert Holds(xs, at, ts[0]);
      FrameBack(xs, at, ts[0]);
      SplitTask(s, 4 * at, cap, Length(ts[0]));
      SplitBack(xs, at + all, ts[1..], cap - 1);
    }
  }

  /** THE STREAM READS BACK. A stream laid out from any list of tasks, with records of any headers, splits into exactly
      these tasks, with room for all of them, and each task holds exactly its records. */
  lemma StreamBack(ts: seq<Laid>, cap: nat)
    requires |ts| <= cap && forall i :: 0 <= i < |ts| ==> LaidOk(ts[i])
    ensures var s := Conv.PackAll32(Stream(ts)); Split(s, 0, cap) == Ok(Frames(ts, 4))
  {
    hide Conv.PackAll32, Conv.Fits, Zeros, TasksWords, LaidOk, WordCount;
    var xs := Stream(ts);
    CountAt(xs, 0);
    assert xs[4..] == TasksWords(ts);
    SplitBack(xs, 4, ts, cap);
  }

  lemma {:induction false} AllTasksBack(xs: seq<nat>, at: nat, ts: seq<Laid>, k: nat)
    requires Conv.Fits(xs, 0x1_0000_0000) && at % 4 == 0 && at <= |xs| && k < |ts|
    requires (forall i :: 0 <= i < |ts| ==> LaidOk(ts[i])) && xs[at..] == TasksWords(ts)
    ensures k < |Frames(ts, at)|
    ensures var s, task := Conv.PackAll32(xs), Frames(ts, at)[k];
            InStream(s, task) && Records(s, task) == Ok(Found(ts[k].recs, Start(ts[k])))
    decreases |ts|
  {
    hide Conv.PackAll32, Conv.Fits, TaskWords, LaidOk, Records, InStream, Found, Length, Padding;
    var all := |TaskWords(ts[0])|;
    assert xs[at..][..all] == xs[at..at + all] && xs[at..][all..] == xs[at + all..];
    if k == 0 {
      assert Holds(xs, at, ts[0]);
      TaskBack(xs, at, ts[0]);
    } else {
      AllTasksBack(xs, at + all, ts[1..], k - 1);
    }
  }

  lemma RecordsReadBack(ts: seq<Laid>, k: nat)
    requires k < |ts| && forall i :: 0 <= i < |ts| ==> LaidOk(ts[i])
    ensures k < |Frames(ts, 4)|
    ensures var s, task := Conv.PackAll32(Stream(ts)), Frames(ts, 4)[k];
            InStream(s, task) && Records(s, task) == Ok(Found(ts[k].recs, Start(ts[k])))
  {
    hide Conv.PackAll32, Conv.Fits, TasksWords, LaidOk, Records, InStream, Found, Frames;
    assert Stream(ts)[4..] == TasksWords(ts);
    AllTasksBack(Stream(ts), 4, ts, k);
  }
}
