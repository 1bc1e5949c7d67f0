/** The linked H13 task stream, written out: libane/ane_bind.h walks back exactly the tasks a stream was laid out
    from, and reads their selectors and surface registers at the bits they were put at. */
module BindStream {
  import opened Basics
  import opened H14Bytes
  import opened Bind
  import Conv = H14Convert

  /** Consecutive values from a base register on, 1 to 64 of them. */
  datatype Burst = Burst(base: nat, values: seq<nat>)

  /** A task: its selector word, its register bursts, and whether an extra header word precedes them. */
  datatype Laid = Laid(selectors: nat, bursts: seq<Burst>, extra: bool)

  predicate BurstOk(b: Burst) { b.base < 0x400_0000 && 1 <= |b.values| <= 64 && Conv.Fits(b.values, 0x1_0000_0000) }

  ghost predicate LaidOk(t: Laid) {
    && t.selectors < 0x1_0000_0000 && (forall i :: 0 <= i < |t.bursts| ==> BurstOk(t.bursts[i])) && Length(t) <= 512
  }

  // ---- laying out ----

  /** A burst: the count less one above bit 26, the base below, then the values. */
  function BurstWords(b: Burst): seq<nat>
    requires BurstOk(b)
  {
    [(|b.values| - 1) * 0x400_0000 + b.base] + b.values
  }

  function BurstsLength(bs: seq<Burst>): nat {
    if bs == [] then 0 else 1 + |bs[0].values| + BurstsLength(bs[1..])
  }

  ghost function BurstsWords(bs: seq<Burst>): (xs: seq<nat>)
    requires forall i :: 0 <= i < |bs| ==> BurstOk(bs[i])
    ensures |xs| == BurstsLength(bs) && Conv.Fits(xs, 0x1_0000_0000)
  {
    if bs == [] then [] else BurstWords(bs[0]) + BurstsWords(bs[1..])
  }

  /** The words of a task. */
  function Length(t: Laid): nat { (if t.extra then 11 else 10) + BurstsLength(t.bursts) }

  /** Word 1 holds the next task's length less one from bit 16 on, word 7 its byte offset, word 8 the selectors;
      word 9 announces the extra word. */
  ghost function TaskWords(t: Laid, next: nat, nextLength: nat): (xs: seq<nat>)
    requires LaidOk(t) && next < 0x1_0000_0000 && 1 <= nextLength <= 512
    ensures |xs| == Length(t) && Conv.Fits(xs, 0x1_0000_0000)
  {
    [0, (nextLength - 1) * 0x1_0000, 0, 0, 0, 0, 0, next, t.selectors, if t.extra then 3 else 0]
    + (if t.extra then [0] else []) + BurstsWords(t.bursts)
  }

  function StreamLength(ts: seq<Laid>): nat { if ts == [] then 0 else Length(ts[0]) + StreamLength(ts[1..]) }

  ghost predicate StreamLaid(ts: seq<Laid>, at: nat) {
    (forall i :: 0 <= i < |ts| ==> LaidOk(ts[i])) && 4 * (at + StreamLength(ts)) < 0x1_0000_0000
  }

  /** The tasks one after another from word `at` on, each pointing at the next. */
  ghost function StreamWords(ts: seq<Laid>, at: nat): (xs: seq<nat>)
    requires StreamLaid(ts, at)
    ensures |xs| == StreamLength(ts) && Conv.Fits(xs, 0x1_0000_0000)
    decreases |ts|
  {
    if ts == [] then []
    else
      var n := Length(ts[0]);
      TaskWords(ts[0], 4 * (at + n), if |ts| > 1 then Length(ts[1]) else 1) + StreamWords(ts[1..], at + n)
  }

  // ---- what the walk should find ----

  function BurstWrites(b: Burst): seq<Write> {
    seq<Write>(|b.values|, k requires 0 <= k < |b.values| => Write(b.base + 4 * k, b.values[k]))
  }

  function AllWrites(bs: seq<Burst>): seq<Write> {
    if bs == [] then [] else BurstWrites(bs[0]) + AllWrites(bs[1..])
  }

  function Selections(ts: seq<Laid>): seq<Selection> {
    seq(|ts|, i requires 0 <= i < |ts| => Selection(ts[i].selectors, AllWrites(ts[i].bursts)))
  }

  // ---- and does ----

  lemma WordBack(xs: seq<nat>, at: nat, i: nat)
    requires Conv.Fits(xs, 0x1_0000_0000) && at + i < |xs|
    ensures 4 * at + 4 * i + 4 <= |Conv.PackAll32(xs)| && Word(Conv.PackAll32(xs), 4 * at, i) == xs[at + i]
  {
    hide Conv.PackAll32, Conv.Fits, Le32;
    Conv.Word32Back(xs, at + i);
    assert 4 * at + 4 * i == 4 * (at + i);
  }

  lemma HeaderBack(b: Burst)
    requires BurstOk(b)
    ensures var h := (|b.values| - 1) * 0x400_0000 + b.base; Count(h) == |b.values| && h % 0x400_0000 == b.base
  {
  }

  lemma PartAt(xs: seq<nat>, from: nat, to: nat, j: nat)
    requires from + j < to <= |xs|
    ensures xs[from..to][j] == xs[from + j]
  {
  }

  /** One burst at word i of a task. */
  lemma BurstBack(xs: seq<nat>, at: nat, i: nat, b: Burst)
    requires Conv.Fits(xs, 0x1_0000_0000) && BurstOk(b) && at + i + 1 + |b.values| <= |xs|
    requires xs[at + i..at + i + 1 + |b.values|] == BurstWords(b)
    ensures var s, n := Conv.PackAll32(xs), |b.values|;
            && 4 * at + 4 * (i + 1 + n) <= |s| && Count(Word(s, 4 * at, i)) == n
            && Word(s, 4 * at, i) % 0x400_0000 == b.base
            && RecordWrites(s, 4 * at, i, b.base, n) == BurstWrites(b)
  {
    hide Conv.PackAll32, Conv.Fits, Word, Count, BurstOk, BurstWords;
    var s, n := Conv.PackAll32(xs), |b.values|;
    BurstIs(b);
    HeaderBack(b);
    WordBack(xs, at, i);
    PartAt(xs, at + i, at + i + 1 + n, 0);
    WordBack(xs, at, i + n);
    forall k | 0 <= k < n
      ensures Word(s, 4 * at, i + 1 + k) == b.values[k]
    {
      WordBack(xs, at, i + 1 + k);
      PartAt(xs, at + i, at + i + 1 + n, 1 + k);
    }
  }

  lemma {:induction false} WritesBack(xs: seq<nat>, at: nat, words: nat, i: nat, bs: seq<Burst>)
    requires Conv.Fits(xs, 0x1_0000_0000) && i <= words && at + words <= |xs|
    requires forall k :: 0 <= k < |bs| ==> BurstOk(bs[k])
    requires xs[at + i..at + words] == BurstsWords(bs)
    ensures 4 * at + 4 * words <= |Conv.PackAll32(xs)|
    ensures WritesFrom(Conv.PackAll32(xs), 4 * at, words, i) == Some(AllWrites(bs))
    decreases |bs|
  {
    hide Conv.PackAll32, Conv.Fits, Word, Count, BurstOk, BurstWords, RecordWrites, BurstWrites;
    if bs != [] {
      var n, part := |bs[0].values|, xs[at + i..at + words];
      BurstIs(bs[0]);
      assert part[..1 + n] == xs[at + i..at + i + 1 + n] && part[1 + n..] == xs[at + (i + 1 + n)..at + words];
      BurstBack(xs, at, i, bs[0]);
      WritesBack(xs, at, words, i + 1 + n, bs[1..]);
    }
  }

  lemma BurstIs(b: Burst)
    requires BurstOk(b)
    ensures |b.values| >= 1 && |BurstWords(b)| == 1 + |b.values|
    ensures BurstWords(b)[0] == (|b.values| - 1) * 0x400_0000 + b.base
    ensures forall k :: 0 <= k < |b.values| ==> BurstWords(b)[1 + k] == b.values[k]
  {
  }

  /** A task at word `at` of the stream. */
  ghost predicate Holds(xs: seq<nat>, at: nat, t: Laid, next: nat, nextLength: nat)
    requires LaidOk(t) && next < 0x1_0000_0000 && 1 <= nextLength <= 512
  {
    at + Length(t) <= |xs| && xs[at..at + Length(t)] == TaskWords(t, next, nextLength)
  }

  lemma FieldsBack(xs: seq<nat>, at: nat, t: Laid, next: nat, nextLength: nat)
    requires Conv.Fits(xs, 0x1_0000_0000) && LaidOk(t) && next < 0x1_0000_0000 && 1 <= nextLength <= 512
    requires Holds(xs, at, t, next, nextLength)
    ensures var s := Conv.PackAll32(xs);
            && 4 * at + 40 <= |s| && Word(s, 4 * at, 7) == next && Word(s, 4 * at, 8) == t.selectors
            && Word(s, 4 * at, 9) == (if t.extra then 3 else 0) && NextBytes(s, 4 * at) == 4 * nextLength
  {
    hide Conv.PackAll32, Conv.Fits, Word;
    var ys := TaskWords(t, next, nextLength);
    TaskIs(t, next, nextLength);
    PartAt(xs, at, at + Length(t), 1);
    PartAt(xs, at, at + Length(t), 7);
    PartAt(xs, at, at + Length(t), 8);
    PartAt(xs, at, at + Length(t), 9);
    WordBack(xs, at, 1);
    WordBack(xs, at, 7);
    WordBack(xs, at, 8);
    WordBack(xs, at, 9);
    assert ys[1] / 0x1_0000 % 0x200 == nextLength - 1;
  }

  lemma TaskIs(t: Laid, next: nat, nextLength: nat)
    requires LaidOk(t) && next < 0x1_0000_0000 && 1 <= nextLength <= 512
    ensures var ys, start := TaskWords(t, next, nextLength), if t.extra then 11 else 10;
            && |ys| == Length(t) >= start && ys[1] == (nextLength - 1) * 0x1_0000 && ys[7] == next
            && ys[8] == t.selectors && ys[9] == (if t.extra then 3 else 0) && ys[start..] == BurstsWords(t.bursts)
  {
  }

  lemma TaskBack(xs: seq<nat>, at: nat, t: Laid, next: nat, nextLength: nat)
    requires Conv.Fits(xs, 0x1_0000_0000) && LaidOk(t) && next < 0x1_0000_0000 && 1 <= nextLength <= 512
    requires Holds(xs, at, t, next, nextLength)
    ensures 4 * at + 4 * Length(t) <= |Conv.PackAll32(xs)|
    ensures Writes(Conv.PackAll32(xs), 4 * at, 4 * Length(t)) == Some(AllWrites(t.bursts))
  {
    hide Conv.PackAll32, Conv.Fits, Word, WritesFrom;
    var start, n := if t.extra then 11 else 10, Length(t);
    FieldsBack(xs, at, t, next, nextLength);
    TaskIs(t, next, nextLength);
    assert xs[at..at + n][start..] == xs[at + start..at + n];
    WritesBack(xs, at, n, start, t.bursts);
  }

  lemma {:induction false} TasksBack(xs: seq<nat>, at: nat, ts: seq<Laid>)
    requires Conv.Fits(xs, 0x1_0000_0000) && ts != [] && StreamLaid(ts, at) && at <= |xs|
    requires xs[at..] == StreamWords(ts, at)
    ensures TasksFrom(Conv.PackAll32(xs), 4 * at, 4 * Length(ts[0]), |ts|) == Some(Selections(ts))
    decreases |ts|
  {
    hide Conv.PackAll32, Conv.Fits, Word, Writes, TaskWords, NextBytes, LaidOk, AllWrites;
    var n, rest := Length(ts[0]), ts[1..];
    var next, nextLength := 4 * (at + n), if |ts| > 1 then Length(ts[1]) else 1;
    assert LaidOk(ts[0]) && (|ts| > 1 ==> LaidOk(ts[1]));
    Lengths(ts[0]);
    if |ts| > 1 {
      Lengths(ts[1]);
    }
    assert xs[at..][..n] == xs[at..at + n] && xs[at..][n..] == xs[at + n..];
    assert Holds(xs, at, ts[0], next, nextLength);
    FieldsBack(xs, at, ts[0], next, nextLength);
    TaskBack(xs, at, ts[0], next, nextLength);
    var first := Selection(ts[0].selectors, AllWrites(ts[0].bursts));
    if |ts| > 1 {
      TasksBack(xs, at + n, rest);
      assert Selections(ts) == [first] + Selections(rest);
    } else {
      assert Selections(ts) == [first];
    }
  }

  lemma Lengths(t: Laid)
    requires LaidOk(t)
    ensures 10 <= Length(t) <= 512
  {
  }

  /** THE STREAM READS BACK. However many tasks are laid out, with or without extra header words and with bursts of any
      length, the walk finds exactly their selectors and register writes, in order. */
  lemma StreamBack(ts: seq<Laid>, a: Anec)
    requires ts != [] && StreamLaid(ts, 0) && a.tdSize == 4 * Length(ts[0]) && a.tdCount == |ts|
    ensures Tasks(a, Conv.PackAll32(StreamWords(ts, 0))) == Some(Selections(ts))
  {
    hide Conv.PackAll32, TasksFrom, StreamWords;
    var xs := StreamWords(ts, 0);
    assert xs[0..] == xs;
    TasksBack(xs, 0, ts);
  }

  // ---- selectors and registers ----

  /** Source 1 is selected by bits 4:0 of the selector word, source 2 by bits 10:6, the destination by bits 16:12. */
  lemma SelectorBits(src1: nat, src2: nat, dst: nat, bit5: nat, bit11: nat, high: nat)
    requires src1 < 32 && src2 < 32 && dst < 32 && bit5 < 2 && bit11 < 2
    ensures var w := src1 + 0x20 * bit5 + 0x40 * src2 + 0x800 * bit11 + 0x1000 * dst + 0x2_0000 * high;
            Channel(w, 0) == src1 && Channel(w, 1) == src2 && Channel(w, 2) == dst
  {
    var w := src1 + 0x20 * bit5 + 0x40 * src2 + 0x800 * bit11 + 0x1000 * dst + 0x2_0000 * high;
    var a, b := bit5 + 2 * (src2 + 0x20 * (bit11 + 2 * (dst + 0x20 * high))), bit11 + 2 * (dst + 0x20 * high);
    assert w == src1 + 0x20 * a && w == (src1 + 0x20 * bit5) + 0x40 * (src2 + 0x20 * b);
    assert w == (src1 + 0x20 * bit5 + 0x40 * src2 + 0x800 * bit11) + 0x1000 * (dst + 0x20 * high);
    LowBits(src1, a);
    LowBits(src2, b);
    LowBits(dst, high);
    Above6(src1 + 0x20 * bit5, src2 + 0x20 * b);
    Above12(src1 + 0x20 * bit5 + 0x40 * src2 + 0x800 * bit11, dst + 0x20 * high);
  }

  lemma LowBits(x: nat, y: nat)
    requires x < 0x20
    ensures (x + 0x20 * y) % 0x20 == x
  {
  }

  lemma Above6(x: nat, y: nat)
    requires x < 0x40
    ensures (x + 0x40 * y) / 0x40 == y
  {
  }

  lemma Above12(x: nat, y: nat)
    requires x < 0x1000
    ensures (x + 0x1000 * y) / 0x1000 == y
  {
  }

  /** The two selector words of the proven programs: destination on channel 4, sources on 5 and 6 either way. */
  lemma KnownSelectors()
    ensures Channel(0x2_4966, 2) == 4 && Channel(0x2_4966, 0) == 6 && Channel(0x2_4966, 1) == 5
    ensures Channel(0x2_49a5, 2) == 4 && Channel(0x2_49a5, 0) == 5 && Channel(0x2_49a5, 1) == 6
  {
  }

  /** The last write to a register is not the disabled word. */
  ghost predicate Enabled(ws: seq<Write>, reg: nat) {
    exists i :: 0 <= i < |ws| && ws[i].reg == reg && ws[i].value != 0x8880
      && forall k :: i < k < |ws| ==> ws[k].reg != reg
  }

  /** The largest value written to one of two registers, 0 when none is. */
  ghost predicate Largest(ws: seq<Write>, a: nat, b: nat, e: nat) {
    && (forall i :: 0 <= i < |ws| && (ws[i].reg == a || ws[i].reg == b) ==> ws[i].value <= e)
    && (e == 0 || exists i :: 0 <= i < |ws| && (ws[i].reg == a || ws[i].reg == b) && ws[i].value == e)
  }

  lemma {:induction false} LastWrite(ws: seq<Write>, reg: nat, n: nat) returns (i: nat)
    requires n <= |ws| && exists k :: 0 <= k < n && ws[k].reg == reg
    ensures i < n && ws[i].reg == reg && forall k :: i < k < n ==> ws[k].reg != reg
  {
    if ws[n - 1].reg == reg {
      i := n - 1;
    } else {
      i := LastWrite(ws, reg, n - 1);
    }
  }

  lemma EnabledIs(ws: seq<Write>, slot: nat)
    ensures LastConfig(DISABLED, ws, slot) != DISABLED <==> Enabled(ws, Config(slot))
  {
    hide LastConfig, Config;
    if exists k :: 0 <= k < |ws| && ws[k].reg == Config(slot) {
      var i := LastWrite(ws, Config(slot), |ws|);
      LastConfigMeans(DISABLED, ws, slot, i);
    } else {
      Unset(DISABLED, ws, slot);
    }
  }

  /** THE REGISTERS OF THE SURFACES. Source 1 is configured by register 0x13800 and sized by 0x13814 and 0x13818,
      source 2 configured by 0x13804 and not sized, the destination configured by 0x17800 and sized by
      0x17810 and 0x17814. A surface is moved exactly when its configuration was last written with anything
      but 0x8880 and its five selector bits name a channel from 4 on. */
  lemma LiveSurface(t: Selection, x: Transfer)
    ensures x in SlotTransfers(t, 0) <==>
              && x.slot == 0 && Enabled(t.writes, 0x1_3800) && x.channel == t.selectors % 32 >= 4
              && Largest(t.writes, 0x1_3814, 0x1_3818, x.bytes)
    ensures x in SlotTransfers(t, 1) <==>
              && x.slot == 1 && Enabled(t.writes, 0x1_3804) && x.channel == t.selectors / 0x40 % 32 >= 4 && x.bytes == 0
    ensures x in SlotTransfers(t, 2) <==>
              && x.slot == 2 && Enabled(t.writes, 0x1_7800) && x.channel == t.selectors / 0x1000 % 32 >= 4
              && Largest(t.writes, 0x1_7810, 0x1_7814, x.bytes)
  {
    hide LastConfig, MaxSize, Enabled, Largest;
    EnabledIs(t.writes, 0);
    EnabledIs(t.writes, 1);
    EnabledIs(t.writes, 2);
    LargestIs(t.writes, 0, 0x1_3814, 0x1_3818, x.bytes);
    LargestIs(t.writes, 2, 0x1_7810, 0x1_7814, x.bytes);
    SecondSourceUnmeasured(t.writes);
  }

  lemma LargestIs(ws: seq<Write>, slot: nat, a: nat, b: nat, e: nat)
    requires (slot == 0 && a == 0x1_3814 && b == 0x1_3818) || (slot == 2 && a == 0x1_7810 && b == 0x1_7814)
    ensures Largest(ws, a, b, e) <==> e == MaxSize(0, ws, slot)
  {
    MaxSizeMeans(0, ws, slot);
    hide MaxSize;
    assert forall reg :: IsSize(slot, reg) <==> reg == a || reg == b;
    hide IsSize;
    var m := MaxSize(0, ws, slot);
    if Largest(ws, a, b, e) {
      if e > 0 {
        var i :| 0 <= i < |ws| && (ws[i].reg == a || ws[i].reg == b) && ws[i].value == e;
        assert IsSize(slot, ws[i].reg);
      }
      if m > 0 {
        var i :| 0 <= i < |ws| && IsSize(slot, ws[i].reg) && ws[i].value == m;
      }
    }
  }
}
