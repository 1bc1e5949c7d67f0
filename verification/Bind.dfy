/** The H13 task stream walk of libane/ane_bind.h: which surface channels the tasks select and how
    many bytes they move. */
module Bind {
  import opened Basics
  import opened H14Bytes

  const FIRST_SURFACE: nat := 4
  const DISABLED: nat := 0x8880
  const MIN_TASK_BYTES: nat := 40

  /** The header fields the walk reads. */
  datatype Anec = Anec(tdSize: nat, tdCount: nat, tiles: seq<nat>, srcCount: nat, dstCount: nat)

  ghost predicate IsAnec(a: Anec) { |a.tiles| == TILE_COUNT }

  // ---- one task ----

  /** A value written to a register. */
  datatype Write = Write(reg: nat, value: nat)

  /** The three surfaces: source 1, source 2, destination. */
  function Config(slot: nat): nat { if slot == 0 then 0x13800 else if slot == 1 then 0x13804 else 0x17800 }

  function Shift(slot: nat): nat { if slot == 0 then 1 else if slot == 1 then 0x40 else 0x1000 }

  /** The two size registers; source 2 has none. */
  predicate IsSize(slot: nat, reg: nat) {
    (slot == 0 && (reg == 0x13814 || reg == 0x13818)) || (slot == 2 && (reg == 0x17810 || reg == 0x17814))
  }

  function Word(s: seq<byte>, off: nat, i: nat): (w: nat)
    requires off + 4 * i + 4 <= |s|
    ensures w < 0x1_0000_0000
  {
    Le32(s, off + 4 * i)
  }

  function Count(header: nat): nat { header / 0x400_0000 + 1 }

  /** The writes of one record: consecutive registers from the base. */
  function RecordWrites(s: seq<byte>, off: nat, i: nat, base: nat, n: nat): seq<Write>
    requires off + 4 * (i + 1 + n) <= |s|
  {
    seq<Write>(n, k requires 0 <= k < n => Write(base + 4 * k, Word(s, off, i + 1 + k)))
  }

  /** The writes of the records from word i of a task of `words` words, or nothing when a record
      leaves the task. */
  function WritesFrom(s: seq<byte>, off: nat, words: nat, i: nat): Option<seq<Write>>
    requires off + 4 * words <= |s|
    decreases words - i
  {
    if i >= words then Some([])
    else
      var header := Word(s, off, i);
      var n := Count(header);
      if i + n >= words then None
      else
        var rest := WritesFrom(s, off, words, i + 1 + n);
        if rest.None? then None else Some(RecordWrites(s, off, i, header % 0x400_0000, n) + rest.value)
  }

  function Writes(s: seq<byte>, off: nat, bytes: nat): Option<seq<Write>>
    requires off + bytes <= |s|
  {
    if bytes < MIN_TASK_BYTES || bytes % 4 != 0 then None
    else WritesFrom(s, off, bytes / 4, if Word(s, off, 9) % 4 == 3 then 11 else 10)
  }

  /** What a slot's configuration register ends up holding. */
  function LastConfig(start: nat, ws: seq<Write>, slot: nat): nat
    decreases |ws|
  {
    if ws == [] then start else LastConfig(if ws[0].reg == Config(slot) then ws[0].value else start, ws[1..], slot)
  }

  /** The largest value written to a slot's size registers. */
  function MaxSize(start: nat, ws: seq<Write>, slot: nat): nat
    decreases |ws|
  {
    if ws == [] then start
    else MaxSize(if IsSize(slot, ws[0].reg) && ws[0].value > start then ws[0].value else start, ws[1..], slot)
  }

  /** The size is a written one, or none was written; and no larger one was. */
  lemma {:induction false} MaxSizeMeans(start: nat, ws: seq<Write>, slot: nat)
    ensures start <= MaxSize(start, ws, slot)
    ensures forall i :: 0 <= i < |ws| && IsSize(slot, ws[i].reg) ==> ws[i].value <= MaxSize(start, ws, slot)
    ensures MaxSize(start, ws, slot) == start
            || exists i :: 0 <= i < |ws| && IsSize(slot, ws[i].reg) && ws[i].value == MaxSize(start, ws, slot)
    decreases |ws|
  {
    hide IsSize;
    if ws != [] {
      var next := if IsSize(slot, ws[0].reg) && ws[0].value > start then ws[0].value else start;
      MaxSizeMeans(next, ws[1..], slot);
      var m := MaxSize(start, ws, slot);
      forall i | 0 <= i < |ws| && IsSize(slot, ws[i].reg)
        ensures ws[i].value <= m
      {
        if i > 0 {
          assert ws[1..][i - 1] == ws[i];
        }
      }
      if m != next {
        var i :| 0 <= i < |ws[1..]| && IsSize(slot, ws[1..][i].reg) && ws[1..][i].value == m;
        assert ws[i + 1] == ws[1..][i];
      } else if next != start {
        assert ws[0].value == m;
      }
    }
  }

  /** A configuration is the last one written, or disabled when none was. */
  lemma {:induction false} LastConfigMeans(start: nat, ws: seq<Write>, slot: nat, i: nat)
    requires i < |ws| && ws[i].reg == Config(slot) && forall k :: i < k < |ws| ==> ws[k].reg != Config(slot)
    ensures LastConfig(start, ws, slot) == ws[i].value
    decreases |ws|
  {
    var next := if ws[0].reg == Config(slot) then ws[0].value else start;
    if i == 0 {
      Unset(next, ws[1..], slot);
    } else {
      LastConfigMeans(next, ws[1..], slot, i - 1);
    }
  }

  lemma {:induction false} Unset(start: nat, ws: seq<Write>, slot: nat)
    requires forall k :: 0 <= k < |ws| ==> ws[k].reg != Config(slot)
    ensures LastConfig(start, ws, slot) == start
    decreases |ws|
  {
    if ws != [] {
      Unset(start, ws[1..], slot);
    }
  }

  /** The configuration and the byte extent of each of the three surfaces. */
  datatype Dma = Dma(config: seq<nat>, extent: seq<nat>)

  ghost predicate DmaIs(d: Dma, ws: seq<Write>) {
    && |d.config| == |d.extent| == 3
    && forall slot :: 0 <= slot < 3 ==>
           d.config[slot] == LastConfig(DISABLED, ws, slot)
           && d.extent[slot] == MaxSize(0, ws, slot)
  }

  /** ... once the writes of `ws` are still to come. */
  ghost predicate Pending(d: Dma, all: seq<Write>, ws: seq<Write>) {
    && |d.config| == |d.extent| == 3
    && forall slot :: 0 <= slot < 3 ==>
         LastConfig(DISABLED, all, slot) == LastConfig(d.config[slot], ws, slot)
           && MaxSize(0, all, slot) == MaxSize(d.extent[slot], ws, slot)
  }

  lemma PendingStep(d: Dma, next: Dma, all: seq<Write>, ws: seq<Write>)
    requires Pending(d, all, ws) && ws != [] && |next.config| == |next.extent| == 3
    requires forall slot :: 0 <= slot < 3 ==>
             next.config[slot] == if ws[0].reg == Config(slot) then ws[0].value else d.config[slot]
    requires forall slot :: 0 <= slot < 3 ==>
               next.extent[slot] == if IsSize(slot, ws[0].reg) && ws[0].value > d.extent[slot] then ws[0].value
                 else d.extent[slot]
    ensures Pending(next, all, ws[1..])
  {
    hide Config, IsSize;
  }

  /** One register write, looked at by all three surfaces. */
  method Note(d: Dma, w: Write) returns (next: Dma)
    requires |d.config| == |d.extent| == 3
    ensures |next.config| == |next.extent| == 3
    ensures forall slot :: 0 <= slot < 3 ==>
            next.config[slot] == if w.reg == Config(slot) then w.value else d.config[slot]
    ensures forall slot :: 0 <= slot < 3 ==>
            next.extent[slot] == if IsSize(slot, w.reg) && w.value > d.extent[slot] then w.value else d.extent[slot]
  {
    next := d;
    for slot := 0 to 3
      invariant |next.config| == |next.extent| == 3
      invariant forall k :: 0 <= k < slot ==> next.config[k] == if w.reg == Config(k) then w.value else d.config[k]
      invariant forall k :: 0 <= k < slot ==>
                next.extent[k] == if IsSize(k, w.reg) && w.value > d.extent[k] then w.value else d.extent[k]
      invariant forall k :: slot <= k < 3 ==> next.config[k] == d.config[k] && next.extent[k] == d.extent[k]
    {
      if w.reg == Config(slot) {
        next := next.(config := next.config[slot := w.value]);
      } else if IsSize(slot, w.reg) && w.value > next.extent[slot] {
        next := next.(extent := next.extent[slot := w.value]);
      }
    }
  }

  /** ane_bind_task_dma. */
  method TaskDma(s: seq<byte>, off: nat, bytes: nat) returns (r: Option<Dma>)
    requires off + bytes <= |s|
    ensures r.Some? <==> Writes(s, off, bytes).Some?
    ensures r.Some? ==> DmaIs(r.value, Writes(s, off, bytes).value)
  {
    hide Pending, LastConfig, MaxSize, Count;
    if bytes < MIN_TASK_BYTES || bytes % 4 != 0 {
      return None;
    }
    var words := bytes / 4;
    var d := Dma([DISABLED, DISABLED, DISABLED], [0, 0, 0]);
    var i := if Word(s, off, 9) % 4 == 3 then 11 else 10;
    ghost var all := Writes(s, off, bytes);
    if all.Some? {
      PendingStart(d, all.value);
    }
    while i < words
      invariant all.Some? <==> WritesFrom(s, off, words, i).Some?
      invariant all.Some? ==> Pending(d, all.value, WritesFrom(s, off, words, i).value)
      invariant |d.config| == |d.extent| == 3
      decreases words - i
    {
      var header := Word(s, off, i);
      var n := Count(header);
      if i + n >= words {
        return None;
      }
      ghost var rest := WritesFrom(s, off, words, i + 1 + n);
      ghost var ahead := if rest.Some? then rest.value else [];
      d := NoteRecord(s, off, i, header % 0x400_0000, n, d, if all.Some? then all.value else [], ahead);
      i := i + 1 + n;
    }
    if all.Some? {
      PendingEnd(d, all.value);
    }
    r := Some(d);
  }

  method NoteRecord(s: seq<byte>, off: nat, i: nat, base: nat, n: nat, start: Dma, ghost all: seq<Write>,
                    ghost ahead: seq<Write>) returns (d: Dma)
    requires off + 4 * (i + 1 + n) <= |s| && |start.config| == |start.extent| == 3
    ensures |d.config| == |d.extent| == 3
    ensures Pending(start, all, RecordWrites(s, off, i, base, n) + ahead) ==> Pending(d, all, ahead)
  {
    hide Pending, Config, IsSize;
    d := start;
    ghost var ws := RecordWrites(s, off, i, base, n);
    assert ws[0..] == ws;
    for k := 0 to n
      invariant |d.config| == |d.extent| == 3
      invariant Pending(start, all, ws + ahead) ==> Pending(d, all, ws[k..] + ahead)
    {
      var w := Write(base + 4 * k, Word(s, off, i + 1 + k));
      var next := Note(d, w);
      if Pending(start, all, ws + ahead) {
        assert (ws[k..] + ahead)[0] == w && (ws[k..] + ahead)[1..] == ws[k + 1..] + ahead;
        PendingStep(d, next, all, ws[k..] + ahead);
      }
      d := next;
    }
    assert ws[n..] + ahead == ahead;
  }

  lemma PendingStart(d: Dma, all: seq<Write>)
    requires d == Dma([DISABLED, DISABLED, DISABLED], [0, 0, 0])
    ensures Pending(d, all, all)
  {
    hide LastConfig, MaxSize;
  }

  lemma PendingEnd(d: Dma, all: seq<Write>)
    requires Pending(d, all, [])
    ensures DmaIs(d, all)
  {
  }

  // ---- the linked tasks ----

  /** What one task says: its surface selectors and its register writes. */
  datatype Selection = Selection(selectors: nat, writes: seq<Write>)

  /** The tasks from `off`, each pointing at the next: word 7 its offset, word 1 its length. */
  function TasksFrom(s: seq<byte>, off: nat, bytes: nat, count: nat): Option<seq<Selection>>
    decreases count
  {
    if bytes < MIN_TASK_BYTES || off > |s| || bytes > |s| - off then None
    else
      var ws := Writes(s, off, bytes);
      if ws.None? then None
      else
        var task := Selection(Word(s, off, 8), ws.value);
        if count <= 1 then Some([task])
        else
          var next := Word(s, off, 7);
          if next % 4 != 0 || next > |s| then None
          else
            var rest := TasksFrom(s, next, NextBytes(s, off), count - 1);
            if rest.None? then None else Some([task] + rest.value)
  }

  function NextBytes(s: seq<byte>, off: nat): nat
    requires off + MIN_TASK_BYTES <= |s|
  {
    (Word(s, off, 1) / 0x1_0000 % 0x200 + 1) * 4
  }

  function Tasks(a: Anec, s: seq<byte>): Option<seq<Selection>> {
    if a.tdCount == 0 then None else TasksFrom(s, 0, a.tdSize, a.tdCount)
  }

  function Channel(selectors: nat, slot: nat): (c: nat)
    ensures c < TILE_COUNT
  {
    selectors / Shift(slot) % 0x20
  }

  /** A live transfer: through which slot, on which surface channel, how many bytes. */
  datatype Transfer = Transfer(slot: nat, channel: nat, bytes: nat)

  /** A slot is live when its configuration is not the disabled word and its selector names a
      surface channel. */
  function SlotTransfers(t: Selection, slot: nat): seq<Transfer>
    requires slot < 3
  {
    var ch := Channel(t.selectors, slot);
    if LastConfig(DISABLED, t.writes, slot) == DISABLED || ch < FIRST_SURFACE then []
    else [Transfer(slot, ch, MaxSize(0, t.writes, slot))]
  }

  function TaskTransfers(t: Selection): seq<Transfer> {
    SlotTransfers(t, 0) + SlotTransfers(t, 1) + SlotTransfers(t, 2)
  }

  /** All live transfers of the tasks, in order. */
  function Transfers(ts: seq<Selection>): seq<Transfer> {
    if ts == [] then [] else Transfers(ts[..|ts| - 1]) + TaskTransfers(ts[|ts| - 1])
  }

  predicate OnSurface(x: Transfer) { FIRST_SURFACE <= x.channel < TILE_COUNT && x.slot < 3 }

  lemma SlotOnSurface(t: Selection, slot: nat)
    requires slot < 3
    ensures |SlotTransfers(t, slot)| <= 1 && forall x :: x in SlotTransfers(t, slot) ==> OnSurface(x)
  {
    hide LastConfig, MaxSize;
  }

  lemma {:induction false} TransfersOn(ts: seq<Selection>)
    ensures forall x :: x in Transfers(ts) ==> OnSurface(x)
  {
    hide SlotTransfers, OnSurface;
    if ts != [] {
      var n := |ts| - 1;
      TransfersOn(ts[..n]);
      SlotOnSurface(ts[n], 0);
      SlotOnSurface(ts[n], 1);
      SlotOnSurface(ts[n], 2);
    }
  }

  /** Some transfer goes out through the channel, or comes in. */
  ghost predicate Names(xs: seq<Transfer>, ch: nat, dst: bool) {
    exists i :: 0 <= i < |xs| && xs[i].channel == ch && (xs[i].slot == 2 <==> dst)
  }

  /** The largest extent of any transfer on the channel is `e`; zero when there is none. */
  ghost predicate IsExtent(xs: seq<Transfer>, ch: nat, e: nat) {
    && (forall i :: 0 <= i < |xs| && xs[i].channel == ch ==> xs[i].bytes <= e)
    && (e > 0 ==> exists i :: 0 <= i < |xs| && xs[i].channel == ch && xs[i].bytes == e)
  }

  /** What the walk fills in. */
  datatype Marks = Marks(isSrc: seq<bool>, isDst: seq<bool>, extent: seq<nat>)

  predicate Sized(m: Marks) { |m.isSrc| == |m.isDst| == |m.extent| == TILE_COUNT }

  ghost predicate MarkIs(a: Anec, xs: seq<Transfer>, m: Marks, ch: nat)
    requires IsAnec(a) && Sized(m) && ch < TILE_COUNT
  {
    && (m.isDst[ch] <==> a.tiles[ch] != 0 && Names(xs, ch, true))
    && (m.isSrc[ch] <==> a.tiles[ch] != 0 && Names(xs, ch, false))
    && IsExtent(xs, ch, m.extent[ch])
  }

  ghost predicate MarksAre(a: Anec, xs: seq<Transfer>, m: Marks)
    requires IsAnec(a)
  {
    Sized(m) && forall ch :: 0 <= ch < TILE_COUNT ==> MarkIs(a, xs, m, ch)
  }

  function Mark(a: Anec, m: Marks, x: Transfer): (r: Marks)
    requires |a.tiles| == TILE_COUNT && Sized(m) && x.channel < TILE_COUNT
    ensures Sized(r)
  {
    var ch := x.channel;
    var m1 := if x.bytes > m.extent[ch] then m.(extent := m.extent[ch := x.bytes]) else m;
    if a.tiles[ch] == 0 then m1
    else if x.slot == 2 then m1.(isDst := m1.isDst[ch := true])
    else m1.(isSrc := m1.isSrc[ch := true])
  }

  lemma NamesStep(xs: seq<Transfer>, x: Transfer, ch: nat, dst: bool)
    ensures Names(xs + [x], ch, dst) <==> Names(xs, ch, dst) || (x.channel == ch && (x.slot == 2 <==> dst))
  {
    var all := xs + [x];
    if Names(all, ch, dst) {
      var i :| 0 <= i < |all| && all[i].channel == ch && (all[i].slot == 2 <==> dst);
      assert i < |xs| ==> xs[i] == all[i];
    }
    if Names(xs, ch, dst) {
      var i :| 0 <= i < |xs| && xs[i].channel == ch && (xs[i].slot == 2 <==> dst);
      assert all[i] == xs[i];
    }
    assert all[|xs|] == x;
  }

  lemma ExtentStep(xs: seq<Transfer>, x: Transfer, ch: nat, e: nat)
    requires IsExtent(xs, ch, e)
    ensures IsExtent(xs + [x], ch, if x.channel == ch && x.bytes > e then x.bytes else e)
  {
    var all := xs + [x];
    var f := if x.channel == ch && x.bytes > e then x.bytes else e;
    assert all[|xs|] == x;
    if f > 0 && f == e {
      var i :| 0 <= i < |xs| && xs[i].channel == ch && xs[i].bytes == e;
      assert all[i] == xs[i];
    }
  }

  lemma MarkStep(a: Anec, xs: seq<Transfer>, m: Marks, x: Transfer)
    requires IsAnec(a) && MarksAre(a, xs, m) && x.channel < TILE_COUNT
    ensures MarksAre(a, xs + [x], Mark(a, m, x))
  {
    hide Names, IsExtent;
    var r := Mark(a, m, x);
    forall ch | 0 <= ch < TILE_COUNT
      ensures MarkIs(a, xs + [x], r, ch)
    {
      assert MarkIs(a, xs, m, ch);
      NamesStep(xs, x, ch, true);
      NamesStep(xs, x, ch, false);
      ExtentStep(xs, x, ch, m.extent[ch]);
    }
  }

  /** The three slots of one task. */
  method MarkTask(a: Anec, start: Marks, selectors: nat, d: Dma, ghost t: Selection, ghost xs: seq<Transfer>)
    returns (m: Marks)
    requires IsAnec(a) && MarksAre(a, xs, start) && DmaIs(d, t.writes) && selectors == t.selectors
    ensures MarksAre(a, xs + TaskTransfers(t), m)
  {
    hide MarksAre, LastConfig, MaxSize, Mark;
    m := start;
    ghost var done := xs;
    SizedMarks(a, xs, m);
    for slot := 0 to 3
      invariant Sized(m) && MarksAre(a, done, m)
      invariant done == xs + (if slot == 0 then [] else if slot == 1 then SlotTransfers(t, 0)
                              else if slot == 2 then SlotTransfers(t, 0) + SlotTransfers(t, 1) else TaskTransfers(t))
    {
      var channel := Channel(selectors, slot);
      if d.config[slot] == DISABLED || channel < FIRST_SURFACE {
        continue;
      }
      var x := Transfer(slot, channel, d.extent[slot]);
      MarkStep(a, done, m, x);
      m := Mark(a, m, x);
      done := done + [x];
    }
  }

  lemma SizedMarks(a: Anec, xs: seq<Transfer>, m: Marks)
    requires IsAnec(a) && MarksAre(a, xs, m)
    ensures Sized(m)
  {
  }

  function After(done: seq<Selection>, r: Option<seq<Selection>>): Option<seq<Selection>> {
    if r.None? then None else Some(done + r.value)
  }

  const CLEAR := Marks(seq(TILE_COUNT, _ => false), seq(TILE_COUNT, _ => false), seq<nat>(TILE_COUNT, _ => 0))

  lemma ClearMarks(a: Anec)
    requires IsAnec(a)
    ensures MarksAre(a, [], CLEAR)
  {
  }

  /** ane_bind_walk: it succeeds exactly when the linked stream walks, and marks exactly what its
      live transfers name. */
  method Walk(a: Anec, s: seq<byte>) returns (r: Option<Marks>)
    requires IsAnec(a)
    ensures r.Some? <==> Tasks(a, s).Some?
    ensures r.Some? ==> MarksAre(a, Transfers(Tasks(a, s).value), r.value)
  {
    hide MarksAre, Writes, DmaIs, TaskTransfers;
    if a.tdCount == 0 {
      return None;
    }
    var off: nat, bytes: nat := 0, a.tdSize;
    var m := CLEAR;
    ClearMarks(a);
    ghost var done: seq<Selection> := [];
    AfterNothing(TasksFrom(s, 0, a.tdSize, a.tdCount));
    var index := 0;
    while true
      invariant index < a.tdCount && Tasks(a, s) == After(done, TasksFrom(s, off, bytes, a.tdCount - index))
      invariant MarksAre(a, Transfers(done), m)
      decreases a.tdCount - index
    {
      if bytes < MIN_TASK_BYTES || off > |s| || bytes > |s| - off {
        return None;
      }
      var d := TaskDma(s, off, bytes);
      if d.None? {
        return None;
      }
      ghost var t := Selection(Word(s, off, 8), Writes(s, off, bytes).value);
      m := MarkTask(a, m, Word(s, off, 8), d.value, t, Transfers(done));
      TransfersGrow(done, t);
      if index + 1 == a.tdCount {
        return Some(m);
      }
      var next := Word(s, off, 7);
      bytes := NextBytes(s, off);
      if next % 4 != 0 || next > |s| {
        return None;
      }
      AfterOne(done, t, TasksFrom(s, next, bytes, a.tdCount - index - 1));
      done := done + [t];
      off := next;
      index := index + 1;
    }
  }

  lemma AfterNothing(r: Option<seq<Selection>>)
    ensures After([], r) == r
  {
    if r.Some? {
      assert [] + r.value == r.value;
    }
  }

  lemma AfterOne(done: seq<Selection>, t: Selection, r: Option<seq<Selection>>)
    ensures After(done + [t], r) == After(done, if r.None? then None else Some([t] + r.value))
  {
    if r.Some? {
      assert done + [t] + r.value == done + ([t] + r.value);
    }
  }

  lemma TransfersGrow(done: seq<Selection>, t: Selection)
    ensures Transfers(done + [t]) == Transfers(done) + TaskTransfers(t)
  {
    hide TaskTransfers;
    assert (done + [t])[..|done|] == done;
  }

  // ---- overrun ----

  function Allocated(a: Anec, shift: nat, ch: nat): nat
    requires |a.tiles| == TILE_COUNT && ch < TILE_COUNT
  {
    a.tiles[ch] * Pow2(shift)
  }

  datatype Overrun = Overrun(channel: nat, need: nat, have: nat)

  ghost predicate Overruns(a: Anec, xs: seq<Transfer>, shift: nat, ch: nat)
    requires IsAnec(a) && ch < TILE_COUNT
  {
    exists i :: 0 <= i < |xs| && xs[i].channel == ch && xs[i].bytes > Allocated(a, shift, ch)
  }

  /** OVERRUN. Reported exactly when the stream walks and some live transfer on a surface channel
      moves more bytes than the channel holds: the lowest such channel, and the largest extent
      any task moves through it. */
  method FindOverrun(a: Anec, s: seq<byte>, shift: nat) returns (r: Option<Overrun>)
    requires IsAnec(a)
    ensures r.Some? <==>
              Tasks(a, s).Some?
              && exists ch :: 0 <= ch < TILE_COUNT && Overruns(a, Transfers(Tasks(a, s).value), shift, ch)
    ensures r.Some? ==>
              && FIRST_SURFACE <= r.value.channel < TILE_COUNT
              && r.value.have == Allocated(a, shift, r.value.channel) < r.value.need
              && Overruns(a, Transfers(Tasks(a, s).value), shift, r.value.channel)
              && IsExtent(Transfers(Tasks(a, s).value), r.value.channel, r.value.need)
              && forall ch :: 0 <= ch < r.value.channel ==> !Overruns(a, Transfers(Tasks(a, s).value), shift, ch)
  {
    hide Overruns, IsExtent, Transfers, Tasks, Allocated;
    var m := Walk(a, s);
    if m.None? {
      return None;
    }
    ghost var xs := Transfers(Tasks(a, s).value);
    LowChannels(a, Tasks(a, s).value, shift);
    for ch := FIRST_SURFACE to TILE_COUNT
      invariant forall k :: 0 <= k < ch ==> !Overruns(a, xs, shift, k)
    {
      var alloc := Allocated(a, shift, ch);
      assert MarkIs(a, xs, m.value, ch);
      ExtentDecides(a, xs, shift, ch, m.value.extent[ch]);
      if m.value.extent[ch] > alloc {
        return Some(Overrun(ch, m.value.extent[ch], alloc));
      }
    }
    return None;
  }

  lemma ExtentDecides(a: Anec, xs: seq<Transfer>, shift: nat, ch: nat, e: nat)
    requires IsAnec(a) && ch < TILE_COUNT && IsExtent(xs, ch, e)
    ensures e > Allocated(a, shift, ch) <==> Overruns(a, xs, shift, ch)
  {
    hide Allocated;
    if e > Allocated(a, shift, ch) {
      var i :| 0 <= i < |xs| && xs[i].channel == ch && xs[i].bytes == e;
    }
  }

  lemma LowChannels(a: Anec, ts: seq<Selection>, shift: nat)
    requires IsAnec(a)
    ensures forall ch :: 0 <= ch < FIRST_SURFACE ==> !Overruns(a, Transfers(ts), shift, ch)
  {
    hide Transfers, Allocated;
    TransfersOn(ts);
    var xs := Transfers(ts);
    forall i | 0 <= i < |xs|
      ensures xs[i].channel >= FIRST_SURFACE
    {
      assert OnSurface(xs[i]);
    }
  }

  /** Source 2 has no decoded size, so only source 1 and destination transfers can overrun. */
  lemma {:induction false} SecondSourceUnmeasured(ws: seq<Write>)
    ensures MaxSize(0, ws, 1) == 0
    decreases |ws|
  {
    if ws != [] {
      SecondSourceUnmeasured(ws[1..]);
    }
  }

  // ---- the role map ----

  datatype Roles = Roles(src: seq<nat>, dst: seq<nat>)

  /** The positional layout, in bytes. */
  function Positional(a: Anec): Roles {
    Roles(seq<nat>(TILE_COUNT, i => (FIRST_SURFACE + a.dstCount + i) % 256),
      seq<nat>(TILE_COUNT, i => (FIRST_SURFACE + i) % 256))
  }

  predicate Surface(a: Anec, ch: nat) {
    FIRST_SURFACE <= ch < TILE_COUNT && |a.tiles| == TILE_COUNT && a.tiles[ch] != 0
  }

  /** What the stream makes of a channel. */
  datatype Role = Destination | Source | Unnamed | NoSurface

  ghost function RoleOf(a: Anec, xs: seq<Transfer>, ch: nat): Role {
    if !Surface(a, ch) then NoSurface
    else if Names(xs, ch, true) then Destination
    else if Names(xs, ch, false) then Source
    else Unnamed
  }

  /** The channels below n of a role, ascending. */
  ghost function OfRole(a: Anec, xs: seq<Transfer>, role: Role, n: nat): seq<nat> {
    if n == 0 then []
    else OfRole(a, xs, role, n - 1) + if RoleOf(a, xs, n - 1) == role then [n - 1] else []
  }

  ghost predicate Ascending(l: seq<nat>) {
    forall i, j :: 0 <= i < j < |l| ==> l[i] < l[j]
  }

  lemma {:induction false} OfRoleMeans(a: Anec, xs: seq<Transfer>, role: Role, n: nat)
    ensures Ascending(OfRole(a, xs, role, n))
    ensures forall ch: nat :: ch in OfRole(a, xs, role, n) <==> ch < n && RoleOf(a, xs, ch) == role
  {
    hide RoleOf;
    if n > 0 {
      OfRoleMeans(a, xs, role, n - 1);
      var before := OfRole(a, xs, role, n - 1);
      assert forall i :: 0 <= i < |before| ==> before[i] in before;
    }
  }

  lemma {:induction false} OfRoleGrows(a: Anec, xs: seq<Transfer>, role: Role, m: nat, n: nat)
    requires m <= n
    ensures |OfRole(a, xs, role, m)| <= |OfRole(a, xs, role, n)|
    ensures OfRole(a, xs, role, n)[..|OfRole(a, xs, role, m)|] == OfRole(a, xs, role, m)
  {
    hide RoleOf;
    if m < n {
      OfRoleGrows(a, xs, role, m, n - 1);
    }
  }

  lemma {:induction false} NoLowRoles(a: Anec, xs: seq<Transfer>, role: Role, n: nat)
    requires role != NoSurface && n <= FIRST_SURFACE
    ensures OfRole(a, xs, role, n) == []
  {
    hide Names;
    if n > 0 {
      NoLowRoles(a, xs, role, n - 1);
      assert RoleOf(a, xs, n - 1) == NoSurface;
    }
  }

  // ---- the map the stream determines ----

  function Missing(count: nat, named: nat): nat { if named < count then count - named else 0 }

  ghost function Need(a: Anec, xs: seq<Transfer>, role: Role): nat {
    Missing(if role == Destination then a.dstCount else a.srcCount, |OfRole(a, xs, role, TILE_COUNT)|)
  }

  /** The stream names no more surfaces than the header counts, and enough allocated channels are left
      for the others. */
  ghost predicate Suffices(a: Anec, xs: seq<Transfer>) {
    && |OfRole(a, xs, Destination, TILE_COUNT)| <= a.dstCount && |OfRole(a, xs, Source, TILE_COUNT)| <= a.srcCount
    && Need(a, xs, Destination) + Need(a, xs, Source) <= |OfRole(a, xs, Unnamed, TILE_COUNT)|
  }

  /** The named destinations, then the first unnamed channels. */
  ghost function DerivedDst(a: Anec, xs: seq<Transfer>): (l: seq<nat>)
    requires Suffices(a, xs)
    ensures |l| == a.dstCount
  {
    OfRole(a, xs, Destination, TILE_COUNT) + OfRole(a, xs, Unnamed, TILE_COUNT)[..Need(a, xs, Destination)]
  }

  /** The named sources, then the unnamed channels after those the destinations took. */
  ghost function DerivedSrc(a: Anec, xs: seq<Transfer>): (l: seq<nat>)
    requires Suffices(a, xs)
    ensures |l| == a.srcCount
  {
    var nd, ns := Need(a, xs, Destination), Need(a, xs, Source);
    OfRole(a, xs, Source, TILE_COUNT) + OfRole(a, xs, Unnamed, TILE_COUNT)[nd..nd + ns]
  }

  ghost predicate Distinct(l: seq<nat>) {
    forall i, j :: 0 <= i < j < |l| ==> l[i] != l[j]
  }

  /** Position i of the derived lists, sources then destinations, holds a channel of this role. */
  lemma DerivedRoles(a: Anec, xs: seq<Transfer>)
    requires Suffices(a, xs)
    ensures forall i :: 0 <= i < a.srcCount ==>
              RoleOf(a, xs, DerivedSrc(a, xs)[i]) == if i < |OfRole(a, xs, Source, TILE_COUNT)| then Source else Unnamed
    ensures forall i :: 0 <= i < a.dstCount ==>
              RoleOf(a, xs, DerivedDst(a, xs)[i]) ==
                if i < |OfRole(a, xs, Destination, TILE_COUNT)| then Destination else Unnamed
  {
    hide RoleOf, OfRole;
    var d, u, v := OfRole(a, xs, Destination, TILE_COUNT), OfRole(a, xs, Unnamed, TILE_COUNT),
      OfRole(a, xs, Source, TILE_COUNT);
    OfRoleMeans(a, xs, Destination, TILE_COUNT);
    OfRoleMeans(a, xs, Source, TILE_COUNT);
    OfRoleMeans(a, xs, Unnamed, TILE_COUNT);
    forall i | 0 <= i < a.srcCount
      ensures RoleOf(a, xs, DerivedSrc(a, xs)[i]) == if i < |v| then Source else Unnamed
    {
      assert DerivedSrc(a, xs)[i] in (if i < |v| then v else u);
    }
    forall i | 0 <= i < a.dstCount
      ensures RoleOf(a, xs, DerivedDst(a, xs)[i]) == if i < |d| then Destination else Unnamed
    {
      assert DerivedDst(a, xs)[i] in (if i < |d| then d else u);
    }
  }

  /** Every channel of the lists is an allocated surface, and every named surface is in its list. */
  lemma DerivedHolds(a: Anec, xs: seq<Transfer>)
    requires Suffices(a, xs)
    ensures forall ch :: ch in DerivedSrc(a, xs) + DerivedDst(a, xs) ==> Surface(a, ch)
    ensures forall ch: nat :: RoleOf(a, xs, ch) == Destination ==> ch in DerivedDst(a, xs)
    ensures forall ch: nat :: RoleOf(a, xs, ch) == Source ==> ch in DerivedSrc(a, xs)
  {
    hide OfRole, RoleOf, Surface, Ascending;
    var d, u := OfRole(a, xs, Destination, TILE_COUNT), OfRole(a, xs, Unnamed, TILE_COUNT);
    var v := OfRole(a, xs, Source, TILE_COUNT);
    OfRoleMeans(a, xs, Destination, TILE_COUNT);
    OfRoleMeans(a, xs, Source, TILE_COUNT);
    OfRoleMeans(a, xs, Unnamed, TILE_COUNT);
    forall ch | ch in DerivedSrc(a, xs) + DerivedDst(a, xs)
      ensures Surface(a, ch)
    {
      assert ch in d || ch in u || ch in v;
      RoleSurface(a, xs, ch);
    }
    forall ch: nat | RoleOf(a, xs, ch) == Destination || RoleOf(a, xs, ch) == Source
      ensures RoleOf(a, xs, ch) == Destination ==> ch in DerivedDst(a, xs)
      ensures RoleOf(a, xs, ch) == Source ==> ch in DerivedSrc(a, xs)
    {
      RoleSurface(a, xs, ch);
    }
  }

  /** An unnamed channel is used only after all lower ones. */
  lemma DerivedFill(a: Anec, xs: seq<Transfer>, low: nat, ch: nat)
    requires Suffices(a, xs) && low < ch && RoleOf(a, xs, low) == RoleOf(a, xs, ch) == Unnamed
    ensures ch in DerivedDst(a, xs) ==> low in DerivedDst(a, xs)
    ensures ch in DerivedSrc(a, xs) ==> low in DerivedDst(a, xs) + DerivedSrc(a, xs)
  {
    hide OfRole, RoleOf, Surface;
    var u := OfRole(a, xs, Unnamed, TILE_COUNT);
    OfRoleMeans(a, xs, Destination, TILE_COUNT);
    OfRoleMeans(a, xs, Source, TILE_COUNT);
    OfRoleMeans(a, xs, Unnamed, TILE_COUNT);
    RoleSurface(a, xs, low);
    RoleSurface(a, xs, ch);
    UnnamedOrder(u, low, ch, Need(a, xs, Destination), Need(a, xs, Source));
  }

  /** THE DERIVED MAP. Every role gets an allocated surface of its own; every surface the stream names is
      in the list of its direction, named ones first and ascending; and an unnamed surface is used only
      after all lower ones. */
  lemma DerivedMap(a: Anec, xs: seq<Transfer>)
    requires Suffices(a, xs)
    ensures var src, dst := DerivedSrc(a, xs), DerivedDst(a, xs);
            && Distinct(src + dst) && (forall ch :: ch in src + dst ==> Surface(a, ch))
            && (forall ch: nat :: RoleOf(a, xs, ch) == Destination ==> ch in dst)
            && (forall ch: nat :: RoleOf(a, xs, ch) == Source ==> ch in src)
            && Ascending(dst[..|OfRole(a, xs, Destination, TILE_COUNT)|])
            && Ascending(src[..|OfRole(a, xs, Source, TILE_COUNT)|])
            && (forall low: nat, ch: nat :: low < ch && RoleOf(a, xs, low) == RoleOf(a, xs, ch) == Unnamed ==>
                  (ch in dst ==> low in dst) && (ch in src ==> low in dst + src))
  {
    hide OfRole, RoleOf, Surface, Distinct, Ascending;
    var src, dst := DerivedSrc(a, xs), DerivedDst(a, xs);
    AllApart(a, xs);
    DerivedHolds(a, xs);
    OfRoleMeans(a, xs, Destination, TILE_COUNT);
    OfRoleMeans(a, xs, Source, TILE_COUNT);
    assert dst[..|OfRole(a, xs, Destination, TILE_COUNT)|] == OfRole(a, xs, Destination, TILE_COUNT);
    assert src[..|OfRole(a, xs, Source, TILE_COUNT)|] == OfRole(a, xs, Source, TILE_COUNT);
    forall low: nat, ch: nat | low < ch && RoleOf(a, xs, low) == RoleOf(a, xs, ch) == Unnamed
      ensures (ch in dst ==> low in dst) && (ch in src ==> low in dst + src)
    {
      DerivedFill(a, xs, low, ch);
    }
  }

  lemma {:induction false} Spread(l: seq<nat>, i: nat, j: nat)
    requires Ascending(l) && i <= j < |l|
    ensures l[i] + (j - i) <= l[j]
    decreases j
  {
    if i < j {
      Spread(l, i, j - 1);
    }
  }

  /** An ascending list is a run from `lo` exactly when its members are. */
  lemma RunIs(l: seq<nat>, lo: nat)
    requires Ascending(l)
    ensures (forall i :: 0 <= i < |l| ==> l[i] == lo + i) <==> forall ch: nat :: ch in l <==> lo <= ch < lo + |l|
  {
    if forall ch: nat :: ch in l <==> lo <= ch < lo + |l| {
      forall i | 0 <= i < |l|
        ensures l[i] == lo + i
      {
        assert l[0] in l && l[|l| - 1] in l;
        Spread(l, 0, i);
        Spread(l, i, |l| - 1);
      }
    }
    if forall i :: 0 <= i < |l| ==> l[i] == lo + i {
      forall ch: nat
        ensures ch in l <==> lo <= ch < lo + |l|
      {
        if lo <= ch < lo + |l| {
          assert l[ch - lo] == ch;
        }
      }
    }
  }

  ghost predicate Starts(l: seq<nat>, all: seq<nat>) { |l| <= |all| && forall i :: 0 <= i < |l| ==> l[i] == all[i] }

  lemma FewRoles(a: Anec, xs: seq<Transfer>, role: Role)
    requires role != NoSurface
    ensures |OfRole(a, xs, role, TILE_COUNT)| <= 28
  {
    hide OfRole, RoleOf, Surface;
    var l := OfRole(a, xs, role, TILE_COUNT);
    OfRoleMeans(a, xs, role, TILE_COUNT);
    if l != [] {
      assert l[0] in l && l[|l| - 1] in l;
      RoleSurface(a, xs, l[0]);
      RoleSurface(a, xs, l[|l| - 1]);
      Spread(l, 0, |l| - 1);
    }
  }

  /** The channels of a role are the n from `lo` on. */
  ghost predicate RoleBlock(a: Anec, xs: seq<Transfer>, role: Role, lo: nat, n: nat) {
    forall ch: nat :: RoleOf(a, xs, ch) == role <==> lo <= ch < lo + n
  }

  lemma RoleRun(a: Anec, xs: seq<Transfer>, role: Role, lo: nat)
    requires role != NoSurface
    ensures var l := OfRole(a, xs, role, TILE_COUNT);
            (forall i :: 0 <= i < |l| ==> l[i] == lo + i) <==> RoleBlock(a, xs, role, lo, |l|)
  {
    hide OfRole, RoleOf;
    var l := OfRole(a, xs, role, TILE_COUNT);
    OfRoleMeans(a, xs, role, TILE_COUNT);
    RunIs(l, lo);
    forall ch: nat
      ensures ch in l <==> RoleOf(a, xs, ch) == role
    {
      RoleSurface(a, xs, ch);
    }
  }

  /** THE POSITIONAL LAYOUT. When the stream names every surface the header counts, the derived map is the positional
      one exactly when the destinations are the channels from 4 on and the sources those right after them. */
  lemma PositionalExactly(a: Anec, xs: seq<Transfer>)
    requires |OfRole(a, xs, Destination, 32)| == a.dstCount && |OfRole(a, xs, Source, 32)| == a.srcCount
    ensures Suffices(a, xs)
    ensures Starts(DerivedDst(a, xs), Positional(a).dst) && Starts(DerivedSrc(a, xs), Positional(a).src) <==>
              && RoleBlock(a, xs, Destination, 4, a.dstCount)
              && RoleBlock(a, xs, Source, 4 + a.dstCount, a.srcCount)
  {
    hide OfRole, RoleOf, RoleBlock;
    var d, v := OfRole(a, xs, Destination, TILE_COUNT), OfRole(a, xs, Source, TILE_COUNT);
    FewRoles(a, xs, Destination);
    FewRoles(a, xs, Source);
    assert DerivedDst(a, xs) == d && DerivedSrc(a, xs) == v;
    RoleRun(a, xs, Destination, 4);
    RoleRun(a, xs, Source, 4 + a.dstCount);
    PositionalRuns(a, d);
    PositionalRuns(a, v);
  }

  lemma PositionalRuns(a: Anec, l: seq<nat>)
    requires |l| <= 28
    ensures Starts(l, Positional(a).dst) <==> forall i :: 0 <= i < |l| ==> l[i] == 4 + i
    ensures a.dstCount <= 28 ==>
              (Starts(l, Positional(a).src) <==> forall i :: 0 <= i < |l| ==> l[i] == 4 + a.dstCount + i)
  {
    var dst, src := Positional(a).dst, Positional(a).src;
    assert forall i :: 0 <= i < |l| ==> dst[i] == 4 + i;
    assert a.dstCount <= 28 ==> forall i :: 0 <= i < |l| ==> src[i] == 4 + a.dstCount + i;
  }

  lemma RoleSurface(a: Anec, xs: seq<Transfer>, ch: nat)
    ensures RoleOf(a, xs, ch) != NoSurface <==> Surface(a, ch)
    ensures Surface(a, ch) ==> FIRST_SURFACE <= ch < TILE_COUNT
  {
    hide Names;
  }

  lemma UnnamedOrder(u: seq<nat>, low: nat, ch: nat, nd: nat, ns: nat)
    requires Ascending(u) && low in u && ch in u && low < ch && nd + ns <= |u|
    ensures ch in u[..nd] ==> low in u[..nd]
    ensures ch in u[nd..nd + ns] ==> low in u[..nd + ns]
    ensures forall x :: x in u[..nd + ns] <==> x in u[..nd] || x in u[nd..nd + ns]
  {
    var i :| 0 <= i < |u| && u[i] == low;
    var j :| 0 <= j < |u| && u[j] == ch;
    assert u[..nd + ns] == u[..nd] + u[nd..nd + ns];
    if ch in u[..nd] {
      assert u[..nd][i] == low;
    }
    if ch in u[nd..nd + ns] {
      var k :| 0 <= k < ns && u[nd..nd + ns][k] == ch;
      assert u[nd + k] == ch && j == nd + k;
      assert u[..nd + ns][i] == low;
    }
  }

  lemma AllApart(a: Anec, xs: seq<Transfer>)
    requires Suffices(a, xs)
    ensures Distinct(DerivedSrc(a, xs) + DerivedDst(a, xs))
  {
    hide OfRole, RoleOf;
    var d, u, v := OfRole(a, xs, Destination, TILE_COUNT), OfRole(a, xs, Unnamed, TILE_COUNT),
      OfRole(a, xs, Source, TILE_COUNT);
    OfRoleMeans(a, xs, Destination, TILE_COUNT);
    OfRoleMeans(a, xs, Source, TILE_COUNT);
    OfRoleMeans(a, xs, Unnamed, TILE_COUNT);
    DerivedRoles(a, xs);
    var nd, src, dst := Need(a, xs, Destination), DerivedSrc(a, xs), DerivedDst(a, xs);
    var l := src + dst;
    forall i, j | 0 <= i < j < |l|
      ensures l[i] != l[j]
    {
      if i < |src| {
        assert l[i] == src[i] && (i >= |v| ==> src[i] == u[nd + i - |v|]);
      } else {
        assert l[i] == dst[i - |src|] && (i - |src| >= |d| ==> dst[i - |src|] == u[i - |src| - |d|]);
      }
      if j < |src| {
        assert l[j] == src[j] && (j >= |v| ==> src[j] == u[nd + j - |v|]);
      } else {
        assert l[j] == dst[j - |src|] && (j - |src| >= |d| ==> dst[j - |src|] == u[j - |src| - |d|]);
      }
    }
  }

  // ---- deriving it ----

  lemma MarkedRole(a: Anec, xs: seq<Transfer>, m: Marks, ch: nat)
    requires IsAnec(a) && MarksAre(a, xs, m) && FIRST_SURFACE <= ch < TILE_COUNT
    ensures RoleOf(a, xs, ch) == (if m.isDst[ch] then Destination else if m.isSrc[ch] then Source
                                  else if a.tiles[ch] != 0 then Unnamed else NoSurface)
  {
    hide Names, IsExtent;
    assert MarkIs(a, xs, m, ch);
  }

  /** The channels the stream names. */
  method Named(a: Anec, m: Marks, ghost xs: seq<Transfer>) returns (src: seq<nat>, dst: seq<nat>)
    requires IsAnec(a) && MarksAre(a, xs, m)
    ensures src == OfRole(a, xs, Source, TILE_COUNT) && dst == OfRole(a, xs, Destination, TILE_COUNT)
  {
    hide MarksAre, RoleOf;
    SizedMarks(a, xs, m);
    src, dst := [], [];
    NoLowRoles(a, xs, Source, FIRST_SURFACE);
    NoLowRoles(a, xs, Destination, FIRST_SURFACE);
    for ch := FIRST_SURFACE to TILE_COUNT
      invariant src == OfRole(a, xs, Source, ch) && dst == OfRole(a, xs, Destination, ch)
    {
      MarkedRole(a, xs, m, ch);
      if m.isDst[ch] {
        dst := dst + [ch];
      } else if m.isSrc[ch] {
        src := src + [ch];
      }
    }
  }

  /** The unnamed channels seen so far, dealt out: destinations first, then sources. */
  ghost predicate Dealt(u: seq<nat>, nd: nat, ns: nat, src0: seq<nat>, dst0: seq<nat>, src: seq<nat>, dst: seq<nat>) {
    && |u| <= nd + ns
    && dst == dst0 + (if |u| <= nd then u else u[..nd])
    && src == src0 + (if |u| <= nd then [] else u[nd..])
  }

  lemma DealOne(u: seq<nat>, nd: nat, ns: nat, src0: seq<nat>, dst0: seq<nat>, src: seq<nat>, dst: seq<nat>, ch: nat)
    requires Dealt(u, nd, ns, src0, dst0, src, dst) && |u| < nd + ns
    ensures if |u| < nd then Dealt(u + [ch], nd, ns, src0, dst0, src, dst + [ch])
            else Dealt(u + [ch], nd, ns, src0, dst0, src + [ch], dst)
  {
    if |u| < nd {
      assert dst0 + u + [ch] == dst0 + (u + [ch]);
    } else if |u| == nd {
      assert (u + [ch])[..nd] == u && (u + [ch])[nd..] == [ch];
    } else {
      assert (u + [ch])[..nd] == u[..nd] && (u + [ch])[nd..] == u[nd..] + [ch];
      assert src0 + u[nd..] + [ch] == src0 + (u[nd..] + [ch]);
    }
  }

  /** Unnamed surfaces take the first unused allocated channels, destinations first. */
  method Fill(a: Anec, m: Marks, src0: seq<nat>, dst0: seq<nat>, ghost xs: seq<Transfer>)
    returns (src: seq<nat>, dst: seq<nat>)
    requires IsAnec(a) && MarksAre(a, xs, m)
    requires src0 == OfRole(a, xs, Source, TILE_COUNT) && dst0 == OfRole(a, xs, Destination, TILE_COUNT)
    ensures |src| == a.srcCount && |dst| == a.dstCount <==> Suffices(a, xs)
    ensures Suffices(a, xs) ==> src == DerivedSrc(a, xs) && dst == DerivedDst(a, xs)
  {
    hide MarksAre, RoleOf, OfRole, Dealt;
    SizedMarks(a, xs, m);
    src, dst := src0, dst0;
    ghost var nd, ns := Need(a, xs, Destination), Need(a, xs, Source);
    var ch := FIRST_SURFACE;
    NoLowRoles(a, xs, Unnamed, FIRST_SURFACE);
    NoneDealt(nd, ns, src, dst);
    while ch < TILE_COUNT && (|dst| < a.dstCount || |src| < a.srcCount)
      invariant FIRST_SURFACE <= ch <= TILE_COUNT
      invariant Dealt(OfRole(a, xs, Unnamed, ch), nd, ns, src0, dst0, src, dst)
    {
      MarkedRole(a, xs, m, ch);
      NextUnnamed(a, xs, ch);
      if !m.isDst[ch] && !m.isSrc[ch] && a.tiles[ch] != 0 {
        ghost var u := OfRole(a, xs, Unnamed, ch);
        DealtSizes(u, nd, ns, src0, dst0, src, dst);
        DealOne(u, nd, ns, src0, dst0, src, dst, ch);
        if |dst| < a.dstCount {
          dst := dst + [ch];
        } else {
          src := src + [ch];
        }
      }
      ch := ch + 1;
    }
    ghost var u := OfRole(a, xs, Unnamed, ch);
    DealtSizes(u, nd, ns, src0, dst0, src, dst);
    OfRoleGrows(a, xs, Unnamed, ch, TILE_COUNT);
    if Suffices(a, xs) {
      AllDealt(u, OfRole(a, xs, Unnamed, TILE_COUNT), nd, ns, src0, dst0, src, dst);
    }
  }

  lemma NextUnnamed(a: Anec, xs: seq<Transfer>, ch: nat)
    ensures OfRole(a, xs, Unnamed, ch + 1) ==
            if RoleOf(a, xs, ch) == Unnamed then OfRole(a, xs, Unnamed, ch) + [ch] else OfRole(a, xs, Unnamed, ch)
  {
  }

  lemma NoneDealt(nd: nat, ns: nat, src: seq<nat>, dst: seq<nat>)
    ensures Dealt([], nd, ns, src, dst, src, dst)
  {
  }

  lemma DealtSizes(u: seq<nat>, nd: nat, ns: nat, src0: seq<nat>, dst0: seq<nat>, src: seq<nat>, dst: seq<nat>)
    requires Dealt(u, nd, ns, src0, dst0, src, dst)
    ensures |u| <= nd + ns
    ensures |dst| == |dst0| + (if |u| <= nd then |u| else nd) && |src| == |src0| + (if |u| <= nd then 0 else |u| - nd)
  {
  }

  lemma AllDealt(u: seq<nat>, all: seq<nat>, nd: nat, ns: nat, src0: seq<nat>, dst0: seq<nat>, src: seq<nat>,
                 dst: seq<nat>)
    requires Dealt(u, nd, ns, src0, dst0, src, dst) && |u| == nd + ns <= |all| && all[..|u|] == u
    ensures dst == dst0 + all[..nd] && src == src0 + all[nd..nd + ns]
  {
    assert u[..nd] == all[..nd] && u[nd..] == all[nd..nd + ns];
  }

  /** ROLE MAP. The map is derived exactly when the counts fit the arrays, the stream walks, it names no
      more surfaces than the header counts and enough allocated channels are left; it is then the map
      the stream determines, in the leading entries. Otherwise it is the positional one. */
  method Init(a: Anec, s: seq<byte>) returns (derived: bool, roles: Roles)
    requires IsAnec(a)
    ensures derived <==>
              a.srcCount <= TILE_COUNT && a.dstCount <= TILE_COUNT && Tasks(a, s).Some?
              && Suffices(a, Transfers(Tasks(a, s).value))
    ensures !derived ==> roles == Positional(a)
    ensures derived ==>
              var xs := Transfers(Tasks(a, s).value);
              roles == Roles(DerivedSrc(a, xs) + Positional(a).src[a.srcCount..],
                DerivedDst(a, xs) + Positional(a).dst[a.dstCount..])
  {
    hide Transfers, Tasks, MarksAre, Suffices, DerivedSrc, DerivedDst;
    roles := Positional(a);
    if a.srcCount > TILE_COUNT || a.dstCount > TILE_COUNT {
      return false, roles;
    }
    var m := Walk(a, s);
    if m.None? {
      return false, roles;
    }
    ghost var xs := Transfers(Tasks(a, s).value);
    var src, dst := Named(a, m.value, xs);
    src, dst := Fill(a, m.value, src, dst, xs);
    if |src| != a.srcCount || |dst| != a.dstCount {
      return false, roles;
    }
    roles := Roles(src + roles.src[|src|..], dst + roles.dst[|dst|..]);
    derived := true;
  }
}
