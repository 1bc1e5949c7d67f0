/** tools/hwx_ports.py: the port table derived from an HWX, against the bound check of the
    builder (check_bound_slots) on the same stream. */
module H14PortTable {
  import opened Basics
  import opened H14Bytes
  import opened H14Stream
  import opened H14Records
  import opened H14Sort
  import opened H14Ports
  import opened H14Build

  const TILE_BYTES: nat := 0x4000

  datatype Tensor = Tensor(name: string, binding: nat, outputSymbol: bool, fp16: bool, surfaceBytes: nat)

  /** The parts of a parsed HWX the port derivation uses: one IOVA per BAR slot, the length of
      the section at an address, the tensor name at an address, and the tensor descriptors. */
  datatype Hwx = Hwx(slots: seq<nat>, lengths: map<nat, nat>, names: map<nat, string>, tensors: seq<Tensor>)

  /** One derived port and the allocation behind it. */
  datatype Entry = Entry(port: Port, allocation: nat)

  datatype Derived<+T> = Done(value: T) | Raised

  function RoundUp(n: nat): (r: nat)
    ensures n <= r < n + TILE_BYTES && r % TILE_BYTES == 0
  {
    (n + TILE_BYTES - 1) / TILE_BYTES * TILE_BYTES
  }

  function OfBinding(tensors: seq<Tensor>, binding: nat): seq<Tensor> {
    if tensors == [] then []
    else
      var n := |tensors| - 1;
      var before := OfBinding(tensors[..n], binding);
      if tensors[n].binding == binding then before + [tensors[n]] else before
  }

  /** The first output, the inputs, the other outputs: channels 4, 5, ... */
  function ChannelOrder(tensors: seq<Tensor>): seq<Tensor> {
    var outs := OfBinding(tensors, 2);
    if outs == [] then OfBinding(tensors, 1) else [outs[0]] + OfBinding(tensors, 1) + outs[1..]
  }

  function IndexOf(ts: seq<Tensor>, name: string): (i: nat)
    ensures i <= |ts| && (i < |ts| ==> ts[i].name == name)
  {
    if ts == [] then 0 else if ts[0].name == name then 0 else 1 + IndexOf(ts[1..], name)
  }

  // ---- the derivation ----

  /** The port of one io slot, or an error. `tiles` are the package's 32 tile counts. */
  function SlotEntry(hwx: Hwx, tiles: seq<nat>, slot: nat): Derived<Entry>
    requires slot < |hwx.slots|
  {
    var address := hwx.slots[slot];
    if address !in hwx.names then Raised else
    var k := IndexOf(hwx.tensors, hwx.names[address]);
    if k == |hwx.tensors| then Raised else
    var t := hwx.tensors[k];
    if t.outputSymbol != (t.binding == 2) || (t.binding != 1 && t.binding != 2) || !t.fp16 then Raised else
    if address !in hwx.lengths then Raised else
    var order := ChannelOrder(hwx.tensors);
    var channel := 4 + IndexOf(order, t.name);
    if channel - 4 == |order| || channel >= |tiles| then Raised else
    Done(Entry(Port(if t.binding == 2 then 1 else 0, channel, slot, tiles[channel] * TILE_BYTES), hwx.lengths[address]))
  }

  /** The io ports of slots 4 .. n - 1. */
  function IoEntries(hwx: Hwx, tiles: seq<nat>, n: nat): Derived<seq<Entry>>
    requires n <= |hwx.slots|
  {
    if n <= 4 then Done([])
    else
      var before := IoEntries(hwx, tiles, n - 1);
      if before.Raised? then before
      else
        var e := SlotEntry(hwx, tiles, n - 1);
        if e.Raised? then Raised else Done(before.value + [e.value])
  }

  /** All ports: the io slots, then the scratch of slot 3 when the program has one. */
  function Entries(hwx: Hwx, tiles: seq<nat>): Derived<seq<Entry>>
    requires |hwx.slots| >= 4
  {
    var io := IoEntries(hwx, tiles, |hwx.slots|);
    if io.Raised? || |io.value| != |hwx.tensors| then Raised
    else if hwx.slots[3] == 0 then io
    else if hwx.slots[3] !in hwx.lengths then Raised
    else
      var allocation := hwx.lengths[hwx.slots[3]];
      Done(io.value + [Entry(Port(2, SCRATCH_BUFID, 3, RoundUp(allocation)), allocation)])
  }

  function PortsOf(es: seq<Entry>): seq<Port> {
    seq(|es|, i requires 0 <= i < |es| => es[i].port)
  }

  method DeriveEntries(hwx: Hwx, tiles: seq<nat>) returns (r: Derived<seq<Entry>>)
    requires |hwx.slots| >= 4
    ensures r == Entries(hwx, tiles)
  {
    hide SlotEntry;
    r := Done([]);
    for slot := 4 to |hwx.slots|
      invariant r == IoEntries(hwx, tiles, slot)
    {
      if r.Done? {
        var e := SlotEntry(hwx, tiles, slot);
        r := if e.Raised? then Raised else Done(r.value + [e.value]);
      }
    }
    if r.Raised? || |r.value| != |hwx.tensors| {
      return Raised;
    }
    if hwx.slots[3] != 0 {
      if hwx.slots[3] !in hwx.lengths {
        return Raised;
      }
      var allocation := hwx.lengths[hwx.slots[3]];
      r := Done(r.value + [Entry(Port(2, SCRATCH_BUFID, 3, RoundUp(allocation)), allocation)]);
    }
  }

  // ---- the slot uses ----

  function Note(uses: map<nat, nat>, rec: Record): map<nat, nat>
    requires |rec.payload| >= 1
  {
    if !IsBarRef(rec.header) then uses
    else
      var slot, off := Slot(rec.header), Offset(rec.payload);
      uses[slot := if slot in uses && uses[slot] >= off then uses[slot] else off]
  }

  /** The largest offset per BAR slot, record by record. */
  ghost function NoteAll(uses: map<nat, nat>, rs: seq<Record>): map<nat, nat>
    requires Payloaded(rs)
    decreases |rs|
  {
    if rs == [] then uses else NoteAll(Note(uses, rs[0]), rs[1..])
  }

  /** Noting more only raises offsets. */
  lemma {:induction false} NoteAllGrows(uses: map<nat, nat>, rs: seq<Record>, slot: nat)
    requires Payloaded(rs) && slot in uses
    ensures slot in NoteAll(uses, rs) && uses[slot] <= NoteAll(uses, rs)[slot]
    decreases |rs|
  {
    if rs != [] {
      NoteAllGrows(Note(uses, rs[0]), rs[1..], slot);
    }
  }

  /** Every reference is at most the noted largest offset of its slot. */
  lemma {:induction false} NoteAllCovers(uses: map<nat, nat>, rs: seq<Record>, i: nat)
    requires Payloaded(rs) && i < |rs| && IsBarRef(rs[i].header)
    ensures Slot(rs[i].header) in NoteAll(uses, rs) && Offset(rs[i].payload) <= NoteAll(uses, rs)[Slot(rs[i].header)]
    decreases |rs|
  {
    if i == 0 {
      NoteAllGrows(Note(uses, rs[0]), rs[1..], Slot(rs[0].header));
    } else {
      NoteAllCovers(Note(uses, rs[0]), rs[1..], i - 1);
    }
  }

  /** And every noted offset was there before or is the offset of a reference to that slot. */
  lemma {:induction false} NoteAllReached(uses: map<nat, nat>, rs: seq<Record>, slot: nat)
    requires Payloaded(rs) && slot in NoteAll(uses, rs)
    ensures (slot in uses && NoteAll(uses, rs)[slot] == uses[slot])
            || exists i :: 0 <= i < |rs| && IsBarRef(rs[i].header) && Slot(rs[i].header) == slot
                           && Offset(rs[i].payload) == NoteAll(uses, rs)[slot]
    decreases |rs|
  {
    if rs != [] {
      NoteAllReached(Note(uses, rs[0]), rs[1..], slot);
      var top, r := NoteAll(uses, rs)[slot], rs[1..];
      if i :| 0 <= i < |r| && IsBarRef(r[i].header) && Slot(r[i].header) == slot && Offset(r[i].payload) == top {
        assert rs[i + 1] == r[i];
      }
    }
  }

  lemma {:induction false} NoteAllConcat(uses: map<nat, nat>, a: seq<Record>, b: seq<Record>)
    requires Payloaded(a) && Payloaded(b)
    ensures Payloaded(a + b) && NoteAll(uses, a + b) == NoteAll(NoteAll(uses, a), b)
    decreases |a|
  {
    if a == [] {
      assert a + b == b;
    } else {
      NoteAllConcat(Note(uses, a[0]), a[1..], b);
      assert (a + b)[1..] == a[1..] + b && (a + b)[0] == a[0];
    }
  }

  // ---- the task walk ----

  /** The words of a reference the tool looks at: the first, and the second when there is one. */
  function RefWords(n: nat): nat { if n > 1 then 2 else 1 }

  /** task_records on one task, from word `at` on. Payloads are not checked against the task's end;
      a reference that lacks a word it needs raises. */
  function Scanned(s: seq<byte>, t: Task, at: nat, uses: map<nat, nat>): Derived<map<nat, nat>>
    requires InStream(s, t)
    decreases t.words - at
  {
    if at >= t.words then Done(uses)
    else
      var h := Word(s, t, at);
      var n := PayloadCount(h);
      if !IsBarRef(h) then Scanned(s, t, at + 1 + n, uses)
      else if at + 1 + RefWords(n) > t.words then Raised
      else Scanned(s, t, at + 1 + n, Note(uses, Record(at, h, Payload(s, t, at, RefWords(n)))))
  }

  /** task_records: the tasks from `off` on. No gap is looked at and no frame end is clamped; a short
      read raises. */
  function Walked(s: seq<byte>, off: nat): Derived<seq<Task>>
    decreases |s| - off
  {
    if off >= |s| then Done([])
    else if off + 4 > |s| then Raised
    else
      var words := WordCount(s, off);
      if words == 0 then Walked(s, off + FRAME_BYTES)
      else if off + 4 * words > |s| || words < 8 then Raised
      else
        var rest := Walked(s, RoundUp16(off + 4 * words));
        if rest.Raised? then Raised else Done([Task(off, words)] + rest.value)
  }

  /** The slot uses from `off` on: each task is scanned as the walk reaches it. */
  function Uses(s: seq<byte>, off: nat, uses: map<nat, nat>): Derived<map<nat, nat>>
    decreases |s| - off
  {
    if off >= |s| then Done(uses)
    else if off + 4 > |s| then Raised
    else
      var words := WordCount(s, off);
      if words == 0 then Uses(s, off + FRAME_BYTES, uses)
      else if off + 4 * words > |s| || words < 8 then Raised
      else
        var t := Task(off, words);
        var more := Scanned(s, t, FirstRecord(s, t), uses);
        if more.Raised? then Raised else Uses(s, RoundUp16(off + 4 * words), more.value)
  }

  method ScanTask(s: seq<byte>, t: Task, start: map<nat, nat>) returns (r: Derived<map<nat, nat>>)
    requires InStream(s, t)
    ensures r == Scanned(s, t, FirstRecord(s, t), start)
  {
    hide Note, Offset, Slot, IsBarRef, PayloadCount;
    var uses := start;
    var at := FirstRecord(s, t);
    while at < t.words
      invariant Scanned(s, t, at, uses) == Scanned(s, t, FirstRecord(s, t), start)
      decreases t.words - at
    {
      var h := Word(s, t, at);
      var n := PayloadCount(h);
      if IsBarRef(h) {
        if at + 1 + RefWords(n) > t.words {
          return Raised;
        }
        uses := Note(uses, Record(at, h, Payload(s, t, at, RefWords(n))));
      }
      at := at + 1 + n;
    }
    r := Done(uses);
  }

  method ScanUses(s: seq<byte>) returns (r: Derived<map<nat, nat>>)
    ensures r == Uses(s, 0, map[])
  {
    hide Scanned, WordCount, RoundUp16;
    var uses: map<nat, nat>, off := map[], 0;
    while off < |s|
      invariant Uses(s, off, uses) == Uses(s, 0, map[])
      decreases |s| - off
    {
      if off + 4 > |s| {
        return Raised;
      }
      var words := WordCount(s, off);
      if words == 0 {
        off := off + FRAME_BYTES;
        continue;
      }
      if off + 4 * words > |s| || words < 8 {
        return Raised;
      }
      var more := ScanTask(s, Task(off, words), uses);
      if more.Raised? {
        return Raised;
      }
      uses, off := more.value, RoundUp16(off + 4 * words);
    }
    r := Done(uses);
  }

  /** The stream ends one to three bytes into a frame. */
  predicate Ragged(size: nat) { 1 <= size % 16 <= 3 }

  /** Rounding up stays below a ragged end. */
  lemma RaggedAbove(size: nat, n: nat)
    requires Ragged(size) && n <= size && n % 4 == 0
    ensures RoundUp16(n) < size
  {
    var k, r := size / 16, RoundUp16(n);
    assert size == 16 * k + size % 16;
    var m := n / 4;
    assert n == 4 * m && m <= 4 * k;
    assert r == 16 * (r / 16);
  }

  /** A whole frame lies before a ragged end. */
  lemma RaggedFrame(size: nat, off: nat)
    requires Ragged(size) && off % 16 == 0 && off + 4 <= size
    ensures off + FRAME_BYTES < size
  {
    var k, q := size / 16, off / 16;
    assert size == 16 * k + size % 16 && off == 16 * q;
    assert q < k;
  }

  lemma FrameSteps(size: nat, off: nat, words: nat)
    requires off % 16 == 0 && off + 4 <= size
    ensures off + FRAME_BYTES < size ==> Min(off + FRAME_BYTES, size) == off + FRAME_BYTES
    ensures off + FRAME_BYTES >= size ==> Min(off + FRAME_BYTES, size) == size
    ensures Ragged(size) ==> off + FRAME_BYTES < size
    ensures var next := RoundUp16(off + 4 * words);
            && next % 16 == 0 && (next < size ==> FrameEnd(size, off, words) == next)
            && (next >= size ==> FrameEnd(size, off, words) == size)
            && (words > 0 ==> off < next) && (off + 4 * words <= size && Ragged(size) ==> next < size)
  {
    hide Ragged, RoundUp16;
    if Ragged(size) {
      RaggedFrame(size, off);
      if off + 4 * words <= size {
        WordAligned(off, words);
        RaggedAbove(size, off + 4 * words);
      }
    }
  }

  lemma WordAligned(off: nat, words: nat)
    requires off % 16 == 0
    ensures (off + 4 * words) % 4 == 0
  {
    var k := 4 * (off / 16) + words;
    assert off + 4 * words == 4 * k;
  }

  /** One step of the C splitter that succeeds, at a filler frame and at a task. */
  lemma SplitStep(s: seq<byte>, off: nat, cap: nat)
    requires Split(s, off, cap).Ok? && off + 4 <= |s|
    ensures var words := WordCount(s, off);
            if words == 0 then Split(s, Min(off + FRAME_BYTES, |s|), cap) == Split(s, off, cap)
            else
              && 8 <= words && off + 4 * words <= |s| && cap > 0
              && var rest := Split(s, FrameEnd(|s|, off, words), cap - 1);
                 rest.Ok? && Split(s, off, cap).value == [Task(off, words)] + rest.value
  {
    hide WordCount, Zeros, FrameEnd, Min;
  }

  lemma WalkStep(s: seq<byte>, off: nat)
    requires off + 4 <= |s|
    ensures var words := WordCount(s, off);
            && (words == 0 ==> Walked(s, off) == Walked(s, off + FRAME_BYTES))
            && (8 <= words && off + 4 * words <= |s| ==>
                  var rest := Walked(s, RoundUp16(off + 4 * words));
                  Walked(s, off) == if rest.Raised? then Raised else Done([Task(off, words)] + rest.value))
  {
    hide WordCount, RoundUp16;
  }

  lemma SplitShort(s: seq<byte>, off: nat, cap: nat)
    requires Split(s, off, cap).Ok? && off + 4 > |s|
    ensures Split(s, off, cap).value == [] && (off >= |s| ==> Walked(s, off) == Done([]))
    ensures off < |s| ==> Walked(s, off).Raised?
  {
  }

  /** THE THIRD WALKER. Wherever the C splitter succeeds, task_records sees the same tasks, unless the
      stream ends one to three bytes into a frame, where it always raises. */
  lemma {:induction false} WalkMeetsSplit(s: seq<byte>, off: nat, cap: nat)
    requires Split(s, off, cap).Ok? && (off % 16 == 0 || off >= |s|)
    ensures !Ragged(|s|) ==> Walked(s, off) == Done(Split(s, off, cap).value)
    ensures Ragged(|s|) && off < |s| ==> Walked(s, off).Raised?
    decreases |s| - off
  {
    hide WordCount, Zeros, RoundUp16, FrameEnd, Min, Ragged, Split, Walked;
    if off + 4 <= |s| {
      var words := WordCount(s, off);
      FrameSteps(|s|, off, words);
      SplitStep(s, off, cap);
      WalkStep(s, off);
      if words == 0 {
        WalkMeetsSplit(s, Min(off + FRAME_BYTES, |s|), cap);
        PastTheEnd(s, off + FRAME_BYTES);
      } else {
        WalkMeetsSplit(s, FrameEnd(|s|, off, words), cap - 1);
        PastTheEnd(s, RoundUp16(off + 4 * words));
      }
    } else {
      SplitShort(s, off, cap);
      if off < |s| {
        RaggedEnd(|s|, off);
      }
    }
  }

  lemma RaggedEnd(size: nat, off: nat)
    requires off % 16 == 0 && off < size < off + 4
    ensures Ragged(size)
  {
  }

  lemma PastTheEnd(s: seq<byte>, off: nat)
    ensures off >= |s| ==> Walked(s, off) == Done([]) == Walked(s, |s|)
  {
  }

  lemma {:induction false} ScannedNotes(s: seq<byte>, t: Task, at: nat, uses: map<nat, nat>)
    requires InStream(s, t) && RecordsFrom(s, t, at).Ok?
    ensures Scanned(s, t, at, uses) == Done(NoteAll(uses, RecordsFrom(s, t, at).value))
    decreases t.words - at
  {
    hide Slot, IsBarRef, PayloadCount;
    if at < t.words {
      var h := Word(s, t, at);
      var n := PayloadCount(h);
      var rec, short := Record(at, h, Payload(s, t, at, n)), Record(at, h, Payload(s, t, at, RefWords(n)));
      var rest := RecordsFrom(s, t, at + 1 + n).value;
      assert ([rec] + rest)[0] == rec && ([rec] + rest)[1..] == rest;
      assert Offset(rec.payload) == Offset(short.payload);
      ScannedNotes(s, t, at + 1 + n, Note(uses, rec));
    }
  }

  lemma {:induction false} RecordsCons(s: seq<byte>, t: Task, ts: seq<Task>)
    requires RecordsFit(s, [t] + ts)
    ensures InStream(s, t) && Records(s, t).Ok? && RecordsFit(s, ts)
    ensures AllRecords(s, [t] + ts) == Records(s, t).value + AllRecords(s, ts)
    decreases |ts|
  {
    hide Records;
    var all := [t] + ts;
    assert all[0] == t;
    forall i | 0 <= i < |ts|
      ensures InStream(s, ts[i]) && Records(s, ts[i]).Ok?
    {
      assert all[i + 1] == ts[i];
    }
    if ts == [] {
      assert all == [t] && all[..0] == [];
    } else {
      var n := |ts| - 1;
      assert all[..|all| - 1] == [t] + ts[..n] && all[|all| - 1] == ts[n];
      RecordsCons(s, t, ts[..n]);
    }
  }

  /** Where the tool gets through, it walked every task; when the records fit, it noted all of them. */
  lemma {:induction false} UsesNotes(s: seq<byte>, off: nat, uses: map<nat, nat>)
    requires Uses(s, off, uses).Done?
    ensures Walked(s, off).Done?
    ensures RecordsFit(s, Walked(s, off).value) ==>
            Uses(s, off, uses) == Done(NoteAll(uses, AllRecords(s, Walked(s, off).value)))
    decreases |s| - off
  {
    hide WordCount, RoundUp16, Scanned, Records;
    if off < |s| {
      var words := WordCount(s, off);
      if words == 0 {
        UsesNotes(s, off + FRAME_BYTES, uses);
      } else {
        var t, next := Task(off, words), RoundUp16(off + 4 * words);
        var more := Scanned(s, t, FirstRecord(s, t), uses).value;
        UsesNotes(s, next, more);
        var rest := Walked(s, next).value;
        if RecordsFit(s, [t] + rest) {
          RecordsCons(s, t, rest);
          TaskNoted(s, t, uses);
          NoteAllConcat(uses, Records(s, t).value, AllRecords(s, rest));
        }
      }
    }
  }

  lemma TaskNoted(s: seq<byte>, t: Task, uses: map<nat, nat>)
    requires InStream(s, t) && Records(s, t).Ok?
    ensures Scanned(s, t, FirstRecord(s, t), uses) == Done(NoteAll(uses, Records(s, t).value))
  {
    ScannedNotes(s, t, FirstRecord(s, t), uses);
  }

  // ---- the exceptions that concern a binding ----

  /** A port's BO is its whole allocation rounded up, and holds it. */
  predicate SizedRight(e: Entry) {
    e.port.tileBytes == RoundUp(e.allocation) && e.allocation <= e.port.tileBytes
  }

  /** The slot is bound, and its largest offset lies inside the allocation. */
  predicate Contained(es: seq<Entry>, krn: nat, slot: nat, offset: nat) {
    || (slot == 1 && offset < krn)
    || exists i :: 0 <= i < |es| && es[i].port.slot == slot && offset < es[i].allocation
  }

  /** derive_program reports none of its size, binding, offset and never-referenced exceptions. */
  ghost predicate NoExceptions(es: seq<Entry>, uses: map<nat, nat>, krn: nat) {
    && (forall i :: 0 <= i < |es| ==> SizedRight(es[i]) && es[i].port.slot in uses)
    && (forall slot :: slot in uses ==> Contained(es, krn, slot, uses[slot]))
  }

  // ---- the shape of a derived table ----

  /** Slots ascend from 4 with the scratch slot 3 last; one channel has one size. */
  ghost predicate TableShape(es: seq<Entry>, tiles: seq<nat>) {
    && (forall i, j :: 0 <= i < j < |es| ==> es[i].port.slot != es[j].port.slot)
    && (forall i :: 0 <= i < |es| ==> EntryShape(es[i], tiles))
  }

  predicate EntryShape(e: Entry, tiles: seq<nat>) {
    && e.port.slot >= 3
    && (e.port.dir == 2 ==> e.port.slot == 3 && e.port.bufferId == SCRATCH_BUFID)
    && (e.port.dir != 2 ==> e.port.dir <= 1 && e.port.slot >= 4 && 4 <= e.port.bufferId < |tiles|)
    && (e.port.dir != 2 ==> e.port.tileBytes == tiles[e.port.bufferId] * TILE_BYTES)
  }

  lemma {:induction false} IoEntriesShape(hwx: Hwx, tiles: seq<nat>, n: nat)
    requires n <= |hwx.slots| && IoEntries(hwx, tiles, n).Done?
    ensures var es := IoEntries(hwx, tiles, n).value;
            && |es| == (if n <= 4 then 0 else n - 4)
            && forall i :: 0 <= i < |es| ==> es[i].port.slot == 4 + i && es[i].port.dir <= 1 && EntryShape(es[i], tiles)
  {
    if n > 4 {
      IoEntriesShape(hwx, tiles, n - 1);
    }
  }

  lemma EntriesShape(hwx: Hwx, tiles: seq<nat>)
    requires |hwx.slots| >= 4 && Entries(hwx, tiles).Done?
    ensures TableShape(Entries(hwx, tiles).value, tiles)
  {
    hide EntryShape;
    IoEntriesShape(hwx, tiles, |hwx.slots|);
    assert forall a: nat :: EntryShape(Entry(Port(2, SCRATCH_BUFID, 3, RoundUp(a)), a),
      tiles) by { ScratchShape(tiles); }
  }

  lemma ScratchShape(tiles: seq<nat>)
    ensures forall a: nat :: EntryShape(Entry(Port(2, SCRATCH_BUFID, 3, RoundUp(a)), a), tiles)
  {
  }

  // ---- producer meets checker ----

  /** An id all of whose io records have one size denotes that size. */
  lemma {:induction false} CommonSize(ios: seq<Io>, krn: nat, tag: nat, size: nat)
    requires forall k :: 0 <= k < |ios| && ios[k].bufferId == tag ==> ios[k].size == size
    requires exists k :: 0 <= k < |ios| && ios[k].bufferId == tag
    ensures TagSize(ios, krn, tag) == size
  {
    var n := |ios| - 1;
    if ios[n].bufferId != tag {
      var k :| 0 <= k < |ios| && ios[k].bufferId == tag;
      assert ios[..n][k].bufferId == tag;
      CommonSize(ios[..n], krn, tag, size);
    }
  }

  /** The port an io record comes from. */
  lemma IoOrigin(ports: seq<Port>, k: nat) returns (i: nat)
    requires k < |IoTable(ports)|
    ensures i < |ports| && IoTable(ports)[k] == IoOf(ports[i])
  {
    var a, b := |OfDir(ports, 0)|, |OfDir(ports, 0)| + |OfDir(ports, 1)|;
    var p := if k < a then OfDir(ports, 0)[k] else if k < b then OfDir(ports, 1)[k - a] else OfDir(ports, 2)[k - b];
    assert p in ports && IoTable(ports)[k] == IoOf(p);
    i :| 0 <= i < |ports| && ports[i] == p;
  }

  /** The io record of a port. */
  lemma IoOfPort(ports: seq<Port>, i: nat) returns (k: nat)
    requires i < |ports| && ports[i].dir <= 2
    ensures k < |IoTable(ports)| && IoTable(ports)[k] == IoOf(ports[i])
  {
    var d := ports[i].dir;
    var j :| 0 <= j < |OfDir(ports, d)| && OfDir(ports, d)[j] == ports[i];
    k := if d == 0 then j else if d == 1 then |OfDir(ports, 0)| + j else |OfDir(ports, 0)| + |OfDir(ports, 1)| + j;
  }

  /** Two entries of one id have one size. */
  lemma SameIdSameSize(es: seq<Entry>, tiles: seq<nat>, i: nat, j: nat)
    requires TableShape(es, tiles) && |tiles| == 32 && i < |es| && j < |es|
             && es[i].port.bufferId == es[j].port.bufferId
    ensures es[i].port.tileBytes == es[j].port.tileBytes
  {
    assert EntryShape(es[i], tiles) && EntryShape(es[j], tiles);
  }

  lemma EntryTagSize(es: seq<Entry>, tiles: seq<nat>, krn: nat, i: nat)
    requires TableShape(es, tiles) && |tiles| == 32 && i < |es|
    ensures TagSize(IoTable(PortsOf(es)), krn, es[i].port.bufferId) == es[i].port.tileBytes
  {
    hide IoTable, TagSize, TableShape;
    var ports := PortsOf(es);
    var ios := IoTable(ports);
    forall k: nat | k < |ios| && ios[k].bufferId == es[i].port.bufferId
      ensures ios[k].size == es[i].port.tileBytes
    {
      var j := IoOrigin(ports, k);
      SameIdSameSize(es, tiles, j, i);
    }
    EntryDir(es, tiles, i);
    var k := IoOfPort(ports, i);
    CommonSize(ios, krn, es[i].port.bufferId, es[i].port.tileBytes);
  }

  lemma EntryDir(es: seq<Entry>, tiles: seq<nat>, i: nat)
    requires TableShape(es, tiles) && i < |es|
    ensures es[i].port.dir <= 2 && es[i].port.bufferId != KERNEL_TAG && es[i].port.slot >= 3
  {
    assert EntryShape(es[i], tiles);
  }

  lemma KernelTagSize(es: seq<Entry>, tiles: seq<nat>, krn: nat)
    requires TableShape(es, tiles) && |tiles| == 32
    ensures TagSize(IoTable(PortsOf(es)), krn, KERNEL_TAG) == krn
  {
    hide IoTable, TagSize, TableShape;
    var ports := PortsOf(es);
    forall k: nat | k < |IoTable(ports)|
      ensures IoTable(ports)[k].bufferId != KERNEL_TAG
    {
      var j := IoOrigin(ports, k);
      EntryDir(es, tiles, j);
    }
    NoIoOfKernel(IoTable(ports), krn);
  }

  lemma {:induction false} NoIoOfKernel(ios: seq<Io>, krn: nat)
    requires forall k :: 0 <= k < |ios| ==> ios[k].bufferId != KERNEL_TAG
    ensures TagSize(ios, krn, KERNEL_TAG) == krn
  {
    if ios != [] {
      NoIoOfKernel(ios[..|ios| - 1], krn);
    }
  }

  lemma TableSlots(es: seq<Entry>, tiles: seq<nat>)
    requires TableShape(es, tiles)
    ensures DistinctSlots(PortRefs(PortsOf(es)))
  {
    hide EntryShape;
    var refs := PortRefs(PortsOf(es));
    forall i, j | 0 <= i < j < |refs|
      ensures refs[i].slot != refs[j].slot
    {
      EntryDir(es, tiles, j - 1);
    }
  }

  /** The slot is bound to a buffer that holds the offset. */
  ghost predicate BoundAt(refs: seq<Ref>, ios: seq<Io>, krn: nat, slot: nat, offset: nat) {
    SlotRef(refs, slot).Ok? && offset < TagSize(ios, krn, SlotRef(refs, slot).value.tag)
  }

  ghost predicate AllBoundAt(refs: seq<Ref>, ios: seq<Io>, krn: nat, uses: map<nat, nat>) {
    forall slot :: slot in uses ==> BoundAt(refs, ios, krn, slot, uses[slot])
  }

  lemma BoundUses(s: seq<byte>, ts: seq<Task>, refs: seq<Ref>, ios: seq<Io>, krn: nat, slot: nat)
    requires RecordsFit(s, ts) && TasksBound(s, ts, refs, ios, krn) && slot in NoteAll(map[], AllRecords(s, ts))
    ensures BoundAt(refs, ios, krn, slot, NoteAll(map[], AllRecords(s, ts))[slot])
  {
    hide NoteAll, AllRecords, Records, TagSize, SlotRef, IsBarRef, Slot, Offset;
    var all := AllRecords(s, ts);
    NoteAllReached(map[], all, slot);
    var a: nat :| a < |all| && IsBarRef(all[a].header) && Slot(all[a].header) == slot
      && Offset(all[a].payload) == NoteAll(map[], all)[slot];
    RecordOrigin(s, ts, all[a]);
    var i: nat :| i < |ts| && all[a] in Records(s, ts[i]).value;
    var k: nat :| k < |Records(s, ts[i]).value| && Records(s, ts[i]).value[k] == all[a];
    assert TaskBound(s, ts[i], refs, ios, krn);
  }

  lemma UsesBound(s: seq<byte>, ts: seq<Task>, refs: seq<Ref>, ios: seq<Io>, krn: nat, i: nat)
    requires RecordsFit(s, ts) && AllBoundAt(refs, ios, krn, NoteAll(map[], AllRecords(s, ts))) && i < |ts|
    ensures InStream(s, ts[i]) && TaskBound(s, ts[i], refs, ios, krn)
  {
    hide NoteAll, AllRecords, Records, TagSize, SlotRef, IsBarRef, Slot, Offset;
    var all := AllRecords(s, ts);
    var rs, uses := Records(s, ts[i]).value, NoteAll(map[], all);
    forall k | 0 <= k < |rs| && IsBarRef(rs[k].header)
      ensures Bound(refs, ios, krn, rs[k])
    {
      AllRecordsHolds(s, ts, i, rs[k]);
      var a :| 0 <= a < |all| && all[a] == rs[k];
      NoteAllCovers(map[], all, a);
      assert BoundAt(refs, ios, krn, Slot(rs[k].header), uses[Slot(rs[k].header)]);
    }
  }

  /** The bound check of the builder is a check of the largest offset of every slot. */
  lemma BoundByUses(s: seq<byte>, ts: seq<Task>, refs: seq<Ref>, ios: seq<Io>, krn: nat)
    requires RecordsFit(s, ts)
    ensures TasksBound(s, ts, refs, ios, krn) <==> AllBoundAt(refs, ios, krn, NoteAll(map[], AllRecords(s, ts)))
  {
    hide NoteAll, AllRecords, Records, BoundAt, TaskBound;
    var uses := NoteAll(map[], AllRecords(s, ts));
    if TasksBound(s, ts, refs, ios, krn) {
      forall slot | slot in uses
        ensures BoundAt(refs, ios, krn, slot, uses[slot])
      {
        BoundUses(s, ts, refs, ios, krn, slot);
      }
    }
    if AllBoundAt(refs, ios, krn, uses) {
      forall i | 0 <= i < |ts|
        ensures InStream(s, ts[i]) && TaskBound(s, ts[i], refs, ios, krn)
      {
        UsesBound(s, ts, refs, ios, krn, i);
      }
    }
  }

  lemma ContainedIsBound(es: seq<Entry>, tiles: seq<nat>, krn: nat, slot: nat, offset: nat)
    requires TableShape(es, tiles) && |tiles| == 32
    requires forall i :: 0 <= i < |es| ==> SizedRight(es[i])
    requires Contained(es, krn, slot, offset)
    ensures BoundAt(PortRefs(PortsOf(es)), IoTable(PortsOf(es)), krn, slot, offset)
  {
    hide IoTable, TagSize, SlotRef, TableShape;
    var refs := PortRefs(PortsOf(es));
    TableSlots(es, tiles);
    if slot == 1 && offset < krn {
      assert refs[0] == KERNEL_REF;
      SlotRefIs(refs, 1, KERNEL_REF);
      KernelTagSize(es, tiles, krn);
    } else {
      var i :| 0 <= i < |es| && es[i].port.slot == slot && offset < es[i].allocation;
      assert refs[i + 1] == Ref(slot, es[i].port.bufferId);
      SlotRefIs(refs, slot, refs[i + 1]);
      EntryTagSize(es, tiles, krn, i);
      assert SizedRight(es[i]);
    }
  }

  /** PRODUCER MEETS CHECKER. On a stream the C splitter takes, a table derived without exceptions
      passes the bound check exactly when no record overruns its task, which the tool does not look
      at. Each side walks the stream itself. */
  lemma DerivedIsBound(hwx: Hwx, tiles: seq<nat>, s: seq<byte>, cap: nat, krn: nat)
    requires |hwx.slots| >= 4 && |tiles| == 32 && Entries(hwx, tiles).Done? && Split(s, 0, cap).Ok?
             && Uses(s, 0, map[]).Done?
    requires NoExceptions(Entries(hwx, tiles).value, Uses(s, 0, map[]).value, krn)
    ensures var ports, ts := PortsOf(Entries(hwx, tiles).value), Split(s, 0, cap).value;
            Walked(s, 0) == Done(ts) && (TasksBound(s, ts, PortRefs(ports), IoTable(ports), krn) <==> RecordsFit(s, ts))
  {
    hide Entries, NoteAll, AllRecords, Records, IoTable, PortRefs, TableShape, Contained, SizedRight, Split, Uses,
      Walked, AllBound, BoundAt;
    var es, ts := Entries(hwx, tiles).value, Split(s, 0, cap).value;
    var ports := PortsOf(es);
    EntriesShape(hwx, tiles);
    UsesNotes(s, 0, map[]);
    WalkedIsSplit(s, cap);
    if RecordsFit(s, ts) {
      BoundByUses(s, ts, PortRefs(ports), IoTable(ports), krn);
      var uses := NoteAll(map[], AllRecords(s, ts));
      forall slot | slot in uses
        ensures BoundAt(PortRefs(ports), IoTable(ports), krn, slot, uses[slot])
      {
        ContainedIsBound(es, tiles, krn, slot, uses[slot]);
      }
    }
  }

  lemma WalkedIsSplit(s: seq<byte>, cap: nat)
    requires Split(s, 0, cap).Ok? && Walked(s, 0).Done?
    ensures Walked(s, 0) == Done(Split(s, 0, cap).value)
  {
    hide WordCount;
    WalkMeetsSplit(s, 0, cap);
  }
}
