/** The dense register records inside one task: the walk libane/ane_m2.c codes four times. */
module H14Records {
  import opened Basics
  import opened H14Bytes
  import opened H14Stream

  /** A record: its word index in the task, its header word and its payload words. */
  datatype Record = Record(at: nat, header: nat, payload: seq<nat>)

  ghost predicate InStream(s: seq<byte>, t: Task) {
    t.words >= 8 && t.off + 4 * t.words <= |s|
  }

  function Word(s: seq<byte>, t: Task, i: nat): nat
    requires InStream(s, t) && i < t.words
  {
    Le32(s, t.off + 4 * i)
  }

  function PopCount(n: nat): nat {
    if n == 0 then 0 else n % 2 + PopCount(n / 2)
  }

  /** Bit 31 selects a masked record; a dense one holds its payload count in bits 20:15. */
  function PayloadCount(h: nat): (n: nat)
    ensures n >= 1
  {
    if h >= 0x8000_0000 then 1 + PopCount(h / 0x8000 % 0x1_0000) else h / 0x8000 % 0x40 + 1
  }

  /** A BAR reference: a dense record with bit 29 set. */
  predicate IsBarRef(h: nat) { h < 0x8000_0000 && h / 0x2000_0000 % 2 == 1 }

  predicate HasBit28(h: nat) { h / 0x1000_0000 % 2 == 1 }

  function Slot(h: nat): (slot: nat)
    ensures slot < 64
  {
    h / 0x80_0000 % 0x40
  }

  function Addr(h: nat): nat { h % 0x8000 * 4 }

  /** Payload word 0 with word 1, when there is one, as the high half. */
  function Offset(payload: seq<nat>): nat
    requires |payload| >= 1
  {
    if |payload| > 1 then payload[0] + 0x1_0000_0000 * payload[1] else payload[0]
  }

  function Payload(s: seq<byte>, t: Task, at: nat, n: nat): seq<nat>
    requires InStream(s, t) && at + 1 + n <= t.words
  {
    seq<nat>(n, i requires 0 <= i < n => Word(s, t, at + 1 + i))
  }

  function FirstRecord(s: seq<byte>, t: Task): nat
    requires InStream(s, t)
  {
    if Word(s, t, 7) % 4 == 3 then 9 else 8
  }

  /** The records from word `at` on. */
  function RecordsFrom(s: seq<byte>, t: Task, at: nat): (r: Result<seq<Record>>)
    requires InStream(s, t)
    ensures r.Ok? ==> forall i :: 0 <= i < |r.value| ==> |r.value[i].payload| >= 1
    decreases t.words - at
  {
    if at >= t.words then Ok([])
    else
      var h := Word(s, t, at);
      var n := PayloadCount(h);
      if at + 1 + n > t.words then Err(RecordOverruns)
      else
        var rest := RecordsFrom(s, t, at + 1 + n);
        if rest.Err? then rest else Ok([Record(at, h, Payload(s, t, at, n))] + rest.value)
  }

  function Records(s: seq<byte>, t: Task): (r: Result<seq<Record>>)
    requires InStream(s, t)
    ensures r.Ok? ==> forall i :: 0 <= i < |r.value| ==> |r.value[i].payload| >= 1
  {
    RecordsFrom(s, t, FirstRecord(s, t))
  }

  /** The BAR references of a record list, in order. */
  function BarRefs(rs: seq<Record>): (b: seq<Record>)
    ensures forall i :: 0 <= i < |b| ==> b[i] in rs && IsBarRef(b[i].header)
    ensures forall i :: 0 <= i < |rs| && IsBarRef(rs[i].header) ==> rs[i] in b
  {
    if rs == [] then []
    else
      var rest := BarRefs(rs[1..]);
      if IsBarRef(rs[0].header) then [rs[0]] + rest else rest
  }

  // ---- all tasks ----

  ghost predicate Payloaded(rs: seq<Record>) {
    forall i :: 0 <= i < |rs| ==> |rs[i].payload| >= 1
  }

  ghost predicate RecordsFit(s: seq<byte>, ts: seq<Task>) {
    forall i :: 0 <= i < |ts| ==> InStream(s, ts[i]) && Records(s, ts[i]).Ok?
  }

  ghost function AllRecords(s: seq<byte>, ts: seq<Task>): (rs: seq<Record>)
    requires RecordsFit(s, ts)
    ensures Payloaded(rs)
  {
    if ts == [] then [] else AllRecords(s, ts[..|ts| - 1]) + Records(s, ts[|ts| - 1]).value
  }

  lemma {:induction false} AllRecordsHolds(s: seq<byte>, ts: seq<Task>, i: nat, rec: Record)
    requires RecordsFit(s, ts) && i < |ts| && rec in Records(s, ts[i]).value
    ensures rec in AllRecords(s, ts)
    decreases |ts|
  {
    if i < |ts| - 1 {
      AllRecordsHolds(s, ts[..|ts| - 1], i, rec);
    }
  }

  lemma {:induction false} RecordOrigin(s: seq<byte>, ts: seq<Task>, rec: Record)
    requires RecordsFit(s, ts) && rec in AllRecords(s, ts)
    ensures exists i: nat :: i < |ts| && rec in Records(s, ts[i]).value
    decreases |ts|
  {
    hide Records;
    if rec !in Records(s, ts[|ts| - 1]).value {
      RecordOrigin(s, ts[..|ts| - 1], rec);
      var i: nat :| i < |ts| - 1 && rec in Records(s, ts[..|ts| - 1][i]).value;
      assert ts[..|ts| - 1][i] == ts[i];
    }
  }

  // ---- the bound check ----

  datatype Io = Io(bufferId: nat, dir: nat, size: nat)
  datatype Ref = Ref(slot: nat, tag: nat)

  const KERNEL_TAG: nat := 2

  /** The size of the buffer a tag denotes: the kernel constants or the io records of that id,
      the last one when several match. */
  function TagSize(ios: seq<Io>, krn: nat, tag: nat): nat {
    if ios == [] then (if tag == KERNEL_TAG then krn else 0)
    else
      var last := ios[|ios| - 1];
      if last.bufferId == tag then last.size else TagSize(ios[..|ios| - 1], krn, tag)
  }

  /** The last ref of a slot. */
  function SlotRef(refs: seq<Ref>, slot: nat): Result<Ref> {
    if refs == [] then Err(SlotUnbound)
    else
      var last := refs[|refs| - 1];
      if last.slot == slot then Ok(last) else SlotRef(refs[..|refs| - 1], slot)
  }

  /** The record names a bound slot, at an offset inside the buffer its tag denotes. */
  predicate Bound(refs: seq<Ref>, ios: seq<Io>, krn: nat, rec: Record)
    requires |rec.payload| >= 1
  {
    var ref := SlotRef(refs, Slot(rec.header));
    ref.Ok? && Offset(rec.payload) < TagSize(ios, krn, ref.value.tag)
  }

  predicate AllBound(refs: seq<Ref>, ios: seq<Io>, krn: nat, rs: seq<Record>)
    requires forall i :: 0 <= i < |rs| ==> |rs[i].payload| >= 1
  {
    forall i :: 0 <= i < |rs| && IsBarRef(rs[i].header) ==> Bound(refs, ios, krn, rs[i])
  }

  predicate TaskBound(s: seq<byte>, t: Task, refs: seq<Ref>, ios: seq<Io>, krn: nat)
    requires InStream(s, t)
  {
    Records(s, t).Ok? && AllBound(refs, ios, krn, Records(s, t).value)
  }

  method LookUp(refs: seq<Ref>, ios: seq<Io>, krn: nat, slot: nat) returns (bound: bool, size: nat)
    ensures bound <==> SlotRef(refs, slot).Ok?
    ensures bound ==> size == TagSize(ios, krn, SlotRef(refs, slot).value.tag)
  {
    bound, size := false, 0;
    for r := 0 to |refs|
      invariant bound <==> SlotRef(refs[..r], slot).Ok?
      invariant bound ==> size == TagSize(ios, krn, SlotRef(refs[..r], slot).value.tag)
    {
      assert refs[..r + 1][..r] == refs[..r];
      if refs[r].slot != slot {
        continue;
      }
      bound := true;
      size := if refs[r].tag == KERNEL_TAG then krn else 0;
      for i := 0 to |ios|
        invariant size == TagSize(ios[..i], krn, refs[r].tag)
      {
        assert ios[..i + 1][..i] == ios[..i];
        if ios[i].bufferId == refs[r].tag {
          size := ios[i].size;
        }
      }
      assert ios[..|ios|] == ios;
    }
    assert refs[..|refs|] == refs;
  }

  lemma AllBoundCons(refs: seq<Ref>, ios: seq<Io>, krn: nat, rec: Record, rs: seq<Record>)
    requires |rec.payload| >= 1 && forall i :: 0 <= i < |rs| ==> |rs[i].payload| >= 1
    ensures AllBound(refs, ios, krn, [rec] + rs) <==>
              (IsBarRef(rec.header) ==> Bound(refs, ios, krn, rec)) && AllBound(refs, ios, krn, rs)
  {
    hide Bound;
    var all := [rec] + rs;
    assert all[0] == rec;
    if AllBound(refs, ios, krn, all) {
      forall i | 0 <= i < |rs| && IsBarRef(rs[i].header) ensures Bound(refs, ios, krn,
        rs[i]) { assert all[i + 1] == rs[i]; }
    }
  }

  /** check_bound_slots on one task: it passes exactly when every record fits and is bound. */
  method CheckTask(s: seq<byte>, t: Task, refs: seq<Ref>, ios: seq<Io>, krn: nat) returns (ok: bool)
    requires InStream(s, t)
    ensures ok <==> TaskBound(s, t, refs, ios, krn)
  {
    var at := FirstRecord(s, t);
    while at < t.words
      invariant TaskBound(s, t, refs, ios, krn) <==>
                  RecordsFrom(s, t, at).Ok? && AllBound(refs, ios, krn, RecordsFrom(s, t, at).value)
      decreases t.words - at
    {
      hide AllBound, Bound, IsBarRef;
      var h := Word(s, t, at);
      var n := PayloadCount(h);
      if at + 1 + n > t.words {
        return false;
      }
      ghost var rest := RecordsFrom(s, t, at + 1 + n);
      if rest.Ok? {
        AllBoundCons(refs, ios, krn, Record(at, h, Payload(s, t, at, n)), rest.value);
      }
      if !IsBarRef(h) {
        at := at + 1 + n;
        continue;
      }
      var bound := CheckRecord(s, t, at, n, refs, ios, krn);
      if !bound {
        return false;
      }
      at := at + 1 + n;
    }
    return true;
  }

  method CheckRecord(s: seq<byte>, t: Task, at: nat, n: nat, refs: seq<Ref>, ios: seq<Io>, krn: nat) returns (ok: bool)
    requires InStream(s, t) && n >= 1 && at + 1 + n <= t.words
    ensures ok <==> Bound(refs, ios, krn, Record(at, Word(s, t, at), Payload(s, t, at, n)))
  {
    var off := Word(s, t, at + 1);
    if n > 1 {
      off := off + 0x1_0000_0000 * Word(s, t, at + 2);
    }
    var bound, size := LookUp(refs, ios, krn, Slot(Word(s, t, at)));
    ok := bound && off < size;
  }

  method CheckBoundSlots(s: seq<byte>, ts: seq<Task>, refs: seq<Ref>, ios: seq<Io>, krn: nat) returns (ok: bool)
    requires forall i :: 0 <= i < |ts| ==> InStream(s, ts[i])
    ensures ok <==> forall i :: 0 <= i < |ts| ==> TaskBound(s, ts[i], refs, ios, krn)
  {
    hide TaskBound;
    for k := 0 to |ts|
      invariant forall i :: 0 <= i < k ==> TaskBound(s, ts[i], refs, ios, krn)
    {
      var bound := CheckTask(s, ts[k], refs, ios, krn);
      if !bound {
        return false;
      }
    }
    return true;
  }
}
