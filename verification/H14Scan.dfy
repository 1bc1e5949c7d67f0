/** Pass 1 of derive_refs (libane/ane_m2.c): what the records say about each BAR slot before any
    tag is decided, and the slot ranks derived from it. */
module H14Scan {
  import opened Basics
  import opened H14Bytes
  import opened H14Stream
  import opened H14Records

  const KDMA_LO: nat := 0x1900
  const KDMA_HI: nat := 0x1a40
  const DST: nat := 0x1508
  const SRC_A: nat := 0x1110
  const SRC_B: nat := 0x1128
  const SLOTS: nat := 0x40

  /** The offsets seen at one slot through one register class: the largest, and the smallest
      distance between two consecutive ones. */
  datatype Offsets = Offsets(max: nat, chunk: nat, last: nat, seen: nat)

  const NO_OFFSETS := Offsets(0, 0, 0, 0)

  function Gap(a: nat, b: nat): nat { if a > b then a - b else b - a }

  function Track(o: Offsets, p: nat): Offsets {
    var max := if p > o.max then p else o.max;
    if o.seen == 0 then Offsets(max, o.chunk, p, 1)
    else
      var gap := Gap(p, o.last);
      Offsets(max, if o.seen == 1 || gap < o.chunk then gap else o.chunk, p, 2)
  }

  /** What pass 1 keeps: per slot the destination and source offsets, whether a destination was
      seen and whether source A was seen; and the candidate input slots in order of appearance. */
  datatype Scan = Scan(dst: seq<Offsets>, src: seq<Offsets>, hasDst: seq<bool>, seenA: seq<bool>, srcA: seq<nat>,
    srcB: seq<nat>)

  predicate ScanShape(sc: Scan) {
    && |sc.dst| == |sc.src| == |sc.hasDst| == |sc.seenA| == SLOTS
    && (forall i :: 0 <= i < |sc.srcA| ==> 1 < sc.srcA[i] < SLOTS)
    && (forall i :: 0 <= i < |sc.srcB| ==> 1 < sc.srcB[i] < SLOTS)
  }

  function Start(): (sc: Scan)
    ensures ScanShape(sc)
  {
    Scan(seq(SLOTS, _ => NO_OFFSETS), seq(SLOTS, _ => NO_OFFSETS), seq(SLOTS, _ => false), seq(SLOTS, _ => false), [],
      [])
  }

  function ScanRef(sc: Scan, slot: nat, addr: nat, p0: nat): (r: Result<Scan>)
    requires ScanShape(sc) && slot < SLOTS
    ensures r.Ok? ==> ScanShape(r.value)
  {
    if addr == DST then
      Ok(sc.(hasDst := sc.hasDst[slot := true], dst := sc.dst[slot := Track(sc.dst[slot], p0)]))
    else if addr == SRC_A then
      var sc1 := sc.(src := sc.src[slot := Track(sc.src[slot], p0)]);
      if sc.seenA[slot] then Ok(sc1)
      else
        var pure := slot > 1 && !sc.hasDst[slot];
        if pure && |sc.srcA| == SLOTS then Err(TooManyRefs)
        else Ok(sc1.(seenA := sc.seenA[slot := true], srcA := if pure then sc.srcA + [slot] else sc.srcA))
    else if addr == SRC_B then
      var sc1 := sc.(src := sc.src[slot := Track(sc.src[slot], p0)]);
      if slot > 1 && !sc.hasDst[slot] then
        if |sc.srcB| == SLOTS then Err(TooManyRefs) else Ok(sc1.(srcB := sc.srcB + [slot]))
      else Ok(sc1)
    else Ok(sc)
  }

  function ScanRecord(sc: Scan, rec: Record): (r: Result<Scan>)
    requires ScanShape(sc) && |rec.payload| >= 1
    ensures r.Ok? ==> ScanShape(r.value)
  {
    if !IsBarRef(rec.header) then Ok(sc)
    else if HasBit28(rec.header) then Err(BarBit28)
    else ScanRef(sc, Slot(rec.header), Addr(rec.header), rec.payload[0])
  }

  function ScanAll(sc: Scan, rs: seq<Record>): (r: Result<Scan>)
    requires ScanShape(sc) && forall i :: 0 <= i < |rs| ==> |rs[i].payload| >= 1
    ensures r.Ok? ==> ScanShape(r.value)
    decreases |rs|
  {
    if rs == [] then Ok(sc)
    else
      var next := ScanRecord(sc, rs[0]);
      if next.Err? then next else ScanAll(next.value, rs[1..])
  }

  lemma {:induction false} ScanConcat(sc: Scan, a: seq<Record>, b: seq<Record>)
    requires ScanShape(sc) && Payloaded(a) && Payloaded(b)
    ensures Payloaded(a + b)
    ensures ScanAll(sc, a + b) == if ScanAll(sc, a).Ok? then ScanAll(ScanAll(sc, a).value, b) else ScanAll(sc, a)
    decreases |a|
  {
    hide ScanRecord, ScanShape;
    if a == [] {
      assert a + b == b;
    } else {
      assert (a + b)[0] == a[0] && (a + b)[1..] == a[1..] + b;
      var next := ScanRecord(sc, a[0]);
      if next.Ok? {
        ScanConcat(next.value, a[1..], b);
      }
    }
  }

  /** The pass-1 walk over one task. */
  method ScanTask(s: seq<byte>, t: Task, start: Scan) returns (r: Result<Scan>)
    requires InStream(s, t) && ScanShape(start)
    ensures r.Ok? <==> Records(s, t).Ok? && ScanAll(start, Records(s, t).value).Ok?
    ensures r.Ok? ==> r == ScanAll(start, Records(s, t).value)
  {
    hide ScanRecord, ScanShape, PayloadCount;
    var sc := start;
    var at := FirstRecord(s, t);
    while at < t.words
      invariant ScanShape(sc)
      invariant Records(s, t).Ok? <==> RecordsFrom(s, t, at).Ok?
      invariant Records(s, t).Ok? ==> ScanAll(start, Records(s, t).value) == ScanAll(sc, RecordsFrom(s, t, at).value)
      decreases t.words - at
    {
      var h := Word(s, t, at);
      var n := PayloadCount(h);
      if at + 1 + n > t.words {
        return Err(RecordOverruns);
      }
      var rec := Record(at, h, Payload(s, t, at, n));
      ghost var rest := RecordsFrom(s, t, at + 1 + n);
      if rest.Ok? {
        assert ([rec] + rest.value)[1..] == rest.value && ([rec] + rest.value)[0] == rec;
      }
      var next := ScanRecord(sc, rec);
      if next.Err? {
        return next;
      }
      sc := next.value;
      at := at + 1 + n;
    }
    r := Ok(sc);
  }

  method ScanTasks(s: seq<byte>, ts: seq<Task>) returns (r: Result<Scan>)
    requires forall i :: 0 <= i < |ts| ==> InStream(s, ts[i])
    ensures r.Ok? <==> RecordsFit(s, ts) && ScanAll(Start(), AllRecords(s, ts)).Ok?
    ensures r.Ok? ==> r == ScanAll(Start(), AllRecords(s, ts))
  {
    hide ScanAll, Records, ScanShape;
    StartShape();
    var sc := Start();
    for i := 0 to |ts|
      invariant RecordsFit(s, ts[..i]) && ScanShape(sc) && ScanAll(Start(), AllRecords(s, ts[..i])) == Ok(sc)
    {
      assert ts[..i + 1][..i] == ts[..i];
      var next := ScanTask(s, ts[i], sc);
      if next.Ok? {
        ScanConcat(Start(), AllRecords(s, ts[..i]), Records(s, ts[i]).value);
      } else {
        ScanFails(s, ts, i, sc);
        return next;
      }
      assert RecordsFit(s, ts[..i + 1]);
      assert ScanAll(Start(), AllRecords(s, ts[..i + 1])) == ScanAll(sc, Records(s, ts[i]).value);
      sc := next.value;
    }
    assert ts[..|ts|] == ts;
    r := Ok(sc);
  }

  lemma StartShape()
    ensures ScanAll(Start(), []) == Ok(Start())
  {
  }

  /** Once a prefix of the tasks fails, the whole fails. */
  lemma ScanFails(s: seq<byte>, ts: seq<Task>, i: nat, sc: Scan)
    requires i < |ts| && InStream(s, ts[i]) && RecordsFit(s, ts[..i]) && ScanShape(sc)
    requires ScanAll(Start(), AllRecords(s, ts[..i])) == Ok(sc)
    requires Records(s, ts[i]).Err? || ScanAll(sc, Records(s, ts[i]).value).Err?
    ensures !(RecordsFit(s, ts) && ScanAll(Start(), AllRecords(s, ts)).Ok?)
  {
    hide ScanAll, Records, ScanShape;
    if RecordsFit(s, ts) {
      assert ts[..i + 1][..i] == ts[..i];
      ScanConcat(Start(), AllRecords(s, ts[..i]), Records(s, ts[i]).value);
      AllRecordsSplit(s, ts, i + 1);
      ScanConcat(Start(), AllRecords(s, ts[..i + 1]), AllRecords(s, ts[i + 1..]));
    }
  }

  lemma {:induction false} AllRecordsSplit(s: seq<byte>, ts: seq<Task>, i: nat)
    requires RecordsFit(s, ts) && i <= |ts|
    ensures RecordsFit(s, ts[..i]) && RecordsFit(s, ts[i..])
    ensures AllRecords(s, ts) == AllRecords(s, ts[..i]) + AllRecords(s, ts[i..])
    decreases |ts| - i
  {
    hide Records, InStream, AllRecords;
    assert RecordsFit(s, ts[..i]) && RecordsFit(s, ts[i..]);
    if i == |ts| {
      assert ts[..i] == ts && ts[i..] == [];
      NoRecords(s);
    } else {
      var n := |ts| - 1;
      var tail := ts[i..];
      assert RecordsFit(s, ts[..n]);
      AllRecordsSplit(s, ts[..n], i);
      assert ts[..n][..i] == ts[..i] && ts[..n][i..] == tail[..n - i] && tail[n - i] == ts[n];
      AllRecordsLast(s, ts);
      AllRecordsLast(s, tail);
    }
  }

  lemma NoRecords(s: seq<byte>)
    ensures AllRecords(s, []) == []
  {
  }

  lemma AllRecordsLast(s: seq<byte>, ts: seq<Task>)
    requires ts != [] && RecordsFit(s, ts)
    ensures AllRecords(s, ts) == AllRecords(s, ts[..|ts| - 1]) + Records(s, ts[|ts| - 1]).value
  {
    hide Records, InStream;
  }

  // ---- what the scan means ----

  function TrackAll(l: seq<nat>): Offsets {
    if l == [] then NO_OFFSETS else Track(TrackAll(l[..|l| - 1]), l[|l| - 1])
  }

  /** The chunk is the smallest distance between consecutive offsets, 0 while there are fewer than two. */
  ghost predicate IsChunk(l: seq<nat>, chunk: nat) {
    if |l| < 2 then chunk == 0
    else (forall i :: 0 <= i < |l| - 1 ==> chunk <= GapAt(l, i)) && exists i :: 0 <= i < |l| - 1 && chunk == GapAt(l, i)
  }

  function GapAt(l: seq<nat>, i: nat): nat
    requires i + 1 < |l|
  {
    Gap(l[i + 1], l[i])
  }

  ghost predicate IsMax(l: seq<nat>, max: nat) {
    (forall i :: 0 <= i < |l| ==> l[i] <= max) && (max == 0 || max in l)
  }

  lemma ChunkStep(l: seq<nat>, chunk: nat)
    requires |l| >= 2 && IsChunk(l[..|l| - 1], chunk)
    ensures var gap := GapAt(l, |l| - 2); IsChunk(l, if |l| == 2 || gap < chunk then gap else chunk)
  {
    hide Gap;
    var n := |l| - 1;
    var p := l[..n];
    forall i | 0 <= i < n - 1
      ensures GapAt(p, i) == GapAt(l, i)
    {
    }
    hide GapAt;
    var gap := GapAt(l, n - 1);
    if n > 1 && gap >= chunk {
      var i :| 0 <= i < n - 1 && chunk == GapAt(p, i);
      assert chunk == GapAt(l, i);
    }
  }

  /** The tracked maximum is the largest offset and the tracked chunk the smallest consecutive
      distance. */
  lemma {:induction false} TrackMeans(l: seq<nat>)
    ensures var o := TrackAll(l);
            && o.seen == (if |l| < 2 then |l| else 2) && (l != [] ==> o.last == l[|l| - 1])
            && IsMax(l, o.max) && IsChunk(l, o.chunk)
  {
    hide IsChunk, Gap;
    if l == [] {
      NoChunk(l);
    } else {
      var n := |l| - 1;
      TrackMeans(l[..n]);
      assert l == l[..n] + [l[n]];
      if n == 0 {
        NoChunk(l);
        NoChunk(l[..n]);
        OneOffset(l);
      } else {
        ChunkStep(l, TrackAll(l[..n]).chunk);
      }
    }
  }

  lemma NoChunk(l: seq<nat>)
    requires |l| < 2
    ensures forall chunk: nat :: IsChunk(l, chunk) <==> chunk == 0
  {
  }

  lemma OneOffset(l: seq<nat>)
    requires |l| == 1
    ensures TrackAll(l).chunk == 0
  {
  }

  /** A BAR reference at a slot through one of two registers. */
  predicate At(rec: Record, slot: nat, a: nat, b: nat) {
    IsBarRef(rec.header) && Slot(rec.header) == slot && (Addr(rec.header) == a || Addr(rec.header) == b)
  }

  /** The first payload words of the references at a slot through registers a or b, in order. */
  function OffsetsAt(rs: seq<Record>, slot: nat, a: nat, b: nat): seq<nat>
    requires forall i :: 0 <= i < |rs| ==> |rs[i].payload| >= 1
  {
    if rs == [] then []
    else
      var n := |rs| - 1;
      var before := OffsetsAt(rs[..n], slot, a, b);
      if At(rs[n], slot, a, b) then before + [rs[n].payload[0]] else before
  }

  ghost predicate Sees(rs: seq<Record>, k: nat, slot: nat, a: nat, b: nat)
    requires k <= |rs|
  {
    exists i :: 0 <= i < k && At(rs[i], slot, a, b)
  }

  /** An input slot: above 1, and first read through source A before any destination write. */
  ghost predicate IsInputA(rs: seq<Record>, slot: nat) {
    slot > 1 && exists i :: 0 <= i < |rs| && At(rs[i], slot, SRC_A, SRC_A) && !Sees(rs, i, slot, DST, SRC_A)
  }

  /** An input slot of source B: above 1, and read through source B before any destination write. */
  ghost predicate IsInputB(rs: seq<Record>, slot: nat) {
    slot > 1 && exists i :: 0 <= i < |rs| && At(rs[i], slot, SRC_B, SRC_B) && !Sees(rs, i, slot, DST, DST)
  }

  /** What holds of a scan that has seen `rs`. */
  ghost predicate Reflects(rs: seq<Record>, sc: Scan, slot: nat)
    requires Payloaded(rs) && ScanShape(sc) && slot < SLOTS
  {
    && sc.dst[slot] == TrackAll(OffsetsAt(rs, slot, DST, DST))
    && sc.src[slot] == TrackAll(OffsetsAt(rs, slot, SRC_A, SRC_B))
    && (sc.hasDst[slot] <==> Sees(rs, |rs|, slot, DST, DST))
    && (sc.seenA[slot] <==> Sees(rs, |rs|, slot, SRC_A, SRC_A))
    && (slot in sc.srcA <==> IsInputA(rs, slot)) && (slot in sc.srcB <==> IsInputB(rs, slot))
  }

  lemma ScanLast(rs: seq<Record>)
    requires Payloaded(rs) && rs != [] && ScanAll(Start(), rs).Ok?
    ensures Payloaded(rs[..|rs| - 1]) && ScanAll(Start(), rs[..|rs| - 1]).Ok?
    ensures ScanRecord(ScanAll(Start(), rs[..|rs| - 1]).value, rs[|rs| - 1]) == ScanAll(Start(), rs)
  {
    hide ScanRecord, ScanShape, ScanAll;
    var n := |rs| - 1;
    assert rs == rs[..n] + [rs[n]];
    ScanConcat(Start(), rs[..n], [rs[n]]);
    ScanOne(ScanAll(Start(), rs[..n]).value, rs[n]);
  }

  lemma ScanOne(sc: Scan, rec: Record)
    requires ScanShape(sc) && |rec.payload| >= 1
    ensures ScanAll(sc, [rec]) == ScanRecord(sc, rec)
  {
    hide ScanRecord;
    assert [rec][1..] == [];
  }

  /** Pass 1 computes, slot by slot, the tracked destination and source offsets, whether a
      destination or a source A reference exists, and the input slots of source A and source B. */
  lemma {:induction false} ScanMeans(rs: seq<Record>, slot: nat)
    requires Payloaded(rs) && slot < SLOTS && ScanAll(Start(), rs).Ok?
    ensures Reflects(rs, ScanAll(Start(), rs).value, slot)
    decreases |rs|
  {
    hide Track, TrackAll, IsBarRef, Slot, Addr, HasBit28;
    if rs == [] {
      NothingScanned(slot);
    } else {
      var n := |rs| - 1;
      ScanLast(rs);
      ScanMeans(rs[..n], slot);
      ReflectsStep(rs, ScanAll(Start(), rs[..n]).value, ScanAll(Start(), rs).value, slot);
    }
  }

  lemma NothingScanned(slot: nat)
    requires slot < SLOTS
    ensures ScanAll(Start(), []) == Ok(Start()) && Reflects([], Start(), slot)
  {
  }

  lemma SeesStep(rs: seq<Record>, slot: nat, a: nat, b: nat)
    requires rs != []
    ensures Sees(rs, |rs|, slot, a, b) <==> Sees(rs[..|rs| - 1], |rs| - 1, slot, a, b) || At(rs[|rs| - 1], slot, a, b)
    ensures forall i: nat :: i <= |rs| - 1 ==> (Sees(rs, i, slot, a, b) <==> Sees(rs[..|rs| - 1], i, slot, a, b))
  {
    hide At;
    var n := |rs| - 1;
    if At(rs[n], slot, a, b) {
      assert Sees(rs, |rs|, slot, a, b);
    }
    forall i: nat | i <= n
      ensures Sees(rs, i, slot, a, b) <==> Sees(rs[..n], i, slot, a, b)
    {
      if Sees(rs, i, slot, a, b) {
        var k :| 0 <= k < i && At(rs[k], slot, a, b);
        assert rs[..n][k] == rs[k];
      }
      if Sees(rs[..n], i, slot, a, b) {
        var k :| 0 <= k < i && At(rs[..n][k], slot, a, b);
        assert rs[k] == rs[..n][k];
      }
    }
    assert Sees(rs, n, slot, a, b) <==> Sees(rs[..n], n, slot, a, b);
    if Sees(rs, |rs|, slot, a, b) {
      var k :| 0 <= k < |rs| && At(rs[k], slot, a, b);
      assert k == n || Sees(rs, n, slot, a, b);
    }
    if Sees(rs, n, slot, a, b) {
      var k :| 0 <= k < n && At(rs[k], slot, a, b);
      assert Sees(rs, |rs|, slot, a, b);
    }
  }

  lemma InputStep(rs: seq<Record>, slot: nat)
    requires rs != []
    ensures var n := |rs| - 1;
            IsInputA(rs, slot) <==>
              IsInputA(rs[..n], slot) || (slot > 1 && At(rs[n], slot, SRC_A, SRC_A)
                && !Sees(rs[..n], n, slot, DST, SRC_A))
  {
    hide At;
    var n := |rs| - 1;
    SeesStep(rs, slot, DST, SRC_A);
    if IsInputA(rs, slot) {
      var i :| 0 <= i < |rs| && At(rs[i], slot, SRC_A, SRC_A) && !Sees(rs, i, slot, DST, SRC_A);
      if i < n {
        assert rs[..n][i] == rs[i];
      }
    }
    if IsInputA(rs[..n], slot) {
      var i :| 0 <= i < n && At(rs[..n][i], slot, SRC_A, SRC_A) && !Sees(rs[..n], i, slot, DST, SRC_A);
      assert rs[i] == rs[..n][i] && !Sees(rs, i, slot, DST, SRC_A);
    }
  }

  lemma InputStepB(rs: seq<Record>, slot: nat)
    requires rs != []
    ensures var n := |rs| - 1;
            IsInputB(rs, slot) <==>
              IsInputB(rs[..n], slot) || (slot > 1 && At(rs[n], slot, SRC_B, SRC_B)
                && !Sees(rs[..n], n, slot, DST, DST))
  {
    hide At;
    var n := |rs| - 1;
    SeesStep(rs, slot, DST, DST);
    if IsInputB(rs, slot) {
      var i :| 0 <= i < |rs| && At(rs[i], slot, SRC_B, SRC_B) && !Sees(rs, i, slot, DST, DST);
      if i < n {
        assert rs[..n][i] == rs[i];
      }
    }
    if IsInputB(rs[..n], slot) {
      var i :| 0 <= i < n && At(rs[..n][i], slot, SRC_B, SRC_B) && !Sees(rs[..n], i, slot, DST, DST);
      assert rs[i] == rs[..n][i] && !Sees(rs, i, slot, DST, DST);
    }
  }

  lemma SeesEither(rs: seq<Record>, k: nat, slot: nat)
    requires k <= |rs|
    ensures Sees(rs, k, slot, DST, SRC_A) <==> Sees(rs, k, slot, DST, DST) || Sees(rs, k, slot, SRC_A, SRC_A)
  {
    hide IsBarRef, Slot, Addr;
    if Sees(rs, k, slot, DST, SRC_A) {
      var i :| 0 <= i < k && At(rs[i], slot, DST, SRC_A);
      assert At(rs[i], slot, DST, DST) || At(rs[i], slot, SRC_A, SRC_A);
    }
    if Sees(rs, k, slot, DST, DST) {
      var i :| 0 <= i < k && At(rs[i], slot, DST, DST);
      assert At(rs[i], slot, DST, SRC_A);
    }
    if Sees(rs, k, slot, SRC_A, SRC_A) {
      var i :| 0 <= i < k && At(rs[i], slot, SRC_A, SRC_A);
      assert At(rs[i], slot, DST, SRC_A);
    }
  }

  lemma ReflectsStep(rs: seq<Record>, before: Scan, after: Scan, slot: nat)
    requires Payloaded(rs) && rs != [] && slot < SLOTS && ScanShape(before) && ScanShape(after)
    requires Payloaded(rs[..|rs| - 1]) && Reflects(rs[..|rs| - 1], before, slot)
    requires ScanRecord(before, rs[|rs| - 1]) == Ok(after)
    ensures Reflects(rs, after, slot)
  {
    hide Track, TrackAll, IsBarRef, Slot, Addr, HasBit28, Sees, IsInputA, IsInputB;
    var n := |rs| - 1;
    var rec := rs[n];
    SeesStep(rs, slot, DST, DST);
    SeesStep(rs, slot, SRC_A, SRC_A);
    InputStep(rs, slot);
    InputStepB(rs, slot);
    SeesEither(rs[..n], n, slot);
    TrackLast(rs, slot, DST, DST);
    TrackLast(rs, slot, SRC_A, SRC_B);
  }

  lemma TrackLast(rs: seq<Record>, slot: nat, a: nat, b: nat)
    requires Payloaded(rs) && rs != []
    ensures var n := |rs| - 1;
            TrackAll(OffsetsAt(rs, slot, a, b)) ==
              if At(rs[n], slot, a, b) then Track(TrackAll(OffsetsAt(rs[..n], slot, a, b)), rs[n].payload[0])
              else TrackAll(OffsetsAt(rs[..n], slot, a, b))
  {
    hide At, Track;
    var n := |rs| - 1;
    var before := OffsetsAt(rs[..n], slot, a, b);
    if At(rs[n], slot, a, b) {
      assert (before + [rs[n].payload[0]])[..|before|] == before;
    }
  }
}
