/** Pass 2 of derive_refs (libane/ane_m2.c): the ref set of a program from its task stream. */
module H14Derive {
  import opened Basics
  import opened H14Bytes
  import opened H14Stream
  import opened H14Records
  import opened H14Sort
  import opened H14Scan
  import opened H14Tags

  // ---- the refs of one task ----

  datatype TaskRef = TaskRef(slot: nat, tag: nat, addr: nat)

  function Find(refs: seq<TaskRef>, slot: nat): (r: Option<TaskRef>)
    ensures r.Some? ==> r.value in refs && r.value.slot == slot
    ensures r.None? ==> forall i :: 0 <= i < |refs| ==> refs[i].slot != slot
  {
    if refs == [] then None
    else if refs[0].slot == slot then Some(refs[0])
    else Find(refs[1..], slot)
  }

  function TagRef(c: Context, rec: Record): (r: Result<TaskRef>)
    requires ScanShape(c.sc)
    ensures r.Ok? ==> r.value.slot == Slot(rec.header) && Eligible(r.value.addr)
  {
    if HasBit28(rec.header) then Err(BarBit28)
    else
      var tag := TagOf(c, Addr(rec.header), Slot(rec.header));
      if tag.Err? then Err(tag.why)
      else
        TaggedIsEligible(c, Addr(rec.header), Slot(rec.header));
        Ok(TaskRef(Slot(rec.header), tag.value, Addr(rec.header)))
  }

  /** One record: a slot already listed keeps its first tag. */
  function TagRecord(c: Context, refs: seq<TaskRef>, rec: Record): (r: Result<seq<TaskRef>>)
    requires ScanShape(c.sc)
  {
    if !IsBarRef(rec.header) then Ok(refs)
    else
      var ref := TagRef(c, rec);
      if ref.Err? then Err(ref.why)
      else if Find(refs, ref.value.slot).Some? then Ok(refs)
      else Ok(refs + [ref.value])
  }

  function TagAll(c: Context, refs: seq<TaskRef>, rs: seq<Record>): Result<seq<TaskRef>>
    requires ScanShape(c.sc)
    decreases |rs|
  {
    if rs == [] then Ok(refs)
    else
      var next := TagRecord(c, refs, rs[0]);
      if next.Err? then next else TagAll(c, next.value, rs[1..])
  }

  ghost predicate Listable(refs: seq<TaskRef>) {
    && (forall i, j :: 0 <= i < j < |refs| ==> refs[i].slot != refs[j].slot)
    && (forall i :: 0 <= i < |refs| ==> refs[i].slot < SLOTS && Eligible(refs[i].addr))
  }

  /** Sixty-four slots: a list of distinct slots never outgrows the table. */
  lemma TableHolds(refs: seq<TaskRef>)
    requires Listable(refs)
    ensures |refs| <= SLOTS
    ensures forall s :: 0 <= s < SLOTS && Find(refs, s).None? ==> |refs| < SLOTS
  {
    var all := Below(SLOTS);
    var used := set i | 0 <= i < |refs| :: refs[i].slot;
    DistinctCount(refs);
    assert used <= all;
    Within(used, all);
    forall s | 0 <= s < SLOTS && Find(refs, s).None?
      ensures |refs| < SLOTS
    {
      Within(used, all - {s});
    }
  }

  lemma Within(a: set<int>, b: set<int>)
    requires a <= b
    ensures |a| <= |b|
  {
    assert b == a + (b - a);
  }

  ghost function Below(n: nat): (r: set<int>)
    ensures |r| == n && forall i :: i in r <==> 0 <= i < n
  {
    if n == 0 then {} else Below(n - 1) + {n - 1}
  }

  lemma {:induction false} DistinctCount(refs: seq<TaskRef>)
    requires forall i, j :: 0 <= i < j < |refs| ==> refs[i].slot != refs[j].slot
    ensures |set i | 0 <= i < |refs| :: refs[i].slot| == |refs|
  {
    if refs != [] {
      var n := |refs| - 1;
      var p := refs[..n];
      DistinctCount(p);
      assert (set i | 0 <= i < |refs| :: refs[i].slot) == (set i | 0 <= i < |p| :: p[i].slot) + {refs[n].slot};
    }
  }

  lemma {:induction false} FindAppend(refs: seq<TaskRef>, r: TaskRef, slot: nat)
    ensures Find(refs + [r], slot) ==
            if Find(refs, slot).Some? then Find(refs, slot) else if r.slot == slot then Some(r) else None
  {
    if refs == [] {
      assert ([] + [r])[1..] == [];
    } else {
      assert (refs + [r])[0] == refs[0] && (refs + [r])[1..] == refs[1..] + [r];
      FindAppend(refs[1..], r, slot);
    }
  }

  lemma TagRecordListable(c: Context, refs: seq<TaskRef>, rec: Record)
    requires ScanShape(c.sc) && Listable(refs) && TagRecord(c, refs, rec).Ok?
    ensures Listable(TagRecord(c, refs, rec).value)
  {
    hide ScanShape, IsBarRef, Slot, Addr, TagOf, Eligible, HasBit28;
  }

  /** refs_of_task. */
  method RefsOfTask(c: Context, s: seq<byte>, t: Task) returns (r: Result<seq<TaskRef>>)
    requires InStream(s, t) && ScanShape(c.sc)
    ensures r.Ok? <==> Records(s, t).Ok? && TagAll(c, [], Records(s, t).value).Ok?
    ensures r.Ok? ==> r == TagAll(c, [], Records(s, t).value) && Listable(r.value)
  {
    hide TagRecord, ScanShape, PayloadCount;
    var refs: seq<TaskRef> := [];
    var at := FirstRecord(s, t);
    while at < t.words
      invariant Listable(refs)
      invariant Records(s, t).Ok? <==> RecordsFrom(s, t, at).Ok?
      invariant Records(s, t).Ok? ==> TagAll(c, [], Records(s, t).value) == TagAll(c, refs, RecordsFrom(s, t, at).value)
      decreases t.words - at
    {
      var h := Word(s, t, at);
      var n := PayloadCount(h);
      if at + 1 + n > t.words {
        return Err(RecordOverruns);
      }
      var rec := Record(at, h, Payload(s, t, at, n));
      ghost var rest := RecordsFrom(s, t, at + 1 + n);
      if rest.Ok? {
        assert ([rec] + rest.value)[1..] == rest.value && ([rec] + rest.value)[0] == rec;
      }
      var next := AddRef(c, refs, rec);
      if next.Err? {
        return next;
      }
      refs := next.value;
      at := at + 1 + n;
    }
    r := Ok(refs);
  }

  /** The body of the walk; the full-table refusal is never taken. */
  method AddRef(c: Context, refs: seq<TaskRef>, rec: Record) returns (r: Result<seq<TaskRef>>)
    requires ScanShape(c.sc) && Listable(refs)
    ensures r == TagRecord(c, refs, rec)
    ensures r.Ok? ==> Listable(r.value)
  {
    hide ScanShape, TagOf, Eligible, HasBit28, Find;
    if !IsBarRef(rec.header) {
      return Ok(refs);
    }
    var ref := TagRef(c, rec);
    if ref.Err? {
      return Err(ref.why);
    }
    TableHolds(refs);
    TagRecordListable(c, refs, rec);
    var i := 0;
    while i < |refs|
      invariant 0 <= i <= |refs|
      invariant forall k :: 0 <= k < i ==> refs[k].slot != ref.value.slot
    {
      if refs[i].slot == ref.value.slot {
        break;
      }
      i := i + 1;
    }
    if i == |refs| {
      if |refs| == SLOTS {
        return Err(TooManyRefs);
      }
      return Ok(refs + [ref.value]);
    }
    r := Ok(refs);
  }

  // ---- what the refs of a task mean ----

  /** The first BAR reference to a slot. */
  function FirstAt(rs: seq<Record>, slot: nat): (r: Option<Record>)
    ensures r.Some? ==> r.value in rs && IsBarRef(r.value.header) && Slot(r.value.header) == slot
    ensures r.None? ==> forall i :: 0 <= i < |rs| && IsBarRef(rs[i].header) ==> Slot(rs[i].header) != slot
  {
    if rs == [] then None
    else if IsBarRef(rs[0].header) && Slot(rs[0].header) == slot then Some(rs[0])
    else FirstAt(rs[1..], slot)
  }

  ghost predicate Tagged(c: Context, rs: seq<Record>)
    requires ScanShape(c.sc)
  {
    forall i :: 0 <= i < |rs| && IsBarRef(rs[i].header) ==> TagRef(c, rs[i]).Ok?
  }

  /** The walk succeeds exactly when every BAR reference has a tag. */
  lemma {:induction false} TagAllOk(c: Context, refs: seq<TaskRef>, rs: seq<Record>)
    requires ScanShape(c.sc)
    ensures TagAll(c, refs, rs).Ok? <==> Tagged(c, rs)
    decreases |rs|
  {
    hide ScanShape, IsBarRef, TagRef, Find;
    if rs != [] {
      var next := TagRecord(c, refs, rs[0]);
      if next.Ok? {
        TagAllOk(c, next.value, rs[1..]);
        if Tagged(c, rs) {
          assert forall i :: 0 <= i < |rs[1..]| ==> rs[1..][i] == rs[i + 1];
        }
        if Tagged(c, rs[1..]) {
          forall i | 0 <= i < |rs| && IsBarRef(rs[i].header)
            ensures TagRef(c, rs[i]).Ok?
          {
            if i > 0 {
              assert rs[1..][i - 1] == rs[i];
            }
          }
        }
      }
    }
  }

  /** A slot's ref is the tag of the first record naming it. */
  lemma {:induction false} TagAllMeans(c: Context, refs: seq<TaskRef>, rs: seq<Record>, slot: nat)
    requires ScanShape(c.sc) && TagAll(c, refs, rs).Ok?
    ensures var first := FirstAt(rs, slot);
            Find(TagAll(c, refs, rs).value, slot) ==
              if Find(refs, slot).Some? then Find(refs, slot)
              else if first.None? then None
              else if TagRef(c, first.value).Ok? then Some(TagRef(c, first.value).value) else None
    decreases |rs|
  {
    hide ScanShape, IsBarRef, Find, Slot, TagOf, HasBit28, Eligible, Addr;
    if rs != [] {
      var next := TagRecord(c, refs, rs[0]);
      TagAllMeans(c, next.value, rs[1..], slot);
      if IsBarRef(rs[0].header) {
        FindAppend(refs, TagRef(c, rs[0]).value, slot);
      }
    }
  }

  // ---- the union over all tasks ----

  /** The union tables: per slot its tag and the register that first named it, the slots in order
      of appearance, and whether a merge to scratch happened. */
  datatype Union = Union(tags: map<nat, nat>, addrs: map<nat, nat>, slots: seq<nat>, merged: bool)

  ghost predicate DistinctNats(l: seq<nat>) {
    forall i, j :: 0 <= i < j < |l| ==> l[i] != l[j]
  }

  ghost predicate UnionOk(u: Union) {
    && u.tags.Keys == u.addrs.Keys && (forall s :: s in u.slots <==> s in u.tags) && DistinctNats(u.slots)
    && (forall s :: s in u.addrs ==> s < SLOTS && Eligible(u.addrs[s]))
  }

  /** What the tasks so far make of one slot. */
  datatype Merged = Unused | Tag(tag: nat) | Conflict

  function MergeTag(scratch: nat, m: Merged, tag: Option<nat>): Merged {
    if tag.None? then m
    else
      match m
      case Unused => Tag(tag.value)
      case Tag(t) => if t == tag.value then m else if scratch != 0 then Tag(scratch) else Conflict
      case Conflict => Conflict
  }

  ghost function MergedOf(u: Union, slot: nat): Merged {
    if slot in u.tags then Tag(u.tags[slot]) else Unused
  }

  function MergeRef(scratch: nat, u: Union, ref: TaskRef): Result<Union>
    requires u.tags.Keys == u.addrs.Keys
  {
    if ref.slot !in u.tags then
      Ok(Union(u.tags[ref.slot := ref.tag], u.addrs[ref.slot := ref.addr], u.slots + [ref.slot], u.merged))
    else if u.tags[ref.slot] == ref.tag then Ok(u)
    else if scratch != 0 then
      if !Eligible(u.addrs[ref.slot]) || !Eligible(ref.addr) then Err(SlotConflict)
      else Ok(u.(tags := u.tags[ref.slot := scratch], merged := true))
    else Err(SlotConflict)
  }

  /** Merging one ref changes one slot, and refuses only a conflict without scratch: the
      ineligible-register refusal is unreachable. */
  lemma MergeRefMeans(scratch: nat, u: Union, ref: TaskRef)
    requires UnionOk(u) && ref.slot < SLOTS && Eligible(ref.addr)
    ensures var m := MergeTag(scratch, MergedOf(u, ref.slot), Some(ref.tag));
            && (MergeRef(scratch, u, ref).Ok? <==> m != Conflict)
            && (m != Conflict ==>
                   UnionOk(MergeRef(scratch, u, ref).value)
                   && MergedOf(MergeRef(scratch, u, ref).value, ref.slot) == m)
    ensures MergeRef(scratch, u, ref).Ok? ==>
              forall s: nat :: s != ref.slot ==> MergedOf(MergeRef(scratch, u, ref).value, s) == MergedOf(u, s)
  {
    hide Eligible;
  }

  function TagIn(refs: seq<TaskRef>, slot: nat): Option<nat> {
    var r := Find(refs, slot);
    if r.Some? then Some(r.value.tag) else None
  }

  lemma TagInStep(refs: seq<TaskRef>, i: nat, slot: nat)
    requires Listable(refs) && i < |refs|
    ensures refs[i].slot == slot ==> TagIn(refs[..i], slot) == None && TagIn(refs[..i + 1], slot) == Some(refs[i].tag)
    ensures refs[i].slot != slot ==> TagIn(refs[..i + 1], slot) == TagIn(refs[..i], slot)
  {
    hide Eligible;
    assert refs[..i + 1] == refs[..i] + [refs[i]];
    FindAppend(refs[..i], refs[i], slot);
  }

  /** Each listed slot is still to be merged with its own tag. */
  lemma TagInAt(refs: seq<TaskRef>, i: nat)
    requires Listable(refs) && i < |refs|
    ensures TagIn(refs, refs[i].slot) == Some(refs[i].tag)
  {
    hide Eligible;
    var r := Find(refs, refs[i].slot);
    var k :| 0 <= k < |refs| && refs[k] == r.value;
  }

  method MergeTask(scratch: nat, u: Union, refs: seq<TaskRef>) returns (r: Result<Union>)
    requires UnionOk(u) && Listable(refs)
    ensures r.Ok? ==>
              UnionOk(r.value)
              && forall s: nat :: MergedOf(r.value, s) == MergeTag(scratch, MergedOf(u, s), TagIn(refs, s))
    ensures r.Err? ==> exists s: nat :: MergeTag(scratch, MergedOf(u, s), TagIn(refs, s)) == Conflict
  {
    hide MergedOf, UnionOk, Find, MergeRef, Eligible, TagIn;
    Untagged();
    var cur := u;
    for i := 0 to |refs|
      invariant UnionOk(cur)
      invariant forall s: nat :: MergedOf(cur, s) == MergeTag(scratch, MergedOf(u, s), TagIn(refs[..i], s))
    {
      var ref := refs[i];
      MergeRefMeans(scratch, cur, ref);
      UnionKeys(cur);
      forall s: nat { TagInStep(refs, i, s); }
      TagInAt(refs, i);
      assert MergedOf(cur, ref.slot) == MergedOf(u, ref.slot);
      var next := MergeRef(scratch, cur, ref);
      if next.Err? {
        assert MergeTag(scratch, MergedOf(u, ref.slot), TagIn(refs, ref.slot)) == Conflict;
        return next;
      }
      cur := next.value;
    }
    assert refs[..|refs|] == refs;
    r := Ok(cur);
  }

  lemma Untagged()
    ensures forall s: nat :: TagIn([], s) == None
  {
  }

  lemma UnionKeys(u: Union)
    requires UnionOk(u)
    ensures u.tags.Keys == u.addrs.Keys
  {
  }

  /** The tag of the first record of a task that names a slot. */
  ghost function FirstTag(c: Context, rs: seq<Record>, slot: nat): Option<nat>
    requires ScanShape(c.sc)
  {
    var first := FirstAt(rs, slot);
    if first.Some? && TagRef(c, first.value).Ok? then Some(TagRef(c, first.value).value.tag) else None
  }

  ghost predicate AllTagged(c: Context, s: seq<byte>, ts: seq<Task>)
    requires ScanShape(c.sc)
  {
    RecordsFit(s, ts) && forall i :: 0 <= i < |ts| ==> Tagged(c, Records(s, ts[i]).value)
  }

  /** What the whole program makes of one slot. */
  ghost function SlotTag(c: Context, s: seq<byte>, ts: seq<Task>, slot: nat): Merged
    requires ScanShape(c.sc) && RecordsFit(s, ts)
  {
    if ts == [] then Unused
    else
      var n := |ts| - 1;
      MergeTag(c.scratch, SlotTag(c, s, ts[..n], slot), FirstTag(c, Records(s, ts[n]).value, slot))
  }

  lemma {:induction false} ConflictStays(c: Context, s: seq<byte>, ts: seq<Task>, k: nat, slot: nat)
    requires ScanShape(c.sc) && RecordsFit(s, ts) && k <= |ts| && RecordsFit(s, ts[..k])
    requires SlotTag(c, s, ts[..k], slot) == Conflict
    ensures SlotTag(c, s, ts, slot) == Conflict
  {
    hide FirstTag, ScanShape, Records;
    if k == |ts| {
      assert ts[..k] == ts;
    } else {
      var n := |ts| - 1;
      assert ts[..n][..k] == ts[..k];
      ConflictStays(c, s, ts[..n], k, slot);
    }
  }

  lemma TaskTags(c: Context, rs: seq<Record>, slot: nat)
    requires ScanShape(c.sc) && TagAll(c, [], rs).Ok?
    ensures TagIn(TagAll(c, [], rs).value, slot) == FirstTag(c, rs, slot)
  {
    hide TagAll, ScanShape, FirstAt, TagRef;
    TagAllMeans(c, [], rs, slot);
  }

  ghost predicate Unions(c: Context, s: seq<byte>, ts: seq<Task>, u: Union)
    requires ScanShape(c.sc) && RecordsFit(s, ts)
  {
    UnionOk(u) && forall slot: nat :: MergedOf(u, slot) == SlotTag(c, s, ts, slot)
  }

  /** The refs of every task, merged. */
  method MergeTasks(c: Context, s: seq<byte>, ts: seq<Task>) returns (r: Result<Union>)
    requires ScanShape(c.sc) && forall i :: 0 <= i < |ts| ==> InStream(s, ts[i])
    ensures r.Ok? <==> AllTagged(c, s, ts) && forall slot: nat :: SlotTag(c, s, ts, slot) != Conflict
    ensures r.Ok? ==> Unions(c, s, ts, r.value)
  {
    hide ScanShape, Records, TagAll, Tagged, MergedOf, UnionOk, FirstTag, TagIn, MergeTag, InStream, SlotTag;
    var u := Union(map[], map[], [], false);
    NothingMerged(c, s, u);
    for i := 0 to |ts|
      invariant AllTagged(c, s, ts[..i]) && Unions(c, s, ts[..i], u)
    {
      var refs := RefsOfTask(c, s, ts[i]);
      if Records(s, ts[i]).Ok? {
        TagAllOk(c, [], Records(s, ts[i]).value);
      }
      if refs.Err? {
        return Err(refs.why);
      }
      forall slot: nat { TaskTags(c, Records(s, ts[i]).value, slot); }
      assert ts[..i + 1][..i] == ts[..i];
      TaggedStep(c, s, ts, i);
      var next := MergeTask(c.scratch, u, refs.value);
      forall slot: nat
        ensures SlotTag(c, s, ts[..i + 1], slot) ==
                  MergeTag(c.scratch, SlotTag(c, s, ts[..i], slot), FirstTag(c, Records(s, ts[i]).value, slot))
      {
        SlotTagLast(c, s, ts[..i + 1], slot);
      }
      if next.Err? {
        ghost var slot: nat :| MergeTag(c.scratch, MergedOf(u, slot), TagIn(refs.value, slot)) == Conflict;
        if AllTagged(c, s, ts) {
          ConflictStays(c, s, ts, i + 1, slot);
        }
        return next;
      }
      u := next.value;
    }
    assert ts[..|ts|] == ts;
    UnionsNoConflict(c, s, ts, u);
    r := Ok(u);
  }

  lemma SlotTagLast(c: Context, s: seq<byte>, ts: seq<Task>, slot: nat)
    requires ScanShape(c.sc) && RecordsFit(s, ts) && ts != []
    ensures var n := |ts| - 1;
            && RecordsFit(s, ts[..n])
            && SlotTag(c, s, ts, slot) == MergeTag(c.scratch, SlotTag(c, s, ts[..n], slot),
                 FirstTag(c, Records(s, ts[n]).value, slot))
  {
    hide Records, FirstTag, MergeTag, ScanShape;
  }

  lemma UnionsNoConflict(c: Context, s: seq<byte>, ts: seq<Task>, u: Union)
    requires ScanShape(c.sc) && RecordsFit(s, ts) && Unions(c, s, ts, u)
    ensures forall slot: nat :: SlotTag(c, s, ts, slot) != Conflict
  {
    hide Records, SlotTag, ScanShape, UnionOk;
    forall slot: nat
      ensures SlotTag(c, s, ts, slot) != Conflict
    {
      assert MergedOf(u, slot) == SlotTag(c, s, ts, slot);
    }
  }

  lemma NothingMerged(c: Context, s: seq<byte>, u: Union)
    requires ScanShape(c.sc) && u == Union(map[], map[], [], false)
    ensures AllTagged(c, s, []) && Unions(c, s, [], u)
  {
    hide ScanShape, Eligible;
  }

  lemma TaggedStep(c: Context, s: seq<byte>, ts: seq<Task>, i: nat)
    requires ScanShape(c.sc) && i < |ts| && AllTagged(c, s, ts[..i]) && InStream(s, ts[i])
    requires Records(s, ts[i]).Ok? && Tagged(c, Records(s, ts[i]).value)
    ensures AllTagged(c, s, ts[..i + 1])
  {
    hide ScanShape, Records, Tagged, InStream;
    var p := ts[..i + 1];
    forall k | 0 <= k < |p|
      ensures InStream(s, p[k]) && Records(s, p[k]).Ok? && Tagged(c, Records(s, p[k]).value)
    {
      if k < i {
        assert p[k] == ts[..i][k];
      }
    }
  }

  // ---- the tag of a slot, declaratively ----

  /** Task i names the slot, first with this tag. */
  ghost predicate Names(c: Context, s: seq<byte>, ts: seq<Task>, i: int, slot: nat, tag: nat)
    requires ScanShape(c.sc) && RecordsFit(s, ts)
  {
    0 <= i < |ts| && FirstTag(c, Records(s, ts[i]).value, slot) == Some(tag)
  }

  ghost predicate Agree(c: Context, s: seq<byte>, ts: seq<Task>, slot: nat, tag: nat)
    requires ScanShape(c.sc) && RecordsFit(s, ts)
  {
    (exists i :: Names(c, s, ts, i, slot, tag)) && forall i, t :: Names(c, s, ts, i, slot, t) ==> t == tag
  }

  ghost predicate Disagree(c: Context, s: seq<byte>, ts: seq<Task>, slot: nat)
    requires ScanShape(c.sc) && RecordsFit(s, ts)
  {
    exists i, j, t, u :: Names(c, s, ts, i, slot, t) && Names(c, s, ts, j, slot, u) && t != u
  }

  lemma NamesStep(c: Context, s: seq<byte>, ts: seq<Task>, slot: nat)
    requires ScanShape(c.sc) && RecordsFit(s, ts) && ts != []
    ensures RecordsFit(s, ts[..|ts| - 1])
    ensures forall i, t: nat :: Names(c, s, ts, i, slot, t) <==>
              Names(c, s, ts[..|ts| - 1], i, slot, t)
                || (i == |ts| - 1 && FirstTag(c, Records(s, ts[i]).value, slot) == Some(t))
  {
    hide ScanShape, Records, FirstTag;
    var p := ts[..|ts| - 1];
    forall i | 0 <= i < |p| ensures p[i] == ts[i] {}
  }

  /** A slot no task names is unused; a slot whose tasks agree on a first tag gets it; a slot whose
      tasks disagree goes to scratch, or is a conflict when scratch is disabled. */
  lemma {:induction false} SlotTagMeans(c: Context, s: seq<byte>, ts: seq<Task>, slot: nat)
    requires ScanShape(c.sc) && RecordsFit(s, ts)
    ensures match SlotTag(c, s, ts, slot)
            case Unused => forall i, t :: !Names(c, s, ts, i, slot, t)
            case Tag(tag) => Agree(c, s, ts, slot, tag)
              || (Disagree(c, s, ts, slot) && c.scratch != 0 && tag == c.scratch)
            case Conflict => Disagree(c, s, ts, slot) && c.scratch == 0
    decreases |ts|
  {
    hide ScanShape, Records, FirstTag;
    if ts != [] {
      var n := |ts| - 1;
      NamesStep(c, s, ts, slot);
      SlotTagMeans(c, s, ts[..n], slot);
      SlotTagLast(c, s, ts, slot);
      hide Names;
      var first := FirstTag(c, Records(s, ts[n]).value, slot);
      if first.Some? {
        assert Names(c, s, ts, n, slot, first.value);
      }
    }
  }

  // ---- the ref set ----

  predicate Known(c: Context, tag: nat) {
    tag == KERNEL_TAG || (c.scratch != 0 && tag == c.scratch)
      || exists i :: 0 <= i < |c.ios| && c.ios[i].bufferId == tag
  }

  function PairOf(u: Union, slot: nat): Ref
    requires slot in u.tags
  {
    Ref(slot, u.tags[slot])
  }

  ghost predicate PairsUpTo(u: Union, k: nat, refs: seq<Ref>)
    requires UnionOk(u) && k <= |u.slots|
  {
    |refs| == k && forall i :: 0 <= i < k ==> refs[i] == PairOf(u, u.slots[i])
  }

  ghost predicate IsRefsOf(u: Union, refs: seq<Ref>) {
    StrictlySorted(refs) && forall r: Ref :: r in refs <==> r.slot in u.tags && u.tags[r.slot] == r.tag
  }

  lemma PairsAreRefs(u: Union, pairs: seq<Ref>, refs: seq<Ref>)
    requires UnionOk(u) && PairsUpTo(u, |u.slots|, pairs) && SortedBy(refs, SlotOf) && multiset(refs) == multiset(pairs)
    ensures IsRefsOf(u, refs)
  {
    hide Eligible;
    assert DistinctSlots(pairs);
    SortedDistinct(refs, pairs);
    forall r: Ref
      ensures r in refs <==> r.slot in u.tags && u.tags[r.slot] == r.tag
    {
      assert r in refs <==> r in multiset(refs);
      assert r in pairs <==> r in multiset(pairs);
      PairIn(u, pairs, r);
    }
  }

  lemma PairIn(u: Union, pairs: seq<Ref>, r: Ref)
    requires UnionOk(u) && PairsUpTo(u, |u.slots|, pairs)
    ensures r in pairs <==> r.slot in u.tags && u.tags[r.slot] == r.tag
  {
    hide Eligible, DistinctNats;
    if r.slot in u.tags && u.tags[r.slot] == r.tag {
      var i :| 0 <= i < |u.slots| && u.slots[i] == r.slot;
      assert pairs[i] == r;
    }
  }

  /** The pairs of the union, sorted in place by slot. */
  method SortPairs(u: Union) returns (refs: seq<Ref>)
    requires UnionOk(u)
    ensures IsRefsOf(u, refs) && |refs| == |u.slots|
  {
    hide Eligible, SortedBy, DistinctNats;
    var a := new Ref[|u.slots|](_ => Ref(0, 0));
    for i := 0 to |u.slots|
      invariant PairsUpTo(u, i, a[..i])
    {
      a[i] := PairOf(u, u.slots[i]);
    }
    ghost var pairs := a[..];
    assert a[..|u.slots|] == pairs;
    InsertionSort(a, SlotOf, |u.slots|);
    refs := a[..|u.slots|];
    PairsAreRefs(u, pairs, refs);
  }

  method CheckKnown(c: Context, refs: seq<Ref>) returns (ok: bool)
    ensures ok <==> forall i :: 0 <= i < |refs| ==> Known(c, refs[i].tag)
  {
    for i := 0 to |refs|
      invariant forall k :: 0 <= k < i ==> Known(c, refs[k].tag)
    {
      var known := refs[i].tag == KERNEL_TAG || (c.scratch != 0 && refs[i].tag == c.scratch);
      var s := 0;
      while s < |c.ios| && !known
        invariant 0 <= s <= |c.ios| && (known ==> Known(c, refs[i].tag))
        invariant !known ==> refs[i].tag != KERNEL_TAG && !(c.scratch != 0 && refs[i].tag == c.scratch)
        invariant !known ==> forall k :: 0 <= k < s ==> c.ios[k].bufferId != refs[i].tag
      {
        known := c.ios[s].bufferId == refs[i].tag;
        s := s + 1;
      }
      if !known {
        return false;
      }
    }
    return true;
  }

  // ---- derive_refs ----

  /** The context pass 2 works in. */
  ghost function ProgramContext(s: seq<byte>, ts: seq<Task>, ios: seq<Io>, scratch: nat): (c: Context)
    requires RecordsFit(s, ts) && ScanAll(Start(), AllRecords(s, ts)).Ok?
    ensures ScanShape(c.sc) && c.scratch == scratch && c.ios == ios
  {
    ContextOf(ios, scratch, ScanAll(Start(), AllRecords(s, ts)).value)
  }

  /** A program is a blend exactly when some slot first read through source B lies below one first read
      through source A, neither written before. */
  lemma BlendOfRecords(s: seq<byte>, ts: seq<Task>, ios: seq<Io>, scratch: nat)
    requires RecordsFit(s, ts) && ScanAll(Start(), AllRecords(s, ts)).Ok?
    ensures var rs := AllRecords(s, ts);
            Blend(ProgramContext(s, ts, ios, scratch)) <==>
              exists b: nat, a: nat :: IsInputB(rs, b) && IsInputA(rs, a) && b < a
  {
    hide ScanAll, AllRecords, Records, IsInputA, IsInputB, Ascending, ContextOf, Blend;
    var rs := AllRecords(s, ts);
    var sc := ScanAll(Start(), rs).value;
    BlendMeans(ios, scratch, sc);
    forall slot: nat
      ensures slot in sc.srcA <==> IsInputA(rs, slot)
      ensures slot in sc.srcB <==> IsInputB(rs, slot)
    {
      if slot < SLOTS {
        ScanMeans(rs, slot);
      } else {
        NoInput(rs, sc, slot);
      }
    }
  }

  lemma NoInput(rs: seq<Record>, sc: Scan, slot: nat)
    requires ScanShape(sc) && slot >= SLOTS
    ensures slot !in sc.srcA && slot !in sc.srcB && !IsInputA(rs, slot) && !IsInputB(rs, slot)
  {
    hide IsBarRef, Addr, Sees;
  }

  ghost predicate TagsKnown(c: Context, s: seq<byte>, ts: seq<Task>)
    requires ScanShape(c.sc) && RecordsFit(s, ts)
  {
    forall slot: nat, tag: nat :: SlotTag(c, s, ts, slot) == Tag(tag) ==> Known(c, tag)
  }

  ghost predicate Resolved(c: Context, s: seq<byte>, ts: seq<Task>)
    requires ScanShape(c.sc)
  {
    && AllTagged(c, s, ts)
    && (forall slot: nat :: SlotTag(c, s, ts, slot) != Conflict)
    && TagsKnown(c, s, ts)
    && (exists slot: nat :: SlotTag(c, s, ts, slot) != Unused)
  }

  /** When derive_refs succeeds, as conditions on the stream: the records fit and scan, every BAR
      reference has a tag, no slot is in conflict, every resulting tag is known, and some record
      names a slot. */
  ghost predicate Derivable(s: seq<byte>, ts: seq<Task>, ios: seq<Io>, scratch: nat)
  {
    && RecordsFit(s, ts) && ScanAll(Start(), AllRecords(s, ts)).Ok?
    && Resolved(ProgramContext(s, ts, ios, scratch), s, ts)
  }

  ghost predicate RefsAre(c: Context, s: seq<byte>, ts: seq<Task>, refs: seq<Ref>)
    requires ScanShape(c.sc) && RecordsFit(s, ts)
  {
    StrictlySorted(refs) && forall slot, tag :: Ref(slot, tag) in refs <==> SlotTag(c, s, ts, slot) == Tag(tag)
  }

  ghost predicate Derived(s: seq<byte>, ts: seq<Task>, ios: seq<Io>, scratch: nat, refs: seq<Ref>)
    requires RecordsFit(s, ts) && ScanAll(Start(), AllRecords(s, ts)).Ok?
  {
    RefsAre(ProgramContext(s, ts, ios, scratch), s, ts, refs)
  }

  method DeriveRefs(s: seq<byte>, ts: seq<Task>, ios: seq<Io>, scratch: nat) returns (r: Result<seq<Ref>>)
    requires forall i :: 0 <= i < |ts| ==> InStream(s, ts[i])
    ensures r.Ok? <==> Derivable(s, ts, ios, scratch)
    ensures r.Ok? ==>
              RecordsFit(s, ts) && ScanAll(Start(), AllRecords(s, ts)).Ok?
              && Derived(s, ts, ios, scratch, r.value)
  {
    hide ScanAll, ScanShape, Records, InStream, SlotTag, AllTagged, AllRecords, Known, UnionOk, Unions, IsRefsOf,
      Resolved, RefsAre;
    StartShape();
    var sc := ScanTasks(s, ts);
    if sc.Err? {
      return Err(sc.why);
    }
    var c := BuildContext(ios, scratch, sc.value);
    assert c == ProgramContext(s, ts, ios, scratch);
    var u := MergeTasks(c, s, ts);
    if u.Err? {
      NotResolved(c, s, ts);
      return Err(u.why);
    }
    UnionsOk(c, s, ts, u.value);
    var refs := SortPairs(u.value);
    var known := CheckKnown(c, refs);
    RefsMean(c, s, ts, u.value, refs);
    if !known {
      return Err(UnknownTag);
    }
    if refs == [] {
      return Err(NoRef);
    }
    r := Ok(refs);
  }

  lemma NotResolved(c: Context, s: seq<byte>, ts: seq<Task>)
    requires ScanShape(c.sc) && !(AllTagged(c, s, ts) && forall slot: nat :: SlotTag(c, s, ts, slot) != Conflict)
    ensures !Resolved(c, s, ts)
  {
    hide ScanShape, SlotTag, Known;
  }

  lemma UnionsOk(c: Context, s: seq<byte>, ts: seq<Task>, u: Union)
    requires ScanShape(c.sc) && RecordsFit(s, ts) && Unions(c, s, ts, u)
    ensures UnionOk(u)
  {
  }

  /** The sorted pairs say, slot by slot, what the union says. */
  lemma RefsMean(c: Context, s: seq<byte>, ts: seq<Task>, u: Union, refs: seq<Ref>)
    requires ScanShape(c.sc) && AllTagged(c, s, ts) && Unions(c, s, ts, u) && IsRefsOf(u, refs)
    ensures RefsAre(c, s, ts, refs)
    ensures Resolved(c, s, ts) <==> refs != [] && forall i :: 0 <= i < |refs| ==> Known(c, refs[i].tag)
  {
    hide ScanShape, Records, SlotTag, UnionOk, Known, IsRefsOf;
    UnionsNoConflict(c, s, ts, u);
    UnionRefs(c, s, ts, u, refs);
    KnownTags(c, s, ts, refs);
    SomeSlot(c, s, ts, refs);
  }

  lemma UnionRefs(c: Context, s: seq<byte>, ts: seq<Task>, u: Union, refs: seq<Ref>)
    requires ScanShape(c.sc) && RecordsFit(s, ts) && Unions(c, s, ts, u) && IsRefsOf(u, refs)
    ensures RefsAre(c, s, ts, refs)
  {
    hide ScanShape, Records, SlotTag, UnionOk, Known, StrictlySorted;
    forall slot: nat, tag
      ensures Ref(slot, tag) in refs <==> SlotTag(c, s, ts, slot) == Tag(tag)
    {
      assert MergedOf(u, slot) == SlotTag(c, s, ts, slot);
    }
  }

  lemma KnownTags(c: Context, s: seq<byte>, ts: seq<Task>, refs: seq<Ref>)
    requires ScanShape(c.sc) && RecordsFit(s, ts) && RefsAre(c, s, ts, refs)
    ensures (forall i :: 0 <= i < |refs| ==> Known(c, refs[i].tag)) <==> TagsKnown(c, s, ts)
  {
    hide ScanShape, Records, SlotTag, Known, StrictlySorted;
    if forall i :: 0 <= i < |refs| ==> Known(c, refs[i].tag) {
      forall slot: nat, tag: nat | SlotTag(c, s, ts, slot) == Tag(tag)
        ensures Known(c, tag)
      {
        assert Ref(slot, tag) in refs;
        var i :| 0 <= i < |refs| && refs[i] == Ref(slot, tag);
      }
    }
    if TagsKnown(c, s, ts) {
      forall i | 0 <= i < |refs|
        ensures Known(c, refs[i].tag)
      {
        var r := refs[i];
        assert Ref(r.slot, r.tag) == r && Ref(r.slot, r.tag) in refs;
        assert SlotTag(c, s, ts, r.slot) == Tag(r.tag);
      }
    }
  }

  lemma SomeSlot(c: Context, s: seq<byte>, ts: seq<Task>, refs: seq<Ref>)
    requires ScanShape(c.sc) && RecordsFit(s, ts) && RefsAre(c, s, ts, refs)
    requires forall slot: nat :: SlotTag(c, s, ts, slot) != Conflict
    ensures refs != [] <==> exists slot: nat :: SlotTag(c, s, ts, slot) != Unused
  {
    hide ScanShape, Records, SlotTag, StrictlySorted;
    if refs != [] {
      assert refs[0] == Ref(refs[0].slot, refs[0].tag);
      assert SlotTag(c, s, ts, refs[0].slot) != Unused;
    }
    if slot: nat :| SlotTag(c, s, ts, slot) != Unused {
      assert Ref(slot, SlotTag(c, s, ts, slot).tag) in refs;
    }
  }

  /** DERIVED REFS ARE A FUNCTION. A slot is bound once, exactly when some record names it; its tag
      is known; it is the first-record tag its tasks agree on, or the scratch id where they
      disagree. */
  lemma DerivedMeans(s: seq<byte>, ts: seq<Task>, ios: seq<Io>, scratch: nat, refs: seq<Ref>, slot: nat)
    requires Derivable(s, ts, ios, scratch) && Derived(s, ts, ios, scratch, refs)
    ensures var c := ProgramContext(s, ts, ios, scratch);
            && refs != [] && StrictlySorted(refs)
            && (forall tag :: Ref(slot, tag) in refs ==>
                  && Known(c, tag)
                  && (Agree(c, s, ts, slot, tag) || (Disagree(c, s, ts, slot) && scratch != 0 && tag == scratch)))
            && ((exists tag :: Ref(slot, tag) in refs) <==>
                  exists i, k :: 0 <= i < |ts| && 0 <= k < |Records(s, ts[i]).value|
                    && IsBarRef(Records(s, ts[i]).value[k].header) && Slot(Records(s, ts[i]).value[k].header) == slot)
  {
    hide ScanShape, Records, AllRecords, ScanAll, SlotTag, Known, StrictlySorted, Agree, Disagree, IsBarRef, Slot,
      FirstTag;
    var c := ProgramContext(s, ts, ios, scratch);
    SlotTagMeans(c, s, ts, slot);
    var other: nat :| SlotTag(c, s, ts, other) != Unused;
    assert Ref(other, SlotTag(c, s, ts, other).tag) in refs;
    if tag :| Ref(slot, tag) in refs {
      assert SlotTag(c, s, ts, slot) == Tag(tag);
      var i, t := SomeName(c, s, ts, slot, tag);
      var k := NameRecord(c, s, ts, i, slot, t);
    }
    forall i, k | 0 <= i < |ts| && 0 <= k < |Records(s, ts[i]).value|
                  && IsBarRef(Records(s, ts[i]).value[k].header) && Slot(Records(s, ts[i]).value[k].header) == slot
      ensures exists tag :: Ref(slot, tag) in refs
    {
      var t := RecordNames(c, s, ts, i, k, slot);
      assert SlotTag(c, s, ts, slot) != Unused;
      assert Ref(slot, SlotTag(c, s, ts, slot).tag) in refs;
    }
  }

  lemma SomeName(c: Context, s: seq<byte>, ts: seq<Task>, slot: nat, tag: nat) returns (i: nat, t: nat)
    requires ScanShape(c.sc) && RecordsFit(s, ts) && (Agree(c, s, ts, slot, tag) || Disagree(c, s, ts, slot))
    ensures Names(c, s, ts, i, slot, t)
  {
    hide ScanShape, Records, FirstTag;
    i, t :| Names(c, s, ts, i, slot, t);
  }

  lemma NameRecord(c: Context, s: seq<byte>, ts: seq<Task>, i: nat, slot: nat, tag: nat) returns (k: nat)
    requires ScanShape(c.sc) && RecordsFit(s, ts) && Names(c, s, ts, i, slot, tag)
    ensures k < |Records(s, ts[i]).value| && IsBarRef(Records(s, ts[i]).value[k].header)
            && Slot(Records(s, ts[i]).value[k].header) == slot
  {
    hide ScanShape, Records, TagRef, IsBarRef, Slot;
    var rs := Records(s, ts[i]).value;
    var first := FirstAt(rs, slot).value;
    k :| k < |rs| && rs[k] == first;
  }

  lemma RecordNames(c: Context, s: seq<byte>, ts: seq<Task>, i: nat, k: nat, slot: nat) returns (tag: nat)
    requires ScanShape(c.sc) && AllTagged(c, s, ts) && i < |ts| && k < |Records(s, ts[i]).value|
    requires IsBarRef(Records(s, ts[i]).value[k].header) && Slot(Records(s, ts[i]).value[k].header) == slot
    ensures Names(c, s, ts, i, slot, tag)
  {
    hide ScanShape, Records, TagRef, IsBarRef, Slot;
    var rs := Records(s, ts[i]).value;
    var first := FirstAt(rs, slot).value;
    var j :| 0 <= j < |rs| && rs[j] == first;
    assert Tagged(c, rs) && TagRef(c, rs[j]).Ok?;
    tag := TagRef(c, first).value.tag;
  }

  // ---- elementwise programs ----

  /** Task i names the slot, first through a register of this channel. */
  ghost predicate NamedAs(s: seq<byte>, ts: seq<Task>, i: int, slot: nat, tag: nat)
    requires RecordsFit(s, ts)
  {
    && 0 <= i < |ts|
    && var first := FirstAt(Records(s, ts[i]).value, slot);
       first.Some? && RoleTag(Addr(first.value.header), slot) == tag
  }

  /** Some task names the slot, and all that do name it as this channel. */
  ghost predicate Agreed(s: seq<byte>, ts: seq<Task>, slot: nat, tag: nat)
    requires RecordsFit(s, ts)
  {
    (exists i :: NamedAs(s, ts, i, slot, tag)) && forall i, t :: NamedAs(s, ts, i, slot, t) ==> t == tag
  }

  /** Two tasks name the slot as different channels. */
  ghost predicate Disputed(s: seq<byte>, ts: seq<Task>, slot: nat)
    requires RecordsFit(s, ts)
  {
    exists i, j, t, u :: NamedAs(s, ts, i, slot, t) && NamedAs(s, ts, j, slot, u) && t != u
  }

  lemma NamesAs(c: Context, s: seq<byte>, ts: seq<Task>, i: int, slot: nat, tag: nat)
    requires ScanShape(c.sc) && AllTagged(c, s, ts) && !Matmul(c) && !Blend(c)
    ensures Names(c, s, ts, i, slot, tag) <==> NamedAs(s, ts, i, slot, tag)
    ensures NamedAs(s, ts, i, slot, tag) && tag in {5, 6} ==> slot > 3
  {
    hide ScanShape, Records, IsBarRef, TagOf, Addr, Matmul, Blend, RoleTag, FirstAt, HasBit28;
    if 0 <= i < |ts| {
      var rs := Records(s, ts[i]).value;
      var first := FirstAt(rs, slot);
      if first.Some? {
        FirstIsIn(rs, slot);
        var k :| 0 <= k < |rs| && rs[k] == first.value;
        assert Tagged(c, rs) && TagRef(c, rs[k]).Ok?;
        ElementwiseTag(c, Addr(rs[k].header), slot);
      }
    }
  }

  lemma FirstIsIn(rs: seq<Record>, slot: nat)
    ensures FirstAt(rs, slot).Some? ==>
              FirstAt(rs, slot).value in rs && IsBarRef(FirstAt(rs, slot).value.header)
                && Slot(FirstAt(rs, slot).value.header) == slot
  {
    hide IsBarRef;
  }

  /** THE CHANNEL CONTRACT. In an elementwise program a slot is bound to the channel of the register class
      its tasks first name it through, 4 for destinations, 5 for source A, 6 for source B and 2 for the
      kernel, exactly when all of them do; where two tasks differ it is bound to scratch, and there is no
      other case. */
  lemma ElementwiseRefs(s: seq<byte>, ts: seq<Task>, ios: seq<Io>, scratch: nat, refs: seq<Ref>, slot: nat, tag: nat)
    requires Derivable(s, ts, ios, scratch) && Derived(s, ts, ios, scratch, refs)
    requires var c := ProgramContext(s, ts, ios, scratch); !Matmul(c) && !Blend(c)
    ensures Ref(slot, tag) in refs <==> Agreed(s, ts, slot, tag) || (tag == scratch && Disputed(s, ts, slot))
    ensures forall i, t :: NamedAs(s, ts, i, slot, t) ==> t in {KERNEL_TAG, 4, 5, 6} && (t in {5, 6} ==> slot > 3)
  {
    hide ScanShape, Records, AllRecords, ScanAll, SlotTag, Known, StrictlySorted, FirstTag, Matmul, Blend, NamedAs,
      Names, AllTagged;
    var c := ProgramContext(s, ts, ios, scratch);
    assert AllTagged(c, s, ts);
    forall i, t: nat
      ensures Names(c, s, ts, i, slot, t) <==> NamedAs(s, ts, i, slot, t)
      ensures NamedAs(s, ts, i, slot, t) ==> t in {KERNEL_TAG, 4, 5, 6} && (t in {5, 6} ==> slot > 3)
    {
      NamesAs(c, s, ts, i, slot, t);
      RoleTags(s, ts, i, slot, t);
    }
    SlotTagMeans(c, s, ts, slot);
    assert Ref(slot, tag) in refs <==> SlotTag(c, s, ts, slot) == Tag(tag);
    assert SlotTag(c, s, ts, slot) != Conflict;
  }

  lemma RoleTags(s: seq<byte>, ts: seq<Task>, i: int, slot: nat, tag: nat)
    requires RecordsFit(s, ts)
    ensures NamedAs(s, ts, i, slot, tag) ==> tag in {KERNEL_TAG, 4, 5, 6}
  {
    hide Records, FirstAt, Addr;
  }
}
