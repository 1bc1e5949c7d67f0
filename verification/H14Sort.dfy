/** The insertion sort of libane/ane_m2.c, in place: ref pairs by BAR slot, and slot lists. */
module H14Sort {
  import opened H14Bytes
  import opened H14Records

  ghost predicate SortedBy<T>(s: seq<T>, key: T -> nat) {
    forall i, j :: 0 <= i < j < |s| ==> key(s[i]) <= key(s[j])
  }

  lemma Inserted<T>(p: seq<T>, key: T -> nat, j: nat, r: T)
    requires SortedBy(p, key) && j <= |p|
    requires j == 0 || key(p[j - 1]) <= key(r)
    requires forall k :: j <= k < |p| ==> key(r) < key(p[k])
    ensures SortedBy(p[..j] + [r] + p[j..], key)
    ensures multiset(p[..j] + [r] + p[j..]) == multiset(p) + multiset{r}
  {
    assert forall k :: 0 <= k < j ==> key(p[k]) <= key(p[j - 1]);
    InsertedSorted(p, key, j, r);
    assert p == p[..j] + p[j..];
  }

  lemma InsertedSorted<T>(p: seq<T>, key: T -> nat, j: nat, r: T)
    requires SortedBy(p, key) && j <= |p|
    requires forall k :: 0 <= k < j ==> key(p[k]) <= key(r)
    requires forall k :: j <= k < |p| ==> key(r) < key(p[k])
    ensures SortedBy(p[..j] + [r] + p[j..], key)
  {
  }

  /** Shift the larger elements up and drop element i into the hole. */
  method InsertOne<T>(a: array<T>, key: T -> nat, i: nat)
    requires i < a.Length && SortedBy(a[..i], key)
    modifies a
    ensures SortedBy(a[..i + 1], key) && a[i + 1..] == old(a[i + 1..])
    ensures multiset(a[..i + 1]) == multiset(old(a[..i + 1]))
  {
    hide SortedBy;
    ghost var pre := a[..i];
    assert a[..i + 1] == pre + [a[i]];
    var r, j := a[i], i;
    while j > 0 && key(a[j - 1]) > key(r)
      invariant 0 <= j <= i
      invariant forall k :: 0 <= k < j ==> a[k] == pre[k]
      invariant forall k :: j <= k < i ==> a[k + 1] == pre[k] && key(r) < key(pre[k])
      invariant forall k :: i < k < a.Length ==> a[k] == old(a[k])
    {
      a[j] := a[j - 1];
      j := j - 1;
    }
    a[j] := r;
    assert a[..i + 1] == pre[..j] + [r] + pre[j..];
    Inserted(pre, key, j, r);
  }

  method InsertionSort<T>(a: array<T>, key: T -> nat, n: nat)
    requires n <= a.Length
    modifies a
    ensures SortedBy(a[..n], key) && a[n..] == old(a[n..])
    ensures multiset(a[..n]) == multiset(old(a[..n]))
  {
    if n == 0 {
      return;
    }
    ghost var orig := a[..];
    for i := 1 to n
      invariant a.Length == |orig| && SortedBy(a[..i], key) && a[i..] == orig[i..]
      invariant multiset(a[..i]) == multiset(orig[..i])
    {
      assert a[..i + 1] == a[..i] + [orig[i]] && orig[..i + 1] == orig[..i] + [orig[i]];
      assert a[i + 1..] == a[i..][1..] && orig[i + 1..] == orig[i..][1..];
      InsertOne(a, key, i);
    }
  }

  // ---- ref pairs ----

  function SlotOf(r: Ref): nat { r.slot }

  predicate StrictlySorted(s: seq<Ref>) {
    forall i, j :: 0 <= i < j < |s| ==> s[i].slot < s[j].slot
  }

  ghost predicate DistinctSlots(s: seq<Ref>) {
    forall i, j :: 0 <= i < j < |s| ==> s[i].slot != s[j].slot
  }

  /** Distinct slots make a sorted list strictly sorted. */
  lemma SortedDistinct(s: seq<Ref>, o: seq<Ref>)
    requires SortedBy(s, SlotOf) && DistinctSlots(o) && multiset(s) == multiset(o)
    ensures StrictlySorted(s)
  {
    forall i, j | 0 <= i < j < |s|
      ensures s[i].slot < s[j].slot
    {
      assert SlotOf(s[i]) <= SlotOf(s[j]);
      if s[i].slot == s[j].slot {
        TwoOfASlot(s, o, i, j);
        assert false;
      }
    }
  }

  lemma {:induction false} DistinctOnce(o: seq<Ref>, x: Ref)
    requires DistinctSlots(o)
    ensures multiset(o)[x] <= 1
  {
    if o != [] {
      var n := |o| - 1;
      assert o == o[..n] + [o[n]];
      DistinctOnce(o[..n], x);
      if o[n] == x {
        assert x !in o[..n];
      }
    }
  }

  lemma TwoOfASlot(s: seq<Ref>, o: seq<Ref>, i: nat, j: nat)
    requires multiset(s) == multiset(o) && i < j < |s| && s[i].slot == s[j].slot
    ensures !DistinctSlots(o)
  {
    var x, y := s[i], s[j];
    if x == y {
      assert s == s[..j] + [x] + s[j + 1..];
      assert x in s[..j];
      if DistinctSlots(o) {
        DistinctOnce(o, x);
      }
    } else {
      assert x in multiset(s) && y in multiset(s);
      var a :| 0 <= a < |o| && o[a] == x;
      var b :| 0 <= b < |o| && o[b] == y;
    }
  }

  /** With distinct slots, looking a slot up is membership. */
  lemma {:induction false} SlotRefIs(refs: seq<Ref>, slot: nat, r: Ref)
    requires DistinctSlots(refs)
    ensures SlotRef(refs, slot) == Ok(r) <==> r in refs && r.slot == slot
  {
    if refs != [] {
      var n := |refs| - 1;
      SlotRefIs(refs[..n], slot, r);
      assert refs == refs[..n] + [refs[n]];
    }
  }
}
