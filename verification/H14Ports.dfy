/** ane_m2_program_build_ports: the package builder driven by an explicit port table. */
module H14Ports {
  import opened Basics
  import opened H14Bytes
  import opened H14Records
  import opened H14Sort

  /** One port: its direction (0 input, 1 output, 2 scratch), io id, BAR slot and BO size. */
  datatype Port = Port(dir: nat, bufferId: nat, slot: nat, tileBytes: nat)

  const HEADER_BYTES: nat := 0x1000
  const SCRATCH_BUFID: nat := 0x40
  const MAX_BINDS: nat := 64

  // ---- the port table ----

  predicate PortOk(p: Port) {
    && p.tileBytes > 0 && p.tileBytes % 0x4000 == 0
    && p.dir <= 2
    && (if p.dir == 2 then p.bufferId == SCRATCH_BUFID
        else p.bufferId < TILE_COUNT && p.bufferId != 2 && p.bufferId != 3)
    && 2 <= p.slot <= 0x3c
  }

  predicate Apart(p: Port, q: Port) {
    p.bufferId != q.bufferId && p.slot != q.slot
  }

  ghost predicate PortsApart(ports: seq<Port>) {
    forall i, j :: 0 <= i < j < |ports| ==> Apart(ports[i], ports[j])
  }

  ghost predicate PortsOk(ports: seq<Port>) {
    && (forall i :: 0 <= i < |ports| ==> PortOk(ports[i]))
    && PortsApart(ports)
  }

  /** The ports of one direction, in table order. */
  function OfDir(ports: seq<Port>, dir: nat): (r: seq<Port>)
    ensures forall i :: 0 <= i < |r| ==> r[i].dir == dir && r[i] in ports
    ensures forall i :: 0 <= i < |ports| && ports[i].dir == dir ==> ports[i] in r
  {
    if ports == [] then []
    else
      var n := |ports| - 1;
      var before := OfDir(ports[..n], dir);
      assert ports == ports[..n] + [ports[n]];
      if ports[n].dir == dir then before + [ports[n]] else before
  }

  ghost predicate CountsOk(ports: seq<Port>, inputCount: nat) {
    |OfDir(ports, 0)| == inputCount && |OfDir(ports, 1)| >= 1 && |OfDir(ports, 2)| <= 1
  }

  /** No earlier port shares an id or a slot with port k. */
  method ApartFromEarlier(ports: seq<Port>, k: nat) returns (ok: bool)
    requires k < |ports|
    ensures ok <==> forall i :: 0 <= i < k ==> Apart(ports[i], ports[k])
  {
    for j := 0 to k
      invariant forall i :: 0 <= i < j ==> Apart(ports[i], ports[k])
    {
      if !Apart(ports[j], ports[k]) {
        return false;
      }
    }
    return true;
  }

  lemma PortsOkStep(ports: seq<Port>, k: nat)
    requires k < |ports|
    ensures PortsOk(ports[..k + 1]) <==>
              PortsOk(ports[..k]) && PortOk(ports[k]) && forall i :: 0 <= i < k ==> Apart(ports[i], ports[k])
  {
    hide PortOk, Apart;
    var p := ports[..k + 1];
    if PortsOk(p) {
      assert p[k] == ports[k];
      forall i | 0 <= i < k ensures Apart(ports[i], ports[k]) { assert p[i] == ports[i]; }
      forall i | 0 <= i < k ensures PortOk(ports[i]) { assert p[i] == ports[i]; }
      forall i, j | 0 <= i < j < k ensures Apart(ports[i], ports[j]) { assert p[i] == ports[i] && p[j] == ports[j]; }
    }
  }

  lemma {:induction false} PortsOkPrefix(ports: seq<Port>, k: nat)
    requires k <= |ports| && PortsOk(ports)
    ensures PortsOk(ports[..k])
  {
  }

  lemma OfDirStep(ports: seq<Port>, k: nat, dir: nat)
    requires k < |ports|
    ensures OfDir(ports[..k + 1], dir) ==
            if ports[k].dir == dir then OfDir(ports[..k], dir) + [ports[k]] else OfDir(ports[..k], dir)
  {
    assert ports[..k + 1][..k] == ports[..k];
  }

  method CheckPorts(ports: seq<Port>, inputCount: nat) returns (ok: bool)
    ensures ok <==> PortsOk(ports) && CountsOk(ports, inputCount)
  {
    hide PortsOk, Apart, OfDir;
    assert ports[..0] == [];
    NoPorts();
    var counts := [0, 0, 0];
    for k := 0 to |ports|
      invariant PortsOk(ports[..k])
      invariant |counts| == 3 && forall d :: 0 <= d < 3 ==> counts[d] == |OfDir(ports[..k], d)|
    {
      PortsOkStep(ports, k);
      if PortsOk(ports) {
        PortsOkPrefix(ports, k + 1);
      }
      if !PortOk(ports[k]) {
        return false;
      }
      var apart := ApartFromEarlier(ports, k);
      if !apart {
        return false;
      }
      OfDirStep(ports, k, 0);
      OfDirStep(ports, k, 1);
      OfDirStep(ports, k, 2);
      counts := counts[ports[k].dir := counts[ports[k].dir] + 1];
    }
    assert ports[..|ports|] == ports;
    ok := counts[0] == inputCount && counts[1] >= 1 && counts[2] <= 1;
  }

  lemma NoPorts()
    ensures PortsOk([]) && OfDir([], 0) == [] && OfDir([], 1) == [] && OfDir([], 2) == []
  {
  }

  // ---- the io table ----

  function IoOf(p: Port): Io { Io(p.bufferId, p.dir, p.tileBytes) }

  function Ios(ports: seq<Port>): seq<Io> {
    seq(|ports|, i requires 0 <= i < |ports| => IoOf(ports[i]))
  }

  /** The inputs, the outputs, then the scratch, each in table order. */
  function IoTable(ports: seq<Port>): seq<Io> {
    Ios(OfDir(ports, 0)) + Ios(OfDir(ports, 1)) + Ios(OfDir(ports, 2))
  }

  method AppendDir(ports: seq<Port>, dir: nat, start: seq<Io>) returns (ios: seq<Io>)
    ensures ios == start + Ios(OfDir(ports, dir))
  {
    ios := start;
    for k := 0 to |ports|
      invariant ios == start + Ios(OfDir(ports[..k], dir))
    {
      assert ports[..k + 1][..k] == ports[..k];
      if ports[k].dir == dir {
        ios := ios + [IoOf(ports[k])];
      }
    }
    assert ports[..|ports|] == ports;
  }

  method BuildIoTable(ports: seq<Port>) returns (ios: seq<Io>)
    ensures ios == IoTable(ports)
  {
    ios := AppendDir(ports, 0, []);
    ios := AppendDir(ports, 1, ios);
    ios := AppendDir(ports, 2, ios);
  }

  // ---- the ref set ----

  const KERNEL_REF := Ref(1, KERNEL_TAG)

  /** The kernel pair and one pair per port, in table order. */
  function PortRefs(ports: seq<Port>): seq<Ref> {
    [KERNEL_REF] + seq(|ports|, i requires 0 <= i < |ports| => Ref(ports[i].slot, ports[i].bufferId))
  }

  ghost predicate IsRefSet(ports: seq<Port>, refs: seq<Ref>) {
    StrictlySorted(refs) && multiset(refs) == multiset(PortRefs(ports))
  }

  lemma PortRefsDistinct(ports: seq<Port>)
    requires PortsOk(ports)
    ensures DistinctSlots(PortRefs(ports))
  {
    var refs := PortRefs(ports);
    forall i, j | 0 <= i < j < |refs|
      ensures refs[i].slot != refs[j].slot
    {
      assert PortOk(ports[j - 1]);
      if i > 0 {
        assert Apart(ports[i - 1], ports[j - 1]);
      }
    }
  }

  method BuildRefs(ports: seq<Port>) returns (refs: seq<Ref>)
    requires |ports| < MAX_BINDS && PortsOk(ports)
    ensures IsRefSet(ports, refs)
  {
    var tmp := new Ref[MAX_BINDS](_ => KERNEL_REF);
    var i := 1;
    while i <= |ports|
      invariant 1 <= i <= |ports| + 1
      invariant tmp[..i] == PortRefs(ports)[..i]
    {
      tmp[i] := Ref(ports[i - 1].slot, ports[i - 1].bufferId);
      assert tmp[..i + 1] == PortRefs(ports)[..i + 1];
      i := i + 1;
    }
    assert PortRefs(ports)[..i] == PortRefs(ports);
    InsertionSort(tmp, SlotOf, i);
    refs := tmp[..i];
    PortRefsDistinct(ports);
    SortedDistinct(refs, PortRefs(ports));
  }

  /** The order of the ref set does not matter to a lookup. */
  lemma SameLookup(ports: seq<Port>, refs: seq<Ref>, slot: nat)
    requires PortsOk(ports) && IsRefSet(ports, refs)
    ensures SlotRef(refs, slot) == SlotRef(PortRefs(ports), slot)
  {
    PortRefsDistinct(ports);
    var o := PortRefs(ports);
    forall r: Ref
      ensures SlotRef(refs, slot) == Ok(r) <==> SlotRef(o, slot) == Ok(r)
    {
      SlotRefIs(refs, slot, r);
      SlotRefIs(o, slot, r);
      assert r in refs <==> r in multiset(refs);
      assert r in o <==> r in multiset(o);
    }
    SlotRefErr(refs, slot);
    SlotRefErr(o, slot);
    if SlotRef(refs, slot).Ok? {
      assert SlotRef(o, slot) == Ok(SlotRef(refs, slot).value);
    }
    if SlotRef(o, slot).Ok? {
      assert SlotRef(refs, slot) == Ok(SlotRef(o, slot).value);
    }
  }

  lemma {:induction false} SlotRefErr(refs: seq<Ref>, slot: nat)
    ensures SlotRef(refs, slot).Err? ==> SlotRef(refs, slot) == Err(SlotUnbound)
  {
    if refs != [] {
      SlotRefErr(refs[..|refs| - 1], slot);
    }
  }
}
