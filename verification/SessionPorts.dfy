/** How tools/ane-session.c and libane/ane_m2.c number the ports of a program. */
module SessionPorts {
  import opened Basics
  import opened H14Records
  import opened H14Ports

  /** How many ports before k go the given way. */
  function DirIndex(ports: seq<Port>, k: nat, dir: nat): nat
    requires k <= |ports|
  {
    |OfDir(ports[..k], dir)|
  }

  lemma DirIndexStep(ports: seq<Port>, k: nat, dir: nat)
    requires k < |ports|
    ensures DirIndex(ports, k + 1, dir) == DirIndex(ports, k, dir) + if ports[k].dir == dir then 1 else 0
  {
    OfDirStep(ports, k, dir);
  }

  lemma DirIndexEnds(ports: seq<Port>, dir: nat)
    ensures DirIndex(ports, 0, dir) == 0 && DirIndex(ports, |ports|, dir) == |OfDir(ports, dir)|
  {
    assert ports[..|ports|] == ports;
  }

  method PortDirIndex(ports: seq<Port>, k: nat, dir: nat) returns (pos: nat)
    requires k <= |ports|
    ensures pos == DirIndex(ports, k, dir)
  {
    hide DirIndex;
    DirIndexEnds(ports, dir);
    pos := 0;
    for i := 0 to k
      invariant pos == DirIndex(ports, i, dir)
    {
      DirIndexStep(ports, i, dir);
      if ports[i].dir == dir {
        pos := pos + 1;
      }
    }
  }

  lemma {:induction false} OfDirPrefix(ports: seq<Port>, k: nat, dir: nat)
    requires k <= |ports|
    ensures OfDir(ports[..k], dir) <= OfDir(ports, dir)
    decreases |ports|
  {
    if k == |ports| {
      assert ports[..k] == ports;
    } else {
      var n := |ports| - 1;
      OfDirPrefix(ports[..n], k, dir);
      assert ports[..n][..k] == ports[..k];
    }
  }

  /** The numbering is the order of the ports of a direction. */
  lemma DirIndexPort(ports: seq<Port>, k: nat)
    requires k < |ports|
    ensures var dir := ports[k].dir;
            DirIndex(ports, k, dir) < |OfDir(ports, dir)| && OfDir(ports, dir)[DirIndex(ports, k, dir)] == ports[k]
  {
    var dir := ports[k].dir;
    OfDirStep(ports, k, dir);
    OfDirPrefix(ports, k + 1, dir);
  }

  /** The port of a direction with a given index. */
  method PortAt(ports: seq<Port>, dir: nat, idx: nat) returns (at: Option<nat>)
    ensures at.None? <==> idx >= |OfDir(ports, dir)|
    ensures at.Some? ==> at.value < |ports| && ports[at.value] == OfDir(ports, dir)[idx]
  {
    hide OfDir, DirIndex;
    DirIndexEnds(ports, dir);
    var pos := 0;
    for k := 0 to |ports|
      invariant pos == DirIndex(ports, k, dir) && pos <= idx
    {
      DirIndexStep(ports, k, dir);
      if ports[k].dir != dir {
        continue;
      }
      if pos == idx {
        DirIndexPort(ports, k);
        return Some(k);
      }
      pos := pos + 1;
    }
    return None;
  }

  // ---- the io table ----

  function CountDir(ios: seq<Io>, dir: nat): nat {
    if ios == [] then 0
    else CountDir(ios[..|ios| - 1], dir) + if ios[|ios| - 1].dir == dir then 1 else 0
  }

  /** nth_io of libane/ane_m2.c: the idx-th record of a direction. */
  method NthIo(ios: seq<Io>, dir: nat, idx: nat) returns (at: Option<nat>)
    ensures at.Some? ==> at.value < |ios| && ios[at.value].dir == dir && CountDir(ios[..at.value], dir) == idx
    ensures at.None? ==> CountDir(ios, dir) <= idx
  {
    var seen := 0;
    for i := 0 to |ios|
      invariant seen == CountDir(ios[..i], dir) && seen <= idx
    {
      assert ios[..i + 1][..i] == ios[..i];
      if ios[i].dir != dir {
        continue;
      }
      if seen == idx {
        return Some(i);
      }
      seen := seen + 1;
    }
    assert ios[..|ios|] == ios;
    return None;
  }

  /** Where the idx-th input or output sits in the built io table. */
  function TableIndex(ports: seq<Port>, dir: nat, idx: nat): nat {
    if dir == 0 then idx else |OfDir(ports, 0)| + idx
  }

  lemma {:induction false} TableCount(ports: seq<Port>, i: nat)
    requires i <= |IoTable(ports)|
    ensures var n0, n1 := |OfDir(ports, 0)|, |OfDir(ports, 1)|;
            && CountDir(IoTable(ports)[..i], 0) == (if i <= n0 then i else n0)
            && CountDir(IoTable(ports)[..i], 1) == (if i <= n0 then 0 else if i <= n0 + n1 then i - n0 else n1)
  {
    hide OfDir;
    if i > 0 {
      TableCount(ports, i - 1);
      var ios := IoTable(ports);
      assert ios[..i][..i - 1] == ios[..i - 1];
      TableDir(ports, i - 1);
    }
  }

  lemma TableDir(ports: seq<Port>, i: nat)
    requires i < |IoTable(ports)|
    ensures var n0, n1 := |OfDir(ports, 0)|, |OfDir(ports, 1)|;
            IoTable(ports)[i] == IoOf(if i < n0 then OfDir(ports, 0)[i]
              else if i < n0 + n1 then OfDir(ports, 1)[i - n0] else OfDir(ports, 2)[i - n0 - n1])
    ensures var n0, n1 := |OfDir(ports, 0)|, |OfDir(ports, 1)|;
            IoTable(ports)[i].dir == if i < n0 then 0 else if i < n0 + n1 then 1 else 2
  {
  }

  /** SAME NUMBERING. The session's index of a port and the builder's nth_io meet at one record:
      that port's. */
  lemma NumberedAlike(ports: seq<Port>, dir: nat, idx: nat, at: Option<nat>)
    requires dir <= 1 && idx < |OfDir(ports, dir)|
    requires at.Some? ==>
               at.value < |IoTable(ports)| && IoTable(ports)[at.value].dir == dir
               && CountDir(IoTable(ports)[..at.value], dir) == idx
    requires at.None? ==> CountDir(IoTable(ports), dir) <= idx
    ensures at == Some(TableIndex(ports, dir, idx))
    ensures TableIndex(ports, dir, idx) < |IoTable(ports)|
            && IoTable(ports)[TableIndex(ports, dir, idx)] == IoOf(OfDir(ports, dir)[idx])
  {
    hide OfDir;
    var ios := IoTable(ports);
    assert ios[..|ios|] == ios;
    TableCount(ports, |ios|);
    if at.Some? {
      TableCount(ports, at.value);
      TableDir(ports, at.value);
    }
  }

  /** Look a direction's idx-th record up in the built table. */
  method FindIo(ports: seq<Port>, dir: nat, idx: nat) returns (at: nat)
    requires dir <= 1 && idx < |OfDir(ports, dir)|
    ensures at == TableIndex(ports, dir, idx) && at < |IoTable(ports)|
            && IoTable(ports)[at].size == OfDir(ports, dir)[idx].tileBytes
  {
    hide IoTable, OfDir, CountDir, TableIndex;
    var r := NthIo(IoTable(ports), dir, idx);
    NumberedAlike(ports, dir, idx, r);
    at := r.value;
  }
}
