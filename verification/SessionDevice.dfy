/** One CALL of tools/ane-session.c on the buffer objects of a loaded program. */
module SessionDevice {
  import opened Basics
  import opened H14Ports
  import opened SessionPorts
  import opened SessionSpec
  import opened SessionSafety

  /** A resident pair as the session holds it: `buf` is the next input, ready to send. */
  datatype State = State(inIdx: nat, outIdx: nat, tile: nat, run: nat, offs: seq<nat>, buf: Tile)

  ghost predicate StateIs(s: State, p: Pair) {
    s.inIdx == p.inIdx && s.outIdx == p.outIdx && s.tile == p.tile && s.run == p.run && s.offs == p.offs
      && s.buf == Carried(p)
  }

  ghost predicate StatesAre(st: seq<State>, pairs: seq<Pair>) {
    |st| == |pairs| && forall i :: 0 <= i < |st| ==> StateIs(st[i], pairs[i])
  }

  method StateByIn(st: seq<State>, idx: nat) returns (at: Option<nat>)
    ensures at.Some? ==> at.value < |st| && st[at.value].inIdx == idx
    ensures at.None? ==> forall i :: 0 <= i < |st| ==> st[i].inIdx != idx
  {
    for i := 0 to |st|
      invariant forall k :: 0 <= k < i ==> st[k].inIdx != idx
    {
      if st[i].inIdx == idx {
        return Some(i);
      }
    }
    return None;
  }

  method StateByOut(st: seq<State>, idx: nat) returns (at: Option<nat>)
    ensures at.Some? ==> at.value < |st| && st[at.value].outIdx == idx
    ensures at.None? ==> forall i :: 0 <= i < |st| ==> st[i].outIdx != idx
  {
    for i := 0 to |st|
      invariant forall k :: 0 <= k < i ==> st[k].outIdx != idx
    {
      if st[i].outIdx == idx {
        return Some(i);
      }
    }
    return None;
  }

  /** A found state holds what the client would send. */
  lemma FoundIn(st: seq<State>, pairs: seq<Pair>, idx: nat, at: Option<nat>)
    requires StatesAre(st, pairs) && PairsApart(pairs)
    requires at.Some? ==> at.value < |st| && st[at.value].inIdx == idx
    requires at.None? ==> forall i :: 0 <= i < |st| ==> st[i].inIdx != idx
    ensures at.Some? <==> idx in Ins(pairs)
    ensures at.Some? ==> st[at.value].buf == Carried(PairAt(pairs, idx))
  {
    hide Carried;
    if at.Some? {
      assert StateIs(st[at.value], pairs[at.value]);
      assert Ins(pairs)[at.value] == idx;
      var first := FirstOf(Ins(pairs), idx).value;
      assert pairs[first].inIdx == idx;
      assert first == at.value;
    }
  }

  lemma FoundOut(st: seq<State>, pairs: seq<Pair>, idx: nat, at: Option<nat>)
    requires StatesAre(st, pairs)
    requires at.Some? ==> at.value < |st| && st[at.value].outIdx == idx
    requires at.None? ==> forall i :: 0 <= i < |st| ==> st[i].outIdx != idx
    ensures at.Some? <==> idx in Outs(pairs)
  {
    hide Carried;
    if at.Some? {
      assert StateIs(st[at.value], pairs[at.value]);
      assert Outs(pairs)[at.value] == idx;
    }
  }

  lemma InputsStep(b: Binding, wire: seq<byte>, off: nat, n: nat)
    requires var sizes := Sizes(b.prog.ports, 0);
             && n < |sizes| && off == Wire(sizes, Ins(b.pairs), n)
             && Wire(sizes, Ins(b.pairs), n + 1) <= |wire|
    ensures var next := Wire(Sizes(b.prog.ports, 0), Ins(b.pairs), n + 1);
            && off <= next
            && next == (if n in Ins(b.pairs) then off else off + Sizes(b.prog.ports, 0)[n])
            && Inputs(b, wire[..next], n + 1) ==
                 Inputs(b, wire[..off], n) + [if n in Ins(b.pairs) then Carried(PairAt(b.pairs, n))
            else wire[off..next]]
  {
    hide Sizes, Ins, PairAt, Carried;
    var next := Wire(Sizes(b.prog.ports, 0), Ins(b.pairs), n + 1);
    assert wire[..next][..off] == wire[..off] && wire[..next][off..] == wire[off..next];
  }

  lemma {:induction false} WireGrows(sizes: seq<nat>, held: seq<nat>, n: nat, m: nat)
    requires n <= m <= |sizes|
    ensures Wire(sizes, held, n) <= Wire(sizes, held, m)
  {
    if n < m {
      WireGrows(sizes, held, n, m - 1);
    }
  }

  /** Send every input: resident ones from their state, the others from the wire in port order.
      Whatever the buffers held before, they now hold the client's inputs. */
  method SendInputs(ports: seq<Port>, st: seq<State>, wire: seq<byte>, start: seq<Tile>, ghost b: Binding)
    returns (bos: seq<Tile>)
    requires b.prog.ports == ports && PairsApart(b.pairs) && StatesAre(st, b.pairs)
    requires |start| == |IoTable(ports)| && |wire| == InWire(b)
    ensures |bos| == |start| && |OfDir(ports, 0)| <= |bos|
    ensures bos[..|OfDir(ports, 0)|] == Inputs(b, wire, |OfDir(ports, 0)|)
  {
    hide StatesAre, PairsApart, OfDir, Ins, Carried, PairAt, Wire, IoTable, DirIndex, Inputs, TableIndex;
    ghost var sizes, held := Sizes(ports, 0), Ins(b.pairs);
    ghost var n0 := |OfDir(ports, 0)|;
    InputsFit(ports);
    DirIndexEnds(ports, 0);
    NoInputs(b, wire);
    bos := start;
    var off := 0;
    for k := 0 to |ports|
      invariant |bos| == |start| && DirIndex(ports, k, 0) <= n0
      invariant off == Wire(sizes, held, DirIndex(ports, k, 0)) <= |wire|
      invariant bos[..DirIndex(ports, k, 0)] == Inputs(b, wire[..off], DirIndex(ports, k, 0))
    {
      DirIndexStep(ports, k, 0);
      if ports[k].dir != 0 {
        continue;
      }
      DirIndexPort(ports, k);
      var idx := PortDirIndex(ports, k, 0);
      WireGrows(sizes, held, idx + 1, n0);
      InputsStep(b, wire, off, idx);
      var rs := StateByIn(st, idx);
      FoundIn(st, b.pairs, idx, rs);
      var at := FindIo(ports, 0, idx);
      TableInput(ports, idx);
      ghost var before := bos;
      if rs.Some? {
        bos := bos[at := st[rs.value].buf];
      } else {
        bos := bos[at := wire[off..off + ports[k].tileBytes]];
        off := off + ports[k].tileBytes;
      }
      assert bos[..idx + 1] == before[..idx] + [bos[idx]];
    }
    assert wire[..off] == wire;
  }

  lemma TableInput(ports: seq<Port>, idx: nat)
    ensures TableIndex(ports, 0, idx) == idx
  {
  }

  lemma InputsFit(ports: seq<Port>)
    ensures |OfDir(ports, 0)| + |OfDir(ports, 1)| <= |IoTable(ports)|
  {
  }

  lemma NoInputs(b: Binding, wire: seq<byte>)
    ensures Wire(Sizes(b.prog.ports, 0), Ins(b.pairs), 0) == 0
    ensures Inputs(b, [], 0) == [] && wire[..0] == []
  {
  }

  /** The device run: every output record is rewritten from the input records. */
  function Exec(w: World, prog: Program, bos: seq<Tile>): (r: seq<Tile>)
    requires |bos| == |IoTable(prog.ports)|
    ensures |r| == |bos|
  {
    var n0, n1 := |OfDir(prog.ports, 0)|, |OfDir(prog.ports, 1)|;
    seq<Tile>(|bos|, i requires 0 <= i < |bos| =>
      if n0 <= i < n0 + n1 then Output(w, prog, bos[..n0], i - n0, OfDir(prog.ports, 1)[i - n0].tileBytes) else bos[i])
  }

  ghost predicate HoldsOutputs(ports: seq<Port>, bos: seq<Tile>, outs: seq<Tile>) {
    && |bos| == |IoTable(ports)| && |outs| == |OfDir(ports, 1)|
    && forall k :: 0 <= k < |outs| ==>
           bos[|OfDir(ports, 0)| + k] == outs[k]
           && |outs[k]| == OfDir(ports, 1)[k].tileBytes
  }

  lemma ExecOutputs(w: World, prog: Program, bos: seq<Tile>)
    requires |bos| == |IoTable(prog.ports)|
    ensures |OfDir(prog.ports, 0)| <= |bos|
    ensures HoldsOutputs(prog.ports, Exec(w, prog, bos), Outputs(w, prog, bos[..|OfDir(prog.ports, 0)|]))
  {
    hide OfDir, Output, IoTable, Exec, Outputs;
    InputsFit(prog.ports);
    var ins := bos[..|OfDir(prog.ports, 0)|];
    OutputCount(w, prog, ins);
    forall k: nat | k < |OfDir(prog.ports, 1)|
      ensures Exec(w, prog, bos)[|OfDir(prog.ports, 0)| + k] == Outputs(w, prog, ins)[k]
      ensures |Outputs(w, prog, ins)[k]| == OfDir(prog.ports, 1)[k].tileBytes
    {
      ExecAt(w, prog, bos, k);
    }
  }

  lemma OutputCount(w: World, prog: Program, ins: seq<Tile>)
    ensures |Outputs(w, prog, ins)| == |OfDir(prog.ports, 1)|
  {
  }

  lemma ExecAt(w: World, prog: Program, bos: seq<Tile>, k: nat)
    requires |bos| == |IoTable(prog.ports)| && |OfDir(prog.ports, 0)| + |OfDir(prog.ports, 1)| <= |bos|
             && k < |OfDir(prog.ports, 1)|
    ensures var ins := bos[..|OfDir(prog.ports, 0)|];
            && Exec(w, prog, bos)[|OfDir(prog.ports, 0)| + k] == Outputs(w, prog, ins)[k]
            && |Outputs(w, prog, ins)[k]| == OfDir(prog.ports, 1)[k].tileBytes
  {
    hide OfDir, Output, IoTable;
    OutputLength(w, prog, bos[..|OfDir(prog.ports, 0)|], k, Sizes(prog.ports, 1)[k]);
  }

  /** Read one output back. */
  method ReadOutput(ports: seq<Port>, bos: seq<Tile>, idx: nat, ghost outs: seq<Tile>) returns (tile: Tile)
    requires HoldsOutputs(ports, bos, outs) && idx < |OfDir(ports, 1)|
    ensures tile == outs[idx] && |tile| == OfDir(ports, 1)[idx].tileBytes
  {
    hide OfDir, IoTable;
    var at := FindIo(ports, 1, idx);
    tile := bos[at];
  }

  /** The reply: the outputs that are not resident, in port order. */
  method ReadOutputs(ports: seq<Port>, st: seq<State>, bos: seq<Tile>, ghost b: Binding, ghost outs: seq<Tile>)
    returns (payload: seq<byte>)
    requires b.prog.ports == ports && StatesAre(st, b.pairs) && HoldsOutputs(ports, bos, outs)
    ensures payload == Joined(outs, Outs(b.pairs), |outs|)
  {
    hide StatesAre, OfDir, Outs, IoTable, DirIndex;
    DirIndexEnds(ports, 1);
    payload := [];
    for k := 0 to |ports|
      invariant DirIndex(ports, k, 1) <= |outs|
      invariant payload == Joined(outs, Outs(b.pairs), DirIndex(ports, k, 1))
    {
      DirIndexStep(ports, k, 1);
      if ports[k].dir != 1 {
        continue;
      }
      DirIndexPort(ports, k);
      var idx := PortDirIndex(ports, k, 1);
      var rs := StateByOut(st, idx);
      FoundOut(st, b.pairs, idx, rs);
      if rs.Some? {
        continue;
      }
      var tile := ReadOutput(ports, bos, idx, outs);
      payload := payload + tile;
    }
  }

  /** Zero a buffer and copy the runs into it. */
  method CopyRuns(run: nat, offs: seq<nat>, src: Tile) returns (buf: Tile)
    requires RunsFit(offs, run, |src|)
    ensures buf == Pack(run, offs, src)
  {
    var a := new byte[|src|](_ => 0);
    for r := 0 to |offs|
      invariant forall j :: 0 <= j < a.Length ==> a[j] == if InRun(offs[..r], run, j) then src[j] else 0
    {
      ghost var was := a[..];
      for i := 0 to run
        invariant forall j :: 0 <= j < a.Length ==> a[j] == if offs[r] <= j < offs[r] + i then src[j] else was[j]
      {
        a[offs[r] + i] := src[offs[r] + i];
      }
      forall j: nat { InRunStep(offs, run, r, j); }
    }
    assert offs[..|offs|] == offs;
    buf := a[..];
  }

  lemma InRunStep(offs: seq<nat>, run: nat, r: nat, j: nat)
    requires r < |offs|
    ensures InRun(offs[..r + 1], run, j) <==> InRun(offs[..r], run, j) || offs[r] <= j < offs[r] + run
  {
    var p := offs[..r + 1];
    if InRun(p, run, j) {
      var i :| 0 <= i < |p| && p[i] <= j < p[i] + run;
      assert i < r ==> offs[..r][i] == p[i];
    }
    if InRun(offs[..r], run, j) {
      var i :| 0 <= i < r && offs[..r][i] <= j < offs[..r][i] + run;
      assert p[i] == offs[..r][i];
    }
    if offs[r] <= j < offs[r] + run {
      assert p[r] == offs[r];
    }
  }

  /** The pairs whose output index is below n have been carried. */
  ghost function KeepBelow(pairs: seq<Pair>, outs: seq<Tile>, n: nat): seq<Pair> {
    seq(|pairs|, i requires 0 <= i < |pairs| => if pairs[i].outIdx < n then Keep(pairs[i], outs) else pairs[i])
  }

  /** After the reply, each resident output's runs become the next input. */
  method CarryStates(ports: seq<Port>, start: seq<State>, bos: seq<Tile>, ghost b: Binding, ghost outs: seq<Tile>)
    returns (st: seq<State>)
    requires b.prog.ports == ports && BindingOk(b) && StatesAre(start, b.pairs) && HoldsOutputs(ports, bos, outs)
    ensures StatesAre(st, KeepAll(b.pairs, outs))
  {
    hide StatesAre, OfDir, IoTable, DirIndex, KeepAll, KeepBelow, BindingOk, HoldsOutputs, RunsFit;
    DirIndexEnds(ports, 1);
    NoneKept(b, outs);
    st := start;
    for k := 0 to |ports|
      invariant StatesAre(st, KeepBelow(b.pairs, outs, DirIndex(ports, k, 1)))
    {
      DirIndexStep(ports, k, 1);
      if ports[k].dir != 1 {
        continue;
      }
      DirIndexPort(ports, k);
      var idx := PortDirIndex(ports, k, 1);
      var rs := StateByOut(st, idx);
      if rs.None? {
        KeepNone(b, outs, idx, st);
        continue;
      }
      var j := rs.value;
      CarryReady(b, outs, bos, idx, st, j);
      var tile := ReadOutput(ports, bos, st[j].outIdx, outs);
      var buf := CopyRuns(st[j].run, st[j].offs, tile);
      KeepOne(b, outs, bos, idx, st, j, buf);
      st := st[j := st[j].(buf := buf)];
    }
    AllKept(b, outs, bos);
  }

  lemma NoneKept(b: Binding, outs: seq<Tile>)
    ensures KeepBelow(b.pairs, outs, 0) == b.pairs
  {
  }

  lemma AllKept(b: Binding, outs: seq<Tile>, bos: seq<Tile>)
    requires BindingOk(b) && HoldsOutputs(b.prog.ports, bos, outs)
    ensures KeepBelow(b.pairs, outs, |OfDir(b.prog.ports, 1)|) == KeepAll(b.pairs, outs)
  {
    hide OfDir, IoTable, RunsFit;
    forall i | 0 <= i < |b.pairs|
      ensures b.pairs[i].outIdx < |OfDir(b.prog.ports, 1)|
    {
      assert PairOk(b.prog.ports, b.pairs[i]);
    }
  }

  lemma KeepNone(b: Binding, outs: seq<Tile>, idx: nat, st: seq<State>)
    requires StatesAre(st, KeepBelow(b.pairs, outs, idx)) && forall i :: 0 <= i < |st| ==> st[i].outIdx != idx
    ensures KeepBelow(b.pairs, outs, idx + 1) == KeepBelow(b.pairs, outs, idx)
  {
    hide Carried;
    var pairs := KeepBelow(b.pairs, outs, idx);
    forall i | 0 <= i < |b.pairs|
      ensures b.pairs[i].outIdx != idx
    {
      assert StateIs(st[i], pairs[i]);
    }
  }

  lemma CarryReady(b: Binding, outs: seq<Tile>, bos: seq<Tile>, idx: nat, st: seq<State>, j: nat)
    requires BindingOk(b) && HoldsOutputs(b.prog.ports, bos, outs) && StatesAre(st, KeepBelow(b.pairs, outs, idx))
    requires idx < |OfDir(b.prog.ports, 1)| && j < |st| && st[j].outIdx == idx
    ensures idx < |outs| && j < |b.pairs| && b.pairs[j].outIdx == idx && st[j].run == b.pairs[j].run
            && st[j].offs == b.pairs[j].offs
    ensures |outs[idx]| == b.pairs[j].tile && RunsFit(st[j].offs, st[j].run, |outs[idx]|)
  {
    hide Carried, IoTable, RunsFit, OfDir;
    assert StateIs(st[j], KeepBelow(b.pairs, outs, idx)[j]);
    assert PairOk(b.prog.ports, b.pairs[j]);
  }

  lemma KeepOne(b: Binding, outs: seq<Tile>, bos: seq<Tile>, idx: nat, st: seq<State>, j: nat, buf: Tile)
    requires BindingOk(b) && HoldsOutputs(b.prog.ports, bos, outs) && StatesAre(st, KeepBelow(b.pairs, outs, idx))
    requires idx < |OfDir(b.prog.ports, 1)| && idx < |outs| && j < |st| && st[j].outIdx == idx
             && buf == Pack(st[j].run, st[j].offs, outs[idx])
    ensures StatesAre(st[j := st[j].(buf := buf)], KeepBelow(b.pairs, outs, idx + 1))
  {
    hide IoTable, RunsFit, OfDir, Pack, HoldsOutputs, PairOk, Blank;
    CarryReady(b, outs, bos, idx, st, j);
    var was, now, after := KeepBelow(b.pairs, outs, idx), KeepBelow(b.pairs, outs, idx + 1),
      st[j := st[j].(buf := buf)];
    forall i | 0 <= i < |after|
      ensures StateIs(after[i], now[i])
    {
      assert StateIs(st[i], was[i]);
      if i != j {
        assert b.pairs[i].outIdx != b.pairs[j].outIdx;
      }
    }
  }
}
