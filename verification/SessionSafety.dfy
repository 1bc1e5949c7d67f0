/** What every run of the session keeps: names, cached programs, buffer demand and wire sizes. */
module SessionSafety {
  import opened Basics
  import opened H14Ports
  import opened SessionSpec
  import opened SessionKeys

  // ---- wire sizes ----

  function Total(sizes: seq<nat>): nat {
    if sizes == [] then 0 else Total(sizes[..|sizes| - 1]) + sizes[|sizes| - 1]
  }

  ghost predicate Within(sizes: seq<nat>, held: seq<nat>) {
    && (forall i :: 0 <= i < |held| ==> held[i] < |sizes|)
    && (forall i, j :: 0 <= i < j < |held| ==> held[i] != held[j])
  }

  ghost function Held(sizes: seq<nat>, held: seq<nat>): nat
    requires Within(sizes, held)
  {
    if held == [] then 0 else Held(sizes, held[..|held| - 1]) + sizes[held[|held| - 1]]
  }

  lemma {:induction false} WireAll(sizes: seq<nat>, n: nat)
    requires n <= |sizes|
    ensures Wire(sizes, [], n) == Total(sizes[..n])
  {
    if n > 0 {
      WireAll(sizes, n - 1);
      assert sizes[..n][..n - 1] == sizes[..n - 1];
    }
  }

  lemma {:induction false} WireDrop(sizes: seq<nat>, held: seq<nat>, idx: nat, n: nat)
    requires n <= |sizes| && idx < |sizes| && idx !in held
    ensures Wire(sizes, held, n) == Wire(sizes, held + [idx], n) + if idx < n then sizes[idx] else 0
  {
    if n > 0 {
      WireDrop(sizes, held, idx, n - 1);
    }
  }

  /** NO UNDERFLOW. Held tiles and wire bytes make up the total. */
  lemma {:induction false} WireTotal(sizes: seq<nat>, held: seq<nat>)
    requires Within(sizes, held)
    ensures Wire(sizes, held, |sizes|) + Held(sizes, held) == Total(sizes)
    decreases |held|
  {
    if held == [] {
      WireAll(sizes, |sizes|);
      assert sizes[..|sizes|] == sizes;
    } else {
      var n := |held| - 1;
      var before := held[..n];
      WireTotal(sizes, before);
      assert held[n] !in before;
      assert held == before + [held[n]];
      WireDrop(sizes, before, held[n], |sizes|);
    }
  }

  // ---- the invariant ----

  ghost predicate PairOk(ports: seq<Port>, p: Pair) {
    && p.inIdx < |OfDir(ports, 0)| && p.outIdx < |OfDir(ports, 1)|
    && p.tile == OfDir(ports, 0)[p.inIdx].tileBytes == OfDir(ports, 1)[p.outIdx].tileBytes
    && 0 < p.run <= p.tile && RunsFit(p.offs, p.run, p.tile)
    && (p.last.Some? ==> |p.last.value| == p.tile)
  }

  ghost predicate PairsApart(pairs: seq<Pair>) {
    forall i, j :: 0 <= i < j < |pairs| ==> pairs[i].inIdx != pairs[j].inIdx && pairs[i].outIdx != pairs[j].outIdx
  }

  ghost predicate BindingOk(b: Binding) {
    PairsApart(b.pairs) && forall i :: 0 <= i < |b.pairs| ==> PairOk(b.prog.ports, b.pairs[i])
  }

  ghost predicate Distinct(loaded: seq<Entry>) {
    forall i, j :: 0 <= i < j < |loaded| ==> loaded[i].prog != loaded[j].prog
  }

  ghost predicate NamesOk(c: Client) {
    forall n :: n in c.names ==> IsLoaded(c.loaded, c.names[n].prog) && BindingOk(c.names[n])
  }

  /** At most max-progs names and programs, no program loaded twice, a known cap never exceeded
      once something is loaded, and every pair consistent with its program. */
  ghost predicate Sound(w: World, c: Client) {
    && |c.names| <= Limit(w) && |c.loaded| <= Limit(w) && Distinct(c.loaded)
    && (w.cap != 0 && c.loaded != [] ==> Demand(c.loaded) + w.used <= w.cap)
    && NamesOk(c)
  }

  lemma PairsWithin(b: Binding)
    requires BindingOk(b)
    ensures Within(Sizes(b.prog.ports, 0), Ins(b.pairs)) && Within(Sizes(b.prog.ports, 1), Outs(b.pairs))
  {
    hide OfDir, RunsFit;
    var ins, outs := Ins(b.pairs), Outs(b.pairs);
    forall i | 0 <= i < |ins|
      ensures ins[i] < |Sizes(b.prog.ports, 0)| && outs[i] < |Sizes(b.prog.ports, 1)|
    {
      assert PairOk(b.prog.ports, b.pairs[i]);
    }
  }

  /** What a CALL reads off the stream and writes back: the totals less the resident tiles, never
      less than zero. */
  lemma CallWire(b: Binding)
    requires BindingOk(b)
    ensures Within(Sizes(b.prog.ports, 0), Ins(b.pairs)) && Within(Sizes(b.prog.ports, 1), Outs(b.pairs))
    ensures InWire(b) == Total(Sizes(b.prog.ports, 0)) - Held(Sizes(b.prog.ports, 0), Ins(b.pairs))
    ensures OutWire(b) == Total(Sizes(b.prog.ports, 1)) - Held(Sizes(b.prog.ports, 1), Outs(b.pairs))
  {
    hide BindingOk;
    PairsWithin(b);
    WireTotal(Sizes(b.prog.ports, 0), Ins(b.pairs));
    WireTotal(Sizes(b.prog.ports, 1), Outs(b.pairs));
  }

  lemma {:induction false} JoinedLength(outs: seq<Tile>, sizes: seq<nat>, held: seq<nat>, n: nat)
    requires n <= |outs| == |sizes| && forall k :: 0 <= k < |outs| ==> |outs[k]| == sizes[k]
    ensures |Joined(outs, held, n)| == Wire(sizes, held, n)
  {
    if n > 0 {
      JoinedLength(outs, sizes, held, n - 1);
    }
  }

  /** The payload of a run is as long as its wire size. */
  lemma PayloadLength(w: World, b: Binding, ins: seq<Tile>)
    ensures var outs := Outputs(w, b.prog, ins); |Joined(outs, Outs(b.pairs), |outs|)| == OutWire(b)
  {
    hide Joined, Wire, Sizes;
    var outs, sizes := Outputs(w, b.prog, ins), Sizes(b.prog.ports, 1);
    forall k | 0 <= k < |outs|
      ensures |outs[k]| == sizes[k]
    {
      OutputLength(w, b.prog, ins, k, sizes[k]);
    }
    JoinedLength(outs, sizes, Outs(b.pairs), |outs|);
  }

  /** REPLY LENGTH. A CALL that runs answers with exactly the total of the outputs less the resident
      tiles. */
  lemma ReplyLength(w: World, c: Client, name: string, stream: seq<byte>, runs: bool)
    requires Sound(w, c) && StepCall(w, c, name, stream, runs).1.Payload?
    ensures name in c.names && BindingOk(c.names[name])
    ensures var b := c.names[name];
            && Within(Sizes(b.prog.ports, 1), Outs(b.pairs))
            && |StepCall(w, c, name, stream, runs).1.bytes| == OutWire(b)
            && OutWire(b) == Total(Sizes(b.prog.ports, 1)) - Held(Sizes(b.prog.ports, 1), Outs(b.pairs))
  {
    hide BindingOk, Joined, Outputs, AllInputs, Total, Held, Sizes, InWire, OutWire, KeepAll;
    var b := c.names[name];
    CallWire(b);
    PayloadLength(w, b, AllInputs(b, stream));
  }

  // ---- every command keeps it ----

  lemma DemandAppend(loaded: seq<Entry>, e: Entry)
    ensures Demand(loaded + [e]) == Demand(loaded) + e.demand
  {
    assert (loaded + [e])[..|loaded|] == loaded;
  }

  lemma LoadSound(w: World, c: Client, name: string, anec: seq<byte>, table: seq<byte>, readable: bool, opens: bool)
    requires Sound(w, c)
    ensures Sound(w, StepLoad(w, c, name, anec, table, readable, opens).0)
  {
    hide OfDir, Demand, BindingOk, Distinct, NamesOk, IsLoaded, Bind;
    FailSound(w, c);
    if w.parse(table).Some? && name !in c.names && |c.names| < Limit(w) {
      var prog := Program(anec, table, w.parse(table).value);
      if IsLoaded(c.loaded, prog) {
        BindSound(w, c, name, prog);
      } else if |c.loaded| < Limit(w) && w.demand(anec, prog.ports).Some? {
        var e := Entry(prog, w.demand(anec, prog.ports).value);
        if w.cap == 0 || Demand(c.loaded) + e.demand + w.used <= w.cap {
          OpenSound(w, c, e);
          BindSound(w, c.(loaded := c.loaded + [e]), name, prog);
        }
      }
    }
  }

  lemma KeyedLoadSound(w: World, c: Client, name: string, anec: seq<byte>, table: seq<byte>, readable: bool,
                       opens: bool)
    requires Sound(w, c)
    ensures Sound(w, KeyedLoad(w, c, name, anec, table, readable, opens).0)
  {
    hide BindingOk, Demand, Distinct, OfDir, Sound, Cached;
    FailSound(w, c);
    if w.parse(table).Some? && name !in c.names && |c.names| < Limit(w) {
      var prog := Program(anec, table, w.parse(table).value);
      var id := KeyId(w, prog);
      var hit := Cached(w, c.loaded, id);
      CachedMeans(w, c.loaded, id);
      if hit.Some? {
        BindSound(w, c, name, hit.value);
      } else if KeyedLoad(w, c, name, anec, table, readable, opens).1.Loaded? {
        var e := Entry(prog, w.demand(anec, prog.ports).value);
        OpenSound(w, c, e);
        BindSound(w, c.(loaded := c.loaded + [e]), name, prog);
      }
    }
  }

  lemma FailSound(w: World, c: Client)
    requires Sound(w, c)
    ensures Sound(w, c.(failed := true))
  {
  }

  lemma OpenSound(w: World, c: Client, e: Entry)
    requires Sound(w, c) && !IsLoaded(c.loaded, e.prog) && |c.loaded| < Limit(w)
    requires w.cap == 0 || Demand(c.loaded) + e.demand + w.used <= w.cap
    ensures Sound(w, c.(loaded := c.loaded + [e])) && IsLoaded(c.loaded + [e], e.prog)
  {
    hide IsLoaded, Distinct, BindingOk, Demand;
    DemandAppend(c.loaded, e);
    Grown(c.loaded, e);
  }

  lemma BindSound(w: World, c: Client, name: string, prog: Program)
    requires Sound(w, c) && IsLoaded(c.loaded, prog) && name !in c.names && |c.names| < Limit(w)
    ensures Sound(w, Bind(c, name, prog).0)
  {
    hide IsLoaded, Distinct, BindingOk, Demand, OfDir;
    NewBinding(prog);
    assert |c.names[name := Binding(prog, [])]| == |c.names| + 1;
  }

  lemma NewBinding(prog: Program)
    ensures BindingOk(Binding(prog, []))
  {
  }

  lemma Grown(loaded: seq<Entry>, e: Entry)
    ensures Distinct(loaded) && !IsLoaded(loaded, e.prog) ==> Distinct(loaded + [e])
    ensures IsLoaded(loaded + [e], e.prog)
    ensures forall p :: IsLoaded(loaded, p) ==> IsLoaded(loaded + [e], p)
  {
    var all := loaded + [e];
    assert all[|loaded|] == e;
    forall p | IsLoaded(loaded, p)
      ensures IsLoaded(all, p)
    {
      var i :| 0 <= i < |loaded| && loaded[i].prog == p;
      assert all[i] == loaded[i];
    }
  }

  /** Rebinding a loaded name to consistent pairs keeps the invariant. */
  lemma Rebound(w: World, c: Client, name: string, b: Binding)
    requires Sound(w, c) && name in c.names && b.prog == c.names[name].prog && BindingOk(b)
    ensures Sound(w, c.(names := c.names[name := b]))
  {
    hide BindingOk, IsLoaded, Demand, Distinct;
    var names := c.names[name := b];
    assert names.Keys == c.names.Keys;
    SameSize(names, c.names);
  }

  lemma SameSize(a: map<string, Binding>, b: map<string, Binding>)
    requires a.Keys == b.Keys
    ensures |a| == |b|
  {
    assert |a| == |a.Keys| && |b| == |b.Keys|;
  }

  lemma FreeSound(w: World, c: Client, name: string)
    requires Sound(w, c)
    ensures Sound(w, StepFree(c, name).0)
  {
    hide BindingOk, IsLoaded, Demand, Distinct;
    if name in c.names {
      var names := c.names - {name};
      assert names.Keys == c.names.Keys - {name};
      assert |names| == |names.Keys| && |c.names| == |c.names.Keys|;
    }
  }

  lemma DeclareSound(w: World, c: Client, name: string, inIdx: nat, outIdx: nat, run: nat, offs: seq<nat>,
                     fieldsOk: bool)
    requires Sound(w, c)
    ensures Sound(w, StepDeclare(c, name, inIdx, outIdx, run, offs, fieldsOk).0)
  {
    hide BindingOk, IsLoaded, Demand, Distinct, OfDir, RunsFit;
    if DeclareError(c, name, inIdx, outIdx, run, offs, fieldsOk).None? {
      var b := c.names[name];
      var p := Pair(inIdx, outIdx, OfDir(b.prog.ports, 0)[inIdx].tileBytes, run, offs, None);
      PairAdded(b, p);
      Rebound(w, c, name, b.(pairs := b.pairs + [p]));
    }
  }

  lemma PairAdded(b: Binding, p: Pair)
    requires BindingOk(b) && PairOk(b.prog.ports, p) && p.inIdx !in Ins(b.pairs) && p.outIdx !in Outs(b.pairs)
    ensures BindingOk(b.(pairs := b.pairs + [p]))
  {
    hide PairOk;
    forall i | 0 <= i < |b.pairs|
      ensures b.pairs[i].inIdx != p.inIdx && b.pairs[i].outIdx != p.outIdx
    {
      assert Ins(b.pairs)[i] == b.pairs[i].inIdx && Outs(b.pairs)[i] == b.pairs[i].outIdx;
    }
  }

  lemma Forgotten(b: Binding)
    requires BindingOk(b)
    ensures BindingOk(b.(pairs := Forget(b.pairs)))
  {
    hide OfDir, RunsFit;
    var pairs := Forget(b.pairs);
    forall i | 0 <= i < |pairs|
      ensures PairOk(b.prog.ports, pairs[i])
    {
      assert PairOk(b.prog.ports, b.pairs[i]);
    }
  }

  lemma ResetSound(w: World, c: Client, target: Option<string>)
    requires Sound(w, c)
    ensures Sound(w, StepReset(c, target).0)
  {
    hide BindingOk, IsLoaded, Demand, Distinct, Forget;
    if target.None? {
      var names := StepReset(c, target).0.names;
      assert names.Keys == c.names.Keys;
      SameSize(names, c.names);
      forall n | n in names
        ensures IsLoaded(c.loaded, names[n].prog) && BindingOk(names[n])
      {
        Forgotten(c.names[n]);
      }
    } else if target.value in c.names {
      Forgotten(c.names[target.value]);
      Rebound(w, c, target.value, c.names[target.value].(pairs := Forget(c.names[target.value].pairs)));
    }
  }

  lemma Kept(w: World, b: Binding, ins: seq<Tile>)
    requires BindingOk(b)
    ensures BindingOk(b.(pairs := KeepAll(b.pairs, Outputs(w, b.prog, ins))))
  {
    hide OfDir, RunsFit, Output;
    var outs := Outputs(w, b.prog, ins);
    var pairs := KeepAll(b.pairs, outs);
    forall i | 0 <= i < |pairs|
      ensures PairOk(b.prog.ports, pairs[i])
    {
      assert PairOk(b.prog.ports, b.pairs[i]);
      OutputLength(w, b.prog, ins, b.pairs[i].outIdx, Sizes(b.prog.ports, 1)[b.pairs[i].outIdx]);
    }
  }

  lemma OutputLength(w: World, prog: Program, ins: seq<Tile>, k: nat, size: nat)
    ensures |Output(w, prog, ins, k, size)| == size
  {
  }

  lemma CallSound(w: World, c: Client, name: string, stream: seq<byte>, runs: bool)
    requires Sound(w, c)
    ensures Sound(w, StepCall(w, c, name, stream, runs).0)
  {
    hide BindingOk, IsLoaded, Demand, Distinct, KeepAll, Outputs, Joined, InWire, Inputs, Sizes, Outs;
    if name in c.names && !c.failed && InWire(c.names[name]) <= |stream| && runs {
      var b := c.names[name];
      var outs := Outputs(w, b.prog, AllInputs(b, stream));
      Kept(w, b, AllInputs(b, stream));
      Rebound(w, c, name, b.(pairs := KeepAll(b.pairs, outs)));
    }
  }

  lemma OtherSound(w: World, c: Client, cmd: Command)
    requires Sound(w, c) && !cmd.Load?
    ensures Sound(w, Step(w, c, cmd).0)
  {
    hide Sound, StepFree, StepDeclare, StepReset, StepCall;
    match cmd
    case Free(name) => FreeSound(w, c, name);
    case Declare(name, inIdx, outIdx, run, offs, fieldsOk) => DeclareSound(w, c, name, inIdx, outIdx, run, offs,
      fieldsOk);
    case Reset(target) => ResetSound(w, c, target);
    case Call(name, stream, runs) => CallSound(w, c, name, stream, runs);
  }

  /** No two cached programs share a key. */
  ghost predicate DistinctKeys(w: World, loaded: seq<Entry>) {
    forall i, j :: 0 <= i < j < |loaded| ==> KeyId(w, loaded[i].prog) != KeyId(w, loaded[j].prog)
  }

  lemma KeysStayDistinct(w: World, c: Client, cmd: Command)
    requires DistinctKeys(w, c.loaded)
    ensures DistinctKeys(w, KeyedStep(w, c, cmd).0.loaded)
  {
    hide DistinctKeys, Cached, Demand, OfDir, Limit, DeclareError, Forget, InWire, Outputs;
    if cmd.Load? && KeyedStep(w, c, cmd).0.loaded != c.loaded {
      var prog := Program(cmd.anec, cmd.table, w.parse(cmd.table).value);
      KeyAdded(w, c.loaded, Entry(prog, w.demand(cmd.anec, prog.ports).value));
    }
  }

  lemma KeyAdded(w: World, loaded: seq<Entry>, e: Entry)
    requires DistinctKeys(w, loaded) && Cached(w, loaded, KeyId(w, e.prog)).None?
    ensures DistinctKeys(w, loaded + [e])
  {
    hide Cached;
    CachedMeans(w, loaded, KeyId(w, e.prog));
  }

  /** RESOURCE INVARIANT. It holds after every run of commands, whether programs are told apart by their
      files or by their keys; in the second case the cached keys are distinct too. */
  lemma {:induction false} RunSound(w: World, cmds: seq<Command>)
    ensures Sound(w, After(w, cmds)) && Sound(w, KeyedAfter(w, cmds)) && DistinctKeys(w, KeyedAfter(w, cmds).loaded)
  {
    hide Sound, StepLoad, KeyedLoad, DistinctKeys;
    if cmds != [] {
      var before, cmd := cmds[..|cmds| - 1], cmds[|cmds| - 1];
      RunSound(w, before);
      var c, k := After(w, before), KeyedAfter(w, before);
      KeysStayDistinct(w, k, cmd);
      if cmd.Load? {
        LoadSound(w, c, cmd.name, cmd.anec, cmd.table, cmd.readable, cmd.opens);
        KeyedLoadSound(w, k, cmd.name, cmd.anec, cmd.table, cmd.readable, cmd.opens);
      } else {
        OtherSound(w, c, cmd);
        OtherSound(w, k, cmd);
      }
    } else {
      NothingSound(w);
    }
  }

  lemma NothingSound(w: World)
    ensures Sound(w, NO_ONE) && DistinctKeys(w, [])
  {
    NothingLoaded();
  }

  lemma NothingLoaded()
    ensures Distinct([])
  {
  }

  // ---- names do not interfere ----

  predicate Concerns(cmd: Command, name: string) {
    match cmd
    case Reset(target) => target == None || target == Some(name)
    case _ => cmd.name == name
  }

  /** A command about another name leaves what this name carries as it is, whatever program the two
      share. */
  lemma OthersDoNotInterfere(w: World, keyed: bool, c: Client, cmd: Command, name: string)
    requires !Concerns(cmd, name)
    ensures name in StepBy(w, keyed, c, cmd).0.names <==> name in c.names
    ensures name in c.names ==> StepBy(w, keyed, c, cmd).0.names[name] == c.names[name]
  {
    hide Demand, IsLoaded, Cached, KeepAll, Outputs, Joined, InWire, Inputs, Sizes, Outs, Forget, DeclareError;
  }

  /** So does any run of such commands, in the reference and in the session alike. */
  lemma {:induction false} OthersKeep(w: World, keyed: bool, cmds: seq<Command>, k: nat, name: string)
    requires k <= |cmds| && name in AfterBy(w, keyed, cmds[..k]).names
    requires forall j :: k <= j < |cmds| ==> !Concerns(cmds[j], name)
    ensures name in AfterBy(w, keyed, cmds).names
    ensures AfterBy(w, keyed, cmds).names[name] == AfterBy(w, keyed, cmds[..k]).names[name]
    decreases |cmds|
  {
    hide StepBy, AfterBy, Concerns;
    if k == |cmds| {
      assert cmds[..k] == cmds;
    } else {
      var n := |cmds| - 1;
      assert cmds[..n][..k] == cmds[..k];
      OthersKeep(w, keyed, cmds[..n], k, name);
      AfterLast(w, keyed, cmds, n);
      assert cmds[..n + 1] == cmds;
      OthersDoNotInterfere(w, keyed, AfterBy(w, keyed, cmds[..n]), cmds[n], name);
    }
  }

  /** The whole tile of a pair's output in a call. */
  ghost function PairOutput(w: World, b: Binding, stream: seq<byte>, i: nat): Tile
    requires BindingOk(b) && i < |b.pairs| && InWire(b) <= |stream|
  {
    var p := b.pairs[i];
    assert PairOk(b.prog.ports, p);
    Output(w, b.prog, AllInputs(b, stream), p.outIdx, p.tile)
  }

  lemma CallCarries(w: World, c: Client, name: string, stream: seq<byte>, runs: bool, i: nat)
    requires Sound(w, c) && StepCall(w, c, name, stream, runs).1.Payload? && i < |c.names[name].pairs|
    ensures var b, after := c.names[name], StepCall(w, c, name, stream, runs).0;
            && BindingOk(b) && InWire(b) <= |stream|
            && name in after.names && |after.names[name].pairs| == |b.pairs|
            && Carried(after.names[name].pairs[i]) == Pack(b.pairs[i].run, b.pairs[i].offs, PairOutput(w, b, stream, i))
  {
    hide Joined, InWire, Inputs, Pack, Output, IsLoaded, Demand, RunsFit, OfDir;
    var b := c.names[name];
    assert PairOk(b.prog.ports, b.pairs[i]);
  }

  /** WHAT IS CARRIED. After a call, and however many commands about other names follow, the next
      held input of this name is zeros plus the runs of its own last output, in the reference and in
      the session alike. */
  lemma CarriesLastCall(w: World, keyed: bool, cmds: seq<Command>, k: nat, name: string, i: nat)
    requires k < |cmds| && cmds[k].Call? && cmds[k].name == name
    requires Step(w, AfterBy(w, keyed, cmds[..k]), cmds[k]).1.Payload?
    requires name in AfterBy(w, keyed, cmds[..k]).names && i < |AfterBy(w, keyed, cmds[..k]).names[name].pairs|
    requires forall j :: k < j < |cmds| ==> !Concerns(cmds[j], name)
    ensures var b, c := AfterBy(w, keyed, cmds[..k]).names[name], AfterBy(w, keyed, cmds);
            && BindingOk(b) && InWire(b) <= |cmds[k].stream| && name in c.names && |c.names[name].pairs| == |b.pairs|
            && Carried(c.names[name].pairs[i]) ==
                 Pack(b.pairs[i].run, b.pairs[i].offs, PairOutput(w, b, cmds[k].stream, i))
  {
    hide Carried, Pack, PairOutput, StepCall, Concerns, InWire, BindingOk, Sound, AfterBy;
    var c := AfterBy(w, keyed, cmds[..k]);
    SoundBy(w, keyed, cmds[..k]);
    CallCarries(w, c, name, cmds[k].stream, cmds[k].runs, i);
    AfterLast(w, keyed, cmds, k);
    OthersKeep(w, keyed, cmds, k + 1, name);
  }

  lemma SoundBy(w: World, keyed: bool, cmds: seq<Command>)
    ensures Sound(w, AfterBy(w, keyed, cmds))
  {
    hide Sound, After, KeyedAfter;
    RunSound(w, cmds);
  }
}
