/** What a run of tools/ane-session.c has come to, told by its commands and replies: which names are bound
    to which files, whether the session has failed, and what the next CALL sends and returns. */
module SessionHistory {
  import opened Basics
  import opened H14Ports
  import opened SessionSpec
  import opened SessionKeys
  import opened SessionSafety

  // ---- what a CALL sends ----

  ghost predicate IsZeros(t: Tile, n: nat) { |t| == n && forall j :: 0 <= j < n ==> t[j] == 0 }

  /** Tile k of the inputs: what is carried for it, or its part of the wire. */
  lemma {:induction false} InputsAt(b: Binding, wire: seq<byte>, n: nat, k: nat)
    requires k < n <= |Sizes(b.prog.ports, 0)| && |wire| == Wire(Sizes(b.prog.ports, 0), Ins(b.pairs), n)
    ensures var sizes, held := Sizes(b.prog.ports, 0), Ins(b.pairs);
            && |Inputs(b, wire, n)| == n && Wire(sizes, held, k) <= Wire(sizes, held, k + 1) <= |wire|
            && Inputs(b, wire, n)[k] ==
                 if k in held then Carried(PairAt(b.pairs, k))
                 else wire[Wire(sizes, held, k)..Wire(sizes, held, k + 1)]
    decreases n
  {
    hide Carried, PairAt, Sizes, Ins;
    InputCount(b, wire, n);
    if k < n - 1 {
      var off := Wire(Sizes(b.prog.ports, 0), Ins(b.pairs), n - 1);
      InputsAt(b, wire[..off], n - 1, k);
    }
  }

  lemma {:induction false} InputCount(b: Binding, wire: seq<byte>, n: nat)
    requires n <= |Sizes(b.prog.ports, 0)| && |wire| == Wire(Sizes(b.prog.ports, 0), Ins(b.pairs), n)
    ensures |Inputs(b, wire, n)| == n
    decreases n
  {
    hide Carried, PairAt, Sizes, Ins;
    if n > 0 {
      InputCount(b, wire[..Wire(Sizes(b.prog.ports, 0), Ins(b.pairs), n - 1)], n - 1);
    }
  }

  lemma PairIs(b: Binding, i: nat)
    requires BindingOk(b) && i < |b.pairs|
    ensures b.pairs[i].inIdx in Ins(b.pairs) && PairAt(b.pairs, b.pairs[i].inIdx) == b.pairs[i]
    ensures b.pairs[i].inIdx < |Sizes(b.prog.ports, 0)|
  {
    hide PairOk, FirstOf;
    assert Ins(b.pairs)[i] == b.pairs[i].inIdx;
    assert PairOk(b.prog.ports, b.pairs[i]);
    assert b.pairs[i].inIdx < |Sizes(b.prog.ports, 0)| by { PairInside(b.prog.ports, b.pairs[i]); }
  }

  lemma PairInside(ports: seq<Port>, p: Pair)
    requires PairOk(ports, p)
    ensures p.inIdx < |Sizes(ports, 0)|
  {
  }

  /** THE HELD INPUT. At the input of a pair a CALL sends what is carried for it. */
  lemma HeldInput(b: Binding, stream: seq<byte>, i: nat)
    requires BindingOk(b) && i < |b.pairs| && InWire(b) <= |stream|
    ensures |AllInputs(b, stream)| == |Sizes(b.prog.ports, 0)| && b.pairs[i].inIdx < |AllInputs(b, stream)|
    ensures AllInputs(b, stream)[b.pairs[i].inIdx] == Carried(b.pairs[i])
  {
    hide BindingOk, Inputs, Sizes, Carried, PairAt, Ins, Wire;
    PairIs(b, i);
    InputsAt(b, stream[..InWire(b)], |Sizes(b.prog.ports, 0)|, b.pairs[i].inIdx);
  }

  /** THE OTHER INPUTS. At any other input it sends the next tile of the stream, in port order. */
  lemma StreamInput(b: Binding, stream: seq<byte>, k: nat)
    requires InWire(b) <= |stream| && k < |Sizes(b.prog.ports, 0)| && k !in Ins(b.pairs)
    ensures |AllInputs(b, stream)| == |Sizes(b.prog.ports, 0)|
    ensures var at := Wire(Sizes(b.prog.ports, 0), Ins(b.pairs), k);
            && at + Sizes(b.prog.ports, 0)[k] <= InWire(b)
            && AllInputs(b, stream)[k] == stream[at..at + Sizes(b.prog.ports, 0)[k]]
  {
    hide Inputs, Sizes, Ins, Carried, PairAt;
    var at := Wire(Sizes(b.prog.ports, 0), Ins(b.pairs), k);
    InputsAt(b, stream[..InWire(b)], |Sizes(b.prog.ports, 0)|, k);
    assert Wire(Sizes(b.prog.ports, 0), Ins(b.pairs), k + 1) == at + Sizes(b.prog.ports, 0)[k];
  }

  // ---- what a CALL returns ----

  lemma {:induction false} JoinedAt(outs: seq<Tile>, sizes: seq<nat>, held: seq<nat>, n: nat, k: nat)
    requires k < n <= |outs| == |sizes| && (forall i :: 0 <= i < |outs| ==> |outs[i]| == sizes[i]) && k !in held
    ensures Wire(sizes, held, k) + sizes[k] <= |Joined(outs, held, n)|
    ensures Joined(outs, held, n)[Wire(sizes, held, k)..Wire(sizes, held, k) + sizes[k]] == outs[k]
    decreases n
  {
    JoinedLength(outs, sizes, held, n - 1);
    hide Wire;
    if k < n - 1 {
      JoinedAt(outs, sizes, held, n - 1, k);
    }
  }

  /** THE REPLY. Byte j of output k, unless the output is resident, is the byte the device computes, at the
      place of the output among those that are not. */
  lemma ReplyAt(w: World, c: Client, name: string, stream: seq<byte>, runs: bool, k: nat, j: nat)
    requires StepCall(w, c, name, stream, runs).1.Payload? && k < |Sizes(c.names[name].prog.ports, 1)|
    requires k !in Outs(c.names[name].pairs) && j < Sizes(c.names[name].prog.ports, 1)[k]
    ensures InWire(c.names[name]) <= |stream|
    ensures var b, bytes := c.names[name], StepCall(w, c, name, stream, runs).1.bytes;
            var at := Wire(Sizes(b.prog.ports, 1), Outs(b.pairs), k);
            && at + j < |bytes|
            && bytes[at + j] == w.run(b.prog, AllInputs(b, stream), k, j)
  {
    hide Joined, AllInputs, Sizes, Outs, Wire, KeepAll, InWire;
    var b := c.names[name];
    var outs, sizes := Outputs(w, b.prog, AllInputs(b, stream)), Sizes(b.prog.ports, 1);
    JoinedAt(outs, sizes, Outs(b.pairs), |outs|, k);
    var at, bytes := Wire(sizes, Outs(b.pairs), k), Joined(outs, Outs(b.pairs), |outs|);
    assert bytes[at..at + sizes[k]][j] == bytes[at + j];
  }

  // ---- zeros until the next call ----

  /** The same pair, whatever it carries. */
  predicate SamePlace(p: Pair, q: Pair) { p == q.(last := p.last) }

  /** Every pair of the binding is the old one with zeros carried. */
  ghost predicate Cleared(b: Binding, was: Binding) {
    && b.prog == was.prog && |b.pairs| == |was.pairs|
    && forall i :: 0 <= i < |b.pairs| ==> SamePlace(b.pairs[i], was.pairs[i])
                                          && IsZeros(Carried(b.pairs[i]), was.pairs[i].tile)
  }

  lemma ResetClears(c: Client, target: Option<string>, name: string)
    requires name in c.names && (target == None || target == Some(name))
    ensures StepReset(c, target).1.Done? && name in StepReset(c, target).0.names
    ensures Cleared(StepReset(c, target).0.names[name], c.names[name])
  {
  }

  /** RESET. After a reset of a name or of all, and however many commands about other names follow, the
      next CALL of the name sends zeros at every input it holds, in the reference and in the session. */
  lemma ZerosAfterReset(w: World, keyed: bool, cmds: seq<Command>, k: nat, name: string, stream: seq<byte>)
    requires k < |cmds| && cmds[k].Reset? && (cmds[k].target == None || cmds[k].target == Some(name))
    requires name in AfterBy(w, keyed, cmds[..k]).names
    requires forall j :: k < j < |cmds| ==> !Concerns(cmds[j], name)
    ensures StepBy(w, keyed, AfterBy(w, keyed, cmds[..k]), cmds[k]).1.Done?
    ensures var b, c := AfterBy(w, keyed, cmds[..k]).names[name], AfterBy(w, keyed, cmds);
            && name in c.names && Cleared(c.names[name], b)
            && (InWire(c.names[name]) <= |stream| ==>
                  forall i :: 0 <= i < |b.pairs| ==>
                    && b.pairs[i].inIdx < |AllInputs(c.names[name], stream)|
                    && IsZeros(AllInputs(c.names[name], stream)[b.pairs[i].inIdx], b.pairs[i].tile))
  {
    hide AfterBy, StepReset, Concerns, Cleared, Sound, Carried, AllInputs, InWire, IsZeros;
    var before := AfterBy(w, keyed, cmds[..k]);
    ResetClears(before, cmds[k].target, name);
    AfterLast(w, keyed, cmds, k);
    OthersKeep(w, keyed, cmds, k + 1, name);
    SoundBy(w, keyed, cmds);
    ClearedSends(w, AfterBy(w, keyed, cmds), name, before.names[name], stream);
  }

  lemma ClearedSends(w: World, c: Client, name: string, was: Binding, stream: seq<byte>)
    requires Sound(w, c) && name in c.names && Cleared(c.names[name], was)
    ensures InWire(c.names[name]) <= |stream| ==>
              forall i :: 0 <= i < |was.pairs| ==>
                && was.pairs[i].inIdx < |AllInputs(c.names[name], stream)|
                && IsZeros(AllInputs(c.names[name], stream)[was.pairs[i].inIdx], was.pairs[i].tile)
  {
    hide Carried, AllInputs, InWire, IsZeros, BindingOk, Distinct, IsLoaded, Demand, Limit;
    var b := c.names[name];
    if InWire(b) <= |stream| {
      forall i | 0 <= i < |was.pairs|
        ensures was.pairs[i].inIdx < |AllInputs(b, stream)|
        ensures IsZeros(AllInputs(b, stream)[was.pairs[i].inIdx], was.pairs[i].tile)
      {
        HeldInput(b, stream, i);
        assert SamePlace(b.pairs[i], was.pairs[i]);
      }
    }
  }

  lemma DeclareAdds(c: Client, cmd: Command)
    requires cmd.Declare? && StepDeclare(c, cmd.name, cmd.inIdx, cmd.outIdx, cmd.run, cmd.offs, cmd.fieldsOk).1.Done?
    ensures cmd.name in c.names
    ensures var b := c.names[cmd.name];
            var after := StepDeclare(c, cmd.name, cmd.inIdx, cmd.outIdx, cmd.run, cmd.offs, cmd.fieldsOk).0;
            cmd.name in after.names && Declared(after.names[cmd.name], b, cmd)
  {
    hide OfDir, RunsFit, Ins, Outs;
  }

  /** The binding has one pair more, the declared one, with zeros of the size of its input carried. */
  ghost predicate Declared(b: Binding, was: Binding, cmd: Command)
    requires cmd.Declare?
  {
    && b.prog == was.prog && |b.pairs| == |was.pairs| + 1 && b.pairs[..|was.pairs|] == was.pairs
    && cmd.inIdx < |Sizes(b.prog.ports, 0)| && cmd.outIdx < |Sizes(b.prog.ports, 1)|
    && var p, tile := b.pairs[|was.pairs|], Sizes(b.prog.ports, 0)[cmd.inIdx];
       && p.inIdx == cmd.inIdx && p.outIdx == cmd.outIdx && p.tile == tile && p.run == cmd.run && p.offs == cmd.offs
       && IsZeros(Carried(p), tile)
  }

  /** STATE. After a pair is declared, and however many commands about other names follow, the next CALL of
      the name sends zeros at its input. */
  lemma ZerosAfterDeclare(w: World, keyed: bool, cmds: seq<Command>, k: nat, stream: seq<byte>)
    requires k < |cmds| && cmds[k].Declare? && StepBy(w, keyed, AfterBy(w, keyed, cmds[..k]), cmds[k]).1.Done?
    requires forall j :: k < j < |cmds| ==> !Concerns(cmds[j], cmds[k].name)
    ensures var name, c := cmds[k].name, AfterBy(w, keyed, cmds);
            && name in AfterBy(w, keyed, cmds[..k]).names && name in c.names
            && Declared(c.names[name], AfterBy(w, keyed, cmds[..k]).names[name], cmds[k])
            && (InWire(c.names[name]) <= |stream| ==>
                  && cmds[k].inIdx < |AllInputs(c.names[name], stream)|
                  && IsZeros(AllInputs(c.names[name], stream)[cmds[k].inIdx],
                       Sizes(c.names[name].prog.ports, 0)[cmds[k].inIdx]))
  {
    hide AfterBy, StepDeclare, Concerns, Declared, Sound, Carried, AllInputs, InWire, IsZeros, Sizes;
    var before, name := AfterBy(w, keyed, cmds[..k]), cmds[k].name;
    DeclareAdds(before, cmds[k]);
    AfterLast(w, keyed, cmds, k);
    OthersKeep(w, keyed, cmds, k + 1, name);
    SoundBy(w, keyed, cmds);
    DeclaredSends(w, AfterBy(w, keyed, cmds), before.names[name], cmds[k], stream);
  }

  lemma DeclaredSends(w: World, c: Client, was: Binding, cmd: Command, stream: seq<byte>)
    requires Sound(w, c) && cmd.Declare? && cmd.name in c.names && Declared(c.names[cmd.name], was, cmd)
    ensures var b := c.names[cmd.name];
            InWire(b) <= |stream| ==>
              && cmd.inIdx < |AllInputs(b, stream)|
              && IsZeros(AllInputs(b, stream)[cmd.inIdx], Sizes(b.prog.ports, 0)[cmd.inIdx])
  {
    hide Carried, AllInputs, InWire, IsZeros, BindingOk, Distinct, IsLoaded, Demand, Limit, Sizes;
    var b := c.names[cmd.name];
    if InWire(b) <= |stream| {
      HeldInput(b, stream, |was.pairs|);
    }
  }

  /** CALL. After a call that ran, and however many commands about other names follow, the next CALL of the
      name sends at the input of each pair the bytes of the runs of the pair's last output, and zeros
      around them. */
  lemma RunsAfterCall(w: World, keyed: bool, cmds: seq<Command>, k: nat, name: string, i: nat, stream: seq<byte>,
                      j: nat)
    requires k < |cmds| && cmds[k].Call? && cmds[k].name == name
    requires Step(w, AfterBy(w, keyed, cmds[..k]), cmds[k]).1.Payload?
    requires name in AfterBy(w, keyed, cmds[..k]).names && i < |AfterBy(w, keyed, cmds[..k]).names[name].pairs|
    requires forall j :: k < j < |cmds| ==> !Concerns(cmds[j], name)
    requires j < AfterBy(w, keyed, cmds[..k]).names[name].pairs[i].tile
    ensures var b, c := AfterBy(w, keyed, cmds[..k]).names[name], AfterBy(w, keyed, cmds);
            && InWire(b) <= |cmds[k].stream| && name in c.names
            && (InWire(c.names[name]) <= |stream| ==>
                  var p, sent := b.pairs[i], AllInputs(c.names[name], stream);
                  && p.inIdx < |sent| && |sent[p.inIdx]| == p.tile
                  && sent[p.inIdx][j] ==
                       if exists r :: 0 <= r < |p.offs| && p.offs[r] <= j < p.offs[r] + p.run
                       then w.run(b.prog, AllInputs(b, cmds[k].stream), p.outIdx, j) else 0)
  {
    hide AfterBy, Concerns, BindingOk, Sound, AllInputs, InWire, StepCall;
    CarriesLastCall(w, keyed, cmds, k, name, i);
    CallKeepsPlaces(w, keyed, cmds, k, name, i);
    var b, c := AfterBy(w, keyed, cmds[..k]).names[name], AfterBy(w, keyed, cmds);
    if InWire(c.names[name]) <= |stream| {
      SoundBy(w, keyed, cmds);
      SoundBinding(w, c, name);
      HeldInput(c.names[name], stream, i);
    }
  }

  lemma SoundBinding(w: World, c: Client, name: string)
    requires Sound(w, c) && name in c.names
    ensures BindingOk(c.names[name])
  {
    hide BindingOk, Distinct, IsLoaded, Demand, Limit;
  }

  lemma CallKeepsPlaces(w: World, keyed: bool, cmds: seq<Command>, k: nat, name: string, i: nat)
    requires k < |cmds| && cmds[k].Call? && cmds[k].name == name
    requires Step(w, AfterBy(w, keyed, cmds[..k]), cmds[k]).1.Payload?
    requires name in AfterBy(w, keyed, cmds[..k]).names && i < |AfterBy(w, keyed, cmds[..k]).names[name].pairs|
    requires forall j :: k < j < |cmds| ==> !Concerns(cmds[j], name)
    ensures var b, c := AfterBy(w, keyed, cmds[..k]).names[name], AfterBy(w, keyed, cmds);
            && name in c.names && i < |c.names[name].pairs| && SamePlace(c.names[name].pairs[i], b.pairs[i])
  {
    hide AfterBy, Concerns, InWire, AllInputs, Outputs, Joined, Outs;
    AfterLast(w, keyed, cmds, k);
    OthersKeep(w, keyed, cmds, k + 1, name);
  }

  // ---- which names are bound ----

  ghost function ReplyBy(w: World, keyed: bool, cmds: seq<Command>, k: nat): Reply
    requires k < |cmds|
  {
    StepBy(w, keyed, AfterBy(w, keyed, cmds[..k]), cmds[k]).1
  }

  ghost predicate LoadedAt(w: World, keyed: bool, cmds: seq<Command>, k: int, name: string) {
    0 <= k < |cmds| && cmds[k].Load? && cmds[k].name == name && ReplyBy(w, keyed, cmds, k).Loaded?
  }

  ghost predicate FreedAt(w: World, keyed: bool, cmds: seq<Command>, k: int, name: string) {
    0 <= k < |cmds| && cmds[k].Free? && cmds[k].name == name && ReplyBy(w, keyed, cmds, k).Done?
  }

  /** The LOAD at k is the last one of the name, and not freed since. */
  ghost predicate BoundSince(w: World, keyed: bool, cmds: seq<Command>, k: int, name: string) {
    LoadedAt(w, keyed, cmds, k, name) && forall j :: k < j < |cmds| ==> !FreedAt(w, keyed, cmds, j, name)
  }

  /** The program is the one of the LOADed files; found by key, one of the same key. */
  ghost predicate FilesOf(w: World, keyed: bool, cmd: Command, prog: Program)
    requires cmd.Load?
  {
    if keyed then KeyId(w, prog) == (w.hash(cmd.anec), w.hash(cmd.table)) else LoadOf(w, cmd, prog)
  }

  /** What one command does to the binding of a name. */
  ghost predicate Rebinds(w: World, keyed: bool, c: Client, cmd: Command, name: string) {
    var after, reply := StepBy(w, keyed, c, cmd).0, StepBy(w, keyed, c, cmd).1;
    var binds, frees := cmd.Load? && cmd.name == name && reply.Loaded?,
      cmd.Free? && cmd.name == name && reply.Done?;
    && (name in after.names <==> binds || (name in c.names && !frees))
    && (binds ==> name !in c.names && FilesOf(w, keyed, cmd, after.names[name].prog) && after.names[name].pairs == [])
    && (!binds && name in after.names ==> after.names[name].prog == c.names[name].prog)
    && (reply.Refused? ==> after.names == c.names && after.loaded == c.loaded)
    && (after.failed <==> c.failed || reply.Refused?)
  }

  lemma BindStep(w: World, keyed: bool, c: Client, cmd: Command, name: string)
    ensures Rebinds(w, keyed, c, cmd, name)
  {
    if cmd.Load? {
      LoadBinds(w, keyed, c, cmd, name);
    } else {
      hide IsLoaded, Demand, OfDir, Limit, DeclareError, Forget, InWire, Outputs, Joined, KeepAll, Cached, AllInputs,
        Outs;
    }
  }

  lemma LoadBinds(w: World, keyed: bool, c: Client, cmd: Command, name: string)
    requires cmd.Load?
    ensures Rebinds(w, keyed, c, cmd, name)
  {
    hide IsLoaded, Demand, OfDir, Limit, Cached;
    if w.parse(cmd.table).Some? {
      var prog := Program(cmd.anec, cmd.table, w.parse(cmd.table).value);
      CachedMeans(w, c.loaded, KeyId(w, prog));
    }
  }

  lemma Earlier(w: World, keyed: bool, cmds: seq<Command>, n: nat, k: int, name: string)
    requires n < |cmds| && k < n
    ensures LoadedAt(w, keyed, cmds[..n], k, name) <==> LoadedAt(w, keyed, cmds, k, name)
    ensures FreedAt(w, keyed, cmds[..n], k, name) <==> FreedAt(w, keyed, cmds, k, name)
  {
    hide AfterBy, StepBy;
    if 0 <= k {
      assert cmds[..n][..k] == cmds[..k];
    }
  }

  lemma BoundEarlier(w: World, keyed: bool, cmds: seq<Command>, n: nat, k: int, name: string)
    requires n + 1 == |cmds| && k < n
    ensures BoundSince(w, keyed, cmds, k, name) <==>
              BoundSince(w, keyed, cmds[..n], k, name) && !FreedAt(w, keyed, cmds, n, name)
  {
    hide LoadedAt, FreedAt;
    Earlier(w, keyed, cmds, n, k, name);
    forall j | k < j < n
      ensures FreedAt(w, keyed, cmds[..n], j, name) <==> FreedAt(w, keyed, cmds, j, name)
    {
      Earlier(w, keyed, cmds, n, j, name);
    }
  }

  /** NAMES. After every run a name is bound exactly when some LOAD of it succeeded and no FREE of it since,
      and then to the files of that LOAD. */
  lemma {:induction false} BoundByLoad(w: World, keyed: bool, cmds: seq<Command>, name: string)
    ensures name in AfterBy(w, keyed, cmds).names <==> exists k :: BoundSince(w, keyed, cmds, k, name)
    ensures name in AfterBy(w, keyed, cmds).names ==>
              forall k :: BoundSince(w, keyed, cmds, k, name) ==>
                FilesOf(w, keyed, cmds[k], AfterBy(w, keyed, cmds).names[name].prog)
    decreases |cmds|
  {
    if cmds == [] {
      assert AfterBy(w, keyed, cmds) == NO_ONE;
    } else {
      var n := |cmds| - 1;
      BoundByLoad(w, keyed, cmds[..n], name);
      hide AfterBy, StepBy, BoundSince, FilesOf;
      BoundLast(w, keyed, cmds, n, name);
    }
  }

  lemma BoundLast(w: World, keyed: bool, cmds: seq<Command>, n: nat, name: string)
    requires n + 1 == |cmds|
    requires name in AfterBy(w, keyed, cmds[..n]).names <==> exists k :: BoundSince(w, keyed, cmds[..n], k, name)
    requires name in AfterBy(w, keyed, cmds[..n]).names ==>
               forall k :: BoundSince(w, keyed, cmds[..n], k, name) ==>
                 FilesOf(w, keyed, cmds[k], AfterBy(w, keyed, cmds[..n]).names[name].prog)
    ensures name in AfterBy(w, keyed, cmds).names <==> exists k :: BoundSince(w, keyed, cmds, k, name)
    ensures name in AfterBy(w, keyed, cmds).names ==>
              forall k :: BoundSince(w, keyed, cmds, k, name) ==>
                FilesOf(w, keyed, cmds[k], AfterBy(w, keyed, cmds).names[name].prog)
  {
    hide AfterBy, StepBy, BoundSince, FilesOf;
    var c := AfterBy(w, keyed, cmds[..n]);
    BindStep(w, keyed, c, cmds[n], name);
    AfterLast(w, keyed, cmds, n);
    assert cmds[..n + 1] == cmds;
    LastBinds(w, keyed, cmds, n, name);
    forall k | k < n
      ensures BoundSince(w, keyed, cmds, k, name) <==>
                BoundSince(w, keyed, cmds[..n], k, name) && !FreedAt(w, keyed, cmds, n, name)
    {
      BoundEarlier(w, keyed, cmds, n, k, name);
    }
  }

  lemma LastBinds(w: World, keyed: bool, cmds: seq<Command>, n: nat, name: string)
    requires n + 1 == |cmds|
    ensures BoundSince(w, keyed, cmds, n, name) <==> LoadedAt(w, keyed, cmds, n, name)
    ensures forall k :: BoundSince(w, keyed, cmds, k, name) ==> 0 <= k <= n
    ensures forall k :: BoundSince(w, keyed, cmds[..n], k, name) ==> 0 <= k < n
  {
    hide ReplyBy;
  }

  // ---- failure ----

  /** FAILURE STAYS. The session has failed exactly when some command was refused; then every STATE and
      every CALL is refused, whatever is bound. */
  lemma FailedByRefusal(w: World, keyed: bool, cmds: seq<Command>, cmd: Command)
    ensures AfterBy(w, keyed, cmds).failed <==> AnyRefused(w, keyed, cmds)
    ensures AfterBy(w, keyed, cmds).failed && (cmd.Declare? || cmd.Call?) ==>
              StepBy(w, keyed, AfterBy(w, keyed, cmds), cmd).1.Refused?
  {
    hide *;
    FailedSince(w, keyed, cmds);
    FailedRefuses(w, keyed, AfterBy(w, keyed, cmds), cmd);
  }

  ghost predicate AnyRefused(w: World, keyed: bool, cmds: seq<Command>) {
    exists k :: 0 <= k < |cmds| && ReplyBy(w, keyed, cmds, k).Refused?
  }

  lemma {:induction false} FailedSince(w: World, keyed: bool, cmds: seq<Command>)
    ensures AfterBy(w, keyed, cmds).failed <==> AnyRefused(w, keyed, cmds)
    decreases |cmds|
  {
    if cmds == [] {
      assert AfterBy(w, keyed, cmds) == NO_ONE;
    } else {
      hide AfterBy, StepBy, AnyRefused, ReplyBy;
      var n := |cmds| - 1;
      FailedSince(w, keyed, cmds[..n]);
      RefusedLast(w, keyed, cmds, n);
      BindStep(w, keyed, AfterBy(w, keyed, cmds[..n]), cmds[n], "");
      AfterLast(w, keyed, cmds, n);
      assert cmds[..n + 1] == cmds;
    }
  }

  lemma RefusedLast(w: World, keyed: bool, cmds: seq<Command>, n: nat)
    requires n + 1 == |cmds|
    ensures AnyRefused(w, keyed, cmds) <==>
              AnyRefused(w, keyed, cmds[..n]) || StepBy(w, keyed, AfterBy(w, keyed, cmds[..n]), cmds[n]).1.Refused?
  {
    hide AfterBy, StepBy;
    forall k | 0 <= k < n
      ensures ReplyBy(w, keyed, cmds[..n], k) == ReplyBy(w, keyed, cmds, k)
    {
      assert cmds[..n][..k] == cmds[..k];
    }
    assert ReplyBy(w, keyed, cmds, n) == StepBy(w, keyed, AfterBy(w, keyed, cmds[..n]), cmds[n]).1;
    if AnyRefused(w, keyed, cmds[..n]) {
      var k :| 0 <= k < n && ReplyBy(w, keyed, cmds[..n], k).Refused?;
      assert ReplyBy(w, keyed, cmds, k).Refused?;
    }
    if AnyRefused(w, keyed, cmds) {
      var k :| 0 <= k <= n && ReplyBy(w, keyed, cmds, k).Refused?;
      assert k < n ==> ReplyBy(w, keyed, cmds[..n], k).Refused?;
    }
  }

  lemma FailedRefuses(w: World, keyed: bool, c: Client, cmd: Command)
    ensures c.failed && (cmd.Declare? || cmd.Call?) ==> StepBy(w, keyed, c, cmd).1.Refused?
  {
    hide OfDir, InWire, Outputs, Joined, KeepAll, AllInputs, Outs, Ins, RunsFit;
  }

  // ---- when each command succeeds ----

  /** A program found without opening one: loaded already, told by its files or by its key. */
  ghost predicate Found(w: World, keyed: bool, c: Client, cmd: Command)
    requires cmd.Load?
  {
    exists i :: 0 <= i < |c.loaded| && FilesOf(w, keyed, cmd, c.loaded[i].prog)
  }

  /** Room for one more name or program. */
  predicate Room(w: World, n: nat) { n < w.progs && n < 250 }

  /** LOAD succeeds exactly when the name is free, the port file parses, the files can be read, there is room for the
      name, and the program is loaded already or there is room for it, it can be built, its buffers fit under
      a known cap, and it opens. */
  lemma LoadSucceeds(w: World, keyed: bool, c: Client, cmd: Command)
    requires cmd.Load?
    ensures StepBy(w, keyed, c, cmd).1.Loaded? <==>
              && cmd.name !in c.names && w.parse(cmd.table).Some? && cmd.readable && Room(w, |c.names|)
              && (|| Found(w, keyed, c, cmd)
                  || (var demand := w.demand(cmd.anec, w.parse(cmd.table).value);
                      && Room(w, |c.loaded|) && demand.Some? && cmd.opens
                      && (w.cap == 0 || Demand(c.loaded) + demand.value + w.used <= w.cap)))
  {
    hide Demand, OfDir, Cached, IsLoaded;
    if w.parse(cmd.table).Some? {
      var prog := Program(cmd.anec, cmd.table, w.parse(cmd.table).value);
      FoundIs(w, keyed, c, cmd, prog);
    }
  }

  lemma FoundIs(w: World, keyed: bool, c: Client, cmd: Command, prog: Program)
    requires cmd.Load? && w.parse(cmd.table) == Some(prog.ports) && prog.anec == cmd.anec && prog.table == cmd.table
    ensures Found(w, keyed, c, cmd) <==>
              if keyed then Cached(w, c.loaded, KeyId(w, prog)).Some? else IsLoaded(c.loaded, prog)
  {
    hide Cached;
    CachedMeans(w, c.loaded, KeyId(w, prog));
  }

  /** The pair of ports a STATE names: the same size, runs of at least a byte that stay inside. */
  ghost predicate PairFits(ports: seq<Port>, cmd: Command)
    requires cmd.Declare?
  {
    && cmd.inIdx < |Sizes(ports, 0)| && cmd.outIdx < |Sizes(ports, 1)|
    && var tile := Sizes(ports, 0)[cmd.inIdx];
       && tile == Sizes(ports, 1)[cmd.outIdx] && 1 <= cmd.run
       && forall i :: 0 <= i < |cmd.offs| ==> cmd.offs[i] + cmd.run <= tile
  }

  /** STATE succeeds exactly when the session has not failed, the fields and the number of runs (1 to 2^22) are in
      range, the name is bound, its ports have such a pair, and neither of the two is resident. */
  lemma DeclareSucceeds(w: World, keyed: bool, c: Client, cmd: Command)
    requires cmd.Declare?
    ensures StepBy(w, keyed, c, cmd).1.Done? <==>
              && !c.failed && cmd.fieldsOk && cmd.inIdx < 0x1_0000_0000 && cmd.outIdx < 0x1_0000_0000
              && 1 <= |cmd.offs| <= 0x40_0000 && cmd.name in c.names
              && PairFits(c.names[cmd.name].prog.ports, cmd)
              && (forall i :: 0 <= i < |c.names[cmd.name].pairs| ==>
                    c.names[cmd.name].pairs[i].inIdx != cmd.inIdx && c.names[cmd.name].pairs[i].outIdx != cmd.outIdx)
  {
    hide OfDir;
    if cmd.name in c.names {
      var pairs := c.names[cmd.name].pairs;
      Residents(pairs, cmd.inIdx, cmd.outIdx);
      hide Ins, Outs;
      if cmd.offs != [] && PairFits(c.names[cmd.name].prog.ports, cmd) {
        assert cmd.offs[0] + cmd.run <= Sizes(c.names[cmd.name].prog.ports, 0)[cmd.inIdx];
      }
    }
  }

  lemma Residents(pairs: seq<Pair>, inIdx: nat, outIdx: nat)
    ensures inIdx in Ins(pairs) <==> exists i :: 0 <= i < |pairs| && pairs[i].inIdx == inIdx
    ensures outIdx in Outs(pairs) <==> exists i :: 0 <= i < |pairs| && pairs[i].outIdx == outIdx
  {
    if i :| 0 <= i < |pairs| && pairs[i].inIdx == inIdx {
      assert Ins(pairs)[i] == inIdx;
    }
    if i :| 0 <= i < |pairs| && pairs[i].outIdx == outIdx {
      assert Outs(pairs)[i] == outIdx;
    }
  }

  /** CALL succeeds exactly when the session has not failed, the name is bound, the stream holds the inputs that are not
      resident and the program runs; FREE and RESET exactly when the name is bound, RESET of all always. */
  lemma OthersSucceed(w: World, keyed: bool, c: Client, cmd: Command)
    requires Sound(w, c) && !cmd.Load? && !cmd.Declare?
    ensures cmd.Free? ==> (StepBy(w, keyed, c, cmd).1.Done? <==> cmd.name in c.names)
    ensures cmd.Reset? ==> (StepBy(w, keyed, c, cmd).1.Done? <==> cmd.target == None || cmd.target.value in c.names)
    ensures cmd.Call? ==>
              (StepBy(w, keyed, c, cmd).1.Payload? <==>
                 && !c.failed && cmd.name in c.names && cmd.runs
                 && var b := c.names[cmd.name];
                    && Within(Sizes(b.prog.ports, 0), Ins(b.pairs))
                    && Total(Sizes(b.prog.ports, 0)) <= |cmd.stream| + Held(Sizes(b.prog.ports, 0), Ins(b.pairs)))
  {
    hide Outputs, Joined, KeepAll, AllInputs, Total, Held, Sizes, Within, BindingOk, Demand, IsLoaded, Distinct, Limit,
      Forget, InWire;
    if cmd.Call? && cmd.name in c.names {
      CallWire(c.names[cmd.name]);
    }
  }
}
