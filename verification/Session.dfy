/** The resident session of tools/ane-session.c. */
module Session {
  import opened Basics
  import opened H14Ports
  import opened SessionPorts
  import opened SessionSpec
  import opened SessionSafety
  import opened SessionKeys
  import opened SessionDevice

  /** A loaded program, one per distinct pair of package and port file. `prog` and `bos` stand for the
      open device handle: what it was loaded with, and its buffer objects. */
  datatype Key = Key(id: (nat, nat), prog: Program, nIn: nat, nOut: nat, demand: nat, bos: seq<Tile>)

  /** A name: an index into the key cache, shared with other names, and its own states. */
  datatype Prog = Prog(name: string, key: nat, inTotal: nat, outTotal: nat, st: seq<State>)

  // ---- how the tables stand for the client's view ----

  ghost predicate KeyIs(w: World, k: Key, e: Entry) {
    && k.prog == e.prog && k.demand == e.demand && k.id == KeyId(w, k.prog)
    && w.parse(k.prog.table) == Some(k.prog.ports)
    && k.nIn == |OfDir(k.prog.ports, 0)| && k.nOut == |OfDir(k.prog.ports, 1)| && |k.bos| == |IoTable(k.prog.ports)|
  }

  ghost predicate KeysAre(w: World, keys: seq<Key>, loaded: seq<Entry>) {
    |keys| == |loaded| && forall i :: 0 <= i < |keys| ==> KeyIs(w, keys[i], loaded[i])
  }

  ghost predicate ProgIs(keys: seq<Key>, p: Prog, b: Binding) {
    && p.key < |keys| && keys[p.key].prog == b.prog && StatesAre(p.st, b.pairs)
    && p.inTotal == Total(Sizes(b.prog.ports, 0)) && p.outTotal == Total(Sizes(b.prog.ports, 1))
  }

  predicate At(progs: seq<Option<Prog>>, i: int, name: string) {
    0 <= i < |progs| && progs[i].Some? && progs[i].value.name == name
  }

  ghost predicate SlotIs(keys: seq<Key>, slot: Option<Prog>, names: map<string, Binding>) {
    slot.Some? ==> slot.value.name in names && ProgIs(keys, slot.value, names[slot.value.name])
  }

  ghost predicate SlotsAre(keys: seq<Key>, progs: seq<Option<Prog>>, names: map<string, Binding>) {
    && (forall i :: 0 <= i < |progs| ==> SlotIs(keys, progs[i], names))
    && (forall n :: n in names ==> exists i :: At(progs, i, n))
    && (forall i, j, n :: At(progs, i, n) && At(progs, j, n) ==> i == j)
  }

  function Occupied(progs: seq<Option<Prog>>): (n: nat)
    ensures n <= |progs|
  {
    if progs == [] then 0 else Occupied(progs[..|progs| - 1]) + if progs[|progs| - 1].Some? then 1 else 0
  }

  // ---- slots ----

  method FindProg(progs: seq<Option<Prog>>, name: string) returns (at: Option<nat>)
    ensures at.Some? ==> At(progs, at.value, name)
    ensures at.None? ==> forall i :: !At(progs, i, name)
  {
    for i := 0 to |progs|
      invariant forall k :: 0 <= k < i ==> !At(progs, k, name)
    {
      if progs[i].Some? && progs[i].value.name == name {
        return Some(i);
      }
    }
    return None;
  }

  lemma FindMeans(keys: seq<Key>, progs: seq<Option<Prog>>, names: map<string, Binding>, name: string, at: Option<nat>)
    requires SlotsAre(keys, progs, names)
    requires at.Some? ==> At(progs, at.value, name)
    requires at.None? ==> forall i :: !At(progs, i, name)
    ensures at.Some? <==> name in names
    ensures at.Some? ==> ProgIs(keys, progs[at.value].value, names[name])
  {
    hide ProgIs;
    if at.Some? {
      assert SlotIs(keys, progs[at.value], names);
    }
  }

  lemma {:induction false} FreeSlot(progs: seq<Option<Prog>>)
    requires Occupied(progs) < |progs|
    ensures exists i :: 0 <= i < |progs| && progs[i].None?
  {
    var n := |progs| - 1;
    if progs[n].Some? {
      FreeSlot(progs[..n]);
      var i :| 0 <= i < n && progs[..n][i].None?;
      assert progs[i].None?;
    }
  }

  lemma {:induction false} OccupiedUpdate(progs: seq<Option<Prog>>, i: nat, slot: Option<Prog>)
    requires i < |progs|
    ensures Occupied(progs[i := slot]) ==
            Occupied(progs) - (if progs[i].Some? then 1 else 0) + (if slot.Some? then 1 else 0)
  {
    var n := |progs| - 1;
    var next := progs[i := slot];
    if i < n {
      OccupiedUpdate(progs[..n], i, slot);
      assert next[..n] == progs[..n][i := slot];
    } else {
      assert next[..n] == progs[..n];
    }
  }

  method FirstFree(progs: seq<Option<Prog>>) returns (at: nat)
    requires Occupied(progs) < |progs|
    ensures at < |progs| && progs[at].None?
  {
    FreeSlot(progs);
    at := 0;
    while progs[at].Some?
      invariant at < |progs| && forall k :: 0 <= k < at ==> progs[k].Some?
      decreases |progs| - at
    {
      at := at + 1;
    }
  }

  lemma SlotsBind(keys: seq<Key>, progs: seq<Option<Prog>>, names: map<string, Binding>, at: nat, p: Prog, b: Binding)
    requires SlotsAre(keys, progs, names) && at < |progs| && progs[at].None? && p.name !in names && ProgIs(keys, p, b)
    ensures SlotsAre(keys, progs[at := Some(p)], names[p.name := b])
  {
    hide ProgIs;
    var next, to := progs[at := Some(p)], names[p.name := b];
    forall i | 0 <= i < |next|
      ensures SlotIs(keys, next[i], to)
    {
      assert i != at ==> SlotIs(keys, progs[i], names);
    }
    forall i, n | At(next, i, n) && i != at
      ensures At(progs, i, n) && n in names
    {
      assert SlotIs(keys, progs[i], names);
    }
    forall n | n in to
      ensures exists i :: At(next, i, n)
    {
      if n == p.name {
        assert At(next, at, n);
      } else {
        var i :| At(progs, i, n);
        assert At(next, i, n);
      }
    }
  }

  lemma SlotsFree(keys: seq<Key>, progs: seq<Option<Prog>>, names: map<string, Binding>, at: nat, name: string)
    requires SlotsAre(keys, progs, names) && At(progs, at, name) && name in names
    ensures SlotsAre(keys, progs[at := None], names - {name})
  {
    hide ProgIs;
    var next, to := progs[at := None], names - {name};
    forall i | 0 <= i < |next|
      ensures SlotIs(keys, next[i], to)
    {
      if i != at {
        assert SlotIs(keys, progs[i], names);
        assert next[i].Some? ==> At(progs, i, next[i].value.name);
      }
    }
    forall i, n | At(next, i, n)
      ensures At(progs, i, n)
    {
    }
    forall n | n in to
      ensures exists i :: At(next, i, n)
    {
      var i :| At(progs, i, n);
      assert At(next, i, n);
    }
  }

  lemma SlotsRebind(keys: seq<Key>, progs: seq<Option<Prog>>, names: map<string, Binding>, at: nat, name: string,
                    p: Prog, b: Binding)
    requires SlotsAre(keys, progs, names) && At(progs, at, name) && p.name == name && ProgIs(keys, p, b)
    ensures SlotsAre(keys, progs[at := Some(p)], names[name := b])
  {
    hide ProgIs;
    var next, to := progs[at := Some(p)], names[name := b];
    forall i, n
      ensures At(next, i, n) <==> At(progs, i, n)
    {
    }
    forall i | 0 <= i < |next|
      ensures SlotIs(keys, next[i], to)
    {
      if i != at {
        assert SlotIs(keys, progs[i], names);
        assert next[i].Some? ==> At(progs, i, next[i].value.name);
      }
    }
    forall n | n in to
      ensures exists i :: At(next, i, n)
    {
      if n == name {
        assert At(next, at, n);
      } else {
        var i :| At(progs, i, n);
        assert At(next, i, n);
      }
    }
  }

  /** Growing or refreshing the key cache disturbs no binding. */
  lemma SlotsKeys(keys: seq<Key>, more: seq<Key>, progs: seq<Option<Prog>>, names: map<string, Binding>)
    requires SlotsAre(keys, progs, names)
    requires |keys| <= |more| && forall i :: 0 <= i < |keys| ==> more[i].prog == keys[i].prog
    ensures SlotsAre(more, progs, names)
  {
    hide StatesAre, Total, Sizes;
    forall i | 0 <= i < |progs|
      ensures SlotIs(more, progs[i], names)
    {
      assert SlotIs(keys, progs[i], names);
    }
  }

  // ---- keys ----

  method FindKey(keys: seq<Key>, id: (nat, nat)) returns (at: Option<nat>)
    ensures at.Some? ==>
              at.value < |keys| && keys[at.value].id == id
              && forall i :: 0 <= i < at.value ==> keys[i].id != id
    ensures at.None? ==> forall i :: 0 <= i < |keys| ==> keys[i].id != id
  {
    for i := 0 to |keys|
      invariant forall k :: 0 <= k < i ==> keys[k].id != id
    {
      if keys[i].id == id {
        return Some(i);
      }
    }
    return None;
  }

  /** The cache finds what the key stands for. */
  lemma KeyMeans(w: World, keys: seq<Key>, loaded: seq<Entry>, prog: Program, at: Option<nat>)
    requires KeysAre(w, keys, loaded)
    requires at.Some? ==>
               at.value < |keys| && keys[at.value].id == KeyId(w, prog)
               && forall i :: 0 <= i < at.value ==> keys[i].id != KeyId(w, prog)
    requires at.None? ==> forall i :: 0 <= i < |keys| ==> keys[i].id != KeyId(w, prog)
    ensures Cached(w, loaded, KeyId(w, prog)) == if at.Some? then Some(keys[at.value].prog) else None
    ensures at.Some? ==> IsLoaded(loaded, keys[at.value].prog)
    ensures at.None? ==> !IsLoaded(loaded, prog)
  {
    hide OfDir, IoTable, Cached;
    var id := KeyId(w, prog);
    assert forall i :: 0 <= i < |keys| ==> KeyIs(w, keys[i], loaded[i]);
    assert forall i :: 0 <= i < |keys| ==> loaded[i].prog == keys[i].prog && KeyId(w, loaded[i].prog) == keys[i].id;
    if at.Some? {
      CachedAt(w, loaded, id, at.value);
    } else {
      CachedMeans(w, loaded, id);
    }
  }

  method SumTiles(ports: seq<Port>, dir: nat) returns (total: nat, count: nat)
    ensures total == Total(Sizes(ports, dir)) && count == |OfDir(ports, dir)|
  {
    total, count := 0, 0;
    for k := 0 to |ports|
      invariant total == Total(Sizes(ports[..k], dir)) && count == |OfDir(ports[..k], dir)|
    {
      OfDirStep(ports, k, dir);
      if ports[k].dir == dir {
        SizesGrow(ports, k, dir);
        total := total + ports[k].tileBytes;
        count := count + 1;
      }
    }
    assert ports[..|ports|] == ports;
  }

  lemma SizesGrow(ports: seq<Port>, k: nat, dir: nat)
    requires k < |ports| && ports[k].dir == dir
    ensures Total(Sizes(ports[..k + 1], dir)) == Total(Sizes(ports[..k], dir)) + ports[k].tileBytes
  {
    OfDirStep(ports, k, dir);
    var s, t := Sizes(ports[..k], dir), Sizes(ports[..k + 1], dir);
    assert t[..|s|] == s && t[|s|] == ports[k].tileBytes;
  }

  /** The positions a binding holds back, in one direction. */
  ghost function HeldAt(b: Binding, dir: nat): seq<nat> { if dir == 0 then Ins(b.pairs) else Outs(b.pairs) }

  lemma WireHeld(b: Binding, dir: nat)
    requires dir <= 1 && BindingOk(b)
    ensures var sizes, held := Sizes(b.prog.ports, dir), HeldAt(b, dir);
            Within(sizes, held) && Wire(sizes, held, |sizes|) + Held(sizes, held) == Total(sizes)
  {
    hide BindingOk, Sizes, Wire, Total, Held;
    PairsWithin(b);
    WireTotal(Sizes(b.prog.ports, dir), HeldAt(b, dir));
  }

  lemma StateHeld(st: seq<State>, b: Binding, dir: nat, i: nat)
    requires dir <= 1 && StatesAre(st, b.pairs) && BindingOk(b) && i < |st|
    ensures |HeldAt(b, dir)| == |st| && HeldAt(b, dir)[i] < |Sizes(b.prog.ports, dir)|
    ensures st[i].tile == Sizes(b.prog.ports, dir)[HeldAt(b, dir)[i]]
  {
    hide StatesAre, BindingOk, Sizes;
    StateCount(st, b);
    StateTile(st, b, i);
  }

  /** The wire length: the total less every resident tile. */
  method WireLess(total: nat, st: seq<State>, ghost b: Binding, ghost dir: nat) returns (wire: nat)
    requires dir <= 1 && BindingOk(b) && StatesAre(st, b.pairs) && total == Total(Sizes(b.prog.ports, dir))
    ensures wire == Wire(Sizes(b.prog.ports, dir),
            if dir == 0 then Ins(b.pairs) else Outs(b.pairs), |Sizes(b.prog.ports, dir)|)
  {
    ghost var sizes, held := Sizes(b.prog.ports, dir), HeldAt(b, dir);
    assert held == if dir == 0 then Ins(b.pairs) else Outs(b.pairs);
    StateCount(st, b);
    assert |held| == |st|;
    hide StatesAre, BindingOk, Total, Held, Sizes, Within, Wire, HeldAt, Ins, Outs;
    WireHeld(b, dir);
    assert held[..0] == [];
    HeldNone(sizes);
    wire := total;
    for i := 0 to |st|
      invariant Within(sizes, held[..i]) && Within(sizes, held) && wire + Held(sizes, held[..i]) == total
    {
      HeldStep(sizes, held, i);
      HeldGrows(sizes, held, i + 1);
      StateHeld(st, b, dir, i);
      wire := wire - st[i].tile;
    }
    assert held[..|st|] == held;
  }

  lemma HeldNone(sizes: seq<nat>)
    ensures Within(sizes, []) && Held(sizes, []) == 0
  {
  }

  lemma StateCount(st: seq<State>, b: Binding)
    requires StatesAre(st, b.pairs)
    ensures |st| == |b.pairs| == |Ins(b.pairs)| == |Outs(b.pairs)|
  {
  }

  lemma StateTile(st: seq<State>, b: Binding, i: nat)
    requires StatesAre(st, b.pairs) && BindingOk(b) && i < |st|
    ensures Ins(b.pairs)[i] < |Sizes(b.prog.ports, 0)| && Outs(b.pairs)[i] < |Sizes(b.prog.ports, 1)|
    ensures st[i].tile == Sizes(b.prog.ports, 0)[Ins(b.pairs)[i]] == Sizes(b.prog.ports, 1)[Outs(b.pairs)[i]]
  {
    hide OfDir, RunsFit, Carried;
    assert StateIs(st[i], b.pairs[i]) && PairOk(b.prog.ports, b.pairs[i]);
  }

  lemma HeldStep(sizes: seq<nat>, held: seq<nat>, i: nat)
    requires Within(sizes, held) && i < |held|
    ensures held[i] < |sizes| && Within(sizes, held[..i]) && Within(sizes, held[..i + 1])
    ensures Held(sizes, held[..i + 1]) == Held(sizes, held[..i]) + sizes[held[i]]
  {
    assert held[..i + 1][..i] == held[..i];
  }

  lemma {:induction false} HeldGrows(sizes: seq<nat>, held: seq<nat>, i: nat)
    requires Within(sizes, held) && i <= |held|
    ensures Within(sizes, held[..i]) && Held(sizes, held[..i]) <= Held(sizes, held) <= Total(sizes)
    decreases |held|
  {
    WireTotal(sizes, held);
    if i == |held| {
      assert held[..i] == held;
    } else {
      var n := |held| - 1;
      assert held[..n][..i] == held[..i];
      HeldGrows(sizes, held[..n], i);
    }
  }

  // ---- the session ----

  /** The tables, and the client they stand for. */
  ghost predicate Refines(w: World, progs: seq<Option<Prog>>, nprogs: nat, keys: seq<Key>, demand: nat, failed: bool,
                          c: Client) {
    && |progs| == MAX_PROGS && Occupied(progs) == nprogs == |c.names|
    && KeysAre(w, keys, c.loaded) && demand == Demand(c.loaded) && failed == c.failed
    && SlotsAre(keys, progs, c.names)
  }

  class Session {
    const w: World
    var progs: seq<Option<Prog>>
    var nprogs: nat
    var keys: seq<Key>
    var demand: nat
    var failed: bool
    /** Device opens so far. */
    ghost var opens: nat
    /** The stateless client this session stands for. */
    ghost var client: Client

    ghost predicate Valid()
      reads this
    {
      Sound(w, client) && opens == |keys| && Refines(w, progs, nprogs, keys, demand, failed, client)
    }

    constructor (w: World)
      ensures Valid() && this.w == w && client == NO_ONE
    {
      this.w := w;
      progs := seq(MAX_PROGS, _ => None);
      nprogs, keys, demand, failed, opens, client := 0, [], 0, false, 0, NO_ONE;
      new;
      NoSlots(w, MAX_PROGS);
      RunSound(w, []);
    }

    /** Refuse a command: the session is failed from now on. */
    method Fail(why: Refusal) returns (reply: Reply)
      requires Valid()
      modifies this
      ensures Valid() && (client, reply) == SessionSpec.Fail(old(client), why)
    {
      hide Sound, KeysAre, SlotsAre;
      FailSound(w, client);
      failed, client := true, client.(failed := true);
      reply := Refused(why);
    }

    method LoadProgram(name: string, anec: seq<byte>, table: seq<byte>, readable: bool, canOpen: bool)
      returns (reply: Reply)
      requires Valid()
      modifies this
      ensures Valid() && (client, reply) == KeyedLoad(w, old(client), name, anec, table, readable, canOpen)
    {
      hide Sound, KeysAre, SlotsAre, IsLoaded, Demand, Occupied, Bind, Valid;
      ValidParts();
      var at := FindProg(progs, name);
      FindMeans(keys, progs, client.names, name, at);
      if at.Some? {
        reply := Fail(AlreadyLoaded);
        return;
      }
      var ports := w.parse(table);
      if ports.None? {
        reply := Fail(BadPorts);
        return;
      }
      if nprogs >= Limit(w) {
        reply := Fail(MaxProgs);
        return;
      }
      if !readable {
        reply := Fail(Unreadable);
        return;
      }
      var prog := Program(anec, table, ports.value);
      var k := FindKey(keys, KeyId(w, prog));
      KeyMeans(w, keys, client.loaded, prog, k);
      if k.Some? {
        reply := BindName(name, k.value, keys[k.value].prog);
        return;
      }
      if |keys| >= Limit(w) {
        reply := Fail(KeyCacheFull);
        return;
      }
      var d := w.demand(anec, ports.value);
      if d.None? {
        reply := Fail(BuildFailed);
        return;
      }
      if w.cap != 0 && demand + d.value + w.used > w.cap {
        reply := Fail(BoCap);
        return;
      }
      if !canOpen {
        reply := Fail(OpenFailed);
        return;
      }
      OpenKey(prog, d.value);
      reply := BindName(name, |keys| - 1, prog);
    }

    lemma ValidParts()
      requires Valid()
      ensures KeysAre(w, keys, client.loaded) && SlotsAre(keys, progs, client.names) && |keys| == |client.loaded|
      ensures nprogs == |client.names| && demand == Demand(client.loaded) && failed == client.failed
              && |progs| == MAX_PROGS
      ensures Sound(w, client) && Occupied(progs) == nprogs
    {
      hide Sound, SlotsAre;
    }

    /** Open the device and cache the program. */
    method OpenKey(prog: Program, d: nat)
      requires Valid() && !IsLoaded(client.loaded, prog) && |client.loaded| < Limit(w)
               && w.parse(prog.table) == Some(prog.ports)
      requires w.cap == 0 || Demand(client.loaded) + d + w.used <= w.cap
      modifies this
      ensures Valid() && client == old(client).(loaded := old(client).loaded + [Entry(prog, d)])
      ensures |keys| == |old(keys)| + 1 && keys[|keys| - 1].prog == prog && IsLoaded(client.loaded, prog)
    {
      hide Sound, SlotsAre, IsLoaded, Demand, Total, IoTable;
      ghost var e := Entry(prog, d);
      OpenSound(w, client, e);
      DemandAppend(client.loaded, e);
      var inTotal, nIn := SumTiles(prog.ports, 0);
      var outTotal, nOut := SumTiles(prog.ports, 1);
      var bos: seq<Tile> := seq(|IoTable(prog.ports)|, _ => []);
      var key := Key(KeyId(w, prog), prog, nIn, nOut, d, bos);
      KeysGrow(w, keys, client.loaded, key, e);
      SlotsKeys(keys, keys + [key], progs, client.names);
      keys, demand := keys + [key], demand + d;
      opens, client := opens + 1, client.(loaded := client.loaded + [e]);
    }

    /** Bind a free slot to a cached program. */
    method BindName(name: string, k: nat, prog: Program) returns (reply: Reply)
      requires Valid() && name !in client.names && |client.names| < Limit(w)
      requires k < |keys| && keys[k].prog == prog && IsLoaded(client.loaded, prog)
      modifies this
      ensures Valid() && (client, reply) == Bind(old(client), name, prog)
    {
      hide Sound, SlotsAre, IsLoaded, Demand, Total, OfDir, Sizes;
      BindSound(w, client, name, prog);
      var at := FirstFree(progs);
      var inTotal, nIn := SumTiles(prog.ports, 0);
      var outTotal, nOut := SumTiles(prog.ports, 1);
      var p := Prog(name, k, inTotal, outTotal, []);
      ghost var b := Binding(prog, []);
      SlotsBind(keys, progs, client.names, at, p, b);
      OccupiedUpdate(progs, at, Some(p));
      assert KeyIs(w, keys[k], client.loaded[k]);
      reply := Loaded(keys[k].nIn, keys[k].nOut);
      progs, nprogs := progs[at := Some(p)], nprogs + 1;
      client := client.(names := client.names[name := b]);
    }

    method FreeProgram(name: string) returns (reply: Reply)
      requires Valid()
      modifies this
      ensures Valid() && (client, reply) == StepFree(old(client), name)
    {
      hide Sound, SlotsAre, KeysAre;
      var at := FindProg(progs, name);
      FindMeans(keys, progs, client.names, name, at);
      FreeSound(w, client, name);
      if at.None? {
        reply := Fail(NotLoaded);
        return;
      }
      SlotsFree(keys, progs, client.names, at.value, name);
      OccupiedUpdate(progs, at.value, None);
      FewerNames(client.names, name);
      progs, nprogs := progs[at.value := None], nprogs - 1;
      client := client.(names := client.names - {name});
      reply := Done;
    }

    method DeclareState(name: string, inIdx: nat, outIdx: nat, run: nat, offs: seq<nat>, fieldsOk: bool)
      returns (reply: Reply)
      requires Valid()
      modifies this
      ensures Valid() && (client, reply) == StepDeclare(old(client), name, inIdx, outIdx, run, offs, fieldsOk)
    {
      hide Sound, SlotsAre, KeysAre, RunsFit, OfDir, Ins, Outs, ProgIs, Valid;
      ValidParts();
      DeclareSound(w, client, name, inIdx, outIdx, run, offs, fieldsOk);
      if offs == [] || |offs| > MAX_RUNS {
        reply := Fail(BadRunCount);
        return;
      }
      if !fieldsOk || inIdx > 0xffff_ffff || outIdx > 0xffff_ffff {
        reply := Fail(BadField);
        return;
      }
      if failed {
        reply := Fail(SessionFailed);
        return;
      }
      var at := FindProg(progs, name);
      FindMeans(keys, progs, client.names, name, at);
      if at.None? {
        reply := Fail(NotLoaded);
        return;
      }
      var p := progs[at.value].value;
      var why := CheckPair(p, keys, inIdx, outIdx, run, offs, client.names[name]);
      if why.Some? {
        reply := Fail(why.value);
        return;
      }
      KeyPorts(keys, p, client.names[name]);
      var ki := PortAt(keys[p.key].prog.ports, 0, inIdx);
      var tile := keys[p.key].prog.ports[ki.value].tileBytes;
      var s := State(inIdx, outIdx, tile, run, offs, Blank(tile));
      AddState(at.value, name, s);
      reply := Done;
    }

    method AddState(at: nat, name: string, s: State)
      requires Valid() && At(progs, at, name) && name in client.names
      requires s.buf == Blank(s.tile)
      requires Sound(w, Extended(client, name, s))
      modifies this
      ensures Valid() && client == Extended(old(client), name, s)
    {
      hide Sound, SlotsAre, KeysAre, Total;
      var p := progs[at].value;
      FindMeans(keys, progs, client.names, name, Some(at));
      var next := p.(st := p.st + [s]);
      ghost var b := client.names[name].(pairs := client.names[name].pairs + [PairOf(s)]);
      SlotsRebind(keys, progs, client.names, at, name, next, b);
      OccupiedUpdate(progs, at, Some(next));
      SameNames(client.names, name, b);
      progs := progs[at := Some(next)];
      client := Extended(client, name, s);
    }

    /** Zero the states of one name. */
    method ZeroStates(at: nat, name: string)
      requires Valid() && At(progs, at, name) && name in client.names
      modifies this
      ensures Valid() && client == StepReset(old(client), Some(name)).0
              && forall i, n :: At(progs, i, n) <==> At(old(progs), i, n)
    {
      hide Sound, SlotsAre, KeysAre, Total, Blank, Forget, StatesAre;
      var p := progs[at].value;
      FindMeans(keys, progs, client.names, name, Some(at));
      ResetSound(w, client, Some(name));
      var st := Zeroed(p.st, client.names[name].pairs);
      var next := p.(st := st);
      ghost var b := client.names[name].(pairs := Forget(client.names[name].pairs));
      SlotsRebind(keys, progs, client.names, at, name, next, b);
      OccupiedUpdate(progs, at, Some(next));
      SameNames(client.names, name, b);
      progs := progs[at := Some(next)];
      client := client.(names := client.names[name := b]);
    }

    method ResetStates(target: Option<string>) returns (reply: Reply)
      requires Valid()
      modifies this
      ensures Valid() && (client, reply) == StepReset(old(client), target)
    {
      hide Sound, SlotsAre, KeysAre, Forget, Occupied;
      if target.Some? {
        var at := FindProg(progs, target.value);
        FindMeans(keys, progs, client.names, target.value, at);
        if at.None? {
          reply := Fail(NotLoaded);
          return;
        }
        ZeroStates(at.value, target.value);
      } else {
        ZeroAll();
      }
      reply := Done;
    }

    method ZeroAll()
      requires Valid()
      modifies this
      ensures Valid() && client == StepReset(old(client), None).0
    {
      hide Sound, SlotsAre, KeysAre, Forget, Occupied;
      ghost var done: set<string> := {};
      for i := 0 to |progs|
        invariant Valid() && |progs| == |old(progs)|
        invariant client == Partly(old(client), done)
        invariant done <= client.names.Keys
        invariant forall j, n :: At(progs, j, n) <==> At(old(progs), j, n)
        invariant forall j, n :: At(progs, j, n) ==> (n in done <==> j < i)
      {
        if progs[i].Some? {
          ghost var name := progs[i].value.name;
          FindMeans(keys, progs, client.names, name, Some(i));
          SameSlot(keys, progs, client.names, i, name);
          ghost var before := client;
          ZeroStates(i, progs[i].value.name);
          PartlyStep(old(client), before, done, name);
          done := done + {name};
        }
      }
      AllDone(keys, progs, client.names, done);
      assert client == StepReset(old(client), None).0;
    }

    method CallProgram(name: string, stream: seq<byte>, runs: bool) returns (reply: Reply)
      requires Valid()
      modifies this
      ensures Valid() && (client, reply) == StepCall(w, old(client), name, stream, runs)
      ensures reply.Payload? ==> name in old(client).names && |reply.bytes| == OutWire(old(client).names[name])
    {
      hide Sound, SlotsAre, KeysAre, Total, BindingOk, Occupied, Valid, ProgIs, OutWire;
      ValidParts();
      CallSound(w, client, name, stream, runs);
      var at := FindProg(progs, name);
      FindMeans(keys, progs, client.names, name, at);
      if at.None? {
        reply := Fail(NotLoaded);
        return;
      }
      if failed {
        return Refused(SessionFailed);
      }
      ghost var b := client.names[name];
      BoundOk(w, client, name);
      var p := progs[at.value].value;
      KeyPorts(keys, p, b);
      var inWire := WireLess(p.inTotal, p.st, b, 0);
      if |stream| < inWire {
        reply := Fail(ShortInput);
        return;
      }
      reply := RunProgram(at.value, name, stream[..inWire], runs);
    }

    /** Send, run, read the reply, carry the states. */
    method RunProgram(at: nat, name: string, wire: seq<byte>, runs: bool) returns (reply: Reply)
      requires Valid() && At(progs, at, name) && name in client.names && BindingOk(client.names[name])
               && |wire| == InWire(client.names[name])
      requires runs ==> Sound(w, Called(w, client, name, wire).0)
      modifies this
      ensures Valid() && (client, reply) ==
              if runs then Called(w, old(client), name, wire) else SessionSpec.Fail(old(client), ExecFailed)
      ensures reply.Payload? ==> |reply.bytes| == OutWire(old(client).names[name])
    {
      hide Sound, SlotsAre, Total, BindingOk, Occupied, Inputs, Outputs, HoldsOutputs, Joined, KeepAll, InWire, Sizes,
        IoTable, OfDir, StatesAre;
      var p := progs[at].value;
      ghost var b := client.names[name];
      FindMeans(keys, progs, client.names, name, Some(at));
      assert KeyIs(w, keys[p.key], client.loaded[p.key]);
      var prog := keys[p.key].prog;
      PairsAreApart(b);
      var outWire := WireLess(p.outTotal, p.st, b, 1);
      var bos := SendInputs(prog.ports, p.st, wire, keys[p.key].bos, b);
      if !runs {
        SetBos(p.key, bos);
        reply := Fail(ExecFailed);
        return;
      }
      InputsReady(b, wire);
      ghost var outs := Outputs(w, prog, Inputs(b, wire, |OfDir(prog.ports, 0)|));
      ExecOutputs(w, prog, bos);
      bos := Exec(w, prog, bos);
      SetBos(p.key, bos);
      var payload := ReadOutputs(prog.ports, p.st, bos, b, outs);
      OutputCount(w, prog, Inputs(b, wire, |OfDir(prog.ports, 0)|));
      PayloadLength(w, b, Inputs(b, wire, |OfDir(prog.ports, 0)|));
      assert payload[..outWire] == payload;
      var st := CarryStates(prog.ports, p.st, bos, b, outs);
      SetStates(at, name, st, b.(pairs := KeepAll(b.pairs, outs)));
      reply := Payload(payload[..outWire]);
    }

    /** The buffer objects of one cached program change; nothing else does. */
    method SetBos(k: nat, bos: seq<Tile>)
      requires Valid() && k < |keys| && |bos| == |keys[k].bos|
      modifies this
      ensures Valid() && client == old(client) && progs == old(progs)
      ensures |keys| == |old(keys)| && forall i :: 0 <= i < |keys| ==> keys[i].prog == old(keys)[i].prog
    {
      hide Sound, SlotsAre, IoTable, OfDir;
      var next := keys[k := keys[k].(bos := bos)];
      SlotsKeys(keys, next, progs, client.names);
      keys := next;
    }

    method SetStates(at: nat, name: string, st: seq<State>, ghost b: Binding)
      requires Valid() && At(progs, at, name) && name in client.names && b.prog == client.names[name].prog
               && StatesAre(st, b.pairs)
      requires Sound(w, client.(names := client.names[name := b]))
      modifies this
      ensures Valid() && client == old(client).(names := old(client).names[name := b])
    {
      hide Sound, SlotsAre, KeysAre, Total, StatesAre;
      FindMeans(keys, progs, client.names, name, Some(at));
      var next := progs[at].value.(st := st);
      SlotsRebind(keys, progs, client.names, at, name, next, b);
      OccupiedUpdate(progs, at, Some(next));
      SameNames(client.names, name, b);
      progs := progs[at := Some(next)];
      client := client.(names := client.names[name := b]);
    }

    method Execute(cmd: Command) returns (reply: Reply)
      requires Valid()
      modifies this
      ensures Valid() && (client, reply) == KeyedStep(w, old(client), cmd)
    {
      hide Valid, KeyedLoad, StepLoad, StepFree, StepDeclare, StepReset, StepCall;
      match cmd
      case Load(name, anec, table, readable, canOpen) => reply := LoadProgram(name, anec, table, readable, canOpen);
      case Free(name) => reply := FreeProgram(name);
      case Declare(name, inIdx, outIdx, run, offs, fieldsOk) => reply := DeclareState(name, inIdx, outIdx, run, offs,
        fieldsOk);
      case Reset(target) => reply := ResetStates(target);
      case Call(name, stream, runs) => reply := CallProgram(name, stream, runs);
    }
  }

  // ---- small facts the methods use ----

  lemma {:induction false} NoneOccupied(n: nat)
    ensures Occupied(seq<Option<Prog>>(n, _ => None)) == 0
  {
    if n > 0 {
      NoneOccupied(n - 1);
      assert seq<Option<Prog>>(n, _ => None)[..n - 1] == seq<Option<Prog>>(n - 1, _ => None);
    }
  }

  lemma NoSlots(w: World, n: nat)
    ensures Occupied(seq<Option<Prog>>(n, _ => None)) == 0 && SlotsAre([], seq<Option<Prog>>(n, _ => None), map[])
            && KeysAre(w, [], [])
    ensures Demand([]) == 0
  {
    NoneOccupied(n);
  }

  lemma KeysGrow(w: World, keys: seq<Key>, loaded: seq<Entry>, k: Key, e: Entry)
    requires KeysAre(w, keys, loaded) && KeyIs(w, k, e)
    ensures KeysAre(w, keys + [k], loaded + [e])
  {
    hide KeyIs;
  }

  lemma FewerNames(names: map<string, Binding>, name: string)
    requires name in names
    ensures |names - {name}| == |names| - 1
  {
    assert (names - {name}).Keys == names.Keys - {name};
    assert |names - {name}| == |(names - {name}).Keys| && |names| == |names.Keys|;
  }

  lemma SameNames(names: map<string, Binding>, name: string, b: Binding)
    requires name in names
    ensures |names[name := b]| == |names|
  {
    assert names[name := b].Keys == names.Keys;
    SameSize(names[name := b], names);
  }

  lemma KeyPorts(keys: seq<Key>, p: Prog, b: Binding)
    requires ProgIs(keys, p, b)
    ensures p.key < |keys| && keys[p.key].prog == b.prog && StatesAre(p.st, b.pairs)
            && p.inTotal == Total(Sizes(b.prog.ports, 0))
  {
  }

  lemma BoundOk(w: World, c: Client, name: string)
    requires Sound(w, c) && name in c.names
    ensures BindingOk(c.names[name])
  {
  }

  lemma InputsReady(b: Binding, wire: seq<byte>)
    requires |wire| == InWire(b)
    ensures |Sizes(b.prog.ports, 0)| == |OfDir(b.prog.ports, 0)|
    ensures |wire| == Wire(Sizes(b.prog.ports, 0), Ins(b.pairs), |OfDir(b.prog.ports, 0)|)
  {
    hide OfDir, Wire;
  }

  lemma PairsAreApart(b: Binding)
    requires BindingOk(b)
    ensures PairsApart(b.pairs)
  {
  }

  /** The checks of STATE that look at the program. */
  method CheckPair(p: Prog, keys: seq<Key>, inIdx: nat, outIdx: nat, run: nat, offs: seq<nat>, ghost b: Binding)
    returns (why: Option<Refusal>)
    requires ProgIs(keys, p, b)
    ensures var ins, outs := OfDir(b.prog.ports, 0), OfDir(b.prog.ports, 1);
            why == if inIdx >= |ins| || outIdx >= |outs| then Some(NoSuchPort)
                   else if ins[inIdx].tileBytes != outs[outIdx].tileBytes then Some(TileBytesDiffer)
                   else if inIdx in Ins(b.pairs) || outIdx in Outs(b.pairs) then Some(AlreadyResident)
                   else if run == 0 || run > ins[inIdx].tileBytes then Some(BadRunBytes)
                   else if !RunsFit(offs, run, ins[inIdx].tileBytes) then Some(RunOutOfTile)
                   else None
  {
    hide OfDir, Ins, Outs, StatesAre, Total, Sizes;
    var ports := keys[p.key].prog.ports;
    var ki := PortAt(ports, 0, inIdx);
    var ko := PortAt(ports, 1, outIdx);
    if ki.None? || ko.None? {
      return Some(NoSuchPort);
    }
    var tile := ports[ki.value].tileBytes;
    if tile != ports[ko.value].tileBytes {
      return Some(TileBytesDiffer);
    }
    var si := StateByIn(p.st, inIdx);
    var so := StateByOut(p.st, outIdx);
    InResident(p.st, b.pairs, inIdx, si);
    FoundOut(p.st, b.pairs, outIdx, so);
    if si.Some? || so.Some? {
      return Some(AlreadyResident);
    }
    if run == 0 || run > tile {
      return Some(BadRunBytes);
    }
    for i := 0 to |offs|
      invariant forall k :: 0 <= k < i ==> offs[k] <= tile && run <= tile - offs[k]
    {
      if offs[i] > tile || run > tile - offs[i] {
        return Some(RunOutOfTile);
      }
    }
    return None;
  }

  lemma InResident(st: seq<State>, pairs: seq<Pair>, idx: nat, at: Option<nat>)
    requires StatesAre(st, pairs)
    requires at.Some? ==> at.value < |st| && st[at.value].inIdx == idx
    requires at.None? ==> forall i :: 0 <= i < |st| ==> st[i].inIdx != idx
    ensures at.Some? <==> idx in Ins(pairs)
  {
    hide Carried;
    if at.Some? {
      assert StateIs(st[at.value], pairs[at.value]);
      assert Ins(pairs)[at.value] == idx;
    }
  }

  ghost function PairOf(s: State): Pair { Pair(s.inIdx, s.outIdx, s.tile, s.run, s.offs, None) }

  ghost function Extended(c: Client, name: string, s: State): Client
    requires name in c.names
  {
    c.(names := c.names[name := c.names[name].(pairs := c.names[name].pairs + [PairOf(s)])])
  }

  method Zeroed(st: seq<State>, ghost pairs: seq<Pair>) returns (r: seq<State>)
    requires StatesAre(st, pairs)
    ensures StatesAre(r, Forget(pairs))
  {
    hide Blank;
    r := st;
    for i := 0 to |st|
      invariant |r| == |st| && forall k :: 0 <= k < i ==> StateIs(r[k], Forget(pairs)[k])
      invariant forall k :: i <= k < |st| ==> r[k] == st[k]
    {
      assert StateIs(st[i], pairs[i]);
      r := r[i := r[i].(buf := Blank(r[i].tile))];
    }
  }

  /** A RESET of every name, half way through the slots. */
  ghost function Partly(c: Client, done: set<string>): Client {
    c.(names := map n | n in c.names ::
      if n in done then c.names[n].(pairs := Forget(c.names[n].pairs)) else c.names[n])
  }

  lemma PartlyStep(c: Client, before: Client, done: set<string>, name: string)
    requires before == Partly(c, done) && name in c.names && name !in done
    ensures name in before.names && StepReset(before, Some(name)).0 == Partly(c, done + {name})
  {
    hide Forget;
    var after := StepReset(before, Some(name)).0;
    assert after.names == Partly(c, done + {name}).names;
  }

  lemma SameSlot(keys: seq<Key>, progs: seq<Option<Prog>>, names: map<string, Binding>, i: nat, name: string)
    requires SlotsAre(keys, progs, names) && At(progs, i, name)
    ensures forall j :: At(progs, j, name) ==> j == i
  {
    hide SlotIs;
  }

  lemma AllDone(keys: seq<Key>, progs: seq<Option<Prog>>, names: map<string, Binding>, done: set<string>)
    requires SlotsAre(keys, progs, names) && forall j, n :: At(progs, j, n) ==> n in done
    ensures forall n :: n in names ==> n in done
  {
    hide SlotIs;
    forall n | n in names
      ensures n in done
    {
      var i :| At(progs, i, n);
    }
  }

  /** A CALL whose payload arrived and whose run succeeded. */
  ghost function Called(w: World, c: Client, name: string, wire: seq<byte>): (Client, Reply)
    requires name in c.names && |wire| == InWire(c.names[name])
  {
    var b := c.names[name];
    var outs := Outputs(w, b.prog, Inputs(b, wire, |OfDir(b.prog.ports, 0)|));
    (c.(names := c.names[name := b.(pairs := KeepAll(b.pairs, outs))]), Payload(Joined(outs, Outs(b.pairs), |outs|)))
  }

  // ---- whole runs ----

  /** RESIDENT STATE REFINES A STATELESS SESSION. For every command list and every hash, the session with
      shared programs, device buffers and resident states answers exactly as a client that sends every
      input itself (zeros plus the runs of the name's last output for each held input) and finds programs
      by their key. As long as no two different pairs of LOADed files share a key, that is the answer of
      the reference, which knows no keys. */
  method RunSession(w: World, cmds: seq<Command>) returns (replies: seq<Reply>)
    ensures replies == KeyedReplies(w, cmds)
    ensures NoClash(w, cmds) ==> replies == Replies(w, cmds)
    ensures forall k :: 0 <= k < |cmds| && replies[k].Payload? ==> PayloadFits(w, cmds, k, replies[k].bytes)
  {
    hide Step, KeyedStep, NoClash, Session.Valid;
    var s := new Session(w);
    replies := [];
    for i := 0 to |cmds|
      invariant s.Valid() && s.w == w && s.client == KeyedAfter(w, cmds[..i])
      invariant |replies| == i && forall k :: 0 <= k < i ==>
                replies[k] == KeyedStep(w, KeyedAfter(w, cmds[..k]), cmds[k]).1
    {
      assert cmds[..i + 1][..i] == cmds[..i];
      var reply := s.Execute(cmds[i]);
      replies := replies + [reply];
    }
    if NoClash(w, cmds) {
      KeyedIsStateless(w, cmds);
    }
    forall k | 0 <= k < |cmds| && replies[k].Payload?
      ensures PayloadFits(w, cmds, k, replies[k].bytes)
    {
      ReplyFits(w, cmds, k);
    }
  }

  /** The payload answers a CALL of a bound name and is as long as the outputs that are not resident. */
  ghost predicate PayloadFits(w: World, cmds: seq<Command>, k: nat, bytes: seq<byte>)
    requires k < |cmds|
  {
    && cmds[k].Call? && cmds[k].name in KeyedAfter(w, cmds[..k]).names
    && var b := KeyedAfter(w, cmds[..k]).names[cmds[k].name];
       && Within(Sizes(b.prog.ports, 1), Outs(b.pairs))
       && |bytes| == Total(Sizes(b.prog.ports, 1)) - Held(Sizes(b.prog.ports, 1), Outs(b.pairs))
  }

  lemma ReplyFits(w: World, cmds: seq<Command>, k: nat)
    requires k < |cmds| && KeyedStep(w, KeyedAfter(w, cmds[..k]), cmds[k]).1.Payload?
    ensures PayloadFits(w, cmds, k, KeyedStep(w, KeyedAfter(w, cmds[..k]), cmds[k]).1.bytes)
  {
    hide Sound, KeyedAfter, BindingOk, Total, Held, Sizes, Within, OutWire, StepCall;
    RunSound(w, cmds[..k]);
    OnlyCalls(w, KeyedAfter(w, cmds[..k]), cmds[k]);
    ReplyLength(w, KeyedAfter(w, cmds[..k]), cmds[k].name, cmds[k].stream, cmds[k].runs);
  }

  /** Only a CALL answers with a payload. */
  lemma OnlyCalls(w: World, c: Client, cmd: Command)
    requires KeyedStep(w, c, cmd).1.Payload?
    ensures cmd.Call? && KeyedStep(w, c, cmd) == StepCall(w, c, cmd.name, cmd.stream, cmd.runs)
  {
    hide Demand, Cached, OfDir, DeclareError, Forget, StepCall;
  }
}
