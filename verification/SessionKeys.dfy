/** The program cache of tools/ane-session.c: programs are found by a pair of 64-bit file hashes. What the
    session answers under any hash, and when that is what the stateless reference answers. */
module SessionKeys {
  import opened Basics
  import opened H14Ports
  import opened SessionSpec

  function KeyId(w: World, prog: Program): (nat, nat) { (w.hash(prog.anec), w.hash(prog.table)) }

  /** The first cached program under the key. */
  function Cached(w: World, loaded: seq<Entry>, id: (nat, nat)): Option<Program> {
    if loaded == [] then None
    else if KeyId(w, loaded[0].prog) == id then Some(loaded[0].prog)
    else Cached(w, loaded[1..], id)
  }

  /** LOAD as the code does it: a cached program under the same key is taken for the one asked for. */
  ghost function KeyedLoad(w: World, c: Client, name: string, anec: seq<byte>, table: seq<byte>, readable: bool,
                           opens: bool):
      (Client, Reply)
  {
    if name in c.names then Fail(c, AlreadyLoaded)
    else if w.parse(table).None? then Fail(c, BadPorts)
    else if |c.names| >= Limit(w) then Fail(c, MaxProgs)
    else if !readable then Fail(c, Unreadable)
    else
      var prog := Program(anec, table, w.parse(table).value);
      var hit := Cached(w, c.loaded, KeyId(w, prog));
      if hit.Some? then Bind(c, name, hit.value)
      else if |c.loaded| >= Limit(w) then Fail(c, KeyCacheFull)
      else
        var d := w.demand(anec, prog.ports);
        if d.None? then Fail(c, BuildFailed)
        else if w.cap != 0 && Demand(c.loaded) + d.value + w.used > w.cap then Fail(c, BoCap)
        else if !opens then Fail(c, OpenFailed)
        else Bind(c.(loaded := c.loaded + [Entry(prog, d.value)]), name, prog)
  }

  ghost function KeyedStep(w: World, c: Client, cmd: Command): (Client, Reply) {
    if cmd.Load? then KeyedLoad(w, c, cmd.name, cmd.anec, cmd.table, cmd.readable, cmd.opens) else Step(w, c, cmd)
  }

  ghost function KeyedAfter(w: World, cmds: seq<Command>): Client {
    if cmds == [] then NO_ONE else KeyedStep(w, KeyedAfter(w, cmds[..|cmds| - 1]), cmds[|cmds| - 1]).0
  }

  ghost function KeyedReplies(w: World, cmds: seq<Command>): seq<Reply> {
    seq(|cmds|, i requires 0 <= i < |cmds| => KeyedStep(w, KeyedAfter(w, cmds[..i]), cmds[i]).1)
  }

  /** One command, and a run of them: programs found by key as in the session, or by their files as in the
      reference. */
  ghost function StepBy(w: World, keyed: bool, c: Client, cmd: Command): (Client, Reply) {
    if keyed then KeyedStep(w, c, cmd) else Step(w, c, cmd)
  }

  ghost function AfterBy(w: World, keyed: bool, cmds: seq<Command>): Client {
    if keyed then KeyedAfter(w, cmds) else After(w, cmds)
  }

  lemma AfterLast(w: World, keyed: bool, cmds: seq<Command>, k: nat)
    requires k < |cmds|
    ensures AfterBy(w, keyed, cmds[..k + 1]) == StepBy(w, keyed, AfterBy(w, keyed, cmds[..k]), cmds[k]).0
  {
    hide Step, KeyedStep;
    assert cmds[..k + 1][..k] == cmds[..k];
  }

  lemma {:induction false} CachedMeans(w: World, loaded: seq<Entry>, id: (nat, nat))
    ensures Cached(w, loaded, id).Some? ==>
              exists i :: 0 <= i < |loaded| && loaded[i].prog == Cached(w, loaded, id).value
                && KeyId(w, loaded[i].prog) == id
    ensures Cached(w, loaded, id).None? ==> forall i :: 0 <= i < |loaded| ==> KeyId(w, loaded[i].prog) != id
  {
    if loaded != [] && KeyId(w, loaded[0].prog) != id {
      var rest := loaded[1..];
      CachedMeans(w, rest, id);
      assert forall i :: 0 <= i < |rest| ==> loaded[i + 1] == rest[i];
      assert forall i :: 1 <= i < |loaded| ==> loaded[i] == rest[i - 1];
    }
  }

  lemma {:induction false} CachedAt(w: World, loaded: seq<Entry>, id: (nat, nat), k: nat)
    requires k < |loaded| && KeyId(w, loaded[k].prog) == id && forall i :: 0 <= i < k ==> KeyId(w, loaded[i].prog) != id
    ensures Cached(w, loaded, id) == Some(loaded[k].prog)
  {
    if k > 0 {
      var rest := loaded[1..];
      assert forall i :: 0 <= i < |rest| ==> loaded[i + 1] == rest[i];
      CachedAt(w, rest, id, k - 1);
    }
  }

  // ---- files that do not collide ----

  predicate Loads(cmds: seq<Command>, i: int) { 0 <= i < |cmds| && cmds[i].Load? }

  predicate SameKey(w: World, a: Command, b: Command)
    requires a.Load? && b.Load?
  {
    w.hash(a.anec) == w.hash(b.anec) && w.hash(a.table) == w.hash(b.table)
  }

  /** No two different pairs of files LOADed in the run share a key. */
  ghost predicate NoClash(w: World, cmds: seq<Command>) {
    forall i, j :: Loads(cmds, i) && Loads(cmds, j) && SameKey(w, cmds[i], cmds[j]) ==>
      cmds[i].anec == cmds[j].anec && cmds[i].table == cmds[j].table
  }

  predicate LoadOf(w: World, cmd: Command, prog: Program) {
    cmd.Load? && prog.anec == cmd.anec && prog.table == cmd.table && w.parse(cmd.table) == Some(prog.ports)
  }

  /** Every cached program was LOADed by one of the commands. */
  ghost predicate FromLoads(w: World, cmds: seq<Command>, loaded: seq<Entry>) {
    forall k :: 0 <= k < |loaded| ==> FromLoad(w, cmds, loaded[k].prog)
  }

  ghost predicate FromLoad(w: World, cmds: seq<Command>, prog: Program) {
    exists i :: 0 <= i < |cmds| && LoadOf(w, cmds[i], prog)
  }

  lemma FromLoadsStep(w: World, cmds: seq<Command>, cmd: Command, c: Client)
    requires FromLoads(w, cmds, c.loaded)
    ensures FromLoads(w, cmds + [cmd], Step(w, c, cmd).0.loaded)
  {
    hide Step, LoadOf;
    var all, next := cmds + [cmd], Step(w, c, cmd).0;
    LoadedGrows(w, c, cmd);
    forall k | 0 <= k < |next.loaded|
      ensures FromLoad(w, all, next.loaded[k].prog)
    {
      if k < |c.loaded| {
        assert next.loaded[k] == c.loaded[k] && FromLoad(w, cmds, c.loaded[k].prog);
        var i :| 0 <= i < |cmds| && LoadOf(w, cmds[i], c.loaded[k].prog);
        assert all[i] == cmds[i];
      } else {
        var e :| next.loaded == c.loaded + [e] && LoadOf(w, cmd, e.prog);
        assert next.loaded[k] == e && all[|cmds|] == cmd;
      }
    }
  }

  lemma LoadedGrows(w: World, c: Client, cmd: Command)
    ensures var next := Step(w, c, cmd).0.loaded;
            next == c.loaded || exists e :: next == c.loaded + [e] && LoadOf(w, cmd, e.prog)
  {
    hide IsLoaded, Demand, OfDir, DeclareError, InWire, Outputs, Forget;
  }

  /** A LOAD whose files do not collide with the cached ones is answered as the reference answers it. */
  lemma LoadAlike(w: World, cmds: seq<Command>, cmd: Command, c: Client)
    requires cmd.Load? && NoClash(w, cmds + [cmd]) && FromLoads(w, cmds, c.loaded)
    ensures KeyedStep(w, c, cmd) == Step(w, c, cmd)
  {
    hide Demand, Limit, OfDir, Cached, FromLoads, NoClash;
    if w.parse(cmd.table).Some? {
      var prog := Program(cmd.anec, cmd.table, w.parse(cmd.table).value);
      HitIsLoaded(w, cmds, cmd, c.loaded, prog);
    }
  }

  lemma HitIsLoaded(w: World, cmds: seq<Command>, cmd: Command, loaded: seq<Entry>, prog: Program)
    requires LoadOf(w, cmd, prog) && NoClash(w, cmds + [cmd]) && FromLoads(w, cmds, loaded)
    ensures Cached(w, loaded, KeyId(w, prog)).Some? <==> IsLoaded(loaded, prog)
    ensures Cached(w, loaded, KeyId(w, prog)).Some? ==> Cached(w, loaded, KeyId(w, prog)).value == prog
  {
    hide Cached;
    var id, all := KeyId(w, prog), cmds + [cmd];
    CachedMeans(w, loaded, id);
    if Cached(w, loaded, id).Some? {
      var k :| 0 <= k < |loaded| && loaded[k].prog == Cached(w, loaded, id).value && KeyId(w, loaded[k].prog) == id;
      assert FromLoad(w, cmds, loaded[k].prog);
      var i :| 0 <= i < |cmds| && LoadOf(w, cmds[i], loaded[k].prog);
      assert all[i] == cmds[i] && all[|cmds|] == cmd;
      assert Loads(all, i) && Loads(all, |cmds|);
    }
  }

  lemma NoClashPrefix(w: World, cmds: seq<Command>, n: nat)
    requires NoClash(w, cmds) && n <= |cmds|
    ensures NoClash(w, cmds[..n])
  {
    forall i, j | Loads(cmds[..n], i) && Loads(cmds[..n], j) && SameKey(w, cmds[..n][i], cmds[..n][j])
      ensures cmds[i].anec == cmds[j].anec && cmds[i].table == cmds[j].table
    {
      assert Loads(cmds, i) && Loads(cmds, j);
    }
  }

  lemma {:induction false} AfterAlike(w: World, cmds: seq<Command>)
    requires NoClash(w, cmds)
    ensures KeyedAfter(w, cmds) == After(w, cmds) && FromLoads(w, cmds, After(w, cmds).loaded)
  {
    hide NoClash, Step, KeyedLoad, FromLoads;
    if cmds == [] {
      NothingLoads(w);
    } else {
      var n := |cmds| - 1;
      var before, cmd := cmds[..n], cmds[n];
      NoClashPrefix(w, cmds, n);
      AfterAlike(w, before);
      assert before + [cmd] == cmds;
      FromLoadsStep(w, before, cmd, After(w, before));
      if cmd.Load? {
        LoadAlike(w, before, cmd, After(w, before));
      }
    }
  }

  lemma NothingLoads(w: World)
    ensures FromLoads(w, [], [])
  {
  }

  /** THE CACHE IS INVISIBLE AS LONG AS NO TWO LOADED PAIRS OF FILES COLLIDE. */
  lemma KeyedIsStateless(w: World, cmds: seq<Command>)
    requires NoClash(w, cmds)
    ensures KeyedReplies(w, cmds) == Replies(w, cmds)
  {
    hide NoClash, Step, KeyedLoad, FromLoads, After, KeyedAfter;
    forall i | 0 <= i < |cmds|
      ensures KeyedStep(w, KeyedAfter(w, cmds[..i]), cmds[i]) == Step(w, After(w, cmds[..i]), cmds[i])
    {
      NoClashPrefix(w, cmds, i);
      AfterAlike(w, cmds[..i]);
      if cmds[i].Load? {
        NoClashPrefix(w, cmds, i + 1);
        assert cmds[..i + 1] == cmds[..i] + [cmds[i]];
        LoadAlike(w, cmds[..i], cmds[i], After(w, cmds[..i]));
      }
    }
  }

  // ---- files that do ----

  /** What a name just bound to a program answers. */
  ghost function Answer(w: World, prog: Program, stream: seq<byte>): seq<byte>
    requires InWire(Binding(prog, [])) <= |stream|
  {
    var outs := Outputs(w, prog, AllInputs(Binding(prog, []), stream));
    Joined(outs, [], |outs|)
  }

  /** Both can be loaded, one after the other. */
  ghost predicate Loadable(w: World, p: Program, q: Program) {
    && w.parse(p.table) == Some(p.ports) && w.demand(p.anec, p.ports).Some?
    && w.parse(q.table) == Some(q.ports) && w.demand(q.anec, q.ports).Some? && Limit(w) >= 2
    && (w.cap == 0 || w.demand(p.anec, p.ports).value + w.demand(q.anec, q.ports).value + w.used <= w.cap)
  }

  function Clashing(p: Program, q: Program, stream: seq<byte>): seq<Command> {
    [Load("p", p.anec, p.table, true, true), Load("q", q.anec, q.table, true, true), Call("q", stream, true)]
  }

  lemma ThreeSteps(w: World, p: Program, q: Program, stream: seq<byte>)
    ensures var cmds := Clashing(p, q, stream);
            && After(w, cmds[..2]) == Step(w, Step(w, NO_ONE, cmds[0]).0, cmds[1]).0
            && KeyedAfter(w, cmds[..2]) == KeyedStep(w, KeyedStep(w, NO_ONE, cmds[0]).0, cmds[1]).0
  {
    hide Step, KeyedStep;
    var cmds := Clashing(p, q, stream);
    assert cmds[..2][..1] == cmds[..1] && cmds[..2][1] == cmds[1] && cmds[..1][0] == cmds[0] && cmds[..1][..0] == [];
    assert After(w, cmds[..1]) == Step(w, NO_ONE, cmds[0]).0;
    assert KeyedAfter(w, cmds[..1]) == KeyedStep(w, NO_ONE, cmds[0]).0;
  }

  /** After both LOADs, name q stands for q in the reference and for p in the session. */
  lemma BothBound(w: World, p: Program, q: Program, stream: seq<byte>)
    requires p != q && KeyId(w, p) == KeyId(w, q) && Loadable(w, p, q)
    ensures var cmds := Clashing(p, q, stream);
            var plain, keyed := After(w, cmds[..2]), KeyedAfter(w, cmds[..2]);
            && "q" in plain.names && plain.names["q"] == Binding(q, []) && !plain.failed
            && "q" in keyed.names && keyed.names["q"] == Binding(p, []) && !keyed.failed
  {
    hide OfDir, After, KeyedAfter;
    ThreeSteps(w, p, q, stream);
    var cmds := Clashing(p, q, stream);
    var d := w.demand(p.anec, p.ports).value;
    var one := Client(map["p" := Binding(p, [])], [Entry(p, d)], false);
    assert Step(w, NO_ONE, cmds[0]).0 == one == KeyedStep(w, NO_ONE, cmds[0]).0;
    assert !IsLoaded(one.loaded, q);
    assert Cached(w, one.loaded, KeyId(w, q)) == Some(p);
    assert Demand([Entry(p, d)]) == d;
  }

  lemma CallAnswers(w: World, c: Client, name: string, prog: Program, stream: seq<byte>)
    requires name in c.names && c.names[name] == Binding(prog, []) && !c.failed && InWire(Binding(prog, [])) <= |stream|
    ensures Step(w, c, Call(name, stream, true)).1 == KeyedStep(w, c, Call(name, stream, true)).1 ==
            Payload(Answer(w, prog, stream))
  {
    hide InWire, Outputs, AllInputs, Joined, KeepAll;
    assert Outs([]) == [];
  }

  /** A COLLISION SHOWS. Whenever two loadable programs share a key and the device answers differently for
      them, there is a run the session answers differently from the reference. */
  lemma CollisionShows(w: World, p: Program, q: Program, stream: seq<byte>)
    requires KeyId(w, p) == KeyId(w, q) && Loadable(w, p, q)
    requires InWire(Binding(p, [])) <= |stream| && InWire(Binding(q, [])) <= |stream|
             && Answer(w, p, stream) != Answer(w, q, stream)
    ensures !NoClash(w, Clashing(p, q, stream))
    ensures KeyedReplies(w, Clashing(p, q, stream)) != Replies(w, Clashing(p, q, stream))
  {
    hide After, KeyedAfter, InWire, Answer, NoClash, Step, KeyedStep;
    var cmds := Clashing(p, q, stream);
    BothBound(w, p, q, stream);
    CallAnswers(w, KeyedAfter(w, cmds[..2]), "q", p, stream);
    CallAnswers(w, After(w, cmds[..2]), "q", q, stream);
    assert KeyedReplies(w, cmds)[2] == Payload(Answer(w, p, stream));
    assert Replies(w, cmds)[2] == Payload(Answer(w, q, stream));
    if NoClash(w, cmds) {
      KeyedIsStateless(w, cmds);
    }
  }
}
