/** The stateless reference of tools/ane-session.c: a server that is sent every input of a program and
    returns every output, and a client that keeps each resident state pair itself. */
module SessionSpec {
  import opened Basics
  import opened H14Ports

  type Tile = seq<byte>

  /** A program: the bytes of its package and of its port file, and the ports that file lists. */
  datatype Program = Program(anec: seq<byte>, table: seq<byte>, ports: seq<Port>)

  /** What the session cannot decide itself: port file parsing, the buffer demand of a package, the
      cache hash, what the device computes (byte j of output k, from all inputs), and its limits. */
  datatype World = World(
    parse: seq<byte> -> Option<seq<Port>>,
    demand: (seq<byte>, seq<Port>) -> Option<nat>,
    hash: seq<byte> -> nat,
    run: (Program, seq<Tile>, nat, nat) -> byte,
    progs: nat, cap: nat, used: nat)

  const MAX_PROGS: nat := 250
  const MAX_RUNS: nat := 0x40_0000

  function Limit(w: World): nat { if w.progs > MAX_PROGS then MAX_PROGS else w.progs }

  datatype Command =
    | Load(name: string, anec: seq<byte>, table: seq<byte>, readable: bool, opens: bool)
    | Free(name: string)
    | Declare(name: string, inIdx: nat, outIdx: nat, run: nat, offs: seq<nat>, fieldsOk: bool)
    | Reset(target: Option<string>)
    | Call(name: string, stream: seq<byte>, runs: bool)

  datatype Refusal =
    | AlreadyLoaded | BadPorts | MaxProgs | Unreadable | KeyCacheFull | BuildFailed | BoCap | OpenFailed | NotLoaded
    | BadRunCount | BadField | SessionFailed | NoSuchPort | TileBytesDiffer | AlreadyResident | BadRunBytes
    | RunOutOfTile
    | ShortInput | ExecFailed

  datatype Reply = Loaded(ins: nat, outs: nat) | Done | Payload(bytes: seq<byte>) | Refused(why: Refusal)

  // ---- tiles on the wire ----

  function Sizes(ports: seq<Port>, dir: nat): seq<nat> {
    seq<nat>(|OfDir(ports, dir)|, i requires 0 <= i < |OfDir(ports, dir)| => OfDir(ports, dir)[i].tileBytes)
  }

  /** The wire bytes of the first n tiles, those held back not being on the wire. */
  function Wire(sizes: seq<nat>, held: seq<nat>, n: nat): nat
    requires n <= |sizes|
  {
    if n == 0 then 0 else Wire(sizes, held, n - 1) + if n - 1 in held then 0 else sizes[n - 1]
  }

  /** Byte j lies in one of the runs. */
  predicate InRun(offs: seq<nat>, run: nat, j: nat) {
    exists r :: 0 <= r < |offs| && offs[r] <= j < offs[r] + run
  }

  /** Zeros, plus the logical runs of a tile. */
  function Pack(run: nat, offs: seq<nat>, tile: Tile): Tile {
    seq<byte>(|tile|, j requires 0 <= j < |tile| => if InRun(offs, run, j) then tile[j] else 0)
  }

  function Blank(n: nat): Tile { seq<byte>(n, _ => 0) }

  // ---- the client's view ----

  /** A state pair: output outIdx of one call becomes input inIdx of the next. `last` is the whole
      output tile of the last call since the pair was declared or reset. */
  datatype Pair = Pair(inIdx: nat, outIdx: nat, tile: nat, run: nat, offs: seq<nat>, last: Option<Tile>)

  function Carried(p: Pair): Tile {
    if p.last.None? then Blank(p.tile) else Pack(p.run, p.offs, p.last.value)
  }

  function Ins(pairs: seq<Pair>): seq<nat> { seq<nat>(|pairs|, i requires 0 <= i < |pairs| => pairs[i].inIdx) }

  function Outs(pairs: seq<Pair>): seq<nat> { seq<nat>(|pairs|, i requires 0 <= i < |pairs| => pairs[i].outIdx) }

  datatype Binding = Binding(prog: Program, pairs: seq<Pair>)
  datatype Entry = Entry(prog: Program, demand: nat)
  datatype Client = Client(names: map<string, Binding>, loaded: seq<Entry>, failed: bool)

  /** The first position of a number in a list. */
  function FirstOf(held: seq<nat>, idx: nat): (at: Option<nat>)
    ensures at.Some? ==> at.value < |held| && held[at.value] == idx
    ensures at.None? <==> idx !in held
  {
    if held == [] then None
    else if held[0] == idx then Some(0)
    else
      var rest := FirstOf(held[1..], idx);
      if rest.None? then None else Some(rest.value + 1)
  }

  function PairAt(pairs: seq<Pair>, idx: nat): Pair
    requires idx in Ins(pairs)
  {
    pairs[FirstOf(Ins(pairs), idx).value]
  }

  /** All inputs: the wire bytes in order, and for a held input what the client carries for it. */
  ghost function Inputs(b: Binding, wire: seq<byte>, n: nat): seq<Tile>
    requires n <= |Sizes(b.prog.ports, 0)| && |wire| == Wire(Sizes(b.prog.ports, 0), Ins(b.pairs), n)
    decreases n
  {
    if n == 0 then []
    else
      var off := Wire(Sizes(b.prog.ports, 0), Ins(b.pairs), n - 1);
      Inputs(b, wire[..off], n - 1) + [if n - 1 in Ins(b.pairs) then Carried(PairAt(b.pairs, n - 1)) else wire[off..]]
  }

  /** All outputs. */
  ghost function Outputs(w: World, prog: Program, ins: seq<Tile>): seq<Tile> {
    var sizes := Sizes(prog.ports, 1);
    seq<Tile>(|sizes|, k requires 0 <= k < |sizes| => Output(w, prog, ins, k, sizes[k]))
  }

  function Output(w: World, prog: Program, ins: seq<Tile>, k: nat, size: nat): Tile {
    seq<byte>(size, j requires 0 <= j < size => w.run(prog, ins, k, j))
  }

  /** The outputs that are not held, joined. */
  ghost function Joined(outs: seq<Tile>, held: seq<nat>, n: nat): seq<byte>
    requires n <= |outs|
  {
    if n == 0 then [] else Joined(outs, held, n - 1) + if n - 1 in held then [] else outs[n - 1]
  }

  ghost function Keep(p: Pair, outs: seq<Tile>): Pair {
    if p.outIdx < |outs| then p.(last := Some(outs[p.outIdx])) else p
  }

  ghost function KeepAll(pairs: seq<Pair>, outs: seq<Tile>): seq<Pair> {
    seq(|pairs|, i requires 0 <= i < |pairs| => Keep(pairs[i], outs))
  }

  ghost function Forget(pairs: seq<Pair>): seq<Pair> {
    seq(|pairs|, i requires 0 <= i < |pairs| => pairs[i].(last := None))
  }

  // ---- one command ----

  ghost function Fail(c: Client, why: Refusal): (Client, Reply) { (c.(failed := true), Refused(why)) }

  function Demand(loaded: seq<Entry>): nat {
    if loaded == [] then 0 else Demand(loaded[..|loaded| - 1]) + loaded[|loaded| - 1].demand
  }

  ghost predicate IsLoaded(loaded: seq<Entry>, prog: Program) {
    exists i :: 0 <= i < |loaded| && loaded[i].prog == prog
  }

  ghost function Bind(c: Client, name: string, prog: Program): (Client, Reply) {
    (c.(names := c.names[name := Binding(prog, [])]), Loaded(|OfDir(prog.ports, 0)|, |OfDir(prog.ports, 1)|))
  }

  ghost function StepLoad(w: World, c: Client, name: string, anec: seq<byte>, table: seq<byte>, readable: bool,
                          opens: bool): (Client, Reply) {
    if name in c.names then Fail(c, AlreadyLoaded)
    else if w.parse(table).None? then Fail(c, BadPorts)
    else if |c.names| >= Limit(w) then Fail(c, MaxProgs)
    else if !readable then Fail(c, Unreadable)
    else
      var prog := Program(anec, table, w.parse(table).value);
      if IsLoaded(c.loaded, prog) then Bind(c, name, prog)
      else if |c.loaded| >= Limit(w) then Fail(c, KeyCacheFull)
      else
        var d := w.demand(anec, prog.ports);
        if d.None? then Fail(c, BuildFailed)
        else if w.cap != 0 && Demand(c.loaded) + d.value + w.used > w.cap then Fail(c, BoCap)
        else if !opens then Fail(c, OpenFailed)
        else Bind(c.(loaded := c.loaded + [Entry(prog, d.value)]), name, prog)
  }

  ghost function StepFree(c: Client, name: string): (Client, Reply) {
    if name !in c.names then Fail(c, NotLoaded) else (c.(names := c.names - {name}), Done)
  }

  predicate RunsFit(offs: seq<nat>, run: nat, tile: nat) {
    forall i :: 0 <= i < |offs| ==> offs[i] <= tile && run <= tile - offs[i]
  }

  ghost function DeclareError(c: Client, name: string, inIdx: nat, outIdx: nat, run: nat, offs: seq<nat>,
                              fieldsOk: bool): Option<Refusal> {
    if offs == [] || |offs| > MAX_RUNS then Some(BadRunCount)
    else if !fieldsOk || inIdx > 0xffff_ffff || outIdx > 0xffff_ffff then Some(BadField)
    else if c.failed then Some(SessionFailed)
    else if name !in c.names then Some(NotLoaded)
    else
      var b := c.names[name];
      var ins, outs := OfDir(b.prog.ports, 0), OfDir(b.prog.ports, 1);
      if inIdx >= |ins| || outIdx >= |outs| then Some(NoSuchPort)
      else if ins[inIdx].tileBytes != outs[outIdx].tileBytes then Some(TileBytesDiffer)
      else if inIdx in Ins(b.pairs) || outIdx in Outs(b.pairs) then Some(AlreadyResident)
      else if run == 0 || run > ins[inIdx].tileBytes then Some(BadRunBytes)
      else if !RunsFit(offs, run, ins[inIdx].tileBytes) then Some(RunOutOfTile)
      else None
  }

  ghost function StepDeclare(c: Client, name: string, inIdx: nat, outIdx: nat, run: nat, offs: seq<nat>,
                             fieldsOk: bool): (Client, Reply) {
    var why := DeclareError(c, name, inIdx, outIdx, run, offs, fieldsOk);
    if why.Some? then Fail(c, why.value)
    else
      var b := c.names[name];
      var p := Pair(inIdx, outIdx, OfDir(b.prog.ports, 0)[inIdx].tileBytes, run, offs, None);
      (c.(names := c.names[name := b.(pairs := b.pairs + [p])]), Done)
  }

  ghost function StepReset(c: Client, target: Option<string>): (Client, Reply) {
    if target.None? then (c.(names := map n | n in c.names :: c.names[n].(pairs := Forget(c.names[n].pairs))), Done)
    else if target.value !in c.names then Fail(c, NotLoaded)
    else
      var b := c.names[target.value];
      (c.(names := c.names[target.value := b.(pairs := Forget(b.pairs))]), Done)
  }

  ghost function InWire(b: Binding): nat {
    Wire(Sizes(b.prog.ports, 0), Ins(b.pairs), |Sizes(b.prog.ports, 0)|)
  }

  /** The bytes a CALL writes back. */
  ghost function OutWire(b: Binding): nat {
    Wire(Sizes(b.prog.ports, 1), Outs(b.pairs), |Sizes(b.prog.ports, 1)|)
  }

  ghost function AllInputs(b: Binding, stream: seq<byte>): seq<Tile>
    requires InWire(b) <= |stream|
  {
    Inputs(b, stream[..InWire(b)], |Sizes(b.prog.ports, 0)|)
  }

  /** The client sends every input, the server runs the program on them, and the client keeps the
      outputs of its pairs. */
  ghost function StepCall(w: World, c: Client, name: string, stream: seq<byte>, runs: bool): (Client, Reply) {
    if name !in c.names then Fail(c, NotLoaded)
    else if c.failed then (c, Refused(SessionFailed))
    else
      var b := c.names[name];
      if |stream| < InWire(b) then Fail(c, ShortInput)
      else if !runs then Fail(c, ExecFailed)
      else
        var outs := Outputs(w, b.prog, AllInputs(b, stream));
        (c.(names := c.names[name := b.(pairs := KeepAll(b.pairs, outs))]),
          Payload(Joined(outs, Outs(b.pairs), |outs|)))
  }

  ghost function Step(w: World, c: Client, cmd: Command): (Client, Reply) {
    match cmd
    case Load(name, anec, table, readable, opens) => StepLoad(w, c, name, anec, table, readable, opens)
    case Free(name) => StepFree(c, name)
    case Declare(name, inIdx, outIdx, run, offs, fieldsOk) => StepDeclare(c, name, inIdx, outIdx, run, offs, fieldsOk)
    case Reset(target) => StepReset(c, target)
    case Call(name, stream, runs) => StepCall(w, c, name, stream, runs)
  }

  const NO_ONE := Client(map[], [], false)

  ghost function After(w: World, cmds: seq<Command>): Client {
    if cmds == [] then NO_ONE else Step(w, After(w, cmds[..|cmds| - 1]), cmds[|cmds| - 1]).0
  }

  /** The replies of a whole run. */
  ghost function Replies(w: World, cmds: seq<Command>): seq<Reply> {
    seq(|cmds|, i requires 0 <= i < |cmds| => Step(w, After(w, cmds[..i]), cmds[i]).1)
  }
}
