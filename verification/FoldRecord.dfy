/** tools/qwen_fold_layout.py: the manifest entry and the lane labels of one compiled program. */
module FoldRecord {
  import opened Basics
  import opened MilGraph
  import opened FusionCheck
  import opened FusionTheorems
  import opened FoldLayout
  import opened FoldRun
  import opened FoldSimulation

  datatype Tensor = Tensor(name: string, shape: seq<nat>)

  /** A PORTMAP line and the MIL signature. `x` and `h` name the tensor of each input and output lane,
      `ctx` that of each context table. */
  datatype Record = Record(
    args: seq<Tensor>, outs: seq<Tensor>, x: seq<(string, string)>, ctx: seq<(string, string)>, states: set<string>,
    h: seq<(string, string)>, groupStart: bool, groupEnd: bool)

  const CTX: set<string> := {"oh", "inv", "mask", "cosp", "sinp"}

  /** {name: lane for lane, name in pairs}: a later lane of the same tensor overwrites. */
  function Inverse(pairs: seq<(string, string)>): map<string, string> {
    if pairs == [] then map[]
    else
      var n := |pairs| - 1;
      Inverse(pairs[..n])[pairs[n].1 := pairs[n].0]
  }

  lemma {:induction false} InverseMeans(pairs: seq<(string, string)>, name: string)
    requires name in Inverse(pairs)
    ensures (Inverse(pairs)[name], name) in pairs
  {
    var n := |pairs| - 1;
    assert pairs == pairs[..n] + [pairs[n]];
    if pairs[n].1 != name {
      InverseMeans(pairs[..n], name);
    }
  }

  function LaneOf(r: Record): map<string, string> { Inverse(r.x) + Inverse(r.ctx) }

  // ---- states ----

  /** The tensors of a list that pass for states, in order. */
  function StateTensors(ts: seq<Tensor>, isState: string -> bool): (r: seq<Tensor>)
    ensures forall t :: t in r <==> t in ts && isState(t.name)
  {
    if ts == [] then []
    else
      var n := |ts| - 1;
      assert ts == ts[..n] + [ts[n]];
      if isState(ts[n].name) then StateTensors(ts[..n], isState) + [ts[n]] else StateTensors(ts[..n], isState)
  }

  /** How many of the first n have the shape. */
  function OfShape(ts: seq<Tensor>, n: nat, shape: seq<nat>): nat
    requires n <= |ts|
  {
    if n == 0 then 0 else OfShape(ts, n - 1, shape) + if ts[n - 1].shape == shape then 1 else 0
  }

  lemma {:induction false} OfShapeGrows(ts: seq<Tensor>, m: nat, n: nat, shape: seq<nat>)
    requires m <= n <= |ts|
    ensures OfShape(ts, m, shape) <= OfShape(ts, n, shape)
  {
    if m < n {
      OfShapeGrows(ts, m, n - 1, shape);
    }
  }

  /** Output i is taken: fewer outputs of its shape come before it than inputs of that shape were
      matched. */
  predicate Taken(ins: seq<Tensor>, m: nat, outs: seq<Tensor>, i: nat)
    requires m <= |ins| && i < |outs|
  {
    OfShape(outs, i, outs[i].shape) < OfShape(ins, m, outs[i].shape)
  }

  /** The first output of the shape of input m that is not taken. */
  method FirstFree(ins: seq<Tensor>, m: nat, outs: seq<Tensor>, taken: set<nat>) returns (at: Option<nat>)
    requires m < |ins| && forall i: nat :: i < |outs| ==> (i in taken <==> Taken(ins, m, outs, i))
    ensures at.Some? ==> at.value < |outs| && outs[at.value].shape == ins[m].shape
                         && OfShape(outs, at.value, ins[m].shape) == OfShape(ins, m, ins[m].shape)
    ensures at.None? ==> OfShape(outs, |outs|, ins[m].shape) <= OfShape(ins, m, ins[m].shape)
  {
    var shape := ins[m].shape;
    for i := 0 to |outs|
      invariant OfShape(outs, i, shape) <= OfShape(ins, m, shape)
    {
      if outs[i].shape == shape && i !in taken {
        return Some(i);
      }
    }
    return None;
  }

  /** The j-th state input and the output it is matched with have the same shape and the same rank. */
  ghost predicate Matched(ins: seq<Tensor>, outs: seq<Tensor>, j: nat, i: nat) {
    j < |ins| && i < |outs| && ins[j].shape == outs[i].shape
      && OfShape(outs, i, outs[i].shape) == OfShape(ins, j, ins[j].shape)
  }

  ghost predicate HasMatch(ins: seq<Tensor>, outs: seq<Tensor>, j: nat) {
    exists i: nat :: Matched(ins, outs, j, i)
  }

  lemma TakeOne(ins: seq<Tensor>, m: nat, outs: seq<Tensor>, taken: set<nat>, at: nat)
    requires m < |ins| && Matched(ins, outs, m, at)
             && forall i: nat :: i < |outs| ==> (i in taken <==> Taken(ins, m, outs, i))
    ensures at !in taken
    ensures forall i: nat :: i < |outs| ==> (i in taken + {at} <==> Taken(ins, m + 1, outs, i))
  {
    forall i: nat | i < |outs|
      ensures i in taken + {at} <==> Taken(ins, m + 1, outs, i)
    {
      if outs[i].shape == ins[m].shape && i != at {
        OneRank(outs, i, at);
      }
    }
  }

  /** Two tensors of one shape have different ranks. */
  lemma OneRank(ts: seq<Tensor>, i: nat, j: nat)
    requires i < |ts| && j < |ts| && i != j && ts[i].shape == ts[j].shape
    ensures OfShape(ts, i, ts[i].shape) != OfShape(ts, j, ts[j].shape)
  {
    if i < j {
      OfShapeGrows(ts, i + 1, j, ts[i].shape);
    } else {
      OfShapeGrows(ts, j + 1, i, ts[i].shape);
    }
  }

  ghost predicate SameCounts(ins: seq<Tensor>, outs: seq<Tensor>) {
    forall shape: seq<nat> :: OfShape(ins, |ins|, shape) == OfShape(outs, |outs|, shape)
  }

  lemma AllTaken(ins: seq<Tensor>, outs: seq<Tensor>, taken: set<nat>)
    requires forall i: nat :: i < |outs| ==> (i in taken <==> Taken(ins, |ins|, outs, i))
    requires forall i :: i in taken ==> i < |outs|
    requires forall j: nat :: j < |ins| ==> HasMatch(ins, outs, j)
    ensures (forall i: nat :: i < |outs| ==> i in taken) <==> SameCounts(ins, outs)
  {
    if forall i: nat :: i < |outs| ==> i in taken {
      forall shape: seq<nat>
        ensures OfShape(ins, |ins|, shape) == OfShape(outs, |outs|, shape)
      {
        NoMoreOuts(ins, outs, shape);
        NoMoreIns(ins, outs, shape);
      }
    }
    if SameCounts(ins, outs) {
      forall i: nat | i < |outs|
        ensures Taken(ins, |ins|, outs, i)
      {
        OfShapeGrows(outs, i + 1, |outs|, outs[i].shape);
        assert OfShape(ins, |ins|, outs[i].shape) == OfShape(outs, |outs|, outs[i].shape);
      }
    }
  }

  lemma NoMoreOuts(ins: seq<Tensor>, outs: seq<Tensor>, shape: seq<nat>)
    requires forall i: nat :: i < |outs| ==> Taken(ins, |ins|, outs, i)
    ensures OfShape(outs, |outs|, shape) <= OfShape(ins, |ins|, shape)
  {
    if OfShape(outs, |outs|, shape) > 0 {
      var i := LastOf(outs, |outs|, shape);
      assert Taken(ins, |ins|, outs, i);
    }
  }

  lemma NoMoreIns(ins: seq<Tensor>, outs: seq<Tensor>, shape: seq<nat>)
    requires forall j: nat :: j < |ins| ==> HasMatch(ins, outs, j)
    ensures OfShape(ins, |ins|, shape) <= OfShape(outs, |outs|, shape)
  {
    if OfShape(ins, |ins|, shape) > 0 {
      var j := LastOf(ins, |ins|, shape);
      assert HasMatch(ins, outs, j);
      var i: nat :| Matched(ins, outs, j, i);
      OfShapeGrows(outs, i + 1, |outs|, shape);
    }
  }

  lemma {:induction false} LastOf(ts: seq<Tensor>, n: nat, shape: seq<nat>) returns (i: nat)
    requires n <= |ts| && OfShape(ts, n, shape) > 0
    ensures i < n && ts[i].shape == shape && OfShape(ts, i, shape) + 1 == OfShape(ts, n, shape)
  {
    if ts[n - 1].shape == shape {
      i := n - 1;
    } else {
      i := LastOf(ts, n - 1, shape);
    }
  }

  ghost predicate PairIs(ins: seq<Tensor>, outs: seq<Tensor>, j: nat, p: StatePair) {
    exists i: nat :: Matched(ins, outs, j, i) && p == StatePair(ins[j].name, ins[j].shape, outs[i].name, outs[i].shape)
  }

  /** STATE PAIRS. Every state input is paired with the output of its shape and rank; it works out
      exactly when inputs and outputs have the same number of tensors of every shape. */
  method MatchStates(ins: seq<Tensor>, outs: seq<Tensor>) returns (r: Option<seq<StatePair>>)
    ensures r.Some? <==> SameCounts(ins, outs)
    ensures r.Some? ==> |r.value| == |ins| && forall j: nat :: j < |ins| ==> PairIs(ins, outs, j, r.value[j])
  {
    hide SameCounts;
    var pairs: seq<StatePair> := [];
    var taken: set<nat> := {};
    for m := 0 to |ins|
      invariant |pairs| == m && (forall i :: i in taken ==> i < |outs|)
      invariant forall i: nat :: i < |outs| ==> (i in taken <==> Taken(ins, m, outs, i))
      invariant forall j: nat :: j < m ==> PairIs(ins, outs, j, pairs[j])
    {
      var at := FirstFree(ins, m, outs, taken);
      if at.None? {
        TooFew(ins, m, outs);
        return None;
      }
      TakeOne(ins, m, outs, taken, at.value);
      taken := taken + {at.value};
      pairs := pairs + [StatePair(ins[m].name, ins[m].shape, outs[at.value].name, outs[at.value].shape)];
      assert PairIs(ins, outs, m, pairs[m]);
    }
    forall j: nat | j < |ins|
      ensures HasMatch(ins, outs, j)
    {
      assert PairIs(ins, outs, j, pairs[j]);
    }
    AllTaken(ins, outs, taken);
    var all := forall i: nat :: i < |outs| ==> i in taken;
    r := if all then Some(pairs) else None;
  }

  lemma TooFew(ins: seq<Tensor>, m: nat, outs: seq<Tensor>)
    requires m < |ins| && OfShape(outs, |outs|, ins[m].shape) <= OfShape(ins, m, ins[m].shape)
    ensures !SameCounts(ins, outs)
  {
    OfShapeGrows(ins, m + 1, |ins|, ins[m].shape);
    assert OfShape(ins, |ins|, ins[m].shape) != OfShape(outs, |outs|, ins[m].shape);
  }

  // ---- labels ----

  /** How a state label spells a shape and a number. */
  type Spelling = (seq<nat>, nat) -> string

  function StateLabel(spell: Spelling, shape: seq<nat>, k: nat): string { "st:" + spell(shape, k) }

  /** Label the states of a list on top of `start`: the k-th tensor of a shape gets number k. */
  ghost function WithStates(spell: Spelling, ts: seq<Tensor>, n: nat, start: map<string, string>): map<string, string>
    requires n <= |ts|
  {
    if n == 0 then start
    else WithStates(spell, ts, n - 1,
      start)[ts[n - 1].name := StateLabel(spell, ts[n - 1].shape, OfShape(ts, n - 1, ts[n - 1].shape) + 1)]
  }

  ghost predicate DistinctNames(ts: seq<Tensor>) {
    forall i, j :: 0 <= i < j < |ts| ==> ts[i].name != ts[j].name
  }

  lemma {:induction false} StateLabelled(spell: Spelling, ts: seq<Tensor>, n: nat, start: map<string, string>, i: nat)
    requires i < n <= |ts| && DistinctNames(ts)
    ensures ts[i].name in WithStates(spell, ts, n, start)
    ensures WithStates(spell, ts, n, start)[ts[i].name] ==
            StateLabel(spell, ts[i].shape, OfShape(ts, i, ts[i].shape) + 1)
  {
    if i < n - 1 {
      StateLabelled(spell, ts, n - 1, start, i);
    }
  }

  /** PAIRED BY LABEL. A state input and the output it is paired with carry one label, so labelling
      states by shape and position pairs them as the manifest does. */
  lemma PairedByLabel(spell: Spelling, ins: seq<Tensor>, outs: seq<Tensor>, inStart: map<string, string>,
                      outStart: map<string, string>,
                      j: nat, p: StatePair)
    requires j < |ins| && PairIs(ins, outs, j, p) && DistinctNames(ins) && DistinctNames(outs)
    ensures var inl, outl := WithStates(spell, ins, |ins|, inStart), WithStates(spell, outs, |outs|, outStart);
            p.inPort in inl && p.outPort in outl && inl[p.inPort] == outl[p.outPort]
  {
    hide OfShape;
    var i: nat :| Matched(ins, outs, j, i) && p == StatePair(ins[j].name, ins[j].shape, outs[i].name, outs[i].shape);
    StateLabelled(spell, ins, |ins|, inStart, j);
    StateLabelled(spell, outs, |outs|, outStart, i);
  }

  // ---- the entry ----

  predicate Sorted(r: Record, t: Tensor) { t.name in r.states || t.name in LaneOf(r) }

  function Decimal(n: nat): string {
    (if n < 10 then [] else Decimal(n / 10)) + [['0', '1', '2', '3', '4', '5', '6', '7', '8', '9'][n % 10]]
  }

  /** How many state inputs come before input i. */
  function StatesBefore(r: Record, i: nat): nat
    requires i <= |r.args|
  {
    if i == 0 then 0 else StatesBefore(r, i - 1) + if r.args[i - 1].name in r.states then 1 else 0
  }

  /** The row of input i. */
  function SrcOf(r: Record, i: nat): Src
    requires i < |r.args| && Sorted(r, r.args[i])
  {
    var t := r.args[i];
    if t.name in r.states then Src(t.name, StateIn, "state" + Decimal(StatesBefore(r, i)), t.shape)
    else Src(t.name, if LaneOf(r)[t.name] in CTX then Ctx else Lane, LaneOf(r)[t.name], t.shape)
  }

  /** The output rows of a list of tensors. */
  function DstsOf(r: Record, ts: seq<Tensor>): (ds: seq<Dst>)
    ensures forall t :: t in ts && t.name in Inverse(r.h) ==> Dst(t.name, Inverse(r.h)[t.name], t.shape) in ds
  {
    if ts == [] then []
    else
      var n := |ts| - 1;
      assert ts == ts[..n] + [ts[n]];
      var before := DstsOf(r, ts[..n]);
      if ts[n].name in Inverse(r.h) then before + [Dst(ts[n].name, Inverse(r.h)[ts[n].name], ts[n].shape)] else before
  }

  function InStates(r: Record): seq<Tensor> { StateTensors(r.args, name => name in r.states) }

  function OutStates(r: Record): seq<Tensor> { StateTensors(r.outs, name => name !in Inverse(r.h)) }

  ghost predicate EntryIs(r: Record, e: Entry) {
    && |e.srcs| == |r.args| && (forall i :: 0 <= i < |r.args| ==>
           Sorted(r, r.args[i])
           && e.srcs[i] == SrcOf(r, i))
    && e.dsts == DstsOf(r, r.outs) && |e.states| == |InStates(r)|
    && (forall j: nat :: j < |e.states| ==> PairIs(InStates(r), OutStates(r), j, e.states[j]))
    && e.groupStart == r.groupStart && e.groupEnd == r.groupEnd
  }

  /** entry_from_record: refused exactly when an input is in no lane or the states do not pair up. */
  method EntryFromRecord(r: Record) returns (e: Option<Entry>)
    ensures e.Some? <==>
              (forall i :: 0 <= i < |r.args| ==> Sorted(r, r.args[i]))
              && SameCounts(InStates(r), OutStates(r))
    ensures e.Some? ==> EntryIs(r, e.value)
  {
    hide SameCounts, PairIs, Sorted;
    var srcs: seq<Src>, count := [], 0;
    for i := 0 to |r.args|
      invariant count == StatesBefore(r, i)
      invariant |srcs| == i && forall k :: 0 <= k < i ==> Sorted(r, r.args[k]) && srcs[k] == SrcOf(r, k)
    {
      if !Sorted(r, r.args[i]) {
        return None;
      }
      if r.args[i].name in r.states {
        srcs := srcs + [Src(r.args[i].name, StateIn, "state" + Decimal(count), r.args[i].shape)];
        count := count + 1;
      } else {
        srcs := srcs + [SrcOf(r, i)];
      }
    }
    var states := MatchStates(InStates(r), OutStates(r));
    if states.None? {
      return None;
    }
    e := Some(Entry(srcs, DstsOf(r, r.outs), states.value, r.groupStart, r.groupEnd));
  }

  // ---- the unit ----

  ghost function InLabels(r: Record, spell: Spelling): map<string, string> {
    WithStates(spell, InStates(r), |InStates(r)|, LaneOf(r))
  }

  ghost function OutLabels(r: Record, spell: Spelling): map<string, string> {
    WithStates(spell, OutStates(r), |OutStates(r)|, Inverse(r.h))
  }

  function Names(ts: seq<Tensor>): seq<string> {
    seq(|ts|, i requires 0 <= i < |ts| => ts[i].name)
  }

  ghost predicate DistinctLanes(pairs: seq<(string, string)>) {
    forall i, j :: 0 <= i < j < |pairs| ==> pairs[i].0 != pairs[j].0
  }

  /** What the record and the MIL of one program have in common: the record names every lane once, its
      context tables are context tables, its outputs are outputs, and the MIL computes them. */
  ghost predicate RecordOf(r: Record, g: Graph<string>, spell: Spelling) {
    && DistinctLanes(r.x) && DistinctLanes(r.h) && (forall i :: 0 <= i < |r.ctx| ==> r.ctx[i].0 in CTX)
    && (forall i :: 0 <= i < |r.h| ==> r.h[i].1 in Names(r.outs))
    && DistinctNames(r.args) && DistinctNames(r.outs)
    && WellFormed(g) && g.lanes == InLabels(r, spell) && (forall a :: a in g.args <==> a in Names(r.args))
    && (forall i :: 0 <= i < |r.outs| ==> Known(g, r.outs[i].name))
  }

  /** The program with its lane labels. */
  ghost function Labelling(r: Record, g: Graph<string>, spell: Spelling): Program {
    Program(g, Names(r.outs), OutLabels(r, spell))
  }

  lemma {:induction false} WithStatesMeans(spell: Spelling, ts: seq<Tensor>, n: nat, start: map<string, string>,
                                           name: string)
    requires n <= |ts|
    ensures name in WithStates(spell, ts, n, start) <==> name in start || exists i :: 0 <= i < n && ts[i].name == name
    ensures name in WithStates(spell, ts, n, start) ==>
              IsState(WithStates(spell, ts, n, start)[name])
                || (name in start && WithStates(spell, ts, n, start)[name] == start[name])
    ensures (exists i :: 0 <= i < n && ts[i].name == name) ==> IsState(WithStates(spell, ts, n, start)[name])
  {
    if n > 0 {
      WithStatesMeans(spell, ts, n - 1, start, name);
    }
  }

  lemma SameLaneSameName(pairs: seq<(string, string)>, m: string, n: string)
    requires DistinctLanes(pairs) && m in Inverse(pairs) && n in Inverse(pairs)
             && Inverse(pairs)[m] == Inverse(pairs)[n]
    ensures m == n
  {
    InverseMeans(pairs, m);
    InverseMeans(pairs, n);
    var i :| 0 <= i < |pairs| && pairs[i] == (Inverse(pairs)[m], m);
    var j :| 0 <= j < |pairs| && pairs[j] == (Inverse(pairs)[n], n);
  }

  lemma LabelledInput(r: Record, spell: Spelling, name: string)
    requires name in InLabels(r, spell) && !IsState(InLabels(r, spell)[name])
    ensures name in LaneOf(r) && InLabels(r, spell)[name] == LaneOf(r)[name]
  {
    hide Inverse, StateTensors;
    WithStatesMeans(spell, InStates(r), |InStates(r)|, LaneOf(r), name);
  }

  lemma LabelledOutput(r: Record, spell: Spelling, name: string)
    requires name in OutLabels(r, spell) && !IsState(OutLabels(r, spell)[name])
    ensures name in Inverse(r.h) && OutLabels(r, spell)[name] == Inverse(r.h)[name]
  {
    hide Inverse, StateTensors;
    WithStatesMeans(spell, OutStates(r), |OutStates(r)|, Inverse(r.h), name);
  }

  /** Context tables never name lane o, so lane o names at most one input. */
  lemma OneInputO(r: Record, m: string, n: string)
    requires DistinctLanes(r.x) && (forall i :: 0 <= i < |r.ctx| ==> r.ctx[i].0 in CTX)
    requires m in LaneOf(r) && n in LaneOf(r) && LaneOf(r)[m] == LaneOf(r)[n] == "o"
    ensures m == n
  {
    hide Inverse;
    NoContextO(r, m);
    NoContextO(r, n);
    SameLaneSameName(r.x, m, n);
  }

  lemma NoContextO(r: Record, m: string)
    requires (forall i :: 0 <= i < |r.ctx| ==> r.ctx[i].0 in CTX) && m in LaneOf(r) && LaneOf(r)[m] == "o"
    ensures m in Inverse(r.x) && Inverse(r.x)[m] == "o"
  {
    hide Inverse;
    if m in Inverse(r.ctx) {
      InverseMeans(r.ctx, m);
    }
  }

  lemma ArgIsTensor(r: Record, e: Entry, a: string) returns (i: nat)
    requires EntryIs(r, e) && a in Names(r.args)
    ensures i < |r.args| == |e.srcs| && r.args[i].name == a && Sorted(r, r.args[i]) && e.srcs[i] == SrcOf(r, i)
  {
    hide Sorted, DstsOf, PairIs;
    i :| i < |r.args| && Names(r.args)[i] == a;
  }

  // ---- the row of an input ----

  /** The last pair of a tensor names its lane. */
  ghost predicate LastLane(pairs: seq<(string, string)>, name: string, lane: string) {
    exists i :: 0 <= i < |pairs| && pairs[i] == (lane, name) && forall k :: i < k < |pairs| ==> pairs[k].1 != name
  }

  ghost predicate InPairs(pairs: seq<(string, string)>, name: string) {
    exists i :: 0 <= i < |pairs| && pairs[i].1 == name
  }

  lemma LastLaneStep(pairs: seq<(string, string)>, name: string, lane: string)
    requires pairs != []
    ensures var n := |pairs| - 1;
            && (InPairs(pairs, name) <==> InPairs(pairs[..n], name) || pairs[n].1 == name)
            && (pairs[n].1 == name ==> LastLane(pairs, name, pairs[n].0))
            && (pairs[n].1 != name && LastLane(pairs[..n], name, lane) ==> LastLane(pairs, name, lane))
  {
    var n, init := |pairs| - 1, pairs[..|pairs| - 1];
    forall i | 0 <= i < n
      ensures init[i] == pairs[i]
    {
    }
    if InPairs(init, name) {
      var i :| 0 <= i < |init| && init[i].1 == name;
      assert pairs[i].1 == name;
    }
    if InPairs(pairs, name) && pairs[n].1 != name {
      var i :| 0 <= i < |pairs| && pairs[i].1 == name;
      assert init[i].1 == name;
    }
    assert pairs[n] == (pairs[n].0, pairs[n].1);
    if pairs[n].1 != name && LastLane(init, name, lane) {
      var i :| 0 <= i < |init| && init[i] == (lane, name) && forall k :: i < k < |init| ==> init[k].1 != name;
      assert pairs[i] == (lane, name);
    }
  }

  lemma {:induction false} InverseIs(pairs: seq<(string, string)>, name: string)
    ensures name in Inverse(pairs) <==> InPairs(pairs, name)
    ensures name in Inverse(pairs) ==> LastLane(pairs, name, Inverse(pairs)[name])
  {
    if pairs != [] {
      hide LastLane, InPairs;
      var n := |pairs| - 1;
      InverseIs(pairs[..n], name);
      LastLaneStep(pairs, name, if name in Inverse(pairs) then Inverse(pairs)[name] else "");
    }
  }

  /** The number a decimal spells. */
  function Spelled(s: string): int
  {
    if s == [] then 0 else 10 * Spelled(s[..|s| - 1]) + (s[|s| - 1] as int - '0' as int)
  }

  /** A digit and what it spells. */
  lemma DigitBack(n: nat)
    requires n < 10
    ensures var c := ['0', '1', '2', '3', '4', '5', '6', '7', '8', '9'][n]; c as int - '0' as int == n
  {
  }

  lemma {:induction false} DecimalBack(n: nat)
    ensures Decimal(n) != [] && Spelled(Decimal(n)) == n
  {
    var d := Decimal(n);
    DigitBack(n % 10);
    if n >= 10 {
      DecimalBack(n / 10);
      assert d[..|d| - 1] == Decimal(n / 10);
    } else {
      assert d[..0] == [];
    }
  }

  /** THE ROW OF AN INPUT. A state is a state whatever lane it is in, numbered in order from 0; any other input has the
      lane of its last context pair, else of its last lane pair, and is a context table exactly when that lane is
      oh, inv, mask, cosp or sinp. */
  lemma InputRow(r: Record, e: Entry, i: nat)
    requires EntryIs(r, e) && i < |r.args|
    ensures |e.srcs| == |r.args| && e.srcs[i].port == r.args[i].name && e.srcs[i].shape == r.args[i].shape
    ensures var name, row := r.args[i].name, e.srcs[i];
            if name in r.states then
              && row.kind == StateIn && row.lane[..5] == "state" && Spelled(row.lane[5..]) == StatesBefore(r, i)
            else
              && (if InPairs(r.ctx, name) then LastLane(r.ctx, name, row.lane) else LastLane(r.x, name, row.lane))
              && row.kind == if row.lane in {"oh", "inv", "mask", "cosp", "sinp"} then Ctx else Lane
  {
    hide Inverse, LastLane, InPairs, StatesBefore, Decimal, Spelled, DstsOf, PairIs;
    InverseIs(r.x, r.args[i].name);
    InverseIs(r.ctx, r.args[i].name);
    DecimalBack(StatesBefore(r, i));
  }

  /** A row that is not a state input has the lane. */
  predicate HasLane(e: Entry, lane: string) {
    exists i :: 0 <= i < |e.srcs| && e.srcs[i].kind != StateIn && e.srcs[i].lane == lane
  }

  /** Every input is labelled, and a lane label is the lane of an input row. */
  lemma InputDescribed(r: Record, e: Entry, spell: Spelling, a: string)
    requires EntryIs(r, e) && a in Names(r.args)
    ensures a in InLabels(r, spell)
    ensures !IsState(InLabels(r, spell)[a]) ==> HasLane(e, InLabels(r, spell)[a])
  {
    hide Inverse, StateTensors, EntryIs, IsState;
    var i := ArgIsTensor(r, e, a);
    var ts := InStates(r);
    WithStatesMeans(spell, ts, |ts|, LaneOf(r), a);
    if a in r.states {
      StateListed(r, i);
    } else {
      LabelledLane(r, e, spell, i);
    }
  }

  lemma StateListed(r: Record, i: nat)
    requires i < |r.args| && r.args[i].name in r.states
    ensures exists k :: 0 <= k < |InStates(r)| && InStates(r)[k].name == r.args[i].name
  {
    hide StateTensors;
    assert r.args[i] in InStates(r);
    var k :| 0 <= k < |InStates(r)| && InStates(r)[k] == r.args[i];
  }

  lemma LabelledLane(r: Record, e: Entry, spell: Spelling, i: nat)
    requires i < |r.args| && |e.srcs| == |r.args| && r.args[i].name !in r.states && Sorted(r, r.args[i])
             && e.srcs[i] == SrcOf(r, i)
    requires r.args[i].name in InLabels(r, spell)
    ensures !IsState(InLabels(r, spell)[r.args[i].name]) ==> HasLane(e, InLabels(r, spell)[r.args[i].name])
  {
    hide Inverse, StateTensors, IsState;
    var a := r.args[i].name;
    if !IsState(InLabels(r, spell)[a]) {
      LabelledInput(r, spell, a);
      assert e.srcs[i].lane == LaneOf(r)[a];
    }
  }

  /** A lane the program leaves a value in is the lane of an output row. */
  lemma OutputDescribed(r: Record, e: Entry, spell: Spelling, n: string)
    requires EntryIs(r, e) && n in Names(r.outs) && n in OutLabels(r, spell) && !IsState(OutLabels(r, spell)[n])
    ensures OutLabels(r, spell)[n] in DstLanes(e.dsts)
  {
    hide Inverse, StateTensors, IsState, DstsOf, PairIs;
    LabelledOutput(r, spell, n);
    var i :| 0 <= i < |r.outs| && Names(r.outs)[i] == n;
    assert r.outs[i] in r.outs;
    var d := Dst(n, Inverse(r.h)[n], r.outs[i].shape);
    assert d in e.dsts;
    var k :| 0 <= k < |e.dsts| && e.dsts[k] == d;
    assert DstLanes(e.dsts)[k] == Inverse(r.h)[n];
  }

  lemma LabelIsOutput(r: Record, g: Graph<string>, spell: Spelling, n: string)
    requires RecordOf(r, g, spell) && n in OutLabels(r, spell)
    ensures n in Names(r.outs)
  {
    hide StateTensors, WellFormed;
    var ts := OutStates(r);
    WithStatesMeans(spell, ts, |ts|, Inverse(r.h), n);
    if n in Inverse(r.h) {
      InverseMeans(r.h, n);
      var i :| 0 <= i < |r.h| && r.h[i] == (Inverse(r.h)[n], n);
    } else {
      var i :| 0 <= i < |ts| && ts[i].name == n;
      assert ts[i] in r.outs;
      var k :| 0 <= k < |r.outs| && r.outs[k] == ts[i];
      assert Names(r.outs)[k] == n;
    }
  }

  lemma UnitRunsOn(r: Record, g: Graph<string>, e: Entry, spell: Spelling)
    requires RecordOf(r, g, spell) && EntryIs(r, e)
    ensures Runs(Labelling(r, g, spell))
  {
    hide WellFormed, InLabels, OutLabels, EntryIs;
    WellFormedIsClosed(g);
    WellFormedIsListed(g);
    forall a | a in g.args
      ensures a in g.lanes
    {
      InputDescribed(r, e, spell, a);
    }
  }

  lemma WellFormedIsListed(g: Graph<string>)
    requires WellFormed(g)
    ensures Listed(g)
  {
  }

  lemma OneLaneO(r: Record, g: Graph<string>, spell: Spelling)
    requires RecordOf(r, g, spell)
    ensures OneArg(Labelling(r, g, spell)) && OneOutput(Labelling(r, g, spell))
  {
    hide WellFormed, Inverse, InLabels, OutLabels, LaneOf, IsState;
    NotAState();
    var p := Labelling(r, g, spell);
    forall a, b | LabelledO(p, a) && LabelledO(p, b)
      ensures a == b
    {
      LabelledInput(r, spell, a);
      LabelledInput(r, spell, b);
      OneInputO(r, a, b);
    }
    forall m, n | m in p.outputs && n in p.outputs && m in p.outs && n in p.outs && p.outs[m] == p.outs[n] == "o"
      ensures m == n
    {
      LabelledOutput(r, spell, m);
      LabelledOutput(r, spell, n);
      SameLaneSameName(r.h, m, n);
    }
  }

  // ---- entries equal up to order ----

  /** An input row of one entry is in the other, the position of a state input apart. */
  lemma SameRow(e: Entry, f: Entry, i: nat) returns (k: nat)
    requires SameEntry(e, f) && i < |e.srcs|
    ensures k < |f.srcs| && Plain(e.srcs)[i] == Plain(f.srcs)[k]
  {
    var x := Plain(e.srcs)[i];
    assert x in multiset(Plain(e.srcs));
    assert x in multiset(Plain(f.srcs));
    k :| k < |Plain(f.srcs)| && Plain(f.srcs)[k] == x;
  }

  lemma SameLanes(e: Entry, f: Entry, lane: string)
    requires SameEntry(e, f)
    ensures HasLane(e, lane) ==> HasSrc(f, lane)
    ensures lane in DstLanes(e.dsts) ==> lane in DstLanes(f.dsts)
  {
    hide SameEntry;
    if HasLane(e, lane) {
      var i :| 0 <= i < |e.srcs| && e.srcs[i].kind != StateIn && e.srcs[i].lane == lane;
      var k := SameRow(e, f, i);
    }
    if lane in DstLanes(e.dsts) {
      var i :| 0 <= i < |e.dsts| && DstLanes(e.dsts)[i] == lane;
      SameOutRow(e, f, e.dsts[i]);
      var k :| 0 <= k < |f.dsts| && f.dsts[k] == e.dsts[i];
      assert DstLanes(f.dsts)[k] == lane;
    }
  }

  lemma SameOutRow(e: Entry, f: Entry, d: Dst)
    requires SameEntry(e, f) && d in e.dsts
    ensures d in f.dsts
  {
    assert d in multiset(e.dsts);
    assert d in multiset(f.dsts);
  }

  // ---- one file under one entry ----

  lemma {:induction false} SameStates(ts: seq<Tensor>, p: string -> bool, q: string -> bool)
    requires forall i :: 0 <= i < |ts| ==> p(ts[i].name) == q(ts[i].name)
    ensures StateTensors(ts, p) == StateTensors(ts, q)
  {
    if ts != [] {
      SameStates(ts[..|ts| - 1], p, q);
    }
  }

  lemma {:induction false} NotRelabelled(spell: Spelling, ts: seq<Tensor>, n: nat, start: map<string, string>,
                                         name: string)
    requires n <= |ts| && forall i :: 0 <= i < n ==> ts[i].name != name
    ensures name in WithStates(spell, ts, n, start) <==> name in start
    ensures name in start ==> WithStates(spell, ts, n, start)[name] == start[name]
  {
    if n > 0 {
      NotRelabelled(spell, ts, n - 1, start, name);
    }
  }

  /** Labelling one list of states on top of two maps leaves a difference only where the maps differ and
      no state is. */
  lemma RelabelledAlike(spell: Spelling, ts: seq<Tensor>, s1: map<string, string>, s2: map<string, string>,
                        name: string)
    requires DistinctNames(ts)
    requires (exists i :: 0 <= i < |ts| && ts[i].name == name)
             || ((name in s1 <==> name in s2) && (name in s1 ==> s1[name] == s2[name]))
    ensures var l1, l2 := WithStates(spell, ts, |ts|, s1), WithStates(spell, ts, |ts|, s2);
            (name in l1 <==> name in l2) && (name in l1 ==> l1[name] == l2[name])
  {
    hide WithStates, OfShape;
    if i :| 0 <= i < |ts| && ts[i].name == name {
      StateLabelled(spell, ts, |ts|, s1, i);
      StateLabelled(spell, ts, |ts|, s2, i);
    } else {
      NotRelabelled(spell, ts, |ts|, s1, name);
      NotRelabelled(spell, ts, |ts|, s2, name);
    }
  }

  /** Under entries equal up to order, one signature puts every input in the same place. */
  lemma SameInput(r: Record, s: Record, e: Entry, f: Entry, i: nat)
    requires r.args == s.args && DistinctNames(r.args) && EntryIs(r, e) && EntryIs(s, f) && SameEntry(e, f)
             && i < |r.args|
    ensures var name := r.args[i].name;
            && (name in r.states <==> name in s.states)
            && (name !in r.states ==> name in LaneOf(r) && name in LaneOf(s) && LaneOf(r)[name] == LaneOf(s)[name])
  {
    hide SameEntry, LaneOf, PairIs, DstsOf;
    var k := SameRow(e, f, i);
    assert Sorted(r, r.args[i]) && e.srcs[i] == SrcOf(r, i);
    assert Sorted(s, s.args[k]) && f.srcs[k] == SrcOf(s, k);
    assert e.srcs[i].port == f.srcs[k].port;
    assert k == i;
  }

  lemma {:induction false} OutRow(r: Record, ts: seq<Tensor>, d: Dst)
    requires d in DstsOf(r, ts)
    ensures d.port in Inverse(r.h) && d.lane == Inverse(r.h)[d.port]
  {
    var n := |ts| - 1;
    if d in DstsOf(r, ts[..n]) {
      OutRow(r, ts[..n], d);
    }
  }

  lemma OutputGoes(r: Record, s: Record, e: Entry, f: Entry, i: nat)
    requires r.outs == s.outs && EntryIs(r, e) && EntryIs(s, f) && SameEntry(e, f) && i < |r.outs|
             && r.outs[i].name in Inverse(r.h)
    ensures var name := r.outs[i].name; name in Inverse(s.h) && Inverse(r.h)[name] == Inverse(s.h)[name]
  {
    hide SameEntry, Inverse, PairIs, Sorted;
    var t := r.outs[i];
    assert t in r.outs;
    var d := Dst(t.name, Inverse(r.h)[t.name], t.shape);
    SameOutRow(e, f, d);
    OutRow(s, s.outs, d);
  }

  lemma SameOutput(r: Record, s: Record, e: Entry, f: Entry, i: nat)
    requires r.outs == s.outs && EntryIs(r, e) && EntryIs(s, f) && SameEntry(e, f) && i < |r.outs|
    ensures var name := r.outs[i].name;
            (name in Inverse(r.h) <==> name in Inverse(s.h))
              && (name in Inverse(r.h) ==> Inverse(r.h)[name] == Inverse(s.h)[name])
  {
    hide Inverse, EntryIs;
    if r.outs[i].name in Inverse(r.h) {
      OutputGoes(r, s, e, f, i);
    }
    if r.outs[i].name in Inverse(s.h) {
      OutputGoes(s, r, f, e, i);
    }
  }

  /** ONE FILE, ONE ENTRY, ONE LABELLING. Two records of one MIL signature whose entries are equal up to
      order label every input and every output alike, the state tensors included. */
  lemma SameRecordLabels(r: Record, s: Record, e: Entry, f: Entry, spell: Spelling)
    requires r.args == s.args && r.outs == s.outs && DistinctNames(r.args) && DistinctNames(r.outs)
    requires EntryIs(r, e) && EntryIs(s, f) && SameEntry(e, f)
    ensures forall a :: a in Names(r.args) ==>
              (a in InLabels(r, spell) <==> a in InLabels(s, spell))
                && (a in InLabels(r, spell) ==> InLabels(r, spell)[a] == InLabels(s, spell)[a])
    ensures forall n :: n in Names(r.outs) ==>
              (n in OutLabels(r, spell) <==> n in OutLabels(s, spell))
                && (n in OutLabels(r, spell) ==> OutLabels(r, spell)[n] == OutLabels(s, spell)[n])
  {
    hide EntryIs, SameEntry, StateTensors, WithStates, Inverse, LaneOf;
    SameInStates(r, s, e, f);
    SameOutStates(r, s, e, f);
    StatesDistinct(r.args, name => name in r.states);
    StatesDistinct(r.outs, name => name !in Inverse(r.h));
    forall a | a in Names(r.args)
      ensures (a in InLabels(r, spell) <==> a in InLabels(s, spell))
              && (a in InLabels(r, spell) ==> InLabels(r, spell)[a] == InLabels(s, spell)[a])
    {
      var i: nat :| i < |r.args| && Names(r.args)[i] == a;
      SameInput(r, s, e, f, i);
      if a in r.states {
        StateListed(r, i);
      }
      RelabelledAlike(spell, InStates(r), LaneOf(r), LaneOf(s), a);
    }
    forall n | n in Names(r.outs)
      ensures (n in OutLabels(r, spell) <==> n in OutLabels(s, spell))
              && (n in OutLabels(r, spell) ==> OutLabels(r, spell)[n] == OutLabels(s, spell)[n])
    {
      var i: nat :| i < |r.outs| && Names(r.outs)[i] == n;
      SameOutput(r, s, e, f, i);
      RelabelledAlike(spell, OutStates(r), Inverse(r.h), Inverse(s.h), n);
    }
  }

  lemma SameInStates(r: Record, s: Record, e: Entry, f: Entry)
    requires r.args == s.args && DistinctNames(r.args) && EntryIs(r, e) && EntryIs(s, f) && SameEntry(e, f)
    ensures InStates(r) == InStates(s)
  {
    hide EntryIs, SameEntry, StateTensors, LaneOf;
    forall i | 0 <= i < |r.args|
      ensures (r.args[i].name in r.states) == (r.args[i].name in s.states)
    {
      SameInput(r, s, e, f, i);
    }
    SameStates(r.args, name => name in r.states, name => name in s.states);
  }

  lemma SameOutStates(r: Record, s: Record, e: Entry, f: Entry)
    requires r.outs == s.outs && EntryIs(r, e) && EntryIs(s, f) && SameEntry(e, f)
    ensures OutStates(r) == OutStates(s)
  {
    hide EntryIs, SameEntry, StateTensors, Inverse;
    forall i | 0 <= i < |r.outs|
      ensures (r.outs[i].name !in Inverse(r.h)) == (r.outs[i].name !in Inverse(s.h))
    {
      SameOutput(r, s, e, f, i);
    }
    SameStates(r.outs, name => name !in Inverse(r.h), name => name !in Inverse(s.h));
  }

  lemma {:induction false} StatesDistinct(ts: seq<Tensor>, p: string -> bool)
    requires DistinctNames(ts)
    ensures DistinctNames(StateTensors(ts, p))
  {
    if ts != [] {
      var n := |ts| - 1;
      assert ts == ts[..n] + [ts[n]];
      StatesDistinct(ts[..n], p);
      var before := StateTensors(ts[..n], p);
      forall i | 0 <= i < |before|
        ensures before[i].name != ts[n].name
      {
        assert before[i] in ts[..n];
      }
    }
  }

  // ---- the units of a control and of a layout ----

  /** What one compile leaves of a program: its PORTMAP line with the signature, and its MIL. */
  datatype Compile = Compile(record: Record, graph: Graph<string>)

  ghost predicate SameFile(a: Compile, b: Compile) {
    && a.record.args == b.record.args && a.record.outs == b.record.outs
    && a.graph.order == b.graph.order && a.graph.nodes == b.graph.nodes && a.graph.args == b.graph.args
  }

  /** A unit made from a compile: labelled by its record, under an entry equal up to order to the one the
      record gives. The layout's entries are made so; the control's are compared so by the self-check. */
  ghost predicate Built(u: Unit, c: Compile, spell: Spelling) {
    && RecordOf(c.record, c.graph, spell) && u.program == Labelling(c.record, c.graph, spell)
    && (forall n :: n in u.outNames ==> n in OutLabels(c.record, spell))
    && exists e :: EntryIs(c.record, e) && SameEntry(e, u.entry)
  }

  ghost predicate AllBuilt(units: seq<Unit>, compiles: seq<Compile>, spell: Spelling) {
    |units| == |compiles| && forall i :: 0 <= i < |units| ==> Built(units[i], compiles[i], spell)
  }

  /** The hash in a file name tells the files of this control and this layout apart. */
  ghost predicate HashTellsApart(control: seq<Unit>, cc: seq<Compile>, layout: seq<Unit>, lc: seq<Compile>)
    requires |control| == |cc| && |layout| == |lc|
  {
    forall c, i :: 0 <= c < |control| && 0 <= i < |layout| && layout[i].hash == control[c].hash ==>
      SameFile(lc[i], cc[c])
  }

  /** A unit built from a record is described by it: the entry lists the lanes of the labelled program,
      and lane o names one input and one output. */
  lemma RecordDescribed(u: Unit, c: Compile, spell: Spelling)
    requires Built(u, c, spell)
    ensures Described(u) && Parsed(u.program)
  {
    hide WellFormed, InLabels, OutLabels, EntryIs, RecordOf, LaneSource, Runs, OneArg, OneOutput, IsState, HasSrc,
      HasLane, SameEntry;
    var r, g, p := c.record, c.graph, u.program;
    var e :| EntryIs(r, e) && SameEntry(e, u.entry);
    UnitRunsOn(r, g, e, spell);
    OneLaneO(r, g, spell);
    LanesKnown(r, g, spell);
    forall a | a in g.args
      ensures a in g.lanes && (!IsState(g.lanes[a]) ==> HasSrc(u.entry, g.lanes[a]))
    {
      InputDescribed(r, e, spell, a);
      SameLanes(e, u.entry, g.lanes[a]);
    }
    forall lane | lane in Sources(p) && !IsState(lane)
      ensures lane in DstLanes(u.entry.dsts)
    {
      SourceIsOutput(p.outputs, p.outs, None, lane);
      OutputDescribed(r, e, spell, Sources(p)[lane]);
      SameLanes(e, u.entry, lane);
    }
    forall n | n in u.outNames
      ensures n in p.outputs
    {
      LabelIsOutput(r, g, spell, n);
    }
    RunsParsed(p);
  }

  lemma RunsParsed(p: Program)
    requires Runs(p)
    ensures Parsed(p)
  {
    hide WellFormed, Labelled;
  }

  lemma AllRecordsDescribed(units: seq<Unit>, compiles: seq<Compile>, spell: Spelling)
    requires AllBuilt(units, compiles, spell)
    ensures AllDescribed(units) && AllParsed(units)
  {
    hide Built, Described, Parsed;
    forall i | 0 <= i < |units|
      ensures Described(units[i]) && Parsed(units[i].program)
    {
      RecordDescribed(units[i], compiles[i], spell);
    }
  }

  /** KEPT PROGRAMS. A layout program whose file and entry are the control program's carries its labels. */
  lemma KeptIsControl(u: Unit, a: Compile, v: Unit, b: Compile, spell: Spelling)
    requires Built(u, a, spell) && Built(v, b, spell) && SameFile(a, b) && SameEntry(u.entry, v.entry)
    ensures SameMil(u.program, v.program) && SameLabels(u.program, v.program)
  {
    hide EntryIs, WellFormed, InLabels, OutLabels, SameEntry, DistinctLanes;
    var e :| EntryIs(a.record, e) && SameEntry(e, u.entry);
    var f :| EntryIs(b.record, f) && SameEntry(f, v.entry);
    EntriesChain(e, u.entry, v.entry, f);
    SameRecordLabels(a.record, b.record, e, f, spell);
    forall x | x in u.program.graph.args
      ensures x in InLabels(a.record, spell)
    {
      InputDescribed(a.record, e, spell, x);
    }
  }

  lemma EntriesChain(e: Entry, a: Entry, b: Entry, f: Entry)
    requires SameEntry(e, a) && SameEntry(a, b) && SameEntry(f, b)
    ensures SameEntry(e, f)
  {
    hide Plain;
  }

  lemma AllKeptAlike(control: seq<Unit>, cc: seq<Compile>, layout: seq<Unit>, lc: seq<Compile>, spell: Spelling)
    requires AllBuilt(control, cc, spell) && AllBuilt(layout, lc, spell) && HashTellsApart(control, cc, layout, lc)
    ensures KeptAlike(control, layout)
  {
    hide Built, SameFile, SameEntry, SameMil, SameLabels;
    forall c, i | 0 <= c < |control| && 0 <= i < |layout| && KeepOk(layout[i], control[c])
      ensures SameMil(layout[i].program, control[c].program) && SameLabels(layout[i].program, control[c].program)
    {
      KeptIsControl(layout[i], lc[i], control[c], cc[c], spell);
    }
  }

  /** A LAYOUT WITHOUT PROBLEMS COMPUTES WHAT ITS CONTROL COMPUTES, from the compile records on: build found
      no problem, the hash in a file name tells the files involved apart, the layout's ops lie within the
      depth the fusion check refines to, lane o has no other reader and each folded pair keeps its states
      apart. Every layout program runs itself. */
  lemma RecordedLayoutComputesControl<V(!new)>(control: seq<Unit>, cc: seq<Compile>, layout: seq<Unit>,
                                               lc: seq<Compile>, spell: Spelling,
                                               sem: Sem<V>, trace: seq<Memory<V>>, folded: seq<Memory<V>>)
    requires AllBuilt(control, cc, spell) && AllBuilt(layout, lc, spell) && HashTellsApart(control, cc, layout, lc)
    requires AllShallow(layout) && OneReader(control) && PairsApart(control)
    ensures AllDescribed(control) && AllDescribed(layout) && AllParsed(control) && AllParsed(layout)
    ensures Fits(control, layout, 0) && ControlRun(control, sem, trace) && LayoutRun(control, layout, 0, sem, folded)
            && trace[0] == folded[0] ==>
              && |trace| == |control| + 1 && |folded| == |layout| + 1
              && (forall lane :: lane != "o" ==> trace[|control|].lanes(lane) == folded[|layout|].lanes(lane))
              && (forall d, tag :: trace[|control|].states(d, tag) == folded[|layout|].states(d, tag))
  {
    hide AllBuilt, HashTellsApart, AllShallow, OneReader, PairsApart, AllDescribed, AllParsed, Fits, LayoutRun,
      ControlRun, KeptAlike;
    AllRecordsDescribed(control, cc, spell);
    AllRecordsDescribed(layout, lc, spell);
    AllKeptAlike(control, cc, layout, lc, spell);
    if Fits(control, layout, 0) && ControlRun(control, sem, trace) && LayoutRun(control, layout, 0, sem, folded) {
      RunLengths(control, layout, sem, trace, folded);
      if trace[0] == folded[0] {
        LayoutComputesControl(control, layout, sem, trace, folded);
      }
    }
  }

  lemma LanesKnown(r: Record, g: Graph<string>, spell: Spelling)
    requires RecordOf(r, g, spell)
    ensures g.lanes == InLabels(r, spell) && forall a :: a in g.args ==> a in Names(r.args)
  {
    hide WellFormed, InLabels;
  }
}
