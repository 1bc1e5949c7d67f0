/** Running a folded layout: what a layout without problems computes, compared with its control. */
module FoldRun {
  import opened Basics
  import opened MilGraph
  import opened FusionCheck
  import opened FusionTheorems

  // ---- lanes and states ----

  /** A state tensor is labelled by shape and position; every other label names a lane. */
  predicate IsState(tag: string) { |tag| >= 3 && tag[..3] == "st:" }

  /** The lanes all programs share, and the states each control program keeps to itself. */
  datatype Memory<!V> = Memory(lanes: string -> V, states: (nat, string) -> V)

  /** A program that can be run: well-formed, every argument labelled, every output computed. */
  ghost predicate Runs(p: Program) {
    && WellFormed(p.graph) && Labelled(p.graph) && Parsed(p)
    && forall i :: 0 <= i < |p.outputs| ==> Known(p.graph, p.outputs[i])
  }

  function Sources(p: Program): map<string, string> { LaneSource(p.outputs, p.outs, None) }

  lemma {:induction false} SourceIsOutput(outputs: seq<string>, outs: map<string, string>, skip: Option<string>,
                                          lane: string)
    requires lane in LaneSource(outputs, outs, skip)
    ensures var n := LaneSource(outputs, outs, skip)[lane]; n in outputs && Counts(outs, skip, n) && outs[n] == lane
  {
    if outputs != [] {
      var k := |outputs| - 1;
      var before := LaneSource(outputs[..k], outs, skip);
      if lane in before {
        SourceIsOutput(outputs[..k], outs, skip, lane);
      }
    }
  }

  lemma {:induction false} OutputHasSource(outputs: seq<string>, outs: map<string, string>, skip: Option<string>,
                                           n: string)
    requires n in outputs && Counts(outs, skip, n)
    ensures outs[n] in LaneSource(outputs, outs, skip)
  {
    var k := |outputs| - 1;
    if outputs[k] != n {
      OutputHasSource(outputs[..k], outs, skip, n);
    }
  }

  /** What program c reads: shared lanes, and its own states. */
  ghost function Reads<V>(m: Memory<V>, c: nat): Env<V> {
    (tag: string, kind: string) => if IsState(tag) then m.states(c, tag) else m.lanes(tag)
  }

  ghost function Values<V>(p: Program, sem: Sem<V>, env: Env<V>): map<string, V>
    requires Runs(p)
  {
    RunFirst(p.graph, sem, env)
  }

  lemma SourceHasValue<V>(p: Program, sem: Sem<V>, env: Env<V>, lane: string)
    requires Runs(p) && lane in Sources(p)
    ensures Sources(p)[lane] in Values(p, sem, env)
  {
    hide WellFormed, LaneSource;
    SourceIsOutput(p.outputs, p.outs, None, lane);
    var i :| 0 <= i < |p.outputs| && p.outputs[i] == Sources(p)[lane];
  }

  /** The value a run leaves under a label. */
  ghost function Left<V>(p: Program, sem: Sem<V>, env: Env<V>, lane: string): V
    requires Runs(p) && lane in Sources(p)
  {
    SourceHasValue(p, sem, env, lane);
    Values(p, sem, env)[Sources(p)[lane]]
  }

  ghost function LaneAfter<V>(m: Memory<V>, p: Program, sem: Sem<V>, env: Env<V>, lane: string): V
    requires Runs(p)
  {
    if !IsState(lane) && lane in Sources(p) then Left(p, sem, env, lane) else m.lanes(lane)
  }

  ghost function StateAfter<V>(m: Memory<V>, p: Program, sem: Sem<V>, env: Env<V>, owner: nat, d: nat, tag: string): V
    requires Runs(p)
  {
    if d == owner && IsState(tag) && tag in Sources(p) then Left(p, sem, env, tag) else m.states(d, tag)
  }

  /** `after` is what running control program c on `m` leaves. */
  ghost predicate Ran<V(!new)>(m: Memory<V>, p: Program, c: nat, sem: Sem<V>, after: Memory<V>)
    requires Runs(p)
  {
    && (forall lane :: after.lanes(lane) == LaneAfter(m, p, sem, Reads(m, c), lane))
    && (forall d, tag :: after.states(d, tag) == StateAfter(m, p, sem, Reads(m, c), c, d, tag))
  }

  // ---- a folded pair ----

  /** The state labels a program reads or writes. */
  ghost predicate UsesState(p: Program, tag: string) {
    IsState(tag) && ((exists a :: a in p.graph.args && a in p.graph.lanes && p.graph.lanes[a] == tag)
      || tag in Sources(p))
  }

  ghost predicate StatesApart(first: Program, second: Program) {
    forall tag :: UsesState(first, tag) ==> !UsesState(second, tag)
  }

  /** Which control program of the pair owns a state of the fused program. */
  ghost function Owner(first: Program, c: nat, tag: string): nat {
    if UsesState(first, tag) then c else c + 1
  }

  ghost function FusedReads<V>(m: Memory<V>, first: Program, c: nat): Env<V> {
    (tag: string, kind: string) => if IsState(tag) then m.states(Owner(first, c, tag), tag) else m.lanes(tag)
  }

  /** `after` is what running the fused program in place of c and c + 1 leaves. */
  ghost predicate FusedRan<V(!new)>(m: Memory<V>, fused: Program, first: Program, c: nat, sem: Sem<V>, after: Memory<V>)
    requires Runs(fused)
  {
    var env := FusedReads(m, first, c);
    && (forall lane :: after.lanes(lane) == LaneAfter(m, fused, sem, env, lane))
    && (forall d, tag :: after.states(d, tag) == StateAfter(m, fused, sem, env, Owner(first, c, tag), d, tag))
  }

  /** Two programs that make up a state block and its reader. */
  ghost predicate Pairs(first: Program, second: Program, link: Link) {
    && Runs(first) && Runs(second) && Linkable(first.graph, second.graph, link)
    && link.output in first.outputs && link.output in first.outs && first.outs[link.output] == "o"
    && (forall n :: n in first.outputs && n in first.outs && first.outs[n] == "o" ==> n == link.output)
    && (forall lane :: lane in Sources(first) && !IsState(lane) ==> lane == "o")
    && (forall a :: a in second.graph.args ==> (second.graph.lanes[a] == "o" <==> a == link.arg))
    && StatesApart(first, second)
  }

  lemma PairRuns(first: Program, second: Program, link: Link)
    requires Pairs(first, second, link)
    ensures Runs(first) && Runs(second) && Linkable(first.graph, second.graph, link)
  {
  }

  /** Two memories agree where a program looks. */
  lemma SameReads<V>(g: Graph<string>, e1: Env<V>, e2: Env<V>)
    requires Labelled(g) && forall a :: a in g.args ==> e1(g.lanes[a], g.args[a]) == e2(g.lanes[a], g.args[a])
    ensures LaneInputs(g, e1) == LaneInputs(g, e2)
  {
  }

  lemma FirstReadsAlike<V>(m: Memory<V>, first: Program, c: nat)
    requires Runs(first)
    ensures LaneInputs(first.graph, Reads(m, c)) == LaneInputs(first.graph, FusedReads(m, first, c))
  {
    hide WellFormed;
    var g := first.graph;
    forall a | a in g.args
      ensures Reads(m, c)(g.lanes[a], g.args[a]) == FusedReads(m, first, c)(g.lanes[a], g.args[a])
    {
      if IsState(g.lanes[a]) {
        assert UsesState(first, g.lanes[a]);
      }
    }
    SameReads(g, Reads(m, c), FusedReads(m, first, c));
  }

  /** After the first program, the second reads what the chain hands it. */
  lemma SecondReadsAlike<V(!new)>(m: Memory<V>, mid: Memory<V>, first: Program, second: Program, link: Link, c: nat,
                                  sem: Sem<V>)
    requires Pairs(first, second, link) && Ran(m, first, c, sem, mid)
    ensures var env := FusedReads(m, first, c);
            && link.output in RunFirst(first.graph, sem, env)
            && LaneInputs(second.graph, Reads(mid, c + 1))
               == LinkedInputs(second.graph, link, env, RunFirst(first.graph, sem, env)[link.output])
  {
    hide WellFormed, LaneSource, Run, StatesApart, UsesState, Owner;
    var env, g := FusedReads(m, first, c), second.graph;
    assert Known(first.graph, link.output);
    forall a | a in g.args
      ensures Reads(mid, c + 1)(g.lanes[a], g.args[a]) ==
                if a == link.arg then RunFirst(first.graph, sem, env)[link.output] else env(g.lanes[a], g.args[a])
    {
      if a == link.arg {
        HandedOver(m, mid, first, second, link, c, sem);
      } else if IsState(g.lanes[a]) {
        StateUntouched(m, mid, first, second, link, c, sem, a);
      } else {
        assert g.lanes[a] != "o";
        assert mid.lanes(g.lanes[a]) == LaneAfter(m, first, sem, Reads(m, c), g.lanes[a]);
      }
    }
  }

  lemma HandedOver<V(!new)>(m: Memory<V>, mid: Memory<V>, first: Program, second: Program, link: Link, c: nat,
                            sem: Sem<V>)
    requires Pairs(first, second, link) && Ran(m, first, c, sem, mid)
    ensures link.output in RunFirst(first.graph, sem, FusedReads(m, first, c))
    ensures mid.lanes("o") == RunFirst(first.graph, sem, FusedReads(m, first, c))[link.output]
    ensures "o" in Sources(first) && Sources(first)["o"] == link.output && !IsState("o")
  {
    hide WellFormed, LaneSource, Run, StatesApart, UsesState, Owner;
    FirstReadsAlike(m, first, c);
    assert Counts(first.outs, None, link.output);
    OutputHasSource(first.outputs, first.outs, None, link.output);
    SourceIsOutput(first.outputs, first.outs, None, "o");
    assert mid.lanes("o") == LaneAfter(m, first, sem, Reads(m, c), "o");
  }

  lemma StateUntouched<V(!new)>(m: Memory<V>, mid: Memory<V>, first: Program, second: Program, link: Link, c: nat,
                                sem: Sem<V>, a: string)
    requires Pairs(first, second, link) && Ran(m, first, c, sem, mid) && a in second.graph.args
             && IsState(second.graph.lanes[a])
    ensures mid.states(c + 1, second.graph.lanes[a]) ==
            m.states(Owner(first, c, second.graph.lanes[a]), second.graph.lanes[a])
  {
    hide WellFormed, LaneSource, Run;
    var tag := second.graph.lanes[a];
    assert UsesState(second, tag);
    assert !UsesState(first, tag);
    assert mid.states(c + 1, tag) == StateAfter(m, first, sem, Reads(m, c), c, c + 1, tag);
  }

  // ---- lanes of the chain ----

  /** Leaving the linked output out drops lane o and nothing else. */
  lemma {:induction false} WithoutLink(outputs: seq<string>, outs: map<string, string>, link: string, lane: string)
    requires link in outs && outs[link] == "o" && forall n :: n in outputs && n in outs && outs[n] == "o" ==> n == link
    ensures lane in LaneSource(outputs, outs, Some(link)) <==> lane in LaneSource(outputs, outs, None) && lane != "o"
    ensures lane in LaneSource(outputs, outs, Some(link)) ==>
            LaneSource(outputs, outs, Some(link))[lane] == LaneSource(outputs, outs, None)[lane]
  {
    if outputs != [] {
      WithoutLink(outputs[..|outputs| - 1], outs, link, lane);
      assert outputs[|outputs| - 1] in outputs;
    }
  }

  /** Where each lane of the chain comes from. */
  lemma ChainLane(first: Program, second: Program, link: Link, lane: string)
    requires Pairs(first, second, link)
    ensures lane in ChainNames(first, second, link) <==>
              lane in Sources(second)
              || (lane in Sources(first) && lane != "o")
    ensures lane in Sources(second) ==> ChainNames(first, second, link)[lane] == B(Sources(second)[lane])
    ensures lane in Sources(first) && lane != "o" && lane !in Sources(second) ==>
            ChainNames(first, second, link)[lane] == A(Sources(first)[lane])
  {
    hide WellFormed, LaneSource, StatesApart;
    WithoutLink(first.outputs, first.outs, link.output, lane);
  }

  /** What the control pair leaves under a label the second program writes, and under one only the
      first writes. */
  lemma PairLeaves<V(!new)>(m: Memory<V>, mid: Memory<V>, first: Program, second: Program, link: Link, c: nat,
                            sem: Sem<V>, lane: string)
    requires Pairs(first, second, link) && Ran(m, first, c, sem, mid)
    ensures var env := FusedReads(m, first, c);
            && (lane in Sources(second) ==>
                  && Sources(second)[lane] in RunSecond(first.graph, second.graph, link, sem, env)
                  && Left(second, sem, Reads(mid, c + 1), lane) ==
                       RunSecond(first.graph, second.graph, link, sem, env)[Sources(second)[lane]])
            && (lane in Sources(first) ==>
                  && Sources(first)[lane] in RunFirst(first.graph, sem, env)
                  && Left(first, sem, Reads(m, c), lane) == RunFirst(first.graph, sem, env)[Sources(first)[lane]])
  {
    hide WellFormed, LaneSource, Run, StatesApart, Ran, Owner;
    FirstReadsAlike(m, first, c);
    SecondReadsAlike(m, mid, first, second, link, c, sem);
    if lane in Sources(second) {
      SourceHasValue(second, sem, Reads(mid, c + 1), lane);
    }
    if lane in Sources(first) {
      SourceHasValue(first, sem, Reads(m, c), lane);
    }
  }

  /** The fused program leaves under every label what the control pair leaves there. */
  ghost predicate Chains<V(!new)>(fused: Program, first: Program, second: Program, link: Link, sem: Sem<V>, env: Env<V>)
    requires Runs(fused) && Pairs(first, second, link)
  {
    && Sources(fused).Keys == ChainNames(first, second, link).Keys
    && forall lane :: lane in Sources(fused) ==> SameLane(fused, first, second, link, sem, env, lane)
  }

  lemma FusedLeaves<V(!new)>(m: Memory<V>, mid: Memory<V>, fused: Program, first: Program, second: Program, link: Link,
                             c: nat, sem: Sem<V>, lane: string)
    requires Runs(fused) && Pairs(first, second, link) && Ran(m, first, c, sem, mid)
    requires Chains(fused, first, second, link, sem, FusedReads(m, first, c))
    ensures lane in Sources(fused) <==> lane in Sources(second) || (lane in Sources(first) && lane != "o")
    ensures lane in Sources(second) ==>
            Left(fused, sem, FusedReads(m, first, c), lane) == Left(second, sem, Reads(mid, c + 1), lane)
    ensures lane in Sources(first) && lane != "o" && lane !in Sources(second) ==>
              Left(fused, sem, FusedReads(m, first, c), lane) == Left(first, sem, Reads(m, c), lane)
  {
    hide WellFormed, LaneSource, RunFirst, RunSecond, StatesApart, Ran, Owner, ChainNames, Linkable, Pairs;
    hide FusedReads, Reads;
    PairRuns(first, second, link);
    ChainLane(first, second, link, lane);
    PairLeaves(m, mid, first, second, link, c, sem, lane);
    if lane in Sources(fused) {
      assert SameLane(fused, first, second, link, sem, FusedReads(m, first, c), lane);
    }
  }

  /** Two memories agree on every state and on every lane but o. */
  ghost predicate Agree<V(!new)>(a: Memory<V>, b: Memory<V>, onO: bool) {
    && (forall lane :: lane != "o" || onO ==> a.lanes(lane) == b.lanes(lane))
    && (forall d, tag :: a.states(d, tag) == b.states(d, tag))
  }

  ghost predicate ReadsO(p: Program) {
    exists a :: a in p.graph.args && a in p.graph.lanes && p.graph.lanes[a] == "o"
  }

  /** A fused program that does not read lane o sees no difference. */
  lemma FusedReadsAgree<V(!new)>(a: Memory<V>, b: Memory<V>, onO: bool, fused: Program, first: Program, c: nat)
    requires Runs(fused) && Agree(a, b, onO) && !ReadsO(fused)
    ensures LaneInputs(fused.graph, FusedReads(a, first, c)) == LaneInputs(fused.graph, FusedReads(b, first, c))
  {
    hide WellFormed, Owner;
    var g := fused.graph;
    forall x | x in g.args
      ensures FusedReads(a, first, c)(g.lanes[x], g.args[x]) == FusedReads(b, first, c)(g.lanes[x], g.args[x])
    {
      assert g.lanes[x] != "o";
    }
    SameReads(g, FusedReads(a, first, c), FusedReads(b, first, c));
  }

  lemma LeftAgree<V>(p: Program, sem: Sem<V>, e1: Env<V>, e2: Env<V>, lane: string)
    requires Runs(p) && lane in Sources(p) && LaneInputs(p.graph, e1) == LaneInputs(p.graph, e2)
    ensures Left(p, sem, e1, lane) == Left(p, sem, e2, lane)
  {
    hide WellFormed, LaneSource, Run;
  }

  /** What the fused program leaves under a label, run on an agreeing memory. */
  lemma FusedLeavesOn<V(!new)>(m: Memory<V>, mid: Memory<V>, b: Memory<V>, onO: bool, fused: Program, first: Program,
                               second: Program,
                               link: Link, c: nat, sem: Sem<V>, lane: string)
    requires Runs(fused) && Pairs(first, second, link) && Ran(m, first, c, sem, mid) && Agree(m, b, onO)
             && !ReadsO(fused)
    requires Chains(fused, first, second, link, sem, FusedReads(m, first, c))
    ensures lane in Sources(fused) <==> lane in Sources(second) || (lane in Sources(first) && lane != "o")
    ensures lane in Sources(second) ==>
            Left(fused, sem, FusedReads(b, first, c), lane) == Left(second, sem, Reads(mid, c + 1), lane)
    ensures lane in Sources(first) && lane != "o" && lane !in Sources(second) ==>
              Left(fused, sem, FusedReads(b, first, c), lane) == Left(first, sem, Reads(m, c), lane)
  {
    hide Runs, Pairs, Ran, Agree, ReadsO, Chains, LaneSource, Left, FusedReads, Reads;
    PairRuns(first, second, link);
    FusedLeaves(m, mid, fused, first, second, link, c, sem, lane);
    FusedReadsAgree(m, b, onO, fused, first, c);
    if lane in Sources(fused) {
      LeftAgree(fused, sem, FusedReads(m, first, c), FusedReads(b, first, c), lane);
    }
  }

  /** ONE FOLD. From agreeing memories, the control pair and the fused program leave the same states
      and the same lanes, lane o apart unless the second program writes it too. */
  lemma FoldAgrees<V(!new)>(m: Memory<V>, mid: Memory<V>, after: Memory<V>, b: Memory<V>, folded: Memory<V>, onO: bool,
                            fused: Program, first: Program, second: Program, link: Link, c: nat, sem: Sem<V>)
    requires Runs(fused) && Pairs(first, second, link) && Agree(m, b, onO) && !ReadsO(fused)
    requires Runs(first) && Runs(second)
    requires Ran(m, first, c, sem, mid) && Ran(mid, second, c + 1, sem, after)
             && FusedRan(b, fused, first, c, sem, folded)
    requires Chains(fused, first, second, link, sem, FusedReads(m, first, c))
    ensures Agree(after, folded, "o" in Sources(second))
  {
    hide Runs, LaneSource, StatesApart, Pairs, Chains, UsesState, Left, FusedReads, Reads, ReadsO;
    forall lane | lane != "o" || "o" in Sources(second)
      ensures after.lanes(lane) == folded.lanes(lane)
    {
      FusedLeavesOn(m, mid, b, onO, fused, first, second, link, c, sem, lane);
      NotAState();
      assert mid.lanes(lane) == LaneAfter(m, first, sem, Reads(m, c), lane);
      assert lane != "o" ==> m.lanes(lane) == b.lanes(lane);
    }
    forall d, tag
      ensures after.states(d, tag) == folded.states(d, tag)
    {
      FusedLeavesOn(m, mid, b, onO, fused, first, second, link, c, sem, tag);
      StateOwned(first, second, link, tag);
      assert mid.states(d, tag) == StateAfter(m, first, sem, Reads(m, c), c, d, tag);
    }
  }

  lemma StateOwned(first: Program, second: Program, link: Link, tag: string)
    requires Pairs(first, second, link)
    ensures IsState(tag) && tag in Sources(second) ==> !UsesState(first, tag) && tag !in Sources(first)
    ensures IsState(tag) && tag in Sources(first) ==> UsesState(first, tag) && tag !in Sources(second)
    ensures !IsState("o")
  {
    hide WellFormed, LaneSource;
    if IsState(tag) && tag in Sources(second) {
      assert UsesState(second, tag);
    }
    if IsState(tag) && tag in Sources(first) {
      assert UsesState(first, tag);
    }
  }

  // ---- a kept program ----

  lemma ReadsAgree<V(!new)>(a: Memory<V>, b: Memory<V>, onO: bool, p: Program, c: nat)
    requires Runs(p) && Agree(a, b, onO) && (ReadsO(p) ==> onO)
    ensures LaneInputs(p.graph, Reads(a, c)) == LaneInputs(p.graph, Reads(b, c))
  {
    hide WellFormed;
    var g := p.graph;
    forall x | x in g.args
      ensures Reads(a, c)(g.lanes[x], g.args[x]) == Reads(b, c)(g.lanes[x], g.args[x])
    {
      assert g.lanes[x] == "o" ==> ReadsO(p);
    }
    SameReads(g, Reads(a, c), Reads(b, c));
  }

  /** The same ops, arguments and outputs, whatever the labels. */
  ghost predicate SameMil(p: Program, q: Program) {
    && p.graph.order == q.graph.order && p.graph.nodes == q.graph.nodes && p.graph.args == q.graph.args
    && p.outputs == q.outputs
  }

  /** The same labels on the arguments and on the outputs. */
  ghost predicate SameLabels(p: Program, q: Program) {
    && (forall a :: a in p.graph.args ==>
          a in p.graph.lanes && a in q.graph.lanes && p.graph.lanes[a] == q.graph.lanes[a])
    && (forall n :: n in p.outputs ==> (n in p.outs <==> n in q.outs) && (n in p.outs ==> p.outs[n] == q.outs[n]))
  }

  lemma {:induction false} SameSources(outputs: seq<string>, o1: map<string, string>, o2: map<string, string>)
    requires forall n :: n in outputs ==> (n in o1 <==> n in o2) && (n in o1 ==> o1[n] == o2[n])
    ensures LaneSource(outputs, o1, None) == LaneSource(outputs, o2, None)
  {
    if outputs != [] {
      var k := |outputs| - 1;
      assert outputs[k] in outputs;
      SameSources(outputs[..k], o1, o2);
    }
  }

  lemma {:induction false} SameRunPrefix<V>(g: Graph<string>, h: Graph<string>, sem: Sem<V>, inputs: map<string, V>,
                                            n: nat)
    requires WellFormed(g) && WellFormed(h) && g.order == h.order && g.nodes == h.nodes && g.args == h.args
    requires g.args.Keys == inputs.Keys && n <= |g.order|
    ensures RunPrefix(g, sem, inputs, n) == RunPrefix(h, sem, inputs, n)
  {
    if n > 0 {
      SameRunPrefix(g, h, sem, inputs, n - 1);
    }
  }

  lemma SameInputs<V>(p: Program, q: Program, env: Env<V>)
    requires Runs(p) && Runs(q) && SameMil(p, q) && SameLabels(p, q)
    ensures LaneInputs(p.graph, env) == LaneInputs(q.graph, env)
  {
    hide WellFormed, Parsed, Known;
  }

  lemma SameValues<V>(p: Program, q: Program, sem: Sem<V>, env: Env<V>)
    requires Runs(p) && Runs(q) && SameMil(p, q) && SameLabels(p, q)
    ensures Values(p, sem, env) == Values(q, sem, env)
  {
    hide WellFormed, Parsed, Known, SameLabels, RunPrefix;
    SameInputs(p, q, env);
    SameRunPrefix(p.graph, q.graph, sem, LaneInputs(p.graph, env), |p.graph.order|);
  }

  /** Equal MIL under equal labels runs alike. */
  lemma SameRan<V(!new)>(p: Program, q: Program, m: Memory<V>, c: nat, sem: Sem<V>, after: Memory<V>)
    requires Runs(p) && Runs(q) && SameMil(p, q) && SameLabels(p, q) && Ran(m, p, c, sem, after)
    ensures Sources(p) == Sources(q) && Ran(m, q, c, sem, after)
  {
    hide Runs, Values, LaneSource, Reads;
    SameSources(p.outputs, p.outs, q.outs);
    SameValues(p, q, sem, Reads(m, c));
  }

  /** A kept program takes agreeing memories to what the control program leaves. */
  lemma KeptAgrees<V(!new)>(a: Memory<V>, b: Memory<V>, onO: bool, p: Program, q: Program, c: nat, sem: Sem<V>,
                            after: Memory<V>, kept: Memory<V>)
    requires Runs(p) && Runs(q) && SameMil(q, p) && SameLabels(q, p) && Agree(a, b, onO) && (ReadsO(p) ==> onO)
    requires Ran(a, p, c, sem, after) && Ran(b, q, c, sem, kept)
    ensures Agree(after, kept, "o" in Sources(p))
  {
    hide Runs, LaneSource, Left, ReadsO, Reads, SameMil, SameLabels;
    SameRan(q, p, b, c, sem, kept);
    ReadsAgree(a, b, onO, p, c);
    forall lane | lane != "o" || "o" in Sources(p)
      ensures after.lanes(lane) == kept.lanes(lane)
    {
      NotAState();
      if lane in Sources(p) {
        LeftAgree(p, sem, Reads(a, c), Reads(b, c), lane);
      }
    }
    forall d, tag
      ensures after.states(d, tag) == kept.states(d, tag)
    {
      if tag in Sources(p) {
        LeftAgree(p, sem, Reads(a, c), Reads(b, c), tag);
      }
    }
  }

  lemma NotAState()
    ensures !IsState("o")
  {
  }
}
