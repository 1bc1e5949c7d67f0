/** What an EQUAL verdict of tools/mil_graph_equiv.py promises, and when. */
module FusionTheorems {
  import opened Basics
  import opened MilGraph
  import opened FusionCheck

  /** The output a lane is read from: the last compared output labelled with it. */
  function LaneSource(outputs: seq<string>, outs: map<string, string>, skip: Option<string>): map<string, string> {
    if outputs == [] then map[]
    else
      var n := outputs[|outputs| - 1];
      var before := LaneSource(outputs[..|outputs| - 1], outs, skip);
      if Counts(outs, skip, n) then before[outs[n] := n] else before
  }

  lemma {:induction false} CollectedMeans<N(!new)>(
      outputs: seq<string>, outs: map<string, string>, skip: Option<string>, side: string -> N,
      labels: map<N, Label>, start: map<string, Label>)
    requires Collected(outputs, outs, skip, side, labels, start).Done?
    ensures var m := Collected(outputs, outs, skip, side, labels, start).value;
            var src := LaneSource(outputs, outs, skip);
            && m.Keys == start.Keys + src.Keys
            && (forall lane :: lane in src ==> side(src[lane]) in labels && m[lane] == labels[side(src[lane])])
            && (forall lane :: lane in start && lane !in src ==> m[lane] == start[lane])
  {
    if outputs != [] {
      CollectedMeans(outputs[..|outputs| - 1], outs, skip, side, labels, start);
    }
  }

  // ---- running FIRST, then SECOND ----

  /** Every argument of the program carries a lane label. */
  ghost predicate Labelled(g: Graph<string>) {
    forall a :: a in g.args ==> a in g.lanes
  }

  ghost predicate LabelledBut(g: Graph<string>, link: Link) {
    forall a :: a in g.args && a != link.arg ==> a in g.lanes
  }

  function LaneInputs<V>(g: Graph<string>, env: Env<V>): map<string, V>
    requires Labelled(g)
  {
    map a | a in g.args :: env(g.lanes[a], g.args[a])
  }

  /** SECOND's arguments: `handed` at the link, the lanes elsewhere. */
  function LinkedInputs<V>(g: Graph<string>, link: Link, env: Env<V>, handed: V): map<string, V>
    requires LabelledBut(g, link)
  {
    map a | a in g.args :: if a == link.arg then handed else env(g.lanes[a], g.args[a])
  }

  function RunFirst<V>(first: Graph<string>, sem: Sem<V>, env: Env<V>): map<string, V>
    requires WellFormed(first) && Labelled(first)
  {
    Run(first, sem, LaneInputs(first, env))
  }

  /** Run FIRST, hand its link output over, run SECOND. */
  function RunSecond<V>(first: Graph<string>, second: Graph<string>, link: Link, sem: Sem<V>, env: Env<V>): map<string,
                        V>
    requires WellFormed(first) && Labelled(first) && link.output in first.nodes
    requires WellFormed(second) && LabelledBut(second, link)
  {
    assert Known(first, link.output);
    Run(second, sem, LinkedInputs(second, link, env, RunFirst(first, sem, env)[link.output]))
  }

  /** The value of a lane after the chain: SECOND's output of that lane, else FIRST's. */
  function ChainNames(first: Program, second: Program, link: Link): map<string, Side> {
    var a := LaneSource(first.outputs, first.outs, Some(link.output));
    var b := LaneSource(second.outputs, second.outs, None);
    (map lane | lane in a :: A(a[lane])) + (map lane | lane in b :: B(b[lane]))
  }

  /** The values two runs give the names of the chain graph. */
  ghost predicate IsMerged<V(!new)>(v1: map<string, V>, v2: map<string, V>, link: Link, cv: map<Side, V>) {
    && (forall n :: A(n) in cv <==> n in v1)
    && (forall n :: n in v1 ==> cv[A(n)] == v1[n])
    && (forall n :: B(n) in cv <==> n in v2 && n != link.arg)
    && (forall n :: n in v2 && n != link.arg ==> cv[B(n)] == v2[n])
  }

  function Merged<V(!new)>(v1: map<string, V>, v2: map<string, V>, link: Link): (cv: map<Side, V>)
    ensures IsMerged(v1, v2, link, cv)
  {
    Joined(v1, v2 - {link.arg})
  }

  function ChainInputs<V>(c: Graph<Side>, env: Env<V>): map<Side, V>
    requires forall a :: a in c.args ==> a in c.lanes
  {
    map a | a in c.args :: env(c.lanes[a], c.args[a])
  }

  lemma MergedOpA<V(!new)>(o: Op<string>, v1: map<string, V>, v2: map<string, V>, link: Link, cv: map<Side, V>,
                           sem: Sem<V>)
    requires IsMerged(v1, v2, link, cv)
    requires forall i :: 0 <= i < |o.refs| ==> o.refs[i].name in v1
    ensures forall i :: 0 <= i < |o.refs| ==> OpA(o).refs[i].name in cv
    ensures Apply(sem, OpA(o), cv) == Apply(sem, o, v1)
  {
    assert Operands(OpA(o).refs, cv) == Operands(o.refs, v1);
  }

  lemma MergedOpB<V(!new)>(o: Op<string>, v1: map<string, V>, v2: map<string, V>, link: Link, cv: map<Side, V>,
                           sem: Sem<V>)
    requires IsMerged(v1, v2, link, cv)
    requires forall i :: 0 <= i < |o.refs| ==> o.refs[i].name in v2
    requires link.output in v1 && link.arg in v2 && v2[link.arg] == v1[link.output]
    ensures forall i :: 0 <= i < |o.refs| ==> OpB(link, o).refs[i].name in cv
    ensures Apply(sem, OpB(link, o), cv) == Apply(sem, o, v2)
  {
    assert Operands(OpB(link, o).refs, cv) == Operands(o.refs, v2);
  }

  ghost predicate Linkable(first: Graph<string>, second: Graph<string>, link: Link) {
    && WellFormed(first) && Labelled(first) && link.output in first.nodes
    && WellFormed(second) && LabelledBut(second, link) && link.arg in second.args
  }

  lemma ChainReadsLanes<V(!new)>(first: Graph<string>, second: Graph<string>, link: Link, env: Env<V>)
    requires Linkable(first, second, link)
    ensures var c := ChainGraph(first, second, link); ReadsLanes(c, env, ChainInputs(c, env))
  {
    hide ChainGraph, WellFormed;
    var c := ChainGraph(first, second, link);
    forall a | a in c.args ensures a in c.lanes { ChainEntry(first, second, link, a.name); }
  }

  lemma ArgsAreNoOps(g: Graph<string>)
    requires WellFormed(g)
    ensures forall a :: a in g.args ==> a !in g.nodes
  {
  }

  lemma MergedKnown<V(!new)>(first: Graph<string>, second: Graph<string>, link: Link,
                             v1: map<string, V>, v2: map<string, V>, cv: map<Side, V>, m: Side)
    requires Linkable(first, second, link) && IsMerged(v1, v2, link, cv)
    requires forall n :: n in v1 <==> Known(first, n)
    requires forall n :: n in v2 <==> Known(second, n)
    ensures m in cv <==> Known(ChainGraph(first, second, link), m)
  {
    hide ChainGraph, WellFormed;
    ChainEntry(first, second, link, m.name);
    assert m.name in v1 <==> Known(first, m.name);
    assert m.name in v2 <==> Known(second, m.name);
    ArgsAreNoOps(second);
  }

  lemma MergedArg<V(!new)>(first: Graph<string>, second: Graph<string>, link: Link, env: Env<V>,
                           v1: map<string, V>, v2: map<string, V>, cv: map<Side, V>, m: Side)
    requires Linkable(first, second, link) && IsMerged(v1, v2, link, cv)
    requires forall a :: a in first.args ==> a in v1 && v1[a] == env(first.lanes[a], first.args[a])
    requires forall a :: a in second.args && a != link.arg ==> a in v2 && v2[a] == env(second.lanes[a], second.args[a])
    requires m in ChainGraph(first, second, link).args
    ensures m in cv && m in ChainGraph(first, second, link).lanes
    ensures cv[m] == env(ChainGraph(first, second, link).lanes[m], ChainGraph(first, second, link).args[m])
  {
    hide ChainGraph, WellFormed;
    ChainEntry(first, second, link, m.name);
  }

  lemma MergedNodeA<V(!new)>(first: Graph<string>, second: Graph<string>, link: Link, sem: Sem<V>,
                             v1: map<string, V>, v2: map<string, V>, cv: map<Side, V>, n: string)
    requires IsMerged(v1, v2, link, cv) && n in first.nodes && Satisfied(first, sem, v1, n)
    ensures A(n) in ChainGraph(first, second, link).nodes
    ensures Satisfied(ChainGraph(first, second, link), sem, cv, A(n))
  {
    hide ChainGraph;
    ChainEntry(first, second, link, n);
    MergedOpA(first.nodes[n], v1, v2, link, cv, sem);
  }

  lemma MergedNodeB<V(!new)>(first: Graph<string>, second: Graph<string>, link: Link, sem: Sem<V>,
                             v1: map<string, V>, v2: map<string, V>, cv: map<Side, V>, n: string)
    requires IsMerged(v1, v2, link, cv) && n in second.nodes && n != link.arg && Satisfied(second, sem, v2, n)
    requires link.output in v1 && link.arg in v2 && v2[link.arg] == v1[link.output]
    ensures B(n) in ChainGraph(first, second, link).nodes
    ensures Satisfied(ChainGraph(first, second, link), sem, cv, B(n))
  {
    hide ChainGraph;
    ChainEntry(first, second, link, n);
    MergedOpB(second.nodes[n], v1, v2, link, cv, sem);
  }

  lemma MergedNodes<V(!new)>(first: Graph<string>, second: Graph<string>, link: Link, sem: Sem<V>,
                             v1: map<string, V>, v2: map<string, V>, cv: map<Side, V>)
    requires Linkable(first, second, link) && IsMerged(v1, v2, link, cv)
    requires forall n :: n in first.nodes ==> Satisfied(first, sem, v1, n)
    requires forall n :: n in second.nodes ==> Satisfied(second, sem, v2, n)
    requires link.output in v1 && link.arg in v2 && v2[link.arg] == v1[link.output]
    ensures var c := ChainGraph(first, second, link);
            forall m :: m in c.nodes ==> Satisfied(c, sem, cv, m)
  {
    hide ChainGraph, Satisfied, WellFormed;
    var c := ChainGraph(first, second, link);
    ArgsAreNoOps(second);
    forall m | m in c.nodes
      ensures Satisfied(c, sem, cv, m)
    {
      ChainEntry(first, second, link, m.name);
      match m
      case A(n) => MergedNodeA(first, second, link, sem, v1, v2, cv, n);
      case B(n) => MergedNodeB(first, second, link, sem, v1, v2, cv, n);
    }
  }

  /** Two runs joined at the link satisfy the chain graph. */
  lemma MergedSolves<V(!new)>(first: Graph<string>, second: Graph<string>, link: Link, sem: Sem<V>, env: Env<V>,
                              v1: map<string, V>, v2: map<string, V>, cv: map<Side, V>)
    requires Linkable(first, second, link) && link.output in v1 && IsMerged(v1, v2, link, cv)
    requires Solves(first, sem, LaneInputs(first, env), v1)
    requires Solves(second, sem, LinkedInputs(second, link, env, v1[link.output]), v2)
    ensures var c := ChainGraph(first, second, link); Solves(c, sem, ChainInputs(c, env), cv)
  {
    hide ChainGraph, Satisfied, WellFormed, IsMerged;
    var c := ChainGraph(first, second, link);
    WellFormedIsClosed(first);
    WellFormedIsClosed(second);
    ChainClosed(first, second, link);
    ArgsAreNoOps(first);
    ArgsAreNoOps(second);
    assert Known(second, link.arg);
    ChainReadsLanes(first, second, link, env);
    MergedNodes(first, second, link, sem, v1, v2, cv);
    forall m ensures m in cv <==> Known(c, m) { MergedKnown(first, second, link, v1, v2, cv, m); }
    forall m | m in c.args
      ensures m in ChainInputs(c, env) && m in cv && cv[m] == ChainInputs(c, env)[m]
    {
      MergedArg(first, second, link, env, v1, v2, cv, m);
    }
  }

  // ---- soundness ----

  lemma SameSizeSubset(a: set<string>, b: set<string>)
    requires a <= b && |a| == |b|
    ensures a == b
  {
    assert |b - a| == 0;
  }

  /** The labels of `a` in excess of those of `b`, each as often as it is. */
  ghost predicate IsExcess(a: multiset<Label>, b: multiset<Label>, excess: multiset<Label>) {
    forall l :: excess[l] == if a[l] > b[l] then a[l] - b[l] else 0
  }

  /** COUNTS. The report gives the number of labels on each side, the number in excess on each side, and for every
      lane of the fused program whether the chain writes it with the same label. */
  lemma ReportCounts(fusedSet: multiset<Label>, chainSet: multiset<Label>, fusedOut: map<string, Label>,
                     chainOut: map<string, Label>, fusedExcess: multiset<Label>, chainExcess: multiset<Label>)
    requires IsExcess(fusedSet, chainSet, fusedExcess) && IsExcess(chainSet, fusedSet, chainExcess)
    ensures var r := MakeReport(fusedSet, chainSet, fusedOut, chainOut);
            && r.fusedNodes == |fusedSet| && r.chainNodes == |chainSet|
            && r.onlyInFused == |fusedExcess| && r.onlyInChain == |chainExcess|
            && (r.labelsEqual <==> r.onlyInFused == 0 && r.onlyInChain == 0)
            && r.fusedNodes - r.onlyInFused == r.chainNodes - r.onlyInChain
            && (forall lane :: lane in r.outputs <==> lane in fusedOut)
            && (forall lane :: lane in fusedOut ==>
                  (r.outputs[lane] <==> lane in chainOut && chainOut[lane] == fusedOut[lane]))
            && (r.outputsEqual <==> fusedOut != map[] && forall lane :: lane in fusedOut ==> r.outputs[lane])
  {
    assert fusedSet - chainSet == fusedExcess && chainSet - fusedSet == chainExcess;
    var common := fusedSet * chainSet;
    assert fusedSet == common + fusedExcess && chainSet == common + chainExcess;
    if |fusedExcess| == 0 && |chainExcess| == 0 {
      assert fusedExcess == multiset{} && chainExcess == multiset{};
    }
    var r := MakeReport(fusedSet, chainSet, fusedOut, chainOut);
    if fusedOut != map[] {
      var lane :| lane in fusedOut;
      assert lane in r.outputs;
    }
  }

  /** The report says equal exactly when the label multisets and the lane dictionaries are. */
  lemma ReportMeans(fusedSet: multiset<Label>, chainSet: multiset<Label>, fusedOut: map<string, Label>,
                    chainOut: map<string, Label>)
    ensures MakeReport(fusedSet, chainSet, fusedOut, chainOut).equal
            <==> fusedSet == chainSet && fusedOut != map[] && fusedOut == chainOut
    ensures MakeReport(fusedSet, chainSet, fusedOut, chainOut).labelsEqual <==> fusedSet == chainSet
  {
    var r := MakeReport(fusedSet, chainSet, fusedOut, chainOut);
    assert r.outputs.Keys == fusedOut.Keys;
    assert |r.outputs| == |r.outputs.Keys| && |chainOut| == |chainOut.Keys|;
    if r.equal {
      assert forall lane :: lane in fusedOut ==> r.outputs[lane];
      SameSizeSubset(fusedOut.Keys, chainOut.Keys);
    }
    if fusedOut != map[] {
      var lane :| lane in fusedOut;
      assert lane in r.outputs;
    }
  }

  lemma ChainOutMeans(first: Program, second: Program, link: Link, labels: map<Side, Label>)
    requires ChainOut(first, second, link, labels).Done?
    ensures var out, names := ChainOut(first, second, link, labels).value, ChainNames(first, second, link);
            out.Keys == names.Keys && forall lane :: lane in names ==>
                names[lane] in labels
                && out[lane] == labels[names[lane]]
  {
    CollectedMeans(first.outputs, first.outs, Some(link.output), SideA, labels, map[]);
    CollectedMeans(second.outputs, second.outs, None, SideB, labels,
                   Collected(first.outputs, first.outs, Some(link.output), SideA, labels, map[]).value);
  }

  lemma FusedOutMeans(fused: Program, labels: map<string, Label>)
    requires FusedOut(fused, labels).Done?
    ensures var out, names := FusedOut(fused, labels).value, LaneSource(fused.outputs, fused.outs, None);
            out.Keys == names.Keys && forall lane :: lane in names ==>
                names[lane] in labels
                && out[lane] == labels[names[lane]]
  {
    CollectedMeans(fused.outputs, fused.outs, None, Same, labels, map[]);
  }

  /** Every fused lane carries the label of the chain tensor the lane names, and no lane is missing. */
  ghost predicate LanesMatch(rounds: nat, fused: Program, first: Program, second: Program, link: Link)
    requires Closed(fused.graph) && Closed(ChainGraph(first.graph, second.graph, link))
  {
    var src, dst := LaneSource(fused.outputs, fused.outs, None), ChainNames(first, second, link);
    var c := ChainGraph(first.graph, second.graph, link);
    && src.Keys == dst.Keys
    && forall lane :: lane in src ==>
         && Known(fused.graph, src[lane]) && Known(c, dst[lane])
         && LabelOf(fused.graph, rounds, src[lane]) == LabelOf(c, rounds, dst[lane])
  }

  lemma VerdictMeans(rounds: nat, fused: Program, first: Program, second: Program, link: Link)
    requires Parsed(fused) && Parsed(first) && Parsed(second)
    requires Verdict(rounds, fused, first, second, link).Done?
    ensures link.output in first.graph.nodes && link.arg in second.graph.args
    ensures Closed(ChainGraph(first.graph, second.graph, link)) && Listed(ChainGraph(first.graph, second.graph, link))
    ensures forall lane :: lane in ChainNames(first, second, link) ==>
                             Known(ChainGraph(first.graph, second.graph, link), ChainNames(first, second, link)[lane])
    ensures var r, c := Verdict(rounds, fused, first, second, link).value, ChainGraph(first.graph, second.graph, link);
            && (r.labelsEqual <==> multiset(NodeLabels(fused.graph, rounds)) == multiset(NodeLabels(c, rounds)))
            && (r.equal <==>
                  && r.labelsEqual && LaneSource(fused.outputs, fused.outs, None) != map[]
                  && LanesMatch(rounds, fused, first, second, link))
  {
    hide ChainGraph, ChainNames, LaneSource, MakeReport, Closed, Listed, LabelOf;
    var c := ChainGraph(first.graph, second.graph, link);
    ChainListed(first.graph, second.graph, link);
    ChainClosed(first.graph, second.graph, link);
    var fl, cl := LabelMap(fused.graph, rounds), LabelMap(c, rounds);
    FusedOutMeans(fused, fl);
    ChainOutMeans(first, second, link, cl);
    ReportMeans(multiset(NodeLabels(fused.graph, rounds)), multiset(NodeLabels(c, rounds)),
                FusedOut(fused, fl).value, ChainOut(first, second, link, cl).value);
    LanesMatchMeans(rounds, fused, first, second, link, FusedOut(fused, fl).value,
      ChainOut(first, second, link, cl).value);
  }

  lemma LanesMatchMeans(rounds: nat, fused: Program, first: Program, second: Program, link: Link,
                        fusedOut: map<string, Label>, chainOut: map<string, Label>)
    requires Closed(fused.graph) && Closed(ChainGraph(first.graph, second.graph, link))
    requires fusedOut.Keys == LaneSource(fused.outputs, fused.outs, None).Keys
    requires chainOut.Keys == ChainNames(first, second, link).Keys
    requires forall lane :: lane in fusedOut ==>
      var n := LaneSource(fused.outputs, fused.outs, None)[lane];
      Known(fused.graph, n) && fusedOut[lane] == LabelOf(fused.graph, rounds, n)
    requires forall lane :: lane in chainOut ==>
      var n := ChainNames(first, second, link)[lane];
      && Known(ChainGraph(first.graph, second.graph, link), n)
      && chainOut[lane] == LabelOf(ChainGraph(first.graph, second.graph, link), rounds, n)
    ensures LanesMatch(rounds, fused, first, second, link) <==> fusedOut == chainOut
    ensures fusedOut == map[] <==> LaneSource(fused.outputs, fused.outs, None) == map[]
  {
    hide ChainGraph, ChainNames, LaneSource, Closed, LabelOf, Known;
    var src := LaneSource(fused.outputs, fused.outs, None);
    assert (fusedOut == map[]) == (fusedOut.Keys == {}) == (src.Keys == {}) == (src == map[]);
  }

  /** FIRST run on the lanes, its link output handed to SECOND, solve the chain graph. */
  lemma ChainRunSolves<V(!new)>(first: Graph<string>, second: Graph<string>, link: Link, sem: Sem<V>, env: Env<V>)
    requires Linkable(first, second, link)
    ensures var c := ChainGraph(first, second, link);
            Solves(c, sem, ChainInputs(c, env),
              Merged(RunFirst(first, sem, env), RunSecond(first, second, link, sem, env), link))
  {
    var v1 := RunFirst(first, sem, env);
    RunSolves(first, sem, LaneInputs(first, env));
    assert Known(first, link.output);
    RunSolves(second, sem, LinkedInputs(second, link, env, v1[link.output]));
    var v2 := RunSecond(first, second, link, sem, env);
    MergedSolves(first, second, link, sem, env, v1, v2, Merged(v1, v2, link));
  }

  /** The fused program leaves in `lane` what FIRST then SECOND leave there. */
  ghost predicate SameLane<V(!new)>(fused: Program, first: Program, second: Program, link: Link, sem: Sem<V>,
                                    env: Env<V>, lane: string)
    requires WellFormed(fused.graph) && Labelled(fused.graph) && Linkable(first.graph, second.graph, link)
    requires lane in LaneSource(fused.outputs, fused.outs, None) && lane in ChainNames(first, second, link)
  {
    var v := RunFirst(fused.graph, sem, env);
    var src := LaneSource(fused.outputs, fused.outs, None)[lane];
    && src in v
    && match ChainNames(first, second, link)[lane]
       case A(n) => var v1 := RunFirst(first.graph, sem, env); n in v1 && v[src] == v1[n]
       case B(n) => var v2 := RunSecond(first.graph, second.graph, link, sem, env); n in v2 && v[src] == v2[n]
  }

  lemma EqualTensor<V(!new)>(rounds: nat, fused: Graph<string>, first: Graph<string>, second: Graph<string>, link: Link,
                             sem: Sem<V>, env: Env<V>, src: string, dst: Side)
    requires WellFormed(fused) && Labelled(fused) && Linkable(first, second, link)
    requires Closed(fused) && Closed(ChainGraph(first, second, link))
    requires Shallow(fused, src, rounds) && Known(ChainGraph(first, second, link), dst)
    requires LabelOf(fused, rounds, src) == LabelOf(ChainGraph(first, second, link), rounds, dst)
    ensures var cv := Merged(RunFirst(first, sem, env), RunSecond(first, second, link, sem, env), link);
            dst in cv && RunFirst(fused, sem, env)[src] == cv[dst]
  {
    hide ChainGraph, Merged, IsMerged, WellFormed;
    var c := ChainGraph(first, second, link);
    var cv := Merged(RunFirst(first, sem, env), RunSecond(first, second, link, sem, env), link);
    RunSolves(fused, sem, LaneInputs(fused, env));
    ChainRunSolves(first, second, link, sem, env);
    ChainReadsLanes(first, second, link, env);
    EqualLabelsEqualValues(fused, c, rounds, src, dst, sem, env, LaneInputs(fused, env), ChainInputs(c, env),
      RunFirst(fused, sem, env), cv);
  }

  lemma EqualLane<V(!new)>(rounds: nat, fused: Program, first: Program, second: Program, link: Link, sem: Sem<V>,
                           env: Env<V>, lane: string)
    requires WellFormed(fused.graph) && Labelled(fused.graph) && Linkable(first.graph, second.graph, link)
    requires forall n :: n in fused.graph.nodes ==> Shallow(fused.graph, n, rounds)
    requires Closed(fused.graph) && Closed(ChainGraph(first.graph, second.graph, link))
             && LanesMatch(rounds, fused, first, second, link)
    requires lane in LaneSource(fused.outputs, fused.outs, None)
    ensures SameLane(fused, first, second, link, sem, env, lane)
  {
    EqualTensor(rounds, fused.graph, first.graph, second.graph, link, sem, env,
                LaneSource(fused.outputs, fused.outs, None)[lane], ChainNames(first, second, link)[lane]);
  }

  /** SOUNDNESS. When the verdict is EQUAL and no fused op is deeper than the number of rounds,
      the fused program and the chain write the same lanes with the same values, under every
      meaning of the ops and every content of the lanes. */
  lemma FusionSound<V(!new)>(rounds: nat, fused: Program, first: Program, second: Program, link: Link, sem: Sem<V>,
                             env: Env<V>)
    requires WellFormed(fused.graph) && Labelled(fused.graph) && Parsed(fused) && Parsed(first) && Parsed(second)
    requires Linkable(first.graph, second.graph, link)
    requires forall n :: n in fused.graph.nodes ==> Shallow(fused.graph, n, rounds)
    requires Verdict(rounds, fused, first, second, link).Done?
             && Verdict(rounds, fused, first, second, link).value.equal
    ensures LaneSource(fused.outputs, fused.outs, None).Keys == ChainNames(first, second, link).Keys
    ensures forall lane :: lane in LaneSource(fused.outputs, fused.outs, None) ==>
                             SameLane(fused, first, second, link, sem, env, lane)
  {
    VerdictMeans(rounds, fused, first, second, link);
    forall lane | lane in LaneSource(fused.outputs, fused.outs, None)
      ensures SameLane(fused, first, second, link, sem, env, lane)
    {
      EqualLane(rounds, fused, first, second, link, sem, env, lane);
    }
  }
}
