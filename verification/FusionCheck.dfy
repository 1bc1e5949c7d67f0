/** tools/mil_graph_equiv.py: chain and compare, and what an EQUAL verdict means. */
module FusionCheck {
  import opened Basics
  import opened MilGraph

  /** A parsed program with the lane labels of its arguments (graph.lanes) and outputs. */
  datatype Program = Program(graph: Graph<string>, outputs: seq<string>, outs: map<string, string>)

  /** SECOND's argument that FIRST's output replaces. */
  datatype Link = Link(arg: string, output: string)

  /** A name of the chain: A_name comes from FIRST, B_name from SECOND. */
  datatype Side = A(name: string) | B(name: string)

  datatype Error = MilError | KeyError
  datatype Outcome<+T> = Done(value: T) | Raised(error: Error)

  datatype Report = Report(
    fusedNodes: nat, chainNodes: nat, labelsEqual: bool, onlyInFused: nat, onlyInChain: nat,
    outputs: map<string, bool>, outputsEqual: bool, equal: bool)

  /** What parse_mil hands over: dictionaries with every operand resolved. */
  ghost predicate Parsed(p: Program) {
    Listed(p.graph) && Closed(p.graph)
  }

  // ---- chain ----

  /** The name a SECOND tensor has in the chain: the link argument is FIRST's output. */
  function BName(link: Link, n: string): Side {
    if n == link.arg then A(link.output) else B(n)
  }

  function OpA(o: Op<string>): Op<Side> {
    Op(o.op, o.kind, o.literals, seq(|o.refs|, i requires 0 <= i < |o.refs| => Ref(o.refs[i].key, A(o.refs[i].name))))
  }

  function OpB(link: Link, o: Op<string>): Op<Side> {
    Op(o.op, o.kind, o.literals,
       seq(|o.refs|, i requires 0 <= i < |o.refs| => Ref(o.refs[i].key, BName(link, o.refs[i].name))))
  }

  function LaneLabel(g: Graph<string>, a: string): string {
    if a in g.lanes then g.lanes[a] else "?"
  }

  /** One dictionary under A_ names next to another under B_ names. */
  function Joined<T>(a: map<string, T>, b: map<string, T>): (c: map<Side, T>)
    ensures forall n :: A(n) in c <==> n in a
    ensures forall n :: n in a ==> c[A(n)] == a[n]
    ensures forall n :: B(n) in c <==> n in b
    ensures forall n :: n in b ==> c[B(n)] == b[n]
  {
    (map n | n in a :: A(n) := a[n]) + (map n | n in b :: B(n) := b[n])
  }

  function OpsA(nodes: map<string, Op<string>>): map<string, Op<Side>> {
    map n | n in nodes :: OpA(nodes[n])
  }

  function OpsB(link: Link, nodes: map<string, Op<string>>): map<string, Op<Side>> {
    map n | n in nodes :: OpB(link, nodes[n])
  }

  function LaneLabels(g: Graph<string>): map<string, string> {
    map n | n in g.args :: LaneLabel(g, n)
  }

  /** FIRST's graph next to SECOND's, rewired at the link. */
  function ChainGraph(first: Graph<string>, second: Graph<string>, link: Link): Graph<Side> {
    Graph(OrderA(first.order) + OrderB(second.order), Joined(OpsA(first.nodes), OpsB(link, second.nodes)),
          Joined(first.args, second.args - {link.arg}), Joined(LaneLabels(first), LaneLabels(second) - {link.arg}))
  }

  function Chain(first: Graph<string>, second: Graph<string>, link: Link): Outcome<Graph<Side>> {
    if link.output !in first.nodes || link.arg !in second.args then Raised(MilError)
    else Done(ChainGraph(first, second, link))
  }

  function OrderA(order: seq<string>): seq<Side> {
    seq(|order|, i requires 0 <= i < |order| => A(order[i]))
  }

  function OrderB(order: seq<string>): seq<Side> {
    seq(|order|, i requires 0 <= i < |order| => B(order[i]))
  }

  lemma ChainOrder(first: seq<string>, second: seq<string>, m: Side)
    ensures m in OrderA(first) + OrderB(second) <==> if m.A? then m.name in first else m.name in second
  {
    if m.A? && m.name in first {
      var i :| 0 <= i < |first| && first[i] == m.name;
      assert OrderA(first)[i] == m;
    }
    if m.B? && m.name in second {
      var i :| 0 <= i < |second| && second[i] == m.name;
      assert OrderB(second)[i] == m;
    }
  }

  /** The chain name by name. */
  lemma ChainEntry(first: Graph<string>, second: Graph<string>, link: Link, n: string)
    ensures var c := ChainGraph(first, second, link);
            && (A(n) in c.nodes <==> n in first.nodes) && (n in first.nodes ==> c.nodes[A(n)] == OpA(first.nodes[n]))
            && (B(n) in c.nodes <==> n in second.nodes)
            && (n in second.nodes ==> c.nodes[B(n)] == OpB(link, second.nodes[n]))
            && (A(n) in c.args <==> n in first.args) && (A(n) in c.lanes <==> n in first.args)
            && (n in first.args ==> c.args[A(n)] == first.args[n] && c.lanes[A(n)] == LaneLabel(first, n))
            && (B(n) in c.args <==> n in second.args && n != link.arg)
            && (B(n) in c.lanes <==> n in second.args && n != link.arg)
            && (n in second.args && n != link.arg ==>
                   c.args[B(n)] == second.args[n]
                   && c.lanes[B(n)] == LaneLabel(second, n))
  {
    hide Joined, OpA, OpB;
  }

  lemma ChainListed(first: Graph<string>, second: Graph<string>, link: Link)
    requires Listed(first) && Listed(second)
    ensures Listed(ChainGraph(first, second, link))
  {
    hide Joined, OpA, OpB;
    var c := ChainGraph(first, second, link);
    forall m
      ensures m in c.order <==> m in c.nodes
    {
      ChainOrder(first.order, second.order, m);
      ChainEntry(first, second, link, m.name);
    }
  }

  lemma ChainClosed(first: Graph<string>, second: Graph<string>, link: Link)
    requires Closed(first) && Closed(second) && link.output in first.nodes
    ensures Closed(ChainGraph(first, second, link))
  {
    hide Joined, ChainGraph;
    var c := ChainGraph(first, second, link);
    forall m, i | m in c.nodes && 0 <= i < |c.nodes[m].refs|
      ensures Known(c, c.nodes[m].refs[i].name)
    {
      ChainEntry(first, second, link, m.name);
      ChainEntry(first, second, link, link.output);
      match m
      case A(n) => ChainEntry(first, second, link, first.nodes[n].refs[i].name);
      case B(n) => ChainEntry(first, second, link, second.nodes[n].refs[i].name);
    }
  }

  // ---- compare ----

  function SideA(n: string): Side { A(n) }
  function SideB(n: string): Side { B(n) }
  function Same(n: string): string { n }

  /** Whether an output is compared: it has a nonempty lane and is not the linked one. */
  predicate Counts(outs: map<string, string>, skip: Option<string>, n: string) {
    n in outs && outs[n] != "" && skip != Some(n)
  }

  /** The lane dictionary of some outputs: a later output of the same lane overwrites. */
  function Collected<N(==)>(outputs: seq<string>, outs: map<string, string>, skip: Option<string>, side: string -> N,
                            labels: map<N, Label>, start: map<string, Label>): Outcome<map<string, Label>>
  {
    if outputs == [] then Done(start)
    else
      var n := outputs[|outputs| - 1];
      var before := Collected(outputs[..|outputs| - 1], outs, skip, side, labels, start);
      if before.Raised? || !Counts(outs, skip, n) then before
      else if side(n) !in labels then Raised(KeyError)
      else Done(before.value[outs[n] := labels[side(n)]])
  }

  method Collect<N(==)>(outputs: seq<string>, outs: map<string, string>, skip: Option<string>, side: string -> N,
                        labels: map<N, Label>, start: map<string, Label>) returns (r: Outcome<map<string, Label>>)
    ensures r == Collected(outputs, outs, skip, side, labels, start)
  {
    r := Done(start);
    for i := 0 to |outputs|
      invariant r == Collected(outputs[..i], outs, skip, side, labels, start)
    {
      assert outputs[..i + 1][..i] == outputs[..i];
      var n := outputs[i];
      if r.Done? && Counts(outs, skip, n) {
        r := if side(n) !in labels then Raised(KeyError) else Done(r.value[outs[n] := labels[side(n)]]);
      }
    }
    assert outputs[..|outputs|] == outputs;
  }

  function NodeLabels<N(==, !new)>(g: Graph<N>, rounds: nat): seq<Label>
    requires Listed(g) && Closed(g)
  {
    seq(|g.order|, i requires 0 <= i < |g.order| => LabelOf(g, rounds, g.order[i]))
  }

  function Lookups<N(==, !new)>(g: Graph<N>, ghost rounds: nat, labels: map<N, Label>): (s: seq<Label>)
    requires Listed(g) && Closed(g) && labels == LabelMap(g, rounds)
    ensures s == NodeLabels(g, rounds)
  {
    seq(|g.order|, i requires 0 <= i < |g.order| => labels[g.order[i]])
  }

  function MakeReport(fusedSet: multiset<Label>, chainSet: multiset<Label>, fusedOut: map<string, Label>,
                      chainOut: map<string, Label>): Report
  {
    var outputs := map lane | lane in fusedOut :: lane in chainOut && chainOut[lane] == fusedOut[lane];
    var outputsEqual := outputs != map[] && forall lane <- outputs.Keys :: outputs[lane];
    Report(|fusedSet|, |chainSet|, fusedSet == chainSet, |fusedSet - chainSet|, |chainSet - fusedSet|,
           outputs, outputsEqual, fusedSet == chainSet && outputsEqual && |outputs| == |chainOut|)
  }

  /** The lane labels of the chain: FIRST's outputs without the linked one, then SECOND's. */
  function ChainOut(first: Program, second: Program, link: Link, labels: map<Side, Label>): Outcome<map<string,
                    Label>> {
    var chainA := Collected(first.outputs, first.outs, Some(link.output), SideA, labels, map[]);
    if chainA.Raised? then chainA
    else Collected(second.outputs, second.outs, None, SideB, labels, chainA.value)
  }

  function FusedOut(fused: Program, labels: map<string, Label>): Outcome<map<string, Label>> {
    Collected(fused.outputs, fused.outs, None, Same, labels, map[])
  }

  /** The report on a fused program, with `rounds` rounds of refinement. */
  function Verdict(rounds: nat, fused: Program, first: Program, second: Program, link: Link): Outcome<Report>
    requires Parsed(fused) && Parsed(first) && Parsed(second)
  {
    var chain := Chain(first.graph, second.graph, link);
    if chain.Raised? then Raised(chain.error) else
    ChainListed(first.graph, second.graph, link);
    ChainClosed(first.graph, second.graph, link);
    var chainOut := ChainOut(first, second, link, LabelMap(chain.value, rounds));
    if chainOut.Raised? then Raised(chainOut.error) else
    var fusedOut := FusedOut(fused, LabelMap(fused.graph, rounds));
    if fusedOut.Raised? then Raised(fusedOut.error) else
    Done(MakeReport(multiset(NodeLabels(fused.graph, rounds)), multiset(NodeLabels(chain.value, rounds)),
                    fusedOut.value, chainOut.value))
  }

  method Compare(fused: Program, first: Program, second: Program, link: Link) returns (res: Outcome<Report>)
    requires Parsed(fused) && Parsed(first) && Parsed(second)
    ensures res == Verdict(64, fused, first, second, link)
  {
    var chain := Chain(first.graph, second.graph, link);
    if chain.Raised? {
      return Raised(chain.error);
    }
    var c := chain.value;
    ChainListed(first.graph, second.graph, link);
    ChainClosed(first.graph, second.graph, link);
    var fusedLabels := ComputeLabels(fused.graph, ROUNDS);
    var chainLabels := ComputeLabels(c, ROUNDS);
    var fusedSet := multiset(Lookups(fused.graph, ROUNDS, fusedLabels));
    var chainSet := multiset(Lookups(c, ROUNDS, chainLabels));
    var chainA := Collect(first.outputs, first.outs, Some(link.output), SideA, chainLabels, map[]);
    if chainA.Raised? {
      return Raised(chainA.error);
    }
    var chainB := Collect(second.outputs, second.outs, None, SideB, chainLabels, chainA.value);
    if chainB.Raised? {
      return Raised(chainB.error);
    }
    var fusedOut := Collect(fused.outputs, fused.outs, None, Same, fusedLabels, map[]);
    if fusedOut.Raised? {
      return Raised(fusedOut.error);
    }
    res := Done(MakeReport(fusedSet, chainSet, fusedOut.value, chainB.value));
  }
}
