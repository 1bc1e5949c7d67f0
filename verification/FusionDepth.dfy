/** The depth condition on tools/mil_graph_equiv.py is needed: one op deeper than the number of
    rounds, a program with two swapped outputs is already reported EQUAL. */
module FusionDepth {
  import opened Basics
  import opened MilGraph
  import opened FusionCheck
  import opened FusionTheorems
  import opened FusionExact

  /** The i-th tensor of the tower over argument `c`: i + 1 copies of the letter. */
  function Nm(c: char, i: nat): string {
    seq(i + 1, _ => c)
  }

  lemma NmFacts(c: char, i: nat)
    ensures |Nm(c, i)| == i + 1 && (forall k :: 0 <= k <= i ==> Nm(c, i)[k] == c)
    ensures i > 0 ==> Nm(c, i)[1..] == Nm(c, i - 1)
    ensures Nm(c, 0) == [c]
  {
  }

  function Tower(c: char, n: nat): seq<string> {
    seq(n, i requires 0 <= i < n => Nm(c, i + 1))
  }

  /** Each tower op applies "g" to the tensor below it, whose name is one letter shorter. */
  function StepOp(m: string): Op<string>
    requires |m| > 0
  {
    Op("g", "T", [], [Ref("x", m[1..])])
  }

  function Towers(n: nat): seq<string> {
    Tower('x', n) + Tower('y', n)
  }

  lemma TowersMembers(n: nat, m: string)
    ensures m in Towers(n) <==> exists i: nat :: 1 <= i <= n && (m == Nm('x', i) || m == Nm('y', i))
    ensures m in Towers(n) ==> |m| > 1
  {
    if i: nat :| 1 <= i <= n && (m == Nm('x', i) || m == Nm('y', i)) {
      assert Towers(n)[i - 1] == Nm('x', i) && Towers(n)[n + i - 1] == Nm('y', i);
    }
    if m in Towers(n) {
      var k :| 0 <= k < |Towers(n)| && Towers(n)[k] == m;
      var i: nat := if k < n then k + 1 else k - n + 1;
      assert m == Nm('x', i) || m == Nm('y', i);
    }
  }

  function TowerNodes(n: nat): (nodes: map<string, Op<string>>)
    ensures forall m :: m in nodes <==> m in Towers(n)
    ensures forall m :: m in nodes ==> |m| > 1 && nodes[m] == StepOp(m)
  {
    assert forall m :: m in Towers(n) ==> |m| > 1 by {
      forall m | m in Towers(n) ensures |m| > 1 { TowersMembers(n, m); }
    }
    map m | m in Towers(n) :: StepOp(m)
  }

  const HeadOp := Op("f", "T", [], [Ref("x", "z")])

  function First(): Program {
    Program(Graph(["t"], map["t" := HeadOp], map["z" := "T"], map["z" := "Z"]), ["t"], map[])
  }

  function Second(n: nat): Program {
    Program(Graph(Towers(n), TowerNodes(n), map["l" := "T", "x" := "T", "y" := "T"], map["x" := "X", "y" := "Y"]),
            [Nm('x', n), Nm('y', n)], map[Nm('x', n) := "P", Nm('y', n) := "Q"])
  }

  /** The chain under new names, with its two output lanes swapped. */
  function Swapped(n: nat): Program {
    Program(Graph(["t"] + Towers(n), TowerNodes(n)["t" := HeadOp], map["z" := "T", "x" := "T", "y" := "T"],
                  map["z" := "Z", "x" := "X", "y" := "Y"]),
            [Nm('x', n), Nm('y', n)], map[Nm('x', n) := "Q", Nm('y', n) := "P"])
  }

  const LINK := Link("l", "t")

  // ---- the three programs are well formed ----

  lemma TowerBelow(n: nat, m: string)
    requires m in Towers(n)
    ensures |m| > 1 && (m[1..] == "x" || m[1..] == "y" || m[1..] in Towers(n))
  {
    TowersMembers(n, m);
    var i: nat :| 1 <= i <= n && (m == Nm('x', i) || m == Nm('y', i));
    NmFacts('x', i);
    NmFacts('y', i);
    if i == 1 {
      assert Nm('x', 0) == "x" && Nm('y', 0) == "y";
    } else {
      TowersMembers(n, m[1..]);
    }
  }

  lemma TowersDistinct(n: nat)
    ensures Distinct(Towers(n))
  {
    var s := Towers(n);
    forall i, j | 0 <= i < j < |s|
      ensures s[i] != s[j]
    {
      assert |s[i]| == (if i < n then i else i - n) + 2;
      assert |s[j]| == (if j < n then j else j - n) + 2;
      assert s[i][0] == (if i < n then 'x' else 'y') && s[j][0] == (if j < n then 'x' else 'y');
    }
  }

  /** Operand of tower op k comes before it. */
  lemma TowerOrder(n: nat, k: nat)
    requires k < |Towers(n)|
    ensures var m := Towers(n)[k];
            |m| > 1 && (m[1..] == "x" || m[1..] == "y" || (k > 0 && m[1..] == Towers(n)[k - 1]))
  {
    var i: nat := if k < n then k + 1 else k - n + 1;
    var c := if k < n then 'x' else 'y';
    assert Towers(n)[k] == Nm(c, i);
    NmFacts(c, i);
    if i == 1 {
      assert Nm('x', 0) == "x" && Nm('y', 0) == "y";
    } else {
      assert Towers(n)[k - 1] == Nm(c, i - 1);
    }
  }

  lemma ShortNames(n: nat)
    ensures forall m :: |m| == 1 ==> m !in Towers(n)
  {
    forall m | m in Towers(n) ensures |m| > 1 { TowersMembers(n, m); }
  }

  lemma SecondWellFormed(n: nat)
    ensures WellFormed(Second(n).graph)
  {
    var g := Second(n).graph;
    TowersDistinct(n);
    ShortNames(n);
    forall i | 0 <= i < |g.order|
      ensures RefsBefore(g, i)
    {
      TowerOrder(n, i);
      BeforeMeans(g, i, g.order[i][1..]);
    }
  }

  lemma SwappedListed(n: nat)
    ensures Listed(Swapped(n).graph)
  {
    TowersDistinct(n);
    ShortNames(n);
  }

  lemma SwappedRefs(n: nat, i: nat)
    requires i < |Swapped(n).graph.order|
    ensures Listed(Swapped(n).graph) && RefsBefore(Swapped(n).graph, i)
  {
    SwappedListed(n);
    var g := Swapped(n).graph;
    ShortNames(n);
    if i == 0 {
      BeforeMeans(g, 0, "z");
    } else {
      TowerOrder(n, i - 1);
      BeforeMeans(g, i, g.order[i][1..]);
    }
  }

  lemma SwappedWellFormed(n: nat)
    ensures WellFormed(Swapped(n).graph)
  {
    hide RefsBefore;
    SwappedListed(n);
    ShortNames(n);
    forall i | 0 <= i < |Swapped(n).graph.order|
      ensures RefsBefore(Swapped(n).graph, i)
    {
      SwappedRefs(n, i);
    }
  }

  lemma FirstWellFormed()
    ensures WellFormed(First().graph)
  {
    var g := First().graph;
    assert RefsBefore(g, 0);
  }

  // ---- the towers cannot be told apart from above ----

  /** In a graph holding both towers, tensors of the same height have the same label as long as
      fewer rounds than their height have run. */
  lemma {:induction false} TwinLabels(g: Graph<string>, n: nat, r: nat, i: nat)
    requires Closed(g) && r < i <= n
    requires forall m :: m in Towers(n) ==> m in g.nodes && |m| > 1 && g.nodes[m] == StepOp(m)
    ensures Known(g, Nm('x', i)) && Known(g, Nm('y', i))
    ensures LabelOf(g, r, Nm('x', i)) == LabelOf(g, r, Nm('y', i))
    decreases r
  {
    hide Nm, Towers, Closed;
    TowersMembers(n, Nm('x', i));
    TowersMembers(n, Nm('y', i));
    NmFacts('x', i);
    NmFacts('y', i);
    if r > 0 {
      TwinLabels(g, n, r - 1, i);
      TwinLabels(g, n, r - 1, i - 1);
      NextLabelEqual(g, g, r - 1, Nm('x', i), Nm('y', i));
    }
  }

  function Rho(n: nat): map<Side, string> {
    (map m | m in Towers(n) :: B(m) := m) + map[A("t") := "t", A("z") := "z", B("x") := "x", B("y") := "y"]
  }

  lemma RhoFacts(n: nat)
    ensures forall m :: m in Towers(n) ==> B(m) in Rho(n) && Rho(n)[B(m)] == m
    ensures A("t") in Rho(n) && Rho(n)[A("t")] == "t" && A("z") in Rho(n) && Rho(n)[A("z")] == "z"
    ensures B("x") in Rho(n) && Rho(n)[B("x")] == "x" && B("y") in Rho(n) && Rho(n)[B("y")] == "y"
    ensures OneToOne(Rho(n))
  {
    hide Towers;
    ShortNames(n);
    forall m: Side | m in Rho(n)
      ensures Rho(n)[m] == m.name && (m.A? ==> m.name == "t" || m.name == "z")
              && (m.B? ==> m.name != "t" && m.name != "z")
    {
    }
  }

  lemma SwappedRenamesB(n: nat, m: string)
    requires m in Towers(n)
    ensures |m| > 1 && RenamesOp(Rho(n), OpB(LINK, StepOp(m)), StepOp(m))
  {
    TowerBelow(n, m);
    RhoFacts(n);
    assert |m[1..]| == 1 || m[1..] != "l";
    ShortNames(n);
  }

  lemma SwappedRenamesName(n: nat, m: Side)
    ensures var c, h := ChainGraph(First().graph, Second(n).graph, LINK), Swapped(n).graph;
            && (Known(c, m) ==> m in Rho(n))
            && (m in c.nodes ==> Rho(n)[m] in h.nodes && RenamesOp(Rho(n), c.nodes[m], h.nodes[Rho(n)[m]]))
            && (m in c.args && m !in c.nodes ==>
                  && Rho(n)[m] !in h.nodes && Rho(n)[m] in h.args && h.args[Rho(n)[m]] == c.args[m]
                  && m in c.lanes && Rho(n)[m] in h.lanes && h.lanes[Rho(n)[m]] == c.lanes[m])
  {
    hide ChainGraph, Rho, OneToOne, RenamesOp, Towers, OpA, OpB;
    ChainEntry(First().graph, Second(n).graph, LINK, m.name);
    RhoFacts(n);
    ShortNames(n);
    if m.B? && m.name in Towers(n) {
      SwappedRenamesB(n, m.name);
    } else if m == A("t") {
      SwappedRenamesA(n);
    }
  }

  lemma SwappedOrder(n: nat)
    ensures |Swapped(n).graph.order| == |ChainGraph(First().graph, Second(n).graph, LINK).order|
  {
  }

  lemma SwappedRenames(n: nat)
    ensures var c := ChainGraph(First().graph, Second(n).graph, LINK);
            OneToOne(Rho(n)) && Renames(Rho(n), c, Swapped(n).graph) && |Swapped(n).graph.order| == |c.order|
  {
    hide ChainGraph, Rho, OneToOne, RenamesOp, Towers, Swapped, First, Second;
    var c, h := ChainGraph(First().graph, Second(n).graph, LINK), Swapped(n).graph;
    RhoFacts(n);
    SwappedOrder(n);
    forall m
      ensures Known(c, m) ==> m in Rho(n)
      ensures m in c.nodes ==> Rho(n)[m] in h.nodes && RenamesOp(Rho(n), c.nodes[m], h.nodes[Rho(n)[m]])
      ensures m in c.args && m !in c.nodes ==>
                && Rho(n)[m] !in h.nodes && Rho(n)[m] in h.args && h.args[Rho(n)[m]] == c.args[m]
                && m in c.lanes && Rho(n)[m] in h.lanes && h.lanes[Rho(n)[m]] == c.lanes[m]
    {
      SwappedRenamesName(n, m);
    }
  }

  lemma SwappedRenamesA(n: nat)
    ensures RenamesOp(Rho(n), OpA(HeadOp), HeadOp)
  {
    RhoFacts(n);
  }

  // ---- the verdict and the values ----

  lemma TowersLinkable(n: nat)
    ensures Linkable(First().graph, Second(n).graph, LINK) && Parsed(First()) && Parsed(Second(n)) && Parsed(Swapped(n))
    ensures WellFormed(Swapped(n).graph) && Labelled(Swapped(n).graph)
  {
    FirstWellFormed();
    SecondWellFormed(n);
    SwappedWellFormed(n);
    WellFormedIsClosed(First().graph);
    WellFormedIsClosed(Second(n).graph);
    WellFormedIsClosed(Swapped(n).graph);
  }

  lemma TwoLanes(x: string, y: string, outs: map<string, string>, p: string, q: string)
    requires x != y && p != q && p != "" && q != "" && outs == map[x := p, y := q]
    ensures LaneSource([x, y], outs, None) == map[p := x, q := y]
  {
    var out := [x, y];
    assert out[..1] == [x] && out[..1][..0] == [];
    assert LaneSource(out[..1], outs, None) == map[p := x];
  }

  lemma TowerLanes(n: nat)
    requires n > 0
    ensures Nm('x', n) != Nm('y', n)
    ensures LaneSource(Swapped(n).outputs, Swapped(n).outs, None) == map["P" := Nm('y', n), "Q" := Nm('x', n)]
    ensures ChainNames(First(), Second(n), LINK) == map["P" := B(Nm('x', n)), "Q" := B(Nm('y', n))]
  {
    hide Nm, Towers, TowerNodes, LaneSource, ChainNames;
    NmFacts('x', n);
    NmFacts('y', n);
    assert Nm('x', n)[0] != Nm('y', n)[0];
    TwoLanes(Nm('x', n), Nm('y', n), Swapped(n).outs, "Q", "P");
    SecondLanes(n);
  }

  lemma SecondLanes(n: nat)
    requires Nm('x', n) != Nm('y', n)
    ensures ChainNames(First(), Second(n), LINK) == map["P" := B(Nm('x', n)), "Q" := B(Nm('y', n))]
  {
    hide Nm, Towers, TowerNodes, LaneSource;
    TwoLanes(Nm('x', n), Nm('y', n), Second(n).outs, "P", "Q");
    FirstLanes();
  }

  lemma FirstLanes()
    ensures LaneSource(First().outputs, First().outs, Some(LINK.output)) == map[]
  {
  }

  /** Height i of a tower over a lane, as an expression. */
  function TowerTerm(lane: string, i: nat): Term {
    if i == 0 then Leaf(lane, "T") else App("g", "T", [], [("x", TowerTerm(lane, i - 1))])
  }

  lemma {:induction false} TowerTermsDiffer(i: nat)
    ensures TowerTerm("X", i) != TowerTerm("Y", i)
  {
    if i > 0 {
      TowerTermsDiffer(i - 1);
      assert TowerTerm("X", i).operands[0] != TowerTerm("Y", i).operands[0];
    }
  }

  lemma TowerStep(g: Graph<string>, inputs: map<string, Term>, vals: map<string, Term>, m: string)
    requires Solves(g, FreeSem, inputs, vals) && m in g.nodes && |m| > 1 && g.nodes[m] == StepOp(m)
    ensures m in vals && m[1..] in vals && vals[m] == App("g", "T", [], [("x", vals[m[1..]])])
  {
    assert Satisfied(g, FreeSem, vals, m);
    assert StepOp(m).refs[0].name in vals;
    assert Operands(StepOp(m).refs, vals) == [("x", vals[m[1..]])];
  }

  /** In any run of a graph holding the towers, height i over argument c is the i-fold tower. */
  lemma {:induction false} TowerValue(g: Graph<string>, inputs: map<string, Term>, vals: map<string, Term>, n: nat,
                                      c: char, lane: string, i: nat)
    requires Solves(g, FreeSem, inputs, vals) && i <= n && (c == 'x' || c == 'y')
    requires forall m :: m in Towers(n) ==> m in g.nodes && |m| > 1 && g.nodes[m] == StepOp(m)
    requires [c] in vals && vals[[c]] == Leaf(lane, "T")
    ensures Nm(c, i) in vals && vals[Nm(c, i)] == TowerTerm(lane, i)
  {
    hide Nm, Solves, StepOp, Towers;
    NmFacts(c, i);
    if i > 0 {
      TowersMembers(n, Nm(c, i));
      TowerValue(g, inputs, vals, n, c, lane, i - 1);
      TowerStep(g, inputs, vals, Nm(c, i));
    }
  }

  lemma TowerFusedValues(n: nat)
    ensures WellFormed(Swapped(n).graph) && Labelled(Swapped(n).graph)
    ensures var v := RunFirst(Swapped(n).graph, FreeSem, FreeEnv);
            Nm('y', n) in v && v[Nm('y', n)] == TowerTerm("Y", n)
  {
    TowersLinkable(n);
    hide Nm, Towers, WellFormed, Run;
    var g := Swapped(n).graph;
    ShortNames(n);
    RunSolves(g, FreeSem, LaneInputs(g, FreeEnv));
    assert Known(g, "y");
    TowerValue(g, LaneInputs(g, FreeEnv), RunFirst(g, FreeSem, FreeEnv), n, 'y', "Y", n);
  }

  lemma TowerChainValues(n: nat)
    ensures Linkable(First().graph, Second(n).graph, LINK)
    ensures var v := RunSecond(First().graph, Second(n).graph, LINK, FreeSem, FreeEnv);
            Nm('x', n) in v && v[Nm('x', n)] == TowerTerm("X", n)
  {
    TowersLinkable(n);
    hide Nm, Towers, WellFormed, Run;
    var f, g := First().graph, Second(n).graph;
    ShortNames(n);
    assert Known(f, "t") && Known(g, "x");
    var handed := RunFirst(f, FreeSem, FreeEnv)["t"];
    RunSolves(g, FreeSem, LinkedInputs(g, LINK, FreeEnv, handed));
    TowerValue(g, LinkedInputs(g, LINK, FreeEnv, handed), RunSecond(f, g, LINK, FreeSem, FreeEnv), n, 'x', "X", n);
  }

  lemma SwappedLanesMatch(r: nat)
    ensures Closed(Swapped(r + 1).graph) && Closed(ChainGraph(First().graph, Second(r + 1).graph, LINK))
    ensures LanesMatch(r, Swapped(r + 1), First(), Second(r + 1), LINK)
  {
    hide ChainGraph, Towers, Nm, Closed, LaneSource, ChainNames, LabelOf, Renames, OneToOne, Rho, Swapped, First,
      Second, WellFormed, Known;
    hide Linkable, Labelled, Listed;
    var n := r + 1;
    TowersLinkable(n);
    LinkedTowers(n);
    ChainClosed(First().graph, Second(n).graph, LINK);
    TowerLanes(n);
    SwappedTwins(n, r);
    SwappedRenames(n);
    SwappedLabel(n, r, Nm('x', n));
    SwappedLabel(n, r, Nm('y', n));
  }

  lemma SwappedLabel(n: nat, r: nat, m: string)
    requires n > 0 && (m == Nm('x', n) || m == Nm('y', n))
    requires Closed(ChainGraph(First().graph, Second(n).graph, LINK)) && Closed(Swapped(n).graph)
    requires Renames(Rho(n), ChainGraph(First().graph, Second(n).graph, LINK), Swapped(n).graph)
    ensures Known(ChainGraph(First().graph, Second(n).graph, LINK), B(m)) && Known(Swapped(n).graph, m)
    ensures LabelOf(ChainGraph(First().graph, Second(n).graph, LINK), r, B(m)) == LabelOf(Swapped(n).graph, r, m)
  {
    hide ChainGraph, Towers, Nm, Closed, LabelOf, Renames, Rho, Swapped, First, Second, Known;
    SwappedKnown(n, m);
    RenamedLabel(Rho(n), ChainGraph(First().graph, Second(n).graph, LINK), Swapped(n).graph, r, B(m));
  }

  lemma SwappedTwins(n: nat, r: nat)
    requires r < n && Closed(Swapped(n).graph)
    ensures Known(Swapped(n).graph, Nm('x', n)) && Known(Swapped(n).graph, Nm('y', n))
    ensures LabelOf(Swapped(n).graph, r, Nm('x', n)) == LabelOf(Swapped(n).graph, r, Nm('y', n))
  {
    hide Nm, Towers, LabelOf, Closed;
    ShortNames(n);
    TwinLabels(Swapped(n).graph, n, r, n);
  }

  lemma SwappedKnown(n: nat, m: string)
    requires n > 0 && (m == Nm('x', n) || m == Nm('y', n))
    ensures Known(ChainGraph(First().graph, Second(n).graph, LINK), B(m))
    ensures B(m) in Rho(n) && Rho(n)[B(m)] == m
  {
    hide ChainGraph, Towers, Nm, Rho;
    TowersMembers(n, m);
    ChainEntry(First().graph, Second(n).graph, LINK, m);
    RhoFacts(n);
  }

  lemma {:induction false} TowerShallow(g: Graph<string>, n: nat, c: char, i: nat, d: nat)
    requires i <= n && i <= d && (c == 'x' || c == 'y') && [c] in g.args && [c] !in g.nodes
    requires forall m :: m in Towers(n) ==> m in g.nodes && |m| > 1 && g.nodes[m] == StepOp(m)
    ensures Shallow(g, Nm(c, i), d)
    decreases d
  {
    hide Nm, Towers;
    NmFacts(c, i);
    if i > 0 {
      TowersMembers(n, Nm(c, i));
      TowerShallow(g, n, c, i - 1, d - 1);
    }
  }

  lemma SwappedShallow(n: nat, m: string)
    requires n > 0 && m in Swapped(n).graph.nodes
    ensures Shallow(Swapped(n).graph, m, n)
  {
    hide Nm, Towers;
    var g := Swapped(n).graph;
    ShortNames(n);
    if m == "t" {
      assert Shallow(g, "z", n - 1);
    } else {
      TowersMembers(n, m);
      var i: nat :| 1 <= i <= n && (m == Nm('x', i) || m == Nm('y', i));
      TowerShallow(g, n, if m == Nm('x', i) then 'x' else 'y', i, n);
    }
  }

  /** THE DEPTH CONDITION IS NEEDED. For every number of rounds there are programs one op deeper,
      well formed and fully labelled, that are reported EQUAL although the fused program leaves
      another expression in lane P than the chain does. */
  lemma DeeperIsUnsound(r: nat)
    ensures var fused, first, second := Swapped(r + 1), First(), Second(r + 1);
            && Parsed(fused) && Parsed(first) && Parsed(second)
            && WellFormed(fused.graph) && Labelled(fused.graph) && Linkable(first.graph, second.graph, LINK)
            && (forall m :: m in fused.graph.nodes ==> Shallow(fused.graph, m, r + 1))
            && Verdict(r, fused, first, second, LINK).Done? && Verdict(r, fused, first, second, LINK).value.equal
            && "P" in LaneSource(fused.outputs, fused.outs, None) && "P" in ChainNames(first, second, LINK)
            && !SameLane(fused, first, second, LINK, FreeSem, FreeEnv, "P")
  {
    hide Verdict, Swapped, First, Second, Towers, Nm, WellFormed, LaneSource, ChainNames, Linkable, Labelled, RunFirst,
      RunSecond, Closed, Listed, Shallow;
    var n := r + 1;
    TowersLinkable(n);
    TowerLanes(n);
    forall m | m in Swapped(n).graph.nodes ensures Shallow(Swapped(n).graph, m, n) { SwappedShallow(n, m); }
    TowerVerdict(r);
    TowerFusedValues(n);
    TowerChainValues(n);
    TowerTermsDiffer(n);
  }

  lemma TowerVerdict(r: nat)
    ensures Parsed(Swapped(r + 1)) && Parsed(First()) && Parsed(Second(r + 1))
    ensures var v := Verdict(r, Swapped(r + 1), First(), Second(r + 1), LINK); v.Done? && v.value.equal
  {
    hide Verdict, Towers, Nm, WellFormed, LaneSource, ChainNames, Linkable, Labelled, LanesMatch, ChainGraph,
      OutputsKnown, Renames, OneToOne, NodeLabels;
    hide Swapped, First, Second, Rho, Closed, Listed;
    var n := r + 1;
    var fused, first, second := Swapped(n), First(), Second(n);
    TowersLinkable(n);
    TowerOutputsKnown(n);
    LinkedTowers(n);
    VerdictDone(r, fused, first, second, LINK);
    TowerLanes(n);
    SwappedRenames(n);
    SwappedLanesMatch(r);
    VerdictMeans(r, fused, first, second, LINK);
    assert "P" in LaneSource(fused.outputs, fused.outs, None);
    RenamedNodeLabels(r, Rho(n), ChainGraph(first.graph, second.graph, LINK), fused.graph);
  }

  lemma LinkedTowers(n: nat)
    ensures LINK.output in First().graph.nodes && LINK.arg in Second(n).graph.args
  {
    hide Towers, TowerNodes;
  }

  lemma TowerOutputsKnown(n: nat)
    requires n > 0
    ensures var c := ChainGraph(First().graph, Second(n).graph, LINK);
            && OutputsKnown(First().outputs, First().outs, Some(LINK.output), SideA, c)
            && OutputsKnown(Second(n).outputs, Second(n).outs, None, SideB, c)
            && OutputsKnown(Swapped(n).outputs, Swapped(n).outs, None, Same, Swapped(n).graph)
  {
    hide ChainGraph, Towers, Nm;
    TowersMembers(n, Nm('x', n));
    TowersMembers(n, Nm('y', n));
    SwappedKnown(n, Nm('x', n));
    SwappedKnown(n, Nm('y', n));
  }
}
