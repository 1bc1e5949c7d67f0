/** The converse directions for tools/mil_graph_equiv.py: the output comparison is exact for
    programs no deeper than the rounds, and a renamed copy of the chain is always EQUAL. */
module FusionExact {
  import opened Basics
  import opened MilGraph
  import opened FusionCheck
  import opened FusionTheorems

  // ---- the free meaning: a value is the whole expression that computed it ----

  datatype Term =
    | Leaf(lane: string, kind: string)
    | App(op: string, kind: string, literals: seq<(string, string)>, operands: seq<(string, Term)>)

  function FreeSem(op: string, kind: string, literals: seq<(string, string)>, operands: seq<(string, Term)>): Term {
    App(op, kind, literals, operands)
  }

  function FreeEnv(lane: string, kind: string): Term {
    Leaf(lane, kind)
  }

  lemma SameOperands<N(!new), M(!new)>(p: seq<Ref<N>>, q: seq<Ref<M>>, gv: map<N, Term>, hv: map<M, Term>)
    requires forall i :: 0 <= i < |p| ==> p[i].name in gv
    requires forall i :: 0 <= i < |q| ==> q[i].name in hv
    requires Operands(p, gv) == Operands(q, hv)
    ensures |p| == |q|
    ensures forall i :: 0 <= i < |p| ==> p[i].key == q[i].key && gv[p[i].name] == hv[q[i].name]
  {
    assert |p| == |Operands(p, gv)| == |q|;
    forall i | 0 <= i < |p|
      ensures p[i].key == q[i].key && gv[p[i].name] == hv[q[i].name]
    {
      assert Operands(p, gv)[i] == Operands(q, hv)[i];
    }
  }

  lemma SameTermSameOp<N(!new), M(!new)>(
      g: Graph<N>, h: Graph<M>, a: N, b: M, gin: map<N, Term>, hin: map<M, Term>, gv: map<N, Term>, hv: map<M, Term>)
    requires Solves(g, FreeSem, gin, gv) && Solves(h, FreeSem, hin, hv)
    requires ReadsLanes(g, FreeEnv, gin) && ReadsLanes(h, FreeEnv, hin)
    requires Known(g, a) && Known(h, b) && gv[a] == hv[b]
    ensures LabelOf(g, 0, a) == LabelOf(h, 0, b) && (a in g.nodes <==> b in h.nodes)
    ensures a !in g.nodes ==> forall r: nat :: LabelOf(g, r, a) == LabelOf(h, r, b)
    ensures a in g.nodes ==>
              var p, q := g.nodes[a].refs, h.nodes[b].refs;
              && |p| == |q|
              && forall i :: 0 <= i < |p| ==>
                   && p[i].key == q[i].key && p[i].name in gv && q[i].name in hv
                   && gv[p[i].name] == hv[q[i].name]
  {
    assert a in g.nodes ==> Satisfied(g, FreeSem, gv, a);
    assert b in h.nodes ==> Satisfied(h, FreeSem, hv, b);
    if a in g.nodes {
      SameOperands(g.nodes[a].refs, h.nodes[b].refs, gv, hv);
    }
  }

  /** Tensors computed by the same expression carry the same label after any number of rounds. */
  lemma {:induction false} SameTermSameLabel<N(!new), M(!new)>(
      g: Graph<N>, h: Graph<M>, r: nat, a: N, b: M,
      gin: map<N, Term>, hin: map<M, Term>, gv: map<N, Term>, hv: map<M, Term>)
    requires Solves(g, FreeSem, gin, gv) && Solves(h, FreeSem, hin, hv)
    requires ReadsLanes(g, FreeEnv, gin) && ReadsLanes(h, FreeEnv, hin)
    requires Known(g, a) && Known(h, b) && gv[a] == hv[b]
    ensures LabelOf(g, r, a) == LabelOf(h, r, b)
    decreases r
  {
    hide ReadsLanes, Operands, Closed, LabelOf, Satisfied;
    SameTermSameOp(g, h, a, b, gin, hin, gv, hv);
    if a in g.nodes && r > 0 {
      var o, p := g.nodes[a], h.nodes[b];
      SameTermSameLabel(g, h, r - 1, a, b, gin, hin, gv, hv);
      forall i | 0 <= i < |o.refs|
        ensures Known(g, o.refs[i].name) && Known(h, p.refs[i].name)
        ensures LabelOf(g, r - 1, o.refs[i].name) == LabelOf(h, r - 1, p.refs[i].name)
      {
        SameTermSameLabel(g, h, r - 1, o.refs[i].name, p.refs[i].name, gin, hin, gv, hv);
      }
      NextLabelEqual(g, h, r - 1, a, b);
    }
  }

  lemma SameTensorSameLabel(rounds: nat, fused: Graph<string>, first: Graph<string>, second: Graph<string>, link: Link,
                            src: string, dst: Side)
    requires WellFormed(fused) && Labelled(fused) && Linkable(first, second, link)
    requires Closed(fused) && Closed(ChainGraph(first, second, link))
    requires Known(fused, src) && Known(ChainGraph(first, second, link), dst)
    requires var cv := Merged(RunFirst(first, FreeSem, FreeEnv), RunSecond(first, second, link, FreeSem, FreeEnv),
             link);
             dst in cv && RunFirst(fused, FreeSem, FreeEnv)[src] == cv[dst]
    ensures LabelOf(fused, rounds, src) == LabelOf(ChainGraph(first, second, link), rounds, dst)
  {
    hide ChainGraph, Merged, IsMerged, WellFormed;
    var c := ChainGraph(first, second, link);
    var cv := Merged(RunFirst(first, FreeSem, FreeEnv), RunSecond(first, second, link, FreeSem, FreeEnv), link);
    RunSolves(fused, FreeSem, LaneInputs(fused, FreeEnv));
    ChainRunSolves(first, second, link, FreeSem, FreeEnv);
    ChainReadsLanes(first, second, link, FreeEnv);
    SameTermSameLabel(fused, c, rounds, src, dst, LaneInputs(fused, FreeEnv), ChainInputs(c, FreeEnv),
                      RunFirst(fused, FreeSem, FreeEnv), cv);
  }

  /** Compare writes the fused lanes from the same expressions as the chain, and at least one. */
  ghost predicate SameExpressions(fused: Program, first: Program, second: Program, link: Link)
    requires WellFormed(fused.graph) && Labelled(fused.graph) && Linkable(first.graph, second.graph, link)
  {
    var src, dst := LaneSource(fused.outputs, fused.outs, None), ChainNames(first, second, link);
    && src != map[] && src.Keys == dst.Keys
    && forall lane :: lane in src ==> SameLane(fused, first, second, link, FreeSem, FreeEnv, lane)
  }

  lemma SameExpressionsMatch(rounds: nat, fused: Program, first: Program, second: Program, link: Link)
    requires WellFormed(fused.graph) && Labelled(fused.graph) && Linkable(first.graph, second.graph, link)
    requires Closed(fused.graph) && Closed(ChainGraph(first.graph, second.graph, link))
    requires SameExpressions(fused, first, second, link)
    requires forall lane :: lane in ChainNames(first, second, link) ==>
                              Known(ChainGraph(first.graph, second.graph, link), ChainNames(first, second, link)[lane])
    ensures LanesMatch(rounds, fused, first, second, link)
  {
    hide ChainGraph, ChainNames, LaneSource, WellFormed, RunFirst, RunSecond, LabelOf, Merged, Linkable, Labelled,
      Closed;
    var src, dst := LaneSource(fused.outputs, fused.outs, None), ChainNames(first, second, link);
    forall lane | lane in src
      ensures Known(fused.graph, src[lane])
      ensures LabelOf(fused.graph, rounds, src[lane]) ==
              LabelOf(ChainGraph(first.graph, second.graph, link), rounds, dst[lane])
    {
      assert SameLane(fused, first, second, link, FreeSem, FreeEnv, lane);
      SameLaneMerged(fused, first, second, link, lane);
      SameTensorSameLabel(rounds, fused.graph, first.graph, second.graph, link, src[lane], dst[lane]);
    }
  }

  lemma SameLaneMerged(fused: Program, first: Program, second: Program, link: Link, lane: string)
    requires WellFormed(fused.graph) && Labelled(fused.graph) && Linkable(first.graph, second.graph, link)
    requires lane in LaneSource(fused.outputs, fused.outs, None) && lane in ChainNames(first, second, link)
    requires SameLane(fused, first, second, link, FreeSem, FreeEnv, lane)
    requires Known(ChainGraph(first.graph, second.graph, link), ChainNames(first, second, link)[lane])
    ensures var cv := Merged(RunFirst(first.graph, FreeSem, FreeEnv),
            RunSecond(first.graph, second.graph, link, FreeSem, FreeEnv), link);
            var src, dst := LaneSource(fused.outputs, fused.outs, None)[lane], ChainNames(first, second, link)[lane];
            && Known(fused.graph, src) && dst in cv && RunFirst(fused.graph, FreeSem, FreeEnv)[src] == cv[dst]
  {
  }

  // ---- the multiset of ops ----

  /** How often a value occurs, under two names of the values. */
  lemma {:induction false} SameCount<X, Y>(xs: seq<X>, ys: seq<Y>, x: X, y: Y)
    requires |xs| == |ys| && forall i :: 0 <= i < |xs| ==> (xs[i] == x <==> ys[i] == y)
    ensures multiset(xs)[x] == multiset(ys)[y]
  {
    if xs != [] {
      var n := |xs| - 1;
      SameCount(xs[..n], ys[..n], x, y);
      assert xs == xs[..n] + [xs[n]] && ys == ys[..n] + [ys[n]];
    }
  }

  /** One way of telling values apart finds two lists equal exactly when another does that agrees with it
      inside the first list and between the two. */
  lemma SameMultisets<X, Y>(a: seq<X>, b: seq<X>, s: seq<Y>, t: seq<Y>)
    requires |a| == |s| && |b| == |t|
    requires forall i, j :: 0 <= i < |a| && 0 <= j < |a| ==> (a[i] == a[j] <==> s[i] == s[j])
    requires forall i, j :: 0 <= i < |a| && 0 <= j < |b| ==> (a[i] == b[j] <==> s[i] == t[j])
    ensures multiset(a) == multiset(b) <==> multiset(s) == multiset(t)
  {
    if multiset(a) == multiset(b) {
      OneWay(a, b, s, t);
    }
    if multiset(s) == multiset(t) {
      OneWay(s, t, a, b);
    }
  }

  lemma OneWay<X, Y>(a: seq<X>, b: seq<X>, s: seq<Y>, t: seq<Y>)
    requires |a| == |s| && |b| == |t| && multiset(a) == multiset(b)
    requires forall i, j :: 0 <= i < |a| && 0 <= j < |a| ==> (a[i] == a[j] <==> s[i] == s[j])
    requires forall i, j :: 0 <= i < |a| && 0 <= j < |b| ==> (a[i] == b[j] <==> s[i] == t[j])
    ensures multiset(s) == multiset(t)
  {
    forall y: Y
      ensures multiset(s)[y] == multiset(t)[y]
    {
      if y in t {
        FoundToo(a, b, s, t, y);
      }
      if y in s {
        var i :| 0 <= i < |s| && s[i] == y;
        SameCount(a, s, a[i], y);
        SameCount(b, t, a[i], y);
      } else {
        assert multiset(s)[y] == 0 == multiset(t)[y];
      }
    }
  }

  lemma FoundToo<X, Y>(a: seq<X>, b: seq<X>, s: seq<Y>, t: seq<Y>, y: Y)
    requires |a| == |s| && |b| == |t| && multiset(a) == multiset(b) && y in t
    requires forall i, j :: 0 <= i < |a| && 0 <= j < |b| ==> (a[i] == b[j] <==> s[i] == t[j])
    ensures y in s
  {
    var j :| 0 <= j < |t| && t[j] == y;
    assert b[j] in multiset(b);
    assert b[j] in multiset(a);
    var i :| 0 <= i < |a| && a[i] == b[j];
    assert s[i] == y;
  }

  ghost predicate Valued<N(!new)>(g: Graph<N>, vals: map<N, Term>) {
    forall i :: 0 <= i < |g.order| ==> g.order[i] in vals
  }

  /** The expressions the ops of a graph compute, in written order. */
  ghost function OpTerms<N(!new)>(g: Graph<N>, vals: map<N, Term>): seq<Term>
    requires Valued(g, vals)
  {
    seq(|g.order|, i requires 0 <= i < |g.order| => vals[g.order[i]])
  }

  lemma RunValued(g: Graph<string>, inputs: map<string, Term>)
    requires WellFormed(g) && g.args.Keys == inputs.Keys
    ensures Valued(g, Run(g, FreeSem, inputs))
  {
    var vals := Run(g, FreeSem, inputs);
    forall i | 0 <= i < |g.order|
      ensures g.order[i] in vals
    {
      assert g.order[i] in g.nodes && Known(g, g.order[i]);
    }
  }

  lemma ProgramsValued(fused: Graph<string>, first: Graph<string>, second: Graph<string>, link: Link)
    requires WellFormed(fused) && Labelled(fused) && Linkable(first, second, link)
    ensures Valued(fused, RunFirst(fused, FreeSem, FreeEnv)) && Valued(first, RunFirst(first, FreeSem, FreeEnv))
    ensures Valued(second, RunSecond(first, second, link, FreeSem, FreeEnv))
  {
    hide WellFormed, Valued, Run;
    assert Known(first, link.output);
    RunValued(fused, LaneInputs(fused, FreeEnv));
    RunValued(first, LaneInputs(first, FreeEnv));
    RunValued(second, LinkedInputs(second, link, FreeEnv, RunFirst(first, FreeSem, FreeEnv)[link.output]));
  }

  /** The fused ops compute, expression for expression, what the ops of FIRST and of SECOND compute. */
  ghost predicate SameOps(fused: Graph<string>, first: Graph<string>, second: Graph<string>, link: Link)
    requires WellFormed(fused) && Labelled(fused) && Linkable(first, second, link)
  {
    ProgramsValued(fused, first, second, link);
    multiset(OpTerms(fused, RunFirst(fused, FreeSem, FreeEnv)))
    == multiset(OpTerms(first, RunFirst(first, FreeSem, FreeEnv))) + multiset(OpTerms(second,
      RunSecond(first, second, link, FreeSem, FreeEnv)))
  }

  ghost function ChainValues(first: Graph<string>, second: Graph<string>, link: Link): map<Side, Term>
    requires Linkable(first, second, link)
  {
    Merged(RunFirst(first, FreeSem, FreeEnv), RunSecond(first, second, link, FreeSem, FreeEnv), link)
  }

  lemma ChainPlaces(first: Graph<string>, second: Graph<string>, link: Link)
    ensures var order := ChainGraph(first, second, link).order;
            && |order| == |first.order| + |second.order|
            && forall i :: 0 <= i < |order| ==>
                 order[i] == if i < |first.order| then A(first.order[i]) else B(second.order[i - |first.order|])
  {
    hide Joined;
  }

  lemma MergedAt(v1: map<string, Term>, v2: map<string, Term>, link: Link, n: string)
    ensures n in v1 ==> A(n) in Merged(v1, v2, link) && Merged(v1, v2, link)[A(n)] == v1[n]
    ensures n in v2 && n != link.arg ==> B(n) in Merged(v1, v2, link) && Merged(v1, v2, link)[B(n)] == v2[n]
  {
  }

  /** The chain's ops are FIRST's and then SECOND's. */
  lemma ChainTerms(first: Graph<string>, second: Graph<string>, link: Link)
    requires Linkable(first, second, link)
    requires Valued(first, RunFirst(first, FreeSem, FreeEnv))
             && Valued(second, RunSecond(first, second, link, FreeSem, FreeEnv))
    ensures Valued(ChainGraph(first, second, link), ChainValues(first, second, link))
    ensures OpTerms(ChainGraph(first, second, link), ChainValues(first, second, link))
            == OpTerms(first, RunFirst(first, FreeSem, FreeEnv)) + OpTerms(second,
              RunSecond(first, second, link, FreeSem, FreeEnv))
  {
    hide RunFirst, RunSecond, ChainGraph, Merged, IsMerged, WellFormed;
    var c, cv := ChainGraph(first, second, link), ChainValues(first, second, link);
    var v1, v2 := RunFirst(first, FreeSem, FreeEnv), RunSecond(first, second, link, FreeSem, FreeEnv);
    ChainPlaces(first, second, link);
    forall i | 0 <= i < |c.order|
      ensures c.order[i] in cv
      ensures cv[c.order[i]] == if i < |first.order| then v1[first.order[i]] else v2[second.order[i - |first.order|]]
    {
      if i < |first.order| {
        MergedAt(v1, v2, link, first.order[i]);
      } else {
        NotTheLink(second, link, i - |first.order|);
        MergedAt(v1, v2, link, second.order[i - |first.order|]);
      }
    }
  }

  lemma NotTheLink(second: Graph<string>, link: Link, i: nat)
    requires WellFormed(second) && link.arg in second.args && i < |second.order|
    ensures second.order[i] != link.arg
  {
    assert second.order[i] in second.nodes;
  }

  /** Inside the fused program labels tell apart exactly what expressions do. */
  lemma FusedLabelsExact(rounds: nat, g: Graph<string>, m: string, n: string)
    requires WellFormed(g) && Labelled(g) && Closed(g) && m in g.nodes && n in g.nodes && Shallow(g, m, rounds)
    ensures var v := RunFirst(g, FreeSem, FreeEnv);
            m in v && n in v && (LabelOf(g, rounds, m) == LabelOf(g, rounds, n) <==> v[m] == v[n])
  {
    hide WellFormed, LabelOf, Shallow;
    var ins, v := LaneInputs(g, FreeEnv), RunFirst(g, FreeSem, FreeEnv);
    RunSolves(g, FreeSem, ins);
    assert Known(g, m) && Known(g, n);
    if LabelOf(g, rounds, m) == LabelOf(g, rounds, n) {
      EqualLabelsEqualValues(g, g, rounds, m, n, FreeSem, FreeEnv, ins, ins, v, v);
    }
    if v[m] == v[n] {
      SameTermSameLabel(g, g, rounds, m, n, ins, ins, v, v);
    }
  }

  /** And so they do between the two programs. */
  lemma CrossLabelsExact(rounds: nat, fused: Graph<string>, first: Graph<string>, second: Graph<string>, link: Link,
                         m: string, n: Side)
    requires WellFormed(fused) && Labelled(fused) && Linkable(first, second, link)
    requires Closed(fused) && Closed(ChainGraph(first, second, link))
    requires m in fused.nodes && n in ChainGraph(first, second, link).nodes && Shallow(fused, m, rounds)
    ensures var v, cv := RunFirst(fused, FreeSem, FreeEnv), ChainValues(first, second, link);
            && m in v && n in cv
            && (LabelOf(fused, rounds, m) == LabelOf(ChainGraph(first, second, link), rounds, n) <==> v[m] == cv[n])
  {
    hide ChainGraph, Merged, IsMerged, WellFormed, LabelOf, Shallow;
    var c, cv := ChainGraph(first, second, link), ChainValues(first, second, link);
    var ins, v := LaneInputs(fused, FreeEnv), RunFirst(fused, FreeSem, FreeEnv);
    RunSolves(fused, FreeSem, ins);
    ChainRunSolves(first, second, link, FreeSem, FreeEnv);
    ChainReadsLanes(first, second, link, FreeEnv);
    assert Known(fused, m) && Known(c, n);
    if LabelOf(fused, rounds, m) == LabelOf(c, rounds, n) {
      EqualLabelsEqualValues(fused, c, rounds, m, n, FreeSem, FreeEnv, ins, ChainInputs(c, FreeEnv), v, cv);
    }
    if v[m] == cv[n] {
      SameTermSameLabel(fused, c, rounds, m, n, ins, ChainInputs(c, FreeEnv), v, cv);
    }
  }

  /** The op labels match as multisets exactly when the ops compute the same expressions. */
  lemma OpsExact(rounds: nat, fused: Graph<string>, first: Graph<string>, second: Graph<string>, link: Link)
    requires WellFormed(fused) && Labelled(fused) && Linkable(first, second, link)
    requires Listed(fused) && Closed(fused) && Listed(ChainGraph(first, second, link))
             && Closed(ChainGraph(first, second, link))
    requires forall n :: n in fused.nodes ==> Shallow(fused, n, rounds)
    ensures multiset(NodeLabels(fused, rounds)) == multiset(NodeLabels(ChainGraph(first, second, link), rounds)) <==>
              SameOps(fused, first, second, link)
  {
    hide ChainGraph, ChainValues, WellFormed, Labelled, Linkable, LabelOf, Shallow, RunFirst, RunSecond, Closed;
    ProgramsValued(fused, first, second, link);
    ChainTerms(first, second, link);
    var c, v, cv := ChainGraph(first, second, link), RunFirst(fused, FreeSem, FreeEnv),
      ChainValues(first, second, link);
    var a, b, s, t := NodeLabels(fused, rounds), NodeLabels(c, rounds), OpTerms(fused, v), OpTerms(c, cv);
    forall i, j | 0 <= i < |a| && 0 <= j < |a|
      ensures a[i] == a[j] <==> s[i] == s[j]
    {
      assert fused.order[i] in fused.nodes && fused.order[j] in fused.nodes;
      FusedLabelsExact(rounds, fused, fused.order[i], fused.order[j]);
    }
    forall i, j | 0 <= i < |a| && 0 <= j < |b|
      ensures a[i] == b[j] <==> s[i] == t[j]
    {
      assert fused.order[i] in fused.nodes && c.order[j] in c.nodes;
      CrossLabelsExact(rounds, fused, first, second, link, fused.order[i], c.order[j]);
    }
    SameMultisets(a, b, s, t);
  }

  /** EXACTNESS. For programs no deeper than the rounds, EQUAL says neither more nor less than this: the
      fused ops compute the same expressions over the lanes, as a multiset, as the ops of the two
      programs, and every lane is left the same expression on both sides. */
  lemma VerdictExact(rounds: nat, fused: Program, first: Program, second: Program, link: Link)
    requires Parsed(fused) && Parsed(first) && Parsed(second)
    requires WellFormed(fused.graph) && Labelled(fused.graph) && Linkable(first.graph, second.graph, link)
    requires forall n :: n in fused.graph.nodes ==> Shallow(fused.graph, n, rounds)
    requires Verdict(rounds, fused, first, second, link).Done?
    ensures var r := Verdict(rounds, fused, first, second, link).value;
            && (r.labelsEqual <==> SameOps(fused.graph, first.graph, second.graph, link))
            && (r.equal <==>
                   SameOps(fused.graph, first.graph, second.graph, link)
                   && SameExpressions(fused, first, second, link))
  {
    hide Verdict, ChainGraph, ChainNames, LaneSource, WellFormed, Labelled, Linkable, Shallow, SameLane, SameOps;
    VerdictMeans(rounds, fused, first, second, link);
    OpsExact(rounds, fused.graph, first.graph, second.graph, link);
    var r := Verdict(rounds, fused, first, second, link).value;
    if r.equal {
      FusionSound(rounds, fused, first, second, link, FreeSem, FreeEnv);
    }
    if r.labelsEqual && SameExpressions(fused, first, second, link) {
      SameExpressionsMatch(rounds, fused, first, second, link);
    }
  }

  // ---- completeness: a renamed copy of the chain ----

  ghost predicate OneToOne<N, M>(rho: map<N, M>) {
    forall x, y :: x in rho && y in rho && rho[x] == rho[y] ==> x == y
  }

  function Looked<N(==)>(xs: seq<N>, l: map<N, Label>): seq<Label>
    requires forall i :: 0 <= i < |xs| ==> xs[i] in l
  {
    seq(|xs|, i requires 0 <= i < |xs| => l[xs[i]])
  }

  function Without<N>(s: seq<N>, j: nat): seq<N>
    requires j < |s|
  {
    s[..j] + s[j + 1..]
  }

  lemma LookedWithout<N(!new)>(xs: seq<N>, l: map<N, Label>, j: nat)
    requires j < |xs| && forall i :: 0 <= i < |xs| ==> xs[i] in l
    ensures multiset(Looked(xs, l)) == multiset(Looked(Without(xs, j), l)) + multiset{l[xs[j]]}
  {
    var s := Looked(xs, l);
    assert s == s[..j] + [s[j]] + s[j + 1..];
    assert Looked(Without(xs, j), l) == s[..j] + s[j + 1..];
  }

  /** Two orderings of the same names, one renamed, give the same multiset of labels. */
  lemma {:induction false} RenamedMultiset<N(!new),
                                                             M(!new)>(xs: seq<N>, ys: seq<M>, rho: map<N, M>, lx: map<N,
                                                             Label>, ly: map<M, Label>)
    requires Distinct(xs) && Distinct(ys) && OneToOne(rho)
    requires |xs| == |ys|
    requires forall x :: x in xs ==> x in rho && x in lx && rho[x] in ys
    requires forall y :: y in ys ==> y in ly
    requires forall x :: x in xs ==> lx[x] == ly[rho[x]]
    ensures multiset(Looked(xs, lx)) == multiset(Looked(ys, ly))
    decreases |xs|
  {
    if xs != [] {
      var k: nat := |xs| - 1;
      var j :| 0 <= j < |ys| && ys[j] == rho[xs[k]];
      var xs', ys' := Without(xs, k), Without(ys, j);
      assert xs' == xs[..k];
      WithoutMembers(xs, k);
      WithoutMembers(ys, j);
      RenamedMultiset(xs', ys', rho, lx, ly);
      LookedWithout(xs, lx, k);
      LookedWithout(ys, ly, j);
    }
  }

  lemma WithoutMembers<N(!new)>(s: seq<N>, j: nat)
    requires Distinct(s) && j < |s|
    ensures Distinct(Without(s, j))
    ensures forall x :: x in Without(s, j) <==> x in s && x != s[j]
  {
    forall x | x in s && x != s[j]
      ensures x in Without(s, j)
    {
      var i :| 0 <= i < |s| && s[i] == x;
      assert Without(s, j)[if i < j then i else i - 1] == x;
    }
  }

  /** `fused` is the chain of the two programs with its tensors renamed, op order aside, and it
      names its output lanes after the chain's. */
  ghost predicate RenamedChain(rho: map<Side, string>, fused: Program, first: Program, second: Program, link: Link) {
    var c := ChainGraph(first.graph, second.graph, link);
    && OneToOne(rho) && Renames(rho, c, fused.graph)
    && |fused.graph.order| == |c.order|
    && (forall lane :: lane in LaneSource(fused.outputs, fused.outs, None) <==> lane in ChainNames(first, second, link))
    && (forall lane :: lane in ChainNames(first, second, link) ==>
          var n := ChainNames(first, second, link)[lane];
          n in rho && LaneSource(fused.outputs, fused.outs, None)[lane] == rho[n])
  }

  /** Every output that is compared names a tensor of its graph. */
  ghost predicate OutputsKnown<N(!new)>(outputs: seq<string>, outs: map<string, string>, skip: Option<string>,
                                        side: string -> N, g: Graph<N>) {
    forall n :: n in outputs && Counts(outs, skip, n) ==> Known(g, side(n))
  }

  lemma {:induction false} CollectedDone<N(!new)>(
      outputs: seq<string>, outs: map<string, string>, skip: Option<string>, side: string -> N,
      g: Graph<N>, rounds: nat, start: map<string, Label>)
    requires Closed(g)
    ensures Collected(outputs, outs, skip, side, LabelMap(g, rounds), start).Done? <==>
            OutputsKnown(outputs, outs, skip, side, g)
  {
    if outputs != [] {
      var last := outputs[|outputs| - 1];
      assert outputs == outputs[..|outputs| - 1] + [last];
      CollectedDone(outputs[..|outputs| - 1], outs, skip, side, g, rounds, start);
      assert Known(g, side(last)) <==> side(last) in LabelMap(g, rounds);
    }
  }

  lemma ChainOutDone(rounds: nat, first: Program, second: Program, link: Link, c: Graph<Side>)
    requires Closed(c)
    ensures ChainOut(first, second, link, LabelMap(c, rounds)).Done? <==>
              && OutputsKnown(first.outputs, first.outs, Some(link.output), SideA, c)
              && OutputsKnown(second.outputs, second.outs, None, SideB, c)
  {
    hide LabelMap, OutputsKnown, Closed;
    CollectedDone(first.outputs, first.outs, Some(link.output), SideA, c, rounds, map[]);
    var chainA := Collected(first.outputs, first.outs, Some(link.output), SideA, LabelMap(c, rounds), map[]);
    if chainA.Done? {
      CollectedDone(second.outputs, second.outs, None, SideB, c, rounds, chainA.value);
    }
  }

  /** Compare returns a report exactly when the link names an op of FIRST and an argument of
      SECOND and every compared output is a tensor of its graph. */
  lemma VerdictDone(rounds: nat, fused: Program, first: Program, second: Program, link: Link)
    requires Parsed(fused) && Parsed(first) && Parsed(second)
    ensures var c := ChainGraph(first.graph, second.graph, link);
            Verdict(rounds, fused, first, second, link).Done? <==>
              && link.output in first.graph.nodes && link.arg in second.graph.args
              && OutputsKnown(first.outputs, first.outs, Some(link.output), SideA, c)
              && OutputsKnown(second.outputs, second.outs, None, SideB, c)
              && OutputsKnown(fused.outputs, fused.outs, None, Same, fused.graph)
  {
    if link.output in first.graph.nodes && link.arg in second.graph.args {
      hide ChainGraph, MakeReport, LabelMap, OutputsKnown, Closed, Listed, NodeLabels, ChainOut;
      var c := ChainGraph(first.graph, second.graph, link);
      ChainListed(first.graph, second.graph, link);
      ChainClosed(first.graph, second.graph, link);
      ChainOutDone(rounds, first, second, link, c);
      CollectedDone(fused.outputs, fused.outs, None, Same, fused.graph, rounds, map[]);
    }
  }

  lemma RenamedOp(rounds: nat, rho: map<Side, string>, g: Graph<Side>, h: Graph<string>, x: Side)
    requires Closed(g) && Closed(h) && Listed(g) && Listed(h) && Renames(rho, g, h) && x in g.order
    ensures x in rho && rho[x] in h.order && Known(g, x) && Known(h, rho[x])
    ensures LabelOf(g, rounds, x) == LabelOf(h, rounds, rho[x])
  {
    assert Known(g, x);
    RenamedLabel(rho, g, h, rounds, x);
  }

  lemma RenamedNodeLabels(rounds: nat, rho: map<Side, string>, g: Graph<Side>, h: Graph<string>)
    requires Closed(g) && Closed(h) && Listed(g) && Listed(h) && OneToOne(rho) && Renames(rho, g, h)
    requires |g.order| == |h.order|
    ensures multiset(NodeLabels(h, rounds)) == multiset(NodeLabels(g, rounds))
  {
    hide Closed, Renames, LabelOf, OneToOne;
    var lg, lh := LabelMap(g, rounds), LabelMap(h, rounds);
    forall x | x in g.order
      ensures x in rho && x in lg && rho[x] in h.order && rho[x] in lh && lg[x] == lh[rho[x]]
    {
      RenamedOp(rounds, rho, g, h, x);
    }
    RenamedMultiset(g.order, h.order, rho, lg, lh);
    assert Looked(g.order, lg) == NodeLabels(g, rounds);
    assert Looked(h.order, lh) == NodeLabels(h, rounds);
  }

  lemma RenamedLanesMatch(rounds: nat, rho: map<Side, string>, fused: Program, first: Program, second: Program,
                          link: Link)
    requires Closed(fused.graph) && Closed(ChainGraph(first.graph, second.graph, link))
    requires RenamedChain(rho, fused, first, second, link)
    requires forall lane :: lane in ChainNames(first, second, link) ==>
                              Known(ChainGraph(first.graph, second.graph, link), ChainNames(first, second, link)[lane])
    ensures LanesMatch(rounds, fused, first, second, link)
  {
    hide ChainGraph, ChainNames, LaneSource, Closed, LabelOf, Renames, OneToOne;
    var src, dst := LaneSource(fused.outputs, fused.outs, None), ChainNames(first, second, link);
    var c := ChainGraph(first.graph, second.graph, link);
    forall lane | lane in src
      ensures Known(fused.graph, src[lane])
      ensures LabelOf(fused.graph, rounds, src[lane]) == LabelOf(c, rounds, dst[lane])
    {
      RenamedLabel(rho, c, fused.graph, rounds, dst[lane]);
    }
  }

  /** COMPLETENESS. A renamed copy of the chain is reported EQUAL, however deep it is, whatever
      the number of rounds and the order of its ops. */
  lemma RenamedCopyEqual(rounds: nat, rho: map<Side, string>, fused: Program, first: Program, second: Program,
                         link: Link)
    requires Parsed(fused) && Parsed(first) && Parsed(second)
    requires RenamedChain(rho, fused, first, second, link) && LaneSource(fused.outputs, fused.outs, None) != map[]
    requires Verdict(rounds, fused, first, second, link).Done?
    ensures Verdict(rounds, fused, first, second, link).value.equal
  {
    hide ChainGraph, ChainNames, LaneSource, Closed, Listed, LabelOf, Renames, OneToOne, Verdict;
    VerdictMeans(rounds, fused, first, second, link);
    RenamedNodeLabels(rounds, rho, ChainGraph(first.graph, second.graph, link), fused.graph);
    RenamedLanesMatch(rounds, rho, fused, first, second, link);
  }
}
