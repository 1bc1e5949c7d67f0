/** tools/mil_graph_equiv.py: MIL programs as labelled DAGs, their Weisfeiler-Lehman labels and
    their meaning. A label stands for the SHA-1 text the tool hashes; it is a datatype, so two
    labels are equal only when the hashed texts have the same parts. */
module MilGraph {

  /** One tensor operand of an op: the keyword it is passed under and the name of its producer. */
  datatype Ref<N> = Ref(key: string, name: N)

  /** One op. Literals have their BLOBFILE offsets masked; tensor names are not part of it. */
  datatype Op<N> = Op(op: string, kind: string, literals: seq<(string, string)>, refs: seq<Ref<N>>)

  /** The ops by name, the order they were written in, the arguments (name to type) and the
      lane label of each labelled argument. */
  datatype Graph<N(==)> = Graph(order: seq<N>, nodes: map<N, Op<N>>, args: map<N, string>, lanes: map<N, string>)

  datatype Label =
    | ArgLabel(lane: string, kind: string)
    | TextLabel(op: string, kind: string, literals: seq<(string, string)>)
    | Digest(own: Label, operands: seq<(string, Label)>)

  /** The number of refinement rounds the tool runs. */
  const ROUNDS: nat := 64

  ghost predicate Distinct<N>(s: seq<N>) {
    forall i, j :: 0 <= i < j < |s| ==> s[i] != s[j]
  }

  /** `order` lists the keys of `nodes`, once each. */
  ghost predicate Listed<N(!new)>(g: Graph<N>) {
    && Distinct(g.order)
    && (forall n :: n in g.order <==> n in g.nodes)
  }

  predicate Known<N(==, !new)>(g: Graph<N>, n: N) {
    n in g.nodes || n in g.args
  }

  /** Every operand names an op or an argument. */
  ghost predicate Closed<N(!new)>(g: Graph<N>) {
    forall n, i :: n in g.nodes && 0 <= i < |g.nodes[n].refs| ==> Known(g, g.nodes[n].refs[i].name)
  }

  /** `m` is an argument or one of the first `i` ops. */
  predicate Before<N(==, !new)>(g: Graph<N>, i: nat, m: N)
    requires i <= |g.order|
  {
    if i == 0 then m in g.args else m == g.order[i - 1] || Before(g, i - 1, m)
  }

  lemma {:induction false} BeforeMeans<N(!new)>(g: Graph<N>, i: nat, m: N)
    requires i <= |g.order|
    ensures Before(g, i, m) <==> m in g.args || m in g.order[..i]
  {
    if i > 0 {
      BeforeMeans(g, i - 1, m);
      assert g.order[..i] == g.order[..i - 1] + [g.order[i - 1]];
    }
  }

  lemma AllBefore<N(!new)>(g: Graph<N>)
    requires Listed(g)
    ensures forall m :: Before(g, |g.order|, m) <==> Known(g, m)
  {
    forall m
      ensures Before(g, |g.order|, m) <==> Known(g, m)
    {
      BeforeMeans(g, |g.order|, m);
      assert g.order[..|g.order|] == g.order;
    }
  }

  /** Every operand of op `i` is an argument or an earlier op. */
  ghost predicate RefsBefore<N(!new)>(g: Graph<N>, i: nat)
    requires Listed(g) && i < |g.order|
  {
    forall k :: 0 <= k < |g.nodes[g.order[i]].refs| ==> Before(g, i, g.nodes[g.order[i]].refs[k].name)
  }

  /** What parse_mil guarantees when no name is assigned twice: an operand is an argument or an
      op written earlier. */
  ghost predicate WellFormed<N(!new)>(g: Graph<N>) {
    && Listed(g)
    && (forall n :: n in g.nodes ==> n !in g.args)
    && (forall i :: 0 <= i < |g.order| ==> RefsBefore(g, i))
  }

  lemma WellFormedIsClosed<N(!new)>(g: Graph<N>)
    requires WellFormed(g)
    ensures Closed(g)
  {
    forall n, k | n in g.nodes && 0 <= k < |g.nodes[n].refs|
      ensures Known(g, g.nodes[n].refs[k].name)
    {
      var i :| 0 <= i < |g.order| && g.order[i] == n;
      assert RefsBefore(g, i);
      BeforeMeans(g, i, g.nodes[n].refs[k].name);
    }
  }

  // ---- labels ----

  /** The label of `n` after `rounds` refinement rounds. */
  function LabelOf<N(==, !new)>(g: Graph<N>, rounds: nat, n: N): Label
    requires Closed(g) && Known(g, n)
    decreases rounds
  {
    if n in g.nodes then
      var o := g.nodes[n];
      if rounds == 0 then TextLabel(o.op, o.kind, o.literals)
      else Digest(LabelOf(g, rounds - 1, n),
                  seq(|o.refs|, i requires 0 <= i < |o.refs| =>
                    (o.refs[i].key, LabelOf(g, rounds - 1, o.refs[i].name))))
    else
      ArgLabel(if n in g.lanes then g.lanes[n] else "?", g.args[n])
  }

  function LabelMap<N(==, !new)>(g: Graph<N>, rounds: nat): map<N, Label>
    requires Closed(g)
  {
    map n | n in g.nodes.Keys + g.args.Keys :: LabelOf(g, rounds, n)
  }

  /** The arguments and the first `n` ops carry their label of round `rounds`. */
  ghost predicate LabelledTo<N(!new)>(g: Graph<N>, rounds: nat, n: nat, m: map<N, Label>)
    requires Closed(g) && Listed(g) && n <= |g.order|
  {
    && (forall a :: a in m ==> Known(g, a))
    && (forall a :: a in g.args ==> a in m)
    && (forall a :: a in g.args && a !in g.nodes ==> m[a] == LabelOf(g, rounds, a))
    && (forall j :: 0 <= j < n ==> g.order[j] in m && m[g.order[j]] == LabelOf(g, rounds, g.order[j]))
  }

  lemma LabelOneMore<N(!new)>(g: Graph<N>, rounds: nat, i: nat, m: map<N, Label>, l: Label)
    requires Closed(g) && Listed(g) && i < |g.order| && LabelledTo(g, rounds, i, m)
    requires l == LabelOf(g, rounds, g.order[i])
    ensures LabelledTo(g, rounds, i + 1, m[g.order[i] := l])
  {
  }

  lemma LabelledAll<N(!new)>(g: Graph<N>, rounds: nat, m: map<N, Label>)
    requires Closed(g) && Listed(g) && LabelledTo(g, rounds, |g.order|, m)
    ensures m == LabelMap(g, rounds)
  {
    forall n | Known(g, n)
      ensures n in m && m[n] == LabelOf(g, rounds, n)
    {
      if n in g.nodes {
        var j :| 0 <= j < |g.order| && g.order[j] == n;
      }
    }
  }

  /** The dictionary before the first round: argument labels and op texts. */
  method InitialLabels<N(==, !new)>(g: Graph<N>) returns (current: map<N, Label>)
    requires Listed(g) && Closed(g)
    ensures current == LabelMap(g, 0)
  {
    current := map n | n in g.args :: ArgLabel(if n in g.lanes then g.lanes[n] else "?", g.args[n]);
    for i := 0 to |g.order|
      invariant LabelledTo(g, 0, i, current)
    {
      var o := g.nodes[g.order[i]];
      var text := TextLabel(o.op, o.kind, o.literals);
      LabelOneMore(g, 0, i, current, text);
      current := current[g.order[i] := text];
    }
    LabelledAll(g, 0, current);
  }

  /** The text hashed for `n`: its own last label and the last labels of its operands. */
  function Refined<N(==, !new)>(g: Graph<N>, current: map<N, Label>, n: N): Label
    requires Closed(g) && n in g.nodes && forall m :: Known(g, m) ==> m in current
  {
    var refs := g.nodes[n].refs;
    assert Known(g, n);
    Digest(current[n], seq(|refs|, k requires 0 <= k < |refs| => (refs[k].key, current[refs[k].name])))
  }

  lemma RefinedIsNext<N(!new)>(g: Graph<N>, r: nat, current: map<N, Label>, n: N)
    requires Closed(g) && n in g.nodes && current == LabelMap(g, r)
    ensures Refined(g, current, n) == LabelOf(g, r + 1, n)
  {
    assert Refined(g, current, n).operands == LabelOf(g, r + 1, n).operands;
  }

  function RefineStep<N(==, !new)>(g: Graph<N>, ghost r: nat, i: nat, current: map<N, Label>, following: map<N,
                                   Label>): (next: map<N, Label>)
    requires Listed(g) && Closed(g) && i < |g.order|
    requires current == LabelMap(g, r) && LabelledTo(g, r + 1, i, following)
    ensures LabelledTo(g, r + 1, i + 1, next)
  {
    RefinedIsNext(g, r, current, g.order[i]);
    LabelOneMore(g, r + 1, i, following, Refined(g, current, g.order[i]));
    following[g.order[i] := Refined(g, current, g.order[i])]
  }

  function ArgsKept<N(==, !new)>(g: Graph<N>, ghost r: nat, current: map<N, Label>): (next: map<N, Label>)
    requires Listed(g) && Closed(g) && current == LabelMap(g, r)
    ensures LabelledTo(g, r + 1, 0, next)
  {
    map n | n in g.args :: current[n]
  }

  /** One round: a whole new dictionary, every op hashed from the old one. */
  method RefineOnce<N(==, !new)>(g: Graph<N>, ghost r: nat, current: map<N, Label>) returns (following: map<N, Label>)
    requires Listed(g) && Closed(g) && current == LabelMap(g, r)
    ensures following == LabelMap(g, r + 1)
  {
    following := ArgsKept(g, r, current);
    for i := 0 to |g.order|
      invariant LabelledTo(g, r + 1, i, following)
    {
      following := RefineStep(g, r, i, current, following);
    }
    LabelledAll(g, r + 1, following);
  }

  method ComputeLabels<N(==, !new)>(g: Graph<N>, rounds: nat) returns (current: map<N, Label>)
    requires Listed(g) && Closed(g)
    ensures current == LabelMap(g, rounds)
  {
    current := InitialLabels(g);
    for r := 0 to rounds
      invariant current == LabelMap(g, r)
    {
      current := RefineOnce(g, r, current);
    }
  }

  /** `n` is reached from the arguments through at most `d` ops. */
  ghost predicate Shallow<N(!new)>(g: Graph<N>, n: N, d: nat)
    decreases d
  {
    && Known(g, n)
    && (n in g.nodes ==>
          d > 0 && forall i :: 0 <= i < |g.nodes[n].refs| ==> Shallow(g, g.nodes[n].refs[i].name, d - 1))
  }

  /** A label determines every earlier label of the same node, and so the op text. */
  lemma {:induction false} EarlierLabels<N(!new), M(!new)>(g: Graph<N>, h: Graph<M>, r: nat, a: N, b: M)
    requires Closed(g) && Closed(h) && Known(g, a) && Known(h, b)
    requires LabelOf(g, r, a) == LabelOf(h, r, b)
    ensures LabelOf(g, 0, a) == LabelOf(h, 0, b)
    decreases r
  {
    if r > 0 && a in g.nodes {
      assert LabelOf(g, r, a).own == LabelOf(h, r, b).own;
      EarlierLabels(g, h, r - 1, a, b);
    }
  }

  lemma NextLabelEqual<N(!new), M(!new)>(g: Graph<N>, h: Graph<M>, r: nat, a: N, b: M)
    requires Closed(g) && Closed(h) && a in g.nodes && b in h.nodes
    requires LabelOf(g, r, a) == LabelOf(h, r, b)
    requires var p, q := g.nodes[a].refs, h.nodes[b].refs;
             && |p| == |q|
             && forall i :: 0 <= i < |p| ==>
                  && p[i].key == q[i].key && Known(g, p[i].name) && Known(h, q[i].name)
                  && LabelOf(g, r, p[i].name) == LabelOf(h, r, q[i].name)
    ensures LabelOf(g, r + 1, a) == LabelOf(h, r + 1, b)
  {
    assert LabelOf(g, r + 1, a).operands == LabelOf(h, r + 1, b).operands;
  }

  // ---- meaning ----

  /** The meaning of ops: a function of the op, its type, its literals and its keyed operands. */
  type Sem<!V> = (string, string, seq<(string, string)>, seq<(string, V)>) -> V

  function Operands<N(==, !new), V>(refs: seq<Ref<N>>, vals: map<N, V>): seq<(string, V)>
    requires forall i :: 0 <= i < |refs| ==> refs[i].name in vals
  {
    seq(|refs|, i requires 0 <= i < |refs| => (refs[i].key, vals[refs[i].name]))
  }

  function Apply<N(==, !new), V>(sem: Sem<V>, o: Op<N>, vals: map<N, V>): V
    requires forall i :: 0 <= i < |o.refs| ==> o.refs[i].name in vals
  {
    sem(o.op, o.kind, o.literals, Operands(o.refs, vals))
  }

  /** Run the first `n` ops in written order, starting from the argument values. */
  function RunPrefix<N(==, !new), V>(g: Graph<N>, sem: Sem<V>, inputs: map<N, V>, n: nat): (vals: map<N, V>)
    requires WellFormed(g) && g.args.Keys == inputs.Keys && n <= |g.order|
    ensures forall m :: m in vals <==> Before(g, n, m)
  {
    if n == 0 then inputs
    else
      assert RefsBefore(g, n - 1);
      var before := RunPrefix(g, sem, inputs, n - 1);
      before[g.order[n - 1] := Apply(sem, g.nodes[g.order[n - 1]], before)]
  }

  function Run<N(==, !new), V>(g: Graph<N>, sem: Sem<V>, inputs: map<N, V>): (vals: map<N, V>)
    requires WellFormed(g) && g.args.Keys == inputs.Keys
    ensures forall m :: m in vals <==> Known(g, m)
  {
    AllBefore(g);
    RunPrefix(g, sem, inputs, |g.order|)
  }

  /** Op `n` and its operands have values, and the op's value is its meaning. */
  ghost predicate Satisfied<N(!new), V(!new)>(g: Graph<N>, sem: Sem<V>, vals: map<N, V>, n: N)
    requires n in g.nodes
  {
    var o := g.nodes[n];
    && (forall k :: 0 <= k < |o.refs| ==> o.refs[k].name in vals)
    && n in vals && vals[n] == Apply(sem, o, vals)
  }

  /** An assignment of values that agrees with the inputs and satisfies every op. */
  ghost predicate Solves<N(!new), V(!new)>(g: Graph<N>, sem: Sem<V>, inputs: map<N, V>, vals: map<N, V>) {
    && Closed(g)
    && (forall m :: m in vals <==> Known(g, m))
    && (forall m :: m in g.args && m !in g.nodes ==> m in inputs && vals[m] == inputs[m])
    && (forall m :: m in g.nodes ==> Satisfied(g, sem, vals, m))
  }

  /** Assigning a later name does not disturb an op all of whose operands have values. */
  lemma SatisfiedKept<N(!new), V(!new)>(g: Graph<N>, sem: Sem<V>, vals: map<N, V>, n: N, m: N, v: V)
    requires n in g.nodes && m !in vals && Satisfied(g, sem, vals, n)
    ensures Satisfied(g, sem, vals[m := v], n)
  {
    assert Operands(g.nodes[n].refs, vals) == Operands(g.nodes[n].refs, vals[m := v]);
  }

  /** The first `n` ops are satisfied by `vals`. */
  ghost predicate SatisfiedTo<N(!new), V(!new)>(g: Graph<N>, sem: Sem<V>, vals: map<N, V>, n: nat)
    requires Listed(g) && n <= |g.order|
  {
    n == 0 || (SatisfiedTo(g, sem, vals, n - 1) && Satisfied(g, sem, vals, g.order[n - 1]))
  }

  lemma {:induction false} SatisfiedToAt<N(!new), V(!new)>(g: Graph<N>, sem: Sem<V>, vals: map<N, V>, n: nat, i: nat)
    requires Listed(g) && i < n <= |g.order| && SatisfiedTo(g, sem, vals, n)
    ensures Satisfied(g, sem, vals, g.order[i])
  {
    if i < n - 1 {
      SatisfiedToAt(g, sem, vals, n - 1, i);
    }
  }

  lemma {:induction false} SatisfiedToKept<N(!new),
                                                             V(!new)>(g: Graph<N>, sem: Sem<V>, vals: map<N, V>, n: nat,
                                                             m: N, v: V)
    requires Listed(g) && n <= |g.order| && m !in vals && SatisfiedTo(g, sem, vals, n)
    ensures SatisfiedTo(g, sem, vals[m := v], n)
  {
    if n > 0 {
      SatisfiedToKept(g, sem, vals, n - 1, m, v);
      SatisfiedKept(g, sem, vals, g.order[n - 1], m, v);
    }
  }

  lemma SatisfiedStep<N(!new), V(!new)>(g: Graph<N>, sem: Sem<V>, before: map<N, V>, n: nat, after: map<N, V>)
    requires Listed(g) && n < |g.order| && SatisfiedTo(g, sem, before, n) && g.order[n] !in before
    requires forall k :: 0 <= k < |g.nodes[g.order[n]].refs| ==> g.nodes[g.order[n]].refs[k].name in before
    requires after == before[g.order[n] := Apply(sem, g.nodes[g.order[n]], before)]
    ensures SatisfiedTo(g, sem, after, n + 1)
  {
    var last, o := g.order[n], g.nodes[g.order[n]];
    SatisfiedToKept(g, sem, before, n, last, Apply(sem, o, before));
    assert Operands(o.refs, before) == Operands(o.refs, after);
  }

  /** No op overwrites an argument. */
  lemma {:induction false} RunPrefixInputs<N(!new), V(!new)>(g: Graph<N>, sem: Sem<V>, inputs: map<N, V>, n: nat, a: N)
    requires WellFormed(g) && g.args.Keys == inputs.Keys && n <= |g.order| && a in g.args
    ensures Before(g, n, a) && RunPrefix(g, sem, inputs, n)[a] == inputs[a]
  {
    if n > 0 {
      RunPrefixInputs(g, sem, inputs, n - 1, a);
      assert g.order[n - 1] in g.nodes;
    }
  }

  /** All operands of the next op have values, and the op itself has none yet. */
  lemma NextIsReady<N(!new), V(!new)>(g: Graph<N>, sem: Sem<V>, inputs: map<N, V>, n: nat)
    requires WellFormed(g) && g.args.Keys == inputs.Keys && n < |g.order|
    ensures g.order[n] !in RunPrefix(g, sem, inputs, n)
    ensures forall k :: 0 <= k < |g.nodes[g.order[n]].refs| ==>
                          g.nodes[g.order[n]].refs[k].name in RunPrefix(g, sem, inputs, n)
  {
    assert RefsBefore(g, n);
    BeforeMeans(g, n, g.order[n]);
  }

  lemma {:induction false} RunPrefixSolves<N(!new), V(!new)>(g: Graph<N>, sem: Sem<V>, inputs: map<N, V>, n: nat)
    requires WellFormed(g) && g.args.Keys == inputs.Keys && n <= |g.order|
    ensures SatisfiedTo(g, sem, RunPrefix(g, sem, inputs, n), n)
  {
    if n > 0 {
      var m: nat := n - 1;
      RunPrefixSolves(g, sem, inputs, m);
      NextIsReady(g, sem, inputs, m);
      SatisfiedStep(g, sem, RunPrefix(g, sem, inputs, m), m, RunPrefix(g, sem, inputs, n));
    }
  }

  lemma RunSolves<N(!new), V(!new)>(g: Graph<N>, sem: Sem<V>, inputs: map<N, V>)
    requires WellFormed(g) && g.args.Keys == inputs.Keys
    ensures Solves(g, sem, inputs, Run(g, sem, inputs))
  {
    WellFormedIsClosed(g);
    RunPrefixSolves(g, sem, inputs, |g.order|);
    forall a | a in g.args
      ensures Run(g, sem, inputs)[a] == inputs[a]
    {
      RunPrefixInputs(g, sem, inputs, |g.order|, a);
    }
    forall m | m in g.nodes
      ensures Satisfied(g, sem, Run(g, sem, inputs), m)
    {
      var i :| 0 <= i < |g.order| && g.order[i] == m;
      SatisfiedToAt(g, sem, Run(g, sem, inputs), |g.order|, i);
    }
  }

  /** The content of the lanes: one value per lane label and tensor type. */
  type Env<!V> = (string, string) -> V

  /** Argument values read from the lanes the arguments are labelled with. */
  ghost predicate ReadsLanes<N(!new), V(!new)>(g: Graph<N>, env: Env<V>, inputs: map<N, V>) {
    forall a :: a in g.args ==> a in g.lanes && a in inputs && inputs[a] == env(g.lanes[a], g.args[a])
  }

  /** The core of the soundness argument: equal labels mean equal values, for every node no
      deeper than the number of rounds. Only one of the two graphs needs the depth bound. */
  lemma {:induction false} EqualLabelsEqualValues<N(!new), M(!new), V(!new)>(
      g: Graph<N>, h: Graph<M>, r: nat, a: N, b: M, sem: Sem<V>, env: Env<V>,
      gin: map<N, V>, hin: map<M, V>, gv: map<N, V>, hv: map<M, V>)
    requires Solves(g, sem, gin, gv) && Solves(h, sem, hin, hv)
    requires ReadsLanes(g, env, gin) && ReadsLanes(h, env, hin)
    requires Shallow(g, a, r) && Known(h, b)
    requires LabelOf(g, r, a) == LabelOf(h, r, b)
    ensures gv[a] == hv[b]
    decreases r
  {
    if a in g.nodes {
      EarlierLabels(g, h, r, a, b);
      assert Satisfied(g, sem, gv, a) && Satisfied(h, sem, hv, b);
      var o, p := g.nodes[a], h.nodes[b];
      assert LabelOf(g, r, a).operands == LabelOf(h, r, b).operands;
      assert |o.refs| == |LabelOf(g, r, a).operands| == |p.refs|;
      forall i | 0 <= i < |o.refs|
        ensures o.refs[i].key == p.refs[i].key && gv[o.refs[i].name] == hv[p.refs[i].name]
      {
        assert LabelOf(g, r, a).operands[i] == LabelOf(h, r, b).operands[i];
        EqualLabelsEqualValues(g, h, r - 1, o.refs[i].name, p.refs[i].name, sem, env, gin, hin, gv, hv);
      }
      assert Operands(o.refs, gv) == Operands(p.refs, hv);
    }
  }

  // ---- renaming ----

  /** `p` is `o` with its operands renamed through `rho`. */
  ghost predicate RenamesOp<N(!new), M(!new)>(rho: map<N, M>, o: Op<N>, p: Op<M>) {
    && o.op == p.op && o.kind == p.kind && o.literals == p.literals && |o.refs| == |p.refs|
    && forall i :: 0 <= i < |o.refs| ==> o.refs[i].name in rho && p.refs[i] == Ref(o.refs[i].key, rho[o.refs[i].name])
  }

  /** `h` is `g` with every name replaced through `rho`. */
  ghost predicate Renames<N(!new), M(!new)>(rho: map<N, M>, g: Graph<N>, h: Graph<M>) {
    && (forall n :: Known(g, n) ==> n in rho)
    && (forall n :: n in g.nodes ==> rho[n] in h.nodes && RenamesOp(rho, g.nodes[n], h.nodes[rho[n]]))
    && (forall n :: n in g.args && n !in g.nodes ==>
          && rho[n] !in h.nodes && rho[n] in h.args && h.args[rho[n]] == g.args[n]
          && (n in g.lanes <==> rho[n] in h.lanes)
          && (n in g.lanes ==> h.lanes[rho[n]] == g.lanes[n]))
  }

  lemma {:induction false} RenamedLabel<N(!new), M(!new)>(rho: map<N, M>, g: Graph<N>, h: Graph<M>, r: nat, n: N)
    requires Closed(g) && Closed(h) && Renames(rho, g, h) && Known(g, n)
    ensures Known(h, rho[n]) && LabelOf(g, r, n) == LabelOf(h, r, rho[n])
    decreases r
  {
    if n in g.nodes && r > 0 {
      var o, p := g.nodes[n], h.nodes[rho[n]];
      assert RenamesOp(rho, o, p);
      RenamedLabel(rho, g, h, r - 1, n);
      forall i | 0 <= i < |o.refs|
        ensures LabelOf(g, r - 1, o.refs[i].name) == LabelOf(h, r - 1, p.refs[i].name)
      {
        RenamedLabel(rho, g, h, r - 1, o.refs[i].name);
      }
      NextLabelEqual(g, h, r - 1, n, rho[n]);
    }
  }
}
