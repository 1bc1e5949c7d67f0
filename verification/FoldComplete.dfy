/** tools/qwen_fold_layout.py accepts what it should: a layout made of control programs and of renamed chains of
    a state block and the program after it has no problem. */
module FoldComplete {
  import opened Basics
  import opened MilGraph
  import opened FusionCheck
  import opened FusionTheorems
  import opened FusionExact
  import opened FoldLayout

  // ---- the state block ----

  /** How many rows read a lane. */
  function LaneRows(srcs: seq<Src>, lane: string): nat {
    if srcs == [] then 0
    else
      var last := srcs[|srcs| - 1];
      LaneRows(srcs[..|srcs| - 1], lane) + if last.kind == Lane && last.lane == lane then 1 else 0
  }

  /** One row reads each of the lanes beta, gt, k, q and v, none reads another, and lane o alone is written. */
  ghost predicate StateBlock(e: Entry) {
    && (forall lane: string :: LaneRows(e.srcs, lane) == if lane in {"beta", "gt", "k", "q", "v"} then 1 else 0)
    && |e.dsts| == 1 && e.dsts[0].lane == "o"
  }

  lemma {:induction false} LanesCounted(srcs: seq<Src>, lane: string)
    ensures multiset(LanesOf(srcs))[lane] == LaneRows(srcs, lane)
  {
    if srcs != [] {
      LanesCounted(srcs[..|srcs| - 1], lane);
    }
  }

  lemma FiveLanes(lane: string)
    ensures multiset{"beta", "gt", "k", "q", "v"}[lane] == if lane in {"beta", "gt", "k", "q", "v"} then 1 else 0
  {
    assert |"beta"| == 4 && |"gt"| == 2 && "k"[0] == 'k' && "q"[0] == 'q' && "v"[0] == 'v';
  }

  /** THE STATE BLOCK is told by its lanes alone. */
  lemma StateBlockIs(e: Entry)
    ensures IsStateBlock(e) <==> StateBlock(e)
  {
    hide LanesOf, LaneRows;
    var lanes, five := multiset(LanesOf(e.srcs)), multiset{"beta", "gt", "k", "q", "v"};
    forall lane: string
      ensures lanes[lane] == LaneRows(e.srcs, lane)
      ensures five[lane] == if lane in {"beta", "gt", "k", "q", "v"} then 1 else 0
    {
      LanesCounted(e.srcs, lane);
      FiveLanes(lane);
    }
    assert lanes == five <==> forall lane: string :: lanes[lane] == five[lane];
    if |e.dsts| == 1 {
      assert DstLanes(e.dsts) == [e.dsts[0].lane];
    }
    if DstLanes(e.dsts) == ["o"] {
      assert |DstLanes(e.dsts)| == |e.dsts| && DstLanes(e.dsts)[0] == e.dsts[0].lane;
    }
  }

  // ---- a kept program ----

  /** The same rows in another order. */
  predicate Reordered(a: Entry, b: Entry) {
    && multiset(a.srcs) == multiset(b.srcs) && multiset(a.dsts) == multiset(b.dsts)
    && multiset(a.states) == multiset(b.states) && a.groupStart == b.groupStart && a.groupEnd == b.groupEnd
  }

  function PlainRow(r: Src): Src { if r.kind == StateIn then r.(lane := "") else r }

  lemma PlainAppend(a: seq<Src>, r: Src, b: seq<Src>)
    ensures multiset(Plain(a + [r] + b)) == multiset(Plain(a + b)) + multiset{PlainRow(r)}
  {
    assert Plain(a + [r] + b) == Plain(a) + [PlainRow(r)] + Plain(b);
    assert Plain(a + b) == Plain(a) + Plain(b);
  }

  lemma TakeOut(b: seq<Src>, r: Src) returns (j: nat)
    requires r in multiset(b)
    ensures j < |b| && b == b[..j] + [r] + b[j + 1..]
    ensures multiset(b) == multiset(b[..j] + b[j + 1..]) + multiset{r}
  {
    j :| 0 <= j < |b| && b[j] == r;
    assert b == b[..j] + [r] + b[j + 1..];
  }

  /** Rows equal up to order stay so when state lanes are dropped. */
  lemma {:induction false} PlainRows(a: seq<Src>, b: seq<Src>)
    requires multiset(a) == multiset(b)
    ensures multiset(Plain(a)) == multiset(Plain(b))
    decreases |a|
  {
    hide Plain, PlainRow;
    assert |multiset(a)| == |a| && |multiset(b)| == |b|;
    if a == [] {
      assert b == [];
    } else {
      var n := |a| - 1;
      var r := a[n];
      assert a == a[..n] + [r] && a[..n] + [r] + [] == a && a[..n] + [] == a[..n];
      assert multiset(a) == multiset(a[..n]) + multiset{r};
      var j := TakeOut(b, r);
      var rest := b[..j] + b[j + 1..];
      SameLess(multiset(a[..n]), multiset(rest), r);
      PlainRows(a[..n], rest);
      PlainAppend(a[..n], r, []);
      PlainAppend(b[..j], r, b[j + 1..]);
    }
  }

  lemma SameLess(p: multiset<Src>, q: multiset<Src>, r: Src)
    requires p + multiset{r} == q + multiset{r}
    ensures p == q
  {
    assert p == (p + multiset{r}) - multiset{r} && q == (q + multiset{r}) - multiset{r};
  }

  /** The layout program is a control program: the same file, and the same rows. */
  predicate IsControl(u: Unit, c: Unit) { u.hash == c.hash && Reordered(u.entry, c.entry) }

  lemma ControlKept(u: Unit, c: Unit)
    requires IsControl(u, c)
    ensures KeepOk(u, c)
  {
    hide Plain;
    PlainRows(u.entry.srcs, c.entry.srcs);
  }

  // ---- a folded program ----

  ghost predicate OneDst(dsts: seq<Dst>) {
    forall i, j :: 0 <= i < j < |dsts| ==> dsts[i].lane != dsts[j].lane
  }

  /** The entry of a fold: no lane o, every lane the pair reads otherwise, every lane the second program writes
      with its shape, and as many states as the two. */
  ghost predicate ListsPair(fused: Entry, first: Entry, second: Entry) {
    && (forall i :: 0 <= i < |fused.srcs| ==> fused.srcs[i].lane != "o")
    && (forall i :: 0 <= i < |first.srcs| && first.srcs[i].kind == Lane ==> Lists(fused.srcs, first.srcs[i].lane))
    && (forall i :: 0 <= i < |second.srcs| && second.srcs[i].kind == Lane && second.srcs[i].lane != "o" ==>
          Lists(fused.srcs, second.srcs[i].lane))
    && OneDst(fused.dsts) && OneDst(second.dsts)
    && (forall i :: 0 <= i < |second.dsts| ==> Writes(fused.dsts, second.dsts[i].lane, second.dsts[i].shape))
    && |fused.states| == |first.states| + |second.states|
  }

  ghost predicate Lists(srcs: seq<Src>, lane: string) { exists k :: 0 <= k < |srcs| && srcs[k].lane == lane }

  ghost predicate Writes(dsts: seq<Dst>, lane: string, shape: seq<nat>) {
    exists k :: 0 <= k < |dsts| && dsts[k].lane == lane && dsts[k].shape == shape
  }

  lemma {:induction false} ShapeOf(dsts: seq<Dst>, k: nat)
    requires OneDst(dsts) && k < |dsts|
    ensures DstShape(dsts, dsts[k].lane) == Some(dsts[k].shape)
    decreases |dsts|
  {
    var n := |dsts| - 1;
    if k < n {
      ShapeOf(dsts[..n], k);
    }
  }

  lemma PairWritten(fused: Entry, second: Entry)
    requires OneDst(fused.dsts) && OneDst(second.dsts)
    requires forall i :: 0 <= i < |second.dsts| ==> Writes(fused.dsts, second.dsts[i].lane, second.dsts[i].shape)
    ensures WritesLanes(fused, second)
  {
    hide DstShape, OneDst;
    forall i | 0 <= i < |second.dsts|
      ensures DstShape(fused.dsts, second.dsts[i].lane) == DstShape(second.dsts, second.dsts[i].lane)
    {
      ShapeOf(second.dsts, i);
      var k :| 0 <= k < |fused.dsts| && fused.dsts[k].lane == second.dsts[i].lane
        && fused.dsts[k].shape == second.dsts[i].shape;
      ShapeOf(fused.dsts, k);
    }
  }

  /** The one name that carries a lane. */
  ghost predicate OnlyName(names: seq<string>, labels: map<string, string>, lane: string, name: string) {
    && name in names && name in labels && labels[name] == lane
    && forall n :: n in names && n in labels && labels[n] == lane ==> n == name
  }

  lemma {:induction false} NameFound(names: seq<string>, labels: map<string, string>, lane: string, name: string)
    requires OnlyName(names, labels, lane, name)
    ensures NameOf(names, labels, lane) == Some(name)
  {
    if !(names[0] in labels && labels[names[0]] == lane) {
      assert names == [names[0]] + names[1..];
      NameFound(names[1..], labels, lane, name);
    }
  }

  /** Every output that is compared is a tensor of its program. */
  ghost predicate OutputsAreTensors(p: Program) {
    forall n :: n in p.outputs && n in p.outs && p.outs[n] != "" ==> Known(p.graph, n)
  }

  /** Lane o links an op of the first program to an argument of the second, which does not just pass it on. */
  ghost predicate Linked(first: Unit, second: Unit, link: Link) {
    && OnlyName(first.outNames, first.program.outs, "o", link.output) && link.output in first.program.graph.nodes
    && OnlyName(second.inNames, second.program.graph.lanes, "o", link.arg) && link.arg in second.program.graph.args
    && !(link.arg in second.program.outputs && link.arg in second.program.outs && second.program.outs[link.arg] != "")
  }

  /** The layout program is the fold of a state block and the program after it: its MIL, which is not the block's
      own, is a renamed copy of their chain with some lane written, and its entry lists the pair. */
  ghost predicate IsFold(u: Unit, first: Unit, second: Unit, link: Link, rho: map<Side, string>) {
    && StateBlock(first.entry) && u.hash != first.hash && Linked(first, second, link)
    && OutputsAreTensors(u.program) && OutputsAreTensors(first.program) && OutputsAreTensors(second.program)
    && RenamedChain(rho, u.program, first.program, second.program, link)
    && (exists n :: n in u.program.outputs && n in u.program.outs && u.program.outs[n] != "")
    && ListsPair(u.entry, first.entry, second.entry)
  }

  lemma {:induction false} SomeLane(outputs: seq<string>, outs: map<string, string>, n: string)
    requires n in outputs && n in outs && outs[n] != ""
    ensures outs[n] in LaneSource(outputs, outs, None)
  {
    var last := outputs[|outputs| - 1];
    assert outputs == outputs[..|outputs| - 1] + [last];
    if n in outputs[..|outputs| - 1] {
      SomeLane(outputs[..|outputs| - 1], outs, n);
    }
  }

  lemma FoldReports(u: Unit, first: Unit, second: Unit, link: Link)
    requires Parsed(u.program) && Parsed(first.program) && Parsed(second.program) && Linked(first, second, link)
    requires OutputsAreTensors(u.program) && OutputsAreTensors(first.program) && OutputsAreTensors(second.program)
    ensures Verdict(ROUNDS, u.program, first.program, second.program, link).Done?
  {
    hide Verdict, ChainGraph, Parsed, OnlyName;
    VerdictDone(ROUNDS, u.program, first.program, second.program, link);
    forall n: string
      ensures Known(ChainGraph(first.program.graph, second.program.graph, link), SideA(n)) <==>
                Known(first.program.graph, n)
      ensures Known(ChainGraph(first.program.graph, second.program.graph, link), SideB(n)) <==>
                n in second.program.graph.nodes || (n in second.program.graph.args && n != link.arg)
    {
      ChainEntry(first.program.graph, second.program.graph, link, n);
    }
  }

  lemma FoldIsChain(u: Unit, first: Unit, second: Unit, link: Link, rho: map<Side, string>)
    requires Parsed(u.program) && Parsed(first.program) && Parsed(second.program) && IsFold(u, first, second, link, rho)
    ensures ChainEquivalent(u, first, second)
  {
    hide Verdict, Parsed, OnlyName, RenamedChain, OutputsAreTensors, ListsPair, StateBlock, LaneSource, NameOf;
    NameFound(first.outNames, first.program.outs, "o", link.output);
    NameFound(second.inNames, second.program.graph.lanes, "o", link.arg);
    FoldReports(u, first, second, link);
    var n :| n in u.program.outputs && n in u.program.outs && u.program.outs[n] != "";
    SomeLane(u.program.outputs, u.program.outs, n);
    RenamedCopyEqual(ROUNDS, rho, u.program, first.program, second.program, link);
  }

  lemma FoldListed(fused: Entry, first: Entry, second: Entry)
    requires ListsPair(fused, first, second)
    ensures !HasSrc(fused, "o") && WritesLanes(fused, second) && ReadsLanes2(fused, second) && ReadsBlock(fused, first)
  {
    hide WritesLanes, OneDst, Writes;
    PairWritten(fused, second);
    forall lane | Lists(fused.srcs, lane)
      ensures HasSrc(fused, lane)
    {
      var k :| 0 <= k < |fused.srcs| && fused.srcs[k].lane == lane;
    }
  }

  lemma FoldAccepted(u: Unit, first: Unit, second: Unit, link: Link, rho: map<Side, string>)
    requires Parsed(u.program) && Parsed(first.program) && Parsed(second.program) && IsFold(u, first, second, link, rho)
    ensures FoldOk(u, first, second) && IsStateBlock(first.entry)
  {
    hide ChainEquivalent, Parsed, HasSrc, WritesLanes, ReadsLanes2, ReadsBlock, StateBlock, IsStateBlock, Linked,
      OutputsAreTensors, RenamedChain;
    StateBlockIs(first.entry);
    FoldIsChain(u, first, second, link, rho);
    assert |u.entry.states| == |first.entry.states| + |second.entry.states|;
    hide ListsPair;
    FoldListed(u.entry, first.entry, second.entry);
  }

  /** Row k is the last that writes its lane. */
  ghost predicate LastRow(dsts: seq<Dst>, k: nat) {
    k < |dsts| && forall j :: k < j < |dsts| ==> dsts[j].lane != dsts[k].lane
  }

  lemma {:induction false} LastShape(dsts: seq<Dst>, k: nat)
    requires LastRow(dsts, k)
    ensures DstShape(dsts, dsts[k].lane) == Some(dsts[k].shape)
    decreases |dsts|
  {
    var n := |dsts| - 1;
    if k < n {
      assert dsts[n].lane != dsts[k].lane;
      LastShape(dsts[..n], k);
    }
  }

  lemma {:induction false} ShapeWritten(dsts: seq<Dst>, lane: string) returns (k: nat)
    requires DstShape(dsts, lane).Some?
    ensures LastRow(dsts, k) && dsts[k].lane == lane && DstShape(dsts, lane) == Some(dsts[k].shape)
    decreases |dsts|
  {
    var n := |dsts| - 1;
    if dsts[n].lane == lane {
      k := n;
    } else {
      k := ShapeWritten(dsts[..n], lane);
    }
  }

  /** The lane is written, last with this shape. */
  ghost predicate LastWrites(dsts: seq<Dst>, lane: string, shape: seq<nat>) {
    exists k: nat :: LastRow(dsts, k) && dsts[k].lane == lane && dsts[k].shape == shape
  }

  lemma SameLast(fused: seq<Dst>, second: seq<Dst>, lane: string, shape: seq<nat>)
    requires LastWrites(second, lane, shape) && DstShape(fused, lane) == DstShape(second, lane)
    ensures LastWrites(fused, lane, shape)
  {
    hide DstShape;
    var i: nat :| LastRow(second, i) && second[i].lane == lane && second[i].shape == shape;
    LastShape(second, i);
    var k := ShapeWritten(fused, lane);
  }

  lemma LastHasRow(dsts: seq<Dst>, lane: string, shape: seq<nat>) returns (i: nat)
    requires LastWrites(dsts, lane, shape)
    ensures i < |dsts| && dsts[i].lane == lane
  {
    i :| LastRow(dsts, i) && dsts[i].lane == lane && dsts[i].shape == shape;
  }

  // ---- what a kept program must list ----

  /** Rows that say the same: the lane of a state input is only its position. */
  predicate Alike(a: Src, b: Src) {
    a.port == b.port && a.kind == b.kind && a.shape == b.shape && (a.kind == StateIn || a.lane == b.lane)
  }

  function CountAlike(srcs: seq<Src>, row: Src): nat {
    if srcs == [] then 0
    else CountAlike(srcs[..|srcs| - 1], row) + if Alike(srcs[|srcs| - 1], row) then 1 else 0
  }

  lemma {:induction false} PlainCounted(srcs: seq<Src>, row: Src)
    ensures multiset(Plain(srcs))[if row.kind == StateIn then row.(lane := "") else row] == CountAlike(srcs, row)
    ensures row.kind == StateIn && row.lane != "" ==> multiset(Plain(srcs))[row] == 0
  {
    if srcs == [] {
      assert Plain(srcs) == [];
    } else {
      var n := |srcs| - 1;
      PlainCounted(srcs[..n], row);
      assert Plain(srcs) == Plain(srcs[..n]) + [Plain(srcs)[n]];
    }
  }

  /** The same rows, each as often. */
  ghost predicate SameRows(a: seq<Src>, b: seq<Src>) {
    forall row: Src :: CountAlike(a, row) == CountAlike(b, row)
  }

  lemma PlainSame(a: seq<Src>, b: seq<Src>)
    ensures multiset(Plain(a)) == multiset(Plain(b)) <==> SameRows(a, b)
  {
    hide Plain;
    var p, q := multiset(Plain(a)), multiset(Plain(b));
    if p == q {
      forall row: Src
        ensures CountAlike(a, row) == CountAlike(b, row)
      {
        PlainCounted(a, row);
        PlainCounted(b, row);
      }
      assert SameRows(a, b);
    }
    if SameRows(a, b) {
      forall row: Src
        ensures p[row] == q[row]
      {
        PlainCounted(a, row);
        PlainCounted(b, row);
        assert CountAlike(a, row) == CountAlike(b, row) && (row.lane == "" ==> row.(lane := "") == row);
      }
      assert p == q;
    }
  }

  /** WHAT A KEPT PROGRAM MUST LIST. It passes exactly when it has the MIL hash of the control program, the same input
      rows but for the position of states, the same output rows and state pairs, each as often, in any order, and
      the same group marks. */
  lemma KeepIs(u: Unit, c: Unit)
    ensures KeepOk(u, c) <==>
              && u.hash == c.hash && SameRows(u.entry.srcs, c.entry.srcs)
              && multiset(u.entry.dsts) == multiset(c.entry.dsts)
              && multiset(u.entry.states) == multiset(c.entry.states)
              && u.entry.groupStart == c.entry.groupStart && u.entry.groupEnd == c.entry.groupEnd
  {
    hide Plain, CountAlike;
    PlainSame(u.entry.srcs, c.entry.srcs);
  }

  /** WHAT A FOLD MUST LIST. Every fold that is accepted keeps o inside, reads every lane the pair reads otherwise,
      writes every lane of the second program with the shape the second program last writes it with, and has as many
      states as the two. */
  lemma FoldRefuses(u: Unit, first: Unit, second: Unit)
    requires Parsed(u.program) && Parsed(first.program) && Parsed(second.program) && FoldOk(u, first, second)
    ensures forall i :: 0 <= i < |u.entry.srcs| ==> u.entry.srcs[i].lane != "o"
    ensures forall i :: 0 <= i < |first.entry.srcs| ==>
              (first.entry.srcs[i].kind == Lane ==> Lists(u.entry.srcs, first.entry.srcs[i].lane))
    ensures forall i :: 0 <= i < |second.entry.srcs| ==>
              (second.entry.srcs[i].kind == Lane && second.entry.srcs[i].lane != "o" ==>
                 Lists(u.entry.srcs, second.entry.srcs[i].lane))
    ensures forall lane, shape :: LastWrites(second.entry.dsts, lane, shape) ==> LastWrites(u.entry.dsts, lane, shape)
    ensures |u.entry.states| == |first.entry.states| + |second.entry.states|
  {
    hide ChainEquivalent, Parsed, DstShape, LastRow, LastWrites;
    forall lane, shape | LastWrites(second.entry.dsts, lane, shape)
      ensures LastWrites(u.entry.dsts, lane, shape)
    {
      var i := LastHasRow(second.entry.dsts, lane, shape);
      SameLast(u.entry.dsts, second.entry.dsts, lane, shape);
    }
    forall lane | HasSrc(u.entry, lane)
      ensures Lists(u.entry.srcs, lane)
    {
      var k :| 0 <= k < |u.entry.srcs| && u.entry.srcs[k].lane == lane;
    }
  }

  // ---- a whole layout ----

  ghost predicate SomeFold(u: Unit, first: Unit, second: Unit) {
    exists link, rho :: IsFold(u, first, second, link, rho)
  }

  /** The layout from here on is what `folds` says: control programs, and folds of two. */
  ghost predicate Made(control: seq<Unit>, layout: seq<Unit>, folds: seq<bool>, cursor: nat)
    requires |folds| == |layout|
    decreases |layout|
  {
    if layout == [] then cursor == |control|
    else if folds[0] then
      && cursor + 1 < |control| && Made(control, layout[1..], folds[1..], cursor + 2)
      && SomeFold(layout[0], control[cursor], control[cursor + 1])
    else
      && cursor < |control| && IsControl(layout[0], control[cursor])
      && Made(control, layout[1..], folds[1..], cursor + 1)
  }

  /** The pieces such a layout has. */
  ghost function Expected(layout: seq<Unit>, folds: seq<bool>, cursor: nat): seq<Piece>
    requires |folds| == |layout|
    decreases |layout|
  {
    if layout == [] then []
    else if folds[0] then [Folded(cursor, layout[0])] + Expected(layout[1..], folds[1..], cursor + 2)
    else [Kept(cursor)] + Expected(layout[1..], folds[1..], cursor + 1)
  }

  /** COMPLETENESS. Build reports no problem on a layout made of control programs and of renamed chains of state
      blocks and their successors, and its pieces are those. */
  lemma {:induction false} MadeFits(control: seq<Unit>, layout: seq<Unit>, folds: seq<bool>, cursor: nat)
    requires AllParsed(control) && AllParsed(layout) && |folds| == |layout| && Made(control, layout, folds, cursor)
    ensures Fits(control, layout, cursor) && Pieces(control, layout, cursor) == Expected(layout, folds, cursor)
    decreases |layout|
  {
    hide Parsed, FoldOk, KeepOk, IsControl, IsFold, IsStateBlock;
    if layout != [] {
      var u, rest := layout[0], layout[1..];
      assert forall i :: 0 <= i < |rest| ==> rest[i] == layout[i + 1];
      if folds[0] {
        assert SomeFold(u, control[cursor], control[cursor + 1]);
        var link, rho :| IsFold(u, control[cursor], control[cursor + 1], link, rho);
        FoldAccepted(u, control[cursor], control[cursor + 1], link, rho);
        OtherHash(u, control[cursor], control[cursor + 1], link, rho);
        MadeFits(control, rest, folds[1..], cursor + 2);
      } else {
        SameHash(u, control[cursor]);
        MadeFits(control, rest, folds[1..], cursor + 1);
      }
    }
  }

  lemma OtherHash(u: Unit, first: Unit, second: Unit, link: Link, rho: map<Side, string>)
    requires IsFold(u, first, second, link, rho)
    ensures u.hash != first.hash
  {
  }

  lemma SameHash(u: Unit, c: Unit)
    requires IsControl(u, c)
    ensures u.hash == c.hash && KeepOk(u, c)
  {
    hide KeepOk;
    ControlKept(u, c);
  }

  // ---- a fold written out ----

  const T: string := "fp16"

  function Block(): Program {
    Program(Graph(["o"], map["o" := Op("delta", T, [], [Ref("beta", "b"), Ref("gt", "g"), Ref("k", "k"), Ref("q", "q"),
                                                        Ref("v", "v")])],
              map["b" := T, "g" := T, "k" := T, "q" := T, "v" := T],
              map["b" := "beta", "g" := "gt", "k" := "k", "q" := "q", "v" := "v"]),
      ["o"], map["o" := "o"])
  }

  function Successor(): Program {
    Program(Graph(["y"], map["y" := Op("gate", T, [], [Ref("x", "a")])], map["a" := T], map["a" := "o"]), ["y"],
      map["y" := "y"])
  }

  function Fused(): Program {
    Program(Graph(["r", "s"],
              map["r" := Op("delta", T, [], [Ref("beta", "b"), Ref("gt", "g"), Ref("k", "k"), Ref("q", "q"),
                                             Ref("v", "v")]),
                  "s" := Op("gate", T, [], [Ref("x", "r")])],
              map["b" := T, "g" := T, "k" := T, "q" := T, "v" := T],
              map["b" := "beta", "g" := "gt", "k" := "k", "q" := "q", "v" := "v"]),
      ["s"], map["s" := "y"])
  }

  function FiveRows(): seq<Src> {
    [Src("b", Lane, "beta", [1]), Src("g", Lane, "gt", [1]), Src("k", Lane, "k", [1]), Src("q", Lane, "q", [1]),
      Src("v", Lane, "v", [1])]
  }

  function BlockUnit(): Unit {
    Unit(Entry(FiveRows(), [Dst("o", "o", [1])], [], false, false), Block(), "h0", ["b", "g", "k", "q", "v"], ["o"])
  }

  function SuccessorUnit(): Unit {
    Unit(Entry([Src("a", Lane, "o", [1])], [Dst("y", "y", [1])], [], false, false), Successor(), "h1", ["a"], ["y"])
  }

  function FusedUnit(): Unit {
    Unit(Entry(FiveRows(), [Dst("s", "y", [1])], [], false, false), Fused(), "h2", ["b", "g", "k", "q", "v"], ["s"])
  }

  function Renaming(): map<Side, string> {
    map[A("o") := "r", B("y") := "s", A("b") := "b", A("g") := "g", A("k") := "k", A("q") := "q", A("v") := "v"]
  }

  const LINK := Link("a", "o")

  lemma BlockParsed()
    ensures Parsed(Block())
  {
  }

  lemma SuccessorParsed()
    ensures Parsed(Successor())
  {
  }

  lemma FusedParsed()
    ensures Parsed(Fused())
  {
  }

  lemma WitnessLinked()
    ensures Linked(BlockUnit(), SuccessorUnit(), LINK)
    ensures OutputsAreTensors(Fused()) && OutputsAreTensors(Block()) && OutputsAreTensors(Successor())
  {
  }

  lemma WitnessListed()
    ensures StateBlock(BlockUnit().entry) && ListsPair(FusedUnit().entry, BlockUnit().entry, SuccessorUnit().entry)
  {
    WitnessBlock();
    var rows := FiveRows();
    assert rows[0].lane == "beta" && rows[1].lane == "gt" && rows[2].lane == "k" && rows[3].lane == "q"
           && rows[4].lane == "v";
    assert Writes(FusedUnit().entry.dsts, "y", [1]) by { assert FusedUnit().entry.dsts[0].lane == "y"; }
  }

  lemma OneMore(srcs: seq<Src>, r: Src, lane: string)
    ensures LaneRows(srcs + [r], lane) == LaneRows(srcs, lane) + if r.kind == Lane && r.lane == lane then 1 else 0
  {
    assert (srcs + [r])[..|srcs|] == srcs;
  }

  lemma WitnessBlock()
    ensures StateBlock(BlockUnit().entry)
  {
    forall lane: string
      ensures LaneRows(FiveRows(), lane) == if lane in {"beta", "gt", "k", "q", "v"} then 1 else 0
    {
      var r := FiveRows();
      assert r == [] + [r[0]] + [r[1]] + [r[2]] + [r[3]] + [r[4]];
      OneMore([], r[0], lane);
      OneMore([] + [r[0]], r[1], lane);
      OneMore([] + [r[0]] + [r[1]], r[2], lane);
      OneMore([] + [r[0]] + [r[1]] + [r[2]], r[3], lane);
      OneMore([] + [r[0]] + [r[1]] + [r[2]] + [r[3]], r[4], lane);
      assert LaneRows([], lane) == 0;
    }
  }

  /** The two ops of the chain, rewired at the link. */
  ghost predicate TwoOps(c: Graph<Side>) {
    && (forall n :: n in c.nodes <==> n in {A("o"), B("y")})
    && A("o") in c.nodes && B("y") in c.nodes
    && c.nodes[A("o")] == Op("delta", T, [], [Ref("beta", A("b")), Ref("gt", A("g")), Ref("k", A("k")),
                                              Ref("q", A("q")), Ref("v", A("v"))])
    && c.nodes[B("y")] == Op("gate", T, [], [Ref("x", A("o"))])
  }

  lemma WitnessChain()
    ensures TwoOps(ChainGraph(Block().graph, Successor().graph, LINK))
  {
    hide ChainGraph;
    var c := ChainGraph(Block().graph, Successor().graph, LINK);
    forall n
      ensures n in c.nodes <==> n in {A("o"), B("y")}
    {
      ChainEntry(Block().graph, Successor().graph, LINK, n.name);
    }
    ChainEntry(Block().graph, Successor().graph, LINK, "o");
    ChainEntry(Block().graph, Successor().graph, LINK, "y");
  }

  lemma OrderOfChain(first: Graph<string>, second: Graph<string>, link: Link)
    ensures ChainGraph(first, second, link).order == OrderA(first.order) + OrderB(second.order)
  {
    hide Joined, OrderA, OrderB, OpsA, OpsB, LaneLabels;
  }

  lemma WitnessOrder()
    ensures ChainGraph(Block().graph, Successor().graph, LINK).order == [A("o"), B("y")]
  {
    OrderOfChain(Block().graph, Successor().graph, LINK);
    hide ChainGraph;
    assert OrderA(["o"]) == [A("o")] && OrderB(["y"]) == [B("y")];
  }

  lemma WitnessArgs(n: Side)
    ensures var c := ChainGraph(Block().graph, Successor().graph, LINK);
            && (n in c.args <==> n in {A("b"), A("g"), A("k"), A("q"), A("v")})
            && (n in c.args ==> n in c.lanes && c.args[n] == T && n.name in Block().graph.lanes
                                && c.lanes[n] == Block().graph.lanes[n.name])
  {
    hide ChainGraph;
    ChainEntry(Block().graph, Successor().graph, LINK, n.name);
  }

  lemma WitnessNames()
    ensures ChainNames(Block(), Successor(), LINK) == map["y" := B("y")]
    ensures LaneSource(Fused().outputs, Fused().outs, None) == map["y" := "s"]
  {
    assert LaneSource([], map["o" := "o"], Some("o")) == map[] && ["o"][..0] == [] && ["y"][..0] == [];
    assert LaneSource(["o"], map["o" := "o"], Some("o")) == map[];
    assert LaneSource(["y"], map["y" := "y"], None) == map["y" := "y"];
    assert ["s"][..0] == [];
  }

  lemma RenamesArg(n: Side)
    requires n in {A("b"), A("g"), A("k"), A("q"), A("v")}
    ensures n in Renaming() && Renaming()[n] == n.name
    ensures var h := Fused().graph;
            && n.name !in h.nodes && n.name in h.args && n.name in h.lanes && h.args[n.name] == T
            && n.name in Block().graph.lanes && h.lanes[n.name] == Block().graph.lanes[n.name]
  {
  }

  lemma RenamesOps()
    ensures var rho, h := Renaming(), Fused().graph;
            && A("o") in rho && rho[A("o")] == "r" && B("y") in rho && rho[B("y")] == "s"
            && "r" in h.nodes && "s" in h.nodes
            && RenamesOp(rho, Op("delta", T, [], [Ref("beta", A("b")), Ref("gt", A("g")), Ref("k", A("k")),
                                                  Ref("q", A("q")), Ref("v", A("v"))]), h.nodes["r"])
            && RenamesOp(rho, Op("gate", T, [], [Ref("x", A("o"))]), h.nodes["s"])
  {
  }

  lemma WitnessRenames()
    ensures Renames(Renaming(), ChainGraph(Block().graph, Successor().graph, LINK), Fused().graph)
  {
    WitnessChain();
    RenamesOps();
    hide ChainGraph, Block, Successor, Fused, Renaming, RenamesOp;
    var c := ChainGraph(Block().graph, Successor().graph, LINK);
    forall n
      ensures n in c.args <==> n in {A("b"), A("g"), A("k"), A("q"), A("v")}
      ensures n in c.args ==> n in c.lanes && c.args[n] == T && n.name in Block().graph.lanes
                              && c.lanes[n] == Block().graph.lanes[n.name]
    {
      WitnessArgs(n);
    }
    forall n | n in c.args
      ensures var h := Fused().graph;
              && n in Renaming() && Renaming()[n] == n.name
              && n.name !in h.nodes && n.name in h.args && n.name in h.lanes && h.args[n.name] == T
              && n.name in Block().graph.lanes && h.lanes[n.name] == Block().graph.lanes[n.name]
    {
      RenamesArg(n);
    }
  }

  lemma WitnessOneToOne()
    ensures OneToOne(Renaming())
  {
  }

  lemma OneLane(rho: map<Side, string>, fused: Program, first: Program, second: Program, link: Link, lane: string,
                n: Side)
    requires OneToOne(rho) && Renames(rho, ChainGraph(first.graph, second.graph, link), fused.graph)
    requires |fused.graph.order| == |ChainGraph(first.graph, second.graph, link).order|
    requires ChainNames(first, second, link) == map[lane := n] && n in rho
    requires LaneSource(fused.outputs, fused.outs, None) == map[lane := rho[n]]
    ensures RenamedChain(rho, fused, first, second, link)
  {
    hide OneToOne, Renames, ChainGraph, ChainNames, LaneSource;
  }

  lemma WitnessRenamed()
    ensures RenamedChain(Renaming(), Fused(), Block(), Successor(), LINK)
  {
    WitnessRenames();
    WitnessOneToOne();
    WitnessNames();
    WitnessOrder();
    RenamesOps();
    assert |Fused().graph.order| == 2;
    hide *;
    OneLane(Renaming(), Fused(), Block(), Successor(), LINK, "y", B("y"));
  }

  lemma WitnessFold()
    ensures IsFold(FusedUnit(), BlockUnit(), SuccessorUnit(), LINK, Renaming())
  {
    WitnessLinked();
    WitnessListed();
    WitnessRenamed();
    hide Linked, OutputsAreTensors, RenamedChain, StateBlock, ListsPair;
    assert "s" in FusedUnit().program.outputs;
  }

  /** A layout of one program made as a fold is taken as one. */
  lemma OneFold(first: Unit, second: Unit, u: Unit, link: Link, rho: map<Side, string>)
    requires Parsed(first.program) && Parsed(second.program) && Parsed(u.program) && IsFold(u, first, second, link, rho)
    ensures var control, layout := [first, second], [u];
            && AllParsed(control) && AllParsed(layout) && TakenAsFold(control, 0, u)
            && Fits(control, layout, 0) && Pieces(control, layout, 0) == [Folded(0, u)]
  {
    hide Parsed, IsFold, IsStateBlock, FoldOk;
    var control, layout := [first, second], [u];
    assert SomeFold(u, first, second) && layout[1..] == [];
    MadeFits(control, layout, [true], 0);
    FoldAccepted(u, first, second, link, rho);
    OtherHash(u, first, second, link, rho);
  }

  /** A FOLD IS TAKEN. A state block with its five lanes written out, the program after it, and their one fused
      program: Build takes the fold and reports no problem. */
  lemma FoldTaken()
    ensures var control, layout := [BlockUnit(), SuccessorUnit()], [FusedUnit()];
            && AllParsed(control) && AllParsed(layout) && TakenAsFold(control, 0, layout[0])
            && Fits(control, layout, 0) && Pieces(control, layout, 0) == [Folded(0, layout[0])]
  {
    BlockParsed();
    SuccessorParsed();
    FusedParsed();
    WitnessFold();
    hide IsFold, Parsed, Fits, TakenAsFold, Pieces;
    OneFold(BlockUnit(), SuccessorUnit(), FusedUnit(), LINK, Renaming());
  }
}
