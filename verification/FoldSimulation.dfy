/** The whole run of a folded layout against the whole run of its control. */
module FoldSimulation {
  import opened MilGraph
  import opened FusionCheck
  import opened FusionTheorems
  import opened FoldLayout
  import opened FoldRun

  // ---- what the records guarantee ----

  predicate LabelledO(p: Program, a: string) { a in p.graph.args && a in p.graph.lanes && p.graph.lanes[a] == "o" }

  ghost predicate OneArg(p: Program) {
    forall a, b :: LabelledO(p, a) && LabelledO(p, b) ==> a == b
  }

  ghost predicate OneOutput(p: Program) {
    forall m, n :: m in p.outputs && n in p.outputs && m in p.outs && n in p.outs && p.outs[m] == p.outs[n] == "o" ==>
      m == n
  }

  /** The entry lists the lanes the labelled program reads and writes, the labels name outputs, and
      lane o names one argument and one output. */
  ghost predicate Described(u: Unit) {
    && Runs(u.program)
    && (forall a :: a in u.program.graph.args && !IsState(u.program.graph.lanes[a]) ==>
         HasSrc(u.entry, u.program.graph.lanes[a]))
    && (forall lane :: lane in Sources(u.program) && !IsState(lane) ==> lane in DstLanes(u.entry.dsts))
    && (forall n :: n in u.outNames ==> n in u.program.outputs)
    && OneArg(u.program) && OneOutput(u.program)
  }

  ghost predicate AllDescribed(units: seq<Unit>) {
    forall i :: 0 <= i < |units| ==> Described(units[i])
  }

  ghost predicate AllShallow(units: seq<Unit>) {
    forall i, n :: 0 <= i < |units| && n in units[i].program.graph.nodes ==> Shallow(units[i].program.graph, n, ROUNDS)
  }

  /** Lane o is read only by the program right after one that writes it. */
  ghost predicate OneReader(control: seq<Unit>) {
    forall c :: 0 <= c < |control| && ReadsO(control[c].program) ==> WritesO(control, c - 1)
  }

  ghost predicate WritesO(control: seq<Unit>, c: int) {
    0 <= c < |control| && "o" in Sources(control[c].program)
  }

  /** A state block and the program after it use different state labels. */
  ghost predicate PairsApart(control: seq<Unit>) {
    forall c :: 0 <= c && c + 1 < |control| && IsStateBlock(control[c].entry) ==>
      StatesApart(control[c].program, control[c + 1].program)
  }

  // ---- a fold that passes its checks ----

  lemma FoldPairs(fused: Unit, first: Unit, second: Unit)
    requires Described(fused) && Described(first) && Described(second)
    requires Parsed(fused.program) && Parsed(first.program) && Parsed(second.program)
    requires IsStateBlock(first.entry) && StatesApart(first.program, second.program) && FoldOk(fused, first, second)
    ensures LinkOf(first, second).Some? && Pairs(first.program, second.program, LinkOf(first, second).value)
            && !ReadsO(fused.program)
  {
    hide WellFormed, Parsed, LaneSource, StatesApart, Verdict, WritesLanes, ReadsLanes2, ReadsBlock, Described,
      IsStateBlock, HasSrc, LinkOf, Pairs, ReadsO, Sources;
    var link := LinkOf(first, second).value;
    VerdictMeans(ROUNDS, fused.program, first.program, second.program, link);
    BlockWritesO(first);
    NeverReadsO(fused);
    LinkNames(first, second);
    LinkedPair(first, second, link);
  }

  lemma NeverReadsO(u: Unit)
    requires Described(u) && !HasSrc(u.entry, "o")
    ensures !ReadsO(u.program)
  {
    hide WellFormed, LaneSource, HasSrc, OneOutput;
    NotAState();
  }

  /** The link joins the one output and the one argument labelled o. */
  lemma LinkNames(first: Unit, second: Unit)
    requires Described(first) && LinkOf(first, second).Some?
    ensures var link := LinkOf(first, second).value;
            && link.output in first.program.outputs && link.output in first.program.outs
            && first.program.outs[link.output] == "o"
            && link.arg in second.program.graph.lanes && second.program.graph.lanes[link.arg] == "o"
  {
    hide Runs, LaneSource, OneArg, OneOutput, HasSrc;
  }

  lemma LinkedPair(first: Unit, second: Unit, link: Link)
    requires Described(first) && Described(second) && StatesApart(first.program, second.program)
    requires forall lane :: lane in Sources(first.program) && !IsState(lane) ==> lane == "o"
    requires link.output in first.program.graph.nodes && link.arg in second.program.graph.args
    requires link.output in first.program.outputs && link.output in first.program.outs
             && first.program.outs[link.output] == "o"
    requires link.arg in second.program.graph.lanes && second.program.graph.lanes[link.arg] == "o"
    ensures Pairs(first.program, second.program, link)
  {
    hide WellFormed, Parsed, LaneSource, StatesApart, HasSrc, IsState;
    assert Labelled(second.program.graph);
    assert LabelledO(second.program, link.arg);
    forall a | a in second.program.graph.args
      ensures second.program.graph.lanes[a] == "o" <==> a == link.arg
    {
      assert second.program.graph.lanes[a] == "o" ==> LabelledO(second.program, a);
    }
  }

  lemma BlockWritesO(first: Unit)
    requires Described(first) && IsStateBlock(first.entry)
    ensures forall lane :: lane in Sources(first.program) && !IsState(lane) ==> lane == "o"
  {
    hide WellFormed, Parsed, LaneSource, IsState;
  }

  lemma FoldChains<V(!new)>(fused: Unit, first: Unit, second: Unit, sem: Sem<V>, env: Env<V>)
    requires Described(fused) && Described(first) && Described(second)
    requires Parsed(fused.program) && Parsed(first.program) && Parsed(second.program) && FoldOk(fused, first, second)
    requires LinkOf(first, second).Some? && Pairs(first.program, second.program, LinkOf(first, second).value)
    requires forall n :: n in fused.program.graph.nodes ==> Shallow(fused.program.graph, n, ROUNDS)
    ensures Chains(fused.program, first.program, second.program, LinkOf(first, second).value, sem, env)
  {
    hide WellFormed, Parsed, LaneSource, StatesApart, Verdict, WritesLanes, ReadsLanes2, ReadsBlock, LinkOf, ChainNames,
      SameLane;
    FusionSound(ROUNDS, fused.program, first.program, second.program, LinkOf(first, second).value, sem, env);
  }

  // ---- runs ----

  /** One memory before each control program and one after the last. */
  ghost predicate ControlRun<V(!new)>(control: seq<Unit>, sem: Sem<V>, trace: seq<Memory<V>>)
    requires AllDescribed(control)
  {
    |trace| == |control| + 1 && forall c :: 0 <= c < |control| ==>
        Described(control[c])
        && Ran(trace[c], control[c].program, c, sem, trace[c + 1])
  }

  /** Programs that pass the keep check run alike. */
  ghost predicate KeptAlike(control: seq<Unit>, layout: seq<Unit>) {
    forall c, i :: 0 <= c < |control| && 0 <= i < |layout| && KeepOk(layout[i], control[c]) ==>
      SameMil(layout[i].program, control[c].program) && SameLabels(layout[i].program, control[c].program)
  }

  /** The run of a layout from control position `cursor` on: every layout program runs itself, a kept one
      on the states of the control program it stands for, a folded one on those of two. */
  ghost predicate LayoutRun<V(!new)>(control: seq<Unit>, layout: seq<Unit>, cursor: nat, sem: Sem<V>,
                                     trace: seq<Memory<V>>)
    requires AllDescribed(control) && AllDescribed(layout)
    decreases |layout|
  {
    && |trace| == |layout| + 1
    && (layout != [] ==>
          if TakenAsFold(control, cursor, layout[0]) then
            && Described(layout[0]) && FusedRan(trace[0], layout[0].program, control[cursor].program, cursor, sem,
                 trace[1])
            && AllDescribed(layout[1..]) && LayoutRun(control, layout[1..], cursor + 2, sem, trace[1..])
          else
            && Described(layout[0]) && Ran(trace[0], layout[0].program, cursor, sem, trace[1])
            && AllDescribed(layout[1..]) && LayoutRun(control, layout[1..], cursor + 1, sem, trace[1..]))
  }

  /** One layout program. */
  lemma FoldStep<V(!new)>(control: seq<Unit>, u: Unit, cursor: nat, sem: Sem<V>, trace: seq<Memory<V>>, m: Memory<V>,
                          next: Memory<V>)
    requires AllDescribed(control) && AllParsed(control) && ControlRun(control, sem, trace) && PairsApart(control)
    requires Described(u) && Parsed(u.program)
             && forall n :: n in u.program.graph.nodes ==> Shallow(u.program.graph, n, ROUNDS)
    requires TakenAsFold(control, cursor, u) && FoldOk(u, control[cursor], control[cursor + 1])
    requires FusedRan(m, u.program, control[cursor].program, cursor, sem, next)
    requires Agree(trace[cursor], m, WritesO(control, cursor - 1))
    ensures Agree(trace[cursor + 2], next, WritesO(control, cursor + 1))
  {
    hide Described, Parsed, FoldOk, IsStateBlock, StatesApart, FusedRan, Ran, Agree, Chains, Pairs, ReadsO, Runs,
      Shallow, LinkOf;
    var first, second := control[cursor], control[cursor + 1];
    assert AllParsed(control) && Parsed(first.program) && Parsed(second.program);
    FoldPairs(u, first, second);
    var link := LinkOf(first, second).value;
    FoldChains(u, first, second, sem, FusedReads(trace[cursor], first.program, cursor));
    AllRun(control, cursor);
    AllRun(control, cursor + 1);
    UnitRuns(u);
    assert Ran(trace[cursor], first.program, cursor, sem, trace[cursor + 1]);
    assert Ran(trace[cursor + 1], second.program, cursor + 1, sem, trace[cursor + 1 + 1]);
    FoldAgrees(trace[cursor], trace[cursor + 1], trace[cursor + 2], m, next, WritesO(control, cursor - 1), u.program,
      first.program,
               second.program, link, cursor, sem);
  }

  lemma AllRun(control: seq<Unit>, c: nat)
    requires AllDescribed(control) && c < |control|
    ensures Described(control[c]) && Runs(control[c].program)
  {
    hide Runs, OneArg, OneOutput, LaneSource;
  }

  lemma UnitRuns(u: Unit)
    requires Described(u)
    ensures Runs(u.program)
  {
  }

  lemma KeepStep<V(!new)>(control: seq<Unit>, layout: seq<Unit>, cursor: nat, sem: Sem<V>, trace: seq<Memory<V>>,
                          m: Memory<V>, next: Memory<V>)
    requires AllDescribed(control) && ControlRun(control, sem, trace) && OneReader(control)
             && KeptAlike(control, layout)
    requires layout != [] && cursor < |control| && KeepOk(layout[0], control[cursor])
    requires Described(layout[0]) && Ran(m, layout[0].program, cursor, sem, next)
    requires Agree(trace[cursor], m, WritesO(control, cursor - 1))
    ensures Agree(trace[cursor + 1], next, WritesO(control, cursor))
  {
    hide Described, Agree, Ran, ReadsO, Runs, KeepOk, SameMil, SameLabels;
    AllRun(control, cursor);
    UnitRuns(layout[0]);
    assert Ran(trace[cursor], control[cursor].program, cursor, sem, trace[cursor + 1]);
    KeptAgrees(trace[cursor], m, WritesO(control, cursor - 1), control[cursor].program, layout[0].program, cursor, sem,
               trace[cursor + 1], next);
  }

  /** WHOLE-RUN SIMULATION, from any position. */
  lemma {:induction false} RunAgrees<V(!new)>(control: seq<Unit>, layout: seq<Unit>, cursor: nat, sem: Sem<V>,
                                              trace: seq<Memory<V>>, folded: seq<Memory<V>>)
    requires AllDescribed(control) && AllDescribed(layout) && AllShallow(layout) && AllParsed(control)
             && AllParsed(layout)
    requires OneReader(control) && PairsApart(control) && KeptAlike(control, layout)
    requires Fits(control, layout, cursor) && cursor <= |control|
    requires ControlRun(control, sem, trace) && LayoutRun(control, layout, cursor, sem, folded)
    requires Agree(trace[cursor], folded[0], WritesO(control, cursor - 1))
    ensures Agree(trace[|control|], folded[|layout|], WritesO(control, |control| - 1))
    decreases |layout|
  {
    hide Described, Agree, Ran, FusedRan, OneReader, PairsApart, AllParsed, FoldOk, KeepOk, WritesO, Fits, TakenAsFold,
      KeptAlike;
    if layout == [] {
      FitsNothing(control, cursor);
    } else {
      FitsRest(control, layout, cursor);
      var u, rest, later := layout[0], layout[1..], folded[1..];
      RestShallow(layout);
      RestAlike(control, layout);
      assert later[0] == folded[1] && later[|rest|] == folded[|layout|];
      if TakenAsFold(control, cursor, u) {
        FirstParsed(layout);
        FoldStep(control, u, cursor, sem, trace, folded[0], folded[1]);
        RunAgrees(control, rest, cursor + 2, sem, trace, later);
      } else {
        KeepStep(control, layout, cursor, sem, trace, folded[0], folded[1]);
        RunAgrees(control, rest, cursor + 1, sem, trace, later);
      }
    }
  }

  lemma FirstParsed(layout: seq<Unit>)
    requires AllParsed(layout) && layout != []
    ensures Parsed(layout[0].program)
  {
    hide Parsed;
  }

  lemma RestShallow(layout: seq<Unit>)
    requires AllShallow(layout) && layout != []
    ensures AllShallow(layout[1..])
            && forall n :: n in layout[0].program.graph.nodes ==> Shallow(layout[0].program.graph, n, ROUNDS)
  {
    hide Shallow;
    var rest := layout[1..];
    assert forall i :: 0 <= i < |rest| ==> rest[i] == layout[i + 1];
  }

  lemma RestAlike(control: seq<Unit>, layout: seq<Unit>)
    requires KeptAlike(control, layout) && layout != []
    ensures KeptAlike(control, layout[1..])
  {
    hide KeepOk, SameMil, SameLabels;
    var rest := layout[1..];
    assert forall i :: 0 <= i < |rest| ==> rest[i] == layout[i + 1];
  }

  /** A FOLDED LAYOUT COMPUTES WHAT ITS CONTROL COMPUTES. When the layout has no problem, lane o has no
      other reader, the states of each pair are told apart and programs that pass the keep check run
      alike, both runs from one memory end with every state and every lane but o equal. */
  lemma LayoutComputesControl<V(!new)>(control: seq<Unit>, layout: seq<Unit>, sem: Sem<V>, trace: seq<Memory<V>>,
                                       folded: seq<Memory<V>>)
    requires AllDescribed(control) && AllDescribed(layout) && AllShallow(layout) && AllParsed(control)
             && AllParsed(layout)
    requires OneReader(control) && PairsApart(control) && KeptAlike(control, layout) && Fits(control, layout, 0)
    requires ControlRun(control, sem, trace) && LayoutRun(control, layout, 0, sem, folded) && trace[0] == folded[0]
    ensures forall lane :: lane != "o" ==> trace[|control|].lanes(lane) == folded[|layout|].lanes(lane)
    ensures forall d, tag :: trace[|control|].states(d, tag) == folded[|layout|].states(d, tag)
  {
    hide Described, Ran, FusedRan, OneReader, PairsApart, KeptAlike, AllParsed, WritesO, Fits, LayoutRun;
    SameAgrees(trace[0], WritesO(control, -1));
    RunLengths(control, layout, sem, trace, folded);
    RunAgrees(control, layout, 0, sem, trace, folded);
  }

  lemma SameAgrees<V(!new)>(m: Memory<V>, onO: bool)
    ensures Agree(m, m, onO)
  {
  }

  lemma RunLengths<V(!new)>(control: seq<Unit>, layout: seq<Unit>, sem: Sem<V>, trace: seq<Memory<V>>,
                            folded: seq<Memory<V>>)
    requires AllDescribed(control) && AllDescribed(layout) && ControlRun(control, sem, trace)
             && LayoutRun(control, layout, 0, sem, folded)
    ensures |trace| == |control| + 1 && |folded| == |layout| + 1
  {
  }
}
