/** tools/qwen_fold_layout.py: matching a folded layout against the control programs. */
module FoldLayout {
  import opened Basics
  import opened MilGraph
  import opened FusionCheck

  // ---- manifest entries ----

  datatype Kind = Lane | Ctx | StateIn
  datatype Src = Src(port: string, kind: Kind, lane: string, shape: seq<nat>)
  datatype Dst = Dst(port: string, lane: string, shape: seq<nat>)
  datatype StatePair = StatePair(inPort: string, inShape: seq<nat>, outPort: string, outShape: seq<nat>)
  datatype Entry = Entry(srcs: seq<Src>, dsts: seq<Dst>, states: seq<StatePair>, groupStart: bool, groupEnd: bool)

  /** A program of the control or of the layout: its manifest entry, its MIL with the lane labels, the
      hash its MIL file is named by, and the order its labels were entered in. */
  datatype Unit = Unit(entry: Entry, program: Program, hash: string, inNames: seq<string>, outNames: seq<string>)

  function LanesOf(srcs: seq<Src>): seq<string> {
    if srcs == [] then []
    else
      var before := LanesOf(srcs[..|srcs| - 1]);
      if srcs[|srcs| - 1].kind == Lane then before + [srcs[|srcs| - 1].lane] else before
  }

  function DstLanes(dsts: seq<Dst>): seq<string> {
    seq(|dsts|, i requires 0 <= i < |dsts| => dsts[i].lane)
  }

  /** The DeltaNet state block: lanes beta, gt, k, q and v in, lane o out. */
  predicate IsStateBlock(e: Entry) {
    multiset(LanesOf(e.srcs)) == multiset{"beta", "gt", "k", "q", "v"} && DstLanes(e.dsts) == ["o"]
  }

  /** A state input's lane is only a position; the order of rows carries no meaning. */
  function Plain(srcs: seq<Src>): seq<Src> {
    seq(|srcs|, i requires 0 <= i < |srcs| => if srcs[i].kind == StateIn then srcs[i].(lane := "") else srcs[i])
  }

  predicate SameEntry(a: Entry, b: Entry) {
    && multiset(Plain(a.srcs)) == multiset(Plain(b.srcs)) && multiset(a.dsts) == multiset(b.dsts)
    && multiset(a.states) == multiset(b.states) && a.groupStart == b.groupStart && a.groupEnd == b.groupEnd
  }

  predicate HasSrc(e: Entry, lane: string) {
    exists i :: 0 <= i < |e.srcs| && e.srcs[i].lane == lane
  }

  /** The shape a lane is written with: the last row of the lane. */
  function DstShape(dsts: seq<Dst>, lane: string): Option<seq<nat>> {
    if dsts == [] then None
    else if dsts[|dsts| - 1].lane == lane then Some(dsts[|dsts| - 1].shape)
    else DstShape(dsts[..|dsts| - 1], lane)
  }

  // ---- one layout program ----

  datatype Problem =
    | Crosses | OutputLane | MissingInput | MissingBlockInput | StateCount | NotTheChain
    | NothingLeft | OtherMil | OtherEntry | Unfinished

  /** Every output lane of the second program comes out with the same shape. */
  predicate WritesLanes(fused: Entry, second: Entry) {
    forall i :: 0 <= i < |second.dsts| ==>
      DstShape(fused.dsts, second.dsts[i].lane) == DstShape(second.dsts, second.dsts[i].lane)
  }

  predicate ReadsLanes2(fused: Entry, second: Entry) {
    forall i :: 0 <= i < |second.srcs| && second.srcs[i].kind == Lane && second.srcs[i].lane != "o" ==>
      HasSrc(fused, second.srcs[i].lane)
  }

  predicate ReadsBlock(fused: Entry, first: Entry) {
    forall i :: 0 <= i < |first.srcs| && first.srcs[i].kind == Lane ==> HasSrc(fused, first.srcs[i].lane)
  }

  /** The first name labelled with a lane. */
  function NameOf(names: seq<string>, labels: map<string, string>, lane: string): (n: Option<string>)
    ensures n.Some? ==> n.value in names && n.value in labels && labels[n.value] == lane
  {
    if names == [] then None
    else if names[0] in labels && labels[names[0]] == lane then Some(names[0])
    else NameOf(names[1..], labels, lane)
  }

  function LinkOf(first: Unit, second: Unit): Option<Link> {
    var arg, output := NameOf(second.inNames, second.program.graph.lanes, "o"),
      NameOf(first.outNames, first.program.outs, "o");
    if arg.None? || output.None? then None else Some(Link(arg.value, output.value))
  }

  ghost predicate AllParsed(units: seq<Unit>) {
    forall i :: 0 <= i < |units| ==> Parsed(units[i].program)
  }

  /** tools/mil_graph_equiv.py accepts the fused program as the chain of the other two. */
  predicate ChainEquivalent(fused: Unit, first: Unit, second: Unit)
    requires Parsed(fused.program) && Parsed(first.program) && Parsed(second.program)
  {
    var link := LinkOf(first, second);
    && link.Some?
    && var v := Verdict(ROUNDS, fused.program, first.program, second.program, link.value);
       v.Done? && v.value.equal
  }

  method CheckChain(fused: Unit, first: Unit, second: Unit) returns (ok: bool)
    requires Parsed(fused.program) && Parsed(first.program) && Parsed(second.program)
    ensures ok <==> ChainEquivalent(fused, first, second)
  {
    hide Verdict, Parsed;
    var link := LinkOf(first, second);
    if link.None? {
      return false;
    }
    var report := Compare(fused.program, first.program, second.program, link.value);
    ok := report.Done? && report.value.equal;
  }

  predicate FoldOk(fused: Unit, first: Unit, second: Unit)
    requires Parsed(fused.program) && Parsed(first.program) && Parsed(second.program)
  {
    && !HasSrc(fused.entry, "o") && WritesLanes(fused.entry, second.entry) && ReadsLanes2(fused.entry, second.entry)
    && ReadsBlock(fused.entry, first.entry) && |fused.entry.states| == |first.entry.states| + |second.entry.states|
    && ChainEquivalent(fused, first, second)
  }

  method CheckFold(fused: Unit, first: Unit, second: Unit) returns (problems: seq<Problem>)
    requires Parsed(fused.program) && Parsed(first.program) && Parsed(second.program)
    ensures problems == [] <==> FoldOk(fused, first, second)
  {
    hide ChainEquivalent, HasSrc, WritesLanes, ReadsLanes2, ReadsBlock, Parsed;
    problems := [];
    if HasSrc(fused.entry, "o") {
      problems := problems + [Crosses];
    }
    if !WritesLanes(fused.entry, second.entry) {
      problems := problems + [OutputLane];
    }
    if !ReadsLanes2(fused.entry, second.entry) {
      problems := problems + [MissingInput];
    }
    if !ReadsBlock(fused.entry, first.entry) {
      problems := problems + [MissingBlockInput];
    }
    if |fused.entry.states| != |first.entry.states| + |second.entry.states| {
      problems := problems + [StateCount];
    }
    var equal := CheckChain(fused, first, second);
    if !equal {
      problems := problems + [NotTheChain];
    }
  }

  predicate KeepOk(u: Unit, c: Unit) { u.hash == c.hash && SameEntry(u.entry, c.entry) }

  // ---- the layout ----

  /** What a layout program stands for: control program c unchanged, or c and c + 1 folded. */
  datatype Piece = Kept(c: nat) | Folded(c: nat, unit: Unit)

  function Mapping(p: Piece): seq<nat> { if p.Kept? then [p.c] else [p.c, p.c + 1] }

  /** The next layout program is taken for a fold: the next control program is a state block with a
      program after it, and the MIL is not the state block's own. */
  predicate TakenAsFold(control: seq<Unit>, cursor: nat, u: Unit) {
    cursor + 1 < |control| && IsStateBlock(control[cursor].entry) && u.hash != control[cursor].hash
  }

  /** The layout from here on matches the control programs from `cursor` on, and uses them all up. */
  ghost predicate Fits(control: seq<Unit>, layout: seq<Unit>, cursor: nat)
    requires AllParsed(control) && AllParsed(layout)
    decreases |layout|
  {
    if layout == [] then cursor == |control|
    else
      var u, rest := layout[0], layout[1..];
      assert forall i :: 0 <= i < |rest| ==> rest[i] == layout[i + 1];
      if TakenAsFold(control, cursor, u) then FoldOk(u, control[cursor], control[cursor + 1])
        && Fits(control, rest, cursor + 2)
      else cursor < |control| && KeepOk(u, control[cursor]) && Fits(control, rest, cursor + 1)
  }

  ghost function Pieces(control: seq<Unit>, layout: seq<Unit>, cursor: nat): seq<Piece>
    decreases |layout|
  {
    if layout == [] then []
    else if TakenAsFold(control, cursor, layout[0])
      then [Folded(cursor, layout[0])] + Pieces(control, layout[1..], cursor + 2)
    else [Kept(cursor)] + Pieces(control, layout[1..], cursor + 1)
  }

  /** build: no problem exactly when the layout fits, and then its programs are the pieces. */
  method Build(control: seq<Unit>, layout: seq<Unit>) returns (pieces: seq<Piece>, problems: seq<Problem>)
    requires AllParsed(control) && AllParsed(layout)
    ensures problems == [] <==> Fits(control, layout, 0)
    ensures problems == [] ==> pieces == Pieces(control, layout, 0)
  {
    hide Parsed, FoldOk, KeepOk, TakenAsFold;
    pieces, problems := [], [];
    var cursor, i := 0, 0;
    assert layout[0..] == layout;
    while i < |layout|
      invariant 0 <= i <= |layout| && AllParsed(layout[i..])
      invariant problems != [] ==> !Fits(control, layout, 0)
      invariant problems == [] ==> (Fits(control, layout, 0) <==> Fits(control, layout[i..], cursor))
      invariant problems == [] ==> Pieces(control, layout, 0) == pieces + Pieces(control, layout[i..], cursor)
    {
      var u := layout[i];
      assert layout[i..][0] == u && layout[i..][1..] == layout[i + 1..];
      ghost var ahead := pieces;
      TakenFits(control, cursor, u);
      if TakenAsFold(control, cursor, u) {
        var found := CheckFold(u, control[cursor], control[cursor + 1]);
        problems := problems + found;
        pieces := pieces + [Folded(cursor, u)];
        cursor := cursor + 2;
      } else {
        if cursor >= |control| {
          problems := problems + [NothingLeft];
          break;
        }
        var found := CheckKeep(u, control[cursor]);
        problems := problems + found;
        pieces := pieces + [Kept(cursor)];
        cursor := cursor + 1;
      }
      i := i + 1;
    }
    if problems == [] && cursor != |control| {
      problems := [Unfinished];
    } else if cursor != |control| {
      problems := problems + [Unfinished];
    }
  }

  lemma TakenFits(control: seq<Unit>, cursor: nat, u: Unit)
    ensures TakenAsFold(control, cursor, u) ==> cursor + 1 < |control|
  {
  }

  method CheckKeep(u: Unit, c: Unit) returns (problems: seq<Problem>)
    ensures problems == [] <==> KeepOk(u, c)
  {
    problems := [];
    if u.hash != c.hash {
      problems := problems + [OtherMil];
    }
    if !SameEntry(u.entry, c.entry) {
      problems := problems + [OtherEntry];
    }
  }

  // ---- the mapping ----

  function Mapped(pieces: seq<Piece>): seq<nat> {
    if pieces == [] then [] else Mapping(pieces[0]) + Mapped(pieces[1..])
  }

  function Range(a: nat, b: nat): seq<nat>
    requires a <= b
  {
    seq<nat>(b - a, i requires 0 <= i < b - a => a + i)
  }

  lemma MappedCons(p: Piece, ps: seq<Piece>)
    ensures Mapped([p] + ps) == Mapping(p) + Mapped(ps)
  {
    assert ([p] + ps)[0] == p && ([p] + ps)[1..] == ps;
  }

  lemma MappingIs(p: Piece)
    ensures Mapping(p) == if p.Kept? then [p.c] else [p.c, p.c + 1]
  {
  }

  lemma RangeCons(a: nat, b: nat)
    ensures a < b ==> Range(a, b) == [a] + Range(a + 1, b)
    ensures a + 1 < b ==> Range(a, b) == [a, a + 1] + Range(a + 2, b)
    ensures Range(b, b) == []
  {
  }

  lemma FitsRest(control: seq<Unit>, layout: seq<Unit>, cursor: nat)
    requires AllParsed(control) && AllParsed(layout) && Fits(control, layout, cursor) && layout != []
    ensures AllParsed(layout[1..])
    ensures var u, rest := layout[0], layout[1..];
            if TakenAsFold(control, cursor, u) then
              && cursor + 1 < |control| && FoldOk(u, control[cursor], control[cursor + 1])
              && Fits(control, rest, cursor + 2)
              && Pieces(control, layout, cursor) == [Folded(cursor, u)] + Pieces(control, rest, cursor + 2)
            else
              && cursor < |control| && KeepOk(u, control[cursor]) && Fits(control, rest, cursor + 1)
              && Pieces(control, layout, cursor) == [Kept(cursor)] + Pieces(control, rest, cursor + 1)
  {
    hide Parsed, FoldOk, KeepOk, IsStateBlock;
  }

  /** MAPPING. The pieces of a layout that fits are the control programs, each once and in order. */
  lemma {:induction false} MappingCovers(control: seq<Unit>, layout: seq<Unit>, cursor: nat)
    requires AllParsed(control) && AllParsed(layout) && Fits(control, layout, cursor)
    ensures cursor <= |control| && Mapped(Pieces(control, layout, cursor)) == Range(cursor, |control|)
    decreases |layout|
  {
    hide *;
    RangeCons(cursor, |control|);
    if layout == [] {
      FitsNothing(control, cursor);
    } else {
      FitsRest(control, layout, cursor);
      var u, rest := layout[0], layout[1..];
      if TakenAsFold(control, cursor, u) {
        MappingCovers(control, rest, cursor + 2);
        MappedCons(Folded(cursor, u), Pieces(control, rest, cursor + 2));
        MappingIs(Folded(cursor, u));
      } else {
        MappingCovers(control, rest, cursor + 1);
        MappedCons(Kept(cursor), Pieces(control, rest, cursor + 1));
        MappingIs(Kept(cursor));
      }
    }
  }

  lemma FitsNothing(control: seq<Unit>, cursor: nat)
    requires AllParsed(control) && AllParsed([]) && Fits(control, [], cursor)
    ensures cursor == |control| && Mapped(Pieces(control, [], cursor)) == []
  {
  }
}
