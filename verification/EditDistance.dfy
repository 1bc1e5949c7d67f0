/** The word error rate of tools/parakeet_encoder_islands.py. */
module EditDistance {
  import opened Basics

  type Word = string

  function Min(a: nat, b: nat): nat { if a <= b then a else b }

  function Cost(x: Word, y: Word): nat { if x == y then 0 else 1 }

  /** What cell (i, j) of the table holds. */
  function Cell(a: seq<Word>, b: seq<Word>, i: nat, j: nat): nat
    requires i <= |a| && j <= |b|
    decreases i + j
  {
    if i == 0 then j
    else if j == 0 then i
    else Min(Min(Cell(a, b, i - 1, j) + 1, Cell(a, b, i, j - 1) + 1),
      Cell(a, b, i - 1, j - 1) + Cost(a[i - 1], b[j - 1]))
  }

  /** One cell from its neighbours. */
  lemma CellIs(a: seq<Word>, b: seq<Word>, i: nat, j: nat)
    requires i <= |a| && j <= |b|
    ensures i == 0 ==> Cell(a, b, i, j) == j
    ensures j == 0 ==> Cell(a, b, i, j) == i
    ensures i > 0 && j > 0 ==>
              Cell(a, b, i, j) == Min(Min(Cell(a, b, i - 1, j) + 1, Cell(a, b, i, j - 1) + 1),
                Cell(a, b, i - 1, j - 1) + Cost(a[i - 1], b[j - 1]))
  {
    hide Min, Cost;
  }

  /** The final cell. */
  function Distance(a: seq<Word>, b: seq<Word>): nat { Cell(a, b, |a|, |b|) }

  // ---- the table, filled in place ----

  ghost predicate CellsRight(d: array2<nat>, a: seq<Word>, b: seq<Word>, rows: nat, cols: nat)
    requires d.Length0 == |a| + 1 && d.Length1 == |b| + 1
    reads d
  {
    forall i, j :: 0 <= i <= |a| && 0 <= j <= |b| && (i < rows || j == 0 || (i == rows && j < cols)) ==>
      d[i, j] == Cell(a, b, i, j)
  }

  method FillTable(a: seq<Word>, b: seq<Word>) returns (r: nat)
    ensures r == Distance(a, b)
  {
    hide Min, Cell;
    var d := new nat[|a| + 1, |b| + 1]((i, j) => 0);
    for i := 0 to |a| + 1
      invariant forall k :: 0 <= k < i ==> d[k, 0] == k
    {
      d[i, 0] := i;
    }
    for j := 0 to |b| + 1
      invariant forall k :: 0 <= k <= |a| ==> d[k, 0] == k
      invariant forall k :: 0 <= k < j ==> d[0, k] == k
    {
      d[0, j] := j;
    }
    Borders(a, b);
    for i := 1 to |a| + 1
      invariant CellsRight(d, a, b, i, 1)
    {
      for j := 1 to |b| + 1
        invariant CellsRight(d, a, b, i, j)
      {
        CellIs(a, b, i, j);
        var cost := if a[i - 1] == b[j - 1] then 0 else 1;
        d[i, j] := Min(Min(d[i - 1, j] + 1, d[i, j - 1] + 1), d[i - 1, j - 1] + cost);
      }
    }
    r := d[|a|, |b|];
  }

  lemma Borders(a: seq<Word>, b: seq<Word>)
    ensures forall i :: 0 <= i <= |a| ==> Cell(a, b, i, 0) == i
    ensures forall j :: 0 <= j <= |b| ==> Cell(a, b, 0, j) == j
  {
  }

  /** wer, on words: no reference counts as right or entirely wrong. */
  method WordErrorRate(ref: seq<Word>, hyp: seq<Word>) returns (rate: real)
    ensures ref == [] ==> rate == if hyp == [] then 0.0 else 1.0
    ensures ref != [] ==> rate == Distance(ref, hyp) as real / |ref| as real
  {
    if ref == [] {
      return if hyp == [] then 0.0 else 1.0;
    }
    var d := FillTable(ref, hyp);
    rate := d as real / |ref| as real;
  }

  // ---- edit scripts ----

  datatype Edit = Keep | Substitute(word: Word) | Insert(word: Word) | Delete
  /** Read the words from the left, editing as the script says; all of them must be used up. */
  function Apply(script: seq<Edit>, a: seq<Word>): Option<seq<Word>>
    decreases |script|
  {
    if script == [] then (if a == [] then Some([]) else None)
    else
      match script[0]
      case Keep => if a == [] then None else Before(a[0], Apply(script[1..], a[1..]))
      case Substitute(w) => if a == [] then None else Before(w, Apply(script[1..], a[1..]))
      case Insert(w) => Before(w, Apply(script[1..], a))
      case Delete => if a == [] then None else Apply(script[1..], a[1..])
  }

  function Before(w: Word, r: Option<seq<Word>>): Option<seq<Word>> {
    if r.None? then None else Some([w] + r.value)
  }

  /** Insertions, deletions and substitutions. */
  function Edits(script: seq<Edit>): nat {
    if script == [] then 0 else (if script[0].Keep? then 0 else 1) + Edits(script[1..])
  }

  // ---- no script is cheaper ----

  lemma MinBelow(a: nat, b: nat, c: nat)
    ensures Min(Min(a, b), c) <= a && Min(Min(a, b), c) <= b && Min(Min(a, b), c) <= c
  {
  }

  lemma MinGrows(a: nat, b: nat, c: nat, d: nat, e: nat, f: nat, cost: nat, k: nat)
    requires a <= d + k && b <= e + k && c <= f + k
    ensures Min(Min(a + 1, b + 1), c + cost) <= Min(Min(d + 1, e + 1), f + cost) + k
  {
  }

  lemma {:induction false} DeleteFirst(x: Word, a: seq<Word>, b: seq<Word>, i: nat, j: nat)
    requires i <= |a| && j <= |b|
    ensures Cell([x] + a, b, i + 1, j) <= Cell(a, b, i, j) + 1
    decreases i + j
  {
    hide Cell, Min, Cost;
    var xa := [x] + a;
    CellIs(xa, b, i + 1, j);
    CellIs(a, b, i, j);
    if j > 0 {
      DeleteFirst(x, a, b, i, j - 1);
      if i > 0 {
        DeleteFirst(x, a, b, i - 1, j);
        DeleteFirst(x, a, b, i - 1, j - 1);
        assert xa[i] == a[i - 1];
        MinGrows(Cell(xa, b, i, j), Cell(xa, b, i + 1, j - 1), Cell(xa, b, i, j - 1),
                 Cell(a, b, i - 1, j), Cell(a, b, i, j - 1), Cell(a, b, i - 1, j - 1), Cost(a[i - 1], b[j - 1]), 1);
      } else {
        CellIs(a, b, i, j - 1);
        MinBelow(Cell(xa, b, i, j) + 1, Cell(xa, b, i + 1, j - 1) + 1, Cell(xa, b, i, j - 1) + Cost(xa[i], b[j - 1]));
      }
    }
  }

  lemma {:induction false} InsertFirst(a: seq<Word>, y: Word, b: seq<Word>, i: nat, j: nat)
    requires i <= |a| && j <= |b|
    ensures Cell(a, [y] + b, i, j + 1) <= Cell(a, b, i, j) + 1
    decreases i + j
  {
    hide Cell, Min, Cost;
    var yb := [y] + b;
    CellIs(a, yb, i, j + 1);
    CellIs(a, b, i, j);
    if i > 0 {
      InsertFirst(a, y, b, i - 1, j);
      if j > 0 {
        InsertFirst(a, y, b, i, j - 1);
        InsertFirst(a, y, b, i - 1, j - 1);
        assert yb[j] == b[j - 1];
        MinGrows(Cell(a, yb, i - 1, j + 1), Cell(a, yb, i, j), Cell(a, yb, i - 1, j),
                 Cell(a, b, i - 1, j), Cell(a, b, i, j - 1), Cell(a, b, i - 1, j - 1), Cost(a[i - 1], b[j - 1]), 1);
      } else {
        CellIs(a, b, i - 1, j);
        MinBelow(Cell(a, yb, i - 1, j + 1) + 1, Cell(a, yb, i, j) + 1, Cell(a, yb, i - 1, j) + Cost(a[i - 1], yb[j]));
      }
    }
  }

  lemma {:induction false} ReplaceFirst(x: Word, a: seq<Word>, y: Word, b: seq<Word>, i: nat, j: nat)
    requires i <= |a| && j <= |b|
    ensures Cell([x] + a, [y] + b, i + 1, j + 1) <= Cell(a, b, i, j) + Cost(x, y)
    decreases i + j
  {
    hide Cell, Min, Cost;
    var xa, yb := [x] + a, [y] + b;
    CellIs(xa, yb, i + 1, j + 1);
    CellIs(a, b, i, j);
    MinBelow(Cell(xa, yb, i, j + 1) + 1, Cell(xa, yb, i + 1, j) + 1, Cell(xa, yb, i, j) + Cost(xa[i], yb[j]));
    if i > 0 && j > 0 {
      ReplaceFirst(x, a, y, b, i - 1, j);
      ReplaceFirst(x, a, y, b, i, j - 1);
      ReplaceFirst(x, a, y, b, i - 1, j - 1);
      assert xa[i] == a[i - 1] && yb[j] == b[j - 1];
      MinGrows(Cell(xa, yb, i, j + 1), Cell(xa, yb, i + 1, j), Cell(xa, yb, i, j),
               Cell(a, b, i - 1, j), Cell(a, b, i, j - 1), Cell(a, b, i - 1, j - 1), Cost(a[i - 1], b[j - 1]),
                 Cost(x, y));
    } else if i > 0 {
      ReplaceFirst(x, a, y, b, i - 1, j);
      CellIs(a, b, i - 1, j);
    } else if j > 0 {
      ReplaceFirst(x, a, y, b, i, j - 1);
      CellIs(a, b, i, j - 1);
    } else {
      CellIs(xa, yb, i, j);
    }
  }

  lemma {:induction false} NoCheaper(script: seq<Edit>, a: seq<Word>, b: seq<Word>)
    requires Apply(script, a) == Some(b)
    ensures Distance(a, b) <= Edits(script)
    decreases |script|
  {
    hide Cell;
    if script == [] {
      Nothing();
    } else {
      var rest := script[1..];
      match script[0]
      case Keep =>
        var b1 := Apply(rest, a[1..]).value;
        NoCheaper(rest, a[1..], b1);
        ReplaceFirst(a[0], a[1..], a[0], b1, |a| - 1, |b1|);
        assert [a[0]] + a[1..] == a;
      case Substitute(w) =>
        var b1 := Apply(rest, a[1..]).value;
        NoCheaper(rest, a[1..], b1);
        ReplaceFirst(a[0], a[1..], w, b1, |a| - 1, |b1|);
        assert [a[0]] + a[1..] == a;
      case Insert(w) =>
        var b1 := Apply(rest, a).value;
        NoCheaper(rest, a, b1);
        InsertFirst(a, w, b1, |a|, |b1|);
      case Delete =>
        NoCheaper(rest, a[1..], b);
        DeleteFirst(a[0], a[1..], b, |a| - 1, |b|);
        assert [a[0]] + a[1..] == a;
    }
  }

  lemma Nothing()
    ensures Distance([], []) == 0
  {
  }

  // ---- and one is as cheap ----

  /** One more edit at the end. */
  function Extend(e: Edit, a: seq<Word>, x: Word, b: seq<Word>): (seq<Word>, seq<Word>) {
    match e
    case Keep => (a + [x], b + [x])
    case Substitute(w) => (a + [x], b + [w])
    case Insert(w) => (a, b + [w])
    case Delete => (a + [x], b)
  }

  lemma ApplySingle(e: Edit, x: Word)
    ensures Apply([e], Extend(e, [], x, []).0) == Some(Extend(e, [], x, []).1)
  {
    var a, s := [x], [e];
    assert [] + [x] == a && a[0] == x && a[1..] == [] && s[0] == e && s[1..] == [];
    match e
    case Keep => assert [x] + [] == [] + [x];
    case Substitute(w) => assert [w] + [] == [] + [w];
    case Insert(w) => assert [w] + [] == [] + [w];
    case Delete =>
  }

  lemma {:induction false} ApplyOne(script: seq<Edit>, e: Edit, a: seq<Word>, x: Word, b: seq<Word>)
    requires Apply(script, a) == Some(b)
    ensures var (a1, b1) := Extend(e, a, x, b); Apply(script + [e], a1) == Some(b1)
    ensures Edits(script + [e]) == Edits(script) + if e.Keep? then 0 else 1
    decreases |script|
  {
    var (a1, b1) := Extend(e, a, x, b);
    if script == [] {
      assert script + [e] == [e];
      ApplySingle(e, x);
    } else {
      assert (script + [e])[0] == script[0] && (script + [e])[1..] == script[1..] + [e];
      var rest := script[1..];
      if script[0].Insert? {
        ApplyOne(rest, e, a, x, Apply(rest, a).value);
        assert b1 == [script[0].word] + Extend(e, a, x, Apply(rest, a).value).1;
      } else {
        var b0 := Apply(rest, a[1..]).value;
        ApplyOne(rest, e, a[1..], x, b0);
        assert a1[0] == a[0] && a1[1..] == Extend(e, a[1..], x, b0).0;
        if !script[0].Delete? {
          assert b1 == [b[0]] + Extend(e, a[1..], x, b0).1;
        }
      }
    }
  }

  lemma {:induction false} Cheapest(a: seq<Word>, b: seq<Word>, i: nat, j: nat) returns (script: seq<Edit>)
    requires i <= |a| && j <= |b|
    ensures Apply(script, a[..i]) == Some(b[..j]) && Edits(script) == Cell(a, b, i, j)
    decreases i + j
  {
    hide Apply, Edits, Cell;
    CellIs(a, b, i, j);
    assert i > 0 ==> a[..i] == a[..i - 1] + [a[i - 1]];
    assert j > 0 ==> b[..j] == b[..j - 1] + [b[j - 1]];
    var x := if i == 0 then "" else a[i - 1];
    if i == 0 && j == 0 {
      script := [];
      EmptyScript();
    } else if j == 0 || (i > 0 && Cell(a, b, i, j) == Cell(a, b, i - 1, j) + 1) {
      CellIs(a, b, i - 1, j);
      script := Cheapest(a, b, i - 1, j);
      ApplyOne(script, Delete, a[..i - 1], x, b[..j]);
      script := script + [Delete];
    } else if i == 0 || Cell(a, b, i, j) == Cell(a, b, i, j - 1) + 1 {
      CellIs(a, b, i, j - 1);
      script := Cheapest(a, b, i, j - 1);
      ApplyOne(script, Insert(b[j - 1]), a[..i], x, b[..j - 1]);
      script := script + [Insert(b[j - 1])];
    } else {
      var e := if a[i - 1] == b[j - 1] then Keep else Substitute(b[j - 1]);
      script := Cheapest(a, b, i - 1, j - 1);
      ApplyOne(script, e, a[..i - 1], x, b[..j - 1]);
      script := script + [e];
    }
  }

  lemma EmptyScript()
    ensures Apply([], []) == Some([]) && Edits([]) == 0
  {
  }

  /** OPTIMAL. The final cell is the least number of edits over all scripts from one sequence to the
      other. */
  lemma Optimal(a: seq<Word>, b: seq<Word>)
    ensures exists script :: Apply(script, a) == Some(b) && Edits(script) == Distance(a, b)
    ensures forall script :: Apply(script, a) == Some(b) ==> Distance(a, b) <= Edits(script)
  {
    hide Cell, Apply, Edits;
    var best := Cheapest(a, b, |a|, |b|);
    assert a[..|a|] == a && b[..|b|] == b;
    forall script | Apply(script, a) == Some(b)
      ensures Distance(a, b) <= Edits(script)
    {
      NoCheaper(script, a, b);
    }
  }

  /** The distance is zero exactly between equal sequences. */
  lemma {:induction false} ZeroIffEqual(a: seq<Word>, b: seq<Word>, i: nat, j: nat)
    requires i <= |a| && j <= |b|
    ensures Cell(a, b, i, j) == 0 <==> a[..i] == b[..j]
    decreases i
  {
    hide Cell;
    CellIs(a, b, i, j);
    if i > 0 && j > 0 {
      ZeroIffEqual(a, b, i - 1, j - 1);
      assert a[..i] == a[..i - 1] + [a[i - 1]] && b[..j] == b[..j - 1] + [b[j - 1]];
      if a[..i] == b[..j] {
        assert a[..i][i - 1] == b[..j][j - 1] && a[..i][..i - 1] == b[..j][..j - 1];
      }
    }
  }

  /** A rate of zero means the hypothesis is the reference. */
  lemma RateZero(ref: seq<Word>, hyp: seq<Word>)
    requires ref != []
    ensures Distance(ref, hyp) as real / |ref| as real == 0.0 <==> ref == hyp
  {
    hide Cell;
    ZeroIffEqual(ref, hyp, |ref|, |hyp|);
    assert ref[..|ref|] == ref && hyp[..|hyp|] == hyp;
    var c, n := Distance(ref, hyp) as real, |ref| as real;
    if c / n == 0.0 {
      assert c == c / n * n;
    }
  }
}
