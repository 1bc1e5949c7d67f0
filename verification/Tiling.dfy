/** The tile layout of libane/ane.c: fp16 rows copied to and from a strided surface, and the span
    libane/ane_bind.h computes for it. */
module Tiling {
  import opened Basics

  /** nchw[6]: the dense shape, and the plane and row sizes of the surface in bytes. */
  datatype Shape = Shape(n: nat, c: nat, h: nat, w: nat, plane: nat, row: nat)

  function Rows(g: Shape): nat
    requires g.row > 0
  {
    g.plane / g.row
  }

  function Cols(g: Shape): nat { g.row / 2 }

  function Planes(g: Shape): nat { g.n * g.c }

  /** Bytes of one dense row. */
  function Stride(g: Shape): nat { 2 * g.w }

  /** The byte offset of row h of plane q in the surface. */
  function At(g: Shape, q: nat, h: nat): nat
    requires g.row > 0
  {
    q * (Rows(g) * (2 * Cols(g))) + h * (2 * Cols(g))
  }

  predicate Dense(g: Shape)
    requires g.row > 0
  {
    Rows(g) == g.h && Cols(g) == g.w
  }

  // ---- the span ----

  const UINT64_MAX: nat := 0xffff_ffff_ffff_ffff

  /** Some dimension is zero. */
  predicate Empty(g: Shape) { g.n == 0 || g.c == 0 || g.h == 0 || g.w == 0 }

  /** ane_bind_tile_span: nothing for an empty shape, no bound for rows narrower than the data. */
  function TileSpan(g: Shape): nat {
    if Empty(g) then 0
    else if g.row < Stride(g) then UINT64_MAX
    else Span(g)
  }

  /** The last byte, exclusive. */
  function Span(g: Shape): nat
    requires g.row > 0 && g.n > 0 && g.c > 0 && g.h > 0 && g.w > 0
  {
    var last := (((g.n - 1) * g.c + (g.c - 1)) * Rows(g) * Cols(g) + (g.h - 1) * Cols(g) + g.w) * 2;
    if last > g.n * g.c * g.plane then last else g.n * g.c * g.plane
  }

  /** Byte i lies in row h of plane q. */
  predicate InRow(g: Shape, q: nat, h: nat, i: nat)
    requires g.row > 0
  {
    q < Planes(g) && h < g.h && At(g, q, h) <= i < At(g, q, h) + Stride(g)
  }

  /** The surface bytes tiling writes: everything it clears or copies densely, and every row. Tile
      changes no other. */
  ghost predicate TileTouches(g: Shape, i: nat)
    requires g.row > 0
  {
    i < Planes(g) * g.plane || (!Dense(g) && exists q, h :: InRow(g, q, h, i))
  }

  /** The surface bytes untiling reads. */
  ghost predicate UntileTouches(g: Shape, i: nat)
    requires g.row > 0
  {
    if Dense(g) then i < Planes(g) * g.h * Stride(g) else exists q, h :: InRow(g, q, h, i)
  }

  lemma Mono(a: nat, b: nat, u: nat)
    requires a <= b
    ensures a * u <= b * u
  {
  }

  /** No row ends after the last row of the last plane. */
  lemma LastRow(g: Shape, q: nat, h: nat)
    requires g.row > 0 && q < Planes(g) && h < g.h
    ensures At(g, q, h) <= At(g, Planes(g) - 1, g.h - 1)
  {
    Mono(q, Planes(g) - 1, Rows(g) * (2 * Cols(g)));
    Mono(h, g.h - 1, 2 * Cols(g));
  }

  lemma LastIs(g: Shape)
    requires g.row > 0 && g.n > 0 && g.c > 0 && g.h > 0 && g.w > 0
    ensures Planes(g) >= 1
    ensures (((g.n - 1) * g.c + (g.c - 1)) * Rows(g) * Cols(g) + (g.h - 1) * Cols(g) + g.w) * 2 ==
            At(g, Planes(g) - 1, g.h - 1) + Stride(g)
  {
    var p, r, k := (g.n - 1) * g.c + (g.c - 1), Rows(g), Cols(g);
    assert g.n * g.c == (g.n - 1) * g.c + g.c;
    assert p == Planes(g) - 1;
    Double(p, r, k);
    Double(1, g.h - 1, k);
  }

  lemma Double(p: nat, r: nat, k: nat)
    ensures p * r * k * 2 == p * (r * (2 * k)) && r * k * 2 == r * (2 * k)
  {
    assert r * k * 2 == r * (2 * k);
    assert p * (r * k) == p * r * k;
    assert p * (r * k * 2) == p * (r * k) * 2;
  }

  /** EXACT SPAN. Every byte tiling touches is below the span, and the byte just below it is
      touched; untiling stays below it too. */
  lemma SpanExact(g: Shape)
    requires g.n > 0 && g.c > 0 && g.h > 0 && g.w > 0 && g.row >= Stride(g)
    ensures forall i: nat :: TileTouches(g, i) ==> i < TileSpan(g)
    ensures TileSpan(g) > 0 && TileTouches(g, TileSpan(g) - 1)
    ensures forall i: nat :: UntileTouches(g, i) ==> i < TileSpan(g)
  {
    hide At, Rows;
    LastIs(g);
    var q, h := Planes(g) - 1, g.h - 1;
    var last := At(g, q, h) + Stride(g);
    forall p: nat, r: nat, i: nat | InRow(g, p, r, i)
      ensures i < last
    {
      LastRow(g, p, r);
    }
    assert InRow(g, q, h, last - 1);
    if Dense(g) {
      DenseSpan(g);
    }
  }

  /** On the dense path the copy covers the rows. */
  lemma DenseSpan(g: Shape)
    requires g.n > 0 && g.c > 0 && g.h > 0 && g.w > 0 && g.row >= Stride(g) && Dense(g)
    ensures At(g, Planes(g) - 1, g.h - 1) + Stride(g) == Planes(g) * g.h * Stride(g) <= Planes(g) * g.plane
    ensures Planes(g) >= 1
  {
    LastIs(g);
    var p, s := Planes(g), Stride(g);
    assert At(g, p - 1, g.h - 1) == (p - 1) * (g.h * s) + (g.h - 1) * s;
    assert (g.h - 1) * s + s == g.h * s;
    assert (p - 1) * (g.h * s) + g.h * s == p * (g.h * s);
    assert p * (g.h * s) == p * g.h * s;
    PlaneHolds(g);
    Mono(g.h * s, g.plane, p);
  }

  lemma PlaneHolds(g: Shape)
    requires g.row >= Stride(g) && g.row > 0 && Rows(g) == g.h
    ensures g.h * Stride(g) <= g.plane
  {
    assert g.plane == g.plane / g.row * g.row + g.plane % g.row;
    Mono(Stride(g), g.row, g.h);
  }

  /** The span bounds what tiling touches exactly for shapes with no zero in them, and for empty ones
      with nothing to clear: an empty shape has span 0, but its planes are cleared all the same. */
  lemma SpanBounds(g: Shape)
    requires g.row > 0 && (Empty(g) || g.row >= Stride(g))
    ensures (forall i: nat :: TileTouches(g, i) ==> i < TileSpan(g)) <==> !Empty(g) || Planes(g) * g.plane == 0
  {
    hide At, Rows;
    if !Empty(g) {
      SpanExact(g);
    } else {
      assert Planes(g) * g.plane > 0 ==> TileTouches(g, 0);
      forall q: nat, h: nat, i: nat
        ensures !InRow(g, q, h, i)
      {
        EmptyRows(g, q, h, i);
      }
    }
  }

  lemma EmptyRows(g: Shape, q: nat, h: nat, i: nat)
    requires g.row > 0 && Empty(g)
    ensures !InRow(g, q, h, i)
  {
    hide At;
  }

  // ---- the layout ----

  /** Tiling is defined: the row size is a divisor, and rows are wide enough for the data, if any. */
  predicate Shaped(g: Shape) { g.row > 0 && (Empty(g) || g.row >= Stride(g)) }

  /** Dense rows, counted over all planes. */
  function RowCount(g: Shape): nat { Planes(g) * g.h }

  /** The bytes of the dense data. */
  function DenseBytes(g: Shape): nat { RowCount(g) * Stride(g) }

  /** The surface bytes tiling needs. */
  function Reach(g: Shape): nat
    requires Shaped(g)
  {
    if Empty(g) then Planes(g) * g.plane else Span(g)
  }

  /** The surface bytes untiling needs: none for an empty shape. */
  function ReadReach(g: Shape): (r: nat)
    requires Shaped(g)
    ensures r <= Reach(g)
  {
    if Empty(g) then 0 else Span(g)
  }

  // ---- the guard ----

  /** THE GUARD. tile_fits lets a shape through exactly when it is empty, whatever its row size, or its rows
      are wide enough and its span fits the mapping. */
  lemma GuardPasses(g: Shape, size: nat)
    requires size < UINT64_MAX
    ensures TileSpan(g) <= size <==> Empty(g) || (g.row >= Stride(g) && Span(g) <= size)
    ensures g.row == 0 ==> (TileSpan(g) <= size <==> Empty(g))
  {
    hide Rows;
  }

  /** A shape the guard lets through can be untiled exactly when its row size is not zero, and tiled exactly
      when, if it is empty, the planes it clears fit the mapping too. */
  lemma GuardSuffices(g: Shape, size: nat)
    requires size < UINT64_MAX && TileSpan(g) <= size
    ensures Shaped(g) && ReadReach(g) <= size <==> g.row > 0
    ensures Shaped(g) && Reach(g) <= size <==> g.row > 0 && (Empty(g) ==> Planes(g) * g.plane <= size)
  {
    hide Rows;
    GuardPasses(g, size);
  }

  /** Both parts of the condition are needed: an empty shape with row size 0, and one whose planes are
      longer than the mapping, pass the guard. */
  lemma GuardPassesTooMuch(size: nat)
    requires size < UINT64_MAX
    ensures TileSpan(Shape(0, 1, 1, 1, 0, 0)) <= size && !Shaped(Shape(0, 1, 1, 1, 0, 0))
    ensures var g := Shape(1, 1, 0, 1, size + 1, 2); TileSpan(g) <= size && Shaped(g) && Reach(g) > size
  {
  }

  /** The data bytes tiling reads: the dense path copies whole planes. */
  function DataReach(g: Shape): nat
    requires Shaped(g)
  {
    if Dense(g) then Planes(g) * g.plane else DenseBytes(g)
  }

  /** Row distance in the surface. */
  function Unit(g: Shape): nat { 2 * Cols(g) }

  /** The place of dense row k, counted in rows of the surface. */
  function Place(g: Shape, k: nat): nat
    requires g.row > 0
  {
    if g.h == 0 then 0 else k / g.h * Rows(g) + k % g.h
  }

  /** Where dense row k goes. */
  function RowAt(g: Shape, k: nat): nat
    requires g.row > 0
  {
    Place(g, k) * Unit(g)
  }

  lemma RowAtIs(g: Shape, k: nat)
    requires g.row > 0 && g.h > 0
    ensures RowAt(g, k) == At(g, k / g.h, k % g.h)
  {
    var q, h, r, u := k / g.h, k % g.h, Rows(g), Unit(g);
    assert (q * r + h) * u == q * r * u + h * u;
    assert q * r * u == q * (r * u);
  }

  /** Two rows have one place or do not meet. */
  lemma Grid(g: Shape, j: nat, k: nat)
    requires g.row > 0 && g.row >= Stride(g)
    ensures Place(g, j) == Place(g, k) || RowAt(g, j) + Stride(g) <= RowAt(g, k)
            || RowAt(g, k) + Stride(g) <= RowAt(g, j)
  {
    hide Place, Rows;
    if Place(g, j) < Place(g, k) {
      Step(Unit(g), Place(g, j), Place(g, k));
    } else if Place(g, k) < Place(g, j) {
      Step(Unit(g), Place(g, k), Place(g, j));
    }
  }

  lemma Step(d: nat, p: nat, q: nat)
    requires p < q
    ensures d * p + d <= d * q && p * d + d <= q * d
  {
    Mono(p + 1, q, d);
  }

  lemma QuotientBelow(k: nat, p: nat, d: nat)
    requires d > 0 && k < p * d
    ensures k / d < p
  {
    var q := k / d;
    assert d * q <= k;
    if q >= p {
      Mono(p, q, d);
    }
  }

  /** Where dense row k starts in the data. */
  function From(g: Shape, k: nat): nat { k * Stride(g) }

  lemma FromNext(g: Shape, j: nat, k: nat)
    requires j < k
    ensures From(g, j) + Stride(g) <= From(g, k)
  {
    Step(Stride(g), j, k);
  }

  lemma RowInside(g: Shape, k: nat)
    requires Shaped(g) && k < RowCount(g)
    ensures g.h > 0 && Stride(g) > 0 ==> RowAt(g, k) + Stride(g) <= Reach(g)
    ensures From(g, k) + Stride(g) <= DenseBytes(g)
    ensures g.h > 0 && k / g.h < Planes(g)
  {
    HasRows(g, k);
    QuotientBelow(k, Planes(g), g.h);
    FromNext(g, k, RowCount(g));
    RowAtIs(g, k);
    hide RowAt, At, Rows;
    if g.w > 0 {
      HasPlanes(g, k / g.h);
      LastRow(g, k / g.h, k % g.h);
      LastIs(g);
    }
  }

  lemma HasRows(g: Shape, k: nat)
    requires k < RowCount(g)
    ensures g.h > 0
  {
  }

  lemma HasPlanes(g: Shape, q: nat)
    requires q < Planes(g)
    ensures g.n > 0 && g.c > 0
  {
  }

  lemma Cleared(g: Shape)
    requires Shaped(g)
    ensures Planes(g) * g.plane <= Reach(g)
  {
    hide Rows;
    assert g.n * g.c * g.plane == Planes(g) * g.plane;
  }

  // ---- what tiling leaves ----

  /** Row k of the surface is row k of the data. */
  ghost predicate RowIs(g: Shape, data: seq<byte>, tile: seq<byte>, k: nat)
    requires Shaped(g)
  {
    || Stride(g) == 0
    || (&& RowAt(g, k) + Stride(g) <= |tile| && From(g, k) + Stride(g) <= |data|
        && tile[RowAt(g, k)..RowAt(g, k) + Stride(g)] == data[From(g, k)..From(g, k) + Stride(g)])
  }

  /** No later row below n has the place of row k. */
  ghost predicate Last(g: Shape, k: nat, n: nat)
    requires Shaped(g)
  {
    forall j: nat :: k < j < n ==> Place(g, j) != Place(g, k)
  }

  ghost predicate Covers(g: Shape, k: nat, i: nat)
    requires Shaped(g)
  {
    RowAt(g, k) <= i < RowAt(g, k) + Stride(g)
  }

  /** What a byte holds that no row covers. */
  ghost function Ground(g: Shape, data: seq<byte>, before: seq<byte>, i: nat): byte
    requires Shaped(g) && |data| >= DataReach(g) && i < |before|
  {
    if i >= Planes(g) * g.plane then before[i] else if Dense(g) then data[i] else 0
  }

  ghost predicate Padding(g: Shape, data: seq<byte>, before: seq<byte>, tile: seq<byte>, n: nat, i: nat)
    requires Shaped(g) && |data| >= DataReach(g) && i < |before| == |tile|
  {
    (forall k: nat :: k < n ==> !Covers(g, k, i)) ==> tile[i] == Ground(g, data, before, i)
  }

  /** Of the first n rows the last at each place is there; a byte under no row is cleared when it lies in
      the planes (copied on the dense path) and otherwise as it was. */
  ghost predicate Laid(g: Shape, data: seq<byte>, before: seq<byte>, tile: seq<byte>, n: nat)
    requires Shaped(g) && |data| >= DataReach(g)
  {
    && |tile| == |before|
    && (forall k: nat :: k < n && Last(g, k, n) ==> RowIs(g, data, tile, k))
    && (forall i: nat :: i < |tile| ==> Padding(g, data, before, tile, n, i))
  }

  function Patch(b: seq<byte>, at: nat, p: seq<byte>): seq<byte>
    requires p == [] || at + |p| <= |b|
  {
    if p == [] then b else b[..at] + p + b[at + |p|..]
  }

  lemma PatchSlice(b: seq<byte>, at: nat, p: seq<byte>, lo: nat, hi: nat)
    requires p != [] && at + |p| <= |b| && lo <= hi <= |b|
    ensures |Patch(b, at, p)| == |b| && Patch(b, at, p)[at..at + |p|] == p
    ensures hi <= at || at + |p| <= lo ==> Patch(b, at, p)[lo..hi] == b[lo..hi]
  {
  }

  lemma PatchByte(b: seq<byte>, at: nat, p: seq<byte>, i: nat)
    requires (p == [] || at + |p| <= |b|) && i < |b|
    ensures |Patch(b, at, p)| == |b| && (i < at || at + |p| <= i ==> Patch(b, at, p)[i] == b[i])
  {
  }

  function RowBytes(g: Shape, s: seq<byte>, at: nat): (p: seq<byte>)
    requires Stride(g) == 0 || at + Stride(g) <= |s|
    ensures |p| == Stride(g)
  {
    if Stride(g) == 0 then [] else s[at..at + Stride(g)]
  }

  lemma LaidRow(g: Shape, data: seq<byte>, tile: seq<byte>, n: nat, k: nat)
    requires Shaped(g) && g.row >= Stride(g) && k <= n && Stride(g) > 0
    requires RowAt(g, n) + Stride(g) <= |tile| && From(g, n) + Stride(g) <= |data|
    requires k < n ==> RowIs(g, data, tile, k) && Place(g, k) != Place(g, n)
    ensures RowIs(g, data, Patch(tile, RowAt(g, n), RowBytes(g, data, From(g, n))), k)
  {
    hide RowAt, Stride, Patch, From, Place;
    var at, p := RowAt(g, n), RowBytes(g, data, From(g, n));
    PatchSlice(tile, at, p, 0, 0);
    if k < n {
      Grid(g, k, n);
      PatchSlice(tile, at, p, RowAt(g, k), RowAt(g, k) + Stride(g));
    }
  }

  lemma LaidStep(g: Shape, data: seq<byte>, before: seq<byte>, tile: seq<byte>, n: nat)
    requires Shaped(g) && g.row >= Stride(g) && |data| >= DataReach(g) && Laid(g, data, before, tile, n)
    requires Stride(g) == 0 || (RowAt(g, n) + Stride(g) <= |tile| && From(g, n) + Stride(g) <= |data|)
    ensures Laid(g, data, before, Patch(tile, RowAt(g, n), RowBytes(g, data, From(g, n))), n + 1)
  {
    hide RowAt, Stride, Patch, From, Place, DataReach, Covers;
    var at, p, m := RowAt(g, n), RowBytes(g, data, From(g, n)), n + 1;
    var after := Patch(tile, at, p);
    PatchLength(tile, at, p);
    forall k: nat | k < m && Last(g, k, m)
      ensures RowIs(g, data, after, k)
    {
      if Stride(g) > 0 {
        assert k < n ==> Last(g, k, n) && Place(g, n) != Place(g, k);
        LaidRow(g, data, tile, n, k);
      }
    }
    forall i: nat | i < |after|
      ensures Padding(g, data, before, after, m, i)
    {
      assert Padding(g, data, before, tile, n, i);
      PatchByte(tile, at, p, i);
      if forall k: nat :: k < m ==> !Covers(g, k, i) {
        assert !Covers(g, n, i);
        NotCovered(g, n, i);
        assert forall k: nat :: k < n ==> !Covers(g, k, i);
      }
    }
  }

  lemma PatchLength(b: seq<byte>, at: nat, p: seq<byte>)
    requires p == [] || at + |p| <= |b|
    ensures |Patch(b, at, p)| == |b|
  {
  }

  lemma NotCovered(g: Shape, k: nat, i: nat)
    requires Shaped(g) && !Covers(g, k, i)
    ensures i < RowAt(g, k) || RowAt(g, k) + Stride(g) <= i
  {
  }

  /** memcpy. */
  method CopyRow(dst: array<byte>, at: nat, src: seq<byte>)
    requires src == [] || at + |src| <= dst.Length
    modifies dst
    ensures dst[..] == Patch(old(dst[..]), at, src)
  {
    for j := 0 to |src|
      invariant forall i :: 0 <= i < dst.Length ==> dst[i] == if at <= i < at + j then src[i - at] else old(dst[i])
    {
      dst[at + j] := src[j];
    }
  }

  /** memset to zero. */
  method Clear(a: array<byte>, n: nat)
    requires n <= a.Length
    modifies a
    ensures forall i :: 0 <= i < a.Length ==> a[i] == if i < n then 0 else old(a[i])
  {
    for j := 0 to n
      invariant forall i :: 0 <= i < a.Length ==> a[i] == if i < j then 0 else old(a[i])
    {
      a[j] := 0;
    }
  }

  /** The number of row h of channel c of batch n. */
  function RowNumber(g: Shape, n: nat, c: nat, h: nat): nat { (n * g.c + c) * g.h + h }

  lemma RowNumbers(g: Shape, n: nat, c: nat)
    ensures RowNumber(g, n, c, g.h) == RowNumber(g, n, c + 1, 0) && RowNumber(g, n, g.c, 0) == RowNumber(g, n + 1, 0, 0)
    ensures RowNumber(g, 0, 0, 0) == 0 && RowNumber(g, g.n, 0, 0) == RowCount(g)
  {
    assert (n * g.c + c) * g.h + g.h == (n * g.c + (c + 1)) * g.h;
    assert n * g.c + g.c == (n + 1) * g.c;
  }

  /** The byte offset the loops compute in a layout of `rows` rows of `cols` elements. */
  function Offset(g: Shape, n: nat, c: nat, h: nat, rows: nat, cols: nat): nat {
    (n * (g.c * rows * cols) + c * (rows * cols) + h * cols) * 2
  }

  /** It is the start of the dense row, or of its place in the surface. */
  lemma Offsets(g: Shape, n: nat, c: nat, h: nat)
    requires g.row > 0 && n < g.n && c < g.c && h < g.h
    ensures RowNumber(g, n, c, h) < RowCount(g)
    ensures Offset(g, n, c, h, g.h, g.w) == From(g, RowNumber(g, n, c, h))
    ensures Offset(g, n, c, h, Rows(g), Cols(g)) == RowAt(g, RowNumber(g, n, c, h))
  {
    var q, k := n * g.c + c, RowNumber(g, n, c, h);
    Nest(n, c, h, g.c, g.h, g.w);
    Nest(n, c, h, g.c, Rows(g), Cols(g));
    assert g.h * q == q * g.h;
    Split(g.h, q, h, k);
    RowAtIs(g, k);
    Step(g.c, n, g.n);
    Step(g.h, q, Planes(g));
    Double(q, Rows(g), Cols(g));
    Double(1, h, Cols(g));
    Double(1, k, g.w);
    hide RowAt;
    assert k * g.w == q * g.h * g.w + h * g.w;
  }

  /** Quotient and remainder of a row number. */
  lemma Split(d: nat, q: nat, r: nat, k: nat)
    requires r < d && k == d * q + r
    ensures k / d == q && k % d == r
  {
    Divided(d, q, r, k);
  }

  lemma Divided(d: nat, q: nat, r: nat, k: nat)
    requires r < d && k == d * q + r
    ensures k / d == q
  {
    Unique(d, k / d, k % d, q, r);
  }

  lemma Unique(d: nat, p: nat, a: nat, q: nat, b: nat)
    requires a < d && b < d && d * p + a == d * q + b
    ensures p == q
  {
    if p < q {
      Step(d, p, q);
    }
    if q < p {
      Step(d, q, p);
    }
  }

  lemma Nest(n: nat, c: nat, h: nat, a: nat, b: nat, w: nat)
    ensures n * (a * b * w) + c * (b * w) + h * w == (n * a + c) * b * w + h * w
  {
    assert n * (a * b * w) == n * a * (b * w) by { assert a * b * w == a * (b * w); }
    assert (n * a + c) * (b * w) == n * a * (b * w) + c * (b * w);
    assert (n * a + c) * b * w == (n * a + c) * (b * w);
  }

  lemma NextRow(g: Shape, n: nat, c: nat, h: nat)
    ensures RowNumber(g, n, c, h + 1) == RowNumber(g, n, c, h) + 1
  {
  }

  /** ane_tile, on a surface that holds the span and, for an empty shape, its planes: every access is in
      range, the last row at each place is in place, and no byte outside TileTouches changes. */
  method Tile(g: Shape, data: seq<byte>, tile: array<byte>)
    requires Shaped(g) && |data| >= DataReach(g) && tile.Length >= Reach(g)
    modifies tile
    ensures Laid(g, data, old(tile[..]), tile[..], RowCount(g))
    ensures forall i: nat :: i < tile.Length && !TileTouches(g, i) ==> tile[i] == old(tile[i])
  {
    hide RowAt, Laid, At, Stride, Patch, From, Offset, RowNumber, RowCount, Planes, Rows, Cols, Reach, DataReach, Dense,
      TileTouches;
    ghost var before := tile[..];
    Cleared(g);
    if Dense(g) {
      DenseReach(g);
      CopyRow(tile, 0, data[..Planes(g) * g.plane]);
      DenseLaid(g, data, before, tile[..]);
    } else {
      Clear(tile, Planes(g) * g.plane);
      NothingLaid(g, data, before, tile[..]);
      RowNumbers(g, 0, 0);
      for n := 0 to g.n
        invariant Laid(g, data, before, tile[..], RowNumber(g, n, 0, 0))
      {
        for c := 0 to g.c
          invariant Laid(g, data, before, tile[..], RowNumber(g, n, c, 0))
        {
          for h := 0 to g.h
            invariant Laid(g, data, before, tile[..], RowNumber(g, n, c, h))
          {
            Offsets(g, n, c, h);
            NextRow(g, n, c, h);
            RowReach(g, RowNumber(g, n, c, h));
            var src, dst := Offset(g, n, c, h, g.h, g.w), Offset(g, n, c, h, Rows(g), Cols(g));
            LaidStep(g, data, before, tile[..], RowNumber(g, n, c, h));
            CopyRow(tile, dst, RowBytes(g, data, src));
          }
          RowNumbers(g, n, c);
        }
        RowNumbers(g, n, 0);
      }
    }
    ghost var after := tile[..];
    forall i: nat | i < tile.Length && !TileTouches(g, i)
      ensures tile[i] == old(tile[i])
    {
      Untouched(g, data, before, after, i);
    }
  }

  lemma RowReach(g: Shape, k: nat)
    requires Shaped(g) && k < RowCount(g)
    ensures g.row >= Stride(g) && (Stride(g) == 0 || RowAt(g, k) + Stride(g) <= ReadReach(g) <= Reach(g))
    ensures From(g, k) + Stride(g) <= DenseBytes(g) && (!Dense(g) ==> DataReach(g) == DenseBytes(g))
  {
    hide RowAt;
    RowInside(g, k);
    HasPlanes(g, k / g.h);
  }

  /** Bytes tiling does not touch are as they were. */
  lemma Untouched(g: Shape, data: seq<byte>, before: seq<byte>, tile: seq<byte>, i: nat)
    requires Shaped(g) && |data| >= DataReach(g) && Laid(g, data, before, tile, RowCount(g)) && i < |before| == |tile|
             && !TileTouches(g, i)
    ensures tile[i] == before[i]
  {
    hide Stride, DataReach, Dense, RowIs, Planes, RowCount, Covers, TileTouches;
    forall k: nat | k < RowCount(g)
      ensures !Covers(g, k, i)
    {
      RowUntouched(g, k, i);
    }
    PlanesTouched(g, i);
    assert Padding(g, data, before, tile, RowCount(g), i);
  }

  lemma PlanesTouched(g: Shape, i: nat)
    requires g.row > 0 && !TileTouches(g, i)
    ensures i >= Planes(g) * g.plane
  {
    hide Dense, InRow, Planes;
  }

  lemma RowUntouched(g: Shape, k: nat, i: nat)
    requires Shaped(g) && k < RowCount(g) && !TileTouches(g, i)
    ensures !Covers(g, k, i)
  {
    hide Dense, Planes, RowAt, At, Stride, RowCount, DenseBytes, Reach, From;
    if Dense(g) {
      DenseCovers(g, k, i);
    } else {
      RowInside(g, k);
      RowAtIs(g, k);
      var q, h := k / g.h, k % g.h;
      assert !InRow(g, q, h, i);
    }
  }

  lemma NothingLaid(g: Shape, data: seq<byte>, before: seq<byte>, tile: seq<byte>)
    requires Shaped(g) && |data| >= DataReach(g) && !Dense(g) && |before| == |tile|
    requires forall i :: 0 <= i < |tile| ==> tile[i] == if i < Planes(g) * g.plane then 0 else before[i]
    ensures Laid(g, data, before, tile, 0)
  {
    hide RowAt, Dense, DataReach, Planes;
  }

  // ---- the dense path ----

  lemma DenseUnits(g: Shape)
    requires Shaped(g) && Dense(g)
    ensures Rows(g) == g.h && Unit(g) == Stride(g)
  {
  }

  lemma DenseRow(g: Shape, k: nat)
    requires Shaped(g) && Dense(g) && g.h > 0
    ensures RowAt(g, k) == From(g, k) && Place(g, k) == k
  {
    DenseUnits(g);
    assert k / g.h * g.h + k % g.h == k;
  }

  lemma DenseReach(g: Shape)
    requires Shaped(g) && Dense(g)
    ensures DenseBytes(g) <= Planes(g) * g.plane == DataReach(g)
  {
    PlaneHolds(g);
    Mono(g.h * Stride(g), g.plane, Planes(g));
    assert Planes(g) * (g.h * Stride(g)) == Planes(g) * g.h * Stride(g);
  }

  lemma DenseInside(g: Shape)
    requires Shaped(g) && Dense(g)
    ensures DenseBytes(g) <= ReadReach(g)
  {
    DenseReach(g);
    if Empty(g) {
      NothingDense(g);
    } else {
      Cleared(g);
    }
  }

  lemma NothingDense(g: Shape)
    requires Empty(g)
    ensures DenseBytes(g) == 0
  {
  }

  lemma DenseCovers(g: Shape, k: nat, i: nat)
    requires Shaped(g) && Dense(g) && k < RowCount(g) && i >= Planes(g) * g.plane
    ensures !Covers(g, k, i)
  {
    HasRows(g, k);
    DenseReach(g);
    hide Rows, Place, Stride, Planes, Dense, DataReach, RowAt;
    DenseRow(g, k);
    FromNext(g, k, RowCount(g));
  }

  lemma DenseLaid(g: Shape, data: seq<byte>, before: seq<byte>, tile: seq<byte>)
    requires Shaped(g) && Dense(g) && |data| >= DataReach(g) == Planes(g) * g.plane && Planes(g) * g.plane <= |before|
    requires DenseBytes(g) <= Planes(g) * g.plane && tile == Patch(before, 0, data[..Planes(g) * g.plane])
    ensures Laid(g, data, before, tile, RowCount(g))
  {
    hide RowAt, Dense, Stride, RowCount, Planes, DataReach, Place, Covers, From;
    var all := Planes(g) * g.plane;
    PatchLength(before, 0, data[..all]);
    assert forall i :: 0 <= i < |tile| ==> tile[i] == if i < all then data[i] else before[i];
    forall k: nat | k < RowCount(g) && Last(g, k, RowCount(g))
      ensures RowIs(g, data, tile, k)
    {
      HasRows(g, k);
      DenseRow(g, k);
      FromNext(g, k, RowCount(g));
      FromAll(g);
      assert tile[From(g, k)..From(g, k) + Stride(g)] == data[From(g, k)..From(g, k) + Stride(g)];
    }
  }

  lemma FromAll(g: Shape)
    ensures From(g, RowCount(g)) == DenseBytes(g)
  {
  }

  /** THE DENSE PATH READS WHOLE PLANES. It stays inside the dense data exactly when a plane is no longer
      than its rows. */
  lemma DenseReads(g: Shape)
    requires Shaped(g) && g.n > 0 && g.c > 0
    ensures DataReach(g) <= DenseBytes(g) <==> !Dense(g) || g.plane == g.h * Stride(g)
  {
    if Dense(g) {
      PlaneHolds(g);
      DenseBytesAre(g);
      Planewise(g.n, g.c, g.h * Stride(g), g.plane);
    }
  }

  lemma DenseBytesAre(g: Shape)
    ensures DenseBytes(g) == g.n * g.c * (g.h * Stride(g))
  {
    hide Stride;
    assert g.n * g.c * g.h * Stride(g) == g.n * g.c * (g.h * Stride(g));
  }

  lemma Planewise(n: nat, c: nat, x: nat, y: nat)
    requires n > 0 && c > 0 && x <= y
    ensures n * c * y <= n * c * x <==> x == y
  {
    var p := n * c;
    assert p >= 1;
    if x < y {
      Step(p, x, y);
    }
  }

  // ---- and back ----

  /** The first n rows of the data have been read back. */
  ghost predicate Read(g: Shape, data: seq<byte>, tile: seq<byte>, n: nat)
    requires Shaped(g)
  {
    forall k: nat :: k < n ==> RowIs(g, data, tile, k)
  }

  lemma ReadStep(g: Shape, tile: seq<byte>, before: seq<byte>, n: nat)
    requires Shaped(g) && Read(g, before, tile, n)
    requires Stride(g) == 0 || (RowAt(g, n) + Stride(g) <= |tile| && From(g, n) + Stride(g) <= |before|)
    ensures Read(g, Patch(before, From(g, n), RowBytes(g, tile, RowAt(g, n))), tile, n + 1)
  {
    hide RowAt, Stride, Patch, From;
    var at, s, p := From(g, n), Stride(g), RowBytes(g, tile, RowAt(g, n));
    if s > 0 {
      PatchSlice(before, at, p, 0, 0);
      forall k: nat | k < n + 1
        ensures RowIs(g, Patch(before, at, p), tile, k)
      {
        if k < n {
          assert RowIs(g, before, tile, k);
          FromNext(g, k, n);
          PatchSlice(before, at, p, From(g, k), From(g, k) + s);
        }
      }
    }
  }

  /** ane_untile, on a surface at least as long as the span: every row of the data is the row at its
      place, and nothing past the dense data changes. */
  method Untile(g: Shape, tile: seq<byte>, data: array<byte>)
    requires Shaped(g) && data.Length >= DenseBytes(g) && |tile| >= ReadReach(g)
    modifies data
    ensures Read(g, data[..], tile, RowCount(g))
    ensures forall i :: DenseBytes(g) <= i < data.Length ==> data[i] == old(data[i])
  {
    hide RowAt, Read, At, Stride, From, Offset, RowNumber, RowCount, Planes, Rows, Cols, Reach, ReadReach, Dense,
      DenseBytes;
    if Dense(g) {
      DenseInside(g);
      CopyRow(data, 0, tile[..DenseBytes(g)]);
      DenseRead(g, data[..], tile);
      return;
    }
    Clear(data, DenseBytes(g));
    NothingRead(g, data[..], tile);
    RowNumbers(g, 0, 0);
    for n := 0 to g.n
      invariant Read(g, data[..], tile, RowNumber(g, n, 0, 0))
      invariant forall i :: DenseBytes(g) <= i < data.Length ==> data[i] == old(data[i])
    {
      for c := 0 to g.c
        invariant Read(g, data[..], tile, RowNumber(g, n, c, 0))
        invariant forall i :: DenseBytes(g) <= i < data.Length ==> data[i] == old(data[i])
      {
        for h := 0 to g.h
          invariant Read(g, data[..], tile, RowNumber(g, n, c, h))
          invariant forall i :: DenseBytes(g) <= i < data.Length ==> data[i] == old(data[i])
        {
          Offsets(g, n, c, h);
          NextRow(g, n, c, h);
          RowReach(g, RowNumber(g, n, c, h));
          var src, dst := Offset(g, n, c, h, Rows(g), Cols(g)), Offset(g, n, c, h, g.h, g.w);
          ReadStep(g, tile, data[..], RowNumber(g, n, c, h));
          ghost var was := data[..];
          CopyRow(data, dst, RowBytes(g, tile, src));
          assert forall i :: DenseBytes(g) <= i < data.Length ==> data[..][i] == was[i];
        }
        RowNumbers(g, n, c);
      }
      RowNumbers(g, n, 0);
    }
  }

  lemma DenseRead(g: Shape, data: seq<byte>, tile: seq<byte>)
    requires Shaped(g) && Dense(g) && DenseBytes(g) <= |data| && DenseBytes(g) <= |tile|
             && data[..DenseBytes(g)] == tile[..DenseBytes(g)]
    ensures Read(g, data, tile, RowCount(g))
  {
    hide RowAt, Dense, Stride, RowCount, Place, From, DenseBytes;
    forall k: nat | k < RowCount(g)
      ensures RowIs(g, data, tile, k)
    {
      HasRows(g, k);
      DenseRow(g, k);
      FromNext(g, k, RowCount(g));
      FromAll(g);
      SlicesAgree(data, tile, DenseBytes(g), From(g, k), From(g, k) + Stride(g));
    }
  }

  lemma SlicesAgree(x: seq<byte>, y: seq<byte>, d: nat, at: nat, to: nat)
    requires at <= to <= d <= |x| && d <= |y| && x[..d] == y[..d]
    ensures x[at..to] == y[at..to]
  {
    assert x[at..to] == x[..d][at..to] && y[at..to] == y[..d][at..to];
  }

  lemma NothingRead(g: Shape, data: seq<byte>, tile: seq<byte>)
    requires Shaped(g)
    ensures Read(g, data, tile, 0)
  {
  }

  // ---- element by element ----

  /** Where element (n, c, h, w) lies in dense data and in the surface, in bytes. */
  function DataAddress(g: Shape, n: nat, c: nat, h: nat, w: nat): nat { (((n * g.c + c) * g.h + h) * g.w + w) * 2 }

  function TileAddress(g: Shape, n: nat, c: nat, h: nat, w: nat): int
    requires g.row > 0
  {
    ((n * g.c + c) * (g.plane / g.row) + h) * (g.row / 2 * 2) + 2 * w
  }

  lemma Addresses(g: Shape, n: nat, c: nat, h: nat, w: nat)
    requires g.row > 0 && n < g.n && c < g.c && h < g.h && w < g.w
    ensures var k := RowNumber(g, n, c, h);
            && k < RowCount(g) && DataAddress(g, n, c, h, w) == From(g, k) + 2 * w
            && TileAddress(g, n, c, h, w) == RowAt(g, k) + 2 * w && 2 * w + 2 <= Stride(g)
  {
    hide RowAt, Place, RowCount;
    var k := RowNumber(g, n, c, h);
    Offsets(g, n, c, h);
    RowAtIs(g, k);
    assert DataAddress(g, n, c, h, w) == (k * g.w + w) * 2;
    Double(1, k, g.w);
    RowPlace(g, n, c, h);
  }

  lemma RowPlace(g: Shape, n: nat, c: nat, h: nat)
    requires g.row > 0 && h < g.h
    ensures Place(g, RowNumber(g, n, c, h)) == (n * g.c + c) * (g.plane / g.row) + h
    ensures RowAt(g, RowNumber(g, n, c, h)) == ((n * g.c + c) * (g.plane / g.row) + h) * (g.row / 2 * 2)
  {
    var q := n * g.c + c;
    Split(g.h, q, h, RowNumber(g, n, c, h));
    assert g.h * q == q * g.h;
  }

  /** EVERY ELEMENT IN ITS PLACE. When the planes of the surface hold the rows of the data, or there is one plane, each
      element of the tiled surface is the element of the data, both bytes of it. */
  lemma ElementPlaced(g: Shape, data: seq<byte>, before: seq<byte>, tile: seq<byte>, n: nat, c: nat, h: nat, w: nat,
                      b: nat)
    requires Shaped(g) && |data| >= DataReach(g) && Laid(g, data, before, tile, RowCount(g))
    requires n < g.n && c < g.c && h < g.h && w < g.w && b < 2 && (g.h <= g.plane / g.row || g.n * g.c <= 1)
    ensures 0 <= TileAddress(g, n, c, h, w) + b < |tile| && DataAddress(g, n, c, h, w) + b < |data|
    ensures tile[TileAddress(g, n, c, h, w) + b] == data[DataAddress(g, n, c, h, w) + b]
  {
    var k := RowNumber(g, n, c, h);
    PlacesShared(g);
    hide RowAt, Place, RowCount, From, DataAddress, TileAddress, Padding, DataReach;
    Addresses(g, n, c, h, w);
    assert Last(g, k, RowCount(g)) && Stride(g) > 0;
    assert RowIs(g, data, tile, k);
    var at, from, s := RowAt(g, k), From(g, k), Stride(g);
    assert tile[at..at + s][2 * w + b] == tile[at + 2 * w + b]
      && data[from..from + s][2 * w + b] == data[from + 2 * w + b];
  }

  /** On a surface of whole, even rows an element lies at its plane, row and column strides. */
  lemma StridedAddress(g: Shape, n: nat, c: nat, h: nat, w: nat)
    requires g.row > 0 && g.row % 2 == 0 && g.plane % g.row == 0
    ensures TileAddress(g, n, c, h, w) == (n * g.c + c) * g.plane + h * g.row + 2 * w
  {
    var q, r := n * g.c + c, g.plane / g.row;
    assert g.row / 2 * 2 == g.row && r * g.row == g.plane;
    assert (q * r + h) * g.row == q * r * g.row + h * g.row;
    assert q * r * g.row == q * (r * g.row);
  }

  // ---- the round trip ----

  /** Dense rows j and k of the data are equal. */
  ghost predicate SameRows(g: Shape, x: seq<byte>, j: nat, k: nat)
    requires |x| >= DenseBytes(g) && j < RowCount(g) && k < RowCount(g)
  {
    RowsFit(g, j);
    RowsFit(g, k);
    x[From(g, j)..From(g, j) + Stride(g)] == x[From(g, k)..From(g, k) + Stride(g)]
  }

  lemma RowsFit(g: Shape, k: nat)
    requires k < RowCount(g)
    ensures From(g, k) + Stride(g) <= DenseBytes(g)
  {
    FromNext(g, k, RowCount(g));
  }

  /** Rows that share a place carry the same data. */
  ghost predicate Consistent(g: Shape, x: seq<byte>)
    requires Shaped(g) && |x| >= DenseBytes(g)
  {
    forall j: nat, k: nat :: j < k < RowCount(g) && Place(g, j) == Place(g, k) ==> SameRows(g, x, j, k)
  }

  /** Some later row, or k itself, is the last at the place of row k. */
  lemma {:induction false} LastThere(g: Shape, k: nat, n: nat) returns (j: nat)
    requires Shaped(g) && k < n
    ensures k <= j < n && Place(g, j) == Place(g, k) && Last(g, j, n)
    decreases n - k
  {
    hide Place;
    if m: nat :| k < m < n && Place(g, m) == Place(g, k) {
      j := LastThere(g, m, n);
    } else {
      j := k;
    }
  }

  /** What untiling a tiled surface gives for row k: the last row at its place. */
  lemma RowBack(g: Shape, x: seq<byte>, before: seq<byte>, tile: seq<byte>, y: seq<byte>, k: nat) returns (j: nat)
    requires Shaped(g) && |x| >= DataReach(g) && |x| >= DenseBytes(g) && |y| >= DenseBytes(g) && k < RowCount(g)
             && Stride(g) > 0
    requires Laid(g, x, before, tile, RowCount(g)) && Read(g, y, tile, RowCount(g))
    ensures k <= j < RowCount(g) && Place(g, j) == Place(g, k) && Last(g, j, RowCount(g))
    ensures From(g, k) + Stride(g) <= |y| && From(g, j) + Stride(g) <= |x|
    ensures y[From(g, k)..From(g, k) + Stride(g)] == x[From(g, j)..From(g, j) + Stride(g)]
  {
    hide Place, Stride, From, DataReach, Padding, RowCount, DenseBytes;
    j := LastThere(g, k, RowCount(g));
    RowsFit(g, k);
    RowsFit(g, j);
    assert RowIs(g, x, tile, j) && RowIs(g, y, tile, k);
  }

  lemma {:induction false} RowsMakeAll(g: Shape, x: seq<byte>, y: seq<byte>)
    requires |x| >= DenseBytes(g) && |y| >= DenseBytes(g)
    requires forall k: nat :: k < RowCount(g) ==> RowAlike(g, x, y, k)
    ensures x[..DenseBytes(g)] == y[..DenseBytes(g)]
  {
    hide Stride, RowCount;
    forall i: nat | i < DenseBytes(g)
      ensures x[i] == y[i]
    {
      var k := RowOf(i, Stride(g), RowCount(g));
      assert RowAlike(g, x, y, k);
      var at, s := From(g, k), Stride(g);
      assert x[i] == x[at..at + s][i - at] && y[i] == y[at..at + s][i - at];
    }
  }

  ghost predicate RowAlike(g: Shape, x: seq<byte>, y: seq<byte>, k: nat) {
    && From(g, k) + Stride(g) <= |x| && From(g, k) + Stride(g) <= |y|
    && x[From(g, k)..From(g, k) + Stride(g)] == y[From(g, k)..From(g, k) + Stride(g)]
  }

  lemma RowOf(i: nat, s: nat, n: nat) returns (k: nat)
    requires i < n * s
    ensures k < n && k * s <= i < k * s + s
  {
    NotZero(i, s, n);
    k := i / s;
    QuotientBelow(i, n, s);
    assert i == s * (i / s) + i % s;
  }

  lemma NotZero(i: nat, s: nat, n: nat)
    requires i < n * s
    ensures s > 0
  {
  }

  /** ROUND TRIP. Untiling a tiled surface gives the data back exactly when rows that share a place carry
      the same data. */
  lemma RoundTrip(g: Shape, x: seq<byte>, before: seq<byte>, tile: seq<byte>, y: seq<byte>)
    requires Shaped(g) && |x| >= DataReach(g) && |x| >= DenseBytes(g) && |y| >= DenseBytes(g)
    requires Laid(g, x, before, tile, RowCount(g)) && Read(g, y, tile, RowCount(g))
    ensures y[..DenseBytes(g)] == x[..DenseBytes(g)] <==> Consistent(g, x)
  {
    hide Place, Stride, From, DataReach, RowCount, DenseBytes, Laid, Read, Last;
    if Stride(g) == 0 {
      NothingToCarry(g, x, y);
    } else if Consistent(g, x) {
      forall k: nat | k < RowCount(g)
        ensures RowAlike(g, y, x, k)
      {
        var j := RowBack(g, x, before, tile, y, k);
        RowsFit(g, k);
        if k < j {
          assert SameRows(g, x, k, j);
        }
      }
      RowsMakeAll(g, y, x);
    } else if y[..DenseBytes(g)] == x[..DenseBytes(g)] {
      forall j: nat, k: nat | j < k < RowCount(g) && Place(g, j) == Place(g, k)
        ensures SameRows(g, x, j, k)
      {
        SamePlaceSameBack(g, x, before, tile, y, j, k);
      }
    }
  }

  lemma NothingToCarry(g: Shape, x: seq<byte>, y: seq<byte>)
    requires Shaped(g) && |x| >= DenseBytes(g) && |y| >= DenseBytes(g) && Stride(g) == 0
    ensures DenseBytes(g) == 0 && Consistent(g, x)
  {
    hide Place;
  }

  lemma SamePlaceSameBack(g: Shape, x: seq<byte>, before: seq<byte>, tile: seq<byte>, y: seq<byte>, j: nat, k: nat)
    requires Shaped(g) && |x| >= DataReach(g) && |x| >= DenseBytes(g) && |y| >= DenseBytes(g) && Stride(g) > 0
    requires Laid(g, x, before, tile, RowCount(g)) && Read(g, y, tile, RowCount(g))
             && y[..DenseBytes(g)] == x[..DenseBytes(g)]
    requires j < k < RowCount(g) && Place(g, j) == Place(g, k)
    ensures SameRows(g, x, j, k)
  {
    hide Place, Stride, From, DataReach, RowCount, DenseBytes, Laid, Read;
    var a := RowBack(g, x, before, tile, y, j);
    var b := RowBack(g, x, before, tile, y, k);
    assert a == b by {
      assert Last(g, a, RowCount(g)) && Last(g, b, RowCount(g)) && Place(g, a) == Place(g, b);
    }
    RowsFit(g, j);
    RowsFit(g, k);
    SliceAlike(y, x, DenseBytes(g), From(g, j), From(g, j) + Stride(g));
    SliceAlike(y, x, DenseBytes(g), From(g, k), From(g, k) + Stride(g));
  }

  lemma SliceAlike(y: seq<byte>, x: seq<byte>, d: nat, a: nat, b: nat)
    requires d <= |y| && d <= |x| && y[..d] == x[..d] && a <= b <= d
    ensures y[a..b] == x[a..b]
  {
    assert y[a..b] == y[..d][a..b] && x[a..b] == x[..d][a..b];
  }

  /** ROWS SHARE A PLACE exactly when a plane of the surface has fewer rows than the data and there is
      another plane after it. */
  lemma PlacesShared(g: Shape)
    requires g.row > 0 && g.h > 0
    ensures (exists j: nat, k: nat :: j < k < RowCount(g) && Place(g, j) == Place(g, k)) <==>
              Rows(g) < g.h
              && Planes(g) > 1
  {
    if Rows(g) < g.h && Planes(g) > 1 {
      var r := Rows(g);
      Split(g.h, 0, r, r);
      Split(g.h, 1, 0, g.h);
      Step(g.h, 1, Planes(g));
      assert Place(g, r) == Place(g, g.h) && r < g.h < RowCount(g);
    } else {
      forall j: nat, k: nat | j < k < RowCount(g)
        ensures Place(g, j) != Place(g, k)
      {
        PlacesRise(g, j, k);
      }
    }
  }

  lemma PlacesRise(g: Shape, j: nat, k: nat)
    requires g.row > 0 && g.h > 0 && j < k < RowCount(g) && (Rows(g) >= g.h || Planes(g) <= 1)
    ensures Place(g, j) < Place(g, k)
  {
    QuotientBelow(j, Planes(g), g.h);
    QuotientBelow(k, Planes(g), g.h);
    Rise(g.h, Rows(g), j / g.h, j % g.h, k / g.h, k % g.h);
  }

  lemma Rise(d: nat, r: nat, p: nat, a: nat, q: nat, b: nat)
    requires a < d && b < d && d * p + a < d * q + b && (r >= d || (p == 0 && q == 0))
    ensures p * r + a < q * r + b
  {
    if q < p {
      Step(d, q, p);
    } else if p < q {
      Step(r, p, q);
    }
  }

  /** Tile, then untile: the data comes back exactly when rows that share a place agree, and so always
      when no two do. */
  method TileAndBack(g: Shape, x: seq<byte>) returns (y: seq<byte>)
    requires Shaped(g) && |x| >= DataReach(g) && |x| >= DenseBytes(g)
    ensures |y| == DenseBytes(g) && (y == x[..DenseBytes(g)] <==> Consistent(g, x))
    ensures Rows(g) >= g.h || Planes(g) <= 1 ==> y == x[..DenseBytes(g)]
  {
    hide Shaped, Laid, Read, Stride, RowCount, DenseBytes, Reach, DataReach, Consistent, Rows, Planes;
    var tile := new byte[Reach(g)](_ => 0);
    ghost var before := tile[..];
    Tile(g, x, tile);
    var data := new byte[DenseBytes(g)](_ => 0);
    Untile(g, tile[..], data);
    y := data[..];
    RoundTrip(g, x, before, tile[..], y);
    assert y[..DenseBytes(g)] == y;
    NoneShared(g, x);
  }

  lemma NoneShared(g: Shape, x: seq<byte>)
    requires Shaped(g) && |x| >= DenseBytes(g)
    ensures Rows(g) >= g.h || Planes(g) <= 1 ==> Consistent(g, x)
  {
    hide Place, Rows, Planes, SameRows, DenseBytes;
    if (Rows(g) >= g.h || Planes(g) <= 1) && g.h > 0 {
      PlacesShared(g);
    } else if g.h == 0 {
      NoRows(g);
    }
  }

  lemma NoRows(g: Shape)
    requires g.h == 0
    ensures RowCount(g) == 0
  {
  }
}
