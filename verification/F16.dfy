/** The fp16 addition reference of tools/ane_f16_add.h. Magnitudes are held in quanta of 2^-24, the
    smallest positive fp16 value; a finite double is any sign and non-negative real. */
module F16 {
  import opened Basics

  datatype Double = NotANumber | Infinite(negative: bool) | Finite(negative: bool, quanta: real)

  predicate IsDouble(s: Double) { s.Finite? ==> s.quanta >= 0.0 }

  const INF: nat := 0x7c00
  const QUIET_NAN: nat := 0x7e00
  const SIGN: nat := 0x8000

  lemma {:induction false} Pow2Grows(j: nat, k: nat)
    requires j <= k
    ensures Pow2(j) <= Pow2(k)
  {
    if j < k {
      Pow2Grows(j, k - 1);
    }
  }

  // ---- fp16 magnitudes ----

  /** The value of a magnitude code, in quanta; infinity's code stands for the next binade, 65536. */
  function Value(m: nat): nat {
    var exp, man := m / 1024, m % 1024;
    if exp == 0 then man else (man + 1024) * Pow2(exp - 1)
  }

  /** The spacing above a code. */
  function Ulp(m: nat): (u: nat)
    ensures u >= 1
  {
    if m < 1024 then 1 else Pow2(m / 1024 - 1)
  }

  lemma NextValue(m: nat)
    ensures Value(m + 1) == Value(m) + Ulp(m)
  {
    var exp, man := m / 1024, m % 1024;
    assert m == 1024 * exp + man;
    if man == 1023 {
      assert m + 1 == 1024 * (exp + 1) && (m + 1) / 1024 == exp + 1 && (m + 1) % 1024 == 0;
    } else {
      assert (m + 1) / 1024 == exp && (m + 1) % 1024 == man + 1;
    }
  }

  /** Codes are ordered as their values. */
  lemma {:induction false} ValueGrows(m: nat, n: nat)
    requires m < n
    ensures Value(m) < Value(n)
  {
    NextValue(n - 1);
    if m < n - 1 {
      ValueGrows(m, n - 1);
    }
  }

  // ---- correct rounding ----

  /** The magnitude code whose interval holds x: from half-way to the code below, included, to
      half-way to the code above, excluded. */
  ghost predicate Rounds(x: real, m: nat) {
    && m <= INF
    && (m > 0 ==> (Value(m - 1) + Value(m)) as real <= 2.0 * x)
    && (m < INF ==> 2.0 * x < (Value(m) + Value(m + 1)) as real)
  }

  function Distance(x: real, v: nat): real {
    if x <= v as real then v as real - x else x - v as real
  }

  /** NEAREST, TIES AWAY. No finite fp16 value is nearer, and an equally near one is smaller. */
  lemma RoundsNearest(x: real, m: nat, g: nat)
    requires x >= 0.0 && Rounds(x, m) && m < INF && g < INF
    ensures Distance(x, Value(m)) <= Distance(x, Value(g))
    ensures g != m && Distance(x, Value(m)) == Distance(x, Value(g)) ==> Value(g) < Value(m)
  {
    hide Value;
    if g < m {
      ValueGrows(g, m);
      if g < m - 1 {
        ValueGrows(g, m - 1);
      }
    } else if m < g {
      ValueGrows(m, g);
      if m + 1 < g {
        ValueGrows(m + 1, g);
      }
    }
  }

  /** OVERFLOW. Infinity exactly from 65520 upward. */
  lemma RoundsToInfinity(x: real, m: nat)
    requires Rounds(x, m)
    ensures m == INF <==> x >= 65520.0 * 16777216.0
  {
    TopValues();
    hide Value;
    if m < INF - 1 {
      ValueGrows(m, INF - 1);
      ValueGrows(m + 1, INF);
    }
  }

  lemma TopValues()
    ensures Value(INF) == 65536 * 16777216 && Value(INF - 1) == 65504 * 16777216
  {
    assert Pow2(10) == 1024;
    assert Pow2(20) == 1048576;
    assert Pow2(29) == 536870912;
  }

  /** Magnitudes keep their order. */
  lemma RoundsMonotone(x: real, y: real, m: nat, n: nat)
    requires x <= y && Rounds(x, m) && Rounds(y, n)
    ensures m <= n
  {
    hide Value;
    if n < m {
      if n + 1 < m {
        ValueGrows(n, m - 1);
        ValueGrows(n + 1, m);
      }
      assert false;
    }
  }

  /** One code per magnitude. */
  lemma RoundsUnique(x: real, m: nat, n: nat)
    requires Rounds(x, m) && Rounds(x, n)
    ensures m == n
  {
    RoundsMonotone(x, x, m, n);
    RoundsMonotone(x, x, n, m);
  }

  /** Representable magnitudes are kept. */
  lemma RoundsExact(m: nat)
    requires m <= INF
    ensures Rounds(Value(m) as real, m)
  {
    hide Value;
    NextValue(m);
    if m > 0 {
      ValueGrows(m - 1, m);
    }
  }

  // ---- the code ----

  /** frexp: the binary exponent; below one quantum only its sign of being small matters. */
  method Frexp(x: real) returns (e: int)
    requires x > 0.0
    ensures e > -24 ==> Pow2(e + 23) as real <= x < Pow2(e + 24) as real
    ensures e <= -24 ==> x < 1.0
  {
    if x < 1.0 {
      return -24;
    }
    var k := 0;
    Reaches(x);
    while Pow2(k + 1) as real <= x
      invariant Pow2(k) as real <= x
      decreases x.Floor - k
    {
      AtLeast(k + 1);
      k := k + 1;
    }
    e := k - 23;
  }

  lemma {:induction false} AtLeast(k: nat)
    ensures k + 1 <= Pow2(k)
  {
    if k > 0 {
      AtLeast(k - 1);
    }
  }

  lemma Reaches(x: real)
    requires x >= 1.0
    ensures x.Floor >= 1
  {
  }

  /** floor, and one more from a half on. */
  function HalfUp(frac: real): (n: int)
    ensures n as real - 0.5 <= frac < n as real + 0.5
  {
    var n := frac.Floor;
    if frac - n as real >= 0.5 then n + 1 else n
  }

  /** Below the smallest normal number: whole quanta. */
  lemma SubnormalRounds(x: real, n: int)
    requires 0.0 < x < 1024.0 && n == HalfUp(x)
    ensures 0 <= n <= 1024 && Rounds(x, n)
  {
    SmallValue(n);
    SmallValue(n + 1);
    if n > 0 {
      SmallValue(n - 1);
    }
  }

  lemma SmallValue(n: nat)
    requires n <= 1025
    ensures Value(n) == n
  {
    assert Pow2(0) == 1;
    if n >= 1024 {
      assert n / 1024 == 1 && n % 1024 == n - 1024;
    }
  }

  lemma Fields(exp: nat, man: nat)
    requires man < 1024
    ensures (1024 * exp + man) / 1024 == exp && (1024 * exp + man) % 1024 == man
  {
  }

  lemma ValueOf(exp: nat, man: nat)
    requires exp >= 1 && man < 1024
    ensures Value(1024 * exp + man) == (man + 1024) * Pow2(exp - 1)
  {
    hide Pow2;
    Fields(exp, man);
  }

  /** In binade k the code of n ulps, n from 1024 to 2048, is worth n ulps. */
  lemma BinadeValue(k: nat, n: nat)
    requires 1024 <= n <= 2048
    ensures Value(1024 * (k + 1) + (n - 1024)) == n * Pow2(k)
  {
    hide Value;
    if n < 2048 {
      ValueOf(k + 1, n - 1024);
    } else {
      ValueOf(k + 2, 0);
      assert Pow2(k + 1) == 2 * Pow2(k);
      hide Pow2;
      assert 1024 * (k + 1) + (n - 1024) == 1024 * (k + 2) + 0;
    }
  }

  /** Just below a binade the spacing is at most its ulp. */
  lemma BelowBinade(k: nat)
    ensures Value(1024 * (k + 1) - 1) + Value(1024 * (k + 1)) <= 2 * (1024 * Pow2(k))
  {
    hide Value, Pow2;
    BinadeValue(k, 1024);
    ValueGrows(1024 * (k + 1) - 1, 1024 * (k + 1));
  }

  lemma NormalRounds(x: real, k: nat, n: int, m: nat)
    requires k <= 29 && (1024 * Pow2(k)) as real <= x < (2048 * Pow2(k)) as real
    requires n == HalfUp(x / Pow2(k) as real)
    requires 1024 <= n <= 2048 && m == 1024 * (k + 1) + (n - 1024)
    ensures Rounds(x, m)
  {
    Scaled(x, Pow2(k), n);
    LowerNeighbour(k, n, m);
    UpperNeighbour(k, n, m);
    hide Value, Pow2;
  }

  lemma LowerNeighbour(k: nat, n: int, m: nat)
    requires 1024 <= n <= 2048 && m == 1024 * (k + 1) + (n - 1024)
    ensures m > 0 && if n > 1024 then Value(m - 1) + Value(m) == (2 * n - 1) * Pow2(k)
            else Value(m - 1) + Value(m) <= 2 * (1024 * Pow2(k))
  {
    hide Value, Pow2;
    if n > 1024 {
      BinadeValue(k, n);
      BinadeValue(k, n - 1);
      Twice(n, n - 1, Pow2(k));
    } else {
      BelowBinade(k);
    }
  }

  lemma UpperNeighbour(k: nat, n: int, m: nat)
    requires 1024 <= n <= 2048 && m == 1024 * (k + 1) + (n - 1024)
    ensures if n < 2048 then Value(m) + Value(m + 1) == (2 * n + 1) * Pow2(k)
            else Value(m) + Value(m + 1) > 2 * (2048 * Pow2(k))
  {
    hide Value, Pow2;
    BinadeValue(k, n);
    if n < 2048 {
      BinadeValue(k, n + 1);
      Twice(n, n + 1, Pow2(k));
    } else {
      ValueGrows(m, m + 1);
    }
  }

  lemma Twice(a: int, b: int, u: nat)
    ensures a * u + b * u == (a + b) * u
  {
  }

  /** x is between n - 1/2 and n + 1/2 ulps. */
  lemma Scaled(x: real, u: nat, n: int)
    requires u >= 1 && n == HalfUp(x / u as real)
    ensures ((2 * n - 1) * u) as real <= 2.0 * x < ((2 * n + 1) * u) as real
  {
    hide HalfUp;
    var f := x / u as real;
    Quotient(x, u as real);
    ScaledLow(2.0 * f, u, 2 * n - 1);
    ScaledHigh(2.0 * f, u, 2 * n + 1);
  }

  lemma ScaledLow(f: real, u: nat, c: int)
    requires u >= 1 && c as real <= f
    ensures (c * u) as real <= f * u as real
  {
    Product(c, u);
    ScaleLe(c as real, f, u as real);
  }

  lemma ScaledHigh(f: real, u: nat, c: int)
    requires u >= 1 && f < c as real
    ensures f * u as real < (c * u) as real
  {
    Product(c, u);
    ScaleLt(f, c as real, u as real);
  }

  lemma Quotient(x: real, r: real)
    requires r > 0.0
    ensures 2.0 * (x / r) * r == 2.0 * x
  {
    assert x / r * r == x;
  }

  lemma Product(a: int, b: int)
    ensures (a * b) as real == a as real * b as real
  {
  }

  lemma ScaleLe(a: real, b: real, u: real)
    requires a <= b && u > 0.0
    ensures a * u <= b * u
  {
  }

  lemma ScaleLt(a: real, b: real, u: real)
    requires a < b && u > 0.0
    ensures a * u < b * u
  {
  }

  /** A magnitude in a binade rounds to between 1024 and 2048 of its ulps. */
  lemma MantissaRange(x: real, u: nat, n: int)
    requires u >= 1 && (1024 * u) as real <= x < (2048 * u) as real && n == HalfUp(x / u as real)
    ensures 1024 <= n <= 2048
  {
    Scaled(x, u, n);
    if n < 1024 {
      Below(2 * n + 1, 2048, u);
    }
    if n > 2048 {
      Below(4096, 2 * n - 1, u);
    }
  }

  lemma Below(a: int, b: int, u: nat)
    requires a <= b
    ensures a * u <= b * u
  {
  }

  lemma BigIsInfinite(x: real)
    requires x >= Value(INF) as real
    ensures Rounds(x, INF)
  {
    ValueGrows(INF - 1, INF);
  }

  /** The fp16 code of a double: the quiet NaN, or the sign and the correctly rounded magnitude. */
  ghost predicate IsRounded(s: Double, h: nat) {
    match s
    case NotANumber => h == QUIET_NAN
    case Infinite(negative) => h == (if negative then SIGN else 0) + INF
    case Finite(negative, quanta) => exists m: nat :: Rounds(quanta, m) && h == (if negative then SIGN else 0) + m
  }

  /** ane_f16_round_half_away. */
  method RoundHalfAway(s: Double) returns (h: nat)
    requires IsDouble(s)
    ensures IsRounded(s, h)
  {
    if s.NotANumber? {
      return QUIET_NAN;
    }
    var sign := if s.negative then SIGN else 0;
    if s.Infinite? {
      return sign + INF;
    }
    var m := RoundMagnitude(s.quanta);
    h := sign + m;
  }

  method RoundMagnitude(a: real) returns (m: nat)
    requires a >= 0.0
    ensures Rounds(a, m)
  {
    if a == 0.0 {
      RoundsExact(0);
      return 0;
    }
    var e := Frexp(a);
    if e <= -14 {
      BelowNormal(a, e);
      var n := HalfUp(a);
      SubnormalRounds(a, n);
      if n >= 1024 {
        return 0x400;
      }
      return n;
    }
    var k := e + 13;
    var ulp := Pow2(k);
    Binade(a, k);
    var n := HalfUp(a / ulp as real);
    MantissaRange(a, ulp, n);
    if e > 16 {
      Beyond(a, k);
    } else {
      NormalRounds(a, k, n, 1024 * (k + 1) + (n - 1024));
    }
    if n >= 2048 {
      n := 1024;
      e := e + 1;
    }
    if e > 16 {
      return INF;
    }
    m := (e + 14) * 1024 + (n - 1024);
  }

  lemma BelowNormal(a: real, e: int)
    requires e <= -14 && (e > -24 ==> a < Pow2(e + 24) as real) && (e <= -24 ==> a < 1.0)
    ensures a < 1024.0
  {
    assert Pow2(10) == 1024;
    if e > -24 {
      Pow2Grows(e + 24, 10);
    }
  }

  lemma Binade(a: real, k: nat)
    requires Pow2(k + 10) as real <= a < Pow2(k + 11) as real
    ensures (1024 * Pow2(k)) as real <= a < (2048 * Pow2(k)) as real
  {
    Pow2Ten(k);
  }

  lemma {:induction false} Pow2Sum(j: nat, k: nat)
    ensures Pow2(k + j) == Pow2(j) * Pow2(k)
  {
    if j > 0 {
      Pow2Sum(j - 1, k);
      Associate(Pow2(j - 1), Pow2(k));
    }
  }

  lemma Associate(a: nat, b: nat)
    ensures 2 * (a * b) == 2 * a * b
  {
  }

  lemma Pow2Ten(k: nat)
    ensures Pow2(k + 10) == 1024 * Pow2(k) && Pow2(k + 11) == 2048 * Pow2(k)
  {
    assert Pow2(10) == 1024 && Pow2(11) == 2048;
    Pow2Sum(10, k);
    Pow2Sum(11, k);
  }

  lemma Beyond(a: real, k: nat)
    requires k > 29 && (1024 * Pow2(k)) as real <= a
    ensures Rounds(a, INF)
  {
    Pow2Grows(30, k);
    BinadeValue(30, 1024);
    hide Value, Pow2;
    BigIsInfinite(a);
  }

  // ---- the addition ----

  predicate IsHalf(h: nat) { h < 0x1_0000 }

  /** ane_f16_to_f64. */
  function ToDouble(h: nat): (d: Double)
    requires IsHalf(h)
    ensures IsDouble(d)
  {
    var negative, m := h >= SIGN, h % SIGN;
    if m / 1024 == 31 then (if m % 1024 != 0 then NotANumber else Infinite(negative))
    else Finite(negative, Value(m) as real)
  }

  /** Decoding loses nothing: rounding a finite fp16 value gives its code back. */
  lemma RoundTrip(h: nat, m: nat)
    requires IsHalf(h) && ToDouble(h).Finite? && Rounds(ToDouble(h).quanta, m)
    ensures (if ToDouble(h).negative then SIGN else 0) + m == h
  {
    hide Rounds, Value;
    RoundsExact(h % SIGN);
    RoundsUnique(ToDouble(h).quanta, m, h % SIGN);
  }

  function Signed(d: Double): real
    requires d.Finite?
  {
    if d.negative then -d.quanta else d.quanta
  }

  // ---- signed order ----

  /** The order of doubles, infinities included. */
  predicate AtMost(s: Double, t: Double)
    requires !s.NotANumber? && !t.NotANumber?
  {
    if s.Infinite? then s.negative || t == Infinite(false)
    else if t.Infinite? then !t.negative
    else Signed(s) <= Signed(t)
  }

  /** The place of an fp16 code in the signed order; the two zeros share one. */
  function Order(h: nat): int { if h >= SIGN then SIGN - h else h }

  lemma RoundedMagnitude(s: Double, h: nat) returns (m: nat)
    requires IsDouble(s) && !s.NotANumber? && IsRounded(s, h)
    ensures m <= INF && h == (if s.negative then SIGN else 0) + m && Order(h) == (if s.negative then 0 - m else m)
    ensures s.Infinite? ==> m == INF
    ensures s.Finite? ==> Rounds(s.quanta, m)
  {
    hide Value;
    if s.Infinite? {
      m := INF;
    } else {
      m :| Rounds(s.quanta, m) && h == (if s.negative then SIGN else 0) + m;
    }
  }

  /** MONOTONE. Rounding keeps the signed order, infinities included. */
  lemma RoundingMonotone(s: Double, t: Double, h: nat, k: nat)
    requires IsDouble(s) && IsDouble(t) && !s.NotANumber? && !t.NotANumber? && AtMost(s, t) && IsRounded(s, h)
             && IsRounded(t, k)
    ensures Order(h) <= Order(k)
  {
    hide Rounds, Value, IsRounded;
    var m := RoundedMagnitude(s, h);
    var n := RoundedMagnitude(t, k);
    if s.Finite? && t.Finite? {
      if s.negative && t.negative {
        RoundsMonotone(t.quanta, s.quanta, n, m);
      } else if !s.negative && !t.negative {
        RoundsMonotone(s.quanta, t.quanta, m, n);
      } else if !s.negative && t.negative {
        RoundsMonotone(s.quanta, t.quanta, m, n);
        RoundsZero(t.quanta, n);
      }
    }
  }

  /** Zero rounds to zero. */
  lemma RoundsZero(x: real, m: nat)
    requires Rounds(x, m) && x == 0.0
    ensures m == 0
  {
    hide Value;
    RoundsExact(0);
    assert Value(0) == 0 by { ZeroValue(); }
    RoundsUnique(x, m, 0);
  }

  lemma ZeroValue()
    ensures Value(0) == 0
  {
  }

  /** The sum of two doubles whose exact sum is a double: IEEE 754 addition, rounding to nearest. */
  function Sum(x: Double, y: Double): Double {
    if x.NotANumber? || y.NotANumber? then NotANumber
    else if x.Infinite? then (if y.Infinite? && y.negative != x.negative then NotANumber else x)
    else if y.Infinite? then y
    else
      var v := Signed(x) + Signed(y);
      if v == 0.0 then Finite(x.negative && y.negative, 0.0) else Finite(v < 0.0, if v < 0.0 then -v else v)
  }

  lemma SumIsSum(x: Double, y: Double)
    requires IsDouble(x) && IsDouble(y)
    ensures IsDouble(Sum(x, y)) && Sum(x, y) == Sum(y, x)
    ensures x.Finite? && y.Finite? ==> Sum(x, y).Finite? && Signed(Sum(x, y)) == Signed(x) + Signed(y)
  {
  }

  /** Two fp16 values add up to whole quanta, fewer than 2^53: the double sum is exact. */
  lemma SumExact(ha: nat, hb: nat) returns (n: nat)
    requires IsHalf(ha) && IsHalf(hb) && ToDouble(ha).Finite? && ToDouble(hb).Finite?
    ensures var d := Sum(ToDouble(ha), ToDouble(hb)); d.Finite? && d.quanta == n as real && n < 0x20_0000_0000_0000
  {
    TopValues();
    hide Value;
    var x: int, y: int := Value(ha % SIGN), Value(hb % SIGN);
    ValueGrows(ha % SIGN, INF);
    ValueGrows(hb % SIGN, INF);
    var v := (if ha >= SIGN then 0 - x else x) + (if hb >= SIGN then 0 - y else y);
    n := if v < 0 then 0 - v else v;
  }

  /** Only zero rounds to zero among whole quanta. */
  lemma WholeRounds(n: nat, m: nat)
    requires Rounds(n as real, m)
    ensures m == 0 <==> n == 0
  {
    SmallValue(0);
    SmallValue(1);
    hide Value;
    if n == 0 {
      RoundsZero(0.0, m);
    }
  }

  /** The exact sum of two finite codes vanishes when they are opposite or both zeros. */
  lemma SumVanishes(ha: nat, hb: nat)
    requires IsHalf(ha) && IsHalf(hb) && ToDouble(ha).Finite? && ToDouble(hb).Finite?
    ensures Signed(ToDouble(ha)) + Signed(ToDouble(hb)) == 0.0 <==>
              ha % 0x8000 == hb % 0x8000 && (ha != hb || ha % 0x8000 == 0)
  {
    hide Value;
    var m, n := ha % SIGN, hb % SIGN;
    ZeroValue();
    if m > 0 {
      ValueGrows(0, m);
    }
    if n > 0 {
      ValueGrows(0, n);
    }
    if m < n {
      ValueGrows(m, n);
    } else if n < m {
      ValueGrows(n, m);
    }
  }

  /** THE SIGN OF ZERO. Two finite codes add up to -0 exactly when both are -0, and to +0 exactly when they
      are opposite or both zeros, and not both -0. */
  lemma AddZero(ha: nat, hb: nat, h: nat)
    requires IsHalf(ha) && IsHalf(hb) && ToDouble(ha).Finite? && ToDouble(hb).Finite?
    requires IsRounded(Sum(ToDouble(ha), ToDouble(hb)), h)
    ensures h == 0x8000 <==> ha == hb == 0x8000
    ensures h == 0 <==> ha % 0x8000 == hb % 0x8000 && (ha != hb || ha == 0)
  {
    hide Value, Rounds;
    SumVanishes(ha, hb);
    SumIsSum(ToDouble(ha), ToDouble(hb));
    var s := Sum(ToDouble(ha), ToDouble(hb));
    var n := SumExact(ha, hb);
    var m := RoundedMagnitude(s, h);
    WholeRounds(n, m);
  }

  /** ane_f16_add_half_away: the correctly rounded exact sum, with the sign of an exact zero; NaN, and
      infinities of opposite sign, give the quiet NaN, and an infinity otherwise itself. */
  method AddHalfAway(ha: nat, hb: nat) returns (h: nat)
    requires IsHalf(ha) && IsHalf(hb)
    ensures IsRounded(Sum(ToDouble(ha), ToDouble(hb)), h)
    ensures IsNan(ha) || IsNan(hb) ==> h == 0x7e00
    ensures IsInfinite(ha) && IsInfinite(hb) ==> h == if ha == hb then ha else 0x7e00
    ensures IsInfinite(ha) && IsFinite(hb) ==> h == ha
    ensures IsFinite(ha) && IsInfinite(hb) ==> h == hb
    ensures IsFinite(ha) && IsFinite(hb) ==> (h == 0x8000 <==> ha == hb == 0x8000)
    ensures IsFinite(ha) && IsFinite(hb) ==> (h == 0 <==> ha % 0x8000 == hb % 0x8000 && (ha != hb || ha == 0))
  {
    hide Rounds, Value;
    SumIsSum(ToDouble(ha), ToDouble(hb));
    Classes(ha);
    Classes(hb);
    h := RoundHalfAway(Sum(ToDouble(ha), ToDouble(hb)));
    if IsFinite(ha) && IsFinite(hb) {
      AddZero(ha, hb, h);
    }
  }

  // ---- the classes of codes ----

  predicate IsNan(h: nat) { h % 0x8000 > 0x7c00 }

  predicate IsInfinite(h: nat) { h % 0x8000 == 0x7c00 }

  predicate IsFinite(h: nat) { h % 0x8000 < 0x7c00 }

  lemma Classes(h: nat)
    requires IsHalf(h)
    ensures ToDouble(h).NotANumber? <==> IsNan(h)
    ensures ToDouble(h) == Infinite(h >= 0x8000) <==> IsInfinite(h)
    ensures ToDouble(h).Finite? <==> IsFinite(h)
  {
    hide Value;
    var m := h % 0x8000;
    assert m < 0x7c00 ==> m / 1024 < 31;
    assert m >= 0x7c00 ==> m / 1024 == 31 && m % 1024 == m - 0x7c00;
  }

  /** A larger addend gives no smaller a sum, infinities included. */
  lemma SumMonotone(a: Double, b: Double, c: Double)
    requires IsDouble(a) && IsDouble(b) && IsDouble(c) && !Sum(a, c).NotANumber? && !Sum(b, c).NotANumber?
    requires !a.NotANumber? && !b.NotANumber? && AtMost(a, b)
    ensures AtMost(Sum(a, c), Sum(b, c))
  {
    SumIsSum(a, c);
    SumIsSum(b, c);
  }

  /** ADDITION IS MONOTONE. Of two addends the larger gives no smaller a sum, for all operands whose sums
      are not NaN. */
  lemma AddMonotone(ha: nat, hb: nat, hc: nat, h: nat, k: nat)
    requires IsHalf(ha) && IsHalf(hb) && IsHalf(hc) && Order(ha) <= Order(hb)
    requires !Sum(ToDouble(ha), ToDouble(hc)).NotANumber? && !Sum(ToDouble(hb), ToDouble(hc)).NotANumber?
    requires IsRounded(Sum(ToDouble(ha), ToDouble(hc)), h) && IsRounded(Sum(ToDouble(hb), ToDouble(hc)), k)
    ensures Order(h) <= Order(k)
  {
    hide IsRounded, Value;
    var a, b, c := ToDouble(ha), ToDouble(hb), ToDouble(hc);
    OrderMeans(ha, hb);
    SumIsSum(a, c);
    SumIsSum(b, c);
    SumMonotone(a, b, c);
    RoundingMonotone(Sum(a, c), Sum(b, c), h, k);
  }

  lemma OrderMeans(ha: nat, hb: nat)
    requires IsHalf(ha) && IsHalf(hb) && Order(ha) <= Order(hb)
    requires !ToDouble(ha).NotANumber? && !ToDouble(hb).NotANumber?
    ensures AtMost(ToDouble(ha), ToDouble(hb))
  {
    hide Value;
    var m, n := ha % SIGN, hb % SIGN;
    if m < n {
      ValueGrows(m, n);
    } else if n < m {
      ValueGrows(n, m);
    }
    ZeroValue();
  }
}
