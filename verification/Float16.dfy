/** Half-precision conversion on raw bit patterns, and the numbers those patterns stand for. */
module Float16 {
  import opened Words

  const SIGN16: nat := 0x8000
  const SIGN32: nat := 0x8000_0000
  const MAX_FINITE: nat := 0x7BFF
  const INFINITY: nat := 0x7C00
  const NAN: nat := 0x7E00

  /** Binary weight of the least half-precision magnitude, in units of the least single-precision one. */
  const UNIT: nat := 125

  function Pow2(n: nat): (p: nat)
    ensures p >= 1
  {
    if n == 0 then 1 else 2 * Pow2(n - 1)
  }

  lemma {:induction false} Pow2Add(a: nat, b: nat)
    ensures Pow2(a + b) == Pow2(a) * Pow2(b)
  {
    if b == 0 {
      assert Pow2(0) == 1;
    } else {
      Pow2Add(a, b - 1);
      assert Pow2(a) * (2 * Pow2(b - 1)) == 2 * (Pow2(a) * Pow2(b - 1));
    }
  }

  /** A logical shift right. */
  function Shr(x: nat, k: nat): (q: nat)
    ensures q * Pow2(k) <= x < (q + 1) * Pow2(k)
  {
    QuotientBounds(x, Pow2(k));
    x / Pow2(k)
  }

  lemma QuotientBounds(x: nat, p: nat)
    requires p >= 1
    ensures 0 <= x / p && x / p * p <= x < (x / p + 1) * p
  {
    var q := x / p;
    assert x == q * p + x % p;
    MulSign(q, p);
  }

  // ---- Bit fields ----

  function Exponent32(bits: nat): nat { bits / 0x80_0000 % 0x100 }

  function Mantissa32(bits: nat): nat { bits % 0x80_0000 }

  function Negative32(bits: nat): bool { bits / SIGN32 % 2 == 1 }

  function Exponent16(half: nat): nat { half / 0x400 % 0x20 }

  function Mantissa16(half: nat): nat { half % 0x400 }

  function Negative16(half: nat): bool { half / SIGN16 % 2 == 1 }

  predicate IsNaN32(bits: nat) { Exponent32(bits) == 255 && Mantissa32(bits) != 0 }

  predicate IsNaN16(half: nat) { Exponent16(half) == 31 && Mantissa16(half) != 0 }

  // ---- The conversions ----

  /** Magnitude bits of the half for a single's exponent field and mantissa. */
  function HalfMagnitude(exponentField: nat, mantissa: nat): nat {
    var exponent: int := exponentField - 127;
    if exponent == -127 && mantissa == 0 then 0
    else if exponent == 128 && mantissa != 0 then NAN
    else if exponent == 128 then INFINITY
    else if exponent > 15 then MAX_FINITE
    else if exponent >= -14 then (exponent + 15) * 0x400 + mantissa / 0x2000
    else if exponent >= -24 then Shr(mantissa + 0x80_0000, 13 + (-14 - exponent))
    else 0
  }

  function FromFloat(bits: nat): nat {
    (if Negative32(bits) then SIGN16 else 0) + HalfMagnitude(Exponent32(bits), Mantissa32(bits))
  }

  /** How far a mantissa must be shifted to bring its leading one to bit 10. */
  function Shift(m: nat): nat
    requires 0 < m < 0x800
    decreases 0x800 - m
  {
    if m >= 0x400 then 0 else 1 + Shift(2 * m)
  }

  lemma {:induction false} ShiftNormalises(m: nat)
    requires 0 < m < 0x800
    ensures 0x400 <= m * Pow2(Shift(m)) < 0x800
    decreases 0x800 - m
  {
    if m < 0x400 {
      ShiftNormalises(2 * m);
      Doubling(m, Shift(2 * m));
    } else {
      assert Pow2(0) == 1;
    }
  }

  lemma Doubling(m: nat, k: nat)
    ensures m * Pow2(k + 1) == 2 * m * Pow2(k)
  {
    assert m * (2 * Pow2(k)) == 2 * m * Pow2(k);
  }

  lemma {:induction false} ShiftAtMost(m: nat, j: nat)
    requires 0 < m < 0x800 && m * Pow2(j) >= 0x400
    ensures Shift(m) <= j
    decreases j
  {
    assert Pow2(0) == 1;
    if m < 0x400 {
      Doubling(m, j - 1);
      ShiftAtMost(2 * m, j - 1);
    }
  }

  lemma ShiftBound(m: nat)
    requires 0 < m < 0x400
    ensures 1 <= Shift(m) <= 10
  {
    assert Pow2(5) == 32;
    Pow2Add(5, 5);
    assert m * 1024 >= 1024;
    ShiftAtMost(m, 10);
  }

  /** Magnitude bits of the single for a half's exponent field and mantissa. */
  function SingleMagnitude(exponent: nat, mantissa: nat): nat
    requires exponent < 32 && mantissa < 0x400
  {
    if exponent == 0 && mantissa == 0 then 0
    else if exponent == 0 then
      ShiftBound(mantissa);
      ShiftNormalises(mantissa);
      (113 - Shift(mantissa)) * 0x80_0000 + (mantissa * Pow2(Shift(mantissa)) - 0x400) * 0x2000
    else if exponent == 31 then 255 * 0x80_0000 + mantissa * 0x2000
    else (exponent + 112) * 0x80_0000 + mantissa * 0x2000
  }

  function ToFloat(half: nat): nat {
    (if Negative16(half) then SIGN32 else 0) + SingleMagnitude(Exponent16(half), Mantissa16(half))
  }

  /** The half as the firmware computes it, with masks and shifts written as division. */
  method FromFloatBits(fbits: nat) returns (half: nat)
    requires fbits < DWORD
    ensures half == FromFloat(fbits)
  {
    var sign := fbits / 0x1_0000 / 0x8000 % 2 * 0x8000;
    var exponent: int := fbits / 0x80_0000 % 0x100 - 127;
    var mantissa := fbits % 0x80_0000;
    if exponent == -127 && mantissa == 0 { return sign; }
    if exponent == 128 && mantissa != 0 { return sign + NAN; }
    if exponent == 128 { return sign + INFINITY; }
    if exponent > 15 { return sign + MAX_FINITE; }
    if exponent >= -14 {
      var hExp := (exponent + 15) * 0x400;
      var hMan := mantissa / 0x2000;
      return sign + hExp + hMan;
    }
    if exponent >= -24 {
      mantissa := mantissa + 0x80_0000;
      var shift := -14 - exponent;
      var hMan := Shr(mantissa, 13 + shift);
      return sign + hMan;
    }
    return sign;
  }

  /** The four kinds of half, the subnormal one by its normalised mantissa. */
  lemma SingleCases(e: nat, m: nat)
    requires e < 32 && m < 0x400
    ensures e == 0 && m == 0 ==> SingleMagnitude(e, m) == 0
    ensures e == 0 && m != 0 ==>
              SingleMagnitude(e, m) == (113 - Shift(m)) * 0x80_0000 + m * Pow2(Shift(m)) % 0x400 * 0x2000
    ensures e == 31 ==> SingleMagnitude(e, m) == 0xFF * 0x80_0000 + m * 0x2000
    ensures 0 < e < 31 ==> SingleMagnitude(e, m) == (e + 112) * 0x80_0000 + m * 0x2000
  {
    hide Pow2, Shift;
    if e == 0 && m != 0 {
      ShiftNormalises(m);
      var n := m * Pow2(Shift(m));
      assert n % 0x400 == n - 0x400;
    }
  }

  /** The single as the firmware computes it; the exponent is a uint32_t that runs below zero and back. */
  method ToFloatBits(half: nat) returns (bits: nat)
    requires half < WORD
    ensures bits == ToFloat(half)
  {
    hide Pow2, Shift, U32, SingleMagnitude;
    SingleCases(half / 0x400 % 0x20, half % 0x400);
    var sign := half / 0x8000 % 2 * SIGN32;
    var exponent := half / 0x400 % 0x20;
    var mantissa := half % 0x400;
    if exponent == 0 && mantissa == 0 { return sign; }
    if exponent == 0 {
      mantissa, exponent := Normalise(mantissa);
      ExponentComesBack(Shift(half % 0x400));
      exponent := U32(exponent + 1);
      mantissa := mantissa % 0x400;
      var fExp := U32(exponent + 127 - 15) * 0x80_0000;
      var fMan := mantissa * 0x2000;
      return sign + fExp + fMan;
    }
    if exponent == 0x1F {
      return sign + 0xFF * 0x80_0000 + mantissa * 0x2000;
    }
    return sign + (exponent + 127 - 15) * 0x80_0000 + mantissa * 0x2000;
  }

  /** The loop that brings the leading one to bit 10, counting the exponent down past zero. */
  method Normalise(m: nat) returns (mantissa: nat, exponent: nat)
    requires 0 < m < 0x400
    ensures mantissa == m * Pow2(Shift(m)) && 0x400 <= mantissa < 0x800
    ensures 1 <= Shift(m) <= 10 && exponent == DWORD - Shift(m)
  {
    hide Pow2, U32;
    ShiftBound(m);
    mantissa, exponent := m, 0;
    ghost var k := 0;
    ZeroShift();
    while mantissa / 0x400 % 2 == 0
      invariant 0 < mantissa < 0x800 && k + Shift(mantissa) == Shift(m)
      invariant mantissa == m * Pow2(k)
      invariant exponent == if k == 0 then 0 else DWORD - k
      decreases 0x800 - mantissa
    {
      assert mantissa < 0x400;
      Doubling(m, k);
      DoubleAndCount(mantissa, exponent);
      mantissa := U32(mantissa * 2);
      exponent := U32((exponent as int) - 1);
      k := k + 1;
    }
  }

  lemma ZeroShift()
    ensures Pow2(0) == 1
  {
  }

  lemma DoubleAndCount(mantissa: nat, exponent: nat)
    requires mantissa < 0x400 && exponent < DWORD
    ensures U32(mantissa * 2) == mantissa * 2
    ensures U32((exponent as int) - 1) == if exponent == 0 then DWORD - 1 else exponent - 1
  {
  }

  /** The exponent that ran below zero comes back as 113 - k. */
  lemma ExponentComesBack(k: nat)
    requires 1 <= k <= 10
    ensures U32(U32(DWORD - k + 1) + 127 - 15) == 113 - k
  {
  }

  // ---- The numbers the patterns stand for ----

  /** A single's magnitude in units of the least single; the formula also orders infinity last. */
  function Magnitude32(exponent: nat, mantissa: nat): nat {
    if exponent == 0 then mantissa else (0x80_0000 + mantissa) * Pow2(exponent - 1)
  }

  /** A half's magnitude in the same units, from its fifteen magnitude bits. */
  function Magnitude16(h: nat): nat {
    Significand16(h) * Pow2(UNIT + Scale16(h))
  }

  function Significand16(h: nat): nat {
    if Exponent16(h) == 0 then Mantissa16(h) else 0x400 + Mantissa16(h)
  }

  function Scale16(h: nat): nat {
    if Exponent16(h) == 0 then 0 else Exponent16(h) - 1
  }

  lemma HalfFields(e: nat, m: nat)
    requires e < 32 && m < 0x400
    ensures Exponent16(e * 0x400 + m) == e && Mantissa16(e * 0x400 + m) == m
  {
  }

  /** A power of two is at least as large as an earlier one. */
  lemma Pow2Grows(a: nat, b: nat)
    requires a <= b
    ensures Pow2(a) <= Pow2(b)
  {
    Pow2Add(a, b - a);
    assert Pow2(a) * Pow2(b - a) >= Pow2(a) * 1;
  }

  /** The next magnitude bits: one more in the same binade, or the start of the next. */
  lemma NextFields(h: nat)
    requires h < INFINITY
    ensures || (Scale16(h + 1) == Scale16(h) && Significand16(h + 1) == Significand16(h) + 1)
            || (Scale16(h + 1) == Scale16(h) + 1 && Significand16(h) + 1 == 0x800 && Significand16(h + 1) == 0x400)
  {
    var e, m := Exponent16(h), Mantissa16(h);
    assert h == e * 0x400 + m;
    if m < 0x3FF {
      HalfFields(e, m + 1);
    } else {
      HalfFields(e + 1, 0);
      assert h + 1 == (e + 1) * 0x400 + 0;
    }
  }

  /** Consecutive magnitude bits stand for strictly larger magnitudes. */
  lemma NextHalfIsLarger(h: nat)
    requires h < INFINITY
    ensures Magnitude16(h) < Magnitude16(h + 1)
    ensures Magnitude16(h + 1) == (Significand16(h) + 1) * Pow2(UNIT + Scale16(h))
  {
    hide Significand16, Scale16;
    NextFields(h);
    var s, k := Significand16(h), UNIT + Scale16(h);
    var p := Pow2(k);
    if Scale16(h + 1) != Scale16(h) {
      assert Pow2(k + 1) == 2 * p;
      assert 0x400 * (2 * p) == 0x800 * p;
    }
    assert (s + 1) * p == s * p + p;
  }

  lemma {:induction false} HalvesAreOrdered(g: nat, h: nat)
    requires g < h <= INFINITY
    ensures Magnitude16(g) < Magnitude16(h)
    decreases h - g
  {
    NextHalfIsLarger(h - 1);
    if g < h - 1 { HalvesAreOrdered(g, h - 1); }
  }

  /** r is the largest finite half magnitude not above x: rounding toward zero, clamped at the top. */
  ghost predicate RoundsDown(x: nat, r: nat) {
    && r <= 0x7BFF && Magnitude16(r) <= x
    && (r < 0x7BFF ==> x < Magnitude16(r + 1))
  }

  lemma OverflowRounds(exponent: nat, mantissa: nat)
    requires 143 <= exponent < 255 && mantissa < 0x80_0000
    ensures RoundsDown(Magnitude32(exponent, mantissa), HalfMagnitude(exponent, mantissa))
  {
    HalfFields(30, 0x3FF);
    Pow2Grows(UNIT + 29 - 12, exponent - 1);
    Pow2Add(UNIT + 29 - 12, 12);
    assert Pow2(12) == 4096 by { Pow2Add(6, 6); assert Pow2(6) == 64; }
    var p := Pow2(UNIT + 29 - 12);
    assert Magnitude16(MAX_FINITE) == 2047 * (p * 4096);
    assert (0x80_0000 + mantissa) * Pow2(exponent - 1) >= 0x80_0000 * p by {
      MulMono(0x80_0000, 0x80_0000 + mantissa, p, Pow2(exponent - 1));
    }
  }

  lemma NormalRounds(exponent: nat, mantissa: nat)
    requires 113 <= exponent <= 142 && mantissa < 0x80_0000
    ensures RoundsDown(Magnitude32(exponent, mantissa), HalfMagnitude(exponent, mantissa))
  {
    hide Pow2;
    var e, m := exponent - 112, mantissa / 0x2000;
    var h := HalfMagnitude(exponent, mantissa);
    HalfFields(e, m);
    assert h == e * 0x400 + m;
    var p := Pow2(exponent - 1);
    Pow2Add(exponent - 1, 13);
    Powers();
    assert Pow2(UNIT + Scale16(h)) == p * 0x2000;
    var s := 0x80_0000 + mantissa;
    assert (0x400 + m) * 0x2000 <= s < (0x400 + m + 1) * 0x2000;
    ScaleBounds(0x400 + m, s, p);
    if h < MAX_FINITE { NextHalfIsLarger(h); }
  }

  lemma ScaleBounds(q: nat, s: nat, p: nat)
    requires q * 0x2000 <= s < (q + 1) * 0x2000 && p >= 1
    ensures q * (p * 0x2000) <= s * p < (q + 1) * (p * 0x2000)
  {
    assert q * (p * 0x2000) == q * 0x2000 * p;
    assert (q + 1) * (p * 0x2000) == (q + 1) * 0x2000 * p;
    MulMono(q * 0x2000, s, p, p);
    assert (s + 1) * p <= (q + 1) * 0x2000 * p by { MulMono(s + 1, (q + 1) * 0x2000, p, p); }
    assert (s + 1) * p == s * p + p;
  }

  lemma Powers()
    ensures Pow2(0) == 1 && Pow2(1) == 2 && Pow2(12) == 0x1000 && Pow2(13) == 0x2000 && Pow2(14) == 0x4000
    ensures Pow2(24) == 0x100_0000
  {
    assert Pow2(6) == 64 && Pow2(7) == 128;
    Pow2Add(6, 6);
    Pow2Add(6, 7);
    Pow2Add(7, 7);
    Pow2Add(12, 12);
  }

  /** A subnormal quotient scaled back up brackets the single's significand. */
  lemma ScaleQuotient(h: nat, q: nat, s: nat, p: nat)
    requires h * q <= s < (h + 1) * q && p >= 1
    ensures h * (q * p) <= s * p < (h + 1) * (q * p)
  {
    assert h * (q * p) == h * q * p && (h + 1) * (q * p) == (h + 1) * q * p;
    MulMono(h * q, s, p, p);
    MulMono(s + 1, (h + 1) * q, p, p);
    assert (s + 1) * p == s * p + p;
  }

  lemma SubnormalRounds(exponent: nat, mantissa: nat)
    requires 103 <= exponent <= 112 && mantissa < 0x80_0000
    ensures RoundsDown(Magnitude32(exponent, mantissa), HalfMagnitude(exponent, mantissa))
  {
    hide Pow2, Shr;
    var k, s := 126 - exponent, 0x80_0000 + mantissa;
    var h := Shr(s, k);
    assert HalfMagnitude(exponent, mantissa) == h;
    SmallQuotient(s, k);
    HalfFields(0, h);
    Pow2Add(k, exponent - 1);
    assert k + (exponent - 1) == UNIT;
    ScaleQuotient(h, Pow2(k), s, Pow2(exponent - 1));
    NextHalfIsLarger(h);
  }

  lemma SmallQuotient(s: nat, k: nat)
    requires s < 0x100_0000 && k >= 14
    ensures Shr(s, k) < 0x400
  {
    hide Pow2;
    Powers();
    Pow2Grows(14, k);
    var h := Shr(s, k);
    if h >= 0x400 { MulMono(0x400, h, 0x4000, Pow2(k)); }
  }

  lemma TinyRounds(exponent: nat, mantissa: nat)
    requires exponent < 103 && mantissa < 0x80_0000
    ensures RoundsDown(Magnitude32(exponent, mantissa), HalfMagnitude(exponent, mantissa))
  {
    hide Pow2;
    Powers();
    HalfFields(0, 0);
    HalfFields(0, 1);
    assert Magnitude16(1) == 1 * Pow2(UNIT);
    assert HalfMagnitude(exponent, mantissa) == 0;
    assert Magnitude16(0) == 0 * Pow2(UNIT) == 0;
    if exponent == 0 {
      Pow2Grows(24, UNIT);
    } else {
      Pow2Add(24, exponent - 1);
      Pow2Grows(24 + (exponent - 1), UNIT);
      MulMono(0x80_0000 + mantissa + 1, 0x100_0000, Pow2(exponent - 1), Pow2(exponent - 1));
    }
  }

  /**
   Every finite single is converted to the largest finite half magnitude not above it: rounding
   toward zero, with overflow clamped to the largest finite half.
   */
  lemma FromFloatRoundsTowardZero(exponent: nat, mantissa: nat)
    requires exponent < 255 && mantissa < 0x80_0000
    ensures RoundsDown(Magnitude32(exponent, mantissa), HalfMagnitude(exponent, mantissa))
  {
    if exponent < 103 { TinyRounds(exponent, mantissa); }
    else if exponent <= 112 { SubnormalRounds(exponent, mantissa); }
    else if exponent <= 142 { NormalRounds(exponent, mantissa); }
    else { OverflowRounds(exponent, mantissa); }
  }

  /** The same as an order statement: a finite half fits below the single exactly when it fits below the result. */
  lemma FromFloatIsNearestBelow(exponent: nat, mantissa: nat, g: nat)
    requires exponent < 255 && mantissa < 0x80_0000 && g <= MAX_FINITE
    ensures Magnitude16(g) <= Magnitude32(exponent, mantissa) <==> g <= HalfMagnitude(exponent, mantissa)
  {
    hide Magnitude16, Magnitude32, HalfMagnitude;
    var h := HalfMagnitude(exponent, mantissa);
    FromFloatRoundsTowardZero(exponent, mantissa);
    if g < h { HalvesAreOrdered(g, h); }
    if g > h + 1 { HalvesAreOrdered(h + 1, g); }
  }

  // ---- Widening is exact, and narrowing undoes it ----

  lemma WideningIsExact(h: nat)
    requires h < INFINITY
    ensures var x := SingleMagnitude(Exponent16(h), Mantissa16(h));
            && x < 255 * 0x80_0000
            && Magnitude32(Exponent32(x), Mantissa32(x)) == Magnitude16(h)
  {
    hide Pow2, Shift;
    var e, m := Exponent16(h), Mantissa16(h);
    Powers();
    if e == 0 && m == 0 {
      assert Magnitude16(h) == 0 * Pow2(UNIT) == 0;
    } else if e == 0 {
      var k := Shift(m);
      ShiftBound(m);
      ShiftNormalises(m);
      SingleFields(113 - k, (m * Pow2(k) - 0x400) * 0x2000);
      SplitUnit(k);
      Regroup(m, Pow2(k), Pow2(112 - k));
    } else {
      SingleFields(e + 112, m * 0x2000);
      Pow2Add(e + 111, 13);
      assert UNIT + (e - 1) == e + 111 + 13;
      Regroup(0x400 + m, 1, Pow2(e + 111));
    }
  }

  lemma Regroup(m: nat, a: nat, b: nat)
    ensures m * a * 0x2000 * b == m * (0x2000 * (a * b))
  {
    assert m * a * 0x2000 * b == m * a * b * 0x2000;
    assert m * a * b == m * (a * b);
  }

  lemma SplitUnit(k: nat)
    requires k <= 112
    ensures Pow2(UNIT) == Pow2(13) * (Pow2(k) * Pow2(112 - k))
  {
    hide Pow2;
    Pow2Add(k, 112 - k);
    Pow2Add(13, k + (112 - k));
    assert 13 + (k + (112 - k)) == UNIT;
  }

  lemma SingleFields(e: nat, m: nat)
    requires e < 256 && m < 0x80_0000
    ensures Exponent32(e * 0x80_0000 + m) == e && Mantissa32(e * 0x80_0000 + m) == m
  {
    DivModUnique(e * 0x80_0000 + m, 0x80_0000, e, m);
  }

  lemma SingleMagnitudeBound(e: nat, m: nat)
    requires e < 32 && m < 0x400
    ensures SingleMagnitude(e, m) < SIGN32
  {
    if e == 0 && m != 0 {
      ShiftBound(m);
      ShiftNormalises(m);
    }
  }

  lemma SignAside32(negative: bool, x: nat)
    requires x < SIGN32
    ensures var b := (if negative then SIGN32 else 0) + x;
            && Negative32(b) == negative && Exponent32(b) == Exponent32(x) && Mantissa32(b) == Mantissa32(x)
  {
    var b := (if negative then SIGN32 else 0) + x;
    DivModUnique(b, SIGN32, if negative then 1 else 0, x);
    DivModUnique(b, 0x80_0000, x / 0x80_0000 + (if negative then 256 else 0), x % 0x80_0000);
  }

  lemma SignAside16(half: nat)
    requires half < WORD
    ensures half % SIGN16 == Exponent16(half) * 0x400 + Mantissa16(half)
    ensures half == (if Negative16(half) then SIGN16 else 0) + half % SIGN16
    ensures Exponent16(half % SIGN16) == Exponent16(half) && Mantissa16(half % SIGN16) == Mantissa16(half)
  {
  }

  /** Narrowing a widened half gives it back: every half that is not a NaN, subnormals and infinities too. */
  lemma RoundTrip(half: nat)
    requires half < WORD && !IsNaN16(half)
    ensures FromFloat(ToFloat(half)) == half
  {
    hide SingleMagnitude, Magnitude16, Magnitude32, HalfMagnitude;
    var e, m := Exponent16(half), Mantissa16(half);
    var h := half % SIGN16;
    var x := SingleMagnitude(e, m);
    SingleMagnitudeBound(e, m);
    SignAside32(Negative16(half), x);
    SignAside16(half);
    if e == 31 {
      InfinityConverts();
    } else {
      WideningIsExact(h);
      var f, g := Exponent32(x), HalfMagnitude(Exponent32(x), Mantissa32(x));
      assert f < 255;
      FromFloatIsNearestBelow(f, Mantissa32(x), h);
      FromFloatRoundsTowardZero(f, Mantissa32(x));
      if h < g { HalvesAreOrdered(h, g); }
      assert g == h;
    }
  }

  lemma InfinityConverts()
    ensures SingleMagnitude(31, 0) == 255 * 0x80_0000
    ensures HalfMagnitude(Exponent32(255 * 0x80_0000), Mantissa32(255 * 0x80_0000)) == INFINITY
  {
  }

  // ---- Narrowing is monotone ----

  /** The signed number a single stands for; infinities order first and last. */
  function Signed32(bits: nat): int {
    var x: int := Magnitude32(Exponent32(bits), Mantissa32(bits));
    if Negative32(bits) then -x else x
  }

  function Signed16(half: nat): int {
    var x: int := Magnitude16(half % SIGN16);
    if Negative16(half) then -x else x
  }

  lemma MagnitudeMonotone(e: nat, m: nat, f: nat, n: nat)
    requires e <= 255 && f <= 255 && m < 0x80_0000 && n < 0x80_0000
    requires (e == 255 ==> m == 0) && (f == 255 ==> n == 0)
    requires Magnitude32(e, m) <= Magnitude32(f, n)
    ensures HalfMagnitude(e, m) <= HalfMagnitude(f, n) <= INFINITY
  {
    hide Magnitude16, HalfMagnitude;
    HalfRange(e, m);
    HalfRange(f, n);
    if f < 255 {
      if e == 255 { InfinityIsLargest(f, n); }
      hide Magnitude32;
      FromFloatRoundsTowardZero(e, m);
      FromFloatIsNearestBelow(f, n, HalfMagnitude(e, m));
    }
  }

  lemma HalfRange(e: nat, m: nat)
    requires e <= 255 && m < 0x80_0000 && (e == 255 ==> m == 0)
    ensures HalfMagnitude(e, m) <= INFINITY && (e == 255 ==> HalfMagnitude(e, m) == INFINITY)
  {
    hide Magnitude16, Magnitude32, HalfMagnitude;
    if e < 255 { FromFloatRoundsTowardZero(e, m); } else { InfinityField(); }
  }

  lemma InfinityField()
    ensures HalfMagnitude(255, 0) == INFINITY
  {
  }

  lemma InfinityIsLargest(f: nat, n: nat)
    requires f < 255 && n < 0x80_0000
    ensures Magnitude32(f, n) < Magnitude32(255, 0)
  {
    hide Pow2;
    var e: nat := 254;
    assert Magnitude32(e + 1, 0) == 0x80_0000 * Pow2(e);
    if f == 0 {
      MulMono(0x80_0000, 0x80_0000, 1, Pow2(e));
    } else {
      Pow2Grows(f, e);
      Powers();
      Pow2Add(f - 1, 1);
      MulMono(0x80_0000 + n + 1, 0x100_0000, Pow2(f - 1), Pow2(f - 1));
      MulMono(0x80_0000, 0x80_0000, Pow2(f - 1) * 2, Pow2(e));
    }
  }

  lemma HalvesMonotone(g: nat, h: nat)
    requires g <= h <= INFINITY
    ensures Magnitude16(g) <= Magnitude16(h)
  {
    if g < h { HalvesAreOrdered(g, h); }
  }

  lemma {:induction false} ResultFields(bits: nat)
    requires bits < DWORD && !IsNaN32(bits)
    ensures var h := HalfMagnitude(Exponent32(bits), Mantissa32(bits));
            h <= INFINITY && FromFloat(bits) % SIGN16 == h && Negative16(FromFloat(bits)) == Negative32(bits)
  {
    hide HalfMagnitude;
    HalfRange(Exponent32(bits), Mantissa32(bits));
    var h := HalfMagnitude(Exponent32(bits), Mantissa32(bits));
    DivModUnique(FromFloat(bits), SIGN16, if Negative32(bits) then 1 else 0, h);
  }

  /** Narrowing never reverses the order of two singles that are not NaNs. */
  lemma FromFloatMonotone(a: nat, b: nat)
    requires a < DWORD && b < DWORD && !IsNaN32(a) && !IsNaN32(b)
    requires Signed32(a) <= Signed32(b)
    ensures Signed16(FromFloat(a)) <= Signed16(FromFloat(b))
  {
    hide HalfMagnitude, Magnitude16, Magnitude32, FromFloat, Negative16;
    ResultFields(a);
    ResultFields(b);
    var e, m, f, n := Exponent32(a), Mantissa32(a), Exponent32(b), Mantissa32(b);
    var x, y := HalfMagnitude(e, m), HalfMagnitude(f, n);
    if Negative32(a) && Negative32(b) {
      MagnitudeMonotone(f, n, e, m);
      HalvesMonotone(y, x);
    } else if !Negative32(a) && !Negative32(b) {
      MagnitudeMonotone(e, m, f, n);
      HalvesMonotone(x, y);
    } else if !Negative32(a) {
      ZeroHalf(e, m);
      ZeroHalf(f, n);
    }
  }

  lemma ZeroHalf(e: nat, m: nat)
    requires e <= 255 && m < 0x80_0000 && Magnitude32(e, m) == 0
    ensures HalfMagnitude(e, m) == 0 && Magnitude16(0) == 0
  {
    if e > 0 {
      MulMono(0x80_0000, 0x80_0000 + m, 1, Pow2(e - 1));
    }
    HalfFields(0, 0);
  }

  // ---- The patterns that are no finite number ----

  /** One is one, in both formats. */
  lemma OneIsOne()
    ensures FromFloat(0x3F80_0000) == 0x3C00 && ToFloat(0x3C00) == 0x3F80_0000
    ensures FromFloat(0xBF80_0000) == 0xBC00 && ToFloat(0xBC00) == 0xBF80_0000
  {
    hide HalfMagnitude, SingleMagnitude, Negative32, Negative16, Exponent32, Exponent16, Mantissa32, Mantissa16;
    OneFields32();
    OneFields16();
    OneMagnitude();
  }

  lemma OneFields32()
    ensures !Negative32(0x3F80_0000) && Exponent32(0x3F80_0000) == 127 && Mantissa32(0x3F80_0000) == 0
    ensures Negative32(0xBF80_0000) && Exponent32(0xBF80_0000) == 127 && Mantissa32(0xBF80_0000) == 0
  {
  }

  lemma OneFields16()
    ensures !Negative16(0x3C00) && Exponent16(0x3C00) == 15 && Mantissa16(0x3C00) == 0
    ensures Negative16(0xBC00) && Exponent16(0xBC00) == 15 && Mantissa16(0xBC00) == 0
  {
  }

  lemma OneMagnitude()
    ensures HalfMagnitude(127, 0) == 0x3C00 && SingleMagnitude(15, 0) == 0x3F80_0000
  {
  }

  /** Every NaN narrows to the one quiet NaN of its sign, and both infinities to infinities. */
  lemma SpecialsNarrow(bits: nat)
    requires bits < DWORD && Exponent32(bits) == 255
    ensures FromFloat(bits) == (if bits >= 0x8000_0000 then 0x8000 else 0)
                               + if bits == 0x7F80_0000 || bits == 0xFF80_0000 then 0x7C00 else 0x7E00
  {
    assert bits == bits / 0x8000_0000 * 0x8000_0000 + Exponent32(bits) * 0x80_0000 + Mantissa32(bits);
  }

  /** Every NaN widens to a NaN of its sign that keeps its payload, and both infinities to infinities. */
  lemma SpecialsWiden(half: nat)
    requires half < WORD && Exponent16(half) == 31
    ensures ToFloat(half) == (if half >= 0x8000 then 0x8000_0000 else 0) + 0x7F80_0000 + half % 0x400 * 0x2000
    ensures Exponent32(ToFloat(half)) == 255 && (IsNaN32(ToFloat(half)) <==> IsNaN16(half))
  {
  }

  // ---- Speed and direction ----

  /** Less than zero, as the floating-point comparison sees it: neither a zero nor a NaN. */
  predicate LessThanZero(bits: nat) {
    Negative32(bits) && !IsNaN32(bits) && bits % SIGN32 != 0
  }

  method SpeedWithDirection(speed: nat, reverse: bool) returns (half: nat)
    requires speed < DWORD
    ensures half == (if reverse then SIGN16 else 0) + FromFloat(speed) % SIGN16
  {
    hide HalfMagnitude;
    var s := speed;
    if LessThanZero(s) {
      s := s - SIGN32;
      Negated(speed);
    }
    half := FromFloatBits(s);
    half := half % SIGN16;
    if reverse {
      half := half + SIGN16;
    }
  }

  lemma Negated(bits: nat)
    requires bits < DWORD && Negative32(bits)
    ensures SIGN32 <= bits
    ensures FromFloat(bits - SIGN32) % SIGN16 == FromFloat(bits) % SIGN16
  {
    hide HalfMagnitude;
    SignAside32(false, bits - SIGN32);
    SignAside32(true, bits - SIGN32);
    ModAdd(HalfMagnitude(Exponent32(bits), Mantissa32(bits)), SIGN16, SIGN16);
    DivModUnique(HalfMagnitude(Exponent32(bits), Mantissa32(bits)) % SIGN16 + SIGN16, SIGN16, 1,
                 HalfMagnitude(Exponent32(bits), Mantissa32(bits)) % SIGN16);
  }

  /** Reading back a coded speed gives the direction, and the nearest half magnitude not above the speed. */
  lemma SpeedReadsBack(speed: nat, reverse: bool)
    requires speed < DWORD && Exponent32(speed) < 255
    ensures var half := (if reverse then SIGN16 else 0) + FromFloat(speed) % SIGN16;
            && Negative16(half) == reverse
            && RoundsDown(Magnitude32(Exponent32(speed), Mantissa32(speed)), half % SIGN16)
            && FromFloat(ToFloat(half % SIGN16)) == half % SIGN16
  {
    hide HalfMagnitude, Magnitude16, Magnitude32, ToFloat;
    ResultFields(speed);
    FromFloatRoundsTowardZero(Exponent32(speed), Mantissa32(speed));
    var h := FromFloat(speed) % SIGN16;
    var half := (if reverse then SIGN16 else 0) + h;
    DivModUnique(half, SIGN16, if reverse then 1 else 0, h);
    RoundTrip(h);
  }
}
