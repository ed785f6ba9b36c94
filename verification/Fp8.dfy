/**
 FP8 conversion over exact reals: the bit-level routines, and the rounding they amount to. Every float
 operation of the routines is exact (scaling by powers of two, a subtraction of nearby numbers), so nothing
 is lost by computing with reals. Zero has no sign here.
 */
module Fp8 {

  datatype Float = Finite(x: real) | NaN | Infinity(negative: bool)

  // ---- powers of two, frexp, round ----

  function Pow2(k: int): (r: real)
    ensures r > 0.0
    decreases if k >= 0 then k else -k
  {
    if k == 0 then 1.0 else if k > 0 then 2.0 * Pow2(k - 1) else Pow2(k + 1) / 2.0
  }

  lemma Pow2Step(k: int)
    ensures Pow2(k + 1) == 2.0 * Pow2(k)
  {
  }

  lemma Regroup(a: real, b: real)
    ensures a * (2.0 * b) == 2.0 * (a * b)
  {
  }

  lemma {:induction false} Pow2Grows(j: int, k: int)
    requires j <= k
    ensures Pow2(j) <= Pow2(k)
    decreases k - j
  {
    if j < k {
      Pow2Grows(j, k - 1);
      Pow2Step(k - 1);
    }
  }

  function Halvings(v: real): nat
    requires v > 0.0
  {
    if v >= 1.0 then v.Floor else if v >= 0.5 then 0 else (1.0 / v).Floor
  }

  lemma Inverse(v: real)
    requires 0.0 < v < 0.5
    ensures 1.0 / v > 2.0 && 1.0 / (2.0 * v) == 1.0 / v / 2.0
  {
  }

  datatype Parts = Parts(frac: real, exp: int)

  /** The fraction in [1/2, 1) and the exponent. */
  function Frexp(v: real): Parts
    requires v > 0.0
    decreases Halvings(v)
  {
    if v >= 1.0 then
      var p := Frexp(v / 2.0);
      Parts(p.frac, p.exp + 1)
    else if v >= 0.5 then Parts(v, 0)
    else
      Inverse(v);
      var p := Frexp(2.0 * v);
      Parts(p.frac, p.exp - 1)
  }

  function Ldexp(x: real, k: int): real { x * Pow2(k) }

  lemma {:induction false} FrexpSplits(v: real)
    requires v > 0.0
    ensures var p := Frexp(v); 0.5 <= p.frac < 1.0 && v == Ldexp(p.frac, p.exp)
    decreases Halvings(v)
  {
    hide Ldexp;
    if v >= 1.0 {
      FrexpSplits(v / 2.0);
      var p := Frexp(v / 2.0);
      LdexpStep(p.frac, p.exp);
    } else if v < 0.5 {
      Inverse(v);
      FrexpSplits(2.0 * v);
      var p := Frexp(2.0 * v);
      LdexpStep(p.frac, p.exp - 1);
    } else {
      LdexpStep(v, 0);
    }
  }

  lemma LdexpStep(x: real, k: int)
    ensures Ldexp(x, k + 1) == 2.0 * Ldexp(x, k) && Ldexp(x, 0) == x
  {
    Pow2Step(k);
    Regroup(x, Pow2(k));
  }

  /** Nearest integer, halves away from zero, of a non-negative number. */
  function Round(x: real): (n: nat)
    requires x >= 0.0
    ensures n as real - 0.5 <= x < n as real + 0.5
  {
    (x + 0.5).Floor
  }

  function Abs(x: real): real { if x < 0.0 then -x else x }
  function MinR(x: real, y: real): real { if x > y then y else x }

  // ---- E4M3 ----

  function E4M3ToFloat(v: nat): Float
    requires v < 256
  {
    var sign, exp, mant := v / 128, v / 8 % 16, v % 8;
    if exp == 15 && mant == 7 then NaN
    else
      var result := E4M3Number(exp, mant);
      Finite(if sign == 1 then -result else result)
  }

  function E4M3Number(exp: nat, mant: nat): real {
    if exp == 0 && mant == 0 then 0.0
    else if exp == 0 then Ldexp(mant as real / 8.0, -6)
    else Ldexp(1.0 + mant as real / 8.0, exp - 7)
  }

  function FloatToE4M3(v: Float): nat {
    if v.NaN? then 0x7F
    else if v.Infinity? then (if v.negative then 0x80 else 0) + E4M3Magnitude(448.0)
    else (if v.x < 0.0 then 0x80 else 0) + E4M3Magnitude(MinR(Abs(v.x), 448.0))
  }

  function E4M3Magnitude(v: real): nat
    requires 0.0 <= v
  {
    if v == 0.0 then 0
    else
      var p := Frexp(v);
      var biased := p.exp - 1 + 7;
      if biased <= 0 then
        var mant := Round(v * Ldexp(8.0, 6));
        if mant > 7 then 7 else mant
      else
        FrexpSplits(v);
        E4M3Normal(p.frac, biased)
  }

  /** The mantissa is rounded and may carry; only exponent 15 with mantissa 7 is reserved. */
  function E4M3Normal(frac: real, biased: nat): nat
    requires frac >= 0.5
  {
    var e := if biased > 15 then 15 else biased;
    var m := Round((frac * 2.0 - 1.0) * 8.0);
    var (e', m') := if m >= 8 then (e + 1, 0) else (e, m);
    if e' > 15 || (e' == 15 && m' >= 7) then 0x7E else 8 * e' + m'
  }

  // ---- E5M2 ----

  function E5M2ToFloat(v: nat): Float
    requires v < 256
  {
    var sign, exp, mant := v / 128, v / 4 % 32, v % 4;
    if exp == 31 then (if mant == 0 then Infinity(sign == 1) else NaN)
    else
      var result := E5M2Number(exp, mant);
      Finite(if sign == 1 then -result else result)
  }

  function E5M2Number(exp: nat, mant: nat): real {
    if exp == 0 && mant == 0 then 0.0
    else if exp == 0 then Ldexp(mant as real / 4.0, -14)
    else Ldexp(1.0 + mant as real / 4.0, exp - 15)
  }

  function FloatToE5M2(v: Float): nat {
    if v.NaN? then 0x7F
    else if v.Infinity? then (if v.negative then 0x80 else 0) + 0x7C
    else (if v.x < 0.0 then 0x80 else 0) + E5M2Magnitude(MinR(Abs(v.x), 57344.0))
  }

  function E5M2Magnitude(v: real): nat
    requires 0.0 <= v
  {
    if v == 0.0 then 0
    else
      var p := Frexp(v);
      var biased := p.exp - 1 + 15;
      if biased <= 0 then
        var mant := Round(v * Ldexp(4.0, 14));
        if mant > 3 then 3 else mant
      else if biased >= 31 then 0x7C
      else
        FrexpSplits(v);
        E5M2Normal(p.frac, biased)
  }

  function E5M2Normal(frac: real, biased: nat): nat
    requires frac >= 0.5
  {
    var m := Round((frac * 2.0 - 1.0) * 4.0);
    var (e', m') := if m >= 4 then (biased + 1, 0) else (biased, m);
    if e' >= 31 then 0x7C else 4 * e' + m'
  }

  // ---- the rounding, in units of the smallest subnormal ----

  /** The value of magnitude code `c` in a format with `s` steps to a binade: halve whole binades away. */
  function Dec(s: nat, c: nat): (x: nat)
    requires s > 0
    ensures c >= s ==> x >= s
    ensures c >= 2 * s ==> x >= 2 * s
  {
    if c < 2 * s then c else 2 * Dec(s, c - s)
  }

  /** The magnitude code of `x` units. */
  function Enc(s: nat, x: real): (c: nat)
    requires s > 0 && x >= 0.0
    ensures c < s <==> x < s as real
    decreases x.Floor
  {
    if x < s as real then (if Round(x) > s - 1 then s - 1 else Round(x))
    else if x < 2.0 * s as real then Round(x)
    else s + Enc(s, x / 2.0)
  }

  /** A representable value is its own rounding. */
  lemma {:induction false} EncDec(s: nat, c: nat)
    requires s > 0
    ensures Enc(s, Dec(s, c) as real) == c
  {
    if c >= 2 * s {
      EncDec(s, c - s);
      assert Dec(s, c) as real / 2.0 == Dec(s, c - s) as real;
    }
  }

  lemma {:induction false} EncMonotone(s: nat, x: real, y: real)
    requires s > 0 && 0.0 <= x <= y
    ensures Enc(s, x) <= Enc(s, y)
    decreases y.Floor
  {
    if y >= 2.0 * s as real {
      if x >= 2.0 * s as real { EncMonotone(s, x / 2.0, y / 2.0); }
    }
  }

  lemma {:induction false} DecMonotone(s: nat, c: nat, d: nat)
    requires s > 0 && c <= d
    ensures Dec(s, c) <= Dec(s, d)
    decreases d
  {
    if d >= 2 * s && c >= 2 * s { DecMonotone(s, c - s, d - s); }
  }

  /** The error of the rounding, in units. */
  function Off(s: nat, x: real, c: nat): real
    requires s > 0
  {
    Abs(Dec(s, c) as real - x)
  }

  /** The error is at most one part in `2 * s`. */
  predicate Within(s: nat, off: real, x: real) { off * (2 * s) as real <= x }

  /** In the normal range the rounding is off by at most one part in `2 * s`. */
  lemma {:induction false} RelativeError(s: nat, x: real)
    requires s > 0 && x >= s as real
    ensures Within(s, Off(s, x, Enc(s, x)), x)
    decreases x.Floor
  {
    hide Off, Within, Dec;
    if x >= 2.0 * s as real {
      RelativeError(s, x / 2.0);
      EncUp(s, x);
      var e := Enc(s, x / 2.0);
      OffDoubles(s, x, e);
      WithinDoubles(s, Off(s, x / 2.0, e), x / 2.0);
    } else {
      RoundCode(s, x);
      WithinHalf(s, Off(s, x, Enc(s, x)), x);
    }
  }

  lemma EncUp(s: nat, x: real)
    requires s > 0 && x >= 2.0 * s as real
    ensures Enc(s, x) == s + Enc(s, x / 2.0) && Enc(s, x / 2.0) >= s
  {
  }

  lemma WithinDoubles(s: nat, off: real, x: real)
    requires Within(s, off, x)
    ensures Within(s, 2.0 * off, 2.0 * x)
  {
    Regroup((2 * s) as real, off);
  }

  lemma WithinHalf(s: nat, off: real, x: real)
    requires off <= 0.5 && x >= s as real
    ensures Within(s, off, x)
  {
    var t := (2 * s) as real;
    assert (0.5 - off) * t >= 0.0;
    assert t == 2.0 * s as real;
  }

  /** In the first normal binade codes are integers, and so is every value. */
  lemma RoundCode(s: nat, x: real)
    requires s > 0 && s as real <= x < 2.0 * s as real
    ensures Dec(s, Enc(s, x)) == Round(x) && Off(s, x, Enc(s, x)) <= 0.5
  {
  }

  /** One binade up everything doubles. */
  lemma OffDoubles(s: nat, x: real, c: nat)
    requires s > 0 && c >= s
    ensures Off(s, x, s + c) == 2.0 * Off(s, x / 2.0, c)
  {
    assert Dec(s, s + c) == 2 * Dec(s, c);
  }

  /** Below it, by less than one step, and by at most half a step exactly up to the clamp. */
  lemma SubnormalError(s: nat, x: real)
    requires s > 0 && 0.0 <= x < s as real
    ensures Off(s, x, Enc(s, x)) < 1.0
    ensures Off(s, x, Enc(s, x)) <= 0.5 <==> x <= s as real - 0.5
  {
  }

  /** The gap between the largest subnormal, where the code clamps, and the smallest normal number. */
  predicate InGap(s: nat, x: real) { s as real - 0.5 < x < s as real }

  /** The code is a nearest one, of all codes, unless the clamp moved it. */
  lemma {:induction false} Nearest(s: nat, x: real, c: nat)
    requires s > 0 && x >= 0.0 && !InGap(s, x)
    ensures Off(s, x, Enc(s, x)) <= Off(s, x, c)
    decreases x.Floor
  {
    hide Off, Dec, Enc;
    if x >= 2.0 * s as real {
      EncUp(s, x);
      OffDoubles(s, x, Enc(s, x / 2.0));
      if c >= 2 * s {
        OffDoubles(s, x, c - s);
        Nearest(s, x / 2.0, c - s);
      } else {
        OffDoubles(s, x, s);
        Nearest(s, x / 2.0, s);
        Below(s, x, c);
      }
    } else if x >= s as real {
      NearestNormal(s, x, c);
    } else {
      NearestSubnormal(s, x, c);
    }
  }

  lemma Below(s: nat, x: real, c: nat)
    requires s > 0 && c < 2 * s && x >= 2.0 * s as real
    ensures Off(s, x, s + s) <= Off(s, x, c)
  {
    DecSmall(s, c);
    DecSmall(s, s);
    assert Dec(s, s + s) == 2 * Dec(s, s);
  }

  lemma NearestNormal(s: nat, x: real, c: nat)
    requires s > 0 && s as real <= x < 2.0 * s as real
    ensures Off(s, x, Enc(s, x)) <= Off(s, x, c)
  {
    RoundCode(s, x);
    hide Dec, Enc;
    RoundNearest(x, Dec(s, c));
  }

  lemma NearestSubnormal(s: nat, x: real, c: nat)
    requires s > 0 && 0.0 <= x <= s as real - 0.5
    ensures Off(s, x, Enc(s, x)) <= Off(s, x, c)
  {
    RoundNearest(x, Dec(s, c));
    var n := Dec(s, c);
    hide Dec;
    assert Dec(s, Enc(s, x)) == Enc(s, x) by { DecSmall(s, Enc(s, x)); }
    if Round(x) == s { assert x == s as real - 0.5; }
  }

  lemma DecSmall(s: nat, c: nat)
    requires s > 0 && c < 2 * s
    ensures Dec(s, c) == c
  {
  }

  lemma RoundNearest(x: real, n: nat)
    requires x >= 0.0
    ensures Abs(Round(x) as real - x) <= Abs(n as real - x)
  {
    if n < Round(x) { assert n as real <= Round(x) as real - 1.0; }
    if n > Round(x) { assert n as real >= Round(x) as real + 1.0; }
  }

  lemma GapNotNearest(s: nat, x: real)
    requires s > 0 && InGap(s, x)
    ensures Off(s, x, s) < Off(s, x, Enc(s, x))
  {
  }

  // ---- the bit-level routines compute this rounding ----

  lemma LdexpScale(c: real, x: real, k: int)
    ensures Ldexp(c * x, k) == c * Ldexp(x, k)
  {
    hide Pow2;
    Nest(c, x, Pow2(k));
  }

  lemma Nest(a: real, b: real, c: real)
    ensures (a * b) * c == a * (b * c)
  {
  }

  lemma {:induction false} LdexpShift(x: real, k: int, n: nat)
    ensures Ldexp(x, k + n) == Pow2(n) * Ldexp(x, k)
  {
    if n > 0 {
      LdexpShift(x, k, n - 1);
      LdexpStep(x, k + n - 1);
      hide Ldexp;
      Nest(2.0, Pow2(n - 1), Ldexp(x, k));
    }
  }

  lemma Increasing(y: real, a: real, b: real)
    requires y >= 0.0 && a <= b
    ensures y * a <= y * b
  {
  }

  lemma LdexpGrows(y: real, j: int, k: int)
    requires y >= 0.0 && j <= k
    ensures Ldexp(y, j) <= Ldexp(y, k)
  {
    Pow2Grows(j, k);
    hide Pow2;
    Increasing(y, Pow2(j), Pow2(k));
  }

  lemma LdexpAtLeast(y: real, k: nat)
    requires y >= 0.0
    ensures Ldexp(y, k) >= y
  {
    LdexpGrows(y, 0, k);
    LdexpStep(y, 0);
    hide Ldexp;
  }

  lemma LdexpShrinks(y: real, k: int)
    requires y > 0.0 && k < 0
    ensures 0.0 < Ldexp(y, k) && 2.0 * Ldexp(y, k) <= y
  {
    Positive(y, Pow2(k));
    assert Ldexp(y, k) > 0.0;
    LdexpStep(y, k);
    LdexpGrows(y, k + 1, 0);
    hide Ldexp;
  }

  lemma Positive(a: real, b: real)
    requires a > 0.0 && b > 0.0
    ensures a * b > 0.0
  {
  }

  /** Binade `k` of the encoder. */
  lemma {:induction false} EncBinade(s: nat, k: nat, y: real)
    requires s > 0 && s as real <= y < 2.0 * s as real
    ensures Ldexp(y, k) >= s as real && Enc(s, Ldexp(y, k)) == s * k + Round(y)
  {
    LdexpAtLeast(y, k);
    LdexpStep(y, k - 1);
    hide Ldexp;
    if k > 0 {
      EncBinade(s, k - 1, y);
      EncUp(s, Ldexp(y, k));
      hide Enc;
      Spread(s, k);
    }
  }

  lemma Spread(s: nat, k: int)
    ensures s * k == s + s * (k - 1)
  {
  }

  /** Binade `e` of the decoder. */
  lemma {:induction false} DecBinade(s: nat, e: nat, m: nat)
    requires s > 0 && m < s && e >= 1
    ensures Dec(s, s * e + m) as real == Ldexp((s + m) as real, e - 1)
  {
    LdexpStep((s + m) as real, e - 2);
    hide Ldexp;
    if e > 1 {
      DecBinade(s, e - 1, m);
      DecUp(s, e, m);
      hide Dec;
    } else {
      assert s * e == s;
    }
  }

  lemma DecUp(s: nat, e: nat, m: nat)
    requires s > 0 && e >= 2
    ensures Dec(s, s * e + m) == 2 * Dec(s, s * (e - 1) + m)
  {
    Spread(s, e);
    Spread(s, e - 1);
    Sizes(s, e - 2);
  }

  lemma Sizes(s: nat, k: nat)
    ensures s * k >= 0
  {
  }

  /** The position in a binade of a fraction in [1/2, 1). */
  function Place(s: nat, frac: real): real { 2.0 * s as real * frac }

  /** Scaled to units, fraction and exponent say which binade and where in it. */
  lemma Scaled(s: nat, bias: nat, frac: real, exp: int)
    requires bias >= 2
    ensures Units(s, bias, Ldexp(frac, exp)) == Ldexp(Place(s, frac), exp - 2 + bias)
  {
    var v, p, t := Ldexp(frac, exp), Pow2(bias - 2), 2.0 * s as real;
    LdexpScale(t, frac, exp - 2 + bias);
    LdexpShift(frac, exp, bias - 2);
    LdexpStep(s as real, bias - 2);
    LdexpScale(2.0, s as real, bias - 2);
    Swap(v, t, p);
  }

  lemma Swap(v: real, t: real, p: real)
    ensures v * (t * p) == t * (p * v)
  {
    assert v * (t * p) == (t * p) * v;
    Nest(t, p, v);
  }

  /** A magnitude in units of the smallest subnormal. */
  function Units(s: nat, bias: nat, v: real): real
    requires bias >= 1
  {
    v * Ldexp(s as real, bias - 1)
  }

  lemma BinadeOf(s: nat, k: int, y: real, x: real)
    requires s > 0 && s as real <= y < 2.0 * s as real && x == Ldexp(y, k)
    ensures x > 0.0 && (k < 0 <==> x < s as real) && (k >= 0 ==> Enc(s, x) == s * k + Round(y))
  {
    hide Ldexp, Enc;
    if k >= 0 { EncBinade(s, k, y); } else { LdexpShrinks(y, k); }
  }

  /** Where `frexp` puts a number, in units: `k` is the biased exponent less one. */
  lemma Branches(s: nat, bias: nat, v: real)
    requires s > 0 && bias >= 2 && v > 0.0
    ensures var p := Frexp(v); var x := Units(s, bias, v); var k := p.exp - 2 + bias;
            && x > 0.0 && 0.5 <= p.frac < 1.0 && (k < 0 <==> x < s as real)
            && s as real <= Place(s, p.frac) < 2.0 * s as real
            && (k >= 0 ==> Enc(s, x) == s * k + Round(Place(s, p.frac)))
  {
    hide Frexp, Ldexp, Enc, Units, Place;
    var p := Frexp(v);
    FrexpSplits(v);
    Scaled(s, bias, p.frac, p.exp);
    BinadeRange(s, p.frac);
    BinadeOf(s, p.exp - 2 + bias, Place(s, p.frac), Units(s, bias, v));
  }

  lemma BinadeRange(s: nat, f: real)
    requires s > 0 && 0.5 <= f < 1.0
    ensures s as real <= Place(s, f) < 2.0 * s as real
  {
    var t := 2.0 * s as real;
    Increasing(t, 0.5, f);
    Positive(t, 1.0 - f);
  }

  lemma RoundShift(x: real, n: nat)
    requires x >= n as real
    ensures Round(x - n as real) == Round(x) - n
  {
    assert (x - n as real + 0.5).Floor == (x + 0.5).Floor - n;
  }

  lemma Scales()
    ensures Ldexp(8.0, 6) == 512.0 && Ldexp(4.0, 14) == 65536.0 && Ldexp(14.0, 14) == 229376.0 &&
            Ldexp(7.0, 29) == 3758096384.0
  {
    assert Pow2(6) == 64.0;
    assert Pow2(10) == 1024.0;
    assert Pow2(14) == 16384.0;
    assert Pow2(20) == 1048576.0;
    assert Pow2(29) == 536870912.0;
  }

  lemma E4M3NormalIs(frac: real, k: nat)
    requires 0.5 <= frac < 1.0 && 8 * k + Round(16.0 * frac) <= 0x7E
    ensures E4M3Normal(frac, k + 1) == 8 * k + Round(16.0 * frac)
  {
    RoundShift(16.0 * frac, 8);
  }

  lemma E5M2NormalIs(frac: real, k: nat)
    requires 0.5 <= frac < 1.0 && 4 * k + Round(8.0 * frac) <= 0x7B
    ensures E5M2Normal(frac, k + 1) == 4 * k + Round(8.0 * frac)
  {
    RoundShift(8.0 * frac, 4);
  }

  lemma Tops(v: real)
    ensures 0.0 <= v <= 448.0 ==> Enc(8, 512.0 * v) <= 0x7E
    ensures 0.0 <= v <= 57344.0 ==> Enc(4, 65536.0 * v) <= 0x7B
  {
    Scales();
    EncBinade(8, 14, 14.0);
    EncBinade(4, 29, 7.0);
    hide Enc, Ldexp;
    if 0.0 <= v <= 448.0 { EncMonotone(8, 512.0 * v, 229376.0); }
    if 0.0 <= v <= 57344.0 { EncMonotone(4, 65536.0 * v, 3758096384.0); }
  }

  /** The routine for finite magnitudes is the rounding, and never reaches the reserved code. */
  lemma E4M3MagnitudeIs(v: real)
    requires 0.0 <= v <= 448.0
    ensures E4M3Magnitude(v) == Enc(8, 512.0 * v) <= 0x7E
  {
    Tops(v);
    Scales();
    hide Frexp, Ldexp, Pow2, E4M3Normal;
    if v > 0.0 {
      assert Units(8, 7, v) == 512.0 * v;
      Branches(8, 7, v);
      var p := Frexp(v);
      assert Place(8, p.frac) == 16.0 * p.frac;
      hide Units, Place;
      if p.exp + 5 >= 0 {
        hide Enc;
        E4M3NormalIs(p.frac, p.exp + 5);
      }
    }
  }

  lemma E5M2MagnitudeIs(v: real)
    requires 0.0 <= v <= 57344.0
    ensures E5M2Magnitude(v) == Enc(4, 65536.0 * v) <= 0x7B
  {
    Tops(v);
    Scales();
    hide Frexp, Ldexp, Pow2, E5M2Normal;
    if v > 0.0 {
      assert Units(4, 15, v) == 65536.0 * v;
      Branches(4, 15, v);
      var p := Frexp(v);
      assert Place(4, p.frac) == 8.0 * p.frac;
      hide Units, Place;
      if p.exp + 13 >= 0 {
        hide Enc;
        E5M2NormalIs(p.frac, p.exp + 13);
      }
    }
  }

  // ---- the two formats ----

  /** Steps to a binade, units in 1.0, the largest number and its code. */
  datatype Format = Format(s: nat, unit: real, top: real, topCode: nat)

  const E4M3: Format := Format(8, 512.0, 448.0, 0x7E)
  const E5M2: Format := Format(4, 65536.0, 57344.0, 0x7B)

  predicate Known(f: Format) { f == E4M3 || f == E5M2 }

  function Encode(f: Format, v: Float): nat
    requires Known(f)
  {
    if f == E4M3 then FloatToE4M3(v) else FloatToE5M2(v)
  }

  function Decode(f: Format, c: nat): Float
    requires Known(f) && c < 256
  {
    if f == E4M3 then E4M3ToFloat(c) else E5M2ToFloat(c)
  }

  /** A magnitude in units, clamped. */
  function Clamped(f: Format, v: real): (x: real)
    requires Known(f)
    ensures 0.0 <= x <= f.top * f.unit
  {
    if f == E4M3 then 512.0 * MinR(Abs(v), 448.0) else 65536.0 * MinR(Abs(v), 57344.0)
  }

  function Magnitude(f: Format, v: real): nat
    requires Known(f)
  {
    Enc(f.s, Clamped(f, v))
  }

  /** The number a magnitude code stands for. */
  function Value(f: Format, c: nat): real
    requires Known(f)
  {
    if f == E4M3 then Dec(8, c) as real / 512.0 else Dec(4, c) as real / 65536.0
  }

  function Rounded(f: Format, v: real): real
    requires Known(f)
  {
    var a := Value(f, Magnitude(f, v));
    if v < 0.0 then -a else a
  }

  /** Encoding a finite number gives its sign and its magnitude code, never one kept for NaN or infinity. */
  lemma EncodeIs(f: Format, v: real)
    requires Known(f)
    ensures Encode(f, Finite(v)) == (if v < 0.0 then 128 else 0) + Magnitude(f, v)
    ensures Magnitude(f, v) <= f.topCode
  {
    hide E4M3Magnitude, E5M2Magnitude, Enc;
    if f == E4M3 { E4M3MagnitudeIs(MinR(Abs(v), 448.0)); } else { E5M2MagnitudeIs(MinR(Abs(v), 57344.0)); }
  }

  lemma E4M3DecodeIs(c: nat)
    requires c <= 0x7E
    ensures E4M3ToFloat(c) == Finite(Dec(8, c) as real / 512.0)
    ensures E4M3ToFloat(128 + c) == Finite(-(Dec(8, c) as real / 512.0))
  {
    hide Dec, E4M3Number;
    E4M3NumberIs(c / 8, c % 8);
  }

  lemma E4M3NumberIs(e: nat, m: nat)
    requires m < 8
    ensures E4M3Number(e, m) == Dec(8, 8 * e + m) as real / 512.0
  {
    Powers();
    hide Ldexp, Dec;
    if e == 0 {
      DecSmall(8, m);
      LdexpScale(8.0, m as real / 8.0, -6);
      LdexpShift(m as real, -6, 6);
      LdexpStep(m as real, 0);
    } else {
      DecBinade(8, e, m);
      LdexpScale(8.0, 1.0 + m as real / 8.0, e - 7);
      LdexpShift((8 + m) as real, e - 7, 6);
    }
  }

  lemma E5M2DecodeIs(c: nat)
    requires c <= 0x7B
    ensures E5M2ToFloat(c) == Finite(Dec(4, c) as real / 65536.0)
    ensures E5M2ToFloat(128 + c) == Finite(-(Dec(4, c) as real / 65536.0))
  {
    hide Dec, E5M2Number;
    E5M2NumberIs(c / 4, c % 4);
  }

  lemma E5M2NumberIs(e: nat, m: nat)
    requires m < 4
    ensures E5M2Number(e, m) == Dec(4, 4 * e + m) as real / 65536.0
  {
    Powers();
    hide Ldexp, Dec;
    if e == 0 {
      DecSmall(4, m);
      LdexpScale(4.0, m as real / 4.0, -14);
      LdexpShift(m as real, -14, 14);
      LdexpStep(m as real, 0);
    } else {
      DecBinade(4, e, m);
      LdexpScale(4.0, 1.0 + m as real / 4.0, e - 15);
      LdexpShift((4 + m) as real, e - 15, 14);
    }
  }

  lemma Powers()
    ensures Pow2(6) == 64.0 && Pow2(14) == 16384.0
  {
    assert Pow2(10) == 1024.0;
  }

  /** Codes stand for the numbers of the rounding; reserved codes are the others. */
  lemma DecodeIs(f: Format, c: nat)
    requires Known(f) && c <= f.topCode
    ensures Decode(f, c) == Finite(Value(f, c)) && Decode(f, 128 + c) == Finite(-Value(f, c))
  {
    hide E4M3ToFloat, E5M2ToFloat, Dec;
    if f == E4M3 { E4M3DecodeIs(c); } else { E5M2DecodeIs(c); }
  }

  lemma ReservedCodes(f: Format, c: nat)
    requires Known(f) && c < 256
    ensures Decode(f, c).Finite? <==> c % 128 <= f.topCode
  {
    hide E4M3Number, E5M2Number;
    E4M3Fields(c);
    E5M2Fields(c);
  }

  lemma E4M3Fields(c: nat)
    requires c < 256
    ensures c % 128 == 8 * (c / 8 % 16) + c % 8
  {
    assert c == 128 * (c / 128) + 8 * (c / 8 % 16) + c % 8;
  }

  lemma E5M2Fields(c: nat)
    requires c < 256
    ensures c % 128 == 4 * (c / 4 % 32) + c % 4
  {
    assert c == 128 * (c / 128) + 4 * (c / 4 % 32) + c % 4;
  }

  /** A finite number, encoded and decoded, is a finite number: its rounding. */
  lemma RoundTrip(f: Format, v: real)
    requires Known(f)
    ensures var c := Encode(f, Finite(v)); c < 256 && Decode(f, c) == Finite(Rounded(f, v))
  {
    EncodeIs(f, v);
    DecodeIs(f, Magnitude(f, v));
    hide Magnitude, Value, Encode, Decode;
  }

  /** NaN and the infinities encoded: E4M3 has no infinity and answers its largest number. */
  lemma SpecialCodes(negative: bool)
    ensures Encode(E4M3, NaN) == 0x7F && Encode(E5M2, NaN) == 0x7F
    ensures Encode(E4M3, Infinity(negative)) == if negative then 0xFE else 0x7E
    ensures Encode(E5M2, Infinity(negative)) == if negative then 0xFC else 0x7C
  {
    E4M3MagnitudeIs(448.0);
    TopRounds();
    hide E4M3Magnitude, E5M2Magnitude, Enc;
  }

  lemma TopRounds()
    ensures Enc(8, 512.0 * 448.0) == 0x7E
  {
    Scales();
    hide Enc, Ldexp;
    EncBinade(8, 14, 14.0);
    assert Round(14.0) == 14;
    assert 512.0 * 448.0 == 229376.0;
  }

  /** And the codes that decode to them. */
  lemma SpecialValues(c: nat)
    requires c < 256
    ensures Decode(E4M3, c).NaN? <==> c % 128 == 0x7F
    ensures Decode(E5M2, c) == Infinity(c >= 128) <==> c % 128 == 0x7C
    ensures Decode(E5M2, c).NaN? <==> c % 128 > 0x7C
  {
    hide E4M3Number, E5M2Number;
    E4M3Fields(c);
    E5M2Fields(c);
  }

  /** Where the formats put one, their largest number, and their smallest ones. */
  lemma Landmarks()
    ensures Decode(E4M3, 0x38) == Finite(1.0) && Decode(E4M3, 0x7E) == Finite(448.0)
    ensures Decode(E5M2, 0x3C) == Finite(1.0) && Decode(E5M2, 0x7B) == Finite(57344.0)
    ensures Decode(E4M3, 1) == Finite(1.0 / 512.0) && Decode(E5M2, 1) == Finite(1.0 / 65536.0)
  {
    hide Decode, Dec;
    DecodeIs(E4M3, 0x38);
    DecodeIs(E4M3, 0x7E);
    DecodeIs(E4M3, 1);
    DecodeIs(E5M2, 0x3C);
    DecodeIs(E5M2, 0x7B);
    DecodeIs(E5M2, 1);
    CodeUnits();
  }

  lemma CodeUnits()
    ensures Dec(8, 1) == 1 && Dec(8, 0x38) == 512 && Dec(8, 0x7E) == 229376
    ensures Dec(4, 1) == 1 && Dec(4, 0x3C) == 65536 && Dec(4, 0x7B) == 3758096384
  {
    BinadeStart(8, 6);
    BinadeStart(4, 14);
    assert Dec(8, 0x7E) == 229376 by { DecBinade(8, 15, 6); Scales(); }
    assert Dec(4, 0x7B) == 3758096384 by { DecBinade(4, 30, 3); Scales(); }
  }

  /** Binade `e` begins at `s` units doubled `e` times. */
  lemma BinadeStart(s: nat, e: nat)
    requires s > 0
    ensures Dec(s, s * (e + 1)) as real == Ldexp(s as real, e)
  {
    DecBinade(s, e + 1, 0);
  }

  // ---- what the rounding promises ----

  lemma ValueMonotone(f: Format, c: nat, d: nat)
    requires Known(f) && c <= d
    ensures 0.0 <= Value(f, c) <= Value(f, d)
  {
    DecMonotone(f.s, c, d);
  }

  /** Larger magnitudes have larger codes. */
  lemma MagnitudeMonotone(f: Format, v: real, w: real)
    requires Known(f) && Abs(v) <= Abs(w)
    ensures Magnitude(f, v) <= Magnitude(f, w)
  {
    EncMonotone(f.s, Clamped(f, v), Clamped(f, w));
  }

  /** Rounding keeps order, across signs too. */
  lemma RoundedMonotone(f: Format, v: real, w: real)
    requires Known(f) && v <= w
    ensures Rounded(f, v) <= Rounded(f, w)
  {
    hide Magnitude, Value;
    var c, d := Magnitude(f, v), Magnitude(f, w);
    if v >= 0.0 {
      MagnitudeMonotone(f, v, w);
      ValueMonotone(f, c, d);
    } else if w < 0.0 {
      MagnitudeMonotone(f, w, v);
      ValueMonotone(f, d, c);
    } else {
      ValueMonotone(f, c, c);
      ValueMonotone(f, d, d);
    }
  }

  /** Negative and nearer to zero than half the smallest subnormal. */
  predicate VanishingNegative(f: Format, v: real)
    requires Known(f)
  {
    v < 0.0 && Abs(v) < if f == E4M3 then 1.0 / 1024.0 else 1.0 / 131072.0
  }

  lemma VanishesIff(f: Format, v: real)
    requires Known(f)
    ensures v < 0.0 && Magnitude(f, v) == 0 <==> VanishingNegative(f, v)
  {
  }

  lemma MagnitudeOfValue(f: Format, c: nat, v: real)
    requires Known(f) && c <= f.topCode && Abs(v) == Value(f, c)
    ensures Magnitude(f, v) == c && (v == 0.0 <==> c == 0)
  {
    TopValues();
    DecMonotone(f.s, c, f.topCode);
    EncDec(f.s, c);
    DecPositive(f.s, c);
    hide Dec, Enc;
  }

  lemma {:induction false} DecPositive(s: nat, c: nat)
    requires s > 0
    ensures Dec(s, c) == 0 <==> c == 0
  {
    if c >= 2 * s { DecPositive(s, c - s); }
  }

  lemma TopValues()
    ensures Dec(8, 0x7E) == 229376 && Dec(4, 0x7B) == 3758096384
  {
    Scales();
    DecBinade(8, 15, 6);
    DecBinade(4, 30, 3);
    hide Dec, Ldexp;
  }

  /**
   Encoding what was decoded gives the same code, except that a negative number that vanishes is encoded
   as negative zero and then as zero.
   */
  lemma ReencodeIff(f: Format, v: real)
    requires Known(f)
    ensures var c := Encode(f, Finite(v));
            c < 256 && (Encode(f, Decode(f, c)) == c <==> !VanishingNegative(f, v))
  {
    hide Encode, Decode, Magnitude, Value;
    RoundTrip(f, v);
    EncodeIs(f, v);
    var r := Rounded(f, v);
    EncodeIs(f, r);
    VanishesIff(f, v);
    ValueMonotone(f, Magnitude(f, v), Magnitude(f, v));
    MagnitudeOfValue(f, Magnitude(f, v), r);
  }

  /** How far a magnitude code is from a magnitude. */
  function Miss(f: Format, v: real, c: nat): real
    requires Known(f)
  {
    Abs(Value(f, c) - Abs(v))
  }

  lemma MissIs(f: Format, v: real, c: nat)
    requires Known(f) && Abs(v) <= f.top
    ensures Off(f.s, Clamped(f, v), c) == (if f == E4M3 then 512.0 else 65536.0) * Miss(f, v, c)
  {
    hide Dec;
  }

  lemma RoundedMiss(f: Format, v: real)
    requires Known(f)
    ensures Abs(Rounded(f, v) - v) == Miss(f, v, Magnitude(f, v))
  {
    hide Magnitude, Value;
  }

  /** Relative error at most 1/16 on [2^-6, 448] for E4M3, and 1/8 on [2^-14, 57344] for E5M2. */
  lemma NormalError(f: Format, v: real)
    requires Known(f)
    ensures f == E4M3 && 1.0 / 64.0 <= Abs(v) <= 448.0 ==> Abs(Rounded(f, v) - v) <= Abs(v) / 16.0
    ensures f == E5M2 && 1.0 / 16384.0 <= Abs(v) <= 57344.0 ==> Abs(Rounded(f, v) - v) <= Abs(v) / 8.0
  {
    hide Enc, Off, Value;
    RoundedMiss(f, v);
    var c := Magnitude(f, v);
    if Abs(v) <= f.top {
      MissIs(f, v, c);
      if Clamped(f, v) >= f.s as real { RelativeError(f.s, Clamped(f, v)); }
    }
  }

  /** Among subnormals the error is below one step; it is at most half a step exactly up to the clamp. */
  lemma SubnormalErrors(f: Format, v: real)
    requires Known(f)
    ensures f == E4M3 && Abs(v) < 1.0 / 64.0 ==>
              && Abs(Rounded(f, v) - v) < 1.0 / 512.0
              && (Abs(Rounded(f, v) - v) <= 0.5 / 512.0 <==> Abs(v) <= 7.5 / 512.0)
    ensures f == E5M2 && Abs(v) < 1.0 / 16384.0 ==>
              && Abs(Rounded(f, v) - v) < 1.0 / 65536.0
              && (Abs(Rounded(f, v) - v) <= 0.5 / 65536.0 <==> Abs(v) <= 3.5 / 65536.0)
  {
    hide Enc, Off, Value;
    RoundedMiss(f, v);
    var c := Magnitude(f, v);
    if Abs(v) <= f.top {
      MissIs(f, v, c);
      if Clamped(f, v) < f.s as real { SubnormalError(f.s, Clamped(f, v)); }
    }
  }

  /** No finite code, of either sign, is nearer. */
  ghost predicate NearestTo(f: Format, v: real, r: real)
    requires Known(f)
  {
    forall c :: 0 <= c <= f.topCode ==> NoNearer(f, v, r, c)
  }

  predicate NoNearer(f: Format, v: real, r: real, c: nat)
    requires Known(f)
  {
    Abs(r - v) <= Abs(Value(f, c) - v) && Abs(r - v) <= Abs(-Value(f, c) - v)
  }

  /** Between the middle of the clamp's last step and the smallest normal number. */
  predicate InClampGap(f: Format, v: real)
    requires Known(f)
  {
    if f == E4M3 then 7.5 / 512.0 < Abs(v) < 1.0 / 64.0 else 3.5 / 65536.0 < Abs(v) < 1.0 / 16384.0
  }

  /** Of all finite codes the encoder picks a nearest one, exactly outside that gap; this covers overflow too. */
  lemma NearestIff(f: Format, v: real)
    requires Known(f)
    ensures NearestTo(f, v, Rounded(f, v)) <==> !InClampGap(f, v)
  {
    hide Rounded, Magnitude, Value;
    if InClampGap(f, v) {
      GapMisses(f, v);
      assert !NoNearer(f, v, Rounded(f, v), f.s);
    } else {
      forall c | 0 <= c <= f.topCode ensures NoNearer(f, v, Rounded(f, v), c) { NoCodeNearer(f, v, c); }
    }
  }

  lemma GapMisses(f: Format, v: real)
    requires Known(f) && InClampGap(f, v)
    ensures f.s <= f.topCode && !NoNearer(f, v, Rounded(f, v), f.s)
  {
    hide Enc, Off, Value;
    RoundedMiss(f, v);
    MissIs(f, v, Magnitude(f, v));
    MissIs(f, v, f.s);
    GapNotNearest(f.s, Clamped(f, v));
  }

  lemma NoCodeNearer(f: Format, v: real, c: nat)
    requires Known(f) && !InClampGap(f, v) && c <= f.topCode
    ensures NoNearer(f, v, Rounded(f, v), c)
  {
    hide Enc, Off, Value, Rounded;
    RoundedMiss(f, v);
    ValueMonotone(f, c, f.topCode);
    if Abs(v) <= f.top {
      MissIs(f, v, Magnitude(f, v));
      MissIs(f, v, c);
      Nearest(f.s, Clamped(f, v), c);
    } else {
      Overflows(f, v);
    }
  }

  /** Numbers beyond the largest round to it. */
  lemma Overflows(f: Format, v: real)
    requires Known(f) && Abs(v) > f.top
    ensures Value(f, Magnitude(f, v)) == f.top && Value(f, f.topCode) == f.top
  {
    Scales();
    EncBinade(8, 14, 14.0);
    EncBinade(4, 29, 7.0);
    TopValues();
    hide Dec, Enc, Ldexp;
  }
}
