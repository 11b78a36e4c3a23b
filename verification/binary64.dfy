/** `struct.pack('<d', v)` of a Python int: the integer is converted to the
    nearest IEEE 754 binary64 value, ties to even, and written as eight
    bytes, low byte first; an integer beyond the largest finite double is
    an OverflowError. */
module Binary64 {
  import opened Common

  const Two52: int := 0x10_0000_0000_0000
  const Two53: int := 0x20_0000_0000_0000
  const Two63: int := 0x8000_0000_0000_0000

  function Pow2(n: nat): (r: nat)
    ensures r >= 1
  {
    if n == 0 then 1 else 2 * Pow2(n - 1)
  }

  lemma {:induction false} Pow2Add(a: nat, b: nat)
    ensures Pow2(a + b) == Pow2(a) * Pow2(b)
    decreases a
  {
    if a > 0 {
      Pow2Add(a - 1, b);
      assert Pow2(a + b) == 2 * Pow2(a - 1 + b);
    }
  }

  lemma {:induction false} Pow2Mono(a: nat, b: nat)
    requires a <= b
    ensures Pow2(a) <= Pow2(b)
    decreases b
  {
    if a < b {
      Pow2Mono(a, b - 1);
    }
  }

  lemma Pow2Of13()
    ensures Pow2(13) == 0x2000
  {
    assert Pow2(5) == 32;
    assert Pow2(8) == 256;
    Pow2Add(8, 5);
  }

  lemma Pow2Of26()
    ensures Pow2(26) == 0x400_0000
  {
    Pow2Of13();
    Pow2Add(13, 13);
  }

  lemma Pow2Consts()
    ensures Pow2(52) == Two52 && Pow2(53) == Two53
  {
    Pow2Of26();
    Pow2Add(26, 26);
  }

  lemma Pow256Of8()
    ensures Pow256(8) == 0x1_0000_0000_0000_0000
  {
    assert Pow256(1) == 256;
    assert Pow256(2) == 0x1_0000;
    assert Pow256(4) == 0x1_0000_0000;
  }

  /** `floor(log2(m))`: the exponent of the leading bit of m. */
  function Log2(m: nat): (e: nat)
    requires m >= 1
    ensures Pow2(e) <= m < Pow2(e + 1)
  {
    if m == 1 then 0 else 1 + Log2(m / 2)
  }

  lemma MulLe(a: int, b: int, k: nat)
    requires a <= b
    ensures a * k <= b * k
  {
  }

  lemma MulLt(a: int, b: int, k: nat)
    requires a < b && k > 0
    ensures a * k < b * k
  {
  }

  /** Euclidean division is determined by its quotient and remainder. */
  lemma DivModUnique(x: int, d: int, a: int, b: int)
    requires d > 0 && 0 <= b < d && x == a * d + b
    ensures x / d == a && x % d == b
  {
    var q, r := x / d, x % d;
    assert x == q * d + r;
    if q > a {
      MulLe(a + 1, q, d);
    } else if q < a {
      MulLe(q + 1, a, d);
    }
  }

  /** m / 2^s rounded to the nearest integer, a tie going to the even one:
      never more than half a step 2^s away from m. */
  function RoundHalfEven(m: nat, s: nat): (q: nat)
    requires s >= 1
    ensures Pow2(s) * q <= m + Pow2(s - 1)
    ensures m <= Pow2(s) * q + Pow2(s - 1)
  {
    var d := Pow2(s);
    var q := m / d;
    var rem := m % d;
    assert m == d * q + rem && 0 <= rem < d && d == 2 * Pow2(s - 1);
    if rem > Pow2(s - 1) || (rem == Pow2(s - 1) && q % 2 == 1) then q + 1 else q
  }

  /** A significand of at most 53 bits is m shifted left, exactly. */
  lemma ShiftedInRange(m: nat, e: nat)
    requires Pow2(e) <= m < Pow2(e + 1) && e <= 52
    ensures Two52 <= m * Pow2(52 - e) < Two53
  {
    Pow2Consts();
    Pow2Add(e, 52 - e);
    Pow2Add(e + 1, 52 - e);
    MulLe(Pow2(e), m, Pow2(52 - e));
    MulLt(m, Pow2(e + 1), Pow2(52 - e));
  }

  /** A quotient rounded to within half a step of m, where m lies in
      [a * d, 2 * a * d), lies in [a, 2 * a]. */
  lemma QuotientBounds(m: nat, d: nat, h: nat, q: nat, a: nat)
    requires d == 2 * h && h >= 1
    requires d * q <= m + h && m <= d * q + h
    requires a * d <= m < 2 * a * d
    ensures a <= q <= 2 * a
  {
    if q > 2 * a {
      MulLe(2 * a + 1, q, d);
    }
    if q < a {
      MulLe(q + 1, a, d);
    }
  }

  /** A wider m rounds to a significand in [2^52, 2^53]. */
  lemma RoundedInRange(m: nat, e: nat)
    requires Pow2(e) <= m < Pow2(e + 1) && e > 52
    ensures Two52 <= RoundHalfEven(m, e - 52) <= Two53
  {
    var s := e - 52;
    var d := Pow2(s);
    Pow2Consts();
    Pow2Add(52, s);
    assert Pow2(e + 1) == 2 * Pow2(e);
    QuotientBounds(m, d, Pow2(s - 1), RoundHalfEven(m, s), Two52);
  }

  /** The 53-bit significand and the exponent of `float(m)`, given the
      exponent e of m's leading bit; rounding may carry into e + 1. */
  function Normalize(m: nat, e: nat): (r: (nat, nat))
    requires Pow2(e) <= m < Pow2(e + 1)
    ensures Two52 <= r.0 < Two53
    ensures r.1 == e || r.1 == e + 1
  {
    if e <= 52 then
      ShiftedInRange(m, e);
      (m * Pow2(52 - e), e)
    else
      RoundedInRange(m, e);
      var q := RoundHalfEven(m, e - 52);
      if q == Two53 then (Two52, e + 1) else (q, e)
  }

  /** The 64-bit pattern: sign bit, 11-bit biased exponent, 52-bit fraction. */
  function Bits(neg: bool, expField: nat, frac: nat): (x: nat)
    requires expField < 2048 && frac < Two52
    ensures x < 0x1_0000_0000_0000_0000
  {
    (if neg then Two63 else 0) + expField * Two52 + frac
  }

  /** `struct.pack('<d', v)` for an int v; `None` is the OverflowError of
      an integer too large for a double. */
  function IntToDouble(v: int): (r: Option<seq<Byte>>)
    ensures r.Some? ==> |r.value| == 8
  {
    if v == 0 then Some(LeBytes(0, 8)) else NonZeroToDouble(v)
  }
  function NonZeroToDouble(v: int): (r: Option<seq<Byte>>)
    requires v != 0
    ensures r.Some? ==> |r.value| == 8
  {
      var m := if v < 0 then -v else v;
      var (q, e) := Normalize(m, Log2(m));
      if e > 1023 then None
      else Some(LeBytes(Bits(v < 0, e + 1023, q - Two52), 8))
  }

  /** The three fields of an eight-byte double, low byte first. */
  datatype Fields = Fields(neg: bool, expField: nat, frac: nat)

  function Decode(b: seq<Byte>): (f: Fields)
    ensures f.expField < 2048 && f.frac < Two52
  {
    var x := LeValue(b) % 0x1_0000_0000_0000_0000;
    Fields(x >= Two63, (x % Two63) / Two52, x % Two52)
  }

  lemma DecodeBits(neg: bool, expField: nat, frac: nat)
    requires expField < 2048 && frac < Two52
    ensures Decode(LeBytes(Bits(neg, expField, frac), 8)) == Fields(neg, expField, frac)
  {
    var x := Bits(neg, expField, frac);
    Pow256Of8();
    LeRoundTrip(x, 8);
    DivModUnique(x, 0x1_0000_0000_0000_0000, 0, x);
    var low := expField * Two52 + frac;
    MulLe(expField, 2047, Two52);
    DivModUnique(x, Two63, if neg then 1 else 0, low);
    DivModUnique(low, Two52, expField, frac);
    DivModUnique(x, Two52, (if neg then 2048 else 0) + expField, frac);
  }

  function Abs(v: int): nat { if v < 0 then -v else v }

  /** The fields of a converted non-zero integer: its sign, the biased
      exponent and the fraction of its normalized significand. */
  lemma IntToDoubleFields(v: int)
    requires v != 0 && IntToDouble(v).Some?
    ensures var n := Normalize(Abs(v), Log2(Abs(v)));
            n.1 <= 1023 &&
            Decode(IntToDouble(v).value) == Fields(v < 0, n.1 + 1023, n.0 - Two52)
  {
    var n := Normalize(Abs(v), Log2(Abs(v)));
    DecodeBits(v < 0, n.1 + 1023, n.0 - Two52);
  }

  lemma MulAssoc(m: int, a: int, b: int, p: int)
    requires a * b == p
    ensures (m * a) * b == m * p
  {
  }

  /** Below 2^53 the significand is m shifted, so nothing is lost. */
  lemma NormalizeExact(m: nat)
    requires 1 <= m < Two53
    ensures var n := Normalize(m, Log2(m));
            n.1 <= 52 && n.0 * Pow2(n.1) == m * Two52
  {
    var e := Log2(m);
    Pow2Consts();
    if e > 52 {
      Pow2Mono(53, e);
      assert false;
    }
    var n := Normalize(m, e);
    assert n.0 == m * Pow2(52 - e) && n.1 == e;
    Pow2Add(52 - e, e);
    MulAssoc(m, Pow2(52 - e), Pow2(e), Two52);
  }

  /** The rounding bound of RoundHalfEven, once the step 2^s = d is
      written out: q * d is within half a step of m. */
  lemma HalfStep(m: nat, d: nat, h: nat, q: nat, t: int)
    requires d == 2 * h && t == q * d
    requires d * q <= m + h && m <= d * q + h
    ensures 2 * t <= 2 * m + d && 2 * m <= 2 * t + d
  {
  }

  /** From 2^53 on the significand times the unit in the last place,
      `2^(exponent - 52)`, is within half that unit of m. */
  lemma NormalizeNearest(m: nat)
    requires m >= Two53
    ensures var n := Normalize(m, Log2(m));
            var u := Pow2(n.1 - 52);
            n.1 >= 53 && 2 * (n.0 * u) <= 2 * m + u && 2 * m <= 2 * (n.0 * u) + u
  {
    var e := Log2(m);
    Pow2Consts();
    if e < 53 {
      Pow2Mono(e + 1, 53);
      assert false;
    }
    var s := e - 52;
    var d := Pow2(s);
    var q := RoundHalfEven(m, s);
    var n := Normalize(m, e);
    HalfStep(m, d, Pow2(s - 1), q, q * d);
    if q == Two53 {
      assert n == (Two52, e + 1);
      var u := Pow2(n.1 - 52);
      assert u == 2 * d;
      assert n.0 * u == Two53 * d == q * d;
    } else {
      assert n == (q, e);
      assert Pow2(n.1 - 52) == d;
    }
  }

  /** An integer of at most 53 bits is written exactly: the double
      `(1 + frac / 2^52) * 2^(expField - 1023)` has v's sign and magnitude. */
  lemma IntToDoubleExact(v: int)
    requires v != 0 && -Two53 < v < Two53
    ensures IntToDouble(v).Some?
    ensures var f := Decode(IntToDouble(v).value);
            f.neg == (v < 0) && 1023 <= f.expField <= 1075 &&
            (Two52 + f.frac) * Pow2(f.expField - 1023) == Abs(v) * Two52
  {
    NormalizeExact(Abs(v));
    IntToDoubleFields(v);
  }

  /** The magnitude `(1 + frac / 2^52) * 2^(expField - 1023)` of a double
      whose exponent makes it a whole number. */
  function Magnitude(f: Fields): int
    requires f.expField >= 1075
  {
    (Two52 + f.frac) * Pow2(f.expField - 1075)
  }

  /** A wider integer is rounded: the double has v's sign and lies within
      half a unit in its last place, `2^(expField - 1075)`, of |v|. */
  lemma IntToDoubleNearest(v: int)
    requires v <= -Two53 || Two53 <= v
    requires IntToDouble(v).Some?
    ensures var f := Decode(IntToDouble(v).value);
            f.neg == (v < 0) && 1076 <= f.expField
    ensures var f := Decode(IntToDouble(v).value);
            var ulp := Pow2(f.expField - 1075);
            2 * Magnitude(f) <= 2 * Abs(v) + ulp && 2 * Abs(v) <= 2 * Magnitude(f) + ulp
  {
    var n := Normalize(Abs(v), Log2(Abs(v)));
    NormalizeNearest(Abs(v));
    IntToDoubleFields(v);
    var f := Decode(IntToDouble(v).value);
    assert f == Fields(v < 0, n.1 + 1023, n.0 - Two52);
    assert Magnitude(f) == n.0 * Pow2(n.1 - 52);
  }

  /** Below 2^1023 every integer converts; from 2^1024 on none does. */
  lemma IntToDoubleRange(v: int)
    ensures Abs(v) < Pow2(1023) ==> IntToDouble(v).Some?
    ensures Abs(v) >= Pow2(1024) ==> IntToDouble(v).None?
  {
    if v != 0 {
      var m := Abs(v);
      var e := Log2(m);
      if m < Pow2(1023) && e >= 1023 {
        Pow2Mono(1023, e);
      }
      if m >= Pow2(1024) && e < 1024 {
        Pow2Mono(e + 1, 1024);
      }
    }
  }
}
