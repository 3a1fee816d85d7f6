/**
  Numbers that are written as floats (`writeNumber` of internal/crdt/lib0/any.go).

  A double is its 64 bits: sign, eleven bits of exponent, 52 bits of fraction (IEEE 754).  It is
  written in the shortest of three forms: as an integer, as a float of 32 bits, as it is.
*/
module Floats {
  import opened Ids
  import opened Varints

  function Pow2(k: nat): (p: nat)
    ensures p > 0
  {
    if k == 0 then 1 else 2 * Pow2(k - 1)
  }

  const P29: nat := 0x2000_0000
  const P31: nat := 0x8000_0000
  const P52: nat := 0x10_0000_0000_0000
  const P63: nat := 0x8000_0000_0000_0000
  const NAN: nat := 0x7FF8_0000_0000_0000

  type Double = x: nat | x < WORD

  function Exponent(x: Double): nat {
    x / P52 % 2048
  }

  function Fraction(x: Double): nat {
    x % P52
  }

  predicate Negative(x: Double) {
    x >= P63
  }

  predicate IsNaN(x: Double) {
    Exponent(x) == 2047 && Fraction(x) != 0
  }

  /** The integer of at most 31 bits that the double is, if it is one. */
  function Small(x: Double): Option<int> {
    var e, f := Exponent(x), Fraction(x);
    if e == 0 && f == 0 then Some(0)
    else if 1023 <= e <= 1053 && (P52 + f) % Pow2(1075 - e) == 0 then
      var n := (P52 + f) / Pow2(1075 - e);
      Some(if Negative(x) then -n else n)
    else None
  }

  /** The double survives being made a float of 32 bits. */
  predicate Fits32(x: Double) {
    var e, f := Exponent(x), Fraction(x);
    || (e == 0 && f == 0) || (e == 2047 && f == 0)
    || (897 <= e <= 1150 && f % P29 == 0)
    || (874 <= e <= 896 && (P52 + f) % Pow2(926 - e) == 0)
  }

  /** The 32 bits: an infinity, a normal number or a subnormal one. */
  function To32(x: Double): nat
    requires Fits32(x)
  {
    var e, f := Exponent(x), Fraction(x);
    (if Negative(x) then P31 else 0) +
    (if e == 0 then 0
     else if e == 2047 then 255 * 0x80_0000
     else if e >= 897 then (e - 896) * 0x80_0000 + f / P29
     else (P52 + f) / Pow2(926 - e))
  }

  lemma {:induction false} Pow2Monotone(a: nat, b: nat)
    requires a <= b
    ensures Pow2(a) <= Pow2(b)
    decreases b - a
  {
    if a < b { Pow2Monotone(a, b - 1); }
  }

  /** The position of the highest bit. */
  function Log2(a: nat): (k: nat)
    requires a > 0
    ensures Pow2(k) <= a < Pow2(k + 1)
  {
    if a == 1 then 0 else 1 + Log2(a / 2)
  }

  lemma {:induction false} Log2Is(a: nat, k: nat)
    requires Pow2(k) <= a < Pow2(k + 1)
    ensures Log2(a) == k
  {
    hide Pow2;
    if Log2(a) < k { Pow2Monotone(Log2(a) + 1, k); }
    if k < Log2(a) { Pow2Monotone(k + 1, Log2(a)); }
  }

  /** The 64 bits of a float of 32 bits. */
  function Widened(y: nat): nat {
    var e, f := y / 0x80_0000 % 256, y % 0x80_0000;
    (if y >= P31 then P63 else 0) +
    (if e == 255 then 2047 * P52 + f * P29
     else if e > 0 then (e + 896) * P52 + f * P29
     else if f == 0 then 0
     else if Log2(f) <= 52 then (873 + Log2(f)) * P52 + f * Pow2(52 - Log2(f))
     else 0)
  }

  lemma Parts(x: Double)
    ensures x == (if Negative(x) then P63 else 0) + Exponent(x) * P52 + Fraction(x)
  {
    assert x / P52 == x / P52 / 2048 * 2048 + x / P52 % 2048;
    assert x / P52 / 2048 == x / P63;
  }

  lemma PartsOf(negative: bool, e: nat, f: nat, x: Double)
    requires e < 2048 && f < P52 && x == (if negative then P63 else 0) + e * P52 + f
    ensures Negative(x) == negative && Exponent(x) == e && Fraction(x) == f
  {
    assert x / P52 == (if negative then 2048 else 0) + e;
  }

  /** A number of which the highest bit is the `k`th, with its bits moved to the top of 53. */
  lemma Aligned(m: nat, k: nat)
    requires k <= 52 && P52 <= m * Pow2(52 - k) < 2 * P52
    ensures Pow2(k) <= m < Pow2(k + 1) && m > 0 && Log2(m) == k
  {
    hide Log2, Pow2;
    var p := Pow2(52 - k);
    TopBits(k);
    Less(Pow2(k), m, p);
    Below(m, Pow2(k + 1), p);
    Log2Is(m, k);
  }

  lemma TopBits(k: nat)
    requires k <= 52
    ensures Pow2(k) * Pow2(52 - k) == P52 && Pow2(k + 1) * Pow2(52 - k) == 2 * P52
  {
    Pow52();
    Pow2Add(k, 52 - k);
    Pow2Add(k + 1, 52 - k);
  }

  lemma Less(a: nat, b: nat, p: nat)
    requires 0 < p && a * p <= b * p
    ensures a <= b
  {
    if b < a { Times(p, b + 1, a); }
  }

  lemma Below(a: nat, b: nat, p: nat)
    requires a * p < b * p
    ensures a < b
  {
    if b <= a { Times(p, b, a); }
  }

  lemma DivMod(a: nat, p: nat)
    requires p > 0 && a % p == 0
    ensures a / p * p == a
  {
  }

  lemma MulDiv(a: nat, p: nat)
    requires p > 0
    ensures a * p / p == a && a * p % p == 0
  {
    var q, r := a * p / p, a * p % p;
    assert a * p == q * p + r;
    if q < a {
      Times(p, q + 1, a);
    } else if a < q {
      Times(p, a + 1, q);
    }
  }

  /** Making a double that survives it a float of 32 bits and back gives the double. */
  lemma To32Exact(x: Double)
    requires Fits32(x)
    ensures To32(x) < 0x1_0000_0000 && Widened(To32(x)) == x
  {
    hide Log2, Pow2;
    if 897 <= Exponent(x) <= 1150 {
      NormalExact(x);
    } else if 874 <= Exponent(x) <= 896 {
      SubnormalExact(x);
    } else {
      Parts(x);
    }
  }

  lemma NormalExact(x: Double)
    requires Fits32(x) && 897 <= Exponent(x) <= 1150
    ensures To32(x) < 0x1_0000_0000 && Widened(To32(x)) == x
  {
    hide Log2, Pow2;
    Parts(x);
    var e, f := Exponent(x), Fraction(x);
    var s, g := if Negative(x) then P31 else 0, f / P29;
    assert f == g * P29 && g < 0x80_0000;
    SingleParts(s, e - 896, g);
  }

  lemma SingleParts(s: nat, e: nat, g: nat)
    requires (s == 0 || s == P31) && e < 256 && g < 0x80_0000
    ensures var y := s + e * 0x80_0000 + g; y / 0x80_0000 % 256 == e && y % 0x80_0000 == g && (y >= P31 <==> s == P31)
  {
    var y := s + e * 0x80_0000 + g;
    assert y / 0x80_0000 == s / 0x80_0000 + e;
  }

  lemma SubnormalExact(x: Double)
    requires Fits32(x) && 874 <= Exponent(x) <= 896
    ensures To32(x) < 0x1_0000_0000 && Widened(To32(x)) == x
  {
    hide Log2, Pow2;
    Parts(x);
    var e, f := Exponent(x), Fraction(x);
    var k, m := e - 874, (P52 + f) / Pow2(926 - e);
    DivMod(P52 + f, Pow2(926 - e));
    Aligned(m, k);
    Pow2Monotone(k + 1, 23);
    Pow23();
    var s := if Negative(x) then P31 else 0;
    assert To32(x) == s + m && m < 0x80_0000;
    SingleParts(s, 0, m);
  }

  lemma Pow23()
    ensures Pow2(23) == 0x80_0000
  {
    Pow22();
  }

  // ---------------------------------------------------------------- integers

  /** The nearest multiple of `p`, of two the even one. */
  function Rounded(a: nat, p: nat): nat
    requires p > 0
  {
    RoundUp(a / p, a % p, p)
  }

  function RoundUp(q: nat, r: nat, p: nat): nat {
    if 2 * r > p || (2 * r == p && q % 2 == 1) then q + 1 else q
  }

  lemma RoundedIsNearest(a: nat, p: nat)
    requires p > 0
    ensures var m := Rounded(a, p); 2 * Abs(m * p - a) <= p && (2 * Abs(m * p - a) == p ==> m % 2 == 0)
  {
    hide RoundUp;
    assert a == a / p * p + a % p;
    RoundUpIsNearest(a / p, a % p, p);
  }

  lemma RoundUpIsNearest(q: nat, r: nat, p: nat)
    requires r < p
    ensures var m, a := RoundUp(q, r, p), q * p + r; 2 * Abs(m * p - a) <= p && (2 * Abs(m * p - a) == p ==> m % 2 == 0)
  {
    assert (q + 1) * p == q * p + p;
  }

  /** The 63 bits of the double nearest to a positive integer. */
  function Magnitude(a: nat): nat
    requires 0 < a <= P63
  {
    (1022 + Log2(a)) * P52 + Significand(a, Log2(a))
  }

  /** 53 bits of a number of `k + 1` bits. */
  function Significand(a: nat, k: nat): nat {
    if k <= 52 then a * Pow2(52 - k) else Rounded(a, Pow2(k - 52))
  }

  lemma MagnitudeBound(a: nat)
    requires 0 < a <= P63
    ensures 1023 * P52 <= Magnitude(a) < 2047 * P52
  {
    hide Pow2, Log2, Rounded;
    var k := Log2(a);
    if k <= 52 {
      AlignedBound(a, k);
    } else {
      if k > 63 {
        Pow2Monotone(64, k);
        Pow64();
      }
      RoundedBound(a, k);
    }
  }

  lemma AlignedBound(a: nat, k: nat)
    requires k <= 52 && Pow2(k) <= a < Pow2(k + 1)
    ensures P52 <= a * Pow2(52 - k) < 2 * P52
  {
    hide Pow2;
    var p := Pow2(52 - k);
    TopBits(k);
    Times(p, Pow2(k), a);
    Times(p, a + 1, Pow2(k + 1));
  }

  lemma RoundedBound(a: nat, k: nat)
    requires k > 52 && Pow2(k) <= a < Pow2(k + 1)
    ensures P52 <= Rounded(a, Pow2(k - 52)) <= 2 * P52
  {
    hide Rounded;
    var p := Pow2(k - 52);
    assert Pow2(k) == P52 * p by {
      Pow2Add(52, k - 52);
      Pow52();
    }
    var m := Rounded(a, p);
    RoundedIsNearest(a, p);
    if m < P52 { Times(p, m + 1, P52); }
    if m > 2 * P52 { Times(p, 2 * P52 + 1, m); }
  }

  /** The double nearest to an integer, of two the one with an even fraction. */
  function FromInt(i: Int64): Double {
    if i == 0 then 0
    else
      MagnitudeBound(Abs(i));
      (if i < 0 then P63 else 0) + Magnitude(Abs(i))
  }

  /** The double of an integer is the integer itself up to 53 bits, and beyond that it is off by half of its
      last place at most. */
  lemma IntIsNearest(i: Int64)
    requires i != 0
    ensures var a, x := Abs(i), FromInt(i);
            var k, e, m := Log2(a), Exponent(x), P52 + Fraction(x);
            && Negative(x) == (i < 0) && 1023 <= e < 2047
            && (k <= 52 ==> e == 1023 + k && m == a * Pow2(1075 - e))
            && (k > 52 ==> e > 1075 && 2 * Abs(m * Pow2(e - 1075) - a) <= Pow2(k - 52))
  {
    hide Log2, Pow2, Rounded, Exponent, Fraction, Negative;
    var a := Abs(i);
    var k := Log2(a);
    MagnitudeBound(a);
    if k <= 52 {
      AlignedBound(a, k);
      PartsOf(i < 0, 1023 + k, a * Pow2(52 - k) - P52, FromInt(i));
    } else {
      if k > 63 {
        Pow2Monotone(64, k);
        Pow64();
      }
      RoundedBound(a, k);
      RoundedIsNearest(a, Pow2(k - 52));
      var m := Rounded(a, Pow2(k - 52));
      if m < 2 * P52 {
        PartsOf(i < 0, 1023 + k, m - P52, FromInt(i));
      } else {
        PartsOf(i < 0, 1024 + k, 0, FromInt(i));
        assert Pow2(k - 51) == 2 * Pow2(k - 52) by { Twice(k - 52); }
        assert P52 * (2 * Pow2(k - 52)) == m * Pow2(k - 52);
      }
    }
  }

  lemma Twice(k: nat)
    ensures Pow2(k + 1) == 2 * Pow2(k)
  {
  }

  /** An integer has no negative zero. */
  lemma FromIntSign(i: Int64)
    ensures FromInt(i) != P63
  {
    hide Magnitude;
    if i != 0 { MagnitudeBound(Abs(i)); }
  }

  /** Integers of at most 31 bits are the doubles they are. */
  lemma SmallOfInt(i: Int64)
    requires Abs(i) <= 0x7FFF_FFFF
    ensures Small(FromInt(i)) == Some(i)
  {
    hide Log2, Pow2;
    if i != 0 {
      var a := Abs(i);
      var k := Log2(a);
      if k > 30 {
        Pow2Monotone(31, k);
        Pow31();
      }
      AlignedBound(a, k);
      var f := a * Pow2(52 - k) - P52;
      PartsOf(i < 0, 1023 + k, f, FromInt(i));
      MulDiv(a, Pow2(52 - k));
    } else {
      PartsOf(false, 0, 0, 0);
    }
  }

  lemma Pow31()
    ensures Pow2(31) == 0x8000_0000
  {
    Pow30();
  }

  /** And the other way round: only negative zero is not the double of its integer. */
  lemma IntOfSmall(x: Double)
    requires Small(x).Some?
    ensures Abs(Small(x).value) <= 0x7FFF_FFFF && FromInt(Small(x).value) == if x == P63 then 0 else x
  {
    hide Log2, Pow2;
    Parts(x);
    SmallIsSmall(x);
    var e, f := Exponent(x), Fraction(x);
    if !(e == 0 && f == 0) {
      var k := e - 1023;
      DivMod(P52 + f, Pow2(52 - k));
      Aligned((P52 + f) / Pow2(52 - k), k);
    }
  }

  lemma Pow30()
    ensures Pow2(30) == 0x4000_0000
  {
    assert Pow2(10) == 1024;
    Pow2Add(10, 10);
    Pow2Add(20, 10);
  }

  lemma Quotient(a: nat, p: nat, q: nat)
    requires 0 < q <= p
    ensures a / p <= a / q
  {
    Times(a / p, q, p);
    Divides(a / p, q, a);
  }

  lemma Times(k: nat, q: nat, p: nat)
    requires q <= p
    ensures k * q <= k * p
  {
  }

  lemma Divides(k: nat, q: nat, a: nat)
    requires 0 < q && k * q <= a
    ensures k <= a / q
  {
    if k > a / q {
      Above(a, q);
      Monotone(a / q + 1, k, q);
      assert false;
    }
  }

  lemma Above(a: nat, q: nat)
    requires 0 < q
    ensures a < (a / q + 1) * q
  {
    assert a == a / q * q + a % q;
  }

  // ---------------------------------------------------------------- bytes

  /** Big-endian. */
  function BigEndian(x: nat, n: nat): (b: seq<Byte>)
    ensures |b| == n
    decreases n
  {
    if n == 0 then [] else BigEndian(x / 256, n - 1) + [x % 256]
  }

  function Value(b: seq<Byte>): nat {
    if b == [] then 0 else Value(b[..|b| - 1]) * 256 + b[|b| - 1]
  }

  lemma {:induction false} ValueBelow(b: seq<Byte>)
    ensures Value(b) < Pow2(8 * |b|)
    decreases |b|
  {
    if b != [] {
      ValueBelow(b[..|b| - 1]);
      EightMore(|b|);
    }
  }

  lemma ValueBound(b: seq<Byte>)
    requires |b| == 8
    ensures Value(b) < WORD
  {
    ValueBelow(b);
    Pow64();
  }

  lemma Pow64()
    ensures Pow2(64) == WORD
  {
    assert Pow2(8) == 256;
    Pow2Add(8, 8);
    Pow2Add(16, 16);
    Pow2Add(32, 32);
  }

  lemma {:induction false} ValueOfBytes(x: nat, n: nat)
    requires x < Pow2(8 * n)
    ensures Value(BigEndian(x, n)) == x
    decreases n
  {
    if n > 0 {
      var b := BigEndian(x, n);
      assert b[..n - 1] == BigEndian(x / 256, n - 1);
      EightMore(n);
      ValueOfBytes(x / 256, n - 1);
    }
  }

  lemma {:induction false} Pow2Add(a: nat, b: nat)
    ensures Pow2(a + b) == Pow2(a) * Pow2(b)
    decreases b
  {
    if b > 0 {
      Pow2Add(a, b - 1);
      assert Pow2(a) * (2 * Pow2(b - 1)) == 2 * (Pow2(a) * Pow2(b - 1));
    }
  }

  lemma EightMore(n: nat)
    requires n > 0
    ensures Pow2(8 * n) == 256 * Pow2(8 * (n - 1))
  {
    Pow2Add(8 * (n - 1), 8);
    assert Pow2(8) == 256;
  }

  // ---------------------------------------------------------------- writing a number

  /** What the decoder makes of a number: 64-bit integer, float of 32 bits, double. */
  datatype Number = Integer(value: Int64) | Float32(bits: seq<Byte>) | Float64(double: Double)

  /** `writeNumber`. */
  function WriteDouble(x: Double): (e: seq<Byte>)
    ensures e != []
  {
    if Small(x).Some? then [125] + (if Small(x).value == 0 && Negative(x) then [0x40] else Int(Small(x).value))
    else if Fits32(x) then [124] + BigEndian(To32(x), 4)
    else [123] + BigEndian(if IsNaN(x) then NAN else x, 8)
  }

  /** The double that is written as it is. */
  predicate Stays(x: Double) {
    Small(x) == None && !Fits32(x) && (IsNaN(x) ==> x == NAN)
  }

  lemma DoubleBytes(x: Double)
    ensures Value(BigEndian(x, 8)) == x
  {
    hide BigEndian, Value, Pow2;
    Pow64();
    ValueOfBytes(x, 8);
  }

  lemma MinusZero()
    ensures WriteDouble(P63) == [125, 0x40] && Shortest(P63) == Integer(0)
  {
    ZeroIsSmall();
  }

  /** A double in the form it is read back in. */
  function Shortest(x: Double): Number {
    if Small(x).Some? then
      SmallIsSmall(x);
      Integer(Small(x).value)
    else if Fits32(x) then Float32(BigEndian(To32(x), 4))
    else Float64(if IsNaN(x) then NAN else x)
  }

  /** `writeAny`, as far as numbers go. */
  function WriteNumber(v: Number): (e: seq<Byte>) {
    match v
    case Integer(n) => WriteDouble(FromInt(n))
    case Float32(bits) => [124] + bits
    case Float64(x) => WriteDouble(x)
  }

  /** The double that a number is. */
  function DoubleOf(v: Number): nat {
    match v
    case Integer(n) => FromInt(n)
    case Float32(bits) => Widened(Value(bits))
    case Float64(x) => x
  }

  /** The form in which a double is read back is the same number, but for the sign of zero and what
      kind of NaN it is. */
  lemma NumberKeepsValue(x: Double)
    ensures DoubleOf(Shortest(x)) == if x == P63 then 0 else if IsNaN(x) then NAN else x
  {
    hide Small, Fits32, To32, FromInt, Widened, Pow2, BigEndian, Value;
    assert Small(P63) == Some(0) by { ZeroIsSmall(); }
    if Small(x).Some? {
      IntOfSmall(x);
      SmallIsNumber(x);
    } else if Fits32(x) {
      To32Exact(x);
      Pow32();
      ValueOfBytes(To32(x), 4);
      SingleIsNumber(x);
    }
  }

  lemma SmallIsNumber(x: Double)
    requires Small(x).Some?
    ensures !IsNaN(x)
  {
  }

  lemma SingleIsNumber(x: Double)
    requires Fits32(x)
    ensures !IsNaN(x)
  {
    hide Pow2;
  }

  lemma Pow32()
    ensures Pow2(32) == 0x1_0000_0000
  {
    assert Pow2(8) == 256;
    Pow2Add(8, 8);
    Pow2Add(16, 16);
  }

  lemma NaNStays(x: Double)
    requires Small(x) == None && !Fits32(x)
    ensures Stays(if IsNaN(x) then NAN else x)
  {
    if IsNaN(x) {
      assert Exponent(NAN) == 2047 && Fraction(NAN) == 0x8_0000_0000_0000;
    }
  }

  lemma Pow22()
    ensures Pow2(22) == 0x40_0000
  {
    assert Pow2(11) == 2048;
    Pow2Add(11, 11);
  }

  lemma SmallIsSmall(x: Double)
    requires Small(x).Some?
    ensures Abs(Small(x).value) <= 0x7FFF_FFFF
  {
    var e, f := Exponent(x), Fraction(x);
    if 1023 <= e <= 1053 && (P52 + f) % Pow2(1075 - e) == 0 {
      Pow2Monotone(22, 1075 - e);
      Pow22();
      Quotient(P52 + f, Pow2(1075 - e), 0x40_0000);
    }
  }

  /** Writing what was read of a written double gives as many bytes, and the same ones if and only if
      the double is not negative zero: that is written with its sign, and read as an integer, which
      has none. */
  lemma NumberFixedPoint(x: Double)
    ensures |WriteNumber(Shortest(x))| == |WriteDouble(x)|
    ensures WriteNumber(Shortest(x)) == WriteDouble(x) <==> x != P63
  {
    hide Small, Fits32, To32, BigEndian, Int, Pow2, FromInt;
    assert Small(P63) == Some(0) by { ZeroIsSmall(); }
    if Small(x).Some? {
      SmallIsSmall(x);
      NegativeZero(x);
      SmallOfInt(Small(x).value);
      FromIntSign(Small(x).value);
      NegativeZero(FromInt(Small(x).value));
    } else if !Fits32(x) {
      NaNStays(x);
    }
  }

  /** What was written in the shortest form stays in it. */
  lemma ShortestIsShort(x: Double)
    ensures match Shortest(x)
            case Integer(n) => Shortest(FromInt(n)) == Integer(n)
            case Float32(bits) => |bits| == 4
            case Float64(y) => Shortest(y) == Float64(y)
  {
    hide Small, Fits32, To32, BigEndian, Pow2, FromInt;
    if Small(x).Some? {
      SmallIsSmall(x);
      SmallOfInt(Small(x).value);
    } else if !Fits32(x) {
      NaNStays(x);
    }
  }

  lemma ZeroIsSmall()
    ensures Small(P63) == Some(0)
  {
    assert Exponent(P63) == 0 && Fraction(P63) == 0;
  }

  lemma NegativeZero(x: Double)
    requires Small(x).Some?
    ensures Small(x).value == 0 && Negative(x) <==> x == P63
    ensures Int(0) == [0] && [125] + [0x40] != [125] + Int(0)
  {
    Parts(x);
    assert Int(0) == [0];
    assert ([125] + [0x40])[1] == 0x40 && ([125] + Int(0))[1] == 0;
    var e, f := Exponent(x), Fraction(x);
    if 1023 <= e <= 1053 {
      Pow2Monotone(1075 - e, 52);
      assert Pow2(52) == P52 by { Pow52(); }
      AtLeastOne(P52 + f, Pow2(1075 - e));
    }
  }

  lemma AtLeastOne(a: nat, p: nat)
    requires 0 < p <= a
    ensures a / p >= 1
  {
  }

  lemma Pow52()
    ensures Pow2(52) == P52
  {
    assert Pow2(13) == 8192;
    Pow2Add(13, 13);
    Pow2Add(26, 26);
  }
}
