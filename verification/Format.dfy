/**
  The wire format by its bytes: which numbers stand for what, and in which order the parts come.
  Everywhere else encoder and decoder are compared with each other; here both are compared with the
  format that Yjs clients speak (the constants of internal/crdt/content.go, struct.go and lib0/any.go,
  and the updates in testdata/fixtures).
*/
module Format {
  import opened Ids
  import opened Varints
  import opened Anys
  import opened Codec
  import F = Floats

  // ---------------------------------------------------------------- numbers

  /** Seven bits per byte, the lowest first. */
  function Weighed(e: seq<Byte>): nat {
    if e == [] then 0 else e[0] % 128 + 128 * Weighed(e[1..])
  }

  /** All bytes but the last say that more follow. */
  predicate Continued(e: seq<Byte>) {
    e != [] && e[|e| - 1] < 128 && forall i | 0 <= i < |e| - 1 :: e[i] >= 128
  }

  /** Any byte string of that form is read as the number its bits spell, however long it is. */
  lemma {:induction false} DigitsRead(s: seq<Byte>, i: nat, e: seq<Byte>, num: nat, mult: nat, m: nat)
    requires Occurs(s, i, e) && Continued(e) && m > 0 && num + Weighed(e) * m <= MAX_SAFE
    requires mult == m || Weighed(e) == 0
    ensures ReadUint(s, i, num, mult) == Got(num + Weighed(e) * m, i + |e|)
    decreases |e|
  {
    hide Low, Occurs;
    OccursFirst(s, i, e);
    var d, rest := e[0] % 128, Weighed(e[1..]);
    assert Weighed(e) * m == d * m + rest * (m * 128) by { assert (d + 128 * rest) * m == d * m + rest * (m * 128); }
    if Weighed(e) == 0 {
      assert d == 0 && rest == 0;
    }
    assert d * mult == d * m;
    LowIsSame(d * m);
    LowIsSame(num + d * m);
    if |e| > 1 {
      if rest > 0 {
        Monotone(1, rest, m * 128);
        LowIsSame(mult * 128);
      }
      DigitsRead(s, i + 1, e[1..], num + d * m, Low(mult * 128), m * 128);
    }
  }

  lemma UintDigits(s: seq<Byte>, i: nat, e: seq<Byte>)
    requires Occurs(s, i, e) && Continued(e) && Weighed(e) <= MAX_SAFE
    ensures ReadUint(s, i, 0, 1) == Got(Weighed(e), i + |e|)
  {
    DigitsRead(s, i, e, 0, 1, 1);
  }

  /** What is written of a number spells it. */
  lemma {:induction false} UintSpells(v: nat)
    ensures Continued(Uint(v)) && Weighed(Uint(v)) == v
    decreases v
  {
    if v > 127 {
      UintSpells(v / 128);
      assert Uint(v)[1..] == Uint(v / 128);
    } else {
      assert Weighed([v]) == v;
    }
  }

  /** Of a signed number the first byte holds six bits, the sign and whether more follow. */
  lemma IntSpells(v: int)
    ensures var e := Int(v);
            && e[0] % 64 + 64 * Weighed(e[1..]) == Abs(v) && (e[0] / 64 % 2 == 1 <==> v < 0)
            && (e[0] < 128 <==> |e| == 1) && (|e| > 1 ==> Continued(e[1..]))
  {
    var e, n := Int(v), Abs(v);
    if n > 0x3F {
      UintSpells(n / 64);
      assert e[1..] == Uint(n / 64);
    } else {
      assert e[1..] == [];
    }
  }

  /** The next byte of a number. */
  lemma Next(s: seq<Byte>, i: nat, num: nat, mult: nat)
    requires i < |s| && s[i] >= 128 && Low(num + Low(s[i] % 128 * mult)) <= MAX_SAFE
    ensures ReadUint(s, i, num, mult) == ReadUint(s, i + 1, Low(num + Low(s[i] % 128 * mult)), Low(mult * 128))
  {
  }

  /** The tenth byte of a longer form than is written wraps around. */
  lemma UintWraps()
    ensures ReadUint([128, 128, 128, 128, 128, 128, 128, 128, 128, 2], 0, 0, 1) == Got(0, 10)
  {
    hide ReadUint;
    var s: seq<Byte> := [128, 128, 128, 128, 128, 128, 128, 128, 128, 2];
    Nines(s);
    LastByte(s, 9, 0, 0x8000000000000000);
  }

  lemma Nines(s: seq<Byte>)
    requires |s| > 9 && forall j | 0 <= j < 9 :: s[j] == 128
    ensures ReadUint(s, 0, 0, 1) == ReadUint(s, 9, 0, 0x8000000000000000)
  {
    hide ReadUint;
    Next(s, 0, 0, 0x1);
    Next(s, 1, 0, 0x80);
    Next(s, 2, 0, 0x4000);
    Next(s, 3, 0, 0x200000);
    Next(s, 4, 0, 0x10000000);
    Next(s, 5, 0, 0x800000000);
    Next(s, 6, 0, 0x40000000000);
    Next(s, 7, 0, 0x2000000000000);
    Next(s, 8, 0, 0x100000000000000);
  }

  /** The range is checked only where more follows: a number beyond 2^53 - 1 may come out. */
  lemma UintIsCheckedLate()
    ensures ReadUint([255, 255, 255, 255, 255, 255, 255, 127], 0, 0, 1) == Got(0xFF_FFFF_FFFF_FFFF, 8)
    ensures ReadUint([255, 255, 255, 255, 255, 255, 255, 255, 0], 0, 0, 1) == Failed(IntegerOutOfRange)
  {
    hide ReadUint;
    forall s: seq<Byte> | |s| > 7 && forall j | 0 <= j < 7 :: s[j] == 255
      ensures ReadUint(s, 0, 0, 1) == ReadUint(s, 7, 0x1FFFFFFFFFFFF, 0x2000000000000)
    {
      Sevens(s);
    }
    LastByte([255, 255, 255, 255, 255, 255, 255, 127], 7, 0x1FFFFFFFFFFFF, 0x2000000000000);
    LastByte([255, 255, 255, 255, 255, 255, 255, 255, 0], 7, 0x1FFFFFFFFFFFF, 0x2000000000000);
  }

  lemma Sevens(s: seq<Byte>)
    requires |s| > 7 && forall j | 0 <= j < 7 :: s[j] == 255
    ensures ReadUint(s, 0, 0, 1) == ReadUint(s, 7, 0x1FFFFFFFFFFFF, 0x2000000000000)
  {
    hide ReadUint;
    Next(s, 0, 0x0, 0x1);
    Next(s, 1, 0x7F, 0x80);
    Next(s, 2, 0x3FFF, 0x4000);
    Next(s, 3, 0x1FFFFF, 0x200000);
    Next(s, 4, 0xFFFFFFF, 0x10000000);
    Next(s, 5, 0x7FFFFFFFF, 0x800000000);
    Next(s, 6, 0x3FFFFFFFFFF, 0x40000000000);
  }

  lemma LastByte(s: seq<Byte>, i: nat, num: nat, mult: nat)
    requires i < |s|
    ensures var sum := Low(num + Low(s[i] % 128 * mult));
            && (s[i] < 128 ==> ReadUint(s, i, num, mult) == Got(sum, i + 1))
            && (s[i] >= 128 && sum > MAX_SAFE ==> ReadUint(s, i, num, mult) == Failed(IntegerOutOfRange))
  {
  }

  lemma NextOfInt(s: seq<Byte>, i: nat, num: int, mult: int, sign: int)
    requires i < |s| && s[i] >= 128 && Wrap(num + Wrap(s[i] % 128 * mult)) <= MAX_SAFE
    ensures ReadIntTail(s, i, num, mult, sign) ==
            ReadIntTail(s, i + 1, Wrap(num + Wrap(s[i] % 128 * mult)), Wrap(mult * 128), sign)
  {
  }

  /** So does a signed number, to a negative one. */
  lemma IntWraps()
    ensures ReadInt([128, 128, 128, 128, 128, 128, 128, 128, 128, 2], 0) == Got(-0x8000_0000_0000_0000, 10)
  {
    hide ReadIntTail;
    var s: seq<Byte> := [128, 128, 128, 128, 128, 128, 128, 128, 128, 2];
    EightsOfInt(s);
    LastOfInt(s, 9, 0, 0x4000000000000000, 1);
  }

  lemma EightsOfInt(s: seq<Byte>)
    requires |s| > 9 && forall j | 0 < j < 9 :: s[j] == 128
    ensures ReadIntTail(s, 1, 0, 64, 1) == ReadIntTail(s, 9, 0, 0x4000000000000000, 1)
  {
    hide ReadIntTail;
    FoursOfInt(s);
    NextOfInt(s, 5, 0, 0x400000000, 1);
    NextOfInt(s, 6, 0, 0x20000000000, 1);
    NextOfInt(s, 7, 0, 0x1000000000000, 1);
    NextOfInt(s, 8, 0, 0x80000000000000, 1);
  }

  lemma FoursOfInt(s: seq<Byte>)
    requires |s| > 9 && forall j | 0 < j < 9 :: s[j] == 128
    ensures ReadIntTail(s, 1, 0, 64, 1) == ReadIntTail(s, 5, 0, 0x400000000, 1)
  {
    hide ReadIntTail;
    NextOfInt(s, 1, 0, 0x40, 1);
    NextOfInt(s, 2, 0, 0x2000, 1);
    NextOfInt(s, 3, 0, 0x100000, 1);
    NextOfInt(s, 4, 0, 0x8000000, 1);
  }

  lemma LastOfInt(s: seq<Byte>, i: nat, num: int, mult: int, sign: int)
    requires i < |s| && s[i] < 128
    ensures ReadIntTail(s, i, num, mult, sign) == Got(Wrap(sign * Wrap(num + Wrap(s[i] % 128 * mult))), i + 1)
  {
  }

  /** A length and that many bytes. */
  function Framed(b: seq<Byte>): seq<Byte> {
    Uint(|b|) + b
  }

  lemma FramedReads(s: seq<Byte>, i: nat, b: seq<Byte>)
    requires Occurs(s, i, Framed(b)) && |b| <= MAX_SAFE
    ensures ReadBytes(s, i) == Got(b, i + |Framed(b)|)
  {
    BytesRead(s, i, b);
  }

  // ---------------------------------------------------------------- values

  /** The tags of values. */
  lemma AnyTags(s: seq<Byte>, i: nat, depth: nat)
    requires i < |s| && depth <= MAX_DEPTH
    ensures s[i] == 127 ==> ReadAny(s, i, depth) == Got(Undefined, i + 1)
    ensures s[i] == 126 ==> ReadAny(s, i, depth) == Got(Null, i + 1)
    ensures s[i] == 121 ==> ReadAny(s, i, depth) == Got(Bool(false), i + 1)
    ensures s[i] == 120 ==> ReadAny(s, i, depth) == Got(Bool(true), i + 1)
    ensures s[i] == 124 && i + 5 <= |s| ==> ReadAny(s, i, depth) == Got(Float32(s[i + 1..i + 5]), i + 5)
    ensures s[i] == 122 && i + 9 <= |s| ==> ReadAny(s, i, depth) == Got(BigInt(s[i + 1..i + 9]), i + 9)
    ensures s[i] == 123 && i + 9 <= |s| ==>
              var x := F.Value(s[i + 1..i + 9]); x < WORD && ReadAny(s, i, depth) == Got(Float64(x), i + 9)
    ensures s[i] < 116 || s[i] > 127 ==> ReadAny(s, i, depth) == Failed(UnknownAnyTag)
  {
    hide F.Value;
    if i + 9 <= |s| { F.ValueBound(s[i + 1..i + 9]); }
  }

  /** The highest byte comes first. */
  lemma {:induction false} FirstByteWeighs(b: seq<Byte>)
    requires b != []
    ensures F.Value(b) == b[0] * F.Pow2(8 * (|b| - 1)) + F.Value(b[1..])
    decreases |b|
  {
    hide F.Pow2;
    if |b| > 1 {
      var front := b[..|b| - 1];
      FirstByteWeighs(front);
      F.EightMore(|b| - 1);
      assert b[1..][..|b| - 2] == front[1..];
      Shifted(b[0], F.Pow2(8 * (|b| - 2)), F.Value(front[1..]));
    } else {
      assert b[..0] == [] && b[1..] == [];
      assert F.Pow2(0) == 1 by { PowNothing(); }
    }
  }

  lemma PowNothing()
    ensures F.Pow2(0) == 1
  {
  }

  lemma Shifted(a: nat, p: nat, v: nat)
    ensures (a * p + v) * 256 == a * (256 * p) + v * 256
  {
  }

  /** Numbers as they are written by lib0: one and a half, a tenth, two to the 31st, infinity. */
  lemma NumberFixtures()
    ensures F.WriteDouble(0x3FF8_0000_0000_0000) == [124, 0x3F, 0xC0, 0, 0]
    ensures F.WriteDouble(0x3FB9_9999_9999_999A) == [123, 0x3F, 0xB9, 0x99, 0x99, 0x99, 0x99, 0x99, 0x9A]
    ensures F.WriteDouble(0x41E0_0000_0000_0000) == [124, 0x4F, 0, 0, 0]
    ensures F.WriteDouble(0x7FF0_0000_0000_0000) == [124, 0x7F, 0x80, 0, 0]
  {
    OneAndAHalf();
    ATenth();
    TwoTo31();
    Infinity();
  }

  lemma OneAndAHalf()
    ensures F.WriteDouble(0x3FF8_0000_0000_0000) == [124, 0x3F, 0xC0, 0, 0]
  {
    hide F.Pow2;
    var x: F.Double := 0x3FF8_0000_0000_0000;
    assert F.Exponent(x) == 1023 && F.Fraction(x) == 0x8_0000_0000_0000;
    F.Pow52();
    assert F.Small(x) == None;
    assert F.Fits32(x) && F.To32(x) == 0x3FC0_0000;
    FourBytes(0x3FC0_0000);
  }

  lemma ATenth()
    ensures F.WriteDouble(0x3FB9_9999_9999_999A) == [123, 0x3F, 0xB9, 0x99, 0x99, 0x99, 0x99, 0x99, 0x9A]
  {
    hide F.BigEndian, F.Small, F.Fits32, F.IsNaN, F.To32;
    var x: F.Double := 0x3FB9_9999_9999_999A;
    ATenthStays(x);
    FourBytes(0x3FB9_9999);
    EightBytes(x, 0x3FB9_9999);
  }

  lemma ATenthStays(x: F.Double)
    requires x == 0x3FB9_9999_9999_999A
    ensures F.Small(x) == None && !F.Fits32(x) && !F.IsNaN(x)
  {
    hide F.Pow2;
    assert F.Exponent(x) == 1019 && F.Fraction(x) == 0x9_9999_9999_999A;
  }

  lemma TwoTo31()
    ensures F.WriteDouble(0x41E0_0000_0000_0000) == [124, 0x4F, 0, 0, 0]
  {
    hide F.Pow2;
    var x: F.Double := 0x41E0_0000_0000_0000;
    assert F.Exponent(x) == 1054 && F.Fraction(x) == 0;
    assert F.Small(x) == None;
    assert F.Fits32(x) && F.To32(x) == 0x4F00_0000;
    FourBytes(0x4F00_0000);
  }

  lemma Infinity()
    ensures F.WriteDouble(0x7FF0_0000_0000_0000) == [124, 0x7F, 0x80, 0, 0]
  {
    hide F.Pow2;
    var x: F.Double := 0x7FF0_0000_0000_0000;
    assert F.Exponent(x) == 2047 && F.Fraction(x) == 0;
    assert F.Small(x) == None;
    assert F.Fits32(x) && F.To32(x) == 0x7F80_0000;
    FourBytes(0x7F80_0000);
  }

  lemma FourBytes(x: nat)
    ensures F.BigEndian(x, 4) == [x / 0x100_0000 % 256, x / 0x1_0000 % 256, x / 256 % 256, x % 256]
  {
    assert x / 256 / 256 == x / 0x1_0000 && x / 0x1_0000 / 256 == x / 0x100_0000;
    assert F.BigEndian(x / 0x100_0000, 1) == [x / 0x100_0000 % 256];
    assert F.BigEndian(x / 0x1_0000, 2) == [x / 0x100_0000 % 256, x / 0x1_0000 % 256];
    assert F.BigEndian(x / 256, 3) == [x / 0x100_0000 % 256, x / 0x1_0000 % 256, x / 256 % 256];
  }

  lemma EightBytes(x: nat, high: nat)
    requires high == x / 0x1_0000_0000
    ensures F.BigEndian(x, 8) ==
            F.BigEndian(high, 4) + [x / 0x100_0000 % 256, x / 0x1_0000 % 256, x / 256 % 256, x % 256]
  {
    assert x / 256 / 256 == x / 0x1_0000 && x / 0x1_0000 / 256 == x / 0x100_0000 && x / 0x100_0000 / 256 == high;
    assert F.BigEndian(x / 0x100_0000, 5) == F.BigEndian(high, 4) + [x / 0x100_0000 % 256];
    assert F.BigEndian(x / 0x1_0000, 6) == F.BigEndian(x / 0x100_0000, 5) + [x / 0x1_0000 % 256];
    assert F.BigEndian(x / 256, 7) == F.BigEndian(x / 0x1_0000, 6) + [x / 256 % 256];
  }

  lemma IntegerTag(s: seq<Byte>, i: nat, n: Int64, depth: nat)
    requires Occurs(s, i, [125] + Int(n)) && depth <= MAX_DEPTH && Abs(n) <= MAX_SAFE
    ensures ReadAny(s, i, depth) == Got(Integer(n), i + 1 + |Int(n)|)
  {
    hide Occurs, Int, ReadInt;
    OccursSplit(s, i, [125], Int(n));
    OccursFirst(s, i, [125]);
    IntReads(s, i + 1, n);
  }

  lemma TextTag(s: seq<Byte>, i: nat, b: seq<Byte>, depth: nat)
    requires depth <= MAX_DEPTH && |b| <= MAX_SAFE
    ensures Occurs(s, i, [119] + Framed(b)) ==> ReadAny(s, i, depth) == Got(Text(b), i + 1 + |Framed(b)|)
    ensures Occurs(s, i, [116] + Framed(b)) ==> ReadAny(s, i, depth) == Got(Buffer(b), i + 1 + |Framed(b)|)
  {
    hide Framed, Occurs, Uint, ReadBytes;
    forall tag: Byte | Occurs(s, i, [tag] + Framed(b))
      ensures i < |s| && s[i] == tag && ReadBytes(s, i + 1) == Got(b, i + 1 + |Framed(b)|)
    {
      OccursSplit(s, i, [tag], Framed(b));
      OccursFirst(s, i, [tag]);
      FramedReads(s, i + 1, b);
    }
  }

  /** An array of two elements: the count, the first, the second. */
  lemma ArrayTag(s: seq<Byte>, i: nat, depth: nat)
    requires Occurs(s, i, [117, 2]) && depth <= MAX_DEPTH && ReadAny(s, i + 2, depth + 1).Got?
    requires ReadAny(s, ReadAny(s, i + 2, depth + 1).next, depth + 1).Got?
    ensures var v := ReadAny(s, i + 2, depth + 1);
            var w := ReadAny(s, v.next, depth + 1);
            ReadAny(s, i, depth) == Got(Array([v.value, w.value]), w.next)
  {
    hide Occurs, ReadUint, ReadAnys;
    TwoIsRead(s, i, 117);
    var v := ReadAny(s, i + 2, depth + 1);
    var w := ReadAny(s, v.next, depth + 1);
    ElementRead(s, v.next, 1, depth + 1);
    ElementRead(s, i + 2, 2, depth + 1);
    assert [v.value] + [w.value] == [v.value, w.value];
  }

  /** An object of two fields: the count, and the key and the value of each. */
  lemma ObjectTag(s: seq<Byte>, i: nat, a: seq<Byte>, b: seq<Byte>, j: nat, depth: nat)
    requires Occurs(s, i, [118, 2]) && Occurs(s, i + 2, Framed(a)) && depth <= MAX_DEPTH && |a| <= MAX_SAFE
    requires ReadAny(s, i + 2 + |Framed(a)|, depth + 1).Got? && ReadAny(s, i + 2 + |Framed(a)|, depth + 1).next == j
    requires Occurs(s, j, Framed(b)) && |b| <= MAX_SAFE && ReadAny(s, j + |Framed(b)|, depth + 1).Got?
    ensures var v, w := ReadAny(s, i + 2 + |Framed(a)|, depth + 1), ReadAny(s, j + |Framed(b)|, depth + 1);
            ReadAny(s, i, depth) == Got(Object([Field(a, v.value), Field(b, w.value)]), w.next)
  {
    hide Occurs, ReadUint, ReadFields, ReadBytes, Framed;
    TwoIsRead(s, i, 118);
    FramedReads(s, i + 2, a);
    FramedReads(s, j, b);
    var v, w := ReadAny(s, i + 2 + |Framed(a)|, depth + 1), ReadAny(s, j + |Framed(b)|, depth + 1);
    FieldRead(s, j, 1, depth + 1, b, j + |Framed(b)|);
    FieldRead(s, i + 2, 2, depth + 1, a, i + 2 + |Framed(a)|);
    assert [Field(a, v.value)] + [Field(b, w.value)] == [Field(a, v.value), Field(b, w.value)];
  }

  lemma TwoIsRead(s: seq<Byte>, i: nat, tag: Byte)
    requires Occurs(s, i, [tag, 2])
    ensures i + 2 <= |s| && s[i] == tag && ReadUint(s, i + 1, 0, 1) == Got(2, i + 2)
  {
    OccursFirst(s, i, [tag, 2]);
    assert Weighed([2]) == 2 && [tag, 2][1..] == [2];
    UintDigits(s, i + 1, [2]);
  }

  /** The first of the elements that are left, and the others. */
  lemma ElementRead(s: seq<Byte>, i: nat, n: nat, depth: nat)
    requires i <= |s| && n > 0 && ReadAny(s, i, depth).Got?
    ensures var v := ReadAny(s, i, depth);
            var rest := ReadAnys(s, v.next, n - 1, depth);
            && (n == 1 ==> ReadAnys(s, i, n, depth) == Got([v.value], v.next))
            && (rest.Got? ==> ReadAnys(s, i, n, depth) == Got([v.value] + rest.value, rest.next))
  {
    hide ReadAny;
    var v := ReadAny(s, i, depth);
    assert [v.value] + [] == [v.value];
  }

  lemma FieldRead(s: seq<Byte>, i: nat, n: nat, depth: nat, key: seq<Byte>, k: nat)
    requires i <= |s| && n > 0 && ReadBytes(s, i) == Got(key, k) && ReadAny(s, k, depth).Got?
    ensures var v := ReadAny(s, k, depth);
            var rest := ReadFields(s, v.next, n - 1, depth);
            && (n == 1 ==> ReadFields(s, i, n, depth) == Got([Field(key, v.value)], v.next))
            && (rest.Got? ==> ReadFields(s, i, n, depth) == Got([Field(key, v.value)] + rest.value, rest.next))
  {
    hide ReadAny, ReadBytes;
    var v := ReadAny(s, k, depth);
    assert [Field(key, v.value)] + [] == [Field(key, v.value)];
  }

  // ---------------------------------------------------------------- contents

  /** The refs of contents. */
  lemma ContentRefs(s: seq<Byte>, i: nat, ref: nat)
    ensures var r := ReadContent(s, i, ref);
            r.Got? ==>
              && 1 <= ref <= 9 && (ref == 1 <==> r.value.ContentDeleted?) && (ref == 2 <==> r.value.ContentJSON?)
              && (ref == 3 <==> r.value.ContentBinary?) && (ref == 4 <==> r.value.ContentString?)
              && (ref == 5 <==> r.value.ContentEmbed?) && (ref == 6 <==> r.value.ContentFormat?)
              && (ref == 7 <==> r.value.ContentType?) && (ref == 8 <==> r.value.ContentAny?)
              && (ref == 9 <==> r.value.ContentDoc?)
  {
    hide ReadUint, ReadBytes, ReadAny, ReadListed;
  }

  /** A length and that many bytes: binary data, a text, an embedded value. */
  lemma FramedContents(s: seq<Byte>, i: nat, b: seq<Byte>)
    requires Occurs(s, i, Framed(b)) && |b| <= MAX_SAFE
    ensures var next := i + |Framed(b)|;
            && ReadContent(s, i, 3) == Got(ContentBinary(b), next)
            && ReadContent(s, i, 4) == Got(ContentString(b), next)
            && ReadContent(s, i, 5) == Got(ContentEmbed(b), next)
  {
    hide Framed, Occurs, Uint, ReadBytes;
    FramedReads(s, i, b);
  }

  /** A format is a key and then a value. */
  lemma FormatContent(s: seq<Byte>, i: nat, key: seq<Byte>, value: seq<Byte>)
    requires Occurs(s, i, Framed(key) + Framed(value)) && |key| <= MAX_SAFE && |value| <= MAX_SAFE
    ensures ReadContent(s, i, 6) == Got(ContentFormat(key, value), i + |Framed(key)| + |Framed(value)|)
  {
    hide Framed, Occurs, Uint, ReadBytes;
    var k, v := Framed(key), Framed(value);
    OccursSplit(s, i, k, v);
    FramedReads(s, i, key);
    FramedReads(s, i + |k|, value);
  }

  /** A type is its ref; an element and a hook have a name. */
  lemma TypeContent(s: seq<Byte>, i: nat, ref: nat, name: seq<Byte>)
    requires ref <= 6 && |name| <= MAX_SAFE
    ensures (ref == 3 || ref == 5) && Occurs(s, i, [ref] + Framed(name)) ==>
              ReadContent(s, i, 7) == Got(ContentType(ref, name), i + 1 + |Framed(name)|)
    ensures ref != 3 && ref != 5 && Occurs(s, i, [ref]) ==> ReadContent(s, i, 7) == Got(ContentType(ref, []), i + 1)
  {
    hide Framed, Occurs, ReadBytes, ReadUint;
    if (ref == 3 || ref == 5) && Occurs(s, i, [ref] + Framed(name)) {
      OccursSplit(s, i, [ref], Framed(name));
      UintReads(s, i, ref);
      FramedReads(s, i + 1, name);
    }
    if Occurs(s, i, [ref]) { UintReads(s, i, ref); }
  }

  lemma DeletedContent(s: seq<Byte>, i: nat, n: nat)
    requires Occurs(s, i, Uint(n)) && n <= MAX_LEN
    ensures ReadContent(s, i, 1) == Got(ContentDeleted(n), i + |Uint(n)|)
  {
    UintReads(s, i, n);
  }

  // ---------------------------------------------------------------- updates

  /** The update is written as these bytes, and these bytes are read as the update. */
  ghost predicate OnWire(u: Update, s: seq<Byte>) {
    EncUpdate(u) == s && Decode(s) == Got(u, |s|)
  }

  ghost function Name(id: ID): seq<Byte> {
    Uint(id.client) + Uint(id.clock)
  }

  lemma SettledIsOnWire(u: Update, s: seq<Byte>)
    requires Encodable(u) && Canonical(u) == u && EncUpdate(u) == s
    ensures OnWire(u, s)
  {
    hide EncUpdate, Encodable, Canonical, Decode;
    RoundTrip(u);
  }

  lemma EncOne<T>(x: T, enc: T -> seq<Byte>)
    ensures EncAll([x], enc) == enc(x) && EncCounted([x], enc) == [1] + enc(x)
  {
    assert EncAll([x][1..], enc) == [] && Uint(1) == [1];
  }

  lemma EncNone<T>(enc: T -> seq<Byte>)
    ensures EncCounted([], enc) == [0]
  {
    assert Uint(0) == [0];
  }

  lemma EncTwo<T>(x: T, y: T, enc: T -> seq<Byte>)
    ensures EncAll([x, y], enc) == enc(x) + enc(y) && EncCounted([x, y], enc) == [2] + (enc(x) + enc(y))
  {
    assert [x, y][1..] == [y] && Uint(2) == [2];
    EncOne(y, enc);
  }

  /** One block by itself: the counts of blocks and of structs, the client, its clock, the structs, and
      no deletions. */
  lemma OneBlock(client: nat, clock: nat, ts: seq<Struct>, e: seq<Byte>)
    requires EncAll(ts, EncStruct) == e && client <= MAX_SAFE && clock <= MAX_SAFE && |ts| < 128
    requires forall t <- ts :: GoodStruct(t) && CanonStruct(t) == t
    ensures OnWire(Update([Block(client, clock, ts)], map[]),
                   [1] + ([|ts|] + (Uint(client) + (Uint(clock) + e))) + [0])
  {
    hide EncStruct, GoodStruct, CanonStruct, Uint, OnWire;
    var b := Block(client, clock, ts);
    var u := Update([b], map[]);
    assert Uint(|ts|) == [|ts|] by { OneByte(|ts|); }
    EncOne(b, EncBlock);
    assert Listing(map[]) == [];
    EncNone(EncDeletions);
    assert Ordered([b]) == [b];
    assert CanonBlock(b) == b;
    assert Canonical(u) == u;
    SettledIsOnWire(u, [1] + ([|ts|] + (Uint(client) + (Uint(clock) + e))) + [0]);
  }

  lemma OneStruct(client: nat, clock: nat, t: Struct, e: seq<Byte>)
    requires EncStruct(t) == e && GoodStruct(t) && CanonStruct(t) == t && client <= MAX_SAFE && clock <= MAX_SAFE
    ensures OnWire(Update([Block(client, clock, [t])], map[]), [1] + ([1] + (Uint(client) + (Uint(clock) + e))) + [0])
  {
    hide EncStruct, GoodStruct, CanonStruct, Uint, OnWire;
    EncOne(t, EncStruct);
    OneBlock(client, clock, [t], e);
  }

  lemma OneByte(n: nat)
    requires n < 128
    ensures Uint(n) == [n]
  {
  }

  lemma TextStays(text: seq<Byte>)
    ensures CanonContent(ContentAny([Text(text)])) == ContentAny([Text(text)])
  {
    assert Each([Text(text)], Canon)[0] == Canon(Text(text));
    assert Each([Text(text)], Canon) == [Text(text)];
  }

  /** The parts of an item, one after the other. */
  lemma ItemParts(t: Struct, o: seq<Byte>, r: seq<Byte>, p: seq<Byte>, c: seq<Byte>)
    requires t.Item? && EncOption(t.origin) == o && EncOption(t.right) == r
    requires EncPlace(t) == p && EncContent(t.content) == c
    ensures EncStruct(t) == [Info(t)] + (o + (r + (p + c)))
  {
  }

  lemma RootPlace(t: Struct)
    requires t.Item? && t.origin == None && t.right == None && t.parent.Some? && t.parent.value.Named? && !t.hasSub
    ensures EncPlace(t) == [1] + Framed(t.parent.value.name)
  {
    OneByte(0);
    OneByte(1);
  }

  lemma IsFramed(b: seq<Byte>)
    ensures Bytes(b) == Framed(b)
  {
  }

  /** A text typed into the root type `name`. */
  lemma TextInRoot(client: nat, clock: nat, name: seq<Byte>, text: seq<Byte>)
    requires client <= MAX_SAFE && clock <= MAX_SAFE && |name| <= MAX_SAFE && |text| <= MAX_SAFE
    ensures var t := Item(None, None, false, Some(Named(name)), [], ContentString(text));
            OnWire(Update([Block(client, clock, [t])], map[]),
                   [1] + ([1] + (Uint(client) + (Uint(clock) + ([4, 1] + Framed(name) + Framed(text))))) + [0])
  {
    hide OnWire, Uint, EncStruct, Framed;
    var t := Item(None, None, false, Some(Named(name)), [], ContentString(text));
    assert EncPlace(t) == [1] + Framed(name) by { RootPlace(t); }
    assert EncContent(t.content) == Framed(text) by { IsFramed(text); }
    ItemParts(t, [], [], [1] + Framed(name), Framed(text));
    assert [4] + ([] + ([] + ([1] + Framed(name) + Framed(text)))) == [4, 1] + Framed(name) + Framed(text);
    OneStruct(client, clock, t, [4, 1] + Framed(name) + Framed(text));
  }

  /** A text typed between two units: the one to the left comes first. */
  lemma TextBetween(client: nat, clock: nat, left: ID, right: ID, text: seq<Byte>)
    requires client <= MAX_SAFE && clock <= MAX_SAFE && |text| <= MAX_SAFE && GoodID(left) && GoodID(right)
    ensures var t := Item(Some(left), Some(right), false, None, [], ContentString(text));
            var e := [0xC4] + Name(left) + Name(right) + Framed(text);
            OnWire(Update([Block(client, clock, [t])], map[]),
                   [1] + ([1] + (Uint(client) + (Uint(clock) + e))) + [0])
  {
    hide OnWire, Uint;
    var t := Item(Some(left), Some(right), false, None, [], ContentString(text));
    assert EncStruct(t) == [0xC4] + Name(left) + Name(right) + Framed(text);
    OneStruct(client, clock, t, [0xC4] + Name(left) + Name(right) + Framed(text));
  }

  lemma Joined(a: seq<Byte>, b: seq<Byte>, c: seq<Byte>)
    ensures [0x28] + ([] + ([] + ([0] + a + b + ([1, 119] + c)))) == [0x28, 0] + a + b + [1, 119] + c
  {
  }

  lemma TextValue(text: seq<Byte>)
    ensures EncContent(ContentAny([Text(text)])) == [1, 119] + Framed(text)
  {
    hide Uint;
    EncOne(Text(text), EncAny);
  }

  lemma NestedPlace(t: Struct)
    requires t.Item? && t.origin == None && t.right == None && t.parent.Some? && t.parent.value.Owned? && t.hasSub
    ensures EncPlace(t) == [0] + Name(t.parent.value.item) + Framed(t.sub)
  {
    hide Uint;
    OneByte(0);
  }

  /** A value written to a key of a nested type: the item the type is in, the key, the value. */
  lemma ValueUnderKey(client: nat, clock: nat, owner: ID, key: seq<Byte>, text: seq<Byte>)
    requires client <= MAX_SAFE && clock <= MAX_SAFE && |key| <= MAX_SAFE && |text| <= MAX_SAFE && GoodID(owner)
    ensures var t := Item(None, None, true, Some(Owned(owner)), key, ContentAny([Text(text)]));
            var e := [0x28, 0] + Name(owner) + Framed(key) + [1, 119] + Framed(text);
            OnWire(Update([Block(client, clock, [t])], map[]),
                   [1] + ([1] + (Uint(client) + (Uint(clock) + e))) + [0])
  {
    hide OnWire, Uint, EncStruct, Framed, Name, EncCounted;
    var t := Item(None, None, true, Some(Owned(owner)), key, ContentAny([Text(text)]));
    var e := [0x28, 0] + Name(owner) + Framed(key) + [1, 119] + Framed(text);
    assert EncContent(t.content) == [1, 119] + Framed(text) by { TextValue(text); }
    TextStays(text);
    assert EncPlace(t) == [0] + Name(owner) + Framed(key) by { NestedPlace(t); }
    ItemParts(t, [], [], [0] + Name(owner) + Framed(key), [1, 119] + Framed(text));
    Joined(Name(owner), Framed(key), Framed(text));
    OneStruct(client, clock, t, e);
  }

  /** The value that replaces it: the flag of the key stays, the key itself is not repeated. */
  lemma ValueAfterValue(client: nat, clock: nat, left: ID, text: seq<Byte>)
    requires client <= MAX_SAFE && clock <= MAX_SAFE && |text| <= MAX_SAFE && GoodID(left)
    ensures var t := Item(Some(left), None, true, None, [], ContentAny([Text(text)]));
            var e := [0xA8] + Name(left) + [1, 119] + Framed(text);
            OnWire(Update([Block(client, clock, [t])], map[]),
                   [1] + ([1] + (Uint(client) + (Uint(clock) + e))) + [0])
  {
    hide OnWire, Uint;
    var t := Item(Some(left), None, true, None, [], ContentAny([Text(text)]));
    var e := [0xA8] + Name(left) + [1, 119] + Framed(text);
    TextValue(text);
    TextStays(text);
    assert EncStruct(t) == e;
    OneStruct(client, clock, t, e);
  }

  /** Collected clocks, and skipped ones after them. */
  lemma NoContent(client: nat, clock: nat, gone: nat, skipped: nat)
    requires client <= MAX_SAFE && clock <= MAX_SAFE && gone <= MAX_LEN && skipped <= MAX_LEN
    ensures var e := [0] + Uint(gone) + [10] + Uint(skipped);
            OnWire(Update([Block(client, clock, [GC(gone), Skip(skipped)])], map[]),
                   [1] + ([2] + (Uint(client) + (Uint(clock) + e))) + [0])
  {
    hide OnWire, Uint;
    var e := [0] + Uint(gone) + [10] + Uint(skipped);
    EncTwo(GC(gone), Skip(skipped), EncStruct);
    OneBlock(client, clock, [GC(gone), Skip(skipped)], e);
  }

  /** Deletions: the count of clients, the client, the count of its ranges, and of each where it starts
      and how long it is. */
  lemma TwoDeletions(client: nat, r: Range, q: Range)
    requires client <= MAX_SAFE && GoodRange(r) && GoodRange(q)
    ensures var e := Uint(r.clock) + Uint(r.len) + (Uint(q.clock) + Uint(q.len));
            OnWire(Update([], map[client := [r, q]]), [0] + ([1] + (Uint(client) + ([2] + e))))
  {
    hide OnWire, Uint;
    EncTwo(r, q, EncRange);
    OneClient(client, [r, q], [2] + (Uint(r.clock) + Uint(r.len) + (Uint(q.clock) + Uint(q.len))));
  }

  lemma OneDeletion(client: nat, r: Range)
    requires client <= MAX_SAFE && GoodRange(r)
    ensures OnWire(Update([], map[client := [r]]), [0] + ([1] + (Uint(client) + ([1] + (Uint(r.clock) + Uint(r.len))))))
  {
    hide OnWire, Uint;
    EncOne(r, EncRange);
    OneClient(client, [r], [1] + (Uint(r.clock) + Uint(r.len)));
  }

  lemma OneClient(client: nat, rs: seq<Range>, e: seq<Byte>)
    requires client <= MAX_SAFE && |rs| <= MAX_SAFE && (forall r <- rs :: GoodRange(r)) && EncCounted(rs, EncRange) == e
    ensures OnWire(Update([], map[client := rs]), [0] + ([1] + (Uint(client) + e)))
  {
    hide OnWire, Uint, EncRange;
    var m, d := map[client := rs], Deletions(client, rs);
    EncNone(EncBlock);
    assert client in m.Keys;
    HasLargest(m.Keys);
    assert m - {client} == map[];
    assert Listing(m) == [d];
    EncOne(d, EncDeletions);
    assert Ordered([]) == [];
    assert Canonical(Update([], m)) == Update([], m);
    SettledIsOnWire(Update([], m), [0] + ([1] + (Uint(client) + e)));
  }

  /** The clients of a delete set come highest first. */
  lemma {:induction false} ListingDescends(m: map<nat, seq<Range>>)
    ensures forall i, j | 0 <= i < j < |Listing(m)| :: Listing(m)[i].client > Listing(m)[j].client
    decreases |m|
  {
    if m != map[] {
      HasLargest(m.Keys);
      var ds := Listing(m);
      var c := ds[0].client;
      Smaller(m, c);
      ListingDescends(m - {c});
      ListingIsAll(m - {c});
      assert ds == [Deletions(c, m[c])] + Listing(m - {c});
      forall d <- Listing(m - {c})
        ensures d.client < c
      {
      }
    }
  }

  /** A client that is named twice keeps what came last. */
  lemma {:induction false} LastWins(m: map<nat, seq<Range>>, ds: seq<Deletions>, d: Deletions)
    ensures Collect(m, ds + [d]) == Collect(m, ds)[d.client := d.ranges]
    decreases |ds|
  {
    if ds == [] {
      assert ds + [d] == [d] && [d][1..] == [];
    } else {
      assert (ds + [d])[0] == ds[0] && (ds + [d])[1..] == ds[1..] + [d];
      LastWins(m[ds[0].client := ds[0].ranges], ds[1..], d);
    }
  }

  /** The whole input is one update. */
  lemma NothingFollows(s: seq<Byte>, u: Update, more: seq<Byte>)
    ensures Decode(s).Got? ==> Decode(s).next >= |s|
    ensures Encodable(u) && more != [] ==> Decode(EncUpdate(u) + more) == Failed(Corrupt)
  {
    hide ReadUpdate, EncUpdate, Encodable, Canonical;
    if Encodable(u) && more != [] {
      var e := EncUpdate(u);
      UpdateReads(e + more, u);
    }
  }

  lemma UpdateReads(s: seq<Byte>, u: Update)
    requires Encodable(u) && EncUpdate(u) <= s
    ensures ReadUpdate(s, 0) == Got(Canonical(u), |EncUpdate(u)|)
  {
    hide Occurs, EncCounted, ReadCounted, GoodBlock, GoodDeletions, Listing, Ordered, Collect, Each;
    var a, b := EncCounted(Ordered(u.blocks), EncBlock), EncCounted(Listing(u.deletes), EncDeletions);
    assert Occurs(s, 0, a + b) by { PrefixOccurs(s, a + b); }
    OccursSplit(s, 0, a, b);
    BlocksRead(s, 0, u.blocks);
    DeletesRead(s, |a|, u.deletes);
  }

  lemma PrefixOccurs(s: seq<Byte>, e: seq<Byte>)
    requires e <= s
    ensures Occurs(s, 0, e)
  {
  }

  /** Collected and skipped clocks have no flags, and a list is named or owned. */
  lemma Refused(s: seq<Byte>, i: nat)
    requires i < |s|
    ensures (s[i] % 32 == 0 || s[i] % 32 == 10) && s[i] >= 32 ==> ReadStruct(s, i) == Failed(Corrupt)
    ensures 1 < s[i] < 128 ==> ReadParent(s, i) == Failed(Corrupt)
  {
    if s[i] < 128 {
      assert Weighed([s[i]]) == s[i];
      UintDigits(s, i, [s[i]]);
    }
  }

  // ---------------------------------------------------------------- fixtures

  /** text-insert-single, update-000: client 1001 types "Hello" into the root type "text". */
  lemma Hello()
    ensures var text, hello := [116, 101, 120, 116], [72, 101, 108, 108, 111];
            var t := Item(None, None, false, Some(Named(text)), [], ContentString(hello));
            OnWire(Update([Block(1001, 0, [t])], map[]),
                   [1, 1, 233, 7, 0, 4, 1, 4] + text + [5] + hello + [0])
  {
    hide OnWire, Uint, Framed;
    var text: seq<Byte>, hello: seq<Byte> := [116, 101, 120, 116], [72, 101, 108, 108, 111];
    Client1001();
    OneByte(0);
    TextInRoot(1001, 0, text, hello);
    ShortFrame(text);
    ShortFrame(hello);
    HelloBytes(text, hello);
  }

  lemma ShortFrame(b: seq<Byte>)
    requires |b| < 128
    ensures Framed(b) == [|b|] + b
  {
  }

  lemma HelloBytes(a: seq<Byte>, b: seq<Byte>)
    ensures [1, 1, 233, 7, 0, 4, 1, 4] + a + [5] + b + [0] ==
            [1] + ([1] + ([233, 7] + ([0] + ([4, 1] + ([4] + a) + ([5] + b))))) + [0]
  {
  }

  /** text-delete, update-001: units 5 to 10 of client 1001 are deleted. */
  lemma WorldIsGone()
    ensures OnWire(Update([], map[1001 := [Range(5, 6)]]), [0, 1, 233, 7, 1, 5, 6])
  {
    hide OnWire, Uint;
    Client1001();
    OneByte(5);
    OneByte(6);
    OneDeletion(1001, Range(5, 6));
    assert [0] + ([1] + ([233, 7] + ([1] + ([5] + [6])))) == [0, 1, 233, 7, 1, 5, 6];
  }

  lemma Client1001()
    ensures Uint(1001) == [233, 7]
  {
    assert Uint(7) == [7];
  }
}
