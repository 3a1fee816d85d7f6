/**
  lib0 "any" values (internal/crdt/lib0/any.go).

  A number may come in a longer form than the one it is written in; what is read back of it is then
  another value for the same number (`Canon`).
*/
module Anys {
  import opened Varints
  import F = Floats

  datatype Any =
    | Undefined
    | Null
    | Integer(value: Int64)
    | Float32(single: seq<Byte>)
    | Float64(double: F.Double)
    | BigInt(bits: seq<Byte>)
    | Bool(truth: bool)
    | Text(text: seq<Byte>)
    | Buffer(data: seq<Byte>)
    | Array(elems: seq<Any>)
    | Object(fields: seq<Field>)

  datatype Field = Field(key: seq<Byte>, value: Any)

  const MAX_DEPTH := 128

  function AsAny(n: F.Number): Any {
    match n
    case Integer(value) => Integer(value)
    case Float32(bits) => Float32(bits)
    case Float64(double) => Float64(double)
  }

  function EncAny(v: Any): (e: seq<Byte>)
    ensures e != []
  {
    match v
    case Undefined => [127]
    case Null => [126]
    case Integer(i) => F.WriteNumber(F.Integer(i))
    case Float32(single) => F.WriteNumber(F.Float32(single))
    case Float64(double) => F.WriteNumber(F.Float64(double))
    case BigInt(bits) => [122] + bits
    case Bool(truth) => if truth then [120] else [121]
    case Text(text) => [119] + Bytes(text)
    case Object(fields) => [118] + Uint(|fields|) + EncFields(fields)
    case Array(elems) => [117] + Uint(|elems|) + EncAnys(elems)
    case Buffer(data) => [116] + Bytes(data)
  }

  function EncAnys(vs: seq<Any>): (e: seq<Byte>)
    ensures |e| >= |vs|
  {
    if vs == [] then [] else EncAny(vs[0]) + EncAnys(vs[1..])
  }

  function EncFields(fs: seq<Field>): (e: seq<Byte>)
    ensures |e| >= |fs|
  {
    if fs == [] then [] else Bytes(fs[0].key) + EncAny(fs[0].value) + EncFields(fs[1..])
  }

  /** What can be written and read back, at this depth of nesting. */
  ghost predicate Good(v: Any, depth: nat) {
    && depth <= MAX_DEPTH
    && match v
       case Float32(single) => |single| == 4
       case BigInt(bits) => |bits| == 8
       case Text(text) => |text| <= MAX_SAFE
       case Buffer(data) => |data| <= MAX_SAFE
       case Array(elems) => |elems| <= MAX_SAFE && forall x <- elems :: Good(x, depth + 1)
       case Object(fields) =>
         |fields| <= MAX_SAFE && forall f <- fields :: |f.key| <= MAX_SAFE && Good(f.value, depth + 1)
       case _ => true
  }

  function ReadAny(s: seq<Byte>, i: nat, depth: nat): (r: Read<Any>)
    ensures r.Got? ==> i < r.next <= |s|
    decreases MAX_DEPTH + 1 - depth, 0
  {
    if depth > MAX_DEPTH then Failed(DepthExceeded)
    else if i >= |s| then Failed(UnexpectedEOF)
    else match s[i]
      case 127 => Got(Undefined, i + 1)
      case 126 => Got(Null, i + 1)
      case 125 =>
        var r := ReadInt(s, i + 1);
        if r.Failed? then Failed(r.error) else Got(Integer(r.value), r.next)
      case 124 => if |s| - (i + 1) < 4 then Failed(UnexpectedEOF) else Got(Float32(s[i + 1..i + 5]), i + 5)
      case 123 =>
        if |s| - (i + 1) < 8 then Failed(UnexpectedEOF)
        else
          F.ValueBound(s[i + 1..i + 9]);
          Got(Float64(F.Value(s[i + 1..i + 9])), i + 9)
      case 122 => if |s| - (i + 1) < 8 then Failed(UnexpectedEOF) else Got(BigInt(s[i + 1..i + 9]), i + 9)
      case 121 => Got(Bool(false), i + 1)
      case 120 => Got(Bool(true), i + 1)
      case 119 =>
        var r := ReadBytes(s, i + 1);
        if r.Failed? then Failed(r.error) else Got(Text(r.value), r.next)
      case 118 =>
        var n := ReadUint(s, i + 1, 0, 1);
        if n.Failed? then Failed(n.error) else if n.value > |s| - n.next then Failed(UnexpectedEOF)
        else
          var r := ReadFields(s, n.next, n.value, depth + 1);
          if r.Failed? then Failed(r.error) else Got(Object(r.value), r.next)
      case 117 =>
        var n := ReadUint(s, i + 1, 0, 1);
        if n.Failed? then Failed(n.error) else if n.value > |s| - n.next then Failed(UnexpectedEOF)
        else
          var r := ReadAnys(s, n.next, n.value, depth + 1);
          if r.Failed? then Failed(r.error) else Got(Array(r.value), r.next)
      case 116 =>
        var r := ReadBytes(s, i + 1);
        if r.Failed? then Failed(r.error) else Got(Buffer(r.value), r.next)
      case _ => Failed(UnknownAnyTag)
  }

  function ReadAnys(s: seq<Byte>, i: nat, n: nat, depth: nat): (r: Read<seq<Any>>)
    requires i <= |s|
    ensures r.Got? ==> i <= r.next <= |s| && |r.value| == n
    decreases MAX_DEPTH + 1 - depth, n + 1
  {
    if n == 0 then Got([], i)
    else
      var v := ReadAny(s, i, depth);
      if v.Failed? then Failed(v.error)
      else
        var rest := ReadAnys(s, v.next, n - 1, depth);
        if rest.Failed? then Failed(rest.error) else Got([v.value] + rest.value, rest.next)
  }

  function ReadFields(s: seq<Byte>, i: nat, n: nat, depth: nat): (r: Read<seq<Field>>)
    requires i <= |s|
    ensures r.Got? ==> i <= r.next <= |s| && |r.value| == n
    decreases MAX_DEPTH + 1 - depth, n + 1
  {
    if n == 0 then Got([], i)
    else
      var k := ReadBytes(s, i);
      if k.Failed? then Failed(k.error)
      else
        var v := ReadAny(s, k.next, depth);
        if v.Failed? then Failed(v.error)
        else
          var rest := ReadFields(s, v.next, n - 1, depth);
          if rest.Failed? then Failed(rest.error) else Got([Field(k.value, v.value)] + rest.value, rest.next)
  }

  // ---------------------------------------------------------------- numbers

  /** What a written value is read back as: its numbers in the shortest form. */
  function Canon(v: Any): Any {
    match v
    case Integer(i) => AsAny(F.Shortest(F.FromInt(i)))
    case Float64(double) => AsAny(F.Shortest(double))
    case Array(elems) => Array(CanonAnys(elems))
    case Object(fields) => Object(CanonFields(fields))
    case _ => v
  }

  function CanonAnys(vs: seq<Any>): (cs: seq<Any>)
    ensures |cs| == |vs|
  {
    if vs == [] then [] else [Canon(vs[0])] + CanonAnys(vs[1..])
  }

  function CanonFields(fs: seq<Field>): (cs: seq<Field>)
    ensures |cs| == |fs|
  {
    if fs == [] then [] else [Field(fs[0].key, Canon(fs[0].value))] + CanonFields(fs[1..])
  }

  /** There is no negative zero in the value. */
  ghost predicate Signless(v: Any) {
    match v
    case Float64(double) => double != F.P63
    case Array(elems) => forall x <- elems :: Signless(x)
    case Object(fields) => forall f <- fields :: Signless(f.value)
    case _ => true
  }

  /** What the decoder makes of a written double. */
  lemma NumberReads(s: seq<Byte>, i: nat, x: F.Double, depth: nat)
    requires Occurs(s, i, F.WriteDouble(x)) && depth <= MAX_DEPTH
    ensures ReadAny(s, i, depth) == Got(AsAny(F.Shortest(x)), i + |F.WriteDouble(x)|)
  {
    hide Occurs, Uint, ReadUint, Bytes, ReadBytes, Int, ReadInt, ReadAnys, ReadFields, F.BigEndian, F.Value, F.Small,
      F.Fits32, F.To32;
    var e := F.WriteDouble(x);
    OccursFirst(s, i, e);
    if F.Small(x).Some? {
      F.SmallIsSmall(x);
      if F.Small(x).value == 0 && F.Negative(x) {
        assert e[1..] == [0x40];
        MinusZeroReads(s, i + 1);
      } else {
        assert e[1..] == Int(F.Small(x).value);
        IntReads(s, i + 1, F.Small(x).value);
      }
    } else if F.Fits32(x) {
      assert e[1..] == F.BigEndian(F.To32(x), 4);
      OccursIs(s, i + 1, e[1..]);
    } else {
      var y: F.Double := if F.IsNaN(x) then F.NAN else x;
      assert e[1..] == F.BigEndian(y, 8);
      OccursIs(s, i + 1, e[1..]);
      F.DoubleBytes(y);
    }
  }

  lemma MinusZeroReads(s: seq<Byte>, i: nat)
    requires Occurs(s, i, [0x40])
    ensures ReadInt(s, i) == Got(0, i + 1)
  {
    OccursFirst(s, i, [0x40]);
  }

  /** A double written is read back as the same number in the shortest form; negative zero is read
      back as the integer zero. */
  lemma DoubleReads(x: F.Double)
    ensures ReadAny(F.WriteDouble(x), 0, 0) == Got(AsAny(F.Shortest(x)), |F.WriteDouble(x)|)
    ensures F.WriteDouble(F.P63) == [125, 0x40] && ReadAny([125, 0x40], 0, 0) == Got(Integer(0), 2)
  {
    hide F.WriteDouble, ReadAny, F.Shortest;
    forall y: F.Double
      ensures ReadAny(F.WriteDouble(y), 0, 0) == Got(AsAny(F.Shortest(y)), |F.WriteDouble(y)|)
    {
      NumberReads(F.WriteDouble(y), 0, y, 0);
    }
    F.MinusZero();
    assert ReadAny(F.WriteDouble(F.P63), 0, 0) == Got(AsAny(F.Shortest(F.P63)), 2);
  }

  /** Writing what was read back gives as many bytes, and the same ones if and only if there is no
      negative zero. */
  lemma {:induction false} CanonWrites(v: Any)
    ensures |EncAny(Canon(v))| == |EncAny(v)| && (EncAny(Canon(v)) == EncAny(v) <==> Signless(v))
    decreases v, 1
  {
    hide F.WriteDouble, F.Shortest, F.FromInt, EncAnys, EncFields, CanonAnys, CanonFields, Uint, Bytes;
    match v
    case Integer(i) =>
      F.NumberFixedPoint(F.FromInt(i));
      F.FromIntSign(i);
    case Float64(double) => F.NumberFixedPoint(double);
    case Array(elems) =>
      CanonAnysWrite(elems);
      SamePrefix([117] + Uint(|elems|), EncAnys(elems), EncAnys(CanonAnys(elems)));
    case Object(fields) =>
      CanonFieldsWrite(fields);
      SamePrefix([118] + Uint(|fields|), EncFields(fields), EncFields(CanonFields(fields)));
    case _ =>
  }

  lemma SamePrefix(a: seq<Byte>, b: seq<Byte>, c: seq<Byte>)
    ensures a + b == a + c <==> b == c
  {
    if a + b == a + c { assert (a + b)[|a|..] == b && (a + c)[|a|..] == c; }
  }

  lemma SameParts(a: seq<Byte>, b: seq<Byte>, c: seq<Byte>, d: seq<Byte>)
    requires |a| == |c|
    ensures a + b == c + d <==> a == c && b == d
  {
    if a + b == c + d {
      assert (a + b)[..|a|] == a && (c + d)[..|c|] == c;
      assert (a + b)[|a|..] == b && (c + d)[|c|..] == d;
    }
  }

  lemma {:induction false} CanonAnysWrite(vs: seq<Any>)
    ensures |EncAnys(CanonAnys(vs))| == |EncAnys(vs)|
    ensures EncAnys(CanonAnys(vs)) == EncAnys(vs) <==> forall x <- vs :: Signless(x)
    decreases vs
  {
    hide EncAny, Canon, Signless;
    if vs != [] {
      CanonWrites(vs[0]);
      CanonAnysWrite(vs[1..]);
      assert CanonAnys(vs)[1..] == CanonAnys(vs[1..]);
      SameParts(EncAny(Canon(vs[0])), EncAnys(CanonAnys(vs[1..])), EncAny(vs[0]), EncAnys(vs[1..]));
      assert vs == [vs[0]] + vs[1..];
    }
  }

  lemma {:induction false} CanonFieldsWrite(fs: seq<Field>)
    ensures |EncFields(CanonFields(fs))| == |EncFields(fs)|
    ensures EncFields(CanonFields(fs)) == EncFields(fs) <==> forall f <- fs :: Signless(f.value)
    decreases fs
  {
    hide EncAny, Canon, Signless, Bytes;
    if fs != [] {
      var f := fs[0];
      CanonWrites(f.value);
      CanonFieldsWrite(fs[1..]);
      assert CanonFields(fs)[1..] == CanonFields(fs[1..]);
      SamePrefix(Bytes(f.key), EncAny(Canon(f.value)), EncAny(f.value));
      SameParts(Bytes(f.key) + EncAny(Canon(f.value)), EncFields(CanonFields(fs[1..])),
                Bytes(f.key) + EncAny(f.value), EncFields(fs[1..]));
      assert fs == [f] + fs[1..];
    }
  }

  /** Once read back, a value is read back as it is. */
  lemma {:induction false} CanonTwice(v: Any)
    ensures Canon(Canon(v)) == Canon(v)
    decreases v, 1
  {
    hide F.Shortest, F.FromInt, CanonAnys, CanonFields;
    match v
    case Integer(i) => F.ShortestIsShort(F.FromInt(i));
    case Float64(double) => F.ShortestIsShort(double);
    case Array(elems) => CanonAnysTwice(elems);
    case Object(fields) => CanonFieldsTwice(fields);
    case _ =>
  }

  lemma {:induction false} CanonAnysTwice(vs: seq<Any>)
    ensures CanonAnys(CanonAnys(vs)) == CanonAnys(vs)
    decreases vs
  {
    hide Canon;
    if vs != [] {
      CanonTwice(vs[0]);
      CanonAnysTwice(vs[1..]);
      assert CanonAnys(vs)[1..] == CanonAnys(vs[1..]);
    }
  }

  lemma {:induction false} CanonFieldsTwice(fs: seq<Field>)
    ensures CanonFields(CanonFields(fs)) == CanonFields(fs)
    decreases fs
  {
    hide Canon;
    if fs != [] {
      CanonTwice(fs[0].value);
      CanonFieldsTwice(fs[1..]);
      assert CanonFields(fs)[1..] == CanonFields(fs[1..]);
    }
  }

  lemma {:induction false} CanonGood(v: Any, depth: nat)
    requires Good(v, depth)
    ensures Good(Canon(v), depth)
    decreases v, 1
  {
    hide F.Shortest, F.FromInt, CanonAnys, CanonFields;
    match v
    case Integer(i) => F.ShortestIsShort(F.FromInt(i));
    case Float64(double) => F.ShortestIsShort(double);
    case Array(elems) => CanonAnysGood(elems, depth + 1);
    case Object(fields) => CanonFieldsGood(fields, depth + 1);
    case _ =>
  }

  lemma {:induction false} CanonAnysGood(vs: seq<Any>, depth: nat)
    requires forall x <- vs :: Good(x, depth)
    ensures forall x <- CanonAnys(vs) :: Good(x, depth)
    decreases vs
  {
    hide Canon, Good;
    if vs != [] {
      CanonGood(vs[0], depth);
      CanonAnysGood(vs[1..], depth);
    }
  }

  lemma {:induction false} CanonFieldsGood(fs: seq<Field>, depth: nat)
    requires forall f <- fs :: |f.key| <= MAX_SAFE && Good(f.value, depth)
    ensures forall f <- CanonFields(fs) :: |f.key| <= MAX_SAFE && Good(f.value, depth)
    decreases fs
  {
    hide Canon, Good;
    if fs != [] {
      assert fs[0] in fs;
      CanonGood(fs[0].value, depth);
      CanonFieldsGood(fs[1..], depth);
    }
  }

  // ---------------------------------------------------------------- reading back

  /** Reading what was written gives the value back, its numbers in the shortest form, whatever
      follows. */
  lemma {:induction false} AnyReads(s: seq<Byte>, i: nat, v: Any, depth: nat)
    requires Occurs(s, i, EncAny(v)) && Good(v, depth)
    ensures ReadAny(s, i, depth) == Got(Canon(v), i + |EncAny(v)|)
    decreases v, 1
  {
    hide ReadAny, EncAny, Good, Occurs, Canon;
    if v.Array? {
      ArrayReads(s, i, v, depth);
    } else if v.Object? {
      ObjectReads(s, i, v, depth);
    } else {
      ScalarReads(s, i, v, depth);
    }
  }

  lemma ScalarReads(s: seq<Byte>, i: nat, v: Any, depth: nat)
    requires Occurs(s, i, EncAny(v)) && Good(v, depth) && !v.Array? && !v.Object?
    ensures ReadAny(s, i, depth) == Got(Canon(v), i + |EncAny(v)|)
  {
    hide Occurs, Uint, ReadUint, Bytes, ReadBytes, ReadInt, ReadAnys, ReadFields, EncAnys, EncFields, F.WriteDouble,
      F.Shortest, F.FromInt;
    OccursFirst(s, i, EncAny(v));
    match v
    case Integer(n) => NumberReads(s, i, F.FromInt(n), depth);
    case Float64(double) => NumberReads(s, i, double, depth);
    case Float32(single) =>
      assert EncAny(v)[1..] == single;
      OccursIs(s, i + 1, single);
    case BigInt(bits) =>
      assert EncAny(v)[1..] == bits;
      OccursIs(s, i + 1, bits);
    case Text(text) =>
      assert EncAny(v)[1..] == Bytes(text);
      BytesRead(s, i + 1, text);
    case Buffer(data) =>
      assert EncAny(v)[1..] == Bytes(data);
      BytesRead(s, i + 1, data);
    case _ =>
  }

  lemma {:induction false} ArrayReads(s: seq<Byte>, i: nat, v: Any, depth: nat)
    requires Occurs(s, i, EncAny(v)) && Good(v, depth) && v.Array?
    ensures ReadAny(s, i, depth) == Got(Canon(v), i + |EncAny(v)|)
    decreases v, 0
  {
    hide Occurs, Uint, ReadUint, Bytes, ReadBytes, Int, ReadInt, ReadAnys, ReadFields, EncAnys, EncFields, CanonAnys,
      CanonFields;
    OccursFirst(s, i, EncAny(v));
    var n, e := Uint(|v.elems|), EncAnys(v.elems);
    assert EncAny(v)[1..] == n + e;
    OccursSplit(s, i + 1, n, e);
    UintReads(s, i + 1, |v.elems|);
    OccursFits(s, i + 1 + |n|, e);
    AnysRead(s, i + 1 + |n|, v.elems, depth + 1);
  }

  lemma {:induction false} ObjectReads(s: seq<Byte>, i: nat, v: Any, depth: nat)
    requires Occurs(s, i, EncAny(v)) && Good(v, depth) && v.Object?
    ensures ReadAny(s, i, depth) == Got(Canon(v), i + |EncAny(v)|)
    decreases v, 0
  {
    hide Occurs, Uint, ReadUint, Bytes, ReadBytes, Int, ReadInt, ReadAnys, ReadFields, EncAnys, EncFields, CanonAnys,
      CanonFields;
    OccursFirst(s, i, EncAny(v));
    var n, e := Uint(|v.fields|), EncFields(v.fields);
    assert EncAny(v)[1..] == n + e;
    OccursSplit(s, i + 1, n, e);
    UintReads(s, i + 1, |v.fields|);
    OccursFits(s, i + 1 + |n|, e);
    FieldsRead(s, i + 1 + |n|, v.fields, depth + 1);
  }

  lemma OccursIs(s: seq<Byte>, i: nat, e: seq<Byte>)
    requires Occurs(s, i, e)
    ensures i + |e| <= |s| && s[i..i + |e|] == e
  {
  }

  lemma OccursFits(s: seq<Byte>, i: nat, e: seq<Byte>)
    requires Occurs(s, i, e)
    ensures i + |e| <= |s|
  {
  }

  lemma {:induction false} AnysRead(s: seq<Byte>, i: nat, vs: seq<Any>, depth: nat)
    requires Occurs(s, i, EncAnys(vs)) && i <= |s| && forall x <- vs :: Good(x, depth)
    ensures ReadAnys(s, i, |vs|, depth) == Got(CanonAnys(vs), i + |EncAnys(vs)|)
    decreases vs
  {
    hide Occurs, EncAny, ReadAny, Good, Canon;
    if vs != [] {
      OccursSplit(s, i, EncAny(vs[0]), EncAnys(vs[1..]));
      OccursFits(s, i, EncAny(vs[0]));
      AnyReads(s, i, vs[0], depth);
      AnysRead(s, i + |EncAny(vs[0])|, vs[1..], depth);
      assert vs == [vs[0]] + vs[1..];
    }
  }

  lemma {:induction false} FieldsRead(s: seq<Byte>, i: nat, fs: seq<Field>, depth: nat)
    requires Occurs(s, i, EncFields(fs)) && i <= |s| && forall f <- fs :: |f.key| <= MAX_SAFE && Good(f.value, depth)
    ensures ReadFields(s, i, |fs|, depth) == Got(CanonFields(fs), i + |EncFields(fs)|)
    decreases fs
  {
    hide Occurs, EncAny, ReadAny, Good, Bytes, ReadBytes, Canon;
    if fs != [] {
      var f := fs[0];
      var key, value := Bytes(f.key), EncAny(f.value);
      assert f in fs && EncFields(fs) == key + value + EncFields(fs[1..]);
      OccursSplit(s, i, key + value, EncFields(fs[1..]));
      OccursSplit(s, i, key, value);
      OccursFits(s, i, key + value);
      BytesRead(s, i, f.key);
      AnyReads(s, i + |key|, f.value, depth);
      FieldsRead(s, i + |key| + |value|, fs[1..], depth);
      assert fs == [f] + fs[1..];
    }
  }

  /** Whatever is read can be written again. */
  lemma {:induction false} ReadIsGood(s: seq<Byte>, i: nat, depth: nat)
    requires |s| <= MAX_SAFE
    ensures ReadAny(s, i, depth).Got? ==> Good(ReadAny(s, i, depth).value, depth)
    decreases MAX_DEPTH + 1 - depth, 0
  {
    hide ReadUint, ReadBytes, ReadInt;
    if depth <= MAX_DEPTH && i < |s| && (s[i] == 117 || s[i] == 118) {
      var n := ReadUint(s, i + 1, 0, 1);
      if n.Got? && n.value <= |s| - n.next {
        ReadAnysGood(s, n.next, n.value, depth + 1);
        ReadFieldsGood(s, n.next, n.value, depth + 1);
      }
    }
  }

  lemma {:induction false} ReadAnysGood(s: seq<Byte>, i: nat, n: nat, depth: nat)
    requires |s| <= MAX_SAFE && i <= |s|
    ensures ReadAnys(s, i, n, depth).Got? ==> forall x <- ReadAnys(s, i, n, depth).value :: Good(x, depth)
    decreases MAX_DEPTH + 1 - depth, n + 1
  {
    hide ReadAny, Good;
    if n > 0 {
      ReadIsGood(s, i, depth);
      var v := ReadAny(s, i, depth);
      if v.Got? { ReadAnysGood(s, v.next, n - 1, depth); }
    }
  }

  lemma {:induction false} ReadFieldsGood(s: seq<Byte>, i: nat, n: nat, depth: nat)
    requires |s| <= MAX_SAFE && i <= |s|
    ensures ReadFields(s, i, n, depth).Got? ==> forall f <- ReadFields(s, i, n, depth).value ::
            |f.key| <= MAX_SAFE && Good(f.value, depth)
    decreases MAX_DEPTH + 1 - depth, n + 1
  {
    hide ReadAny, Good, ReadBytes;
    if n > 0 {
      var k := ReadBytes(s, i);
      if k.Got? {
        ReadIsGood(s, k.next, depth);
        var v := ReadAny(s, k.next, depth);
        if v.Got? { ReadFieldsGood(s, v.next, n - 1, depth); }
      }
    }
  }
}
