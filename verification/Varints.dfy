/**
  Variable-length integers and byte arrays (internal/crdt/lib0/encoder.go and decoder.go).
  Bytes are numbers; arithmetic is on 64 bits and wraps around.
*/
module Varints {
  type Byte = b: nat | b < 256

  const MAX_SAFE: int := 0x1F_FFFF_FFFF_FFFF
  const WORD: nat := 0x1_0000_0000_0000_0000

  datatype Error =
    | UnexpectedEOF | IntegerOutOfRange | NegativeLength | Corrupt | UnknownContentRef | UnknownTypeRef
    | UnknownAnyTag | DepthExceeded

  /** A value and the position after it, or why there is none. */
  datatype Read<T> = Got(value: T, next: nat) | Failed(error: Error)

  /** The bytes `e` are in `s` at `i`. */
  predicate Occurs(s: seq<Byte>, i: nat, e: seq<Byte>) {
    i + |e| <= |s| && s[i..i + |e|] == e
  }

  lemma OccursSplit(s: seq<Byte>, i: nat, a: seq<Byte>, b: seq<Byte>)
    ensures Occurs(s, i, a + b) <==> Occurs(s, i, a) && Occurs(s, i + |a|, b)
  {
    if i + |a| + |b| <= |s| {
      var t := s[i..i + |a| + |b|];
      assert t[..|a|] == s[i..i + |a|] && t[|a|..] == s[i + |a|..i + |a| + |b|];
      assert t == t[..|a|] + t[|a|..];
      assert (a + b)[..|a|] == a && (a + b)[|a|..] == b;
    }
  }

  lemma OccursFirst(s: seq<Byte>, i: nat, e: seq<Byte>)
    requires Occurs(s, i, e) && e != []
    ensures i < |s| && s[i] == e[0] && Occurs(s, i + 1, e[1..])
  {
    assert s[i..i + |e|][0] == s[i];
    assert s[i + 1..i + |e|] == s[i..i + |e|][1..];
  }

  // ---------------------------------------------------------------- unsigned

  /** The low 64 bits. */
  function Low(x: nat): nat {
    x % WORD
  }

  lemma LowIsSame(x: nat)
    requires x <= MAX_SAFE
    ensures Low(x) == x
  {
  }

  /** Seven bits per byte, least significant first; 0x80 marks that more follow. */
  function Uint(v: nat): (e: seq<Byte>)
    ensures e != []
  {
    if v > 0x7F then [0x80 + v % 128] + Uint(v / 128) else [v]
  }

  /** What `ReadVarUint` finds, with `num` read so far and `mult` the weight of the next byte. */
  function ReadUint(s: seq<Byte>, i: nat, num: nat, mult: nat): (r: Read<nat>)
    ensures r.Got? ==> i < r.next <= |s|
    decreases |s| - i
  {
    if i >= |s| then Failed(UnexpectedEOF)
    else
      var num' := Low(num + Low(s[i] % 128 * mult));
      if s[i] < 0x80 then Got(num', i + 1)
      else if num' > MAX_SAFE then Failed(IntegerOutOfRange)
      else ReadUint(s, i + 1, num', Low(mult * 128))
  }

  /** Reading what was written gives the value back, whatever follows, and nothing wraps around. */
  lemma {:induction false} UintRoundTrip(s: seq<Byte>, i: nat, v: nat, num: nat, mult: nat)
    requires Occurs(s, i, Uint(v)) && num + v * mult <= MAX_SAFE && 0 < mult
    ensures ReadUint(s, i, num, mult) == Got(num + v * mult, i + |Uint(v)|)
    decreases v
  {
    hide Low, Occurs;
    OccursFirst(s, i, Uint(v));
    Digits(v, mult);
    var low := v % 128 * mult;
    LowIsSame(low);
    LowIsSame(num + low);
    if v > 0x7F {
      assert Uint(v)[1..] == Uint(v / 128) && s[i] % 128 == v % 128;
      LowIsSame(mult * 128);
      UintRoundTrip(s, i + 1, v / 128, num + low, mult * 128);
    } else {
      assert v % 128 == v && s[i] == v;
    }
  }

  lemma Digits(v: nat, mult: nat)
    requires 0 < mult
    ensures v * mult == v % 128 * mult + v / 128 * (mult * 128)
    ensures v % 128 * mult <= v * mult && (v > 127 ==> mult * 128 <= v * mult)
  {
    assert v == v % 128 + 128 * (v / 128);
    assert v / 128 * (mult * 128) >= 0;
    if v > 127 { Monotone(128, v, mult); }
  }

  lemma Monotone(a: nat, b: nat, m: nat)
    requires a <= b
    ensures a * m <= b * m
  {
  }

  lemma UintReads(s: seq<Byte>, i: nat, v: nat)
    requires Occurs(s, i, Uint(v)) && v <= MAX_SAFE
    ensures ReadUint(s, i, 0, 1) == Got(v, i + |Uint(v)|)
  {
    UintRoundTrip(s, i, v, 0, 1);
  }

  // ---------------------------------------------------------------- signed

  type Int64 = x: int | -0x8000_0000_0000_0000 <= x < 0x8000_0000_0000_0000

  /** Two's complement on 64 bits. */
  function Wrap(x: int): Int64 {
    (x + WORD / 2) % WORD - WORD / 2
  }

  function Abs(v: int): nat {
    if v < 0 then -v else v
  }

  /** Six bits and the sign at 0x40 in the first byte, then seven bits per byte. */
  function Int(v: int): (e: seq<Byte>)
    ensures e != []
  {
    var n := Abs(v);
    [n % 64 + (if n > 0x3F then 0x80 else 0) + (if v < 0 then 0x40 else 0)] + Rest(n / 64)
  }

  /** What is left of a number after its first byte. */
  function Rest(n: nat): seq<Byte> {
    if n == 0 then [] else Uint(n)
  }

  lemma RestStep(n: nat)
    requires n > 0
    ensures Rest(n) == [n % 128 + (if n > 0x7F then 0x80 else 0)] + Rest(n / 128)
  {
  }

  lemma RestNothing()
    ensures Rest(0) == []
  {
  }

  function ReadIntTail(s: seq<Byte>, i: nat, num: int, mult: int, sign: int): (r: Read<Int64>)
    ensures r.Got? ==> i < r.next <= |s|
    decreases |s| - i
  {
    if i >= |s| then Failed(UnexpectedEOF)
    else
      var num' := Wrap(num + Wrap(s[i] % 128 * mult));
      if s[i] < 0x80 then Got(Wrap(sign * num'), i + 1)
      else if num' > MAX_SAFE then Failed(IntegerOutOfRange)
      else ReadIntTail(s, i + 1, num', Wrap(mult * 128), sign)
  }

  function ReadInt(s: seq<Byte>, i: nat): (r: Read<Int64>)
    ensures r.Got? ==> i < r.next <= |s|
  {
    if i >= |s| then Failed(UnexpectedEOF)
    else
      var num: int, sign: int := s[i] % 64, if s[i] / 64 % 2 == 1 then -1 else 1;
      if s[i] < 0x80 then Got(sign * num, i + 1)
      else ReadIntTail(s, i + 1, num, 64, sign)
  }

  lemma WrapIsSame(x: int)
    requires -MAX_SAFE <= x <= MAX_SAFE
    ensures Wrap(x) == x
  {
  }

  lemma {:induction false} IntTailRoundTrip(s: seq<Byte>, i: nat, v: nat, num: nat, mult: nat, sign: int)
    requires Occurs(s, i, Uint(v)) && num + v * mult <= MAX_SAFE && 0 < mult && (sign == 1 || sign == -1)
    ensures ReadIntTail(s, i, num, mult, sign) == Got(sign * (num + v * mult), i + |Uint(v)|)
    decreases v
  {
    hide Wrap, Occurs;
    OccursFirst(s, i, Uint(v));
    Digits(v, mult);
    var low := v % 128 * mult;
    WrapIsSame(low);
    WrapIsSame(num + low);
    if v > 0x7F {
      assert Uint(v)[1..] == Uint(v / 128) && s[i] % 128 == v % 128;
      WrapIsSame(mult * 128);
      IntTailRoundTrip(s, i + 1, v / 128, num + low, mult * 128, sign);
    } else {
      assert v % 128 == v && s[i] == v;
      WrapIsSame(sign * (num + v * mult));
    }
  }

  /** Reading what was written gives the value back, whatever follows. */
  lemma IntReads(s: seq<Byte>, i: nat, v: int)
    requires Occurs(s, i, Int(v)) && Abs(v) <= MAX_SAFE
    ensures ReadInt(s, i) == Got(v, i + |Int(v)|)
  {
    hide Occurs, Uint, ReadIntTail, Wrap;
    var n := Abs(v);
    OccursFirst(s, i, Int(v));
    FirstByte(v);
    if n > 0x3F {
      assert Int(v)[1..] == Rest(n / 64) == Uint(n / 64);
      IntTailRoundTrip(s, i + 1, n / 64, n % 64, 64, if v < 0 then -1 else 1);
    }
  }

  /** The value bits, the sign and the continuation bit of the first byte. */
  lemma FirstByte(v: int)
    ensures var b, n := Int(v)[0], Abs(v);
            && b % 64 == n % 64 && (b / 64 % 2 == 1 <==> v < 0) && (b < 0x80 <==> n <= 0x3F)
            && n == n % 64 + n / 64 * 64 && (n <= 0x3F ==> n / 64 == 0 && n % 64 == n)
  {
  }

  // ---------------------------------------------------------------- byte arrays

  function Bytes(b: seq<Byte>): seq<Byte> {
    Uint(|b|) + b
  }

  function ReadBytes(s: seq<Byte>, i: nat): (r: Read<seq<Byte>>)
    ensures r.Got? ==> i < r.next <= |s| && |r.value| <= |s|
  {
    var n := ReadUint(s, i, 0, 1);
    if n.Failed? then Failed(n.error)
    else if n.value > |s| - n.next then Failed(UnexpectedEOF)
    else Got(s[n.next..n.next + n.value], n.next + n.value)
  }

  lemma BytesRead(s: seq<Byte>, i: nat, b: seq<Byte>)
    requires Occurs(s, i, Bytes(b)) && |b| <= MAX_SAFE
    ensures ReadBytes(s, i) == Got(b, i + |Bytes(b)|)
  {
    OccursSplit(s, i, Uint(|b|), b);
    UintReads(s, i, |b|);
  }

  // ---------------------------------------------------------------- the encoder and the decoder

  class Encoder {
    var buf: seq<Byte>
    var err: bool

    constructor ()
      ensures buf == [] && !err
    {
      buf, err := [], false;
    }

    method WriteUint8(b: Byte)
      modifies this`buf
      ensures buf == if err then old(buf) else old(buf) + [b]
    {
      if err {
        return;
      }
      buf := buf + [b];
    }

    method WriteBytes(b: seq<Byte>)
      modifies this`buf
      ensures buf == if err then old(buf) else old(buf) + b
    {
      if err {
        return;
      }
      buf := buf + b;
    }

    /** A value that cannot be represented fails, and so does every write after a failure. */
    method WriteVarUint(value: nat)
      requires value < WORD
      modifies this
      ensures err == (old(err) || value > MAX_SAFE)
      ensures buf == if err then old(buf) else old(buf) + Uint(value)
    {
      if err {
        return;
      }
      if value > MAX_SAFE {
        err := true;
        return;
      }
      var v := value;
      while v > 0x7F
        invariant !err && buf + Uint(v) == old(buf) + Uint(value)
        decreases v
      {
        assert buf + Uint(v) == (buf + [0x80 + v % 128]) + Uint(v / 128);
        buf := buf + [0x80 + v % 128];
        v := v / 128;
      }
      buf := buf + [v];
    }

    method WriteVarInt(value: int)
      requires -(WORD / 2) <= value < WORD / 2
      modifies this
      ensures err == (old(err) || Abs(value) > MAX_SAFE)
      ensures buf == if err then old(buf) else old(buf) + Int(value)
    {
      if err {
        return;
      }
      if value < -MAX_SAFE || value > MAX_SAFE {
        err := true;
        return;
      }
      var num: nat := if value < 0 then -value else value;
      var first: Byte := num % 64;
      if num > 0x3F {
        first := first + 0x80;
      }
      if value < 0 {
        first := first + 0x40;
      }
      buf := buf + [first];
      WriteRest(num / 64);
    }

    /** The loop of `WriteVarInt`. */
    method WriteRest(n: nat)
      requires !err
      modifies this`buf
      ensures buf == old(buf) + Rest(n)
    {
      hide Rest;
      var num := n;
      RestNothing();
      while num > 0
        invariant buf + Rest(num) == old(buf) + Rest(n)
        decreases num
      {
        var b: Byte := num % 128;
        if num > 0x7F {
          b := b + 0x80;
        }
        RestStep(num);
        assert buf + ([b] + Rest(num / 128)) == (buf + [b]) + Rest(num / 128);
        buf := buf + [b];
        num := num / 128;
      }
    }

    method WriteVarUint8Array(b: seq<Byte>)
      requires |b| < WORD
      modifies this
      ensures err == (old(err) || |b| > MAX_SAFE)
      ensures buf == if err then old(buf) else old(buf) + Bytes(b)
    {
      if err {
        return;
      }
      WriteVarUint(|b|);
      WriteBytes(b);
    }
  }

  class Decoder {
    const buf: seq<Byte>
    var pos: nat

    constructor (buf: seq<Byte>)
      ensures this.buf == buf && pos == 0
    {
      this.buf, pos := buf, 0;
    }

    method ReadVarUint() returns (r: Read<nat>)
      requires pos <= |buf|
      modifies this`pos
      ensures pos <= |buf| && r == ReadUint(buf, old(pos), 0, 1) && (r.Got? ==> pos == r.next)
    {
      var num: nat, mult: nat := 0, 1;
      while pos < |buf|
        invariant old(pos) <= pos <= |buf|
        invariant ReadUint(buf, pos, num, mult) == ReadUint(buf, old(pos), 0, 1)
      {
        var b := buf[pos];
        pos := pos + 1;
        num := Low(num + Low(b % 128 * mult));
        mult := Low(mult * 128);
        if b < 0x80 {
          return Got(num, pos);
        }
        if num > MAX_SAFE {
          return Failed(IntegerOutOfRange);
        }
      }
      return Failed(UnexpectedEOF);
    }

    method ReadVarInt() returns (r: Read<Int64>)
      requires pos <= |buf|
      modifies this`pos
      ensures pos <= |buf| && r == ReadInt(buf, old(pos)) && (r.Got? ==> pos == r.next)
    {
      if pos >= |buf| {
        return Failed(UnexpectedEOF);
      }
      var b := buf[pos];
      pos := pos + 1;
      var num: int, sign: int := b % 64, 1;
      if b / 64 % 2 == 1 {
        sign := -1;
      }
      if b < 0x80 {
        return Got(sign * num, pos);
      }
      var mult: int := 64;
      while pos < |buf|
        invariant old(pos) < pos <= |buf|
        invariant ReadIntTail(buf, pos, num, mult, sign) == ReadInt(buf, old(pos))
      {
        b := buf[pos];
        pos := pos + 1;
        num := Wrap(num + Wrap(b % 128 * mult));
        mult := Wrap(mult * 128);
        if b < 0x80 {
          return Got(Wrap(sign * num), pos);
        }
        if num > MAX_SAFE {
          return Failed(IntegerOutOfRange);
        }
      }
      return Failed(UnexpectedEOF);
    }

    method ReadVarUint8Array() returns (r: Read<seq<Byte>>)
      requires pos <= |buf|
      modifies this`pos
      ensures pos <= |buf| && r == ReadBytes(buf, old(pos)) && (r.Got? ==> pos == r.next)
    {
      var n := ReadVarUint();
      if n.Failed? {
        return Failed(n.error);
      }
      if n.value > |buf| - pos {
        return Failed(UnexpectedEOF);
      }
      var b := buf[pos..pos + n.value];
      pos := pos + n.value;
      return Got(b, pos);
    }
  }
}
