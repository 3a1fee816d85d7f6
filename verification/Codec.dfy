/**
  Updates on the wire (internal/crdt/update.go, struct.go, content.go and deleteset.go).

  Reading is a function of the bytes and a position, as the decoder's methods are; the loops over
  counted lists are recursive.  The id of a struct is not on the wire: it follows from the block.
*/
module Codec {
  import opened Ids
  import opened Varints
  import opened Anys

  const MAX_LEN: nat := 0x8000_0000

  datatype Content =
    | ContentDeleted(len: nat)
    | ContentJSON(values: seq<seq<Byte>>)
    | ContentBinary(data: seq<Byte>)
    | ContentString(text: seq<Byte>)
    | ContentEmbed(json: seq<Byte>)
    | ContentFormat(key: seq<Byte>, value: seq<Byte>)
    | ContentType(typeRef: nat, name: seq<Byte>)
    | ContentAny(anys: seq<Any>)
    | ContentDoc(guid: seq<Byte>, opts: Any)

  datatype Parent = Named(name: seq<Byte>) | Owned(item: ID)

  datatype Struct =
    | GC(len: nat)
    | Skip(len: nat)
    | Item(origin: Option<ID>, right: Option<ID>, hasSub: bool, parent: Option<Parent>, sub: seq<Byte>,
      content: Content)

  datatype Block = Block(client: nat, startClock: nat, structs: seq<Struct>)

  datatype Range = Range(clock: nat, len: nat)

  datatype Update = Update(blocks: seq<Block>, deletes: map<nat, seq<Range>>)

  // ---------------------------------------------------------------- lists

  function EncAll<T>(xs: seq<T>, enc: T -> seq<Byte>): seq<Byte> {
    if xs == [] then [] else enc(xs[0]) + EncAll(xs[1..], enc)
  }

  function ReadMany<T>(s: seq<Byte>, i: nat, n: nat, read: (seq<Byte>, nat) -> Read<T>): (r: Read<seq<T>>)
    ensures r.Got? ==> |r.value| == n
    decreases n
  {
    if n == 0 then Got([], i)
    else
      var x := read(s, i);
      if x.Failed? then Failed(x.error)
      else
        var rest := ReadMany(s, x.next, n - 1, read);
        if rest.Failed? then Failed(rest.error) else Got([x.value] + rest.value, rest.next)
  }

  /** Wherever `x` was written, `y` is read back. */
  ghost predicate ReadsAs<T(!new)>(s: seq<Byte>, x: T, y: T, enc: T -> seq<Byte>, read: (seq<Byte>, nat) -> Read<T>) {
    enc(x) != [] && forall k: nat {:trigger read(s, k)} :: Occurs(s, k, enc(x)) ==> read(s, k) == Got(y, k + |enc(x)|)
  }

  lemma ReadHere<T(!new)>(s: seq<Byte>, i: nat, x: T, y: T, enc: T -> seq<Byte>, read: (seq<Byte>, nat) -> Read<T>)
    requires ReadsAs(s, x, y, enc, read) && Occurs(s, i, enc(x))
    ensures enc(x) != [] && read(s, i) == Got(y, i + |enc(x)|)
  {
    hide Occurs;
  }

  lemma {:induction false} ManyRead<T(!new)>(s: seq<Byte>, i: nat, xs: seq<T>, ys: seq<T>,
                                             enc: T -> seq<Byte>, read: (seq<Byte>, nat) -> Read<T>)
    requires Occurs(s, i, EncAll(xs, enc)) && |ys| == |xs|
    requires forall j | 0 <= j < |xs| :: ReadsAs(s, xs[j], ys[j], enc, read)
    ensures ReadMany(s, i, |xs|, read) == Got(ys, i + |EncAll(xs, enc)|)
    ensures |xs| <= |EncAll(xs, enc)|
    decreases |xs|
  {
    hide Occurs, ReadsAs;
    if xs != [] {
      OccursSplit(s, i, enc(xs[0]), EncAll(xs[1..], enc));
      assert ReadsAs(s, xs[0], ys[0], enc, read);
      ReadHere(s, i, xs[0], ys[0], enc, read);
      ManyRead(s, i + |enc(xs[0])|, xs[1..], ys[1..], enc, read);
      assert ys == [ys[0]] + ys[1..];
    }
  }

  function Each<T>(xs: seq<T>, f: T -> T): seq<T> {
    seq(|xs|, i requires 0 <= i < |xs| => f(xs[i]))
  }

  /** If each thing changes to one that takes as many bytes, so does the list, and it is written the
      same if and only if each thing in it is. */
  lemma {:induction false} EachWrites<T(!new)>(xs: seq<T>, enc: T -> seq<Byte>, f: T -> T, same: T -> bool)
    requires forall x <- xs :: |enc(f(x))| == |enc(x)| && (enc(f(x)) == enc(x) <==> same(x))
    ensures |EncAll(Each(xs, f), enc)| == |EncAll(xs, enc)|
    ensures EncAll(Each(xs, f), enc) == EncAll(xs, enc) <==> forall x <- xs :: same(x)
    decreases |xs|
  {
    if xs != [] {
      EachWrites(xs[1..], enc, f, same);
      assert Each(xs, f)[1..] == Each(xs[1..], f);
      SameParts(enc(f(xs[0])), EncAll(Each(xs[1..], f), enc), enc(xs[0]), EncAll(xs[1..], enc));
      assert xs == [xs[0]] + xs[1..];
    }
  }

  lemma CountedWrites<T(!new)>(xs: seq<T>, enc: T -> seq<Byte>, f: T -> T, same: T -> bool)
    requires forall x <- xs :: |enc(f(x))| == |enc(x)| && (enc(f(x)) == enc(x) <==> same(x))
    ensures |EncCounted(Each(xs, f), enc)| == |EncCounted(xs, enc)|
    ensures EncCounted(Each(xs, f), enc) == EncCounted(xs, enc) <==> forall x <- xs :: same(x)
  {
    EachWrites(xs, enc, f, same);
    SamePrefix(Uint(|xs|), EncAll(Each(xs, f), enc), EncAll(xs, enc));
  }

  lemma {:induction false} ManyGood<T(!new)>(s: seq<Byte>, i: nat, n: nat, read: (seq<Byte>, nat) -> Read<T>,
                                             good: T -> bool)
    requires forall k: nat {:trigger read(s, k)} :: read(s, k).Got? ==> good(read(s, k).value)
    ensures ReadMany(s, i, n, read).Got? ==> forall x <- ReadMany(s, i, n, read).value :: good(x)
    decreases n
  {
    if n > 0 {
      var x := read(s, i);
      if x.Got? { ManyGood(s, x.next, n - 1, read, good); }
    }
  }

  /** A count and that many things; a count larger than what is left is refused at once. */
  function ReadCounted<T>(s: seq<Byte>, i: nat, read: (seq<Byte>, nat) -> Read<T>): (r: Read<seq<T>>) {
    var n := ReadUint(s, i, 0, 1);
    if n.Failed? then Failed(n.error)
    else if n.value > |s| - n.next then Failed(UnexpectedEOF)
    else ReadMany(s, n.next, n.value, read)
  }

  function EncCounted<T>(xs: seq<T>, enc: T -> seq<Byte>): (e: seq<Byte>)
    ensures e != []
  {
    Uint(|xs|) + EncAll(xs, enc)
  }

  /** The guard never refuses what was written. */
  lemma CountedRead<T(!new)>(s: seq<Byte>, i: nat, xs: seq<T>, ys: seq<T>,
                              enc: T -> seq<Byte>, read: (seq<Byte>, nat) -> Read<T>)
    requires Occurs(s, i, EncCounted(xs, enc)) && |ys| == |xs| <= MAX_SAFE
    requires forall j | 0 <= j < |xs| :: ReadsAs(s, xs[j], ys[j], enc, read)
    ensures ReadCounted(s, i, read) == Got(ys, i + |EncCounted(xs, enc)|)
  {
    OccursSplit(s, i, Uint(|xs|), EncAll(xs, enc));
    UintReads(s, i, |xs|);
    ManyRead(s, i + |Uint(|xs|)|, xs, ys, enc, read);
  }

  lemma CountedGood<T(!new)>(s: seq<Byte>, i: nat, read: (seq<Byte>, nat) -> Read<T>, good: T -> bool)
    requires |s| <= MAX_SAFE && forall k: nat {:trigger read(s, k)} :: read(s, k).Got? ==> good(read(s, k).value)
    ensures ReadCounted(s, i, read).Got? ==>
              |ReadCounted(s, i, read).value| <= MAX_SAFE && forall x <- ReadCounted(s, i, read).value :: good(x)
  {
    var n := ReadUint(s, i, 0, 1);
    if n.Got? && n.value <= |s| - n.next { ManyGood(s, n.next, n.value, read, good); }
  }

  // ---------------------------------------------------------------- numbers and ids

  /** `readSafeVarUint`: only what can be written again. */
  function ReadSafe(s: seq<Byte>, i: nat): (r: Read<nat>)
    ensures r.Got? ==> r.value <= MAX_SAFE && i < r.next <= |s|
  {
    var n := ReadUint(s, i, 0, 1);
    if n.Got? && n.value > MAX_SAFE then Failed(IntegerOutOfRange) else n
  }

  /** `readLen`. */
  function ReadLen(s: seq<Byte>, i: nat): (r: Read<nat>)
    ensures r.Got? ==> r.value <= MAX_LEN && i < r.next <= |s|
  {
    var n := ReadUint(s, i, 0, 1);
    if n.Got? && n.value > MAX_LEN then Failed(NegativeLength) else n
  }

  function EncID(id: ID): (e: seq<Byte>)
    ensures e != []
  {
    Uint(id.client) + Uint(id.clock)
  }

  function ReadID(s: seq<Byte>, i: nat): (r: Read<ID>) {
    var client := ReadSafe(s, i);
    if client.Failed? then Failed(client.error)
    else
      var clock := ReadSafe(s, client.next);
      if clock.Failed? then Failed(clock.error) else Got(ID(client.value, clock.value), clock.next)
  }

  predicate GoodID(id: ID) {
    id.client <= MAX_SAFE && id.clock <= MAX_SAFE
  }

  lemma IDReads(s: seq<Byte>, i: nat, id: ID)
    requires Occurs(s, i, EncID(id)) && GoodID(id)
    ensures ReadID(s, i) == Got(id, i + |EncID(id)|)
  {
    OccursSplit(s, i, Uint(id.client), Uint(id.clock));
    UintReads(s, i, id.client);
    UintReads(s, i + |Uint(id.client)|, id.clock);
  }

  // ---------------------------------------------------------------- contents

  function Ref(c: Content): (b: Byte)
    ensures 1 <= b <= 9
  {
    match c
    case ContentDeleted(_) => 1
    case ContentJSON(_) => 2
    case ContentBinary(_) => 3
    case ContentString(_) => 4
    case ContentEmbed(_) => 5
    case ContentFormat(_, _) => 6
    case ContentType(_, _) => 7
    case ContentAny(_) => 8
    case ContentDoc(_, _) => 9
  }

  /** XML elements and hooks carry a name. */
  predicate HasName(typeRef: nat) {
    typeRef == 3 || typeRef == 5
  }

  function EncContent(c: Content): (e: seq<Byte>)
    ensures e != []
  {
    match c
    case ContentDeleted(len) => Uint(len)
    case ContentJSON(values) => EncCounted(values, Bytes)
    case ContentBinary(data) => Bytes(data)
    case ContentString(text) => Bytes(text)
    case ContentEmbed(json) => Bytes(json)
    case ContentFormat(key, value) => Bytes(key) + Bytes(value)
    case ContentType(typeRef, name) => Uint(typeRef) + (if HasName(typeRef) then Bytes(name) else [])
    case ContentAny(anys) => EncCounted(anys, EncAny)
    case ContentDoc(guid, opts) => Bytes(guid) + EncAny(opts)
  }

  ghost predicate GoodContent(c: Content) {
    match c
    case ContentDeleted(len) => len <= MAX_LEN
    case ContentJSON(values) => |values| <= MAX_LEN && forall v <- values :: |v| <= MAX_SAFE
    case ContentBinary(data) => |data| <= MAX_SAFE
    case ContentString(text) => |text| <= MAX_SAFE
    case ContentEmbed(json) => |json| <= MAX_SAFE
    case ContentFormat(key, value) => |key| <= MAX_SAFE && |value| <= MAX_SAFE
    case ContentType(typeRef, name) => typeRef <= 6 && |name| <= MAX_SAFE && (!HasName(typeRef) ==> name == [])
    case ContentAny(anys) => |anys| <= MAX_LEN && forall v <- anys :: Good(v, 0)
    case ContentDoc(guid, opts) => |guid| <= MAX_SAFE && Good(opts, 0)
  }

  /** What a written content is read back as. */
  function CanonContent(c: Content): Content {
    match c
    case ContentAny(anys) => ContentAny(Each(anys, Canon))
    case ContentDoc(guid, opts) => ContentDoc(guid, Canon(opts))
    case _ => c
  }

  ghost predicate SignlessContent(c: Content) {
    match c
    case ContentAny(anys) => forall v <- anys :: Signless(v)
    case ContentDoc(_, opts) => Signless(opts)
    case _ => true
  }

  lemma CanonContentWrites(c: Content)
    ensures |EncContent(CanonContent(c))| == |EncContent(c)| && Ref(CanonContent(c)) == Ref(c)
    ensures EncContent(CanonContent(c)) == EncContent(c) <==> SignlessContent(c)
  {
    hide EncAny, Canon, Signless, Bytes, EncCounted, Each;
    match c
    case ContentAny(anys) =>
      ghost var signless := (v: Any) => Signless(v);
      forall v <- anys { CanonWrites(v); }
      CountedWrites(anys, EncAny, Canon, signless);
    case ContentDoc(guid, opts) =>
      CanonWrites(opts);
      SamePrefix(Bytes(guid), EncAny(Canon(opts)), EncAny(opts));
    case _ =>
  }

  lemma CanonContentTwice(c: Content)
    ensures CanonContent(CanonContent(c)) == CanonContent(c)
  {
    hide Canon;
    match c
    case ContentAny(anys) => forall v <- anys { CanonTwice(v); }
    case ContentDoc(_, opts) => CanonTwice(opts);
    case _ =>
  }

  lemma CanonContentGood(c: Content)
    requires GoodContent(c)
    ensures GoodContent(CanonContent(c))
  {
    hide Canon, Good;
    match c
    case ContentAny(anys) => forall v <- anys { CanonGood(v, 0); }
    case ContentDoc(_, opts) => CanonGood(opts, 0);
    case _ =>
  }

  /** A list whose length is limited like any length. */
  function ReadListed<T>(s: seq<Byte>, i: nat, read: (seq<Byte>, nat) -> Read<T>): (r: Read<seq<T>>) {
    var n := ReadLen(s, i);
    if n.Failed? then Failed(n.error)
    else if n.value > |s| - n.next then Failed(UnexpectedEOF)
    else ReadMany(s, n.next, n.value, read)
  }

  function ReadType(s: seq<Byte>, i: nat): (r: Read<Content>) {
    var ref := ReadUint(s, i, 0, 1);
    if ref.Failed? then Failed(ref.error)
    else if ref.value > 6 then Failed(UnknownTypeRef)
    else if !HasName(ref.value) then Got(ContentType(ref.value, []), ref.next)
    else
      var name := ReadBytes(s, ref.next);
      if name.Failed? then Failed(name.error) else Got(ContentType(ref.value, name.value), name.next)
  }

  function ReadAnyAt(s: seq<Byte>, i: nat): Read<Any> {
    ReadAny(s, i, 0)
  }

  /** `readContent`. */
  function ReadContent(s: seq<Byte>, i: nat, ref: nat): (r: Read<Content>) {
    match ref
    case 1 => var n := ReadLen(s, i); if n.Failed? then Failed(n.error) else Got(ContentDeleted(n.value), n.next)
    case 2 =>
      var v := ReadListed(s, i, ReadBytes);
      if v.Failed? then Failed(v.error) else Got(ContentJSON(v.value), v.next)
    case 3 => var b := ReadBytes(s, i); if b.Failed? then Failed(b.error) else Got(ContentBinary(b.value), b.next)
    case 4 => var b := ReadBytes(s, i); if b.Failed? then Failed(b.error) else Got(ContentString(b.value), b.next)
    case 5 => var b := ReadBytes(s, i); if b.Failed? then Failed(b.error) else Got(ContentEmbed(b.value), b.next)
    case 6 =>
      var k := ReadBytes(s, i);
      if k.Failed? then Failed(k.error)
      else
        var v := ReadBytes(s, k.next);
        if v.Failed? then Failed(v.error) else Got(ContentFormat(k.value, v.value), v.next)
    case 7 => ReadType(s, i)
    case 8 =>
      var v := ReadListed(s, i, ReadAnyAt);
      if v.Failed? then Failed(v.error) else Got(ContentAny(v.value), v.next)
    case 9 =>
      var g := ReadBytes(s, i);
      if g.Failed? then Failed(g.error)
      else
        var o := ReadAny(s, g.next, 0);
        if o.Failed? then Failed(o.error) else Got(ContentDoc(g.value, o.value), o.next)
    case _ => Failed(UnknownContentRef)
  }

  lemma ListedRead<T(!new)>(s: seq<Byte>, i: nat, xs: seq<T>, ys: seq<T>,
                              enc: T -> seq<Byte>, read: (seq<Byte>, nat) -> Read<T>)
    requires Occurs(s, i, EncCounted(xs, enc)) && |ys| == |xs| <= MAX_LEN
    requires forall j | 0 <= j < |xs| :: ReadsAs(s, xs[j], ys[j], enc, read)
    ensures ReadListed(s, i, read) == Got(ys, i + |EncCounted(xs, enc)|)
  {
    CountedRead(s, i, xs, ys, enc, read);
    OccursSplit(s, i, Uint(|xs|), EncAll(xs, enc));
    UintReads(s, i, |xs|);
  }

  lemma ListedGood<T(!new)>(s: seq<Byte>, i: nat, read: (seq<Byte>, nat) -> Read<T>, good: T -> bool)
    requires |s| <= MAX_SAFE && forall k: nat {:trigger read(s, k)} :: read(s, k).Got? ==> good(read(s, k).value)
    ensures ReadListed(s, i, read).Got? ==>
              |ReadListed(s, i, read).value| <= MAX_LEN && forall x <- ReadListed(s, i, read).value :: good(x)
  {
    CountedGood(s, i, read, good);
  }

  lemma BytesReadBack(s: seq<Byte>, b: seq<Byte>)
    requires |b| <= MAX_SAFE
    ensures ReadsAs(s, b, b, Bytes, ReadBytes)
  {
    forall k: nat | Occurs(s, k, Bytes(b))
      ensures ReadBytes(s, k) == Got(b, k + |Bytes(b)|)
    {
      BytesRead(s, k, b);
    }
  }

  lemma AnyReadsBack(s: seq<Byte>, v: Any)
    requires Good(v, 0)
    ensures ReadsAs(s, v, Canon(v), EncAny, ReadAnyAt)
  {
    hide EncAny, ReadAny, Good, Canon;
    forall k: nat | Occurs(s, k, EncAny(v))
      ensures ReadAnyAt(s, k) == Got(Canon(v), k + |EncAny(v)|)
    {
      AnyReads(s, k, v, 0);
    }
  }

  lemma ContentReads(s: seq<Byte>, i: nat, c: Content)
    requires Occurs(s, i, EncContent(c)) && GoodContent(c)
    ensures ReadContent(s, i, Ref(c)) == Got(CanonContent(c), i + |EncContent(c)|)
  {
    hide Occurs, Uint, ReadUint, Bytes, ReadBytes, EncAny, ReadAny, Good, EncCounted, ReadMany, ReadsAs, Canon;
    match c
    case ContentDeleted(len) => UintReads(s, i, len);
    case ContentJSON(values) =>
      forall v <- values { BytesReadBack(s, v); }
      ListedRead(s, i, values, values, Bytes, ReadBytes);
    case ContentBinary(data) => BytesRead(s, i, data);
    case ContentString(text) => BytesRead(s, i, text);
    case ContentEmbed(json) => BytesRead(s, i, json);
    case ContentFormat(key, value) =>
      OccursSplit(s, i, Bytes(key), Bytes(value));
      BytesRead(s, i, key);
      BytesRead(s, i + |Bytes(key)|, value);
    case ContentType(typeRef, name) =>
      OccursSplit(s, i, Uint(typeRef), if HasName(typeRef) then Bytes(name) else []);
      UintReads(s, i, typeRef);
      if HasName(typeRef) { BytesRead(s, i + |Uint(typeRef)|, name); }
    case ContentAny(anys) =>
      forall v <- anys { AnyReadsBack(s, v); }
      ListedRead(s, i, anys, Each(anys, Canon), EncAny, ReadAnyAt);
    case ContentDoc(guid, opts) =>
      OccursSplit(s, i, Bytes(guid), EncAny(opts));
      BytesRead(s, i, guid);
      AnyReads(s, i + |Bytes(guid)|, opts, 0);
  }

  lemma ReadContentGood(s: seq<Byte>, i: nat, ref: nat)
    requires |s| <= MAX_SAFE
    ensures ReadContent(s, i, ref).Got? ==>
              GoodContent(ReadContent(s, i, ref).value) && Ref(ReadContent(s, i, ref).value) == ref
  {
    hide ReadUint, ReadBytes, ReadAny, Good, ReadMany, ReadListed;
    ListedGood(s, i, ReadBytes, b => |b| <= MAX_SAFE);
    forall k: nat
      ensures ReadAnyAt(s, k).Got? ==> Good(ReadAnyAt(s, k).value, 0)
    {
      ReadIsGood(s, k, 0);
    }
    if ref == 8 { ReadAnysAreGood(s, i); }
    if ref == 9 {
      var g := ReadBytes(s, i);
      if g.Got? { ReadIsGood(s, g.next, 0); }
    }
  }

  lemma ReadAnysAreGood(s: seq<Byte>, i: nat)
    requires |s| <= MAX_SAFE
    ensures ReadListed(s, i, ReadAnyAt).Got? ==>
              && |ReadListed(s, i, ReadAnyAt).value| <= MAX_LEN
              && forall v <- ReadListed(s, i, ReadAnyAt).value :: Good(v, 0)
  {
    hide ReadAny, Good;
    ghost var good := (v: Any) => Good(v, 0);
    forall k: nat
      ensures ReadAnyAt(s, k).Got? ==> good(ReadAnyAt(s, k).value)
    {
      ReadIsGood(s, k, 0);
    }
    ListedGood(s, i, ReadAnyAt, good);
  }

  // ---------------------------------------------------------------- structs

  function EncOption(x: Option<ID>): seq<Byte> {
    if x.Some? then EncID(x.value) else []
  }

  function EncParent(p: Parent): seq<Byte> {
    match p
    case Named(name) => Uint(1) + Bytes(name)
    case Owned(item) => Uint(0) + EncID(item)
  }

  /** `Item.write`: the list is named only if there is no neighbour. */
  function EncPlace(t: Struct): seq<Byte>
    requires t.Item?
  {
    if t.origin == None && t.right == None && t.parent.Some?
    then EncParent(t.parent.value) + (if t.hasSub then Bytes(t.sub) else [])
    else []
  }

  function Info(t: Struct): Byte
    requires t.Item?
  {
    Ref(t.content) + (if t.hasSub then 0x20 else 0) +
    (if t.right.Some? then 0x40 else 0) + (if t.origin.Some? then 0x80 else 0)
  }

  function EncStruct(t: Struct): (e: seq<Byte>)
    ensures e != []
  {
    match t
    case GC(len) => [0] + Uint(len)
    case Skip(len) => [10] + Uint(len)
    case Item(_, _, _, _, _, _) =>
      [Info(t)] + (EncOption(t.origin) + (EncOption(t.right) + (EncPlace(t) + EncContent(t.content))))
  }

  ghost predicate GoodStruct(t: Struct) {
    match t
    case GC(len) => len <= MAX_LEN
    case Skip(len) => len <= MAX_LEN
    case Item(origin, right, hasSub, parent, sub, content) =>
      && (origin.Some? ==> GoodID(origin.value)) && (right.Some? ==> GoodID(right.value))
      && (parent.Some? <==> origin == None && right == None)
      && (parent.Some? ==> match parent.value case Named(name) => |name| <= MAX_SAFE case Owned(item) => GoodID(item))
      && |sub| <= MAX_SAFE && (sub != [] ==> parent.Some? && hasSub)
      && GoodContent(content)
  }

  function CanonStruct(t: Struct): Struct {
    if t.Item? then t.(content := CanonContent(t.content)) else t
  }

  ghost predicate SignlessStruct(t: Struct) {
    t.Item? ==> SignlessContent(t.content)
  }

  lemma CanonStructWrites(t: Struct)
    ensures |EncStruct(CanonStruct(t))| == |EncStruct(t)|
    ensures EncStruct(CanonStruct(t)) == EncStruct(t) <==> SignlessStruct(t)
  {
    hide EncContent, CanonContent, SignlessContent, EncOption;
    if t.Item? {
      var head := EncOption(t.origin) + (EncOption(t.right) + EncPlace(t));
      CanonContentWrites(t.content);
      Grouped(t);
      Grouped(CanonStruct(t));
      SamePrefix([Info(t)] + head, EncContent(CanonContent(t.content)), EncContent(t.content));
    }
  }

  lemma Grouped(t: Struct)
    requires t.Item?
    ensures EncStruct(t) ==
            [Info(t)] + (EncOption(t.origin) + (EncOption(t.right) + EncPlace(t))) + EncContent(t.content)
  {
    hide EncContent, EncOption, EncPlace;
    var a, b, c, d := EncOption(t.origin), EncOption(t.right), EncPlace(t), EncContent(t.content);
    assert a + (b + (c + d)) == a + (b + c) + d;
  }

  function ReadOption(s: seq<Byte>, i: nat, there: bool): (r: Read<Option<ID>>) {
    if !there then Got(None, i)
    else var id := ReadID(s, i); if id.Failed? then Failed(id.error) else Got(Some(id.value), id.next)
  }

  function ReadParent(s: seq<Byte>, i: nat): (r: Read<Parent>) {
    var kind := ReadUint(s, i, 0, 1);
    if kind.Failed? then Failed(kind.error)
    else if kind.value == 1 then
      var name := ReadBytes(s, kind.next);
      if name.Failed? then Failed(name.error) else Got(Named(name.value), name.next)
    else if kind.value == 0 then
      var id := ReadID(s, kind.next); if id.Failed? then Failed(id.error) else Got(Owned(id.value), id.next)
    else Failed(Corrupt)
  }

  /** Where an item goes, if that is on the wire. */
  function ReadPlace(s: seq<Byte>, i: nat, there: bool, hasSub: bool): (r: Read<(Option<Parent>, seq<Byte>)>) {
    if !there then Got((None, []), i)
    else
      var parent := ReadParent(s, i);
      if parent.Failed? then Failed(parent.error)
      else if !hasSub then Got((Some(parent.value), []), parent.next)
      else
        var sub := ReadBytes(s, parent.next);
        if sub.Failed? then Failed(sub.error) else Got((Some(parent.value), sub.value), sub.next)
  }

  function ReadItem(s: seq<Byte>, i: nat, info: Byte): (r: Read<Struct>) {
    var origin := ReadOption(s, i, info / 128 == 1);
    if origin.Failed? then Failed(origin.error)
    else
      var right := ReadOption(s, origin.next, info / 64 % 2 == 1);
      if right.Failed? then Failed(right.error)
      else
        var hasSub := info / 32 % 2 == 1;
        var place := ReadPlace(s, right.next, origin.value == None && right.value == None, hasSub);
        if place.Failed? then Failed(place.error)
        else
          var content := ReadContent(s, place.next, info % 32);
          if content.Failed? then Failed(content.error)
          else Got(Item(origin.value, right.value, hasSub, place.value.0, place.value.1, content.value), content.next)
  }

  /** `readStruct`: collected and skipped ranges carry no flags. */
  function ReadStruct(s: seq<Byte>, i: nat): (r: Read<Struct>) {
    if i >= |s| then Failed(UnexpectedEOF)
    else
      var info := s[i];
      if info % 32 == 0 || info % 32 == 10 then
        if info >= 32 then Failed(Corrupt)
        else
          var n := ReadLen(s, i + 1);
          if n.Failed? then Failed(n.error) else Got(if info == 0 then GC(n.value) else Skip(n.value), n.next)
      else ReadItem(s, i + 1, info)
  }

  lemma OptionReads(s: seq<Byte>, i: nat, x: Option<ID>)
    requires Occurs(s, i, EncOption(x)) && (x.Some? ==> GoodID(x.value))
    ensures ReadOption(s, i, x.Some?) == Got(x, i + |EncOption(x)|)
  {
    if x.Some? { IDReads(s, i, x.value); }
  }

  lemma ParentReads(s: seq<Byte>, i: nat, p: Parent)
    requires Occurs(s, i, EncParent(p))
    requires match p case Named(name) => |name| <= MAX_SAFE case Owned(item) => GoodID(item)
    ensures ReadParent(s, i) == Got(p, i + |EncParent(p)|)
  {
    hide Occurs, Uint, ReadUint, Bytes, ReadBytes, EncID, ReadID;
    match p
    case Named(name) =>
      OccursSplit(s, i, Uint(1), Bytes(name));
      UintReads(s, i, 1);
      BytesRead(s, i + |Uint(1)|, name);
    case Owned(item) =>
      OccursSplit(s, i, Uint(0), EncID(item));
      UintReads(s, i, 0);
      IDReads(s, i + |Uint(0)|, item);
  }

  lemma PlaceReads(s: seq<Byte>, i: nat, t: Struct)
    requires t.Item? && Occurs(s, i, EncPlace(t)) && GoodStruct(t)
    ensures ReadPlace(s, i, t.origin == None && t.right == None, t.hasSub) == Got((t.parent, t.sub), i + |EncPlace(t)|)
  {
    hide Occurs, Bytes, ReadBytes, EncParent, ReadParent, GoodContent;
    if t.parent.Some? {
      var sub := if t.hasSub then Bytes(t.sub) else [];
      OccursSplit(s, i, EncParent(t.parent.value), sub);
      ParentReads(s, i, t.parent.value);
      if t.hasSub { BytesRead(s, i + |EncParent(t.parent.value)|, t.sub); }
    }
  }

  lemma ItemReads(s: seq<Byte>, i: nat, t: Struct)
    requires t.Item? && GoodStruct(t)
    requires Occurs(s, i, EncOption(t.origin) + (EncOption(t.right) + (EncPlace(t) + EncContent(t.content))))
    ensures ReadItem(s, i, Info(t)) ==
              Got(CanonStruct(t),
                i + |EncOption(t.origin)| + |EncOption(t.right)| + |EncPlace(t)| + |EncContent(t.content)|)
  {
    hide Occurs, EncOption, ReadOption, EncPlace, ReadPlace, EncContent, ReadContent, GoodContent, CanonContent;
    var a, b, c, d := EncOption(t.origin), EncOption(t.right), EncPlace(t), EncContent(t.content);
    OccursSplit(s, i, a, b + (c + d));
    OccursSplit(s, i + |a|, b, c + d);
    OccursSplit(s, i + |a| + |b|, c, d);
    OptionReads(s, i, t.origin);
    OptionReads(s, i + |a|, t.right);
    PlaceReads(s, i + |a| + |b|, t);
    ContentReads(s, i + |a| + |b| + |c|, t.content);
    InfoBits(t);
  }

  lemma InfoBits(t: Struct)
    requires t.Item?
    ensures Info(t) % 32 == Ref(t.content) && Info(t) / 32 % 2 == (if t.hasSub then 1 else 0)
    ensures Info(t) / 64 % 2 == (if t.right.Some? then 1 else 0) && Info(t) / 128 == (if t.origin.Some? then 1 else 0)
  {
  }

  lemma StructReads(s: seq<Byte>, i: nat, t: Struct)
    requires Occurs(s, i, EncStruct(t)) && GoodStruct(t)
    ensures ReadStruct(s, i) == Got(CanonStruct(t), i + |EncStruct(t)|)
  {
    hide Occurs, Uint, ReadUint, EncOption, EncPlace, EncContent, ReadItem, GoodContent, CanonContent;
    OccursFirst(s, i, EncStruct(t));
    if t.Item? {
      InfoBits(t);
      assert EncStruct(t)[1..] == EncOption(t.origin) + (EncOption(t.right) + (EncPlace(t) + EncContent(t.content)));
      ItemReads(s, i + 1, t);
    } else {
      assert EncStruct(t)[1..] == Uint(t.len);
      UintReads(s, i + 1, t.len);
    }
  }

  lemma ReadStructGood(s: seq<Byte>, i: nat)
    requires |s| <= MAX_SAFE
    ensures ReadStruct(s, i).Got? ==> GoodStruct(ReadStruct(s, i).value)
  {
    hide ReadUint, ReadBytes, ReadContent, GoodContent;
    if i < |s| && s[i] % 32 != 0 && s[i] % 32 != 10 {
      var r := ReadItem(s, i + 1, s[i]);
      if r.Got? {
        forall k: nat { ReadContentGood(s, k, s[i] % 32); }
      }
    }
  }

  // ---------------------------------------------------------------- blocks

  function EncBlock(b: Block): (e: seq<Byte>)
    ensures e != []
  {
    Uint(|b.structs|) + (Uint(b.client) + (Uint(b.startClock) + EncAll(b.structs, EncStruct)))
  }

  ghost predicate GoodBlock(b: Block) {
    && b.client <= MAX_SAFE && b.startClock <= MAX_SAFE && |b.structs| <= MAX_SAFE
    && forall t <- b.structs :: GoodStruct(t)
  }

  function CanonBlock(b: Block): Block {
    b.(structs := Each(b.structs, CanonStruct))
  }

  ghost predicate SignlessBlock(b: Block) {
    forall t <- b.structs :: SignlessStruct(t)
  }

  lemma CanonBlockWrites(b: Block)
    ensures |EncBlock(CanonBlock(b))| == |EncBlock(b)|
    ensures EncBlock(CanonBlock(b)) == EncBlock(b) <==> SignlessBlock(b)
  {
    hide Uint, EncStruct, CanonStruct, SignlessStruct, EncAll, Each;
    ghost var signless := (t: Struct) => SignlessStruct(t);
    forall t <- b.structs { CanonStructWrites(t); }
    EachWrites(b.structs, EncStruct, CanonStruct, signless);
    var n, c, k, e, e' := Uint(|b.structs|), Uint(b.client), Uint(b.startClock), EncAll(b.structs, EncStruct),
        EncAll(Each(b.structs, CanonStruct), EncStruct);
    EachLength(b.structs, CanonStruct);
    SamePrefix(k, e', e);
    SamePrefix(c, k + e', k + e);
    SamePrefix(n, c + (k + e'), c + (k + e));
  }

  lemma EachLength<T>(xs: seq<T>, f: T -> T)
    ensures |Each(xs, f)| == |xs|
  {
  }

  lemma CanonBlockTwice(b: Block)
    ensures CanonBlock(CanonBlock(b)) == CanonBlock(b)
  {
    hide CanonContent;
    forall i | 0 <= i < |b.structs|
      ensures CanonStruct(CanonStruct(b.structs[i])) == CanonStruct(b.structs[i])
    {
      if b.structs[i].Item? { CanonContentTwice(b.structs[i].content); }
    }
  }

  lemma CanonBlockGood(b: Block)
    requires GoodBlock(b)
    ensures GoodBlock(CanonBlock(b))
  {
    hide GoodContent, CanonContent;
    forall i | 0 <= i < |b.structs|
      ensures GoodStruct(CanonStruct(b.structs[i]))
    {
      assert b.structs[i] in b.structs;
      if b.structs[i].Item? { CanonContentGood(b.structs[i].content); }
    }
  }

  function ReadBlock(s: seq<Byte>, i: nat): (r: Read<Block>) {
    var n := ReadUint(s, i, 0, 1);
    if n.Failed? then Failed(n.error)
    else if n.value > |s| - n.next then Failed(UnexpectedEOF)
    else
      var client := ReadSafe(s, n.next);
      if client.Failed? then Failed(client.error)
      else
        var clock := ReadSafe(s, client.next);
        if clock.Failed? then Failed(clock.error)
        else
          var structs := ReadMany(s, clock.next, n.value, ReadStruct);
          if structs.Failed? then Failed(structs.error)
          else Got(Block(client.value, clock.value, structs.value), structs.next)
  }

  lemma StructReadsBack(s: seq<Byte>, t: Struct)
    requires GoodStruct(t)
    ensures ReadsAs(s, t, CanonStruct(t), EncStruct, ReadStruct)
  {
    hide EncStruct, ReadStruct, GoodStruct, CanonStruct;
    forall k: nat | Occurs(s, k, EncStruct(t))
      ensures ReadStruct(s, k) == Got(CanonStruct(t), k + |EncStruct(t)|)
    {
      StructReads(s, k, t);
    }
  }

  lemma BlockReads(s: seq<Byte>, i: nat, b: Block)
    requires Occurs(s, i, EncBlock(b)) && GoodBlock(b)
    ensures ReadBlock(s, i) == Got(CanonBlock(b), i + |EncBlock(b)|)
  {
    hide Occurs, Uint, ReadUint, EncStruct, ReadStruct, GoodStruct, ReadMany, EncAll, ReadsAs, CanonStruct;
    var n, c, k, e := Uint(|b.structs|), Uint(b.client), Uint(b.startClock), EncAll(b.structs, EncStruct);
    OccursSplit(s, i, n, c + (k + e));
    OccursSplit(s, i + |n|, c, k + e);
    OccursSplit(s, i + |n| + |c|, k, e);
    OccursFits(s, i + |n| + |c| + |k|, e);
    UintReads(s, i, |b.structs|);
    UintReads(s, i + |n|, b.client);
    UintReads(s, i + |n| + |c|, b.startClock);
    forall t <- b.structs { StructReadsBack(s, t); }
    ManyRead(s, i + |n| + |c| + |k|, b.structs, Each(b.structs, CanonStruct), EncStruct, ReadStruct);
  }

  lemma ReadBlockGood(s: seq<Byte>, i: nat)
    requires |s| <= MAX_SAFE
    ensures ReadBlock(s, i).Got? ==> GoodBlock(ReadBlock(s, i).value)
  {
    hide ReadUint, ReadStruct, GoodStruct, ReadMany;
    ghost var good := (t: Struct) => GoodStruct(t);
    forall k: nat
      ensures ReadStruct(s, k).Got? ==> good(ReadStruct(s, k).value)
    {
      ReadStructGood(s, k);
    }
    forall k: nat, n: nat { ManyGood(s, k, n, ReadStruct, good); }
  }

  // ---------------------------------------------------------------- delete sets

  datatype Deletions = Deletions(client: nat, ranges: seq<Range>)

  function EncRange(r: Range): (e: seq<Byte>)
    ensures e != []
  {
    Uint(r.clock) + Uint(r.len)
  }

  function ReadRange(s: seq<Byte>, i: nat): (r: Read<Range>) {
    var clock := ReadSafe(s, i);
    if clock.Failed? then Failed(clock.error)
    else
      var n := ReadLen(s, clock.next);
      if n.Failed? then Failed(n.error) else Got(Range(clock.value, n.value), n.next)
  }

  predicate GoodRange(r: Range) {
    r.clock <= MAX_SAFE && r.len <= MAX_LEN
  }

  function EncDeletions(d: Deletions): (e: seq<Byte>)
    ensures e != []
  {
    Uint(d.client) + EncCounted(d.ranges, EncRange)
  }

  function ReadDeletions(s: seq<Byte>, i: nat): (r: Read<Deletions>) {
    var client := ReadSafe(s, i);
    if client.Failed? then Failed(client.error)
    else
      var ranges := ReadCounted(s, client.next, ReadRange);
      if ranges.Failed? then Failed(ranges.error) else Got(Deletions(client.value, ranges.value), ranges.next)
  }

  ghost predicate GoodDeletions(d: Deletions) {
    d.client <= MAX_SAFE && |d.ranges| <= MAX_SAFE && forall r <- d.ranges :: GoodRange(r)
  }

  lemma RangeReadsBack(s: seq<Byte>, r: Range)
    requires GoodRange(r)
    ensures ReadsAs(s, r, r, EncRange, ReadRange)
  {
    hide Uint, ReadUint;
    forall k: nat | Occurs(s, k, EncRange(r))
      ensures ReadRange(s, k) == Got(r, k + |EncRange(r)|)
    {
      OccursSplit(s, k, Uint(r.clock), Uint(r.len));
      UintReads(s, k, r.clock);
      UintReads(s, k + |Uint(r.clock)|, r.len);
    }
  }

  lemma DeletionsReadBack(s: seq<Byte>, d: Deletions)
    requires GoodDeletions(d)
    ensures ReadsAs(s, d, d, EncDeletions, ReadDeletions)
  {
    hide Uint, ReadUint, EncCounted, ReadCounted, EncRange, ReadRange;
    forall k: nat | Occurs(s, k, EncDeletions(d))
      ensures ReadDeletions(s, k) == Got(d, k + |EncDeletions(d)|)
    {
      OccursSplit(s, k, Uint(d.client), EncCounted(d.ranges, EncRange));
      UintReads(s, k, d.client);
      forall r <- d.ranges { RangeReadsBack(s, r); }
      CountedRead(s, k + |Uint(d.client)|, d.ranges, d.ranges, EncRange, ReadRange);
    }
  }

  lemma ReadDeletionsGood(s: seq<Byte>, i: nat)
    requires |s| <= MAX_SAFE
    ensures ReadDeletions(s, i).Got? ==> GoodDeletions(ReadDeletions(s, i).value)
  {
    hide ReadUint, ReadCounted;
    ghost var good := (r: Range) => GoodRange(r);
    forall k: nat { CountedGood(s, k, ReadRange, good); }
  }

  /** The decoder's map: a client named twice keeps what came last. */
  function Collect(m: map<nat, seq<Range>>, ds: seq<Deletions>): map<nat, seq<Range>>
    decreases |ds|
  {
    if ds == [] then m else Collect(m[ds[0].client := ds[0].ranges], ds[1..])
  }

  lemma HasLargest(s: set<nat>)
    requires s != {}
    ensures exists x :: x in s && forall y <- s :: y <= x
  {
    var x := Largest(s);
  }

  /** A delete set as it is written: the clients in descending order. */
  ghost function Listing(m: map<nat, seq<Range>>): seq<Deletions>
    decreases |m|
  {
    if m == map[] then []
    else
      HasLargest(m.Keys);
      var c :| c in m.Keys && forall y <- m.Keys :: y <= c;
      Smaller(m, c);
      [Deletions(c, m[c])] + Listing(m - {c})
  }

  lemma Smaller(m: map<nat, seq<Range>>, c: nat)
    requires c in m
    ensures |m - {c}| == |m| - 1
  {
    assert (m - {c}).Keys == m.Keys - {c};
    assert |m| == |m.Keys| && |m - {c}| == |(m - {c}).Keys|;
  }

  lemma {:induction false} ListingIsAll(m: map<nat, seq<Range>>)
    ensures |Listing(m)| == |m|
    ensures forall d <- Listing(m) :: d.client in m && d.ranges == m[d.client]
    decreases |m|
  {
    if m != map[] {
      HasLargest(m.Keys);
      var ds := Listing(m);
      var c := ds[0].client;
      assert ds == [Deletions(c, m[c])] + Listing(m - {c});
      Smaller(m, c);
      ListingIsAll(m - {c});
    }
  }

  lemma MoveOver(acc: map<nat, seq<Range>>, m: map<nat, seq<Range>>, c: nat)
    requires c in m
    ensures acc[c := m[c]] + (m - {c}) == acc + m
  {
  }

  /** Reading the clients back gives the map back. */
  lemma {:induction false} CollectListing(acc: map<nat, seq<Range>>, m: map<nat, seq<Range>>)
    ensures Collect(acc, Listing(m)) == acc + m
    decreases |m|
  {
    if m == map[] {
      assert acc + m == acc;
    } else {
      HasLargest(m.Keys);
      var ds := Listing(m);
      var c := ds[0].client;
      assert ds == [Deletions(c, m[c])] + Listing(m - {c});
      Smaller(m, c);
      assert ds[1..] == Listing(m - {c});
      MoveOver(acc, m, c);
      CollectListing(acc[c := m[c]], m - {c});
    }
  }

  lemma {:induction false} CollectGood(m: map<nat, seq<Range>>, ds: seq<Deletions>)
    requires (forall d <- ds :: GoodDeletions(d)) && forall c <- m :: GoodDeletions(Deletions(c, m[c]))
    ensures |Collect(m, ds)| <= |m| + |ds|
    ensures forall c <- Collect(m, ds) :: GoodDeletions(Deletions(c, Collect(m, ds)[c]))
    decreases |ds|
  {
    if ds != [] {
      var m' := m[ds[0].client := ds[0].ranges];
      assert ds[0] in ds && ds[0] == Deletions(ds[0].client, ds[0].ranges);
      assert m'.Keys == m.Keys + {ds[0].client} && |m'| == |m'.Keys| && |m| == |m.Keys|;
      CollectGood(m', ds[1..]);
    }
  }

  // ---------------------------------------------------------------- updates

  predicate Descending(bs: seq<Block>) {
    forall i, j | 0 <= i < j < |bs| :: bs[i].client >= bs[j].client
  }

  /** `isDescendingByClient`. */
  predicate StrictlyDescending(bs: seq<Block>) {
    forall i | 0 < i < |bs| :: bs[i - 1].client > bs[i].client
  }

  /** Before every block whose client is not higher. */
  function Insert(b: Block, bs: seq<Block>): seq<Block> {
    if bs == [] || bs[0].client <= b.client then [b] + bs else [bs[0]] + Insert(b, bs[1..])
  }

  /** A stable sort, highest client first. */
  function Sort(bs: seq<Block>): seq<Block> {
    if bs == [] then [] else Insert(bs[0], Sort(bs[1..]))
  }

  function OfClient(bs: seq<Block>, c: nat): seq<Block> {
    if bs == [] then [] else (if bs[0].client == c then [bs[0]] else []) + OfClient(bs[1..], c)
  }

  lemma {:induction false} InsertKeeps(b: Block, bs: seq<Block>)
    ensures multiset(Insert(b, bs)) == multiset(bs) + multiset{b}
    decreases |bs|
  {
    if bs != [] && bs[0].client > b.client {
      InsertKeeps(b, bs[1..]);
      assert bs == [bs[0]] + bs[1..];
    }
  }

  lemma {:induction false} InsertDescends(b: Block, bs: seq<Block>)
    requires Descending(bs)
    ensures Descending(Insert(b, bs))
    decreases |bs|
  {
    if bs != [] && bs[0].client > b.client {
      var t := Insert(b, bs[1..]);
      InsertDescends(b, bs[1..]);
      InsertKeeps(b, bs[1..]);
      forall x <- t
        ensures x.client <= bs[0].client
      {
        assert x in multiset(t);
        assert x == b || x in multiset(bs[1..]);
      }
    }
  }

  lemma {:induction false} InsertStable(b: Block, bs: seq<Block>, c: nat)
    ensures OfClient(Insert(b, bs), c) == (if b.client == c then [b] else []) + OfClient(bs, c)
    decreases |bs|
  {
    if bs == [] || bs[0].client <= b.client {
      assert ([b] + bs)[1..] == bs;
    } else {
      InsertStable(b, bs[1..], c);
      var t := Insert(b, bs[1..]);
      OfClientFirst(bs[0], t, c);
      OfClientFirst(bs[0], bs[1..], c);
      assert bs == [bs[0]] + bs[1..];
      assert b.client == c ==> bs[0].client != c;
    }
  }

  lemma OfClientFirst(b: Block, bs: seq<Block>, c: nat)
    ensures OfClient([b] + bs, c) == if b.client == c then [b] + OfClient(bs, c) else OfClient(bs, c)
  {
    assert ([b] + bs)[1..] == bs;
  }

  /** The blocks are the same, highest client first, those of one client in the order they were. */
  lemma {:induction false} SortIsStable(bs: seq<Block>)
    ensures Descending(Sort(bs)) && multiset(Sort(bs)) == multiset(bs)
    ensures forall c :: OfClient(Sort(bs), c) == OfClient(bs, c)
    decreases |bs|
  {
    if bs != [] {
      SortIsStable(bs[1..]);
      InsertKeeps(bs[0], Sort(bs[1..]));
      InsertDescends(bs[0], Sort(bs[1..]));
      forall c { InsertStable(bs[0], Sort(bs[1..]), c); }
      assert bs == [bs[0]] + bs[1..];
    }
  }

  lemma {:induction false} SortedStays(bs: seq<Block>)
    requires Descending(bs)
    ensures Sort(bs) == bs
    decreases |bs|
  {
    if bs != [] {
      SortedStays(bs[1..]);
      assert bs == [bs[0]] + bs[1..];
    }
  }

  /** The order in which `Update.write` puts the blocks. */
  function Ordered(bs: seq<Block>): seq<Block> {
    if StrictlyDescending(bs) then bs else Sort(bs)
  }

  lemma {:induction false} StrictIsDescending(bs: seq<Block>, i: nat, j: nat)
    requires StrictlyDescending(bs) && i < j < |bs|
    ensures bs[i].client > bs[j].client
    decreases j - i
  {
    if i + 1 < j { StrictIsDescending(bs, i, j - 1); }
  }

  lemma OrderedIsSorted(bs: seq<Block>)
    ensures Ordered(bs) == Sort(bs)
  {
    if StrictlyDescending(bs) {
      forall i, j | 0 <= i < j < |bs| { StrictIsDescending(bs, i, j); }
      SortedStays(bs);
    }
  }

  lemma OrderedIsAll(bs: seq<Block>)
    ensures |Ordered(bs)| == |bs| && forall b :: b in Ordered(bs) <==> b in bs
  {
    hide Sort, Ordered;
    OrderedIsSorted(bs);
    SortIsStable(bs);
    assert |multiset(Sort(bs))| == |multiset(bs)|;
    forall b
      ensures b in Ordered(bs) <==> b in bs
    {
      assert b in multiset(Sort(bs)) <==> b in multiset(bs);
    }
  }

  /** What an update becomes when it is written and read back: the blocks in order, numbers in their
      shortest form. */
  function Canonical(u: Update): Update {
    u.(blocks := Each(Ordered(u.blocks), CanonBlock))
  }

  /** There is no negative zero in the update. */
  ghost predicate SignlessUpdate(u: Update) {
    forall b <- u.blocks :: SignlessBlock(b)
  }

  /** Blocks in order stay in order. */
  lemma CanonInOrder(bs: seq<Block>)
    ensures Ordered(Each(Ordered(bs), CanonBlock)) == Each(Ordered(bs), CanonBlock)
  {
    hide Sort, Ordered, CanonBlock;
    OrderedIsSorted(bs);
    SortIsStable(bs);
    var cs := Each(Ordered(bs), CanonBlock);
    assert Descending(cs) by { CanonDescends(Ordered(bs)); }
    SortedStays(cs);
    OrderedIsSorted(cs);
  }

  lemma CanonDescends(bs: seq<Block>)
    requires Descending(bs)
    ensures Descending(Each(bs, CanonBlock))
  {
    forall i, j | 0 <= i < j < |bs|
      ensures CanonBlock(bs[i]).client >= CanonBlock(bs[j]).client
    {
    }
  }

  ghost function EncUpdate(u: Update): seq<Byte> {
    EncCounted(Ordered(u.blocks), EncBlock) + EncCounted(Listing(u.deletes), EncDeletions)
  }

  /** Every number in the update can be written. */
  ghost predicate Encodable(u: Update) {
    && |u.blocks| <= MAX_SAFE && (forall b <- u.blocks :: GoodBlock(b))
    && |u.deletes| <= MAX_SAFE && (forall c <- u.deletes :: GoodDeletions(Deletions(c, u.deletes[c])))
  }

  function ReadUpdate(s: seq<Byte>, i: nat): (r: Read<Update>) {
    var blocks := ReadCounted(s, i, ReadBlock);
    if blocks.Failed? then Failed(blocks.error)
    else
      var deletes := ReadCounted(s, blocks.next, ReadDeletions);
      if deletes.Failed? then Failed(deletes.error)
      else Got(Update(blocks.value, Collect(map[], deletes.value)), deletes.next)
  }

  /** `DecodeUpdate`: the whole input is one update. */
  function Decode(s: seq<Byte>): (r: Read<Update>) {
    var u := ReadUpdate(s, 0);
    if u.Got? && u.next < |s| then Failed(Corrupt) else u
  }

  lemma BlocksRead(s: seq<Byte>, i: nat, blocks: seq<Block>)
    requires Occurs(s, i, EncCounted(Ordered(blocks), EncBlock)) && |blocks| <= MAX_SAFE
    requires forall b <- blocks :: GoodBlock(b)
    ensures ReadCounted(s, i, ReadBlock) == Got(Each(Ordered(blocks), CanonBlock),
            i + |EncCounted(Ordered(blocks), EncBlock)|)
  {
    hide Occurs, EncCounted, ReadCounted, EncBlock, ReadBlock, GoodBlock, Ordered, Sort, ReadsAs, CanonBlock;
    var bs := Ordered(blocks);
    OrderedIsAll(blocks);
    forall x <- bs { BlockReadsBack(s, x); }
    CountedRead(s, i, bs, Each(bs, CanonBlock), EncBlock, ReadBlock);
  }

  lemma DeletesRead(s: seq<Byte>, i: nat, m: map<nat, seq<Range>>)
    requires Occurs(s, i, EncCounted(Listing(m), EncDeletions)) && |m| <= MAX_SAFE
    requires forall c <- m :: GoodDeletions(Deletions(c, m[c]))
    ensures ReadCounted(s, i, ReadDeletions) == Got(Listing(m), i + |EncCounted(Listing(m), EncDeletions)|)
    ensures Collect(map[], Listing(m)) == m
  {
    hide Occurs, EncCounted, ReadCounted, EncDeletions, ReadDeletions, GoodDeletions, Listing, ReadsAs;
    ListingIsAll(m);
    forall x <- Listing(m)
      ensures ReadsAs(s, x, x, EncDeletions, ReadDeletions)
    {
      assert x == Deletions(x.client, m[x.client]);
      DeletionsReadBack(s, x);
    }
    CountedRead(s, i, Listing(m), Listing(m), EncDeletions, ReadDeletions);
    CollectListing(map[], m);
    assert map[] + m == m;
  }

  /** What was written reads back in canonical form. */
  lemma RoundTrip(u: Update)
    requires Encodable(u)
    ensures Decode(EncUpdate(u)) == Got(Canonical(u), |EncUpdate(u)|)
  {
    hide Occurs, EncCounted, ReadCounted, GoodBlock, GoodDeletions, Listing, Ordered, Collect, Each;
    var s := EncUpdate(u);
    var a, b := EncCounted(Ordered(u.blocks), EncBlock), EncCounted(Listing(u.deletes), EncDeletions);
    Whole(s);
    OccursSplit(s, 0, a, b);
    BlocksRead(s, 0, u.blocks);
    DeletesRead(s, |a|, u.deletes);
  }

  lemma Whole(s: seq<Byte>)
    ensures Occurs(s, 0, s)
  {
  }

  lemma BlockReadsBack(s: seq<Byte>, b: Block)
    requires GoodBlock(b)
    ensures ReadsAs(s, b, CanonBlock(b), EncBlock, ReadBlock)
  {
    hide EncBlock, ReadBlock, GoodBlock, CanonBlock;
    forall k: nat | Occurs(s, k, EncBlock(b))
      ensures ReadBlock(s, k) == Got(CanonBlock(b), k + |EncBlock(b)|)
    {
      BlockReads(s, k, b);
    }
  }

  /** Whatever decodes can be written again. */
  lemma DecodedIsEncodable(s: seq<Byte>)
    requires |s| <= MAX_SAFE && Decode(s).Got?
    ensures Encodable(Decode(s).value)
  {
    hide ReadCounted, ReadBlock, ReadDeletions, GoodBlock, GoodDeletions;
    ghost var goodBlock, goodDeletions := (b: Block) => GoodBlock(b), (d: Deletions) => GoodDeletions(d);
    forall k: nat
      ensures ReadBlock(s, k).Got? ==> goodBlock(ReadBlock(s, k).value)
      ensures ReadDeletions(s, k).Got? ==> goodDeletions(ReadDeletions(s, k).value)
    {
      ReadBlockGood(s, k);
      ReadDeletionsGood(s, k);
    }
    CountedGood(s, 0, ReadBlock, goodBlock);
    var blocks := ReadCounted(s, 0, ReadBlock);
    CountedGood(s, blocks.next, ReadDeletions, goodDeletions);
    CollectGood(map[], ReadCounted(s, blocks.next, ReadDeletions).value);
  }

  /** Writing the canonical form takes as many bytes as writing the update, and the same ones if and
      only if there is no negative zero in it. */
  lemma CanonicalWrites(u: Update)
    ensures |EncUpdate(Canonical(u))| == |EncUpdate(u)|
    ensures EncUpdate(Canonical(u)) == EncUpdate(u) <==> SignlessUpdate(u)
  {
    hide EncCounted, EncBlock, EncDeletions, Ordered, CanonBlock, SignlessBlock, Each, Listing;
    var bs := Ordered(u.blocks);
    OrderedIsAll(u.blocks);
    CanonInOrder(u.blocks);
    ghost var signless := (b: Block) => SignlessBlock(b);
    forall b <- bs { CanonBlockWrites(b); }
    CountedWrites(bs, EncBlock, CanonBlock, signless);
    SameParts(EncCounted(Each(bs, CanonBlock), EncBlock), EncCounted(Listing(u.deletes), EncDeletions),
              EncCounted(bs, EncBlock), EncCounted(Listing(u.deletes), EncDeletions));
  }

  lemma CanonicalTwice(u: Update)
    ensures Canonical(Canonical(u)) == Canonical(u)
  {
    hide Ordered, CanonBlock;
    CanonInOrder(u.blocks);
    forall b { CanonBlockTwice(b); }
  }

  lemma CanonicalIsEncodable(u: Update)
    requires Encodable(u)
    ensures Encodable(Canonical(u))
  {
    hide Ordered, CanonBlock, GoodBlock, GoodDeletions;
    OrderedIsAll(u.blocks);
    forall b <- u.blocks { CanonBlockGood(b); }
  }

  /** The fixed point: every byte string that decodes can be written again; what is written decodes
      to the update in canonical form; that can be written again and decodes to itself; and it is
      written as the update was if and only if there is no negative zero in the update. */
  lemma FixedPoint(s: seq<Byte>)
    requires |s| <= MAX_SAFE && Decode(s).Got?
    ensures var u := Decode(s).value;
            && Encodable(u) && Encodable(Canonical(u))
            && Decode(EncUpdate(u)) == Got(Canonical(u), |EncUpdate(u)|)
            && Decode(EncUpdate(Canonical(u))) == Got(Canonical(u), |EncUpdate(u)|)
            && (EncUpdate(Canonical(u)) == EncUpdate(u) <==> SignlessUpdate(u))
  {
    hide Decode, EncUpdate, Encodable, Canonical, SignlessUpdate;
    var u := Decode(s).value;
    DecodedIsEncodable(s);
    RoundTrip(u);
    CanonicalIsEncodable(u);
    RoundTrip(Canonical(u));
    CanonicalTwice(u);
    CanonicalWrites(u);
  }
}
