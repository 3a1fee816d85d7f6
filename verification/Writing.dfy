/**
  Writing an update to the wire (`Update.write` of internal/crdt/update.go, the `write` methods of
  struct.go and content.go, `writeDeleteSet` of deleteset.go, `WriteAny` of lib0/any.go).

  The encoder fails for good on the first number it cannot represent; it never does on what the
  decoder accepts.
*/
module Writing {
  import opened Ids
  import opened Varints
  import opened Anys
  import opened Codec
  import F = Floats

  lemma {:induction false} EncAllMore<T>(xs: seq<T>, enc: T -> seq<Byte>, i: nat)
    requires i < |xs|
    ensures EncAll(xs[..i + 1], enc) == EncAll(xs[..i], enc) + enc(xs[i])
    decreases i
  {
    if i == 0 {
      assert xs[..1][1..] == [] && xs[..0] == [];
    } else {
      EncAllMore(xs[1..], enc, i - 1);
      assert xs[..i + 1][1..] == xs[1..][..i] && xs[..i][1..] == xs[1..][..i - 1];
    }
  }

  method WriteID(e: Encoder, id: ID)
    requires !e.err && GoodID(id)
    modifies e
    ensures !e.err && e.buf == old(e.buf) + EncID(id)
  {
    e.WriteVarUint(id.client);
    e.WriteVarUint(id.clock);
  }

  /** `writeNumber`. */
  method WriteNumber(e: Encoder, x: F.Double)
    requires !e.err
    modifies e
    ensures !e.err && e.buf == old(e.buf) + F.WriteDouble(x)
  {
    hide Int, F.Small, F.Fits32, F.To32, F.BigEndian, F.IsNaN;
    if F.Small(x).Some? {
      F.SmallIsSmall(x);
      e.WriteUint8(125);
      if F.Small(x).value == 0 && F.Negative(x) {
        e.WriteUint8(0x40);
        return;
      }
      e.WriteVarInt(F.Small(x).value);
      return;
    }
    if F.Fits32(x) {
      e.WriteUint8(124);
      e.WriteBytes(F.BigEndian(F.To32(x), 4));
      return;
    }
    e.WriteUint8(123);
    var bits := x;
    if F.IsNaN(x) {
      bits := F.NAN;
    }
    e.WriteBytes(F.BigEndian(bits, 8));
  }

  /** `WriteAny`. */
  method WriteAny(e: Encoder, v: Any, ghost depth: nat)
    requires !e.err && Good(v, depth)
    modifies e
    ensures !e.err && e.buf == old(e.buf) + EncAny(v)
    decreases v, 1
  {
    hide Uint, Bytes, EncFields, EncAnys, F.WriteDouble, F.FromInt, Good;
    Sized(v, depth);
    match v
    case Undefined => e.WriteUint8(127);
    case Null => e.WriteUint8(126);
    case Integer(i) => WriteNumber(e, F.FromInt(i));
    case Float32(single) => WriteTagged(e, 124, single);
    case Float64(double) => WriteNumber(e, double);
    case BigInt(bits) => WriteTagged(e, 122, bits);
    case Bool(truth) => e.WriteUint8(if truth then 120 else 121);
    case Text(text) => WriteTaggedArray(e, 119, text);
    case Object(fields) => WriteFields(e, v, fields, depth);
    case Array(elems) => WriteElems(e, v, elems, depth);
    case Buffer(data) => WriteTaggedArray(e, 116, data);
  }

  lemma Sized(v: Any, depth: nat)
    requires Good(v, depth)
    ensures v.Text? ==> |v.text| <= MAX_SAFE
    ensures v.Buffer? ==> |v.data| <= MAX_SAFE
  {
  }

  method WriteTagged(e: Encoder, tag: Byte, bytes: seq<Byte>)
    requires !e.err
    modifies e
    ensures !e.err && e.buf == old(e.buf) + ([tag] + bytes)
  {
    e.WriteUint8(tag);
    e.WriteBytes(bytes);
  }

  method WriteTaggedArray(e: Encoder, tag: Byte, data: seq<Byte>)
    requires !e.err && |data| <= MAX_SAFE
    modifies e
    ensures !e.err && e.buf == old(e.buf) + ([tag] + Bytes(data))
  {
    hide Bytes;
    e.WriteUint8(tag);
    e.WriteVarUint8Array(data);
  }

  method WriteFields(e: Encoder, ghost v: Any, fields: seq<Field>, ghost depth: nat)
    requires !e.err && v == Object(fields) && Good(v, depth)
    modifies e
    ensures !e.err && e.buf == old(e.buf) + EncAny(v)
    decreases v, 0
  {
    hide Uint, Bytes, EncFields, Good;
    GoodFields(v, depth);
    e.WriteUint8(118);
    e.WriteVarUint(|fields|);
    ghost var head := e.buf;
    EncNothing();
    for i := 0 to |fields|
      invariant !e.err && e.buf == head + EncFields(fields[..i])
    {
      assert fields[i] in fields;
      ghost var done, key := EncFields(fields[..i]), Bytes(fields[i].key);
      e.WriteVarUint8Array(fields[i].key);
      ghost var value := EncAny(fields[i].value);
      WriteAny(e, fields[i].value, depth + 1);
      EncFieldsMore(fields, i);
      Regroup(head, done, key);
      Regroup(head, done + key, value);
    }
    assert fields[..|fields|] == fields;
    Regroup(old(e.buf), [118], Uint(|fields|));
    Regroup(old(e.buf), [118] + Uint(|fields|), EncFields(fields));
  }

  lemma GoodFields(v: Any, depth: nat)
    requires Good(v, depth) && v.Object?
    ensures |v.fields| <= MAX_SAFE && forall f <- v.fields :: |f.key| <= MAX_SAFE && Good(f.value, depth + 1)
  {
  }

  method WriteElems(e: Encoder, ghost v: Any, elems: seq<Any>, ghost depth: nat)
    requires !e.err && v == Array(elems) && Good(v, depth)
    modifies e
    ensures !e.err && e.buf == old(e.buf) + EncAny(v)
    decreases v, 0
  {
    hide Uint, EncAnys, Good;
    GoodElems(v, depth);
    e.WriteUint8(117);
    e.WriteVarUint(|elems|);
    ghost var head := e.buf;
    EncNothing();
    for i := 0 to |elems|
      invariant !e.err && e.buf == head + EncAnys(elems[..i])
    {
      assert elems[i] in elems;
      WriteAny(e, elems[i], depth + 1);
      EncAnysMore(elems, i);
      Regroup(head, EncAnys(elems[..i]), EncAny(elems[i]));
    }
    assert elems[..|elems|] == elems;
    Regroup(old(e.buf), [117], Uint(|elems|));
    Regroup(old(e.buf), [117] + Uint(|elems|), EncAnys(elems));
  }

  lemma GoodElems(v: Any, depth: nat)
    requires Good(v, depth) && v.Array?
    ensures |v.elems| <= MAX_SAFE && forall x <- v.elems :: Good(x, depth + 1)
  {
  }

  lemma EncNothing()
    ensures EncFields([]) == [] && EncAnys([]) == []
  {
  }

  lemma {:induction false} EncAnysMore(vs: seq<Any>, i: nat)
    requires i < |vs|
    ensures EncAnys(vs[..i + 1]) == EncAnys(vs[..i]) + EncAny(vs[i])
    decreases i
  {
    hide EncAny;
    if i == 0 {
      assert vs[..1][1..] == [] && vs[..0] == [];
    } else {
      EncAnysMore(vs[1..], i - 1);
      assert vs[..i + 1][1..] == vs[1..][..i] && vs[..i][1..] == vs[1..][..i - 1];
    }
  }

  lemma {:induction false} EncFieldsMore(fs: seq<Field>, i: nat)
    requires i < |fs|
    ensures EncFields(fs[..i + 1]) == EncFields(fs[..i]) + Bytes(fs[i].key) + EncAny(fs[i].value)
    decreases i
  {
    hide EncAny, Bytes;
    if i == 0 {
      assert fs[..1][1..] == [] && fs[..0] == [];
    } else {
      EncFieldsMore(fs[1..], i - 1);
      assert fs[..i + 1][1..] == fs[1..][..i] && fs[..i][1..] == fs[1..][..i - 1];
    }
  }

  /** The `write` methods of the contents. */
  method WriteContent(e: Encoder, c: Content)
    requires !e.err && GoodContent(c)
    modifies e
    ensures !e.err && e.buf == old(e.buf) + EncContent(c)
  {
    hide Uint, Bytes, EncAny, Good, EncAll;
    match c
    case ContentDeleted(len) => e.WriteVarUint(len);
    case ContentJSON(values) => WriteJSON(e, values);
    case ContentBinary(data) => e.WriteVarUint8Array(data);
    case ContentString(text) => e.WriteVarUint8Array(text);
    case ContentEmbed(json) => e.WriteVarUint8Array(json);
    case ContentFormat(key, value) =>
      e.WriteVarUint8Array(key);
      e.WriteVarUint8Array(value);
    case ContentType(typeRef, name) =>
      e.WriteVarUint(typeRef);
      if HasName(typeRef) {
        e.WriteVarUint8Array(name);
      }
    case ContentAny(anys) => WriteAnys(e, anys);
    case ContentDoc(guid, opts) =>
      e.WriteVarUint8Array(guid);
      WriteAny(e, opts, 0);
  }

  method WriteJSON(e: Encoder, values: seq<seq<Byte>>)
    requires !e.err && |values| <= MAX_LEN && forall v <- values :: |v| <= MAX_SAFE
    modifies e
    ensures !e.err && e.buf == old(e.buf) + EncCounted(values, Bytes)
  {
    hide Uint;
    e.WriteVarUint(|values|);
    for i := 0 to |values|
      invariant !e.err && e.buf == old(e.buf) + Uint(|values|) + EncAll(values[..i], Bytes)
    {
      assert values[i] in values;
      e.WriteVarUint8Array(values[i]);
      EncAllMore(values, Bytes, i);
    }
    assert values[..|values|] == values;
  }

  method WriteAnys(e: Encoder, anys: seq<Any>)
    requires !e.err && |anys| <= MAX_LEN && forall v <- anys :: Good(v, 0)
    modifies e
    ensures !e.err && e.buf == old(e.buf) + EncCounted(anys, EncAny)
  {
    hide Uint, EncAny, Good;
    e.WriteVarUint(|anys|);
    for i := 0 to |anys|
      invariant !e.err && e.buf == old(e.buf) + Uint(|anys|) + EncAll(anys[..i], EncAny)
    {
      assert anys[i] in anys;
      WriteAny(e, anys[i], 0);
      EncAllMore(anys, EncAny, i);
    }
    assert anys[..|anys|] == anys;
  }

  method WriteOption(e: Encoder, x: Option<ID>)
    requires !e.err && (x.Some? ==> GoodID(x.value))
    modifies e
    ensures !e.err && e.buf == old(e.buf) + EncOption(x)
  {
    hide EncID;
    if x.Some? {
      WriteID(e, x.value);
    }
  }

  method WriteParent(e: Encoder, p: Parent)
    requires !e.err && match p case Named(name) => |name| <= MAX_SAFE case Owned(item) => GoodID(item)
    modifies e
    ensures !e.err && e.buf == old(e.buf) + EncParent(p)
  {
    hide Uint, Bytes, EncID;
    match p
    case Named(name) =>
      e.WriteVarUint(1);
      e.WriteVarUint8Array(name);
    case Owned(item) =>
      e.WriteVarUint(0);
      WriteID(e, item);
  }

  /** Where an item goes: neighbours, and the list if there are none. */
  method WritePlace(e: Encoder, t: Struct)
    requires !e.err && t.Item? && GoodStruct(t)
    modifies e
    ensures !e.err && e.buf == old(e.buf) + EncOption(t.origin) + EncOption(t.right) + EncPlace(t)
  {
    hide Bytes, EncOption, EncParent, GoodContent;
    WriteOption(e, t.origin);
    WriteOption(e, t.right);
    if t.origin == None && t.right == None && t.parent.Some? {
      ghost var head := e.buf;
      WriteParent(e, t.parent.value);
      if t.hasSub {
        e.WriteVarUint8Array(t.sub);
      }
      Regroup(head, EncParent(t.parent.value), if t.hasSub then Bytes(t.sub) else []);
    }
  }

  method WriteStruct(e: Encoder, t: Struct)
    requires !e.err && GoodStruct(t)
    modifies e
    ensures !e.err && e.buf == old(e.buf) + EncStruct(t)
  {
    hide Uint, EncOption, EncPlace, EncContent, GoodContent;
    match t
    case GC(len) =>
      e.WriteUint8(0);
      e.WriteVarUint(len);
    case Skip(len) =>
      e.WriteUint8(10);
      e.WriteVarUint(len);
    case Item(_, _, _, _, _, content) =>
      e.WriteUint8(Info(t));
      WritePlace(e, t);
      WriteContent(e, content);
  }

  method WriteStructs(e: Encoder, structs: seq<Struct>)
    requires !e.err && forall t <- structs :: GoodStruct(t)
    modifies e
    ensures !e.err && e.buf == old(e.buf) + EncAll(structs, EncStruct)
  {
    hide EncStruct, GoodStruct;
    for i := 0 to |structs|
      invariant !e.err && e.buf == old(e.buf) + EncAll(structs[..i], EncStruct)
    {
      assert structs[i] in structs;
      WriteStruct(e, structs[i]);
      EncAllMore(structs, EncStruct, i);
      Regroup(old(e.buf), EncAll(structs[..i], EncStruct), EncStruct(structs[i]));
    }
    assert structs[..|structs|] == structs;
  }

  method WriteBlock(e: Encoder, b: Block)
    requires !e.err && GoodBlock(b)
    modifies e
    ensures !e.err && e.buf == old(e.buf) + EncBlock(b)
  {
    hide Uint, EncStruct, GoodStruct, EncAll;
    e.WriteVarUint(|b.structs|);
    e.WriteVarUint(b.client);
    e.WriteVarUint(b.startClock);
    WriteStructs(e, b.structs);
    ghost var n, c, k, all := Uint(|b.structs|), Uint(b.client), Uint(b.startClock), EncAll(b.structs, EncStruct);
    Regroup(old(e.buf) + n + c, k, all);
    Regroup(old(e.buf) + n, c, k + all);
    Regroup(old(e.buf), n, c + (k + all));
  }

  method WriteRange(e: Encoder, r: Range)
    requires !e.err && GoodRange(r)
    modifies e
    ensures !e.err && e.buf == old(e.buf) + EncRange(r)
  {
    hide Uint;
    e.WriteVarUint(r.clock);
    e.WriteVarUint(r.len);
  }

  method WriteDeletions(e: Encoder, d: Deletions)
    requires !e.err && GoodDeletions(d)
    modifies e
    ensures !e.err && e.buf == old(e.buf) + EncDeletions(d)
  {
    hide Uint, EncRange;
    e.WriteVarUint(d.client);
    e.WriteVarUint(|d.ranges|);
    ghost var head := e.buf;
    for i := 0 to |d.ranges|
      invariant !e.err && e.buf == head + EncAll(d.ranges[..i], EncRange)
    {
      assert d.ranges[i] in d.ranges;
      WriteRange(e, d.ranges[i]);
      EncAllMore(d.ranges, EncRange, i);
      Regroup(head, EncAll(d.ranges[..i], EncRange), EncRange(d.ranges[i]));
    }
    assert d.ranges[..|d.ranges|] == d.ranges;
  }

  /** `writeDeleteSet`: the clients in descending order. */
  method WriteDeletes(e: Encoder, m: map<nat, seq<Range>>)
    requires !e.err && |m| <= MAX_SAFE && forall c <- m :: GoodDeletions(Deletions(c, m[c]))
    modifies e
    ensures !e.err && e.buf == old(e.buf) + EncCounted(Listing(m), EncDeletions)
  {
    hide Uint, EncDeletions, GoodDeletions, Listing, EncAll;
    ListingIsAll(m);
    e.WriteVarUint(|m|);
    var todo := m;
    ghost var all := e.buf + EncAll(Listing(m), EncDeletions);
    while todo != map[]
      invariant !e.err && (forall c <- todo :: c in m && todo[c] == m[c])
      invariant e.buf + EncAll(Listing(todo), EncDeletions) == all
      decreases |todo|
    {
      HasLargest(todo.Keys);
      var c :| c in todo.Keys && forall y <- todo.Keys :: y <= c;
      ListingFirst(todo, c);
      Smaller(todo, c);
      ghost var before := e.buf;
      WriteDeletions(e, Deletions(c, todo[c]));
      Regroup(before, EncDeletions(Deletions(c, todo[c])), EncAll(Listing(todo - {c}), EncDeletions));
      todo := todo - {c};
    }
    ListingNothing();
    Regroup(old(e.buf), Uint(|m|), EncAll(Listing(m), EncDeletions));
  }

  lemma Regroup(a: seq<Byte>, b: seq<Byte>, c: seq<Byte>)
    ensures a + (b + c) == a + b + c
  {
  }

  lemma ListingNothing()
    ensures EncAll(Listing(map[]), EncDeletions) == []
  {
  }

  lemma ListingFirst(m: map<nat, seq<Range>>, c: nat)
    requires c in m && forall y <- m :: y <= c
    ensures EncAll(Listing(m), EncDeletions) == EncDeletions(Deletions(c, m[c])) + EncAll(Listing(m - {c}),
            EncDeletions)
  {
    hide EncDeletions;
    HasLargest(m.Keys);
    var ds := Listing(m);
    assert ds[0].client == c;
    assert ds[1..] == Listing(m - {c});
  }

  /** `Update.write`: on whatever can be written the encoder does not fail, and appends exactly the
      encoding. */
  method WriteUpdate(e: Encoder, u: Update)
    requires !e.err && Encodable(u)
    modifies e
    ensures !e.err && e.buf == old(e.buf) + EncUpdate(u)
  {
    hide Uint, EncBlock, GoodBlock, Ordered, EncDeletions, Listing, GoodDeletions, Sort;
    var blocks := Ordered(u.blocks);
    OrderedIsAll(u.blocks);
    e.WriteVarUint(|blocks|);
    ghost var head := e.buf;
    for i := 0 to |blocks|
      invariant !e.err && e.buf == head + EncAll(blocks[..i], EncBlock)
    {
      assert blocks[i] in blocks;
      WriteBlock(e, blocks[i]);
      EncAllMore(blocks, EncBlock, i);
    }
    assert blocks[..|blocks|] == blocks;
    WriteDeletes(e, u.deletes);
  }

  /** Any byte string the decoder accepts can be re-encoded: the encoder does not fail, and what it
      writes decodes to the update in canonical form.  Re-encoding that gives bytes that decode to it
      again, and the same bytes if and only if there is no negative zero in the update. */
  method Reencode(s: seq<Byte>) returns (e: Encoder)
    requires |s| <= MAX_SAFE && Decode(s).Got?
    ensures fresh(e) && !e.err && Decode(e.buf) == Got(Canonical(Decode(s).value), |e.buf|)
    ensures var c := Canonical(Decode(s).value);
            && Encodable(c) && Decode(EncUpdate(c)) == Got(c, |e.buf|)
            && (EncUpdate(c) == e.buf <==> SignlessUpdate(Decode(s).value))
  {
    hide Decode, EncUpdate, Encodable, Canonical, SignlessUpdate;
    FixedPoint(s);
    e := new Encoder();
    WriteUpdate(e, Decode(s).value);
    assert e.buf == EncUpdate(Decode(s).value);
  }
}
