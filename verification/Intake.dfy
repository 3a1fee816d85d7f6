/**
  From bytes to documents: what a decoded update says, and applying it (`DecodeUpdate` of
  internal/crdt/update.go and `ApplyUpdate` of internal/crdt/doc.go).

  On the wire a struct has no id; it follows from where its block starts and how long the structs
  before it are.
*/
module Intake {
  import opened Ids
  import opened Varints
  import opened Histories
  import opened Ledgers
  import opened Docs
  import opened Steps
  import C = Codec
  import S = Structs
  import D = DeleteSets

  /** How content is cut into units, and which strings bytes spell. */
  datatype Meaning = Meaning(content: C.Content -> S.Content, name: seq<Byte> -> string)

  function OwnerOf(m: Meaning, p: C.Parent, hasSub: bool, sub: seq<Byte>): S.Owner {
    S.Owner(match p case Named(name) => S.Root(m.name(name)) case Owned(item) => S.Nested(item),
            if hasSub then Some(m.name(sub)) else None)
  }

  function StructOf(m: Meaning, id: ID, t: C.Struct): S.Struct {
    match t
    case GC(len) => S.Struct.GC(id, len)
    case Skip(len) => S.Struct.Skip(id, len)
    case Item(origin, right, hasSub, parent, sub, content) =>
      S.Struct.Item(id, origin, right, if parent.Some? then Some(OwnerOf(m, parent.value, hasSub, sub))
        else None, m.content(content))
  }

  /** The structs of a block, each starting where the one before ends. */
  function Numbered(m: Meaning, client: nat, clock: nat, ts: seq<C.Struct>): seq<S.Struct>
    decreases |ts|
  {
    if ts == [] then []
    else
      var s := StructOf(m, ID(client, clock), ts[0]);
      [s] + Numbered(m, client, s.End(), ts[1..])
  }

  function BlockOf(m: Meaning, b: C.Block): Block {
    Block(b.client, Numbered(m, b.client, b.startClock, b.structs))
  }

  function BlocksOf(m: Meaning, bs: seq<C.Block>): seq<Block> {
    seq(|bs|, i requires 0 <= i < |bs| => BlockOf(m, bs[i]))
  }

  function RangesOf(rs: seq<C.Range>): seq<D.Range> {
    seq(|rs|, i requires 0 <= i < |rs| => D.Range(rs[i].clock, rs[i].len))
  }

  function UpdateOf(m: Meaning, u: C.Update): Update {
    Update(BlocksOf(m, u.blocks), map c | c in u.deletes :: RangesOf(u.deletes[c]))
  }

  /** Which decoded field becomes which: the neighbours are the ids read, a named list is a root type and
      an owned one hangs off the item, a key is there if its flag is set; ranges stay as they are. */
  lemma FieldsKept(m: Meaning, id: ID, t: C.Struct, rs: seq<C.Range>)
    ensures var s := StructOf(m, id, t);
            && s.id == id && (s.GC? <==> t.GC?) && (s.Skip? <==> t.Skip?) && (!t.Item? ==> s.Len() == t.len)
            && (t.Item? ==>
                  && s.origin == t.origin && s.right == t.right && s.content == m.content(t.content)
                  && (s.parent.Some? <==> t.parent.Some?)
                  && (t.parent.Some? ==>
                        && s.parent.value.key == (if t.hasSub then Some(m.name(t.sub)) else None)
                        && s.parent.value.holder ==
                           (if t.parent.value.Named? then S.Root(m.name(t.parent.value.name))
                            else S.Nested(t.parent.value.item))))
    ensures |RangesOf(rs)| == |rs| &&
            forall i | 0 <= i < |rs| :: RangesOf(rs)[i].clock == rs[i].clock && RangesOf(rs)[i].len == rs[i].len
  {
  }

  /** The structs of a block are of its client, in clock order, and without gaps. */
  lemma {:induction false} NumberedAscends(m: Meaning, client: nat, clock: nat, ts: seq<C.Struct>)
    ensures var q := Numbered(m, client, clock, ts);
            && |q| == |ts| && Ascending(q) && (forall t <- q :: t.id.client == client && clock <= t.id.clock)
            && (q != [] ==> q[0].id.clock == clock) && (forall i | 0 < i < |q| :: q[i].id.clock == q[i - 1].End())
    decreases |ts|
  {
    if ts != [] {
      var s := StructOf(m, ID(client, clock), ts[0]);
      NumberedAscends(m, client, s.End(), ts[1..]);
      var rest := Numbered(m, client, s.End(), ts[1..]);
      var q := [s] + rest;
      forall i, j | 0 <= i < j < |q|
        ensures q[i].id.client == q[j].id.client && q[i].End() <= q[j].id.clock
      {
        assert q[j] == rest[j - 1] && rest[j - 1] in rest;
        if i > 0 { assert q[i] == rest[i - 1]; }
      }
    }
  }

  // ---------------------------------------------------------------- the order of blocks

  /** The blocks of one client, one after the other. */
  function Flat(m: Meaning, bs: seq<C.Block>): seq<S.Struct> {
    if bs == [] then [] else BlockOf(m, bs[0]).structs + Flat(m, bs[1..])
  }

  lemma {:induction false} QueueFront(b: Block, u: seq<Block>, c: nat)
    ensures QueueOf([b] + u, c) == (if b.client == c then b.structs else []) + QueueOf(u, c)
    decreases |u|
  {
    if u == [] {
      assert ([b] + u)[..0] == [];
    } else {
      var n := |u| - 1;
      QueueFront(b, u[..n], c);
      assert ([b] + u)[..n + 1] == [b] + u[..n];
    }
  }

  lemma {:induction false} QueueIsFlat(m: Meaning, bs: seq<C.Block>, c: nat)
    ensures QueueOf(BlocksOf(m, bs), c) == Flat(m, C.OfClient(bs, c))
    decreases |bs|
  {
    if bs != [] {
      var b := BlockOf(m, bs[0]);
      assert BlocksOf(m, bs) == [b] + BlocksOf(m, bs[1..]);
      QueueFront(b, BlocksOf(m, bs[1..]), c);
      QueueIsFlat(m, bs[1..], c);
      if b.client == c {
        var all := C.OfClient(bs, c);
        assert all[0] == bs[0] && all[1..] == C.OfClient(bs[1..], c);
      } else {
        C.OfClientFirst(bs[0], bs[1..], c);
        assert bs == [bs[0]] + bs[1..];
      }
    }
  }

  /** What contents mean to `m` once they have been written and read back. */
  function Relayed(m: Meaning): Meaning {
    m.(content := (c: C.Content) => m.content(C.CanonContent(c)))
  }

  lemma {:induction false} RelayedNumbered(m: Meaning, client: nat, clock: nat, ts: seq<C.Struct>)
    ensures Numbered(m, client, clock, C.Each(ts, C.CanonStruct)) == Numbered(Relayed(m), client, clock, ts)
    decreases |ts|
  {
    hide C.CanonContent;
    if ts != [] {
      var s := StructOf(Relayed(m), ID(client, clock), ts[0]);
      assert s == StructOf(m, ID(client, clock), C.CanonStruct(ts[0]));
      RelayedNumbered(m, client, s.End(), ts[1..]);
      assert C.Each(ts, C.CanonStruct)[1..] == C.Each(ts[1..], C.CanonStruct);
    }
  }

  lemma RelayedBlocks(m: Meaning, bs: seq<C.Block>)
    ensures BlocksOf(m, C.Each(bs, C.CanonBlock)) == BlocksOf(Relayed(m), bs)
  {
    hide Numbered;
    forall i | 0 <= i < |bs|
      ensures BlockOf(m, C.CanonBlock(bs[i])) == BlockOf(Relayed(m), bs[i])
    {
      RelayedNumbered(m, bs[i].client, bs[i].startClock, bs[i].structs);
    }
  }

  /** What is written and read back says the same of every client, and names the same deletions, but
      for the form of numbers; and the order in which it is written does not matter. */
  lemma CanonicalIsSame(m: Meaning, u: C.Update, c: nat)
    ensures QueueOf(UpdateOf(m, C.Canonical(u)).blocks, c) == QueueOf(UpdateOf(Relayed(m), u).blocks, c)
    ensures UpdateOf(m, C.Canonical(u)).deletes == UpdateOf(m, u).deletes
  {
    hide C.Ordered, C.Sort, C.OfClient, QueueOf, C.Each, BlocksOf;
    C.OrderedIsSorted(u.blocks);
    C.SortIsStable(u.blocks);
    RelayedBlocks(m, C.Ordered(u.blocks));
    QueueIsFlat(Relayed(m), u.blocks, c);
    QueueIsFlat(Relayed(m), C.Ordered(u.blocks), c);
  }

  /** Written, sent and read back. */
  lemma RelayedIsSame(m: Meaning, u: C.Update, c: nat)
    requires C.Encodable(u)
    ensures var r := C.Decode(C.EncUpdate(u));
            && r.Got? && QueueOf(UpdateOf(m, r.value).blocks, c) == QueueOf(UpdateOf(Relayed(m), u).blocks, c)
            && UpdateOf(m, r.value).deletes == UpdateOf(m, u).deletes
  {
    hide C.Decode, C.EncUpdate, C.Encodable, UpdateOf, QueueOf, C.Canonical, Relayed;
    C.RoundTrip(u);
    CanonicalIsSame(m, u, c);
  }

  /** An update with one block per client has its structs in clock order. */
  lemma {:induction false} OneBlockEach(m: Meaning, bs: seq<C.Block>)
    requires forall i, j | 0 <= i < j < |bs| :: bs[i].client != bs[j].client
    ensures Orderly(BlocksOf(m, bs))
    decreases |bs|
  {
    forall c
      ensures Ascending(QueueOf(BlocksOf(m, bs), c))
    {
      if bs != [] {
        var b := BlockOf(m, bs[0]);
        assert BlocksOf(m, bs) == [b] + BlocksOf(m, bs[1..]);
        QueueFront(b, BlocksOf(m, bs[1..]), c);
        OneBlockEach(m, bs[1..]);
        NumberedAscends(m, bs[0].client, bs[0].startClock, bs[0].structs);
        if b.client == c {
          NobodyElse(m, bs[1..], c);
          assert b.structs + [] == b.structs;
        } else {
          assert [] + QueueOf(BlocksOf(m, bs[1..]), c) == QueueOf(BlocksOf(m, bs[1..]), c);
        }
      }
    }
  }

  lemma {:induction false} NobodyElse(m: Meaning, bs: seq<C.Block>, c: nat)
    requires forall b <- bs :: b.client != c
    ensures QueueOf(BlocksOf(m, bs), c) == []
    decreases |bs|
  {
    if bs != [] {
      var b := BlockOf(m, bs[0]);
      assert BlocksOf(m, bs) == [b] + BlocksOf(m, bs[1..]);
      QueueFront(b, BlocksOf(m, bs[1..]), c);
      NobodyElse(m, bs[1..], c);
    }
  }

  // ---------------------------------------------------------------- applying bytes

  /** `ApplyUpdate` on bytes: what does not decode changes nothing. */
  method ApplyBytes(d: Doc, m: Meaning, s: seq<Byte>) returns (failed: bool)
    requires d.Valid()
    requires C.Decode(s).Got? ==> forall t <- Received(UpdateOf(m, C.Decode(s).value).blocks) :: Fits(d.h, t)
    modifies d, d.store, d.pendingDeletes
    ensures d.Valid() && failed == C.Decode(s).Failed?
    ensures failed ==> unchanged(d) && unchanged(d.store) && unchanged(d.pendingDeletes)
    ensures !failed ==>
              var u := UpdateOf(m, C.Decode(s).value);
              && d.Settled() && Grown(old(d.store.W()), d.store.W())
              && d.l.known == old(d.l.known) + Received(u.blocks) && d.named == old(d.named) + Asking(u.deletes)
              && d.orderly == (old(d.orderly) && Orderly(u.blocks))
              && d.whole == (old(d.whole) && KeepsPairs(d.h, u.deletes))
  {
    hide Doc.Valid, Doc.Settled, Grown, Received, Asking, Fits, UpdateOf, C.Decode, Orderly, KeepsPairs;
    var u := C.Decode(s);
    if u.Failed? {
      return true;
    }
    d.ApplyUpdate(UpdateOf(m, u.value));
    return false;
  }
}
