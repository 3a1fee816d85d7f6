/**
  What a document sends of what it stores (`EncodeStateAsUpdate` of internal/crdt/doc.go and
  `Item.write` of internal/crdt/struct.go).
*/
module Wire {
  import opened Ids
  import opened Structs
  import opened Items
  import opened Histories
  import opened Deletions
  import opened Ledgers

  /** A stored struct as it travels, without its first `offset` units.  The list is named only
      if there is no neighbour to inherit it from; text that cannot be cut goes out whole. */
  function Sent(items: seq<Item>, e: Entry, offset: nat): Struct
    requires (e.Live? ==> e.ref < |items|) && offset < EntryLen(items, e)
  {
    match e
    case Dead(id, len) => GC(At(id, offset), len - offset)
    case Live(r) =>
      var it := items[r];
      var origin := if offset > 0 then Some(At(it.id, offset - 1)) else it.origin;
      Struct.Item(At(it.id, offset), origin, it.right,
                  if origin == None && it.right == None then Some(it.parent) else None,
                  if Splits(it.content, offset) then From(it.content, offset) else it.content)
  }

  ghost predicate Sendable(items: seq<Item>, es: seq<Entry>, i: nat, k: nat) {
    && i < |es| && Covers(items, es[i], k)
    && (forall e <- es :: EntryLen(items, e) > 0 && (e.Live? ==> e.ref < |items|))
  }

  /** A client's structs from clock `k`, which is in the struct at `i`. */
  function Tail(items: seq<Item>, es: seq<Entry>, i: nat, k: nat): (q: seq<Struct>)
    requires Sendable(items, es, i, k)
    ensures |q| == |es| - i
    ensures forall j | 0 <= j < |q| ::
              es[i + j] in es && q[j] == Sent(items, es[i + j], if j == 0 then k - EntryID(items, es[i]).clock else 0)
  {
    seq(|es| - i, j requires 0 <= j < |es| - i =>
      assert es[i + j] in es;
      Sent(items, es[i + j], if j == 0 then k - EntryID(items, es[i]).clock else 0))
  }

  /** Everything of client `c` from clock `k` on. */
  ghost predicate IsTail(w: World, c: nat, k: nat, q: seq<Struct>) {
    if k >= State(w.items, w.clients, c) then q == []
    else c in w.clients && exists i :: Sendable(w.items, w.clients[c], i, k) && q == Tail(w.items, w.clients[c], i, k)
  }

  lemma ClientSendable(w: World, c: nat, i: nat, k: nat)
    requires Sane(w) && c in w.clients && i < |w.clients[c]| && Covers(w.items, w.clients[c][i], k)
    ensures Sendable(w.items, w.clients[c], i, k)
  {
    SaneSlot(w, c);
  }

  /** The part of a stored item that is sent is what the history says, if and only if the cut is
      not inside a pair. */
  lemma SentFits(h: History, w: World, r: Ref, offset: nat)
    requires Sane(w) && Agrees(h, w) && r < |w.items| && offset < w.items[r].Len()
    ensures Fits(h, Sent(w.items, Live(r), offset)) <==> w.items[r].content.cells[offset].half != Low
    ensures w.items[r].content.cells[offset].half != Low ==>
              Sent(w.items, Live(r), offset).End() == w.items[r].id.clock + w.items[r].Len()
  {
    SaneItem(w, r);
    hide Sane;
    var it, t := w.items[r], Sent(w.items, Live(r), offset);
    if it.content.cells[offset].half != Low {
      if offset > 0 { SplitKeepsPaired(it.content, offset); }
      forall j: nat | j < t.Len()
        ensures UnitFits(h, t, j)
      {
        StoredUnit(h, w, r, offset);
        StoredUnit(h, w, r, offset + j);
        assert At(t.id, j) == At(it.id, offset + j);
      }
      StoredUnit(h, w, r, offset);
    } else if Fits(h, t) {
      StoredUnit(h, w, r, offset);
      FirstUnit(h, t);
    }
  }

  lemma FirstUnit(h: History, t: Struct)
    requires Fits(h, t) && t.Item? && t.Len() > 0
    ensures t.id in h && h[t.id].cell == t.content.cells[0]
  {
    assert UnitFits(h, t, 0) && At(t.id, 0) == t.id;
  }

  /** A stored unit is the operation of the history. */
  lemma StoredUnit(h: History, w: World, r: Ref, j: nat)
    requires Sane(w) && Agrees(h, w) && r < |w.items| && j < w.items[r].Len()
    ensures var it, x := w.items[r], At(w.items[r].id, j);
            && x in w.nodes && x in h
            && h[x] == Op(if j == 0 then it.origin else Some(At(it.id, j - 1)), it.right, it.parent,
              it.content.cells[j], it.content.kind)
  {
    SaneItem(w, r);
    hide Sane;
    assert UnitOk(w.nodes, w.facts, w.gone, w.items[r], j);
    assert AgreesAt(h, w, At(w.items[r].id, j));
  }

  /** Not inside a pair that is stored. */
  ghost predicate CutsNoPair(w: World, c: nat, k: nat) {
    ID(c, k) in w.facts ==> w.facts[ID(c, k)].cell.half != Low
  }

  /** The `j`th struct of a tail: operations of the history, where its clocks say. */
  lemma TailStruct(h: History, w: World, c: nat, i: nat, k: nat, j: nat)
    requires Sane(w) && Agrees(h, w) && c in w.clients && Sendable(w.items, w.clients[c], i, k)
    requires i + j < |w.clients[c]|
    requires CutsNoPair(w, c, k)
    ensures var t := Tail(w.items, w.clients[c], i, k)[j];
            && Fits(h, t) && !t.Skip? && t.id.client == c
            && t.id.clock == (if j == 0 then k else NextClock(w, c, i + j)) && t.End() == NextClock(w, c, i + j + 1)
            && (t.GC? ==> forall x | Within(t.id, t.len, x) :: x !in w.nodes && x.clock < State(w.items, w.clients, c))
            && t.End() <= State(w.items, w.clients, c)
  {
    var e := w.clients[c][i + j];
    var offset := if j == 0 then k - EntryID(w.items, e).clock else 0;
    StopIsNext(w, c, i + j);
    SaneSlot(w, c);
    assert e in w.clients[c];
    hide Sane, State, Tail;
    var t := Tail(w.items, w.clients[c], i, k)[j];
    assert t == Sent(w.items, e, offset);
    match e
    case Dead(id, len) =>
      forall x | Within(t.id, t.len, x)
        ensures x !in w.nodes && x.clock < State(w.items, w.clients, c)
      {
        UnderEntry(w, c, i + j, x);
      }
    case Live(r) =>
      SaneItem(w, r);
      if j == 0 { var _ := HeldSlot(w, r, ID(c, k)); }
      SentFits(h, w, r, offset);
  }

  lemma {:induction false} TailReaches(h: History, w: World, c: nat, i: nat, k: nat, j: nat, n: nat) returns (m: nat)
    requires Sane(w) && Agrees(h, w) && c in w.clients && Sendable(w.items, w.clients[c], i, k)
    requires i + j < |w.clients[c]|
    requires CutsNoPair(w, c, k) && (if j == 0 then k else NextClock(w, c, i + j)) <= n < State(w.items, w.clients, c)
    ensures var q := Tail(w.items, w.clients[c], i, k); m < |q| && q[m].id.clock <= n < q[m].End()
    decreases |w.clients[c]| - j
  {
    hide Sane, State, Tail, Agrees, Fits;
    TailStruct(h, w, c, i, k, j);
    if n < NextClock(w, c, i + j + 1) {
      m := j;
    } else {
      m := TailReaches(h, w, c, i, k, j + 1, n);
    }
  }

  /** A tail is in clock order. */
  lemma TailAscends(h: History, w: World, c: nat, i: nat, k: nat)
    requires Sane(w) && Agrees(h, w) && c in w.clients && Sendable(w.items, w.clients[c], i, k) && CutsNoPair(w, c, k)
    ensures Ascending(Tail(w.items, w.clients[c], i, k))
  {
    SaneSlot(w, c);
    hide Sane, State, Tail, Agrees, Fits;
    var q := Tail(w.items, w.clients[c], i, k);
    forall a, b | 0 <= a < b < |q|
      ensures q[a].id.client == q[b].id.client && q[a].End() <= q[b].id.clock
    {
      TailStruct(h, w, c, i, k, a);
      TailStruct(h, w, c, i, k, b);
      StopIsNext(w, c, i + a);
      StopsIncrease(w.items, c, w.clients[c], i + a, i + b);
    }
  }

  /** What a peer whose state is `k` is sent of client `c`: operations of the history, in clock
      order, no further than the sender has got, and every one from `k` to there. */
  lemma TailIsComplete(h: History, w: World, c: nat, k: nat, q: seq<Struct>)
    requires Sane(w) && Agrees(h, w) && IsTail(w, c, k, q) && CutsNoPair(w, c, k)
    ensures Ascending(q)
    ensures forall t <- q ::
              Fits(h, t) && !t.Skip? && t.id.client == c && k <= t.id.clock && t.End() <= State(w.items, w.clients, c)
    ensures forall t <- q | t.GC? :: forall x | Within(t.id, t.len, x) ::
            x !in w.nodes && x.clock < State(w.items, w.clients, c)
    ensures forall n: nat {:trigger Reached(q, n)} | k <= n < State(w.items, w.clients, c) :: Reached(q, n)
  {
    hide Sane, State, Tail, Agrees, Fits;
    if k < State(w.items, w.clients, c) {
      var i :| Sendable(w.items, w.clients[c], i, k) && q == Tail(w.items, w.clients[c], i, k);
      TailAscends(h, w, c, i, k);
      forall t <- q
        ensures Fits(h, t) && !t.Skip? && t.id.client == c && k <= t.id.clock && t.End() <= State(w.items, w.clients, c)
        ensures t.GC? ==> forall x | Within(t.id, t.len, x) :: x !in w.nodes && x.clock < State(w.items, w.clients, c)
      {
        var j :| 0 <= j < |q| && q[j] == t;
        TailStruct(h, w, c, i, k, 0);
        TailStruct(h, w, c, i, k, j);
        if j > 0 { assert q[0].End() <= q[j].id.clock; }
      }
      forall n: nat | k <= n < State(w.items, w.clients, c)
        ensures Reached(q, n)
      {
        var m := TailReaches(h, w, c, i, k, 0, n);
        assert q[m] in q;
      }
    }
  }

  ghost predicate Reached(q: seq<Struct>, n: nat) {
    exists t <- q :: t.id.clock <= n < t.End()
  }

  lemma TailFound(w: World, c: nat, i: nat, k: nat)
    requires c in w.clients && Sendable(w.items, w.clients[c], i, k) && k < State(w.items, w.clients, c)
    ensures IsTail(w, c, k, Tail(w.items, w.clients[c], i, k))
  {
  }

  lemma NothingToSend(w: World, c: nat, k: nat)
    requires k >= State(w.items, w.clients, c)
    ensures IsTail(w, c, k, [])
  {
  }

  lemma NoClientNoTail(w: World, c: nat, k: nat)
    requires c !in w.clients
    ensures IsTail(w, c, k, [])
  {
  }
}
