/**
  Marking ranges of clocks deleted (`deleteRange` in internal/crdt/doc.go).
*/
module Deletions {
  import opened Ids
  import opened Structs
  import opened Items
  import opened Store
  import D = DeleteSets

  /** The stored units of a client whose clocks are in the range. */
  ghost function Stretch(w: World, c: nat, lo: nat, hi: nat): set<ID> {
    set x | x in w.nodes && x.client == c && lo <= x.clock < hi
  }

  /** Items may have been cut and marked deleted; nothing else has changed. */
  ghost predicate Erased(w: World, w': World) {
    && w'.nodes == w.nodes && w'.facts == w.facts && w.gone <= w'.gone
    && (forall k :: Order(w', k) == Order(w, k))
    && (forall c :: State(w'.items, w'.clients, c) == State(w.items, w.clients, c))
  }

  /** A cut before clock `k` does not separate the halves of a pair that is still there. */
  ghost predicate LegalCut(w: World, c: nat, k: nat) {
    ID(c, k) in w.facts && w.facts[ID(c, k)].cell.half == Low ==> ID(c, k) in w.gone
  }

  /** Exactly the stored units of the range have been added to the deleted ones. */
  ghost predicate ErasedExactly(w: World, w': World, c: nat, from: nat, to: nat) {
    w'.gone == w.gone + Stretch(w, c, from, to)
  }

  /** The halves of a pair are in one item, so they are deleted together. */
  lemma PairsStayTogether(w: World, x: ID)
    requires Sane(w) && x in w.facts && w.facts[x].cell.half == Low
    ensures x.clock > 0 && ID(x.client, x.clock - 1) in w.nodes
    ensures x in w.gone <==> ID(x.client, x.clock - 1) in w.gone
  {
    SaneNode(w, x);
    var q :| 0 <= q < |w.items| && Within(w.items[q].id, w.items[q].Len(), x);
    SaneItem(w, q);
    var _ := HeldSlot(w, q, x);
    hide Sane;
    var it, j := w.items[q], x.clock - w.items[q].id.clock;
    assert it.content.cells[j].half == Low;
    assert UnitOk(w.nodes, w.facts, w.gone, it, j) && UnitOk(w.nodes, w.facts, w.gone, it, j - 1);
    assert At(it.id, j) == x && At(it.id, j - 1) == ID(x.client, x.clock - 1);
  }

  /** Whatever was done: if exactly the units of the range went, both cuts were legal. */
  lemma ExactMeansLegal(w: World, w': World, c: nat, from: nat, to: nat)
    requires Sane(w) && Sane(w') && Erased(w, w') && from < to && ErasedExactly(w, w', c, from, to)
    ensures LegalCut(w, c, from) && LegalCut(w, c, to)
  {
    hide Order, State;
    SaneKeys(w);
    hide Sane;
    if ID(c, from) in w.facts && w.facts[ID(c, from)].cell.half == Low {
      PairsStayTogether(w, ID(c, from));
      PairsStayTogether(w', ID(c, from));
    }
    if ID(c, to) in w.facts && w.facts[ID(c, to)].cell.half == Low {
      PairsStayTogether(w, ID(c, to));
      PairsStayTogether(w', ID(c, to));
    }
  }

  lemma ResplitErases(w: World, w': World)
    requires Resplit(w, w')
    ensures Erased(w, w') && w'.gone == w.gone
  {
  }

  lemma MarkErases(w: World, r: Ref)
    requires r < |w.items|
    ensures Erased(w, MarkWorld(w, r))
  {
    hide Order, State;
    forall k { MarkKeepsOrder(w, r, k); }
    forall c { MarkKeepsState(w, r, c); }
  }

  lemma ErasedTransitive(a: World, b: World, c: World)
    requires Erased(a, b) && Erased(b, c)
    ensures Erased(a, c)
  {
    hide Order, State;
  }

  lemma LegalStays(w: World, w': World, c: nat, k: nat)
    requires Erased(w, w') && LegalCut(w, c, k)
    ensures LegalCut(w', c, k)
  {
  }

  /** The clock at which the struct at `i` starts, or would start. */
  ghost function NextClock(w: World, c: nat, i: nat): nat {
    if c in w.clients && i < |w.clients[c]| then EntryID(w.items, w.clients[c][i]).clock
        else State(w.items, w.clients, c)
  }

  /** Structs of a client follow on from each other. */
  lemma StopIsNext(w: World, c: nat, i: nat)
    requires Sane(w) && c in w.clients && i < |w.clients[c]|
    ensures NextClock(w, c, i + 1) == Stop(w.items, w.clients[c][i])
    ensures NextClock(w, c, i) < NextClock(w, c, i + 1) <= State(w.items, w.clients, c)
  {
    SaneSlot(w, c);
    hide Sane;
    if i + 1 < |w.clients[c]| { assert Abuts(w.items, w.clients[c], i + 1); }
    StopsIncrease(w.items, c, w.clients[c], i, |w.clients[c]| - 1);
  }

  /** The units under one struct: none if it is collected, else deleted together. */
  lemma UnderEntry(w: World, c: nat, i: nat, x: ID)
    requires Sane(w) && c in w.clients && i < |w.clients[c]| && x.client == c
    requires NextClock(w, c, i) <= x.clock < NextClock(w, c, i + 1)
    ensures match w.clients[c][i]
            case Dead(_, _) => x !in w.nodes
            case Live(r) =>
              && r < |w.items| && Within(w.items[r].id, w.items[r].Len(), x) && x in w.nodes
              && (x in w.gone <==> w.items[r].deleted)
  {
    StopIsNext(w, c, i);
    CoveredUnit(w, x, i);
    hide Sane;
    match w.clients[c][i]
    case Dead(_, _) =>
    case Live(r) => HeldDeleted(w, r, x);
  }

  /** A struct that is collected or deleted has nothing left to delete. */
  lemma NothingLeft(w: World, c: nat, i: nat, lo: nat, hi: nat)
    requires Sane(w) && c in w.clients && i < |w.clients[c]|
    requires NextClock(w, c, i) <= lo && hi <= NextClock(w, c, i + 1)
    requires match w.clients[c][i] case Dead(_, _) => true case Live(r) => r < |w.items| && w.items[r].deleted
    ensures w.gone + Stretch(w, c, lo, hi) == w.gone
  {
    hide Sane, NextClock;
    forall x | x in Stretch(w, c, lo, hi)
      ensures x in w.gone
    {
      UnderEntry(w, c, i, x);
    }
  }

  /** Deleting an item deletes the stretch it covers. */
  lemma WholeItem(w: World, c: nat, i: nat, r: Ref)
    requires Sane(w) && c in w.clients && i < |w.clients[c]| && w.clients[c][i] == Live(r) && r < |w.items|
    ensures IdsOf(w.items[r]) == Stretch(w, c, NextClock(w, c, i), NextClock(w, c, i + 1))
  {
    StopIsNext(w, c, i);
    SaneSlot(w, c);
    hide Sane;
    var it := w.items[r];
    assert Live(r) in w.clients[c];
    forall x | x in IdsOf(it)
      ensures x in Stretch(w, c, NextClock(w, c, i), NextClock(w, c, i + 1))
    {
      UnderEntry(w, c, i, x);
    }
    forall x | x in Stretch(w, c, NextClock(w, c, i), NextClock(w, c, i + 1))
      ensures x in IdsOf(it)
    {
      var j: nat := x.clock - it.id.clock;
      assert At(it.id, j) == x;
    }
  }

  lemma StretchJoins(w: World, c: nat, a: nat, b: nat, d: nat)
    requires a <= b <= d
    ensures Stretch(w, c, a, d) == Stretch(w, c, a, b) + Stretch(w, c, b, d)
  {
  }

  /** Past the state there is nothing. */
  lemma StretchEnds(w: World, c: nat, a: nat, b: nat)
    requires Sane(w) && State(w.items, w.clients, c) <= b
    ensures Stretch(w, c, a, b) == Stretch(w, c, a, State(w.items, w.clients, c))
  {
    forall x | x in Stretch(w, c, a, b)
      ensures x.clock < State(w.items, w.clients, c)
    {
      SaneNode(w, x);
    }
  }

  function Min(a: nat, b: nat): nat {
    if a < b then a else b
  }

  lemma EntryFits(w: World, c: nat, i: nat)
    requires Sane(w) && c in w.clients && i < |w.clients[c]|
    ensures var e := w.clients[c][i];
            EntryLen(w.items, e) > 0 && (e.Live? ==> e.ref < |w.items| && w.items[e.ref].id.client == c)
  {
    SaneSlot(w, c);
    hide Sane;
    assert w.clients[c][i] in w.clients[c];
  }

  /** An item that is there cannot be cut at `to` only if `to` is the second half of a pair. */
  lemma CutFails(w: World, c: nat, i: nat, to: nat)
    requires Sane(w) && c in w.clients && i < |w.clients[c]| && w.clients[c][i].Live?
    requires NextClock(w, c, i) < to < NextClock(w, c, i + 1)
    requires var r := w.clients[c][i].ref;
             r < |w.items| && !w.items[r].deleted && !Splits(w.items[r].content, to - NextClock(w, c, i))
    ensures !LegalCut(w, c, to)
  {
    var r := w.clients[c][i].ref;
    UnderEntry(w, c, i, ID(c, to));
    var _ := HeldSlot(w, r, ID(c, to));
    SaneItem(w, r);
  }

  /** Nothing has arrived at or past `from`. */
  lemma NothingThere(w: World, c: nat, from: nat, to: nat)
    requires Sane(w) && State(w.items, w.clients, c) <= from < to
    ensures ErasedExactly(w, w, c, from, to) && LegalCut(w, c, from) && LegalCut(w, c, to)
  {
    StretchEnds(w, c, from, to);
    SaneKeys(w);
    UncoveredUnit(w, ID(c, from));
    UncoveredUnit(w, ID(c, to));
  }

  /** After `GetItemCleanStart` at a legal cut, the struct that covers `from` starts there or has
      nothing to delete before `from`. */
  lemma StartIsClean(w: World, w1: World, c: nat, from: nat, i: nat, first: Option<Ref>)
    requires Sane(w1) && Resplit(w, w1) && LegalCut(w, c, from)
    requires c in w1.clients && i < |w1.clients[c]| && Covers(w1.items, w1.clients[c][i], from)
    requires first.Some? <==>
               ID(c, from) in w1.nodes && ID(c, from) in w1.facts && w1.facts[ID(c, from)].cell.half != Low
    requires first.Some? ==> first.value < |w1.items| && w1.items[first.value].id == ID(c, from)
    ensures NextClock(w1, c, i) <= from && Stretch(w, c, NextClock(w1, c, i), from) <= w.gone
  {
    SaneKeys(w1);
    StopIsNext(w1, c, i);
    UnderEntry(w1, c, i, ID(c, from));
    if first.Some? {
      SaneItem(w1, first.value);
      SaneSlot(w1, c);
      var a := HeldSlot(w1, first.value, ID(c, from));
      CoveringIsUnique(w1.items, c, w1.clients[c], i, a, from);
    } else {
      NothingLeft(w1, c, i, NextClock(w1, c, i), from);
    }
  }

  lemma ErasedFurther(w: World, w1: World, w2: World, c: nat, a: nat, b: nat, d: nat)
    requires Erased(w, w1) && b <= d && Stretch(w, c, b, a) <= w.gone
    requires ErasedExactly(w, w1, c, a, b) && ErasedExactly(w1, w2, c, b, d)
    ensures ErasedExactly(w, w2, c, a, d)
  {
    hide Order, State;
    forall x | x in Stretch(w, c, b, d)
      ensures x in w.gone || x in Stretch(w, c, a, d)
    {
      if x.clock < a { assert x in Stretch(w, c, b, a); }
    }
    if a <= b { StretchJoins(w, c, a, b, d); }
  }

  // ---------------------------------------------------------------- delete sets

  function Max(a: nat, b: nat): nat {
    if a < b then b else a
  }

  ghost function Asked(w: World, c: nat, rs: seq<D.Range>): set<ID> {
    set x | x in w.nodes && x.client == c && D.Names(rs, x.clock)
  }

  /** The delete set names the unit. */
  ghost predicate Asks(ds: map<nat, seq<D.Range>>, x: ID) {
    x.client in ds && D.Names(ds[x.client], x.clock)
  }

  ghost function AskedAll(w: World, ds: map<nat, seq<D.Range>>): set<ID> {
    set x | x in w.nodes && Asks(ds, x)
  }

  ghost predicate LegalEnds(w: World, ds: map<nat, seq<D.Range>>) {
    forall c <- ds :: forall r <- ds[c] :: LegalCut(w, c, r.clock) && LegalCut(w, c, r.End())
  }

  lemma AskedNothing(w: World, c: nat)
    ensures Asked(w, c, []) == {} && forall k :: !D.Names([], k)
  {
  }

  lemma AskedMore(w: World, w1: World, c: nat, rs: seq<D.Range>, r: D.Range)
    requires Erased(w, w1)
    ensures Asked(w, c, rs + [r]) == Asked(w, c, rs) + Stretch(w1, c, r.clock, r.End())
    ensures forall k: nat :: D.Names(rs + [r], k) <==> D.Names(rs, k) || r.Has(k)
  {
    hide Order, State, D.Names;
    forall k: nat
      ensures D.Names(rs + [r], k) <==> D.Names(rs, k) || r.Has(k)
    {
      D.NamesAppend(rs, r, k);
    }
  }

  // ---------------------------------------------------------------- what is known to be deleted

  /** The unit is deleted, or its content has been collected. */
  ghost predicate Erasable(w: World, x: ID) {
    x in w.gone || (x !in w.nodes && x.clock < State(w.items, w.clients, x.client))
  }

  lemma ErasableBelow(w: World, x: ID)
    requires Sane(w) && Erasable(w, x)
    ensures x.clock < State(w.items, w.clients, x.client)
  {
    SaneKeys(w);
    if x in w.gone { SaneNode(w, x); }
  }

  lemma NoClientNoUnits(w: World, x: ID)
    requires Sane(w)
    ensures x.client !in w.clients ==> !Erasable(w, x)
  {
    SaneKeys(w);
    if x in w.nodes { SaneNode(w, x); }
  }

  lemma FirstClock(w: World, c: nat)
    requires Sane(w) && c in w.clients
    ensures NextClock(w, c, 0) == 0 && NextClock(w, c, |w.clients[c]|) == State(w.items, w.clients, c)
  {
    SaneSlot(w, c);
  }

  /** Which units under a struct count as deleted. */
  lemma EntryErasable(w: World, c: nat, i: nat)
    requires Sane(w) && c in w.clients && i < |w.clients[c]|
    requires w.clients[c][i].Live? ==> w.clients[c][i].ref < |w.items|
    ensures forall x: ID | x.client == c && NextClock(w, c, i) <= x.clock < NextClock(w, c, i + 1) ::
              Erasable(w, x) <==> w.clients[c][i].Dead? || w.items[w.clients[c][i].ref].deleted
  {
    StopIsNext(w, c, i);
    SaneKeys(w);
    hide Sane, State;
    forall x: ID | x.client == c && NextClock(w, c, i) <= x.clock < NextClock(w, c, i + 1)
      ensures Erasable(w, x) <==> w.clients[c][i].Dead? || w.items[w.clients[c][i].ref].deleted
    {
      UnderEntry(w, c, i, x);
    }
  }
}
