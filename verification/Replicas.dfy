/**
  Two documents of one honest history: those that know the same operations are the same.
*/
module Replicas {
  import opened Ids
  import opened Structs
  import opened Yata
  import opened Items
  import opened Placing
  import opened Schedules
  import S = Schedules
  import opened Histories
  import opened Steps
  import opened Convergence
  import opened Ledgers
  import opened Wire

  /** The units the structs carry, however they are sliced. */
  ghost predicate Carries(known: set<Struct>, x: ID) {
    exists s <- known :: !s.Skip? && Within(s.id, s.Len(), x)
  }

  // ---------------------------------------------------------------- how far replicas get

  /** What a stored unit refers to is stored. */
  lemma RefersToStored(h: History, w: World, x: ID)
    requires Sane(w) && Agrees(h, w) && OwnersPresent(w) && x in w.nodes
    ensures x in h
    ensures h[x].origin.Some? ==> h[x].origin.value.clock < State(w.items, w.clients, h[x].origin.value.client)
    ensures h[x].right.Some? ==> h[x].right.value.clock < State(w.items, w.clients, h[x].right.value.client)
    ensures h[x].parent.holder.Nested? ==>
            h[x].parent.holder.item.clock < State(w.items, w.clients, h[x].parent.holder.item.client)
  {
    SaneNode(w, x);
    SaneKeys(w);
    assert AgreesAt(h, w, x);
    if h[x].origin.Some? { SaneNode(w, h[x].origin.value); }
    if h[x].right.Some? { SaneNode(w, h[x].right.value); }
    if h[x].parent.holder.Nested? { SaneNode(w, h[x].parent.holder.item); }
  }

  lemma HoldsOperation(h: History, s: Struct, x: ID)
    requires Clean(h, s) && !s.Skip? && Within(s.id, s.Len(), x) && x in h
    ensures s.Item?
  {
  }

  /** Whether the next unit of a client can be integrated does not depend on how it is sliced. */
  lemma SlicingIsIrrelevant(h: History, w: World, s: Struct, t: Struct)
    requires Sane(w) && Agrees(h, w) && OwnersPresent(w) && LiveAll(h, w) && Clean(h, s) && Clean(h, t)
    requires s.id.client == t.id.client && !s.Skip? && !t.Skip?
    requires s.id.clock <= SV(w)(s.id.client) < s.End() && t.id.clock <= SV(w)(t.id.client) < t.End()
    requires Satisfied(SV(w), s)
    ensures Satisfied(SV(w), t)
  {
    var k := SV(w)(s.id.client);
    var x := ID(s.id.client, k);
    hide Sane, State, Agrees, LiveAll, OwnersPresent;
    if t.Item? {
      var i, j := k - s.id.clock, k - t.id.clock;
      assert UnitFits(h, t, j) && UnitFits(h, t, 0) && At(t.id, j) == x && At(t.id, 0) == t.id;
      HoldsOperation(h, s, x);
      assert UnitFits(h, s, i) && UnitFits(h, s, 0) && At(s.id, i) == x && At(s.id, 0) == s.id;
      if j > 0 {
        Passed(h, w, t.id);
        RefersToStored(h, w, t.id);
      }
    }
  }

  lemma Passed(h: History, w: World, x: ID)
    requires LiveAll(h, w) && x in h && x.clock < State(w.items, w.clients, x.client)
    ensures x in w.nodes
  {
  }

  /** A vector closed under some structs is closed under any that carry no other units. */
  lemma ClosedTransfers(h: History, w: World, known: set<Struct>, known': set<Struct>)
    requires Sane(w) && Agrees(h, w) && OwnersPresent(w) && LiveAll(h, w)
    requires AllClean(h, known) && AllClean(h, known') && S.Closed(known, SV(w))
    requires forall x | Carries(known', x) :: Carries(known, x)
    ensures S.Closed(known', SV(w))
  {
    hide Sane, State, Agrees, LiveAll, OwnersPresent, Clean, Satisfied;
    forall s <- known'
      ensures !Enabled(SV(w), s)
    {
      if Enabled(SV(w), s) {
        var x := ID(s.id.client, SV(w)(s.id.client));
        assert Within(s.id, s.Len(), x) && Carries(known', x);
        var t :| t in known && !t.Skip? && Within(t.id, t.Len(), x);
        SlicingIsIrrelevant(h, w, s, t);
      }
    }
  }

  /** Replicas that know the same units, in whatever slices, order and repetition they came, get
      every client equally far, if neither has dropped a slice or collected an operation; with
      honest clients neither has. */
  lemma SameVector(h: History, w: World, l: Ledger, p: seq<seq<Block>>, w': World, l': Ledger, p': seq<seq<Block>>)
    requires Resting(h, w, l, p) && Resting(h, w', l', p')
    requires Honest(h) || (LiveAll(h, w) && LiveAll(h, w') && l.lost == {} == l'.lost)
    requires forall x :: Carries(l.known, x) <==> Carries(l'.known, x)
    ensures forall c :: State(w.items, w.clients, c) == State(w'.items, w'.clients, c)
  {
    hide Sane, State, Agrees, LiveAll, OwnersPresent, Clean, Lawful, Fits, S.Closed, Least, Honest, TombstonesGone,
      Accounted;
    RestIsLeast(h, w, l, p);
    RestIsLeast(h, w', l', p');
    assert Kept(l) == l.known && Kept(l') == l'.known;
    ClosedTransfers(h, w, l.known, l'.known);
    ClosedTransfers(h, w', l'.known, l.known);
    LeastBelow(l.known, SV(w), SV(w'));
    LeastBelow(l'.known, SV(w'), SV(w));
    forall c
      ensures State(w.items, w.clients, c) == State(w'.items, w'.clients, c)
    {
      assert SV(w)(c) == SV(w')(c);
    }
  }

  lemma LeastBelow(known: set<Struct>, v: Vector, b: Vector)
    requires Least(known, v) && S.Closed(known, b)
    ensures forall c :: v(c) <= b(c)
  {
    assert S.Below(v, b);
  }

  /** A document between updates, fed by an honest history in clock order. */
  ghost predicate Resting(h: History, w: World, l: Ledger, p: seq<seq<Block>>) {
    && Booked(h, w, l) && AllClean(h, l.known) && Accounted(SV(w), l, p)
    && forall u <- p :: AtRest(SV(w), u) && Orderly(u)
  }

  // ---------------------------------------------------------------- what replicas store

  /** Documents that are equally far store the same units. */
  lemma SameUnits(h: History, w: World, w': World)
    requires Sane(w) && Agrees(h, w) && LiveAll(h, w) && Sane(w') && Agrees(h, w') && LiveAll(h, w')
    requires forall c :: State(w.items, w.clients, c) == State(w'.items, w'.clients, c)
    ensures w.nodes == w'.nodes && w.facts == w'.facts
  {
    SaneKeys(w);
    SaneKeys(w');
    hide Sane, State, LiveAll, Agrees;
    forall x <- w.nodes
      ensures x in w'.nodes && w.nodes[x] == w'.nodes[x] && w.facts[x] == w'.facts[x]
    {
      SameUnit(h, w, w', x);
    }
    forall x <- w'.nodes
      ensures x in w.nodes
    {
      SameUnit(h, w', w, x);
    }
    assert w.nodes.Keys == w'.nodes.Keys;
    assert w.facts.Keys == w'.facts.Keys;
  }

  lemma SameUnit(h: History, w: World, w': World, x: ID)
    requires Sane(w) && Agrees(h, w) && Sane(w') && Agrees(h, w') && LiveAll(h, w')
    requires State(w.items, w.clients, x.client) == State(w'.items, w'.clients, x.client)
    requires x in w.nodes
    ensures x in w'.nodes && w.nodes[x] == w'.nodes[x] && x in w.facts && x in w'.facts && w.facts[x] == w'.facts[x]
  {
    SaneNode(w, x);
    assert AgreesAt(h, w, x);
    hide Sane;
    assert x in w'.nodes;
    assert AgreesAt(h, w', x);
    StoredIsDescribed(h, w, w.nodes[x]);
    StoredIsDescribed(h, w', w'.nodes[x]);
    DescriptionIsUnique(h, w.nodes[x], w'.nodes[x]);
  }

  /** Documents that store the same units list them in the same order. */
  lemma SameOrder(w: World, w': World, k: Owner)
    requires Sane(w) && Sane(w') && w.nodes == w'.nodes && w.facts == w'.facts && OrderedAll(w) && OrderedAll(w')
    ensures Order(w, k) == Order(w', k)
  {
    hide Sane, Order, Sorted, Universe;
    forall n
      ensures n in Order(w, k) <==> n in Order(w', k)
    {
      if n in Order(w, k) {
        ListedUnder(w, k, n);
        UnitInItsList(w', n);
      }
      if n in Order(w', k) {
        ListedUnder(w', k, n);
        UnitInItsList(w, n);
      }
    }
    assert Elements(Order(w, k)) == Elements(Order(w', k));
    assert Ordered(Order(w, k)) && Ordered(Order(w', k));
    SortedListsAgree(Elements(Order(w, k)), Order(w, k), Order(w', k));
  }

  // ---------------------------------------------------------------- what replicas show

  /** The content of a list that is not deleted, in order. */
  ghost function Shown(s: seq<Node>, facts: map<ID, Fact>, gone: set<ID>): seq<Fact> {
    if s == [] then []
    else (if s[0].Elem? && s[0].id in facts && s[0].id !in gone then [facts[s[0].id]]
      else []) + Shown(s[1..], facts, gone)
  }

  ghost function Visible(w: World, k: Owner): seq<Fact> {
    Shown(Order(w, k), w.facts, w.gone)
  }

  lemma {:induction false} ShownAlike(s: seq<Node>, facts: map<ID, Fact>, gone: set<ID>, gone': set<ID>)
    requires forall n <- s :: n.Elem? ==> (n.id in gone <==> n.id in gone')
    ensures Shown(s, facts, gone) == Shown(s, facts, gone')
  {
    if s != [] {
      assert s[0] in s;
      ShownAlike(s[1..], facts, gone, gone');
    }
  }

  /** A unit of a sequence that does not hang off a deleted item, and the value of a key of such a
      type, is deleted exactly if a deletion has named it or it never had content. */
  ghost predicate DeletedAsNamed(w: World, named: iset<ID>) {
    && (forall x <- w.facts | !w.facts[x].parent.Keyed() && Living(w, w.facts[x].parent) ::
          x in w.gone <==> x in named || w.facts[x].kind == Tombstone)
    && (forall k, x {:trigger LastEntry(w, k, x)} | LastEntry(w, k, x) && Living(w, k) ::
          x in w.facts && (x in w.gone <==> x in named || w.facts[x].kind == Tombstone))
  }

  lemma TalliedMeansNamed(h: History, w: World, l: Ledger, named: iset<ID>, p: iset<ID>)
    requires Booked(h, w, l) && Honest(h) && AllClean(h, l.known) && Tallied(h, w, l.known, named, p, true)
    requires forall x <- p :: x.clock >= State(w.items, w.clients, x.client)
    ensures DeletedAsNamed(w, named)
  {
    hide State, Honest, Clean, LastEntry, Sane, Agrees, Least, LiveAll, OrderedAll, Lawful, Fits, PairWise;
    SaneKeys(w);
    forall x <- w.facts | !w.facts[x].parent.Keyed() && Living(w, w.facts[x].parent)
      ensures x in w.gone <==> x in named || w.facts[x].kind == Tombstone
    {
      Below(w, x);
      if x in w.gone { assert x in named || Born(w, x); }
    }
    forall k, x | LastEntry(w, k, x) && Living(w, k)
      ensures x in w.facts && (x in w.gone <==> x in named || w.facts[x].kind == Tombstone)
    {
      EntryListed(w, k, x);
      Below(w, x);
    }
  }

  lemma Below(w: World, x: ID)
    requires Sane(w) && x in w.nodes
    ensures x.clock < State(w.items, w.clients, x.client)
  {
    SaneNode(w, x);
  }

  lemma SameValue(w: World, w': World, named: iset<ID>, named': iset<ID>, k: Owner)
    requires Sane(w) && w.facts == w'.facts && Order(w, k) == Order(w', k) && k.Keyed()
    requires Living(w, k) && Living(w', k) && DeletedAsNamed(w, named) && DeletedAsNamed(w', named')
    requires named <= named' && forall x <- named' :: x in w.facts ==> x in w.gone
    ensures ValueOf(w, k) == ValueOf(w', k)
  {
    hide Sane, Order;
    var u := Order(w, k);
    if u != [] && u[|u| - 1].Elem? {
      assert LastEntry(w, k, u[|u| - 1].id) && LastEntry(w', k, u[|u| - 1].id);
    }
  }

  lemma SameText(w: World, w': World, named: iset<ID>, named': iset<ID>, k: Owner)
    requires Sane(w) && Sane(w') && w.facts == w'.facts && Order(w, k) == Order(w', k) && !k.Keyed()
    requires Living(w, k) && Living(w', k) && DeletedAsNamed(w, named) && DeletedAsNamed(w', named')
    requires named <= named' && forall x <- named' :: x in w.facts ==> x in w.gone
    ensures Visible(w, k) == Visible(w', k)
  {
    hide Sane, Order;
    forall n <- Order(w, k)
      ensures n.Elem? ==> (n.id in w.gone <==> n.id in w'.gone)
    {
      ListedUnder(w, k, n);
    }
    ShownAlike(Order(w, k), w.facts, w.gone, w'.gone);
  }

  // ---------------------------------------------------------------- catching up

  ghost function Minimum(v: Vector, u: Vector): Vector {
    (c: nat) => if v(c) < u(c) then v(c) else u(c)
  }

  lemma SatisfiedHigher(v: Vector, u: Vector, s: Struct)
    requires Satisfied(v, s) && forall c :: v(c) <= u(c)
    ensures Satisfied(u, s)
  {
  }

  /** A document at rest that knows everything another one stores from `sv` on, and has got at
      least as far as `sv`, has got at least as far as the other. */
  lemma CatchesUp(h: History, w: World, l: Ledger, sv: Vector, u: seq<Block>, w': World, l': Ledger,
                  p': seq<seq<Block>>)
    requires Honest(h) && Booked(h, w, l) && AllClean(h, l.known) && Resting(h, w', l', p')
    requires forall c :: IsTail(w, c, sv(c), QueueOf(u, c)) && CutsNoPair(w, c, sv(c)) && sv(c) <= SV(w')(c)
    requires Received(u) <= l'.known
    ensures forall c :: SV(w)(c) <= SV(w')(c)
  {
    hide Sane, State, Agrees, LiveAll, OwnersPresent, Clean, Lawful, Fits, Least, Honest, TombstonesGone, Accounted,
      QueueOf, IsTail, Satisfied, SV, OrderedAll, CutsNoPair, Received, AtRest, Orderly;
    RestIsLeast(h, w', l', p');
    assert Kept(l') == l'.known;
    var b := Minimum(SV(w'), SV(w));
    forall s <- l.done
      ensures !Enabled(b, s)
    {
      if Enabled(b, s) {
        var c := s.id.client;
        assert b(c) < s.End() <= SV(w)(c);
        assert IsTail(w, c, sv(c), QueueOf(u, c)) && CutsNoPair(w, c, sv(c));
        SatisfiedHigher(b, SV(w'), s);
        NextIsEnabled(h, w, c, sv(c), u, w', l'.known, s);
        assert false;
      }
    }
    LeastBelow(l.done, SV(w), b);
  }

  /** If the next unit of a client is waited for and sent, it is enabled. */
  lemma NextIsEnabled(h: History, w: World, c: nat, k: nat, u: seq<Block>, w': World, known: set<Struct>, s: Struct)
    requires Sane(w) && Agrees(h, w) && IsTail(w, c, k, QueueOf(u, c)) && CutsNoPair(w, c, k)
    requires Sane(w') && Agrees(h, w') && OwnersPresent(w') && LiveAll(h, w')
    requires Received(u) <= known && AllClean(h, known) && Clean(h, s)
    requires s.id.client == c && !s.Skip? && s.id.clock <= SV(w')(c) < s.End() && Satisfied(SV(w'), s)
    requires k <= SV(w')(c) < SV(w)(c)
    ensures !S.Closed(known, SV(w'))
  {
    hide Sane, Agrees, LiveAll, OwnersPresent, Clean, Fits, QueueOf, IsTail, Satisfied, CutsNoPair, Received, State;
    TailIsComplete(h, w, c, k, QueueOf(u, c));
    assert Reached(QueueOf(u, c), SV(w')(c));
    var t :| t in QueueOf(u, c) && t.id.clock <= SV(w')(c) < t.End();
    QueuedIsReceived(u, t, c);
    SlicingIsIrrelevant(h, w', s, t);
    assert Enabled(SV(w'), t);
  }

  /** What a faithful document sends is clean. */
  lemma TailIsClean(h: History, w: World, c: nat, k: nat, q: seq<Struct>)
    requires Sane(w) && Agrees(h, w) && LiveAll(h, w) && IsTail(w, c, k, q) && CutsNoPair(w, c, k)
    ensures forall t <- q :: Clean(h, t)
  {
    TailIsComplete(h, w, c, k, q);
    hide Sane, Agrees, Fits, IsTail, State;
    forall t <- q
      ensures Clean(h, t)
    {
    }
  }

  /** No struct that needs nothing more is in a queue at rest. */
  lemma NothingDoneWaits(v: Vector, p: seq<seq<Block>>, t: Struct)
    requires (forall u <- p :: AtRest(v, u) && Orderly(u)) && t.End() <= v(t.id.client)
    ensures !Waits(p, t)
  {
    hide QueueOf, Satisfied;
  }
}
