/**
  The document: integrating the structs of updates, keeping what must wait, and applying
  deletions (internal/crdt/doc.go).
*/
module Docs {
  import opened Ids
  import opened Structs
  import opened Yata
  import opened Items
  import opened Placing
  import opened Store
  import opened Histories
  import opened Schedules
  import opened Steps
  import opened Convergence
  import opened Ledgers
  import opened Deletions
  import opened Wire
  import D = DeleteSets

  /** `left` ends exactly with the origin. */
  ghost predicate EndsWith(w: World, left: Option<Ref>, origin: Option<ID>) {
    && (left.Some? <==> origin.Some?)
    && (left.Some? ==>
          && left.value < |w.items| && w.items[left.value].Len() > 0
          && At(w.items[left.value].id, w.items[left.value].Len() - 1) == origin.value
          && origin.value in w.facts && w.items[left.value].parent == w.facts[origin.value].parent)
  }

  /** `next` starts exactly with the right origin. */
  ghost predicate StartsWith(w: World, next: Option<Ref>, right: Option<ID>) {
    && (next.Some? <==> right.Some?)
    && (next.Some? ==>
          && next.value < |w.items| && w.items[next.value].id == right.value
          && right.value in w.facts && w.items[next.value].parent == w.facts[right.value].parent)
  }

  /** The units of one item were typed one after the other. */
  lemma ItemTypedThrough(h: History, w: World, r: Ref, a: ID, b: ID)
    requires Sane(w) && Agrees(h, w) && r < |w.items| && a.clock <= b.clock
    requires Within(w.items[r].id, w.items[r].Len(), a) && Within(w.items[r].id, w.items[r].Len(), b)
    ensures TypedThrough(h, a, b)
  {
    SaneItem(w, r);
    hide Sane;
    var it := w.items[r];
    forall k: nat | a.clock < k <= b.clock
      ensures ID(a.client, k) in h && h[ID(a.client, k)].origin == Some(ID(a.client, k - 1))
    {
      var j := k - it.id.clock;
      assert At(it.id, j) == ID(a.client, k) && At(it.id, j - 1) == ID(a.client, k - 1);
      assert UnitOk(w.nodes, w.facts, w.gone, it, j);
      assert AgreesAt(h, w, ID(a.client, k));
    }
  }

  class Doc {
    const store: StructStore
    var pending: seq<seq<Block>>
    var pendingDeletes: D.DeleteSet
    ghost const h: History
    ghost var l: Ledger
    ghost var named: iset<ID>
    ghost var orderly: bool
    ghost var whole: bool

    ghost predicate Consistent()
      reads this, store
    {
      store.Valid() && Lawful(h) && Agrees(h, store.W())
    }

    /** Every reachable state: the books are right, everything that arrived is done, given up or
        waiting, and so is everything deletions have named.  `orderly` and `whole` say that every
        update so far had its structs in clock order and its delete ranges off pairs. */
    ghost predicate Valid()
      reads this, store, pendingDeletes
    {
      && Booked(h, store.W(), l) && pendingDeletes.Valid()
      && (forall u <- pending :: Listed(l.known, u)) && Accounted(SV(store.W()), l, pending)
      && (orderly ==> forall u <- pending :: Orderly(u))
      && Tallied(h, store.W(), l.known, named, pendingDeletes.Ids(), whole)
    }

    /** Between updates: the first struct of every waiting queue has to wait, and pending
        deletions name only what has not arrived. */
    ghost predicate Settled()
      reads this, store, pendingDeletes
    {
      && (forall u <- pending :: AtRest(SV(store.W()), u))
      && (forall x :: pendingDeletes.Contains(x) ==> x.clock >= State(store.items, store.clients, x.client))
    }

    constructor (ghost h: History)
      requires Lawful(h)
      ensures this.h == h && Valid() && Settled() && fresh(store) && fresh(pendingDeletes)
      ensures l == Ledger({}, {}, {}) && named == iset{} && orderly && whole
      ensures store.W() == World(map[], map[], [], map[], map[], map[], {})
    {
      this.h := h;
      store := new StructStore();
      pending, l, named, orderly, whole := [], Ledger({}, {}, {}), iset{}, true, true;
      pendingDeletes := new D.DeleteSet();
      new;
      NewBooked(h, store.W());
    }

    /** A neighbour of another client that the store does not have yet. */
    method IsMissing(client: nat, x: Option<ID>) returns (b: bool)
      ensures b == !Present(SV(store.W()), client, x)
    {
      return x.Some? && x.value.client != client && x.value.clock >= State(store.items, store.clients, x.value.client);
    }

    /** The list an item belongs to: inherited from a neighbour, or as the update says. */
    method FindParent(s: Struct, left: Option<Ref>, next: Option<Ref>) returns (parent: Option<Owner>)
      requires Consistent() && s.Item? && Fits(h, s) && s.Len() > 0
      requires EndsWith(store.W(), left, s.origin) && StartsWith(store.W(), next, s.right)
      ensures parent.Some? <==>
                (OwnerID(s.parent).Some? ==>
                   OwnerID(s.parent).value in store.facts && store.facts[OwnerID(s.parent).value].kind == Type)
      ensures parent.Some? ==> s.id in h && parent.value == h[s.id].parent
    {
      hide Sane;
      assert UnitFits(h, s, 0) && At(s.id, 0) == s.id;
      assert LawfulAt(h, s.id);
      if s.parent == None {
        if left.Some? {
          SaneKeys(store.W());
          assert AgreesAt(h, store.W(), s.origin.value);
          return Some(store.items[left.value].parent);
        }
        SaneKeys(store.W());
        assert AgreesAt(h, store.W(), s.right.value);
        return Some(store.items[next.value].parent);
      }
      match s.parent.value.holder
      case Root(_) => return s.parent;
      case Nested(p) =>
        var q := store.ItemAt(p);
        if q == None {
          SaneKeys(store.W());
          return None;
        }
        ghost var _ := HeldSlot(store.W(), q.value, p);
        if store.items[q.value].content.kind != Type {
          return None;
        }
        return s.parent;
    }

    /** `resolve`: the neighbours and the list of an item, or "not yet". */
    method Resolve(s: Struct) returns (ready: bool, left: Option<Ref>, next: Option<Ref>, parent: Option<Owner>)
      requires Consistent() && s.Item? && Fits(h, s) && s.Len() > 0
      modifies store
      ensures Consistent() && Resplit(old(store.W()), store.W())
      ensures ready <==> !Blocked(old(store.W()), s)
      ensures !ready ==> store.W() == old(store.W())
      ensures ready ==> (parent.Some? <==> Attachable(store.W(), s))
      ensures ready && parent.Some? ==>
                && s.id in h && parent.value == h[s.id].parent
                && EndsWith(store.W(), left, s.origin) && StartsWith(store.W(), next, s.right)
    {
      left, next, parent := None, None, None;
      ghost var w := store.W();
      ResplitNothing(w);
      var m1 := IsMissing(s.id.client, s.origin);
      var m2 := IsMissing(s.id.client, s.right);
      var m3 := IsMissing(s.id.client, OwnerID(s.parent));
      if m1 || m2 || m3 {
        return false, None, None, None;
      }
      ready := true;
      if s.origin.Some? {
        left := store.CleanEnd(s.origin.value);
        ResplitAgrees(h, w, store.W());
        if left == None {
          return;
        }
      }
      if s.right.Some? {
        ghost var w1 := store.W();
        next := store.CleanStart(s.right.value);
        ResplitAgrees(h, w1, store.W());
        ResplitTrans(w, w1, store.W());
        if next == None {
          return;
        }
        LeftStays(h, w1, store.W(), s, left);
      }
      parent := FindParent(s, left, next);
    }

    /** `integrateItem`: place the part of an item that is new among its parent's children. */
    method IntegrateItem(s: Struct, offset: nat, left: Option<Ref>, next: Option<Ref>, parent: Option<Owner>)
      requires Consistent() && s.Item? && Fits(h, s) && offset < s.Len()
      requires State(store.items, store.clients, s.id.client) == s.id.clock + offset
      requires parent.Some? <==> Attachable(store.W(), s)
      requires parent.Some? ==>
                 && s.id in h && parent.value == h[s.id].parent
                 && EndsWith(store.W(), left, s.origin) && StartsWith(store.W(), next, s.right)
      modifies store
      ensures Consistent() && Stepped(h, old(store.W()), store.W(), s, offset)
    {
      hide Sane, Finer, Order, State, Integrated;
      ghost var w := store.W();
      ResplitNothing(w);
      var id, origin, content, before := At(s.id, offset), s.origin, s.content, left;
      if offset > 0 {
        origin := Some(At(s.id, offset - 1));
        before := store.CleanEnd(origin.value);
        SaneKeys(w);
        ResplitAgrees(h, w, store.W());
        if before == None {
          return;
        }
        assert UnitFits(h, s, offset - 1) && AgreesAt(h, w, origin.value);
        assert Splits(content, offset);
        SplitKeepsPaired(content, offset);
        content := From(content, offset);
      }
      assert content == From(s.content, offset);
      ghost var w1 := store.W();
      if parent == None {
        store.Bury(id, s.Len() - offset);
        BuriedAgrees(h, w1, store.W(), id, s.Len() - offset);
      } else {
        ghost var o, t := NodeOf(w1, origin, Start), NodeOf(w1, s.right, End);
        SaneKeys(w1);
        ReadyToLink(h, w1, s, offset, before, next);
        store.LinkItem(id, origin, s.right, parent.value, content, before, next, o, t);
        IntegratedAgrees(h, w1, store.W(), s, offset);
      }
      ResplitStepped(h, w, w1, store.W(), s, offset);
    }

    /** One turn of a queue: integrate its first struct, or report that it has to wait. */
    method Turn(s: Struct) returns (popped: bool)
      requires Booked(h, store.W(), l) && s in l.known
      modifies store, this`l
      ensures Booked(h, store.W(), l) && Advanced(old(store.W()), old(l), store.W(), l)
      ensures popped <==> !Stuck(SV(old(store.W())), s)
      ensures popped ==> Handled(SV(store.W()), l.lost, s)
      ensures !popped ==> store.W() == old(store.W()) && l == old(l)
      ensures !s.Skip? && popped && SV(old(store.W()))(s.id.client) < s.End() ==>
                && s.id.clock <= SV(old(store.W()))(s.id.client)
                && Stepped(h, old(store.W()), store.W(), s, SV(old(store.W()))(s.id.client) - s.id.clock)
                && l == Entered(old(store.W()), old(l), s, SV(old(store.W()))(s.id.client) - s.id.clock)
    {
      hide Sane, Finer, Order, State, Lawful, Agrees, Fits, Stepped, Least, Faithful, Honest, Traced, Grown,
        ValuesSpared, OneValueEach, AllUnits, AllClean, TombstonesGone, OwnersPresent;
      ghost var w, l0 := store.W(), l;
      AdvancedNothing(w, l);
      if s.Skip? {
        return true;
      }
      var state := State(store.items, store.clients, s.id.client);
      if state < s.id.clock {
        return false;
      }
      var offset := state - s.id.clock;
      if offset >= s.Len() {
        return true;
      }
      if s.Item? {
        var ready, left, next, parent := Resolve(s);
        if !ready {
          return false;
        }
        ghost var w1 := store.W();
        IntegrateItem(s, offset, left, next, parent);
        ResplitStepped(h, w, w1, store.W(), s, offset);
      } else {
        store.Bury(At(s.id, offset), s.Len() - offset);
        BuriedAgrees(h, w, store.W(), At(s.id, offset), s.Len() - offset);
        BuriedStepped(h, w, store.W(), s, offset);
      }
      l := Entered(w, l, s, offset);
      EnteredBooked(h, w, store.W(), l0, s, offset);
      return true;
    }

    /** Consume one client's queue as far as it goes. */
    method Drain(queue: seq<Struct>) returns (rest: seq<Struct>)
      requires Booked(h, store.W(), l) && forall s <- queue :: s in l.known
      modifies store, this`l
      ensures Booked(h, store.W(), l) && Advanced(old(store.W()), old(l), store.W(), l)
      ensures Eaten(SV(store.W()), l.lost, queue, rest) && HeadStuck(SV(store.W()), rest)
      ensures |rest| == |queue| ==> store.W() == old(store.W()) && l == old(l)
    {
      hide Booked, Grown, Handled, Stuck, SV, Traced;
      rest := queue;
      AdvancedNothing(store.W(), l);
      while rest != []
        invariant Booked(h, store.W(), l) && Advanced(old(store.W()), old(l), store.W(), l) && l.known == old(l.known)
        invariant Eaten(SV(store.W()), l.lost, queue, rest)
        invariant |rest| == |queue| ==> store.W() == old(store.W()) && l == old(l)
        decreases |rest|
      {
        ghost var w, l0 := store.W(), l;
        assert rest[0] == queue[|queue| - |rest|];
        var popped := Turn(rest[0]);
        if !popped {
          break;
        }
        AdvancedTransitive(old(store.W()), old(l), w, l0, store.W(), l);
        EatenAdvances(w, l0, store.W(), l, queue, rest, rest[1..]);
        rest := rest[1..];
      }
    }

    /** One round over all clients. */
    method Round(order: seq<nat>, queues0: map<nat, seq<Struct>>)
                 returns (queues: map<nat, seq<Struct>>, progress: bool)
      requires Booked(h, store.W(), l) && NoRepeats(order) && forall c <- order :: c in queues0
      requires forall c <- queues0 :: forall s <- queues0[c] :: s in l.known
      modifies store, this`l
      ensures Booked(h, store.W(), l) && Advanced(old(store.W()), old(l), store.W(), l)
      ensures queues.Keys == queues0.Keys && forall c <- queues0 :: Eaten(SV(store.W()), l.lost, queues0[c], queues[c])
      ensures progress ==> Total(order, queues) < Total(order, queues0)
      ensures !progress ==>
                && store.W() == old(store.W()) && l == old(l) && queues == queues0
                && (forall c <- order :: HeadStuck(SV(store.W()), queues[c]))
    {
      hide Booked, Grown, Handled, HeadStuck, SV, Eaten;
      queues, progress := queues0, false;
      AdvancedNothing(store.W(), l);
      forall c <- queues0 { EatenNothing(SV(store.W()), l.lost, queues0[c]); }
      for i := 0 to |order|
        invariant Booked(h, store.W(), l) && Advanced(old(store.W()), old(l), store.W(), l) && l.known == old(l.known)
        invariant queues.Keys == queues0.Keys
        invariant forall c <- queues0 :: Eaten(SV(store.W()), l.lost, queues0[c], queues[c])
        invariant Total(order, queues) <= Total(order, queues0)
        invariant progress ==> Total(order, queues) < Total(order, queues0)
        invariant !progress ==>
                    && store.W() == old(store.W()) && l == old(l) && queues == queues0
                    && (forall j | 0 <= j < i :: HeadStuck(SV(store.W()), queues[order[j]]))
      {
        ghost var w, l0, q0 := store.W(), l, queues;
        EatenKnown(SV(w), l.lost, queues0[order[i]], queues[order[i]], l.known);
        var rest := Drain(queues[order[i]]);
        AdvancedTransitive(old(store.W()), old(l), w, l0, store.W(), l);
        forall c <- queues0
          ensures Eaten(SV(store.W()), l.lost, queues0[c], if c == order[i] then rest else queues[c])
        {
          EatenNothing(SV(store.W()), l.lost, queues[c]);
          EatenAdvances(w, l0, store.W(), l, queues0[c], queues[c], if c == order[i] then rest else queues[c]);
        }
        EatenShort(SV(store.W()), l.lost, queues[order[i]], rest);
        TotalUpdate(order, queues, order[i], rest);
        progress := progress || |rest| < |queues[order[i]]|;
        queues := queues[order[i] := rest];
      }
    }

    /** Sort the blocks of an update into one queue per client. */
    static method Enqueue(u: seq<Block>) returns (order: seq<nat>, queues: map<nat, seq<Struct>>)
      ensures Sorts(u, order, queues)
    {
      hide Sorts;
      order, queues := [], map[];
      SortsNothing();
      for i := 0 to |u|
        invariant Sorts(u[..i], order, queues)
      {
        var b := u[i];
        assert u[..i + 1] == u[..i] + [b];
        if b.client !in queues {
          SortsMore(u[..i], b, order + [b.client], queues[b.client := b.structs], order, queues);
          order := order + [b.client];
          queues := queues[b.client := b.structs];
        } else {
          SortsMore(u[..i], b, order, queues[b.client := queues[b.client] + b.structs], order, queues);
          queues := queues[b.client := queues[b.client] + b.structs];
        }
      }
      assert u[..|u|] == u;
    }

    /** What is left of the queues, as blocks. */
    static method Leftover(order: seq<nat>, queues: map<nat, seq<Struct>>) returns (rest: seq<Block>)
      requires NoRepeats(order) && (forall c :: c in order <==> c in queues)
      ensures forall c :: QueueOf(rest, c) == if c in queues then queues[c] else []
      ensures Count(rest) == Total(order, queues)
    {
      hide QueueOf, Count, Total;
      rest := [];
      LeftoverNothing(queues);
      for i := 0 to |order|
        invariant forall c :: QueueOf(rest, c) == if c in order[..i] then queues[c] else []
        invariant Count(rest) == Total(order[..i], queues)
      {
        ghost var r := rest;
        var q := queues[order[i]];
        if q != [] {
          rest := rest + [Block(order[i], q)];
        }
        LeftoverMore(r, rest, order, i, queues);
      }
      assert order[..|order|] == order;
    }

    /** `integrate`: apply as many of the update's structs as it can, keep the rest for later. */
    method Integrate(u: seq<Block>) returns (ghost rest: seq<Block>)
      requires Booked(h, store.W(), l) && Listed(l.known, u)
      modifies store, this`l, this`pending
      ensures Booked(h, store.W(), l) && Advanced(old(store.W()), old(l), store.W(), l)
      ensures forall c :: Eaten(SV(store.W()), l.lost, QueueOf(u, c), QueueOf(rest, c))
      ensures AtRest(SV(store.W()), rest)
      ensures pending == if rest == [] then old(pending) else old(pending) + [rest]
      ensures Count(rest) <= Count(u) && (Count(rest) == Count(u) ==> store.W() == old(store.W()) && l == old(l))
    {
      hide Booked, Grown, Handled, HeadStuck, SV, Eaten, QueueOf, Count, Total;
      var order, queues := Enqueue(u);
      ghost var queues0 := queues;
      var progress := true;
      AdvancedNothing(store.W(), l);
      forall c <- queues
        ensures Eaten(SV(store.W()), l.lost, queues[c], queues[c]) && forall s <- queues[c] :: s in l.known
      {
        EatenNothing(SV(store.W()), l.lost, queues[c]);
        assert QueueOf(u, c) == queues[c];
      }
      while progress
        invariant pending == old(pending)
        invariant Booked(h, store.W(), l) && Advanced(old(store.W()), old(l), store.W(), l) && l.known == old(l.known)
        invariant queues.Keys == queues0.Keys
        invariant forall c <- queues0 :: Eaten(SV(store.W()), l.lost, queues0[c], queues[c])
        invariant Total(order, queues) <= Total(order, queues0)
        invariant Total(order, queues) == Total(order, queues0) ==> store.W() == old(store.W()) && l == old(l)
        invariant !progress ==> forall c <- order :: HeadStuck(SV(store.W()), queues[c])
        decreases Total(order, queues), progress
      {
        ghost var w, l0, q0 := store.W(), l, queues;
        forall c <- queues { EatenKnown(SV(w), l.lost, queues0[c], queues[c], l.known); }
        queues, progress := Round(order, queues);
        AdvancedTransitive(old(store.W()), old(l), w, l0, store.W(), l);
        forall c <- queues0 { EatenAdvances(w, l0, store.W(), l, queues0[c], q0[c], queues[c]); }
      }
      var left := Leftover(order, queues);
      rest := left;
      if left != [] {
        pending := pending + [left];
      }
      IntegrateRests(SV(store.W()), l.lost, u, rest, order, queues0, queues);
    }

    /** `retryPending`, as far as structs go: run the held-back updates again until a round over
        all of them consumes nothing. */
    method RetryStructs()
      requires Booked(h, store.W(), l) && forall u <- pending :: Listed(l.known, u)
      modifies store, this`l, this`pending
      ensures Booked(h, store.W(), l) && Advanced(old(store.W()), old(l), store.W(), l)
      ensures forall u <- pending :: Listed(l.known, u) && AtRest(SV(store.W()), u)
      ensures (forall u <- old(pending) :: Orderly(u)) ==> forall u <- pending :: Orderly(u)
      ensures old(Accounted(SV(store.W()), l, pending)) ==> Accounted(SV(store.W()), l, pending)
    {
      hide Booked, Grown, Handled, SV, Eaten, Count, Listed, AtRest, Orderly, Waits, Traced;
      AdvancedNothing(store.W(), l);
      while pending != []
        invariant Booked(h, store.W(), l) && Advanced(old(store.W()), old(l), store.W(), l)
        invariant forall u <- pending :: Listed(l.known, u)
        invariant (forall u <- old(pending) :: Orderly(u)) ==> forall u <- pending :: Orderly(u)
        invariant old(Accounted(SV(store.W()), l, pending)) ==> Accounted(SV(store.W()), l, pending)
        decreases Counts(pending)
      {
        ghost var w, l0 := store.W(), l;
        var moved := RetryRound();
        AdvancedTransitive(old(store.W()), old(l), w, l0, store.W(), l);
        if !moved {
          break;
        }
      }
    }

    /** One round over the held-back updates. */
    method RetryRound() returns (moved: bool)
      requires Booked(h, store.W(), l) && forall u <- pending :: Listed(l.known, u)
      modifies store, this`l, this`pending
      ensures Booked(h, store.W(), l) && Advanced(old(store.W()), old(l), store.W(), l)
      ensures forall u <- pending :: Listed(l.known, u)
      ensures (forall u <- old(pending) :: Orderly(u)) ==> forall u <- pending :: Orderly(u)
      ensures old(Accounted(SV(store.W()), l, pending)) ==> Accounted(SV(store.W()), l, pending)
      ensures moved ==> Counts(pending) < old(Counts(pending))
      ensures !moved ==> store.W() == old(store.W()) && l == old(l) && forall u <- pending :: AtRest(SV(store.W()), u)
    {
      hide Booked, Grown, Handled, SV, Eaten, Count, Listed, AtRest, Orderly, Waits, Traced;
      var held, before := pending, Counts(pending);
      pending := [];
      AdvancedNothing(store.W(), l);
      for i := 0 to |held|
        invariant Booked(h, store.W(), l) && Advanced(old(store.W()), old(l), store.W(), l) && l.known == old(l.known)
        invariant Counts(pending) <= Counts(held[..i])
        invariant Counts(pending) == Counts(held[..i]) ==>
                    store.W() == old(store.W()) && l == old(l) && forall u <- pending :: AtRest(SV(store.W()), u)
        invariant forall u <- pending :: Listed(l.known, u)
        invariant (forall u <- held[..i] :: Orderly(u)) ==> forall u <- pending :: Orderly(u)
        invariant forall s | Waits(held[..i], s) :: Handled(SV(store.W()), l.lost, s) || Waits(pending, s)
      {
        ghost var w, l0, p := store.W(), l, pending;
        ghost var rest := Integrate(held[i]);
        AdvancedTransitive(old(store.W()), old(l), w, l0, store.W(), l);
        assert held[..i + 1] == held[..i] + [held[i]];
        Retried(w, l0, store.W(), l, held[..i], held[i], p, rest, pending);
      }
      assert held[..|held|] == held;
      RetriedAll(old(store.W()), old(l), store.W(), l, held, pending);
      return Counts(pending) < before;
    }

    /** One struct of `deleteRange`: mark it deleted up to `to`, cutting it there if need be. */
    method DeleteEntry(client: nat, index: nat, to: nat)
      requires store.Valid() && client in store.clients && index < |store.clients[client]|
      requires NextClock(store.W(), client, index) < to
      modifies store
      ensures store.Valid() && Erased(old(store.W()), store.W())
      ensures client in store.clients && index < |store.clients[client]|
      ensures NextClock(store.W(), client, index + 1) == old(NextClock(store.W(), client, index + 1))
              || NextClock(store.W(), client, index + 1) == to < old(NextClock(store.W(), client, index + 1))
      ensures NextClock(store.W(), client, index) == old(NextClock(store.W(), client, index))
      ensures LegalCut(old(store.W()), client, to) ==>
                ErasedExactly(old(store.W()), store.W(), client, old(NextClock(store.W(), client, index)),
                              Min(old(NextClock(store.W(), client, index + 1)), to))
    {
      hide Sane, Finer, Order, State;
      ghost var w := store.W();
      ResplitNothing(w);
      ResplitErases(w, w);
      StopIsNext(w, client, index);
      var e := store.clients[client][index];
      EntryFits(w, client, index);
      if e.Dead? || store.items[e.ref].deleted {
        NothingLeft(w, client, index, NextClock(w, client, index), Min(NextClock(w, client, index + 1), to));
        return;
      }
      if Stop(store.items, e) > to {
        var tail := store.SplitItem(e.ref, to - store.items[e.ref].id.clock, index);
        ResplitErases(w, store.W());
        StopIsNext(store.W(), client, index);
        if tail == None {
          CutFails(w, client, index, to);
          return;
        }
      }
      ghost var w1 := store.W();
      WholeItem(w1, client, index, e.ref);
      store.DeleteItem(e.ref);
      MarkErases(w1, e.ref);
      ErasedTransitive(w, w1, store.W());
      StopIsNext(store.W(), client, index);
    }

    /** `deleteRange`: mark the stored units with clocks in [from, to) deleted.  It marks exactly
        these if and only if neither end of the range cuts a pair that is still there. */
    method DeleteRange(client: nat, from: nat, to: nat)
      requires store.Valid()
      modifies store
      ensures store.Valid() && Erased(old(store.W()), store.W())
      ensures from >= to ==> store.W() == old(store.W())
      ensures from < to ==>
                (LegalCut(old(store.W()), client, from) && LegalCut(old(store.W()), client, to)
                 <==> ErasedExactly(old(store.W()), store.W(), client, from, to))
    {
      hide Sane, Finer, Order, State;
      ghost var w := store.W();
      ResplitNothing(w);
      ResplitErases(w, w);
      if to <= from {
        return;
      }
      var first := store.CleanStart(ID(client, from));
      ghost var w1 := store.W();
      ResplitErases(w, w1);
      var found := store.Find(ID(client, from));
      if found == None {
        NothingThere(w, client, from, to);
        return;
      }
      var index: nat := found.value;
      SaneKeys(w1);
      ghost var legal := LegalCut(w, client, from) && LegalCut(w, client, to);
      if legal { StartIsClean(w, w1, client, from, index, first); }
      while index < |store.clients[client]| && EntryID(store.items, store.clients[client][index]).clock < to
        invariant store.Valid() && Erased(w, store.W()) && client in store.clients && index <= |store.clients[client]|
        invariant legal ==> ErasedExactly(w, store.W(), client, from, Min(NextClock(store.W(), client, index), to))
        invariant legal ==> Stretch(w, client, NextClock(store.W(), client, index), from) <= w.gone
        invariant NextClock(store.W(), client, index) <= State(store.items, store.clients, client)
        decreases State(store.items, store.clients, client) - NextClock(store.W(), client, index)
      {
        ghost var w2 := store.W();
        StopIsNext(w2, client, index);
        if legal { LegalStays(w, w2, client, to); }
        DeleteEntry(client, index, to);
        ErasedTransitive(w, w2, store.W());
        StopIsNext(store.W(), client, index);
        if legal {
          ErasedFurther(w, w2, store.W(), client, from, NextClock(w2, client, index),
                        Min(NextClock(w2, client, index + 1), to));
        }
        index := index + 1;
      }
      if legal && State(store.items, store.clients, client) < to { StretchEnds(w, client, from, to); }
      if ErasedExactly(w, store.W(), client, from, to) { ExactMeansLegal(w, store.W(), client, from, to); }
    }

    /** One range of `applyDeleteSet`: delete what is there, remember the rest. */
    method ApplyRange(client: nat, r: D.Range)
      requires store.Valid() && pendingDeletes.Valid()
      modifies store, pendingDeletes
      ensures store.Valid() && pendingDeletes.Valid() && Erased(old(store.W()), store.W())
      ensures forall x :: pendingDeletes.Contains(x) <==>
                old(pendingDeletes.Contains(x)) ||
                (x.client == client && r.Has(x.clock) && x.clock >= State(store.items, store.clients, client))
      ensures LegalCut(old(store.W()), client, r.clock) && LegalCut(old(store.W()), client, r.End()) ==>
                ErasedExactly(old(store.W()), store.W(), client, r.clock, r.End())
    {
      hide Sane, Finer, Order, State;
      ghost var w := store.W();
      var state, end := State(store.items, store.clients, client), r.End();
      StretchEnds(w, client, r.clock, Max(state, end));
      UncoveredUnit(w, ID(client, state));
      SaneKeys(w);
      if r.clock >= state {
        ResplitNothing(w);
        ResplitErases(w, w);
        pendingDeletes.Add(client, r.clock, r.len);
        return;
      }
      if end > state {
        pendingDeletes.Add(client, state, end - state);
        end := state;
      }
      DeleteRange(client, r.clock, end);
    }

    method ApplyRanges(client: nat, ranges: seq<D.Range>)
      requires store.Valid() && pendingDeletes.Valid()
      modifies store, pendingDeletes
      ensures store.Valid() && pendingDeletes.Valid() && Erased(old(store.W()), store.W())
      ensures forall x :: pendingDeletes.Contains(x) <==>
                old(pendingDeletes.Contains(x)) ||
                (x.client == client && D.Names(ranges, x.clock) && x.clock >= State(store.items, store.clients, client))
      ensures (forall r <- ranges ::
                LegalCut(old(store.W()), client, r.clock) && LegalCut(old(store.W()), client, r.End())) ==>
                store.gone == old(store.gone) + Asked(old(store.W()), client, ranges)
    {
      hide Sane, Finer, Order, State, LegalCut, D.Names;
      ghost var w := store.W();
      ghost var legal := forall r <- ranges :: LegalCut(w, client, r.clock) && LegalCut(w, client, r.End());
      ResplitNothing(w);
      ResplitErases(w, w);
      AskedNothing(w, client);
      for i := 0 to |ranges|
        invariant store.Valid() && pendingDeletes.Valid() && Erased(w, store.W())
        invariant forall x :: pendingDeletes.Contains(x) <==>
                    old(pendingDeletes.Contains(x)) ||
                    (x.client == client && D.Names(ranges[..i], x.clock) &&
                      x.clock >= State(store.items, store.clients, client))
        invariant legal ==> store.gone == w.gone + Asked(w, client, ranges[..i])
      {
        ghost var w1 := store.W();
        assert ranges[..i + 1] == ranges[..i] + [ranges[i]];
        if legal {
          LegalStays(w, w1, client, ranges[i].clock);
          LegalStays(w, w1, client, ranges[i].End());
        }
        ApplyRange(client, ranges[i]);
        ErasedTransitive(w, w1, store.W());
        AskedMore(w, w1, client, ranges[..i], ranges[i]);
      }
      assert ranges[..|ranges|] == ranges;
    }

    /** `applyDeleteSet`: mark the given ranges deleted.  Units that have not arrived stay pending;
        if no range cuts a pair that is still there, exactly the stored units it names are marked. */
    method ApplyDeletes(ds: map<nat, seq<D.Range>>)
      requires store.Valid() && pendingDeletes.Valid()
      modifies store, pendingDeletes
      ensures store.Valid() && pendingDeletes.Valid() && Erased(old(store.W()), store.W())
      ensures forall x :: pendingDeletes.Contains(x) <==>
                old(pendingDeletes.Contains(x)) ||
                  (Asks(ds, x) && x.clock >= State(store.items, store.clients, x.client))
      ensures LegalEnds(old(store.W()), ds) ==> store.gone == old(store.gone) + AskedAll(old(store.W()), ds)
    {
      hide Sane, Finer, Order, State, LegalCut, D.Names;
      ghost var w := store.W();
      ResplitNothing(w);
      ResplitErases(w, w);
      var todo := ds.Keys;
      while todo != {}
        invariant todo <= ds.Keys
        invariant store.Valid() && pendingDeletes.Valid() && Erased(w, store.W())
        invariant forall x :: pendingDeletes.Contains(x) <==>
                    old(pendingDeletes.Contains(x)) ||
                    (x.client !in todo && Asks(ds, x) && x.clock >= State(store.items, store.clients, x.client))
        invariant LegalEnds(w, ds) ==> store.gone == w.gone + set x | x in AskedAll(w, ds) && x.client !in todo
      {
        ghost var w1 := store.W();
        var client :| client in todo;
        if LegalEnds(w, ds) {
          forall r <- ds[client]
            ensures LegalCut(w1, client, r.clock) && LegalCut(w1, client, r.End())
          {
            LegalStays(w, w1, client, r.clock);
            LegalStays(w, w1, client, r.End());
          }
        }
        ApplyRanges(client, ds[client]);
        ErasedTransitive(w, w1, store.W());
        todo := todo - {client};
      }
    }

    /** The end of `retryPending`: try the pending deletions again. */
    method RetryDeletes()
      requires Valid()
      modifies store, this`pendingDeletes
      ensures Valid() && Erased(old(store.W()), store.W())
      ensures fresh(pendingDeletes) || pendingDeletes == old(pendingDeletes)
      ensures forall x :: pendingDeletes.Contains(x) ==> x.clock >= State(store.items, store.clients, x.client)
    {
      hide Sane, Booked, Tallied, Erased, State, Order, Accounted, Listed, Orderly, LegalEnds, AskedAll, D.Names,
        D.Normal;
      ghost var w, p := store.W(), pendingDeletes.Ids();
      BookedSane(h, w, l);
      var ds := pendingDeletes.clients;
      assert p == Asking(ds);
      pendingDeletes := new D.DeleteSet();
      ApplyDeletes(ds);
      ErasedBooked(h, w, store.W(), l);
      ErasedState(w, store.W());
      TalliedRetry(h, w, l, store.W(), named, p, pendingDeletes.Ids(), whole, ds);
      ErasedAccounted(w, store.W(), l, pending);
    }

    /** `retryPending`. */
    method RetryPending()
      requires Valid()
      modifies store, this`l, this`pending, this`pendingDeletes
      ensures Valid() && Settled() && Grown(old(store.W()), store.W()) && l.known == old(l.known)
      ensures old(l.done) <= l.done && Traced(old(store.W()), old(l), store.W(), l)
      ensures fresh(pendingDeletes) || pendingDeletes == old(pendingDeletes)
    {
      hide Sane, Booked, Tallied, Grown, Erased, State, Order, Accounted, Listed, Orderly, AtRest, Traced;
      ghost var w, l0 := store.W(), l;
      RetryStructs();
      ghost var w1 := store.W();
      TalliedAdvance(h, w, l0, w1, l, named, pendingDeletes.Ids(), whole);
      RetryDeletes();
      BookedSane(h, store.W(), l);
      ErasedBooked(h, w1, store.W(), l);
      ErasedAtRest(w1, store.W(), pending);
      GrownTransitive(w, w1, store.W());
      ErasedTraced(w1, store.W(), l);
      TracedTransitive(w, l0, w1, l, store.W(), l);
    }

    /** The structs of an update arrive. */
    method Receive(u: seq<Block>)
      requires Valid() && forall s <- Received(u) :: Fits(h, s)
      modifies store, this`l, this`pending, this`orderly
      ensures Valid() && Grown(old(store.W()), store.W())
      ensures old(l.done) <= l.done && Traced(old(store.W()), old(l), store.W(), l)
      ensures l.known == old(l.known) + Received(u) && orderly == (old(orderly) && Orderly(u))
    {
      hide Sane, Booked, Tallied, Grown, State, Order, Listed, Orderly, AtRest, Accounted, Received, Fits, Traced;
      ghost var w, l1, p := store.W(), l.(known := l.known + Received(u)), pending;
      Arrive(h, w, l, u, pending);
      TalliedArrivals(h, w, l.known, Received(u), named, pendingDeletes.Ids(), whole);
      l, orderly := l1, orderly && Orderly(u);
      ghost var rest := Integrate(u);
      SameTrace(w, old(l), l1, store.W(), l);
      TalliedAdvance(h, w, l1, store.W(), l, named, pendingDeletes.Ids(), whole);
      Retried(w, l1, store.W(), l, p, u, p, rest, pending);
      RetriedAll(w, l1, store.W(), l, p + [u], pending);
    }

    /** The deletions of an update arrive. */
    method Delete(ds: map<nat, seq<D.Range>>)
      requires Valid()
      modifies store, pendingDeletes, this`named, this`whole
      ensures Valid() && Erased(old(store.W()), store.W())
      ensures named == old(named) + Asking(ds) && whole == (old(whole) && KeepsPairs(h, ds))
    {
      hide Sane, Booked, Tallied, Erased, State, Order, Accounted, Listed, Orderly, LegalEnds, AskedAll, D.Names,
        KeepsPairs;
      ghost var w, p := store.W(), pendingDeletes.Ids();
      BookedSane(h, w, l);
      ApplyDeletes(ds);
      ErasedBooked(h, w, store.W(), l);
      ErasedState(w, store.W());
      TalliedDelete(h, w, l, store.W(), named, p, pendingDeletes.Ids(), whole, ds);
      ErasedAccounted(w, store.W(), l, pending);
      named, whole := named + Asking(ds), whole && KeepsPairs(h, ds);
    }

    /** `ApplyDecodedUpdate`. */
    method ApplyUpdate(u: Update)
      requires Valid() && forall s <- Received(u.blocks) :: Fits(h, s)
      modifies this, store, pendingDeletes
      ensures Valid() && Settled() && Grown(old(store.W()), store.W())
      ensures l.known == old(l.known) + Received(u.blocks) && named == old(named) + Asking(u.deletes)
      ensures old(l.done) <= l.done && Traced(old(store.W()), old(l), store.W(), l)
      ensures forall x <- store.facts | x !in old(store.facts) && store.facts[x].parent.holder.Nested? ::
                store.facts[x].parent.holder.item in old(store.gone) ==> x in store.gone
      ensures orderly == (old(orderly) && Orderly(u.blocks)) && whole == (old(whole) && KeepsPairs(h, u.deletes))
      ensures fresh(pendingDeletes) || pendingDeletes == old(pendingDeletes)
    {
      hide Valid, Settled, Grown, Erased, Received, Orderly, Asking, KeepsPairs, Fits, Traced;
      ghost var w := store.W();
      Receive(u.blocks);
      ghost var w1, l1 := store.W(), l;
      assert Booked(h, w1, l1) by { ValidBooked(); }
      Delete(u.deletes);
      assert Sane(store.W()) by { ValidBooked(); }
      ErasedBooked(h, w1, store.W(), l1);
      GrownTransitive(w, w1, store.W());
      ghost var w2 := store.W();
      ErasedTraced(w1, w2, l1);
      TracedTransitive(w, old(l), w1, l1, w2, l1);
      RetryPending();
      GrownTransitive(w, w2, store.W());
      TracedTransitive(w, old(l), w2, l1, store.W(), l);
      TracedShade(w, old(l), store.W(), l);
    }

    lemma ValidBooked()
      requires Valid()
      ensures Booked(h, store.W(), l) && Sane(store.W())
    {
    }

    /** `DeleteSet`: the deletions the store knows about.  Collected content counts as deleted. */
    method KnownDeletes() returns (ds: D.DeleteSet)
      requires store.Valid()
      ensures fresh(ds) && ds.Valid() && forall x :: ds.Contains(x) <==> Erasable(store.W(), x)
    {
      hide Sane, State, Erasable, D.Names;
      ghost var w := store.W();
      ds := new D.DeleteSet();
      var todo := store.clients.Keys;
      forall x { NoClientNoUnits(w, x); }
      while todo != {}
        invariant fresh(ds) && ds.Valid() && todo <= store.clients.Keys
        invariant forall x :: ds.Contains(x) <==> Erasable(w, x) && x.client !in todo
      {
        var client :| client in todo;
        var es := store.clients[client];
        FirstClock(w, client);
        for i := 0 to |es|
          invariant fresh(ds) && ds.Valid()
          invariant forall x :: ds.Contains(x) <==>
                      Erasable(w, x) && (x.client !in todo || (x.client == client && x.clock < NextClock(w, client, i)))
        {
          EntryFits(w, client, i);
          StopIsNext(w, client, i);
          EntryErasable(w, client, i);
          if es[i].Dead? || store.items[es[i].ref].deleted {
            ds.Add(client, EntryID(store.items, es[i]).clock, EntryLen(store.items, es[i]));
          }
        }
        forall x | Erasable(w, x) { ErasableBelow(w, x); }
        todo := todo - {client};
      }
    }

    /** `deleteSetForUpdate`: what peers are told has been deleted. */
    method AdvertisedDeletes() returns (ds: D.DeleteSet)
      requires store.Valid() && pendingDeletes.Valid()
      ensures fresh(ds) && ds.Valid()
      ensures forall x :: ds.Contains(x) <==> Erasable(store.W(), x) || pendingDeletes.Contains(x)
    {
      hide Sane, State, Erasable, D.Names;
      ds := KnownDeletes();
      var p := pendingDeletes.clients;
      var todo := p.Keys;
      while todo != {}
        invariant fresh(ds) && ds.Valid() && todo <= p.Keys
        invariant forall x :: ds.Contains(x) <==>
                    Erasable(store.W(), x) || (pendingDeletes.Contains(x) && x.client !in todo)
      {
        var client :| client in todo;
        AskedNothing(store.W(), client);
        for i := 0 to |p[client]|
          invariant fresh(ds) && ds.Valid()
          invariant forall x :: ds.Contains(x) <==>
                      || Erasable(store.W(), x) || (pendingDeletes.Contains(x) && x.client !in todo)
                      || (x.client == client && D.Names(p[client][..i], x.clock))
        {
          var r := p[client][i];
          assert p[client][..i + 1] == p[client][..i] + [r];
          forall k: nat { D.NamesAppend(p[client][..i], r, k); }
          ds.Add(client, r.clock, r.len);
        }
        assert p[client][..|p[client]|] == p[client];
        todo := todo - {client};
      }
    }

    /** `EncodeStateAsUpdate`: everything the holder of `sv` is missing. */
    method EncodeStateAsUpdate(sv: map<nat, nat>) returns (u: Update)
      requires store.Valid() && pendingDeletes.Valid()
      ensures forall c :: IsTail(store.W(), c, if c in sv then sv[c] else 0, QueueOf(u.blocks, c))
      ensures forall c <- u.deletes :: D.Normal(u.deletes[c]) && u.deletes[c] != []
      ensures forall b <- u.blocks ::
                (if b.client in sv then sv[b.client] else 0) < State(store.items, store.clients, b.client)
      ensures forall x :: Asks(u.deletes, x) <==> Erasable(store.W(), x) || pendingDeletes.Contains(x)
      ensures forall i, j | 0 <= i < j < |u.blocks| :: u.blocks[i].client > u.blocks[j].client
    {
      hide Sane, State, Erasable, D.Names, D.Normal, QueueOf, IsTail, Covers, Falling;
      var ds := AdvertisedDeletes();
      var deletes := ds.clients;
      assert forall c <- deletes :: D.Normal(deletes[c]) && deletes[c] != [];
      assert forall x :: Asks(deletes, x) <==> ds.Contains(x);
      var blocks: seq<Block> := [];
      var todo := store.clients.Keys;
      LeftoverNothing(map[]);
      FallsNot(todo);
      forall c | c !in store.clients { NoClientNoTail(store.W(), c, if c in sv then sv[c] else 0); }
      while todo != {}
        invariant todo <= store.clients.Keys
        invariant forall c | c in todo :: QueueOf(blocks, c) == []
        invariant forall c | c !in todo :: IsTail(store.W(), c, if c in sv then sv[c] else 0, QueueOf(blocks, c))
        invariant Falling(blocks, todo)
        invariant forall b <- blocks ::
                    (if b.client in sv then sv[b.client] else 0) < State(store.items, store.clients, b.client)
      {
        ghost var last := Largest(todo);
        var client :| client in todo && forall c <- todo :: c <= client;
        var clock := if client in sv then sv[client] else 0;
        FallsOn(blocks, todo, client);
        if clock < State(store.items, store.clients, client) {
          var tail := TailFrom(client, clock);
          AppendBlock(blocks, Block(client, tail));
          assert [] + tail == tail;
          assert Falling(blocks + [Block(client, tail)], todo - {client});
          blocks := blocks + [Block(client, tail)];
        } else {
          NothingToSend(store.W(), client, clock);
        }
        todo := todo - {client};
      }
      FallsAll(blocks);
      return Update(blocks, deletes);
    }

    /** The structs of one client from a clock it has reached. */
    method TailFrom(client: nat, clock: nat) returns (tail: seq<Struct>)
      requires store.Valid() && client in store.clients && clock < State(store.items, store.clients, client)
      ensures IsTail(store.W(), client, clock, tail)
    {
      hide Sane, State, IsTail, Covers;
      var found := store.Find(ID(client, clock));
      ClientSendable(store.W(), client, found.value, clock);
      tail := Tail(store.items, store.clients[client], found.value, clock);
      TailFound(store.W(), client, found.value, clock);
    }

    /** The clocks this document has integrated. */
    method StateVector() returns (sv: map<nat, nat>)
      ensures forall c :: State(store.items, store.clients, c) == if c in sv then sv[c] else 0
    {
      return map c | c in store.clients :: State(store.items, store.clients, c);
    }
  }

  /** The clients of the blocks fall, and stay above what is still to come. */
  ghost predicate Falling(blocks: seq<Block>, todo: set<nat>) {
    && (forall i, j | 0 <= i < j < |blocks| :: blocks[i].client > blocks[j].client)
    && (forall i | 0 <= i < |blocks| :: forall c <- todo :: blocks[i].client > c)
  }

  lemma FallsNot(todo: set<nat>)
    ensures Falling([], todo)
  {
  }

  lemma FallsAll(blocks: seq<Block>)
    requires Falling(blocks, {})
    ensures forall i, j | 0 <= i < j < |blocks| :: blocks[i].client > blocks[j].client
  {
  }

  lemma FallsOn(blocks: seq<Block>, todo: set<nat>, client: nat)
    requires Falling(blocks, todo) && client in todo && forall c <- todo :: c <= client
    ensures Falling(blocks, todo - {client}) && forall tail :: Falling(blocks + [Block(client, tail)], todo - {client})
  {
  }

  lemma IntegrateRests(v: Vector, lost: set<Struct>, u: seq<Block>, rest: seq<Block>, order: seq<nat>,
                       queues0: map<nat, seq<Struct>>, queues: map<nat, seq<Struct>>)
    requires queues.Keys == queues0.Keys && forall c <- queues0 :: Eaten(v, lost, queues0[c], queues[c])
    requires forall c :: c in order <==> c in queues
    requires forall c <- order :: HeadStuck(v, queues[c])
    requires forall c :: QueueOf(u, c) == if c in queues0 then queues0[c] else []
    requires forall c :: QueueOf(rest, c) == if c in queues then queues[c] else []
    ensures AtRest(v, rest) && forall c :: Eaten(v, lost, QueueOf(u, c), QueueOf(rest, c))
  {
    hide QueueOf, Handled, Stuck;
  }

  /** After `resolve`, and `GetItemCleanEnd` for an overlap, an attachable item can be linked in. */
  lemma ReadyToLink(h: History, w: World, s: Struct, offset: nat, left: Option<Ref>, next: Option<Ref>)
    requires Sane(w) && Lawful(h) && Agrees(h, w) && s.Item? && Fits(h, s) && offset < s.Len() && Attachable(w, s)
    requires EndsWith(w, left, OriginAt(s, offset)) && StartsWith(w, next, s.right)
    ensures s.id in h
    ensures var o, t, k := NodeOf(w, OriginAt(s, offset), Start), NodeOf(w, s.right, End), h[s.id].parent;
            && Resolved(w, k, Described(At(s.id, offset), o, t, 0), OriginAt(s, offset), s.right, left, next)
            && (o.Elem? ==> o.id in w.facts && w.facts[o.id].parent == k)
            && (left == None && next.Some? ==> w.items[next.value].parent == k)
  {
    var origin := OriginAt(s, offset);
    SaneKeys(w);
    hide Sane;
    assert UnitFits(h, s, offset);
    assert LawfulAt(h, At(s.id, offset));
    NeighbourNamed(h, w, origin, Start);
    NeighbourNamed(h, w, s.right, End);
    if origin.Some? { assert AgreesAt(h, w, origin.value); }
    if s.right.Some? { assert AgreesAt(h, w, s.right.value); }
  }

  /** Cutting at the right origin leaves the end of `left` alone: the right origin is not inside
      the item that ends with the origin. */
  lemma LeftStays(h: History, w: World, w': World, s: Struct, left: Option<Ref>)
    requires Sane(w) && Agrees(h, w) && Lawful(h) && s.Item? && Fits(h, s) && s.Len() > 0 && s.right.Some?
    requires EndsWith(w, left, s.origin) && Resplit(w, w')
    requires forall q | 0 <= q < |w.items| && !Within(w.items[q].id, w.items[q].Len(), s.right.value) ::
               q < |w'.items| && w'.items[q].Len() == w.items[q].Len()
    ensures EndsWith(w', left, s.origin)
  {
    hide Sane, Finer, Order, State;
    if left.Some? {
      var it := w.items[left.value];
      assert UnitFits(h, s, 0) && At(s.id, 0) == s.id;
      assert LawfulAt(h, s.id);
      if Within(it.id, it.Len(), s.right.value) {
        ItemTypedThrough(h, w, left.value, s.right.value, s.origin.value);
      }
    }
  }
}
