/**
  Replicas and what they tell each other (`EncodeStateAsUpdate` in internal/crdt/doc.go, with
  `Item.write` of internal/crdt/struct.go).
*/
module Sync {
  import opened Ids
  import opened Structs
  import opened Yata
  import opened Items
  import opened Placing
  import opened Store
  import opened Schedules
  import opened Histories
  import opened Steps
  import opened Convergence
  import opened Deletions
  import opened Ledgers
  import opened Docs
  import opened Replicas
  import opened Wire
  import S = Schedules
  import D = DeleteSets

  /** A document between updates, fed by an honest history through updates in clock order whose
      delete ranges do not cut pairs. */
  ghost predicate Trusted(a: Doc)
    reads a, a.store, a.pendingDeletes
  {
    a.Valid() && a.Settled() && Honest(a.h) && AllClean(a.h, a.l.known) && a.orderly && a.whole
  }

  /** The same state: equally far, the same units in the same order in every list, the same
      content shown in every sequence, and the same value under every key, of a type that is not deleted
      in either. */
  ghost predicate Alike(a: Doc, b: Doc)
    reads a.store, b.store
  {
    && (forall c :: State(a.store.items, a.store.clients, c) == State(b.store.items, b.store.clients, c))
    && a.store.nodes == b.store.nodes && a.store.facts == b.store.facts
    && (forall k :: Order(a.store.W(), k) == Order(b.store.W(), k))
    && (forall k: Owner | Living(a.store.W(), k) && Living(b.store.W(), k) ::
          if k.Keyed() then ValueOf(a.store.W(), k) == ValueOf(b.store.W(), k)
          else Visible(a.store.W(), k) == Visible(b.store.W(), k))
  }

  /** Documents that are equally far and mark the same units are alike. */
  lemma EquallyFarIsAlike(a: Doc, b: Doc)
    requires Trusted(a) && Trusted(b) && a.h == b.h
    requires forall c :: State(a.store.items, a.store.clients, c) == State(b.store.items, b.store.clients, c)
    requires a.named <= b.named && forall x <- b.named :: x in a.store.facts ==> x in a.store.gone
    ensures Alike(a, b)
  {
    hide Sane, Agrees, LiveAll, OrderedAll, OwnersPresent, TombstonesGone, Lawful, Fits, Least, Honest, AllClean, State,
      Order, AtRest, Orderly, Accounted, Visible, ValueOf, DeletedAsNamed, D.Names, OneValueEach, LastEntry;
    var w, w' := a.store.W(), b.store.W();
    SameUnits(a.h, w, w');
    TalliedMeansNamed(a.h, w, a.l, a.named, a.pendingDeletes.Ids());
    TalliedMeansNamed(b.h, w', b.l, b.named, b.pendingDeletes.Ids());
    forall k
      ensures Order(w, k) == Order(w', k)
      ensures Living(w, k) && Living(w', k) && !k.Keyed() ==> Visible(w, k) == Visible(w', k)
      ensures Living(w, k) && Living(w', k) && k.Keyed() ==> ValueOf(w, k) == ValueOf(w', k)
    {
      SameOrder(w, w', k);
      if Living(w, k) && Living(w', k) {
        if k.Keyed() { SameValue(w, w', a.named, b.named, k); } else { SameText(w, w', a.named, b.named, k); }
      }
    }
  }

  /** A stored unit that was named is marked. */
  lemma NamedIsGone(a: Doc, x: ID)
    requires Trusted(a) && x in a.named && x in a.store.facts
    ensures x in a.store.gone
  {
    BookedSane(a.h, a.store.W(), a.l);
    SaneKeys(a.store.W());
    SaneNode(a.store.W(), x);
    hide Sane, Booked, State, Honest, AllClean, Accounted, Listed, Orderly, AtRest, D.Names, PairWise;
    assert x in a.pendingDeletes.Ids() || x in a.store.gone;
  }

  /** Strong eventual consistency: replicas that have been told the same operations and the same
      deletions, in whatever slices, order, batches and repetition, are alike. */
  lemma StrongConvergence(a: Doc, b: Doc)
    requires Trusted(a) && Trusted(b) && a.h == b.h && a.named == b.named
    requires forall x :: Carries(a.l.known, x) <==> Carries(b.l.known, x)
    ensures Alike(a, b)
  {
    assert Resting(a.h, a.store.W(), a.l, a.pending) && Resting(b.h, b.store.W(), b.l, b.pending);
    hide Trusted, Alike, Resting, Carries, State;
    SameVector(a.h, a.store.W(), a.l, a.pending, b.store.W(), b.l, b.pending);
    forall x <- b.named | x in a.store.facts { NamedIsGone(a, x); }
    EquallyFarIsAlike(a, b);
  }

  /** If map entries hold one value each, alike documents also mark the same entries of keys of types
      that are not deleted in either. */
  lemma KeysAlike(a: Doc, b: Doc, k: Owner)
    requires Trusted(a) && Trusted(b) && Alike(a, b) && k.Keyed()
    requires Living(a.store.W(), k) && Living(b.store.W(), k)
    requires AllUnits(a.h, a.l.known) && AllUnits(b.h, b.l.known)
    ensures forall n <- Order(a.store.W(), k) :: n.Elem? && (n.id in a.store.gone <==> n.id in b.store.gone)
  {
    hide Sane, Agrees, Faithful, OwnersPresent, TombstonesGone, Lawful, Fits, Least, Honest, AllClean, State, Order,
      AtRest, Orderly, Accounted, Visible, D.Names, Tallied, UnitEntries;
    assert OneValue(a.store.W(), k) && OneValue(b.store.W(), k);
    var u := Order(a.store.W(), k);
    OrderDistinct(a.store.W(), k);
    OrderDistinct(b.store.W(), k);
    forall n <- u
      ensures n.Elem? && (n.id in a.store.gone <==> n.id in b.store.gone)
    {
      var i :| 0 <= i < |u| && u[i] == n;
      if i == |u| - 1 {
        ListedUnder(a.store.W(), k, n);
        assert ValueOf(a.store.W(), k) == ValueOf(b.store.W(), k);
      }
    }
  }

  // ---------------------------------------------------------------- what is advertised

  /** What peers are told has been deleted. */
  ghost predicate Advertised(a: Doc, x: ID)
    reads a, a.store, a.pendingDeletes
  {
    Erasable(a.store.W(), x) || a.pendingDeletes.Contains(x)
  }

  ghost function DeletionsOf(a: Doc): iset<ID>
    reads a, a.store, a.pendingDeletes
  {
    iset x | Advertised(a, x)
  }

  /** Everything deletions have ever named is advertised. */
  lemma NamedIsAdvertised(a: Doc, x: ID)
    requires Trusted(a) && x in a.named
    ensures Advertised(a, x)
  {
    hide Booked, State, Honest, AllClean, Accounted, Listed, Orderly, AtRest, D.Names, PairWise;
    assert x in a.store.nodes ==> x in a.pendingDeletes.Ids() || x in a.store.gone;
  }

  /** A deleted or collected unit stays so. */
  lemma StaysErasable(w: World, w': World, x: ID)
    requires Grown(w, w') && Erasable(w, x)
    ensures Erasable(w', x)
  {
    hide State, Order, Restrict;
    assert State(w.items, w.clients, x.client) <= State(w'.items, w'.clients, x.client);
  }

  /** Pending deletions have been named. */
  lemma PendingIsNamed(a: Doc, x: ID)
    requires Trusted(a) && a.pendingDeletes.Contains(x)
    ensures x in a.named
  {
    hide Booked, State, Honest, AllClean, Accounted, Listed, Orderly, AtRest, D.Names, PairWise;
    assert x in a.pendingDeletes.Ids();
  }

  /** What is advertised never cuts a pair. */
  lemma AdvertisedIsPairWise(a: Doc)
    requires Trusted(a)
    ensures PairWise(a.h, iset x | Advertised(a, x))
  {
    hide Sane, State, Agrees, LiveAll, OrderedAll, OwnersPresent, TombstonesGone, Lawful, Fits, Least, Honest, AllClean,
      Accounted, Listed, Orderly, AtRest, D.Names, Erasable, PairWise;
    var p := iset x | Advertised(a, x);
    assert p == iset x | Erasable(a.store.W(), x) || x in a.pendingDeletes.Ids();
    ErasableOrPending(a.h, a.store.W(), a.pendingDeletes.Ids());
  }

  lemma ErasableOrPending(h: History, w: World, p: iset<ID>)
    requires Honest(h) && Sane(w) && Agrees(h, w) && LiveAll(h, w) && PairWise(h, p)
    requires forall x <- p :: x.clock >= State(w.items, w.clients, x.client)
    ensures PairWise(h, iset x | Erasable(w, x) || x in p)
  {
    hide Sane, State, Agrees, LiveAll, Honest;
    forall x <- h | h[x].cell.half == Low && x.clock > 0
      ensures Erasable(w, x) || x in p <==> Erasable(w, ID(x.client, x.clock - 1)) || ID(x.client, x.clock - 1) in p
    {
      var y := ID(x.client, x.clock - 1);
      StateIsWhole(h, w, x.client);
      PairKnown(h, x);
      StoredIsBelow(w, x);
      StoredIsBelow(w, y);
      if x.clock < State(w.items, w.clients, x.client) {
        Passed(h, w, x);
        Passed(h, w, y);
        PairStored(h, w, x);
      }
    }
  }

  lemma PairKnown(h: History, x: ID)
    requires Honest(h) && x in h && h[x].cell.half == Low
    ensures x.clock > 0 && ID(x.client, x.clock - 1) in h
  {
    assert HonestAt(h, x);
  }

  lemma PairStored(h: History, w: World, x: ID)
    requires Sane(w) && Agrees(h, w) && x in w.nodes && x in h && h[x].cell.half == Low
    ensures x.clock > 0 && (x in w.gone <==> ID(x.client, x.clock - 1) in w.gone)
  {
    assert AgreesAt(h, w, x);
    PairsStayTogether(w, x);
  }

  lemma StoredIsBelow(w: World, x: ID)
    requires Sane(w)
    ensures x in w.nodes ==> x.clock < State(w.items, w.clients, x.client)
    ensures x in w.gone ==> x in w.nodes
  {
    SaneKeys(w);
    if x in w.nodes { SaneNode(w, x); }
  }

  // ---------------------------------------------------------------- the exchange

  /** The vector cuts no pair. */
  ghost predicate WholeVector(h: History, v: Vector) {
    forall c {:trigger v(c)} :: WholeAt(h, c, v(c))
  }

  lemma StateVectorIsWhole(b: Doc)
    requires Trusted(b)
    ensures WholeVector(b.h, SV(b.store.W()))
  {
    hide Sane, State, Agrees, LiveAll, OrderedAll, OwnersPresent, TombstonesGone, Lawful, Fits, Least, Honest, AllClean,
      Accounted, Listed, Orderly, AtRest, D.Names, Tallied;
    forall c { StateIsWhole(b.h, b.store.W(), c); }
  }

  /** What `a` answers to the state vector `v`. */
  ghost predicate IsDiff(a: Doc, v: Vector, u: Update)
    reads a, a.store, a.pendingDeletes
  {
    && (forall c {:trigger QueueOf(u.blocks, c)} :: IsTail(a.store.W(), c, v(c), QueueOf(u.blocks, c)))
    && (forall c <- u.deletes :: D.Normal(u.deletes[c]))
    && (forall x :: Asks(u.deletes, x) <==> Advertised(a, x))
  }

  /** An update an honest client or replica could have sent. */
  ghost predicate Proper(h: History, u: Update) {
    Orderly(u.blocks) && KeepsPairs(h, u.deletes) && forall t <- Received(u.blocks) :: Clean(h, t)
  }

  /** The update is everything the document `w` had from the vector `v` on. */
  ghost predicate AnswerOf(h: History, w: World, l: Ledger, v: Vector, u: Update) {
    && Booked(h, w, l) && AllClean(h, l.known)
    && (forall c {:trigger QueueOf(u.blocks, c)} :: IsTail(w, c, v(c), QueueOf(u.blocks, c)) && CutsNoPair(w, c, v(c)))
    && (forall t <- Received(u.blocks) :: !t.Skip? && t.End() <= SV(w)(t.id.client))
  }

  lemma CutsNoPairAt(h: History, w: World, v: Vector, c: nat)
    requires Sane(w) && Agrees(h, w) && WholeVector(h, v)
    ensures CutsNoPair(w, c, v(c))
  {
    SaneKeys(w);
    hide Sane;
    var x := ID(c, v(c));
    if x in w.facts { assert AgreesAt(h, w, x); }
  }

  /** What a document answers is a proper update. */
  lemma DiffIsProper(a: Doc, v: Vector, u: Update)
    requires Trusted(a) && WholeVector(a.h, v) && IsDiff(a, v, u)
    ensures Proper(a.h, u) && AnswerOf(a.h, a.store.W(), a.l, v, u)
  {
    hide Sane, State, Agrees, LiveAll, OrderedAll, OwnersPresent, TombstonesGone, Lawful, Fits, Least, Honest, AllClean,
      Accounted, Listed, AtRest, D.Names, D.Normal, Tallied, Clean, IsTail, QueueOf, Ascending, PairWise, CutsNoPair,
      Asks, WholeVector;
    var w := a.store.W();
    AdvertisedIsPairWise(a);
    assert Asking(u.deletes) == iset x | Advertised(a, x);
    PairWiseIsWhole(a.h, u.deletes);
    forall c
      ensures Ascending(QueueOf(u.blocks, c)) && CutsNoPair(w, c, v(c))
      ensures forall t <- QueueOf(u.blocks, c) :: Clean(a.h, t) && !t.Skip? && t.End() <= SV(w)(t.id.client)
    {
      CutsNoPairAt(a.h, w, v, c);
      TailIsComplete(a.h, w, c, v(c), QueueOf(u.blocks, c));
      TailIsClean(a.h, w, c, v(c), QueueOf(u.blocks, c));
    }
    forall t <- Received(u.blocks)
      ensures exists c :: t in QueueOf(u.blocks, c)
    {
      var b :| b in u.blocks && t in b.structs;
      var i :| 0 <= i < |u.blocks| && u.blocks[i] == b;
      ReceivedIsQueued(u.blocks, i, t);
    }
  }

  ghost predicate Apart(a: Doc, b: Doc)
    reads a, b
  {
    a != b && a.store != b.store && a.pendingDeletes != b.pendingDeletes
  }

  /** Any proper update keeps a document trusted. */
  method Apply(b: Doc, u: Update)
    requires Trusted(b) && Proper(b.h, u)
    modifies b, b.store, b.pendingDeletes
    ensures Trusted(b) && Grown(old(b.store.W()), b.store.W())
    ensures fresh(b.pendingDeletes) || b.pendingDeletes == old(b.pendingDeletes)
    ensures b.l.known == old(b.l.known) + Received(u.blocks) && b.named == old(b.named) + Asking(u.deletes)
    ensures forall x | old(Advertised(b, x)) :: Advertised(b, x)
    ensures forall x <- b.store.facts | x !in old(b.store.facts) && b.store.facts[x].parent.holder.Nested? ::
              b.store.facts[x].parent.holder.item in old(b.store.gone) ==> x in b.store.gone && Advertised(b, x)
  {
    hide Trusted, Doc.Valid, Doc.Settled, Grown, Clean, Honest, Orderly, KeepsPairs, Received, AllClean, Asking,
      Erasable, D.Names, D.DeleteSet.Contains;
    TrustedIsValid(b);
    ghost var known, w, named := b.l.known, b.store.W(), b.named;
    ghost var p := iset x | b.pendingDeletes.Contains(x);
    forall x <- p { PendingIsNamed(b, x); }
    forall t <- Received(u.blocks) { CleanFits(b.h, t); }
    b.ApplyUpdate(u);
    AddClean(b.h, known, Received(u.blocks));
    StaysTrusted(b);
    forall x | Erasable(w, x) || x in p
      ensures Advertised(b, x)
    {
      if Erasable(w, x) { StaysErasable(w, b.store.W(), x); } else { NamedIsAdvertised(b, x); }
    }
    forall x <- b.store.gone { GoneIsErasable(b.store.W(), x); }
  }

  lemma GoneIsErasable(w: World, x: ID)
    requires x in w.gone
    ensures Erasable(w, x)
  {
  }

  /** An answer arrives.  Both sides may have moved on since: the receiver since it announced the
      vector `v`, the sender since it was `w`.  The receiver gets at least as far as the sender
      was, and nothing of the answer is left waiting. */
  method Absorb(b: Doc, u: Update, ghost w: World, ghost l: Ledger, ghost v: Vector)
    requires Trusted(b) && Proper(b.h, u) && AnswerOf(b.h, w, l, v, u) && forall c :: v(c) <= SV(b.store.W())(c)
    modifies b, b.store, b.pendingDeletes
    ensures Trusted(b) && Grown(old(b.store.W()), b.store.W())
    ensures fresh(b.pendingDeletes) || b.pendingDeletes == old(b.pendingDeletes)
    ensures b.l.known == old(b.l.known) + Received(u.blocks) && b.named == old(b.named) + Asking(u.deletes)
    ensures forall c :: SV(w)(c) <= SV(b.store.W())(c)
    ensures forall t <- Received(u.blocks) :: !Waits(b.pending, t)
    ensures forall x | old(Advertised(b, x)) || x in Asking(u.deletes) :: Advertised(b, x)
  {
    hide Trusted, Grown, Proper, AnswerOf, Received, Asking, SV, Waits, Advertised;
    ghost var w0 := b.store.W();
    Apply(b, u);
    GrownVector(w0, b.store.W());
    Caught(b, w, l, v, u);
    forall x <- Asking(u.deletes) { NamedIsAdvertised(b, x); }
  }

  /** After the answer has been applied. */
  lemma Caught(b: Doc, w: World, l: Ledger, v: Vector, u: Update)
    requires Trusted(b) && Received(u.blocks) <= b.l.known && AnswerOf(b.h, w, l, v, u)
    requires forall c :: v(c) <= SV(b.store.W())(c)
    ensures forall c :: SV(w)(c) <= SV(b.store.W())(c)
    ensures forall t <- Received(u.blocks) :: !Waits(b.pending, t)
  {
    hide Sane, Agrees, LiveAll, OrderedAll, OwnersPresent, TombstonesGone, Lawful, Fits, Least, Honest, AllClean, State,
      AtRest, Orderly, Accounted, D.Names, IsTail, QueueOf, CutsNoPair, Received, Tallied, Waits;
    CatchesUp(b.h, w, l, v, u.blocks, b.store.W(), b.l, b.pending);
    forall t <- Received(u.blocks)
      ensures !Waits(b.pending, t)
    {
      NothingDoneWaits(SV(b.store.W()), b.pending, t);
    }
  }

  /** `answerStateVector`: what a document answers to an announced vector. */
  method Answer(a: Doc, sv: map<nat, nat>, ghost v: Vector) returns (u: Update)
    requires Trusted(a) && WholeVector(a.h, v) && forall c :: v(c) == if c in sv then sv[c] else 0
    ensures Proper(a.h, u) && AnswerOf(a.h, a.store.W(), a.l, v, u)
    ensures forall x :: x in Asking(u.deletes) <==> Advertised(a, x)
    ensures u.blocks == [] && u.deletes == map[] <==>
            (forall c :: SV(a.store.W())(c) <= v(c)) && forall x :: !Advertised(a, x)
  {
    hide Trusted, Doc.Valid, Doc.Settled, Proper, AnswerOf, WholeVector, State, IsTail, QueueOf, D.Normal, D.Names,
      Erasable;
    TrustedIsValid(a);
    u := a.EncodeStateAsUpdate(sv);
    DiffIsProper(a, v, u);
    if u.blocks == [] { NothingSent(a.h, a.store.W(), a.l, v, u); }
    SomethingNamed(u.deletes);
    assert u.blocks != [] ==> u.blocks[0] in u.blocks;
  }

  /** An answer without structs means that none are missing. */
  lemma NothingSent(h: History, w: World, l: Ledger, v: Vector, u: Update)
    requires AnswerOf(h, w, l, v, u) && u.blocks == []
    ensures forall c :: SV(w)(c) <= v(c)
  {
    hide Booked, AllClean, CutsNoPair, State;
    forall c
      ensures SV(w)(c) <= v(c)
    {
      assert IsTail(w, c, v(c), QueueOf(u.blocks, c));
    }
  }

  lemma SomethingNamed(ds: map<nat, seq<D.Range>>)
    requires forall c <- ds :: D.Normal(ds[c]) && ds[c] != []
    ensures ds == map[] <==> forall x :: !Asks(ds, x)
  {
    if c :| c in ds {
      assert ds[c][0].Has(ds[c][0].clock) && Asks(ds, ID(c, ds[c][0].clock));
    }
  }

  /** One step of the sync protocol: `b` announces its state vector and applies what `a` answers.
      Nothing of the answer is left waiting, and `b` gets at least as far as both were. */
  method Pull(b: Doc, a: Doc) returns (u: Update)
    requires Trusted(a) && Trusted(b) && a.h == b.h && Apart(a, b)
    modifies b, b.store, b.pendingDeletes
    ensures Trusted(b) && Apart(a, b) && Grown(old(b.store.W()), b.store.W())
    ensures forall c :: State(a.store.items, a.store.clients, c) <= State(b.store.items, b.store.clients, c)
    ensures forall t <- Received(u.blocks) ::
            t.End() <= State(a.store.items, a.store.clients, t.id.client) && !Waits(b.pending, t)
    ensures b.l.known == old(b.l.known) + Received(u.blocks)
    ensures forall x :: x in b.named <==> x in old(b.named) || Advertised(a, x)
    ensures forall x | old(Advertised(b, x)) || Advertised(a, x) :: Advertised(b, x)
  {
    hide Trusted, Grown, State, Advertised, Proper, WholeVector, Waits, Received, IsTail, Booked, CutsNoPair, QueueOf,
      AllClean;
    ghost var v := SV(b.store.W());
    StateVectorIsWhole(b);
    var sv := b.StateVector();
    u := Answer(a, sv, v);
    Absorb(b, u, a.store.W(), a.l, v);
    SameVectors(a.store.W(), b.store.W());
  }

  lemma SameVectors(w: World, w': World)
    requires forall c :: SV(w)(c) <= SV(w')(c)
    ensures forall c :: State(w.items, w.clients, c) <= State(w'.items, w'.clients, c)
  {
    hide State;
    forall c
      ensures State(w.items, w.clients, c) <= State(w'.items, w'.clients, c)
    {
      assert SV(w)(c) <= SV(w')(c);
    }
  }

  ghost predicate AtLeast(v: Vector, w: World) {
    forall c :: SV(w)(c) <= v(c)
  }

  /** A peer whose answers `b` can apply. */
  ghost predicate Peer(a: Doc, b: Doc)
    reads a, a.store, a.pendingDeletes, b
  {
    Trusted(a) && a.h == b.h && Apart(a, b)
  }

  /** One answer to a vector announced some time ago. */
  method Hear(b: Doc, a: Doc, sv: map<nat, nat>, ghost w: World)
    requires Trusted(b) && Peer(a, b) && WholeVector(b.h, SV(w)) && Grown(w, b.store.W())
    requires forall c :: State(w.items, w.clients, c) == if c in sv then sv[c] else 0
    modifies b, b.store, b.pendingDeletes
    ensures Trusted(b) && Grown(w, b.store.W()) && Grown(old(b.store.W()), b.store.W())
    ensures AtLeast(SV(b.store.W()), a.store.W())
    ensures old(DeletionsOf(b)) <= DeletionsOf(b) && DeletionsOf(a) <= DeletionsOf(b)
    ensures fresh(b.pendingDeletes) || b.pendingDeletes == old(b.pendingDeletes)
  {
    hide Trusted, Grown, Proper, WholeVector, AnswerOf, State, Advertised;
    ghost var w1 := b.store.W();
    GrownVector(w, w1);
    var u := Answer(a, sv, SV(w));
    Absorb(b, u, a.store.W(), a.l, SV(w));
    GrownTransitive(w, w1, b.store.W());
  }

  lemma AtLeastGrows(w: World, w': World, x: World)
    requires Grown(w, w') && AtLeast(SV(w), x)
    ensures AtLeast(SV(w'), x)
  {
    hide Grown, SV;
    GrownVector(w, w');
  }

  /** Anti-entropy: a document announces its state vector once and applies the answers of its
      peers, one after the other.  However many messages were lost before, it has then got at
      least as far as every one of them, and advertises every deletion any of them does. */
  method AntiEntropy(b: Doc, peers: seq<Doc>)
    requires Trusted(b) && forall a <- peers :: Peer(a, b)
    modifies b, b.store, b.pendingDeletes
    ensures Trusted(b) && Grown(old(b.store.W()), b.store.W())
    ensures forall a <- peers :: AtLeast(SV(b.store.W()), a.store.W())
    ensures forall a <- peers :: DeletionsOf(a) <= DeletionsOf(b)
  {
    hide Trusted, Grown, WholeVector, State, AtLeast, DeletionsOf, Stand;
    ghost var w := b.store.W();
    ghost var others := seq(|peers|, i requires 0 <= i < |peers| reads peers, (set a <- peers :: a.store),
        (set a <- peers :: a.pendingDeletes) => (peers[i].store.W(), DeletionsOf(peers[i])));
    StateVectorIsWhole(b);
    GrownNothing(w);
    FirstStand(peers, b, others);
    var sv := b.StateVector();
    for i := 0 to |peers|
      invariant Trusted(b) && Grown(w, b.store.W()) && Stand(peers, b, others)
      invariant fresh(b.pendingDeletes) || b.pendingDeletes == old(b.pendingDeletes)
      invariant forall j | 0 <= j < i :: AtLeast(SV(b.store.W()), others[j].0) && others[j].1 <= DeletionsOf(b)
    {
      ghost var w1 := b.store.W();
      HearOne(b, peers, i, sv, w, others);
      forall j | 0 <= j < i { AtLeastGrows(w1, b.store.W(), others[j].0); }
    }
    StandHolds(peers, b, others);
  }

  /** The peers, and what they held and advertised. */
  ghost predicate Stand(peers: seq<Doc>, b: Doc, others: seq<(World, iset<ID>)>)
    reads peers, (set a <- peers :: a.store), (set a <- peers :: a.pendingDeletes), b
  {
    && |others| == |peers|
    && forall j | 0 <= j < |peers| ::
         Peer(peers[j], b) && peers[j].store.W() == others[j].0 && DeletionsOf(peers[j]) == others[j].1
  }

  lemma FirstStand(peers: seq<Doc>, b: Doc, others: seq<(World, iset<ID>)>)
    requires (forall a <- peers :: Peer(a, b)) && |others| == |peers|
    requires forall j | 0 <= j < |peers| :: others[j] == (peers[j].store.W(), DeletionsOf(peers[j]))
    ensures Stand(peers, b, others)
  {
    hide Peer, DeletionsOf;
    assert forall j | 0 <= j < |peers| :: peers[j] in peers;
  }

  lemma StandHolds(peers: seq<Doc>, b: Doc, others: seq<(World, iset<ID>)>)
    requires Stand(peers, b, others)
    ensures |others| == |peers|
    ensures forall j | 0 <= j < |peers| :: peers[j].store.W() == others[j].0 && DeletionsOf(peers[j]) == others[j].1
  {
    hide Peer, DeletionsOf;
  }

  method HearOne(b: Doc, peers: seq<Doc>, i: nat, sv: map<nat, nat>, ghost w: World,
                 ghost others: seq<(World, iset<ID>)>)
    requires Trusted(b) && Stand(peers, b, others) && i < |peers| && WholeVector(b.h, SV(w)) && Grown(w, b.store.W())
    requires forall c :: State(w.items, w.clients, c) == if c in sv then sv[c] else 0
    modifies b, b.store, b.pendingDeletes
    ensures Trusted(b) && Stand(peers, b, others) && Grown(w, b.store.W()) && Grown(old(b.store.W()), b.store.W())
    ensures AtLeast(SV(b.store.W()), others[i].0) && others[i].1 <= DeletionsOf(b)
    ensures old(DeletionsOf(b)) <= DeletionsOf(b)
    ensures fresh(b.pendingDeletes) || b.pendingDeletes == old(b.pendingDeletes)
  {
    hide Trusted, Grown, WholeVector, State, AtLeast, DeletionsOf, SV;
    Hear(b, peers[i], sv, w);
  }

  lemma GrownNothing(w: World)
    ensures Grown(w, w)
  {
    ResplitNothing(w);
    GrownReflexive(w, w);
  }

  lemma GrownVector(w: World, w': World)
    requires Grown(w, w')
    ensures forall c :: SV(w)(c) <= SV(w')(c)
  {
    hide State, Order, Restrict;
    forall c
      ensures SV(w)(c) <= SV(w')(c)
    {
      assert State(w.items, w.clients, c) <= State(w'.items, w'.clients, c);
    }
  }

  lemma TrustedIsValid(a: Doc)
    requires Trusted(a)
    ensures a.Valid() && a.Settled() && a.store.Valid() && a.pendingDeletes.Valid()
    ensures Honest(a.h) && AllClean(a.h, a.l.known) && a.orderly && a.whole
  {
  }

  lemma StaysTrusted(a: Doc)
    requires a.Valid() && a.Settled() && Honest(a.h) && AllClean(a.h, a.l.known) && a.orderly && a.whole
    ensures Trusted(a)
  {
  }

  lemma NewIsTrusted(a: Doc)
    requires a.Valid() && a.Settled() && Honest(a.h) && a.l == Ledger({}, {}, {}) && a.orderly && a.whole
    ensures Trusted(a)
  {
    hide Doc.Valid, Doc.Settled, Honest;
  }

  lemma CleanFits(h: History, s: Struct)
    requires Clean(h, s)
    ensures Fits(h, s)
  {
  }

  lemma AddClean(h: History, known: set<Struct>, more: set<Struct>)
    requires AllClean(h, known) && forall s <- more :: Clean(h, s)
    ensures AllClean(h, known + more)
  {
  }

  /** A document gets no further than the ends of the structs it knows. */
  lemma NoFurther(a: Doc, bound: Vector)
    requires Trusted(a) && forall s <- a.l.known :: s.Skip? || s.End() <= bound(s.id.client)
    ensures forall c :: State(a.store.items, a.store.clients, c) <= bound(c)
  {
    hide Sane, Agrees, LiveAll, OrderedAll, OwnersPresent, TombstonesGone, Lawful, Fits, Honest, AllClean, State,
      AtRest, Orderly, Accounted, D.Names, Tallied, Least, Satisfied;
    assert S.Closed(a.l.done, bound);
    LeastBelow(a.l.done, SV(a.store.W()), bound);
    forall c
      ensures State(a.store.items, a.store.clients, c) <= bound(c)
    {
      assert SV(a.store.W())(c) <= bound(c);
    }
  }

  /** Nothing that has arrived is waiting. */
  ghost predicate Complete(a: Doc)
    reads a
  {
    forall s <- a.l.known :: !Waits(a.pending, s)
  }

  lemma CompleteIsDone(a: Doc, s: Struct)
    requires Trusted(a) && Complete(a) && s in a.l.known
    ensures s.Skip? || s.End() <= SV(a.store.W())(s.id.client)
  {
    hide Sane, Agrees, Faithful, OwnersPresent, TombstonesGone, Lawful, Fits, Honest, AllClean, State,
      AtRest, Orderly, D.Names, Tallied, Least, Waits;
  }

  lemma AdvertisedIsGone(a: Doc, x: ID)
    requires Trusted(a) && Advertised(a, x) && x in a.store.facts
    ensures x in a.store.gone
  {
    BookedSane(a.h, a.store.W(), a.l);
    SaneKeys(a.store.W());
    SaneNode(a.store.W(), x);
    hide Sane, Booked, State, Honest, AllClean, Accounted, Listed, Orderly, AtRest, D.Names, PairWise;
  }

  /** Two replicas that pull from each other end up alike, if nothing was waiting at the one that
      answers first. */
  method Exchange(a: Doc, b: Doc)
    requires Trusted(a) && Trusted(b) && a.h == b.h && Apart(a, b) && Complete(a)
    modifies a, a.store, a.pendingDeletes, b, b.store, b.pendingDeletes
    ensures Trusted(a) && Trusted(b) && Alike(a, b)
    ensures Grown(old(a.store.W()), a.store.W()) && Grown(old(b.store.W()), b.store.W())
  {
    hide Trusted, Grown, State, Advertised, Waits, Received, Complete, Alike;
    ghost var w, known, named := a.store.W(), a.l.known, a.named;
    forall s <- a.l.known { CompleteIsDone(a, s); }
    forall x <- a.named { NamedIsAdvertised(a, x); }
    var u := Pull(b, a);
    ghost var bound := SV(b.store.W());
    forall x <- b.named { NamedIsAdvertised(b, x); }
    forall x <- b.named | x in b.store.facts { NamedIsGone(b, x); }
    forall x | Advertised(b, x) && x in b.store.facts { AdvertisedIsGone(b, x); }
    var v := Pull(a, b);
    forall s <- a.l.known
      ensures s.Skip? || s.End() <= bound(s.id.client)
    {
    }
    NoFurther(a, bound);
    assert forall c :: bound(c) == State(b.store.items, b.store.clients, c);
    EquallyFarIsAlike(b, a);
    assert Alike(a, b) by { AlikeSymmetric(b, a); }
  }

  lemma AlikeSymmetric(a: Doc, b: Doc)
    requires Alike(a, b)
    ensures Alike(b, a)
  {
    hide State, Order, Visible, ValueOf;
  }

  /** A snapshot rebuilds the document: everything that was integrated, in the same order, shown
      and deleted alike.  (What is still waiting is not part of a snapshot.) */
  method Rebuild(a: Doc) returns (b: Doc)
    requires Trusted(a)
    ensures fresh(b) && Trusted(b) && Alike(a, b)
  {
    hide Trusted, Grown, State, Advertised, Waits, Received, Alike, Honest, AllClean, Doc.Valid, Doc.Settled, Lawful;
    TrustedIsValid(a);
    assert Lawful(a.h) by { HonestIsLawful(a.h); }
    b := new Doc(a.h);
    assert Trusted(b) by { StaysTrusted(b); }
    forall x <- a.named { NamedIsAdvertised(a, x); }
    forall x | Advertised(a, x) && x in a.store.facts { AdvertisedIsGone(a, x); }
    var u := Pull(b, a);
    ghost var bound := SV(a.store.W());
    NoFurther(b, bound);
    assert forall c :: bound(c) == State(a.store.items, a.store.clients, c);
    EquallyFarIsAlike(a, b);
  }

  lemma HonestIsLawful(h: History)
    requires Honest(h)
    ensures Lawful(h)
  {
  }
}
