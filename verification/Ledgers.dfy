/**
  What a document has been sent and what has become of it (the queues of internal/crdt/doc.go).

  `known` are the structs that have arrived, `done` those that were integrated, `lost` those
  that were dropped because they could not be cut where the stored part ends.
*/
module Ledgers {
  import opened Ids
  import opened Structs
  import opened Yata
  import opened Items
  import opened Store
  import opened Schedules
  import S = Schedules
  import opened Histories
  import opened Steps
  import opened Convergence
  import opened Deletions
  import D = DeleteSets

  /** The structs of one client in one update. */
  datatype Block = Block(client: nat, structs: seq<Struct>)

  datatype Update = Update(blocks: seq<Block>, deletes: map<nat, seq<D.Range>>)

  datatype Ledger = Ledger(known: set<Struct>, done: set<Struct>, lost: set<Struct>)

  ghost predicate AllClean(h: History, known: set<Struct>) {
    forall s <- known :: Clean(h, s)
  }

  /** What every run keeps: the state vector is the least vector closed under what was
      integrated, and a document fed by an honest history is faithful to it. */
  ghost predicate Booked(h: History, w: World, l: Ledger) {
    && Sane(w) && Lawful(h) && Agrees(h, w) && TombstonesGone(w) && OwnersPresent(w)
    && l.done <= l.known && l.lost <= l.known && (forall s <- l.known :: Fits(h, s))
    && Least(l.done, SV(w)) && (forall s <- l.done :: s.End() <= SV(w)(s.id.client))
    && (Honest(h) && AllClean(h, l.known) ==> l.lost == {} && Faithful(h, w))
    && (AllUnits(h, l.known) ==> OneValueEach(w))
  }

  /** Map entries are of length one. */
  ghost predicate AllUnits(h: History, known: set<Struct>) {
    forall s <- known :: UnitEntries(h, s)
  }

  /** The struct needs nothing more. */
  ghost predicate Handled(v: Vector, lost: set<Struct>, s: Struct) {
    s.Skip? || s.End() <= v(s.id.client) || s in lost
  }

  /** The struct at the head of a queue has to wait: its clock has not been reached, or a unit
      of another client is missing. */
  ghost predicate Stuck(v: Vector, s: Struct) {
    !s.Skip? && v(s.id.client) < s.End() && (v(s.id.client) < s.id.clock || !Satisfied(v, s))
  }

  /** Every struct starts where the ones before it have ended. */
  ghost predicate Ascending(q: seq<Struct>) {
    forall i, j | 0 <= i < j < |q| :: q[i].id.client == q[j].id.client && q[i].End() <= q[j].id.clock
  }

  /** It is the struct's turn, and what is new in it is dropped, or is not. */
  ghost predicate Turns(w: World, s: Struct, dropped: bool) {
    Sane(w) && Enabled(SV(w), s) && (Lost(w, s, SV(w)(s.id.client) - s.id.clock) <==> dropped)
  }

  /** So it was at some point between `w` and `w'`. */
  ghost predicate Turned(w: World, w': World, s: Struct, dropped: bool) {
    exists v :: Grown(w, v) && Grown(v, w') && Turns(v, s, dropped)
  }

  /** Every entry of the books has happened, every unit stored is of a struct in the books, and one
      stored under an item that was deleted is deleted. */
  ghost predicate Traced(w: World, l: Ledger, w': World, l': Ledger) {
    && (forall s <- l'.lost :: s in l.lost || Turned(w, w', s, true))
    && (forall s <- l'.done :: s in l.done || Turned(w, w', s, false))
    && (forall x <- w'.nodes :: x in w.nodes || exists s <- l'.done :: s.Item? && Within(s.id, s.Len(), x))
    && (forall x <- w'.facts | x !in w.facts && w'.facts[x].parent.holder.Nested? ::
          w'.facts[x].parent.holder.item in w.gone ==> x in w'.gone)
  }

  lemma GrownFacts(w: World, w': World)
    requires Grown(w, w')
    ensures w.gone <= w'.gone && forall x <- w.facts :: x in w'.facts && w'.facts[x] == w.facts[x]
  {
    hide State, Order, Restrict;
  }

  lemma TracedTransitive(w: World, l: Ledger, w': World, l': Ledger, w'': World, l'': Ledger)
    requires Traced(w, l, w', l') && Traced(w', l', w'', l'') && Grown(w, w') && Grown(w', w'') && l'.done <= l''.done
    ensures Traced(w, l, w'', l'')
  {
    hide Grown, Turns;
    GrownFacts(w, w');
    GrownFacts(w', w'');
    forall s, dropped | Turned(w, w', s, dropped)
      ensures Turned(w, w'', s, dropped)
    {
      var v :| Grown(w, v) && Grown(v, w') && Turns(v, s, dropped);
      GrownTransitive(v, w', w'');
    }
    forall s, dropped | Turned(w', w'', s, dropped)
      ensures Turned(w, w'', s, dropped)
    {
      var v :| Grown(w', v) && Grown(v, w'') && Turns(v, s, dropped);
      GrownTransitive(w, w', v);
    }
  }

  /** One turn. */
  lemma TracedTurn(h: History, w: World, w': World, l: Ledger, s: Struct, offset: nat)
    requires Sane(w) && Enabled(SV(w), s) && s.id.clock + offset == State(w.items, w.clients, s.id.client)
    requires Stepped(h, w, w', s, offset) && Grown(w, w')
    ensures Traced(w, l, w', Entered(w, l, s, offset))
  {
    hide Sane, State, Grown, Lost, Stepped, Enabled, Turned;
    TurnedNow(w, w', s, offset);
    StepStores(h, w, w', s, offset);
    StepBears(h, w, w', s, offset);
  }

  lemma TurnedNow(w: World, w': World, s: Struct, offset: nat)
    requires Sane(w) && Enabled(SV(w), s) && s.id.clock + offset == State(w.items, w.clients, s.id.client)
    requires Grown(w, w')
    ensures Turned(w, w', s, Lost(w, s, offset))
  {
    hide Sane, State, Grown, Lost, Enabled;
    assert Grown(w, w) by {
      ResplitNothing(w);
      GrownReflexive(w, w);
    }
    assert Turns(w, s, Lost(w, s, offset));
  }

  lemma StepStores(h: History, w: World, w': World, s: Struct, offset: nat)
    requires Stepped(h, w, w', s, offset)
    ensures forall x <- w'.nodes :: x in w.nodes || (s.Item? && !Lost(w, s, offset) && Within(s.id, s.Len(), x))
  {
    hide Sane, Order, State, InsertAll, Yata.IsRun, DescribedRun, FactsExtend, Marks, Attachable, Place;
  }

  lemma TracedShade(w: World, l: Ledger, w': World, l': Ledger)
    requires Traced(w, l, w', l')
    ensures forall x <- w'.facts | x !in w.facts && w'.facts[x].parent.holder.Nested? ::
              w'.facts[x].parent.holder.item in w.gone ==> x in w'.gone
  {
    hide Turned;
  }

  lemma TracedSame(w: World, w': World, l: Ledger)
    requires w'.nodes == w.nodes && w'.facts == w.facts
    ensures Traced(w, l, w', l)
  {
  }

  lemma ErasedTraced(w: World, w': World, l: Ledger)
    requires Erased(w, w')
    ensures Traced(w, l, w', l)
  {
    TracedSame(w, w', l);
  }

  /** What has arrived does not matter. */
  lemma SameTrace(w: World, l: Ledger, l1: Ledger, w': World, l': Ledger)
    requires Traced(w, l1, w', l') && l1.done == l.done && l1.lost == l.lost
    ensures Traced(w, l, w', l')
  {
    hide Turned;
  }

  /** Later, as far as the ledger goes. */
  ghost predicate Advanced(w: World, l: Ledger, w': World, l': Ledger) {
    && Grown(w, w') && l'.known == l.known && l.done <= l'.done && l.lost <= l'.lost && Traced(w, l, w', l')
    && (forall x <- w'.gone :: x in w.gone || Born(w', x)) && ValuesSpared(w, w')
  }

  lemma AdvancedTransitive(w: World, l: Ledger, w': World, l': Ledger, w'': World, l'': Ledger)
    requires Advanced(w, l, w', l') && Advanced(w', l', w'', l'')
    ensures Advanced(w, l, w'', l'')
  {
    hide Order, State, Restrict, ValuesSpared, Traced;
    GrownTransitive(w, w', w'');
    TracedTransitive(w, l, w', l', w'', l'');
    SparedTransitive(w, w', w'');
  }

  lemma SparedTransitive(w: World, w': World, w'': World)
    requires ValuesSpared(w, w') && ValuesSpared(w', w'') && w'.gone <= w''.gone
    requires forall x <- w'.facts :: x in w''.facts && w''.facts[x] == w'.facts[x]
    ensures ValuesSpared(w, w'')
  {
    hide LastEntry;
    forall k, x | LastEntry(w'', k, x) && x in w''.gone
      ensures (LastEntry(w, k, x) && x in w.gone) || Excused(w'', x)
    {
      if LastEntry(w', k, x) && x in w'.gone && Excused(w', x) { assert Excused(w'', x); }
    }
  }

  lemma AdvancedNothing(w: World, l: Ledger)
    ensures Advanced(w, l, w, l)
  {
    hide Traced;
    SameOrders(w, w);
    ResplitNothing(w);
    GrownReflexive(w, w);
    TracedSame(w, w, l);
  }

  lemma HandledStays(w: World, l: Ledger, w': World, l': Ledger, s: Struct)
    requires Advanced(w, l, w', l') && Handled(SV(w), l.lost, s)
    ensures Handled(SV(w'), l'.lost, s)
  {
    hide State, Order, Restrict, Traced;
    assert State(w.items, w.clients, s.id.client) <= State(w'.items, w'.clients, s.id.client);
  }

  /** The books after a struct of the head of a queue was integrated. */
  ghost function Entered(w: World, l: Ledger, s: Struct, offset: nat): Ledger {
    if Lost(w, s, offset) then l.(lost := l.lost + {s}) else l.(done := l.done + {s})
  }

  lemma EnteredBooked(h: History, w: World, w': World, l: Ledger, s: Struct, offset: nat)
    requires Booked(h, w, l) && s in l.known && Enabled(SV(w), s)
    requires s.id.clock + offset == State(w.items, w.clients, s.id.client)
    requires Stepped(h, w, w', s, offset) && Sane(w') && Agrees(h, w')
    ensures Booked(h, w', Entered(w, l, s, offset))
    ensures Advanced(w, l, w', Entered(w, l, s, offset))
    ensures Handled(SV(w'), Entered(w, l, s, offset).lost, s)
  {
    hide Sane, Stepped, State, Lost, Lawful, Agrees, Honest, Faithful, Fits, Grown, Satisfied, Least, TombstonesGone,
      Born, OwnersPresent, ValuesSpared, OneValueEach, UnitEntries, Traced;
    StepMarks(h, w, w', s, offset);
    StepOwners(h, w, w', s, offset);
    StepEntries(h, w, w', s, offset);
    var l' := Entered(w, l, s, offset);
    StepGrows(h, w, w', s, offset);
    TracedTurn(h, w, w', l, s, offset);
    forall c
      ensures SV(w')(c) == if c == s.id.client && !Lost(w, s, offset) then s.End() else SV(w)(c)
    {
      StepMoves(h, w, w', s, offset, c);
    }
    if Honest(h) && AllClean(h, l.known) {
      assert Clean(h, s);
      StepFaithful(h, w, w', s, offset);
    }
    if Lost(w, s, offset) {
      LeastExtensional(l.done, SV(w), SV(w'));
    } else {
      KnowingMore(l.done, l'.done, SV(w));
      StepKeepsLeast(l'.done, SV(w), SV(w'), s);
    }
  }

  lemma LeastExtensional(known: set<Struct>, v: Vector, u: Vector)
    requires Least(known, v) && forall c :: v(c) == u(c)
    ensures Least(known, u)
  {
    forall b | S.Closed(known, b)
      ensures S.Below(u, b)
    {
      assert S.Below(v, b);
    }
  }

  /** New arrivals change nothing yet. */
  lemma ArrivalsBooked(h: History, w: World, l: Ledger, more: set<Struct>)
    requires Booked(h, w, l) && forall s <- more :: Fits(h, s)
    ensures Booked(h, w, l.(known := l.known + more))
  {
    hide Sane, Lawful, Agrees, Honest, Faithful, Fits, Least, Clean, UnitEntries, OneValueEach;
    if AllUnits(h, l.known + more) {
      forall s <- l.known
        ensures UnitEntries(h, s)
      {
        assert s in l.known + more;
      }
    }
    if AllClean(h, l.known + more) {
      assert AllClean(h, l.known) by {
        forall s <- l.known
          ensures Clean(h, s)
        {
          assert s in l.known + more;
        }
      }
    }
  }

  // ---------------------------------------------------------------- queues

  /** The queue of one client: its blocks one after the other. */
  function QueueOf(u: seq<Block>, c: nat): seq<Struct> {
    if u == [] then []
    else QueueOf(u[..|u| - 1], c) + (if u[|u| - 1].client == c then u[|u| - 1].structs else [])
  }

  /** How many structs there are. */
  function Count(u: seq<Block>): nat {
    if u == [] then 0 else Count(u[..|u| - 1]) + |u[|u| - 1].structs|
  }

  function Counts(us: seq<seq<Block>>): nat {
    if us == [] then 0 else Counts(us[..|us| - 1]) + Count(us[|us| - 1])
  }

  function Total(order: seq<nat>, queues: map<nat, seq<Struct>>): nat
    requires forall c <- order :: c in queues
  {
    if order == [] then 0 else Total(order[..|order| - 1], queues) + |queues[order[|order| - 1]]|
  }

  predicate NoRepeats(order: seq<nat>) {
    forall i, j | 0 <= i < j < |order| :: order[i] != order[j]
  }

  lemma {:induction false} TotalUpdate(order: seq<nat>, queues: map<nat, seq<Struct>>, c: nat, q: seq<Struct>)
    requires (forall d <- order :: d in queues) && NoRepeats(order)
    ensures Total(order, queues[c := q]) ==
              Total(order, queues) + (if c in order then |q| - |queues[c]| else 0)
  {
    if order != [] {
      var n := |order| - 1;
      TotalUpdate(order[..n], queues, c, q);
      assert order == order[..n] + [order[n]];
    }
  }

  /** The blocks of `u` as one queue per client, in order of appearance. */
  ghost predicate Sorts(u: seq<Block>, order: seq<nat>, queues: map<nat, seq<Struct>>) {
    && NoRepeats(order) && (forall c :: c in order <==> c in queues)
    && (forall c {:trigger QueueOf(u, c)} :: QueueOf(u, c) == if c in queues then queues[c] else [])
    && Total(order, queues) == Count(u)
  }

  lemma SortsNothing()
    ensures Sorts([], [], map[])
  {
  }

  lemma AppendBlock(u: seq<Block>, b: Block)
    ensures forall c {:trigger QueueOf(u + [b], c)} ::
              QueueOf(u + [b], c) == if b.client == c then QueueOf(u, c) + b.structs else QueueOf(u, c)
    ensures Count(u + [b]) == Count(u) + |b.structs|
  {
    assert (u + [b])[..|u|] == u;
  }

  lemma AppendClient(order: seq<nat>, c: nat, queues: map<nat, seq<Struct>>)
    requires forall d <- order + [c] :: d in queues
    ensures (forall d <- order :: d in order + [c]) && Total(order + [c], queues) == Total(order, queues) + |queues[c]|
  {
    assert (order + [c])[..|order|] == order;
    forall d <- order
      ensures d in order + [c]
    {
    }
  }

  lemma SortsMore(u: seq<Block>, b: Block, order': seq<nat>, queues': map<nat, seq<Struct>>,
                  order: seq<nat>, queues: map<nat, seq<Struct>>)
    requires Sorts(u, order, queues)
    requires order' == if b.client in queues then order else order + [b.client]
    requires queues' == queues[b.client := if b.client in queues then queues[b.client] + b.structs else b.structs]
    ensures Sorts(u + [b], order', queues')
  {
    hide QueueOf, Total, Count;
    AppendBlock(u, b);
    TotalUpdate(order, queues, b.client, queues'[b.client]);
    if b.client !in queues {
      assert b.client in order' && forall d <- order :: d in order';
      AppendClient(order, b.client, queues');
    }
  }

  lemma LeftoverNothing(queues: map<nat, seq<Struct>>)
    ensures forall c :: QueueOf([], c) == []
    ensures Count([]) == Total([], queues)
  {
  }

  lemma LeftoverMore(rest: seq<Block>, rest': seq<Block>, order: seq<nat>, i: nat, queues: map<nat, seq<Struct>>)
    requires i < |order| && NoRepeats(order) && forall c <- order :: c in queues
    requires forall c :: QueueOf(rest, c) == if c in order[..i] then queues[c] else []
    requires Count(rest) == Total(order[..i], queues)
    requires rest' == if queues[order[i]] == [] then rest else rest + [Block(order[i], queues[order[i]])]
    ensures forall c :: QueueOf(rest', c) == if c in order[..i + 1] then queues[c] else []
    ensures Count(rest') == Total(order[..i + 1], queues)
  {
    hide QueueOf, Total, Count;
    var q := queues[order[i]];
    assert order[..i + 1] == order[..i] + [order[i]];
    AppendBlock(rest, Block(order[i], q));
    AppendClient(order[..i], order[i], queues);
    assert order[i] !in order[..i];
  }

  /** `q` is what is left of `q0`; the structs before it need nothing more. */
  ghost predicate Eaten(v: Vector, lost: set<Struct>, q0: seq<Struct>, q: seq<Struct>) {
    && |q| <= |q0| && q == q0[|q0| - |q|..]
    && (forall i | 0 <= i < |q0| - |q| :: Handled(v, lost, q0[i]))
  }

  lemma EatenAdvances(w: World, l: Ledger, w': World, l': Ledger, q0: seq<Struct>, q: seq<Struct>, q': seq<Struct>)
    requires Advanced(w, l, w', l') && Eaten(SV(w), l.lost, q0, q) && Eaten(SV(w'), l'.lost, q, q')
    ensures Eaten(SV(w'), l'.lost, q0, q')
  {
    hide Advanced, Handled;
    forall i | 0 <= i < |q0| - |q'|
      ensures Handled(SV(w'), l'.lost, q0[i])
    {
      if i < |q0| - |q| {
        HandledStays(w, l, w', l', q0[i]);
      } else {
        assert q0[i] == q[i - (|q0| - |q|)];
      }
    }
  }

  /** What is left is shorter, or it is everything. */
  lemma EatenShort(v: Vector, lost: set<Struct>, q0: seq<Struct>, q: seq<Struct>)
    requires Eaten(v, lost, q0, q)
    ensures |q| < |q0| || q == q0
  {
  }

  lemma EatenKnown(v: Vector, lost: set<Struct>, q0: seq<Struct>, q: seq<Struct>, known: set<Struct>)
    requires Eaten(v, lost, q0, q) && forall s <- q0 :: s in known
    ensures forall s <- q :: s in known
  {
  }

  lemma EatenNothing(v: Vector, lost: set<Struct>, q: seq<Struct>)
    ensures Eaten(v, lost, q, q)
  {
  }

  /** A struct that is gone from its queue needs nothing more. */
  lemma EatenOrLeft(v: Vector, lost: set<Struct>, q0: seq<Struct>, q: seq<Struct>, s: Struct)
    requires Eaten(v, lost, q0, q) && s in q0
    ensures Handled(v, lost, s) || s in q
  {
    var i :| 0 <= i < |q0| && q0[i] == s;
    if i >= |q0| - |q| { assert q[i - (|q0| - |q|)] == s; }
  }

  lemma EatenAscends(v: Vector, lost: set<Struct>, q0: seq<Struct>, q: seq<Struct>)
    requires Eaten(v, lost, q0, q) && Ascending(q0)
    ensures Ascending(q)
  {
    forall i, j | 0 <= i < j < |q|
      ensures q[i].id.client == q[j].id.client && q[i].End() <= q[j].id.clock
    {
      assert q[i] == q0[|q0| - |q| + i] && q[j] == q0[|q0| - |q| + j];
    }
  }

  ghost predicate HeadStuck(v: Vector, q: seq<Struct>) {
    q != [] ==> Stuck(v, q[0])
  }

  /** Every client's queue of the update starts with a struct that has to wait. */
  ghost predicate AtRest(v: Vector, u: seq<Block>) {
    forall c {:trigger QueueOf(u, c)} :: HeadStuck(v, QueueOf(u, c))
  }

  ghost predicate Orderly(u: seq<Block>) {
    forall c {:trigger QueueOf(u, c)} :: Ascending(QueueOf(u, c))
  }

  /** The structs are all known. */
  ghost predicate Listed(known: set<Struct>, u: seq<Block>) {
    forall c {:trigger QueueOf(u, c)} :: forall s <- QueueOf(u, c) :: s in known
  }

  ghost predicate Queued(u: seq<Block>, s: Struct) {
    exists c {:trigger QueueOf(u, c)} :: s in QueueOf(u, c)
  }

  ghost predicate Waits(pending: seq<seq<Block>>, s: Struct) {
    exists u {:trigger Queued(u, s)} :: u in pending && Queued(u, s)
  }

  // ---------------------------------------------------------------- at rest

  /** Everything that arrived is done, given up or waiting. */
  ghost predicate Accounted(v: Vector, l: Ledger, pending: seq<seq<Block>>) {
    forall s <- l.known :: Handled(v, l.lost, s) || Waits(pending, s)
  }

  /** A waiting queue in clock order whose head is stuck holds nothing that could be integrated. */
  lemma StuckQueue(v: Vector, q: seq<Struct>, s: Struct)
    requires HeadStuck(v, q) && Ascending(q) && s in q
    ensures !Enabled(v, s)
  {
    var j :| 0 <= j < |q| && q[j] == s;
  }

  /** What arrived, without what was dropped and never sent again. */
  ghost function Kept(l: Ledger): set<Struct> {
    l.known - (l.lost - l.done)
  }

  /** At rest the state vector is the least one closed under what arrived and was kept. */
  lemma RestIsLeast(h: History, w: World, l: Ledger, pending: seq<seq<Block>>)
    requires Booked(h, w, l) && Accounted(SV(w), l, pending)
    requires forall u <- pending :: AtRest(SV(w), u) && Orderly(u)
    ensures Least(Kept(l), SV(w)) && S.Closed(Kept(l), SV(w))
  {
    hide Sane, Lawful, Agrees, Honest, Faithful, Fits, State, Least, Enabled, HeadStuck, Ascending, QueueOf;
    forall s <- Kept(l)
      ensures !Enabled(SV(w), s)
    {
      if Handled(SV(w), l.lost, s) {
        DoneIsNotEnabled(SV(w), s);
      } else {
        var u :| u in pending && Queued(u, s);
        var c :| s in QueueOf(u, c);
        StuckQueue(SV(w), QueueOf(u, c), s);
      }
    }
    KnowingMore(l.done, Kept(l), SV(w));
  }

  lemma DoneIsNotEnabled(v: Vector, s: Struct)
    requires s.Skip? || s.End() <= v(s.id.client)
    ensures !Enabled(v, s)
  {
  }

  // ---------------------------------------------------------------- retrying

  lemma AppendCounts(us: seq<seq<Block>>, u: seq<Block>)
    ensures Counts(us + [u]) == Counts(us) + Count(u)
  {
    assert (us + [u])[..|us|] == us;
  }

  lemma AppendWaits(us: seq<seq<Block>>, u: seq<Block>, s: Struct)
    ensures Waits(us + [u], s) <==> Waits(us, s) || Queued(u, s)
  {
    hide Queued;
    assert u in us + [u];
    forall v <- us
      ensures v in us + [u]
    {
    }
  }

  /** What one update that was tried again leaves. */
  lemma RestOf(v: Vector, l: Ledger, u: seq<Block>, rest: seq<Block>)
    requires forall c :: Eaten(v, l.lost, QueueOf(u, c), QueueOf(rest, c))
    ensures Listed(l.known, u) ==> Listed(l.known, rest)
    ensures Orderly(u) ==> Orderly(rest)
    ensures forall s | Queued(u, s) :: Handled(v, l.lost, s) || Queued(rest, s)
  {
    hide QueueOf, Handled, Eaten, Ascending;
    forall c
      ensures Ascending(QueueOf(u, c)) ==> Ascending(QueueOf(rest, c))
      ensures (forall s <- QueueOf(u, c) :: s in l.known) ==> forall s <- QueueOf(rest, c) :: s in l.known
    {
      if Ascending(QueueOf(u, c)) { EatenAscends(v, l.lost, QueueOf(u, c), QueueOf(rest, c)); }
      if forall s <- QueueOf(u, c) :: s in l.known { EatenKnown(v, l.lost, QueueOf(u, c), QueueOf(rest, c), l.known); }
    }
    forall s | Queued(u, s)
      ensures Handled(v, l.lost, s) || Queued(rest, s)
    {
      var c :| s in QueueOf(u, c);
      EatenOrLeft(v, l.lost, QueueOf(u, c), QueueOf(rest, c), s);
    }
  }

  lemma NothingQueued(s: Struct)
    ensures !Queued([], s)
  {
  }

  lemma Retried(w: World, l: Ledger, w': World, l': Ledger, tried: seq<seq<Block>>, u: seq<Block>,
                p: seq<seq<Block>>, rest: seq<Block>, p': seq<seq<Block>>)
    requires Advanced(w, l, w', l') && forall c :: Eaten(SV(w'), l'.lost, QueueOf(u, c), QueueOf(rest, c))
    requires p' == if rest == [] then p else p + [rest]
    requires Listed(l.known, u) && forall x <- p :: Listed(l.known, x)
    requires (forall x <- tried :: Orderly(x)) ==> forall x <- p :: Orderly(x)
    requires forall s | Waits(tried, s) :: Handled(SV(w), l.lost, s) || Waits(p, s)
    ensures Counts(p') == Counts(p) + Count(rest) && Counts(tried + [u]) == Counts(tried) + Count(u)
    ensures forall x <- p' :: Listed(l'.known, x)
    ensures (forall x <- tried + [u] :: Orderly(x)) ==> forall x <- p' :: Orderly(x)
    ensures forall s | Waits(tried + [u], s) :: Handled(SV(w'), l'.lost, s) || Waits(p', s)
  {
    hide Grown, Handled, Eaten, Queued, Listed, Orderly, Waits, SV, Counts, Count, QueueOf;
    AppendCounts(tried, u);
    AppendCounts(p, rest);
    NothingCounts();
    RestOf(SV(w'), l', u, rest);
    AppendOrderly(tried, u);
    AppendOrderly(p, rest);
    forall s | Waits(tried + [u], s)
      ensures Handled(SV(w'), l'.lost, s) || Waits(p', s)
    {
      AppendWaits(tried, u, s);
      AppendWaits(p, rest, s);
      NothingQueued(s);
      if Handled(SV(w), l.lost, s) { HandledStays(w, l, w', l', s); }
    }
  }

  lemma AppendOrderly(us: seq<seq<Block>>, u: seq<Block>)
    ensures (forall x <- us + [u] :: Orderly(x)) <==> (forall x <- us :: Orderly(x)) && Orderly(u)
  {
    hide Orderly;
    assert u in us + [u];
    if forall x <- us + [u] :: Orderly(x) {
      forall x <- us
        ensures Orderly(x)
      {
        assert x in us + [u];
      }
    }
  }

  lemma NothingCounts()
    ensures Count([]) == 0
  {
  }

  lemma RetriedAll(w: World, l: Ledger, w': World, l': Ledger, held: seq<seq<Block>>, p: seq<seq<Block>>)
    requires Advanced(w, l, w', l')
    requires forall s | Waits(held, s) :: Handled(SV(w'), l'.lost, s) || Waits(p, s)
    ensures Accounted(SV(w), l, held) ==> Accounted(SV(w'), l', p)
  {
    hide Grown, Handled, Waits, SV;
    if Accounted(SV(w), l, held) {
      forall s <- l'.known
        ensures Handled(SV(w'), l'.lost, s) || Waits(p, s)
      {
        if Handled(SV(w), l.lost, s) { HandledStays(w, l, w', l', s); }
      }
    }
  }

  // ---------------------------------------------------------------- deletions

  /** `k` is not the second half of a pair. */
  ghost predicate WholeAt(h: History, c: nat, k: nat) {
    ID(c, k) in h ==> h[ID(c, k)].cell.half != Low
  }

  /** No range of the delete set cuts a pair. */
  ghost predicate KeepsPairs(h: History, ds: map<nat, seq<D.Range>>) {
    forall c <- ds :: forall r <- ds[c] :: WholeAt(h, c, r.clock) && WholeAt(h, c, r.End())
  }

  /** The halves of a pair are in the set together. */
  ghost predicate PairWise(h: History, p: iset<ID>) {
    forall x <- h | h[x].cell.half == Low && x.clock > 0 :: x in p <==> ID(x.client, x.clock - 1) in p
  }

  ghost function Asking(ds: map<nat, seq<D.Range>>): iset<ID> {
    iset x | Asks(ds, x)
  }

  lemma WholeIsLegal(h: History, w: World, ds: map<nat, seq<D.Range>>)
    requires KeepsPairs(h, ds) && Sane(w) && Agrees(h, w)
    ensures LegalEnds(w, ds)
  {
    SaneKeys(w);
    hide Sane;
    forall c <- ds, r <- ds[c]
      ensures LegalCut(w, c, r.clock) && LegalCut(w, c, r.End())
    {
      if ID(c, r.clock) in w.nodes { assert AgreesAt(h, w, ID(c, r.clock)); }
      if ID(c, r.End()) in w.nodes { assert AgreesAt(h, w, ID(c, r.End())); }
    }
  }

  lemma WholeIsPairWise(h: History, ds: map<nat, seq<D.Range>>)
    requires KeepsPairs(h, ds)
    ensures PairWise(h, Asking(ds))
  {
    forall x <- h | h[x].cell.half == Low && x.clock > 0
      ensures x in Asking(ds) <==> ID(x.client, x.clock - 1) in Asking(ds)
    {
      var y := ID(x.client, x.clock - 1);
      if x in Asking(ds) {
        var i :| 0 <= i < |ds[x.client]| && ds[x.client][i].Has(x.clock);
        assert ds[x.client][i] in ds[x.client];
        assert ds[x.client][i].Has(y.clock);
      }
      if y in Asking(ds) {
        var i :| 0 <= i < |ds[x.client]| && ds[x.client][i].Has(y.clock);
        assert ds[x.client][i] in ds[x.client];
        assert ds[x.client][i].Has(x.clock);
      }
    }
  }

  /** Ranges in normal form cut a pair only if they hold one half of it. */
  lemma PairWiseIsWhole(h: History, ds: map<nat, seq<D.Range>>)
    requires Honest(h) && PairWise(h, Asking(ds)) && forall c <- ds :: D.Normal(ds[c])
    ensures KeepsPairs(h, ds)
  {
    hide Honest, PairWise, Asking, WholeAt;
    forall c <- ds, r <- ds[c]
      ensures WholeAt(h, c, r.clock) && WholeAt(h, c, r.End())
    {
      var i :| 0 <= i < |ds[c]| && ds[c][i] == r;
      NormalEnds(ds[c], i);
      NotHalf(h, ds, c, r.clock);
      NotHalf(h, ds, c, r.End());
    }
  }

  lemma NormalEnds(rs: seq<D.Range>, i: nat)
    requires D.Normal(rs) && i < |rs|
    ensures D.Names(rs, rs[i].clock) && (rs[i].clock > 0 ==> !D.Names(rs, rs[i].clock - 1))
    ensures rs[i].End() > 0 && D.Names(rs, rs[i].End() - 1) && !D.Names(rs, rs[i].End())
  {
    assert rs[i].Has(rs[i].clock) && rs[i].Has(rs[i].End() - 1);
  }

  lemma NotHalf(h: History, ds: map<nat, seq<D.Range>>, c: nat, k: nat)
    requires Honest(h) && PairWise(h, Asking(ds)) && c in ds
    requires k > 0 ==> (D.Names(ds[c], k) <==> !D.Names(ds[c], k - 1))
    ensures WholeAt(h, c, k)
  {
    hide Lawful, WellPlaced, Describes, D.Names;
    if k > 0 {
      assert ID(c, k) in Asking(ds) <==> D.Names(ds[c], k);
      assert ID(c, k - 1) in Asking(ds) <==> D.Names(ds[c], k - 1);
    }
    if ID(c, k) in h { assert HonestAt(h, ID(c, k)); }
  }

  /** What has been received of a client does not end inside a pair. */
  lemma StateIsWhole(h: History, w: World, c: nat)
    requires Sane(w) && Honest(h) && Agrees(h, w) && LiveAll(h, w)
    ensures WholeAt(h, c, State(w.items, w.clients, c))
  {
    hide Sane, Lawful, WellPlaced, Describes, State;
    var k := State(w.items, w.clients, c);
    if ID(c, k) in h && h[ID(c, k)].cell.half == Low {
      assert HonestAt(h, ID(c, k));
      assert ID(c, k - 1) in w.nodes;
      assert AgreesAt(h, w, ID(c, k - 1));
      LastNotHigh(w, ID(c, k - 1));
    }
  }

  /** `named` are the units that deletions have named, `p` those still pending.  Nothing named is
      forgotten; if the history is honest and no deletion cuts a pair, a stored unit that was
      named is deleted or pending, and a deleted one was named or born deleted. */
  ghost predicate Tallied(h: History, w: World, known: set<Struct>, named: iset<ID>, p: iset<ID>, whole: bool) {
    && p <= named
    && (forall x <- named :: x.clock >= State(w.items, w.clients, x.client) ==> x in p)
    && (Honest(h) && AllClean(h, known) && whole ==>
          && (forall x <- w.nodes :: x in named ==> x in p || x in w.gone)
          && (forall x <- w.gone :: x in named || Born(w, x))
          && (forall k, x {:trigger LastEntry(w, k, x)} | LastEntry(w, k, x) && x in w.gone ::
            x in named || Excused(w, x))
          && PairWise(h, p))
  }

  lemma TalliedArrivals(h: History, w: World, known: set<Struct>, more: set<Struct>, named: iset<ID>, p: iset<ID>,
                        whole: bool)
    requires Tallied(h, w, known, named, p, whole)
    ensures Tallied(h, w, known + more, named, p, whole)
  {
    hide State, Honest, Clean, Born, PairWise;
    if AllClean(h, known + more) {
      forall s <- known
        ensures Clean(h, s)
      {
        assert s in known + more;
      }
    }
  }

  /** Integration leaves the tally right: what it stores and was named is pending. */
  lemma TalliedAdvance(h: History, w: World, l: Ledger, w': World, l': Ledger, named: iset<ID>, p: iset<ID>,
                       whole: bool)
    requires Tallied(h, w, l.known, named, p, whole) && Advanced(w, l, w', l')
    ensures Tallied(h, w', l'.known, named, p, whole)
  {
    hide Sane, Order, State, Restrict, Honest, PairWise, LastEntry;
    forall x <- named | x.clock >= State(w'.items, w'.clients, x.client)
      ensures x in p
    {
      assert State(w.items, w.clients, x.client) <= State(w'.items, w'.clients, x.client);
    }
    if Honest(h) && AllClean(h, l'.known) && whole {
      forall x <- w.gone
        ensures x in named || Born(w', x)
      {
      }
      forall k, x | LastEntry(w', k, x) && x in w'.gone
        ensures x in named || Excused(w', x)
      {
        if LastEntry(w, k, x) && x in w.gone && Excused(w, x) { assert Excused(w', x); }
      }
    }
  }

  /** Applying a delete set: what it names is marked or pending. */
  lemma TalliedDelete(h: History, w: World, l: Ledger, w': World, named: iset<ID>, p: iset<ID>, p': iset<ID>,
                      whole: bool,
                      ds: map<nat, seq<D.Range>>)
    requires Booked(h, w, l) && Tallied(h, w, l.known, named, p, whole) && Erased(w, w')
    requires p' == p + iset x | Asks(ds, x) && x.clock >= State(w.items, w.clients, x.client)
    requires LegalEnds(w, ds) ==> w'.gone == w.gone + AskedAll(w, ds)
    ensures Tallied(h, w', l.known, named + Asking(ds), p', whole && KeepsPairs(h, ds))
  {
    hide Sane, Order, State, Honest, Lawful, Agrees, Fits, Least, Asks, LegalEnds, KeepsPairs, Born, TombstonesGone,
      LastEntry, Excused, OneValueEach;
    if Honest(h) && AllClean(h, l.known) && whole && KeepsPairs(h, ds) {
      WholeIsLegal(h, w, ds);
      WholeIsPairWise(h, ds);
      forall x <- h | h[x].cell.half == Low && x.clock > 0
        ensures x in p' <==> ID(x.client, x.clock - 1) in p'
      {
        StateIsWhole(h, w, x.client);
        assert x in Asking(ds) <==> ID(x.client, x.clock - 1) in Asking(ds);
      }
      forall x <- w'.gone
        ensures x in named + Asking(ds) || Born(w', x)
      {
        if x in w.gone && Born(w, x) { BornStays(w, w', x); }
      }
      forall k, x | LastEntry(w', k, x) && x in w'.gone
        ensures x in named + Asking(ds) || Excused(w', x)
      {
        EntryStays(w, w', k, x);
      }
    }
  }

  lemma EntryStays(w: World, w': World, k: Owner, x: ID)
    requires Erased(w, w') && LastEntry(w', k, x)
    ensures LastEntry(w, k, x) && (Excused(w, x) ==> Excused(w', x))
  {
    hide Order, State;
    assert Order(w', k) == Order(w, k);
  }

  lemma BornStays(w: World, w': World, x: ID)
    requires Erased(w, w') && Born(w, x)
    ensures Born(w', x)
  {
  }

  /** Trying the pending deletions again: what has arrived is marked, the rest stays pending. */
  lemma TalliedRetry(h: History, w: World, l: Ledger, w': World, named: iset<ID>, p: iset<ID>, p': iset<ID>,
                     whole: bool,
                     ds: map<nat, seq<D.Range>>)
    requires Booked(h, w, l) && Tallied(h, w, l.known, named, p, whole) && Erased(w, w')
    requires p == Asking(ds) && (forall c <- ds :: D.Normal(ds[c]))
    requires p' == iset x | Asks(ds, x) && x.clock >= State(w.items, w.clients, x.client)
    requires LegalEnds(w, ds) ==> w'.gone == w.gone + AskedAll(w, ds)
    ensures Tallied(h, w', l.known, named, p', whole)
  {
    hide Sane, Order, State, Honest, Lawful, Agrees, Fits, Least, Asks, LegalEnds, KeepsPairs, Born, TombstonesGone,
      LastEntry, Excused, OneValueEach;
    if Honest(h) && AllClean(h, l.known) && whole {
      PairWiseIsWhole(h, ds);
      WholeIsLegal(h, w, ds);
      forall x <- h | h[x].cell.half == Low && x.clock > 0
        ensures x in p' <==> ID(x.client, x.clock - 1) in p'
      {
        StateIsWhole(h, w, x.client);
      }
      forall x <- w'.gone
        ensures x in named || Born(w', x)
      {
        if x in w.gone && Born(w, x) { BornStays(w, w', x); }
      }
      forall k, x | LastEntry(w', k, x) && x in w'.gone
        ensures x in named || Excused(w', x)
      {
        EntryStays(w, w', k, x);
      }
    }
  }

  lemma ErasedBooked(h: History, w: World, w': World, l: Ledger)
    requires Booked(h, w, l) && Sane(w') && Erased(w, w')
    ensures Booked(h, w', l) && Grown(w, w')
  {
    hide Sane, Order, State, Restrict, Honest, Lawful, Fits, Least, Ordered, OneValue, UnitEntries;
    LeastExtensional(l.done, SV(w), SV(w'));
    forall x <- w'.nodes
      ensures AgreesAt(h, w', x)
    {
      assert AgreesAt(h, w, x);
    }
    forall k
      ensures Restrict(Order(w', k), Elements(Order(w, k))) == Order(w, k)
    {
      RestrictAll(Order(w, k), Elements(Order(w, k)));
    }
    if Honest(h) && AllClean(h, l.known) {
      forall k
        ensures Ordered(Order(w', k))
      {
        assert Ordered(Order(w, k));
      }
    }
    if AllUnits(h, l.known) {
      forall k: Owner | k.Keyed()
        ensures OneValue(w', k)
      {
        assert OneValue(w, k);
        SameOneValue(w, w', k);
      }
    }
  }

  // ---------------------------------------------------------------- updates

  ghost function Received(u: seq<Block>): set<Struct> {
    set b, s | b in u && s in b.structs :: s
  }

  lemma NewBooked(h: History, w: World)
    requires Lawful(h) && w == World(map[], map[], [], map[], map[], map[], {})
    ensures Booked(h, w, Ledger({}, {}, {}))
    ensures Tallied(h, w, {}, iset{}, iset{}, true)
  {
    forall k
      ensures Order(w, k) == []
    {
    }
  }

  lemma BookedSane(h: History, w: World, l: Ledger)
    requires Booked(h, w, l)
    ensures Sane(w)
  {
  }

  lemma ErasedState(w: World, w': World)
    requires Erased(w, w')
    ensures forall c :: State(w'.items, w'.clients, c) == State(w.items, w.clients, c)
  {
  }

  lemma ErasedAccounted(w: World, w': World, l: Ledger, pending: seq<seq<Block>>)
    requires Erased(w, w') && Accounted(SV(w), l, pending)
    ensures Accounted(SV(w'), l, pending)
  {
    hide State, Order, Waits;
  }

  lemma ErasedAtRest(w: World, w': World, pending: seq<seq<Block>>)
    requires Erased(w, w') && forall u <- pending :: AtRest(SV(w), u)
    ensures forall u <- pending :: AtRest(SV(w'), u)
  {
    hide State, Order, QueueOf;
    forall u <- pending, c
      ensures HeadStuck(SV(w'), QueueOf(u, c))
    {
      assert AtRest(SV(w), u) && HeadStuck(SV(w), QueueOf(u, c));
    }
  }

  lemma {:induction false} QueuedIsReceived(u: seq<Block>, s: Struct, c: nat)
    requires s in QueueOf(u, c)
    ensures s in Received(u)
  {
    var n := |u| - 1;
    if s in QueueOf(u[..n], c) {
      QueuedIsReceived(u[..n], s, c);
      var b :| b in u[..n] && s in b.structs;
      assert b in u;
    } else {
      assert u[n] in u;
    }
  }

  lemma {:induction false} ReceivedIsQueued(u: seq<Block>, i: nat, s: Struct)
    requires i < |u| && s in u[i].structs
    ensures s in QueueOf(u, u[i].client)
  {
    var n := |u| - 1;
    if i < n { ReceivedIsQueued(u[..n], i, s); }
  }

  /** Structs that have just arrived are known, and wait. */
  lemma Arrive(h: History, w: World, l: Ledger, u: seq<Block>, pending: seq<seq<Block>>)
    requires Booked(h, w, l) && (forall s <- Received(u) :: Fits(h, s))
    requires (forall v <- pending :: Listed(l.known, v)) && Accounted(SV(w), l, pending)
    ensures var l' := l.(known := l.known + Received(u));
            && Booked(h, w, l') && Listed(l'.known, u) && (forall v <- pending :: Listed(l'.known, v))
            && Accounted(SV(w), l', pending + [u])
  {
    hide Booked, Fits, SV, QueueOf, Handled, Waits;
    var l' := l.(known := l.known + Received(u));
    ArrivalsBooked(h, w, l, Received(u));
    forall c, s | s in QueueOf(u, c)
      ensures s in l'.known
    {
      QueuedIsReceived(u, s, c);
    }
    forall v <- pending
      ensures Listed(l'.known, v)
    {
      assert Listed(l.known, v);
    }
    forall s <- l'.known
      ensures Handled(SV(w), l'.lost, s) || Waits(pending + [u], s)
    {
      AppendWaits(pending, u, s);
      if s !in l.known {
        var b :| b in u && s in b.structs;
        var i :| 0 <= i < |u| && u[i] == b;
        ReceivedIsQueued(u, i, s);
        assert Queued(u, s);
      }
    }
  }
}
