/**
  Replicas of a document on a bus that may lose anything (internal/room/fanout.go).

  Every node holds a document.  Envelopes carry updates and state vectors; node ids are the
  positions in `nodes`.
*/
module Fanout {
  import opened Ids
  import opened Items
  import opened Schedules
  import opened Histories
  import opened Steps
  import opened Ledgers
  import opened Docs
  import opened Wire
  import opened Sync

  /** An update of a client, an update in answer to a state vector, or a state vector.  The first
      two travel alike.  Of an answer it is remembered to whose vector `v` it was given, and what
      the answering document held, `w` and `l`, and advertised as deleted, `told`. */
  datatype Kind =
    | Edit(update: Update)
    | Answer(update: Update, ghost to: nat, ghost v: Vector, ghost w: World, ghost l: Ledger, ghost told: iset<ID>)
    | StateVector(sv: map<nat, nat>, ghost v: Vector)

  datatype Envelope = Envelope(origin: nat, kind: Kind)

  /** What waits for the room goroutine, and what waits to go out. */
  datatype Node = Node(remote: seq<Envelope>, pub: seq<Envelope>, lastAnnounce: int)

  /** An envelope on its way to one subscriber. */
  datatype Delivery = Delivery(dest: nat, env: Envelope)

  const REMOTE_QUEUE := 1024
  const PUBLISH_QUEUE := 1024

  /** Announcements are counted apart from the envelopes that carry updates. */
  predicate Counts(e: Envelope, vectors: bool) {
    e.kind.StateVector? == vectors
  }

  /** How many of the one or the other there are in a queue. */
  function Queued(q: seq<Envelope>, vectors: bool): nat {
    if q == [] then 0 else Queued(q[..|q| - 1], vectors) + (if Counts(q[|q| - 1], vectors) then 1 else 0)
  }

  lemma {:induction false} QueuedConcat(p: seq<Envelope>, q: seq<Envelope>, vectors: bool)
    ensures Queued(p + q, vectors) == Queued(p, vectors) + Queued(q, vectors)
  {
    if q == [] {
      assert p + q == p;
    } else {
      QueuedConcat(p, q[..|q| - 1], vectors);
      assert (p + q)[..|p + q| - 1] == p + q[..|q| - 1];
    }
  }

  lemma QueuedOne(e: Envelope, vectors: bool)
    ensures Queued([e], vectors) == if Counts(e, vectors) then 1 else 0
  {
    assert [e][..0] == [];
  }

  lemma TakeFirst(q: seq<Envelope>, vectors: bool)
    requires q != []
    ensures Queued(q, vectors) == (if Counts(q[0], vectors) then 1 else 0) + Queued(q[1..], vectors)
  {
    QueuedConcat([q[0]], q[1..], vectors);
    QueuedOne(q[0], vectors);
    assert q == [q[0]] + q[1..];
  }

  /** What the rooms have yet to take, and what has yet to go out. */
  function ToTake(nodes: seq<Node>, vectors: bool): nat {
    if nodes == [] then 0 else ToTake(nodes[..|nodes| - 1], vectors) + Queued(nodes[|nodes| - 1].remote, vectors)
  }

  function ToSend(nodes: seq<Node>, vectors: bool): nat {
    if nodes == [] then 0 else ToSend(nodes[..|nodes| - 1], vectors) + Queued(nodes[|nodes| - 1].pub, vectors)
  }

  lemma {:induction false} OneNodeChanges(nodes: seq<Node>, i: nat, n: Node, vectors: bool)
    requires i < |nodes|
    ensures ToTake(nodes[i := n], vectors) ==
            ToTake(nodes, vectors) - Queued(nodes[i].remote, vectors) + Queued(n.remote, vectors)
    ensures ToSend(nodes[i := n], vectors) ==
            ToSend(nodes, vectors) - Queued(nodes[i].pub, vectors) + Queued(n.pub, vectors)
  {
    hide Queued;
    var k := |nodes| - 1;
    if i < k {
      OneNodeChanges(nodes[..k], i, n, vectors);
      assert nodes[i := n][..k] == nodes[..k][i := n];
    } else {
      assert nodes[i := n][..k] == nodes[..k];
    }
  }

  /** What is on its way to somebody else. */
  function Flying(ds: seq<Delivery>, vectors: bool): nat {
    if ds == [] then 0 else Flying(ds[..|ds| - 1], vectors) + (if Lands(ds[|ds| - 1], vectors) then 1 else 0)
  }

  predicate Lands(d: Delivery, vectors: bool) {
    Counts(d.env, vectors) && d.dest != d.env.origin
  }

  lemma {:induction false} FlyingConcat(p: seq<Delivery>, q: seq<Delivery>, vectors: bool)
    ensures Flying(p + q, vectors) == Flying(p, vectors) + Flying(q, vectors)
  {
    if q == [] {
      assert p + q == p;
    } else {
      FlyingConcat(p, q[..|q| - 1], vectors);
      assert (p + q)[..|p + q| - 1] == p + q[..|q| - 1];
    }
  }

  lemma FlyingOne(d: Delivery, vectors: bool)
    ensures Flying([d], vectors) == if Lands(d, vectors) then 1 else 0
  {
    assert [d][..0] == [];
  }

  lemma FlyingWithout(ds: seq<Delivery>, k: nat, vectors: bool)
    requires k < |ds|
    ensures Flying(ds, vectors) == Flying(ds[..k] + ds[k + 1..], vectors) + (if Lands(ds[k], vectors) then 1 else 0)
  {
    hide Flying;
    FlyingConcat(ds[..k] + [ds[k]], ds[k + 1..], vectors);
    FlyingConcat(ds[..k], [ds[k]], vectors);
    FlyingConcat(ds[..k], ds[k + 1..], vectors);
    FlyingOne(ds[k], vectors);
    assert ds == ds[..k] + [ds[k]] + ds[k + 1..];
  }

  /** One delivery per subscriber, the sender included. */
  function Deliveries(env: Envelope, n: nat): seq<Delivery> {
    if n == 0 then [] else Deliveries(env, n - 1) + [Delivery(n - 1, env)]
  }

  lemma {:induction false} DeliveriesFly(env: Envelope, n: nat, vectors: bool)
    ensures |Deliveries(env, n)| == n && forall i | 0 <= i < n :: Deliveries(env, n)[i] == Delivery(i, env)
    ensures Flying(Deliveries(env, n), vectors) ==
            if Counts(env, vectors) then (if env.origin < n then n - 1 else n) else 0
  {
    if n > 0 {
      DeliveriesFly(env, n - 1, vectors);
      var ds := Deliveries(env, n);
      assert ds[..n - 1] == Deliveries(env, n - 1);
    }
  }

  /** What is still to be taken, if everything gets everywhere. */
  function Owed(nodes: seq<Node>, flying: seq<Delivery>, vectors: bool): nat
    requires nodes != []
  {
    ToTake(nodes, vectors) + Flying(flying, vectors) + ToSend(nodes, vectors) * (|nodes| - 1)
  }

  /** Envelopes go to nodes there are, leave from where they come from, and do not come back. */
  ghost predicate Tidy(nodes: seq<Node>, flying: seq<Delivery>) {
    && nodes != []
    && (forall d <- flying :: d.dest < |nodes|)
    && (forall i | 0 <= i < |nodes| :: NodeTidy(nodes[i], i))
  }

  ghost predicate NodeTidy(n: Node, i: nat) {
    (forall e <- n.pub :: e.origin == i) && (forall e <- n.remote :: e.origin != i)
  }

  // ---------------------------------------------------------------- payloads

  ghost predicate Upto(v: Vector, u: Vector) {
    forall c :: v(c) <= u(c)
  }

  /** How far a document has got: the units it has integrated and the deletions it advertises. */
  datatype Extent = Extent(ghost v: Vector, ghost deleted: iset<ID>)

  ghost function ExtentOf(a: Doc): Extent
    reads a, a.store, a.pendingDeletes
  {
    Extent(SV(a.store.W()), DeletionsOf(a))
  }

  ghost predicate Inside(e: Extent, f: Extent) {
    Upto(e.v, f.v) && e.deleted <= f.deleted
  }

  /** What an envelope carries is what it claims to be: an update that can be applied; a state
      vector its sender has reached; an answer to a vector that the one who asked has reached. */
  ghost predicate Genuine(h: History, reach: seq<Extent>, e: Envelope) {
    match e.kind
    case Edit(u) => Proper(h, u)
    case Answer(u, to, v, w, l, told) =>
      && Proper(h, u) && AnswerOf(h, w, l, v, u) && Asking(u.deletes) == told
      && to < |reach| && Upto(v, reach[to].v)
    case StateVector(sv, v) =>
      && WholeVector(h, v) && (forall c :: v(c) == if c in sv then sv[c] else 0)
      && e.origin < |reach| && Upto(v, reach[e.origin].v)
  }

  ghost predicate AllGenuine(h: History, reach: seq<Extent>, nodes: seq<Node>, flying: seq<Delivery>) {
    && (forall d <- flying :: Genuine(h, reach, d.env))
    && (forall n <- nodes ::
          (forall e <- n.pub :: Genuine(h, reach, e)) && forall e <- n.remote :: Genuine(h, reach, e))
  }

  /** Nodes only get further. */
  ghost predicate Further(reach: seq<Extent>, reach': seq<Extent>) {
    |reach'| == |reach| && forall i | 0 <= i < |reach| :: Inside(reach[i], reach'[i])
  }

  lemma StaysGenuine(h: History, reach: seq<Extent>, reach': seq<Extent>, nodes: seq<Node>, flying: seq<Delivery>)
    requires AllGenuine(h, reach, nodes, flying) && Further(reach, reach')
    ensures AllGenuine(h, reach', nodes, flying)
  {
    hide Proper, AnswerOf, WholeVector;
    forall e | Genuine(h, reach, e)
      ensures Genuine(h, reach', e)
    {
    }
  }

  /** Every replica advertises the deletions of every update it has applied, and has got at least as
      far as every document whose answer it asked for and applied. */
  ghost predicate CaughtUp(reach: seq<Extent>, applied: seq<Delivery>) {
    forall d <- applied :: d.dest < |reach| && Absorbed(reach[d.dest], d)
  }

  ghost predicate Absorbed(e: Extent, d: Delivery) {
    && !d.env.kind.StateVector? && Asking(d.env.kind.update.deletes) <= e.deleted
    && (d.env.kind.Answer? ==> d.env.kind.told <= e.deleted)
    && (d.env.kind.Answer? && d.env.kind.to == d.dest ==> Upto(SV(d.env.kind.w), e.v))
  }

  lemma StaysCaughtUp(reach: seq<Extent>, reach': seq<Extent>, applied: seq<Delivery>)
    requires CaughtUp(reach, applied) && Further(reach, reach')
    ensures CaughtUp(reach', applied)
  {
    hide SV, Asking;
    forall d <- applied
      ensures Absorbed(reach'[d.dest], d)
    {
      assert Inside(reach[d.dest], reach'[d.dest]);
    }
  }

  lemma OneCaughtUp(reach: seq<Extent>, applied: seq<Delivery>, d: Delivery)
    requires CaughtUp(reach, applied) && d.dest < |reach| && Absorbed(reach[d.dest], d)
    ensures CaughtUp(reach, applied + [d])
  {
    hide Absorbed;
  }

  lemma FurtherOn(a: seq<Extent>, b: seq<Extent>, c: seq<Extent>)
    requires Further(a, b) && Further(b, c)
    ensures Further(a, c)
  {
    forall i | 0 <= i < |a|
      ensures Inside(a[i], c[i])
    {
      assert Inside(a[i], b[i]) && Inside(b[i], c[i]);
    }
  }

  lemma ReachesItself(reach: seq<Extent>)
    ensures Further(reach, reach)
  {
  }

  lemma QueuedGenuine(h: History, reach: seq<Extent>, nodes: seq<Node>, flying: seq<Delivery>, i: nat, e: Envelope)
    requires AllGenuine(h, reach, nodes, flying) && i < |nodes| && Genuine(h, reach, e)
    ensures AllGenuine(h, reach, Enqueued(nodes, i, e), flying)
  {
    hide Genuine;
    assert nodes[i] in nodes;
    NodeGenuine(h, reach, nodes, flying, i, nodes[i].(pub := nodes[i].pub + [e]));
  }

  lemma VectorReaches(v: Vector)
    ensures Upto(v, v)
  {
  }

  lemma StatesAreVector(w: World, sv: map<nat, nat>)
    requires forall c :: State(w.items, w.clients, c) == if c in sv then sv[c] else 0
    ensures forall c :: SV(w)(c) == if c in sv then sv[c] else 0
  {
    hide State;
  }

  /** Node `i` has noted when it announced, and queued its state vector `v` if there was room. */
  ghost predicate Announced(nodes: seq<Node>, nodes': seq<Node>, i: nat, now: int, v: Vector)
    requires i < |nodes|
  {
    var noted := nodes[i := nodes[i].(lastAnnounce := now)];
    if |nodes[i].pub| >= PUBLISH_QUEUE then nodes' == noted
    else exists sv :: nodes' == Enqueued(noted, i, Envelope(i, StateVector(sv, v))) && Spells(sv, v)
  }

  ghost predicate Spells(sv: map<nat, nat>, v: Vector) {
    forall c :: v(c) == if c in sv then sv[c] else 0
  }

  lemma AnnouncedGenuine(h: History, reach: seq<Extent>, nodes: seq<Node>, flying: seq<Delivery>, i: nat, now: int)
    requires AllGenuine(h, reach, nodes, flying) && i < |nodes|
    ensures AllGenuine(h, reach, nodes[i := nodes[i].(lastAnnounce := now)], flying)
  {
    hide Genuine;
    assert nodes[i] in nodes;
    NodeGenuine(h, reach, nodes, flying, i, nodes[i].(lastAnnounce := now));
  }

  lemma Asked(h: History, reach: seq<Extent>, e: Envelope)
    requires Genuine(h, reach, e) && e.kind.StateVector?
    ensures WholeVector(h, e.kind.v) && (forall c :: e.kind.v(c) == if c in e.kind.sv then e.kind.sv[c] else 0)
  {
    hide WholeVector;
  }

  lemma Answers(h: History, reach: seq<Extent>, e: Envelope, i: nat, u: Update, w: World, l: Ledger, told: iset<ID>)
    requires Genuine(h, reach, e) && e.kind.StateVector? && Proper(h, u) && AnswerOf(h, w, l, e.kind.v, u)
    requires Asking(u.deletes) == told
    ensures Genuine(h, reach, Envelope(i, Answer(u, e.origin, e.kind.v, w, l, told)))
  {
    hide WholeVector, Proper, AnswerOf, Upto;
  }

  /** Node `i` has queued an answer to `to`'s vector `v` and done nothing else: everything its document
      held, `w`, from there on, and every deletion it advertised. */
  ghost predicate QueuesAnswer(nodes: seq<Node>, nodes': seq<Node>, h: History, i: nat, to: nat, v: Vector, w: World,
                               l: Ledger, told: iset<ID>)
    requires i < |nodes|
  {
    exists u ::
      && nodes' == Enqueued(nodes, i, Envelope(i, Answer(u, to, v, w, l, told)))
      && AnswerOf(h, w, l, v, u) && Asking(u.deletes) == told
  }

  lemma TakenGenuine(h: History, reach: seq<Extent>, nodes: seq<Node>, flying: seq<Delivery>, i: nat)
    requires AllGenuine(h, reach, nodes, flying) && i < |nodes| && nodes[i].remote != []
    ensures AllGenuine(h, reach, nodes[i := nodes[i].(remote := nodes[i].remote[1..])], flying)
    ensures Genuine(h, reach, nodes[i].remote[0])
  {
    hide Genuine;
    assert nodes[i] in nodes && nodes[i].remote[0] in nodes[i].remote;
    NodeGenuine(h, reach, nodes, flying, i, nodes[i].(remote := nodes[i].remote[1..]));
  }

  lemma LessGenuine(h: History, reach: seq<Extent>, nodes: seq<Node>, flying: seq<Delivery>, k: nat)
    requires AllGenuine(h, reach, nodes, flying) && k < |flying|
    ensures AllGenuine(h, reach, nodes, flying[..k] + flying[k + 1..])
  {
    hide Genuine;
  }

  lemma SentGenuine(h: History, reach: seq<Extent>, nodes: seq<Node>, flying: seq<Delivery>, i: nat)
    requires AllGenuine(h, reach, nodes, flying) && i < |nodes| && nodes[i].pub != []
    ensures var nodes' := nodes[i := nodes[i].(pub := nodes[i].pub[1..])];
            AllGenuine(h, reach, nodes', flying) &&
              AllGenuine(h, reach, nodes', flying + Deliveries(nodes[i].pub[0], |nodes|))
  {
    hide Genuine, Deliveries;
    assert nodes[i] in nodes && nodes[i].pub[0] in nodes[i].pub;
    NodeGenuine(h, reach, nodes, flying, i, nodes[i].(pub := nodes[i].pub[1..]));
    DeliveriesFly(nodes[i].pub[0], |nodes|, true);
  }

  lemma DeliveredGenuine(h: History, reach: seq<Extent>, nodes: seq<Node>, flying: seq<Delivery>, k: nat)
    requires AllGenuine(h, reach, nodes, flying) && k < |flying| && flying[k].dest < |nodes|
    ensures var d, n := flying[k], nodes[flying[k].dest];
            AllGenuine(h, reach, nodes[d.dest := n.(remote := n.remote + [d.env])], flying[..k] + flying[k + 1..])
  {
    hide Genuine;
    var d, n := flying[k], nodes[flying[k].dest];
    assert d in flying && n in nodes;
    LessGenuine(h, reach, nodes, flying, k);
    NodeGenuine(h, reach, nodes, flying[..k] + flying[k + 1..], d.dest, n.(remote := n.remote + [d.env]));
  }

  lemma NodeGenuine(h: History, reach: seq<Extent>, nodes: seq<Node>, flying: seq<Delivery>, i: nat, n: Node)
    requires AllGenuine(h, reach, nodes, flying) && i < |nodes|
    requires (forall e <- n.pub :: Genuine(h, reach, e)) && forall e <- n.remote :: Genuine(h, reach, e)
    ensures AllGenuine(h, reach, nodes[i := n], flying)
  {
    hide Genuine;
  }

  class Cluster {
    ghost const h: History
    const docs: seq<Doc>
    var nodes: seq<Node>
    var flying: seq<Delivery>
    ghost var reach: seq<Extent>
    ghost var edits: nat
    ghost var announced: nat
    ghost var answered: nat
    ghost var updates: nat
    ghost var applied: seq<Delivery>

    /** Every update envelope is an edit or an answer; what was answered and could still be is within
        what was announced, and what was applied and could still be is within what was published, to
        every other replica; and nobody holds or has applied an envelope of its own. */
    ghost predicate Accounts()
      reads this
    {
      && Tidy(nodes, flying)
      && updates <= edits + answered
      && answered + Owed(nodes, flying, true) <= announced * (|nodes| - 1)
      && |applied| + Owed(nodes, flying, false) <= updates * (|nodes| - 1)
      && (forall d <- applied :: d.env.origin != d.dest)
    }

    /** The documents are sound and apart, and every envelope is genuine. */
    ghost predicate Contents()
      reads this, docs, (set d <- docs :: d.store), (set d <- docs :: d.pendingDeletes)
    {
      && Honest(h) && |docs| == |nodes| == |reach| && AllGenuine(h, reach, nodes, flying)
      && (forall i | 0 <= i < |docs| :: docs[i].h == h && Trusted(docs[i]) && reach[i] == ExtentOf(docs[i]))
      && (forall i, j | 0 <= i < |docs| && 0 <= j < |docs| && i != j :: Apart(docs[i], docs[j]))
    }

    ghost predicate Valid()
      reads this, docs, (set d <- docs :: d.store), (set d <- docs :: d.pendingDeletes)
    {
      Accounts() && Contents() && CaughtUp(reach, applied)
    }

    /** Updates do not circulate: the envelopes that carry updates never outnumber the edits and
        one answer of each other replica per announcement, and each is applied once at most by each
        other replica. */
    lemma Bounded()
      requires Accounts()
      ensures updates <= edits + announced * (|nodes| - 1) && |applied| <= updates * (|nodes| - 1)
      ensures |applied| <= (edits + announced * (|nodes| - 1)) * (|nodes| - 1)
    {
      hide Owed;
      Times(updates, edits + announced * (|nodes| - 1), |nodes| - 1);
    }

    constructor (ghost h: History, n: nat)
      requires n > 0 && Honest(h)
      ensures Valid() && |nodes| == n && edits == announced == answered == updates == 0 && applied == [] && this.h == h
      ensures forall d <- docs :: fresh(d) && fresh(d.store) && fresh(d.pendingDeletes)
    {
      hide Trusted, Honest, Sync.Apart, ExtentOf, Genuine, Absorbed, ToTake, ToSend, Flying, NodeTidy;
      var ds, vs := Documents(h, n);
      this.h, docs, reach := h, ds, vs;
      nodes := seq(n, i => Node([], [], 0));
      flying, edits, announced, answered, updates, applied := [], 0, 0, 0, 0, [];
      new;
      NothingToDo(nodes, true);
      NothingToDo(nodes, false);
      NothingThere(nodes);
    }

    lemma Has(i: nat)
      requires Contents() && i < |docs|
      ensures docs[i].h == h && Trusted(docs[i]) && reach[i] == ExtentOf(docs[i])
      ensures forall j | 0 <= j < |docs| && j != i :: Apart(docs[i], docs[j])
    {
      hide Trusted, AllGenuine, SV, Sync.Apart, Honest;
    }

    lemma Carried()
      requires Contents()
      ensures |docs| == |nodes| == |reach| && AllGenuine(h, reach, nodes, flying) && Honest(h)
    {
      hide Trusted, AllGenuine, SV, Sync.Apart, Honest;
    }

    /** Envelopes move, documents do not. */
    twostate lemma Moved()
      requires old(Contents()) && |nodes| == |old(nodes)| && reach == old(reach) && AllGenuine(h, reach, nodes, flying)
      requires forall d <- docs :: unchanged(d) && unchanged(d.store) && unchanged(d.pendingDeletes)
      ensures Contents()
    {
      hide Trusted, AllGenuine, SV, Sync.Apart, Honest;
      assert forall i | 0 <= i < |docs| :: docs[i] in docs;
    }

    /** One document moves on and leaves the others alone. */
    twostate lemma Applied(i: nat)
      requires old(Contents()) && i < |docs| && nodes == old(nodes) && flying == old(flying)
      requires reach == old(reach)[i := ExtentOf(docs[i])] && Trusted(docs[i]) && Inside(old(reach)[i], reach[i])
      requires fresh(docs[i].pendingDeletes) || docs[i].pendingDeletes == old(docs[i].pendingDeletes)
      requires forall j | 0 <= j < |docs| && j != i ::
                 unchanged(docs[j]) && unchanged(docs[j].store) && unchanged(docs[j].pendingDeletes)
      ensures Contents()
    {
      hide Trusted, AllGenuine, SV, Honest, Upto, Advertised;
      ReachesItself(old(reach));
      StaysGenuine(h, old(reach), reach, nodes, flying);
    }

    /** `publish`: queue an envelope, or drop it if the queue is full. */
    method Publish(i: nat, kind: Kind) returns (queued: bool)
      requires Contents() && i < |nodes| && Genuine(h, reach, Envelope(i, kind))
      modifies this`nodes
      ensures Contents() && queued == (|old(nodes)[i].pub| < PUBLISH_QUEUE)
      ensures nodes == if queued then Enqueued(old(nodes), i, Envelope(i, kind)) else old(nodes)
    {
      hide Contents, Genuine, AllGenuine, Trusted;
      Carried();
      queued := |nodes[i].pub| < PUBLISH_QUEUE;
      if queued {
        assert AllGenuine(h, reach, Enqueued(nodes, i, Envelope(i, kind)), flying) by {
          QueuedGenuine(h, reach, nodes, flying, i, Envelope(i, kind));
        }
        nodes := Enqueued(nodes, i, Envelope(i, kind));
        Moved();
      }
    }

    /** The document of replica `i` is told an update. */
    method Tell(i: nat, u: Update)
      requires Contents() && i < |docs| && Proper(h, u)
      modifies this`reach, docs[i], docs[i].store, docs[i].pendingDeletes
      ensures Contents() && reach == old(reach)[i := ExtentOf(docs[i])] && Inside(old(reach)[i], reach[i])
      ensures Asking(u.deletes) <= reach[i].deleted
      ensures fresh(docs[i].pendingDeletes) || docs[i].pendingDeletes == old(docs[i].pendingDeletes)
      ensures Trusted(docs[i]) && Grown(old(docs[i].store.W()), docs[i].store.W())
      ensures Received(u.blocks) <= docs[i].l.known
      ensures forall x | old(Advertised(docs[i], x)) || x in Asking(u.deletes) :: Advertised(docs[i], x)
    {
      hide Contents, AllGenuine, Trusted, Proper, Grown, SV, Received, Asking, Advertised;
      Has(i);
      Carried();
      ghost var w := docs[i].store.W();
      Apply(docs[i], u);
      GrownVector(w, docs[i].store.W());
      forall x <- Asking(u.deletes) { NamedIsAdvertised(docs[i], x); }
      reach := reach[i := ExtentOf(docs[i])];
      Applied(i);
    }

    /** A client of replica `i` edits the document: at most one envelope. */
    method LocalUpdate(i: nat, u: Update)
      requires Valid() && i < |nodes| && Proper(h, u)
      modifies this, docs[i], docs[i].store, docs[i].pendingDeletes
      ensures Valid() && |nodes| == |old(nodes)| && edits == old(edits) + 1 && announced == old(announced)
      ensures answered == old(answered)
      ensures updates == old(updates) + (if |old(nodes)[i].pub| < PUBLISH_QUEUE then 1 else 0)
      ensures flying == old(flying) && applied == old(applied)
      ensures nodes == if |old(nodes)[i].pub| < PUBLISH_QUEUE then Enqueued(old(nodes), i, Envelope(i, Edit(u)))
              else old(nodes)
      ensures fresh(docs[i].pendingDeletes) || docs[i].pendingDeletes == old(docs[i].pendingDeletes)
      ensures Further(old(reach), reach) && Received(u.blocks) <= docs[i].l.known
    {
      hide CaughtUp, Tidy, Owed, Enqueued, Contents, AllGenuine, Proper, Upto, Trusted, Grown, Received, Advertised;
      Carried();
      ReachesItself(reach);
      QueuedOwes(nodes, flying, i, Edit(u), true);
      QueuedOwes(nodes, flying, i, Edit(u), false);
      Tell(i, u);
      var queued := Publish(i, Edit(u));
      label Published:
      Carried();
      OneMore(updates, |nodes| - 1);
      edits := edits + 1;
      updates := updates + (if queued then 1 else 0);
      Moved@Published();
      StaysCaughtUp(old(reach), reach, applied);
    }

    /** The state vector of a replica's document. */
    method OwnVector(i: nat) returns (sv: map<nat, nat>)
      requires Contents() && i < |nodes|
      ensures i < |reach| && Spells(sv, reach[i].v) && Genuine(h, reach, Envelope(i, StateVector(sv, reach[i].v)))
    {
      hide Contents, AllGenuine, Upto, Trusted, WholeVector, SV;
      Carried();
      Has(i);
      StateVectorIsWhole(docs[i]);
      VectorReaches(reach[i].v);
      sv := docs[i].StateVector();
      StatesAreVector(docs[i].store.W(), sv);
    }

    /** `announce`, no more often than the interval allows. */
    method Announce(i: nat, now: int, interval: int, connected: bool)
      requires Valid() && i < |nodes|
      modifies this
      ensures Valid() && |nodes| == |old(nodes)| && edits == old(edits) && answered == old(answered)
      ensures updates == old(updates)
      ensures reach == old(reach) && flying == old(flying) && applied == old(applied)
      ensures announced == old(announced) +
                (if connected && now - old(nodes)[i].lastAnnounce >= interval &&
                  |old(nodes)[i].pub| < PUBLISH_QUEUE then 1 else 0)
      ensures if connected && now - old(nodes)[i].lastAnnounce >= interval then
                Announced(old(nodes), nodes, i, now, reach[i].v)
              else
                nodes == old(nodes)
    {
      hide CaughtUp, Tidy, Owed, Enqueued, Contents, AllGenuine, Genuine, Spells;
      if !connected || now - nodes[i].lastAnnounce < interval {
        return;
      }
      Carried();
      var sv := OwnVector(i);
      AnnouncedGenuine(h, reach, nodes, flying, i, now);
      ChangeOwes(nodes, flying, i, nodes[i].(lastAnnounce := now), true);
      ChangeOwes(nodes, flying, i, nodes[i].(lastAnnounce := now), false);
      nodes := nodes[i := nodes[i].(lastAnnounce := now)];
      Moved();
      label Set:
      QueuedOwes(nodes, flying, i, StateVector(sv, reach[i].v), true);
      QueuedOwes(nodes, flying, i, StateVector(sv, reach[i].v), false);
      var queued := Publish(i, StateVector(sv, reach[i].v));
      if queued {
        label Published:
        Carried();
        OneMore(announced, |nodes| - 1);
        announced := announced + 1;
        Moved@Published();
      }
    }

    /** `publishLoop`: the next envelope goes out on the bus, to every subscriber; or the bus fails
        and it is gone. */
    method Send(i: nat, failed: bool)
      requires Valid() && i < |nodes| && nodes[i].pub != []
      modifies this
      ensures Valid() && |nodes| == |old(nodes)| && edits == old(edits) && announced == old(announced)
      ensures answered == old(answered) && updates == old(updates) && applied == old(applied) && reach == old(reach)
      ensures nodes == old(nodes)[i := old(nodes)[i].(pub := old(nodes)[i].pub[1..])]
      ensures flying == old(flying) + (if failed then [] else Deliveries(old(nodes)[i].pub[0], |nodes|))
    {
      hide CaughtUp, Tidy, Owed, Deliveries, Contents, AllGenuine, Genuine;
      var env := nodes[i].pub[0];
      Carried();
      SentGenuine(h, reach, nodes, flying, i);
      SentOwes(nodes, flying, i, true);
      SentOwes(nodes, flying, i, false);
      nodes := nodes[i := nodes[i].(pub := nodes[i].pub[1..])];
      if !failed {
        flying := flying + Deliveries(env, |nodes|);
      }
      Moved();
    }

    /** The bus loses an envelope. */
    method Lose(k: nat)
      requires Valid() && k < |flying|
      modifies this`flying
      ensures Valid() && flying == old(flying)[..k] + old(flying)[k + 1..]
    {
      hide CaughtUp, Tidy, Owed, Contents, AllGenuine;
      Carried();
      LessGenuine(h, reach, nodes, flying, k);
      DeliveredOwes(nodes, flying, k, true);
      DeliveredOwes(nodes, flying, k, false);
      flying := flying[..k] + flying[k + 1..];
      Moved();
    }

    /** The bus delivers an envelope: one's own is dropped, and so is one too many; any other waits
        for the room. */
    method Deliver(k: nat)
      requires Valid() && k < |flying|
      modifies this`flying, this`nodes
      ensures Valid() && |nodes| == |old(nodes)| && flying == old(flying)[..k] + old(flying)[k + 1..]
      ensures old(flying)[k].dest < |nodes|
      ensures var d, n := old(flying)[k], old(nodes)[old(flying)[k].dest];
              nodes == if d.env.origin == d.dest || |n.remote| >= REMOTE_QUEUE then old(nodes)
                       else old(nodes)[d.dest := n.(remote := n.remote + [d.env])]
    {
      hide CaughtUp, Tidy, Owed, Contents, AllGenuine, Genuine;
      var d := flying[k];
      Carried();
      DeliveredOwes(nodes, flying, k, true);
      DeliveredOwes(nodes, flying, k, false);
      DeliveredGenuine(h, reach, nodes, flying, k);
      LessGenuine(h, reach, nodes, flying, k);
      flying := flying[..k] + flying[k + 1..];
      if d.env.origin != d.dest && |nodes[d.dest].remote| < REMOTE_QUEUE {
        nodes := nodes[d.dest := nodes[d.dest].(remote := nodes[d.dest].remote + [d.env])];
      }
      Moved();
    }

    /** An update arrives, from a client elsewhere or in answer to a state vector.  It is applied and
        goes no further.  If it answers a vector this replica announced, however long ago and
        whatever was lost, the replica has then got at least as far as the one that answered was,
        and nothing of the answer is left waiting. */
    method TakeUpdate(i: nat)
      requires Valid() && i < |nodes| && nodes[i].remote != [] && !nodes[i].remote[0].kind.StateVector?
      modifies this, docs[i], docs[i].store, docs[i].pendingDeletes
      ensures Valid() && |nodes| == |old(nodes)| && edits == old(edits) && announced == old(announced)
      ensures answered == old(answered)
      ensures nodes == old(nodes)[i := old(nodes)[i].(remote := old(nodes)[i].remote[1..])] && flying == old(flying)
      ensures updates == old(updates) && applied == old(applied) + [Delivery(i, old(nodes)[i].remote[0])]
      ensures Further(old(reach), reach)
      ensures fresh(docs[i].pendingDeletes) || docs[i].pendingDeletes == old(docs[i].pendingDeletes)
      ensures forall x | old(Advertised(docs[i], x)) || x in Asking(old(nodes)[i].remote[0].kind.update.deletes) ::
              Advertised(docs[i], x)
      ensures old(nodes)[i].remote[0].kind.Answer? ==> old(nodes)[i].remote[0].kind.told <= reach[i].deleted
      ensures var kind := old(nodes)[i].remote[0].kind;
              kind.Answer? && kind.to == i ==>
                Upto(SV(kind.w), reach[i].v) && forall t <- Received(kind.update.blocks) :: !Waits(docs[i].pending, t)
    {
      hide CaughtUp, Tidy, Owed, Contents, AllGenuine, Proper, Trusted, Grown, Received, Advertised, SV, Waits,
        AnswerOf, Asking;
      Carried();
      ReachesItself(reach);
      var env := nodes[i].remote[0];
      TakenGenuine(h, reach, nodes, flying, i);
      TakenOwes(nodes, flying, i, true);
      TakenOwes(nodes, flying, i, false);
      nodes := nodes[i := nodes[i].(remote := nodes[i].remote[1..])];
      Moved();
      Tell(i, env.kind.update);
      label Told:
      Has(i);
      if env.kind.Answer? && env.kind.to == i {
        Caught(docs[i], env.kind.w, env.kind.l, env.kind.v, env.kind.update);
      }
      Carried();
      StaysCaughtUp(old(reach), reach, applied);
      OneCaughtUp(reach, applied, Delivery(i, env));
      applied := applied + [Delivery(i, env)];
      Moved@Told();
    }

    /** A state vector arrives: it is answered, unless its sender is missing nothing. */
    method TakeVector(i: nat)
      requires Valid() && i < |nodes| && nodes[i].remote != [] && nodes[i].remote[0].kind.StateVector?
      modifies this
      ensures Valid() && |nodes| == |old(nodes)| && edits == old(edits) && announced == old(announced)
      ensures reach == old(reach)
      ensures flying == old(flying) && applied == old(applied) && old(answered) <= answered <= old(answered) + 1
      ensures updates == old(updates) +
                (if answered > old(answered) && |old(nodes)[i].pub| < PUBLISH_QUEUE then 1 else 0)
      ensures updates == old(updates) ==> nodes == old(nodes)[i := old(nodes)[i].(remote := old(nodes)[i].remote[1..])]
      ensures nodes[i].remote == old(nodes)[i].remote[1..]
      ensures answered == old(answered) <==>
              Upto(reach[i].v, old(nodes)[i].remote[0].kind.v) && reach[i].deleted == iset{}
      ensures answered > old(answered) && |old(nodes)[i].pub| < PUBLISH_QUEUE ==>
                var env, taken := old(nodes)[i].remote[0], old(nodes)[i].(remote := old(nodes)[i].remote[1..]);
                QueuesAnswer(old(nodes)[i := taken], nodes, h, i, env.origin, env.kind.v, docs[i].store.W(), docs[i].l,
                             reach[i].deleted)
    {
      hide CaughtUp, QueuesAnswer, Genuine, Tidy, Owed, Enqueued, Contents, AllGenuine, Proper, Trusted, SV, AnswerOf,
        WholeVector, Advertised, Asking;
      Carried();
      var env := nodes[i].remote[0];
      TakenGenuine(h, reach, nodes, flying, i);
      TakenOwes(nodes, flying, i, true);
      TakenOwes(nodes, flying, i, false);
      nodes := nodes[i := nodes[i].(remote := nodes[i].remote[1..])];
      Moved();
      Has(i);
      Asked(h, reach, env);
      var u := Sync.Answer(docs[i], env.kind.sv, env.kind.v);
      assert Asking(u.deletes) == reach[i].deleted;
      assert Upto(reach[i].v, env.kind.v) <==> forall c :: SV(docs[i].store.W())(c) <= env.kind.v(c);
      if u.blocks == [] && u.deletes == map[] {
        return;
      }
      Reply(i, env, u);
    }

    /** An answer goes out, if there is room for it. */
    method Reply(i: nat, env: Envelope, u: Update)
      requires Contents() && CaughtUp(reach, applied) && Tidy(nodes, flying) && i < |nodes|
      requires answered + 1 + Owed(nodes, flying, true) <= announced * (|nodes| - 1) && updates <= edits + answered
      requires |applied| + Owed(nodes, flying, false) <= updates * (|nodes| - 1)
      requires (forall d <- applied :: d.env.origin != d.dest) && env.kind.StateVector? && Genuine(h, reach, env)
      requires Proper(h, u) && AnswerOf(h, docs[i].store.W(), docs[i].l, env.kind.v, u)
      requires Asking(u.deletes) == reach[i].deleted
      modifies this`nodes, this`answered, this`updates
      ensures Valid() && |nodes| == |old(nodes)| && answered == old(answered) + 1
      ensures updates == old(updates) + (if |old(nodes)[i].pub| < PUBLISH_QUEUE then 1 else 0)
      ensures (updates == old(updates) ==> nodes == old(nodes)) && nodes[i].remote == old(nodes)[i].remote
      ensures |old(nodes)[i].pub| < PUBLISH_QUEUE ==>
                QueuesAnswer(old(nodes), nodes, h, i, env.origin, env.kind.v, docs[i].store.W(), docs[i].l,
                             reach[i].deleted)
    {
      hide CaughtUp, Genuine, Upto, Tidy, Owed, Enqueued, Contents, AllGenuine, Proper, Trusted, SV, AnswerOf;
      Carried();
      var answer := Answer(u, env.origin, env.kind.v, docs[i].store.W(), docs[i].l, reach[i].deleted);
      QueuedOwes(nodes, flying, i, answer, true);
      QueuedOwes(nodes, flying, i, answer, false);
      Answers(h, reach, env, i, u, docs[i].store.W(), docs[i].l, reach[i].deleted);
      var queued := Publish(i, answer);
      SameRemote(old(nodes), i, Envelope(i, answer));
      label Published:
      Carried();
      OneMore(updates, |nodes| - 1);
      answered := answered + 1;
      updates := updates + (if queued then 1 else 0);
      Moved@Published();
    }
  }

  /** What can happen in a cluster: an edit, an announcement, an envelope sent, lost, delivered or
      taken.  What there is nothing to do for does not happen. */
  datatype Event =
    | Edits(i: nat, update: Update) | Announces(i: nat, now: int, interval: int, connected: bool)
    | Sends(i: nat, failed: bool) | Loses(k: nat) | Delivers(k: nat) | Takes(i: nat)

  /** The edits at one of `n` replicas. */
  function EditsIn(events: seq<Event>, n: nat): nat {
    if events == [] then 0
    else
      var e := events[|events| - 1];
      EditsIn(events[..|events| - 1], n) + (if e.Edits? && e.i < n then 1 else 0)
  }

  function AnnouncesIn(events: seq<Event>): nat {
    if events == [] then 0 else AnnouncesIn(events[..|events| - 1]) + (if events[|events| - 1].Announces? then 1 else 0)
  }

  /** Any run of any number of replicas, whatever is lost, dropped and reordered: no document goes
      back; every replica advertises every deletion of what it has applied, and is at least as far as
      every document whose answer it asked for and applied; and updates do not circulate: how many have
      been applied is bounded by the edits and the announcements of the run. */
  method Run(c: Cluster, events: seq<Event>)
    requires c.Valid() && forall e <- events :: e.Edits? ==> Proper(c.h, e.update)
    modifies c, c.docs, (set d <- c.docs :: d.store), (set d <- c.docs :: d.pendingDeletes)
    ensures c.Valid() && |c.nodes| == |old(c.nodes)| && Further(old(c.reach), c.reach) && CaughtUp(c.reach, c.applied)
    ensures c.edits == old(c.edits) + EditsIn(events, |c.nodes|)
    ensures old(c.announced) <= c.announced <= old(c.announced) + AnnouncesIn(events) && old(c.applied) <= c.applied
    ensures c.updates <= c.edits + c.announced * (|c.nodes| - 1) && |c.applied| <= c.updates * (|c.nodes| - 1)
    ensures |c.applied| <= (c.edits + c.announced * (|c.nodes| - 1)) * (|c.nodes| - 1)
    ensures forall i | 0 <= i < |c.docs| :: Trusted(c.docs[i]) && ExtentOf(c.docs[i]) == c.reach[i]
  {
    hide CaughtUp, Cluster.Accounts, Cluster.Contents, Further, Proper, Trusted, SV;
    ReachesItself(c.reach);
    for n := 0 to |events|
      invariant c.Valid() && |c.nodes| == |old(c.nodes)| && Further(old(c.reach), c.reach)
      invariant forall d <- c.docs :: fresh(d.pendingDeletes) || d.pendingDeletes == old(d.pendingDeletes)
      invariant c.edits == old(c.edits) + EditsIn(events[..n], |c.nodes|)
      invariant old(c.announced) <= c.announced <= old(c.announced) + AnnouncesIn(events[..n])
      invariant old(c.applied) <= c.applied
    {
      assert events[..n + 1][..n] == events[..n];
      ghost var reach := c.reach;
      ReachesItself(reach);
      c.Carried();
      assert events[n] in events;
      Happens(c, events[n]);
      FurtherOn(old(c.reach), reach, c.reach);
    }
    assert events[..|events|] == events;
    c.Carried();
    c.Bounded();
    forall i | 0 <= i < |c.docs| { c.Has(i); }
  }

  /** The edit is queued if there is room, the announcement noted, the envelope sent, lost, delivered or
      taken. */
  ghost predicate Happened(nodes: seq<Node>, flying: seq<Delivery>, e: Event, nodes': seq<Node>, flying': seq<Delivery>)
    requires |nodes'| == |nodes|
  {
    match e
    case Edits(i, u) =>
      i < |nodes| && |nodes[i].pub| < PUBLISH_QUEUE ==> nodes' == Enqueued(nodes, i, Envelope(i, Edit(u)))
    case Announces(i, now, interval, connected) =>
      i < |nodes| && connected && now - nodes[i].lastAnnounce >= interval ==>
        exists v :: Announced(nodes, nodes', i, now, v)
    case Sends(i, failed) =>
      i < |nodes| && nodes[i].pub != [] ==>
        && nodes' == nodes[i := nodes[i].(pub := nodes[i].pub[1..])]
        && flying' == flying + (if failed then [] else Deliveries(nodes[i].pub[0], |nodes|))
    case Loses(k) => k < |flying| ==> flying' == flying[..k] + flying[k + 1..] && nodes' == nodes
    case Delivers(k) => k < |flying| ==> flying' == flying[..k] + flying[k + 1..]
    case Takes(i) => i < |nodes| && nodes[i].remote != [] ==> nodes'[i].remote == nodes[i].remote[1..]
  }

  method Happens(c: Cluster, e: Event)
    requires c.Valid() && (e.Edits? ==> Proper(c.h, e.update))
    modifies c, c.docs, (set d <- c.docs :: d.store), (set d <- c.docs :: d.pendingDeletes)
    ensures c.Valid() && |c.nodes| == |old(c.nodes)| && Further(old(c.reach), c.reach) && old(c.applied) <= c.applied
    ensures c.edits == old(c.edits) + (if e.Edits? && e.i < |c.nodes| then 1 else 0)
    ensures Happened(old(c.nodes), old(c.flying), e, c.nodes, c.flying)
    ensures old(c.announced) <= c.announced <= old(c.announced) + (if e.Announces? then 1 else 0)
    ensures forall d <- c.docs :: fresh(d.pendingDeletes) || d.pendingDeletes == old(d.pendingDeletes)
  {
    hide CaughtUp, Cluster.Accounts, Cluster.Contents, Further, Proper, Trusted, SV, Received, Enqueued, Announced,
      QueuesAnswer, Deliveries;
    ReachesItself(c.reach);
    c.Carried();
    match e
    case Edits(i, u) => if i < |c.nodes| { c.LocalUpdate(i, u); }
    case Announces(i, now, interval, connected) => if i < |c.nodes| { c.Announce(i, now, interval, connected); }
    case Sends(i, failed) => if i < |c.nodes| && c.nodes[i].pub != [] { c.Send(i, failed); }
    case Loses(k) => if k < |c.flying| { c.Lose(k); }
    case Delivers(k) => if k < |c.flying| { c.Deliver(k); }
    case Takes(i) =>
      if i < |c.nodes| && c.nodes[i].remote != [] {
        if c.nodes[i].remote[0].kind.StateVector? {
          c.TakeVector(i);
        } else {
          c.TakeUpdate(i);
        }
      }
  }

  function Enqueued(nodes: seq<Node>, i: nat, env: Envelope): seq<Node>
    requires i < |nodes|
  {
    nodes[i := nodes[i].(pub := nodes[i].pub + [env])]
  }

  lemma SameRemote(nodes: seq<Node>, i: nat, env: Envelope)
    requires i < |nodes|
    ensures |Enqueued(nodes, i, env)| == |nodes| && Enqueued(nodes, i, env)[i].remote == nodes[i].remote
  {
  }

  lemma ChangeOwes(nodes: seq<Node>, flying: seq<Delivery>, i: nat, n: Node, vectors: bool)
    requires i < |nodes| && Tidy(nodes, flying) && n.pub == nodes[i].pub && n.remote == nodes[i].remote
    ensures Tidy(nodes[i := n], flying) && Owed(nodes[i := n], flying, vectors) == Owed(nodes, flying, vectors)
  {
    hide ToTake, ToSend, Flying;
    OneNodeChanges(nodes, i, n, vectors);
    TidyChanges(nodes, flying, i, n);
  }

  lemma TidyChanges(nodes: seq<Node>, flying: seq<Delivery>, i: nat, n: Node)
    requires i < |nodes| && Tidy(nodes, flying) && NodeTidy(n, i)
    ensures Tidy(nodes[i := n], flying)
  {
    hide NodeTidy;
  }

  lemma QueuedOwes(nodes: seq<Node>, flying: seq<Delivery>, i: nat, kind: Kind, vectors: bool)
    requires i < |nodes| && Tidy(nodes, flying)
    ensures var nodes' := Enqueued(nodes, i, Envelope(i, kind));
            && |nodes'| == |nodes| && Tidy(nodes', flying)
            && Owed(nodes', flying, vectors) ==
               Owed(nodes, flying, vectors) + (if kind.StateVector? == vectors then |nodes| - 1 else 0)
  {
    hide ToTake, ToSend, Flying, Queued;
    var env := Envelope(i, kind);
    QueuedConcat(nodes[i].pub, [env], vectors);
    QueuedOne(env, vectors);
    var n := nodes[i].(pub := nodes[i].pub + [env]);
    OneNodeChanges(nodes, i, n, vectors);
    OneMore(ToSend(nodes, vectors), |nodes| - 1);
    assert NodeTidy(nodes[i], i);
    TidyChanges(nodes, flying, i, n);
  }

  lemma SentOwes(nodes: seq<Node>, flying: seq<Delivery>, i: nat, vectors: bool)
    requires i < |nodes| && Tidy(nodes, flying) && nodes[i].pub != []
    ensures var nodes' := nodes[i := nodes[i].(pub := nodes[i].pub[1..])];
            var more := flying + Deliveries(nodes[i].pub[0], |nodes|);
            && Tidy(nodes', flying) && Tidy(nodes', more)
            && Owed(nodes', flying, vectors) <= Owed(nodes, flying, vectors)
            && Owed(nodes', more, vectors) <= Owed(nodes, flying, vectors)
  {
    hide Flying, Deliveries, ToTake, ToSend, Queued;
    var env, n := nodes[i].pub[0], nodes[i].(pub := nodes[i].pub[1..]);
    assert NodeTidy(nodes[i], i) && env in nodes[i].pub;
    TakeFirst(nodes[i].pub, vectors);
    OneNodeChanges(nodes, i, n, vectors);
    TidyChanges(nodes, flying, i, n);
    DeliveriesFly(env, |nodes|, vectors);
    FlyingConcat(flying, Deliveries(env, |nodes|), vectors);
    if Counts(env, vectors) { OneMore(ToSend(nodes, vectors) - 1, |nodes| - 1); }
  }

  lemma DeliveredOwes(nodes: seq<Node>, flying: seq<Delivery>, k: nat, vectors: bool)
    requires k < |flying| && Tidy(nodes, flying)
    ensures var d, rest := flying[k], flying[..k] + flying[k + 1..];
            && d.dest < |nodes| && Tidy(nodes, rest) && Owed(nodes, rest, vectors) <= Owed(nodes, flying, vectors)
            && (d.env.origin != d.dest ==>
                  var nodes' := nodes[d.dest := nodes[d.dest].(remote := nodes[d.dest].remote + [d.env])];
                  Tidy(nodes', rest) && Owed(nodes', rest, vectors) <= Owed(nodes, flying, vectors))
  {
    hide Flying, ToTake, ToSend, Queued;
    var d, rest := flying[k], flying[..k] + flying[k + 1..];
    assert d in flying;
    FlyingWithout(flying, k, vectors);
    assert Tidy(nodes, rest);
    if d.env.origin != d.dest {
      var n := nodes[d.dest].(remote := nodes[d.dest].remote + [d.env]);
      QueuedConcat(nodes[d.dest].remote, [d.env], vectors);
      QueuedOne(d.env, vectors);
      OneNodeChanges(nodes, d.dest, n, vectors);
      assert NodeTidy(nodes[d.dest], d.dest);
      TidyChanges(nodes, rest, d.dest, n);
    }
  }

  lemma TakenOwes(nodes: seq<Node>, flying: seq<Delivery>, i: nat, vectors: bool)
    requires i < |nodes| && Tidy(nodes, flying) && nodes[i].remote != []
    ensures var nodes' := nodes[i := nodes[i].(remote := nodes[i].remote[1..])];
            && Tidy(nodes', flying) && nodes[i].remote[0].origin != i
            && Owed(nodes', flying, vectors) ==
               Owed(nodes, flying, vectors) - (if nodes[i].remote[0].kind.StateVector? == vectors then 1 else 0)
  {
    hide Flying, ToTake, ToSend, Queued;
    var n := nodes[i].(remote := nodes[i].remote[1..]);
    assert NodeTidy(nodes[i], i) && nodes[i].remote[0] in nodes[i].remote;
    TakeFirst(nodes[i].remote, vectors);
    OneNodeChanges(nodes, i, n, vectors);
    TidyChanges(nodes, flying, i, n);
  }

  /** New documents, apart from each other. */
  method Documents(ghost h: History, n: nat) returns (docs: seq<Doc>, ghost reach: seq<Extent>)
    requires Honest(h)
    ensures |docs| == n == |reach|
    ensures forall i | 0 <= i < n :: docs[i].h == h && Trusted(docs[i]) && reach[i] == ExtentOf(docs[i])
    ensures forall d <- docs :: fresh(d) && fresh(d.store) && fresh(d.pendingDeletes)
    ensures forall i, j | 0 <= i < n && 0 <= j < n && i != j :: Apart(docs[i], docs[j])
  {
    hide Trusted, Honest, Doc.Valid, Doc.Settled, SV;
    docs, reach := [], [];
    HonestIsLawful(h);
    while |docs| < n
      invariant |docs| == |reach| <= n
      invariant forall i | 0 <= i < |docs| :: docs[i].h == h && Trusted(docs[i]) && reach[i] == ExtentOf(docs[i])
      invariant forall d <- docs :: fresh(d) && fresh(d.store) && fresh(d.pendingDeletes)
      invariant forall i, j | 0 <= i < |docs| && 0 <= j < |docs| && i != j :: Apart(docs[i], docs[j])
    {
      var d := new Doc(h);
      NewIsTrusted(d);
      docs, reach := docs + [d], reach + [ExtentOf(d)];
    }
  }

  lemma {:induction false} NothingToDo(nodes: seq<Node>, vectors: bool)
    requires forall n <- nodes :: n.remote == [] && n.pub == []
    ensures ToTake(nodes, vectors) == 0 && ToSend(nodes, vectors) == 0
  {
    if nodes != [] {
      var n := nodes[|nodes| - 1];
      assert n in nodes;
      NothingToDo(nodes[..|nodes| - 1], vectors);
    }
  }

  lemma NothingThere(nodes: seq<Node>)
    requires forall n <- nodes :: n.remote == [] && n.pub == []
    ensures Flying([], true) == 0 == Flying([], false) && forall i | 0 <= i < |nodes| :: NodeTidy(nodes[i], i)
  {
    assert forall i | 0 <= i < |nodes| :: nodes[i] in nodes;
  }

  lemma Times(a: nat, b: nat, k: nat)
    requires a <= b
    ensures a * k <= b * k
  {
  }

  lemma OneMore(a: nat, k: nat)
    ensures (a + 1) * k == a * k + k
  {
  }
}
