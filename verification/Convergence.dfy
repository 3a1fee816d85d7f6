/**
  Documents that integrate the operations of an honest history: nothing is lost, nothing is
  collected that is referred to, every list is in the reference order, and two documents that
  have got equally far are the same document.
*/
module Convergence {
  import opened Ids
  import opened Structs
  import opened Yata
  import opened Items
  import opened Placing
  import opened Store
  import opened Schedules
  import opened Histories
  import opened Steps

  /** Every operation whose clock has been passed is stored as a live unit. */
  ghost predicate LiveAll(h: History, w: World) {
    forall x {:trigger x in w.nodes} | x in h && x.clock < State(w.items, w.clients, x.client) :: x in w.nodes
  }

  ghost predicate OrderedAll(w: World) {
    forall k :: Ordered(Order(w, k))
  }

  /** What an honest history makes of a document. */
  ghost predicate Faithful(h: History, w: World) {
    LiveAll(h, w) && OrderedAll(w)
  }

  /** A client's last unit, if live, is not the first half of a pair. */
  lemma LastNotHigh(w: World, x: ID)
    requires Sane(w) && x in w.nodes && x.clock + 1 == State(w.items, w.clients, x.client)
    ensures x in w.facts && w.facts[x].cell.half != High
  {
    SaneNode(w, x);
    var q :| 0 <= q < |w.items| && Within(w.items[q].id, w.items[q].Len(), x);
    var a := HeldSlot(w, q, x);
    SaneItem(w, q);
    SaneSlot(w, x.client);
    hide Sane;
    StopsIncrease(w.items, x.client, w.clients[x.client], a, |w.clients[x.client]| - 1);
  }

  lemma NeverLost(h: History, w: World, s: Struct, offset: nat)
    requires Sane(w) && Agrees(h, w) && LiveAll(h, w) && Fits(h, s) && offset < s.Len()
    requires s.id.clock + offset == State(w.items, w.clients, s.id.client)
    ensures !Lost(w, s, offset)
  {
    if s.Item? && offset > 0 {
      assert UnitFits(h, s, offset - 1);
      LastNotHigh(w, At(s.id, offset - 1));
    }
  }

  /** A referred-to unit that has been passed is there to attach to. */
  lemma AlwaysAttachable(h: History, w: World, s: Struct, offset: nat)
    requires Sane(w) && Honest(h) && Agrees(h, w) && LiveAll(h, w) && Fits(h, s) && s.Item? && offset < s.Len()
    requires s.id.clock + offset == State(w.items, w.clients, s.id.client) && Satisfied(SV(w), s)
    ensures Attachable(w, s)
  {
    SaneKeys(w);
    hide Sane, State;
    assert UnitFits(h, s, 0) && At(s.id, 0) == s.id;
    assert HonestAt(h, s.id);
    if s.origin.Some? { assert s.origin.value in w.nodes && AgreesAt(h, w, s.origin.value); }
    if s.right.Some? { assert s.right.value in w.nodes && AgreesAt(h, w, s.right.value); }
    if OwnerID(s.parent).Some? {
      assert OwnerID(s.parent).value in w.nodes && AgreesAt(h, w, OwnerID(s.parent).value);
    }
  }

  lemma StepLiveAll(h: History, w: World, w': World, s: Struct, offset: nat)
    requires LiveAll(h, w) && Clean(h, s) && Stepped(h, w, w', s, offset)
    requires s.id.clock + offset == State(w.items, w.clients, s.id.client)
    requires !Lost(w, s, offset) && (s.Item? ==> Attachable(w, s))
    ensures LiveAll(h, w')
  {
    hide Order, State, InsertAll, Yata.IsRun, DescribedRun, FactsExtend, Attachable, Lost;
    forall x | x in h && x.clock < State(w'.items, w'.clients, x.client)
      ensures x in w'.nodes
    {
      StepMoves(h, w, w', s, offset, x.client);
      if x.clock >= State(w.items, w.clients, x.client) {
        var j: nat := x.clock - At(s.id, offset).clock;
        assert x == At(At(s.id, offset), j);
        assert Within(s.id, s.Len(), x);
      }
    }
  }

  /** The units of a new item find their neighbours in the list. */
  lemma RunIsReady(h: History, w: World, s: Struct, offset: nat)
    requires Sane(w) && Honest(h) && Agrees(h, w) && Fits(h, s) && s.Item? && offset < s.Len()
    requires s.id.clock + offset == State(w.items, w.clients, s.id.client)
    requires Attachable(w, s) && !Lost(w, s, offset)
    ensures s.id in h
    ensures var o, t, k := NodeOf(w, OriginAt(s, offset), Start), NodeOf(w, s.right, End), h[s.id].parent;
            var run := DescribedRun(At(s.id, offset), o, t, s.Len() - offset);
            Ready(Order(w, k), run[0]) && forall n <- run :: WellPlaced(n)
  {
    SaneKeys(w);
    hide Sane, Order, State;
    var o, t := NodeOf(w, OriginAt(s, offset), Start), NodeOf(w, s.right, End);
    assert UnitFits(h, s, offset) && UnitFits(h, s, 0);
    assert LawfulAt(h, At(s.id, offset)) && HonestAt(h, At(s.id, offset));
    var k := h[s.id].parent;
    if OriginAt(s, offset).Some? { NeighbourListed(h, w, OriginAt(s, offset).value, k); }
    if s.right.Some? { NeighbourListed(h, w, s.right.value, k); }
    var run := DescribedRun(At(s.id, offset), o, t, s.Len() - offset);
    OrderDistinct(w, k);
    forall n | n in Order(w, k) && n.id.client == s.id.client
      ensures n.id.clock < s.id.clock + offset
    {
      StoredBelow(w, n);
    }
    forall n | n in run
      ensures WellPlaced(n)
    {
      var j :| 0 <= j < |run| && run[j] == n;
      RunDescribed(h, w, s, offset, j);
    }
  }

  lemma StoredBelow(w: World, n: Node)
    requires Sane(w) && Known(w.nodes, n)
    ensures n.id.clock < State(w.items, w.clients, n.id.client)
  {
    SaneNode(w, n.id);
  }

  lemma NeighbourListed(h: History, w: World, x: ID, k: Owner)
    requires Sane(w) && Agrees(h, w) && x in w.nodes && x in h && h[x].parent == k
    ensures Known(w.nodes, w.nodes[x]) && w.nodes[x] in Order(w, k)
  {
    assert AgreesAt(h, w, x);
    UnitInItsList(w, w.nodes[x]);
  }

  lemma {:induction false} RunDescribed(h: History, w: World, s: Struct, offset: nat, j: nat)
    requires Sane(w) && Agrees(h, w) && Fits(h, s) && s.Item? && offset + j < s.Len() && Attachable(w, s)
    requires !Lost(w, s, offset)
    ensures Describes(h, Described(At(s.id, offset), NodeOf(w, OriginAt(s, offset), Start), NodeOf(w, s.right, End), j))
  {
    SaneKeys(w);
    assert UnitFits(h, s, offset + j);
    assert At(At(s.id, offset), j) == At(s.id, offset + j);
    if s.right.Some? {
      assert AgreesAt(h, w, s.right.value);
      StoredIsDescribed(h, w, w.nodes[s.right.value]);
    }
    if j > 0 {
      RunDescribed(h, w, s, offset, j - 1);
    } else if OriginAt(s, offset).Some? {
      assert AgreesAt(h, w, OriginAt(s, offset).value);
      StoredIsDescribed(h, w, w.nodes[OriginAt(s, offset).value]);
    }
  }

  /** Lists stay in the reference order. */
  lemma StepOrdered(h: History, w: World, w': World, s: Struct, offset: nat)
    requires Sane(w) && Honest(h) && Agrees(h, w) && Faithful(h, w) && Fits(h, s) && Stepped(h, w, w', s, offset)
    requires s.id.clock + offset == State(w.items, w.clients, s.id.client)
    requires !Lost(w, s, offset) && (s.Item? ==> Attachable(w, s))
    ensures OrderedAll(w')
  {
    hide Sane, Order, State, InsertAll, Ordered, Yata.IsRun, DescribedRun, Extends, FactsExtend, Attachable, Lost,
      Honest, Agrees, Fits;
    if s.Item? {
      RunIsReady(h, w, s, offset);
      RunInOrder(w, w', At(s.id, offset), NodeOf(w, OriginAt(s, offset), Start), NodeOf(w, s.right, End),
                 h[s.id].parent, From(s.content, offset), s.content.kind == Tombstone || OwnerGone(w, h[s.id].parent));
    }
  }

  lemma RunInOrder(w: World, w': World, id: ID, o: Node, t: Node, k: Owner, content: Content, dead: bool)
    requires Integrated(w, w', id, o, t, k, content, dead) && OrderedAll(w)
    requires var run := DescribedRun(id, o, t, |content.cells|);
             run != [] && Ready(Order(w, k), run[0]) && forall n <- run :: WellPlaced(n)
    ensures OrderedAll(w')
  {
    hide Order, State, InsertAll, Ordered, Yata.IsRun, WellPlaced, Ready;
    var run := DescribedRun(id, o, t, |content.cells|);
    forall j | 0 <= j < |run|
      ensures WellPlaced(run[j]) && run[j].right == run[0].right && run[j].id == At(id, j)
    {
      assert run[j] in run;
    }
    RunKeepsOrder(Order(w, k), run);
    forall p
      ensures Ordered(Order(w', p))
    {
      if p != k { assert Ordered(Order(w, p)); }
    }
  }

  /** A step of a struct of an honest history keeps the document faithful to it. */
  lemma StepFaithful(h: History, w: World, w': World, s: Struct, offset: nat)
    requires Sane(w) && Honest(h) && Agrees(h, w) && Faithful(h, w) && Clean(h, s) && Stepped(h, w, w', s, offset)
    requires s.id.clock + offset == State(w.items, w.clients, s.id.client) && Satisfied(SV(w), s)
    ensures !Lost(w, s, offset) && Faithful(h, w')
  {
    hide Sane, Stepped, Order, State, Attachable, Lost, Honest, Agrees, LiveAll, OrderedAll, Fits;
    StepShape(h, w, w', s, offset);
    NeverLost(h, w, s, offset);
    if s.Item? { AlwaysAttachable(h, w, s, offset); }
    StepLiveAll(h, w, w', s, offset);
    StepOrdered(h, w, w', s, offset);
  }

  lemma StepShape(h: History, w: World, w': World, s: Struct, offset: nat)
    requires Stepped(h, w, w', s, offset)
    ensures offset < s.Len()
  {
  }
}
