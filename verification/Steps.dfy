/**
  What integrating one struct does to a document, and what every such step keeps.
*/
module Steps {
  import opened Ids
  import opened Structs
  import opened Yata
  import opened Items
  import opened Placing
  import opened Store
  import opened Histories

  lemma ResplitAgrees(h: History, w: World, w': World)
    requires Resplit(w, w') && Agrees(h, w)
    ensures Agrees(h, w')
  {
    forall x | x in w'.nodes
      ensures AgreesAt(h, w', x)
    {
      assert AgreesAt(h, w, x);
    }
  }

  lemma ResplitTrans(a: World, b: World, c: World)
    requires Resplit(a, b) && Resplit(b, c)
    ensures Resplit(a, c)
  {
    hide Finer;
    FinerOn(a.items, b.items, c.items);
  }

  /** The origin of the first unit that is new. */
  function OriginAt(s: Struct, offset: nat): Option<ID>
    requires s.Item?
  {
    if offset == 0 then s.origin else Some(At(s.id, offset - 1))
  }

  /** What integrating the part of `s` from `offset` on does. */
  ghost predicate Stepped(h: History, w: World, w': World, s: Struct, offset: nat) {
    && !s.Skip? && offset < s.Len()
    && if Lost(w, s, offset) then Resplit(w, w')
       else if s.GC? || !Attachable(w, s) then Buried(w, w', At(s.id, offset), s.Len() - offset)
       else
         && s.id in h
         && Integrated(w, w', At(s.id, offset), NodeOf(w, OriginAt(s, offset), Start), NodeOf(w, s.right, End),
                       h[s.id].parent, From(s.content, offset),
                       s.content.kind == Tombstone || OwnerGone(w, h[s.id].parent))
  }

  /** Items cut in two beforehand make no difference. */
  lemma ResplitStepped(h: History, a: World, b: World, c: World, s: Struct, offset: nat)
    requires Sane(a) && Sane(b) && Resplit(a, b) && Stepped(h, b, c, s, offset)
    ensures Stepped(h, a, c, s, offset)
  {
    hide Sane, Order, State, Integrated;
    if Lost(a, s, offset) { ResplitTrans(a, b, c); }
    if s.Item? && Attachable(a, s) && !Lost(a, s, offset) {
      ResplitIntegrated(a, b, c, At(s.id, offset), NodeOf(a, OriginAt(s, offset), Start), NodeOf(a, s.right, End),
        h[s.id].parent,
                        From(s.content, offset), s.content.kind == Tombstone || OwnerGone(a, h[s.id].parent));
    }
  }

  lemma ResplitIntegrated(a: World, b: World, c: World, id: ID, o: Node, t: Node, parent: Owner, content: Content,
                          dead: bool)
    requires Sane(a) && Sane(b) && Resplit(a, b) && Integrated(b, c, id, o, t, parent, content, dead)
    ensures Integrated(a, c, id, o, t, parent, content, dead)
  {
    hide Sane, Order, State, InsertAll, IsRun, DescribedRun, Extends, FactsExtend, Marks, Place;
    ResplitWoven(a, b, c, id, o, t, parent, content);
    ResplitMarks(a, b, c.gone, id, |content.cells|, parent, Rightmost(b, parent, Described(id, o, t, 0)), dead);
  }

  lemma ResplitWoven(a: World, b: World, c: World, id: ID, o: Node, t: Node, parent: Owner, content: Content)
    requires Resplit(a, b) && Woven(b, c, id, o, t, parent, content)
    ensures Woven(a, c, id, o, t, parent, content)
  {
    hide Order, State, InsertAll, IsRun, DescribedRun, Extends, FactsExtend;
  }

  lemma ResplitMarks(a: World, b: World, gone': set<ID>, id: ID, len: nat, parent: Owner, rightmost: bool, dead: bool)
    requires Sane(a) && Sane(b) && Resplit(a, b) && Marks(b, gone', id, len, parent, rightmost, dead)
    ensures Marks(a, gone', id, len, parent, rightmost, dead)
  {
    hide Sane, Order, State, LastIds, Finer;
    ResplitLast(a, b, parent);
  }

  /** The last item after cutting is part of the last item before. */
  lemma ResplitLast(a: World, b: World, k: Owner)
    requires Sane(a) && Sane(b) && Resplit(a, b)
    ensures LastIds(b, k) <= LastIds(a, k)
  {
    hide Sane, Order, State, ListOf, IdsOf, PartOf;
    var s, t := ListOf(a, k), ListOf(b, k);
    if t != [] {
      LastOfOrder(b, k);
      EmptyOrder(a, k);
      LastOfOrder(a, k);
      var it, last := b.items[t[|t| - 1]], a.items[s[|s| - 1]];
      PartWithSameEnd(a, s[|s| - 1], it.id, it.Len());
      ContainedIds(it, last);
    }
  }

  /** A part that ends where an item ends lies in that item. */
  lemma PartWithSameEnd(w: World, r: Ref, id: ID, len: nat)
    requires Sane(w) && r < |w.items| && w.items[r].Len() > 0 && len > 0 && PartOf(w.items, id, len)
    requires At(id, len - 1) == At(w.items[r].id, w.items[r].Len() - 1)
    ensures w.items[r].id.client == id.client && w.items[r].id.clock <= id.clock
  {
    hide Sane;
    var q :| 0 <= q < |w.items| && w.items[q].id.client == id.client && w.items[q].id.clock <= id.clock &&
      id.clock + len <= w.items[q].id.clock + w.items[q].Len();
    ItemsDisjoint(w, q, r, id.clock + len - 1 - w.items[q].id.clock, w.items[r].Len() - 1);
  }

  lemma ContainedIds(it: Item, last: Item)
    requires it.id.client == last.id.client && last.id.clock <= it.id.clock
    requires it.id.clock + it.Len() == last.id.clock + last.Len()
    ensures IdsOf(it) <= IdsOf(last)
  {
    forall x <- IdsOf(it)
      ensures x in IdsOf(last)
    {
      assert x == At(last.id, x.clock - last.id.clock);
    }
  }

  lemma BuriedStepped(h: History, w: World, w': World, s: Struct, offset: nat)
    requires s.GC? && offset < s.Len() && Buried(w, w', At(s.id, offset), s.Len() - offset)
    ensures Stepped(h, w, w', s, offset)
  {
  }

  lemma BuriedAgrees(h: History, w: World, w': World, id: ID, len: nat)
    requires Buried(w, w', id, len) && Agrees(h, w)
    ensures Agrees(h, w')
  {
    hide Order, State;
    forall x | x in w'.nodes
      ensures AgreesAt(h, w', x)
    {
      assert AgreesAt(h, w, x);
    }
  }

  /** What is stored of a struct that fits the history agrees with it. */
  lemma IntegratedAgrees(h: History, w: World, w': World, s: Struct, offset: nat)
    requires Agrees(h, w) && Fits(h, s) && s.Item? && Stepped(h, w, w', s, offset) && Attachable(w, s)
    requires w.facts.Keys == w.nodes.Keys
    ensures Agrees(h, w')
  {
    hide Order, State, InsertAll, Yata.IsRun, DescribedRun;
    if Lost(w, s, offset) {
      ResplitAgrees(h, w, w');
    } else {
      var id, o, t := At(s.id, offset), NodeOf(w, OriginAt(s, offset), Start), NodeOf(w, s.right, End);
      forall x | x in w'.nodes
        ensures AgreesAt(h, w', x)
      {
        if x in w.nodes {
          assert AgreesAt(h, w, x);
        } else {
          var j: nat := x.clock - id.clock;
          assert x == At(id, j) && x == At(s.id, offset + j);
          assert UnitFits(h, s, offset + j);
          if j == 0 { NeighbourNamed(h, w, OriginAt(s, offset), Start); }
          NeighbourNamed(h, w, s.right, End);
        }
      }
    }
  }

  lemma NeighbourNamed(h: History, w: World, x: Option<ID>, edge: Node)
    requires Agrees(h, w) && (x.Some? ==> x.value in w.nodes) && !edge.Elem?
    ensures Items.Names(x, NodeOf(w, x, edge), edge)
  {
    if x.Some? { assert AgreesAt(h, w, x.value); }
  }

  // ---------------------------------------------------------------- what every step keeps

  /** Later: nothing stored changes, deletions stay, no client falls back, and no list is
      reordered (cut down to the earlier units it is the earlier list). */
  ghost predicate Grown(w: World, w': World) {
    && (forall x <- w.nodes :: x in w'.nodes && w'.nodes[x] == w.nodes[x])
    && (forall x <- w'.nodes :: x in w.nodes || x.clock >= State(w.items, w.clients, x.client))
    && (forall x <- w.facts :: x in w'.facts && w'.facts[x] == w.facts[x])
    && w.gone <= w'.gone
    && (forall c :: State(w.items, w.clients, c) <= State(w'.items, w'.clients, c))
    && (forall k :: Restrict(Order(w', k), Elements(Order(w, k))) == Order(w, k))
  }

  lemma GrownReflexive(w: World, w': World)
    requires Resplit(w, w')
    ensures Grown(w, w')
  {
    hide Order, State, Restrict;
    forall k
      ensures Restrict(Order(w', k), Elements(Order(w, k))) == Order(w, k)
    {
      RestrictAll(Order(w, k), Elements(Order(w, k)));
    }
  }

  lemma GrownTransitive(a: World, b: World, c: World)
    requires Grown(a, b) && Grown(b, c)
    ensures Grown(a, c)
  {
    hide Order, State, Restrict;
    forall x <- c.nodes
      ensures x in a.nodes || x.clock >= State(a.items, a.clients, x.client)
    {
      assert State(a.items, a.clients, x.client) <= State(b.items, b.clients, x.client);
    }
    forall k
      ensures Restrict(Order(c, k), Elements(Order(a, k))) == Order(a, k)
    {
      RestrictElements(Order(b, k), Elements(Order(a, k)));
      RestrictTwice(Order(c, k), Elements(Order(a, k)), Elements(Order(b, k)));
    }
  }

  lemma BuriedGrows(w: World, w': World, id: ID, len: nat)
    requires Buried(w, w', id, len) && id.clock == State(w.items, w.clients, id.client)
    ensures Grown(w, w')
  {
    hide Order, State, Restrict;
    forall k
      ensures Restrict(Order(w', k), Elements(Order(w, k))) == Order(w, k)
    {
      RestrictAll(Order(w, k), Elements(Order(w, k)));
    }
  }

  lemma IntegratedGrows(w: World, w': World, id: ID, o: Node, t: Node, parent: Owner, content: Content, dead: bool)
    requires Sane(w) && Integrated(w, w', id, o, t, parent, content, dead)
    requires id.clock == State(w.items, w.clients, id.client)
    ensures Grown(w, w')
  {
    hide Sane, Order, State, Restrict, Yata.IsRun, InsertAll;
    var run := DescribedRun(id, o, t, |content.cells|);
    forall k
      ensures Restrict(Order(w', k), Elements(Order(w, k))) == Order(w, k)
    {
      RestrictAll(Order(w, k), Elements(Order(w, k)));
      if k == parent {
        OrderDistinct(w, k);
        forall x | x in run
          ensures x !in Elements(Order(w, k))
        {
          var j :| 0 <= j < |run| && run[j] == x;
          assert Within(id, |content.cells|, At(id, j)) && At(id, j) !in w.nodes;
        }
        RestrictInsertAll(Order(w, k), run, Elements(Order(w, k)));
      }
    }
  }

  /** Integrating a struct only adds. */
  lemma StepGrows(h: History, w: World, w': World, s: Struct, offset: nat)
    requires Sane(w) && Stepped(h, w, w', s, offset) && s.id.clock + offset == State(w.items, w.clients, s.id.client)
    ensures Grown(w, w')
  {
    hide Sane, Order, State, Grown, Integrated, Buried, Resplit;
    if Lost(w, s, offset) {
      GrownReflexive(w, w');
    } else if s.GC? || !Attachable(w, s) {
      BuriedGrows(w, w', At(s.id, offset), s.Len() - offset);
    } else {
      IntegratedGrows(w, w', At(s.id, offset), NodeOf(w, OriginAt(s, offset), Start), NodeOf(w, s.right, End),
                      h[s.id].parent, From(s.content, offset), s.content.kind == Tombstone ||
                        OwnerGone(w, h[s.id].parent));
    }
  }

  /** A step that is not lost takes the client to the end of the struct, and no other client
      anywhere; a lost one moves nobody. */
  lemma StepMoves(h: History, w: World, w': World, s: Struct, offset: nat, c: nat)
    requires Stepped(h, w, w', s, offset)
    ensures SV(w')(c) == if c == s.id.client && !Lost(w, s, offset) then s.End() else SV(w)(c)
  {
    hide Sane, Order, State, InsertAll, Yata.IsRun, DescribedRun, Extends, FactsExtend;
  }

  // ---------------------------------------------------------------- born deleted

  /** The list of a root type, or one that hangs off an item that is not deleted. */
  ghost predicate Living(w: World, k: Owner) {
    k.holder.Nested? ==> k.holder.item !in w.gone
  }

  /** A unit that integration itself may mark deleted: it carries no content, its list hangs off
      an item that is deleted, or it is an entry of a key. */
  ghost predicate Born(w: World, x: ID) {
    x in w.facts && (w.facts[x].kind == Tombstone || !Living(w, w.facts[x].parent) || w.facts[x].parent.Keyed())
  }

  ghost predicate TombstonesGone(w: World) {
    forall x <- w.facts :: w.facts[x].kind == Tombstone ==> x in w.gone
  }

  /** What integration marks among the new units: those without content and those under a deleted
      item; and in a list without keys no others. */
  lemma StepBears(h: History, w: World, w': World, s: Struct, offset: nat)
    requires Stepped(h, w, w', s, offset)
    ensures forall x <- w'.facts | x !in w.facts ::
              var f := w'.facts[x];
              var dead := f.kind == Tombstone || (f.parent.holder.Nested? && f.parent.holder.item in w.gone);
              (dead ==> x in w'.gone) && (!f.parent.Keyed() ==> (x in w'.gone <==> dead))
  {
    hide Sane, Order, State, InsertAll, Yata.IsRun, DescribedRun, Extends, Attachable, Lost, Place;
    if !Lost(w, s, offset) && s.Item? && Attachable(w, s) {
      var id := At(s.id, offset);
      forall x <- w'.facts | x !in w.facts
        ensures x.clock >= id.clock && x == At(id, x.clock - id.clock) && Within(id, s.Len() - offset, x)
      {
      }
    }
  }

  /** Integration marks every unit without content and every new one under a deleted item, and nothing
      that does not call for it. */
  lemma StepMarks(h: History, w: World, w': World, s: Struct, offset: nat)
    requires Stepped(h, w, w', s, offset) && TombstonesGone(w)
    ensures TombstonesGone(w') && forall x <- w'.gone :: x in w.gone || Born(w', x)
    ensures forall x <- w'.facts | x !in w.facts ::
              var f := w'.facts[x];
              var dead := f.kind == Tombstone || (f.parent.holder.Nested? && f.parent.holder.item in w.gone);
              (dead ==> x in w'.gone) && (!f.parent.Keyed() ==> (x in w'.gone <==> dead))
  {
    hide Sane, Order, State, InsertAll, Yata.IsRun, DescribedRun, Extends, Attachable, Lost, Place;
    StepBears(h, w, w', s, offset);
    if !Lost(w, s, offset) && s.Item? && Attachable(w, s) {
      var id, content := At(s.id, offset), From(s.content, offset);
      forall x <- w'.facts | w'.facts[x].kind == Tombstone
        ensures x in w'.gone
      {
        if x !in w.facts {
          var j: nat := x.clock - id.clock;
          assert x == At(id, j);
        }
      }
      forall x <- w'.gone
        ensures x in w.gone || Born(w', x)
      {
        if Within(id, |content.cells|, x) {
          var j: nat := x.clock - id.clock;
          assert x == At(id, j);
        }
      }
    }
  }

  // ---------------------------------------------------------------- the entries of a key

  /** `x` is the rightmost entry of a key: its value. */
  ghost predicate LastEntry(w: World, k: Owner, x: ID) {
    var u := Order(w, k);
    k.Keyed() && u != [] && u[|u| - 1].Elem? && u[|u| - 1].id == x
  }

  /** The unit never had content, or hangs off an item that is deleted. */
  ghost predicate Excused(w: World, x: ID) {
    x in w.facts && (w.facts[x].kind == Tombstone || !Living(w, w.facts[x].parent))
  }

  /** Integration does not mark the value of a key, unless it never had content or hangs off an
      item that is deleted. */
  ghost predicate ValuesSpared(w: World, w': World) {
    forall k, x {:trigger LastEntry(w', k, x)} | LastEntry(w', k, x) && x in w'.gone ::
      (LastEntry(w, k, x) && x in w.gone) || Excused(w', x)
  }

  /** Every entry of a key but the rightmost is deleted. */
  ghost predicate OneValue(w: World, k: Owner) {
    forall i | 0 <= i < |Order(w, k)| - 1 :: Order(w, k)[i].Elem? && Order(w, k)[i].id in w.gone
  }

  ghost predicate OneValueEach(w: World) {
    forall k: Owner | k.Keyed() :: OneValue(w, k)
  }

  /** Where the new units are. */
  lemma WovenOrder(w: World, w': World, id: ID, o: Node, t: Node, k: Owner, content: Content)
    requires Sane(w) && Woven(w, w', id, o, t, k, content)
    ensures var u, run, x := Order(w, k), DescribedRun(id, o, t, |content.cells|), Described(id, o, t, 0);
            && run != [] && (forall n <- u :: n.Elem?) && (o == Start || o in u)
            && var d := Place(u, x);
               && Order(w', k) == u[..d] + run + u[d..]
               && (Rightmost(w, k, x) <==> d == |u|)
    ensures forall j: nat | j < |content.cells| :: At(id, j) !in w.nodes
  {
    hide Sane, Order, State, InsertAll, Place;
    var u, run := Order(w, k), DescribedRun(id, o, t, |content.cells|);
    forall j: nat | j < |content.cells|
      ensures At(id, j) !in w.nodes
    {
      assert Within(id, |content.cells|, At(id, j));
    }
    OrderDistinct(w, k);
    forall n | n in u
      ensures n.Elem? && n !in run && (n.origin == Start || n.origin in u)
    {
      OrderClosed(w, k, n);
    }
    DescribedIsRun(id, o, t, |content.cells|);
    RunStaysTogether(u, run);
  }

  /** The new units stand together in their list, after their origin, and before their right origin
      if that follows the origin; whatever the list and whoever sent them. */
  lemma WovenBetween(w: World, w': World, id: ID, o: Node, t: Node, k: Owner, content: Content) returns (d: nat)
    requires Sane(w) && Woven(w, w', id, o, t, k, content)
    ensures var u := Order(w, k);
            Flanked(u, d, o, t) && Order(w', k) == u[..d] + DescribedRun(id, o, t, |content.cells|) + u[d..]
  {
    hide Sane, Order, State, InsertAll, Place, DescribedRun, Yata.IsRun, Extends, FactsExtend;
    WovenOrder(w, w', id, o, t, k, content);
    LandsBetween(Order(w, k), Described(id, o, t, 0));
    d := Place(Order(w, k), Described(id, o, t, 0));
  }

  /** The same for a step of integration. */
  lemma StepBetween(h: History, w: World, w': World, s: Struct, offset: nat) returns (d: nat)
    requires Sane(w) && Stepped(h, w, w', s, offset) && !Lost(w, s, offset) && s.Item? && Attachable(w, s)
    ensures s.id in h
    ensures var o, t, u := NodeOf(w, OriginAt(s, offset), Start), NodeOf(w, s.right, End), Order(w, h[s.id].parent);
            && Flanked(u, d, o, t)
            && Order(w', h[s.id].parent) == u[..d] + DescribedRun(At(s.id, offset), o, t, s.Len() - offset) + u[d..]
  {
    hide Sane, Order, Woven, Marks, Attachable, Lost, DescribedRun, Rightmost, Flanked;
    d := WovenBetween(w, w', At(s.id, offset), NodeOf(w, OriginAt(s, offset), Start), NodeOf(w, s.right, End),
      h[s.id].parent, From(s.content, offset));
  }

  /** The last entry of a key is the one it was, or the last of the new units if they went to the end. */
  lemma WovenLast(w: World, w': World, id: ID, o: Node, t: Node, parent: Owner, content: Content, k: Owner, x: ID)
    requires Sane(w) && Woven(w, w', id, o, t, parent, content) && LastEntry(w', k, x)
    ensures var rightmost := k == parent && Rightmost(w, parent, Described(id, o, t, 0));
            if rightmost then x == At(id, |content.cells| - 1) && |content.cells| > 0
            else LastEntry(w, k, x) && x in w.facts && w.facts[x].parent == k && !Within(id, |content.cells|, x)
  {
    hide Sane, Order, State, InsertAll, Place, DescribedRun, Yata.IsRun, Extends, FactsExtend;
    WovenOrder(w, w', id, o, t, parent, content);
    var u, run := Order(w, k), DescribedRun(id, o, t, |content.cells|);
    if k == parent {
      SplicedLast(u, run, Place(u, Described(id, o, t, 0)));
    }
    if k != parent || !Rightmost(w, parent, Described(id, o, t, 0)) {
      EntryListed(w, k, x);
      OldIsNotNew(w.nodes, w'.nodes, id, o, t, |content.cells|, x);
    }
  }

  lemma SplicedLast(u: seq<Node>, run: seq<Node>, d: nat)
    requires d <= |u| && run != []
    ensures var v := u[..d] + run + u[d..];
            v != [] && v[|v| - 1] == if d == |u| then run[|run| - 1] else u[|u| - 1]
  {
  }

  lemma OldIsNotNew(nodes: map<ID, Node>, nodes': map<ID, Node>, id: ID, o: Node, t: Node, len: nat, x: ID)
    requires Extends(nodes, nodes', id, o, t, len) && x in nodes
    ensures !Within(id, len, x)
  {
  }

  lemma IntegratedSpares(w: World, w': World, id: ID, o: Node, t: Node, parent: Owner, content: Content, dead: bool)
    requires Sane(w) && Integrated(w, w', id, o, t, parent, content, dead)
    requires dead ==> content.kind == Tombstone || !Living(w, parent)
    ensures ValuesSpared(w, w')
  {
    hide Sane, Order, State, LastEntry, Extends, InsertAll, DescribedRun, Yata.IsRun, Rightmost;
    forall k, x | LastEntry(w', k, x) && x in w'.gone
      ensures (LastEntry(w, k, x) && x in w.gone) || Excused(w', x)
    {
      WovenLast(w, w', id, o, t, parent, content, k, x);
      LastIsKeyed(w', k, x);
    }
  }

  lemma LastIsKeyed(w: World, k: Owner, x: ID)
    requires LastEntry(w, k, x)
    ensures k.Keyed()
  {
  }

  lemma EntryListed(w: World, k: Owner, x: ID)
    requires Sane(w) && LastEntry(w, k, x)
    ensures x in w.nodes && x in w.facts && w.facts[x].parent == k
  {
    var u := Order(w, k);
    assert u[|u| - 1] in u;
    ListedUnder(w, k, u[|u| - 1]);
  }

  /** A unit's list is the one its item hangs off. */
  lemma ListedUnder(w: World, k: Owner, n: Node)
    requires Sane(w) && n in Order(w, k)
    ensures Known(w.nodes, n) && n.id in w.facts && w.facts[n.id].parent == k
  {
    OrderDistinct(w, k);
    var s := ListOf(w, k);
    InUnits(w, s, n);
    var r :| r in s && n in RunAt(w, r);
    SaneRefs(w, k);
    SaneItem(w, r);
    SaneList(w, k);
    hide Sane;
    InRun(w, r, n);
    var _ := HeldSlot(w, r, n.id);
  }

  /** With entries of length one, a new entry leaves one value. */
  lemma IntegratedOneValue(w: World, w': World, id: ID, o: Node, t: Node, parent: Owner, content: Content, dead: bool)
    requires Sane(w) && Integrated(w, w', id, o, t, parent, content, dead) && OneValueEach(w)
    requires parent.Keyed() ==> |content.cells| == 1
    ensures OneValueEach(w')
  {
    hide Sane, Order, State, InsertAll, Place, Extends, FactsExtend, Yata.IsRun, DescribedRun, OneValue;
    forall k: Owner | k.Keyed()
      ensures OneValue(w', k)
    {
      assert OneValue(w, k);
      if k == parent {
        EntryOneValue(w, w', id, o, t, parent, content, dead);
      } else {
        SameOneValue(w, w', k);
      }
    }
  }

  lemma SameOneValue(w: World, w': World, k: Owner)
    requires OneValue(w, k) && Order(w', k) == Order(w, k) && w.gone <= w'.gone
    ensures OneValue(w', k)
  {
    hide Order;
  }

  lemma EntryOneValue(w: World, w': World, id: ID, o: Node, t: Node, k: Owner, content: Content, dead: bool)
    requires Sane(w) && Integrated(w, w', id, o, t, k, content, dead) && OneValue(w, k) && k.Keyed()
    requires |content.cells| == 1
    ensures OneValue(w', k)
  {
    hide Sane, Order, State, Place, Woven;
    WovenOrder(w, w', id, o, t, k, content);
    var u, v := Order(w, k), Order(w', k);
    var d, x := Place(u, Described(id, o, t, 0)), Described(id, o, t, 0);
    assert At(id, 0) == id && DescribedRun(id, o, t, 1) == [x];
    assert v == u[..d] + [x] + u[d..];
    forall i | 0 <= i < |v| - 1
      ensures v[i].Elem? && v[i].id in w'.gone
    {
      if i < d { assert v[i] == u[i]; } else if i > d { assert v[i] == u[i - 1]; } else { assert v[i] == x; }
    }
  }

  ghost predicate UnitEntries(h: History, s: Struct) {
    s.Item? && s.id in h && h[s.id].parent.Keyed() ==> s.Len() <= 1
  }

  lemma StepEntries(h: History, w: World, w': World, s: Struct, offset: nat)
    requires Sane(w) && Stepped(h, w, w', s, offset)
    ensures ValuesSpared(w, w') && (OneValueEach(w) && UnitEntries(h, s) ==> OneValueEach(w'))
  {
    hide Sane, Order, State, Integrated, Attachable, Lost;
    if !Lost(w, s, offset) && s.Item? && Attachable(w, s) {
      var id, o, t, k, c := At(s.id, offset), NodeOf(w, OriginAt(s, offset), Start), NodeOf(w, s.right, End),
          h[s.id].parent, From(s.content, offset);
      var dead := s.content.kind == Tombstone || OwnerGone(w, k);
      IntegratedSpares(w, w', id, o, t, k, c, dead);
      if OneValueEach(w) && UnitEntries(h, s) { IntegratedOneValue(w, w', id, o, t, k, c, dead); }
    } else {
      SameOrders(w, w');
    }
  }

  lemma SameOrders(w: World, w': World)
    requires w'.gone == w.gone && forall k :: Order(w', k) == Order(w, k)
    ensures ValuesSpared(w, w') && (OneValueEach(w) ==> OneValueEach(w'))
  {
    hide Order;
    forall k, x | LastEntry(w', k, x) && x in w'.gone
      ensures LastEntry(w, k, x)
    {
      assert Order(w', k) == Order(w, k);
    }
    if OneValueEach(w) {
      forall k: Owner | k.Keyed()
        ensures OneValue(w', k)
      {
        assert OneValue(w, k) && Order(w', k) == Order(w, k);
      }
    }
  }

  // ---------------------------------------------------------------- nested lists

  /** The item a stored unit's list hangs off is stored. */
  ghost predicate OwnersPresent(w: World) {
    forall x <- w.facts :: w.facts[x].parent.holder.Nested? ==> w.facts[x].parent.holder.item in w.facts
  }

  lemma StepOwners(h: History, w: World, w': World, s: Struct, offset: nat)
    requires Sane(w) && Lawful(h) && Agrees(h, w) && Fits(h, s) && Stepped(h, w, w', s, offset) && OwnersPresent(w)
    ensures OwnersPresent(w')
  {
    hide Order, State, InsertAll, Yata.IsRun, DescribedRun, Extends, Lost;
    assert w.facts.Keys == w.nodes.Keys;
    hide Sane;
    if !Lost(w, s, offset) && s.Item? && Attachable(w, s) {
      assert UnitFits(h, s, 0) && At(s.id, 0) == s.id;
      assert LawfulAt(h, s.id);
      if s.origin.Some? { assert AgreesAt(h, w, s.origin.value); }
      if s.right.Some? { assert AgreesAt(h, w, s.right.value); }
      forall x <- w'.facts | w'.facts[x].parent.holder.Nested?
        ensures w'.facts[x].parent.holder.item in w'.facts
      {
        if x !in w.facts {
          var j: nat := x.clock - At(s.id, offset).clock;
          assert x == At(At(s.id, offset), j);
        }
      }
    }
  }
}
