/**
  The struct store and the placing of items (internal/crdt/structstore.go; `integrateItem`,
  `resolveConflict` and `deleteRange` in internal/crdt/doc.go).
*/
module Store {
  import opened Ids
  import opened Structs
  import opened Yata
  import opened Items
  import opened Placing

  /** `w'` is `w` with some items cut in two: every unit keeps its content, its list, its
      place and its deletion. */
  ghost predicate Resplit(w: World, w': World) {
    && w'.nodes == w.nodes && w'.facts == w.facts && w'.gone == w.gone
    && (forall k :: Order(w', k) == Order(w, k))
    && (forall c :: State(w'.items, w'.clients, c) == State(w.items, w.clients, c))
    && |w.items| <= |w'.items|
    && (forall r | 0 <= r < |w.items| :: w'.items[r].id == w.items[r].id && w'.items[r].parent == w.items[r].parent)
    && Finer(w.items, w'.items)
  }

  /** Every item is a part of one there was. */
  ghost predicate Finer(items: seq<Item>, items': seq<Item>) {
    forall r | 0 <= r < |items'| :: PartOf(items, items'[r].id, items'[r].Len())
  }

  ghost predicate PartOf(items: seq<Item>, id: ID, len: nat) {
    exists q | 0 <= q < |items| ::
      items[q].id.client == id.client && items[q].id.clock <= id.clock &&
        id.clock + len <= items[q].id.clock + items[q].Len()
  }

  lemma SplitIsFiner(w: World, r: Ref, off: nat, index: nat, i: nat)
    requires Splittable(w, r, off, index, i)
    ensures Finer(w.items, SplitWorld(w, r, off, index, i).items)
  {
    SplitRecords(w, r, off, index, i);
    hide Splittable, SplitWorld;
    var items' := SplitWorld(w, r, off, index, i).items;
    forall q | 0 <= q < |items'|
      ensures PartOf(w.items, items'[q].id, items'[q].Len())
    {
      var p := if q == |w.items| then r else q;
      assert w.items[p].id.client == items'[q].id.client;
    }
  }

  lemma FinerOn(a: seq<Item>, b: seq<Item>, c: seq<Item>)
    requires Finer(a, b) && Finer(b, c)
    ensures Finer(a, c)
  {
    forall r | 0 <= r < |c|
      ensures PartOf(a, c[r].id, c[r].Len())
    {
      var q :| 0 <= q < |b| && b[q].id.client == c[r].id.client && b[q].id.clock <= c[r].id.clock &&
        c[r].id.clock + c[r].Len() <= b[q].id.clock + b[q].Len();
      assert PartOf(a, b[q].id, b[q].Len());
      var p :| 0 <= p < |a| && a[p].id.client == b[q].id.client && a[p].id.clock <= b[q].id.clock &&
        b[q].id.clock + b[q].Len() <= a[p].id.clock + a[p].Len();
      assert a[p].id.client == c[r].id.client;
    }
  }

  lemma FinerNothing(items: seq<Item>)
    ensures Finer(items, items)
  {
    forall r | 0 <= r < |items|
      ensures PartOf(items, items[r].id, items[r].Len())
    {
    }
  }

  lemma SplitIds(w: World, r: Ref, off: nat, index: nat, i: nat)
    requires Splittable(w, r, off, index, i)
    ensures var items' := SplitWorld(w, r, off, index, i).items;
            && |w.items| <= |items'|
            && forall q | 0 <= q < |w.items| :: items'[q].id == w.items[q].id && items'[q].parent == w.items[q].parent
  {
    SplitRecords(w, r, off, index, i);
    hide Splittable, SplitWorld;
  }

  lemma SplitResplits(w: World, r: Ref, off: nat, index: nat, i: nat)
    requires Sane(w) && Splittable(w, r, off, index, i)
    ensures Resplit(w, SplitWorld(w, r, off, index, i))
  {
    hide Sane, SplitWorld, Splittable, Order, State, Finer, At, HeadItem, TailItem;
    var w' := SplitWorld(w, r, off, index, i);
    SplitFields(w, r, off, index, i);
    SplitIds(w, r, off, index, i);
    SplitIsFiner(w, r, off, index, i);
    forall k
      ensures Order(w', k) == Order(w, k)
    {
      SplitKeepsOrder(w, r, off, index, i, k);
    }
    forall c
      ensures State(w'.items, w'.clients, c) == State(w.items, w.clients, c)
    {
      SplitKeepsState(w, r, off, index, i, c);
    }
  }

  /** `w'` is `w` with the units of one new item integrated, and marked as they should be. */
  ghost predicate Integrated(w: World, w': World, id: ID, o: Node, t: Node, parent: Owner, content: Content,
                             dead: bool) {
    && Woven(w, w', id, o, t, parent, content)
    && Marks(w, w'.gone, id, |content.cells|, parent, Rightmost(w, parent, Described(id, o, t, 0)), dead)
  }

  /** The unit goes to the end of the list. */
  ghost predicate Rightmost(w: World, k: Owner, x: Node)
    requires x.Elem? && (x.origin == Start || x.origin in Order(w, k)) && forall n <- Order(w, k) :: n.Elem?
  {
    Place(Order(w, k), x) == |Order(w, k)|
  }

  /** The units of the last item of a list. */
  ghost function LastIds(w: World, k: Owner): set<ID> {
    var s := ListOf(w, k);
    if s != [] && s[|s| - 1] < |w.items| then IdsOf(w.items[s[|s| - 1]]) else {}
  }

  /** Exactly what integration marks, given how the items are cut. */
  ghost function Newly(w: World, id: ID, len: nat, k: Owner, rightmost: bool, dead: bool): set<ID> {
    (if k.Keyed() && rightmost then LastIds(w, k) else {}) +
    (if dead || (k.Keyed() && !rightmost) then set j: nat | j < len :: At(id, j) else {})
  }

  /** What integration marks deleted: the new units, if they are born so; among the entries of a
      key, also the new ones if they are not rightmost, and otherwise what they replace. */
  ghost predicate Marks(w: World, gone': set<ID>, id: ID, len: nat, parent: Owner, rightmost: bool, dead: bool) {
    && w.gone <= gone'
    && (forall j: nat {:trigger At(id, j)} | j < len :: At(id, j) in gone' <==> dead || (parent.Keyed() && !rightmost))
    && (forall x <- gone' :: x in w.gone || Within(id, len, x) ||
                             (parent.Keyed() && rightmost && x in w.facts && w.facts[x].parent == parent &&
                               x in LastIds(w, parent)))
    && (parent.Keyed() && rightmost && Order(w, parent) != [] ==>
          var last := Order(w, parent)[|Order(w, parent)| - 1]; last.Elem? && last.id in gone')
  }

  /** `w'` is `w` with the units of one new item: they are described, and they have gone into their
      list one after the other the way `Yata.Insert` puts them; nothing else has changed. */
  ghost predicate Woven(w: World, w': World, id: ID, o: Node, t: Node, parent: Owner, content: Content) {
    var len := |content.cells|;
    var run := DescribedRun(id, o, t, len);
    && Extends(w.nodes, w'.nodes, id, o, t, len)
    && FactsExtend(w.facts, w'.facts, id, parent, content)
    && (forall c :: State(w'.items, w'.clients, c) == if c == id.client then id.clock + len
      else State(w.items, w.clients, c))
    && (forall k | k != parent :: Order(w', k) == Order(w, k))
    && (forall n <- Order(w, parent) :: n.Elem?) && IsRun(run) && run != []
    && (o == Start || o in Order(w, parent))
    && Order(w', parent) == InsertAll(Order(w, parent), run)
  }

  ghost predicate FactsExtend(facts: map<ID, Fact>, facts': map<ID, Fact>, id: ID, parent: Owner, content: Content) {
    && (forall x <- facts :: x in facts' && facts'[x] == facts[x])
    && (forall x <- facts' :: x in facts || Within(id, |content.cells|, x))
    && (forall j: nat {:trigger At(id, j)} | j < |content.cells| ::
          At(id, j) in facts' && facts'[At(id, j)] == Fact(content.cells[j], content.kind, parent))
  }

  /** An integrated item whose place the scan has found. */
  lemma InsertIntegrates(w: World, n: Item, o: Node, t: Node, l: nat)
    requires Sane(w) && Insertable(w, n, o, t, l)
    requires (forall m <- Order(w, n.parent) :: m.Elem?) && (o == Start || o in Order(w, n.parent))
    requires Offset(w, ListOf(w, n.parent), l) == Place(Order(w, n.parent), Described(n.id, o, t, 0))
    ensures Woven(w, InsertWorld(w, n, o, t, l), n.id, o, t, n.parent, n.content)
    ensures InsertWorld(w, n, o, t, l).gone == w.gone
  {
    hide Sane, Insertable, InsertWorld, Order, State, IsRun, InsertAll, Place, Offset;
    var w' := InsertWorld(w, n, o, t, l);
    InsertNodes(w, n, o, t, l);
    InsertFacts(w, n, o, t, l);
    InsertGone(w, n, o, t, l);
    forall c
      ensures State(w'.items, w'.clients, c) == if c == n.id.client then n.id.clock + n.Len()
              else State(w.items, w.clients, c)
    {
      InsertSlotsSane(w, n, o, t, l, c);
    }
    forall k | k != n.parent
      ensures Order(w', k) == Order(w, k)
    {
      InsertOrder(w, n, o, t, l, k);
    }
    InsertAllAt(w, n, o, t, l);
  }

  lemma InsertGone(w: World, n: Item, o: Node, t: Node, l: nat)
    requires Insertable(w, n, o, t, l)
    ensures InsertWorld(w, n, o, t, l).gone == w.gone && n.Len() > 0
  {
  }

  lemma DescribedIsRun(id: ID, o: Node, t: Node, len: nat)
    ensures IsRun(DescribedRun(id, o, t, len))
    ensures forall i, j | 0 <= i < j < len :: DescribedRun(id, o, t, len)[i] != DescribedRun(id, o, t, len)[j]
  {
    var u := DescribedRun(id, o, t, len);
    forall j | 0 < j < len
      ensures Follows(u, j)
    {
    }
  }

  lemma InsertAllAt(w: World, n: Item, o: Node, t: Node, l: nat)
    requires Sane(w) && Insertable(w, n, o, t, l) && n.Len() > 0
    requires (forall m <- Order(w, n.parent) :: m.Elem?) && (o == Start || o in Order(w, n.parent))
    requires Offset(w, ListOf(w, n.parent), l) == Place(Order(w, n.parent), Described(n.id, o, t, 0))
    ensures var run := DescribedRun(n.id, o, t, n.Len());
            && IsRun(run) && run != []
            && Order(InsertWorld(w, n, o, t, l), n.parent) == InsertAll(Order(w, n.parent), run)
  {
    hide Sane, InsertWorld, Insertable, Order, State, IsRun, InsertAll, Place, Offset, Units;
    var k, u, run := n.parent, Order(w, n.parent), DescribedRun(n.id, o, t, n.Len());
    DescribedIsRun(n.id, o, t, n.Len());
    InsertOrder(w, n, o, t, l, k);
    InsertPlace(w, n, o, t, l);
    SplitOrderAt(w, k, l);
    FreshRun(w, n, o, t, l);
    RunStaysTogether(u, run);
  }

  lemma SplitOrderAt(w: World, k: Owner, l: nat)
    requires l <= |ListOf(w, k)|
    ensures var s, u := ListOf(w, k), Order(w, k);
            && Offset(w, s, l) <= |u| && Units(w, s[..l]) == u[..Offset(w, s, l)] &&
              Units(w, s[l..]) == u[Offset(w, s, l)..]
  {
    var s := ListOf(w, k);
    assert s == s[..l] + s[l..];
    UnitsAppend(w, s[..l], s[l..]);
  }

  /** The new units are new, and the list's units refer only to units of the list. */
  lemma FreshRun(w: World, n: Item, o: Node, t: Node, l: nat)
    requires Sane(w) && Insertable(w, n, o, t, l)
    ensures forall m <- Order(w, n.parent) ::
              m.Elem? && m !in DescribedRun(n.id, o, t, n.Len()) &&
                (m.origin == Start || m.origin in Order(w, n.parent))
  {
    hide Sane, Insertable, Order, InsertWorld;
    InsertNodes(w, n, o, t, l);
    OrderDistinct(w, n.parent);
    forall m | m in Order(w, n.parent)
      ensures m !in DescribedRun(n.id, o, t, n.Len()) && (m.origin == Start || m.origin in Order(w, n.parent))
    {
      OrderClosed(w, n.parent, m);
    }
  }

  /** `w'` is `w` with a stretch of clocks occupied by collected content. */
  ghost predicate Buried(w: World, w': World, id: ID, len: nat) {
    && w'.nodes == w.nodes && w'.facts == w.facts && w'.gone == w.gone
    && (forall k :: Order(w', k) == Order(w, k))
    && (forall c :: State(w'.items, w'.clients, c) == if c == id.client then id.clock + len
      else State(w.items, w.clients, c))
  }

  /** The type a list hangs off has been deleted. */
  ghost predicate OwnerGone(w: World, k: Owner) {
    k.holder.Nested? && k.holder.item in w.gone
  }

  /** Marking items deleted does not change what is woven. */
  lemma MarkWoven(w: World, w': World, id: ID, o: Node, t: Node, parent: Owner, content: Content, r: Ref)
    requires Woven(w, w', id, o, t, parent, content) && r < |w'.items|
    ensures Woven(w, MarkWorld(w', r), id, o, t, parent, content)
  {
    hide Extends, FactsExtend, Order, State, IsRun, InsertAll, DescribedRun;
    var w'' := MarkWorld(w', r);
    forall k
      ensures Order(w'', k) == Order(w', k)
    {
      MarkKeepsOrder(w', r, k);
    }
    forall c
      ensures State(w''.items, w''.clients, c) == State(w'.items, w'.clients, c)
    {
      MarkKeepsState(w', r, c);
    }
  }

  /** A deleted item's units are marked. */
  lemma DeletedIds(w: World, r: Ref)
    requires Sane(w) && r < |w.items| && w.items[r].deleted
    ensures IdsOf(w.items[r]) <= w.gone
  {
    forall x <- IdsOf(w.items[r]) { HeldDeleted(w, r, x); }
  }

  /** The item a new entry of a key replaces: the last one, if the new one goes after it. */
  ghost function Replaced(w: World, k: Owner, l: nat): set<ID> {
    var s := ListOf(w, k);
    if k.Keyed() && l == |s| && s != [] && s[l - 1] < |w.items| then IdsOf(w.items[s[l - 1]]) else {}
  }

  lemma MarksDone(w: World, gone': set<ID>, id: ID, len: nat, k: Owner, l: nat, x: Node, dead: bool)
    requires Sane(w) && RightPlace(w, k, x, l) && (forall j: nat | j < len :: At(id, j) !in w.nodes)
    requires gone' == w.gone + Replaced(w, k, l) +
               (if dead || (k.Keyed() && l < |ListOf(w, k)|) then set j: nat | j < len :: At(id, j) else {})
    ensures Marks(w, gone', id, len, k, Rightmost(w, k, x), dead)
    ensures gone' == w.gone + Newly(w, id, len, k, Rightmost(w, k, x), dead)
  {
    hide Order, Offset, Place;
    EndIsEnd(w, k, l);
    SaneKeys(w);
    SaneRefs(w, k);
    if ListOf(w, k) != [] { LastOfOrder(w, k); }
    EmptyOrder(w, k);
    forall y <- Replaced(w, k, l)
      ensures y in w.facts && w.facts[y].parent == k && y in w.nodes
    {
      ReplacedKnown(w, k, l, y);
    }
    hide Sane;
  }

  /** Linking a new item in leaves the ids of the one it replaces alone. */
  lemma ReplacedIs(w: World, k: Owner, l: nat, items': seq<Item>)
    requires Sane(w) && l <= |ListOf(w, k)| && |items'| >= |w.items|
    requires forall q | 0 <= q < |w.items| :: items'[q].id == w.items[q].id && items'[q].content == w.items[q].content
    ensures var (a, b) := Around(ListOf(w, k), l);
            && (a.Some? ==> a.value < |w.items|)
            && Replaced(w, k, l) == if k.Keyed() && b == None && a.Some? then IdsOf(items'[a.value]) else {}
  {
    AroundRefs(w, k, l);
    hide Sane;
  }

  lemma NewIds(w: World, id: ID, it: Item, len: nat)
    requires Sane(w) && id.clock == State(w.items, w.clients, id.client) && it.id == id && it.Len() == len
    ensures IdsOf(it) == (set j: nat | j < len :: At(id, j)) && forall j: nat | j < len :: At(id, j) !in w.nodes
  {
    forall j: nat | j < len { UncoveredUnit(w, At(id, j)); }
  }

  lemma EmptyOrder(w: World, k: Owner)
    ensures ListOf(w, k) == [] ==> Order(w, k) == []
  {
  }

  lemma ReplacedKnown(w: World, k: Owner, l: nat, y: ID)
    requires Sane(w) && y in Replaced(w, k, l)
    ensures y in w.nodes && y in w.facts && w.facts[y].parent == k
  {
    SaneRefs(w, k);
    var s := ListOf(w, k);
    assert s[l - 1] in s;
    var _ := HeldSlot(w, s[l - 1], y);
  }

  /** When the neighbours are already side by side there is nothing to scan. */
  lemma NoConflict(w: World, k: Owner, x: Node, origin: Option<ID>, right: Option<ID>, left: Option<Ref>,
                   next: Option<Ref>)
    requires Resolved(w, k, x, origin, right, left, next)
    requires left == None ==> next.Some? && w.items[next.value].prev == None && w.items[next.value].parent == k
    requires left.Some? ==> w.items[left.value].next == next
    ensures var f := IndexAfter(w, k, left);
            && (forall o <- Order(w, k) :: o.Elem?) && (x.origin == Start || x.origin in Order(w, k))
            && Offset(w, ListOf(w, k), f) == Place(Order(w, k), x)
  {
    hide Sane, Order, Offset, Scan, Place, Scene, Names, Known, At;
    var s, f := ListOf(w, k), IndexAfter(w, k, left);
    SceneStarts(w, k, x, origin, right, left, next);
    if left.Some? {
      Successor(w, k, f - 1);
    } else {
      var i := IndexAfter(w, k, next) - 1;
      Successor(w, k, i);
    }
    ScanEnds(w, k, x, origin, right, left, next, f, f, f);
  }

  lemma ResplitNothing(w: World)
    ensures Resplit(w, w)
  {
    FinerNothing(w.items);
  }

  /** All there is to know about cutting item `r` at a legal offset. */
  lemma SplitPlan(w: World, r: Ref, off: nat, index: nat) returns (i: nat)
    requires Sane(w) && r < |w.items| && Splits(w.items[r].content, off)
    requires w.items[r].id.client in w.clients && index < |w.clients[w.items[r].id.client]|
    requires w.clients[w.items[r].id.client][index] == Live(r)
    ensures Splittable(w, r, off, index, i)
    ensures var w', it := SplitWorld(w, r, off, index, i), w.items[r];
            && Sane(w') && Resplit(w, w') && |w'.items| == |w.items| + 1
            && it.parent in w.lists && i + 1 <= |w.lists[it.parent]|
            && (it.next.Some? ==> it.next.value < |w.items| && it.next.value != r)
            && w' == World(
                 w.clients[it.id.client := Put<Entry>(w.clients[it.id.client], index + 1, Live(|w.items|))],
                 if it.parent.Keyed() && it.next == None then w.anchor[it.parent := |w.items|] else w.anchor,
                 Link(w.items[r := HeadItem(it, off)], Some(r), it.next, TailItem(it, off)),
                 w.lists[it.parent := Put<Ref>(w.lists[it.parent], i + 1, |w.items|)], w.nodes, w.facts, w.gone)
            && w'.items[|w.items|].id == At(it.id, off) && w'.items[|w.items|].parent == it.parent
            && w'.items[r].Len() == off && w'.items[r].id == it.id && w'.items[r].parent == it.parent
            && w'.items[r].deleted == it.deleted && it.id.client in w'.clients
            && index < |w'.clients[it.id.client]| && w'.clients[it.id.client][index] == Live(r)
            && (forall q | 0 <= q < |w.items| && q != r :: w'.items[q].Len() == w.items[q].Len())
  {
    SaneItem(w, r);
    SaneList(w, w.items[r].parent);
    var s := w.lists[w.items[r].parent];
    i :| 0 <= i < |s| && s[i] == r;
    hide Sane, ItemSound, Resplit, LinkedAt, Link;
    SplitKeepsSane(w, r, off, index, i);
    SplitResplits(w, r, off, index, i);
    SplitRecords(w, r, off, index, i);
  }

  lemma AroundRefs(w: World, k: Owner, l: nat)
    requires Sane(w) && l <= |ListOf(w, k)|
    ensures var s := ListOf(w, k);
            var (a, b) := Around(s, l);
            && (a.Some? ==> a.value < |w.items| && a != b && b == w.items[a.value].next)
            && (a == None ==> b == RefAt(s, 0)) && (b == None <==> l == |s|)
            && (b.Some? ==> b.value < |w.items|)
  {
    SaneRefs(w, k);
    if l > 0 { Successor(w, k, l - 1); }
    if l < |ListOf(w, k)| { Successor(w, k, l); }
  }

  /** Linking changes no length, hence no client's state. */
  lemma StateKept(w: World, items: seq<Item>, c: nat)
    requires Sane(w) && |items| >= |w.items|
    requires forall q | 0 <= q < |w.items| :: items[q].id == w.items[q].id && items[q].Len() == w.items[q].Len()
    ensures State(items, w.clients, c) == State(w.items, w.clients, c)
  {
    if c in w.clients { SaneSlot(w, c); }
  }

  /** All there is to know about linking a new item in at index `l`. */
  lemma InsertPlan(w: World, n: Item, o: Node, t: Node, l: nat)
    requires Sane(w) && Insertable(w, n, o, t, l)
    ensures l <= |ListOf(w, n.parent)|
    ensures var w', (a, b) := InsertWorld(w, n, o, t, l), Around(ListOf(w, n.parent), l);
            && Sane(w')
            && (a.Some? ==> a.value < |w.items| && a != b && b == w.items[a.value].next)
            && (a == None ==> b == RefAt(ListOf(w, n.parent), 0)) && (b == None <==> l == |ListOf(w, n.parent)|)
            && (b.Some? ==> b.value < |w.items|)
            && State(Link(w.items, a, b, n), w.clients, n.id.client) == n.id.clock
            && w'.clients == AppendTo(w.clients, n.id.client, Live(|w.items|))
            && w'.anchor == (if (if n.parent.Keyed() then b == None else a == None) then w.anchor[n.parent := |w.items|]
              else w.anchor)
            && w'.items == Link(w.items, a, b, n) && w'.gone == w.gone
  {
    hide Sane, Put, WithRun, WithFacts, State, Linked;
    InsertKeepsSane(w, n, o, t, l);
    AroundRefs(w, n.parent, l);
    var (a, b) := Around(ListOf(w, n.parent), l);
    StateKept(w, Link(w.items, a, b, n), n.id.client);
  }

  ghost function AppendTo(clients: map<nat, seq<Entry>>, c: nat, e: Entry): map<nat, seq<Entry>> {
    clients[c := (if c in clients then clients[c] else []) + [e]]
  }

  lemma ScanIsInside(w: World, k: Owner, x: Node, f: nat, i: nat, l: nat)
    requires Scanning(w, k, x, f, i, l)
    ensures f <= l <= i <= |ListOf(w, k)|
  {
  }

  lemma RightPlaceMeans(w: World, k: Owner, x: Node, l: nat)
    requires RightPlace(w, k, x, l)
    ensures x.Elem? && l <= |ListOf(w, k)|
    ensures (forall o <- Order(w, k) :: o.Elem?) && (x.origin == Start || x.origin in Order(w, k))
    ensures Offset(w, ListOf(w, k), l) == Place(Order(w, k), x)
  {
  }

  class StructStore {
    var clients: map<nat, seq<Entry>>
    var anchor: map<Owner, Ref>
    var items: seq<Item>
    ghost var lists: map<Owner, seq<Ref>>
    ghost var nodes: map<ID, Node>
    ghost var facts: map<ID, Fact>
    ghost var gone: set<ID>

    ghost function W(): World
      reads this
    {
      World(clients, anchor, items, lists, nodes, facts, gone)
    }

    ghost predicate Valid()
      reads this
    {
      Sane(W())
    }

    constructor ()
      ensures Valid() && W() == World(map[], map[], [], map[], map[], map[], {})
    {
      clients, anchor, items := map[], map[], [];
      lists, nodes, facts, gone := map[], map[], map[], {};
    }

    /** `find`: the index of the struct covering `id`, by binary search. */
    method Find(id: ID) returns (r: Option<nat>)
      requires Valid()
      ensures r.Some? <==> id.clock < State(items, clients, id.client)
      ensures r.Some? ==>
                && id.client in clients && r.value < |clients[id.client]|
                && Covers(items, clients[id.client][r.value], id.clock)
    {
      if id.client !in clients {
        return None;
      }
      SaneSlot(W(), id.client);
      hide Sane;
      var es := clients[id.client];
      var lo, hi := 0, |es|;
      while lo < hi
        invariant 0 <= lo <= hi <= |es|
        invariant lo > 0 ==> Stop(items, es[lo - 1]) <= id.clock
        invariant hi < |es| ==> id.clock < Stop(items, es[hi])
      {
        var h := lo + (hi - lo) / 2;
        if Stop(items, es[h]) <= id.clock {
          lo := h + 1;
        } else {
          hi := h;
        }
      }
      if lo > 0 && lo < |es| {
        assert Abuts(items, es, lo);
      }
      if lo >= |es| || EntryID(items, es[lo]).clock > id.clock {
        return None;
      }
      StopsIncrease(items, id.client, es, lo, |es| - 1);
      return Some(lo);
    }

    /** `splitItem`: cut item `r` after `offset` units; the tail becomes the next struct of its
        client and the next item of its list. */
    method SplitItem(r: Ref, offset: nat, index: nat) returns (n: Option<Ref>)
      requires Valid() && r < |items| && 0 < offset < items[r].Len()
      requires items[r].id.client in clients && index < |clients[items[r].id.client]|
      requires clients[items[r].id.client][index] == Live(r)
      modifies this
      ensures Valid() && Resplit(old(W()), W())
      ensures n.Some? == Splits(old(items[r].content), offset)
      ensures n == None ==> W() == old(W())
      ensures n.Some? ==>
                && n.value < |items| && items[n.value].id == At(items[r].id, offset)
                && items[n.value].parent == items[r].parent && items[r].Len() == offset
      ensures items[r].deleted == old(items[r].deleted) && items[r].id == old(items[r].id)
      ensures items[r].id.client in clients && index < |clients[items[r].id.client]|
      ensures clients[items[r].id.client][index] == Live(r)
      ensures forall q | 0 <= q < |old(items)| && q != r :: q < |items| && items[q].Len() == old(items)[q].Len()
    {
      hide Sane, Splittable, SplitWorld, Resplit, Put, Link, HeadItem, TailItem;
      ResplitNothing(W());
      if !Splits(items[r].content, offset) {
        return None;
      }
      ghost var w := W();
      ghost var i := SplitPlan(w, r, offset, index);
      var it, tail := items[r], |items|;
      clients := clients[it.id.client := Put<Entry>(clients[it.id.client], index + 1, Live(tail))];
      items := items[r := HeadItem(it, offset)];
      items := Link(items, Some(r), it.next, TailItem(it, offset));
      if it.parent.Keyed() && it.next == None {
        anchor := anchor[it.parent := tail];
      }
      lists := SplitWorld(w, r, offset, index, i).lists;
      return Some(tail);
    }

    /** `itemAt`: the item holding unit `id`, if any. */
    method ItemAt(id: ID) returns (r: Option<Ref>)
      requires Valid()
      ensures r == None ==> id !in nodes && !Housed(items, id)
      ensures r.Some? ==> r.value < |items| && Within(items[r.value].id, items[r.value].Len(), id) && id in nodes
    {
      hide Sane;
      var i := Find(id);
      if i == None {
        UncoveredUnit(W(), id);
        return None;
      }
      CoveredUnit(W(), id, i.value);
      match clients[id.client][i.value]
      case Dead(_, _) => return None;
      case Live(q) => return Some(q);
    }

    /** `GetItemCleanStart`: the item that starts exactly at `id`, cut loose if need be. */
    method CleanStart(id: ID) returns (r: Option<Ref>)
      requires Valid()
      modifies this
      ensures Valid() && Resplit(old(W()), W())
      ensures r.Some? <==> id in nodes && facts[id].cell.half != Low
      ensures r.Some? ==> r.value < |items| && items[r.value].id == id && items[r.value].parent == facts[id].parent
      ensures forall q | 0 <= q < |old(items)| && !Within(old(items)[q].id, old(items)[q].Len(), id) ::
                q < |items| && items[q].Len() == old(items)[q].Len()
    {
      hide Sane, Finer, Order, State;
      ghost var w := W();
      ResplitNothing(w);
      var i := Find(id);
      if i == None {
        UncoveredUnit(w, id);
        return None;
      }
      CoveredUnit(w, id, i.value);
      match clients[id.client][i.value]
      case Dead(_, _) => return None;
      case Live(q) =>
        ghost var _ := HeldSlot(w, q, id);
        SaneItem(w, q);
        var offset := id.clock - items[q].id.clock;
        if offset == 0 {
          return Some(q);
        }
        r := SplitItem(q, offset, i.value);
    }

    /** `GetItemCleanEnd`: the item that ends exactly after `id`, cut loose if need be. */
    method CleanEnd(id: ID) returns (r: Option<Ref>)
      requires Valid()
      modifies this
      ensures Valid() && Resplit(old(W()), W())
      ensures r.Some? <==> id in nodes && facts[id].cell.half != High
      ensures r.Some? ==>
                && r.value < |items| && items[r.value].Len() > 0 &&
                  At(items[r.value].id, items[r.value].Len() - 1) == id
                && items[r.value].parent == facts[id].parent
    {
      ghost var w := W();
      var i := Find(id);
      if i == None {
        UncoveredUnit(w, id);
        return None;
      }
      CoveredUnit(w, id, i.value);
      match clients[id.client][i.value]
      case Dead(_, _) => return None;
      case Live(q) =>
        ghost var _ := HeldSlot(w, q, id);
        SaneItem(w, q);
        var offset := id.clock - items[q].id.clock;
        if offset == items[q].Len() - 1 {
          return Some(q);
        }
        var n := SplitItem(q, offset + 1, i.value);
        return if n == None then None else Some(q);
    }

    /** The first item of a list; for a key, walk there from the last one (`leftmost`). */
    method First(k: Owner) returns (r: Option<Ref>)
      requires Valid()
      ensures r == RefAt(ListOf(W(), k), 0)
    {
      hide Sane, ListOf;
      AnchorOf(W(), k);
      if k !in anchor {
        return None;
      }
      r := Some(anchor[k]);
      if !k.Keyed() {
        return;
      }
      ghost var s := ListOf(W(), k);
      ghost var i := |s| - 1;
      Successor(W(), k, i);
      while items[r.value].prev.Some?
        invariant 0 <= i < |s| && r == Some(s[i]) && s[i] < |items|
        invariant items[s[i]].prev == if i == 0 then None else Some(s[i - 1])
        decreases i
      {
        r := items[r.value].prev;
        i := i - 1;
        Successor(W(), k, i);
      }
    }

    /** The case split of `resolveConflict` on item `o`: stop, step over it, or move past it. */
    method Judge(o: Ref, id: ID, origin: Option<ID>, right: Option<ID>, before: set<Ref>, conflicting: set<Ref>,
                 ghost k: Owner, ghost f: nat, ghost i: nat, ghost l: nat)
      returns (d: Option<bool>)
      requires Valid() && f <= l <= i < |ListOf(W(), k)| && o == ListOf(W(), k)[i] && o < |items|
      requires before == Between(ListOf(W(), k), f, i + 1) && conflicting == Between(ListOf(W(), k), l, i + 1)
      requires right != Some(items[o].id)
      ensures ItemTurn(W(), ListOf(W(), k), id, origin, right, f, i, l) ==
                match d
                case None => None
                case Some(moves) => Some(if moves then i + 1 else l)
    {
      hide Sane, HeldIn, Within, Housed, Between;
      var it := items[o];
      if it.origin == origin {
        if it.id.client < id.client {
          return Some(true);
        } else if it.right == right {
          return None;
        }
        return Some(false);
      } else if it.origin == None {
        return None;
      }
      var q := ItemAt(it.origin.value);
      HeldBetween(W(), k, f, i + 1, it.origin.value, q);
      HeldBetween(W(), k, l, i + 1, it.origin.value, q);
      if q == None || q.value !in before {
        return None;
      }
      return Some(q.value !in conflicting);
    }

    /** `resolveConflict`: the item the new one must sit to the right of. */
    method ResolveConflict(id: ID, origin: Option<ID>, right: Option<ID>, parent: Owner,
                           left: Option<Ref>, next: Option<Ref>, ghost x: Node)
      returns (place: Option<Ref>, ghost l: nat)
      requires Valid() && x.Elem? && x.id == id && Resolved(W(), parent, x, origin, right, left, next)
      ensures l <= |ListOf(W(), parent)| && place == Around(ListOf(W(), parent), l).0
      ensures (forall o <- Order(W(), parent) :: o.Elem?) && (x.origin == Start || x.origin in Order(W(), parent))
      ensures Offset(W(), ListOf(W(), parent), l) == Place(Order(W(), parent), x)
    {
      hide Sane, Order, Offset, Place, RightPlace, Scanning, Scene, ListOf, Between, ItemTurn, Names, Known, State;
      ghost var w := W();
      ScanBegins(w, parent, x, origin, right, left, next);
      ghost var s, f := ListOf(w, parent), IndexAfter(w, parent, left);
      ScanIsInside(w, parent, x, f, f, f);
      place, l := left, f;
      var o := First(parent);
      if left.Some? {
        o := items[left.value].next;
      }
      var conflicting: set<Ref>, before: set<Ref> := {}, {};
      ghost var i := f;
      while o.Some? && o != next
        invariant f <= l <= i <= |s| && o == RefAt(s, i) && place == Around(s, l).0
        invariant before == Between(s, f, i) && conflicting == Between(s, l, i)
        invariant Scanning(w, parent, x, f, i, l)
        decreases |s| - i
      {
        ScanTurns(w, parent, x, origin, right, left, next, f, i, l);
        before, conflicting := before + {o.value}, conflicting + {o.value};
        var d := Judge(o.value, id, origin, right, before, conflicting, parent, f, i, l);
        if d == None {
          RightPlaceMeans(w, parent, x, l);
          return;
        }
        if d.value {
          place, l, conflicting := o, i + 1, {};
        }
        o, i := items[o.value].next, i + 1;
      }
      ScanIsOver(w, parent, x, origin, right, left, next, f, i, l);
      RightPlaceMeans(w, parent, x, l);
    }

    /** `Append`: the struct must start exactly where the client's clock space ends. */
    method Append(e: Entry) returns (ok: bool)
      modifies this`clients
      ensures ok <==> old(State(items, clients, EntryID(items, e).client)) == EntryID(items, e).clock
      ensures clients == if ok then AppendTo(old(clients), EntryID(items, e).client, e) else old(clients)
    {
      var id := EntryID(items, e);
      if State(items, clients, id.client) != id.clock {
        return false;
      }
      clients := clients[id.client := (if id.client in clients then clients[id.client] else []) + [e]];
      return true;
    }

    /** `deleteItem`. */
    method DeleteItem(r: Ref)
      requires Valid() && r < |items|
      modifies this`items, this`gone
      ensures Valid() && W() == if old(items[r].deleted) then old(W()) else MarkWorld(old(W()), r)
      ensures gone == old(gone) + IdsOf(old(items[r])) && |items| == |old(items)|
      ensures forall q | 0 <= q < |items| && q != r :: items[q] == old(items)[q]
    {
      hide Sane;
      if items[r].deleted {
        DeletedIds(W(), r);
        return;
      }
      MarkKeepsSane(W(), r);
      gone := gone + IdsOf(items[r]);
      items := items[r := items[r].(deleted := true)];
    }

    /** The item after `place`, or the first of the list. */
    method Next(k: Owner, place: Option<Ref>, ghost l: nat) returns (next: Option<Ref>)
      requires Valid() && l <= |ListOf(W(), k)| && place == Around(ListOf(W(), k), l).0
      ensures next == Around(ListOf(W(), k), l).1
    {
      hide Sane, ListOf;
      AroundRefs(W(), k, l);
      if place.Some? {
        return items[place.value].next;
      }
      next := First(k);
    }

    /** Link a new item in after `place` and store it. */
    method StoreItem(n: Item, place: Option<Ref>, ghost o: Node, ghost t: Node, ghost l: nat)
                     returns (r: Ref, next: Option<Ref>)
      requires Valid() && Insertable(W(), n, o, t, l)
      requires place == Around(ListOf(W(), n.parent), l).0
      modifies this
      ensures Valid() && W() == InsertWorld(old(W()), n, o, t, l) && r == old(|items|)
      ensures next == Around(ListOf(old(W()), n.parent), l).1
    {
      hide Sane, Insertable, InsertWorld, State, Put, WithRun, WithFacts, ListOf, Link, RefAt, Around;
      ghost var w, w' := W(), InsertWorld(W(), n, o, t, l);
      InsertPlan(w, n, o, t, l);
      r := |items|;
      next := Next(n.parent, place, l);
      items := Link(items, place, next, n);
      if (if n.parent.Keyed() then next == None else place == None) {
        anchor := anchor[n.parent := r];
      }
      var stored := Append(Live(r));
      assert stored;
      lists, nodes, facts := w'.lists, w'.nodes, w'.facts;
    }

    /** `YMap.Get`: the last value of the rightmost entry, unless that is deleted. */
    method Get(k: Owner) returns (v: Option<Cell>)
      requires Valid() && k.Keyed()
      ensures v == if ValueOf(W(), k).Some? then Some(ValueOf(W(), k).value.cell) else None
      ensures Order(W(), k) == [] ==> v == None
      ensures Order(W(), k) != [] ==>
                var last := Order(W(), k)[|Order(W(), k)| - 1];
                && last.Elem? && last.id in facts
                && v == if last.id in gone then None else Some(facts[last.id].cell)
    {
      hide Sane, Order, ListOf;
      AnchorOf(W(), k);
      EmptyOrder(W(), k);
      if k !in anchor {
        return None;
      }
      LastOfOrder(W(), k);
      var it := items[anchor[k]];
      ghost var last := At(it.id, it.Len() - 1);
      ghost var _ := HeldSlot(W(), anchor[k], last);
      HeldDeleted(W(), anchor[k], last);
      if it.deleted {
        return None;
      }
      return Some(it.content.cells[|it.content.cells| - 1]);
    }

    /** The list an item hangs off has been deleted. */
    method OwnerDeleted(k: Owner) returns (b: bool)
      requires Valid()
      ensures b == OwnerGone(W(), k)
    {
      match k.holder
      case Root(_) => return false;
      case Nested(id) =>
        var q := ItemAt(id);
        if q == None {
          return false;
        }
        HeldDeleted(W(), q.value, id);
        return items[q.value].deleted;
    }

    /** Conflict resolution runs only when the neighbourhood is not already exactly left, new, right. */
    method FindPlace(id: ID, origin: Option<ID>, right: Option<ID>, parent: Owner,
                     left: Option<Ref>, next: Option<Ref>, ghost x: Node)
      returns (place: Option<Ref>, ghost l: nat)
      requires Valid() && x.Elem? && x.id == id && Resolved(W(), parent, x, origin, right, left, next)
      requires left == None && next.Some? ==> items[next.value].parent == parent
      ensures l <= |ListOf(W(), parent)| && place == Around(ListOf(W(), parent), l).0
      ensures (forall o <- Order(W(), parent) :: o.Elem?) && (x.origin == Start || x.origin in Order(W(), parent))
      ensures Offset(W(), ListOf(W(), parent), l) == Place(Order(W(), parent), x)
    {
      hide Sane, Order, Offset, Place, Names, Known;
      if (left == None && (next == None || items[next.value].prev.Some?)) ||
          (left.Some? && items[left.value].next != next) {
        place, l := ResolveConflict(id, origin, right, parent, left, next, x);
      } else {
        place, l := left, IndexAfter(W(), parent, left);
        NoConflict(W(), parent, x, origin, right, left, next);
      }
    }

    /** The second half of `integrateItem`: find the place, link the item in, store it, and mark
        it deleted if it is born so.  `o` and `t` describe its neighbours. */
    method LinkItem(id: ID, origin: Option<ID>, right: Option<ID>, parent: Owner, content: Content,
                    left: Option<Ref>, next: Option<Ref>, ghost o: Node, ghost t: Node)
      requires Valid() && content.cells != [] && Paired(content.cells)
      requires content.kind == Type ==> |content.cells| == 1
      requires id.clock == State(items, clients, id.client)
      requires Resolved(W(), parent, Described(id, o, t, 0), origin, right, left, next)
      requires o.Elem? ==> o.id in facts && facts[o.id].parent == parent
      requires left == None && next.Some? ==> items[next.value].parent == parent
      modifies this
      ensures Valid()
      ensures Integrated(old(W()), W(), id, o, t, parent, content, content.kind == Tombstone ||
              OwnerGone(old(W()), parent))
      ensures gone == old(gone) + Newly(old(W()), id, |content.cells|, parent,
              Rightmost(old(W()), parent, Described(id, o, t, 0)),
                                        content.kind == Tombstone || OwnerGone(old(W()), parent))
    {
      hide Sane, Order, Offset, Place, Woven, Marks, Newly, InsertWorld, State, Known, Names, ListOf, MarkWorld, IdsOf,
        Rightmost, Replaced;
      ghost var w, x := W(), Described(id, o, t, 0);
      var place, l := FindPlace(id, origin, right, parent, left, next, x);
      var dead := OwnerDeleted(parent);
      var n := Item.Item(id, origin, right, parent, content, None, None, false);
      assert Insertable(w, n, o, t, l) by { SaneRefs(w, parent); }
      InsertIntegrates(w, n, o, t, l);
      InsertRecords(w, n, o, t, l);
      var r, after := StoreItem(n, place, o, t, l);
      ghost var w1 := W();
      ReplacedIs(w, parent, l, items);
      NewIds(w, id, items[r], |content.cells|);
      if parent.Keyed() && after == None && place.Some? {
        MarkWoven(w, w1, id, o, t, parent, content, place.value);
        DeleteItem(place.value);
      }
      if content.kind == Tombstone || dead || (parent.Keyed() && after.Some?) {
        MarkWoven(w, W(), id, o, t, parent, content, r);
        DeleteItem(r);
      }
      MarksDone(w, gone, id, |content.cells|, parent, l, x, content.kind == Tombstone || dead);
    }

    /** Keep a clock range occupied without content. */
    method Bury(id: ID, len: nat)
      requires Valid() && len > 0 && id.clock == State(items, clients, id.client)
      modifies this
      ensures Valid() && Buried(old(W()), W(), id, len)
    {
      hide Sane, Order, State;
      DeadKeepsSane(W(), id, len);
      var stored := Append(Dead(id, len));
      assert stored;
    }
  }
}
