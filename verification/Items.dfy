/**
  The items of a document and how they are linked (internal/crdt/struct.go, structstore.go).

  Items live in an arena: a pointer to an item is an index into the sequence of items, and
  relinking is an update of that sequence.  A `World` is everything integration changes,
  together with what it stands for: the items of each list in order and the description of
  every integrated unit.  This module says what a sound world is and that splitting an item
  and linking a new one in keep it sound.
*/
module Items {
  import opened Ids
  import opened Structs
  import opened Yata

  /** A pointer to an item. */
  type Ref = nat

  datatype Item = Item(
    id: ID, origin: Option<ID>, right: Option<ID>, parent: Owner, content: Content,
    prev: Option<Ref>, next: Option<Ref>, deleted: bool)
  {
    function Len(): nat {
      |content.cells|
    }
  }

  /** One slot of a client's struct list: collected content, or an item. */
  datatype Entry = Dead(id: ID, len: nat) | Live(ref: Ref)

  datatype World = World(
    clients: map<nat, seq<Entry>>,
    anchor: map<Owner, Ref>,
    items: seq<Item>,
    lists: map<Owner, seq<Ref>>,
    nodes: map<ID, Node>,
    facts: map<ID, Fact>,
    gone: set<ID>)

  /** What a unit holds, and the list it belongs to. */
  datatype Fact = Fact(cell: Cell, kind: Kind, parent: Owner)

  // ---------------------------------------------------------------- slots

  function EntryID(items: seq<Item>, e: Entry): ID {
    if e.Dead? then e.id else if e.ref < |items| then items[e.ref].id else ID(0, 0)
  }

  function EntryLen(items: seq<Item>, e: Entry): nat {
    if e.Dead? then e.len else if e.ref < |items| then items[e.ref].Len() else 0
  }

  function Stop(items: seq<Item>, e: Entry): nat {
    EntryID(items, e).clock + EntryLen(items, e)
  }

  /** Struct `i` ends exactly where struct `i + 1` begins, and none is empty. */
  ghost predicate Gapless(items: seq<Item>, c: nat, es: seq<Entry>) {
    && es != [] && EntryID(items, es[0]).clock == 0
    && (forall e <- es :: EntryID(items, e).client == c && EntryLen(items, e) > 0)
    && (forall i {:trigger Abuts(items, es, i)} | 0 < i < |es| :: Abuts(items, es, i))
  }

  ghost predicate Abuts(items: seq<Item>, es: seq<Entry>, i: int) {
    0 < i < |es| && EntryID(items, es[i]).clock == Stop(items, es[i - 1])
  }

  predicate Covers(items: seq<Item>, e: Entry, clock: nat) {
    EntryID(items, e).clock <= clock < Stop(items, e)
  }

  /** The next expected clock of a client: one past its last struct. */
  function State(items: seq<Item>, clients: map<nat, seq<Entry>>, c: nat): nat {
    if c in clients && clients[c] != [] then Stop(items, clients[c][|clients[c]| - 1]) else 0
  }

  lemma {:induction false} StopsIncrease(items: seq<Item>, c: nat, es: seq<Entry>, i: nat, j: nat)
    requires Gapless(items, c, es) && i <= j < |es|
    ensures Stop(items, es[i]) <= Stop(items, es[j])
    ensures i < j ==> Stop(items, es[i]) <= EntryID(items, es[j]).clock
    decreases j - i
  {
    if i < j {
      StopsIncrease(items, c, es, i, j - 1);
      assert Abuts(items, es, j) && EntryLen(items, es[j]) > 0;
    }
  }

  /** The binary search agrees with any other search: one struct covers a clock. */
  lemma CoveringIsUnique(items: seq<Item>, c: nat, es: seq<Entry>, i: nat, j: nat, clock: nat)
    requires Gapless(items, c, es) && i < |es| && j < |es|
    requires Covers(items, es[i], clock) && Covers(items, es[j], clock)
    ensures i == j
  {
    if i < j { StopsIncrease(items, c, es, i, j); }
    if j < i { StopsIncrease(items, c, es, j, i); }
  }

  lemma EntryOnce(items: seq<Item>, c: nat, es: seq<Entry>, i: nat, j: nat)
    requires Gapless(items, c, es) && i < |es| && j < |es| && es[i] == es[j]
    ensures i == j
  {
    assert EntryLen(items, es[i]) > 0;
    CoveringIsUnique(items, c, es, i, j, EntryID(items, es[i]).clock);
  }

  lemma GaplessFrame(items: seq<Item>, items': seq<Item>, c: nat, es: seq<Entry>)
    requires Gapless(items, c, es)
    requires forall e <- es :: EntryLen(items', e) == EntryLen(items, e) && EntryID(items', e) == EntryID(items, e)
    ensures Gapless(items', c, es)
  {
    forall i | 0 < i < |es|
      ensures Abuts(items', es, i)
    {
      assert Abuts(items, es, i) && es[i - 1] in es && es[i] in es;
    }
  }

  function Put<T>(s: seq<T>, l: nat, x: T): (t: seq<T>)
    requires l <= |s|
    ensures |t| == |s| + 1 && t[l] == x
    ensures forall i | 0 <= i < l :: t[i] == s[i]
    ensures forall i | l < i < |t| :: t[i] == s[i - 1]
    ensures x in t && (forall y <- s :: y in t) && (forall y <- t :: y == x || y in s)
  {
    assert s == s[..l] + s[l..];
    s[..l] + [x] + s[l..]
  }

  /** Cutting one struct in two keeps a client's clocks gapless. */
  lemma GaplessCut(items: seq<Item>, items': seq<Item>, c: nat, es: seq<Entry>, index: nat, e: Entry)
    requires Gapless(items, c, es) && index < |es| && EntryID(items', e).client == c
    requires forall j | 0 <= j < |es| ::
               && EntryID(items', es[j]) == EntryID(items, es[j])
               && (j != index ==> EntryLen(items', es[j]) == EntryLen(items, es[j]))
    requires EntryLen(items', es[index]) > 0 && EntryLen(items', e) > 0
    requires EntryID(items', e).clock == Stop(items', es[index]) && Stop(items', e) == Stop(items, es[index])
    ensures Gapless(items', c, Put<Entry>(es, index + 1, e))
  {
    hide Put;
    var t := Put<Entry>(es, index + 1, e);
    forall i | 0 < i < |t|
      ensures Abuts(items', t, i)
    {
      if i <= index {
        assert Abuts(items, es, i);
      } else if i > index + 1 {
        assert Abuts(items, es, i - 1);
      }
    }
    forall x | x in t
      ensures EntryID(items', x).client == c && EntryLen(items', x) > 0
    {
      if x != e {
        var j :| 0 <= j < |es| && es[j] == x;
      }
    }
  }

  /** Appending a struct that starts where the client's clock space ends keeps it gapless. */
  lemma GaplessAppend(items: seq<Item>, c: nat, es: seq<Entry>, e: Entry)
    requires Gapless(items, c, es) && EntryID(items, e).client == c && EntryLen(items, e) > 0
    requires EntryID(items, e).clock == Stop(items, es[|es| - 1])
    ensures Gapless(items, c, es + [e])
  {
    var t := es + [e];
    forall i | 0 < i < |t|
      ensures Abuts(items, t, i)
    {
      if i < |es| { assert Abuts(items, es, i); }
    }
  }

  // ---------------------------------------------------------------- lists

  ghost predicate Linked(items: seq<Item>, s: seq<Ref>) {
    && (forall r <- s :: r < |items|)
    && (forall i {:trigger LinkedAt(items, s, i)} | 0 <= i < |s| :: LinkedAt(items, s, i))
    && (forall i, j | 0 <= i < j < |s| :: s[i] != s[j])
  }

  ghost predicate LinkedAt(items: seq<Item>, s: seq<Ref>, i: int) {
    && 0 <= i < |s| && s[i] < |items|
    && items[s[i]].prev == (if i == 0 then None else Some(s[i - 1]))
    && items[s[i]].next == (if i == |s| - 1 then None else Some(s[i + 1]))
  }

  /** The assignments that link a new item in between `a` and `b`. */
  function Link(items: seq<Item>, a: Option<Ref>, b: Option<Ref>, n: Item): (items': seq<Item>)
    requires (a.Some? ==> a.value < |items|) && (b.Some? ==> b.value < |items|) && (a.Some? ==> a != b)
    ensures |items'| == |items| + 1 && items'[|items|] == n.(prev := a, next := b)
    ensures forall r | 0 <= r < |items| ::
              items'[r] == items[r].(next := if a == Some(r) then Some(|items|) else items[r].next,
                                     prev := if b == Some(r) then Some(|items|) else items[r].prev)
  {
    var i1 := items + [n.(prev := a, next := b)];
    var i2 := if a.Some? then i1[a.value := i1[a.value].(next := Some(|items|))] else i1;
    if b.Some? then i2[b.value := i2[b.value].(prev := Some(|items|))] else i2
  }

  function Around(s: seq<Ref>, l: nat): (ab: (Option<Ref>, Option<Ref>))
    requires l <= |s|
  {
    (if l > 0 then Some(s[l - 1]) else None, if l < |s| then Some(s[l]) else None)
  }

  lemma LinkKeepsLinked(items: seq<Item>, s: seq<Ref>, l: nat, n: Item)
    requires l <= |s| && Linked(items, s)
    ensures var (a, b) := Around(s, l);
            && (a.Some? ==> a.value < |items| && a != b) && (b.Some? ==> b.value < |items|)
            && Linked(Link(items, a, b, n), Put<Ref>(s, l, |items|))
  {
    hide Link, Put;
    var (a, b) := Around(s, l);
    assert l > 0 ==> s[l - 1] in s;
    assert l < |s| ==> s[l] in s;
    var items', t := Link(items, a, b, n), Put<Ref>(s, l, |items|);
    forall i | 0 <= i < |t|
      ensures LinkedAt(items', t, i)
    {
      if i != l {
        assert LinkedAt(items, s, if i < l then i else i - 1);
      }
    }
    forall i, j | 0 <= i < j < |t|
      ensures t[i] != t[j]
    {
      var i', j' := if i < l then i else i - 1, if j < l then j else j - 1;
      assert i != l ==> t[i] == s[i'] && s[i'] in s;
      assert j != l ==> t[j] == s[j'] && s[j'] in s;
    }
  }

  lemma LinkedFrame(items: seq<Item>, items': seq<Item>, s: seq<Ref>)
    requires Linked(items, s)
    requires forall r <- s :: r < |items'| && items'[r].prev == items[r].prev && items'[r].next == items[r].next
    ensures Linked(items', s)
  {
    forall i | 0 <= i < |s|
      ensures LinkedAt(items', s, i)
    {
      assert LinkedAt(items, s, i) && s[i] in s;
    }
  }

  // ---------------------------------------------------------------- units

  /** `n` describes the unit that `id` names; no id is the `edge` of the list. */
  predicate Names(id: Option<ID>, n: Node, edge: Node) {
    match id
    case None => n == edge
    case Some(i) => n.Elem? && n.id == i
  }

  function At(id: ID, j: nat): ID {
    ID(id.client, id.clock + j)
  }

  predicate Within(id: ID, len: nat, x: ID) {
    x.client == id.client && id.clock <= x.clock < id.clock + len
  }

  /** Unit `j` of an item: the first carries the item's origin, every other one its predecessor,
      and all of them the item's right origin. */
  ghost predicate UnitOk(nodes: map<ID, Node>, facts: map<ID, Fact>, gone: set<ID>, it: Item, j: nat) {
    var x := At(it.id, j);
    && x in nodes && nodes[x].Elem? && nodes[x].id == x
    && Names(if j == 0 then it.origin else Some(At(it.id, j - 1)), nodes[x].origin, Start)
    && Names(it.right, nodes[x].right, End)
    && j < it.Len() && x in facts && facts[x] == Fact(it.content.cells[j], it.content.kind, it.parent)
    && (x in gone <==> it.deleted)
  }

  ghost predicate ItemSound(nodes: map<ID, Node>, facts: map<ID, Fact>, gone: set<ID>, it: Item) {
    && it.content.cells != [] && Paired(it.content.cells)
    && (it.content.kind == Type ==> it.Len() == 1)
    && (forall j: nat {:trigger UnitOk(nodes, facts, gone, it, j)} | j < it.Len() :: UnitOk(nodes, facts, gone, it, j))
  }

  ghost function UnitsOf(nodes: map<ID, Node>, it: Item): (u: seq<Node>)
    ensures |u| == it.Len()
  {
    seq(it.Len(), j requires 0 <= j < it.Len() => if At(it.id, j) in nodes then nodes[At(it.id, j)] else Start)
  }

  ghost function Concat(rs: seq<seq<Node>>): seq<Node> {
    if rs == [] then [] else rs[0] + Concat(rs[1..])
  }

  lemma {:induction false} ConcatAppend(a: seq<seq<Node>>, b: seq<seq<Node>>)
    ensures Concat(a + b) == Concat(a) + Concat(b)
  {
    if a == [] {
      assert a + b == b;
    } else {
      assert (a + b)[1..] == a[1..] + b;
      ConcatAppend(a[1..], b);
      assert Concat(a + b) == a[0] + (Concat(a[1..]) + Concat(b));
    }
  }

  lemma ConcatTwo(r: seq<Node>, q: seq<Node>)
    ensures Concat([r]) == r && Concat([r, q]) == r + q
  {
    assert [r][1..] == [] && [q][1..] == [] && [r, q][1..] == [q];
    assert Concat([q]) == q && Concat([r]) == r;
  }

  ghost function RunAt(w: World, r: Ref): seq<Node> {
    if r < |w.items| then UnitsOf(w.nodes, w.items[r]) else []
  }

  ghost function RunsOf(w: World, s: seq<Ref>): (rs: seq<seq<Node>>)
    ensures |rs| == |s| && forall i | 0 <= i < |s| :: rs[i] == RunAt(w, s[i])
  {
    seq(|s|, i requires 0 <= i < |s| => RunAt(w, s[i]))
  }

  /** The units of a sequence of items, in order. */
  ghost function Units(w: World, s: seq<Ref>): seq<Node> {
    Concat(RunsOf(w, s))
  }

  lemma UnitsAppend(w: World, a: seq<Ref>, b: seq<Ref>)
    ensures Units(w, a + b) == Units(w, a) + Units(w, b)
  {
    hide RunsOf;
    assert RunsOf(w, a + b) == RunsOf(w, a) + RunsOf(w, b);
    ConcatAppend(RunsOf(w, a), RunsOf(w, b));
  }

  lemma UnitsTwo(w: World, r: Ref, q: Ref)
    ensures Units(w, [r]) == RunAt(w, r)
    ensures Units(w, [r, q]) == RunAt(w, r) + RunAt(w, q)
  {
    hide RunsOf, RunAt;
    assert RunsOf(w, [r]) == [RunAt(w, r)];
    assert RunsOf(w, [r, q]) == [RunAt(w, r), RunAt(w, q)];
    ConcatTwo(RunAt(w, r), RunAt(w, q));
  }

  lemma UnitsFrame(w: World, w': World, s: seq<Ref>)
    requires forall r <- s :: RunAt(w', r) == RunAt(w, r)
    ensures Units(w', s) == Units(w, s)
  {
    hide RunAt;
    assert RunsOf(w', s) == RunsOf(w, s);
  }

  /** Units of a list around one of its items. */
  lemma UnitsAt(w: World, s: seq<Ref>, i: nat)
    requires i < |s|
    ensures Units(w, s) == Units(w, s[..i]) + RunAt(w, s[i]) + Units(w, s[i + 1..])
  {
    hide Units, RunAt;
    assert s == s[..i] + [s[i]] + s[i + 1..];
    UnitsAppend(w, s[..i] + [s[i]], s[i + 1..]);
    UnitsAppend(w, s[..i], [s[i]]);
    UnitsTwo(w, s[i], s[i]);
  }

  // ---------------------------------------------------------------- the invariant

  ghost predicate SlotOk(w: World, c: nat) {
    && c in w.clients && Gapless(w.items, c, w.clients[c])
    && (forall e <- w.clients[c] :: e.Live? ==> e.ref < |w.items|)
  }

  ghost predicate ItemOk(w: World, r: Ref) {
    && r < |w.items|
    && var it := w.items[r];
       && ItemSound(w.nodes, w.facts, w.gone, it)
       && it.id.client in w.clients && Live(r) in w.clients[it.id.client]
       && it.parent in w.lists && r in w.lists[it.parent]
  }

  /** The item a type keeps of a list: the first of a sequence, the last of a key's entries. */
  function Anchor(k: Owner, s: seq<Ref>): Ref
    requires s != []
  {
    if k.Keyed() then s[|s| - 1] else s[0]
  }

  ghost predicate ListOk(w: World, k: Owner) {
    && k in w.lists && w.lists[k] != [] && Linked(w.items, w.lists[k])
    && k in w.anchor && w.anchor[k] == Anchor(k, w.lists[k])
    && (forall r <- w.lists[k] :: w.items[r].parent == k)
  }

  /** The units an integrated unit refers to are integrated units. */
  ghost predicate NodeOk(w: World, id: ID) {
    && id in w.nodes && w.nodes[id].Elem? && w.nodes[id].id == id
    && (w.nodes[id].origin == Start || Known(w.nodes, w.nodes[id].origin))
    && (w.nodes[id].right == End || Known(w.nodes, w.nodes[id].right))
    && id.clock < State(w.items, w.clients, id.client)
    && Housed(w.items, id)
    && SameList(w, id)
  }

  /** A unit belongs to the list of its origin. */
  ghost predicate SameList(w: World, id: ID) {
    id in w.nodes && w.nodes[id].Elem? && w.nodes[id].origin.Elem? ==>
      && id in w.facts && w.nodes[id].origin.id in w.facts
      && w.facts[w.nodes[id].origin.id].parent == w.facts[id].parent
  }

  /** Some item holds the unit. */
  ghost predicate Housed(items: seq<Item>, id: ID) {
    exists r | 0 <= r < |items| :: Within(items[r].id, items[r].Len(), id)
  }

  ghost predicate Known(nodes: map<ID, Node>, n: Node) {
    n.Elem? && n.id in nodes && nodes[n.id] == n
  }

  ghost predicate Sane(w: World) {
    && (forall c {:trigger SlotOk(w, c)} | c in w.clients :: SlotOk(w, c))
    && (forall r {:trigger ItemOk(w, r)} | 0 <= r < |w.items| :: ItemOk(w, r))
    && (forall k {:trigger ListOk(w, k)} | k in w.lists :: ListOk(w, k))
    && (forall id {:trigger NodeOk(w, id)} | id in w.nodes :: NodeOk(w, id))
    && w.anchor.Keys == w.lists.Keys && w.gone <= w.nodes.Keys && w.facts.Keys == w.nodes.Keys
  }

  lemma SaneItem(w: World, r: Ref)
    requires Sane(w) && r < |w.items|
    ensures ItemOk(w, r)
  {
    hide ItemOk;
  }

  lemma SaneList(w: World, k: Owner)
    requires Sane(w) && k in w.lists
    ensures ListOk(w, k)
  {
    hide ListOk;
  }

  lemma SaneSlot(w: World, c: nat)
    requires Sane(w) && c in w.clients
    ensures SlotOk(w, c)
  {
    hide SlotOk;
  }

  lemma SaneNode(w: World, id: ID)
    requires Sane(w) && id in w.nodes
    ensures NodeOk(w, id)
  {
    hide NodeOk;
  }

  lemma SaneKeys(w: World)
    requires Sane(w)
    ensures w.facts.Keys == w.nodes.Keys && w.gone <= w.nodes.Keys
  {
    hide SlotOk, ItemOk, ListOk, NodeOk;
  }

  ghost function ListOf(w: World, k: Owner): seq<Ref> {
    if k in w.lists then w.lists[k] else []
  }

  lemma SaneRefs(w: World, k: Owner)
    requires Sane(w)
    ensures Linked(w.items, ListOf(w, k)) && forall r <- ListOf(w, k) :: w.items[r].parent == k
  {
    if k in w.lists { SaneList(w, k); }
  }

  /** The units of list `k`, in order. */
  ghost function Order(w: World, k: Owner): seq<Node> {
    Units(w, ListOf(w, k))
  }

  /** The value of a key: its rightmost entry, unless that is deleted. */
  ghost function ValueOf(w: World, k: Owner): Option<Fact> {
    var u := Order(w, k);
    if u != [] && u[|u| - 1].Elem? && u[|u| - 1].id in w.facts &&
        u[|u| - 1].id !in w.gone then Some(w.facts[u[|u| - 1].id]) else None
  }

  // ---------------------------------------------------------------- splitting

  ghost predicate Splittable(w: World, r: Ref, off: nat, index: nat, i: nat) {
    && ItemOk(w, r) && ListOk(w, w.items[r].parent) && Splits(w.items[r].content, off)
    && var c, k := w.items[r].id.client, w.items[r].parent;
       && index < |w.clients[c]| && w.clients[c][index] == Live(r)
       && i < |w.lists[k]| && w.lists[k][i] == r
  }

  function HeadItem(it: Item, off: nat): Item
    requires off <= it.Len()
  {
    it.(content := Upto(it.content, off))
  }

  function TailItem(it: Item, off: nat): Item
    requires 0 < off <= it.Len()
  {
    Item.Item(At(it.id, off), Some(At(it.id, off - 1)), it.right, it.parent, From(it.content, off), None, None,
      it.deleted)
  }

  ghost function SplitWorld(w: World, r: Ref, off: nat, index: nat, i: nat): World
    requires Splittable(w, r, off, index, i)
  {
    var it := w.items[r];
    var c, k := it.id.client, it.parent;
    assert LinkedAt(w.items, w.lists[k], i);
    assert i + 1 < |w.lists[k]| ==> w.lists[k][i + 1] in w.lists[k];
    w.(clients := w.clients[c := Put<Entry>(w.clients[c], index + 1, Live(|w.items|))],
       anchor := if k.Keyed() && it.next == None then w.anchor[k := |w.items|] else w.anchor,
       items := Link(w.items[r := HeadItem(it, off)], Some(r), it.next, TailItem(it, off)),
       lists := w.lists[k := Put<Ref>(w.lists[k], i + 1, |w.items|)])
  }

  lemma SplitRecords(w: World, r: Ref, off: nat, index: nat, i: nat)
    requires Splittable(w, r, off, index, i)
    ensures var it, items' := w.items[r], SplitWorld(w, r, off, index, i).items;
            && |items'| == |w.items| + 1
            && items'[r] == HeadItem(it, off).(next := Some(|w.items|))
            && items'[|w.items|] == TailItem(it, off).(prev := Some(r), next := it.next)
            && (it.next.Some? ==>
                  && it.next.value < |w.items| && it.next.value != r && w.items[it.next.value].parent == it.parent
                  && items'[it.next.value] == w.items[it.next.value].(prev := Some(|w.items|)))
            && (forall q | 0 <= q < |w.items| && q != r && Some(q) != it.next :: items'[q] == w.items[q])
  {
    hide ItemSound, Put, Link;
    var s := w.lists[w.items[r].parent];
    assert LinkedAt(w.items, s, i);
    if i + 1 < |s| { assert s[i + 1] in s && s[i] != s[i + 1]; }
  }

  lemma SplitSound(w: World, it: Item, off: nat)
    requires ItemSound(w.nodes, w.facts, w.gone, it) && Splits(it.content, off)
    ensures ItemSound(w.nodes, w.facts, w.gone, HeadItem(it, off))
    ensures ItemSound(w.nodes, w.facts, w.gone, TailItem(it, off))
    ensures UnitsOf(w.nodes, it) == UnitsOf(w.nodes, HeadItem(it, off)) + UnitsOf(w.nodes, TailItem(it, off))
  {
    SplitKeepsPaired(it.content, off);
    var h, t := HeadItem(it, off), TailItem(it, off);
    forall j: nat | j < h.Len()
      ensures UnitOk(w.nodes, w.facts, w.gone, h, j)
    {
      assert UnitOk(w.nodes, w.facts, w.gone, it, j);
    }
    forall j: nat | j < t.Len()
      ensures UnitOk(w.nodes, w.facts, w.gone, t, j)
    {
      assert UnitOk(w.nodes, w.facts, w.gone, it, off + j);
    }
    assert forall j: nat | j < t.Len() :: At(t.id, j) == At(it.id, off + j);
  }

  /** What soundness says of an item does not depend on its links. */
  lemma SoundFrame(nodes: map<ID, Node>, facts: map<ID, Fact>, gone: set<ID>, a: Item, b: Item)
    requires ItemSound(nodes, facts, gone, a) && b == a.(prev := b.prev, next := b.next)
    ensures ItemSound(nodes, facts, gone, b) && UnitsOf(nodes, b) == UnitsOf(nodes, a)
  {
    forall j: nat | j < b.Len()
      ensures UnitOk(nodes, facts, gone, b, j)
    {
      assert UnitOk(nodes, facts, gone, a, j);
    }
  }

  lemma SplitSlots(w: World, r: Ref, off: nat, index: nat, i: nat, c: nat)
    requires Splittable(w, r, off, index, i) && SlotOk(w, c)
    ensures SlotOk(SplitWorld(w, r, off, index, i), c)
  {
    hide ItemSound, ListOk, Put, Link;
    var w' := SplitWorld(w, r, off, index, i);
    SplitRecords(w, r, off, index, i);
    var es := w.clients[c];
    if c != w.items[r].id.client {
      GaplessFrame(w.items, w'.items, c, es);
    } else {
      forall j | 0 <= j < |es|
        ensures EntryID(w'.items, es[j]) == EntryID(w.items, es[j])
        ensures j != index ==> EntryLen(w'.items, es[j]) == EntryLen(w.items, es[j])
      {
        if es[j] == Live(r) { EntryOnce(w.items, c, es, j, index); }
      }
      GaplessCut(w.items, w'.items, c, es, index, Live(|w.items|));
    }
  }

  lemma GaplessMember(items: seq<Item>, c: nat, es: seq<Entry>, e: Entry)
    requires Gapless(items, c, es) && e in es
    ensures EntryID(items, e).client == c && EntryLen(items, e) > 0
  {
    hide Abuts;
  }

  lemma GaplessIsSome(items: seq<Item>, c: nat, es: seq<Entry>)
    requires Gapless(items, c, es)
    ensures es != []
  {
  }

  lemma SplitKeepsState(w: World, r: Ref, off: nat, index: nat, i: nat, c: nat)
    requires Sane(w) && Splittable(w, r, off, index, i)
    ensures var w' := SplitWorld(w, r, off, index, i);
            State(w'.items, w'.clients, c) == State(w.items, w.clients, c)
  {
    hide Sane, ItemSound, ListOk, Put, Link, Gapless;
    if c in w.clients {
      SaneSlot(w, c);
      GaplessIsSome(w.items, c, w.clients[c]);
      var es := w.clients[c];
      var last := es[|es| - 1];
      SplitRecords(w, r, off, index, i);
      GaplessMember(w.items, c, es, last);
      if last == Live(r) { EntryOnce(w.items, c, es, |es| - 1, index); }
    }
  }

  lemma SplitItems(w: World, r: Ref, off: nat, index: nat, i: nat, q: Ref)
    requires Splittable(w, r, off, index, i) && (ItemOk(w, q) || q == |w.items|)
    ensures ItemOk(SplitWorld(w, r, off, index, i), q)
  {
    hide ItemSound, ListOk, Put, Link;
    var w', it := SplitWorld(w, r, off, index, i), w.items[r];
    SplitRecords(w, r, off, index, i);
    SplitSound(w, it, off);
    SoundFrame(w.nodes, w.facts, w.gone,
               if q == r then HeadItem(it, off) else if q == |w.items| then TailItem(it, off) else w.items[q],
               w'.items[q]);
  }

  lemma SplitOwnList(w: World, r: Ref, off: nat, index: nat, i: nat)
    requires Splittable(w, r, off, index, i)
    ensures var w', k := SplitWorld(w, r, off, index, i), w.items[r].parent;
            k in w'.lists && Linked(w'.items, w'.lists[k])
  {
    hide ItemSound, Put, Link, Linked;
    SplitLinks(w.items, w.lists[w.items[r].parent], i, off);
  }

  /** Linking the tail of item `s[i]` in after its head. */
  lemma SplitLinks(items: seq<Item>, s: seq<Ref>, i: nat, off: nat)
    requires Linked(items, s) && i < |s| && s[i] < |items| && 0 < off <= items[s[i]].Len()
    ensures var r, it := s[i], items[s[i]];
            && (it.next.Some? ==> it.next.value < |items| && it.next.value != r)
            && Linked(Link(items[r := HeadItem(it, off)], Some(r), it.next, TailItem(it, off)),
              Put<Ref>(s, i + 1, |items|))
  {
    hide Put, Link;
    var r, it := s[i], items[s[i]];
    var items' := items[r := HeadItem(it, off)];
    LinkedFrame(items, items', s);
    assert LinkedAt(items, s, i);
    assert Around(s, i + 1) == (Some(r), it.next);
    LinkKeepsLinked(items', s, i + 1, TailItem(it, off));
  }

  lemma SplitLists(w: World, r: Ref, off: nat, index: nat, i: nat, k: Owner)
    requires Splittable(w, r, off, index, i) && ListOk(w, k)
    ensures ListOk(SplitWorld(w, r, off, index, i), k)
  {
    hide ItemSound, Put, Link;
    var w', it := SplitWorld(w, r, off, index, i), w.items[r];
    SplitRecords(w, r, off, index, i);
    if k == it.parent {
      assert LinkedAt(w.items, w.lists[k], i);
      SplitOwnList(w, r, off, index, i);
    } else {
      LinkedFrame(w.items, w'.items, w.lists[k]);
    }
  }

  lemma SplitFields(w: World, r: Ref, off: nat, index: nat, i: nat)
    requires Splittable(w, r, off, index, i)
    ensures var w' := SplitWorld(w, r, off, index, i);
            && w'.nodes == w.nodes && w'.facts == w.facts && w'.gone == w.gone && w'.anchor.Keys == w.anchor.Keys
            && w'.clients.Keys == w.clients.Keys && w'.lists.Keys == w.lists.Keys
            && |w'.items| == |w.items| + 1
  {
    hide ItemSound, Put;
  }

  /** Splitting an item keeps the world sound. */
  lemma SplitKeepsSane(w: World, r: Ref, off: nat, index: nat, i: nat)
    requires Sane(w) && Splittable(w, r, off, index, i)
    ensures Sane(SplitWorld(w, r, off, index, i))
  {
    hide SlotOk, ItemOk, ListOk, NodeOk, SplitWorld, Splittable;
    var w' := SplitWorld(w, r, off, index, i);
    SplitFields(w, r, off, index, i);
    forall c | c in w'.clients
      ensures SlotOk(w', c)
    {
      SaneSlot(w, c);
      SplitSlots(w, r, off, index, i, c);
    }
    forall q | 0 <= q < |w'.items|
      ensures ItemOk(w', q)
    {
      if q < |w.items| { SaneItem(w, q); }
      SplitItems(w, r, off, index, i, q);
    }
    forall k | k in w'.lists
      ensures ListOk(w', k)
    {
      SaneList(w, k);
      SplitLists(w, r, off, index, i, k);
    }
    forall id | id in w'.nodes
      ensures NodeOk(w', id)
    {
      SaneNode(w, id);
      SplitKeepsState(w, r, off, index, i, id.client);
      SplitKeepsHoused(w, r, off, index, i, id);
      NodeFrame(w, w', id);
    }
  }

  lemma SplitKeepsHoused(w: World, r: Ref, off: nat, index: nat, i: nat, id: ID)
    requires Splittable(w, r, off, index, i) && NodeOk(w, id)
    ensures Housed(SplitWorld(w, r, off, index, i).items, id)
  {
    hide ItemSound, Put, Link, ListOk;
    var items' := SplitWorld(w, r, off, index, i).items;
    SplitRecords(w, r, off, index, i);
    var q :| 0 <= q < |w.items| && Within(w.items[q].id, w.items[q].Len(), id);
    if q == r {
      var n := |w.items|;
      assert Within(items'[r].id, items'[r].Len(), id) || Within(items'[n].id, items'[n].Len(), id);
    } else {
      assert Within(items'[q].id, items'[q].Len(), id);
    }
  }

  lemma NodeFrame(w: World, w': World, id: ID)
    requires NodeOk(w, id) && w'.nodes == w.nodes && w'.facts == w.facts && Housed(w'.items, id)
    requires State(w'.items, w'.clients, id.client) >= State(w.items, w.clients, id.client)
    ensures NodeOk(w', id)
  {
  }

  lemma UnitsSplit(w: World, w': World, s: seq<Ref>, i: nat, n: Ref)
    requires i < |s| && n !in s && (forall j, l | 0 <= j < l < |s| :: s[j] != s[l])
    requires forall q <- s | q != s[i] :: RunAt(w', q) == RunAt(w, q)
    requires RunAt(w, s[i]) == RunAt(w', s[i]) + RunAt(w', n)
    ensures Units(w', Put<Ref>(s, i + 1, n)) == Units(w, s)
  {
    hide Units, RunAt;
    var a, b := s[..i], s[i + 1..];
    UnitsAt(w, s, i);
    assert Put<Ref>(s, i + 1, n) == a + [s[i], n] + b;
    UnitsAppend(w', a + [s[i], n], b);
    UnitsAppend(w', a, [s[i], n]);
    UnitsTwo(w', s[i], n);
    UnitsFrame(w, w', a);
    UnitsFrame(w, w', b);
  }

  /** Splitting an item changes the order of no list. */
  lemma SplitKeepsOrder(w: World, r: Ref, off: nat, index: nat, i: nat, k: Owner)
    requires Sane(w) && Splittable(w, r, off, index, i)
    ensures Order(SplitWorld(w, r, off, index, i), k) == Order(w, k)
  {
    SaneRefs(w, k);
    hide Sane, ItemSound, Put, Link, Units, UnitsOf;
    var w', it := SplitWorld(w, r, off, index, i), w.items[r];
    SplitRecords(w, r, off, index, i);
    SplitSound(w, it, off);
    forall q | 0 <= q < |w.items| && q != r
      ensures RunAt(w', q) == RunAt(w, q)
    {
      SoundFrameUnits(w.nodes, w.items[q], w'.items[q]);
    }
    SoundFrameUnits(w.nodes, HeadItem(it, off), w'.items[r]);
    SoundFrameUnits(w.nodes, TailItem(it, off), w'.items[|w.items|]);
    if k == it.parent {
      UnitsSplit(w, w', w.lists[k], i, |w.items|);
    } else {
      UnitsFrame(w, w', ListOf(w, k));
    }
  }

  lemma SoundFrameUnits(nodes: map<ID, Node>, a: Item, b: Item)
    requires b.id == a.id && b.content == a.content
    ensures UnitsOf(nodes, b) == UnitsOf(nodes, a)
  {
  }

  // ---------------------------------------------------------------- linking a new item in

  /** The descriptions of the units of a new item: unit `j`. */
  ghost function Described(id: ID, origin: Node, right: Node, j: nat): (n: Node)
    ensures n.Elem? && n.id == At(id, j) && n.right == right
  {
    Elem(At(id, j), if j == 0 then origin else Described(id, origin, right, j - 1), right)
  }

  ghost function DescribedRun(id: ID, origin: Node, right: Node, len: nat): (u: seq<Node>)
    ensures |u| == len && forall j | 0 <= j < len :: u[j] == Described(id, origin, right, j)
  {
    seq(len, j requires 0 <= j < len => Described(id, origin, right, j))
  }

  ghost function WithRun(nodes: map<ID, Node>, id: ID, origin: Node, right: Node, len: nat): map<ID, Node> {
    map x | x in nodes.Keys + (set j | 0 <= j < len :: At(id, j)) ::
      if x in nodes then nodes[x]
      else Described(id, origin, right, if x.clock >= id.clock then x.clock - id.clock else 0)
  }

  ghost function WithFacts(facts: map<ID, Fact>, n: Item): map<ID, Fact> {
    map x | x in facts.Keys + (set j | 0 <= j < n.Len() :: At(n.id, j)) ::
      if x in facts then facts[x]
      else Fact(n.content.cells[if Within(n.id, n.Len(), x) then x.clock - n.id.clock else 0], n.content.kind, n.parent)
  }

  /** A new item `n`, its neighbours described by `o` and `t`, may go in at index `l` of its list. */
  ghost predicate Insertable(w: World, n: Item, o: Node, t: Node, l: nat) {
    && n.content.cells != [] && Paired(n.content.cells) && (n.content.kind == Type ==> n.Len() == 1)
    && !n.deleted && n.id.clock == State(w.items, w.clients, n.id.client)
    && Names(n.origin, o, Start) && (o == Start || Known(w.nodes, o))
    && (o.Elem? ==> o.id in w.facts && w.facts[o.id].parent == n.parent)
    && Names(n.right, t, End) && (t == End || Known(w.nodes, t))
    && l <= |ListOf(w, n.parent)| && Linked(w.items, ListOf(w, n.parent))
  }

  ghost function InsertWorld(w: World, n: Item, o: Node, t: Node, l: nat): World
    requires Insertable(w, n, o, t, l)
  {
    var s, c := ListOf(w, n.parent), n.id.client;
    var (a, b) := Around(s, l);
    assert l > 0 ==> s[l - 1] in s;
    assert l < |s| ==> s[l] in s;
    World(
      w.clients[c := (if c in w.clients then w.clients[c] else []) + [Live(|w.items|)]],
      if l == (if n.parent.Keyed() then |s| else 0) then w.anchor[n.parent := |w.items|] else w.anchor,
      Link(w.items, a, b, n),
      w.lists[n.parent := Put<Ref>(s, l, |w.items|)],
      WithRun(w.nodes, n.id, o, t, n.Len()),
      WithFacts(w.facts, n),
      w.gone)
  }

  lemma InsertRecords(w: World, n: Item, o: Node, t: Node, l: nat)
    requires Insertable(w, n, o, t, l)
    ensures var items', (a, b) := InsertWorld(w, n, o, t, l).items, Around(ListOf(w, n.parent), l);
            && |items'| == |w.items| + 1
            && items'[|w.items|] == n.(prev := a, next := b)
            && (forall q | 0 <= q < |w.items| ::
                  && items'[q] == w.items[q].(prev := items'[q].prev, next := items'[q].next)
                  && (q !in ListOf(w, n.parent) ==> items'[q] == w.items[q]))
  {
    hide Put, WithRun, WithFacts, Linked;
    var s := ListOf(w, n.parent);
    assert l > 0 ==> s[l - 1] in s;
    assert l < |s| ==> s[l] in s;
  }

  /** The old descriptions, and those of the new item's units. */
  ghost predicate Extends(nodes: map<ID, Node>, nodes': map<ID, Node>, id: ID, o: Node, t: Node, len: nat) {
    && (forall x <- nodes :: x in nodes' && nodes'[x] == nodes[x] && !Within(id, len, x))
    && (forall x <- nodes' :: x in nodes || Within(id, len, x))
    && (forall j: nat {:trigger At(id, j)} | j < len ::
      At(id, j) in nodes' && nodes'[At(id, j)] == Described(id, o, t, j))
  }

  lemma WithRunExtends(nodes: map<ID, Node>, id: ID, o: Node, t: Node, len: nat)
    requires forall x <- nodes :: !Within(id, len, x)
    ensures Extends(nodes, WithRun(nodes, id, o, t, len), id, o, t, len)
  {
    hide Described;
  }

  lemma InsertNodes(w: World, n: Item, o: Node, t: Node, l: nat)
    requires Sane(w) && Insertable(w, n, o, t, l)
    ensures Extends(w.nodes, InsertWorld(w, n, o, t, l).nodes, n.id, o, t, n.Len())
  {
    forall x | x in w.nodes
      ensures !Within(n.id, n.Len(), x)
    {
      SaneNode(w, x);
    }
    hide *;
    WithRunExtends(w.nodes, n.id, o, t, n.Len());
  }

  /** The old facts, and those of the new item's units. */
  lemma InsertFacts(w: World, n: Item, o: Node, t: Node, l: nat)
    requires Sane(w) && Insertable(w, n, o, t, l)
    ensures var facts' := InsertWorld(w, n, o, t, l).facts;
            && (forall x <- w.facts :: x in facts' && facts'[x] == w.facts[x] && !Within(n.id, n.Len(), x))
            && (forall x <- facts' :: x in w.facts || Within(n.id, n.Len(), x))
            && (forall j: nat {:trigger At(n.id, j)} | j < n.Len() ::
                  At(n.id, j) in facts' && facts'[At(n.id, j)] == Fact(n.content.cells[j], n.content.kind, n.parent))
  {
    forall x | x in w.facts
      ensures !Within(n.id, n.Len(), x)
    {
      SaneNode(w, x);
    }
    hide *;
    WithFactsExtends(w.facts, n);
  }

  lemma WithFactsExtends(facts: map<ID, Fact>, n: Item)
    requires forall x <- facts :: !Within(n.id, n.Len(), x)
    ensures var facts' := WithFacts(facts, n);
            && (forall x <- facts :: x in facts' && facts'[x] == facts[x])
            && (forall x <- facts' :: x in facts || Within(n.id, n.Len(), x))
            && (forall j: nat {:trigger At(n.id, j)} | j < n.Len() ::
                  At(n.id, j) in facts' && facts'[At(n.id, j)] == Fact(n.content.cells[j], n.content.kind, n.parent))
  {
  }

  lemma InsertSlots(w: World, n: Item, o: Node, t: Node, l: nat, c: nat)
    requires Insertable(w, n, o, t, l) && (SlotOk(w, c) || (c == n.id.client && c !in w.clients))
    ensures var w' := InsertWorld(w, n, o, t, l);
            && SlotOk(w', c)
            && State(w'.items, w'.clients, c) ==
                 (if c == n.id.client then n.id.clock + n.Len() else State(w.items, w.clients, c))
  {
    hide Linked, Put, Link, WithRun, WithFacts;
    var w' := InsertWorld(w, n, o, t, l);
    InsertRecords(w, n, o, t, l);
    if c in w.clients {
      GaplessFrame(w.items, w'.items, c, w.clients[c]);
      if c == n.id.client {
        GaplessAppend(w'.items, c, w.clients[c], Live(|w.items|));
      }
    }
  }

  lemma SoundExtends(nodes: map<ID, Node>, nodes': map<ID, Node>, facts: map<ID, Fact>, facts': map<ID, Fact>,
                     gone: set<ID>, it: Item, b: Item)
    requires ItemSound(nodes, facts, gone, it) && (forall x <- nodes :: x in nodes' && nodes'[x] == nodes[x])
    requires forall x <- facts :: x in facts' && facts'[x] == facts[x]
    requires b == it.(prev := b.prev, next := b.next)
    ensures ItemSound(nodes', facts', gone, b) && UnitsOf(nodes', b) == UnitsOf(nodes, it)
  {
    forall j: nat | j < b.Len()
      ensures UnitOk(nodes', facts', gone, b, j) && At(it.id, j) in nodes
    {
      assert UnitOk(nodes, facts, gone, it, j);
    }
  }

  lemma NewItemSound(w: World, n: Item, o: Node, t: Node, l: nat, b: Item)
    requires Sane(w) && Insertable(w, n, o, t, l) && b == n.(prev := b.prev, next := b.next)
    ensures ItemSound(InsertWorld(w, n, o, t, l).nodes, InsertWorld(w, n, o, t, l).facts, w.gone, b)
    ensures UnitsOf(InsertWorld(w, n, o, t, l).nodes, b) == DescribedRun(n.id, o, t, n.Len())
  {
    var nodes', facts' := InsertWorld(w, n, o, t, l).nodes, InsertWorld(w, n, o, t, l).facts;
    InsertNodes(w, n, o, t, l);
    InsertFacts(w, n, o, t, l);
    hide Sane, Linked, InsertWorld;
    forall j: nat | j < n.Len()
      ensures UnitOk(nodes', facts', w.gone, b, j)
    {
      assert Described(n.id, o, t, j) == nodes'[At(n.id, j)];
      assert Within(n.id, n.Len(), At(n.id, j)) && At(n.id, j) !in w.nodes;
    }
  }

  lemma InsertItems(w: World, n: Item, o: Node, t: Node, l: nat, q: Ref)
    requires Sane(w) && Insertable(w, n, o, t, l) && q <= |w.items|
    ensures ItemOk(InsertWorld(w, n, o, t, l), q)
  {
    var w' := InsertWorld(w, n, o, t, l);
    InsertRecords(w, n, o, t, l);
    if q == |w.items| {
      NewItemSound(w, n, o, t, l, w'.items[q]);
      hide *;
    } else {
      SaneItem(w, q);
      InsertNodes(w, n, o, t, l);
      InsertFacts(w, n, o, t, l);
      SoundExtends(w.nodes, w'.nodes, w.facts, w'.facts, w.gone, w.items[q], w'.items[q]);
      hide Sane, ItemSound, Put, Link, WithRun, WithFacts, Linked;
    }
  }

  lemma InsertOwnList(w: World, n: Item, o: Node, t: Node, l: nat)
    requires Sane(w) && Insertable(w, n, o, t, l)
    ensures ListOk(InsertWorld(w, n, o, t, l), n.parent)
  {
    var k, s := n.parent, ListOf(w, n.parent);
    SaneRefs(w, k);
    if k in w.lists { SaneList(w, k); }
    LinkKeepsLinked(w.items, s, l, n);
    InsertRecords(w, n, o, t, l);
    hide Sane, Put, Link, WithRun, WithFacts, Linked;
    var w' := InsertWorld(w, n, o, t, l);
    forall r | r in w'.lists[k]
      ensures w'.items[r].parent == k
    {
      assert r == |w.items| || r in s;
    }
  }

  lemma InsertOtherList(w: World, n: Item, o: Node, t: Node, l: nat, k: Owner)
    requires Sane(w) && Insertable(w, n, o, t, l) && k in w.lists && k != n.parent
    ensures ListOk(InsertWorld(w, n, o, t, l), k)
  {
    SaneList(w, k);
    SaneRefs(w, n.parent);
    hide Sane, Put, Link, WithRun, WithFacts, LinkedAt;
    var w' := InsertWorld(w, n, o, t, l);
    InsertRecords(w, n, o, t, l);
    forall r | r in w.lists[k]
      ensures r < |w'.items| && w'.items[r] == w.items[r]
    {
      assert r !in ListOf(w, n.parent);
    }
    LinkedFrame(w.items, w'.items, w.lists[k]);
  }

  lemma OldNodeOk(w: World, w': World, id: ID, o: Node, t: Node, len: nat, x: ID)
    requires Extends(w.nodes, w'.nodes, id, o, t, len) && NodeOk(w, x) && Housed(w'.items, x)
    requires forall y <- w.facts :: y in w'.facts && w'.facts[y] == w.facts[y]
    requires x.clock < State(w'.items, w'.clients, x.client)
    ensures NodeOk(w', x)
  {
    hide State, Described, At, Within, Housed;
  }

  lemma NewNodeOk(w: World, w': World, id: ID, o: Node, t: Node, len: nat, j: nat)
    requires Extends(w.nodes, w'.nodes, id, o, t, len) && j < len
    requires (o == Start || Known(w.nodes, o)) && (t == End || Known(w.nodes, t))
    requires id.clock + j < State(w'.items, w'.clients, id.client) && Housed(w'.items, At(id, j))
    requires SameList(w', At(id, j))
    ensures NodeOk(w', At(id, j))
  {
    hide State, Within, Housed, SameList;
    if j > 0 { assert At(id, j - 1) in w'.nodes; }
  }

  lemma InsertHoused(w: World, n: Item, o: Node, t: Node, l: nat, x: ID)
    requires Sane(w) && Insertable(w, n, o, t, l) && (x in w.nodes || Within(n.id, n.Len(), x))
    ensures Housed(InsertWorld(w, n, o, t, l).items, x)
  {
    var items' := InsertWorld(w, n, o, t, l).items;
    InsertRecords(w, n, o, t, l);
    if Within(n.id, n.Len(), x) {
      assert Within(items'[|w.items|].id, items'[|w.items|].Len(), x);
    } else {
      SaneNode(w, x);
      hide Sane, Insertable, InsertWorld;
      var q :| 0 <= q < |w.items| && Within(w.items[q].id, w.items[q].Len(), x);
      assert Within(items'[q].id, items'[q].Len(), x);
    }
  }

  lemma InsertSameList(w: World, n: Item, o: Node, t: Node, l: nat, j: nat)
    requires Sane(w) && Insertable(w, n, o, t, l) && j < n.Len()
    ensures SameList(InsertWorld(w, n, o, t, l), At(n.id, j))
  {
    hide Sane, InsertWorld, State, Linked;
    InsertNodes(w, n, o, t, l);
    InsertFacts(w, n, o, t, l);
    assert At(n.id, j) in InsertWorld(w, n, o, t, l).facts;
    if j > 0 { assert At(n.id, j - 1) in InsertWorld(w, n, o, t, l).facts; }
  }

  lemma InsertNodesOk(w: World, n: Item, o: Node, t: Node, l: nat, x: ID)
    requires Sane(w) && Insertable(w, n, o, t, l) && x in InsertWorld(w, n, o, t, l).nodes
    ensures NodeOk(InsertWorld(w, n, o, t, l), x)
  {
    hide InsertWorld, State, SlotOk, Described, SameList;
    var w' := InsertWorld(w, n, o, t, l);
    InsertNodes(w, n, o, t, l);
    InsertSlotsSane(w, n, o, t, l, x.client);
    InsertHoused(w, n, o, t, l, x);
    InsertFacts(w, n, o, t, l);
    if x in w.nodes {
      SaneNode(w, x);
      OldNodeOk(w, w', n.id, o, t, n.Len(), x);
    } else {
      InsertSameList(w, n, o, t, l, x.clock - n.id.clock);
      NewNodeOk(w, w', n.id, o, t, n.Len(), x.clock - n.id.clock);
    }
  }

  /** Linking a new item in keeps the world sound. */
  lemma InsertKeepsSane(w: World, n: Item, o: Node, t: Node, l: nat)
    requires Sane(w) && Insertable(w, n, o, t, l)
    ensures Sane(InsertWorld(w, n, o, t, l))
  {
    hide SlotOk, ItemOk, ListOk, NodeOk, InsertWorld, Insertable;
    var w' := InsertWorld(w, n, o, t, l);
    InsertKeys(w, n, o, t, l);
    forall c | c in w'.clients
      ensures SlotOk(w', c)
    {
      InsertSlotsSane(w, n, o, t, l, c);
    }
    forall q | 0 <= q < |w'.items|
      ensures ItemOk(w', q)
    {
      InsertItems(w, n, o, t, l, q);
    }
    forall k | k in w'.lists
      ensures ListOk(w', k)
    {
      InsertListKeys(w, n, o, t, l, k);
      if k == n.parent {
        InsertOwnList(w, n, o, t, l);
      } else {
        InsertOtherList(w, n, o, t, l, k);
      }
    }
    forall x | x in w'.nodes
      ensures NodeOk(w', x)
    {
      InsertNodesOk(w, n, o, t, l, x);
    }
  }

  lemma InsertKeys(w: World, n: Item, o: Node, t: Node, l: nat)
    requires Sane(w) && Insertable(w, n, o, t, l)
    ensures var w' := InsertWorld(w, n, o, t, l);
            && w'.anchor.Keys == w'.lists.Keys && w'.gone <= w'.nodes.Keys && w'.facts.Keys == w'.nodes.Keys
            && |w'.items| == |w.items| + 1
  {
    hide Put, WithRun, WithFacts;
    InsertNodes(w, n, o, t, l);
    InsertFacts(w, n, o, t, l);
    if |ListOf(w, n.parent)| > 0 { assert n.parent in w.lists; }
    var w' := InsertWorld(w, n, o, t, l);
    forall x
      ensures x in w'.nodes <==> x in w'.facts
    {
      if Within(n.id, n.Len(), x) { assert x == At(n.id, x.clock - n.id.clock); }
    }
  }

  lemma InsertListKeys(w: World, n: Item, o: Node, t: Node, l: nat, k: Owner)
    requires Insertable(w, n, o, t, l)
    ensures k in InsertWorld(w, n, o, t, l).lists <==> k in w.lists || k == n.parent
  {
    hide Put, Link, WithRun, WithFacts, Linked;
  }

  /** A new item raises its own client to its end, and no other client. */
  lemma InsertSlotsSane(w: World, n: Item, o: Node, t: Node, l: nat, c: nat)
    requires Sane(w) && Insertable(w, n, o, t, l)
    ensures var w' := InsertWorld(w, n, o, t, l);
            && (c in w'.clients ==> SlotOk(w', c))
            && State(w'.items, w'.clients, c) ==
                 (if c == n.id.client then n.id.clock + n.Len() else State(w.items, w.clients, c))
  {
    if c in w.clients { SaneSlot(w, c); }
    hide SlotOk, Sane;
    if c in w.clients || c == n.id.client { InsertSlots(w, n, o, t, l, c); }
  }

  lemma UnitsPut(w: World, w': World, s: seq<Ref>, l: nat, n: Ref)
    requires l <= |s| && forall q <- s :: RunAt(w', q) == RunAt(w, q)
    ensures Units(w', Put<Ref>(s, l, n)) == Units(w, s[..l]) + RunAt(w', n) + Units(w, s[l..])
  {
    hide Units, RunAt;
    UnitsAppend(w', s[..l] + [n], s[l..]);
    UnitsAppend(w', s[..l], [n]);
    UnitsTwo(w', n, n);
    UnitsFrame(w, w', s[..l]);
    UnitsFrame(w, w', s[l..]);
  }

  lemma InsertRuns(w: World, n: Item, o: Node, t: Node, l: nat, q: Ref)
    requires Sane(w) && Insertable(w, n, o, t, l) && q <= |w.items|
    ensures RunAt(InsertWorld(w, n, o, t, l), q) ==
              if q == |w.items| then DescribedRun(n.id, o, t, n.Len()) else RunAt(w, q)
  {
    var w' := InsertWorld(w, n, o, t, l);
    InsertRecords(w, n, o, t, l);
    if q < |w.items| {
      InsertNodes(w, n, o, t, l);
      InsertFacts(w, n, o, t, l);
      SaneItem(w, q);
      SoundExtends(w.nodes, w'.nodes, w.facts, w'.facts, w.gone, w.items[q], w'.items[q]);
    } else {
      NewItemSound(w, n, o, t, l, w'.items[q]);
    }
    hide *;
  }

  lemma InsertListOf(w: World, n: Item, o: Node, t: Node, l: nat, k: Owner)
    requires Insertable(w, n, o, t, l)
    ensures ListOf(InsertWorld(w, n, o, t, l), k) ==
              if k == n.parent then Put<Ref>(ListOf(w, k), l, |w.items|) else ListOf(w, k)
  {
    hide Put, Link, WithRun, WithFacts, Linked;
  }

  /** The new item's units appear together, at its place in its list; other lists keep theirs. */
  lemma InsertOrder(w: World, n: Item, o: Node, t: Node, l: nat, k: Owner)
    requires Sane(w) && Insertable(w, n, o, t, l)
    ensures Order(InsertWorld(w, n, o, t, l), k) ==
              if k == n.parent then
                Units(w, ListOf(w, k)[..l]) + DescribedRun(n.id, o, t, n.Len()) + Units(w, ListOf(w, k)[l..])
              else Order(w, k)
  {
    hide Sane, Insertable, InsertWorld, Units, RunAt, Linked, Put;
    var w', s := InsertWorld(w, n, o, t, l), ListOf(w, k);
    SaneRefs(w, k);
    forall q | q in s
      ensures RunAt(w', q) == RunAt(w, q)
    {
      LinkedRef(w.items, s, q);
      InsertRuns(w, n, o, t, l, q);
    }
    InsertListOf(w, n, o, t, l, k);
    if k == n.parent {
      InsertPlace(w, n, o, t, l);
      InsertRuns(w, n, o, t, l, |w.items|);
      UnitsPut(w, w', s, l, |w.items|);
    } else {
      UnitsFrame(w, w', s);
    }
  }

  lemma LinkedRef(items: seq<Item>, s: seq<Ref>, q: Ref)
    requires Linked(items, s) && q in s
    ensures q < |items|
  {
    hide LinkedAt;
  }

  lemma InsertPlace(w: World, n: Item, o: Node, t: Node, l: nat)
    requires Insertable(w, n, o, t, l)
    ensures l <= |ListOf(w, n.parent)|
  {
  }

  // ---------------------------------------------------------------- collected structs

  ghost function DeadWorld(w: World, id: ID, len: nat): World {
    w.(clients := w.clients[id.client := (if id.client in w.clients then w.clients[id.client]
      else []) + [Dead(id, len)]])
  }

  /** Appending collected content raises its client and changes nothing else. */
  lemma DeadKeepsSane(w: World, id: ID, len: nat)
    requires Sane(w) && len > 0 && id.clock == State(w.items, w.clients, id.client)
    ensures var w' := DeadWorld(w, id, len);
            && Sane(w')
            && (forall k :: Order(w', k) == Order(w, k))
            && (forall c :: State(w'.items, w'.clients, c) ==
                              if c == id.client then id.clock + len else State(w.items, w.clients, c))
  {
    hide At, Described;
    var w' := DeadWorld(w, id, len);
    if id.client in w.clients {
      SaneSlot(w, id.client);
      GaplessAppend(w.items, id.client, w.clients[id.client], Dead(id, len));
    }
    forall c | c in w'.clients
      ensures SlotOk(w', c)
    {
      if c != id.client { SaneSlot(w, c); }
    }
    forall r | 0 <= r < |w'.items|
      ensures ItemOk(w', r)
    {
      SaneItem(w, r);
    }
    forall k | k in w'.lists
      ensures ListOk(w', k)
    {
      SaneList(w, k);
    }
    forall x | x in w'.nodes
      ensures NodeOk(w', x)
    {
      SaneNode(w, x);
      NodeFrame(w, w', x);
    }
    forall k
      ensures Order(w', k) == Order(w, k)
    {
      UnitsFrame(w, w', ListOf(w, k));
    }
  }

  // ---------------------------------------------------------------- deleting

  ghost function IdsOf(it: Item): set<ID> {
    set j: nat | j < it.Len() :: At(it.id, j)
  }

  /** `deleteItem`. */
  ghost function MarkWorld(w: World, r: Ref): World
    requires r < |w.items|
  {
    w.(items := w.items[r := w.items[r].(deleted := true)], gone := w.gone + IdsOf(w.items[r]))
  }

  lemma ItemsDisjoint(w: World, r: Ref, q: Ref, i: nat, j: nat)
    requires Sane(w) && r < |w.items| && q < |w.items| && i < w.items[r].Len() && j < w.items[q].Len()
    requires At(w.items[r].id, i) == At(w.items[q].id, j)
    ensures r == q
  {
    SaneItem(w, r);
    SaneItem(w, q);
    var c := w.items[r].id.client;
    SaneSlot(w, c);
    hide Sane, ItemSound;
    var es := w.clients[c];
    var a :| 0 <= a < |es| && es[a] == Live(r);
    var b :| 0 <= b < |es| && es[b] == Live(q);
    CoveringIsUnique(w.items, c, es, a, b, At(w.items[r].id, i).clock);
  }

  lemma MarkItems(w: World, r: Ref, q: Ref)
    requires Sane(w) && r < |w.items| && q < |w.items|
    ensures ItemOk(MarkWorld(w, r), q)
  {
    var w', a, b := MarkWorld(w, r), w.items[q], MarkWorld(w, r).items[q];
    SaneItem(w, q);
    hide Sane;
    forall j: nat | j < b.Len()
      ensures UnitOk(w'.nodes, w'.facts, w'.gone, b, j)
    {
      assert UnitOk(w.nodes, w.facts, w.gone, a, j);
      if q == r {
        assert At(a.id, j) in IdsOf(a);
      } else if At(a.id, j) in IdsOf(w.items[r]) {
        var i: nat :| i < w.items[r].Len() && At(w.items[r].id, i) == At(a.id, j);
        ItemsDisjoint(w, r, q, i, j);
      }
    }
  }

  lemma MarkKeepsOrder(w: World, r: Ref, k: Owner)
    requires r < |w.items|
    ensures Order(MarkWorld(w, r), k) == Order(w, k)
  {
    var w' := MarkWorld(w, r);
    forall q: Ref
      ensures RunAt(w', q) == RunAt(w, q)
    {
      if q < |w.items| { SoundFrameUnits(w.nodes, w.items[q], w'.items[q]); }
    }
    UnitsFrame(w, w', ListOf(w, k));
  }

  lemma MarkNodes(w: World, r: Ref, x: ID)
    requires Sane(w) && r < |w.items| && x in w.nodes
    ensures NodeOk(MarkWorld(w, r), x)
  {
    SaneNode(w, x);
    hide Sane;
    var w' := MarkWorld(w, r);
    var q :| 0 <= q < |w.items| && Within(w.items[q].id, w.items[q].Len(), x);
    assert Within(w'.items[q].id, w'.items[q].Len(), x);
    MarkKeepsState(w, r, x.client);
    NodeFrame(w, w', x);
  }

  lemma MarkKeepsState(w: World, r: Ref, c: nat)
    requires r < |w.items|
    ensures State(MarkWorld(w, r).items, MarkWorld(w, r).clients, c) == State(w.items, w.clients, c)
  {
  }

  lemma IdsKnown(w: World, r: Ref)
    requires Sane(w) && r < |w.items|
    ensures IdsOf(w.items[r]) <= w.nodes.Keys
  {
    SaneItem(w, r);
    hide Sane;
    forall x | x in IdsOf(w.items[r])
      ensures x in w.nodes
    {
      var j: nat :| j < w.items[r].Len() && At(w.items[r].id, j) == x;
      assert UnitOk(w.nodes, w.facts, w.gone, w.items[r], j);
    }
  }

  /** Deleting an item marks exactly its units, and changes no order and no clock. */
  lemma MarkKeepsSane(w: World, r: Ref)
    requires Sane(w) && r < |w.items|
    ensures Sane(MarkWorld(w, r))
  {
    var w' := MarkWorld(w, r);
    IdsKnown(w, r);
    forall c | c in w'.clients
      ensures SlotOk(w', c)
    {
      SaneSlot(w, c);
      GaplessFrame(w.items, w'.items, c, w.clients[c]);
    }
    forall k | k in w'.lists
      ensures ListOk(w', k)
    {
      SaneList(w, k);
      LinkedFrame(w.items, w'.items, w.lists[k]);
    }
    hide SlotOk, ListOk, ItemOk, NodeOk;
    forall x | x in w'.nodes
      ensures NodeOk(w', x)
    {
      MarkNodes(w, r, x);
    }
    forall q | 0 <= q < |w'.items|
      ensures ItemOk(w', q)
    {
      MarkItems(w, r, q);
    }
  }

  // ---------------------------------------------------------------- looking units up

  /** The slot of the item that holds a unit. */
  lemma HeldSlot(w: World, q: Ref, id: ID) returns (a: nat)
    requires Sane(w) && q < |w.items| && Within(w.items[q].id, w.items[q].Len(), id)
    ensures id.client in w.clients && a < |w.clients[id.client]| && w.clients[id.client][a] == Live(q)
    ensures Covers(w.items, Live(q), id.clock) && id.clock < State(w.items, w.clients, id.client)
    ensures id in w.nodes && id in w.facts
    ensures w.facts[id] == Fact(w.items[q].content.cells[id.clock - w.items[q].id.clock], w.items[q].content.kind,
            w.items[q].parent)
  {
    SaneItem(w, q);
    SaneSlot(w, id.client);
    hide Sane;
    var es, it := w.clients[id.client], w.items[q];
    a :| 0 <= a < |es| && es[a] == Live(q);
    StopsIncrease(w.items, id.client, es, a, |es| - 1);
    assert At(it.id, id.clock - it.id.clock) == id;
    assert UnitOk(w.nodes, w.facts, w.gone, it, id.clock - it.id.clock);
  }

  /** The struct covering a clock tells whether the unit is live. */
  lemma CoveredUnit(w: World, id: ID, i: nat)
    requires Sane(w) && id.client in w.clients && i < |w.clients[id.client]|
    requires Covers(w.items, w.clients[id.client][i], id.clock)
    ensures match w.clients[id.client][i]
            case Dead(_, _) => id !in w.nodes && !Housed(w.items, id)
            case Live(r) => r < |w.items| && Within(w.items[r].id, w.items[r].Len(), id) && id in w.nodes
  {
    SaneSlot(w, id.client);
    var es := w.clients[id.client];
    GaplessMember(w.items, id.client, es, es[i]);
    match es[i]
    case Live(r) =>
      var a := HeldSlot(w, r, id);
    case Dead(_, _) =>
      if id in w.nodes { SaneNode(w, id); }
      if Housed(w.items, id) {
        var q :| 0 <= q < |w.items| && Within(w.items[q].id, w.items[q].Len(), id);
        var a := HeldSlot(w, q, id);
        CoveringIsUnique(w.items, id.client, es, i, a, id.clock);
      }
  }

  lemma UncoveredUnit(w: World, id: ID)
    requires Sane(w) && id.clock >= State(w.items, w.clients, id.client)
    ensures id !in w.nodes && !Housed(w.items, id)
  {
    if id in w.nodes { SaneNode(w, id); }
    if Housed(w.items, id) {
      var q :| 0 <= q < |w.items| && Within(w.items[q].id, w.items[q].Len(), id);
      var a := HeldSlot(w, q, id);
    }
  }

  /** A unit is deleted exactly when the item that holds it is. */
  lemma HeldDeleted(w: World, q: Ref, id: ID)
    requires Sane(w) && q < |w.items| && Within(w.items[q].id, w.items[q].Len(), id)
    ensures id in w.gone <==> w.items[q].deleted
  {
    SaneItem(w, q);
    hide Sane;
    var it := w.items[q];
    assert At(it.id, id.clock - it.id.clock) == id;
    assert UnitOk(w.nodes, w.facts, w.gone, it, id.clock - it.id.clock);
  }
}
