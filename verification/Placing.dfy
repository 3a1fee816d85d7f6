/**
  Items against units: the conflict scan of internal/crdt/doc.go walks items, the order of
  module Yata is about units.  Here one is translated into the other.
*/
module Placing {
  import opened Ids
  import opened Structs
  import opened Yata
  import opened Items

  /** How many units come before item `i` of a list. */
  ghost function Offset(w: World, s: seq<Ref>, i: nat): nat
    requires i <= |s|
  {
    |Units(w, s[..i])|
  }

  lemma OffsetStep(w: World, s: seq<Ref>, i: nat)
    requires i < |s|
    ensures Offset(w, s, i + 1) == Offset(w, s, i) + |RunAt(w, s[i])| <= |Units(w, s)|
    ensures Units(w, s)[Offset(w, s, i)..Offset(w, s, i + 1)] == RunAt(w, s[i])
  {
    hide Units, RunAt;
    UnitsAt(w, s, i);
    assert s[..i + 1] == s[..i] + [s[i]];
    UnitsAppend(w, s[..i], [s[i]]);
    UnitsTwo(w, s[i], s[i]);
    var a, b, c := Units(w, s[..i]), RunAt(w, s[i]), Units(w, s[i + 1..]);
    assert (a + b + c)[|a|..|a| + |b|] == b;
  }

  lemma OffsetEnds(w: World, s: seq<Ref>)
    ensures Offset(w, s, 0) == 0 && Offset(w, s, |s|) == |Units(w, s)|
  {
    assert s[..0] == [] && s[..|s|] == s;
  }

  /** The units of a stretch of a list. */
  lemma UnitsBetween(w: World, s: seq<Ref>, a: nat, b: nat)
    requires a <= b <= |s|
    ensures Offset(w, s, a) <= Offset(w, s, b) <= |Units(w, s)|
    ensures Units(w, s)[Offset(w, s, a)..Offset(w, s, b)] == Units(w, s[a..b])
  {
    hide Units;
    assert s == s[..b] + s[b..] && s[..b] == s[..a] + s[a..b];
    UnitsAppend(w, s[..b], s[b..]);
    UnitsAppend(w, s[..a], s[a..b]);
    var x, y, z := Units(w, s[..a]), Units(w, s[a..b]), Units(w, s[b..]);
    assert (x + y + z)[|x|..|x| + |y|] == y;
  }

  lemma {:induction false} InUnits(w: World, s: seq<Ref>, n: Node)
    ensures n in Units(w, s) <==> exists r :: r in s && n in RunAt(w, r)
  {
    hide RunAt;
    if s != [] {
      InUnits(w, s[1..], n);
      assert RunsOf(w, s)[1..] == RunsOf(w, s[1..]);
      assert Units(w, s) == RunAt(w, s[0]) + Units(w, s[1..]);
      assert s == [s[0]] + s[1..];
    }
  }

  /** Item `r` holds the unit that a known description names. */
  lemma InRun(w: World, r: Ref, n: Node)
    requires Sane(w) && r < |w.items| && Known(w.nodes, n)
    ensures n in RunAt(w, r) <==> Within(w.items[r].id, w.items[r].Len(), n.id)
  {
    SaneItem(w, r);
    var it := w.items[r];
    var u := UnitsOf(w.nodes, it);
    hide Sane;
    if Within(it.id, it.Len(), n.id) {
      var j: nat := n.id.clock - it.id.clock;
      assert At(it.id, j) == n.id;
      assert u[j] == n;
    }
    if n in u {
      var j :| 0 <= j < |u| && u[j] == n;
      assert UnitOk(w.nodes, w.facts, w.gone, it, j);
    }
  }

  lemma RunIsRun(w: World, r: Ref)
    requires Sane(w) && r < |w.items|
    ensures IsRun(RunAt(w, r)) && RunAt(w, r) != []
    ensures forall j | 0 <= j < |RunAt(w, r)| ::
            RunAt(w, r)[j].id == At(w.items[r].id, j) && Known(w.nodes, RunAt(w, r)[j])
  {
    SaneItem(w, r);
    hide Sane;
    var it, u := w.items[r], RunAt(w, r);
    forall j: nat | j < |u|
      ensures u[j].Elem? && u[j].id == At(it.id, j) && Known(w.nodes, u[j])
    {
      assert UnitOk(w.nodes, w.facts, w.gone, it, j);
    }
    forall j | 0 < j < |u|
      ensures Follows(u, j)
    {
      assert UnitOk(w.nodes, w.facts, w.gone, it, j) && UnitOk(w.nodes, w.facts, w.gone, it, j - 1);
      KnownOrigin(w, At(it.id, j));
    }
  }

  lemma KnownOrigin(w: World, x: ID)
    requires Sane(w) && x in w.nodes
    ensures var n := w.nodes[x];
            && n.Elem? && n.id == x
            && (n.origin == Start || Known(w.nodes, n.origin)) && (n.right == End || Known(w.nodes, n.right))
  {
    SaneNode(w, x);
  }

  /** Two known neighbours are the same exactly when their ids are: `sameID`. */
  lemma SameNeighbour(nodes: map<ID, Node>, a: Option<ID>, m: Node, b: Option<ID>, n: Node, edge: Node)
    requires Names(a, m, edge) && Names(b, n, edge) && !edge.Elem?
    requires (m == edge || Known(nodes, m)) && (n == edge || Known(nodes, n))
    ensures a == b <==> m == n
  {
  }

  lemma RunHead(w: World, r: Ref)
    requires Sane(w) && r < |w.items|
    ensures RunAt(w, r) != []
    ensures var n := RunAt(w, r)[0];
            && Known(w.nodes, n) && n.id == w.items[r].id
            && Names(w.items[r].origin, n.origin, Start) && (n.origin == Start || Known(w.nodes, n.origin))
            && Names(w.items[r].right, n.right, End) && (n.right == End || Known(w.nodes, n.right))
  {
    RunIsRun(w, r);
    SaneItem(w, r);
    assert At(w.items[r].id, 0) == w.items[r].id;
    KnownOrigin(w, w.items[r].id);
    hide Sane;
    assert UnitOk(w.nodes, w.facts, w.gone, w.items[r], 0);
  }

  lemma RunDistinct(w: World, r: Ref, i: nat, j: nat)
    requires Sane(w) && r < |w.items| && i < j < |RunAt(w, r)|
    ensures RunAt(w, r)[i] != RunAt(w, r)[j]
  {
    RunIsRun(w, r);
  }

  lemma UnitsEmpty(w: World)
    ensures Units(w, []) == []
  {
  }

  /** No unit occurs twice among the units of distinct items. */
  lemma {:induction false} UnitsDistinct(w: World, s: seq<Ref>, i: nat, j: nat)
    requires Sane(w) && (forall r <- s :: r < |w.items|) && (forall a, b | 0 <= a < b < |s| :: s[a] != s[b])
    requires i < j < |Units(w, s)|
    ensures Units(w, s)[i] != Units(w, s)[j]
    decreases |s|
  {
    hide Sane, Units, RunAt;
    UnitsEmpty(w);
    if s != [] {
      var h, t := RunAt(w, s[0]), Units(w, s[1..]);
      UnitsAppend(w, [s[0]], s[1..]);
      UnitsTwo(w, s[0], s[0]);
      assert s == [s[0]] + s[1..];
      assert Units(w, s) == h + t;
      assert s[0] in s && forall r <- s[1..] :: r in s && r != s[0];
      if j < |h| {
        RunDistinct(w, s[0], i, j);
      } else if i >= |h| {
        UnitsDistinct(w, s[1..], i - |h|, j - |h|);
      } else {
        RunsDisjoint(w, s[0], s[1..], i, j - |h|);
      }
    }
  }

  lemma RunsDisjoint(w: World, r: Ref, s: seq<Ref>, i: nat, j: nat)
    requires Sane(w) && r < |w.items| && (forall q <- s :: q < |w.items| && q != r)
    requires i < |RunAt(w, r)| && j < |Units(w, s)|
    ensures RunAt(w, r)[i] != Units(w, s)[j]
  {
    var n := RunAt(w, r)[i];
    if n == Units(w, s)[j] {
      InUnits(w, s, n);
      var q :| q in s && n in RunAt(w, q);
      RunIsRun(w, r);
      InRun(w, r, n);
      InRun(w, q, n);
      ItemsDisjoint(w, r, q, n.id.clock - w.items[r].id.clock, n.id.clock - w.items[q].id.clock);
    }
  }

  lemma OrderDistinct(w: World, k: Owner)
    requires Sane(w)
    ensures forall i, j | 0 <= i < j < |Order(w, k)| :: Order(w, k)[i] != Order(w, k)[j]
    ensures forall n <- Order(w, k) :: n.Elem? && Known(w.nodes, n)
  {
    SaneRefs(w, k);
    hide Sane, Units, RunAt;
    var s := ListOf(w, k);
    forall i, j | 0 <= i < j < |Order(w, k)|
      ensures Order(w, k)[i] != Order(w, k)[j]
    {
      UnitsDistinct(w, s, i, j);
    }
    forall n | n in Order(w, k)
      ensures Known(w.nodes, n)
    {
      InUnits(w, s, n);
      var r :| r in s && n in RunAt(w, r);
      RunIsRun(w, r);
    }
  }

  /** Some item of `s` holds unit `id`. */
  predicate HeldIn(w: World, s: seq<Ref>, id: ID) {
    exists r <- s :: r < |w.items| && Within(w.items[r].id, w.items[r].Len(), id)
  }

  /** A unit lies in a stretch of the list exactly when one of the items there holds it. */
  lemma InStretch(w: World, s: seq<Ref>, n: Node)
    requires Sane(w) && Known(w.nodes, n) && (forall r <- s :: r < |w.items|)
    ensures n in Units(w, s) <==> HeldIn(w, s, n.id)
  {
    hide Sane, Units, RunAt;
    InUnits(w, s, n);
    forall r | r in s
      ensures n in RunAt(w, r) <==> Within(w.items[r].id, w.items[r].Len(), n.id)
    {
      InRun(w, r, n);
    }
  }

  /** The new unit `x`, its neighbours as ids, and the list it goes into. */
  ghost predicate Scene(w: World, k: Owner, x: Node, origin: Option<ID>, right: Option<ID>, f: nat) {
    && Sane(w) && x.Elem?
    && Names(origin, x.origin, Start) && (x.origin == Start || Known(w.nodes, x.origin))
    && Names(right, x.right, End) && (x.right == End || Known(w.nodes, x.right))
    && (x.right.Elem? ==> exists q | 0 <= q < |w.items| :: w.items[q].id == x.right.id)
    && f <= |ListOf(w, k)|
    && (forall r <- ListOf(w, k)[f..] :: x.origin !in RunAt(w, r))
  }

  /** What `resolveConflict` does with the item at index `i`, its `left` being the item before
      index `l`. */
  ghost function ItemTurn(w: World, s: seq<Ref>, x: ID, origin: Option<ID>, right: Option<ID>, f: nat, i: nat,
                          l: nat): (d: Option<nat>)
    requires f <= l <= i < |s| && s[i] < |w.items|
  {
    var o := w.items[s[i]];
    if right == Some(o.id) then None
    else if o.origin == origin then
      if o.id.client < x.client then Some(i + 1) else if o.right == right then None else Some(l)
    else if o.origin.Some? && HeldIn(w, s[f..i + 1], o.origin.value) then
      if HeldIn(w, s[l..i + 1], o.origin.value) then Some(l) else Some(i + 1)
    else None
  }

  lemma OriginElsewhere(w: World, r: Ref)
    requires Sane(w) && r < |w.items|
    ensures RunAt(w, r) != [] && RunAt(w, r)[0].Elem? && RunAt(w, r)[0].origin !in RunAt(w, r)
  {
    RunIsRun(w, r);
    var u := RunAt(w, r);
    forall j: nat | j < |u|
      ensures Size(u[j]) > Size(u[0].origin)
    {
      RunGrows(u, j);
    }
  }

  lemma {:induction false} RunGrows(u: seq<Node>, j: nat)
    requires IsRun(u) && j < |u|
    ensures u[0].Elem? && Size(u[j]) > Size(u[0].origin)
  {
    assert u[0] in u;
    if j > 0 {
      RunGrows(u, j - 1);
      assert Follows(u, j);
    }
  }

  /** The item at index `i` and its first unit, seen in the list of units. */
  lemma HeadInOrder(w: World, k: Owner, i: nat)
    requires Sane(w) && i < |ListOf(w, k)|
    ensures var s, u := ListOf(w, k), Order(w, k);
            && s[i] < |w.items| && RunAt(w, s[i]) != [] && RunAt(w, s[i])[0].Elem?
            && Offset(w, s, i) + |RunAt(w, s[i])| == Offset(w, s, i + 1) <= |u|
            && u[Offset(w, s, i)] == RunAt(w, s[i])[0]
            && u[Offset(w, s, i)..Offset(w, s, i + 1)] == RunAt(w, s[i])
  {
    var s, u := ListOf(w, k), Order(w, k);
    SaneRefs(w, k);
    LinkedRef(w.items, s, s[i]);
    hide Sane, Units, RunAt, Linked;
    RunHead(w, s[i]);
    OffsetStep(w, s, i);
    assert u[Offset(w, s, i)..Offset(w, s, i + 1)][0] == u[Offset(w, s, i)];
  }

  /** The origin of item `i` lies among the units from item `a` up to the first unit of item `i`
      exactly when one of the items there holds it. */
  lemma OriginInStretch(w: World, k: Owner, a: nat, i: nat, o: Node)
    requires Sane(w) && a <= i < |ListOf(w, k)| && ListOf(w, k)[i] < |w.items|
    requires var run := RunAt(w, ListOf(w, k)[i]); run != [] && run[0].Elem? && run[0].origin == o
    requires Known(w.nodes, o)
    ensures var s := ListOf(w, k);
            && Offset(w, s, a) <= Offset(w, s, i) < |Order(w, k)|
            && (o in Order(w, k)[Offset(w, s, a)..Offset(w, s, i) + 1] <==> HeldIn(w, s[a..i + 1], o.id))
  {
    hide Sane, Units, RunAt, Linked, HeldIn, Offset, Order;
    var s, u := ListOf(w, k), Order(w, k);
    HeadInOrder(w, k, i);
    OriginElsewhere(w, s[i]);
    StretchOf(w, k, a, i);
    var p, q := Offset(w, s, a), Offset(w, s, i);
    assert u[p..q + 1] == u[p..q] + [u[q]];
    assert Size(o) < Size(u[q]);
    assert o in u[p..q + 1] <==> o in u[p..q];
    SaneRefs(w, k);
    RefsOf(w, s, a, i);
    InStretch(w, s[a..i], o);
    InRun(w, s[i], o);
    HeldInLast(w, s, a, i, o.id);
  }

  lemma StretchOf(w: World, k: Owner, a: nat, b: nat)
    requires a <= b <= |ListOf(w, k)|
    ensures var s := ListOf(w, k);
            && Offset(w, s, a) <= Offset(w, s, b) <= |Order(w, k)|
            && Order(w, k)[Offset(w, s, a)..Offset(w, s, b)] == Units(w, s[a..b])
  {
    UnitsBetween(w, ListOf(w, k), a, b);
  }

  lemma RefsOf(w: World, s: seq<Ref>, a: nat, b: nat)
    requires Linked(w.items, s) && a <= b <= |s|
    ensures forall r <- s[a..b] :: r < |w.items|
  {
    forall r | r in s[a..b]
      ensures r < |w.items|
    {
      assert r in s;
    }
  }

  lemma HeldInLast(w: World, s: seq<Ref>, a: nat, i: nat, id: ID)
    requires a <= i < |s| && s[i] < |w.items| && !Within(w.items[s[i]].id, w.items[s[i]].Len(), id)
    ensures HeldIn(w, s[a..i + 1], id) <==> HeldIn(w, s[a..i], id)
  {
    assert s[a..i + 1] == s[a..i] + [s[i]];
  }

  /** A turn over an item is the turn over its first unit. */
  lemma ItemTurnIsTurn(w: World, k: Owner, x: Node, origin: Option<ID>, right: Option<ID>, f: nat, i: nat, l: nat)
    requires Scene(w, k, x, origin, right, f) && f <= l <= i < |ListOf(w, k)|
    requires ListOf(w, k)[i] < |w.items| && (forall o <- Order(w, k) :: o.Elem?)
    requires Offset(w, ListOf(w, k), f) <= Offset(w, ListOf(w, k), l) <= Offset(w, ListOf(w, k), i) < |Order(w, k)|
    ensures var s := ListOf(w, k);
            var t := Turn(Order(w, k), x, Offset(w, s, f), Offset(w, s, i), Offset(w, s, l));
            match ItemTurn(w, s, x.id, origin, right, f, i, l)
            case None => t == None
            case Some(d) => t == Some(if d == l then Offset(w, s, l) else Offset(w, s, i) + 1)
  {
    hide Sane, Order, Offset, RunAt, HeldIn;
    var s := ListOf(w, k);
    var r, o, h := s[i], w.items[s[i]], Order(w, k)[Offset(w, s, i)];
    HeadInOrder(w, k, i);
    RunHead(w, r);
    SameNeighbour(w.nodes, o.origin, h.origin, origin, x.origin, Start);
    SameNeighbour(w.nodes, o.right, h.right, right, x.right, End);
    SameNeighbour(w.nodes, Some(o.id), h, right, x.right, End);
    if h.origin.Elem? {
      OriginInStretch(w, k, f, i, h.origin);
      OriginInStretch(w, k, l, i, h.origin);
    } else {
      StartNotIn(Order(w, k), Offset(w, s, f), Offset(w, s, i) + 1);
    }
  }

  lemma StartNotIn(u: seq<Node>, a: nat, b: nat)
    requires a <= b <= |u| && (forall o <- u :: o.Elem?)
    ensures Start !in u[a..b]
  {
    forall o | o in u[a..b]
      ensures o.Elem?
    {
      assert o in u;
    }
  }

  /** The scan over units, taken over a whole item. */
  lemma ItemStep(w: World, k: Owner, x: Node, origin: Option<ID>, right: Option<ID>, f: nat, i: nat, l: nat)
    requires Scene(w, k, x, origin, right, f) && f <= l <= i < |ListOf(w, k)|
    ensures ListOf(w, k)[i] < |w.items| && (forall o <- Order(w, k) :: o.Elem?)
    ensures var s, u := ListOf(w, k), Order(w, k);
            && Offset(w, s, f) <= Offset(w, s, l) <= Offset(w, s, i) <= Offset(w, s, i + 1) <= |u|
            && Scan(u, x, Offset(w, s, f), Offset(w, s, i), Offset(w, s, l)) ==
                 match ItemTurn(w, s, x.id, origin, right, f, i, l)
                 case None => Offset(w, s, l)
                 case Some(d) =>
                   Scan(u, x, Offset(w, s, f), Offset(w, s, i + 1),
                        if d == l then Offset(w, s, l) else Offset(w, s, i + 1))
  {
    hide Sane, Order, Offset, RunAt, HeldIn, Turn, Scan, ItemTurn, IsRun, ListOf, Names, Known;
    var s, u := ListOf(w, k), Order(w, k);
    OrderDistinct(w, k);
    HeadInOrder(w, k, i);
    StretchOf(w, k, f, l);
    StretchOf(w, k, l, i);
    ItemTurnIsTurn(w, k, x, origin, right, f, i, l);
    RunIsRun(w, s[i]);
    NeighboursOutside(w, k, x, origin, right, f, i);
    ScanPassesRun(u, x, Offset(w, s, f), Offset(w, s, i), Offset(w, s, l), |RunAt(w, s[i])|);
  }

  /** Neither neighbour of `x` lies inside an item that the scan passes. */
  lemma NeighboursOutside(w: World, k: Owner, x: Node, origin: Option<ID>, right: Option<ID>, f: nat, i: nat)
    requires Scene(w, k, x, origin, right, f) && f <= i < |ListOf(w, k)|
    ensures var s, u := ListOf(w, k), Order(w, k);
            && Offset(w, s, i) <= Offset(w, s, i + 1) <= |u|
            && forall j | Offset(w, s, i) <= j < Offset(w, s, i + 1) ::
                 u[j] != x.origin && (j > Offset(w, s, i) ==> u[j] != x.right)
  {
    hide Sane, Order, Offset, RunAt, IsRun;
    var s, u := ListOf(w, k), Order(w, k);
    HeadInOrder(w, k, i);
    RunIsRun(w, s[i]);
    var run, p := RunAt(w, s[i]), Offset(w, s, i);
    assert s[f..][i - f] == s[i];
    forall j | p <= j < p + |run|
      ensures u[j] != x.origin && (j > p ==> u[j] != x.right)
    {
      assert u[j] == u[p..p + |run|][j - p] == run[j - p];
      if j > p && run[j - p] == x.right {
        var q :| 0 <= q < |w.items| && w.items[q].id == x.right.id;
        RunHead(w, q);
        RunIsRun(w, q);
        InRun(w, s[i], x.right);
        InRun(w, q, x.right);
        ItemsDisjoint(w, q, s[i], 0, j - p);
      }
    }
  }

  // ---------------------------------------------------------------- where the scan starts

  /** The neighbours of a new item as `resolve` leaves them: `left` ends with the origin, `next`
      starts with the right origin, and `x` describes the item's first unit. */
  ghost predicate Resolved(w: World, k: Owner, x: Node, origin: Option<ID>, right: Option<ID>, left: Option<Ref>,
                           next: Option<Ref>) {
    && Sane(w) && x.Elem?
    && Names(origin, x.origin, Start) && (x.origin == Start || Known(w.nodes, x.origin))
    && Names(right, x.right, End) && (x.right == End || Known(w.nodes, x.right))
    && (left.Some? <==> origin.Some?)
    && (left.Some? ==>
          var r := left.value;
          r < |w.items| && w.items[r].parent == k && w.items[r].Len() > 0 &&
            At(w.items[r].id, w.items[r].Len() - 1) == origin.value)
    && (next.Some? <==> right.Some?)
    && (next.Some? ==> next.value < |w.items| && w.items[next.value].id == right.value)
  }

  /** The index after `left` in its list. */
  ghost function IndexAfter(w: World, k: Owner, left: Option<Ref>): (f: nat)
    requires Sane(w) && (left.Some? ==> left.value < |w.items| && w.items[left.value].parent == k)
    ensures f <= |ListOf(w, k)|
    ensures left == if f == 0 then None else Some(ListOf(w, k)[f - 1])
  {
    match left
    case None => 0
    case Some(r) =>
      SaneItem(w, r);
      var i :| 0 <= i < |w.lists[k]| && w.lists[k][i] == r;
      i + 1
  }

  lemma LastUnit(w: World, r: Ref, n: Node)
    requires Sane(w) && r < |w.items| && w.items[r].Len() > 0 && Known(w.nodes, n)
    requires n.id == At(w.items[r].id, w.items[r].Len() - 1)
    ensures var u := RunAt(w, r); u != [] && u[|u| - 1] == n
  {
    RunIsRun(w, r);
  }

  /** The scan over units starts where the scan over items does. */
  lemma SceneStarts(w: World, k: Owner, x: Node, origin: Option<ID>, right: Option<ID>, left: Option<Ref>,
                    next: Option<Ref>)
    requires Resolved(w, k, x, origin, right, left, next)
    ensures var f := IndexAfter(w, k, left);
            && Scene(w, k, x, origin, right, f)
            && (forall o <- Order(w, k) :: o.Elem?)
            && (x.origin == Start || x.origin in Order(w, k))
            && var p := Offset(w, ListOf(w, k), f);
               p <= |Order(w, k)| && Scan(Order(w, k), x, p, p, p) == Place(Order(w, k), x)
  {
    hide Sane, Order, RunAt, Units, After, Scan;
    var f, s, u := IndexAfter(w, k, left), ListOf(w, k), Order(w, k);
    OrderDistinct(w, k);
    OffsetEnds(w, s);
    OffsetBounds(w, k, f, f);
    if left.Some? {
      LastUnit(w, left.value, x.origin);
      HeadInOrder(w, k, f - 1);
      var p, q := Offset(w, s, f - 1), Offset(w, s, f);
      assert u[p..q][q - p - 1] == u[q - 1] == x.origin;
      assert u[After(u, x.origin) - 1] == x.origin;
      NotLater(w, k, f, x.origin);
    } else {
      SaneRefs(w, k);
      forall r | r in s[f..]
        ensures Start !in RunAt(w, r)
      {
        assert r in s;
        LinkedRef(w.items, s, r);
        RunIsRun(w, r);
      }
    }
  }

  lemma NotLater(w: World, k: Owner, f: nat, n: Node)
    requires Sane(w) && 0 < f <= |ListOf(w, k)| && n in RunAt(w, ListOf(w, k)[f - 1])
    ensures forall r <- ListOf(w, k)[f..] :: n !in RunAt(w, r)
  {
    var s := ListOf(w, k);
    SaneRefs(w, k);
    hide Sane, RunAt;
    var i :| 0 <= i < |RunAt(w, s[f - 1])| && RunAt(w, s[f - 1])[i] == n;
    forall r | r in s[f..]
      ensures n !in RunAt(w, r)
    {
      var a :| f <= a < |s| && s[a] == r;
      assert s[f - 1] in s && s[a] in s && s[f - 1] != s[a];
      RunsDisjointPair(w, s[f - 1], r, n);
    }
  }

  lemma RunsDisjointPair(w: World, r: Ref, q: Ref, n: Node)
    requires Sane(w) && r < |w.items| && q < |w.items| && r != q && n in RunAt(w, r)
    ensures n !in RunAt(w, q)
  {
    RunIsRun(w, r);
    if n in RunAt(w, q) {
      InRun(w, r, n);
      InRun(w, q, n);
      ItemsDisjoint(w, r, q, n.id.clock - w.items[r].id.clock, n.id.clock - w.items[q].id.clock);
    }
  }

  /** The item at index `i`, as a pointer. */
  ghost function RefAt(s: seq<Ref>, i: nat): Option<Ref> {
    if i < |s| then Some(s[i]) else None
  }

  /** Following a link leads to the next index. */
  lemma Successor(w: World, k: Owner, i: nat)
    requires Sane(w) && i < |ListOf(w, k)|
    ensures var s := ListOf(w, k);
            s[i] < |w.items| && w.items[s[i]].next == RefAt(s, i + 1) &&
              w.items[s[i]].prev == (if i == 0 then None else Some(s[i - 1]))
  {
    SaneRefs(w, k);
    hide Sane;
    assert LinkedAt(w.items, ListOf(w, k), i);
  }

  /** What a type keeps of a list. */
  lemma AnchorOf(w: World, k: Owner)
    requires Sane(w)
    ensures k in w.anchor <==> ListOf(w, k) != []
    ensures k in w.anchor ==> w.anchor[k] == Anchor(k, ListOf(w, k)) && w.anchor[k] < |w.items|
  {
    if k in w.lists {
      SaneList(w, k);
      assert Anchor(k, w.lists[k]) in w.lists[k];
    }
  }

  /** An item that holds the unit is among `s` exactly when `s` holds the unit. */
  lemma HeldByItem(w: World, s: seq<Ref>, id: ID, q: Option<Ref>)
    requires Sane(w) && (forall r <- s :: r < |w.items|)
    requires q == None ==> !Housed(w.items, id)
    requires q.Some? ==> q.value < |w.items| && Within(w.items[q.value].id, w.items[q.value].Len(), id)
    ensures HeldIn(w, s, id) <==> q.Some? && q.value in s
  {
    if HeldIn(w, s, id) {
      var r :| r in s && r < |w.items| && Within(w.items[r].id, w.items[r].Len(), id);
      if q.Some? {
        var it, iq := w.items[r], w.items[q.value];
        ItemsDisjoint(w, r, q.value, id.clock - it.id.clock, id.clock - iq.id.clock);
      }
    }
  }

  lemma HeldBetween(w: World, k: Owner, a: nat, b: nat, id: ID, q: Option<Ref>)
    requires Sane(w) && a <= b <= |ListOf(w, k)|
    requires q == None ==> !Housed(w.items, id)
    requires q.Some? ==> q.value < |w.items| && Within(w.items[q.value].id, w.items[q.value].Len(), id)
    ensures HeldIn(w, ListOf(w, k)[a..b], id) <==> q.Some? && q.value in Between(ListOf(w, k), a, b)
  {
    hide Sane, Housed, Within, HeldIn;
    StretchRefs(w, k, a, b);
    HeldByItem(w, ListOf(w, k)[a..b], id, q);
  }

  /** The pointer comparison that ends the scan is a comparison of ids. */
  lemma SameStart(w: World, r: Ref, next: Option<Ref>, right: Option<ID>)
    requires Sane(w) && r < |w.items| && (next.Some? <==> right.Some?)
    requires next.Some? ==> next.value < |w.items| && w.items[next.value].id == right.value
    ensures Some(r) == next <==> right == Some(w.items[r].id)
  {
    if right == Some(w.items[r].id) {
      SaneItem(w, r);
      SaneItem(w, next.value);
      ItemsDisjoint(w, r, next.value, 0, 0);
    }
  }

  lemma OffsetBounds(w: World, k: Owner, a: nat, b: nat)
    requires a <= b <= |ListOf(w, k)|
    ensures Offset(w, ListOf(w, k), a) <= Offset(w, ListOf(w, k), b) <= |Order(w, k)|
  {
    StretchOf(w, k, a, b);
  }

  lemma StretchRefs(w: World, k: Owner, a: nat, b: nat)
    requires Sane(w) && a <= b <= |ListOf(w, k)|
    ensures forall r <- ListOf(w, k)[a..b] :: r < |w.items|
  {
    SaneRefs(w, k);
    RefsOf(w, ListOf(w, k), a, b);
  }

  /** At the end of the list, or at the right origin, the scan is over. */
  lemma ScanEnds(w: World, k: Owner, x: Node, origin: Option<ID>, right: Option<ID>, left: Option<Ref>,
                 next: Option<Ref>,
                 f: nat, i: nat, l: nat)
    requires Resolved(w, k, x, origin, right, left, next) && Scene(w, k, x, origin, right, f)
    requires f <= l <= i <= |ListOf(w, k)| && (i == |ListOf(w, k)| || Some(ListOf(w, k)[i]) == next)
    requires forall o <- Order(w, k) :: o.Elem?
    ensures var s, u := ListOf(w, k), Order(w, k);
            && Offset(w, s, f) <= Offset(w, s, l) <= Offset(w, s, i) <= |u|
            && Scan(u, x, Offset(w, s, f), Offset(w, s, i), Offset(w, s, l)) == Offset(w, s, l)
  {
    hide Sane, Order, Offset, HeldIn;
    OffsetBounds(w, k, f, l);
    OffsetBounds(w, k, l, i);
    if i == |ListOf(w, k)| {
      OffsetAtEnd(w, k);
    } else {
      ItemStep(w, k, x, origin, right, f, i, l);
      SameStart(w, ListOf(w, k)[i], next, right);
    }
  }

  lemma OffsetAtEnd(w: World, k: Owner)
    ensures Offset(w, ListOf(w, k), |ListOf(w, k)|) == |Order(w, k)|
  {
    OffsetEnds(w, ListOf(w, k));
  }

  /** The items between two indices. */
  ghost function Between(s: seq<Ref>, a: nat, b: nat): set<Ref>
    requires a <= b <= |s|
  {
    set r | r in s[a..b]
  }

  lemma BetweenGrows(s: seq<Ref>, a: nat, i: nat)
    requires a <= i < |s|
    ensures Between(s, a, i + 1) == Between(s, a, i) + {s[i]} && Between(s, i + 1, i + 1) == {}
  {
    assert s[a..i + 1] == s[a..i] + [s[i]];
  }

  lemma BetweenNothing(s: seq<Ref>, a: nat)
    requires a <= |s|
    ensures Between(s, a, a) == {}
  {
  }

  /** The units of a list refer to units of the list as their origins. */
  lemma OrderClosed(w: World, k: Owner, m: Node)
    requires Sane(w) && m in Order(w, k)
    ensures Known(w.nodes, m) && (m.origin == Start || (Known(w.nodes, m.origin) && m.origin in Order(w, k)))
  {
    var s := ListOf(w, k);
    OrderDistinct(w, k);
    InUnits(w, s, m);
    var r :| r in s && m in RunAt(w, r);
    SaneRefs(w, k);
    LinkedRef(w.items, s, r);
    InRun(w, r, m);
    var _ := HeldSlot(w, r, m.id);
    SaneNode(w, m.id);
    if m.origin.Elem? {
      UnitInItsList(w, m.origin);
    }
  }

  /** An integrated unit is in the list its content names. */
  lemma UnitInItsList(w: World, n: Node)
    requires Sane(w) && Known(w.nodes, n)
    ensures n.id in w.facts && n in Order(w, w.facts[n.id].parent)
  {
    SaneNode(w, n.id);
    var q :| 0 <= q < |w.items| && Within(w.items[q].id, w.items[q].Len(), n.id);
    var _ := HeldSlot(w, q, n.id);
    SaneItem(w, q);
    InRun(w, q, n);
    InUnits(w, ListOf(w, w.items[q].parent), n);
  }

  // ---------------------------------------------------------------- the scan as a loop

  /** `left` is the item before index `l`, and that is where the unit belongs. */
  ghost predicate RightPlace(w: World, k: Owner, x: Node, l: nat) {
    && x.Elem? && l <= |ListOf(w, k)|
    && (forall o <- Order(w, k) :: o.Elem?) && (x.origin == Start || x.origin in Order(w, k))
    && Offset(w, ListOf(w, k), l) == Place(Order(w, k), x)
  }

  /** The scan of the units has got to index `i`, and would go on to the right place. */
  ghost predicate Scanning(w: World, k: Owner, x: Node, f: nat, i: nat, l: nat) {
    var s, u := ListOf(w, k), Order(w, k);
    && x.Elem? && f <= l <= i <= |s|
    && (forall o <- u :: o.Elem?) && (x.origin == Start || x.origin in u)
    && Offset(w, s, f) <= Offset(w, s, l) <= Offset(w, s, i) <= |u|
    && Scan(u, x, Offset(w, s, f), Offset(w, s, i), Offset(w, s, l)) == Place(u, x)
  }

  lemma ScanBegins(w: World, k: Owner, x: Node, origin: Option<ID>, right: Option<ID>, left: Option<Ref>,
                   next: Option<Ref>)
    requires Resolved(w, k, x, origin, right, left, next)
    ensures (left.Some? ==> left.value < |w.items| && w.items[left.value].parent == k)
    ensures var f := IndexAfter(w, k, left);
            && Scene(w, k, x, origin, right, f) && Scanning(w, k, x, f, f, f)
            && Between(ListOf(w, k), f, f) == {} && left == Around(ListOf(w, k), f).0
            && RefAt(ListOf(w, k), f) == (if left.Some? then w.items[left.value].next else RefAt(ListOf(w, k), 0))
  {
    hide Sane, Order, Offset, Scan, Place, Names, Known, ListOf;
    var f := IndexAfter(w, k, left);
    SceneStarts(w, k, x, origin, right, left, next);
    OffsetBounds(w, k, f, f);
    BetweenNothing(ListOf(w, k), f);
    if f > 0 { Successor(w, k, f - 1); }
  }

  /** One turn of the loop. */
  lemma ScanTurns(w: World, k: Owner, x: Node, origin: Option<ID>, right: Option<ID>, left: Option<Ref>,
                  next: Option<Ref>,
                  f: nat, i: nat, l: nat)
    requires Resolved(w, k, x, origin, right, left, next) && Scene(w, k, x, origin, right, f)
    requires Scanning(w, k, x, f, i, l)
    requires i < |ListOf(w, k)| && Some(ListOf(w, k)[i]) != next
    ensures var s := ListOf(w, k);
            && f <= l <= i && s[i] < |w.items| && right != Some(w.items[s[i]].id) &&
              w.items[s[i]].next == RefAt(s, i + 1)
            && Between(s, f, i + 1) == Between(s, f, i) + {s[i]} && Between(s, l, i + 1) == Between(s, l, i) + {s[i]}
            && Between(s, i + 1, i + 1) == {}
            && match ItemTurn(w, s, x.id, origin, right, f, i, l)
               case None => RightPlace(w, k, x, l)
               case Some(d) => Scanning(w, k, x, f, i + 1, if d == l then l else i + 1)
  {
    hide Sane, Order, Offset, Scan, Place, Names, Known, ListOf, ItemTurn, Scene;
    var s := ListOf(w, k);
    ItemStep(w, k, x, origin, right, f, i, l);
    SameStart(w, s[i], next, right);
    Successor(w, k, i);
    BetweenGrows(s, f, i);
    BetweenGrows(s, l, i);
    OffsetBounds(w, k, f, i + 1);
  }

  lemma ScanIsOver(w: World, k: Owner, x: Node, origin: Option<ID>, right: Option<ID>, left: Option<Ref>,
                   next: Option<Ref>,
                   f: nat, i: nat, l: nat)
    requires Resolved(w, k, x, origin, right, left, next) && Scene(w, k, x, origin, right, f)
    requires Scanning(w, k, x, f, i, l)
    requires RefAt(ListOf(w, k), i) == None || RefAt(ListOf(w, k), i) == next
    ensures RightPlace(w, k, x, l)
  {
    hide Sane, Order, Offset, Scan, Place, Names, Known, ListOf, Scene, Resolved;
    ScanEnds(w, k, x, origin, right, left, next, f, i, l);
  }

  // ---------------------------------------------------------------- the end of a list

  /** Only the end of the list is after all its units. */
  lemma EndIsEnd(w: World, k: Owner, l: nat)
    requires Sane(w) && l <= |ListOf(w, k)|
    ensures Offset(w, ListOf(w, k), l) == |Order(w, k)| <==> l == |ListOf(w, k)|
  {
    OffsetAtEnd(w, k);
    if l < |ListOf(w, k)| {
      SaneRefs(w, k);
      var s := ListOf(w, k);
      assert s[l] in s;
      RunHead(w, s[l]);
      hide Sane, Units, RunAt;
      OffsetStep(w, s, l);
    }
  }

  /** The last unit of a list is the last of its last item. */
  lemma LastOfOrder(w: World, k: Owner)
    requires Sane(w) && ListOf(w, k) != []
    ensures var s, u := ListOf(w, k), Order(w, k);
            && s[|s| - 1] < |w.items| && u != [] && u[|u| - 1].Elem?
            && w.items[s[|s| - 1]].Len() > 0 && u[|u| - 1].id ==
              At(w.items[s[|s| - 1]].id, w.items[s[|s| - 1]].Len() - 1)
  {
    var s, u := ListOf(w, k), Order(w, k);
    var n := |s| - 1;
    SaneRefs(w, k);
    assert s[n] in s;
    RunHead(w, s[n]);
    RunIsRun(w, s[n]);
    SaneItem(w, s[n]);
    OffsetAtEnd(w, k);
    OffsetStep(w, s, n);
    var it := w.items[s[n]];
    assert UnitOk(w.nodes, w.facts, w.gone, it, it.Len() - 1);
    hide Sane, Units;
    var run := RunAt(w, s[n]);
    assert u[Offset(w, s, n)..][|run| - 1] == run[|run| - 1];
  }
}
