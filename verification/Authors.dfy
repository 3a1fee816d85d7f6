/**
  Where honest histories come from: clients that type between adjacent units of a document
  that agrees with the history so far.
*/
module Authors {
  import opened Ids
  import opened Structs
  import opened Yata
  import opened Items
  import opened Placing
  import opened Histories
  import opened Convergence
  import opened Steps

  /** The client of `x` types `cells` at position `i` of list `k` of the document `w`: the new
      units follow one another, the first after the unit at `i - 1`, all before the unit at `i`. */
  ghost predicate Types(h: History, h': History, w: World, k: Owner, i: nat, x: ID, cells: seq<Cell>, kind: Kind) {
    && i <= |Order(w, k)|
    && (forall y :: y in h' <==> y in h || Within(x, |cells|, y))
    && (forall y <- h :: h'[y] == h[y])
    && (forall j: nat {:trigger At(x, j)} | j < |cells| ::
          h'[At(x, j)] == Op(if j == 0 then Name(Left(w, k, i))
            else Some(At(x, j - 1)), Name(Right(w, k, i)), k, cells[j], kind))
  }

  ghost function Name(n: Node): Option<ID> {
    if n.Elem? then Some(n.id) else None
  }

  ghost function Left(w: World, k: Owner, i: nat): Node
    requires i <= |Order(w, k)|
  {
    if i == 0 then Start else Order(w, k)[i - 1]
  }

  ghost function Right(w: World, k: Owner, i: nat): Node
    requires i <= |Order(w, k)|
  {
    if i == |Order(w, k)| then End else Order(w, k)[i]
  }

  /** What an editor lets its user do: the clocks are the client's next ones, the text consists of
      whole characters and is not put inside one, and the list exists. */
  ghost predicate MayType(h: History, w: World, k: Owner, i: nat, x: ID, cells: seq<Cell>) {
    && (forall y <- h :: y.client == x.client ==> y.clock < x.clock)
    && Paired(cells) && cells != [] && i <= |Order(w, k)|
    && (Left(w, k, i).Elem? ==> Left(w, k, i).id in w.facts && w.facts[Left(w, k, i).id].cell.half != High)
    && (Right(w, k, i).Elem? ==> Right(w, k, i).id in w.facts && w.facts[Right(w, k, i).id].cell.half != Low)
    && (k.holder.Nested? ==> k.holder.item in w.facts && w.facts[k.holder.item].kind == Type)
  }

  /** The neighbours are operations of the history, of the same list. */
  lemma NeighbourKnown(h: History, w: World, k: Owner, n: Node)
    requires Sane(w) && Agrees(h, w) && n in Order(w, k)
    ensures n.Elem? && n.id in h && h[n.id].parent == k && Describes(h, n)
    ensures n.id in w.facts && h[n.id].cell == w.facts[n.id].cell
  {
    ListedUnder(w, k, n);
    OrderDistinct(w, k);
    hide Sane;
    assert AgreesAt(h, w, n.id);
    StoredIsDescribed(h, w, n);
  }

  /** Units typed one after the other hang off each other. */
  lemma {:induction false} TypedIsUnder(h: History, a: Node, b: Node)
    requires Describes(h, a) && Describes(h, b) && TypedThrough(h, a.id, b.id)
    ensures Under(a, b)
    decreases b.id.clock
  {
    if a.id == b.id {
      DescriptionIsUnique(h, a, b);
    } else {
      assert ID(a.id.client, b.id.clock) == b.id;
      TypedIsUnder(h, a, b.origin);
    }
  }

  /** The right neighbour is not on the way to the left one. */
  lemma NotTypedThrough(h: History, w: World, k: Owner, i: nat)
    requires Sane(w) && Agrees(h, w) && Ordered(Order(w, k)) && 0 < i < |Order(w, k)|
    ensures !TypedThrough(h, Order(w, k)[i].id, Order(w, k)[i - 1].id)
  {
    hide Before, TypedThrough;
    var s := Order(w, k);
    NeighbourKnown(h, w, k, s[i]);
    NeighbourKnown(h, w, k, s[i - 1]);
    PositionsDiffer(s, i - 1, i);
    if TypedThrough(h, s[i].id, s[i - 1].id) {
      TypedIsUnder(h, s[i], s[i - 1]);
      AncestorsFirst(s[i], s[i - 1]);
      IndexOrder(s, i, i - 1);
    }
  }

  /** The new units obey the laws. */
  lemma TypedIsLawful(h: History, h': History, w: World, k: Owner, i: nat, x: ID, cells: seq<Cell>, kind: Kind, j: nat)
    requires Sane(w) && Agrees(h, w) && OrderedAll(w) && MayType(h, w, k, i, x, cells)
    requires Types(h, h', w, k, i, x, cells, kind)
    requires j < |cells|
    ensures LawfulAt(h', At(x, j))
  {
    hide Sane, Order, Ordered;
    var o, t := Left(w, k, i), Right(w, k, i);
    if o.Elem? { NeighbourKnown(h, w, k, o); }
    if t.Elem? { NeighbourKnown(h, w, k, t); }
    var y := At(x, j);
    assert Within(x, |cells|, y) && Within(x, |cells|, x) && At(x, 0) == x;
    if j > 0 { assert Within(x, |cells|, At(x, j - 1)); }
    if h'[y].origin.Some? && h'[y].right.Some? && TypedThrough(h', t.id, h'[y].origin.value) {
      if j > 0 {
        assert ID(x.client, x.clock) == x;
      }
      assert o.Elem? && TypedThrough(h', t.id, o.id);
      OldTyping(h, h', t.id, o.id);
      assert Ordered(Order(w, k));
      NotTypedThrough(h, w, k, i);
    }
  }

  /** New units are not between old ones. */
  lemma OldTyping(h: History, h': History, a: ID, b: ID)
    requires TypedThrough(h', a, b) && b in h
    requires forall y <- h' | y.client == b.client && y.clock <= b.clock :: y in h && h'[y] == h[y]
    ensures TypedThrough(h, a, b)
  {
    forall k: nat | a.clock < k <= b.clock
      ensures ID(a.client, k) in h && h[ID(a.client, k)].origin == Some(ID(a.client, k - 1))
    {
      assert ID(a.client, k) in h';
    }
  }

  lemma OldStaysLawful(h: History, h': History, w: World, k: Owner, i: nat, x: ID, cells: seq<Cell>, kind: Kind, y: ID)
    requires Honest(h) && MayType(h, w, k, i, x, cells) && Types(h, h', w, k, i, x, cells, kind) && y in h
    ensures LawfulAt(h', y) && HonestAt(h', y)
  {
    hide Order, WellPlaced, Describes;
    assert LawfulAt(h, y) && HonestAt(h, y);
    var op := h[y];
    if op.origin.Some? && op.right.Some? && TypedThrough(h', op.right.value, op.origin.value) {
      OldTyping(h, h', op.right.value, op.origin.value);
    }
  }

  lemma TypedIsHonest(h: History, h': History, w: World, k: Owner, i: nat, x: ID, cells: seq<Cell>, kind: Kind, j: nat)
    requires Sane(w) && Agrees(h, w) && MayType(h, w, k, i, x, cells) && Types(h, h', w, k, i, x, cells, kind)
    requires j < |cells|
    ensures HonestAt(h', At(x, j))
  {
    hide Sane, Order, Describes;
    SaneKeys(w);
    var o, t := Left(w, k, i), Right(w, k, i);
    if o.Elem? { NeighbourKnown(h, w, k, o); }
    if t.Elem? { NeighbourKnown(h, w, k, t); }
    if k.holder.Nested? { assert AgreesAt(h, w, k.holder.item); }
    assert Within(x, |cells|, At(x, j));
    if j > 0 {
      assert Within(x, |cells|, At(x, j - 1));
      assert ID(At(x, j).client, At(x, j).clock - 1) == At(x, j - 1);
    }
  }

  /** Descriptions of old units stay as they were. */
  lemma {:induction false} OldDescription(h: History, h': History, n: Node)
    requires Honest(h) && Describes(h', n) && n.id in h && forall y <- h :: y in h' && h'[y] == h[y]
    ensures Describes(h, n)
    decreases n
  {
    hide WellPlaced;
    assert HonestAt(h, n.id);
    if n.origin.Elem? { OldDescription(h, h', n.origin); }
    if n.right.Elem? { OldDescription(h, h', n.right); }
  }

  lemma {:induction false} NewDescription(h: History, h': History, w: World, k: Owner, i: nat, x: ID, cells: seq<Cell>,
                                          kind: Kind,
                                          n: Node, j: nat)
    requires Sane(w) && Agrees(h, w) && Honest(h) && MayType(h, w, k, i, x, cells)
    requires Types(h, h', w, k, i, x, cells, kind)
    requires Describes(h', n) && j < |cells| && n.id == At(x, j)
    ensures n == Described(x, Left(w, k, i), Right(w, k, i), j)
    decreases j
  {
    hide Sane, Order, Honest;
    OrderDistinct(w, k);
    var o, t := Left(w, k, i), Right(w, k, i);
    if t.Elem? {
      NeighbourKnown(h, w, k, t);
      OldDescription(h, h', n.right);
      DescriptionIsUnique(h, n.right, t);
    }
    if j > 0 {
      NewDescription(h, h', w, k, i, x, cells, kind, n.origin, j - 1);
    } else if o.Elem? {
      NeighbourKnown(h, w, k, o);
      OldDescription(h, h', n.origin);
      DescriptionIsUnique(h, n.origin, o);
    }
  }

  /** An old unit does not hang off a new one. */
  lemma {:induction false} NotUnderNew(h: History, n: Node, a: Node)
    requires Describes(h, n) && a.Elem? && a.id !in h
    ensures !Under(a, n)
    decreases n
  {
    if n.origin.Elem? { NotUnderNew(h, n.origin, a); }
  }

  /** What is typed between adjacent units is well placed. */
  lemma TypedIsWellPlaced(h: History, w: World, k: Owner, i: nat, x: ID, cells: seq<Cell>, j: nat)
    requires Sane(w) && Agrees(h, w) && OrderedAll(w) && MayType(h, w, k, i, x, cells) && j < |cells|
    ensures WellPlaced(Described(x, Left(w, k, i), Right(w, k, i), j))
  {
    hide Sane, Order, Ordered;
    var o, t := Left(w, k, i), Right(w, k, i);
    assert Ordered(Order(w, k));
    if j == 0 {
      LocalInsert(Order(w, k), i, At(x, 0));
    } else if t.Elem? {
      NeighbourKnown(h, w, k, t);
      NotUnderNew(h, t, Described(x, o, t, j - 1));
    }
  }

  /** Honest histories are closed under typing: whatever a client types into a document that
      agrees with the history, the history stays honest. */
  lemma TypingKeepsHonesty(h: History, h': History, w: World, k: Owner, i: nat, x: ID, cells: seq<Cell>, kind: Kind)
    requires Honest(h) && Sane(w) && Agrees(h, w) && OrderedAll(w)
    requires MayType(h, w, k, i, x, cells) && Types(h, h', w, k, i, x, cells, kind)
    ensures Honest(h')
  {
    hide Sane, Order, Agrees, OrderedAll, Describes, WellPlaced, MayType, LawfulAt, HonestAt;
    forall y <- h'
      ensures LawfulAt(h', y) && HonestAt(h', y)
    {
      if y in h {
        OldStaysLawful(h, h', w, k, i, x, cells, kind, y);
      } else {
        var j: nat := y.clock - x.clock;
        assert y == At(x, j);
        TypedIsLawful(h, h', w, k, i, x, cells, kind, j);
        TypedIsHonest(h, h', w, k, i, x, cells, kind, j);
      }
    }
    forall n | Describes(h', n)
      ensures WellPlaced(n)
    {
      DescribedHas(h', n);
      if n.id in h {
        OldDescription(h, h', n);
      } else {
        var j: nat := n.id.clock - x.clock;
        assert n.id == At(x, j);
        NewDescription(h, h', w, k, i, x, cells, kind, n, j);
        TypedIsWellPlaced(h, w, k, i, x, cells, j);
      }
    }
  }

  lemma DescribedHas(h: History, n: Node)
    requires Describes(h, n)
    ensures n.Elem? && n.id in h
  {
  }
}
