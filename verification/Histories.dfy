/**
  What updates are about: the operations clients have made.

  An id names one operation, whoever relays it and however it is sliced.  A `History` is that
  naming; a struct of an update fits a history when each of its units is the operation its id
  names.  Everything the engine stores is then a part of the history.
*/
module Histories {
  import opened Ids
  import opened Structs
  import opened Yata
  import opened Items
  import opened Schedules

  /** One unit as its author made it. */
  datatype Op = Op(origin: Option<ID>, right: Option<ID>, parent: Owner, cell: Cell, kind: Kind)

  type History = map<ID, Op>

  ghost predicate UnitFits(h: History, s: Struct, j: nat) {
    && s.Item? && j < s.Len() && s.id in h && At(s.id, j) in h
    && h[At(s.id, j)] == Op(if j == 0 then s.origin else Some(At(s.id, j - 1)), s.right, h[s.id].parent,
                            s.content.cells[j], s.content.kind)
  }

  /** The struct is what the decoder accepts, and its units are operations of the history.
      Parent information travels only when there is no neighbour to inherit it from. */
  ghost predicate Fits(h: History, s: Struct) {
    s.Item? ==>
      && Paired(s.content.cells) && (s.content.kind == Type ==> s.Len() == 1)
      && (s.parent.Some? <==> s.origin == None && s.right == None)
      && (forall j: nat {:trigger UnitFits(h, s, j)} | j < s.Len() :: UnitFits(h, s, j))
      && (s.parent.Some? && s.Len() > 0 ==> s.id in h && h[s.id].parent == s.parent.value)
  }

  /** The units from `a` to `b` were typed one after the other by one client. */
  ghost predicate TypedThrough(h: History, a: ID, b: ID) {
    && a.client == b.client && a.clock <= b.clock
    && (forall k: nat {:trigger ID(a.client, k)} | a.clock < k <= b.clock ::
          ID(a.client, k) in h && h[ID(a.client, k)].origin == Some(ID(a.client, k - 1)))
  }

  /** A unit belongs to the list of its origin, or of its right origin if it has no origin; and
      its right origin is not on the way to its origin. */
  ghost predicate LawfulAt(h: History, x: ID) {
    && x in h
    && var op := h[x];
       && (op.origin.Some? && op.origin.value in h ==> h[op.origin.value].parent == op.parent)
       && (op.origin == None && op.right.Some? && op.right.value in h ==> h[op.right.value].parent == op.parent)
       && (op.origin.Some? && op.right.Some? ==> !TypedThrough(h, op.right.value, op.origin.value))
  }

  ghost predicate Lawful(h: History) {
    forall x {:trigger LawfulAt(h, x)} | x in h :: LawfulAt(h, x)
  }

  /** What is stored of a unit is what the history says. */
  ghost predicate AgreesAt(h: History, w: World, x: ID) {
    && x in w.nodes && w.nodes[x].Elem? && w.nodes[x].id == x && x in w.facts && x in h
    && w.facts[x] == Fact(h[x].cell, h[x].kind, h[x].parent)
    && Items.Names(h[x].origin, w.nodes[x].origin, Start)
    && Items.Names(h[x].right, w.nodes[x].right, End)
  }

  ghost predicate Agrees(h: History, w: World) {
    forall x {:trigger AgreesAt(h, w, x)} | x in w.nodes :: AgreesAt(h, w, x)
  }

  // ---------------------------------------------------------------- dependencies

  /** How far each client has got. */
  ghost function SV(w: World): Vector {
    (c: nat) => State(w.items, w.clients, c)
  }

  /** `resolve` reports a missing dependency. */
  ghost predicate Blocked(w: World, s: Struct) {
    !Satisfied(SV(w), s)
  }

  /** The item finds its neighbours and its list: none of them has been collected, and neither
      neighbour would have to be cut inside a surrogate pair. */
  ghost predicate Attachable(w: World, s: Struct) {
    && s.Item?
    && (s.origin.Some? ==> s.origin.value in w.facts && w.facts[s.origin.value].cell.half != High)
    && (s.right.Some? ==> s.right.value in w.facts && w.facts[s.right.value].cell.half != Low)
    && (OwnerID(s.parent).Some? ==>
          OwnerID(s.parent).value in w.facts && w.facts[OwnerID(s.parent).value].kind == Type)
  }

  /** The sender's slice overlaps what is stored, and the unit just before the new part has been
      collected or is half of a pair: `integrateItem` returns without storing anything. */
  ghost predicate Lost(w: World, s: Struct, offset: nat) {
    s.Item? && offset > 0 &&
      (At(s.id, offset - 1) !in w.facts || w.facts[At(s.id, offset - 1)].cell.half == High)
  }

  /** The description of a stored neighbour. */
  ghost function NodeOf(w: World, x: Option<ID>, edge: Node): Node {
    if x.Some? && x.value in w.nodes then w.nodes[x.value] else edge
  }

  // ---------------------------------------------------------------- histories of real clients

  /** `n` is the description of an operation of the history, down to the ends of the list. */
  ghost predicate Describes(h: History, n: Node) {
    && n.Elem? && n.id in h
    && Items.Names(h[n.id].origin, n.origin, Start) && Items.Names(h[n.id].right, n.right, End)
    && (n.origin.Elem? ==> Describes(h, n.origin))
    && (n.right.Elem? ==> Describes(h, n.right))
  }

  /** What a client can do: it refers to units that exist, and to earlier ones of its own; it
      never splits a pair; its right origin is in the same list; a nested list hangs off an
      item that holds a type; the halves of a pair are typed one after the other. */
  ghost predicate HonestAt(h: History, x: ID) {
    && x in h
    && var op := h[x];
       && (op.origin.Some? ==>
             var o := op.origin.value;
             o in h && (h[o].cell.half == High ==> op.cell.half == Low) && (o.client == x.client ==> o.clock < x.clock))
       && (op.right.Some? ==>
             var r := op.right.value;
             r in h && h[r].cell.half != Low && h[r].parent == op.parent &&
               (r.client == x.client ==> r.clock < x.clock))
       && (op.parent.holder.Nested? ==>
             var p := op.parent.holder.item;
             p in h && h[p].kind == Type && (p.client == x.client ==> p.clock < x.clock))
       && (op.cell.half == Low ==>
             x.clock > 0 && ID(x.client, x.clock - 1) in h && h[ID(x.client, x.clock - 1)].cell.half == High)
  }

  ghost predicate Honest(h: History) {
    && Lawful(h)
    && (forall x {:trigger HonestAt(h, x)} | x in h :: HonestAt(h, x))
    && (forall n | Describes(h, n) :: WellPlaced(n))
  }

  /** A struct of an honest history: collected content is content nobody refers to. */
  ghost predicate Clean(h: History, s: Struct) {
    Fits(h, s) && (s.GC? ==> forall x | Within(s.id, s.len, x) :: x !in h)
  }

  /** An id has one description. */
  lemma {:induction false} DescriptionIsUnique(h: History, m: Node, n: Node)
    requires Describes(h, m) && Describes(h, n) && m.id == n.id
    ensures m == n
    decreases m
  {
    if m.origin.Elem? { DescriptionIsUnique(h, m.origin, n.origin); }
    if m.right.Elem? { DescriptionIsUnique(h, m.right, n.right); }
  }

  lemma {:induction false} StoredIsDescribed(h: History, w: World, n: Node)
    requires Sane(w) && Agrees(h, w) && Known(w.nodes, n)
    ensures Describes(h, n)
    decreases n
  {
    SaneNode(w, n.id);
    assert AgreesAt(h, w, n.id);
    if n.origin.Elem? { StoredIsDescribed(h, w, n.origin); }
    if n.right.Elem? { StoredIsDescribed(h, w, n.right); }
  }
}
