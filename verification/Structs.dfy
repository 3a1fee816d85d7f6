/**
  The structs an update carries (internal/crdt/struct.go, content.go), as values.

  Content is the sequence of its clock units.  A character outside the basic plane takes two
  units, the halves of a surrogate pair; `Splice` refuses to cut between them.
*/
module Structs {
  import opened Ids

  datatype Half = Whole | High | Low
  datatype Cell = Cell(value: int, half: Half)
  datatype Kind = Plain | Tombstone | Type
  datatype Content = Content(kind: Kind, cells: seq<Cell>)

  /** Halves come in pairs. */
  predicate Paired(cells: seq<Cell>) {
    && (cells != [] ==> cells[0].half != Low && cells[|cells| - 1].half != High)
    && (forall i | 0 < i < |cells| :: cells[i - 1].half == High <==> cells[i].half == Low)
  }

  /** `Splice(k)` succeeds. */
  predicate Splits(c: Content, k: nat) {
    0 < k < |c.cells| && c.cells[k - 1].half != High
  }

  /** What `Splice(k)` leaves in place, and what it returns. */
  function Upto(c: Content, k: nat): Content
    requires k <= |c.cells|
  {
    Content(c.kind, c.cells[..k])
  }

  function From(c: Content, k: nat): Content
    requires k <= |c.cells|
  {
    Content(c.kind, c.cells[k..])
  }

  /** A shared type: a root type, or the type held by an item. */
  datatype Holder = Root(name: string) | Nested(item: ID)

  /** The list an item belongs to: the sequence of a type, or the entries of one of its keys. */
  datatype Owner = Owner(holder: Holder, key: Option<string>)
  {
    predicate Keyed() {
      key.Some?
    }
  }

  datatype Struct =
    | GC(id: ID, len: nat)
    | Skip(id: ID, len: nat)
    | Item(id: ID, origin: Option<ID>, right: Option<ID>, parent: Option<Owner>, content: Content)
  {
    function Len(): nat {
      if Item? then |content.cells| else len
    }
    function End(): nat {
      id.clock + Len()
    }
  }

  lemma SplitKeepsPaired(c: Content, k: nat)
    requires Paired(c.cells) && Splits(c, k)
    ensures Paired(Upto(c, k).cells) && Paired(From(c, k).cells)
  {
    assert c.cells[k].half != Low;
  }
}
