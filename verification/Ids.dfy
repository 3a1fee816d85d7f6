/** The identifiers every part of the engine shares (internal/crdt/id.go). */
module Ids {

  datatype Option<+T> = None | Some(value: T)

  /** One clock tick of one client: one unit of content.  Clocks and client ids are
      64-bit in the source; both stay far below 2^64 on every path, so they are naturals here. */
  datatype ID = ID(client: nat, clock: nat)

  lemma {:induction false} Largest(s: set<nat>) returns (x: nat)
    requires s != {}
    ensures x in s && forall y <- s :: y <= x
  {
    var first :| first in s;
    var rest := s - {first};
    assert forall y <- s :: y == first || y in rest;
    x := first;
    if rest != {} {
      var y := Largest(rest);
      if y > x { x := y; }
    }
  }

  lemma {:induction false} Smallest(s: set<nat>) returns (x: nat)
    requires s != {}
    ensures x in s && forall y <- s :: x <= y
  {
    var first :| first in s;
    var rest := s - {first};
    assert forall y <- s :: y == first || y in rest;
    x := first;
    if rest != {} {
      var y := Smallest(rest);
      if y < x { x := y; }
    }
  }
}
