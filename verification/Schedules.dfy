/**
  Which structs can be integrated, given how far each client has got
  (the queue loops of internal/crdt/doc.go, seen through the state vector alone).

  `Enabled` is monotone, so the state vectors that leave nothing enabled have a least one.
  Integration can only reach vectors below every such vector; when it stops, it has reached
  the least.
*/
module Schedules {
  import opened Ids
  import opened Structs

  /** A state vector: the next expected clock of every client. */
  type Vector = nat -> nat

  function OwnerID(p: Option<Owner>): Option<ID> {
    if p.Some? && p.value.holder.Nested? then Some(p.value.holder.item) else None
  }

  /** Not a unit of another client that is still missing. */
  predicate Present(v: Vector, client: nat, x: Option<ID>) {
    x == None || x.value.client == client || x.value.clock < v(x.value.client)
  }

  predicate Satisfied(v: Vector, s: Struct) {
    s.Item? ==>
      Present(v, s.id.client, s.origin) && Present(v, s.id.client, s.right) &&
      Present(v, s.id.client, OwnerID(s.parent))
  }

  /** The client's clock is reached, part of the struct is new, and its dependencies are there. */
  predicate Enabled(v: Vector, s: Struct) {
    !s.Skip? && s.id.clock <= v(s.id.client) < s.End() && Satisfied(v, s)
  }

  ghost predicate Closed(known: set<Struct>, v: Vector) {
    forall s <- known :: !Enabled(v, s)
  }

  ghost predicate Below(v: Vector, b: Vector) {
    forall c :: v(c) <= b(c)
  }

  /** No closed vector is exceeded anywhere. */
  ghost predicate Least(known: set<Struct>, v: Vector) {
    forall b | Closed(known, b) :: Below(v, b)
  }

  /** Integrating an enabled struct stays below every closed vector. */
  lemma StepBelow(known: set<Struct>, v: Vector, b: Vector, s: Struct)
    requires s in known && Enabled(v, s) && Closed(known, b) && Below(v, b)
    ensures s.End() <= b(s.id.client)
  {
    assert !Enabled(b, s);
    assert Satisfied(b, s);
  }

  lemma StepKeepsLeast(known: set<Struct>, v: Vector, v': Vector, s: Struct)
    requires Least(known, v) && s in known && Enabled(v, s)
    requires forall c :: v'(c) == if c == s.id.client then s.End() else v(c)
    ensures Least(known, v')
  {
    forall b | Closed(known, b)
      ensures Below(v', b)
    {
      StepBelow(known, v, b, s);
      forall c
        ensures v'(c) <= b(c)
      {
        assert v(c) <= b(c);
      }
    }
  }

  /** Knowing more structs can only move the closed vectors up. */
  lemma KnowingMore(known: set<Struct>, known': set<Struct>, v: Vector)
    requires Least(known, v) && known <= known'
    ensures Least(known', v)
  {
    forall b | Closed(known', b)
      ensures Below(v, b)
    {
      assert Closed(known, b);
    }
  }

  /** The least closed vector is unique: whatever the order, repetition and batching in which the
      same structs arrived, integration that has come to rest has got every client equally far. */
  lemma LeastIsUnique(known: set<Struct>, v: Vector, u: Vector)
    requires Least(known, v) && Closed(known, v) && Least(known, u) && Closed(known, u)
    ensures forall c :: v(c) == u(c)
  {
    assert Below(v, u) && Below(u, v);
  }
}
