/**
  What a reader of a document sees (internal/crdt/ytext.go, ymap.go and type.go): the content of a
  sequence and the value under a key.
*/
module Reading {
  import opened Ids
  import opened Structs
  import opened Yata
  import opened Items
  import opened Placing
  import opened Store
  import opened Histories
  import opened Schedules
  import opened Steps
  import opened Convergence
  import opened Ledgers
  import opened Docs
  import opened Replicas
  import opened Sync

  // ---------------------------------------------------------------- sequences

  function FactsOf(it: Item): seq<Fact> {
    seq(it.Len(), j requires 0 <= j < it.Len() => Fact(it.content.cells[j], it.content.kind, it.parent))
  }

  lemma {:induction false} ShownConcat(a: seq<Node>, b: seq<Node>, facts: map<ID, Fact>, gone: set<ID>)
    ensures Shown(a + b, facts, gone) == Shown(a, facts, gone) + Shown(b, facts, gone)
    decreases |a|
  {
    if a == [] {
      assert a + b == b;
    } else {
      assert (a + b)[1..] == a[1..] + b;
      ShownConcat(a[1..], b, facts, gone);
    }
  }

  /** A run of units that are all deleted, or none of them. */
  lemma {:induction false} ShownRun(u: seq<Node>, fs: seq<Fact>, facts: map<ID, Fact>, gone: set<ID>, deleted: bool)
    requires |u| == |fs| && forall j | 0 <= j < |u| :: u[j].Elem? && u[j].id in facts && facts[u[j].id] == fs[j]
    requires forall j | 0 <= j < |u| :: u[j].id in gone <==> deleted
    ensures Shown(u, facts, gone) == if deleted then [] else fs
    decreases |u|
  {
    if u != [] {
      ShownRun(u[1..], fs[1..], facts, gone, deleted);
      assert fs == [fs[0]] + fs[1..];
    }
  }

  /** An item shows all its content, or nothing if it is deleted. */
  lemma ItemShows(w: World, r: Ref)
    requires Sane(w) && r < |w.items|
    ensures Shown(RunAt(w, r), w.facts, w.gone) == if w.items[r].deleted then [] else FactsOf(w.items[r])
  {
    SaneItem(w, r);
    hide Sane;
    var it := w.items[r];
    forall j: nat | j < it.Len()
      ensures var n := RunAt(w, r)[j];
              n.Elem? && n.id in w.facts && w.facts[n.id] == FactsOf(it)[j] && (n.id in w.gone <==> it.deleted)
    {
      assert UnitOk(w.nodes, w.facts, w.gone, it, j);
    }
    ShownRun(RunAt(w, r), FactsOf(it), w.facts, w.gone, it.deleted);
  }

  /** The loop of `String` and `sequenceJSON`: the content of the items that are not deleted, in order. */
  method ReadSequence(st: StructStore, k: Owner) returns (out: seq<Fact>)
    requires st.Valid() && !k.Keyed()
    ensures out == Visible(st.W(), k)
  {
    hide Sane, ListOf, RunAt, Units, Shown;
    ghost var w, s := st.W(), ListOf(st.W(), k);
    var r := st.First(k);
    out := [];
    ghost var i := 0;
    NothingShown(w);
    while r.Some?
      invariant i <= |s| && r == RefAt(s, i) && out == Shown(Units(w, s[..i]), w.facts, w.gone)
      decreases |s| - i
    {
      Successor(w, k, i);
      ItemShows(w, s[i]);
      OneFurther(w, s, i);
      if !st.items[r.value].deleted {
        out := out + FactsOf(st.items[r.value]);
      }
      r := st.items[r.value].next;
      i := i + 1;
    }
    assert s[..i] == s;
  }

  lemma NothingShown(w: World)
    ensures Shown(Units(w, []), w.facts, w.gone) == []
  {
  }

  lemma OneFurther(w: World, s: seq<Ref>, i: nat)
    requires i < |s|
    ensures Shown(Units(w, s[..i + 1]), w.facts, w.gone) ==
            Shown(Units(w, s[..i]), w.facts, w.gone) + Shown(RunAt(w, s[i]), w.facts, w.gone)
  {
    hide Units, RunAt, Shown;
    assert s[..i + 1] == s[..i] + [s[i]];
    UnitsAppend(w, s[..i], [s[i]]);
    UnitsTwo(w, s[i], s[i]);
    ShownConcat(Units(w, s[..i]), RunAt(w, s[i]), w.facts, w.gone);
  }

  /** `out` is the content of exactly those units that are not dropped, each once and in order. */
  ghost predicate Picks(u: seq<Node>, facts: map<ID, Fact>, dropped: iset<ID>, out: seq<Fact>) {
    exists at :: PicksAt(u, facts, dropped, out, at)
  }

  /** The units are those at the indices `at`. */
  ghost predicate PicksAt(u: seq<Node>, facts: map<ID, Fact>, dropped: iset<ID>, out: seq<Fact>, at: seq<nat>) {
    && |at| == |out| && (forall i, j | 0 <= i < j < |at| :: at[i] < at[j])
    && (forall i | 0 <= i < |at| :: at[i] < |u| && Content(u[at[i]], facts, out[i]))
    && (forall p | 0 <= p < |u| :: p in at <==> u[p].Elem? && u[p].id !in dropped)
  }

  ghost predicate Content(n: Node, facts: map<ID, Fact>, f: Fact) {
    n.Elem? && n.id in facts && facts[n.id] == f
  }

  lemma {:induction false} ShownPicks(u: seq<Node>, facts: map<ID, Fact>, gone: set<ID>, dropped: iset<ID>)
    requires forall n <- u :: n.Elem? && n.id in facts && (n.id in gone <==> n.id in dropped)
    ensures Picks(u, facts, dropped, Shown(u, facts, gone))
    decreases |u|
  {
    hide PicksAt;
    if u == [] {
      NonePicked(facts, dropped);
    } else {
      ShownPicks(u[1..], facts, gone, dropped);
      var at :| PicksAt(u[1..], facts, dropped, Shown(u[1..], facts, gone), at);
      assert u[0] in u;
      if u[0].id in gone {
        PickSkips(u, facts, dropped, Shown(u[1..], facts, gone), at);
        assert Shown(u, facts, gone) == Shown(u[1..], facts, gone);
      } else {
        PickTakes(u, facts, dropped, Shown(u[1..], facts, gone), at);
      }
    }
  }

  lemma NonePicked(facts: map<ID, Fact>, dropped: iset<ID>)
    ensures PicksAt([], facts, dropped, [], [])
  {
  }

  function Later(at: seq<nat>): (later: seq<nat>)
    ensures |later| == |at| && forall i | 0 <= i < |at| :: later[i] == at[i] + 1
  {
    seq(|at|, i requires 0 <= i < |at| => at[i] + 1)
  }

  lemma PickSkips(u: seq<Node>, facts: map<ID, Fact>, dropped: iset<ID>, rest: seq<Fact>, at: seq<nat>)
    requires u != [] && PicksAt(u[1..], facts, dropped, rest, at) && u[0].Elem? && u[0].id in dropped
    ensures PicksAt(u, facts, dropped, rest, Later(at))
  {
    hide Content, Later;
    forall p | 0 <= p < |u|
      ensures p in Later(at) <==> u[p].Elem? && u[p].id !in dropped
    {
      LaterHas(at, p);
      if p > 0 { assert u[p] == u[1..][p - 1]; }
    }
  }

  lemma PickTakes(u: seq<Node>, facts: map<ID, Fact>, dropped: iset<ID>, rest: seq<Fact>, at: seq<nat>)
    requires u != [] && PicksAt(u[1..], facts, dropped, rest, at)
    requires u[0].Elem? && u[0].id !in dropped && u[0].id in facts
    ensures PicksAt(u, facts, dropped, [facts[u[0].id]] + rest, [0] + Later(at))
  {
    hide Content, Later;
    var all := [0] + Later(at);
    assert Content(u[0], facts, facts[u[0].id]) by { IsContent(u[0], facts); }
    forall p | 0 <= p < |u|
      ensures p in all <==> u[p].Elem? && u[p].id !in dropped
    {
      LaterHas(at, p);
      if p > 0 { assert u[p] == u[1..][p - 1]; }
    }
  }

  lemma IsContent(n: Node, facts: map<ID, Fact>)
    requires n.Elem? && n.id in facts
    ensures Content(n, facts, facts[n.id])
  {
  }

  lemma LaterHas(at: seq<nat>, p: nat)
    ensures p in Later(at) <==> p > 0 && p - 1 in at
  {
    if p > 0 && p - 1 in at {
      var i :| 0 <= i < |at| && at[i] == p - 1;
      assert Later(at)[i] == p;
    }
  }

  /** What is deleted in a list that does not hang off a deleted item: what deletions named, and what
      never had content. */
  ghost function Dropped(a: Doc): iset<ID>
    reads a, a.store
  {
    iset x | x in a.named || (x in a.store.facts && a.store.facts[x].kind == Tombstone)
  }

  /** A reader of a sequence sees the content of exactly those units of it that no deletion has named
      and that have content, in the order of the list. */
  method ReadText(a: Doc, k: Owner) returns (out: seq<Fact>)
    requires Trusted(a) && !k.Keyed() && (k.holder.Nested? ==> k.holder.item !in a.store.gone)
    ensures Picks(Order(a.store.W(), k), a.store.facts,
                  (iset x | x in a.named || (x in a.store.facts && a.store.facts[x].kind == Tombstone)), out)
  {
    hide Trusted, Order, Shown, Picks, DeletedAsNamed, Sane;
    TrustedIsNamed(a);
    out := ReadSequence(a.store, k);
    SequenceNamed(a.store.W(), a.named, k);
    ShownPicks(Order(a.store.W(), k), a.store.facts, a.store.gone, Dropped(a));
  }

  lemma TrustedIsNamed(a: Doc)
    requires Trusted(a)
    ensures a.store.Valid() && Sane(a.store.W()) && DeletedAsNamed(a.store.W(), a.named)
  {
    hide Sane, Agrees, Faithful, OwnersPresent, TombstonesGone, Lawful, Honest, AtRest, Orderly, Accounted, Tallied,
      Least, Fits, AllClean, DeletedAsNamed, OneValueEach;
    TalliedMeansNamed(a.h, a.store.W(), a.l, a.named, a.pendingDeletes.Ids());
  }

  lemma SequenceNamed(w: World, named: iset<ID>, k: Owner)
    requires Sane(w) && DeletedAsNamed(w, named) && !k.Keyed() && Living(w, k)
    ensures forall n <- Order(w, k) ::
              n.Elem? && n.id in w.facts && (n.id in w.gone <==> n.id in named || w.facts[n.id].kind == Tombstone)
  {
    hide Order, Sane;
    forall n <- Order(w, k)
      ensures n.Elem? && n.id in w.facts && w.facts[n.id].parent == k
    {
      ListedUnder(w, k, n);
    }
  }

  // ---------------------------------------------------------------- keys

  /** A write that goes to the end of the entries of a key, and is neither empty nor under a deleted
      item, is what is read afterwards. */
  lemma WriteIsRead(h: History, w: World, w': World, s: Struct, offset: nat)
    requires Sane(w) && Sane(w') && Stepped(h, w, w', s, offset) && !Lost(w, s, offset) && s.Item? && Attachable(w, s)
    requires s.id in h && h[s.id].parent.Keyed() && s.content.kind != Tombstone
    requires h[s.id].parent.holder.Nested? ==> h[s.id].parent.holder.item !in w.gone
    requires LastEntry(w', h[s.id].parent, At(s.id, s.Len() - 1))
    ensures ValueOf(w', h[s.id].parent) ==
            Some(Fact(s.content.cells[s.Len() - 1], s.content.kind, h[s.id].parent))
  {
    hide Sane, Order, State, InsertAll, Place, DescribedRun, Yata.IsRun, Extends, Lost, Attachable;
    var id, c, k := At(s.id, offset), From(s.content, offset), h[s.id].parent;
    var x := At(s.id, s.Len() - 1);
    assert x == At(id, |c.cells| - 1) && Items.Within(id, |c.cells|, x);
    WovenLast(w, w', id, NodeOf(w, OriginAt(s, offset), Start), NodeOf(w, s.right, End), k, c, k, x);
  }

  /** Reading a key of a type that is not deleted.  Nothing is there if and only if there is no entry, or
      a deletion has named the last one, or that never had content.  If entries hold one value each,
      what is there is the only entry that is not deleted. */
  method ReadKey(a: Doc, k: Owner) returns (v: Option<Cell>)
    requires Trusted(a) && k.Keyed() && (k.holder.Nested? ==> k.holder.item !in a.store.gone)
    ensures v == None <==>
            forall x | LastEntry(a.store.W(), k, x) ::
              x in a.named || (x in a.store.facts && a.store.facts[x].kind == Tombstone)
    ensures forall x | LastEntry(a.store.W(), k, x) && v.Some? :: x in a.store.facts && v.value == a.store.facts[x].cell
    ensures AllUnits(a.h, a.l.known) ==>
              forall n <- Order(a.store.W(), k) ::
                && n.Elem? && n.id in a.store.facts
                && (n.id !in a.store.gone ==> v == Some(a.store.facts[n.id].cell))
                && (v == None ==> n.id in a.store.gone)
  {
    hide Trusted, Order, DeletedAsNamed, Sane, ValueOf, LastEntry, AllUnits, OneValue;
    TrustedIsNamed(a);
    v := a.store.Get(k);
    KeyReads(a.store.W(), a.named, k);
    if AllUnits(a.h, a.l.known) {
      TrustedOneValue(a, k);
      OnlyValue(a.store.W(), k);
    }
  }

  lemma KeyReads(w: World, named: iset<ID>, k: Owner)
    requires Sane(w) && DeletedAsNamed(w, named) && k.Keyed() && Living(w, k)
    ensures ValueOf(w, k) == None <==>
            forall x | LastEntry(w, k, x) :: x in named || (x in w.facts && w.facts[x].kind == Tombstone)
    ensures forall x | LastEntry(w, k, x) && ValueOf(w, k).Some? :: x in w.facts && ValueOf(w, k).value == w.facts[x]
  {
    hide Order, Sane;
    var u := Order(w, k);
    if u != [] {
      assert u[|u| - 1] in u;
      ListedUnder(w, k, u[|u| - 1]);
      assert LastEntry(w, k, u[|u| - 1].id);
    }
  }

  lemma TrustedOneValue(a: Doc, k: Owner)
    requires Trusted(a) && AllUnits(a.h, a.l.known) && k.Keyed()
    ensures OneValue(a.store.W(), k)
  {
    hide Sane, Agrees, Faithful, OwnersPresent, TombstonesGone, Lawful, Honest, AtRest, Orderly, Accounted, Tallied,
      Least, Fits, AllClean, AllUnits, OneValue;
  }

  lemma OnlyValue(w: World, k: Owner)
    requires Sane(w) && OneValue(w, k) && k.Keyed()
    ensures forall n <- Order(w, k) ::
              && n.Elem? && n.id in w.facts
              && (n.id !in w.gone ==> ValueOf(w, k) == Some(w.facts[n.id]))
              && (ValueOf(w, k) == None ==> n.id in w.gone)
  {
    hide Order, Sane;
    var u := Order(w, k);
    forall n <- u
      ensures n.Elem? && n.id in w.facts && (n.id !in w.gone ==> ValueOf(w, k) == Some(w.facts[n.id]))
      ensures ValueOf(w, k) == None ==> n.id in w.gone
    {
      ListedUnder(w, k, n);
      var i :| 0 <= i < |u| && u[i] == n;
    }
  }
}
