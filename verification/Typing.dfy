/**
  From the bytes a client sends to the text a reader sees: a text that is typed into an empty document
  is read back, character by character.
*/
module Typing {
  import opened Ids
  import opened Structs
  import opened Yata
  import opened Items
  import opened Placing
  import opened Store
  import opened Schedules
  import opened Histories
  import opened Steps
  import opened Convergence
  import opened Ledgers
  import opened Docs
  import opened Replicas
  import opened Sync
  import opened Reading
  import opened Intake
  import V = Varints
  import C = Codec
  import Format

  /** The units of one text, typed one after the other. */
  ghost function Typed(client: nat, k: Owner, cells: seq<Cell>): History {
    map x | x in set j: nat | j < |cells| :: ID(client, j) ::
      Op(if x.clock == 0 then None else Some(ID(client, x.clock - 1)), None, k, cells[x.clock], Plain)
  }

  lemma TypedAt(client: nat, k: Owner, cells: seq<Cell>, x: ID)
    ensures x in Typed(client, k, cells) <==> x.client == client && x.clock < |cells|
    ensures x in Typed(client, k, cells) ==>
              Typed(client, k, cells)[x] ==
              Op(if x.clock == 0 then None else Some(ID(client, x.clock - 1)), None, k, cells[x.clock], Plain)
  {
    if x.client == client && x.clock < |cells| { assert x == ID(client, x.clock); }
  }

  lemma TypedIsHonest(client: nat, k: Owner, cells: seq<Cell>)
    requires k.holder.Root? && Paired(cells)
    ensures Honest(Typed(client, k, cells))
  {
    hide Typed;
    var h := Typed(client, k, cells);
    forall x { TypedAt(client, k, cells, x); }
    forall x <- h
      ensures LawfulAt(h, x) && HonestAt(h, x)
    {
    }
    forall n | Describes(h, n)
      ensures WellPlaced(n)
    {
    }
  }

  ghost function TheItem(client: nat, k: Owner, cells: seq<Cell>): Struct {
    Struct.Item(ID(client, 0), None, None, Some(k), Content(Plain, cells))
  }

  lemma ItemIsClean(client: nat, k: Owner, cells: seq<Cell>)
    requires cells != [] && Paired(cells)
    ensures Clean(Typed(client, k, cells), TheItem(client, k, cells))
  {
    hide Typed;
    var h, s := Typed(client, k, cells), TheItem(client, k, cells);
    forall x { TypedAt(client, k, cells, x); }
    forall j: nat | j < s.Len()
      ensures UnitFits(h, s, j)
    {
      assert At(s.id, j) == ID(client, j);
      if j > 0 { assert At(s.id, j - 1) == ID(client, j - 1); }
    }
  }

  /** The update is that one item. */
  lemma ItemAlone(s: Struct)
    ensures var u := [Block(s.id.client, [s])]; Received(u) == {s} && (!s.Skip? ==> Orderly(u))
  {
    var u := [Block(s.id.client, [s])];
    forall c
      ensures Ascending(QueueOf(u, c))
    {
      assert u[..0] == [] && QueueOf(u, c) == QueueOf(u[..0], c) + (if s.id.client == c then [s] else []);
    }
    assert Block(s.id.client, [s]) in u && s in [s];
  }

  lemma SaysThatItem(m: Meaning, client: nat, name: seq<V.Byte>, text: seq<V.Byte>, cells: seq<Cell>)
    requires m.content(C.ContentString(text)) == Content(Plain, cells)
    ensures var t := C.Item(None, None, false, Some(C.Named(name)), [], C.ContentString(text));
            UpdateOf(m, C.Update([C.Block(client, 0, [t])], map[])) ==
            Update([Block(client, [TheItem(client, Owner(Root(m.name(name)), None), cells)])], map[])
  {
    var t := C.Item(None, None, false, Some(C.Named(name)), [], C.ContentString(text));
    var u := C.Update([C.Block(client, 0, [t])], map[]);
    var s := StructOf(m, ID(client, 0), t);
    assert Numbered(m, client, s.End(), [t][1..]) == [];
    assert Numbered(m, client, 0, [t]) == [s];
    assert BlocksOf(m, u.blocks) == [Block(client, [s])];
    assert UpdateOf(m, u).deletes == map[];
  }

  /** The document has got to the end of the text. */
  lemma TextIsIn(a: Doc, s: Struct)
    requires Trusted(a) && s.Item? && s.origin == None && s.right == None && s.parent.Some?
    requires s.parent.value.holder.Root?
    requires s in a.l.known && s.id.clock == 0
    ensures SV(a.store.W())(s.id.client) >= s.Len()
  {
    hide Sane, Agrees, OrderedAll, LiveAll, OwnersPresent, Lawful, Fits, Least, Honest, TombstonesGone, Accounted,
      AtRest, Orderly, Tallied, State;
    RestIsLeast(a.h, a.store.W(), a.l, a.pending);
    assert s in Ledgers.Kept(a.l);
    assert !Enabled(SV(a.store.W()), s);
  }

  /** Everything stored is of the text, and the text is stored. */
  lemma AllOfIt(a: Doc, client: nat, k: Owner, cells: seq<Cell>)
    requires Trusted(a) && a.h == Typed(client, k, cells) && SV(a.store.W())(client) >= |cells|
    ensures forall x :: x in a.store.nodes <==> x.client == client && x.clock < |cells|
    ensures forall x <- a.store.nodes :: AgreesAt(a.h, a.store.W(), x)
    ensures Sane(a.store.W()) && OrderedAll(a.store.W())
  {
    hide Sane, OwnersPresent, Lawful, Fits, Least, Honest, TombstonesGone, Accounted, AtRest, Orderly, Tallied, Typed,
      OrderedAll;
    forall x
      ensures x in a.store.nodes <==> x.client == client && x.clock < |cells|
    {
      TypedAt(client, k, cells, x);
      if x in a.store.nodes { assert AgreesAt(a.h, a.store.W(), x); }
      if x in a.h { Passed(a.h, a.store.W(), x); }
    }
  }

  /** Each unit hangs off the one before. */
  lemma Chain(w: World, client: nat, k: Owner, cells: seq<Cell>, j: nat)
    requires Sane(w) && 0 < j < |cells| && ID(client, j) in w.nodes
    requires AgreesAt(Typed(client, k, cells), w, ID(client, j))
    ensures ID(client, j - 1) in w.nodes && w.nodes[ID(client, j)].Elem?
    ensures w.nodes[ID(client, j)].origin == w.nodes[ID(client, j - 1)]
  {
    hide Typed;
    TypedAt(client, k, cells, ID(client, j));
    SaneNode(w, ID(client, j));
  }

  lemma {:induction false} ChainUnder(v: seq<Node>, i: nat, j: nat)
    requires i <= j < |v| && forall q | 0 < q < |v| :: v[q].Elem? && v[q].origin == v[q - 1]
    ensures Under(v[i], v[j])
    decreases j - i
  {
    if i < j { ChainUnder(v, i, j - 1); }
  }

  /** The list is the text. */
  lemma ListIsText(w: World, client: nat, k: Owner, cells: seq<Cell>)
    requires Sane(w) && OrderedAll(w) && forall x :: x in w.nodes <==> x.client == client && x.clock < |cells|
    requires forall x <- w.nodes :: AgreesAt(Typed(client, k, cells), w, x)
    ensures |Order(w, k)| == |cells|
    ensures forall j | 0 <= j < |cells| :: Order(w, k)[j].Elem? && Order(w, k)[j].id == ID(client, j)
  {
    hide Sane, Order, Typed, Universe;
    var u := Order(w, k);
    var v := seq(|cells|, j requires 0 <= j < |cells| => w.nodes[ID(client, j)]);
    forall j: nat | j < |cells|
      ensures v[j].Elem? && v[j].id == ID(client, j) && (j > 0 ==> v[j].origin == v[j - 1]) && v[j] in u
    {
      assert AgreesAt(Typed(client, k, cells), w, ID(client, j));
      if j > 0 { Chain(w, client, k, cells, j); }
      TypedAt(client, k, cells, ID(client, j));
      UnitInItsList(w, v[j]);
    }
    forall n <- u
      ensures n in v
    {
      ListedUnder(w, k, n);
      assert n == v[n.id.clock];
    }
    assert Elements(u) == Elements(v);
    assert Sorted(v) by { ChainIsSorted(v); }
    assert Ordered(u);
    SortedListsAgree(Elements(u), u, v);
  }

  lemma ChainIsSorted(v: seq<Node>)
    requires forall q | 0 < q < |v| :: v[q].Elem? && v[q].origin == v[q - 1]
    requires forall i, j | 0 <= i < j < |v| :: v[i] != v[j]
    ensures Sorted(v)
  {
    hide Before;
    forall i, j | 0 <= i < j < |v|
      ensures Before(v[i], v[j])
    {
      ChainUnder(v, i, j);
      AncestorsFirst(v[i], v[j]);
    }
  }

  /** A client types a text into the root type `name` of an empty document.  The bytes are the ones of the
      wire format.  They are applied; the list is then the units of the text in order, and what is read
      is the text. */
  method TypeAndRead(m: Meaning, client: nat, name: seq<V.Byte>, text: seq<V.Byte>) returns (d: Doc, out: seq<Fact>)
    requires client <= V.MAX_SAFE && |name| <= V.MAX_SAFE && |text| <= V.MAX_SAFE
    requires var c := m.content(C.ContentString(text)); c.kind == Plain && c.cells != [] && Paired(c.cells)
    ensures fresh(d) && Trusted(d)
    ensures var cells, k := m.content(C.ContentString(text)).cells, Owner(Root(m.name(name)), None);
            && |Order(d.store.W(), k)| == |cells| == |out|
            && forall j | 0 <= j < |cells| ::
                 && Order(d.store.W(), k)[j].Elem? && Order(d.store.W(), k)[j].id == ID(client, j)
                 && out[j] == Fact(cells[j], Plain, k)
  {
    hide Trusted, Honest, Order, Typed, Clean, C.Decode, UpdateOf, Doc.Valid, Doc.Settled, Format.OnWire, V.Uint, Shown,
      Received, Orderly, Asking, KeepsPairs, Fits, Grown, Sane, OrderedAll, SV, AllClean, Format.Framed,
      StructStore.Valid;
    ghost var cells := m.content(C.ContentString(text)).cells;
    var k := Owner(Root(m.name(name)), None);
    ghost var h, s := Typed(client, k, cells), TheItem(client, k, cells);
    TypedIsHonest(client, k, cells);
    ItemIsClean(client, k, cells);
    ItemAlone(s);
    var e := [4, 1] + Format.Framed(name) + Format.Framed(text);
    var bytes := [1] + ([1] + (V.Uint(client) + (V.Uint(0) + e))) + [0];
    Decodes(client, name, text, bytes);
    SaysThatItem(m, client, name, text, cells);
    CleanFits(h, s);
    HonestIsLawful(h);
    d := new Doc(h);
    var failed := ApplyBytes(d, m, bytes);
    NamesNothing(h);
    JustOne(h, s);
    StaysTrusted(d);
    TextIsIn(d, s);
    AllOfIt(d, client, k, cells);
    ListIsText(d.store.W(), client, k, cells);
    TrustedIsNamed(d);
    out := ReadSequence(d.store, k);
    ShowsAll(d.store.W(), client, k, cells);
  }

  lemma Decodes(client: nat, name: seq<V.Byte>, text: seq<V.Byte>, bytes: seq<V.Byte>)
    requires client <= V.MAX_SAFE && |name| <= V.MAX_SAFE && |text| <= V.MAX_SAFE
    requires bytes ==
             [1] + ([1] + (V.Uint(client) + (V.Uint(0) + ([4, 1] + Format.Framed(name) + Format.Framed(text))))) + [0]
    ensures var t := C.Item(None, None, false, Some(C.Named(name)), [], C.ContentString(text));
            C.Decode(bytes) == V.Got(C.Update([C.Block(client, 0, [t])], map[]), |bytes|)
  {
    hide C.Decode, C.EncUpdate, V.Uint, Format.Framed;
    Format.TextInRoot(client, 0, name, text);
  }

  lemma NamesNothing(h: History)
    ensures KeepsPairs(h, map[]) && Asking(map[]) == iset{}
  {
  }

  lemma JustOne(h: History, s: Struct)
    requires Clean(h, s)
    ensures AllClean(h, {s})
  {
  }

  /** Nothing was deleted, so all of it is shown. */
  lemma ShowsAll(w: World, client: nat, k: Owner, cells: seq<Cell>)
    requires Sane(w) && DeletedAsNamed(w, iset{}) && k.holder.Root? && !k.Keyed() && |Order(w, k)| == |cells|
    requires forall x <- w.nodes :: AgreesAt(Typed(client, k, cells), w, x)
    requires forall j | 0 <= j < |cells| :: Order(w, k)[j].Elem? && Order(w, k)[j].id == ID(client, j)
    ensures |Visible(w, k)| == |cells| && forall j | 0 <= j < |cells| :: Visible(w, k)[j] == Fact(cells[j], Plain, k)
  {
    hide Sane, Order, Typed, Shown;
    var u := Order(w, k);
    var fs := seq(|cells|, j requires 0 <= j < |cells| => Fact(cells[j], Plain, k));
    SequenceNamed(w, iset{}, k);
    forall j | 0 <= j < |u|
      ensures u[j].id in w.facts && w.facts[u[j].id] == fs[j] && u[j].id !in w.gone
    {
      assert u[j] in u;
      ListedUnder(w, k, u[j]);
      TypedAt(client, k, cells, u[j].id);
      assert AgreesAt(Typed(client, k, cells), w, u[j].id);
    }
    ShownRun(u, fs, w.facts, w.gone, false);
  }
}
