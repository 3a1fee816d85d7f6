/**
  Runs in which a promise is broken, one for each condition that the contracts name.
*/
module Incidents {
  import opened Ids
  import opened Structs
  import opened Yata
  import opened Items
  import opened Store
  import opened Schedules
  import opened Histories
  import opened Steps
  import opened Convergence
  import opened Deletions
  import opened Ledgers
  import opened Docs
  import opened Replicas
  import opened Wire
  import opened Sync
  import opened Logs
  import opened Durability
  import S = Schedules
  import D = DeleteSets

  const TEXT := Owner(Root("text"), None)

  function Letter(origin: Option<ID>, half: Half): Op {
    Op(origin, None, TEXT, Cell(0, half), Plain)
  }

  /** What is only ever appended is well placed. */
  lemma AppendedIsHonest(h: History)
    requires forall x <- h :: h[x].right == None && h[x].parent == TEXT && HonestAt(h, x)
    ensures Honest(h)
  {
    forall x <- h
      ensures LawfulAt(h, x)
    {
      assert HonestAt(h, x);
    }
  }

  /** An update of one struct of an honest history. */
  lemma OneStruct(h: History, s: Struct)
    requires Clean(h, s)
    ensures Proper(h, Update([Block(s.id.client, [s])], map[])) && Received([Block(s.id.client, [s])]) == {s}
  {
    hide Clean;
    var u := [Block(s.id.client, [s])];
    forall c
      ensures Ascending(QueueOf(u, c))
    {
      assert u[..0] == [] && QueueOf(u, c) == QueueOf(u[..0], c) + (if s.id.client == c then [s] else []);
    }
    assert Block(s.id.client, [s]) in u && s in [s];
  }

  /** The units of such an update. */
  lemma OneTells(s: Struct)
    requires s.Item?
    ensures Received([Block(s.id.client, [s])]) == {s}
    ensures forall x :: x in Tells(Update([Block(s.id.client, [s])], map[])).units <==> Items.Within(s.id, s.Len(), x)
  {
    var u := [Block(s.id.client, [s])];
    assert Block(s.id.client, [s]) in u && s in [s];
    assert Received(u) == {s};
  }

  // ---------------------------------------------------------------- what a snapshot leaves out

  /** The unit cannot be integrated yet: its origin is by somebody else and missing. */
  ghost predicate HeldUp(h: History, b: Vector, y: ID) {
    && y in h && h[y].origin.Some? && h[y].origin.value.client != y.client
    && b(h[y].origin.value.client) <= h[y].origin.value.clock
  }

  /** A document gets no further than where it misses the next unit, or what that refers to. */
  lemma NoFurtherThan(a: Doc, b: Vector)
    requires Trusted(a) && forall c: nat :: ID(c, b(c)) in Knows(a).units ==> HeldUp(a.h, b, ID(c, b(c)))
    ensures forall c :: SV(a.store.W())(c) <= b(c)
  {
    hide Sane, Agrees, Faithful, OwnersPresent, TombstonesGone, Lawful, Honest, State,
      AtRest, Orderly, Accounted, D.Names, Tallied, Least;
    forall s <- a.l.done
      ensures !Enabled(b, s)
    {
      if !s.Skip? && s.id.clock <= b(s.id.client) < s.End() {
        var y := ID(s.id.client, b(s.id.client));
        assert s in a.l.known && Items.Within(s.id, s.Len(), y);
        assert y in Knows(a).units;
        HeldUpWaits(a.h, b, s);
      }
    }
    LeastBelow(a.l.done, SV(a.store.W()), b);
  }

  lemma HeldUpWaits(h: History, b: Vector, s: Struct)
    requires Clean(h, s) && !s.Skip? && s.id.clock <= b(s.id.client) < s.End()
    requires HeldUp(h, b, ID(s.id.client, b(s.id.client)))
    ensures !Satisfied(b, s)
  {
    var y := ID(s.id.client, b(s.id.client));
    HoldsOperation(h, s, y);
    assert UnitFits(h, s, b(s.id.client) - s.id.clock);
  }

  /** Two letters, the second typed after the first by somebody else. */
  ghost function Reply(): History {
    map[ID(1, 0) := Letter(None, Whole), ID(2, 0) := Letter(Some(ID(1, 0)), Whole)]
  }

  const REPLY := Update([Block(2,
    [Struct.Item(ID(2, 0), Some(ID(1, 0)), None, None, Content(Plain, [Cell(0, Whole)]))])], map[])

  lemma ReplyIsProper()
    ensures Honest(Reply()) && Proper(Reply(), REPLY)
    ensures forall x :: x in Tells(REPLY).units <==> x == ID(2, 0)
  {
    var h, s := Reply(), REPLY.blocks[0].structs[0];
    forall x <- h
      ensures HonestAt(h, x)
    {
    }
    AppendedIsHonest(h);
    assert At(s.id, 0) == s.id;
    assert UnitFits(h, s, 0);
    OneStruct(h, s);
    OneTells(s);
  }

  /** Before the first letter arrives the second shows nothing. */
  lemma ReplyWaits(a: Doc)
    requires Trusted(a) && a.h == Reply() && (forall x <- Knows(a).units :: x == ID(2, 0))
    ensures ID(2, 0) !in Shows(a).units
  {
    hide Trusted;
    NothingIsNothing();
    forall c: nat | ID(c, Nothing()(c)) in Knows(a).units
      ensures HeldUp(a.h, Nothing(), ID(c, Nothing()(c)))
    {
      assert ID(c, Nothing()(c)) == ID(2, 0);
    }
    NoFurtherThan(a, Nothing());
    assert SV(a.store.W())(2) <= Nothing()(2);
  }

  lemma EmptyTells(d: Stored)
    requires d.snapshot == None && d.rows == map[]
    ensures ReadBack(d) == Told(iset{}, iset{})
  {
  }

  /** A row that is in no snapshot and no longer in the log. */
  lemma NothingLeft(d: Stored, s: nat, x: ID)
    requires d.snapshot.Some? && d.rows == map[] && s in d.written && x in Tells(d.written[s]).units
    requires x !in Tells(d.snapshot.value).units
    ensures !Recoverable(d, iset{}) && x !in ReadBack(d).units && IsWritten(d.written, d.written[s])
  {
    hide Tells;
    assert !Holds(ReadBack(d), Tells(d.written[s]), iset{});
  }

  /** A room with an idle writer applies an update and has it written. */
  method RecordOne(r: Room, u: Update) returns (ghost n: nat)
    requires r.db.Valid() && r in r.db.rooms && r.stage == Free && r.jobs == [] && r.batch == [] && Proper(r.db.h, u)
    requires r.sinceSnapshot + 1 < r.compactAfter
    modifies r, r.db`rows, r.db`used, r.db`written, r.doc, r.doc.store, r.doc.pendingDeletes
    ensures r.db.Valid() && r.stage == Free && r.jobs == [] && r.batch == [] && r.folded == old(r.folded) + [n]
    ensures n > 0 && n !in old(r.db.written) && r.db.rows == old(r.db.rows)[n := u]
    ensures r.db.written == old(r.db.written)[n := u]
    ensures Knows(r.doc) == Both(old(Knows(r.doc)), Tells(u)) && Holds(Shows(r.doc), Tells(u), Waiting(r.doc))
    ensures Received(u.blocks) <= r.doc.l.known
    ensures fresh(r.doc.pendingDeletes) || r.doc.pendingDeletes == old(r.doc.pendingDeletes)
  {
    hide Trusted, IsSnapshot, Proper, Honest, InOrder, Chained, Foresees, Shows, Waiting, Tells, Holds, ReadBack,
      IsWritten, Recoverable, Logs.Follows, RowsWritten, Room.Fits, OneAwaited, Database.Valid, Database.Sound,
      AllProper, Unwritten, Received, Asking, Knows;
    r.ApplyLocal(u, false);
    r.TakeWrite(Fine);
    ghost var d, rows := r.db.State(), r.folded;
    r.Flush(Fine);
    ghost var ids :| NewNumbers(d.written, 1, ids) && r.folded == rows + ids && r.db.State() == Appended(d, ids, [u]);
    n := ids[0];
    assert ids == [n];
    OneInserted(d.rows, n, u);
    OneInserted(d.written, n, u);
  }

  lemma OneInserted(rows: map<nat, Update>, n: nat, u: Update)
    ensures Inserted(rows, [n], [u]) == rows[n := u]
  {
    assert [n][..0] == [] && [u][..0] == [];
  }

  /** A room with an idle writer folds the log. */
  method FoldOne(r: Room)
    requires r.db.Valid() && r in r.db.rooms && r.stage == Free && r.jobs == [] && r.batch == []
    requires exists s <- r.folded :: s > r.db.snapshotSeq
    modifies r, r.db`snapshot, r.db`snapshotSeq, r.db`rows, r.db`used, r.db`written, r.db`graves
    ensures r.db.Valid() && r.db.snapshot.Some? && Tells(r.db.snapshot.value) == Shows(r.doc)
    ensures r.db.written == old(r.db.written) && Missed(r.db.State()) <= old(Missed(r.db.State())) + Waiting(r.doc)
    ensures (exists s <- old(r.db.rows) :: s in old(r.folded)) ==> Waiting(r.doc) <= Missed(r.db.State())
    ensures r.db.rows == map s | s in old(r.db.rows) && s !in old(r.folded) :: old(r.db.rows)[s]
    ensures r.db.snapshotSeq in old(r.folded)
  {
    hide Trusted, IsSnapshot, Proper, Honest, InOrder, Chained, Foresees, Shows, Waiting, Tells, Holds, ReadBack,
      IsWritten, Recoverable, Logs.Follows, RowsWritten, Room.Fits, OneAwaited, Database.Valid, Database.Sound,
      AllProper, Unwritten, Received, Asking, Knows, Logs.Buried, Missed;
    ghost var d, rows := r.db.State(), r.folded;
    r.RequestCompaction();
    ghost var job := r.jobs[0];
    r.db.Has(r);
    var landed := r.TakeFold(Fine, Fine);
    CompactMisses(d, job.snapshot, rows, job.waiting, r.db.snapshotSeq);
  }

  lemma OnlyReply(a: Doc)
    requires Trusted(a) && a.h == Reply() && Knows(a) == Both(Told(iset{}, iset{}), Tells(REPLY))
    requires Holds(Shows(a), Tells(REPLY), Waiting(a))
    ensures ID(2, 0) !in Shows(a).units && ID(2, 0) in Waiting(a)
  {
    hide Trusted, Tells, Knows, Shows, Waiting;
    ReplyIsProper();
    ReplyWaits(a);
    assert ID(2, 0) in Tells(REPLY).units;
  }

  /** An update arrives before the one it builds on and is written.  While it waits, the log is
      folded: the snapshot does not tell it, its row is deleted, and the next room to load the
      document has never heard of it. */
  method EarlyBird() returns (db: Database, next: Room)
    ensures db.Valid() && IsWritten(db.written, REPLY) && ID(2, 0) in Missed(db.State())
    ensures !Recoverable(db.State(), iset{})
    ensures next in db.rooms && ID(2, 0) !in Knows(next.doc).units
  {
    hide Trusted, IsSnapshot, Proper, Honest, InOrder, Chained, Foresees, Shows, Waiting, Tells, Holds, ReadBack,
      IsWritten, Recoverable, Logs.Follows, RowsWritten, Room.Fits, OneAwaited, Database.Valid, Database.Sound,
      AllProper, Unwritten, Received, Asking, Knows;
    ReplyIsProper();
    db := new Database(Reply());
    EmptyTells(db.State());
    var r := new Room(db, 500);
    ghost var n := RecordOne(r, REPLY);
    assert n in r.folded;
    db.Has(r);
    OnlyReply(r.doc);
    FoldOne(r);
    NothingLeft(db.State(), n, ID(2, 0));
    next := new Room(db, 500);
  }

  // ---------------------------------------------------------------- two rooms

  /** Two letters by people who have not heard of each other. */
  ghost function Strangers(): History {
    map[ID(1, 0) := Letter(None, Whole), ID(2, 0) := Letter(None, Whole)]
  }

  function First(client: nat): Update {
    Update([Block(client, [Struct.Item(ID(client, 0), None, None, Some(TEXT), Content(Plain, [Cell(0, Whole)]))])],
      map[])
  }

  lemma StrangersAreProper(client: nat)
    requires client == 1 || client == 2
    ensures Honest(Strangers()) && Proper(Strangers(), First(client))
    ensures forall x :: x in Tells(First(client)).units <==> x == ID(client, 0)
  {
    var h, s := Strangers(), First(client).blocks[0].structs[0];
    forall x <- h
      ensures HonestAt(h, x)
    {
    }
    AppendedIsHonest(h);
    assert At(s.id, 0) == s.id;
    assert UnitFits(h, s, 0);
    OneStruct(h, s);
    OneTells(s);
  }

  /** A document does not show what it has not been told. */
  lemma NotShown(a: Doc, x: ID)
    requires Trusted(a) && x.clock == 0 && forall y <- Knows(a).units :: y.client != x.client && y.clock == 0
    ensures x !in Shows(a).units
  {
    hide Trusted;
    var b: Vector := (c: nat) => if c == x.client then 0 else 1;
    NoFurtherThan(a, b);
    assert SV(a.store.W())(x.client) <= b(x.client);
  }

  /** What refers to nothing does not wait. */
  lemma FirstIsShown(a: Doc, client: nat)
    requires Trusted(a) && Received(First(client).blocks) <= a.l.known
    ensures ID(client, 0) in Shows(a).units
  {
    hide Sane, State, Agrees, Faithful, OwnersPresent, Lawful, Fits, Least, Honest, TombstonesGone, Accounted, AtRest,
      Orderly, D.Names, Tallied;
    RestIsLeast(a.h, a.store.W(), a.l, a.pending);
    var s := First(client).blocks[0].structs[0];
    OneTells(s);
    assert s in Ledgers.Kept(a.l);
    assert !Enabled(SV(a.store.W()), s);
  }

  lemma OnlyOne(a: Doc, client: nat, x: ID)
    requires Trusted(a) && (client == 1 || client == 2) && x.client != client && x.clock == 0
    requires Knows(a) == Both(Told(iset{}, iset{}), Tells(First(client))) && Received(First(client).blocks) <= a.l.known
    ensures x !in Shows(a).units && Waiting(a) == iset{}
  {
    hide Trusted, Tells, Carries, SV;
    StrangersAreProper(client);
    NotShown(a, x);
    FirstIsShown(a, client);
    forall y
      ensures y !in Waiting(a)
    {
      if Carries(a.l.known, y) { assert y in Knows(a).units; }
    }
  }

  /** A room folds the log, and then another one that has not heard of the first one's update: the
      later snapshot lacks what only the earlier one held. */
  method Overtake(db: Database, lo: Room, hi: Room, ghost s: nat, ghost t: nat, ghost x: ID)
    requires db.Valid() && lo in db.rooms && hi in db.rooms && lo != hi && lo.db == db == hi.db
    requires lo.stage == Free == hi.stage && lo.jobs == [] == hi.jobs && lo.batch == [] == hi.batch
    requires lo.folded == [s] && hi.folded == [t] && db.snapshotSeq < s < t && db.rows.Keys == {s, t}
    requires s in db.written && x in Tells(db.written[s]).units && x !in Shows(hi.doc).units
    modifies lo, hi, db`snapshot, db`snapshotSeq, db`rows, db`used, db`written, db`graves
    ensures db.Valid() && x !in ReadBack(db.State()).units && !Recoverable(db.State(), iset{})
    ensures db.written == old(db.written)
    ensures Missed(db.State()) <= old(Missed(db.State())) + Waiting(lo.doc) + Waiting(hi.doc)
  {
    hide Trusted, IsSnapshot, Proper, Honest, InOrder, Chained, Foresees, Shows, Waiting, Tells, Holds, ReadBack,
      IsWritten, Recoverable, Logs.Follows, RowsWritten, Room.Fits, OneAwaited, Database.Valid, Database.Sound,
      AllProper, Unwritten, Received, Asking, Knows;
    assert s in lo.folded && t in hi.folded;
    FoldOne(lo);
    FoldOne(hi);
    assert db.rows == map[];
    NothingLeft(db.State(), s, x);
  }

  /** Two rooms that have not heard of each other's update each have it written. */
  method WriteBoth() returns (db: Database, a: Room, b: Room, ghost m: nat, ghost n: nat)
    ensures db.Valid() && a in db.rooms && b in db.rooms && a != b && a.db == db == b.db && fresh(db) && fresh(a)
    ensures fresh(b)
    ensures a.stage == Free == b.stage && a.jobs == [] == b.jobs && a.batch == [] == b.batch && a.folded == [m]
    ensures b.folded == [n]
    ensures m != n && m > 0 && n > 0 && db.snapshotSeq == 0 && db.rows.Keys == {m, n} && Missed(db.State()) == iset{}
    ensures m in db.written && db.written[m] == First(1) && n in db.written && db.written[n] == First(2)
    ensures Waiting(a.doc) == iset{} && Waiting(b.doc) == iset{} && ID(2, 0) !in Shows(a.doc).units
    ensures ID(1, 0) !in Shows(b.doc).units
  {
    hide Trusted, IsSnapshot, Proper, Honest, InOrder, Chained, Foresees, Shows, Waiting, Tells, Holds, ReadBack,
      IsWritten, Recoverable, Logs.Follows, RowsWritten, Room.Fits, OneAwaited, Database.Valid, Database.Sound,
      AllProper, Unwritten, Received, Asking, Knows;
    StrangersAreProper(1);
    StrangersAreProper(2);
    db := new Database(Strangers());
    EmptyTells(db.State());
    a := new Room(db, 500);
    b := new Room(db, 500);
    m := RecordOne(a, First(1));
    n := RecordOne(b, First(2));
    db.Has(a);
    db.Has(b);
    OnlyOne(a.doc, 1, ID(2, 0));
    OnlyOne(b.doc, 2, ID(1, 0));
  }

  /** Two rooms that have not heard of each other's update each have it written and fold the log:
      one of the updates is gone, although nothing was waiting. */
  method TwoWriters() returns (db: Database)
    ensures db.Valid() && IsWritten(db.written, First(1)) && IsWritten(db.written, First(2))
    ensures Missed(db.State()) == iset{} && !Recoverable(db.State(), iset{})
  {
    hide Trusted, IsSnapshot, Proper, Honest, InOrder, Chained, Foresees, Shows, Waiting, Tells, Holds, ReadBack,
      IsWritten, Recoverable, Logs.Follows, RowsWritten, Room.Fits, OneAwaited, Database.Valid, Database.Sound,
      AllProper, Unwritten, Received, Asking, Knows;
    var a, b;
    ghost var m, n;
    db, a, b, m, n := WriteBoth();
    StrangersAreProper(1);
    StrangersAreProper(2);
    Witnesses(db.written, m, n);
    if a.folded[0] < b.folded[0] {
      Overtake(db, a, b, m, n, ID(1, 0));
    } else {
      Overtake(db, b, a, n, m, ID(2, 0));
    }
  }

  lemma Witnesses(written: map<nat, Update>, m: nat, n: nat)
    requires m in written && n in written
    ensures IsWritten(written, written[m]) && IsWritten(written, written[n])
  {
  }

  // ---------------------------------------------------------------- halves of a pair

  /** One character outside the basic plane. */
  ghost function Pair(): History {
    map[ID(1, 0) := Letter(None, High), ID(1, 1) := Letter(Some(ID(1, 0)), Low)]
  }

  const EMOJI := Update([Block(1,
    [Struct.Item(ID(1, 0), None, None, Some(TEXT), Content(Plain, [Cell(0, High), Cell(0, Low)]))])], map[])

  lemma PairIsProper()
    ensures Honest(Pair()) && Proper(Pair(), EMOJI)
  {
    hide Clean;
    PairIsHonest();
    PairIsClean();
    OneStruct(Pair(), EMOJI.blocks[0].structs[0]);
  }

  lemma PairIsHonest()
    ensures Honest(Pair())
  {
    forall x <- Pair()
      ensures HonestAt(Pair(), x)
    {
    }
    AppendedIsHonest(Pair());
  }

  lemma PairIsClean()
    ensures Clean(Pair(), EMOJI.blocks[0].structs[0])
  {
    var h, s := Pair(), EMOJI.blocks[0].structs[0];
    assert At(s.id, 0) == s.id && At(s.id, 1) == ID(1, 1);
    assert UnitFits(h, s, 0) && UnitFits(h, s, 1);
  }

  /** The character is stored and not deleted. */
  lemma PairIsThere(a: Doc)
    requires Trusted(a) && a.h == Pair() && Received(EMOJI.blocks) <= a.l.known && a.named == iset{}
    ensures forall x <- Pair() ::
              x in a.store.facts && a.store.facts[x] == Fact(Pair()[x].cell, Plain, TEXT) && x !in a.store.gone
    ensures SV(a.store.W())(1) >= 2
  {
    hide Sane, State, Agrees, OrderedAll, LiveAll, OwnersPresent, Lawful, Fits, Least, Honest, TombstonesGone,
      Accounted, AtRest, Orderly, D.Names, Tallied, DeletedAsNamed, SV;
    var w, s := a.store.W(), EMOJI.blocks[0].structs[0];
    OneTells(s);
    RestIsLeast(a.h, w, a.l, a.pending);
    assert s in Ledgers.Kept(a.l);
    assert !Enabled(SV(w), s);
    TalliedMeansNamed(a.h, w, a.l, a.named, a.pendingDeletes.Ids());
    forall x <- Pair()
      ensures x in w.facts && w.facts[x] == Fact(Pair()[x].cell, Plain, TEXT) && x !in w.gone
    {
      StoredAs(a.h, w, x);
      NotGone(w, x);
    }
  }

  lemma StoredAs(h: History, w: World, x: ID)
    requires Sane(w) && Agrees(h, w) && LiveAll(h, w) && x in h && x.clock < SV(w)(x.client)
    ensures x in w.facts && w.facts[x] == Fact(h[x].cell, h[x].kind, h[x].parent)
  {
    Passed(h, w, x);
    assert AgreesAt(h, w, x);
  }

  lemma NotGone(w: World, x: ID)
    requires DeletedAsNamed(w, iset{}) && x in w.facts && w.facts[x].parent == TEXT
    requires w.facts[x].kind != Tombstone
    ensures x !in w.gone
  {
  }

  method PairDoc() returns (a: Doc)
    ensures fresh(a) && fresh(a.store) && fresh(a.pendingDeletes) && Trusted(a) && a.h == Pair() && a.named == iset{}
    ensures forall x <- Pair() ::
              x in a.store.facts && a.store.facts[x] == Fact(Pair()[x].cell, Plain, TEXT) && x !in a.store.gone
    ensures SV(a.store.W())(1) >= 2
  {
    hide Trusted, Doc.Valid, Doc.Settled, Honest, Proper, Received, Asking, Grown, SV;
    PairIsProper();
    HonestIsLawful(Pair());
    a := new Doc(Pair());
    NewIsTrusted(a);
    Apply(a, EMOJI);
    assert a.named == iset{} by { assert Asking(EMOJI.deletes) == iset{} by { NothingAsked(); } }
    PairIsThere(a);
  }

  lemma NothingAsked()
    ensures Asking(map[]) == iset{}
  {
  }

  const HALF: map<nat, seq<D.Range>> := map[1 := [D.Range(0, 1)]]

  /** A deletion names one half of the character: afterwards it is not so that exactly what was
      named is deleted. */
  method HalfDeleted() returns (a: Doc)
    ensures a.Valid() && a.Settled() && ID(1, 0) in a.named && ID(1, 1) !in a.named
    ensures !DeletedAsNamed(a.store.W(), a.named)
  {
    hide Doc.Valid, Doc.Settled, Trusted, Grown, Booked, DeletedAsNamed, Asking, Fits, AllClean, Honest, Sane;
    a := PairDoc();
    ghost var w := a.store.W();
    TrustedIsValid(a);
    a.ApplyUpdate(Update([], HALF));
    HalfAsked(a.named);
    a.ValidBooked();
    HalfIsNotExact(w, a.store.W(), a.named);
  }

  lemma HalfAsked(named: iset<ID>)
    requires named == iset{} + Asking(HALF)
    ensures ID(1, 0) in named && ID(1, 1) !in named
  {
    assert D.Names(HALF[1], 0) by { assert HALF[1][0].Has(0); }
  }

  lemma HalfIsNotExact(w: World, w': World, named: iset<ID>)
    requires Grown(w, w') && Sane(w') && ID(1, 0) in named && ID(1, 1) !in named
    requires forall x <- Pair() :: x in w.facts && w.facts[x] == Fact(Pair()[x].cell, Plain, TEXT)
    ensures !DeletedAsNamed(w', named)
  {
    hide Sane, State, Order, Restrict, LastEntry;
    assert ID(1, 0) in Pair() && ID(1, 1) in Pair();
    PairsStayTogether(w', ID(1, 1));
  }

  /** The same with `DeleteRange`: it marks too much or too little. */
  method HalfRange() returns (a: Doc, ghost w: World)
    ensures ID(1, 1) in w.facts && ID(1, 0) in w.facts && !ErasedExactly(w, a.store.W(), 1, 0, 1)
  {
    hide Doc.Valid, Doc.Settled, Trusted, Erased, Honest, ErasedExactly, StructStore.Valid, AllClean;
    a := PairDoc();
    TrustedIsValid(a);
    assert ID(1, 0) in Pair() && ID(1, 1) in Pair();
    w := a.store.W();
    a.DeleteRange(1, 0, 1);
  }

  /** A peer announces a clock between the halves: what it is sent is not what the history says. */
  method HalfSent() returns (a: Doc, u: Update)
    ensures Trusted(a) && exists t <- Received(u.blocks) :: !Fits(a.h, t)
  {
    hide Doc.Valid, Doc.Settled, Trusted, Honest, IsTail, QueueOf, Fits, SV, Received, Booked, Sane, Agrees, AllClean,
      StructStore.Valid;
    a := PairDoc();
    TrustedIsValid(a);
    assert ID(1, 0) in Pair() && ID(1, 1) in Pair();
    u := a.EncodeStateAsUpdate(map[1 := 1]);
    assert Sane(a.store.W()) && Agrees(a.h, a.store.W()) && ID(1, 1) in a.store.nodes by { Stands(a); }
    WrongHalf(a.h, a.store.W(), u.blocks);
  }

  lemma Stands(a: Doc)
    requires Trusted(a) && ID(1, 1) in a.store.facts
    ensures Sane(a.store.W()) && Agrees(a.h, a.store.W()) && ID(1, 1) in a.store.nodes
  {
    SaneKeys(a.store.W());
    hide Sane, Agrees;
  }

  lemma WrongHalf(h: History, w: World, u: seq<Block>)
    requires Sane(w) && Agrees(h, w) && h == Pair() && ID(1, 1) in w.nodes && SV(w)(1) >= 2
    requires IsTail(w, 1, 1, QueueOf(u, 1))
    ensures exists t <- Received(u) :: !Fits(h, t)
  {
    hide Sane, Agrees, Fits, State, QueueOf, Tail, Received, Wire.Sendable;
    var i: nat :| Wire.Sendable(w.items, w.clients[1], i, 1) && QueueOf(u, 1) == Tail(w.items, w.clients[1], i, 1);
    HalfStruct(h, w, i);
    QueuedIsReceived(u, QueueOf(u, 1)[0], 1);
  }

  lemma HalfStruct(h: History, w: World, i: nat)
    requires Sane(w) && Agrees(h, w) && h == Pair() && ID(1, 1) in w.nodes && 1 in w.clients
    requires Wire.Sendable(w.items, w.clients[1], i, 1)
    ensures |Tail(w.items, w.clients[1], i, 1)| > 0 && !Fits(h, Tail(w.items, w.clients[1], i, 1)[0])
  {
    hide Sane, Agrees, Fits, State, Tail, Sent, Pair;
    var e := w.clients[1][i];
    CoversLive(w, i);
    LowHalf(h, w, e.ref);
    SentFits(h, w, e.ref, 1 - w.items[e.ref].id.clock);
  }

  lemma LowHalf(h: History, w: World, r: Ref)
    requires Sane(w) && Agrees(h, w) && h == Pair() && r < |w.items| && w.items[r].id.client == 1
    requires w.items[r].id.clock <= 1 < w.items[r].id.clock + w.items[r].Len()
    ensures w.items[r].content.cells[1 - w.items[r].id.clock].half == Low
  {
    hide Sane, Agrees, Described;
    var j := 1 - w.items[r].id.clock;
    StoredUnit(h, w, r, j);
    assert At(w.items[r].id, j) == ID(1, 1);
  }

  lemma CoversLive(w: World, i: nat)
    requires Sane(w) && 1 in w.clients && i < |w.clients[1]| && Items.Covers(w.items, w.clients[1][i], 1)
    requires ID(1, 1) in w.nodes
    ensures var e := w.clients[1][i];
            e.Live? && e.ref < |w.items| && w.items[e.ref].id.client == 1 &&
              w.items[e.ref].id.clock <= 1 < w.items[e.ref].id.clock + w.items[e.ref].Len()
  {
    CoveredUnit(w, ID(1, 1), i);
  }

  // ---------------------------------------------------------------- a slice that is dropped

  ghost function Word(): History {
    map[ID(1, 0) := Letter(None, Whole), ID(1, 1) := Letter(Some(ID(1, 0)), Whole)]
  }

  const WORD := Struct.Item(ID(1, 0), None, None, Some(TEXT), Content(Plain, [Cell(0, Whole), Cell(0, Whole)]))

  const HOLE := Struct.GC(ID(1, 0), 1)

  /** An update with one struct. */
  function Alone(s: Struct): Update
    requires !s.Skip?
  {
    Update([Block(s.id.client, [s])], map[])
  }

  /** The first letter of a word has been collected when the whole word arrives: the second letter
      is dropped, and its clock is not taken. */
  method DroppedSlice() returns (a: Doc)
    ensures a.Valid() && a.l == Ledger({HOLE, WORD}, {HOLE}, {WORD})
    ensures SV(a.store.W())(1) == 1 && ID(1, 1) !in a.store.nodes
  {
    hide Booked, SV, Grown, Traced, Fits, Lawful, Doc.Valid, Doc.Settled, Sane, Accounted, Orderly, AtRest;
    WordFits();
    AloneArrives(HOLE);
    AloneArrives(WORD);
    a := new Doc(Word());
    ghost var w := a.store.W();
    a.ApplyUpdate(Alone(HOLE));
    ghost var w1, l1 := a.store.W(), a.l;
    Resting(a);
    HoleStored(a.h, w, w1, a.l);
    a.ApplyUpdate(Alone(WORD));
    Resting(a);
    WordDropped(a.h, w1, l1, a.store.W(), a.l);
  }

  lemma AloneArrives(s: Struct)
    requires !s.Skip?
    ensures Received(Alone(s).blocks) == {s} && Orderly(Alone(s).blocks)
  {
    var u := Alone(s).blocks;
    forall c
      ensures Ascending(QueueOf(u, c))
    {
      assert u[..0] == [] && QueueOf(u, c) == QueueOf(u[..0], c) + (if s.id.client == c then [s] else []);
    }
    assert Block(s.id.client, [s]) in u && s in [s];
  }

  lemma Resting(a: Doc)
    requires a.Valid() && a.Settled() && a.orderly
    ensures Booked(a.h, a.store.W(), a.l) && S.Closed(Ledgers.Kept(a.l), SV(a.store.W()))
  {
    hide Booked, SV, Accounted, Orderly, AtRest, Tallied, Listed, S.Closed, Least, Kept;
    RestIsLeast(a.h, a.store.W(), a.l, a.pending);
  }

  /** Once the hole is stored the client's clock is one, and there is nothing else. */
  lemma HoleStored(h: History, w: World, w': World, l': Ledger)
    requires w.nodes == map[] && Booked(h, w', l') && S.Closed(Ledgers.Kept(l'), SV(w'))
    requires Traced(w, Ledger({}, {}, {}), w', l') && l'.known == {HOLE}
    ensures SV(w')(1) == 1 && w'.nodes == map[] && l'.lost == {}
  {
    hide Sane, Lawful, Agrees, TombstonesGone, OwnersPresent, State, Faithful, Honest, OneValueEach, Fits, Grown, Least;
    NotDropped(w, w');
    assert HOLE in Ledgers.Kept(l') && !Enabled(SV(w'), HOLE);
    AtMostOne(l'.done, SV(w'));
  }

  lemma NotDropped(w: World, w': World)
    ensures !Turned(w, w', HOLE, true)
  {
    hide Sane, State, Grown;
  }

  lemma AtMostOne(done: set<Struct>, v: Vector)
    requires done <= {HOLE} && Least(done, v)
    ensures v(1) <= 1
  {
    var b: Vector := (c: nat) => if c == 1 then 1 else 0;
    LeastBelow(done, v, b);
  }

  lemma WordDropped(h: History, w: World, l: Ledger, w': World, l': Ledger)
    requires Booked(h, w, l) && l.known == {HOLE} && SV(w)(1) == 1 && w.nodes == map[] && l.lost == {} && Grown(w, w')
    requires Booked(h, w', l') && S.Closed(Ledgers.Kept(l'), SV(w'))
    requires Traced(w, l, w', l') && l'.known == {HOLE, WORD} && l.done <= l'.done
    ensures SV(w')(1) == 1 && ID(1, 1) !in w'.nodes && l' == Ledger({HOLE, WORD}, {HOLE}, {WORD})
  {
    hide Sane, Lawful, Agrees, TombstonesGone, OwnersPresent, State, Faithful, Honest, OneValueEach, Fits, Grown, Least;
    NotDropped(w, w');
    NotKept(w, w');
    AtMostOne(l'.done, SV(w'));
    GrownVector(w, w');
    if HOLE !in l.done { NothingDone(l.done, SV(w)); }
    assert Enabled(SV(w'), WORD) && WORD !in Ledgers.Kept(l');
    UncoveredUnit(w', ID(1, 1));
  }

  lemma NothingDone(done: set<Struct>, v: Vector)
    requires Least(done, v) && done == {}
    ensures v(1) == 0
  {
    LeastBelow(done, v, (c: nat) => 0);
  }

  lemma NotKept(w: World, w': World)
    requires SV(w)(1) == 1 && w.nodes == map[]
    ensures !Turned(w, w', WORD, false)
  {
    hide Sane, State, Grown;
    forall v | Grown(w, v) && Turns(v, WORD, false)
      ensures false
    {
      GrownVector(w, v);
      NoNodeBelow(w, v);
    }
  }

  lemma NoNodeBelow(w: World, v: World)
    requires SV(w)(1) == 1 && w.nodes == map[] && Grown(w, v) && Sane(v)
    ensures ID(1, 0) !in v.facts
  {
    hide State, Order, Restrict;
  }

  lemma WordFits()
    ensures Lawful(Word()) && Fits(Word(), WORD) && Fits(Word(), Struct.GC(ID(1, 0), 1))
  {
    WordIsHonest();
    WordIsWord();
  }

  lemma WordIsHonest()
    ensures Honest(Word())
  {
    forall x <- Word()
      ensures HonestAt(Word(), x)
    {
    }
    AppendedIsHonest(Word());
  }

  lemma WordIsWord()
    ensures Fits(Word(), WORD)
  {
    assert At(WORD.id, 0) == WORD.id && At(WORD.id, 1) == ID(1, 1);
    assert UnitFits(Word(), WORD, 0) && UnitFits(Word(), WORD, 1);
  }
}
