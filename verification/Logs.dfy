/**
  What updates, documents and a database with a snapshot and a log tell, as values, and how
  compaction changes it (internal/room/persist.go, internal/store/store.go).

  A snapshot is what a document sends to somebody who has nothing.  It tells what the document
  has integrated and every deletion it has heard of; it does not tell what is still waiting.
*/
module Logs {
  import opened Ids
  import opened Structs
  import opened Items
  import opened Schedules
  import opened Histories
  import opened Steps
  import opened Convergence
  import opened Ledgers
  import opened Docs
  import opened Replicas
  import opened Wire
  import opened Sync
  import S = Schedules
  import D = DeleteSets

  /** Units, however they are sliced, and deletions. */
  datatype Told = Told(units: iset<ID>, deletes: iset<ID>)

  ghost function Tells(u: Update): Told {
    Told((iset x | Carries(Received(u.blocks), x)), Asking(u.deletes))
  }

  /** `b` tells what `a` tells, some units excepted. */
  ghost predicate Holds(b: Told, a: Told, except: iset<ID>) {
    a.units <= b.units + except && a.deletes <= b.deletes
  }

  lemma HoldsTransitive(a: Told, b: Told, c: Told)
    requires Holds(b, a, iset{}) && Holds(c, b, iset{})
    ensures Holds(c, a, iset{})
  {
  }

  ghost function Both(a: Told, b: Told): Told {
    Told(a.units + b.units, a.deletes + b.deletes)
  }

  // ---------------------------------------------------------------- documents and snapshots

  /** What a document has integrated, and the deletions it advertises. */
  ghost function Shows(a: Doc): Told
    reads a, a.store, a.pendingDeletes
  {
    Told((iset x: ID | x.clock < SV(a.store.W())(x.client)), (iset x | Advertised(a, x)))
  }

  /** The units that have arrived and are not integrated. */
  ghost function Waiting(a: Doc): iset<ID>
    reads a, a.store
  {
    LeftOut(a.store.W(), a.l)
  }

  ghost function LeftOut(w: World, l: Ledger): iset<ID> {
    iset x | Carries(l.known, x) && SV(w)(x.client) <= x.clock
  }

  /** Everything a document has been told. */
  ghost function Knows(a: Doc): Told
    reads a
  {
    Told((iset x | Carries(a.l.known, x)), a.named)
  }

  /** The state vector of somebody who has nothing. */
  ghost function Nothing(): Vector {
    (c: nat) => 0
  }

  /** What some document sent to somebody who had nothing, while exactly `waiting` was waiting in it. */
  ghost predicate IsSnapshot(h: History, u: Update, waiting: iset<ID>) {
    Proper(h, u) && exists w, l :: AnswerOf(h, w, l, Nothing(), u) && waiting == LeftOut(w, l)
  }

  lemma NothingIsWhole(h: History)
    requires Honest(h)
    ensures WholeVector(h, Nothing())
  {
    hide Lawful, Describes;
    forall c: nat
      ensures WholeAt(h, c, Nothing()(c))
    {
      if ID(c, 0) in h { assert HonestAt(h, ID(c, 0)); }
    }
  }

  /** A snapshot tells exactly what the document has integrated and advertises. */
  lemma SnapshotTells(a: Doc, u: Update)
    requires Trusted(a) && AnswerOf(a.h, a.store.W(), a.l, Nothing(), u)
    requires forall x :: x in Asking(u.deletes) <==> Advertised(a, x)
    ensures Tells(u) == Shows(a)
  {
    hide Sane, Agrees, Faithful, OwnersPresent, TombstonesGone, Lawful, Fits, Honest, AllClean, State,
      AtRest, Orderly, D.Names, Tallied, Least, IsTail, QueueOf, CutsNoPair, Received, Advertised, Trusted;
    var w := a.store.W();
    forall x
      ensures Carries(Received(u.blocks), x) <==> x.clock < SV(w)(x.client)
    {
      var c := x.client;
      assert IsTail(w, c, Nothing()(c), QueueOf(u.blocks, c)) && CutsNoPair(w, c, Nothing()(c));
      TailIsComplete(a.h, w, c, 0, QueueOf(u.blocks, c));
      if x.clock < SV(w)(c) {
        assert Reached(QueueOf(u.blocks, c), x.clock);
        var t :| t in QueueOf(u.blocks, c) && t.id.clock <= x.clock < t.End();
        QueuedIsReceived(u.blocks, t, c);
        assert Items.Within(t.id, t.Len(), x);
      }
      if Carries(Received(u.blocks), x) {
        var t :| t in Received(u.blocks) && !t.Skip? && Items.Within(t.id, t.Len(), x);
        assert t.End() <= SV(w)(t.id.client);
      }
    }
  }

  /** Whether a document's snapshot will hold an update it has been told: exactly if none of its
      structs is waiting. */
  lemma WaitingIsPending(a: Doc, u: Update)
    requires Trusted(a) && Received(u.blocks) <= a.l.known
    ensures Tells(u).units !! Waiting(a) <==>
              forall s <- Received(u.blocks) | !s.Skip? && s.Len() > 0 :: !Waits(a.pending, s)
  {
    hide Sane, Agrees, Faithful, OwnersPresent, TombstonesGone, Lawful, Fits, Honest, State,
      AtRest, Orderly, D.Names, Tallied, Least, Received, Waits;
    forall s <- Received(u.blocks) | !s.Skip? && s.Len() > 0 && Waits(a.pending, s)
      ensures ID(s.id.client, s.End() - 1) in Tells(u).units && ID(s.id.client, s.End() - 1) in Waiting(a)
    {
      if s.End() <= SV(a.store.W())(s.id.client) { NothingDoneWaits(SV(a.store.W()), a.pending, s); }
      assert Items.Within(s.id, s.Len(), ID(s.id.client, s.End() - 1));
    }
    forall x | x in Tells(u).units && x in Waiting(a)
      ensures exists s <- Received(u.blocks) :: !s.Skip? && s.Len() > 0 && Waits(a.pending, s)
    {
      var s :| s in Received(u.blocks) && !s.Skip? && Items.Within(s.id, s.Len(), x);
      assert Handled(SV(a.store.W()), a.l.lost, s) || Waits(a.pending, s);
    }
  }

  /** What a document has been told it shows, or it waits. */
  lemma KnownIsShown(a: Doc)
    requires Trusted(a)
    ensures Holds(Shows(a), Knows(a), Waiting(a)) && Shows(a).units !! Waiting(a)
  {
    hide Trusted, Advertised, Carries, SV;
    forall x <- a.named { NamedIsAdvertised(a, x); }
  }

  /** What was sent in answer to nothing is integrated by a document that has got as far. */
  lemma SnapshotIsShown(a: Doc, u: Update, w: World, l: Ledger)
    requires AnswerOf(a.h, w, l, Nothing(), u) && (forall c :: SV(w)(c) <= SV(a.store.W())(c))
    requires forall x <- Asking(u.deletes) :: Advertised(a, x)
    ensures Holds(Shows(a), Tells(u), iset{})
  {
    hide Booked, AllClean, IsTail, CutsNoPair, Advertised, SV, QueueOf, Received, Asking;
    forall x <- Tells(u).units
      ensures x in Shows(a).units
    {
      var s :| s in Received(u.blocks) && !s.Skip? && Items.Within(s.id, s.Len(), x);
      assert s.End() <= SV(w)(s.id.client);
      assert SV(w)(x.client) <= SV(a.store.W())(x.client);
    }
  }

  /** A document's snapshot holds an update the document has been told if and only if none of its
      structs is waiting; its deletions are always held. */
  lemma SnapshotHolds(a: Doc, snapshot: Update, u: Update)
    requires Trusted(a) && Tells(snapshot) == Shows(a) && Received(u.blocks) <= a.l.known
    requires Asking(u.deletes) <= a.named
    ensures Holds(Tells(snapshot), Tells(u), iset{}) <==>
              forall s <- Received(u.blocks) | !s.Skip? && s.Len() > 0 :: !Waits(a.pending, s)
    ensures Tells(u).deletes <= Tells(snapshot).deletes
  {
    hide Trusted, Advertised, SV, Waits, Received;
    KnownIsShown(a);
    WaitingIsPending(a, u);
    forall x <- Tells(u).units
      ensures x in Knows(a).units
    {
      var s :| s in Received(u.blocks) && !s.Skip? && Items.Within(s.id, s.Len(), x);
      assert s in a.l.known;
    }
  }

  lemma ToldAlso(known: set<Struct>, named: iset<ID>, u: Update)
    ensures Told((iset x | Carries(known + Received(u.blocks), x)), named + Asking(u.deletes)) ==
              Both(Told((iset x | Carries(known, x)), named), Tells(u))
  {
    hide Received, Asking;
    var more := Received(u.blocks);
    forall x
      ensures Carries(known + more, x) <==> Carries(known, x) || Carries(more, x)
    {
      if Carries(known, x) {
        var s :| s in known && !s.Skip? && Items.Within(s.id, s.Len(), x);
        assert s in known + more;
      }
      if Carries(more, x) {
        var s :| s in more && !s.Skip? && Items.Within(s.id, s.Len(), x);
        assert s in known + more;
      }
    }
  }

  /** A document that has been told at least as much is at least as far, and advertises every
      deletion the other has been told. */
  lemma ToldMore(a: Doc, b: Doc)
    requires Trusted(a) && Trusted(b) && a.h == b.h && a.named <= b.named
    requires forall x | Carries(a.l.known, x) :: Carries(b.l.known, x)
    ensures forall c :: SV(a.store.W())(c) <= SV(b.store.W())(c)
    ensures forall x <- a.named :: Advertised(b, x)
  {
    hide Sane, State, Agrees, LiveAll, OrderedAll, OwnersPresent, Lawful, Fits, S.Closed, Least, Honest, TombstonesGone,
      Accounted, Carries, Advertised, AtRest, Orderly, D.Names, Tallied;
    RestIsLeast(a.h, a.store.W(), a.l, a.pending);
    RestIsLeast(b.h, b.store.W(), b.l, b.pending);
    assert Ledgers.Kept(a.l) == a.l.known && Ledgers.Kept(b.l) == b.l.known;
    ClosedTransfers(b.h, b.store.W(), b.l.known, a.l.known);
    LeastBelow(a.l.known, SV(a.store.W()), SV(b.store.W()));
    forall x <- a.named { NamedIsAdvertised(b, x); }
  }

  // ---------------------------------------------------------------- the database

  /** The snapshot a deleted row went into, and what was waiting when that was encoded. */
  datatype Grave = Grave(snapshot: Update, waiting: iset<ID>)

  /** What is stored, and what has been: `written` is every row there ever was, `graves` says where the
      deleted ones are. */
  datatype Stored = Stored(snapshot: Option<Update>, snapshotSeq: nat, rows: map<nat, Update>,
                           written: map<nat, Update>, graves: map<nat, Grave>)

  ghost function SnapshotOf(d: Stored): Told {
    if d.snapshot.Some? then Tells(d.snapshot.value) else Told(iset{}, iset{})
  }

  ghost function RowsOf(d: Stored): Told {
    Told((iset s, x | s in d.rows && x in Tells(d.rows[s]).units :: x),
         (iset s, x | s in d.rows && x in Tells(d.rows[s]).deletes :: x))
  }

  /** What a load reads back. */
  ghost function ReadBack(d: Stored): Told {
    Both(SnapshotOf(d), RowsOf(d))
  }

  /** Every row there ever was can be read back, some units excepted. */
  ghost predicate Recoverable(d: Stored, except: iset<ID>) {
    forall s <- d.written :: Holds(ReadBack(d), Tells(d.written[s]), except)
  }

  /** Everything that was ever written. */
  ghost function WrittenOf(d: Stored): Told {
    RowsOf(d.(rows := d.written))
  }

  /** A document loaded from a database from which everything can be read back is at least as far as
      any document that has only been told what was written, and advertises every deletion that
      one has been told. */
  lemma LoadIsComplete(d: Stored, except: iset<ID>, a: Doc, b: Doc)
    requires Recoverable(d, except) && Trusted(a) && Trusted(b) && a.h == b.h && Knows(b) == ReadBack(d)
    requires Holds(WrittenOf(d), Knows(a), iset{}) && Knows(a).units !! except
    ensures forall c :: SV(a.store.W())(c) <= SV(b.store.W())(c)
    ensures forall x <- a.named :: Advertised(b, x)
  {
    hide Trusted, Tells, SV, Advertised, ReadBack, Carries;
    forall x <- Knows(a).units
      ensures x in Knows(b).units
    {
      var s :| s in d.written && x in Tells(d.written[s]).units;
      assert Holds(ReadBack(d), Tells(d.written[s]), except);
    }
    forall x <- Knows(a).deletes
      ensures x in Knows(b).deletes
    {
      var s :| s in d.written && x in Tells(d.written[s]).deletes;
      assert Holds(ReadBack(d), Tells(d.written[s]), except);
    }
    forall x | Carries(a.l.known, x)
      ensures Carries(b.l.known, x)
    {
      assert x in Knows(a).units;
    }
    ToldMore(a, b);
  }

  /** Every row there ever was can be read back, but for what was waiting when a snapshot was encoded
      into which some row went. */
  ghost predicate Intact(d: Stored) {
    Recoverable(d, Missed(d))
  }

  lemma IntactStays(d: Stored, d': Stored)
    requires Intact(d) && d'.graves == d.graves && forall except | Recoverable(d, except) :: Recoverable(d', except)
    ensures Intact(d')
  {
    hide Recoverable;
    MissedIs(d, d');
  }

  lemma MissedIs(d: Stored, d': Stored)
    requires d'.graves == d.graves
    ensures Missed(d') == Missed(d)
  {
  }

  ghost predicate RowsWritten(d: Stored) {
    forall s <- d.rows :: s in d.written && d.written[s] == d.rows[s]
  }

  /** What was waiting when a snapshot was encoded into which some row went. */
  ghost function Missed(d: Stored): iset<ID> {
    iset s, x | s in d.graves && x in d.graves[s].waiting :: x
  }

  /** Every row is still there, or was deleted together with the writing of a snapshot that held
      it, but for what was waiting when that snapshot was encoded. */
  ghost predicate Buried(d: Stored) {
    && (forall s <- d.graves :: s in d.written && s !in d.rows)
    && (forall s <- d.written :: s in d.rows || (s in d.graves && InGrave(d.graves[s], d.written[s])))
  }

  ghost predicate InGrave(g: Grave, u: Update) {
    Holds(Tells(g.snapshot), Tells(u), g.waiting)
  }

  /** Rows are never rewritten, what has been recorded of them stays, and the snapshot's sequence
      number never goes back. */
  ghost predicate Follows(d: Stored, d': Stored) {
    && d.snapshotSeq <= d'.snapshotSeq
    && (forall s <- d.written :: s in d'.written && d'.written[s] == d.written[s])
    && (forall s <- d.graves :: s in d'.graves && d'.graves[s] == d.graves[s])
  }

  lemma FollowsOn(d: Stored, d': Stored, d'': Stored)
    requires Follows(d, d') && Follows(d', d'')
    ensures Follows(d, d'')
  {
  }

  lemma FollowsItself(d: Stored)
    ensures Follows(d, d)
  {
  }

  /** The numbers are new and distinct. */
  ghost predicate NewNumbers(written: map<nat, Update>, n: nat, ids: seq<nat>) {
    && |ids| == n
    && (forall i | 0 <= i < n :: ids[i] > 0 && ids[i] !in written)
    && (forall i, j | 0 <= i < j < n :: ids[i] != ids[j])
  }

  function Inserted(rows: map<nat, Update>, ids: seq<nat>, payloads: seq<Update>): map<nat, Update>
    requires |ids| == |payloads|
  {
    if ids == [] then rows
    else Inserted(rows, ids[..|ids| - 1], payloads[..|ids| - 1])[ids[|ids| - 1] := payloads[|ids| - 1]]
  }

  lemma {:induction false} InsertedRows(rows: map<nat, Update>, ids: seq<nat>, payloads: seq<Update>)
    requires |ids| == |payloads| && forall i, j | 0 <= i < j < |ids| :: ids[i] != ids[j]
    ensures forall s :: s in Inserted(rows, ids, payloads) <==> s in rows || s in ids
    ensures forall s <- rows | s !in ids :: Inserted(rows, ids, payloads)[s] == rows[s]
    ensures forall i | 0 <= i < |ids| ::
              ids[i] in Inserted(rows, ids, payloads) && Inserted(rows, ids, payloads)[ids[i]] == payloads[i]
  {
    if ids != [] {
      var n := |ids| - 1;
      InsertedRows(rows, ids[..n], payloads[..n]);
      assert ids == ids[..n] + [ids[n]];
      forall i | 0 <= i < |ids|
        ensures ids[i] in Inserted(rows, ids, payloads) && Inserted(rows, ids, payloads)[ids[i]] == payloads[i]
      {
        if i < n { assert ids[..n][i] == ids[i] && payloads[..n][i] == payloads[i]; }
      }
    }
  }

  ghost function Appended(d: Stored, ids: seq<nat>, payloads: seq<Update>): Stored
    requires |ids| == |payloads|
  {
    d.(rows := Inserted(d.rows, ids, payloads), written := Inserted(d.written, ids, payloads))
  }

  lemma RowIsKept(d: Stored, s: nat)
    requires s in d.rows
    ensures Holds(ReadBack(d), Tells(d.rows[s]), iset{})
  {
    hide Tells;
  }

  /** New rows can be read back, and so can everything that could. */
  lemma AppendKeeps(d: Stored, ids: seq<nat>, payloads: seq<Update>)
    requires RowsWritten(d) && Buried(d) && NewNumbers(d.written, |payloads|, ids)
    ensures var d' := Appended(d, ids, payloads);
            && RowsWritten(d') && Buried(d') && Follows(d, d')
            && (forall s <- d.rows :: s in d'.rows && d'.rows[s] == d.rows[s])
            && forall except | Recoverable(d, except) :: Recoverable(d', except)
  {
    hide Tells, Inserted;
    var d' := Appended(d, ids, payloads);
    InsertedRows(d.rows, ids, payloads);
    InsertedRows(d.written, ids, payloads);
    forall s <- d'.rows
      ensures s in d'.written && d'.written[s] == d'.rows[s]
    {
      if s in ids { var i :| 0 <= i < |ids| && ids[i] == s; }
    }
    forall s <- d.rows
      ensures s in d'.rows && d'.rows[s] == d.rows[s]
    {
      assert s !in ids;
    }
    forall except | Recoverable(d, except)
      ensures Recoverable(d', except)
    {
      AppendRecovers(d, d', except);
    }
  }

  lemma AppendRecovers(d: Stored, d': Stored, except: iset<ID>)
    requires Recoverable(d, except) && d'.snapshot == d.snapshot && RowsWritten(d')
    requires forall s <- d.rows :: s in d'.rows && d'.rows[s] == d.rows[s]
    requires forall s <- d'.written :: s in d'.rows || (s in d.written && d'.written[s] == d.written[s])
    ensures Recoverable(d', except)
  {
    hide Tells;
    forall s <- d'.written
      ensures Holds(ReadBack(d'), Tells(d'.written[s]), except)
    {
      if s in d'.rows {
        RowIsKept(d', s);
      } else {
        assert Holds(ReadBack(d), Tells(d.written[s]), except);
      }
    }
  }

  /** The transaction of `Compact`: a new snapshot, and the rows it covers deleted. */
  ghost function Compacted(d: Stored, snapshot: Update, folded: seq<nat>, waiting: iset<ID>, watermark: nat): Stored {
    Stored(Some(snapshot), watermark, map s | s in d.rows && s !in folded :: d.rows[s],
           d.written, d.graves + map s | s in d.rows && s in folded :: Grave(snapshot, waiting))
  }

  lemma CompactedIs(d: Stored, snapshot: Update, folded: seq<nat>, waiting: iset<ID>, watermark: nat)
    ensures Compacted(d, snapshot, folded, waiting, watermark).snapshot == Some(snapshot)
  {
  }

  /** The snapshot covers the rows, but for what was waiting when it was encoded. */
  ghost predicate CoversRows(d: Stored, snapshot: Update, folded: seq<nat>, waiting: iset<ID>) {
    forall s <- folded :: s in d.written && Holds(Tells(snapshot), Tells(d.written[s]), waiting)
  }

  lemma CompactBuries(d: Stored, snapshot: Update, folded: seq<nat>, waiting: iset<ID>, watermark: nat)
    requires RowsWritten(d) && Buried(d) && CoversRows(d, snapshot, folded, waiting) && d.snapshotSeq <= watermark
    ensures var d' := Compacted(d, snapshot, folded, waiting, watermark);
            RowsWritten(d') && Buried(d') && Follows(d, d')
  {
    hide Tells;
  }

  /** What a compaction misses: the units waiting, if it deletes any row. */
  lemma CompactMisses(d: Stored, snapshot: Update, folded: seq<nat>, waiting: iset<ID>, watermark: nat)
    requires Buried(d)
    ensures var d' := Compacted(d, snapshot, folded, waiting, watermark);
            && Missed(d) <= Missed(d') <= Missed(d) + waiting
            && ((exists s <- d.rows :: s in folded) ==> Missed(d') == Missed(d) + waiting)
  {
    var d' := Compacted(d, snapshot, folded, waiting, watermark);
    forall x <- Missed(d)
      ensures x in Missed(d')
    {
      var s :| s in d.graves && x in d.graves[s].waiting;
      assert d'.graves[s] == d.graves[s];
    }
    forall x <- Missed(d')
      ensures x in Missed(d) + waiting
    {
      var s :| s in d'.graves && x in d'.graves[s].waiting;
    }
    if s :| s in d.rows && s in folded {
      assert s in d'.graves && d'.graves[s].waiting == waiting;
    }
  }

  /** If the new snapshot tells what the old one told, everything that could be read back still can
      be, but for what was waiting when a snapshot was encoded that took rows in. */
  lemma CompactRecovers(d: Stored, snapshot: Update, folded: seq<nat>, waiting: iset<ID>, watermark: nat)
    requires RowsWritten(d) && Buried(d) && CoversRows(d, snapshot, folded, waiting) && Intact(d)
    requires Holds(Tells(snapshot), SnapshotOf(d), iset{})
    ensures var d' := Compacted(d, snapshot, folded, waiting, watermark);
            Intact(d')
  {
    hide Tells, Missed, Buried;
    var d' := Compacted(d, snapshot, folded, waiting, watermark);
    CompactMisses(d, snapshot, folded, waiting, watermark);
    KeptOrMissed(d, snapshot, folded, waiting, watermark);
    forall s <- d.written
      ensures Holds(ReadBack(d'), Tells(d.written[s]), Missed(d'))
    {
      assert Holds(ReadBack(d), Tells(d.written[s]), Missed(d));
    }
  }

  /** Whatever could be read back still can be, or is missed. */
  lemma KeptOrMissed(d: Stored, snapshot: Update, folded: seq<nat>, waiting: iset<ID>, watermark: nat)
    requires RowsWritten(d) && Buried(d) && CoversRows(d, snapshot, folded, waiting)
    requires Holds(Tells(snapshot), SnapshotOf(d), iset{})
    ensures var d' := Compacted(d, snapshot, folded, waiting, watermark);
            Holds(ReadBack(d'), ReadBack(d), Missed(d'))
  {
    hide Tells, Missed, Buried;
    var d' := Compacted(d, snapshot, folded, waiting, watermark);
    CompactMisses(d, snapshot, folded, waiting, watermark);
    forall s <- d.rows
      ensures Holds(ReadBack(d'), Tells(d.rows[s]), Missed(d'))
    {
      if s in folded {
        assert Holds(Tells(snapshot), Tells(d.written[s]), waiting);
      } else {
        RowIsKept(d', s);
      }
    }
  }

  /** What only the replaced snapshot could still tell of rows deleted before can be read back. */
  ghost predicate OldKept(d: Stored, d': Stored) {
    forall s <- d.written | s !in d.rows ::
      && Tells(d.written[s]).units * SnapshotOf(d).units <= ReadBack(d').units
      && Tells(d.written[s]).deletes * SnapshotOf(d).deletes <= ReadBack(d').deletes
  }

  /** No row deleted now has a unit that was waiting and is in no other row. */
  ghost predicate NewKept(d: Stored, d': Stored, waiting: iset<ID>) {
    forall s <- d.rows | s !in d'.rows :: Tells(d.rows[s]).units * waiting <= RowsOf(d').units
  }

  /** Exactly when a compaction loses nothing, whoever else writes snapshots: if and only if what only
      the replaced snapshot could still tell can be read back, and no row deleted now has a unit that
      was waiting and is in no other row. */
  lemma CompactIsExact(d: Stored, snapshot: Update, folded: seq<nat>, waiting: iset<ID>, watermark: nat)
    requires RowsWritten(d) && CoversRows(d, snapshot, folded, waiting) && Recoverable(d, iset{})
    requires Tells(snapshot).units !! waiting
    ensures var d' := Compacted(d, snapshot, folded, waiting, watermark);
            Recoverable(d', iset{}) <==> OldKept(d, d') && NewKept(d, d', waiting)
  {
    hide Tells;
    var d' := Compacted(d, snapshot, folded, waiting, watermark);
    if Recoverable(d', iset{}) {
      forall s <- d.written
        ensures Holds(ReadBack(d'), Tells(d.written[s]), iset{})
      {
      }
      NewIsKept(d, snapshot, folded, waiting, watermark);
    }
    if OldKept(d, d') && NewKept(d, d', waiting) {
      forall s <- d.rows
        ensures Holds(ReadBack(d'), Tells(d.rows[s]), iset{})
      {
        RowSurvives(d, snapshot, folded, waiting, watermark, s);
      }
      forall s <- d.written
        ensures Holds(ReadBack(d'), Tells(d.written[s]), iset{})
      {
        if s !in d.rows { DeletedSurvives(d, d', s); }
      }
    }
  }

  lemma NewIsKept(d: Stored, snapshot: Update, folded: seq<nat>, waiting: iset<ID>, watermark: nat)
    requires RowsWritten(d) && Tells(snapshot).units !! waiting
    requires Recoverable(Compacted(d, snapshot, folded, waiting, watermark), iset{})
    ensures NewKept(d, Compacted(d, snapshot, folded, waiting, watermark), waiting)
  {
    hide Tells;
    var d' := Compacted(d, snapshot, folded, waiting, watermark);
    forall s <- d.rows | s !in d'.rows
      ensures Tells(d.rows[s]).units * waiting <= RowsOf(d').units
    {
      assert Holds(ReadBack(d'), Tells(d'.written[s]), iset{});
    }
  }

  lemma RowSurvives(d: Stored, snapshot: Update, folded: seq<nat>, waiting: iset<ID>, watermark: nat, s: nat)
    requires RowsWritten(d) && CoversRows(d, snapshot, folded, waiting) && s in d.rows
    requires NewKept(d, Compacted(d, snapshot, folded, waiting, watermark), waiting)
    ensures Holds(ReadBack(Compacted(d, snapshot, folded, waiting, watermark)), Tells(d.rows[s]), iset{})
  {
    hide Tells;
    var d' := Compacted(d, snapshot, folded, waiting, watermark);
    if s in folded {
      assert Holds(Tells(snapshot), Tells(d.written[s]), waiting);
    } else {
      RowIsKept(d', s);
    }
  }

  lemma DeletedSurvives(d: Stored, d': Stored, s: nat)
    requires OldKept(d, d') && Recoverable(d, iset{}) && s in d.written && s !in d.rows
    requires forall t <- d.rows :: Holds(ReadBack(d'), Tells(d.rows[t]), iset{})
    ensures Holds(ReadBack(d'), Tells(d.written[s]), iset{})
  {
    hide Tells;
    assert Holds(ReadBack(d), Tells(d.written[s]), iset{});
  }

  // ---------------------------------------------------------------- rooms

  /** What a room hands to its writer: an update, with a flag if the room waits for it, or a
      snapshot to fold the log into.  `waiting` are the units that were waiting in the document
      when the snapshot was encoded. */
  datatype Job = Write(update: Update, awaited: bool) | Fold(snapshot: Update, ghost waiting: iset<ID>)

  /** What the room itself is doing: serving, standing still until an update is on disk, about to
      go on, or waiting for its writer to end. */
  datatype Stage = Free | Awaiting(update: Update) | Answered(update: Update) | Closing

  datatype RoomState = RoomState(shows: Told, waits: iset<ID>, jobs: seq<Job>, batch: seq<Update>, folded: seq<nat>)

  /** A snapshot that is queued to be written tells everything its writer will have written by
      then, but for what was waiting when it was encoded: what the writer has written, what it is
      about to, and what is queued before. */
  ghost predicate Foresees(r: RoomState, d: Stored, content: Told, waiting: iset<ID>, i: nat) {
    && content.units !! waiting
    && (forall s <- r.folded :: s in d.written && Holds(content, Tells(d.written[s]), waiting))
    && (forall u <- r.batch :: Holds(content, Tells(u), waiting))
    && (forall j | 0 <= j < i && j < |r.jobs| && r.jobs[j].Write? :: Holds(content, Tells(r.jobs[j].update), waiting))
  }

  ghost predicate InOrder(r: RoomState, d: Stored) {
    && (forall i | 0 <= i < |r.jobs| && r.jobs[i].Fold? ::
      Foresees(r, d, Tells(r.jobs[i].snapshot), r.jobs[i].waiting, i))
    && Foresees(r, d, r.shows, r.waits, |r.jobs|)
  }

  /** The snapshot that is stored, those that are queued and the document grow in this order: so
      it is if nobody else writes snapshots. */
  ghost predicate Chained(r: RoomState, d: Stored) {
    && Holds(r.shows, SnapshotOf(d), iset{})
    && (forall i | 0 <= i < |r.jobs| && r.jobs[i].Fold? ::
          Holds(Tells(r.jobs[i].snapshot), SnapshotOf(d), iset{}) && Holds(r.shows, Tells(r.jobs[i].snapshot), iset{}))
    && (forall i, j | 0 <= i < j < |r.jobs| && r.jobs[i].Fold? && r.jobs[j].Fold? ::
          Holds(Tells(r.jobs[j].snapshot), Tells(r.jobs[i].snapshot), iset{}))
  }

  /** An update that has been recorded and not yet written. */
  ghost predicate Unwritten(r: RoomState, u: Update) {
    u in r.batch || exists i | 0 <= i < |r.jobs| :: r.jobs[i].Write? && r.jobs[i].update == u
  }

  ghost predicate IsWritten(written: map<nat, Update>, u: Update) {
    exists s <- written :: written[s] == u
  }

  /** A room that has just loaded. */
  lemma LoadedInOrder(r: RoomState, d: Stored)
    requires RowsWritten(d) && r.jobs == [] && r.batch == [] && (forall s <- r.folded :: s in d.rows)
    requires Holds(r.shows, ReadBack(d), r.waits) && r.shows.units !! r.waits && Holds(r.shows, SnapshotOf(d), iset{})
    ensures InOrder(r, d) && Chained(r, d)
  {
    hide Tells;
    forall s <- r.folded
      ensures s in d.written && Holds(r.shows, Tells(d.written[s]), r.waits)
    {
      RowIsKept(d, s);
    }
  }

  /** Other rooms' writes do not disturb a room. */
  lemma StaysInOrder(r: RoomState, d: Stored, d': Stored)
    requires InOrder(r, d) && Follows(d, d')
    ensures InOrder(r, d')
  {
    hide Tells, Holds;
  }

  lemma StaysWritten(d: Stored, d': Stored, u: Update)
    requires Follows(d, d') && IsWritten(d.written, u)
    ensures IsWritten(d'.written, u)
  {
    var s :| s in d.written && d.written[s] == u;
    assert s in d'.written;
  }

  /** A job at the end of the queue: an update the document has been told, or what it shows. */
  lemma EnqueueOrder(r: RoomState, r': RoomState, d: Stored)
    requires InOrder(r, d) && |r'.jobs| == |r.jobs| + 1 && r' == r.(jobs := r.jobs + [r'.jobs[|r.jobs|]])
    requires match r'.jobs[|r.jobs|]
             case Write(u, _) => Holds(r.shows, Tells(u), r.waits)
             case Fold(u, waiting) => Tells(u) == r.shows && waiting == r.waits
    ensures InOrder(r', d) && (Chained(r, d) ==> Chained(r', d))
    ensures forall u | Unwritten(r, u) :: Unwritten(r', u)
    ensures r'.jobs[|r.jobs|].Write? ==> Unwritten(r', r'.jobs[|r.jobs|].update)
  {
    hide Tells;
    forall i | 0 <= i < |r'.jobs| && r'.jobs[i].Fold?
      ensures Foresees(r', d, Tells(r'.jobs[i].snapshot), r'.jobs[i].waiting, i)
    {
      if i < |r.jobs| { assert r'.jobs[i] == r.jobs[i]; }
    }
    forall u | Unwritten(r, u)
      ensures Unwritten(r', u)
    {
      if u !in r.batch {
        var i :| 0 <= i < |r.jobs| && r.jobs[i].Write? && r.jobs[i].update == u;
        assert r'.jobs[i] == r.jobs[i];
      }
    }
  }

  /** The document has been told more. */
  ghost predicate ToldOn(r: RoomState, r': RoomState) {
    && r' == r.(shows := r'.shows, waits := r'.waits)
    && Holds(r'.shows, r.shows, iset{}) && r.waits <= r'.shows.units + r'.waits && r'.shows.units !! r'.waits
  }

  lemma GrowOrder(r: RoomState, r': RoomState, d: Stored)
    requires InOrder(r, d) && ToldOn(r, r')
    ensures InOrder(r', d) && (Chained(r, d) ==> Chained(r', d))
  {
    hide Tells;
  }

  /** An update has been applied. */
  lemma HeardMore(a: Doc, waits: iset<ID>, u: Update)
    requires Trusted(a) && waits <= Knows(a).units && Holds(Knows(a), Tells(u), iset{})
    ensures Holds(Shows(a), Tells(u), Waiting(a)) && waits <= Shows(a).units + Waiting(a)
    ensures Shows(a).units !! Waiting(a)
  {
    hide Trusted, Shows, Knows, Waiting, Tells;
    KnownIsShown(a);
  }

  lemma FirstIsLarger(r: RoomState, d: Stored)
    requires r.jobs != [] && r.jobs[0].Fold?
    ensures Chained(r, d) ==> Holds(Tells(r.jobs[0].snapshot), SnapshotOf(d), iset{})
  {
    hide Tells, Holds;
  }

  lemma ChainedSame(r: RoomState, d: Stored, r': RoomState, d': Stored)
    requires Chained(r, d) && r'.shows == r.shows && r'.jobs == r.jobs && d'.snapshot == d.snapshot
    ensures Chained(r', d')
  {
    hide Tells, Holds;
  }

  /** A snapshot holds a row it covers if and only if no unit of the row was waiting. */
  lemma HoldsUnlessWaiting(r: RoomState, d: Stored, content: Told, waiting: iset<ID>, i: nat, s: nat)
    requires Foresees(r, d, content, waiting, i) && s in r.folded
    ensures s in d.written && (Holds(content, Tells(d.written[s]), iset{}) <==> Tells(d.written[s]).units !! waiting)
  {
    hide Tells;
  }

  lemma ForeseesRows(r: RoomState, d: Stored, snapshot: Update, waiting: iset<ID>)
    requires Foresees(r, d, Tells(snapshot), waiting, 0)
    ensures CoversRows(d, snapshot, r.folded, waiting) && Tells(snapshot).units !! waiting
  {
    hide Tells, Holds;
  }

  lemma TookChained(r: RoomState, r': RoomState, d: Stored, d': Stored)
    requires r.jobs != [] && r'.jobs == r.jobs[1..] && r'.shows == r.shows
    requires d'.snapshot == d.snapshot || (r.jobs[0].Fold? && d'.snapshot == Some(r.jobs[0].snapshot))
    ensures Chained(r, d) ==> Chained(r', d')
  {
    hide Tells, Holds;
  }

  /** An update that was unwritten still is, or has been written. */
  lemma TookUnwritten(r: RoomState, r': RoomState, d': Stored)
    requires r.jobs != [] && r'.jobs == r.jobs[1..]
    requires forall u <- r.batch + (if r.jobs[0].Write? then [r.jobs[0].update] else []) ::
             u in r'.batch || IsWritten(d'.written, u)
    ensures forall u | Unwritten(r, u) :: Unwritten(r', u) || IsWritten(d'.written, u)
  {
    hide IsWritten;
    forall u | Unwritten(r, u)
      ensures Unwritten(r', u) || IsWritten(d'.written, u)
    {
      if u !in r.batch {
        var i :| 0 <= i < |r.jobs| && r.jobs[i].Write? && r.jobs[i].update == u;
        if i == 0 {
          assert u in r.batch + [r.jobs[0].update];
        } else {
          assert r'.jobs[i - 1] == r.jobs[i];
        }
      } else {
        assert u in r.batch + (if r.jobs[0].Write? then [r.jobs[0].update] else []);
      }
    }
  }

  lemma FoldOrder(r: RoomState, d: Stored, r': RoomState, d': Stored)
    requires Follows(d, d') && InOrder(r, d) && r' == r.(folded := r'.folded)
    requires r'.folded == [] || r'.folded == r.folded
    ensures InOrder(r', d')
  {
    hide Tells, Holds;
  }

  lemma TakeFold(r: RoomState, r': RoomState, d: Stored)
    requires InOrder(r, d) && r.jobs != [] && r.jobs[0].Fold? && r' == r.(jobs := r.jobs[1..])
    ensures InOrder(r', d) && Foresees(r', d, Tells(r.jobs[0].snapshot), r.jobs[0].waiting, 0)
  {
    hide Tells, Holds;
    forall i | 0 <= i < |r'.jobs| && r'.jobs[i].Fold?
      ensures Foresees(r', d, Tells(r'.jobs[i].snapshot), r'.jobs[i].waiting, i)
    {
      assert Foresees(r, d, Tells(r.jobs[i + 1].snapshot), r.jobs[i + 1].waiting, i + 1);
    }
  }

  lemma TakeWrite(r: RoomState, r': RoomState, d: Stored)
    requires InOrder(r, d) && r.jobs != [] && r.jobs[0].Write?
    requires r' == r.(jobs := r.jobs[1..], batch := r.batch + [r.jobs[0].update])
    ensures InOrder(r', d)
  {
    hide Tells, Holds;
    forall i | 0 <= i < |r'.jobs| && r'.jobs[i].Fold?
      ensures Foresees(r', d, Tells(r'.jobs[i].snapshot), r'.jobs[i].waiting, i)
    {
      assert Foresees(r, d, Tells(r.jobs[i + 1].snapshot), r.jobs[i + 1].waiting, i + 1);
      forall j | 0 <= j < i && r'.jobs[j].Write?
        ensures Holds(Tells(r'.jobs[i].snapshot), Tells(r'.jobs[j].update), r'.jobs[i].waiting)
      {
        assert r.jobs[j + 1] == r'.jobs[j];
      }
    }
  }

  /** A flush moves the batch to the rows. */
  lemma FlushOrder(r: RoomState, d: Stored, r': RoomState, d': Stored)
    requires Follows(d, d') && r' == r.(batch := [], folded := r'.folded)
    requires forall s <- r'.folded :: s in r.folded || (s in d'.written && d'.written[s] in r.batch)
    ensures forall content, waiting, i | Foresees(r, d, content, waiting, i) :: Foresees(r', d', content, waiting, i)
    ensures InOrder(r, d) ==> InOrder(r', d')
  {
    hide Tells, Holds;
  }

  lemma FlushWrites(d': Stored, ids: seq<nat>, batch: seq<Update>)
    requires |ids| == |batch| && forall i | 0 <= i < |ids| :: ids[i] in d'.written && d'.written[ids[i]] == batch[i]
    ensures forall u <- batch :: IsWritten(d'.written, u)
    ensures forall s <- ids :: s in d'.written && d'.written[s] in batch
  {
    forall u <- batch
      ensures IsWritten(d'.written, u)
    {
      var i :| 0 <= i < |batch| && batch[i] == u;
      assert ids[i] in d'.written;
    }
  }
}
