/**
  The log, the snapshot and the rooms that write them (internal/room/persist.go and
  internal/store/store.go).

  A room holds a document.  Rows are the updates it has been sent, snapshots what
  `EncodeStateAsUpdate` returns.  Any call to the database may fail, before or after it has had
  its effect, and the database hands out sequence numbers in no particular order.
*/
module Durability {
  import opened Ids
  import opened Items
  import opened Histories
  import opened Steps
  import opened Ledgers
  import opened Docs
  import opened Replicas
  import opened Sync
  import opened Logs

  /** How a call to the database goes: well, not at all, or well without an answer. */
  datatype Luck = Fine | Unreachable | Unanswered

  datatype Outcome = Landed | Stale

  class Database {
    ghost const h: History
    var snapshot: Option<Update>
    var snapshotSeq: nat
    var rows: map<nat, Update>
    var used: set<nat>
    ghost var written: map<nat, Update>
    ghost var graves: map<nat, Grave>
    ghost var rooms: set<Room>

    ghost function State(): Stored
      reads this
    {
      Stored(snapshot, snapshotSeq, rows, written, graves)
    }

    ghost predicate Sound()
      reads this
    {
      && Honest(h) && RowsWritten(State()) && Buried(State())
      && (forall s <- written :: s in used && Proper(h, written[s]))
      && (snapshot.Some? ==> exists waiting :: IsSnapshot(h, snapshot.value, waiting))
      && (forall s <- graves :: IsSnapshot(h, graves[s].snapshot, graves[s].waiting))
    }

    /** Whatever the rooms are doing, what they are about to write is right. */
    ghost predicate Valid()
      reads this, rooms, (set r <- rooms :: r.doc), (set r <- rooms :: r.doc.store),
        (set r <- rooms :: r.doc.pendingDeletes)
    {
      && Sound()
      && (forall r <- rooms :: r.db == this && r.Fits(h, State()))
      && (forall q, r | q in rooms && r in rooms && q != r :: Apart(q.doc, r.doc))
    }

    constructor (ghost h: History)
      requires Honest(h)
      ensures Valid() && rooms == {} && this.h == h && State() == Stored(None, 0, map[], map[], map[])
    {
      this.h := h;
      snapshot, snapshotSeq, rows, used := None, 0, map[], {};
      written, graves, rooms := map[], map[], {};
    }

    lemma Has(r: Room)
      requires Valid() && r in rooms
      ensures Sound() && RowsWritten(State()) && Buried(State()) && r.db == this && r.doc.h == h && Trusted(r.doc)
      ensures AllProper(h, r.jobs, r.batch, r.left) && OneAwaited(r.stage, r.jobs)
      ensures InOrder(r.View(), State()) && (r.stage.Answered? && r.sure ==> IsWritten(written, r.stage.update))
      ensures forall q <- rooms | q != r :: Apart(q.doc, r.doc)
    {
      hide Trusted, AllProper, OneAwaited, InOrder, IsWritten, Apart, RowsWritten, Buried, Honest, Proper, IsSnapshot;
    }

    lemma Books()
      requires Sound()
      ensures RowsWritten(State()) && Buried(State())
      ensures forall s <- graves :: IsSnapshot(h, graves[s].snapshot, graves[s].waiting)
    {
      hide RowsWritten, Buried, Honest, Proper, IsSnapshot;
    }

    /** What one room does leaves the others alone. */
    twostate lemma Undisturbed(r: Room)
      requires old(Valid()) && rooms == old(rooms) && old(r in rooms)
      requires Sound() && r.Fits(h, State()) && Follows(old(State()), State())
      requires forall q <- rooms | q != r ::
                 unchanged(q) && unchanged(q.doc) && unchanged(q.doc.store) && unchanged(q.doc.pendingDeletes) &&
                   Apart(q.doc, r.doc)
      ensures Valid()
    {
      hide Sound, Room.Fits, Follows;
      forall q <- rooms | q != r
        ensures q.Fits(h, State())
      {
        assert old(q.Fits(h, State()));
        q.StillFits(h, old(State()), State());
      }
    }

    /** A new room. */
    twostate lemma Admitted(new r: Room)
      requires old(Valid()) && rooms == old(rooms) + {r} && State() == old(State()) && used == old(used)
      requires r.db == this && r.Fits(h, State()) && fresh(r.doc) && fresh(r.doc.store) && fresh(r.doc.pendingDeletes)
      requires forall q <- old(rooms) ::
                 unchanged(q) && unchanged(q.doc) && unchanged(q.doc.store) && unchanged(q.doc.pendingDeletes)
      ensures Valid()
    {
      hide Room.Fits, Honest, RowsWritten, Buried, Proper, IsSnapshot;
      forall q <- old(rooms)
        ensures q.Fits(h, State())
      {
        assert old(q.Fits(h, State()));
      }
    }

    /** `Append`: one row per payload, under numbers of the database's choosing. */
    method Append(payloads: seq<Update>) returns (ids: seq<nat>)
      requires Sound() && forall u <- payloads :: Proper(h, u)
      modifies this`rows, this`used, this`written
      ensures Sound() && NewNumbers(old(written), |payloads|, ids) && State() == Appended(old(State()), ids, payloads)
      ensures Follows(old(State()), State()) && forall s <- old(rows) :: s in rows && rows[s] == old(rows)[s]
      ensures forall i | 0 <= i < |ids| :: ids[i] in written && written[ids[i]] == payloads[i]
      ensures forall except | old(Recoverable(State(), except)) :: Recoverable(State(), except)
    {
      hide Buried, RowsWritten, Inserted, Proper, Recoverable, Follows, IsSnapshot, Honest;
      ids := NewIds(used, |payloads|);
      AppendKeeps(State(), ids, payloads);
      AppendProper(h, written, used, ids, payloads);
      InsertedRows(written, ids, payloads);
      rows, written := Inserted(rows, ids, payloads), Inserted(written, ids, payloads);
      used := used + (set s | s in ids);
    }

    /** `Compact`: replace the snapshot and delete exactly the rows it covers, unless a newer
        snapshot is there. */
    method Compact(content: Update, folded: seq<nat>, ghost waiting: iset<ID>) returns (outcome: Outcome)
      requires Sound() && folded != [] && IsSnapshot(h, content, waiting)
      requires CoversRows(State(), content, folded, waiting)
      modifies this`snapshot, this`snapshotSeq, this`rows, this`graves
      ensures Sound() && Follows(old(State()), State())
      ensures outcome == Landed <==> exists s <- folded :: s > old(snapshotSeq)
      ensures outcome == Landed ==>
                && State() == Compacted(old(State()), content, folded, waiting, snapshotSeq)
                && snapshotSeq in folded && (forall s <- folded :: s <= snapshotSeq)
      ensures outcome == Stale ==> State() == old(State())
    {
      hide Buried, RowsWritten, Proper, IsSnapshot, CoversRows;
      ghost var d := State();
      var watermark := 0;
      for i := 0 to |folded|
        invariant watermark == 0 || watermark in folded[..i]
        invariant forall s <- folded[..i] :: s <= watermark
      {
        assert folded[..i + 1] == folded[..i] + [folded[i]];
        if folded[i] > watermark {
          watermark := folded[i];
        }
      }
      assert folded[..|folded|] == folded;
      if snapshotSeq >= watermark {
        return Stale;
      }
      CompactBuries(d, content, folded, waiting, watermark);
      graves := graves + map s | s in rows && s in folded :: Grave(content, waiting);
      snapshot, snapshotSeq := Some(content), watermark;
      rows := map s | s in rows && s !in folded :: rows[s];
      return Landed;
    }
  }

  lemma AppendProper(h: History, written: map<nat, Update>, used: set<nat>, ids: seq<nat>, payloads: seq<Update>)
    requires (forall u <- payloads :: Proper(h, u)) && (forall s <- written :: s in used && Proper(h, written[s]))
    requires |ids| == |payloads| && forall i, j | 0 <= i < j < |ids| :: ids[i] != ids[j]
    ensures forall s <- Inserted(written, ids, payloads) ::
              (s in used || s in ids) && Proper(h, Inserted(written, ids, payloads)[s])
  {
    hide Inserted, Proper;
    InsertedRows(written, ids, payloads);
    forall s <- Inserted(written, ids, payloads)
      ensures (s in used || s in ids) && Proper(h, Inserted(written, ids, payloads)[s])
    {
      if s in ids { var i :| 0 <= i < |ids| && ids[i] == s; assert payloads[i] in payloads; }
    }
  }

  lemma RowIsWritten(d: Stored, s: nat)
    requires RowsWritten(d) && s in d.rows
    ensures s in d.written && d.written[s] == d.rows[s]
  {
  }

  /** Numbers nobody has used. */
  method NewIds(used: set<nat>, n: nat) returns (ids: seq<nat>)
    ensures |ids| == n && (forall i | 0 <= i < n :: ids[i] > 0 && ids[i] !in used)
    ensures forall i, j | 0 <= i < j < n :: ids[i] != ids[j]
  {
    ids := [];
    var taken := used;
    while |ids| < n
      invariant |ids| <= n && used <= taken
      invariant forall i | 0 <= i < |ids| :: ids[i] > 0 && ids[i] !in used && ids[i] in taken
      invariant forall i, j | 0 <= i < j < |ids| :: ids[i] != ids[j]
    {
      Unused(taken);
      var s: nat :| s > 0 && s !in taken;
      ids, taken := ids + [s], taken + {s};
    }
  }

  lemma Unused(used: set<nat>)
    ensures exists s: nat :: s > 0 && s !in used
  {
    var k := Largest(used + {0});
    assert k + 1 > 0 && k + 1 !in used;
  }

  /** The rows of `Load` in order, up to some point. */
  ghost function Part(d: Stored, ids: seq<nat>): Stored {
    d.(rows := map s | s in d.rows && s in ids :: d.rows[s])
  }

  lemma AllRows(d: Stored, ids: seq<nat>)
    requires forall s <- d.rows :: s in ids
    ensures Part(d, ids) == d
  {
    assert Part(d, ids).rows == d.rows;
  }

  lemma PartGrows(d: Stored, ids: seq<nat>, s: nat)
    requires s in d.rows
    ensures ReadBack(Part(d, ids + [s])) == Both(ReadBack(Part(d, ids)), Tells(d.rows[s]))
  {
    hide Tells;
    var p, q := Part(d, ids), Part(d, ids + [s]);
    assert q.rows == p.rows[s := d.rows[s]];
    RowsGrow(p, s, d.rows[s]);
  }

  lemma RowsGrow(d: Stored, s: nat, u: Update)
    requires s in d.rows ==> d.rows[s] == u
    ensures RowsOf(d.(rows := d.rows[s := u])) == Both(RowsOf(d), Tells(u))
  {
    hide Tells;
    var d' := d.(rows := d.rows[s := u]);
    forall x
      ensures x in RowsOf(d').units <==> x in RowsOf(d).units || x in Tells(u).units
      ensures x in RowsOf(d').deletes <==> x in RowsOf(d).deletes || x in Tells(u).deletes
    {
      assert s in d'.rows;
      if x in RowsOf(d).units { var t :| t in d.rows && x in Tells(d.rows[t]).units; assert t in d'.rows; }
      if x in RowsOf(d).deletes { var t :| t in d.rows && x in Tells(d.rows[t]).deletes; assert t in d'.rows; }
    }
  }

  /** The numbers of the rows, ascending. */
  method InOrderOfNumber(numbers: set<nat>) returns (ids: seq<nat>)
    ensures (forall s :: s in ids <==> s in numbers) && forall i, j | 0 <= i < j < |ids| :: ids[i] < ids[j]
    ensures ids != [] ==> numbers != {}
  {
    ids := [];
    var todo := numbers;
    while todo != {}
      invariant todo <= numbers && (forall s :: s in ids <==> s in numbers && s !in todo)
      invariant ids != [] ==> numbers != {}
      invariant forall i, j | 0 <= i < j < |ids| :: ids[i] < ids[j]
      invariant forall i, t | 0 <= i < |ids| && t in todo :: ids[i] < t
    {
      ghost var least := Smallest(todo);
      var s :| s in todo && forall t <- todo :: s <= t;
      ids, todo := ids + [s], todo - {s};
    }
  }

  /** A new document with the snapshot, if there is one, applied. */
  method Restore(db: Database) returns (doc: Doc)
    requires db.Sound()
    ensures fresh(doc) && fresh(doc.store) && fresh(doc.pendingDeletes) && Trusted(doc) && doc.h == db.h
    ensures Knows(doc) == SnapshotOf(db.State()) && Holds(Shows(doc), SnapshotOf(db.State()), iset{})
  {
    hide Trusted, Honest, Proper, Buried, AllClean, Advertised, AnswerOf, Tells, Shows, Waiting, Asking, Received,
      Grown, Holds, RowsWritten, IsSnapshot, Waits, SV;
    assert Lawful(db.h) by { HonestIsLawful(db.h); }
    doc := new Doc(db.h);
    NewIsTrusted(doc);
    if db.snapshot == None {
      ToldNothing(doc, db.State());
    } else {
      ghost var w, l := Encoder(db.h, db.snapshot.value);
      Absorb(doc, db.snapshot.value, w, l, Nothing());
      SnapshotIsShown(doc, db.snapshot.value, w, l);
      ToldAlso({}, iset{}, db.snapshot.value);
      ToldAll(doc, db.snapshot.value);
    }
  }

  lemma ToldNothing(a: Doc, d: Stored)
    requires a.l.known == {} && a.named == iset{} && d.snapshot == None
    ensures Knows(a) == SnapshotOf(d) && Holds(Shows(a), SnapshotOf(d), iset{})
  {
    assert Knows(a).units == iset{};
  }

  lemma ToldAll(a: Doc, u: Update)
    requires a.l.known == {} + Received(u.blocks) && a.named == iset{} + Asking(u.deletes)
    ensures Knows(a) == Tells(u)
  {
    assert a.l.known == Received(u.blocks) && a.named == Asking(u.deletes);
  }

  /** `load`: the snapshot, then every row that is still there, by number.  The document has been
      told exactly what the database keeps. */
  method Load(db: Database) returns (doc: Doc, ids: seq<nat>)
    requires db.Sound()
    ensures fresh(doc) && fresh(doc.store) && fresh(doc.pendingDeletes) && Trusted(doc) && doc.h == db.h
    ensures Knows(doc) == ReadBack(db.State()) && Holds(Shows(doc), SnapshotOf(db.State()), iset{})
    ensures (forall s :: s in ids <==> s in db.rows) && forall i, j | 0 <= i < j < |ids| :: ids[i] < ids[j]
    ensures db.rows == map[] ==> ids == []
  {
    hide Trusted, Honest, Proper, Buried, Tells, Shows, Knows, Waiting, Holds, ReadBack, Both, SnapshotOf, RowsWritten,
      IsSnapshot, Part;
    ghost var d := db.State();
    doc := Restore(db);
    ids := InOrderOfNumber(db.rows.Keys);
    NoRowsYet(d);
    for i := 0 to |ids|
      invariant fresh(doc) && fresh(doc.store) && fresh(doc.pendingDeletes) && Trusted(doc) && doc.h == db.h
      invariant Knows(doc) == ReadBack(Part(d, ids[..i])) && Holds(Shows(doc), SnapshotOf(d), iset{})
    {
      ghost var shows := Shows(doc);
      assert ids[..i + 1] == ids[..i] + [ids[i]] && ids[i] in ids;
      RowIsWritten(d, ids[i]);
      PartGrows(d, ids[..i], ids[i]);
      Tell(doc, db.rows[ids[i]]);
      HoldsTransitive(SnapshotOf(d), shows, Shows(doc));
    }
    assert ids[..|ids|] == ids;
    AllRows(d, ids);
  }

  lemma NoRowsYet(d: Stored)
    ensures ReadBack(Part(d, [])) == SnapshotOf(d)
  {
    hide Tells;
  }

  /** A document is told an update. */
  method Tell(doc: Doc, u: Update)
    requires Trusted(doc) && Proper(doc.h, u)
    modifies doc, doc.store, doc.pendingDeletes
    ensures Trusted(doc) && (fresh(doc.pendingDeletes) || doc.pendingDeletes == old(doc.pendingDeletes))
    ensures doc.l.known == old(doc.l.known) + Received(u.blocks) && doc.named == old(doc.named) + Asking(u.deletes)
    ensures Knows(doc) == Both(old(Knows(doc)), Tells(u)) && Holds(Shows(doc), old(Shows(doc)), iset{})
    ensures Holds(Shows(doc), Tells(u), Waiting(doc)) && old(Waiting(doc)) <= Shows(doc).units + Waiting(doc)
    ensures Shows(doc).units !! Waiting(doc)
  {
    hide Trusted, Proper, Advertised, Grown, Carries, SV, Received, Asking;
    ghost var w, waits, known, named := doc.store.W(), Waiting(doc), doc.l.known, doc.named;
    Apply(doc, u);
    GrownVector(w, doc.store.W());
    ToldAlso(known, named, u);
    HeardMore(doc, waits, u);
  }

  /** The document a snapshot was encoded from. */
  lemma Encoder(h: History, u: Update) returns (w: World, l: Ledger)
    requires exists waiting :: IsSnapshot(h, u, waiting)
    ensures Proper(h, u) && AnswerOf(h, w, l, Nothing(), u)
  {
    hide Proper, AnswerOf, LeftOut;
    var waiting :| IsSnapshot(h, u, waiting);
    w, l :| AnswerOf(h, w, l, Nothing(), u) && waiting == LeftOut(w, l);
  }

  // ---------------------------------------------------------------- rooms

  /** Everything the writer has been handed is proper, and what the snapshots leave out is accounted
      for. */
  ghost predicate AllProper(h: History, jobs: seq<Job>, batch: seq<Update>, left: iset<ID>) {
    && (forall u <- batch :: Proper(h, u))
    && (forall j <- jobs :: JobProper(h, j, left))
  }

  ghost predicate JobProper(h: History, job: Job, left: iset<ID>) {
    match job
    case Write(u, _) => Proper(h, u)
    case Fold(u, waiting) => IsSnapshot(h, u, waiting) && waiting <= left
  }

  /** The only update that is waited for is the last in the queue, and the room stands still. */
  ghost predicate OneAwaited(stage: Stage, jobs: seq<Job>) {
    && (forall i | 0 <= i < |jobs| && jobs[i].Write? && jobs[i].awaited ::
      i == |jobs| - 1 && stage == Awaiting(jobs[i].update))
    && (stage.Awaiting? ==> jobs != [] && jobs[|jobs| - 1] == Write(stage.update, true))
  }

  lemma BatchProper(h: History, jobs: seq<Job>, batch: seq<Update>, left: iset<ID>)
    requires AllProper(h, jobs, batch, left)
    ensures (forall u <- batch :: Proper(h, u)) && AllProper(h, jobs, [], left)
  {
    hide Proper, JobProper;
  }

  const DEFAULT_COMPACT_AFTER := 500

  type Threshold = n: nat | n > 0 witness 1

  /** The updates handed to a writer since the last snapshot was. */
  function SinceFold(queued: seq<Job>): nat {
    if queued == [] || queued[|queued| - 1].Fold? then 0 else 1 + SinceFold(queued[..|queued| - 1])
  }

  /** A room folds its log in time.  Of all the jobs it ever handed over, `jobs` is what the writer has
      not taken; and while the room is serving, fewer updates than `compactAfter` have been handed over
      since the last snapshot, or as many while it stands still for the last of them. */
  ghost predicate InTime(queued: seq<Job>, jobs: seq<Job>, sinceSnapshot: nat, stage: Stage, compactAfter: nat) {
    && |jobs| <= |queued| && jobs == queued[|queued| - |jobs|..]
    && match stage
       case Free => SinceFold(queued) <= sinceSnapshot && SinceFold(queued) < compactAfter
       case Closing => SinceFold(queued) == 0
       case _ => SinceFold(queued) <= sinceSnapshot + 1 && SinceFold(queued) <= compactAfter
  }

  lemma TakenInTime(queued: seq<Job>, jobs: seq<Job>, sinceSnapshot: nat, stage: Stage, compactAfter: nat)
    requires InTime(queued, jobs, sinceSnapshot, stage, compactAfter) && jobs != []
    ensures InTime(queued, jobs[1..], sinceSnapshot, stage, compactAfter)
    ensures stage.Awaiting? ==> InTime(queued, jobs[1..], sinceSnapshot, Answered(stage.update), compactAfter)
  {
    hide SinceFold;
  }

  lemma FoldedInTime(queued: seq<Job>, jobs: seq<Job>, since: nat, stage: Stage, stage': Stage, compactAfter: Threshold,
                     job: Job)
    requires InTime(queued, jobs, since, stage, compactAfter) && job.Fold?
    ensures InTime(queued + [job], jobs + [job], 0, stage', compactAfter)
  {
  }

  lemma OneMore(queued: seq<Job>, job: Job)
    requires job.Write?
    ensures SinceFold(queued + [job]) == SinceFold(queued) + 1
  {
    assert (queued + [job])[..|queued|] == queued;
  }

  lemma StandsInTime(queued: seq<Job>, jobs: seq<Job>, sinceSnapshot: nat, compactAfter: nat, job: Job)
    requires InTime(queued, jobs, sinceSnapshot, Free, compactAfter) && job.Write?
    ensures InTime(queued + [job], jobs + [job], sinceSnapshot, Awaiting(job.update), compactAfter)
  {
    OneMore(queued, job);
  }

  lemma GoesOnInTime(queued: seq<Job>, jobs: seq<Job>, sinceSnapshot: nat, stage: Stage, compactAfter: nat)
    requires InTime(queued, jobs, sinceSnapshot, stage, compactAfter) && (stage.Awaiting? || stage.Answered?)
    requires sinceSnapshot + 1 < compactAfter
    ensures InTime(queued, jobs, sinceSnapshot + 1, Free, compactAfter)
  {
    hide SinceFold;
  }

  /** Counting the update, and folding the log if it has grown long. */
  lemma RecordedInTime(queued: seq<Job>, jobs: seq<Job>, since: nat, stage: Stage, compactAfter: Threshold,
                       queued': seq<Job>, jobs': seq<Job>, since': nat)
    requires InTime(queued, jobs, since, stage, compactAfter) && (stage.Awaiting? || stage.Answered?)
    requires jobs <= jobs' && queued' == queued + jobs'[|jobs|..]
    requires if since + 1 < compactAfter then jobs' == jobs && since' == since + 1
             else |jobs'| == |jobs| + 1 && since' == 0 && jobs'[|jobs|].Fold?
    ensures InTime(queued', jobs', since', Free, compactAfter)
  {
    hide SinceFold;
    if since + 1 < compactAfter {
      assert queued' == queued;
      GoesOnInTime(queued, jobs, since, stage, compactAfter);
    } else {
      var job := jobs'[|jobs|];
      assert jobs' == jobs + [job] && queued' == queued + [job];
      FoldedInTime(queued, jobs, since, stage, Free, compactAfter, job);
    }
  }

  class Room {
    const db: Database
    const doc: Doc
    const compactAfter: Threshold
    var jobs: seq<Job>
    var batch: seq<Update>
    var folded: seq<nat>
    var sinceSnapshot: nat
    var stage: Stage
    ghost var sure: bool
    ghost var left: iset<ID>
    ghost var queued: seq<Job>

    /** The room folds its log in time. */
    ghost predicate Prompt()
      reads this
    {
      InTime(queued, jobs, sinceSnapshot, stage, compactAfter)
    }

    ghost function View(): RoomState
      reads this, doc, doc.store, doc.pendingDeletes
    {
      RoomState(Shows(doc), Waiting(doc), jobs, batch, folded)
    }

    /** The room and a database.  `sure` says that the update the room stood still for was written;
        `left` is what was waiting when it encoded its snapshots, `queued` every job it handed over. */
    ghost predicate Fits(h: History, d: Stored)
      reads this, doc, doc.store, doc.pendingDeletes
    {
      && doc.h == h && Trusted(doc) && AllProper(h, jobs, batch, left) && OneAwaited(stage, jobs) && InOrder(View(), d)
      && (stage.Answered? && sure ==> IsWritten(d.written, stage.update))
    }

    /** `load`. */
    constructor (db: Database, compactAfter: int)
      requires db.Valid()
      modifies db`rooms
      ensures db.rooms == old(db.rooms) + {this} && db.Valid() && this.db == db && Prompt()
      ensures this.compactAfter == if compactAfter <= 0 then DEFAULT_COMPACT_AFTER else compactAfter
      ensures jobs == [] && batch == [] && stage == Free && left == iset{} && fresh(doc) && fresh(doc.store)
      ensures fresh(doc.pendingDeletes)
      ensures Trusted(doc) && doc.h == db.h && Knows(doc) == ReadBack(db.State()) && Chained(View(), db.State())
      ensures (forall s :: s in folded <==> s in db.rows) && (db.rows == map[] ==> folded == [])
      ensures sinceSnapshot == |folded|
    {
      hide Trusted, Honest, Proper, Buried, Tells, Shows, Knows, Waiting, Holds, ReadBack, SnapshotOf, RowsWritten,
        IsSnapshot, InOrder, Chained, Fits, Apart, Follows;
      var d, ids := Load(db);
      this.db, this.doc := db, d;
      this.compactAfter := if compactAfter <= 0 then DEFAULT_COMPACT_AFTER else compactAfter;
      jobs, batch, folded, sinceSnapshot, stage, sure, left, queued := [], [], ids, |ids|, Free, false, iset{}, [];
      new;
      KnownIsShown(doc);
      LoadedInOrder(View(), db.State());
      db.rooms := db.rooms + {this};
      FollowsItself(db.State());
      Refits(db.h, db.State(), db.State());
      db.Admitted(this);
    }

    /** What is about to be written stays right when others write. */
    lemma StillFits(h: History, d: Stored, d': Stored)
      requires Fits(h, d) && Follows(d, d')
      ensures Fits(h, d')
    {
      hide Trusted, AllProper, OneAwaited, InOrder, IsWritten;
      StaysInOrder(View(), d, d');
      if stage.Answered? && sure { StaysWritten(d, d', stage.update); }
    }

    lemma Refits(h: History, d: Stored, d': Stored)
      requires doc.h == h && Trusted(doc) && AllProper(h, jobs, batch, left) && OneAwaited(stage, jobs)
      requires InOrder(View(), d')
      requires Follows(d, d') && (stage.Answered? && sure ==> IsWritten(d.written, stage.update))
      ensures Fits(h, d')
    {
      hide Trusted, AllProper, OneAwaited, InOrder, IsWritten;
      if stage.Answered? && sure { StaysWritten(d, d', stage.update); }
    }

    /** The end of the writer's batch: it is written, or the database is unreachable and the
        updates stay with the clients only. */
    method Flush(luck: Luck)
      requires db.Valid() && this in db.rooms
      modifies this`batch, this`folded, db`rows, db`used, db`written
      ensures db.Valid() && Follows(old(db.State()), db.State()) && batch == []
      ensures forall s <- old(db.rows) :: s in db.rows && db.rows[s] == old(db.rows)[s]
      ensures forall content, waiting, i | old(Foresees(View(), db.State(), content, waiting, i)) ::
              Foresees(View(), db.State(), content, waiting, i)
      ensures forall except | old(Recoverable(db.State(), except)) :: Recoverable(db.State(), except)
      ensures old(Chained(View(), db.State())) ==> Chained(View(), db.State())
      ensures luck != Unreachable ==> forall u <- old(batch) :: IsWritten(db.written, u)
      ensures old(batch) == [] ==> db.State() == old(db.State()) && folded == old(folded)
      ensures luck == Fine && old(batch) != [] ==>
                exists ids :: NewNumbers(old(db.written), |old(batch)|, ids) && folded == old(folded) + ids &&
                  db.State() == Appended(old(db.State()), ids, old(batch))
    {
      hide Trusted, Proper, Buried, RowsWritten, IsSnapshot, Honest, InOrder, Chained, Foresees, Recoverable, Inserted,
        Appended, Shows, Waiting, IsWritten, Apart, Follows, Fits, OneAwaited, Database.Valid, Database.Sound,
        AllProper;
      ghost var d, v := db.State(), View();
      db.Has(this);
      assert forall u <- batch :: Proper(db.h, u) by { BatchProper(db.h, jobs, batch, left); }
      if batch != [] && luck != Unreachable {
        var ids := db.Append(batch);
        FlushWrites(db.State(), ids, batch);
        if luck == Fine {
          folded := folded + ids;
        }
      } else {
        FollowsItself(d);
      }
      batch := [];
      FlushOrder(v, d, View(), db.State());
      if Chained(v, d) { ChainedSame(v, d, View(), db.State()); }
      BatchProper(db.h, jobs, v.batch, left);
      Refits(db.h, d, db.State());
      db.Undisturbed(this);
    }

    /** `compact`: fold the rows this room has written into a snapshot.  The snapshot holds such a
        row if and only if no unit of the row was waiting when it was encoded.  Rows of a stale
        snapshot stay in the log. */
    method Fold(snapshot: Update, ghost waiting: iset<ID>, luck: Luck) returns (landed: bool)
      requires db.Valid() && this in db.rooms && batch == [] && IsSnapshot(db.h, snapshot, waiting)
      requires Foresees(View(), db.State(), Tells(snapshot), waiting, 0)
      modifies this`folded, db`snapshot, db`snapshotSeq, db`rows, db`graves
      ensures db.Valid() && Follows(old(db.State()), db.State())
      ensures landed <==> luck != Unreachable && exists s <- old(folded) :: s > old(db.snapshotSeq)
      ensures landed ==> db.State() == Compacted(old(db.State()), snapshot, old(folded), waiting, db.snapshotSeq)
      ensures landed ==> db.snapshotSeq in old(folded) && forall s <- old(folded) :: s <= db.snapshotSeq
      ensures !landed ==> db.State() == old(db.State())
      ensures folded == if luck == Fine then [] else old(folded)
      ensures forall s <- old(folded) ::
                s in db.written && (Holds(Tells(snapshot), Tells(db.written[s]), iset{}) <==>
                  Tells(db.written[s]).units !! waiting)
      ensures old(Intact(db.State())) && Holds(Tells(snapshot), old(SnapshotOf(db.State())), iset{}) ==>
              Intact(db.State())
      ensures Missed(db.State()) <= old(Missed(db.State())) + waiting
      ensures landed && old(Recoverable(db.State(), iset{})) ==>
                (Recoverable(db.State(), iset{}) <==>
                   OldKept(old(db.State()), db.State()) && NewKept(old(db.State()), db.State(), waiting))
    {
      hide Trusted, IsSnapshot, InOrder, Chained, Foresees, Recoverable, Shows, Waiting, IsWritten, Apart, Tells, Holds,
        SnapshotOf, RowsOf, Follows, CoversRows, RowsWritten, Compacted, OldKept, NewKept, Missed, Intact, InTime, Fits,
        OneAwaited, Database.Valid, Database.Sound, AllProper;
      ghost var d, v := db.State(), View();
      db.Has(this);
      FollowsItself(d);
      ForeseesRows(v, d, snapshot, waiting);
      forall s <- folded { HoldsUnlessWaiting(v, d, Tells(snapshot), waiting, 0, s); }
      if folded == [] || luck == Unreachable {
        return false;
      }
      var outcome := db.Compact(snapshot, folded, waiting);
      landed := outcome == Landed;
      ghost var rows := folded;
      if luck == Fine {
        folded := [];
      }
      if landed {
        CompactMisses(d, snapshot, rows, waiting, db.snapshotSeq);
        if Intact(d) && Holds(Tells(snapshot), SnapshotOf(d), iset{}) {
          CompactRecovers(d, snapshot, rows, waiting, db.snapshotSeq);
        }
        if Recoverable(d, iset{}) { CompactIsExact(d, snapshot, rows, waiting, db.snapshotSeq); }
      }
      FoldOrder(v, d, View(), db.State());
      Refits(db.h, d, db.State());
      db.Undisturbed(this);
    }

    /** The writer receives a snapshot. */
    method NextFold() returns (job: Job)
      requires db.Valid() && this in db.rooms && jobs != [] && jobs[0].Fold?
      modifies this`jobs
      ensures db.Valid() && job == old(jobs)[0] && jobs == old(jobs)[1..] && job.waiting <= left
      ensures IsSnapshot(db.h, job.snapshot, job.waiting)
      ensures Foresees(View(), db.State(), Tells(job.snapshot), job.waiting, 0)
    {
      hide Trusted, IsSnapshot, InOrder, Foresees, Shows, Waiting, Tells, Follows, RowsWritten, Fits, OneAwaited,
        Database.Valid, Database.Sound, AllProper;
      ghost var d, v := db.State(), View();
      db.Has(this);
      Pop(db.h, stage, jobs, batch, left);
      job := jobs[0];
      jobs := jobs[1..];
      Logs.TakeFold(v, View(), d);
      FollowsItself(d);
      Refits(db.h, d, d);
      db.Undisturbed(this);
    }

    /** Everything queued before a snapshot is written before it. */
    method FlushBefore(job: Job, luck: Luck)
      requires db.Valid() && this in db.rooms && job.Fold?
      requires Foresees(View(), db.State(), Tells(job.snapshot), job.waiting, 0)
      modifies this`batch, this`folded, db`rows, db`used, db`written
      ensures db.Valid() && Follows(old(db.State()), db.State()) && batch == []
      ensures Foresees(View(), db.State(), Tells(job.snapshot), job.waiting, 0)
      ensures (old(Intact(db.State())) ==> Intact(db.State())) && Missed(db.State()) == old(Missed(db.State()))
      ensures luck != Unreachable ==> forall u <- old(batch) :: IsWritten(db.written, u)
      ensures old(batch) == [] ==> db.State() == old(db.State()) && folded == old(folded)
    {
      hide Trusted, IsSnapshot, InOrder, Chained, Foresees, Recoverable, Shows, Waiting, IsWritten, Apart, Tells,
        Follows, RowsWritten, Missed, Intact, InTime, Fits, OneAwaited, Database.Valid, Database.Sound, AllProper;
      ghost var d := db.State();
      Flush(luck);
      if Intact(d) { IntactStays(d, db.State()); }
      MissedIs(d, db.State());
    }

    /** `Fold` for a job, as far as the writer's loop needs it. */
    method FoldJob(job: Job, luck: Luck) returns (landed: bool)
      requires db.Valid() && this in db.rooms && batch == [] && job.Fold?
      requires IsSnapshot(db.h, job.snapshot, job.waiting)
      requires Foresees(View(), db.State(), Tells(job.snapshot), job.waiting, 0)
      modifies this`folded, db`snapshot, db`snapshotSeq, db`rows, db`graves
      ensures db.Valid() && Follows(old(db.State()), db.State())
      ensures landed <==> luck != Unreachable && exists s <- old(folded) :: s > old(db.snapshotSeq)
      ensures landed ==>
                db.State() == Compacted(old(db.State()), job.snapshot, old(folded), job.waiting, db.snapshotSeq)
      ensures landed ==> db.snapshotSeq in old(folded) && forall s <- old(folded) :: s <= db.snapshotSeq
      ensures !landed ==> db.State() == old(db.State())
      ensures old(Intact(db.State())) && Holds(Tells(job.snapshot), old(SnapshotOf(db.State())), iset{}) ==>
              Intact(db.State())
      ensures Missed(db.State()) <= old(Missed(db.State())) + job.waiting
    {
      hide *;
      landed := Fold(job.snapshot, job.waiting, luck);
    }

    /** The writer takes a snapshot: it writes what it holds, and folds. */
    method TakeFold(luck: Luck, again: Luck) returns (landed: bool)
      requires db.Valid() && this in db.rooms && jobs != [] && jobs[0].Fold?
      modifies this`jobs, this`batch, this`folded, db`snapshot, db`snapshotSeq, db`rows, db`used, db`written, db`graves
      ensures db.Valid() && Follows(old(db.State()), db.State()) && jobs == old(jobs)[1..] && batch == []
      ensures old(Chained(View(), db.State()) && Intact(db.State())) ==>
                Chained(View(), db.State()) && Intact(db.State())
      ensures luck != Unreachable ==> forall u <- old(batch) :: IsWritten(db.written, u)
      ensures Missed(db.State()) <= old(Missed(db.State())) + old(jobs)[0].waiting && old(jobs)[0].waiting <= left
      ensures old(batch) == [] ==>
                && (landed <==> again != Unreachable && exists s <- old(folded) :: s > old(db.snapshotSeq))
                && (landed ==>
                      && db.State() == Compacted(old(db.State()), old(jobs)[0].snapshot, old(folded),
                        old(jobs)[0].waiting, db.snapshotSeq)
                      && db.snapshotSeq in old(folded) && forall s <- old(folded) :: s <= db.snapshotSeq)
    {
      hide Trusted, IsSnapshot, InOrder, Chained, Foresees, Recoverable, Shows, Waiting, IsWritten, Apart, Tells, Holds,
        SnapshotOf, RowsOf, Follows, RowsWritten, Compacted, OldKept, NewKept, Missed, Intact, InTime, Fits, OneAwaited,
        Database.Valid, Database.Sound, AllProper;
      ghost var d, v := db.State(), View();
      var job := NextFold();
      FlushBefore(job, luck);
      ghost var d1, rows := db.State(), folded;
      if Chained(v, d) { ChainedSame(v, d, v, d1); FirstIsLarger(v, d1); }
      landed := FoldJob(job, again);
      FollowsOn(d, d1, db.State());
      CompactedIs(d1, job.snapshot, rows, job.waiting, db.snapshotSeq);
      TookChained(v, View(), d, db.State());
      forall u <- v.batch | luck != Unreachable { StaysWritten(d1, db.State(), u); }
    }

    /** The writer takes an update: it writes what it holds if somebody waits or it holds enough. */
    method TakeWrite(luck: Luck)
      requires db.Valid() && this in db.rooms && jobs != [] && jobs[0].Write?
      modifies this`jobs, this`batch, this`folded, this`stage, this`sure, db`rows, db`used, db`written
      ensures db.Valid() && Follows(old(db.State()), db.State()) && jobs == old(jobs)[1..]
      ensures old(Chained(View(), db.State())) ==> Chained(View(), db.State())
      ensures forall except | old(Recoverable(db.State(), except)) :: Recoverable(db.State(), except)
      ensures luck != Unreachable ==> forall u <- old(batch) + [old(jobs)[0].update] ::
              u in batch || IsWritten(db.written, u)
      ensures stage == if old(jobs)[0].awaited then Answered(old(jobs)[0].update) else old(stage)
      ensures if old(jobs)[0].awaited then luck != Unreachable ==> sure else sure == old(sure)
      ensures old(jobs)[0].awaited || |old(batch)| >= 255 ==> batch == []
      ensures !old(jobs)[0].awaited && |old(batch)| < 255 ==>
                batch == old(batch) + [old(jobs)[0].update] && folded == old(folded) && db.State() == old(db.State())
    {
      hide Trusted, IsSnapshot, InOrder, Chained, Foresees, Recoverable, Shows, Waiting, IsWritten, Apart, Tells, Holds,
        SnapshotOf, RowsOf, Follows, RowsWritten, Compacted, OldKept, NewKept, Missed, Intact, InTime, Fits, OneAwaited,
        Database.Valid, Database.Sound, AllProper;
      ghost var d, v := db.State(), View();
      db.Has(this);
      Pop(db.h, stage, jobs, batch, left);
      var job := jobs[0];
      jobs, batch := jobs[1..], batch + [job.update];
      if job.awaited {
        stage, sure := Answered(job.update), false;
      }
      Logs.TakeWrite(v, View(), d);
      FollowsItself(d);
      TookChained(v, View(), d, d);
      Refits(db.h, d, d);
      db.Undisturbed(this);
      assert forall u <- v.batch + [job.update] :: u in batch;
      if |batch| >= 256 || job.awaited {
        Flush(luck);
        if job.awaited && luck != Unreachable {
          ghost var d1 := db.State();
          db.Has(this);
          FollowsItself(d1);
          sure := true;
          Refits(db.h, d1, d1);
          db.Undisturbed(this);
        }
      }
    }

    /** The writer takes the next job. */
    method Take(luck: Luck, again: Luck)
      requires db.Valid() && this in db.rooms && jobs != []
      modifies this`jobs, this`batch, this`folded, this`stage, this`sure,
               db`snapshot, db`snapshotSeq, db`rows, db`used, db`written, db`graves
      ensures db.Valid() && Follows(old(db.State()), db.State()) && jobs == old(jobs)[1..]
      ensures old(Chained(View(), db.State()) && Intact(db.State())) ==>
                Chained(View(), db.State()) && Intact(db.State())
      ensures Missed(db.State()) <= old(Missed(db.State())) + left
      ensures luck != Unreachable ==> forall u | Unwritten(old(View()), u) ::
              Unwritten(View(), u) || IsWritten(db.written, u)
      ensures stage == if old(jobs)[0].Write? && old(jobs)[0].awaited then Answered(old(jobs)[0].update) else old(stage)
      ensures if old(jobs)[0].Write? && old(jobs)[0].awaited then luck != Unreachable ==> sure else sure == old(sure)
    {
      hide Trusted, IsSnapshot, Proper, InOrder, Chained, Foresees, Recoverable, Shows, Waiting, IsWritten, Apart,
        Tells, Holds, SnapshotOf, RowsOf, Follows, RowsWritten, Compacted, OldKept, NewKept, Missed, Intact, InTime,
        Fits, OneAwaited, Database.Valid, Database.Sound, AllProper, Unwritten;
      ghost var d, v := db.State(), View();
      if jobs[0].Fold? {
        var _ := TakeFold(luck, again);
      } else {
        TakeWrite(luck);
        if Intact(d) { IntactStays(d, db.State()); }
        MissedIs(d, db.State());
      }
      if luck != Unreachable { TookUnwritten(v, View(), db.State()); }
    }

    /** A snapshot of the document: it tells what the document shows; what waits it does not tell. */
    method Encoded() returns (job: Job)
      requires db.Valid() && this in db.rooms
      ensures job.Fold? && Tells(job.snapshot) == Shows(doc) && job.waiting == Waiting(doc)
      ensures IsSnapshot(db.h, job.snapshot, job.waiting)
    {
      hide Trusted, IsSnapshot, Proper, InOrder, Shows, LeftOut, Tells, RowsWritten, Fits, OneAwaited, Database.Valid,
        Database.Sound, AllProper, AnswerOf, Honest, AllClean, WholeVector, Asking, Advertised, Nothing, SV;
      db.Has(this);
      TrustedIsValid(doc);
      NothingIsWhole(doc.h);
      NothingIsNothing();
      var u := Answer(doc, map[], Nothing());
      SnapshotTells(doc, u);
      Genuine(doc.h, doc.store.W(), doc.l, u);
      return Job.Fold(u, Waiting(doc));
    }

    /** `requestCompaction`: encode the document and hand the snapshot to the writer. */
    method RequestCompaction()
      requires db.Valid() && this in db.rooms && !stage.Awaiting?
      modifies this`jobs, this`sinceSnapshot, this`left, this`queued
      ensures db.Valid() && sinceSnapshot == 0 && |jobs| == |old(jobs)| + 1 && jobs[..|old(jobs)|] == old(jobs)
      ensures queued == old(queued) + [jobs[|old(jobs)|]] && (old(Prompt()) ==> Prompt())
      ensures var job := jobs[|old(jobs)|];
              job.Fold? && Tells(job.snapshot) == Shows(doc) && job.waiting == Waiting(doc) &&
                left == old(left) + Waiting(doc)
      ensures old(Chained(View(), db.State())) ==> Chained(View(), db.State())
      ensures forall u | Unwritten(old(View()), u) :: Unwritten(View(), u)
    {
      hide Trusted, IsSnapshot, Proper, InOrder, Chained, Shows, Waiting, IsWritten, Apart, Tells, Follows, RowsWritten,
        InTime, Fits, OneAwaited, Database.Valid, Database.Sound, AllProper, Unwritten;
      ghost var d, v := db.State(), View();
      db.Has(this);
      var job := Encoded();
      Push(db.h, stage, jobs, batch, left, job);
      if Prompt() { FoldedInTime(queued, jobs, sinceSnapshot, stage, stage, compactAfter, job); }
      jobs, sinceSnapshot, left, queued := jobs + [job], 0, left + Waiting(doc), queued + [job];
      EnqueueOrder(v, View(), d);
      FollowsItself(d);
      Refits(db.h, d, d);
      db.Undisturbed(this);
    }

    /** The room is sent an update and applies it. */
    method Hear(u: Update)
      requires db.Valid() && this in db.rooms && Proper(db.h, u)
      modifies doc, doc.store, doc.pendingDeletes
      ensures db.Valid() && (fresh(doc.pendingDeletes) || doc.pendingDeletes == old(doc.pendingDeletes))
      ensures doc.l.known == old(doc.l.known) + Received(u.blocks) && doc.named == old(doc.named) + Asking(u.deletes)
      ensures Knows(doc) == Both(old(Knows(doc)), Tells(u)) && Holds(Shows(doc), Tells(u), Waiting(doc))
      ensures old(Chained(View(), db.State())) ==> Chained(View(), db.State())
    {
      hide Trusted, IsSnapshot, Proper, InOrder, Chained, Foresees, Recoverable, Shows, Waiting, IsWritten, Tells,
        Holds, SnapshotOf, RowsOf, Follows, RowsWritten, Compacted, OldKept, NewKept, Missed, Intact, InTime, Fits,
        OneAwaited, Database.Valid, Database.Sound, AllProper, Received, Asking, Knows;
      ghost var d, v := db.State(), View();
      db.Has(this);
      Tell(doc, u);
      GrowOrder(v, View(), d);
      FollowsItself(d);
      Refits(db.h, d, d);
      db.Undisturbed(this);
    }

    /** The end of `record`: fold the log when it has grown long. */
    method Recorded()
      requires db.Valid() && this in db.rooms && stage.Free?
      modifies this`jobs, this`sinceSnapshot, this`left, this`queued
      ensures db.Valid() && old(jobs) <= jobs && queued == old(queued) + jobs[|old(jobs)|..]
      ensures if old(sinceSnapshot) + 1 < compactAfter then
                jobs == old(jobs) && left == old(left) && sinceSnapshot == old(sinceSnapshot) + 1
              else
                && |jobs| == |old(jobs)| + 1 && sinceSnapshot == 0 && left == old(left) + Waiting(doc)
                && var job := jobs[|old(jobs)|];
                   job.Fold? && Tells(job.snapshot) == Shows(doc) && job.waiting == Waiting(doc)
      ensures old(Chained(View(), db.State())) ==> Chained(View(), db.State())
      ensures forall u | Unwritten(old(View()), u) :: Unwritten(View(), u)
    {
      hide Trusted, IsSnapshot, Proper, InOrder, Chained, Foresees, Recoverable, Shows, Waiting, IsWritten, Apart,
        Tells, Holds, SnapshotOf, RowsOf, Follows, RowsWritten, Compacted, OldKept, NewKept, Missed, Intact, InTime,
        Fits, OneAwaited, Database.Valid, Database.Sound, AllProper, Unwritten;
      ghost var d, v := db.State(), View();
      db.Has(this);
      FollowsItself(d);
      sinceSnapshot := sinceSnapshot + 1;
      Refits(db.h, d, d);
      db.Undisturbed(this);
      if sinceSnapshot >= compactAfter {
        RequestCompaction();
      }
    }

    /** An update is handed to the writer. */
    method HandOver(u: Update, durable: bool)
      requires db.Valid() && this in db.rooms && stage.Free? && Proper(db.h, u)
      requires Holds(Shows(doc), Tells(u), Waiting(doc))
      modifies this`jobs, this`stage, this`queued
      ensures db.Valid() && jobs == old(jobs) + [Write(u, durable)] && queued == old(queued) + [Write(u, durable)]
      ensures stage == if durable then Awaiting(u) else Free
      ensures old(Prompt()) ==> InTime(queued, jobs, sinceSnapshot, Awaiting(u), compactAfter)
      ensures old(Chained(View(), db.State())) ==> Chained(View(), db.State())
      ensures forall w | Unwritten(old(View()), w) || w == u :: Unwritten(View(), w)
    {
      hide Trusted, IsSnapshot, Proper, InOrder, Chained, Shows, Waiting, IsWritten, Apart, Tells, Holds, Follows,
        RowsWritten, InTime, Fits, OneAwaited, Database.Valid, Database.Sound, AllProper, Unwritten;
      ghost var d, v := db.State(), View();
      db.Has(this);
      Push(db.h, stage, jobs, batch, left, Write(u, durable));
      if Prompt() { StandsInTime(queued, jobs, sinceSnapshot, compactAfter, Write(u, durable)); }
      jobs, queued := jobs + [Write(u, durable)], queued + [Write(u, durable)];
      EnqueueOrder(v, View(), d);
      if durable {
        stage := Awaiting(u);
      }
      FollowsItself(d);
      Refits(db.h, d, d);
      db.Undisturbed(this);
    }

    /** A local update is applied and recorded.  With durable writes the room stands still until it
        is on disk. */
    method ApplyLocal(u: Update, durable: bool)
      requires db.Valid() && this in db.rooms && stage.Free? && Proper(db.h, u)
      modifies this`jobs, this`sinceSnapshot, this`stage, this`left, this`queued, doc, doc.store, doc.pendingDeletes
      ensures db.Valid() && (fresh(doc.pendingDeletes) || doc.pendingDeletes == old(doc.pendingDeletes))
      ensures doc.l.known == old(doc.l.known) + Received(u.blocks) && doc.named == old(doc.named) + Asking(u.deletes)
      ensures Knows(doc) == Both(old(Knows(doc)), Tells(u)) && Holds(Shows(doc), Tells(u), Waiting(doc))
      ensures old(jobs) + [Write(u, durable)] <= jobs && stage == if durable then Awaiting(u) else Free
      ensures queued == old(queued) + jobs[|old(jobs)|..] && (old(Prompt()) ==> Prompt())
      ensures if durable || old(sinceSnapshot) + 1 < compactAfter then
                && jobs == old(jobs) + [Write(u, durable)] && left == old(left)
                && sinceSnapshot == old(sinceSnapshot) + (if durable then 0 else 1)
              else
                && |jobs| == |old(jobs)| + 2 && sinceSnapshot == 0 && left == old(left) + Waiting(doc)
                && var job := jobs[|old(jobs)| + 1];
                   job.Fold? && Tells(job.snapshot) == Shows(doc) && job.waiting == Waiting(doc)
      ensures old(Chained(View(), db.State())) ==> Chained(View(), db.State())
      ensures forall w | Unwritten(old(View()), w) || w == u :: Unwritten(View(), w)
    {
      hide Trusted, IsSnapshot, Proper, InOrder, Chained, Foresees, Recoverable, Shows, Waiting, IsWritten, Apart,
        Tells, Holds, SnapshotOf, RowsOf, Follows, RowsWritten, Compacted, OldKept, NewKept, Missed, Intact, InTime,
        Fits, OneAwaited, Database.Valid, Database.Sound, AllProper, Unwritten, Received, Asking, Knows;
      ghost var v0 := View();
      Hear(u);
      UnwrittenSame(v0, View());
      HandOver(u, durable);
      if !durable {
        ghost var since, all, mine := sinceSnapshot, queued, jobs;
        Recorded();
        if old(Prompt()) { RecordedInTime(all, mine, since, Awaiting(u), compactAfter, queued, jobs, sinceSnapshot); }
      }
    }

    /** The update the room stood still for is on disk, unless the database was unreachable, and the
        room goes on. */
    method Resume()
      requires db.Valid() && this in db.rooms && stage.Answered?
      modifies this`jobs, this`sinceSnapshot, this`stage, this`left, this`queued
      ensures db.Valid() && stage == Free && old(jobs) <= jobs && queued == old(queued) + jobs[|old(jobs)|..]
      ensures old(Prompt()) ==> Prompt()
      ensures if old(sinceSnapshot) + 1 < compactAfter then
                jobs == old(jobs) && left == old(left) && sinceSnapshot == old(sinceSnapshot) + 1
              else
                && |jobs| == |old(jobs)| + 1 && sinceSnapshot == 0 && left == old(left) + Waiting(doc)
                && var job := jobs[|old(jobs)|];
                   job.Fold? && Tells(job.snapshot) == Shows(doc) && job.waiting == Waiting(doc)
      ensures sure ==> IsWritten(db.written, old(stage).update)
      ensures old(Chained(View(), db.State())) ==> Chained(View(), db.State())
      ensures forall u | Unwritten(old(View()), u) :: Unwritten(View(), u)
    {
      hide Trusted, IsSnapshot, Proper, InOrder, Chained, Foresees, Recoverable, Shows, Waiting, IsWritten, Apart,
        Tells, Holds, SnapshotOf, RowsOf, Follows, RowsWritten, Compacted, OldKept, NewKept, Missed, Intact, InTime,
        Fits, OneAwaited, Database.Valid, Database.Sound, AllProper, Unwritten;
      ghost var d := db.State();
      db.Has(this);
      FollowsItself(d);
      NobodyWaits(stage, jobs);
      ghost var since, stood := sinceSnapshot, stage;
      stage := Free;
      Refits(db.h, d, d);
      db.Undisturbed(this);
      Recorded();
      if old(Prompt()) {
        RecordedInTime(old(queued), old(jobs), since, stood, compactAfter, queued, jobs, sinceSnapshot);
      }
    }

    /** `finishPersisting`: hand over a last snapshot and stop serving. */
    method Close()
      requires db.Valid() && this in db.rooms && stage.Free?
      modifies this`jobs, this`sinceSnapshot, this`stage, this`left, this`queued
      ensures db.Valid() && stage == Closing && |jobs| == |old(jobs)| + 1 && jobs[..|old(jobs)|] == old(jobs)
      ensures left == old(left) + Waiting(doc) && (old(Prompt()) ==> Prompt())
      ensures var job := jobs[|old(jobs)|];
              job.Fold? && Tells(job.snapshot) == Shows(doc) && job.waiting == Waiting(doc)
      ensures old(Chained(View(), db.State())) ==> Chained(View(), db.State())
      ensures forall u | Unwritten(old(View()), u) :: Unwritten(View(), u)
    {
      hide Trusted, IsSnapshot, Proper, InOrder, Chained, Foresees, Recoverable, Shows, Waiting, IsWritten, Apart,
        Tells, Holds, SnapshotOf, RowsOf, Follows, RowsWritten, Compacted, OldKept, NewKept, Missed, Intact, InTime,
        Fits, OneAwaited, Database.Valid, Database.Sound, AllProper, Unwritten;
      RequestCompaction();
      ghost var d := db.State();
      db.Has(this);
      FollowsItself(d);
      NobodyWaits(stage, jobs);
      if old(Prompt()) {
        assert jobs == old(jobs) + [jobs[|old(jobs)|]];
        FoldedInTime(old(queued), old(jobs), old(sinceSnapshot), Free, Closing, compactAfter, jobs[|old(jobs)|]);
      }
      stage := Closing;
      Refits(db.h, d, d);
      db.Undisturbed(this);
    }

    /** The writer is left alone until it has caught up with the room.  If the room stands still, it
        is released. */
    method CatchUp(luck: Luck, again: Luck)
      requires db.Valid() && this in db.rooms
      modifies this`jobs, this`batch, this`folded, this`stage, this`sure,
               db`snapshot, db`snapshotSeq, db`rows, db`used, db`written, db`graves
      ensures db.Valid() && Follows(old(db.State()), db.State()) && jobs == []
      ensures old(Chained(View(), db.State()) && Intact(db.State())) ==>
                Chained(View(), db.State()) && Intact(db.State())
      ensures Missed(db.State()) <= old(Missed(db.State())) + left
      ensures luck != Unreachable ==> forall u | Unwritten(old(View()), u) ::
              Unwritten(View(), u) || IsWritten(db.written, u)
      ensures stage == if old(stage).Awaiting? then Answered(old(stage).update) else old(stage)
      ensures luck != Unreachable && old(stage).Awaiting? ==> IsWritten(db.written, old(stage).update)
    {
      hide Trusted, IsSnapshot, Proper, InOrder, Chained, Foresees, Recoverable, Shows, Waiting, IsWritten, Apart,
        Tells, Holds, SnapshotOf, RowsOf, Follows, RowsWritten, Compacted, OldKept, NewKept, Missed, Intact, InTime,
        Fits, OneAwaited, Database.Valid, Database.Sound, AllProper, Unwritten;
      FollowsItself(db.State());
      while jobs != []
        invariant db.Valid() && Follows(old(db.State()), db.State())
        invariant old(Chained(View(), db.State()) && Intact(db.State())) ==>
                    Chained(View(), db.State()) && Intact(db.State())
        invariant Missed(db.State()) <= old(Missed(db.State())) + left
        invariant luck != Unreachable ==> forall u | Unwritten(old(View()), u) ::
                  Unwritten(View(), u) || IsWritten(db.written, u)
        invariant stage == old(stage) ||
                  (old(stage).Awaiting? && stage == Answered(old(stage).update) && (luck != Unreachable ==> sure))
        decreases |jobs|
      {
        ghost var d := db.State();
        db.Has(this);
        FirstAwaited(stage, jobs);
        Take(luck, again);
        FollowsOn(old(db.State()), d, db.State());
        forall u | IsWritten(d.written, u) { StaysWritten(d, db.State(), u); }
      }
      db.Has(this);
      NobodyLeft(stage, jobs);
    }

    /** `finishPersisting`, with nobody in between: if the database answers, no recorded update is
        left unwritten. */
    method Finish(luck: Luck, again: Luck)
      requires db.Valid() && this in db.rooms && stage.Free?
      modifies this`jobs, this`batch, this`folded, this`stage, this`sure, this`sinceSnapshot, this`left, this`queued,
               db`snapshot, db`snapshotSeq, db`rows, db`used, db`written, db`graves
      ensures db.Valid() && Follows(old(db.State()), db.State()) && jobs == [] && batch == [] && stage == Closing
      ensures old(Chained(View(), db.State()) && Intact(db.State())) ==> Intact(db.State())
      ensures Missed(db.State()) <= old(Missed(db.State())) + left && left == old(left) + Waiting(doc)
      ensures luck != Unreachable ==> forall u | Unwritten(old(View()), u) :: IsWritten(db.written, u)
    {
      hide Trusted, IsSnapshot, Proper, InOrder, Chained, Foresees, Recoverable, Shows, Waiting, IsWritten, Apart,
        Tells, Holds, SnapshotOf, RowsOf, Follows, RowsWritten, Compacted, OldKept, NewKept, Missed, Intact, InTime,
        Fits, OneAwaited, Database.Valid, Database.Sound, AllProper, Unwritten;
      Close();
      CatchUp(luck, again);
      ghost var d, v := db.State(), View();
      Flush(luck);
      FollowsOn(old(db.State()), d, db.State());
      if Intact(d) { IntactStays(d, db.State()); }
      MissedIs(d, db.State());
      forall u | IsWritten(d.written, u) { StaysWritten(d, db.State(), u); }
      forall u | Unwritten(v, u) { UnwrittenIsBatch(v, u); }
    }
  }

  lemma NothingIsNothing()
    ensures forall c :: Nothing()(c) == 0
  {
  }

  lemma Genuine(h: History, w: World, l: Ledger, u: Update)
    requires Proper(h, u) && AnswerOf(h, w, l, Nothing(), u)
    ensures IsSnapshot(h, u, LeftOut(w, l))
  {
  }

  /** A job is added that nobody waits for, or one that the room will stand still for. */
  lemma Push(h: History, stage: Stage, jobs: seq<Job>, batch: seq<Update>, left: iset<ID>, job: Job)
    requires AllProper(h, jobs, batch, left) && OneAwaited(stage, jobs) && !stage.Awaiting?
    requires match job case Write(u, _) => Proper(h, u) case Fold(u, waiting) => IsSnapshot(h, u, waiting)
    ensures AllProper(h, jobs + [job], batch, if job.Fold? then left + job.waiting else left)
    ensures OneAwaited(if job.Write? && job.awaited then Awaiting(job.update) else stage, jobs + [job])
  {
    hide Proper, IsSnapshot;
  }

  lemma NobodyWaits(stage: Stage, jobs: seq<Job>)
    requires OneAwaited(stage, jobs) && !stage.Awaiting?
    ensures OneAwaited(Free, jobs) && OneAwaited(Closing, jobs)
  {
  }

  lemma NobodyLeft(stage: Stage, jobs: seq<Job>)
    requires OneAwaited(stage, jobs) && jobs == []
    ensures !stage.Awaiting?
  {
  }

  lemma FirstAwaited(stage: Stage, jobs: seq<Job>)
    requires OneAwaited(stage, jobs) && jobs != []
    ensures jobs[0].Write? && jobs[0].awaited ==> stage == Awaiting(jobs[0].update)
  {
  }

  lemma UnwrittenSame(r: RoomState, r': RoomState)
    requires r'.jobs == r.jobs && r'.batch == r.batch
    ensures forall u :: Unwritten(r, u) <==> Unwritten(r', u)
  {
  }

  lemma UnwrittenIsBatch(r: RoomState, u: Update)
    requires r.jobs == [] && Unwritten(r, u)
    ensures u in r.batch
  {
  }

  /** The first job is taken. */
  lemma Pop(h: History, stage: Stage, jobs: seq<Job>, batch: seq<Update>, left: iset<ID>)
    requires AllProper(h, jobs, batch, left) && OneAwaited(stage, jobs) && jobs != []
    ensures jobs[0].Fold? ==>
              && IsSnapshot(h, jobs[0].snapshot, jobs[0].waiting) && jobs[0].waiting <= left
              && AllProper(h, jobs[1..], batch, left) && OneAwaited(stage, jobs[1..])
    ensures jobs[0].Write? ==>
              && AllProper(h, jobs[1..], batch + [jobs[0].update], left)
              && OneAwaited(if jobs[0].awaited then Answered(jobs[0].update) else stage, jobs[1..])
  {
    hide Proper, IsSnapshot;
    assert jobs[0] in jobs && JobProper(h, jobs[0], left);
    forall j <- jobs[1..]
      ensures j in jobs
    {
    }
  }

  // ---------------------------------------------------------------- runs

  /** What can happen to a room: a local update, an update from elsewhere, a request to fold the
      log, going on after a durable write, the end; its writer taking a job, its writer's timer.
      A room that stands still or has ended takes no part in the first ones. */
  datatype Event =
    | Local(update: Update, durable: bool) | Remote(update: Update) | FoldNow | GoOn | End
    | WriterTurn | Timer

  datatype Step = Step(event: Event, luck: Luck, again: Luck)

  ghost predicate Deliverable(h: History, event: Event) {
    (event.Local? || event.Remote?) ==> Proper(h, event.update)
  }

  /** What can happen does. */
  method Happen(r: Room, step: Step)
    requires r.db.Valid() && r in r.db.rooms && Deliverable(r.db.h, step.event)
    modifies r, r.db`snapshot, r.db`snapshotSeq, r.db`rows, r.db`used, r.db`written, r.db`graves,
             r.doc, r.doc.store, r.doc.pendingDeletes
    ensures r.db.Valid() && Follows(old(r.db.State()), r.db.State())
    ensures fresh(r.doc.pendingDeletes) || r.doc.pendingDeletes == old(r.doc.pendingDeletes)
    ensures old(Chained(r.View(), r.db.State()) && Intact(r.db.State())) ==>
              Chained(r.View(), r.db.State()) && Intact(r.db.State())
    ensures Missed(r.db.State()) <= old(Missed(r.db.State())) + r.left && (old(r.Prompt()) ==> r.Prompt())
    ensures match step.event
            case Local(u, durable) =>
              old(r.stage).Free? ==>
                && Knows(r.doc) == Both(old(Knows(r.doc)), Tells(u)) && old(r.jobs) + [Write(u, durable)] <= r.jobs
                && r.stage == if durable then Awaiting(u) else Free
            case Remote(u) =>
              old(r.stage).Free? ==> Knows(r.doc) == Both(old(Knows(r.doc)), Tells(u)) && r.jobs == old(r.jobs)
            case FoldNow =>
              old(r.stage).Free? ==>
                |r.jobs| == |old(r.jobs)| + 1 && old(r.jobs) <= r.jobs && r.jobs[|old(r.jobs)|].Fold?
            case GoOn => old(r.stage).Answered? ==> r.stage == Free
            case End => old(r.stage).Free? ==> r.stage == Closing
            case WriterTurn => old(r.jobs) != [] ==> r.jobs == old(r.jobs)[1..]
            case Timer => r.batch == []
    ensures r.left == old(r.left) ||
            (!step.event.WriterTurn? && !step.event.Timer? && r.left == old(r.left) + Waiting(r.doc))
  {
    hide Trusted, IsSnapshot, Proper, InOrder, Chained, Foresees, Recoverable, Shows, Waiting, IsWritten, Tells, Holds,
      SnapshotOf, RowsOf, Follows, RowsWritten, Compacted, OldKept, NewKept, Missed, Intact, InTime, Room.Fits,
      OneAwaited, Database.Sound, AllProper, Unwritten, Buried, Knows, ReadBack, Database.Valid;
    ghost var d := r.db.State();
    FollowsItself(d);
    match step.event
    case Local(u, durable) => if r.stage.Free? { r.ApplyLocal(u, durable); }
    case Remote(u) => if r.stage.Free? { r.Hear(u); }
    case FoldNow => if r.stage.Free? { r.RequestCompaction(); }
    case GoOn => if r.stage.Answered? { r.Resume(); }
    case End => if r.stage.Free? { r.Close(); }
    case WriterTurn =>
      if r.jobs != [] {
        if r.Prompt() { TakenInTime(r.queued, r.jobs, r.sinceSnapshot, r.stage, r.compactAfter); }
        r.db.Has(r);
        FirstAwaited(r.stage, r.jobs);
        r.Take(step.luck, step.again);
      }
    case Timer =>
      r.Flush(step.luck);
      if Intact(d) { IntactStays(d, r.db.State()); }
      MissedIs(d, r.db.State());
  }

  ghost predicate AllPrompt(rooms: set<Room>)
    reads rooms
  {
    forall r <- rooms :: r.Prompt()
  }

  /** Any interleaving of any number of rooms.  No row is ever rewritten, the snapshot never goes
      back, what every room is about to write stays right; and every row that was ever written is
      still there, or was deleted in a transaction that wrote a snapshot which holds it, but for
      units that were waiting when that snapshot was encoded.  Every room folds its log in time. */
  method Interleave(db: Database, steps: seq<(Room, Step)>)
    requires db.Valid() && forall s <- steps :: s.0 in db.rooms && Deliverable(db.h, s.1.event)
    modifies db`snapshot, db`snapshotSeq, db`rows, db`used, db`written, db`graves, db.rooms,
             (set r <- db.rooms :: r.doc), (set r <- db.rooms :: r.doc.store),
             (set r <- db.rooms :: r.doc.pendingDeletes)
    ensures db.Valid() && Follows(old(db.State()), db.State())
    ensures forall s <- db.written :: s in db.rows || (s in db.graves && InGrave(db.graves[s], db.written[s]))
    ensures forall s <- db.graves :: IsSnapshot(db.h, db.graves[s].snapshot, db.graves[s].waiting)
    ensures forall s <- old(db.rows) :: (s in db.rows && db.rows[s] == old(db.rows)[s]) || s in db.graves
    ensures old(AllPrompt(db.rooms)) ==> AllPrompt(db.rooms)
  {
    hide Trusted, IsSnapshot, Proper, InOrder, Chained, Foresees, Recoverable, Shows, Waiting, IsWritten, Tells, Holds,
      SnapshotOf, RowsOf, Follows, RowsWritten, Compacted, OldKept, NewKept, Missed, Intact, InTime, Room.Fits,
      OneAwaited, Database.Sound, AllProper, Unwritten, Buried, Knows, ReadBack;
    FollowsItself(db.State());
    db.Books();
    for i := 0 to |steps|
      invariant db.Valid() && Follows(old(db.State()), db.State())
      invariant forall r <- db.rooms :: fresh(r.doc.pendingDeletes) || r.doc.pendingDeletes == old(r.doc.pendingDeletes)
      invariant old(AllPrompt(db.rooms)) ==> AllPrompt(db.rooms)
    {
      assert steps[i] in steps;
      ghost var d := db.State();
      Happen(steps[i].0, steps[i].1);
      FollowsOn(old(db.State()), d, db.State());
    }
    db.Books();
    RowsStayOrGo(old(db.State()), db.State());
  }

  lemma RowsStayOrGo(d: Stored, d': Stored)
    requires RowsWritten(d) && RowsWritten(d') && Buried(d') && Follows(d, d')
    ensures forall s <- d.rows :: (s in d'.rows && d'.rows[s] == d.rows[s]) || s in d'.graves
    ensures forall s <- d'.written :: s in d'.rows || (s in d'.graves && InGrave(d'.graves[s], d'.written[s]))
  {
    hide InGrave;
  }

  /** Something was waiting when one of the rooms encoded a snapshot. */
  ghost predicate LeftBy(rooms: set<Room>, x: ID)
    reads rooms
  {
    exists r <- rooms :: x in r.left
  }

  /** One room at a time, over any number of sessions, each of which may end in a crash: every
      update that was ever written has been told to the document the next room loads, but for
      units that were waiting when one of these rooms encoded a snapshot, or were missed before.
      If nothing ever was, every update has been told whole. */
  method Sessions(db: Database, sessions: seq<seq<Step>>) returns (last: Room)
    requires db.Valid() && Intact(db.State())
    requires forall steps <- sessions :: forall s <- steps :: Deliverable(db.h, s.event)
    modifies db
    ensures db.Valid() && Intact(db.State()) && Follows(old(db.State()), db.State()) && old(db.rooms) <= db.rooms
    ensures last in db.rooms && Trusted(last.doc) && Knows(last.doc) == ReadBack(db.State())
    ensures forall s <- db.written :: Holds(Knows(last.doc), Tells(db.written[s]), Missed(db.State()))
    ensures forall x <- Missed(db.State()) :: x in old(Missed(db.State())) || LeftBy(db.rooms - old(db.rooms), x)
    ensures old(Missed(db.State())) == iset{} && (forall r <- db.rooms - old(db.rooms) :: r.left == iset{}) ==>
              forall s <- db.written :: Holds(Knows(last.doc), Tells(db.written[s]), iset{})
  {
    hide Trusted, IsSnapshot, Proper, InOrder, Chained, Foresees, Recoverable, Shows, Waiting, IsWritten, Tells, Holds,
      SnapshotOf, RowsOf, Follows, RowsWritten, Compacted, OldKept, NewKept, Missed, Intact, InTime, Room.Fits,
      OneAwaited, Database.Sound, AllProper, Unwritten, Buried, Knows, ReadBack, Database.Valid;
    FollowsItself(db.State());
    for i := 0 to |sessions|
      invariant db.Valid() && Intact(db.State()) && Follows(old(db.State()), db.State()) && old(db.rooms) <= db.rooms
      invariant forall x <- Missed(db.State()) :: x in old(Missed(db.State())) || LeftBy(db.rooms - old(db.rooms), x)
    {
      var r := new Room(db, 500);
      for j := 0 to |sessions[i]|
        invariant db.Valid() && Intact(db.State()) && Follows(old(db.State()), db.State()) && old(db.rooms) <= db.rooms
        invariant r in db.rooms && r !in old(db.rooms) && r.db == db && fresh(r.doc.pendingDeletes)
        invariant Chained(r.View(), db.State())
        invariant forall x <- Missed(db.State()) :: x in old(Missed(db.State())) || LeftBy(db.rooms - old(db.rooms), x)
      {
        assert sessions[i] in sessions && sessions[i][j] in sessions[i];
        ghost var d := db.State();
        Happen(r, sessions[i][j]);
        FollowsOn(old(db.State()), d, db.State());
      }
    }
    last := new Room(db, 500);
    AllRecovered(db.State());
    if old(Missed(db.State())) == iset{} && forall r <- db.rooms - old(db.rooms) :: r.left == iset{} {
      assert Missed(db.State()) == iset{};
    }
  }

  lemma AllRecovered(d: Stored)
    requires Intact(d)
    ensures forall s <- d.written :: Holds(ReadBack(d), Tells(d.written[s]), Missed(d))
  {
    hide Holds, ReadBack, Tells, Missed;
  }
}
