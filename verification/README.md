# A verified model of the ycollab collaboration server

This project models the hard core of ycollab, a Yjs-compatible collaboration server, and proves
what it promises: documents that converge whatever happens to the messages, a sync exchange that
always integrates, deletions that are neither lost nor invented, a log whose compaction loses
nothing but what was waiting, replicas on a lossy bus that catch up and do not echo each other,
presence that is a join of what was heard, a byte codec that settles after one round trip, and a
shutdown that forgets nobody. Where a promise of the code does not hold, there is a run that breaks it and the
exact condition under which it does hold.

`dafny verify dfyconfig.toml` checks everything.

## How it is built

**Order theory.** `Yata` describes a unit of a list by its id, its origin and its right origin,
down to the ends of the list, and defines the reference order: a walk of the origin tree with
siblings ordered by client, except where one was inserted to the left of the other.
The conflict scan of the engine is proved to compute exactly this order for
arbitrary right origins, under one condition (`WellPlaced`) that every editor fulfils
(`LocalInsert`, `Authors.TypingKeepsHonesty`) and that cannot be dropped (`IllPlacedDiverges`).
That a unit lands between its neighbours needs no condition at all (`LandsBetween`).

**The engine.** `Items` is the memory of a document: an arena of items with `prev` and `next`
links, the gapless structs of every client, and for every list the item it hangs off: the first one of
a sequence, the last one of the entries under a map key. `Placing` translates between
items (runs of units) and units. `Store.StructStore` is the struct store with its binary search,
its splitting and the conflict scan as loops over links. `Docs.Doc` is the document: `resolve`,
`integrateItem`, the queue loops, `retryPending`, deletions and what is sent to peers.

**What the engine is fed.** A `History` names one operation per id; a struct `Fits` a history if its
units are the operations its ids name. Everything the engine does is proved for any lawful
history, including items that refer to collected content and slices that cannot be cut. Where
the result needs well-behaved clients the history is `Honest`: references exist, pairs are not
split, insertions are between adjacent units, and collected content is not referred to.

**What is kept over every run.** `Schedules` says which structs a state vector enables and that the
closed vectors have a least one. `Ledgers` is the bookkeeping of a document: what has arrived,
what was integrated, what was dropped, which deletions have been named. `Steps` and `Convergence`
are the step lemmas. `Doc.Valid` is the invariant, `Doc.Settled` what holds between updates.

**Replicas.** `Replicas` and `Sync` compare documents: strong eventual consistency, the diff that
never gets stuck, anti-entropy, the snapshot that rebuilds a document.

**Storage and the bus.** `Logs` says what updates, documents and a database tell, as values: units and
deletions. `Durability` is the database and the rooms that write to it; a room holds a document, rows
are updates and snapshots are what the document encodes. `Fanout` is a cluster of documents on a bus
that loses what it likes.

**Bytes.** `Varints`, `Floats`, `Anys`, `Codec` (the wire format as functions), `Writing` (the encoder),
`Format` (which bytes stand for what, with updates that Yjs itself has written) and `Intake` (what decoded
bytes say, and applying them).

**Readers.** `Reading` is what a reader of a document sees, a sequence or the value under a key. `Typing` goes
all the way: from the bytes a client sends to the text that is read.

**Around the engine.** `DeleteSets`, `MapKeys` (which write to a key wins), `Presence` (awareness), `Shutdown`
(the room's handover), `Utf16` (text lengths and cuts). `Incidents` holds a concrete run for every
promise that has a condition.

## Where code and comments disagree

* A snapshot tells what the document has integrated, not what is waiting, but a room records an update
  whether or not it could be integrated (`internal/room/room.go:602-611`). A compaction while an update
  waits deletes the only copy of it (`Incidents.EarlyBird`), although the rows it deletes are said to be
  the ones the snapshot covers (`internal/store/store.go:310-311`). A snapshot holds an update the document
  has been told if and only if none of its structs is waiting (`Logs.SnapshotHolds`).
* A compaction that finds a newer snapshot drops its own rows from its list because "theirs" is
  said to contain everything "ours" does (`internal/room/persist.go:282-286`). Only sequence numbers
  are compared, so this need not be so, and a later snapshot may replace an earlier one that held
  an update the later one lacks. `Incidents.TwoWriters` is such a run of two rooms, with nothing waiting.
* Both together: a compaction of a log from which everything can be read back leaves it so if and only if
  what only the replaced snapshot could still tell of rows deleted before can be read back afterwards, and
  no row deleted now has a unit that was waiting and is in no remaining row (`Logs.CompactIsExact`,
  `Durability.Room.Fold`). When one room writes at a time the first half always holds, and nothing is
  missed but what was waiting when some room encoded a snapshot; if nothing ever was, nothing is missed
  (`Durability.Sessions`).
* `deleteRange` marks the units of a range, but at an end that cuts a surrogate pair it marks too
  much or too little (`Incidents.HalfRange`, `Incidents.HalfDeleted`). `Docs.Doc.DeleteRange` states both
  directions.
* An item sent from inside a surrogate pair goes out whole, under the wrong clock
  (`internal/crdt/content.go:156-160`, `Incidents.HalfSent`). `Wire.SentFits` states both directions.
* `integrateItem` returns without storing when the sender's slice overlaps what is stored and the unit
  before the new part has been collected or is half a pair (`Incidents.DroppedSlice`). `Histories.Lost` is
  that condition, `Steps.StepMoves` says that exactly then the client's clock does not move,
  `Docs.Doc.ApplyUpdate` that nothing else is ever dropped, and `Convergence.NeverLost` that it does not
  happen with honest clients.
* Encoding is said to be a fixed point (`internal/crdt/update_test.go:263-268`). A double that is negative
  zero is written as an integer with a sign, read as an integer without, and then written without.
  `Codec.FixedPoint` says for every input that this is the only exception, and that what has been through
  one round trip is a fixed point.

## Model

| member | source | states |
|---|---|---|
| Yata.TurnIsRight | internal/crdt/doc.go:389-405 | every turn of the conflict scan keeps the unit's right place ahead, or stops at it |
| Yata.ScanIsRight | internal/crdt/doc.go:372-408 | the scan ends where the reference order puts the unit, for arbitrary right origins |
| Yata.InsertKeepsOrder | internal/crdt/doc.go:316-347 | inserting at the scanned place keeps the list in the reference order and adds exactly that unit |
| Yata.Convergence | internal/crdt/doc.go:289-347 | any two dependency-respecting orders of the same units build the same list |
| Yata.SortedListsAgree | internal/crdt/doc.go:372-408 | the reference order determines the list from its units |
| Yata.NoReordering | internal/crdt/doc.go:316-345 | inserting never reorders what was there |
| Yata.LandsBetween | internal/crdt/doc.go:372-408 | in any list, whatever its order, any unit lands after its origin, and before its right origin if that follows the origin |
| Yata.StandsBetween | internal/crdt/doc.go:316-345 | after the insertion it stands strictly between them |
| Yata.LocalInsert | internal/crdt/doc.go:372-408 | what is typed between adjacent units is well placed and stays where it was typed |
| Yata.EqualRightOrigins | internal/crdt/doc.go:393-399 | with one right origin, siblings go by ascending client id |
| Yata.IllPlacedDiverges | internal/crdt/doc.go:389-405 | without the placement condition two delivery orders give different lists (concrete units) |
| Yata.RunStaysTogether | internal/crdt/doc.go:316-347 | inserting the units of one item one by one gives them one contiguous place, that of the first |
| Yata.RunKeepsOrder | internal/crdt/doc.go:289-347 | inserting a whole item keeps the reference order |
| Placing.ItemTurnIsTurn | internal/crdt/doc.go:389-405 | a turn of the scan over an item is the turns of the reference scan over its units |
| Placing.ItemStep | internal/crdt/doc.go:389-406 | stepping over an item advances the reference scan over all its units, or ends both |
| Items.SplitKeepsSane | internal/crdt/structstore.go:172-213 | cutting an item keeps links, gapless structs and every unit's record sound |
| Items.SplitKeepsOrder | internal/crdt/structstore.go:172-213 | cutting an item leaves the units of every list as they were |
| Items.CoveringIsUnique | internal/crdt/structstore.go:82-95 | one struct covers a clock, so any search finds the same one |
| Items.InsertKeepsSane | internal/crdt/doc.go:322-347 | linking a new item in and appending it keeps the document sound |
| Items.InsertOrder | internal/crdt/doc.go:322-347 | the new item's units appear at its place in its list and nowhere else |
| Store.StructStore.Find | internal/crdt/structstore.go:82-95 | finds the struct covering a clock, and fails exactly at or past the client's state |
| Store.StructStore.SplitItem | internal/crdt/structstore.go:172-213 | succeeds exactly off pairs; units, facts, deletions, order and states stay, and a key still hangs off its last item |
| Store.StructStore.CleanStart | internal/crdt/structstore.go:125-144 | an item starting exactly at the id, exactly if the unit is stored and not the second half of a pair; only cutting happens |
| Store.StructStore.CleanEnd | internal/crdt/structstore.go:148-166 | an item ending exactly after the id, exactly if the unit is stored and not the first half of a pair |
| Store.StructStore.ItemAt | internal/crdt/doc.go:413-419 | the item holding a unit, or none if no item holds it |
| Store.StructStore.Append | internal/crdt/structstore.go:69-76 | succeeds exactly at the client's state; integration only ever calls it there |
| Store.StructStore.Judge | internal/crdt/doc.go:389-405 | the case split of the conflict scan, with its two sets, is the turn over items |
| Store.StructStore.ResolveConflict | internal/crdt/doc.go:372-408 | the loop over links and sets returns the item after which the reference order puts the unit |
| Store.StructStore.FindPlace | internal/crdt/doc.go:316-320 | skipping the scan when the neighbourhood is intact gives the same place |
| Store.StructStore.First | internal/crdt/doc.go:422-427 | the first item of a list; under a key, reached by walking left from the last one |
| Store.StructStore.LinkItem | internal/crdt/doc.go:316-362 | the item's units are inserted in order and recorded; they are marked exactly if born deleted or written under a key but not rightmost; a rightmost write marks exactly the last item under the key and nothing else |
| Store.StructStore.Get | internal/crdt/ymap.go:43-55 | the cell of the last unit of the key's list, or nothing exactly if there is none or it is deleted |
| Store.StructStore.DeleteItem | internal/crdt/doc.go:440-445 | marks the item's units deleted and nothing else; a deleted item stays so |
| Store.StructStore.Bury | internal/crdt/doc.go:309-314 | occupies a clock range without content |
| Schedules.LeastIsUnique | internal/crdt/doc.go:101-196 | the least closed state vector is unique |
| Schedules.StepKeepsLeast | internal/crdt/doc.go:118-142 | integrating an enabled struct stays below every closed vector |
| Steps.StepGrows | internal/crdt/doc.go:289-363 | integrating anything keeps what is stored, deletions, states and the order of every list |
| Steps.WovenBetween | internal/crdt/doc.go:316-345 | in a document the units of a new item stand together, after the origin, and before the right origin if that follows it |
| Steps.StepBetween | internal/crdt/doc.go:289-345 | the same for every step of integration |
| Steps.StepMoves | internal/crdt/doc.go:274-314 | a step takes its client to the end of the struct, or is dropped and moves nobody |
| Steps.StepMarks | internal/crdt/doc.go:349-362 | of the new units those without content and those under a deleted item are marked, and in a list without keys no others; nothing else is marked that does not call for it |
| Steps.IntegratedOneValue | internal/crdt/doc.go:326-362 | if every entry of every key but the rightmost was deleted, it still is after a write of one value under any key, wherever the write lands |
| Steps.StepEntries | internal/crdt/doc.go:289-362 | no step marks the value of a key unless it never had content or its type is deleted; with one value per entry, every key keeps one live entry at most |
| MapKeys.KeyHasOneValue | internal/crdt/doc.go:335-344 | in every reachable document whose map entries hold one value each, every entry of a key but the rightmost is deleted |
| MapKeys.LaterWriteWins | internal/crdt/doc.go:335-344 | a write by someone who saw the current value becomes the value |
| MapKeys.HigherClientWins | internal/crdt/doc.go:393-396 | of two concurrent writes the one of the higher client is further right |
| Convergence.NeverLost | internal/crdt/doc.go:290-307 | with honest clients no slice is dropped |
| Convergence.AlwaysAttachable | internal/crdt/doc.go:220-272 | with honest clients an item whose dependencies are there finds its neighbours and its list |
| Convergence.StepFaithful | internal/crdt/doc.go:289-363 | with honest clients every passed operation is stored live and every list is in the reference order |
| Docs.Doc.Resolve | internal/crdt/doc.go:202-272 | reports "not yet" exactly if a unit of another client is missing, and then changes nothing; finds list and neighbours exactly if they are there to attach to |
| Docs.Doc.FindParent | internal/crdt/doc.go:244-271 | the list inherited or named is the one the history says |
| Docs.Doc.IntegrateItem | internal/crdt/doc.go:289-363 | stores the new part of an item, buries it, or drops it, as `Stepped` says |
| Docs.Doc.Turn | internal/crdt/doc.go:119-142 | a struct is consumed exactly if it is not stuck; a stuck one changes nothing |
| Docs.Doc.Drain | internal/crdt/doc.go:116-144 | a queue is consumed up to the first struct that has to wait |
| Docs.Doc.Round | internal/crdt/doc.go:115-147 | a round without progress changes nothing and leaves every head stuck; otherwise the queues shrink |
| Docs.Doc.Enqueue | internal/crdt/doc.go:105-112 | one queue per client, blocks of a client one after the other |
| Docs.Doc.Leftover | internal/crdt/doc.go:150-164 | the rest of the queues as blocks |
| Docs.Doc.Integrate | internal/crdt/doc.go:101-165 | terminates; every consumed struct is done, the head of every rest is blocked against the final store; nothing consumed means nothing changed |
| Docs.Doc.RetryRound | internal/crdt/doc.go:169-189 | one pass over the pending updates; the count falls or nothing moved |
| Docs.Doc.RetryStructs | internal/crdt/doc.go:168-190 | afterwards every pending head is blocked and everything that arrived is accounted for |
| Docs.Doc.ApplyUpdate | internal/crdt/doc.go:92-97 | keeps the document valid, settles it, only grows it, and books exactly what arrived; what is newly booked as integrated or dropped had its turn in between, where it was not or was to be dropped, and every new unit is of a struct booked as integrated; what arrives under an item that was deleted is deleted |
| Ledgers.EnteredBooked | internal/crdt/doc.go:118-142 | after every step the state vector is the least one closed under what was integrated |
| Ledgers.RestIsLeast | internal/crdt/doc.go:92-196 | at rest the state vector is the least one closed under everything that arrived and was kept |
| Docs.Doc.DeleteEntry | internal/crdt/doc.go:488-507 | one struct is marked up to the end of the range, cut there if need be |
| Docs.Doc.DeleteRange | internal/crdt/doc.go:473-508 | marks exactly the stored units of the range if and only if neither end cuts a pair that is still there |
| Deletions.ExactMeansLegal | internal/crdt/doc.go:473-508 | exact marking is impossible when an end cuts a live pair, whatever the code did |
| Docs.Doc.ApplyRange | internal/crdt/doc.go:457-469 | what has arrived is deleted, exactly the rest of the range becomes pending |
| Docs.Doc.ApplyDeletes | internal/crdt/doc.go:451-471 | pending gains exactly the named units that have not arrived; the stored ones are marked |
| Docs.Doc.RetryDeletes | internal/crdt/doc.go:191-195 | what has arrived since is marked; what stays pending lies at or past the client's state |
| Docs.Doc.RetryPending | internal/crdt/doc.go:168-196 | afterwards pending deletions name only clocks at or past the client's state |
| Docs.Doc.KnownDeletes | internal/crdt/doc.go:512-533 | exactly the deleted and the collected units |
| Docs.Doc.AdvertisedDeletes | internal/crdt/doc.go:547-555 | exactly the deleted, the collected and the pending units |
| Ledgers.TalliedDelete | internal/crdt/doc.go:451-471 | over a run, what deletions named is marked, pending or collected, and nothing else is marked |
| Ledgers.TalliedRetry | internal/crdt/doc.go:191-195 | retrying pending deletions keeps that account |
| Sync.NamedIsAdvertised | internal/crdt/doc.go:536-555 | every range ever applied is advertised |
| Sync.Apply | internal/crdt/doc.go:92-97 | what is advertised never shrinks, whatever arrives; what arrives under a deleted item is advertised as deleted |
| Replicas.TalliedMeansNamed | internal/crdt/doc.go:440-471 | between updates a unit of a sequence, or the value of a key, of a type that is not deleted is deleted exactly if it was named or never had content |
| Wire.SentFits | internal/crdt/struct.go:116-151 | the part of an item that is sent is what the history says, if and only if the cut is not inside a pair |
| Wire.TailIsComplete | internal/crdt/doc.go:561-586 | a diff is in clock order, covers every unit from the peer's state to the sender's, and nothing beyond |
| Docs.Doc.EncodeStateAsUpdate | internal/crdt/doc.go:561-586 | per client that is ahead the tail from the peer's clock, highest client first, and the advertised deletions in normal form |
| Docs.Doc.StateVector | internal/crdt/structstore.go:44-52 | gives every client's next clock; a client it leaves out stands at zero |
| Replicas.SlicingIsIrrelevant | internal/crdt/doc.go:202-218 | whether the next unit can be integrated does not depend on how it is sliced |
| Replicas.SameVector | internal/crdt/doc.go:92-196 | replicas that know the same units, in any slices, order, batches and repetition, have the same state vector, if neither dropped or collected an operation, as with honest clients |
| Replicas.SameOrder | internal/crdt/doc.go:289-408 | replicas that store the same units list them in the same order |
| Replicas.CatchesUp | internal/crdt/doc.go:561-586 | a document that knows another's tail from a vector it has reached gets at least as far as the other |
| Replicas.SameValue | internal/crdt/ymap.go:43-55 | replicas with the same entries, deleted as they were told, read the same value under every key of a type that is not deleted in either |
| Reading.ReadSequence | internal/crdt/type.go:80-105 | the walk along the links gives the content of the items that are not deleted, in order |
| Reading.ReadText | internal/crdt/ytext.go:26-46 | a reader of a sequence of a type that is not deleted sees the content of exactly those units that no deletion has named and that have content, each once and in the order of the list |
| Reading.WriteIsRead | internal/crdt/doc.go:334-343 | a write that goes to the end of a key's entries, has content and is not under a deleted item is the value afterwards |
| Reading.ReadKey | internal/crdt/ymap.go:43-55 | nothing is read under a key if and only if it has no entry, a deletion has named the last one or that has no content; otherwise the last one's cell, which with one value per entry is the only entry that is not deleted |
| Sync.StrongConvergence | internal/crdt/convergence_test.go:150-175 | replicas told the same operations and deletions have equal vectors, units, orders, and the same visible content of sequences and values of keys of every type that is not deleted in either |
| Sync.KeysAlike | internal/crdt/doc.go:326-362 | with one value per map entry they also mark the same entries of the keys of such types |
| Sync.DiffIsProper | internal/crdt/doc.go:561-586 | what a document answers is clean, in clock order, and cuts no pair |
| Sync.Absorb | internal/room/fanout.go:156-175 | a delayed answer leaves nothing of itself waiting, takes the receiver at least as far as the sender was, and its deletions are advertised from then on |
| Sync.Answer | internal/room/fanout.go:204-216 | the answer to a state vector is everything the document has from there on and every deletion it advertises; it is empty if and only if the sender is missing nothing and nothing is advertised |
| Sync.Pull | internal/crdt/doc.go:561-596 | one exchange leaves nothing of itself waiting, reaches both state vectors, and advertises what both advertised |
| Sync.AntiEntropy | internal/room/fanout.go:204-240 | one announcement and its answers take a replica as far as every peer, and it advertises every deletion they do |
| Sync.Exchange | internal/crdt/doc.go:561-596 | after a two-way exchange both replicas are alike |
| Sync.Rebuild | internal/room/persist.go:75-96 | applying a snapshot to an empty document gives the same document |
| Authors.TypingKeepsHonesty | internal/crdt/doc.go:366-408 | whatever a client types into a document that agrees with the history, the history stays honest |
| DeleteSets.DeleteSet.Add | internal/crdt/deleteset.go:44-65 | normal form is kept; the units are the old ones and the range |
| DeleteSets.DeleteSet.IsDeleted | internal/crdt/deleteset.go:68-73 | the binary search is exact membership |
| DeleteSets.NormalIsCanonical | internal/crdt/deleteset.go:41-43 | equal unit sets have equal ranges, so adding is order-independent and idempotent |
| DeleteSets.SortByClock | internal/crdt/deleteset.go:52 | sorts the array in place and keeps its contents |
| DeleteSets.Merge | internal/crdt/deleteset.go:53-63 | merges in place to the normal form of the same units |
| DeleteSets.SortAndMerge | internal/crdt/deleteset.go:44-65 | the normal form of any ranges, covering the same clocks |
| Presence.JoinLaws | internal/protocol/awareness.go:171-177 | the acceptance rule is idempotent, commutative and associative where a client has one state per clock |
| Presence.GreatestIsUnique | internal/protocol/awareness.go:222-224 | the join of what was heard does not depend on order or repetition |
| Presence.PresenceConverges | internal/protocol/awareness.go:178-255 | trackers that heard the same of a client hold the same of it |
| Presence.Awareness.Hear | internal/protocol/awareness.go:193-249 | a report is refused without effect exactly if a number is out of range, its state too large or one client too many would be present; it is accepted exactly if its clock is later, or equal and it removes a present state; limits and the counter hold |
| Presence.Awareness.RefusedExactly | internal/protocol/awareness.go:193-224 | for which reason a report is refused, each in terms of its numbers, its state and who is present |
| Presence.Awareness.Apply | internal/protocol/awareness.go:178-255 | the reports are heard one after the other up to the first that is refused, each doing exactly what one report does, whatever is forgotten on the way; the error is that refusal, or says that the rest does not decode; the clients whose mark moved are reported in order; with no client limit exactly the heard prefix is joined |
| Presence.Awareness.ForgetOldest | internal/protocol/awareness.go:334-352 | always finds a removed entry when it must; drops only removed ones, oldest first, and no more than it has to |
| Presence.Awareness.Encode | internal/protocol/awareness.go:260-277 | clock and state held of the given clients, no state after a removal, zero for the unknown |
| Presence.Awareness.Remove | internal/protocol/awareness.go:365-381 | states go, clocks stay, and the announcement says so |
| Presence.Awareness.RemoveClients | internal/protocol/awareness.go:318-329 | exactly the present ones of the given clients are removed |
| Presence.Awareness.Sweep | internal/protocol/awareness.go:292-313 | exactly the silent clients are removed, listed in ascending order, and exactly the long-removed ones forgotten |
| Presence.Relay | internal/protocol/awareness.go:260-277 | an encoded entry applied at a peer is the join of both |
| Logs.SnapshotTells | internal/room/persist.go:157-168 | a snapshot tells exactly the units the document has integrated and the deletions it advertises |
| Logs.WaitingIsPending | internal/crdt/doc.go:150-164 | an update the document has been told has a unit that is not integrated if and only if one of its structs is waiting |
| Logs.SnapshotHolds | internal/room/persist.go:157-168 | the snapshot holds an update if and only if none of its structs is waiting; its deletions always |
| Logs.CompactRecovers | internal/store/store.go:330-430 | if the new snapshot tells what the old one told, everything can still be read back but for what was waiting when a snapshot was encoded that took rows in |
| Logs.CompactIsExact | internal/store/store.go:330-430 | whoever else writes snapshots, nothing is lost if and only if what only the replaced snapshot could still tell can be read back, and no row deleted now has a unit that was waiting and is in no remaining row |
| Logs.CompactMisses | internal/store/store.go:330-430 | a compaction adds at most what was waiting to what is missed, and exactly that if it deletes a row |
| Logs.ToldMore | internal/crdt/doc.go:92-196 | a document that has been told at least as much is at least as far, and advertises every deletion the other was told |
| Logs.LoadIsComplete | internal/room/persist.go:75-96 | a document loaded from a recoverable database is at least as far as any that has only been told what was written |
| Durability.Database.Append | internal/store/store.go:283-308 | new rows under new numbers, in no particular order; nothing else changes |
| Durability.Database.Compact | internal/store/store.go:330-430 | lands exactly if it moves the sequence forward; the snapshot is replaced and exactly the named rows are deleted; every row is still there or was deleted with the writing of a snapshot that held it, but for what was waiting when that snapshot was encoded |
| Durability.Load | internal/room/persist.go:75-96 | the loaded document has been told exactly what the database keeps, and has integrated the snapshot |
| Durability.Room.constructor | internal/room/persist.go:75-105 | a room starts with the loaded document and all rows to fold; a threshold that is not positive means 500 |
| Durability.Room.Flush | internal/room/persist.go:188-219 | the batch becomes rows, or the database fails and the updates are only with the clients |
| Durability.Room.Fold | internal/room/persist.go:266-292 | the snapshot holds a row it deletes if and only if no unit of the row was waiting when it was encoded; a log that was complete stays so if and only if what the replaced snapshot told of rows deleted before can still be read back and nothing that waited is missing from the remaining rows; the list of rows is emptied exactly if the database answered |
| Durability.Room.Take | internal/room/persist.go:229-259 | with a single writer the log stays recoverable but for what was waiting, and no more is missed than waited when this room encoded a snapshot; no recorded update is dropped unless the database fails |
| Durability.Room.RequestCompaction | internal/room/persist.go:157-168 | the queued snapshot tells what the document shows, and is remembered with exactly what was waiting |
| Durability.Room.ApplyLocal | internal/room/persist.go:123-148 | the update is applied and handed over; at the threshold a snapshot that tells what the document shows is handed over after it and the count starts again; with durable writes the room stands still |
| Durability.Room.Recorded | internal/room/persist.go:144-147 | the log is folded exactly when the count reaches the threshold: a snapshot of what the document shows is handed over and the count starts again, or the count goes up by one |
| Durability.Room.Resume | internal/room/persist.go:134-142 | when the room goes on, the update it stood still for is on disk, unless the database was unreachable; it is counted, and at the threshold a snapshot is handed over |
| Durability.Room.CatchUp | internal/room/persist.go:188-259 | a writer left alone releases the room and leaves no job |
| Durability.Room.Finish | internal/room/persist.go:308-318 | on shutdown every recorded update is written |
| Durability.Happen | internal/room/persist.go:123-259 | whatever can happen to a room or its writer has its effect, and keeps what every run keeps |
| Durability.Interleave | internal/store/store.go:283-430 | over any interleaving of any number of rooms, durable waits included, every row ever written is still there or was deleted in a transaction whose snapshot holds it, but for what was waiting in the document that encoded that very snapshot; rows are never rewritten and the snapshot sequence never decreases; every room that serves has handed over fewer updates than the threshold since its last snapshot |
| Durability.Sessions | internal/room/persist.go:75-168 | one room at a time, over any number of sessions and crashes, the next load has been told every update ever written, but for units that were waiting when one of the rooms encoded a snapshot; if none ever were, it has been told all of them whole |
| Incidents.EarlyBird | internal/room/persist.go:157-168 | an update that was written while it waited is unknown to the next room (a run of one room) |
| Incidents.TwoWriters | internal/store/store.go:389-408 | with two writing rooms a written update can be lost although nothing waited (a run of two rooms) |
| Incidents.HalfDeleted | internal/crdt/doc.go:473-508 | after a deletion that names half a pair it is not so that exactly what was named is deleted (a run) |
| Incidents.HalfRange | internal/crdt/doc.go:473-508 | the same for one range (a run) |
| Incidents.HalfSent | internal/crdt/content.go:156-160 | a peer that stands inside a pair is sent what the history does not say (a run) |
| Incidents.DroppedSlice | internal/crdt/doc.go:290-307 | two updates after which an item whose first letter has been collected is dropped and its clock is not taken (a run) |
| Fanout.Cluster.Bounded | internal/room/fanout.go:70-145 | update envelopes never exceed local edits plus announcements times the other replicas, and each is applied once at most by every other replica |
| Fanout.Run | internal/room/fanout.go:70-240 | over any run, whatever is lost, dropped and reordered, no document goes back, every replica advertises every deletion of what it has applied and is at least as far as every document whose answer it asked for and applied, and updates do not circulate: the number applied is bounded by the edits and announcements of the run and the number of replicas |
| Fanout.Cluster.LocalUpdate | internal/room/room.go:602-626 | the update is applied and exactly one envelope is queued, none exactly if the queue is full |
| Fanout.Cluster.Announce | internal/room/fanout.go:226-240 | if there are connections and the interval has passed, the time is noted and, if the queue has room, exactly one announcement of the vector the document has reached is queued; otherwise nothing happens |
| Fanout.Cluster.Send | internal/room/fanout.go:120-133 | one delivery per subscriber, or none and the envelope is gone |
| Fanout.Cluster.Deliver | internal/room/fanout.go:74-91 | one's own envelope is dropped, a full queue drops, any other is queued, and nothing else changes |
| Fanout.Cluster.TakeUpdate | internal/room/fanout.go:136-175 | an update is applied and never published again; an answer to a vector this replica announced, however long ago, takes it as far as the answering document was and leaves nothing of itself waiting; every deletion the answering document advertised is advertised from then on |
| Fanout.Cluster.TakeVector | internal/room/fanout.go:200-216 | a state vector goes unanswered if and only if its sender is missing nothing and nothing is advertised as deleted; otherwise, if the queue has room, exactly one answer is queued, with what its sender is missing and every deletion advertised |
| Fanout.Happens | internal/room/fanout.go:70-240 | whatever can happen in a cluster has its effect, and keeps what every run keeps |
| Shutdown.Room.HandoverIsTotal | internal/room/room.go:753-806 | when `stop` has returned, for each accepted Join its connection has left or been closed, once per Join, Joins of connected connections aside |
| Shutdown.Room.Enter | internal/room/room.go:358-363 | a closed room refuses; otherwise the sender holds the lock |
| Shutdown.Room.Put | internal/room/room.go:364-366 | an accepted command is in the mailbox, and a Join is counted |
| Shutdown.Room.GiveUp | internal/room/room.go:367-370 | a sender waiting for space is released once `done` is closed |
| Shutdown.Room.Handle | internal/room/room.go:429-455 | which connections each command adds, sees leave and closes, slow ones included; every accepted Join stays accounted for once |
| Shutdown.Room.CloseConnections | internal/room/room.go:766-774 | stopping begins by closing exactly the connections the room has |
| Shutdown.Room.Drain | internal/room/room.go:792-805 | of what was accepted and never handled exactly the joining connections are closed |
| Shutdown.Room.Finish | internal/room/room.go:766-806 | from any point of stopping, whoever holds the lock, the end can be reached, no accepted command is taken back, and exactly the Joins left in the mailbox are closed on the way |
| Varints.UintReads | internal/crdt/lib0/encoder.go:61-74 | up to 2^53-1, reading what was written followed by anything gives the value and stops there |
| Varints.UintRoundTrip | internal/crdt/lib0/decoder.go:54-69 | the loop's sums and weights never wrap around on written bytes |
| Varints.IntReads | internal/crdt/lib0/encoder.go:83-114 | the same for signed numbers |
| Varints.Encoder.WriteVarUint | internal/crdt/lib0/encoder.go:61-74 | appends the encoding, or fails exactly above 2^53-1 and stays failed |
| Varints.Encoder.WriteVarInt | internal/crdt/lib0/encoder.go:83-114 | appends the encoding, or fails exactly beyond 2^53-1 |
| Varints.Decoder.ReadVarUint | internal/crdt/lib0/decoder.go:54-69 | the loop reads what the wire format says, with 64-bit wrap-around and its late range check |
| Varints.Decoder.ReadVarInt | internal/crdt/lib0/decoder.go:76-104 | the same for signed numbers |
| Varints.Decoder.ReadVarUint8Array | internal/crdt/lib0/decoder.go:121-130 | a length and that many bytes, or an error |
| Floats.To32Exact | internal/crdt/lib0/any.go:202-208 | a double that is written on 32 bits is the same double when read, subnormals included |
| Floats.NumberKeepsValue | internal/crdt/lib0/any.go:187-222 | the form in which a double is read back is the same number, but for the sign of zero and the kind of NaN |
| Floats.IntIsNearest | internal/crdt/lib0/any.go:158-159 | a 64-bit integer becomes itself up to 53 bits, and beyond that a double that is off by half of its last place at most |
| Floats.RoundedIsNearest | internal/crdt/lib0/any.go:158-159 | of two nearest doubles it is the even one |
| Floats.NumberFixedPoint | internal/crdt/lib0/any.go:187-222 | writing what was read of a written double gives as many bytes, and the same ones if and only if it is not negative zero |
| Anys.DoubleReads | internal/crdt/lib0/any.go:230-258 | what the decoder makes of every written double: the shortest form, and the integer zero of negative zero |
| Anys.AnyReads | internal/crdt/lib0/any.go:92-182 | nested values read back whatever follows, their numbers in the shortest form |
| Anys.CanonWrites | internal/crdt/lib0/any.go:92-222 | a value read back is written with as many bytes, and the same ones if and only if there is no negative zero in it |
| Anys.CanonTwice | internal/crdt/lib0/any.go:92-314 | a value that has been read back is read back as it is |
| Anys.ReadIsGood | internal/crdt/lib0/any.go:230-314 | every value that is read can be written again |
| Codec.ContentReads | internal/crdt/content.go:321-411 | every kind of content reads back as it was written |
| Codec.StructReads | internal/crdt/struct.go:201-292 | every struct reads back, flags and parent information included |
| Codec.CountedRead | internal/crdt/update.go:52-64 | the remaining-bytes guards never refuse encoder output |
| Codec.SortIsStable | internal/crdt/update.go:112-122 | blocks are written highest client first, those of one client in the order they were |
| Codec.CollectListing | internal/crdt/deleteset.go:89-143 | the delete set reads back as the same map |
| Codec.RoundTrip | internal/crdt/update.go:112-142 | an encoded update decodes to itself in canonical form: blocks in order, numbers in the shortest form |
| Codec.DecodedIsEncodable | internal/crdt/update.go:35-96 | whatever decodes can be encoded |
| Codec.FixedPoint | internal/crdt/update.go:35-151 | every byte string that decodes can be written again; the result decodes to the canonical form, which decodes to itself from then on, and is written as the update was if and only if there is no negative zero in it |
| Writing.WriteUpdate | internal/crdt/update.go:112-151 | on every update whose numbers are in range the encoder does not fail and appends exactly the encoding |
| Writing.Reencode | internal/crdt/update.go:35-151 | every byte string that decodes is written again without failure, to bytes that decode to the canonical form; writing that gives the same bytes if and only if there is no negative zero |
| Writing.WriteAny | internal/crdt/lib0/any.go:92-182 | nested values are written without failure as their encoding |
| Writing.WriteNumber | internal/crdt/lib0/any.go:187-222 | any double is written without failure in the shortest of the three forms |
| Format.UintDigits | internal/crdt/lib0/decoder.go:54-69 | any byte string of the varint form, however long, is read as the number its groups of seven bits spell |
| Format.UintSpells | internal/crdt/lib0/encoder.go:61-74 | what is written of a number spells it, seven bits per byte, lowest first |
| Format.IntSpells | internal/crdt/lib0/encoder.go:83-114 | of a signed number the first byte holds six bits and the sign at 0x40 |
| Format.UintWraps | internal/crdt/lib0/decoder.go:54-69 | the tenth byte wraps around on 64 bits |
| Format.UintIsCheckedLate | internal/crdt/lib0/decoder.go:62-66 | the range is checked only where more bytes follow |
| Format.IntWraps | internal/crdt/lib0/decoder.go:76-104 | a signed number wraps around to a negative one |
| Format.AnyTags | internal/crdt/lib0/any.go:12-25 | the tag of every value that is not a list, and that others are refused |
| Format.IntegerTag | internal/crdt/lib0/any.go:243-244 | tag 125 is an integer |
| Format.TextTag | internal/crdt/lib0/any.go:267-268 | tags 119 and 116 are a text and bytes with their length |
| Format.ArrayTag | internal/crdt/lib0/any.go:292-308 | tag 117 is a count and the elements in order |
| Format.ObjectTag | internal/crdt/lib0/any.go:269-291 | tag 118 is a count and key and value of every field in order |
| Format.NumberFixtures | testdata/fixtures/lib0/vectors.json:949-983 | doubles as lib0 writes them, byte by byte |
| Format.ContentRefs | internal/crdt/content.go:12-24 | which of the refs 1 to 9 is which kind of content, and that others are refused |
| Format.DeletedContent | internal/crdt/content.go:324-329 | ref 1 is a length |
| Format.FramedContents | internal/crdt/content.go:346-364 | refs 3, 4 and 5 are binary data, a text and an embedded value, each a length and that many bytes |
| Format.FormatContent | internal/crdt/content.go:365-374 | ref 6 is a key and then a value |
| Format.TypeContent | internal/crdt/type.go:36-42 | ref 7 is the ref of a type, with a name for elements and hooks |
| Format.TextInRoot | internal/crdt/struct.go:201-292 | a text typed into a root type, from the count of blocks to the empty delete set, as it is written and as it is read |
| Format.TextBetween | internal/crdt/struct.go:233-247 | a text typed between two units: the flags, the left one, the right one, the text |
| Format.ValueUnderKey | internal/crdt/struct.go:247-285 | a value under a key of a nested type: the flag, the item the type is in, the key, the value |
| Format.ValueAfterValue | internal/crdt/struct.go:247-285 | a value that replaces another: the flag of the key stays, the key is not repeated |
| Format.NoContent | internal/crdt/struct.go:217-230 | collected and skipped clocks, in order |
| Format.TwoDeletions | internal/crdt/deleteset.go:89-143 | a delete set: client, count of ranges, and of each clock and length |
| Format.ListingDescends | internal/crdt/deleteset.go:89-93 | clients of a delete set are written highest first |
| Format.LastWins | internal/crdt/deleteset.go:140 | a client named twice keeps what came last |
| Format.NothingFollows | internal/crdt/update.go:30-45 | bytes after an update make it corrupt |
| Format.Refused | internal/crdt/struct.go:208-216 | flags on collected or skipped clocks, and an unknown kind of parent, are corrupt |
| Format.Hello | testdata/fixtures/text-insert-single/updates.json:1-31 | an update Yjs wrote, byte by byte: a text typed into a root type |
| Format.WorldIsGone | testdata/fixtures/text-delete/updates.json:31-47 | an update Yjs wrote, byte by byte: a deletion |
| Intake.NumberedAscends | internal/crdt/update.go:67-96 | the structs of a block are of its client, in clock order and without gaps |
| Intake.OneBlockEach | internal/crdt/update.go:35-96 | an update with one block per client is in clock order |
| Intake.CanonicalIsSame | internal/crdt/update.go:112-122 | the order in which blocks are written does not change what an update says of any client; only the form of numbers changes |
| Intake.RelayedIsSame | internal/crdt/update.go:35-151 | what is written and read back says the same of every client and names the same deletions, but for the form of numbers |
| Intake.FieldsKept | internal/crdt/struct.go:201-292 | neighbours, list, key, content and ranges of a struct are those decoded |
| Intake.ApplyBytes | internal/crdt/doc.go:76-97 | bytes that do not decode change nothing; others are applied as what they say |
| Typing.TypeAndRead | internal/crdt/doc.go:76-97 | any text a client types into an empty document, sent as the wire format has it, is a list of its units in order and is read back character by character |
| Utf16.Length | internal/crdt/lib0/lib0.go:52-62 | counts UTF-16 code units: one per code point, and one more for each above U+FFFF |
| Utf16.Split | internal/crdt/content.go:296-318 | succeeds exactly at the ends and off pairs, and the parts' code units are those before and after |
| Utf16.TextIsPaired | internal/crdt/content.go:292-295 | text never starts or ends with half a pair |

## Left out

- Item pointers: items live in an arena and links are indices into it; update in place and sharing
  are captured, memory management is not.
- Decoded structs are values: the Go code fills in and cuts the decoded item itself, the model makes
  the stored item when it is integrated.
- Docs.Doc.ApplyUpdate: assumes that an id names one operation; two different operations under one id are
  not modelled. That leaves out a client that collects garbage and passes on what it deleted as
  `ContentDeleted` under the same ids, beside the content itself from another one. Nor is an item whose
  right origin was typed on the way to its origin, which no editor produces.
- Docs.Doc.Resolve: excludes an item whose right origin lies in the item that ends with its origin; the
  code then cuts that item after it has remembered it as the left neighbour.
- MapKeys.KeyHasOneValue: needs map entries of length one, which is what a map writes; a longer entry
  that has been cut keeps its first part live when its second is replaced.
- Reading.ReadSequence: units keep what kind of content they are only as far as integration needs it; telling
  text from embeds and markers is not modelled.
- Store.StructStore.Get: content is units, so a text entry is read by its last unit and not whole; format
  markers and embeds, which the source does not return, are values like any other.
- Sync.StrongConvergence: order and units are proved for all lists, visible content and values for those of
  types that are not deleted, because deleting a type does not delete its children, but what arrives under a
  deleted type is deleted.
- Replicas.SameVector: needs every update to have its structs in clock order, which one block per client
  gives (`Intake.OneBlockEach`); `Ledgers.RestIsLeast` has the same condition.
- Durability.Load: reads the snapshot and the rows in one step. The source does so in two statements of one
  transaction that sees each committed change (`internal/store/store.go:209-265`), so that a compaction by
  another room can come in between.
- Durability.Sessions: updates are those of honest clients in clock order. Version jobs, tenancy,
  compression and object storage are not modelled, and the writer's queue is unbounded.
- Codec.FixedPoint: input is at most 2^53-1 bytes long; the loops over counted lists are recursive
  functions of the bytes.
- Intake.ApplyBytes: how bytes of text become code units is a parameter; the UTF-8 decoder is not modelled.
- Presence.Awareness.Apply: payloads are sequences of reports, and their byte lengths are string lengths.
- Shutdown.Room.Handle: which connections cannot keep up is a parameter; reads, merges, versions and ticks,
  which touch no connection, are not modelled.
- Fanout.Run: awareness envelopes are not modelled, and the number of replicas is fixed.
- The state-vector codec, `MergeWith`, `Countable` and format markers would only add easy members.
- Gateway, HTTP, authentication, metrics, hooks, versions, the registry, Redis, Postgres and S3.
