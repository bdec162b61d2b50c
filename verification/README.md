# A verified model of cr-sqlite

cr-sqlite turns SQLite tables into conflict-free replicated tables. This project models the parts of it where
state, ordering and arithmetic interact, and proves what its documentation and tests promise about them.

* **Fractional indexing** (`ByteOrder`, `Base62`, `IntegerPart`, `Midpoint`, `FractIndex`): `key_between` makes a
  string strictly between two others, from a variable-length integer part and a recursive midpoint of fractions.
  Integer parts are shown to be the integers of a range, in order. On top of it (`OrderedTable`, `ListRefinement`,
  `CollisionRepair`) the SQL triggers keep ordered lists: sorting the rows by key gives the plain lists that the
  statements describe.
* **Merging** (`Crdt`, `Statements`, `Merging`, `Replica`): rows, and a clock entry for every column and every deleted
  row. The class `Replica` runs statements, triggers and `crsql_mergeInsert` step by step; `Crdt` says what each does;
  `Statements` states it value by value and version by version; `Merging` shows that what a database shows depends only on
  the set of changes it merged.
* **Replication** (`Domination`, `Replication`, `Transactions`, `CursorSafety`, `DirtyReads`, `LossyRuns`,
  `ReplicationLimits`, `ChangesCursor`, `WholeDbReplicator`): databases that pull from each other with cursors, over a
  network that loses, repeats and reorders messages, with transactions that stay open while other handlers run.
  `ChangesCursor` is the cursor of the `crsql_changes` table, `WholeDbReplicator` the peer-to-peer handlers,
  `CursorSafety` the proofs over all runs without dirty reads, `DirtyReads` what such a read leaves behind, `LossyRuns`
  the runs that show it, and `ReplicationLimits` says exactly where replication stops.
* **The version cache** (`ExtData`, `VersionCache`): what `crsql_getDbVersion` returns when several connections begin,
  commit, roll back and create clock tables.
* **The change stream** (`Streaming`, `ChangeStream`, `Delivery`): the sync server's flow control and both receivers, over
  FIFO channels.
* **Smaller pieces**: the splitter of quote-concatenated keys (`QuoteConcat`), the growable array of seen peers
  (`SeenPeers`), and the queue that serializes asynchronous tasks (`PromiseQueue`).

Where the source changes state in place (triggers, merge steps, the cache fields, streams, scanners, the growable array)
the model is a class or a method with a loop, tied by its contract to a function on values. The properties over whole runs
are proved about those functions. SQLite is modelled by what each generated statement does to maps. Clocks, sockets and
allocation failures are not part of this model.

Conventions: strings are sequences of characters and stand for byte strings; a value is its `quote()` text; `Outcome` is a
value, an error, or a Rust panic; `None` stands for SQL `NULL` or an absent option. A byte length that the source casts to
`u8` is taken modulo 256.

## What the code does not do

The code differs from what its comments or callers expect in these places; each is stated exactly.

* `key_between(None, "A" + 25 zeros + "1")` returns the reserved smallest integer, which the validation then refuses
  (`FractIndex.KeyBetweenClosed`: for this pair and no other). Equal keys panic and only reversed ones are refused
  (`FractIndex.KeyBetweenTotal`), and a key of 256 bytes is refused whatever it is (`FractIndex.LongKeyRefused`). The
  validation looks at the head, the length and the last byte only, so that "a!" passes (`FractIndex.ValidatesIff`,
  `FractIndex.NoDigitValidates`).
* Splitting a quote-concatenated key takes parts that are no literals, such as "Nope", "-" or "1e"
  (`QuoteConcat.PartPrintedIff`, `QuoteConcat.ImproperParts`).
* An update that changes a column from or to NULL is not seen by its trigger
  (`ReplicationLimits.UpdateAdvancesIff`, `ReplicationLimits.NullUpdateUnread`).
* An inserted row reaches a replica exactly when neither side deleted it before (`ReplicationLimits.InsertArrivesIff`).
* A delete that was learned through an old entry of its row carries the site of that entry, and the site filter of the
  peer-to-peer code then hides it from that site (`ReplicationLimits.DeletePassedOnIff`,
  `ReplicationLimits.RelayedDeleteHidden`, and as a whole run `LossyRuns.HiddenDeleteReached`).
* The peer-to-peer handlers wait after every statement, on one connection, and only transactions wait for each other. So a
  request can be served inside an open transaction: with rows that are not committed, and up to a version that the rest
  of the transaction still writes with. The requestor's cursor then passes entries it never gets
  (`LossyRuns.DirtyReadLoses`), and if the transaction rolls back it also keeps rows that its peer never had
  (`LossyRuns.RolledBackReadDiverges`). An entry is left behind exactly when it is written after the read and neither kept
  back, already covered nor answered by the read (`DirtyReads.DirtyReadIff`).
* On every run on which no read returns anything above the version of the last commit, which is what `crsql_dbversion()`
  gives inside the transaction as well, the hidden deletes are the only thing that a cursor leaves behind
  (`CursorSafety.CursorsSafe`), and replicas that are caught up with each other agree on a row exactly when neither hides
  its delete from the other (`CursorSafety.Converged`).
* A notification that runs inside the transaction it announces carries the version from before it. A peer that has
  everything up to there ignores it, and nothing announces the commit (`WholeDbReplicator.NotifiedPeerAsksIff`).
* Fetching the version after a schema change that is then rolled back leaves a statement over a table that is gone
  (`VersionCache.AlteredFetchRollbackIff`).
* Peers tracked in a transaction that rolls back are written by the next commit that wrote to `crsql_changes`
  (`SeenPeers.RolledBackWritten`). The table holds the largest committed versions exactly when every such message is
  matched by a committed one of its site (`SeenPeers.CommittedRecordsIff`).

## Model

| member | source | states |
|---|---|---|
| Base62.DigitOrder | core/rs/fractindex-core/src/fractindex.rs:137 | digits are ordered by their index exactly as by their byte |
| IntegerPart.ValOrder | core/rs/fractindex-core/src/fractindex.rs:193-202 | integer parts compare as byte strings exactly as the integers they stand for |
| IntegerPart.ValOnto | core/rs/fractindex-core/src/fractindex.rs:193-302 | every integer between the two ends is the value of an integer part |
| IntegerPart.ValRange | core/rs/fractindex-core/src/fractindex.rs:193-202 | every integer part lies between the smallest and the largest one, by value and in byte order |
| IntegerPart.IncrementInteger | core/rs/fractindex-core/src/fractindex.rs:212-255 | the carry loop and the change of head, with every error, compute `Increment` |
| IntegerPart.DecrementInteger | core/rs/fractindex-core/src/fractindex.rs:257-302 | the borrow loop and the change of head, with every error, compute `Decrement` |
| IntegerPart.IncrementCorrect | core/rs/fractindex-core/src/fractindex.rs:212-255 | an increment adds exactly one across every carry and change of head |
| IntegerPart.DecrementCorrect | core/rs/fractindex-core/src/fractindex.rs:257-302 | a decrement subtracts exactly one and gives up only at A followed by zeros |
| IntegerPart.StepEnds | core/rs/fractindex-core/src/fractindex.rs:242-244 | increment gives up only at the largest and decrement only at the smallest integer part |
| IntegerPart.IncrementDecrement | core/rs/fractindex-core/src/fractindex.rs:212-302 | increment and decrement undo each other |
| Midpoint.RoundHalfUp | core/rs/fractindex-core/src/fractindex.rs:160-168 | rounding is exactly half-up on halves of naturals |
| Midpoint.Midpoint | core/rs/fractindex-core/src/fractindex.rs:79-158 | the loop over common bytes and the recursion compute `Mid`, whose result `MidExact` and `MidOpenExact` fix digit by digit, and terminate |
| Midpoint.MidCorrect | core/rs/fractindex-core/src/fractindex.rs:79-158 | for every fraction and every bound above it the result is strictly between, ends in no zero and is at most one digit longer than the longer of the two |
| Midpoint.MidExact | core/rs/fractindex-core/src/fractindex.rs:100-151 | between two fractions: the common digits, then the digit half way between two that are no neighbours, rounded up; the upper fraction cut behind the first difference when they are neighbours and it goes on; otherwise the lower one up to its next digit that is not the highest, and half way to the end there |
| Midpoint.MidOpenExact | core/rs/fractindex-core/src/fractindex.rs:126-151 | above one fraction: its leading highest digits, then the digit half way from the next one to the end |
| Midpoint.MidPlaces | core/rs/fractindex-core/src/fractindex.rs:104-111 | the places that `MidExact` speaks of always exist |
| Midpoint.MidFails | core/rs/fractindex-core/src/fractindex.rs:80-87 | equal bounds panic and reversed bounds are refused |
| FractIndex.ValidKeyValidates | core/rs/fractindex-core/src/fractindex.rs:170-191 | of the well-formed keys the validation lets through exactly the accepted ones, and finds their integer part |
| FractIndex.ValidatesIff | core/rs/fractindex-core/src/fractindex.rs:170-202 | over all strings, the validation lets through exactly those with a letter as head, long enough as a u8, not the reserved key and without a zero at the end of a fraction; among them the well-formed keys are those of digits only |
| FractIndex.NoDigitValidates | core/rs/fractindex-core/src/fractindex.rs:170-182 | a key with a character that is no digit passes the validation |
| FractIndex.KeyOrder | core/rs/fractindex-core/src/fractindex.rs:33-42 | keys are ordered by integer part, then by fraction |
| FractIndex.KeyBetweenCorrect | core/rs/fractindex-core/src/fractindex.rs:20-77 | for accepted keys in order, either end open, a new key is made, well formed, strictly between, at most one byte longer and at most one integer below; no "cannot" error is reachable |
| FractIndex.KeyBetweenExact | core/rs/fractindex-core/src/fractindex.rs:26-76 | which key: zero for an empty list; the next integer alone behind a key, and behind the largest a longer fraction; in front of a key its own integer when a fraction follows it, otherwise the integer before, and in front of the smallest a smaller fraction; between two keys the midpoint of the fractions in one integer, otherwise the next integer when it is below the upper key, and a longer fraction when it is not |
| FractIndex.KeyExamples | core/rs/fractindex-core/src/fractindex.rs:336-348 | five keys, character by character |
| FractIndex.KeyBetweenTotal | core/rs/fractindex-core/src/fractindex.rs:20-32 | a key is made if and only if both bounds are accepted and strictly ordered; equal keys panic, reversed ones are refused |
| FractIndex.KeyBetweenClosed | core/rs/fractindex-core/src/fractindex.rs:54-64 | the reserved smallest integer comes out for exactly one pair of arguments |
| FractIndex.SecondAboveSmallest | core/rs/fractindex-core/src/fractindex.rs:60-61 | that pair's upper bound is the integer part right above the smallest one |
| FractIndex.ShortKeysAccepted | core/rs/fractindex-core/src/fractindex.rs:170-191 | every well-formed key of at most 255 bytes but the reserved one is accepted |
| FractIndex.LongKeyRefused | core/rs/fractindex-core/src/fractindex.rs:187-189 | every well-formed key of 256 bytes is refused |
| OrderedTable.Least | core/rs/fractindex-core/src/util.rs:26-37 | MIN of the keys of a list, NULL for none |
| OrderedTable.Greatest | core/rs/fractindex-core/src/util.rs:39-50 | MAX of the keys of a list, NULL for none |
| OrderedTable.Table.PendTrigger | core/rs/fractindex-core/src/as_ordered.rs:113-159 | a row asking for an end of its list gets a key beyond that end, in place |
| OrderedTable.Table.Place | core/rs/fractindex-core/src/fractindex_view.rs:78-91 | the CASE of the view triggers: between the anchor and the next key, the front without an anchor, a repair with several holders |
| OrderedTable.Table.FixConflictReturnOldKey | core/rs/fractindex-core/src/fractindex_view.rs:212-297 | moves the anchor below its own key and returns that key |
| OrderedTable.Table.Execute | core/rs/fractindex-core/src/fractindex_view.rs:130-153 | a statement with its triggers changes the rows as `Exec` says, or leaves them |
| ListRefinement.KeyFromBounds | core/rs/fractindex-core/src/fractindex.rs:20-77 | one more statement makes a key inside the bounds of one more statement |
| ListRefinement.StepRefines | core/rs/fractindex-core/src/fractindex_view.rs:69-93 | one statement on a usable table succeeds and does to the sorted lists what it says |
| ListRefinement.RunRefines | core/rs/fractindex-core/src/as_ordered.rs:113-159 | runs of any length refine the plain lists as long as the keys stay usable |
| ListRefinement.BoundedUsable | core/rs/fractindex-core/src/fractindex.rs:170-191 | keys made by at most 254 statements are usable |
| ListRefinement.RunRefinesLists | core/rs/fractindex-core/src/fractindex_view.rs:130-153 | from an empty table every run of at most 254 statements succeeds, and sorting by key gives exactly the plain lists |
| CollisionRepair.FixConflictKey | core/rs/fractindex-core/src/fractindex_view.rs:267-294 | the anchor's new key lies below its old one and above every smaller key of its list |
| CollisionRepair.RepairKeepsOrder | core/rs/fractindex-core/src/fractindex_view.rs:212-297 | inserting or moving behind a tied anchor leaves anchor < new row with no key between, changes no other row and reverses no ordered pair |
| CollisionRepair.ForeignAnchor | core/rs/fractindex-core/src/fractindex_view.rs:78-80 | an anchor of another list counts as the one row of the target list with the same key, or as none |
| CollisionRepair.ForeignTie | core/rs/fractindex-core/src/fractindex_view.rs:212-297 | when several rows of the target list hold the key of a foreign anchor, the anchor moves down inside its own list and the new row joins the tie; nothing else changes |
| CollisionRepair.ExecSucceedsIff | core/rs/fractindex-core/src/fractindex_view.rs:78-153 | on a table with usable keys a statement fails if and only if it inserts a key that there is, ties and foreign or missing anchors included; moving a row that is not there does nothing |
| Crdt.DbVersion | core/src/util.c:314-343 | the largest db_version in the clock, or 0 |
| Merging.BumpAllCells | core/src/triggers.c:99-118 | the sub-triggers raise every listed column to the next version without a site and touch nothing else; by how much, `Statements.BumpAllEntries` says |
| Merging.ChangedMembers | core/src/triggers.c:159-176 | an update sub-trigger fires exactly for columns that differ with both sides not NULL |
| Merging.LocalWriteKeepsRows | core/src/triggers.c:217-239 | local writes keep a row for every live column entry |
| Statements.BumpAllEntries | core/src/triggers.c:99-118 | the sub-triggers of a list of columns raise each column version by exactly one, or start at 1, with the next db_version and no site |
| Statements.StatementEntries | core/src/triggers.c:99-239 | after any INSERT, UPDATE or DELETE an entry that fired has exactly its old column version plus one, the next db_version and no site, the delete sentinel included, and every other entry is what it was |
| Statements.StatementRows | core/src/triggers.c:99-239 | an inserted row shows each given value under its own column and NULL elsewhere, an updated row the new values, a deleted row is gone, every other row is what it was |
| Statements.ColVersionCounts | core/src/triggers.c:99-239 | over any run of statements the column version of a cell rises by the number of writes that its trigger saw |
| Merging.MergeSucceeds | core/src/changes-vtab-write.c:93-99 | in every such state a merge succeeds, "could not find row to merge with" is unreachable, and the state stays so |
| Merging.WinsIff | core/src/changes-vtab-write.c:71-105 | a change wins exactly when it is above the local (version, value) |
| Merging.MergeElsewhere | core/src/changes-vtab-write.c:236-436 | a merge leaves every other cell as it is |
| Merging.DeliverReflects | core/src/changes-vtab-write.c:319-436 | whatever is delivered, rows and columns are exactly those mentioned and not deleted, each column with the largest (version, value) |
| Merging.ReflectsUnique | core/src/changes-vtab-write.c:319-436 | what a database reflects fixes its rows |
| Merging.OrderAndDuplicatesIgnored | core/src/changes-vtab-write.c:30-106 | two deliveries of the same set of changes, in any order and with repetitions, leave the same rows |
| Merging.ReadFields | core/src/changes-vtab.c:289-332 | whatever the entry, sentinel and missing row included, its change has the entry's own col_version and db_version, and its site or the reader's |
| Replica.Replica.NextDbVersion | core/src/crsqlite.c:236-249 | the next version is the same throughout a transaction |
| Replica.Replica.InsertTrigger | core/src/triggers.c:99-118 | the loop of sub-triggers bumps every column, unless a merge is running |
| Replica.Replica.UpdateTrigger | core/src/triggers.c:159-176 | the loop bumps exactly the changed columns, unless a merge is running; what that makes of their entries, `Statements.StatementEntries` says |
| Replica.Replica.DeleteTrigger | core/src/triggers.c:217-239 | writes the delete sentinel, unless a merge is running |
| Replica.Replica.Execute | core/src/triggers.c:143-201 | a user statement with its triggers has the effect of `LocalWrite` and keeps the invariant |
| Replica.Replica.CheckForLocalDelete | core/src/changes-vtab-write.c:109-138 | whether the row has a delete sentinel |
| Replica.Replica.SetWinner | core/src/changes-vtab-write.c:140-183 | the entry gets the remote column version, the larger of next and remote db_version, and the remote site |
| Replica.Replica.WriteColumn | core/src/changes-vtab-write.c:389-411 | the upsert of a winning column fires triggers that leave the clock alone |
| Replica.Replica.MergeDelete | core/src/changes-vtab-write.c:211-234 | removes the row with the sync bit set and writes the sentinel |
| Replica.Replica.MergeInsert | core/src/changes-vtab-write.c:236-436 | a merge never fails, equals `Merge`, leaves the sync bit 0 and never bumps through triggers |
| Replica.Replica.Commit | core/src/crsqlite.c:503-508 | the cache is cleared and the next transaction begins at the version reached |
| Domination.LocalWriteAdvances | core/src/triggers.c:143-201 | a write that its trigger sees moves the database forward, above every earlier version |
| Domination.MergeAdvances | core/src/changes-vtab-write.c:236-436 | a merge moves the database forward |
| Domination.MergeAllAbsorbs | core/src/changes-vtab-write.c:319-436 | a message moves the database forward and every change of it is taken in |
| Domination.ReadAnswers | core/src/changes-vtab.c:280-339 | what an entry reads as answers for it, the delete of a missing row included |
| Domination.PullDominates | core/src/changes-vtab-read.c:25-96 | pulling all newer changes, deletes included, leaves the puller with every delete and every live column at least as good |
| ChangesCursor.ChangesCursor.Filter | core/src/changes-vtab.c:348-432 | selects the entries above the bound and not of the requestor and stands on the first |
| ChangesCursor.ChangesCursor.Next | core/src/changes-vtab.c:171-274 | steps to the least remaining entry and looks for its row |
| ChangesCursor.ChangesCursor.Column | core/src/changes-vtab.c:280-339 | a missing row or a sentinel reads as a delete, a missing site as the own one, the versions are those of the entry (`Merging.ReadFields`) |
| ChangesCursor.ReadChanges | core/src/changes-vtab-read.c:61-96 | every selected entry is returned exactly once, in order of db_version and then of table |
| WholeDbReplicator.WholeDbReplicator.CrrChanged | js/sync-reference/p2p/src/WholeDbReplicator.ts:182-187 | at most one notification is scheduled |
| WholeDbReplicator.WholeDbReplicator.Notify | js/sync-reference/p2p/src/WholeDbReplicator.ts:188-197 | pokes with the version at the beginning of the transaction when one is open, and with the current version otherwise |
| WholeDbReplicator.NotifiedPeerAsksIff | js/sync-reference/p2p/src/WholeDbReplicator.ts:187-216 | a peer that is up to date with the beginning of a transaction asks when it is notified if and only if the notification ran after the commit and something is new |
| WholeDbReplicator.WholeDbReplicator.Poked | js/sync-reference/p2p/src/WholeDbReplicator.ts:200-221 | requests since the recorded version exactly when the poker is ahead of it |
| WholeDbReplicator.WholeDbReplicator.NewConnection | js/sync-reference/p2p/src/WholeDbReplicator.ts:223-230 | a recorded version stays, a new peer starts at 0 |
| WholeDbReplicator.WholeDbReplicator.BeginReceive | js/sync-reference/p2p/src/WholeDbReplicator.ts:239-244 | opens the transaction of a push |
| WholeDbReplicator.WholeDbReplicator.ReceiveNext | js/sync-reference/p2p/src/WholeDbReplicator.ts:250-262 | whatever ran on the connection in between, merges the next change with the next version of the transaction and keeps the largest version so far |
| WholeDbReplicator.WholeDbReplicator.RecordReceived | js/sync-reference/p2p/src/WholeDbReplicator.ts:271-274 | records the largest version of this message, before the commit |
| WholeDbReplicator.WholeDbReplicator.ChangesReceived | js/sync-reference/p2p/src/WholeDbReplicator.ts:235-276 | with nothing in between, one transaction merges all changes and records the largest version of this message |
| WholeDbReplicator.WholeDbReplicator.ChangesRequested | js/sync-reference/p2p/src/WholeDbReplicator.ts:278-296 | pushes everything newer that does not carry the requestor's site, with what an open transaction wrote so far, or nothing |
| Replication.MaxVersion | js/sync-reference/p2p/src/WholeDbReplicator.ts:240-253 | the largest version in a message, at least 0 |
| Replication.PokeAsksIff | js/sync-reference/p2p/src/WholeDbReplicator.ts:200-221 | a poked site asks, since its cursor, recorded in an open transaction or committed, if and only if the poke is above that |
| Replication.WriteAllSound | core/src/triggers.c:99-239 | a local transaction keeps the state sound, moves forward and makes entries of no other site |
| Replication.MergeAllSound | core/src/changes-vtab-write.c:319-436 | a message keeps the state sound, and every new entry comes from a change with its site and value |
| Transactions.BasicKept | js/browser/wa-crsqlite/src/wrapper.ts:253-265 | every statement, merge, record, commit, rollback, poke and read keeps the committed databases sound and what open transactions wrote above their versions |
| Transactions.TransactionAtOnce | js/browser/wa-crsqlite/src/wrapper.ts:253-265 | a transaction with nothing in between does to the committed database what its statements do one after the other |
| Transactions.ReceiptAtOnce | js/sync-reference/p2p/src/WholeDbReplicator.ts:235-276 | taking in a push with nothing in between merges all of it and sets the cursor to its largest version |
| Transactions.PushesAccepted | js/sync-reference/p2p/src/WholeDbReplicator.ts:235-276 | on every run, dirty reads and rollbacks included, every push can be taken in between transactions |
| Transactions.MergesAccepted | js/sync-reference/p2p/src/WholeDbReplicator.ts:250-262 | on every run the next change of a push that is being taken in is merged |
| CursorSafety.StepKeeps | js/sync-reference/p2p/src/WholeDbReplicator.ts:200-296 | every begin, statement, merge, record, commit, rollback, poke and clean read keeps what cursors, requests and pushes are worth, with and without the site filter |
| CursorSafety.ServeBears | js/sync-reference/p2p/src/WholeDbReplicator.ts:278-296 | a clean answer, also from an open transaction, covers everything up to its largest version that the requestor lacks, but for tombstones that carry its site |
| CursorSafety.CursorsSafe | js/sync-reference/p2p/src/WholeDbReplicator.ts:200-296 | on every run without dirty reads, with lost, repeated and reordered messages and rollbacks, every entry up to a cursor is dominated at its owner, unless the read is filtered and it is a tombstone that carries the owner's site |
| CursorSafety.HiddenDiffers | js/sync-reference/p2p/src/WholeDbReplicator.ts:278-296 | a delete hidden from a site leaves that site with the row: the databases differ |
| CursorSafety.Converged | js/sync-reference/p2p/src/WholeDbReplicator.ts:200-296 | after every run without dirty reads, replicas whose cursors cover each other show the same of a row if and only if neither hides its delete from the other |
| DirtyReads.MergedCoveredIff | core/src/changes-vtab-write.c:319-436 | after a message a database has exactly what it had and what the message answers |
| DirtyReads.LegalFollows | js/sync-reference/p2p/src/WholeDbReplicator.ts:200-296 | whatever happens, rollbacks and dirty reads included, the committed databases only move forward |
| DirtyReads.DirtyReadIff | js/sync-reference/p2p/src/WholeDbReplicator.ts:239-284 | a read served inside an open transaction, which then goes on, commits or rolls back: once the requestor took in the push, an entry is left behind if and only if it was written after the read and is neither kept back, covered before nor answered by the push |
| LossyRuns.DirtyReadLoses | js/sync-reference/p2p/src/WholeDbReplicator.ts:239-284 | a whole run: a read between two merges of a push leaves the requestor without the second row, with all cursors caught up and nothing hidden |
| LossyRuns.RolledBackReadDiverges | js/sync-reference/p2p/src/WholeDbReplicator.ts:278-284 | a whole run: a read inside a transaction that rolls back leaves the requestor without a later row of the same version and with a row its peer never had, which a filtered read never returns |
| LossyRuns.HiddenDeleteReached | js/sync-reference/p2p/src/WholeDbReplicator.ts:278-284 | a whole run without dirty reads on which caught-up replicas differ by a hidden delete |
| ReplicationLimits.UpdateAdvancesIff | core/src/triggers.c:169 | whatever the update, every change of a column is there to read if and only if each changed column differs with neither side NULL; then the database moves forward, and over existing entries only then |
| ReplicationLimits.NullUpdateUnread | core/src/triggers.c:169 | after a column is set to NULL there is nothing newer to read |
| ReplicationLimits.InsertArrivesIff | core/src/changes-vtab-write.c:319-325 | an inserted row reaches a replica that pulls everything if and only if neither of them deleted it before |
| ReplicationLimits.FirstDeleteSigns | core/src/changes-vtab-write.c:319-348 | the first delete of the row in a message leaves its column version and its site on the tombstone, with the larger of next and its db_version |
| ReplicationLimits.PulledDelete | core/src/changes-vtab-write.c:319-348 | whoever pulls a delete keeps the col_version of the entry that told of it |
| ReplicationLimits.DeletePassedOnIff | core/src/changes-vtab-read.c:37 | a relayed delete is passed on to a requestor if and only if the change that told of it carries another site |
| ReplicationLimits.RelayedDeleteHidden | core/src/changes-vtab.c:310-332 | a merged row, deleted and relayed: its old entry reads as the delete and hides it from the author of the row |
| ExtData.MaxVersion | core/src/util.c:314-343 | the union query over clock tables gives their largest db_version, or the minimum when there is none |
| ExtData.NoEntriesZero | core/src/ext-data.c:183-245 | without any entry the version is 0, with entries it is the version of one of them |
| ExtData.PreparedIff | core/src/ext-data.c:145-235 | the statement is prepared again if and only if there is none or the schema looks newer, and then covers all clock tables, none without any |
| ExtData.ExtData.FetchPragmaSchemaVersion | core/src/ext-data.c:101-125 | stores a larger schema version and reports it |
| ExtData.ExtData.FetchPragmaDataVersion | core/src/ext-data.c:127-143 | stores a different data version and reports it |
| ExtData.ExtData.RecreateDbVersionStmt | core/src/ext-data.c:145-181 | the statement covers the clock tables, none without any |
| ExtData.ExtData.FetchDbVersionFromStorage | core/src/ext-data.c:183-245 | prepares again when there is no statement or the schema is newer, and fills the cache |
| ExtData.ExtData.GetDbVersion | core/src/ext-data.c:255-274 | the cache is used only while the data version is the one it was filled at |
| ExtData.ExtData.NextDbVersion | core/src/crsqlite.c:236-249 | one above the version |
| ExtData.ExtData.TransactionEnded | core/src/crsqlite.c:503-514 | commit and rollback clear the cache and nothing else |
| VersionCache.FetchCorrect | core/src/ext-data.c:183-245 | a fetch on an unaltered snapshot gives its version, whatever schema the statement was prepared for |
| VersionCache.EventKeeps | core/src/ext-data.c:101-274 | every begin, ask, write, new clock table, commit and rollback of any connection keeps the cache invariant |
| VersionCache.CacheAgrees | core/src/ext-data.c:255-274 | on every run the answer is the largest db_version over all clock tables as of the start of the transaction |
| VersionCache.EmptyFileZero | core/src/ext-data.c:183-245 | on every run, a file without entries answers 0 |
| VersionCache.SameAnswer | core/src/crsqlite.c:231-234 | the answer is the same at every call in a transaction, whatever sequence of events of all connections lies in between |
| VersionCache.WrittenAbove | core/src/changes-vtab-write.c:146-157 | an entry written gets the version right above the largest committed one, or its remote version when that is larger; nothing else changes |
| VersionCache.CommitAbove | core/src/crsqlite.c:503-508 | a commit keeps every committed entry and adds only entries above all of them |
| VersionCache.EndedFetches | core/src/crsqlite.c:503-514 | after a rollback, and after a commit that wrote, nothing is cached by that connection, and no other cache is touched |
| VersionCache.AlteredFetchRollbackIff | core/src/ext-data.c:258-262 | after a fetch on an altered schema and a rollback the next fetch works if and only if there was no statement and the stored schema version was older |
| ChangeStream.ChangeStream.Begin | js/sync-reference/server-core/src/changeStream.ts:36-56 | begins once, at the requested place, and sends what there is |
| ChangeStream.ChangeStream.ProcessAck | js/sync-reference/server-core/src/changeStream.ts:58-80 | counts the ack, asks to close below zero, and sends again when that unblocks the stream |
| ChangeStream.ChangeStream.DbChanged | js/sync-reference/server-core/src/changeStream.ts:82-151 | drops own changes, blocks at the limit, otherwise sends everything pulled and advances |
| ChangeStream.ChangeStream.ConnClosed | js/sync-reference/server-core/src/changeStream.ts:153-162 | marks the stream closed |
| Streaming.NotificationExact | js/sync-reference/server-core/src/changeStream.ts:82-151 | below the limit everything pulled goes out as one message, from the end of the last to the version of the last change, and one more ack is due; at the limit nothing goes out and the stream blocks |
| Streaming.FiveOutstanding | js/sync-reference/server-core/src/changeStream.ts:31-116 | with the default limit a notification with something to pull sends if and only if fewer than five messages are outstanding, blocks if and only if there are five, and an ack then sends again |
| ChangeStream.EstablishedConnection.ApplyChanges | js/sync-reference/server-core/src/establishedConnection.ts:62-94 | refuses a gap and applies, acknowledges and announces anything else; over all messages that arrived it took exactly `Taken` |
| ChangeStream.EstablishedConnection.ChangesRequested | js/sync-reference/server-core/src/establishedConnection.ts:110-121 | a connection has one stream, with a limit of five, which begins at the requested place; a second request is refused |
| ChangeStream.Replicator.Opened | js/sync-reference/client-core/src/index.ts:122-124 | the client expects what it recorded |
| ChangeStream.Replicator.ApplyChanges | js/sync-reference/client-core/src/index.ts:179-208 | asks to close on a gap, begins to apply the message all the same and acknowledges it without waiting for that |
| ChangeStream.Replicator.RunApply | js/sync-reference/client-core/src/DB.ts:57-84 | the transaction of a message merges all its changes with the site of the server |
| ChangeStream.Sign | js/sync-reference/server-core/src/db.ts:57-63 | every change is written with the site of the connection |
| Streaming.SignedAt | js/sync-reference/server-core/src/db.ts:57-63 | every change stays in its place with nothing but its site replaced |
| Delivery.EventKeeps | js/sync-reference/server-core/src/changeStream.ts:36-151 | every event of server, client and channels, transactions of the client in any order included, keeps the stream invariant |
| Delivery.WindowHolds | js/sync-reference/server-core/src/changeStream.ts:58-80 | outstanding = messages and acks on the way and lost acks; an open stream stays within its limit and blocks only at it |
| Delivery.AtMostFive | js/sync-reference/server-core/src/changeStream.ts:31-116 | on every run with the default limit at most five messages are unacknowledged, and an open stream is blocked only when there are five |
| Delivery.NoLostWakeUp | js/sync-reference/server-core/src/changeStream.ts:82-151 | with no notification of others due, an open unblocked stream has sent everything past its start that is not the client's |
| Delivery.Contiguous | js/sync-reference/server-core/src/changeStream.ts:118-150 | each message starts where the one before ended and ends later; the client's out-of-order branch is unreachable |
| Delivery.ClientCatchesUp | js/sync-reference/client-core/src/index.ts:179-208 | a client that received all messages and ran their transactions, in whatever order, has everything of the server past the start that is not its own |
| Delivery.TakenAccepted | js/sync-reference/server-core/src/establishedConnection.ts:62-94 | whatever arrives, what the receiver takes follows on without a gap and begins with the first message |
| Delivery.AcceptedCovers | js/sync-reference/server-core/src/establishedConnection.ts:62-94 | from an arbitrary sender, every version between the first start and the largest end lies in an accepted message |
| Delivery.ReceiverCovers | js/sync-reference/server-core/src/establishedConnection.ts:62-94 | over any messages of an arbitrary sender, some of them refused, no version between the first start and the end of any message taken is missing in those taken |
| QuoteConcat.ScanToEndOfLiteral | core/src/util.c:129-149 | finds the end of a text literal, or nothing, and stays within the string |
| QuoteConcat.SafelyAdvanceThroughString | core/src/util.c:155-164 | advances exactly so far, or fails |
| QuoteConcat.ConsumeDigitsToDelimiter | core/src/util.c:176-201 | finds the end of a number at a delimiter or the end, and stays within the string |
| QuoteConcat.SplitQuoteConcat | core/src/util.c:203-271 | every turn advances; the result is `Split` on every input |
| QuoteConcat.SplitSound | core/src/util.c:203-271 | a string that splits is its parts in order with at most one delimiter behind each, and every part is one whole part by itself |
| QuoteConcat.PartTakenIff | core/src/util.c:129-233 | exactly which strings the splitter takes for one part: something in quotes with its quotes doubled, with or without an X, any four characters from an N on, and digits with at most one point, one e and a sign right behind that |
| QuoteConcat.NumberTakenIff | core/src/util.c:176-201 | exactly what is taken for a number |
| QuoteConcat.PartPrintedIff | core/src/util.c:176-233 | of the parts that the splitter takes, every text is a printed literal, and of the others exactly the blobs of whole bytes, NULL, and numbers with digits first and behind a point and an exponent |
| QuoteConcat.ImproperParts | core/src/util.c:166-233 | parts that are taken and are no literals |
| QuoteConcat.LiteralIsPart | core/src/util.c:208-233 | a printed literal is scanned to its end, whatever it contains |
| QuoteConcat.SplitJoin | core/src/tableinfo.c:68-77 | splitting joined literals with their number gives exactly the literals back |
| QuoteConcat.SplitExample | core/src/util.c:203-271 | a text and a number with the delimiter between them, character by character |
| QuoteConcat.PrintInjective | core/src/tableinfo.c:64-77 | different values are printed differently, numbers digit by digit |
| QuoteConcat.EncodingInjective | core/src/tableinfo.c:68-77 | rows with different keys never share an encoding: equal encodings have equal keys |
| QuoteConcat.JoinWith | core/src/util.c:69-83 | fills its buffer exactly and never writes past its end |
| QuoteConcat.QuotedValuesAsList | core/src/changes-vtab-common.c:68-79 | the buffer has exactly room for the joined parts and their NUL |
| QuoteConcat.QuoteConcatedValuesAsList | core/src/changes-vtab-common.c:81-94 | split, then joined by commas, or nothing |
| SeenPeers.SiteIdCmp | core/src/util.c:471-487 | zero only for the same bytes in the same number, otherwise the byte order |
| SeenPeers.SeenPeers.Grow | core/src/seen-peers.c:67-75 | twice the room with the same entries |
| SeenPeers.SeenPeers.TrackSeenPeer | core/src/seen-peers.c:50-88 | the array changes as `Track` says, through any reallocation |
| SeenPeers.SeenPeers.Reset | core/src/seen-peers.c:90-100 | the list is empty again |
| SeenPeers.SeenPeers.WriteTrackedPeers | core/src/seen-peers.c:102-136 | every peer is upserted with the larger version |
| SeenPeers.TrackAllLists | core/src/seen-peers.c:50-88 | one entry for each site in first-seen order, with the largest version tracked |
| SeenPeers.RunRecords | core/src/changes-vtab.c:555-561 | after any run the table holds the largest version of every message up to the last commit that wrote to `crsql_changes`, rolled back ones included, and the list holds the later ones |
| SeenPeers.CommittedRecordsIff | core/src/changes-vtab.c:551-561 | the table holds the largest committed version of every site if and only if each rolled-back message written by a later commit is matched by a committed one of its site at least as large |
| SeenPeers.RolledBackWritten | core/src/changes-vtab.c:551-587 | a rolled-back version is written by the next commit that wrote to `crsql_changes` and not by one that did not |
| SeenPeers.CommittedRecords | core/src/ext-data.c:41-47 | over committed transactions that is the largest version ever tracked |
| PromiseQueue.PromiseQueue.Add | js/browser/wa-crsqlite/src/PromiseQueue.ts:71-84 | the task is chained to the queue, with the current exception count, and becomes the queue |
| PromiseQueue.PromiseQueue.Catch | js/browser/wa-crsqlite/src/PromiseQueue.ts:73-80 | only the first exception of an epoch starts a new queue |
| PromiseQueue.StepKeeps | js/browser/wa-crsqlite/src/PromiseQueue.ts:67-85 | every step of every schedule keeps the chains of the epochs |
| PromiseQueue.MutualExclusion | js/browser/wa-crsqlite/src/PromiseQueue.ts:67-85 | on every schedule at most one task runs |
| PromiseQueue.CalledInOrder | js/browser/wa-crsqlite/src/PromiseQueue.ts:67-85 | tasks are called in the order in which they were added, each once |
| PromiseQueue.NoneBehindAThrow | js/browser/wa-crsqlite/src/PromiseQueue.ts:73-80 | once a task threw, nothing queued behind it in its epoch is ever called |
| PromiseQueue.NothingStuck | js/browser/wa-crsqlite/src/PromiseQueue.ts:73-80 | when nothing can go on, every task is settled and every task added since the last exception was called and is done |

## Left out

- SQLite itself: SQL text generation, prepared statements and their errors, memory management. A statement is what it does
  to maps.
- Schema work: `crsql_as_crr`, alters, automigration, compatibility checks, dropped tables; tables without non-key columns
  and the `__crsql_pko` sentinel, whose clock is overwritten unconditionally; changes of unknown columns; changes of
  primary keys; malformed keys and values inside `crsql_mergeInsert`.
- SQL comparison of values: a value is its `quote()` text, and the update trigger's `!=` is inequality of that text for
  values that are not NULL.
- Compound primary keys and empty collection lists in collision repair, for which the source generates invalid SQL.
- Keys with bytes outside ASCII, where Rust slicing by bytes could split a character.
- Replication.Permitted: replicated runs contain no update that its trigger misses and no row inserted again after its
  delete; `ReplicationLimits` says what happens then.
- CursorSafety.Converged: says what holds once the cursors cover each other; that they ever do needs a network that
  delivers and notifications that run after the commit, neither of which is modelled.
- Transactions.BasicKept: a transaction of a push whose COMMIT itself fails is not modelled; a rollback happens before the
  cursor is recorded. The cache of pending queries in the wasm wrapper, which can give a read the result of an earlier
  one, counts as an earlier read.
- VersionCache.CacheAgrees: covers runs that do not fetch after changing the schema in the same transaction, which the
  source declares an error; clock tables are added and never dropped.
- Delivery.WindowHolds: every message is acknowledged at most once; after an ack too many the server only asks for the
  connection to be closed, and until it is closed the bound does not hold. The order of changes with equal version and
  table inside a message is left open.
- Delivery.AcceptedCovers: says which versions arrived, not what the arbitrary sender put into them.
- Delivery.ClientCatchesUp: the transactions that the client begins without waiting for them run in any order, each to
  its end; a client that stops before they ran, or in which one fails, is not modelled.
- Writes to the server's database other than by its connections.
- The client's own outgoing stream, which does not return when it is blocked; reconnects, sockets, WebRTC, logging, and
  the lookup of database files.
- Keys of a single column, whose text `crsql_extractWhereList` takes as it is. Blobs are printed with upper-case digits.
- Savepoints, allocation failures, and overflow of 64-bit versions.
- The ticks between the promise of a task and the promise of its catch handler, which are one step.
- The message codec, React hooks, the wasm and node wrappers.
