# Verified models of the Obsetync sync engine

This project models the parts of the plugin where a mistake loses or misplaces user data, and proves what they
promise. Each part is written in the form of its source: objects whose fields change are classes, loops are loops with
invariants, pure rules are functions, and every method is proved against a specification that is itself the subject of
lemmas. Foreign behaviour (servers, disks, hosts, worker threads, observers) is an arbitrary function or an arbitrary
sequence of events, so that the results hold for all of it.

| file | models |
|---|---|
| Common.dfy | optional values, safe integers, vault paths, lexicographic order |
| JournalKeys.dfy, JournalIndex.dfy | the three-map journal index and its stored keys |
| JournalLog.dfy, Journal.dfy | the meaning of a log, loading, and the queue that writes it |
| Crc32.dfy, JournalFormat.dfy, JournalJson.dfy, JournalImport.dfy | the journal text format, its checksum, its rows as JSON text, and the import of old journals |
| LegacyDowngrade.dfy | the crash-safe downgrade to the legacy files |
| DirtySet.dfy, DirtySession.dfy | the dirty path set, its transactions, and whole runs of operations on it |
| Deferred.dfy, DeferredTracker.dfy | the closure of withheld changes, the rename link registry, planning that yields to its host |
| BulkCodec.dfy, BulkPlanner.dfy, BulkTransfer.dfy | upload packs, download pages, the planner, and the two transfer loops |
| DiffPage.dfy | the paged diff codec and chains of pages |
| WorkerPool.dfy | native ownership in the desktop hash worker pool |

The central results are, for every input, run or interleaving:

- no resolved journal request is lost, and the durable state is the meaning of its log, whenever requests arrive, however
  they fall into batches, and whatever compaction and the store do (`Journals.ObsetyncJournal.Drain`,
  `JournalLog.RunMeansLog`);
- an encoded checkpoint parses back, with rows written as JSON text (`JournalFormat.CheckpointRoundTrip`,
  `JournalJson.JsonCheckpointRoundTrip`);
- the downgrade completes after any number of crashes and never loses an original
  (`LegacyDowngrade.Vault.SurviveCrashes`, `LegacyDowngrade.Vault.Run`);
- claim, add and restore commute in the dirty set, after every history of its operations
  (`DirtySets.DirtyPathSet.ClaimAddRestore`, `DirtySessions.FailedPush`);
- deferral never splits connected paths of a queue whose rows of one path agree on their generation, as those of the
  dirty set do, and its cooperative form equals its synchronous form (`DeferredClosures.PartitionKeepsTogether`,
  `DeferredTrackers.DeferredChangeTracker.PartitionCooperatively`);
- a rename link disappears only by an event that acknowledges both its ends
  (`DeferredTrackers.RemovedOnlyWhenAcknowledged`);
- the upload codec is a bijection, the planner is optimal, and both transfer loops are exact against any server
  (`BulkCodec.CodecIsBijective`, `BulkPlanner.Plan`, `BulkTransfer.Uploader.PutPack`, `BulkTransfer.Downloader.Fetch`);
- chains of diff pages are one ordered diff between one pair of snapshots (`DiffPages.ChainIsLinked`);
- a worker index has one owner, whatever observers and the factory do to the pool from inside its own calls, as long as
  the limit is raised only over clear indices (`WorkerPools.DesktopHashWorkerPool.Run`).

Six natural expectations turn out not to hold of the code. Each is shown by a run or an input, with the condition under
which the code meets it:

- importing the same old journal rows can succeed in one order and fail in another
  (`JournalImport.SuccessDependsOnOrder`); every order succeeds iff no two different rows share a generation and their
  paths (`JournalImport.EveryOrderImportsIffConflictFree`);
- a failed push can lose a watermark, after a foreign row with watermark -1 was restored
  (`DirtySessions.ForeignRowBreaksTheLaw`). For a given selection and given adds the restore law fails iff some selected
  watermark is negative, its path was added again, and all those adds had negative ids too
  (`DirtySets.DetachAddRestoreExactly`); so it holds for all adds iff no selected watermark is negative
  (`DirtySets.DetachAddRestoreIff`), which every history without a negative row ensures (`DirtySessions.Session.Run`);
- a queue that names a path twice, under two generations, can be split: another path shares the earlier generation and
  is connected to the path one way only (`DeferredClosures.RepeatedPathIsSplit`). Nothing is split iff every shared
  generation can be walked back, as it can when the rows of each path agree on their generation
  (`DeferredClosures.KeepsTogetherIff`);
- a downgrade that dies in the middle of a projection file can never be retried for the same cut
  (`LegacyDowngrade.StuckDowngrade`); a retry is possible iff the crash tore no projection file, and undisturbed it
  completes iff it is possible (`LegacyDowngrade.Vault.Activate`);
- one accepted diff page can name one text path twice (`DiffPages.TwinsInOnePage`); text paths are unique iff no byte
  path is an unmarked other one behind a byte order mark (`DiffPages.TextsAreUniqueIffNoTwins`);
- a worker pool whose limit is raised from inside its own report can own two workers of one index, in three ways: the
  report of a growth grows it again, after which a drain never ends (`WorkerPools.NestedGrowthStrandsAWorker`); the
  report of a failure lowers and raises the limit (`WorkerPools.RegrowthDuringFailureOwnsTwice`); the report of a restart
  does, and the slot is replaced twice (`WorkerPools.ReplannedRestartOwnsTwice`). It owns at most one as long as no
  limit is raised over an index that is being spawned, or that is enabled and whose dead and owned worker has not been
  asked to stop (`WorkerPools.DesktopHashWorkerPool.Run`). Where nothing else interferes such a raise does end in two
  owners, from every valid pool (`SetLimit`, `OnFailure` and `RestartTwice` of `WorkerPools.DesktopHashWorkerPool`).

Where the code and its comments differ the model follows the code. `DeferredTrackers.DeferredChangeTracker.CaptureSteps`
shows that the three counters of a dependency capture amount to one limit on pairs.

To verify everything: `dafny verify dfyconfig.toml`.

## Model

| member | source | states |
|---|---|---|
| `JournalKeys.TieIdentifies` | plugin/src/journal-index.ts:18-22 | Two rows of one generation share their identity text only if they are of the same kind and name the same paths, although paths may hold quotes, commas and backslashes |
| `JournalKeys.KeyTextOrder` | plugin/src/journal-index.ts:15-22 | Stored key strings (sixteen padded digits, colon, identity) compare exactly as generations do, ties by identity |
| `JournalKeys.KeyTextIdentifies` | plugin/src/journal-index.ts:15-22 | No two row identities are stored under one key string |
| `JournalKeys.KeyTotal` | plugin/src/journal-index.ts:15-22 | The row order is total and irreflexive |
| `JournalKeys.GenerationsFit` | plugin/src/journal-format.ts:60-86 | Every generation that validation admits fits the sixteen padded digits |
| `JournalIndices.AgreeDetermines` | plugin/src/journal-index.ts:72-75 | When the three maps agree, the two secondary maps are functions of the ordered rows |
| `JournalIndices.HasPathIsPending` | plugin/src/journal-index.ts:81-83 | hasPath answers from the secondary maps exactly what a scan of all pending rows would |
| `JournalIndices.InsertAgrees` | plugin/src/journal-index.ts:195-208 | Inserting a row under a free key keeps the three maps in agreement and adds that row only |
| `JournalIndices.AppendAgrees` | plugin/src/journal-index.ts:88-115 | append keeps the maps in agreement; a newer normal row replaces its predecessor |
| `JournalIndices.AppendDenotes` | plugin/src/journal-index.ts:88-115 | An accepted append turns the meaning of a log into the meaning of the log with one more entry |
| `JournalIndices.DropEndpointAgrees` | plugin/src/journal-index.ts:177-192 | One iteration of the endpoint walk settles that endpoint of that row and nothing else |
| `JournalIndices.Acknowledge` | plugin/src/journal-index.ts:129-193 | Errors exactly on invalid watermarks; otherwise every row of a covered generation loses the endpoint, no other row changes, and the maps agree, so the early break in the ordered walk loses nothing |
| `JournalIndices.WalkCovers` | plugin/src/journal-index.ts:167-193 | Visiting the path's normal row and the covered group keys settles every covered row |
| `JournalIndices.AcknowledgeDenotes` | plugin/src/journal-index.ts:129-193 | Acknowledging turns the meaning of a log into the meaning of the log with the raised watermark |
| `JournalIndices.DenotesDetermines` | plugin/src/journal-index.ts:72-225 | A log has one index: two indexes with the same meaning are equal |
| `JournalLog.ApplyOperation` | plugin/src/journal.ts:397-408 | The WAL row loop body equals the specified step: appends must carry the next generation, watermarks raise it |
| `JournalLog.RunMeansLog` | plugin/src/journal.ts:387-408 | For every accepted run the maps agree and hold exactly the pending rows of the log: the latest normal row of a path iff its id exceeds that path's greatest acknowledgement, each rename endpoint iff its id exceeds its own |
| `JournalLog.GenerationsIncrease` | plugin/src/journal.ts:397-408 | In every accepted run generations strictly increase and no append is covered by an earlier acknowledgement |
| `JournalLog.Records` | plugin/src/journal-index.ts:148-150 | records() lists every row once, in key order |
| `JournalLog.LoadSnapshot` | plugin/src/journal.ts:188-193 | The snapshot row loop gives what `LoadRows` gives, which `JournalLog.SnapshotRoundTrip` shows to be the inverse of listing |
| `JournalLog.LoadStore` | plugin/src/journal.ts:183-194 | Loading metadata, snapshot rows and WAL rows equals the specified load, including every refusal |
| `JournalLog.SnapshotRoundTrip` | plugin/src/journal.ts:188-193 | The loader accepts exactly the listings of sound indexes and rebuilds the very index |
| `JournalLog.LoadIsSound` | plugin/src/journal.ts:183-194 | Every store that loads gives a sound state |
| `Journals.SerialMeansLog` | plugin/src/journal.ts:225-281 | The state after any served requests is the meaning of every operation since the last clear, effective or not |
| `Journals.ObsetyncJournal.Enqueue` | plugin/src/journal.ts:287-310 | A request for nothing is answered at once; any other is queued at the tail iff the journal is not closing and its values are those the entry points accept; nothing else changes |
| `Journals.ObsetyncJournal.LoadInsideQueue` | plugin/src/journal.ts:180-195 | After loading, the journal is writable and its published index and counter are what the store holds |
| `Journals.ObsetyncJournal.Snapshot` | plugin/src/journal.ts:283-285 | A snapshot that is not lost loads back to the captured index and the same counter with an empty WAL; a lost one leaves the store as it was |
| `Journals.ObsetyncJournal.AssignAppends` | plugin/src/journal.ts:240-251 | A request's entries get the next consecutive generations; it fails exactly when those leave the safe range |
| `Journals.ObsetyncJournal.EffectiveAcks` | plugin/src/journal.ts:253-261 | Dropping acknowledgements without effect leaves a shorter log that replays to the same state |
| `Journals.ObsetyncJournal.PrepareAll` | plugin/src/journal.ts:236-264 | The prepared rows of a batch replay to the state of serving its requests one by one, with increasing new generations |
| `Journals.ObsetyncJournal.MutateInsideQueue` | plugin/src/journal.ts:225-281 | A batch succeeds exactly when every ownership test, store transaction and serial step does; then published state, stored state and serial state coincide; otherwise nothing is published and the store holds the old or the whole new state |
| `Journals.ObsetyncJournal.TakeBatch` | plugin/src/journal.ts:323-338 | A batch is a non-empty prefix of the queue: a lone control request, or adjacent mutations within the request and row limits, and as many of them as fit |
| `Journals.ObsetyncJournal.ServeBatch` | plugin/src/journal.ts:339-355 | One batch is stored as a whole or not at all; success means the store loads to the serial result; the counter never moves back and issued ids stay below it |
| `Journals.ObsetyncJournal.DrainOne` | plugin/src/journal.ts:322-355 | One turn of the drain loop stores its batch as a whole or not at all; a failure closes the journal until it is loaded again |
| `Journals.ObsetyncJournal.Drain` | plugin/src/journal.ts:320-358 | For every queue, every store behaviour and compaction point, and requests that arrive during any turn, nothing is left waiting and the durable state is that of serving a subsequence of the accepted requests one by one, which contains every resolved request; it is all of them unless some were rejected, and none is rejected when transactions are durable and the requests servable |
| `Journals.ObsetyncJournal.CloseAndDrain` | plugin/src/journal.ts:169-178 | A closing journal accepts nothing more, serves what waits under the same account, and ends closed for good |
| `Crc32.FillTableSlot` | plugin/src/journal-format.ts:33-37 | The masked shift loop computes the table entry of eight polynomial steps |
| `Crc32.TableDrivenIsBitSerial` | plugin/src/journal-format.ts:33-52 | The table-driven checksum equals the bit-serial CRC-32 of section 8 of RFC 1952 on every input |
| `Crc32.Add` | plugin/src/journal-format.ts:44-50 | The byte loop advances the register as the bit-serial definition does |
| `Crc32.DetectsBurst` | plugin/src/journal-format.ts:41-58 | Texts of equal length that differ only within four adjacent bytes have different checksums |
| `JournalFormat.ScanText` | plugin/src/journal-format.ts:90-157 | The offset loop equals a scan over the lines of the text |
| `JournalFormat.ParseJournal` | plugin/src/journal-format.ts:90-180 | parseJournal equals its specification: the line scan, then the projection of the loaded rows |
| `JournalFormat.ParseIsBounded` | plugin/src/journal-format.ts:143-172 | Accepted texts yield valid mutations and watermarks below the next generation, and the entries are the projection of both |
| `JournalFormat.EncodeCheckpoint` | plugin/src/journal-format.ts:191-207 | Encodes exactly the valid inputs, and the text parses back to the same entries, counter and generation under a matching seal, as long as the counts of the seal are safe integers |
| `JournalFormat.CheckpointRoundTrip` | plugin/src/journal-format.ts:191-207 | Parsing an encoded checkpoint returns its entries, counter and generation, for every faithful rendering of rows |
| `JournalFormat.TornAppendIsIgnored` | plugin/src/journal-format.ts:103-123 | Cutting the last row short changes nothing but the torn-tail flag |
| `JournalJson.RowDelimits` | plugin/src/journal-format.ts:191-207 | Rows as JSON text, the seal with its checksum as eight hexadecimal digits, are self-delimiting: no text begins with two different rows, whatever quotes or punctuation their paths and hashes hold |
| `JournalJson.JsonIsFaithful` | plugin/src/journal-format.ts:103-123 | JSON text is a faithful rendering: every row a writer produces is one non-blank line within the row limit that reads back as itself, and no proper beginning of it reads as a row |
| `JournalJson.JsonCheckpointRoundTrip` | plugin/src/journal-format.ts:191-207 | A checkpoint of JSON rows parses back to its entries, counter and generation |
| `JournalImport.ImportMutations` | plugin/src/journal.ts:206-209 | The append loop equals appending all mutations to the empty index |
| `JournalImport.ImportLegacy` | plugin/src/journal.ts:201-212 | A successful import means exactly the parsed mutations and watermarks, whatever order the watermarks come in |
| `JournalImport.ImportText` | plugin/src/journal.ts:201-212 | From journal text to index: for every path, pending in the index iff mentioned by the parser's own entries |
| `JournalImport.ImportKeepsPendingPaths` | plugin/src/journal-format.ts:158-172 | Coalescing hides no pending path of the uncoalesced projection and invents none |
| `JournalImport.ImportOrderIrrelevant` | plugin/src/journal-index.ts:88-115 | Two successful imports of the same mutations in any orders build the same index |
| `JournalImport.SuccessDependsOnOrder` | plugin/src/journal-index.ts:103-113 | Success itself is order-dependent: three rows refused in one order and accepted in another |
| `JournalImport.EveryOrderImportsIffConflictFree` | plugin/src/journal-index.ts:94-113 | Every permutation of the rows imports iff no two different rows share a generation and their paths |
| `LegacyDowngrade.InspectionIsExact` | plugin/src/legacy-downgrade.ts:193-229 | On every disk the protocol can leave, inspection names the exact phase, never corruption, and the sequence floor is known from the active phase on |
| `LegacyDowngrade.CleanReads` | plugin/src/legacy-downgrade.ts:162-229 | Without markers no downgrade is reported and current stores open |
| `LegacyDowngrade.StoresAreFenced` | plugin/src/legacy-downgrade.ts:162-188 | From the prepared marker on current stores refuse to open until the import is authorised |
| `LegacyDowngrade.HandedIsReadable` | plugin/src/legacy-downgrade.ts:148-158 | The hand-over state, with the projection in both legacy files, is readable by the legacy client |
| `LegacyDowngrade.InventoryIsExact` | plugin/src/legacy-downgrade.ts:449-451 | The captured inventory is exactly the sources that exist, in path order |
| `LegacyDowngrade.TornProjectionBlocksRetry` | plugin/src/legacy-downgrade.ts:327-338 | If a projection file already exists before the prepared marker, the same cut is possible iff it holds exactly the projected text, so a file torn by a crash blocks every retry |
| `LegacyDowngrade.StuckDowngrade` | plugin/src/legacy-downgrade.ts:327-465 | An activation that dies in the write of the projected journal, and after it any number of retries, none of which succeeds |
| `LegacyDowngrade.Vault.RetryForever` | plugin/src/legacy-downgrade.ts:431-468 | From any disk whose projection for this cut is torn, no sequence of activations, cut short or not, succeeds or leaves the initial stage |
| `LegacyDowngrade.Vault.WriteImmutable` | plugin/src/legacy-downgrade.ts:327-338 | Writes an absent file, keeps an equal one, refuses a different one, and changes nothing else; a crash leaves no file or the torn one |
| `LegacyDowngrade.Vault.MoveOnce` | plugin/src/legacy-downgrade.ts:344-353 | Never overwrites and never loses: one source moves to its archive slot or nothing changes |
| `LegacyDowngrade.Vault.MoveAll` | plugin/src/legacy-downgrade.ts:386-388 | After an undisturbed pass every source of the cut has left for the archive |
| `LegacyDowngrade.Vault.Promote` | plugin/src/legacy-downgrade.ts:391-403 | Both legacy files are written from the projection before the active marker vouches for them |
| `LegacyDowngrade.Vault.ResumePrepared` | plugin/src/legacy-downgrade.ts:371-404 | From any interruption of the first two stages an undisturbed resume reaches the hand-over state |
| `LegacyDowngrade.Vault.Resume` | plugin/src/legacy-downgrade.ts:409-426 | Refuses without a prepared cut, completes a prepared one into a state the legacy client reads, and only reads an active one |
| `LegacyDowngrade.Vault.SurviveCrashes` | plugin/src/legacy-downgrade.ts:371-426 | After any number of resumes cut short at any write, one undisturbed resume succeeds: both legacy files equal the projection, every source is archived, the active marker is written |
| `LegacyDowngrade.Vault.PrepareCut` | plugin/src/legacy-downgrade.ts:444-465 | The prepared marker becomes durable only when the cut was possible, and then opens the first stage; otherwise the sources are untouched, and the cut stays possible iff the crash tore no projection file |
| `LegacyDowngrade.Vault.Activate` | plugin/src/legacy-downgrade.ts:431-468 | Gated by tree version and quiescence; undisturbed, a new downgrade completes iff its cut is possible and an interrupted one always, readable by the legacy client; a crash before the prepared marker leaves the cut possible iff it tore no projection file; refuses an active one |
| `LegacyDowngrade.Vault.Authorize` | plugin/src/legacy-downgrade.ts:233-255 | Authorises an import only for an active, readable downgrade and a root sequence at or above its floor |
| `LegacyDowngrade.Vault.Complete` | plugin/src/legacy-downgrade.ts:259-274 | Completes an authorised import only |
| `LegacyDowngrade.Vault.CurrentClient` | plugin/src/legacy-downgrade.ts:162-188 | The current client is admitted iff no downgrade began or its import is authorised |
| `LegacyDowngrade.Vault.Run` | plugin/src/legacy-downgrade.ts:162-468 | Over every run of operations, clients and crashes the disk stays one the protocol can leave, stages never go back, and archives, projections and markers once written never change; inspection names the stage; current stores open only before a downgrade or after its import was authorised; every original is in exactly one of source and archive until the archived marker, and in the archive ever after |
| `DirtySets.DetachAddRestoreExactly` | plugin/src/dirty-set.ts:103-379 | On values: detaching rows, adds, then restoring the rows equals the adds alone iff every row with a negative watermark whose path was added again got an add with a non-negative id |
| `DirtySets.DetachAddRestore` | plugin/src/dirty-set.ts:103-111 | Detaching rows without negative watermarks, any adds, then restoring the rows equals the adds alone |
| `DirtySets.DetachAddRestoreIff` | plugin/src/dirty-set.ts:365-379 | The law holds of a selection, for all adds, iff none of its watermarks is negative |
| `DirtySets.DirtyPathSet.SetEntry` | plugin/src/dirty-set.ts:381-394 | An existing path keeps its place, a new one gets the next; both indexes stay in bijection; fails, changing nothing, only when the sequence is exhausted |
| `DirtySets.DirtyPathSet.Add` | plugin/src/dirty-set.ts:103-111 | The last hint wins, the watermark is the maximum, provenance is the own durable id; no other path changes |
| `DirtySets.DirtyPathSet.RestoreEntry` | plugin/src/dirty-set.ts:365-379 | A newer entry keeps its hint and provenance and only inherits the watermark; an absent one returns as it was |
| `DirtySets.DirtyPathSet.Detach` | plugin/src/dirty-set.ts:412-416 | A fresh row that alone remembers its entry |
| `DirtySets.DirtyPathSet.MakeCapture` | plugin/src/dirty-set.ts:137-149 | A capture remembers the whole current index |
| `DirtySets.DirtyPathSet.DetachClaimed` | plugin/src/dirty-set.ts:266-277 | Both indexes lose exactly the selection and every row carries its entry's provenance |
| `DirtySets.DirtyPathSet.Claim` | plugin/src/dirty-set.ts:203-232 | Range errors exactly on oversized, repeated or unsafe selections; succeeds iff every selected entry is the very entry that was captured; a refused claim changes nothing |
| `DirtySets.DirtyPathSet.ClaimHints` | plugin/src/dirty-set.ts:238-264 | Succeeds iff every row is an unmodified row of this owner whose entry is still live; a refused claim changes nothing |
| `DirtySets.DirtyPathSet.Take` | plugin/src/dirty-set.ts:281-287 | Returns every entry once, in insertion order, and empties both indexes |
| `DirtySets.DirtyPathSet.Iterate` | plugin/src/dirty-set.ts:131-133 | A row for every path, in insertion order, each with the provenance of its entry; the set is unchanged |
| `DirtySets.DirtyPathSet.Restore` | plugin/src/dirty-set.ts:291-299 | Restores each row with its proven provenance, or without any if the row was altered; if the sequence runs out, exactly the rows before |
| `DirtySets.DirtyPathSet.RestoreJournal` | plugin/src/dirty-set.ts:304-316 | A batch that is too long or has an unsafe path or no durable id changes nothing; any other is restored in order with its journal provenance, as far as the sequence reaches |
| `DirtySets.DirtyPathSet.CaptureRetirement` | plugin/src/dirty-set.ts:323-345 | Refuses unordered or invalid cuts; a token selects exactly the entries whose own id and watermark lie within their cut |
| `DirtySets.DirtyPathSet.CommitRetirement` | plugin/src/dirty-set.ts:349-363 | Stale or foreign tokens do nothing; a path is removed iff its live entry is the very entry captured |
| `DirtySets.DirtyPathSet.CaptureAddCommit` | plugin/src/dirty-set.ts:323-363 | Capture, any adds, commit: a path is retired only if it was not touched after the capture and its entry was journaled within the cut |
| `DirtySets.DirtyPathSet.ClaimAddRestore` | plugin/src/dirty-set.ts:203-299 | A failed push: the claim succeeds iff the selection is current, and then claim, any adds, restore leaves the restored rows under the adds, which is per path what the adds alone would have left iff no add loses a negative watermark of the selection, so always if none is negative |
| `DirtySets.DirtyPathSet.ClaimHintsAddRestore` | plugin/src/dirty-set.ts:238-299 | The same, with the same exact condition, for a claim by rows, which succeeds iff they are unmodified rows of this set whose entries are live |
| `DirtySets.DirtyPathSet.TakeAddRestore` | plugin/src/dirty-set.ts:281-299 | The same, with the same exact condition, for a take of everything, restored in insertion order |
| `DirtySessions.Session.Perform` | plugin/src/dirty-set.ts:103-316 | Every operation, on any rows and captures handed out before and on rows the caller made or rewrote, keeps the set valid, leaves a retirement in flight alone, and makes no watermark negative unless such a row had one |
| `DirtySessions.Session.Run` | plugin/src/dirty-set.ts:103-316 | So does every run of operations |
| `DirtySessions.FailedPush` | plugin/src/dirty-set.ts:203-299 | After every history without a negative row the claim of a selection succeeds iff it is admissible and present, and claim, any adds, restore equals the adds alone |
| `DirtySessions.ForeignRowBreaksTheLaw` | plugin/src/dirty-set.ts:291-379 | A run through restore, claim, add and restore that ends elsewhere than the adds alone, because a foreign row had watermark -1 |
| `DirtySessions.Session.CaptureRunCommit` | plugin/src/dirty-set.ts:323-363 | Capture, any operations, commit: a path is retired iff a cut covered its entry at the capture and its entry is still that object, and then hint, watermark and provenance are those captured |
| `DeferredClosures.ReachedIsLeast` | plugin/src/deferred-changes.ts:133-197 | A set that holds the seeds, only reachable paths and is closed under links and shared generations is the closure |
| `DeferredClosures.ClosureKeepsTogether` | plugin/src/deferred-changes.ts:133-197 | No closure puts two connected queued paths on different sides, if the rows of one path agree on their generation |
| `DeferredClosures.KeepsTogetherIff` | plugin/src/deferred-changes.ts:133-197 | Whatever is withheld, no two connected queued paths are put on different sides iff every path can be walked back to from the rows that share a generation of it; queues that name each path once, or under one generation, are such |
| `DeferredClosures.RepeatedPathIsSplit` | plugin/src/deferred-changes.ts:141-196 | Every queue of a path under two generations and another path under the earlier one is split when the first path is withheld |
| `DeferredClosures.ClosureIsStable` | plugin/src/deferred-changes.ts:133-197 | Closing what was held adds nothing |
| `DeferredClosures.GroupsAreCarriers` | plugin/src/deferred-changes.ts:141-150 | The generation groups list exactly the queued rows that carry the generation |
| `DeferredClosures.Include` | plugin/src/deferred-changes.ts:163-173 | A path not seen before joins the worklist and, if queued, is held as dependent; refused only when the closure exceeds the visit limit |
| `DeferredClosures.FollowArc` | plugin/src/deferred-changes.ts:180-186 | One edge visit: counts the arc, includes its end; refused only when the closure is inadmissible |
| `DeferredClosures.ExplorationEnds` | plugin/src/deferred-changes.ts:174-196 | When every listed path is expanded, exactly the closure is held, although each generation group was expanded once and deleted |
| `DeferredClosures.PartitionKeepsTogether` | plugin/src/deferred-changes.ts:245-300 | Two connected queued changes are both ready or both held, if the rows of one path agree on their generation |
| `DeferredClosures.ReadyIsTheRest` | plugin/src/deferred-changes.ts:288-293 | Each change is ready as often as it was materialised, or not at all if its path is held |
| `DeferredClosures.SettlementSplitsTheQueue` | plugin/src/deferred-changes.ts:528-560 | Every queued row is retained or, if journaled, acknowledged through its own generation; nothing else is acknowledged |
| `DeferredClosures.SettlementKeepsTogether` | plugin/src/deferred-changes.ts:519-560 | A path connected to an acknowledged one is not held back, if the rows of one path agree on their generation |
| `DeferredClosures.SameMeansEqual` | plugin/src/deferred-changes.ts:125-128 | Records under one key that agree in all compared scalars are equal, so skipping the write hides no change |
| `DeferredClosures.RetryIsNotPostponed` | plugin/src/deferred-changes.ts:540-554 | However often other work settles, an unchanged withheld source keeps its first retry time until that time has come |
| `DeferredTrackers.DeferredChangeTracker.LinkBetween` | plugin/src/deferred-changes.ts:335-344 | One shared link per pair, created on first use under both directions, with a new witness |
| `DeferredTrackers.DeferredChangeTracker.RegisterLegacyRename` | plugin/src/deferred-changes.ts:332-363 | Refuses invalid generations; otherwise raises the pair's generation or adds one pending registration, on one object shared by both directions; every change replaces the witnesses |
| `DeferredTrackers.DeferredChangeTracker.Confirm` | plugin/src/deferred-changes.ts:354-362 | The first valid confirmation ends one pending registration, in its generation or as uncertain; later ones and inert handles change nothing |
| `DeferredTrackers.DeferredChangeTracker.RetireAcknowledgedLinks` | plugin/src/deferred-changes.ts:592-609 | Removes exactly the links that are confirmed, certain, of a known generation and acknowledged at both ends through it; symmetry, sharing and non-empty adjacency stay |
| `DeferredTrackers.DeferredChangeTracker.CommitAcknowledged` | plugin/src/deferred-changes.ts:581-590 | Refuses any invalid watermark before changing anything; otherwise retires by the greatest watermark of each path |
| `DeferredTrackers.DeferredChangeTracker.CommitSettlement` | plugin/src/deferred-changes.ts:571-576 | Only an uncommitted settlement retires links, and only once |
| `DeferredTrackers.RemovedOnlyWhenAcknowledged` | plugin/src/deferred-changes.ts:592-609 | Over every run of events, a link that is there after the first n and gone at the end was retired by a later event, an acknowledgement or the commit of a settlement that an earlier event issued and none committed since, which acknowledges both its ends through its generation while it is confirmed and certain |
| `DeferredTrackers.OpenWasIssued` | plugin/src/deferred-changes.ts:495-576 | An open settlement was issued by an event of the run and not committed since, with the acknowledgements that event computed |
| `DeferredTrackers.UncertainIsForever` | plugin/src/deferred-changes.ts:592-609 | A pair with an ambiguous append stays linked after every continuation of the run |
| `DeferredTrackers.DeferredChangeTracker.Play` | plugin/src/deferred-changes.ts:332-609 | Every run of register, confirm, settle and acknowledge keeps the registry invariants (symmetry, one object per pair, no empty adjacency, counters equal to the unconfirmed registrations), and links, awaited registrations and open settlements are those the events prescribe |
| `DeferredTrackers.DeferredChangeTracker.HasLinkedPath` | plugin/src/deferred-changes.ts:317 | A path is linked iff it is an endpoint of some pair |
| `DeferredTrackers.LinksAreSymmetric` | plugin/src/deferred-changes.ts:335-344 | The link graph of every tracker is symmetric |
| `DeferredTrackers.DeferredChangeTracker.Yield` | plugin/src/deferred-changes.ts:463-489 | A planner goes on after a yield only if everything it reads is as it was, and always if the host did nothing |
| `DeferredTrackers.DeferredChangeTracker.IncludeLinked` | plugin/src/deferred-changes.ts:133-197 | The worklist returns exactly the closure; with admission enforced it refuses iff the closure exceeds the path or the edge limit |
| `DeferredTrackers.DeferredChangeTracker.CollectCooling` | plugin/src/deferred-changes.ts:262-275 | Holds exactly the changes whose unchanged source is still known to be unavailable |
| `DeferredTrackers.DeferredChangeTracker.PartitionSteps` | plugin/src/deferred-changes.ts:245-300 | The partition policy as a function of queue, changes, records and links, or an interruption |
| `DeferredTrackers.DeferredChangeTracker.PartitionNow` | plugin/src/deferred-changes.ts:439-447 | The synchronous partition returns that function's value and changes nothing |
| `DeferredTrackers.DeferredChangeTracker.PartitionCooperatively` | plugin/src/deferred-changes.ts:452-490 | Whatever the host does at each yield, the cooperative partition fails or returns the synchronous result on the starting state; with a host that does nothing it returns that result |
| `DeferredTrackers.DeferredChangeTracker.SettleRow` | plugin/src/deferred-changes.ts:529-559 | Files or drops one record as specified; the planning witness is new whenever the records changed |
| `DeferredTrackers.DeferredChangeTracker.SettleQueue` | plugin/src/deferred-changes.ts:495-564 | Refuses malformed outcomes unchanged; otherwise the retained rows, acknowledgements and records are those of the closure |
| `DeferredTrackers.DeferredChangeTracker.CaptureSteps` | plugin/src/deferred-changes.ts:206-235 | One row per linked pair and nothing else; refused iff there are more pairs than the limit, although three counters are compared |
| `DeferredTrackers.DeferredChangeTracker.CaptureDependencies` | plugin/src/deferred-changes.ts:368-372 | The uncapped snapshot has one row per linked pair |
| `DeferredTrackers.DeferredChangeTracker.CaptureCooperatively` | plugin/src/deferred-changes.ts:377-405 | Limits outside 1 to 65536 are refused; otherwise the capture returns the pairs linked at its start, is refused for size iff they exceed the limit, or fails because the host interfered |
| `DeferredTrackers.PairsBoundArcs` | plugin/src/deferred-changes.ts:212-222 | Twice the number of pairs bounds the paths and the edges that a capture visits |
| `BulkCodec.WordRoundTrip` | plugin/src/bulk-codec.ts:495-508 | A little-endian word is read as n iff its four bytes are the encoding of n |
| `BulkCodec.HexToHash` | plugin/src/bulk-codec.ts:415-422 | Accepts exactly 64 hexadecimal digits of either case |
| `BulkCodec.HashToHex` | plugin/src/bulk-codec.ts:408-413 | Accepts exactly 32 bytes and writes a hash, two lower-case digits per byte |
| `BulkCodec.HexRoundTrip` | plugin/src/bulk-codec.ts:408-422 | Bytes survive the trip through hexadecimal text |
| `BulkCodec.HexIsLowerCase` | plugin/src/bulk-codec.ts:408-422 | A hash that goes through bytes comes back in lower case |
| `BulkCodec.PackLength` | plugin/src/bulk-codec.ts:109-117 | The exact encoded length, refused for malformed records and where the sum leaves 32 bits |
| `BulkCodec.WriteRecord` | plugin/src/bulk-codec.ts:265-271 | The in-place writes of one record give its specified bytes |
| `BulkCodec.EncodeUploadPack` | plugin/src/bulk-codec.ts:247-274 | Encodes exactly the packs within the limits, into one buffer that holds the specified bytes |
| `BulkCodec.DecodeUploadPack` | plugin/src/bulk-codec.ts:276-325 | Equals the specified decoder on every input; an accepted body is the encoding of its records |
| `BulkCodec.DecodeOfEncode` | plugin/src/bulk-codec.ts:247-325 | Decoding an encoded pack returns the records with lower-case hashes |
| `BulkCodec.EncodeOfDecode` | plugin/src/bulk-codec.ts:276-325 | Every accepted body is the encoding of what it decodes to |
| `BulkCodec.CodecIsBijective` | plugin/src/bulk-codec.ts:247-325 | A body decodes to the normal form of a pack iff it is that pack's encoding |
| `BulkCodec.BitmapIsCanonical` | plugin/src/bulk-codec.ts:396-403 | A bitmap agrees with the cursor and has clear padding iff it is the canonical bitmap of that cursor |
| `BulkCodec.DecodeDownload` | plugin/src/bulk-codec.ts:375-406 | Accepts exactly the pages with the expected count, a cursor that does not move back, the canonical bitmap and a valid pack, and returns their content |
| `BulkPlanner.PieceIsEncodable` | plugin/src/bulk-codec.ts:247-274 | A pack stays encodable when records are dropped at either end |
| `BulkPlanner.EligibleIffEncodable` | plugin/src/bulk-codec.ts:143-145 | The planner's eligibility of a record is the encoder's acceptance of it alone |
| `BulkPlanner.Plan` | plugin/src/bulk-codec.ts:122-162 | Refuses invalid limits and records; otherwise the steps concatenate to the input, bulk steps are encodable, single steps are ineligible records, and no order-preserving plan has fewer steps |
| `BulkPlanner.GreedyIsShortest` | plugin/src/bulk-codec.ts:122-162 | A greedy plan is no longer than any order-preserving plan under the same limits |
| `BulkPlanner.Split` | plugin/src/bulk-codec.ts:168-199 | Two non-empty ordered parts of the records; the first at most half the payload plus one record, the second at most half or one record |
| `BulkTransfer.Uploader.Refused` | plugin/src/api.ts:1555-1582 | A refused pack of several records is halved and the byte limit lowered to the larger half, if that is lower; a lone record gives up packs; nothing is ever raised |
| `BulkTransfer.Uploader.Post` | plugin/src/api.ts:1529-1616 | At most three posts; done only when the last answer acknowledges every record as stored or already present |
| `BulkTransfer.Uploader.PutSingly` | plugin/src/api.ts:1620-1621 | Stores the records in order until the first failure; every record counted has an answer that says it is stored |
| `BulkTransfer.Uploader.PutPack` | plugin/src/api.ts:1513-1627 | For every server: ends after at most 2n-1 packs of three posts; what is counted as delivered is a prefix of the records in order, all of them on success, each with an answer that says it is stored; limits are only lowered; a server that refuses only for size or absence gets everything |
| `BulkTransfer.UniqueIsUnique` | plugin/src/api.ts:1166 | The de-duplicated names are exactly the lower-cased names, each once |
| `BulkTransfer.Retain` | plugin/src/api.ts:1176-1190 | Keeps an object iff the budget admits it; the byte count is the sum of the kept objects |
| `BulkTransfer.ApplyPage` | plugin/src/api.ts:1292-1307 | Kept names are those of the page, in request order, each once; every new object is a record of the page, of the asked kind, under its own hash |
| `BulkTransfer.Downloader.FetchPage` | plugin/src/api.ts:1219-1308 | One page request advances the cursor; every object it keeps was given by an answer for that name |
| `BulkTransfer.Downloader.FetchGroup` | plugin/src/api.ts:1217-1312 | The cursor loop ends after at most one request per name with every name of the group kept, with bytes some answer gave for it |
| `BulkTransfer.Downloader.Fetch` | plugin/src/api.ts:1158-1315 | For arbitrary answers: fails, or returns exactly the de-duplicated names in request order, each kept once with bytes some answer gave for it, within the retention budget, with at most one page request per name |
| `DiffPages.VarintIsLeb` | plugin/src/diff-page-codec.ts:282-298 | Accepted varints are exactly the canonical LEB128 encodings (section 7.6 of DWARF Version 5) of 32-bit values |
| `DiffPages.DecodeVarint` | plugin/src/diff-page-codec.ts:282-298 | The digit loop equals that decoder on every input |
| `DiffPages.SafeRoundTrip` | plugin/src/diff-page-codec.ts:300-307 | A 64-bit field is accepted iff it encodes a safe integer, and then as that integer |
| `DiffPages.CursorRoundTrip` | plugin/src/diff-page-codec.ts:240-269 | Accepted cursors are exactly the encodings of well-formed cursors |
| `DiffPages.DeltaRoundTrip` | plugin/src/diff-page-codec.ts:145-194 | Accepted records are exactly the encodings of well-formed records |
| `DiffPages.CompareBytes` | plugin/src/diff-page-codec.ts:325-331 | The byte comparison decides equality and lexicographic order |
| `DiffPages.CompareKeys` | plugin/src/diff-page-codec.ts:320-323 | Zero iff the keys are equal, negative iff the first is less by path, then action, then rename source |
| `DiffPages.FollowsKey` | plugin/src/diff-page-codec.ts:175-181 | A record is accepted after another iff its path is strictly greater |
| `DiffPages.ReadRecords` | plugin/src/diff-page-codec.ts:140-196 | The record loop accepts iff all records decode, in strictly increasing path order, and nothing is left over |
| `DiffPages.DecodeDiffPage` | plugin/src/diff-page-codec.ts:103-208 | Accepts exactly the encodings of pages that answer the request: expected roots, continued cursor, ordered records, a next cursor that names the last record |
| `DiffPages.ChainIsLinked` | plugin/src/diff-page-codec.ts:103-208 | Over every chain of accepted pages all records belong to one pair of roots, paths increase across pages, and every continued page made progress |
| `DiffPages.PathsIncrease` | plugin/src/diff-page-codec.ts:175-181 | Earlier paths of a chain are strictly less than later ones, so no byte path occurs twice |
| `DiffPages.SameTextIffMarked` | plugin/src/diff-page-codec.ts:271-280 | Two byte paths share their decoded text iff one is the other behind a byte order mark, so text paths may repeat where byte paths do not |
| `DiffPages.TextsAreUniqueIffNoTwins` | plugin/src/diff-page-codec.ts:175-181 | The records of a page or a chain name distinct text paths iff no byte path is an unmarked other one behind a byte order mark |
| `DiffPages.TwinsInOnePage` | plugin/src/diff-page-codec.ts:103-208 | With every decoder that drops a byte order mark, a page with the paths "a" and byte order mark "a" is accepted, and both decode to the same text |
| `DiffPages.TwinsInPlainText` | plugin/src/diff-page-codec.ts:103-208 | The same with a decoder of plain text written out |
| `WorkerPools.RegrowthDuringFailureOwnsTwice` | plugin/src/desktop-hash-workers.ts:674-702 | A run in which the report of a failure lowers and raises the limit: the failed worker and a new one own the same index |
| `WorkerPools.ReplannedRestartOwnsTwice` | plugin/src/desktop-hash-workers.ts:516-557 | A run in which a worker exits and the report of its restart lowers and raises the limit: it is replaced twice, and both replacements own its index |
| `WorkerPools.DesktopHashWorkerPool.RestartTwice` | plugin/src/desktop-hash-workers.ts:407-721 | From every valid pool with a continuation whose restart report does that, and nothing else interferes, the two continuations leave two owners of the index |
| `WorkerPools.NestedGrowthStrandsAWorker` | plugin/src/desktop-hash-workers.ts:516-557 | A run without any failure in which the report of a spawn raises the limit again: one worker is seated over another, closing never asks the first to stop, and the requested drain stays unresolved |
| `WorkerPools.ClashIsHazard` | plugin/src/desktop-hash-workers.ts:516-557 | In a sound pool a worker is seated over an owned one only after the limit was raised over an index that was not clear |
| `WorkerPools.DesktopHashWorkerPool.Start` | plugin/src/desktop-hash-workers.ts:316-329 | The constructor's spawns keep the pool invariants and raise no limit; a failure closes the pool and requests its drain |
| `WorkerPools.DesktopHashWorkerPool.CompleteDrain` | plugin/src/desktop-hash-workers.ts:509-514 | The drain resolves exactly when closed, requested, nothing owned and nothing being spawned, and stays resolved |
| `WorkerPools.DesktopHashWorkerPool.Confirm` | plugin/src/desktop-hash-workers.ts:836-842 | A confirmed exit releases exactly that worker and settles its pending termination as success |
| `WorkerPools.DesktopHashWorkerPool.Terminate` | plugin/src/desktop-hash-workers.ts:753-824 | Afterwards a termination has been asked for; in a closed pool, and with a promised exit, no other slot changes, and with a promised exit the worker stays owned |
| `WorkerPools.DesktopHashWorkerPool.Close` | plugin/src/desktop-hash-workers.ts:475-494 | Every current slot is dead, without planned restart, and being terminated; workers that are no current slots are left as they are |
| `WorkerPools.DesktopHashWorkerPool.CloseAndDrain` | plugin/src/desktop-hash-workers.ts:500-507 | The pool is closed and its drain requested, and resolved as soon as nothing is owned or being spawned; workers that are no current slots are left as they are |
| `WorkerPools.DesktopHashWorkerPool.Spawn` | plugin/src/desktop-hash-workers.ts:516-599 | Over a vacant or disabled index, and over any once the limit was raised carelessly, the invariants hold although observers and the factory may close the pool or change its limit to any depth meanwhile; undisturbed, one new worker takes the seat and nothing else changes; a starting report that grows the pool over the index leaves a worker without a seat |
| `WorkerPools.DesktopHashWorkerPool.OnFailure` | plugin/src/desktop-hash-workers.ts:674-724 | The failed worker is dead and being terminated; without nested limit changes no seat changes and an unrecoverable failure disables the index; from every valid pool, a report that lowers and raises the limit over the failing worker leaves two owners of its index |
| `WorkerPools.DesktopHashWorkerPool.Resume` | plugin/src/desktop-hash-workers.ts:707-721 | A continuation is consumed, and a slot is replaced only if a restart was planned, the exit confirmed, the pool open and the index within the limit; undisturbed, it is then replaced, which clashes iff its seat is still owned |
| `WorkerPools.DesktopHashWorkerPool.SetLimit` | plugin/src/desktop-hash-workers.ts:407-473 | Out-of-range limits are refused; without nested changes the limit is the new one iff it succeeds, and after a decrease every slot above it is leaving without planned restart; undisturbed growth by one seats one worker and clashes iff the seat is owned, and over a slot that is being terminated it plans a restart instead; growth by one over a dead and owned slot that was not asked to stop leaves two owners; every raise is recorded with the pool it found |
| `WorkerPools.DesktopHashWorkerPool.OnExit` | plugin/src/desktop-hash-workers.ts:560-570 | An exit is authoritative however late: the worker is released and dead; a worker in service that may restart has its restart waiting and, if nobody acts on the report, nothing else changes |
| `WorkerPools.DesktopHashWorkerPool.OnNotTerminated` | plugin/src/desktop-hash-workers.ts:779-817 | A timeout or rejection settles a pending termination as failure and disables the index, and the worker stays owned iff it was |
| `WorkerPools.DesktopHashWorkerPool.Run` | plugin/src/desktop-hash-workers.ts:407-842 | In every interleaving of messages, failures, exits, late terminations, continuations, limit changes and closing, with foreign code calling back to any depth: unless some recorded raise was over an index that was not clear, at most one worker is owned per index and at most workerCount in all and replacement follows confirmed exit; without nested limit changes no such raise happens; and the drain is resolved iff requested, closed, nothing owned and nothing being spawned |
| `WorkerPools.FewIndices` | plugin/src/desktop-hash-workers.ts:298-306 | Owners with distinct indices below the capacity are at most the capacity |

## Left out

- Encryption, session negotiation, HTTP and WebSocket framing and routing: the transport's answers are arbitrary values.
- User interface, settings, logging and performance tracing.
- Native reads, WASM hashing and the validation of worker results: a reply is valid or not.
- The persistent AVL trees and the segmented store: maps, and a store whose transactions are durable, lost or uncertain.
- UTF-8 and SHA-256: functions with the laws that are needed (decoding is injective up to a byte order mark, digests do not collide). JSON text is written out for journal rows only.
- JournalJson.JsonIsFaithful: rows are read by the inverse of the writer, so other spellings of the same JSON (white space, field order, escapes) are not read.
- Vault path lengths are counted in code points, and lone surrogates are not told apart.
- Promise scheduling, queue liveness and fairness: only states between atomic handlers, except where planning yields to its host.
- Journals.ObsetyncJournal.constructor: takes a store that loads; a store that does not is refused by `JournalLog.LoadStore` and never becomes writable.
- Journals.ObsetyncJournal.LoadInsideQueue: models a present store; the import of an absent one is `JournalImport.ImportText`, and the downgrade gate before it is `LegacyDowngrade.StoresAreFenced`.
- Journals.ObsetyncJournal.Enqueue: merging of equal paths, and the length and order tests of owned acknowledgements, happen before it.
- JournalFormat.ParseJournal: field-by-field JSON validation is a predicate on rows.
- LegacyDowngrade.Vault.Activate: saving the journal and the sync base, and building the projection text, happen before the modelled part; the projected base is taken to be one the released client reads.
- LegacyDowngrade.InventoryIsExact: the fixed source paths are numbered in path order.
- The loss of the downgrade's authority lease is an interruption like a crash.
- The dirty set's tracking observer (captureTracking) and its paths view; iteration is not lazy.
- DeferredTrackers.DeferredChangeTracker.PartitionSteps: the order of the deferred list, which follows map insertion, is not stated; the caller's arrays are immutable, so their length tests are left out.
- DeferredTrackers.DeferredChangeTracker.CaptureSteps: the order of the captured rows is not stated.
- hasRunnable and summary of the deferred-change tracker.
- BulkTransfer.Uploader.Post: retry delays and the wording of failures.
- BulkTransfer.Downloader.Fetch: names are lower-cased in ASCII only, and the frame budget of the data lane is left out of the request.
- Bulk check requests and capability negotiation.
- DiffPages.DecodeDiffPage: the text decoder is a parameter; the page's textual deltas follow from its byte records.
- WorkerPools.DesktopHashWorkerPool.SetLimit: what growth by several indices seats, and what a failed growth takes back, is not stated beyond the pool invariants.
- WorkerPools.DesktopHashWorkerPool.Run: foreign code runs inside reports and the factory, and may change the limit and close or drain the pool there; the worker's own terminate and listener calls do not call back; jobs are a busy flag, so queue admission, aborts and lifetime trackers are left out. A raise over an index that is not clear need not end in two owners, because the spawn it leads to may still be refused or fail; `SetLimit`, `OnFailure` and `RestartTwice` state when it does under foreign code that does nothing more.
- WorkerPools.DesktopHashWorkerPool.Start: nobody else holds the pool while it is constructed, so nothing calls back.
- JournalFormat.CheckpointRoundTrip: is about checkpoints whose record and byte counts are safe integers, which the seal needs.
