# Verified model of the archive export and the device sync engine

This Dafny project models two parts of the AI bridge repository and proves what they promise.

**The packed export of the worker.** A store-only ZIP32 archive is produced in arbitrarily small persisted steps
under three budgets, cut into fixed 5 MiB multipart parts, and completed through compare-and-set checkpoints and
retries. The format is the one of PKWARE's APPNOTE.TXT (sections 4.3.7, 4.3.9, 4.3.12, 4.3.16 and 4.4.7). The
modules are `Bytes`, `Crc32`, `ZipPlan`, `ZipFormat`, `ZipWriter`, `ZipRuns`, `ZipReader` and `PackedExport`.

**The sync engine of the plugin.** A durable journal (base revisions, a queue of conditional operations, one
pending remote apply, cursor and epoch, attention, owner decisions) is driven by the apply engine, the
reconciliation controller, the publication controller, the cycle controller and the coexistence fence, while the
user edits, storage fails and the process dies. The modules are

- `DeviceState`, `OperationQueue`, `JournalSteps`: the document and every transition on it, as functions;
- `JournalCustody`, `JournalOrder`, `JournalProgress`: what each transition and every run of them keeps;
- `DeviceJournal`: the object that commits transitions with read-back and releases bytes to the network;
- `Publication`, `LocalDeletes`: flushing the queue and admitting local deletes;
- `TextDevice`, `ApplyOutcome`, `TextApply`: one device, the outcome an apply must reach, and the engine;
- `Reconciliation`, `ReconciliationRuns`: feed replay and the manifest walk, with the completeness of the cursor
  over one call and over whole runs against a server that keeps publishing;
- `DesktopSync`, `Coexistence`: event order, exclusion and timers; the fence around owner decisions;
- `SettingsScope`: which settings paths are admitted, and the walk that lists them.

Two things decide how to read the results.

- *Interference is explicit.* Every await of the source is a point where a `Host`, `Environment`, `Weather`,
  `Faults` or `Sight` value decides what happens: an edit, a refusal, a lost answer, a failed write, a crash. A
  property without a `Quiet` or `Calm` premise holds for every choice the outside makes.
- *Destructive steps carry their justification as a precondition.* `TextDevice.Process`, `Trash` and `Rename` can
  be called only with a version that is the base on record or a named copy whose bytes were read back. That all
  calls of the engine meet those preconditions, for every host, is what the code checks before it takes text away.
  It is less than the promise, which is about the base this epoch confirmed; the first point below gives the gap.

## What the code does not guarantee

At seven points the code does less than the promises around it suggest. The model follows the code; each is
reached from a concrete input, and each has the exact condition, over all inputs, under which the promise holds.

- *Text confirmed in an old epoch can be overwritten or trashed without a copy*
  (`apps/plugin/src/sync/text-apply.ts:1017-1018` and `1051-1052`): a file counts as clean when its bytes are the
  base on record, and the test never asks whether the path is stale. `NewEpochLosesOldText` runs from an empty
  journal to a put of the new epoch after which the text stands nowhere. `OnlyExposedTextIsLost` shows, for every
  put and delete at every step, that a text survives if and only if it is not exposed in this way;
  `OnlyStaleTextIsExposed` shows the same of every single removal, with every interference: it takes a base of
  this epoch or a verified copy if and only if the path is not stale or a named copy holds the version.
- *A delete row can pass without being confirmed* (`apps/plugin/src/sync/reconciliation.ts:786-791`): the test for
  an obsolete delete ignores that the base may belong to an old epoch. `StaleBaseSwallowsADelete` reaches such a
  state from an empty journal; `ObsoleteDeleteIsConfirmed` shows that the row is confirmed if and only if its path
  is not stale.
- *Two rows that share a sequence number can hide one another* (`apps/plugin/src/sync/text-apply.ts:206` and
  `300-319`): a pending apply is resumed for any row with its sequence number, and `applyCurrent` borrows the next
  one. `SharedSequenceSwallowsARow` runs from an empty journal to a resting apply of number cursor + 1, past which
  the cursor moves over a row that nothing holds. `ApplyChange` gives the condition: behind a pending put or delete
  of another path, the row is held afterwards if and only if it was confirmed before.
- *A rename out of scope leaves its source as it was* (`apps/plugin/src/sync/reconciliation.ts:772-778`): the cursor
  passes the row because its destination is excluded, and the path it left keeps its live base and its file.
  `ExcludedDestinationSwallowsItsSource` reaches this; `Accept` shows that with nothing pending the source of a
  replayed rename is passed unconfirmed if and only if the destination is excluded and the source is in scope with a
  base that is stale or older than the rename.
- *A queued put can be discarded against a base of an old epoch* (`apps/plugin/src/sync/publication.ts:816-833`):
  `DiscardTrustsAStaleBase`; `DiscardIsTrusted` shows that this happens exactly when the path is stale.
- *Coalescing does not preserve meaning for renames* (`apps/plugin/src/sync/device-journal.ts:163-191`):
  `CoalescingRenamesChangesMeaning`; `RenamesCoalesceExactly` gives the exact condition, for every queue and vault.
  For puts and deletes it does, for every queue (`CoalescingPreservesMeaning`).
- *A rename confirmation trusts a side it was given no base for* (`apps/plugin/src/sync/device-journal.ts:429-484`):
  `RenameTrustsAWithheldSide`; `StaleSideIsConfirmed` gives the exact condition for either side. The apply engine
  never withholds a side whose base is stale (`RenameTrustsBothSides`).

## Model

| member | source | states |
|---|---|---|
| Crc32.BuildTable | apps/worker/src/application/export-zip.ts:103-108 | every table entry is eight clocks of the bit-serial register with polynomial 0xEDB88320 |
| Crc32.TableByteIsSerial | apps/worker/src/application/export-zip.ts:459-464 | one table step equals eight bit-serial clocks, for every register and byte |
| Crc32.UpdateCrc32 | apps/worker/src/application/export-zip.ts:459-464 | folding a range through the table equals the bit-serial register over that range |
| Crc32.BitSerialSplits | apps/worker/src/application/export-zip.ts:459-464 | folding any split of a payload gives the register of the whole payload |
| Crc32.ChecksumDetectsOneByte | apps/worker/src/application/export-zip.ts:459-464 | two payloads that differ in one byte have different checksums |
| ZipFormat.EncodeLocalHeader | apps/worker/src/application/export-zip.ts:394-409 | the buffer filled field by field is the local file header record |
| ZipFormat.EncodeDataDescriptor | apps/worker/src/application/export-zip.ts:412-420 | the buffer filled field by field is the data descriptor record |
| ZipFormat.EncodeCentralHeader | apps/worker/src/application/export-zip.ts:423-444 | the buffer filled field by field is the central directory record |
| ZipFormat.EncodeEndRecord | apps/worker/src/application/export-zip.ts:447-456 | the buffer filled field by field is the end of central directory record |
| ZipFormat.ArchiveSize | apps/worker/src/application/export-zip.ts:126-135 | the finished archive is exactly as long as the bound computed before any payload is read |
| ZipFormat.PlanDescribes | apps/worker/src/application/export-zip.ts:193-281 | the reference archive has, per member, header, payload, descriptor with the true checksum, and central evidence with the true offset |
| ZipWriter.CreateZip32Cursor | apps/worker/src/application/export-zip.ts:115-149 | a cursor is created exactly for safe names, member sizes, counts and encoded sizes within the limits, and each failure names its cause |
| ZipWriter.Concatenate | apps/worker/src/application/export-zip.ts:467-475 | the buffer filled chunk by chunk is the chunks in order |
| ZipWriter.FlushPending | apps/worker/src/application/export-zip.ts:173-191 | flushing hands out at least one byte of the pending record within the budget and keeps the produced prefix |
| ZipWriter.NextRecord | apps/worker/src/application/export-zip.ts:193-281 | each transition without payload emits nothing, keeps the emitted prefix exact, and comes strictly closer to a byte |
| ZipWriter.TakeRange | apps/worker/src/application/export-zip.ts:221-243 | a read asks for a positive length, rejects empty or overlong answers, and an accepted range extends the exact prefix and its checksum |
| ZipWriter.AdvanceZip32 | apps/worker/src/application/export-zip.ts:156-289 | every step respects all three budgets, emits a byte until completion, fails only with the cause of a bad answer or bad limits, and with a truthful reader extends the exact archive prefix |
| ZipRuns.ChunkIndependence | apps/worker/src/application/export-zip.ts:156-289 | after every step of every run the joined outputs are the archive prefix of length archiveOffset, and the whole archive once complete |
| ZipRuns.RunsAgree | apps/worker/src/application/export-zip.ts:156-289 | two complete runs emit the same bytes however limits and short reads sliced them |
| ZipRuns.RunSteps | apps/worker/src/application/export-zip.ts:156-289 | a loop of steps under any limits and any short reads yields the archive prefix, fails only by an untruthful read, and completes once there were more steps than bytes |
| ZipRuns.ParseZip32Cursor | apps/worker/src/application/export-zip.ts:292-348 | a stored cursor is accepted exactly when every number is within its field; `ParsedCursorIsStored` says which cursor comes back |
| ZipRuns.ParsedCursorIsStored | apps/worker/src/application/export-zip.ts:292-348 | parsing an accepted document and storing the cursor gives back the document: no field is dropped, swapped or rounded |
| ZipRuns.StoredCursorParses | apps/worker/src/application/export-zip.ts:292-348 | storing and parsing a cursor whose numbers fit gives back the same cursor |
| ZipRuns.ReachableCursorParses | apps/worker/src/application/export-zip.ts:292-348 | every cursor a run can reach passes those bounds and resumes as itself |
| ZipReader.ArchiveRoundTrip | apps/worker/src/application/export-zip.ts:394-456 | an independent reader of end record, directory and offsets recovers exactly the members; no 16- or 32-bit field wraps |
| ZipReader.ExpectedAt | apps/worker/src/application/export-zip.ts:193-281 | what is recovered is one entry per member, in order, with its name, size, checksum and payload |
| PackedExport.ArchiveMembers | apps/worker/src/application/export.ts:515-529 | the member list is refused exactly outside the manifest and file count limits, as a limit failure; otherwise it is the manifest followed by the files in order, with their names and sizes |
| PackedExport.AppendBytes | apps/worker/src/application/export.ts:532-537 | the filled buffer is the remainder followed by the chunk |
| PackedExport.PartsJoin | apps/worker/src/application/export.ts:302-441 | the first n parts of an archive join to the prefix they cover |
| PackedExport.CoveredPrefix | apps/worker/src/application/export.ts:302-441 | accepted parts followed by the saved remainder are the archive prefix |
| PackedExport.CoveredPartsAreFull | apps/worker/src/application/export.ts:302-441 | every part but the last holds exactly 5 MiB and none is empty |
| PackedExport.CutNextPart | apps/worker/src/application/export.ts:405-422 | whichever cut applies, the bytes sent are the next part of the archive and what is left still covers it |
| PackedExport.ReceiptedPartsJoin | apps/worker/src/application/export.ts:460-480 | completion receives numbered parts that the store accepts and that join to the whole archive |
| PackedExport.ReceiptedOneMore | apps/worker/src/application/export.ts:405-422 | receipts stay true when the next part is stored under a fresh tag |
| PackedExport.ArchiveStore.PutPart | apps/worker/src/application/export.ts:165-171 | a part is stored under a fresh tag, possibly with its answer lost, and every attempt is recorded |
| PackedExport.ArchiveStore.CompleteUpload | apps/worker/src/application/export.ts:172-177 | completion joins the parts the receipts name, or is rejected when a receipt does not hold |
| PackedExport.ExportRow.Checkpoint | apps/worker/src/application/export.ts:129-134 | a checkpoint is written only at the observed cursor |
| PackedExport.PackedExportService.constructor | apps/worker/src/application/export.ts:213-221 | a freshly captured row starts in a consistent state for the archive of its pinned payloads |
| PackedExport.PackedExportService.Load | apps/worker/src/application/export.ts:302-313 | loading fails exactly outside the product limits and otherwise gives the saved or a fresh cursor |
| PackedExport.PackedExportService.EnsureUpload | apps/worker/src/application/export.ts:314-327 | an upload is attached at most once and nothing sent or accepted changes |
| PackedExport.PackedExportService.SendPart | apps/worker/src/application/export.ts:405-422 | whatever the store answers, the bytes sent for part k are the archive's part k |
| PackedExport.PackedExportService.PutRemainder | apps/worker/src/application/export.ts:328-363 | the short last part of a finished stream is sent once complete, and a calm batch makes progress |
| PackedExport.PackedExportService.TakeStep | apps/worker/src/application/export.ts:369-403 | one step yields the next slice of the archive, or blames an answer of the source |
| PackedExport.PackedExportService.StoreChunk | apps/worker/src/application/export.ts:405-441 | a step's output is cut and checkpointed without breaking the durable prefix |
| PackedExport.PackedExportService.CompleteArchive | apps/worker/src/application/export.ts:460-480 | the row completes only with the whole archive stored, also when an earlier completion's answer was lost |
| PackedExport.PackedExportService.RunOneBatch | apps/worker/src/application/export.ts:302-441 | a batch keeps the durable prefix, never takes back a part, fails only by limits or by a blamed source answer, and a calm batch strictly progresses |
| PackedExport.PackedExportService.DurableIsPrefix | apps/worker/src/application/export.ts:302-441 | what survives a crash is the archive prefix at the saved cursor in full parts and a remainder below 5 MiB |
| PackedExport.PackedExportService.RunBatches | apps/worker/src/application/export.ts:264-277 | under any faults all attempts at one part carry the same bytes, and enough calm batches store exactly the reference archive |
| OperationQueue.EditKeepsOrder | apps/plugin/src/sync/device-journal.ts:1254-1264 | dropping, rewriting or first-sending operations keeps overlapping operations in order |
| JournalCustody.Custody | apps/plugin/src/sync/device-journal.ts:743-944 | after every transition, keys held plus keys discharged equal keys held before plus keys issued |
| JournalCustody.ResolveCustody | apps/plugin/src/sync/device-journal.ts:743-837 | settling moves each key of the queue to exactly one of queue, attention or receipt |
| JournalCustody.RejectedCustody | apps/plugin/src/sync/device-journal.ts:905-944 | a rejection moves the operation and its dependent deletes to attention and loses no key |
| JournalCustody.QueuedRejectedCustody | apps/plugin/src/sync/device-journal.ts:857-883 | a rejected queued operation moves to attention with its key |
| JournalCustody.DiscardCustody | apps/plugin/src/sync/device-journal.ts:840-854 | an explicit discard lets go exactly its own key |
| JournalCustody.DismissCustody | apps/plugin/src/sync/device-journal.ts:520-543 | a dismissal lets go exactly the key of the dismissed item |
| JournalCustody.ResetCustody | apps/plugin/src/sync/device-journal.ts:344-380 | a new epoch moves the whole queue to attention and loses no key |
| JournalCustody.ConfirmCustody | apps/plugin/src/sync/device-journal.ts:1055-1167 | an owner decision issues a key exactly when its authority is current |
| JournalCustody.NotItsOwnParent | apps/plugin/src/sync/device-journal.ts:743-837 | a dependent delete stands, queued, behind the sent create of the same path it waits for |
| JournalOrder.KeepsInvariant | apps/plugin/src/sync/device-journal.ts:124-191 | every transition keeps exclusive custody, per-path order and anchored dependents |
| JournalOrder.RunsKeepInvariant | apps/plugin/src/sync/device-journal.ts:124-191 | the invariant holds in every state of every run from a fresh document |
| JournalOrder.SentIsImmutable | apps/plugin/src/sync/device-journal.ts:619-684 | a sent operation keeps its action, paths, precondition and payload hash through every transition |
| JournalOrder.RunsKeepSent | apps/plugin/src/sync/device-journal.ts:619-684 | over a whole run a key once sent is, while pending, the same request |
| JournalOrder.OnlyTheEarlierIsSent | apps/plugin/src/sync/device-journal.ts:633-639 | of two unresolved overlapping operations the later one is queued and no send of it can be prepared |
| JournalOrder.ForwardRebasing | apps/plugin/src/sync/device-journal.ts:743-837 | settlement leaves nothing depending on the settled key, changes only later queued successors on the receipt path, and moves preconditions only forward |
| JournalOrder.RejectionRebasesNothing | apps/plugin/src/sync/device-journal.ts:905-944 | a rejection leaves survivors unchanged and nothing depending on the rejected key |
| JournalProgress.NothingMovesBack | apps/plugin/src/sync/device-journal.ts:311-380 | within an epoch the cursor and every trusted base only advance; a new epoch trusts no old base |
| JournalProgress.RunsAdvance | apps/plugin/src/sync/device-journal.ts:311-380 | the same over any run inside one epoch |
| JournalProgress.CoalescingPreservesMeaning | apps/plugin/src/sync/device-journal.ts:163-191 | for puts and deletes, running the queue gives the same vault whether the earlier operation is replaced or kept, whatever lies between |
| JournalProgress.CoalescingRenamesChangesMeaning | apps/plugin/src/sync/device-journal.ts:163-191 | for renames it does not: a concrete queue and vault |
| JournalProgress.RenamesCoalesceExactly | apps/plugin/src/sync/device-journal.ts:163-191 | replacing an earlier rename preserves the meaning of the queue if and only if both renames agree on the vault the other operations leave: nothing to move, a move onto itself or to the same place, or three equal files |
| JournalProgress.RenameTrustsAWithheldSide | apps/plugin/src/sync/device-journal.ts:429-484 | a withheld rename side becomes trusted without a new base: a concrete state |
| JournalProgress.StaleSideIsConfirmed | apps/plugin/src/sync/device-journal.ts:429-484 | either side of a rename comes out trusted, and at the revision of the rename if and only if it was given its base or the old one says the same |
| DeviceJournal.JournalStorage.PersistVerified | apps/plugin/src/sync/device-journal.ts:1229-1251 | success means the stored document is the candidate; failure leaves the old or the new one |
| DeviceJournal.DeviceJournal.Open | apps/plugin/src/sync/device-journal.ts:107-121 | opening resumes the stored document, or a fresh one, with every promise of earlier releases intact |
| DeviceJournal.DeviceJournal.Commit | apps/plugin/src/sync/device-journal.ts:1191-1204 | memory follows only a document that passed read-back; otherwise it stays and attention is raised |
| DeviceJournal.DeviceJournal.Transition | apps/plugin/src/sync/device-journal.ts:1191-1251 | a transition is refused without effect or committed with read-back |
| DeviceJournal.DeviceJournal.Enqueue | apps/plugin/src/sync/device-journal.ts:124-191 | an operation is queued only after its payload bytes were read back intact |
| DeviceJournal.DeviceJournal.PrepareSend | apps/plugin/src/sync/device-journal.ts:619-684 | bytes are released only for an operation whose sent state passed read-back, with matching hash; all releases of one key across restarts are one request |
| DeviceJournal.StepStaysSound | apps/plugin/src/sync/device-journal.ts:619-684 | every transition honors every release made so far |
| DeviceJournal.ReleaseStaysHonored | apps/plugin/src/sync/device-journal.ts:619-684 | a new release agrees with all earlier releases of its key |
| Publication.DiscardIsJustified | apps/plugin/src/sync/publication.ts:726-862 | a queued put is discarded only if its bytes are the confirmed base or visible elsewhere |
| Publication.DiscardTrustsAStaleBase | apps/plugin/src/sync/publication.ts:816-833 | that base may belong to an old epoch: a concrete state |
| Publication.DiscardIsTrusted | apps/plugin/src/sync/publication.ts:816-833 | bytes discarded without a visible copy are the base of this epoch if and only if the path is not stale |
| Publication.HasVisiblePayload | apps/plugin/src/sync/publication.ts:871-891 | true exactly when another listed file holds the exact bytes |
| Publication.RefreshQueuedPut | apps/plugin/src/sync/publication.ts:726-862 | a skip lets a key go and is justified, anything else keeps it in custody, and only unchanged bytes are sendable |
| Publication.Settle | apps/plugin/src/sync/publication.ts:556-598 | after an answer the journal is the base confirmation and settlement that answer calls for |
| Publication.AnswerCustody | apps/plugin/src/sync/publication.ts:664-723 | through one answer only a fitting receipt lets a key go, and only its own |
| Publication.Admit | apps/plugin/src/sync/publication.ts:452-500 | an operation is sent only if nothing earlier in the queue, in any state, overlaps it |
| Publication.Send | apps/plugin/src/sync/publication.ts:524-598 | one release, taken from the queue it was admitted from, and the journal its answer leads to |
| Publication.Flush | apps/plugin/src/sync/publication.ts:445-502 | releases follow queue order and none overtakes an earlier overlapping operation, deferred and held ones included |
| LocalDeletes.ObserveDelete | apps/plugin/src/sync/publication.ts:364-425 | a delete is queued only if the observed base still holds and the file is gone; nothing sent and nothing beyond the path's queued puts or the delete it replaces is touched |
| LocalDeletes.DiscardQueuedPuts | apps/plugin/src/sync/publication.ts:384-396 | exactly queued puts of the path may leave the queue and nothing else changes |
| LocalDeletes.IntentIsAdmissible | apps/plugin/src/sync/publication.ts:388-411 | a dependent delete is queued only behind a pending sent create |
| TextDevice.TextDevice.Process | apps/plugin/src/sync/text-apply.ts:54-59 | text is replaced only while it is what was observed, only a base on record or a verified copy is taken away, and each removal is recorded with the staleness of its path |
| TextDevice.TextDevice.Trash | apps/plugin/src/sync/text-apply.ts:62-63 | the same for moving a file to trash |
| TextDevice.TextDevice.Rename | apps/plugin/src/sync/text-apply.ts:64-65 | the same for a rename, onto a free path |
| TextDevice.PermittedIsJustified | apps/plugin/src/sync/text-apply.ts:1017-1018 | a removal the code permits takes a base of this epoch or a verified copy if and only if its path was not stale or a named copy holds the version |
| TextDevice.TextDevice.OnlyStaleTextIsExposed | apps/plugin/src/sync/text-apply.ts:1017-1068 | in every state of every run that condition describes every removal made so far |
| TextDevice.TextDevice.Commit | apps/plugin/src/sync/device-journal.ts:1191-1204 | a transition is durable or without effect, keeps every row the device has taken on, and inside a resumed put or delete leaves base and staleness of other paths alone |
| TextDevice.RowStaysHeld | apps/plugin/src/sync/device-journal.ts:574-616 | a confirmed or pending row stays confirmed or pending within its epoch |
| ApplyOutcome.NothingIsLost | apps/plugin/src/sync/text-apply.ts:919-1068 | where an undisturbed put or delete ends, every text whose path is not stale survives in place, as the base of this epoch, or in another file |
| ApplyOutcome.OnlyExposedTextIsLost | apps/plugin/src/sync/text-apply.ts:919-1068 | for every path, stale or not, the text survives if and only if it is not exposed: clean against a stale base, in no other file, and replaced by what is pending; no other path changes |
| ApplyOutcome.NewEpochLosesOldText | apps/plugin/src/sync/text-apply.ts:1017-1018 | a run from an empty journal to a put of a new epoch that leaves the old text in no file |
| ApplyOutcome.SettledMeansConfirmed | apps/plugin/src/sync/text-apply.ts:919-1068 | an apply that is let go is confirmed in base and file, or was obsolete and changed nothing |
| ApplyOutcome.WriteMovesNothing | apps/plugin/src/sync/text-apply.ts:976-1035 | writing the remote text leaves the outcome where it was |
| ApplyOutcome.TrashMovesNothing | apps/plugin/src/sync/text-apply.ts:1042-1068 | trashing a clean file leaves the outcome where it was |
| ApplyOutcome.NamingMovesNothing | apps/plugin/src/sync/text-apply.ts:2872-2955 | naming a conflict copy leaves the outcome where it was |
| ApplyOutcome.SavingMovesNothing | apps/plugin/src/sync/text-apply.ts:1992-2183 | creating the next copy leaves the outcome where it was |
| ApplyOutcome.CopyingMovesNothing | apps/plugin/src/sync/text-apply.ts:1992-2183 | marking the copies saved leaves the outcome where it was |
| ApplyOutcome.ReplacingMovesNothing | apps/plugin/src/sync/text-apply.ts:2612-2819 | the final replacement leaves the outcome where it was and every copy standing |
| ApplyOutcome.RemovingMovesNothing | apps/plugin/src/sync/text-apply.ts:2448-2611 | the final removal leaves the outcome where it was and every copy standing |
| TextApply.TextApplyEngine.FetchText | apps/plugin/src/sync/text-apply.ts:2965-3020 | only text of the expected digest is used; a pruned revision moves the pending row forward |
| TextApply.TextApplyEngine.RebaseConflictCopies | apps/plugin/src/sync/text-apply.ts:3023-3067 | no local copy is dropped when the row moves to a newer revision |
| TextApply.TextApplyEngine.ApplyRemoteText | apps/plugin/src/sync/text-apply.ts:2830-2850 | the pinned text replaces exactly what was observed, and confirmation means it stands there |
| TextApply.TextApplyEngine.ConfirmLocalTrash | apps/plugin/src/sync/text-apply.ts:2862-2869 | exactly the observed version is trashed, and confirmation means the path is empty |
| TextApply.TextApplyEngine.SaveCopies | apps/plugin/src/sync/text-apply.ts:1992-2168 | all named copies stand before anything is replaced, or the apply rests where it was |
| TextApply.TextApplyEngine.VerifyCopies | apps/plugin/src/sync/text-apply.ts:2822-2827 | success means every copy was read back with its durable hash |
| TextApply.TextApplyEngine.FinishCopiedApply | apps/plugin/src/sync/text-apply.ts:2448-2819 | only protected versions are replaced; undisturbed, the run ends at the outcome; a settled rename is confirmed on both sides |
| TextApply.TextApplyEngine.ApplyPut | apps/plugin/src/sync/text-apply.ts:959-1041 | under any edits only a base on record or a verified copy is taken away, and undisturbed the run ends at the outcome, which loses exactly the exposed text |
| TextApply.TextApplyEngine.ApplyDelete | apps/plugin/src/sync/text-apply.ts:1042-1068 | under any edits only a base on record or a verified copy is taken away, and undisturbed the run ends at the outcome, which loses exactly the exposed text |
| TextApply.TextApplyEngine.ApplyRename | apps/plugin/src/sync/text-apply.ts:1568-1792 | under any edits only a base on record or a verified copy is taken away; a rename that leaves the journal has both sides confirmed and, undisturbed, the text at its destination and the source gone |
| TextApply.RenameTrustsBothSides | apps/plugin/src/sync/device-journal.ts:429-484 | confirming exactly the pending sides leaves both sides trusted at the rename's revisions or newer |
| TextApply.TextApplyEngine.ResumePending | apps/plugin/src/sync/text-apply.ts:1992-2183 | from any durable step the resumed run ends at the same outcome |
| TextApply.TextApplyEngine.ApplyEntry | apps/plugin/src/sync/text-apply.ts:289-320 | a row with a withheld path is refused without effect; otherwise it begins a new apply only when none is pending, and resumes one exactly when the sequence numbers agree |
| TextApply.TextApplyEngine.RunWithFallback | apps/plugin/src/sync/text-apply.ts:241-258 | a begun row is confirmed or pending afterwards, also when it was moved to a newer revision |
| TextApply.TextApplyEngine.Resume | apps/plugin/src/sync/text-apply.ts:222-228 | resuming after a crash ends where the interrupted run would have ended, from every state a run with any interference can leave |
| TextApply.TextApplyEngine.ApplyCurrent | apps/plugin/src/sync/text-apply.ts:185-219 | success means the path is confirmed at that revision or newer and nothing is pending |
| TextApply.CrashAndResume | apps/plugin/src/sync/text-apply.ts:222-228 | any number of crashes, each after any write or effect, changes neither files, copies nor base of the outcome, and the first life that is not interrupted reaches it |
| TextApply.BeginCrashAndResume | apps/plugin/src/sync/text-apply.ts:222-258 | begin, crash anywhere, resume: the row was never begun, or the run ends exactly where the uninterrupted run ends |
| TextApply.AnyLivesThenQuiet | apps/plugin/src/sync/text-apply.ts:222-258 | after any lives with edits, refusals and failed writes, undisturbed lives bring whatever put or delete is pending to its one outcome |
| Reconciliation.ReadDeleteManifest | apps/plugin/src/sync/reconciliation.ts:842-856 | a path listed twice or a page of another epoch gives no authority; every listed path is in the result |
| Reconciliation.ReconciliationController.ApplyChange | apps/plugin/src/sync/reconciliation.ts:879-908 | an applied row, and the source of an applied rename, is accounted for; only a pending row that is not this one can hide it, and behind a pending put or delete of another path it is held afterwards if and only if it was confirmed before |
| Reconciliation.ReconciliationController.RunFramed | apps/plugin/src/sync/text-apply.ts:289-320 | a row that is run is taken on, source included; a resumed put or delete of another path leaves base and staleness of every other path alone, under any interference |
| Reconciliation.ReconciliationController.Accept | apps/plugin/src/sync/reconciliation.ts:756-820 | a row the replay passes is, on both sides of a rename, confirmed, pending, out of scope, in attention, superseded, or in the unguarded family; a rename source joins that family exactly when the destination alone is excluded and the source still needs confirming |
| Reconciliation.ReconciliationController.PassExcluded | apps/plugin/src/sync/reconciliation.ts:772-778 | passing an excluded destination swallows the source if and only if it is in scope with a base that is stale or older |
| Reconciliation.ReconciliationController.RunReplay | apps/plugin/src/sync/reconciliation.ts:756-820 | the cursor never passes a row, or a rename source, that is not accounted for, across deferral, attention, errors and crashes, and stays within the served head |
| Reconciliation.ReconciliationController.HandleManifestRow | apps/plugin/src/sync/reconciliation.ts:469-541 | a handled manifest row is accounted for |
| Reconciliation.ReconciliationController.EnterEpoch | apps/plugin/src/sync/reconciliation.ts:206-242 | a new epoch forgets rows, cursor and traversal of the old one together |
| Reconciliation.ReconciliationController.WalkPage | apps/plugin/src/sync/reconciliation.ts:198-386 | a page left behind has every row accounted for, and the saved checkpoint always says which rows are left |
| Reconciliation.ReconciliationController.RunReconciliation | apps/plugin/src/sync/reconciliation.ts:198-386 | the cursor jumps to the head only when every row up to it is accounted for, also when the walk resumes from a checkpoint after a crash |
| Reconciliation.ReconciliationController.SetCursor | apps/plugin/src/sync/device-journal.ts:333-341 | the cursor is moved only over covered rows |
| Reconciliation.ObsoleteDeleteIsConfirmed | apps/plugin/src/sync/reconciliation.ts:786-791 | the obsolete-delete branch passes a confirmed row if and only if its base is of this epoch |
| Reconciliation.StaleBaseSwallowsADelete | apps/plugin/src/sync/reconciliation.ts:786-791 | a run from a fresh journal to a state where that branch swallows a delete |
| Reconciliation.SharedSequenceSwallowsARow | apps/plugin/src/sync/text-apply.ts:300-319 | a run from an empty journal to a resting apply of number cursor + 1; the cursor then passes the feed row of that number and nothing holds it |
| Reconciliation.ExcludedDestinationSwallowsItsSource | apps/plugin/src/sync/reconciliation.ts:772-778 | a run from an empty journal after which the cursor passes a rename whose source keeps its live base with nothing recorded |
| ReconciliationRuns.Session | apps/plugin/src/sync/reconciliation.ts:198-386 | one replay and, where epoch or cursor do not fit, one walk keep the device consistent with what the server has published, interrupted walks included |
| ReconciliationRuns.RunLives | apps/plugin/src/sync/reconciliation.ts:756-820 | from an empty journal through any sessions, crashes, edits, failures and epochs, every row published at or below the cursor is accounted for or was passed by an unguarded branch, and every removal was justified unless its path was stale |
| DesktopSync.DesktopSyncController.SyncNow | apps/plugin/src/sync/desktop-sync.ts:104-140 | an admitted request leaves a drain or one cycle under way and keeps the chain; a fenced one changes no run |
| DesktopSync.DesktopSyncController.ObserveCaptured | apps/plugin/src/sync/desktop-sync.ts:147-204 | exactly uncaptured in-scope events, and events whose capture threw, are retained, last in the queue |
| DesktopSync.DesktopSyncController.DrainEvents | apps/plugin/src/sync/desktop-sync.ts:263-331 | retained events get one drain in the chain unless a fence holds |
| DesktopSync.DesktopSyncController.LoopTop | apps/plugin/src/sync/desktop-sync.ts:278-314 | the drain takes the next event, runs its cycle, or ends, exactly as fences, events and the debounce say |
| DesktopSync.DesktopSyncController.CaptureSettled | apps/plugin/src/sync/desktop-sync.ts:287-300 | an event leaves the queue only when captured, excluded or handled, and only from the front |
| DesktopSync.DesktopSyncController.EventSettled | apps/plugin/src/sync/desktop-sync.ts:299-301 | a handled event leaves from the front; a failed one stays first |
| DesktopSync.DesktopSyncController.CycleSettled | apps/plugin/src/sync/desktop-sync.ts:310-313 | a drain goes round again exactly while events arrived without a pending debounce |
| DesktopSync.DesktopSyncController.Resume | apps/plugin/src/sync/desktop-sync.ts:216-225 | pause ends and a recovery of this lifecycle waits unless the host is suspended |
| DesktopSync.DesktopSyncController.VisibilityChanged | apps/plugin/src/sync/desktop-sync.ts:228-247 | suspension follows the host; the end of one starts a recovery, otherwise polling and work go on |
| DesktopSync.DesktopSyncController.RecoveryReady | apps/plugin/src/sync/desktop-sync.ts:397-425 | a recovery starts over only if no later fence won |
| DesktopSync.DesktopSyncController.SchedulePolling | apps/plugin/src/sync/desktop-sync.ts:334-351 | one interval outside fences, none inside |
| DesktopSync.DesktopSyncController.ReviseActivity | apps/plugin/src/sync/desktop-sync.ts:353-378 | a late origin proof reschedules polling only for the latest event of its lifecycle outside fences, and touches no event |
| DesktopSync.Happen | apps/plugin/src/sync/desktop-sync.ts:104-378 | every possible happening, settled origin proofs included, keeps order, exclusion and timer ownership |
| DesktopSync.Interleave | apps/plugin/src/sync/desktop-sync.ts:104-438 | under any interleaving retained events equal processed events followed by the queue, cycle and event handling never overlap, and no timer is live inside a fence |
| Coexistence.CoexistenceEffectFence.BeginCapture | apps/plugin/src/sync/coexistence-effect-fence.ts:30-39 | a capture is open before its first await |
| Coexistence.CoexistenceEffectFence.Release | apps/plugin/src/sync/coexistence-effect-fence.ts:30-39 | a capture is released once, and a failed one latches the gate |
| Coexistence.CoexistenceEffectFence.OpenCapturesBlock | apps/plugin/src/sync/coexistence-effect-fence.ts:21-27 | an open capture blocks effects |
| Coexistence.DecisionsStay | apps/plugin/src/sync/device-journal.ts:1010-1052 | no transition but the owner's own decision takes a pending decision away |
| Coexistence.DecisionActsOnFrozenAuthority | apps/plugin/src/sync/device-journal.ts:1055-1167 | an owner decision queues an operation only if epoch and live base are still what the event froze and the path is trusted; otherwise it queues nothing |
| Coexistence.CoexistenceController.Observe | apps/plugin/src/sync/coexistence.ts:79-135 | in coexistence mode an in-scope delete or rename becomes an intent with an open capture and authority frozen at that moment, before anything else happens; other events and repeated deliveries change nothing |
| Coexistence.CoexistenceController.ProofSettled | apps/plugin/src/sync/coexistence.ts:136-149 | only a successful plugin-origin proof removes an intent |
| Coexistence.CoexistenceController.SaveSettled | apps/plugin/src/sync/coexistence.ts:150-157 | afterwards the decision is saved as it was frozen, or the failure latch is set |
| Coexistence.CoexistenceController.ChecksSettled | apps/plugin/src/sync/coexistence.ts:158-185 | the capture closes only with its decision durable |
| Coexistence.CoexistenceController.Transition | apps/plugin/src/sync/device-journal.ts:1029-1167 | a decision counts as committed only by confirming or clearing it |
| Coexistence.CoexistenceController.IntentBlocks | apps/plugin/src/sync/coexistence.ts:102-186 | at every point an intent whose decision the owner has not committed blocks effects |
| Coexistence.CoexistenceController.FailureBlocks | apps/plugin/src/sync/coexistence-effect-fence.ts:21-39 | a failed capture keeps blocking |
| Coexistence.Happen | apps/plugin/src/sync/coexistence.ts:79-186 | every possible happening keeps the fence, and only a plugin proof takes an intent away |
| Coexistence.Interleave | apps/plugin/src/sync/coexistence.ts:79-186 | under any interleaving of deliveries, proofs, saves, checks and transitions, an observed destructive event that no proof claimed blocks effects until its decision is committed |
| SettingsScope.AncestorsAreTraversed | apps/plugin/src/sync/enrollment-scope.ts:52-149 | every directory above an admitted settings path is traversed, at every depth and under every policy |
| SettingsScope.VisitSplits | apps/plugin/src/infrastructure/text-vault.ts:453-472 | one visit finds its own files and leaves exactly the rest to the folders it pushes |
| SettingsScope.ListSettingsPaths | apps/plugin/src/infrastructure/text-vault.ts:453-472 | the worklist walk returns exactly the valid files below traversed folders |
| SettingsScope.AdmittedIsFound | apps/plugin/src/infrastructure/text-vault.ts:445-477 | an admitted path is reached by the walk if and only if the file exists |
| SettingsScope.ListSettingsFiles | apps/plugin/src/infrastructure/text-vault.ts:445-450 | the listed settings files are exactly the existing admitted ones |

## Left out

- ApplyRename: states no single outcome an undisturbed rename must reach, as puts and deletes have; what is proved is which text may be taken away under any edits, and what a rename that left the journal means for both sides.
- CrashAndResume: covers puts and deletes, and so do `BeginCrashAndResume` and `AnyLivesThenQuiet`; the rows a rename holds are confirmed or pending after any crash, which is part of `Safe`.
- Commit: in `TextDevice` a failed write leaves the old document, and the process may die at its next await; a write that reached storage although its read-back failed is modelled in `DeviceJournal` only.
- RunReplay: leaves out fetching; a page lists in order every row published after the cursor, which is the server's contract, and so is a manifest that represents every row up to its head. `RunLives` adds that within one epoch the server publishes only beyond its head and serves one manifest for one head.
- WalkPage: the restart when saved paths are missing from a page cannot occur under that contract and is left out.
- RunReconciliation: leaves out the publication of local files before the cursor moves; it adds queue entries and confirms no feed row.
- RunOneBatch: a second worker on the same row is modelled only as missed compare-and-set calls, not as an interleaved second service.
- RefreshQueuedPut: base, local file and listing are one observation; the second look at the base after the listing is left out. Cycles and event handling exclude each other (`DesktopSync.Interleave`), so only the flush itself moves a base meanwhile.
- Settle: a rename receipt also applies the source and reconciles the destination; only the settlement of the queue is modelled.
- AnswerCustody: the recovery that runs before a failed precondition is recorded is left out; it adds applies covered by the engine.
- Send: rename receipt recovery and the fence check after the release are part of the reply.
- Interleave: in `DesktopSync` host suspension is constant within one synchronous segment; polling cadence and status callbacks carry no property. In `Coexistence` one controller lives through the run.
- Observe: one controller instance; a process that dies inside a capture loses that event, as in the source.
- SHA-256 is an injective function of the content; UUIDs are keys never used before; JSON text, Zod schemas, Unicode normalization and lower-casing are an abstract path identity.
- Member names are their UTF-8 bytes, so the encoder itself is not modelled; the CRC table is passed as a parameter proved to be the built one.
- Binary files, settings writes, the recovery directory and its pruning, unsupported sizes and disabled settings categories inside the apply engine: the source promises only best effort there.
- The vault's guarded operations (create, process, trash, rename) are atomic checks, as their interface says; the host code behind them is not modelled.
- Publishing local creates during enrollment, the page scan for sent creates, restoring missing files, recovery of stale renames, and what a rename receipt does besides settling: they add queue entries or applies already covered by the transitions and the engine.
- Starting, listing and downloading exports, capture of the snapshot, and the removal of pins.
- Liveness against a server that keeps answering with failed preconditions, and whether readers accept nonzero sizes in local headers next to flag bit 3.
- The wire format, authentication, status panel and settings interface.
