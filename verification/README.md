# Verified model of the event ledger, its content store and the code indexer

A Dafny 4.11 model of the parts of the agent context platform whose correctness spans many functions and whole
runs, with proofs of what those parts promise. `dafny verify dfyconfig.toml` checks everything.

The project follows the program's own components.

**Content and ledger write protocol** (`LockOrder`, `TransactionScripts`, `WriteProtocol`,
`WriteProtocolProgress`, `WriteProtocolRuns`, `ContentTransactions`, `ContentPreparation`, `ContentReading`).
Any number of ingestion transactions run beside any number of orphan sweeps. A state holds the open
transactions, the bucket and the committed tables; a step uploads, begins, advances one database or store
operation, rolls back, or lets an issued delete take effect or return. Locks are exclusive and kept to the end
of the transaction, each statement sees what is committed when it runs, commit and lock release are one step. In
every reachable state no committed row or ref names a missing object, the wait-for graph has no cycle, some
unfinished transaction can step, and all of them can finish. Told from the steps of a run alone, the committed
tables are exactly what its finished ingestions wrote and the bucket what was uploaded and not swept; an
ingestion or sweep whose locks are free finishes as its batch or candidate deserves. `ContentTransactions` holds
the loops that issue these operations: `attach` and the sweeper; `ContentPreparation` what comes before them:
every item validated before anything is uploaded; and `ContentReading` what comes after: what was submitted
reads back byte for byte.

**Hash-chained append** (`LedgerTables`, `LedgerAppend`, `LedgerHistory`, `LedgerDecisions`, `LedgerSession`,
`LedgerRepository`, `LedgerConcurrency`, `LedgerRuns`, `Ingestion`). The specification is a one-event idempotent
append on the tables; batches are its fold; which answer an event gets, and when a batch commits, is told by the
rows before it. Every ledger that committed, rolled-back and replayed batches reach is a set of contiguous hash
chains with the right heads; committed batches replay; and the repository's transaction, which plans the batch,
locks the streams, moves stream states in place and writes the heads last, commits iff the fold does, with the
same ledger and the same positional results, and refuses for the first reason in the code's order. Concurrent
appends, interleaved statement by statement under READ COMMITTED, leave the ledger that the committed batches
produce one after another in commit order, with the results they would have had there; every committed item
stays stored under its key, and a batch nobody stands in the way of commits exactly when the ledger accepts it.
One ingestion joins the two sides: attach, resolve and append, all or nothing. The event digest, the payload
digest, the document codec and the canonical JSON form are parameters.

**Independent verifier** (`Keyset`, `LedgerVerify`, `LedgerIntegrity`). The walk in batches, the keyset paging
over two limited tables and the final count, over arbitrary tables. A stream verifies exactly when its range is
clean and its head names its last event, and a failure names the first bad row. Every reachable ledger verifies;
two verified snapshots with one head digest hold the same events; a clean full walk makes every tail clean; the
count check can fail in exactly one way.

**File lineage** (`Identity`, `Renames`, `Lineage`, `LineageWalk`, `LineageClaims`, `LineageDerive`). Identities
as injective functions of their components; `resolve_rename` as a function of three sets; the tracked state as a
function of the trees alone; the walk that maintains it from diff records, whatever way Git paired, scored or
ordered them; which file of one tree is which of the next; and the claims that are made and kept.

**Wire scanner** (`OtlpWire`, `OtlpEncoding`, `OtlpScanner`). The bounded walk of a protobuf message ("Base 128
Varints" and "Message Structure" in the Protocol Buffers encoding specification), a reference decoder to field
trees, an encoder that the decoder inverts exactly, and the scanner with its inlined shortcut. The descriptor
tables are a parameter; every cycle of message types is assumed to pass a nesting type.

**Indexer algorithms** (`Bisection`, `Intervals`, `ScipSymbol`, `ScipRecognizer`). Bisection of failing parse
batches under a run budget against an arbitrary adapter, every file of the output traced to the run that replied
it or refused it; the innermost-span index; and the recognizer of the SCIP symbol grammar (the symbol grammar
comment of `scip.proto`) against a grammar that prints.

**Gate and limiter** (`DecodeGate`, `TokenBucket`, `TokenBucketExact`). The decode gate over all interleavings
of its atomic sections, its live threads counted by the run alone; and the token bucket, over reals, against a
table that never evicts: the sweeping limiter as a function of its requests, which the class computes in place,
and what it grants told by windows instead of tokens.

Where the code does something other than its documentation says, the model follows the code:

- The SCIP grammar allows a manager, package name or version of spaces only; the recognizer refuses every symbol
  that has one, because the separators around it read as one run of escaped spaces. It accepts every other
  printed symbol, also those whose fields begin with a space (`ScipSymbol.PrintedIsAccepted`).
- The verifier's `event_count` is documented to show that no event sits outside the walk. It fails, on intact
  chains, exactly when an event belongs to the stream whose ID is empty, which the keyset starts after
  (`LedgerIntegrity.EventCountFailsOnlyForTheEmptyId`); one submitted event is enough
  (`LedgerIntegrity.TheEmptyIdIsReachable`), unless the SDK's draft model, which is not part of this model,
  refuses an empty stream ID.
- The head check is documented to show that the head names the stream's last event, or none for an empty stream.
  For an empty stream the code does not look at `last_event_id`: an edit of the head row is reported exactly
  when it changes the sequence or the digest, or the ID of a stream that has events
  (`LedgerIntegrity.EveryHeadEditIsReported`).
- The innermost span is documented as the smallest containing one. Among nesting spans it is, except exactly for
  an empty range at a boundary, where one span ends, another starts and no empty one lies between
  (`Intervals.InnermostIsSmallest`); there it is the later span (`Intervals.EmptyRangeTakesTheLaterSpan`).
- Repeats inside one batch never reach `seal_event`, so a repeat whose refs would be refused is answered
  (`LedgerSession.RepeatWithForeignRef`). The one-at-a-time appends succeed exactly when the batch commits and
  every item's refs, repeats included, match its claims (`LedgerSession.PlainFoldExactly`), which resolution
  against prepared content guarantees.

## Model

| member | source | states |
|---|---|---|
| LockOrder.ContentLocksAscend | src/agent_context_platform/content/service.py:207-216 | Digests in sorted string order have content locks that are the same or in rank order, although keys are signed and prefixes collide |
| LockOrder.HexOrder | src/agent_context_platform/content/service.py:632-637 | Sorting hex strings sorts the numbers their equally long prefixes spell |
| LockOrder.SignedKeysDoNotFollowDigestOrder | src/agent_context_platform/content/service.py:215-216 | Sorted digests can have descending signed keys, so the rank must be the unsigned prefix |
| LockOrder.BelowTransitive | src/agent_context_platform/ledger/repository.py:389-395 | The rank over content, inline, stream and idempotency locks is transitive |
| LockOrder.BelowIrreflexive | src/agent_context_platform/ledger/repository.py:389-395 | Nothing ranks below itself |
| TransactionScripts.IngestScriptGood | src/agent_context_platform/ledger/service.py:153-166 | Every operation of an ingestion is safe where it stands and takes its lock above all those held |
| TransactionScripts.SweepScriptGood | src/agent_context_platform/content/orphans.py:145-163 | Every operation of a sweep is safe where it stands: the delete follows the check, the check the lock |
| TransactionScripts.AttachObjectsGood | src/agent_context_platform/content/service.py:635-672 | The attach loop verifies each object under its own lock before recording it, in ascending locks |
| WriteProtocol.DeleteTouchesNothingReferenced | src/agent_context_platform/content/orphans.py:182-202 | Until an issued delete returns, its digest is neither committed nor verified by any open transaction |
| WriteProtocol.StepKeepsInv | src/agent_context_platform/content/orphans.py:97-106 | Every step of every transaction keeps the protocol invariant |
| WriteProtocol.NoDanglingReference | src/agent_context_platform/content/orphans.py:100-106 | In every run, each committed object row and each committed object ref has its object in the store |
| WriteProtocolProgress.OnlyLocksBlock | src/agent_context_platform/ledger/repository.py:441-453 | Unique-key waits cannot arise once the idempotency locks are held, so only ranked locks block |
| WriteProtocolProgress.WaitForGraphIsAcyclic | src/agent_context_platform/ledger/repository.py:389-395 | No path of transactions waiting on each other returns to its start, in any reachable state |
| WriteProtocolProgress.SomeTransactionCanStep | src/agent_context_platform/ledger/repository.py:441-453 | While a transaction is open, some open transaction can step without being rolled back |
| WriteProtocolProgress.StepsConsumeWork | src/agent_context_platform/content/orphans.py:182-202 | Each such step uses up a finite measure of the work left |
| WriteProtocolProgress.EverythingCanFinish | src/agent_context_platform/ledger/service.py:153-166 | From every reachable state there are steps after which no transaction is open |
| WriteProtocolRuns.CommitWrites | src/agent_context_platform/ledger/service.py:153-166 | A transaction at its commit makes durable exactly the objects, inline contents and keys of its batch, and the refs of the keys nobody had committed; a sweep commits nothing |
| WriteProtocolRuns.TablesAreTheFinishedBatches | src/agent_context_platform/ledger/service.py:153-166 | In every run the committed tables are exactly what the ingestions that ran to their end wrote, each key with the refs of the first that had it; the bucket is what was uploaded and not swept since |
| WriteProtocolRuns.FinishedStays | src/agent_context_platform/content/orphans.py:100-106 | The objects of a finished batch stay in catalog and store, its inline contents and keys in their tables |
| WriteProtocolRuns.AnIngestionFinishesWhenFree | src/agent_context_platform/content/service.py:600-690 | An ingestion whose locks are free ends by its own operations: finished iff all its objects are in the store, else without a trace |
| WriteProtocolRuns.ASweepDecidesWhenFree | src/agent_context_platform/content/orphans.py:145-163 | A sweep whose lock is free ends by its own steps: the object is gone iff it was no dry run and no row names the digest; nothing else changes |
| ContentTransactions.OnlyCanonicalKeysParse | src/agent_context_platform/content/orphans.py:40-54 | A key is read as a digest iff it is that digest's canonical key |
| ContentTransactions.ContentSession.Attach | src/agent_context_platform/content/service.py:600-690 | Succeeds iff every object is present; then issues exactly the ingestion script's two phases, records every digest and adds the inline rows that were missing, each with its item's bytes; else stops at the first missing object |
| ContentTransactions.ContentSession.AttachEach | src/agent_context_platform/content/service.py:635-672 | The first loop: lock, re-verify, record, digest by digest in sorted order |
| ContentTransactions.ContentSession.AttachRows | src/agent_context_platform/content/service.py:674-690 | Inline rows in sorted order, each missing one added with its bytes, none overwritten |
| ContentTransactions.OrphanSweeper.SweepOne | src/agent_context_platform/content/orphans.py:145-163 | Issues the sweep script, ended at its check when a row is there; deletes iff unreferenced and not a dry run |
| ContentTransactions.OrphanSweeper.Run | src/agent_context_platform/content/orphans.py:87-143 | The counters add up and count what they say, exactly the condemned keys are deleted, and a dry run deletes nothing but counts them |
| ContentTransactions.CondemnedExactly | src/agent_context_platform/content/orphans.py:87-143 | An object is condemned iff its key is canonical, it is older than both the cutoff asked for and the minimum age, and no row names its digest at its check |
| LedgerTables.ReadOrderDoesNotMatter | src/agent_context_platform/ledger/repository.py:261-271 | Refs read in any order sort to the sealed order |
| LedgerTables.RowsRebuildSealedEvent | src/agent_context_platform/ledger/repository.py:261-335 | The rows written for a sealed event rebuild exactly that event |
| LedgerTables.SealIsWellSealed | src/agent_context_platform/ledger/repository.py:148-156 | A sealed canonical draft has its refs in strict content-ID order, one per claim, and its own digests |
| LedgerTables.SealedIdentity | src/agent_context_platform/ledger/repository.py:159-197 | The identity rebuilt from stored rows is the identity of the draft that was sealed |
| LedgerAppend.NextSequenceFree | src/agent_context_platform/ledger/repository.py:515-519 | The next sequence of a locked stream is never taken |
| LedgerAppend.RecoverFinds | src/agent_context_platform/ledger/repository.py:461-505 | Recovery returns the stored event iff it holds the same draft, else a conflict |
| LedgerAppend.InsertStepKeeps | src/agent_context_platform/ledger/repository.py:508-555 | An insert extends its chain by one linked event; a recovery changes nothing |
| LedgerAppend.AppendOneKeeps | src/agent_context_platform/ledger/repository.py:581-601 | One append keeps every stream contiguous, linked and headed, and stores the draft it reports |
| LedgerAppend.CanonicalIdentity | src/agent_context_platform/ledger/repository.py:159-167 | Canonicalizing a draft first does not change its identity |
| LedgerHistory.FoldKeeps | src/agent_context_platform/ledger/repository.py:581-636 | A committed batch keeps the chains and holds every item it reports |
| LedgerHistory.FoldGrows | src/agent_context_platform/ledger/repository.py:103-109 | Stored rows, refs and keys never change once written |
| LedgerHistory.EveryHistoryIsChained | src/agent_context_platform/ledger/repository.py:572-579 | Every history of committed, rolled-back, replayed and quarantining steps leaves contiguous hash-chained streams with the right heads |
| LedgerHistory.ReplayOne | src/agent_context_platform/ledger/repository.py:595-598 | Resubmitting a stored draft changes nothing and returns the stored event as not created |
| LedgerHistory.CommittedBatchReplays | src/agent_context_platform/ledger/repository.py:595-601 | A committed batch resubmitted later to active streams changes nothing and returns its events item by item, none created |
| LedgerDecisions.SameDraftExactly | src/agent_context_platform/ledger/repository.py:159-167 | Two drafts are materially the same iff they differ at most in event ID and claim order |
| LedgerDecisions.AppendIsDecided | src/agent_context_platform/ledger/repository.py:461-555 | Every answer of one append and exactly when it is given, by the rows: another producer may use the same idempotency key |
| LedgerDecisions.CreatedExactly | src/agent_context_platform/ledger/repository.py:508-569 | A created event is the draft, next in its stream and linked to the head, with its own digests and given refs; its rows, index entry and moved head are all that is added |
| LedgerDecisions.BatchCommitsExactly | src/agent_context_platform/ledger/repository.py:581-636 | A batch succeeds iff every item is acceptable and its key unused or used for the same draft, before the batch and in it; it creates exactly the items whose key is new |
| LedgerSession.FirstWithKey | src/agent_context_platform/ledger/repository.py:200-210 | The earliest position with the same producer and key |
| LedgerSession.StepSimulates | src/agent_context_platform/ledger/repository.py:508-555 | One insert-or-recover against the session's stream states is one append of the specification |
| LedgerSession.QuarantinedFails | src/agent_context_platform/ledger/repository.py:425-426 | A quarantined stream makes the one-at-a-time appends fail too |
| LedgerSession.RepeatReplays | src/agent_context_platform/ledger/repository.py:623-627 | An in-batch repeat appended on its own returns the first result as not created |
| LedgerSession.RepeatConflicts | src/agent_context_platform/ledger/repository.py:222-227 | A key reused in a batch for another draft makes the one-at-a-time appends fail too |
| LedgerSession.RepeatsAreReplays | src/agent_context_platform/ledger/repository.py:200-229 | For items whose refs match, folding repeats as themselves or as their first occurrence commits alike, with equal results |
| LedgerSession.PlainFoldExactly | src/agent_context_platform/ledger/repository.py:581-636 | The one-at-a-time appends succeed iff the batch commits and every item's refs match its claims; results and tables are then equal |
| LedgerSession.RepeatWithForeignRef | src/agent_context_platform/ledger/repository.py:623-627 | A two-item batch that commits although its second item, appended on its own, would be refused |
| LedgerRepository.AppendTransaction.PlanBatch | src/agent_context_platform/ledger/repository.py:200-229 | Every position's first occurrence, or the first position whose key is reused for another draft |
| LedgerRepository.AppendTransaction.LockStreams | src/agent_context_platform/ledger/repository.py:386-428 | Missing streams created, all read, in sorted order; refused with the smallest quarantined stream iff there is one |
| LedgerRepository.AppendTransaction.InsertOrRecover | src/agent_context_platform/ledger/repository.py:508-555 | One event inserted or recovered in place, nothing changed on failure |
| LedgerRepository.AppendTransaction.UpdateStreamHeads | src/agent_context_platform/ledger/repository.py:558-569 | The touched head rows, and only those, take their stream states |
| LedgerRepository.AppendTransaction.AppendAll | src/agent_context_platform/ledger/repository.py:620-631 | The item loop succeeds iff the fold does, with its results and states |
| LedgerRepository.AppendTransaction.AppendWithOutcome | src/agent_context_platform/ledger/repository.py:581-636 | Commits iff reports and keys are in order and the fold succeeds, with the fold's ledger and results; refused for an unknown report, the first reused key, the smallest quarantined stream or the first failing append, in that order |
| ContentPreparation.Validate | src/agent_context_platform/content/service.py:465-490 | No refusal iff every item has a new content ID, matches its claim and passes the re-check; else the first item's refusal |
| ContentPreparation.ValidExactly | src/agent_context_platform/content/service.py:465-490 | A batch is valid iff its content IDs are distinct, every item has its claimed digest and size, and the policy refuses nothing |
| ContentPreparation.Prepare | src/agent_context_platform/content/service.py:436-498 | An invalid batch uploads nothing; a valid one uploads each object once and maps every content ID to its item's ref, whose object was uploaded |
| ContentPreparation.RefNames | src/agent_context_platform/content/service.py:529-594 | A prepared ref names the item's digest as an object exactly when the item is over the inline threshold |
| ContentReading.ReadMatchesItsRef | src/agent_context_platform/content/service.py:727-733 | Whatever is read has the size and digest of its ref |
| ContentReading.PreparedContentReadsBack | src/agent_context_platform/content/service.py:692-733 | Once a valid batch is prepared and attached, reading any of its refs, inline or object, returns the submitted bytes |
| Ingestion.Resolve | src/agent_context_platform/content/service.py:349-387 | One prepared ref per claim in claim order, iff claims are distinct, prepared and identical; else the duplicate, or why the first unresolved claim is |
| Ingestion.ResolvedItemsAreAccepted | src/agent_context_platform/ledger/service.py:251-260 | What resolution returns passes report validation and sealing |
| Ingestion.IngestionService.ResolveAll | src/agent_context_platform/ledger/service.py:159 | Every event resolved, iff each resolves |
| Ingestion.ResolvedBatchesMayBegin | src/agent_context_platform/ledger/service.py:153-166 | A batch resolved against prepared content names prepared objects only, so the write protocol may begin it in any state |
| Ingestion.IngestionService.Append | src/agent_context_platform/ledger/service.py:159-161 | A resolved batch commits iff folding one-event appends succeeds, with the fold's ledger and results; otherwise nothing changes |
| Ingestion.FoldStaysCatalogued | src/agent_context_platform/ledger/service.py:153-166 | Every object a committed batch's refs name has its catalog row once the prepared objects are attached |
| Ingestion.IngestionService.Commit | src/agent_context_platform/ledger/service.py:153-166 | Attach, resolve and append commit together iff objects are present, claims resolve and the fold succeeds; ledger, catalog and inline rows are then exactly extended, else unchanged with the first reason; stored refs stay catalogued |
| LedgerConcurrency.FoldCommutes | src/agent_context_platform/ledger/repository.py:386-458 | Appends that touch none of the rows others committed succeed on top of them with the same results |
| LedgerConcurrency.TxnFramed | src/agent_context_platform/ledger/repository.py:386-458 | Whatever others commit, an open transaction's progress is still what appending its items to the ledger committed now gives |
| LedgerConcurrency.StepKeepsInv | src/agent_context_platform/ledger/repository.py:508-636 | Locking, inserting, committing, rolling back and quarantining keep the invariant |
| LedgerConcurrency.EveryRunIsSerializable | src/agent_context_platform/ledger/repository.py:572-579 | In every interleaving the committed ledger and every reported result are those of the batches of the run's own commits, one after another in commit order |
| LedgerConcurrency.ConcurrentLedgersVerify | src/agent_context_platform/ledger/verify.py:1-10 | Every stream of every ledger concurrent appends reach verifies from every sequence |
| LedgerConcurrency.RefusedForCause | src/agent_context_platform/ledger/repository.py:508-555 | An insert that ends its transaction means the ledger committed at that moment refuses the batch it began with |
| LedgerConcurrency.NoInsertWaits | src/agent_context_platform/ledger/repository.py:441-453 | Uncommitted rows of two transactions never share a key, so no insert waits on another's |
| LedgerRuns.CommitIsDurable | src/agent_context_platform/ledger/service.py:157-166 | A commit appends the batch its transaction began with and leaves every item stored under its key with the event reported for it |
| LedgerRuns.CommittedStaysCommitted | src/agent_context_platform/ledger/repository.py:103-109 | Every item of every batch a run committed stays stored under its key |
| LedgerRuns.ABatchCommitsWhenFree | src/agent_context_platform/ledger/repository.py:581-636 | A batch whose streams and keys nobody holds ends by its own statements: committed as the ledger accepts it, or nothing changed |
| Keyset.LimitBeforeUnion | src/agent_context_platform/ledger/verify.py:192-215 | Limiting both tables before the union loses nothing of a page |
| Keyset.PageOfTwoTables | src/agent_context_platform/ledger/verify.py:198-214 | A page read as the query reads it is the next page of all IDs |
| Keyset.PagingAdvances | src/agent_context_platform/ledger/verify.py:180-186 | What follows a page's last ID is the rest of the enumeration |
| Keyset.Smallest | src/agent_context_platform/ledger/verify.py:212-214 | The smallest n of a set, in order |
| LedgerVerify.CheckEventCertifies | src/agent_context_platform/ledger/verify.py:344-401 | No check fails iff the row rebuilds an event at its place whose digests, producer and stored forms are its own |
| LedgerVerify.CheckEventDiagnoses | src/agent_context_platform/ledger/verify.py:344-401 | Which check a failing row is reported under, place before decoding before producer and digests, with differing expected and actual values |
| LedgerVerify.CheckHeadNames | src/agent_context_platform/ledger/verify.py:404-426 | The head check passes iff the head names the last row by sequence, event ID and digest, or is at zero without a digest when there is none |
| LedgerVerify.FullWalkMeaning | src/agent_context_platform/ledger/verify.py:260-329 | A full walk is clean iff every row certifies its event, contiguous and linked, and the head names the last |
| LedgerVerify.WalkedIsCleanRun | src/agent_context_platform/ledger/verify.py:303-316 | A walk from any start is clean iff its rows certify in place; then it counted them all and reports their first and last sequence |
| LedgerVerify.TheFirstBadRowIsReported | src/agent_context_platform/ledger/verify.py:303-316 | A failing walk names the first row that does not certify in its place, having counted exactly those before it |
| LedgerVerify.Verifier.Walk | src/agent_context_platform/ledger/verify.py:296-320 | The batched loop computes the row-by-row walk, whatever the batch size |
| LedgerVerify.Verifier.VerifyStream | src/agent_context_platform/ledger/verify.py:236-329 | The stream's verdict, independent of batches |
| LedgerVerify.Verifier.StreamPage | src/agent_context_platform/ledger/verify.py:192-215 | One page is the smallest IDs of either table after the key |
| LedgerVerify.Verifier.VerifyEveryStream | src/agent_context_platform/ledger/verify.py:180-186 | Every non-empty ID of either table, once, in order, whatever the page size |
| LedgerVerify.Verifier.VerifyLedger | src/agent_context_platform/ledger/verify.py:158-189 | Verdicts of the requested or of all streams in order, the count checked only if all are clean; bad arguments refused |
| LedgerIntegrity.EveryReachableLedgerVerifies | src/agent_context_platform/ledger/verify.py:1-10 | Every stream of every reachable ledger verifies from every sequence, and the run is clean unless the empty ID has events |
| LedgerIntegrity.RepresentedStreamVerifies | src/agent_context_platform/ledger/verify.py:260-329 | A chained stream has a clean full walk over exactly its events |
| LedgerIntegrity.VerdictIsExact | src/agent_context_platform/ledger/verify.py:236-329 | A stream verifies from a sequence iff it has a head, the range is linked and certifies, and the head names the stream's last row |
| LedgerIntegrity.DiagnosisIsExact | src/agent_context_platform/ledger/verify.py:236-329 | Which check a failure is reported under: no head without or with events, an unclean range, or a head naming another event |
| LedgerIntegrity.CleanFullWalkMeansCleanTail | src/agent_context_platform/ledger/verify.py:268-329 | A clean full walk makes the walk from every later sequence clean, counting exactly the tail |
| LedgerIntegrity.EventCountFailsOnlyForTheEmptyId | src/agent_context_platform/ledger/verify.py:218-233 | Once all visited streams verified, the count fails iff no stream was requested and an event of the empty stream ID is in scope |
| LedgerIntegrity.TheEmptyIdIsReachable | src/agent_context_platform/ledger/verify.py:180-233 | One event submitted to the stream with the empty ID: all visited streams verify and the count fails |
| LedgerIntegrity.HeadDigestFixesTheStream | src/agent_context_platform/ledger/verify.py:344-426 | Two verified snapshots with the same head sequence and digest hold the same sealed events, columns and refs, and name the same last event |
| LedgerIntegrity.EveryEditIsReported | src/agent_context_platform/ledger/verify.py:30-34 | Any edit of a sealed column or ref of a verified stream, or of its head's last event ID, is reported, links repaired or not |
| LedgerIntegrity.EveryHeadEditIsReported | src/agent_context_platform/ledger/verify.py:404-426 | An edit of a head row is reported iff it changes the sequence or the digest, or the last event ID of a stream with events |
| Identity.EncodingIsInjective | src/agent_context_platform/indexing/identity.py:83-85 | Component lists of any length with one encoding are the same list |
| Identity.IdentitiesNeverCoincide | src/agent_context_platform/indexing/identity.py:127-267 | Subjects of any kinds and repositories share an ID only if they are the same |
| Renames.ListsDecideMove | src/agent_context_platform/indexing/identity.py:372-377 | The two list tests of the loop hold iff exactly one removed and one added path share the blob |
| Renames.CollectGuesses | src/agent_context_platform/indexing/identity.py:358-368 | The best clamped score of every pair, or refusal of a guess that links nothing |
| Renames.ClaimFile | src/agent_context_platform/indexing/identity.py:380-389 | One claim per linked file in ID order, path reuse over similarity over a shared blob |
| Renames.ResolveRename | src/agent_context_platform/indexing/identity.py:315-390 | Refused iff a path or ID repeats or a guess links nothing; else the function of the three input sets |
| Renames.ClaimedExactly | src/agent_context_platform/indexing/identity.py:372-389 | A claim is made iff a removed file is linked to an appeared one that continues nothing: a quarter sure at its own path, else the best score up to nine tenths, else half sure for the same blob |
| Renames.ResolutionIgnoresInputOrder | src/agent_context_platform/indexing/identity.py:335-338 | Permuted inputs are refused alike or give the same IDs and claims |
| Renames.AppearedIdsAreDistinct | src/agent_context_platform/indexing/identity.py:321-331 | Distinct appeared paths get distinct IDs when prior IDs are distinct from each other and from fresh ones |
| Renames.ResolveCommitted | src/agent_context_platform/indexing/identity.py:402-443 | Fresh IDs for every committed path and one claim per provisional counterpart; refused iff a path repeats |
| Lineage.AdvanceKeepsInv | src/agent_context_platform/indexing/lineage.py:372-393 | One commit keeps live and dead IDs distinct, minted for their origins, and nothing gone live |
| Lineage.EveryHistoryIsSafe | src/agent_context_platform/indexing/lineage.py:9-28 | After any chain the live paths are the tree's files with their blobs, IDs are distinct and every live ID is its origin's |
| Lineage.NoResurrection | src/agent_context_platform/indexing/lineage.py:25-28 | An ID once live and then not is never live again |
| Lineage.IdentityFollowsTheTrees | src/agent_context_platform/indexing/lineage.py:17-23 | From one tree to the next a file keeps an ID iff it kept its path, or is the one removed and the one added path of its blob |
| Lineage.OriginsAreAdditions | src/agent_context_platform/indexing/lineage.py:3-7 | A live file's recorded origin is a commit of the chain that added that path with that blob |
| LineageWalk.DiffMeans | src/agent_context_platform/indexing/lineage.py:333-354 | The records of any diff, read as sets, are the difference of the two file maps |
| LineageWalk.MovesAreContinuations | src/agent_context_platform/indexing/lineage.py:356-378 | The resolution moves a lineage iff the trees continue it, reborn paths never being a source |
| LineageWalk.State.Reduce | src/agent_context_platform/indexing/lineage.py:329-354 | Removed and added paths, edits and guesses, exactly as the records report them |
| LineageWalk.State.Settle | src/agent_context_platform/indexing/lineage.py:381-393 | Carrying, entering and burying yields the advanced state |
| LineageWalk.State.Apply | src/agent_context_platform/indexing/lineage.py:329-393 | The resolution never refuses; live and dead advance by the trees alone; the claims are those of the three sets |
| LineageDerive.Walk | src/agent_context_platform/indexing/lineage.py:241-272 | The walk yields the state the trees determine and the claims of every commit, however Git paired, scored or ordered the changes; too long a history is refused |
| LineageDerive.DeriveLineage | src/agent_context_platform/indexing/lineage.py:166-272 | The target tree's files with the IDs and origins the trees determine, every ID the one minted for its origin, and, sorted, exactly the claims whose new ID is live |
| LineageDerive.EveryIdIsItsOrigins | src/agent_context_platform/indexing/identity.py:138-144 | With `file_logical_id` as the derivation, every live ID of every history is that of its recorded origin |
| LineageClaims.NoPairIsClaimedTwice | src/agent_context_platform/indexing/lineage.py:372 | Over a whole history no old ID is claimed twice for the same new one |
| LineageClaims.OnlySimilarityFollowsGit | src/agent_context_platform/indexing/lineage.py:17-23 | However Git paired the changes, a claim not by similarity is made alike, unless a similarity claim for the pair outranks a shared blob |
| LineageClaims.KeptClaims | src/agent_context_platform/indexing/lineage.py:395-411 | Of the claims with a live new ID the last with each key, in key order |
| LineageClaims.KeptAreLive | src/agent_context_platform/indexing/lineage.py:395-411 | A walk's claims need no deduplication: kept are exactly those whose new ID is live |
| LineageDerive.ByOrigin | src/agent_context_platform/indexing/lineage.py:126-128 | Each origin path maps to the last live path that began there |
| LineageDerive.LinkProvisional | src/agent_context_platform/indexing/lineage.py:118-144 | Never inconsistent; each item is linked to the live lineage that began at its path |
| OtlpWire.MessageRefines | src/agent_context_platform/ledger/otlp_wire.py:225-287 | A message's walk succeeds iff its bytes decode to an acceptable tree whose tallies fit; the counts are then exactly those |
| OtlpWire.ScanDecidesAcceptability | src/agent_context_platform/ledger/otlp_wire.py:376-380 | A scan accepts iff the bytes decode to a well-typed tree with no repeated singular message, within every limit, and returns its tallies |
| OtlpEncoding.VarintReads | src/agent_context_platform/ledger/otlp_wire.py:198-209 | A varint written in any width up to ten bytes reads back, whatever follows |
| OtlpEncoding.EncodedDecodes | src/agent_context_platform/ledger/otlp_wire.py:225-287 | Well-typed fields, written with any varint widths, decode to their shape |
| OtlpEncoding.DecodedWasWritten | src/agent_context_platform/ledger/otlp_wire.py:225-287 | Whatever decodes is the encoding of well-typed fields of that shape |
| OtlpEncoding.ScanAcceptsWhatCanBeWritten | src/agent_context_platform/ledger/otlp_wire.py:376-380 | A scan returns counts iff the bytes are written from well-typed fields whose tree is acceptable, within every limit and tallies to them |
| OtlpScanner.FastPathIsExact | src/agent_context_platform/ledger/otlp_wire.py:328-352 | The shortcut ends with the counts and the code of the generic walk |
| OtlpScanner.FieldVisitsAreBounded | src/agent_context_platform/ledger/otlp_wire.py:7-8 | However it ends, the walk visits at most one field over the budget |
| OtlpScanner.WalkStaysInRange | src/agent_context_platform/ledger/otlp_wire.py:225-287 | A message's walk depends on the bytes of its own range only |
| OtlpScanner.DecodedHeight | src/agent_context_platform/ledger/otlp_wire.py:48-49 | An acceptable tree is no higher than a bound the schema and the value depth fix |
| OtlpScanner.BudgetShrinks | src/agent_context_platform/ledger/otlp_wire.py:270-278 | Every descent lowers that bound |
| OtlpScanner.Scanner.Varint | src/agent_context_platform/ledger/otlp_wire.py:198-209 | The byte loop reads the base-128 varint, ten bytes at most, inside the range |
| OtlpScanner.Scanner.PlainAttribute | src/agent_context_platform/ledger/otlp_wire.py:328-352 | True iff the shape is the common one; nothing counted otherwise |
| OtlpScanner.Scanner.ReadNext | src/agent_context_platform/ledger/otlp_wire.py:236-287 | The next field as the decoder reads it, or malformed |
| OtlpScanner.Scanner.EnterMessage | src/agent_context_platform/ledger/otlp_wire.py:289-314 | The tallies and limits of entering a kind |
| OtlpScanner.Scanner.ScanMessage | src/agent_context_platform/ledger/otlp_wire.py:225-287 | Counts and code of the walk on every input; recursion bounded by the schema and the depth |
| OtlpScanner.ScanRequest | src/agent_context_platform/ledger/otlp_wire.py:376-380 | The counts of the scan, or its code |
| Bisection.CeilLog2Bounds | src/agent_context_platform/indexing/emitter.py:454-458 | The rounds of halving are the least power of two reaching n |
| Bisection.NeededSplits | src/agent_context_platform/indexing/emitter.py:454-459 | What isolating k bad files of n needs pays for a split and both halves |
| Bisection.StructuralParse.ParseSolo | src/agent_context_platform/indexing/emitter.py:481-497 | One run; the file once in the output, exactly as replied or refused |
| Bisection.StructuralParse.Collect | src/agent_context_platform/indexing/emitter.py:468-474 | Every parsed file once, exactly as the shared run replied unless that cut it short, then as its solo run did; at most one solo run each |
| Bisection.StructuralParse.Retry | src/agent_context_platform/indexing/emitter.py:450-464 | A refused group is halved while retries last, else degraded whole; every file once and traced to its run |
| Bisection.StructuralParse.ParseBisecting | src/agent_context_platform/indexing/emitter.py:441-474 | Every file once, exactly as a run replied or refused by one, nothing settled lost; runs at most one, plus retries spent, plus files; with 2k ceil(log2 n) retries exactly the k bad files degrade |
| Bisection.Chunks | src/agent_context_platform/indexing/emitter.py:394-410 | The loop computes the requests a list of files is sent in |
| Bisection.ChunksAreExact | src/agent_context_platform/indexing/emitter.py:394-410 | The files in order, each request within its limits unless it is one file, none closed early |
| Bisection.IndexerParse.ParseAll | src/agent_context_platform/indexing/emitter.py:348-385 | Every accepted file exactly once in path order, exactly as some run replied or degraded because one refused it, nothing settled lost; given up iff the environment failed a run; runs at most one per request, plus the retry budget, plus files; within the budget exactly the bad files degrade |
| Bisection.RequestsAreFew | src/agent_context_platform/indexing/emitter.py:362-365 | There are no more requests over all languages than accepted files |
| Bisection.FiveBadFilesAreAffordable | src/agent_context_platform/indexing/emitter.py:352-358 | Up to five bad files are always within the run budget, whatever the number of files, languages and requests |
| Intervals.Index.constructor | src/agent_context_platform/indexing/emitter.py:662-673 | Spans sorted, each linked to the nearest earlier one reaching as far |
| Intervals.Index.Link | src/agent_context_platform/indexing/emitter.py:667-673 | The stack pass finds every parent |
| Intervals.Index.StartsUpTo | src/agent_context_platform/indexing/emitter.py:675-676 | The binary search splits the starts at the query |
| Intervals.Index.Innermost | src/agent_context_platform/indexing/emitter.py:675-681 | The containing span with the latest start, then smallest end, then earliest given; none iff none contains the range |
| Intervals.InnermostIsSmallest | src/agent_context_platform/indexing/emitter.py:651-658 | Among nesting spans the answer is the smallest containing span iff the range is not an empty one at a boundary |
| Intervals.EmptyRangeTakesTheLaterSpan | src/agent_context_platform/indexing/emitter.py:675-681 | At a shared boundary an empty range gets the later span, which need not be the smallest |
| ScipSymbol.AcceptedIsDerivable | src/agent_context_platform/indexing/scip.py:863-890 | Every accepted text prints a symbol of the grammar |
| ScipSymbol.PrintedIsAccepted | src/agent_context_platform/indexing/scip.py:863-890 | A printed symbol is accepted iff it has no control characters and its middle fields each hold a non-space |
| ScipSymbol.SpacesOnlyFieldIsRefused | src/agent_context_platform/indexing/scip.py:876-889 | A derivable symbol with a version of spaces is refused |
| ScipSymbol.ExactSeparators | src/agent_context_platform/indexing/scip.py:876-889 | With one separator per field the scan succeeds iff every middle field holds a non-space |
| ScipSymbol.TooFewSeparators | src/agent_context_platform/indexing/scip.py:876-890 | With fewer separators than fields no reading succeeds, not even by splitting a quoted name |
| ScipSymbol.DescriptorLenOf | src/agent_context_platform/indexing/scip.py:915-941 | A printed descriptor is read whole, whatever follows it |
| ScipSymbol.ReadDescriptors | src/agent_context_platform/indexing/scip.py:915-941 | What the descriptor loop accepts is a printed non-empty list |
| ScipRecognizer.NameEnd | src/agent_context_platform/indexing/scip.py:893-912 | Past the identifier at a position, strictly further, or -1 |
| ScipRecognizer.ValidDescriptors | src/agent_context_platform/indexing/scip.py:915-941 | Accepts exactly the descriptor lists |
| ScipRecognizer.IsValidSymbol | src/agent_context_platform/indexing/scip.py:863-890 | The single pass accepts exactly what the recognizer function does |
| DecodeGate.StepKeepsInv | src/agent_context_platform/ledger/otlp_api.py:255-302 | Every arrival, await, cancellation, disconnect and late thread keeps the counters exact |
| DecodeGate.EveryReachableGateIsExact | src/agent_context_platform/ledger/otlp_api.py:235-245 | Admitted is the sum of the places within capacity and share; slots add up to the workers; threads at most that many, one per producer; turns exactly for present producers |
| DecodeGate.EveryLiveThreadIsCounted | src/agent_context_platform/ledger/otlp_api.py:235-245 | The threads a run started and has not seen end, whatever was cancelled, each have their place and can end; never more than workers, nor two of one producer |
| DecodeGate.AdmittedExactlyWhenThereIsRoom | src/agent_context_platform/ledger/otlp_api.py:257-262 | An arrival gets a place iff fewer are taken than the capacity and fewer of its producer than its share |
| DecodeGate.DrainedGateIsInitial | src/agent_context_platform/ledger/otlp_api.py:292-302 | A drained gate is back in its initial state |
| DecodeGate.SomeRequestCanStep | src/agent_context_platform/ledger/otlp_api.py:265-285 | While anyone is admitted, an admitted request can step without an arrival or a cancellation |
| DecodeGate.StepsUseUpWork | src/agent_context_platform/ledger/otlp_api.py:265-285 | Every step but an arrival uses up work, so the gate drains |
| DecodeGate.Admission.Enter | src/agent_context_platform/ledger/otlp_api.py:257-262 | Refuses iff at capacity or over the producer's share, else admits |
| DecodeGate.Admission.GiveBack | src/agent_context_platform/ledger/otlp_api.py:292-302 | Gives the place back, with its slot and turn if it held them |
| DecodeGate.Admission.Cancelled | src/agent_context_platform/ledger/otlp_api.py:266-285 | Cancellation at every await, handing the place over to the thread once it runs |
| TokenBucket.EveryRunIsShaped | src/agent_context_platform/mcp/auth.py:207-227 | Whatever was asked, each bucket is listed once, least recently used first, never more than the limit, none in debt |
| TokenBucket.Limiter.Sweep | src/agent_context_platform/mcp/auth.py:220-227 | Leaves exactly the buckets in use, less the least recently used one if all were in use at the cap |
| TokenBucket.Limiter.Acquire | src/agent_context_platform/mcp/auth.py:207-218 | Its answer and whole new state are the functional limiter's; a principal that never lost a bucket in use is answered as by a table that never evicts |
| TokenBucket.EvictionIsInvisible | src/agent_context_platform/mcp/auth.py:185-186 | A request is answered as by a table that never evicts, unless its principal lost a bucket in use since it last rested a refill horizon |
| TokenBucket.ForcedOnlyAtTheCap | src/agent_context_platform/mcp/auth.py:187-188 | A bucket in use is lost only at the cap, with nothing refilled, by the principal that has not asked for longest |
| TokenBucket.LimiterGrantsAreBounded | src/agent_context_platform/mcp/auth.py:187-188 | The limiter's grants between any two requests are at most burst plus rate times the time, plus a burst per bucket lost in use |
| TokenBucket.GrantsInAnyWindowAreBounded | src/agent_context_platform/mcp/auth.py:207-218 | Without eviction, grants between any two requests are at most burst plus rate times the time |
| TokenBucket.WaitingTheAdvertisedTimeIsEnough | src/agent_context_platform/mcp/auth.py:215-217 | Without eviction, a refused caller who waits the advertised time is granted iff the burst is at least one, whoever asked in between |
| TokenBucket.TheLimiterKeepsItsWord | src/agent_context_platform/mcp/auth.py:207-227 | The limiter itself keeps that promise, evictions or not |
| TokenBucketExact.GrantedExactlyWithinTheRate | src/agent_context_platform/mcp/auth.py:207-218 | Without eviction, a request is granted iff no window that ends with it would then hold more grants than the burst plus the rate times its length |
| TokenBucketExact.NoShorterWaitIsEnough | src/agent_context_platform/mcp/auth.py:215-217 | No smaller whole number of seconds than advertised is enough |

## Left out

- WriteProtocol.NoDanglingReference: assumes a delete takes effect before its call returns and that no lost connection releases a lock early, because both lie outside the code.
- WriteProtocolProgress.WaitForGraphIsAcyclic: leaves out waits on the events primary key, because one event ID is assumed never to be used under two idempotency keys.
- LedgerAppend.RecoverFinds: which constraint PostgreSQL names when an insert violates two is a parameter of the database.
- LedgerVerify.Verifier.VerifyLedger: SQL orders stream IDs by code point here, not by a database collation.
- LedgerIntegrity.HeadDigestFixesTheStream: the event digest is assumed injective, as SHA-256 is taken to be.
- Identity.IdentitiesNeverCoincide: UUIDv5 (section 5.5 of RFC 9562) is assumed injective and the URL namespace not the root one; the validation of repository IDs, paths, OIDs and digests is left to the callers.
- LineageDerive.DeriveLineage: starts from parsed diff records.
- LedgerConcurrency.EveryRunIsSerializable: one event ID is assumed never to be used under two idempotency keys. Locks may be taken in any order, the sorted one included.
- Ingestion.IngestionService.Commit: `ingest`'s status codes and the rejected batch's per-event report are not modelled.
- ContentTransactions.ContentSession.Attach: of an inline or object row only digest and bytes are modelled, not media type and sizes.
- ContentReading.PreparedContentReadsBack: SHA-256 is assumed injective.
- ContentPreparation.Prepare: base64, the redaction policy and the blob store are parameters.
- Bisection.IndexerParse.ParseAll: replies are assumed to cover their request, and the diagnostic counters are not modelled.
- DecodeGate.SomeRequestCanStep: the order in which asyncio wakes waiters is not modelled, so fairness between requests is not stated.
- TokenBucket.Limiter.Acquire: arithmetic is over reals, not floating point, and the clock is assumed monotone.
- WriteProtocol.StepKeepsInv: the protocol is a step system on values, because the interleaved transactions are many; the sequential methods beside it do not interleave.
- The internals of S3, PostgreSQL, SQLAlchemy and asyncio, and of SHA-256, UUIDv5, zstd, RFC 8785 canonical JSON and the SDK's `seal_event`.
- `BlobStore.put_verified`, redaction reports, the outbox and the telemetry of content outcomes.
- `recorded_at` and the other timestamps no digest covers.
- `_tables`, which builds the scanner's descriptor tables: its refusals are the well-formedness of the schema parameter.
- `_parse_raw`, the Git subprocesses and the repository scanner.
- Tree-sitter adapters, name binding, provenance wording and everything else the emitter derives from parsed files.
- HTTP routes, the MCP server, authentication hashing, the CLI, settings, migrations and health checks: plumbing.
