# Audit delivery: a verified model

The repository delivers audit events into hash chains, one chain per stream. Events reach a store
through an in-memory pipeline or through a transactional outbox; the SQL store gives every event the
next number of its stream and a SHA-256 hash over its canonical JSON and its predecessor's hash; a
chain can be verified, pruned, and anchored outside. This project models that program in Dafny and
proves what it promises, for every input, every interleaving and every reachable state, and says
exactly when a promise does not hold. Safety is matched by progress: from every reachable state a write,
a prune or a delivery without a conflict can be taken to its end once the other sessions have stopped, and
the pipeline can settle what it holds; the lemmas that say so build the run.
`dafny verify dfyconfig.toml` checks everything.

## The parts

- **Canonical JSON and hashes** (`KeyOrder`, `Json`, `JsonText`, `Serializer`, `EntryHash`). The
  printer under every hash is shown injective up to undefined members and member order, by a reader
  that recovers the value and the unread rest; what is hashed parses to the named fields of the entry.
  SHA-256 is an arbitrary function on texts.
- **Chains** (`HashChain`, `ChainVerify`, `TamperEvidence`). Chaining a batch and verifying rows, for
  an arbitrary hash of entries. Where two trails could differ unnoticed, tamper evidence names the
  row of each whose hashed texts collide.
- **The SQL store** (`WritePlan`, `Retention`, `AuditStore`, `StoreInvariant`, `StoreTables`,
  `StoreSessions`, `StoreProof`, `StorePrune`, `StoreTheorems`, `StoreIds`, `StoreRuns`, `StoreProgress`,
  `PruneProgress`, `PagedVerify`, `InterleavedVerify`, `ReadBack`, `RetryDriver`, `StoreWitness`). A
  transition system: any number of sessions write and prune shared tables, one statement or
  transaction boundary per step; each may fail or stop at any step. A transaction's effects appear at
  its commit. A unique index makes an insert fail on a committed key and wait for an uncommitted one.
  `Cfg.heldToCommit` distinguishes the lock that lasts until the transaction ends (PostgreSQL, and
  SQLite as one lock name for all streams) from the one released just before the commit (MySQL);
  `Cfg.lockKey` may map two streams to one lock. The loops of `write`, `prune` and `verify` are
  methods proved against the functions the steps use.
- **The outbox relay** (`Outbox`, `ExactlyOnce`, `OutboxProgress`, `Claims`, `Attempts`, `FailureBound`,
  `OutboxWitness`, `OutboxPayload`, `PayloadEvents`, `Notifier`). Any number of drains, one statement per
  step, over the outbox table and the store above, with one clock. A drain may stop anywhere, an
  acknowledgement may fail before or after it took effect, and other sessions keep writing. `AckThrew`,
  `Threw` and `Stop` are the failures. Requeues come from anyone at any time.
- **The pipeline** (`PipelineSpec`, `PipelineRuns`, `PipelineCalm`, `PipelineProgress`, `PipelineWitness`,
  `Pipeline`).
  `Pipeline` is the class with the array, head, tail and size; each method is what the program runs
  between two points where it awaits, and is proved to make the step of `PipelineSpec`. The theorems
  are about all sequences of steps. The size may become negative, as it does in the program.
- **Stores in memory and anchors** (`Grouping`, `StreamHeads`, `HttpStore`, `StreamStore`, `Anchor`,
  `AnchorEvidence`) and **redaction** (`Redactor`).

Assumptions a reader should know:

- Clocks, network results, hash and fingerprint functions, payload parsing and publication are
  parameters or nondeterministic choices.
- A row read back from the database equals the row written, except in `ReadBack`, where its creation
  time is normalised as the program does.
- With pruning, the theorems about the store are about every run in which a prune that commits has
  deleted only rows it selected (`AuditStore.IsTightRun`). `StoreIds.LiveRowsAreASuffixIff` says that
  this is exactly what the live rows need to stay a suffix of what was committed, and
  `StoreIds.TightAtDelete` that it is a fact about the table at the delete: no other live row has the
  id of a selected one. It always holds without pruning, and where no pruned event is delivered again
  (`StoreIds.FreshRunIsTight`). An event that is delivered again with no prune of its stream under way
  costs the uniqueness of ids over all rows ever committed (and a prune that selects it later throws on
  its archive marker); one delivered again while a slower prune of it is under way costs the stream its
  last row (`StoreWitness.NumberGivenTwice`).
- `maxBatchSize` and `capacity` of the pipeline, and an anchor interval in rows, are at least 1.
- Where shutdown waits for the active flush, its last part runs right after that flush's completion:
  both are reactions to one promise, registered in that order.
- Strings are sequences of Unicode scalar values, ordered by their UTF-16 code units as the host orders
  them, and numbers are integers.

## Where the code and its documentation differ

The model follows the code.

- The comment on `canonicalJson` says that keys are sorted lexicographically
  (src/core/canonical_json.ts:69). The sorted keys are put into an object, which enumerates
  array-index keys first and numerically. The order is lexicographic exactly where no array-index key is
  lexicographically greater than a longer one or than another key: `Json.LexicographicIff`.
- Replay from the outbox is documented as safe (docs/operations.md:161). It is, while the event is
  live; after a prune the event is stored again, and can cost the stream its last row:
  `StoreIds.IdsAreUniqueIff`, `StoreIds.LiveRowsAreASuffixIff`, `StoreWitness`.
- Stored events are meant to verify. The hash covers the creation time as it was given, and a row read
  back has it normalised, so an event that came through the outbox with another form of its time is
  reported invalid: `ReadBack.ReadBackVerifiesIff`. A verification that a prune overtakes reports
  untouched rows invalid: `InterleavedVerify.InterleavedVerifiesIff`.
- Shutdown is documented to drain the queue (docs/guarantee-modes.md:7). With no flush
  active it settles everything; where it waits for a flush, exactly when less than one batch is left
  then: `PipelineCalm.IdleShutdownSettles`, `ShutdownSettlesIff`, `PipelineWitness.ShutdownSettlesTwice`.
- Attempts are documented as what makes the relay idempotent (docs/guarantee-modes.md:49). Exactly-once
  delivery needs nothing of them, and the column is written from a number read earlier, so several
  drains can lose a count and fail a row more often than `maxAttempts`: `ExactlyOnce`, `Attempts`,
  `FailureBound`, `OutboxWitness`.
- A verification never compares the stored predecessor hash, and the first invalid number it reports
  is the expected one in `verifyChain` and the row's own in the stores: `ChainVerify`.

## Model

| member | source | states |
|---|---|---|
| `KeyOrder.MisplacedIff` | src/core/canonical_json.ts:49-58 | Of two keys printed one before the other, exactly these are out of lexicographic order: an array index before a lexicographically smaller longer index or other key |
| `Json.LexicographicIff` | src/core/canonical_json.ts:49-58 | The members of a normalised object are in the documented lexicographic order if and only if no two of its keys are such a pair |
| `Json.WithoutIndexKeysLexicographic` | src/core/canonical_json.ts:49-58 | An object without array-index keys is printed in lexicographic order |
| `KeyOrder.IndexKeysAreNotLexicographic` | src/core/canonical_json.ts:49-58 | A pair of keys for which the documented order fails: "9" is printed before "10" |
| `KeyOrder.LexIsUtf16` | src/core/canonical_json.ts:49-58 | The order of keys compares texts by their UTF-16 code units, surrogate pairs included |
| `JsonText.IndexKeyIff` | src/core/canonical_json.ts:49-58 | The keys enumerated first are exactly the decimal texts of the numbers up to 2^32 - 2 |
| `JsonText.DigitsOrder` | src/core/canonical_json.ts:49-58 | Those keys are enumerated in the order of their numbers |
| `Json.SerializeSucceeds` | src/core/canonical_json.ts:7-60 | Canonicalising throws exactly on values with something foreign, a date or other instance, or an undefined that is no object member |
| `Json.SameNormalForm` | src/core/canonical_json.ts:41-60 | Two values have one normal form exactly when they are equal up to undefined members and member order |
| `Serializer.SerializeValue` | src/core/canonical_json.ts:7-64 | The recursive pass with its loops builds the normal form, or throws where there is none |
| `JsonText.ReadBack` | src/core/canonical_json.ts:77-83 | Every printed value reads back from its text, whatever follows it |
| `JsonText.CanonicalDefined` | src/core/canonical_json.ts:77-83 | Canonical printing throws exactly on the values that are not representable |
| `JsonText.CanonicalInjective` | src/core/canonical_json.ts:66-83 | Two values print the same exactly when they are equal up to undefined members and member order |
| `JsonText.CanonicalParses` | src/core/canonical_json.ts:77-83 | The text parses to the normal form with nothing left over |
| `JsonText.CanonicalText` | src/core/canonical_json.ts:66-83 | The text of one object: keys sorted, the undefined member dropped, no white space |
| `JsonText.OtherTexts` | src/core/canonical_json.ts:66-83 | The texts of an array, of literals and of a string with a quote and a line feed |
| `EntryHash.HashedTextDetermines` | src/core/hash_chain.ts:9-34 | Two entries have one hashed text exactly when they agree on every hashed field |
| `EntryHash.HashedTextHolds` | src/core/hash_chain.ts:9-34 | An entry's hash is the digest of a text that parses to an object with exactly the fourteen hashed fields, each value of the entry under its own key, the actor's two included |
| `EntryHash.HashesIff` | src/core/hash_chain.ts:31-34 | Hashing an entry throws exactly where a payload of its event has something JSON cannot represent, whatever its number and predecessor |
| `EntryHash.FingerprintDetermines` | src/stores/lucid_store.ts:106-143 | Two events have one fingerprint exactly when they agree on every field, with the creation time normalised |
| `EntryHash.FingerprintHolds` | src/stores/lucid_store.ts:106-143 | A fingerprint parses to an object with exactly the event's fields, each under its own key, a missing label as null and the time normalised |
| `EntryHash.FingerprintIff` | src/stores/lucid_store.ts:106-143 | An event has a fingerprint exactly where it can be hashed |
| `HashChain.GenesisIs` | src/core/hash_chain.ts:5 | The hash a stream starts from is sixty-four zeros |
| `HashChain.ChainBatch` | src/core/hash_chain.ts:36-53 | The loop returns the one chain over exactly the batch's events after the head, or throws where hashing an event does |
| `HashChain.ChainFromIs` | src/core/hash_chain.ts:44-50 | Rows are the result of chaining a batch if and only if they hold its events in order and are a gapless chain after the head |
| `HashChain.ChainFromConcat` | src/core/hash_chain.ts:36-53 | Chaining two batches at once is chaining the first and then the second after its new head |
| `ChainVerify.VerifyChain` | src/core/hash_chain.ts:62-104 | The loop with its map of stream states gives the verdicts of the specification for interleaved streams |
| `ChainVerify.AcceptsIff` | src/core/hash_chain.ts:67-89 | A pass finds every row valid if and only if the rows continue the stream without a gap and with the hash of their events over their predecessors |
| `ChainVerify.VerdictShape` | src/core/hash_chain.ts:77-103 | Over ascending rows the verdicts are valid ones followed only by invalid ones, which all report one number: that of the first row expected and not found |
| `ChainVerify.ReportsAre` | src/core/hash_chain.ts:67-104 | Every report says of its row whether it has the number after the last valid row and the hash of its event over that row's hash; if not, it holds the hash the row should have, the one it has, and the number of the first invalid row |
| `ChainVerify.StreamsAreIndependent` | src/core/hash_chain.ts:65-74 | Each stream gets the verdicts its rows get alone, however the streams are interleaved |
| `ChainVerify.ScanConcat` | src/core/hash_chain.ts:67-103 | Two passes in a row are one pass |
| `ChainVerify.ChainedVerifies` | src/core/hash_chain.ts:36-104 | What chaining returns verifies after any chain it continues |
| `ChainVerify.StoredPrevHashUnchecked` | src/core/hash_chain.ts:76-78 | Rows that differ only in the stored predecessor hash get the same verdicts |
| `TamperEvidence.ChainsAgree` | src/core/hash_chain.ts:9-104 | Two chains after one place of a stream, its beginning or its last pruned row, that end in one hash are equally long and agree row by row, or a row of one has the hash of an entry of the other that it does not agree with |
| `TamperEvidence.VerifiedTrailsAgree` | src/core/hash_chain.ts:9-104 | Two trails verified from one start that end in one hash agree on every hashed field of every row, or a row of each is a collision of SHA-256 |
| `TamperEvidence.ModificationDetected` | src/core/hash_chain.ts:62-104 | Replacing any row of a verified trail that keeps its last hash, with its hash computed anew or not, makes verification fail unless every hashed field is the same or two rows collide |
| `Grouping.GroupBy` | src/core/pipeline.ts:273-288 | The loop partitions a batch by name, each group in order, the groups in order of first occurrence |
| `Grouping.GroupAllPermutes` | src/core/pipeline.ts:273-288 | Grouping neither loses, adds nor repeats an element |
| `WritePlan.PlanWrite` | src/stores/lucid_store.ts:171-201 | The loop over a batch throws exactly where an event differs from its stored row or from another event of the batch with its id; otherwise every event is accounted for by a stored row or one insertion, no id twice, and nothing is inserted exactly where all are stored |
| `WritePlan.PlansIff` | src/stores/lucid_store.ts:177-200 | Planning succeeds if and only if no event of the batch is in such a conflict; the results are for the ids of the batch that are stored |
| `WritePlan.ReplayPlansNothing` | src/stores/lucid_store.ts:186-195 | A batch delivered again, every event stored as that event, is planned without an insertion, and the result of each is its stored row |
| `StorePrune.StepKeeps` | src/stores/lucid_store.ts:166-218 | Every step of every session, writing or pruning, keeps the invariant of the tables and of all sessions, unless it commits a prune that removes a row it did not select |
| `StorePrune.RunKeeps` | src/stores/lucid_store.ts:566-656 | Every state of every run without such a commit satisfies the invariant, in both lock modes and with streams that share a lock |
| `StoreIds.LiveRowsAreASuffixIff` | src/stores/lucid_store.ts:474-504 | In a run with nothing assumed, the live rows of every stream are in every state exactly those above its pruned ones if and only if no prune that commits has deleted a row it did not select |
| `StoreIds.TightAtDelete` | src/stores/lucid_store.ts:474-483 | A prune has deleted only rows it selected if and only if, when it deleted, no other live row had the id of one of them |
| `StoreIds.FreshRunIsTight` | src/stores/lucid_store.ts:171-193 | That holds of every run in which no commit has an id that is in the archive |
| `StoreTheorems.EveryStreamIsAChain` | src/stores/lucid_store.ts:566-622 | In every reachable state the rows ever committed of a stream are a gapless chain from number 1 |
| `StoreTheorems.EveryIdIsUnique` | src/stores/lucid_store.ts:171-201 | No two live rows share an id, in one stream or in two, whatever is delivered how often |
| `StoreTheorems.StaleHeadAlwaysClashes` | src/stores/lucid_store.ts:575-620 | A writer whose head is no longer the last row clashes with a live row, so its transaction rolls back whole |
| `StoreTheorems.NumbersAreGivenOnce` | src/stores/lucid_store.ts:566-622 | No committed row is rewritten, and the rows ever committed to a stream have the numbers 1, 2, 3 and so on: no number is given out twice |
| `StoreTheorems.WriteReturnsStoredRows` | src/stores/lucid_store.ts:203-217 | A write that returns gives back, position by position, committed rows that are the batch's events, and they stay committed |
| `StoreProgress.WriteGoesThrough` | src/stores/lucid_store.ts:566-622 | While nobody else has an uncommitted effect, a session that starts a write without a conflict can take it to its end, in both lock modes: it returns, each stream has got its new events in order, and nothing else has changed |
| `StoreProgress.WritesStayPossible` | src/stores/lucid_store.ts:166-218 | From every reachable state, whoever crashed where, such a write can still be done once the other sessions have stopped: the store never gets stuck |
| `StoreProgress.ReplayInsertsNothing` | src/stores/lucid_store.ts:186-217 | In every reachable state a session that writes again what is stored gets the live rows, position by position, and the tables stay as they are |
| `StoreProgress.WriteThenReplay` | src/stores/lucid_store.ts:186-217 | A session that got its rows and sends the batch again gets the same rows, as long as they are live |
| `RetryDriver.TrueMeansStoredOnce` | src/core/pipeline.ts:290-325 | A caller that retries writes at most five times, gives up only after five failures, and if it gets true, each event of its batch is stored exactly once, whatever failed attempts committed and others wrote |
| `RetryDriver.FalseMeansAtMostOnce` | src/core/pipeline.ts:290-325 | In every state, also when the caller got false, each event is stored at most once |
| `RetryDriver.NextAttemptCanSucceed` | src/core/pipeline.ts:290-325 | Whenever the caller is about to write, if no event of its batch is in conflict, the attempt can succeed, whatever failed attempts left behind |
| `StoreTheorems.PlainRunIsRun` | src/stores/lucid_store.ts:166-218 | Without pruning nothing need be assumed: every run has fresh commits and removes nothing unselected, and all committed rows are live |
| `StoreIds.InsertIsNewIff` | src/stores/lucid_store.ts:171-193 | In every run, an insert that succeeds has ids never committed before if and only if no marker in the archive table has one of them |
| `StoreIds.IdsAreUniqueIff` | src/stores/lucid_store.ts:171-193 | In every run, with nothing assumed about ids, no id is committed twice if and only if no commit has an id that is in the archive at that moment |
| `StoreWitness.RedeliveryAfterPrune` | src/stores/lucid_store.ts:171-193 | A run that writes an event, prunes it and writes it again ends with two rows for it |
| `StoreWitness.NumberGivenTwice` | src/stores/lucid_store.ts:474-504 | The other half: a run in which a slower prune deletes by id what was delivered again, the last row of the stream goes, and its number is given out a second time |
| `StoreTheorems.LiveRowsAreASuffix` | src/stores/lucid_store.ts:380-504 | After any writes and prunes the live rows of a stream are a suffix of its history, not empty unless the history is |
| `StoreTheorems.RemovedRowsExpired` | src/stores/lucid_store.ts:388-419 | Every row removed by a prune that takes only what it selected is of one stream and one event name passing the filter, has expired under its own policy, and has its archive marker |
| `StoreTheorems.RemovedRowsAreAPrefix` | src/stores/lucid_store.ts:400-413 | What such a prune removes is a prefix of the stream's live rows and never its last row |
| `StoreTheorems.OneMarkerEach` | src/stores/lucid_store.ts:443-472 | A row has one archive marker over any number of failed and repeated prunes |
| `StoreTheorems.LiveOrArchived` | src/stores/lucid_store.ts:458-483 | In every reachable state every row ever committed is live, or the archive has a marker with its id, place, hash and predecessor's hash |
| `PruneProgress.PrunesStayPossible` | src/stores/lucid_store.ts:380-504 | From every reachable state the candidates of a stream can be pruned, unless the archive has another row with the id of one: exactly they leave, each is archived, the last becomes the checkpoint, and the session reports as many |
| `PruneProgress.FreshRunsHaveNoConflict` | src/stores/lucid_store.ts:438-456 | There is no such conflict where no pruned event was delivered again |
| `StoreTheorems.TotalIsSum` | src/stores/lucid_store.ts:496-497 | The reported total is the sum of the counts per event |
| `StoreTheorems.CountIsExactIff` | src/stores/lucid_store.ts:474-497 | Such a prune counts exactly the rows it removes if and only if its first candidate is still live at its delete |
| `StoreWitness.PrunesMiscount` | src/stores/lucid_store.ts:474-497 | A run of two prunes with different policies in which one counts a row and removes none |
| `Retention.SelectCandidates` | src/stores/lucid_store.ts:387-413 | The loop takes rows from the first on while they have its event name, pass the filter and were created before their cutoff, and stops at the first that does not or before the last row, so of two expired rows with one name the first goes |
| `Retention.CandidatesAre` | src/stores/lucid_store.ts:387-413 | The candidates are the longest such run, also where it is empty: the row after them is the last, or may not be pruned |
| `StoreTheorems.ResolveSequenceHash` | src/stores/lucid_store.ts:349-366 | The loop returns the hash at that place in the first of the three tables that has one |
| `StoreTheorems.EveryNumberResolves` | src/stores/lucid_store.ts:349-366 | For every number ever given out the original hash is found, also between archiving and deleting; for every other number nothing is |
| `PagedVerify.Verify` | src/stores/lucid_store.ts:244-347 | For every page size the paged loop ends and gives the reports of one pass over the rows of the range |
| `PagedVerify.ReadsTheRange` | src/stores/lucid_store.ts:250-305 | Whichever row the pass starts after, it reads exactly the rows with numbers in the range |
| `PagedVerify.ReadsFromTo` | src/stores/lucid_store.ts:250-305 | What is read are exactly the rows from the lower to the upper bound, where they are given, in order |
| `PagedVerify.LiveRowsVerify` | src/stores/lucid_store.ts:244-347 | In every reachable state, after any prunes and for any range, a verification whose queries all read that state checks every live row of the range and reports it valid |
| `PagedVerify.VerifyAcceptsIff` | src/stores/lucid_store.ts:313-343 | On any stored rows, verification accepts if and only if the rows of the range continue from its start without a gap |
| `InterleavedVerify.ReadPages` | src/stores/lucid_store.ts:291-346 | The paged loop, each query seeing another state, gives the reports of one pass over the pages it read |
| `InterleavedVerify.InterleavedVerifiesIff` | src/stores/lucid_store.ts:244-347 | Each query at its own moment of any run, among writers and pruners: everything read is reported valid if and only if, whenever a page had rows, nothing beyond the last row read before it had been pruned by then |
| `InterleavedVerify.PruneOvertakes` | src/stores/lucid_store.ts:268-346 | A run in which a prune commits between finding the start and the first page, and an untouched row is not accepted |
| `ReadBack.ReadBackVerifiesIff` | src/stores/lucid_store.ts:66-103 | Rows chained as given and verified as read back are accepted if and only if every creation time was in normal form, or SHA-256 collides on a row for which it was not |
| `ExactlyOnce.ProcessedIsStoredOnce` | src/core/outbox_drainer.ts:176-222 | In every run each event of a processed outbox row is in the store exactly once, as that event |
| `ExactlyOnce.NothingIsStoredTwice` | src/core/outbox_drainer.ts:197-218 | In every run, whatever the status of the outbox rows, no event is in the store twice |
| `ExactlyOnce.RowsAreNeverLost` | src/core/outbox_drainer.ts:287-365 | A committed outbox row is in every later state with its payload, and processed is final |
| `ExactlyOnce.RunEvolves` | src/core/outbox_drainer.ts:316-365 | In every run a row becomes processed only from processing, when its events are in the store, and then stays as it is |
| `OutboxProgress.Submitted` | src/services/audit.ts:103-119 | A submitted row can be claimed from then on |
| `OutboxProgress.Claimed` | src/core/outbox_drainer.ts:287-314 | A claimed row can be claimed again only once its claim is stale; the drain goes on with its events, or fails it for good where it cannot be read |
| `OutboxProgress.Acknowledged` | src/core/outbox_drainer.ts:316-331 | An acknowledged row that is still processing is processed and can never be claimed again; one that is not stays as it is |
| `OutboxProgress.FailureRecorded` | src/core/outbox_drainer.ts:333-365 | A failed delivery ends the row if and only if it was the last attempt or the payload cannot be read; otherwise the row can be claimed again exactly from the retry delay on |
| `OutboxProgress.UnreadableIsFailed` | src/core/outbox_drainer.ts:203-209 | A row that cannot be read is failed after one claim, however often it might be tried |
| `OutboxProgress.Requeued` | src/core/outbox_drainer.ts:224-257 | A failed row that is requeued can be claimed from then on with its attempts counted anew; any other stays as it is |
| `OutboxProgress.EveryRowCanBeDelivered` | src/core/outbox_drainer.ts:176-222 | From every reachable state, whoever stopped where and whatever became of the row before, a row whose events can be read and are in no conflict can be brought to processed, with each of its events stored exactly once |
| `OutboxProgress.DeliverableIff` | src/core/outbox_drainer.ts:176-222 | In every reachable state a row with readable, canonicalisable events can still come to be processed if and only if none of them is in conflict with a live row or with another of them |
| `Claims.OverlapIff` | src/core/outbox_drainer.ts:287-314 | Of a drain that claims and another that holds the same row, both hold it afterwards if and only if the row is still processing and was claimed longer ago than a claim lasts, on the clock the claimer read |
| `Claims.ExclusionIff` | src/core/outbox_drainer.ts:287-314 | Over every run, no two drains ever hold one row if and only if no drain ever claims a row that an overdue drain still holds |
| `Claims.NoTwoHolders` | src/core/outbox_drainer.ts:287-314 | If every holder acknowledges or fails within the time a claim lasts, no two drains ever work on one row, however old their selections |
| `OutboxWitness.StaleClaimOverlaps` | src/core/outbox_drainer.ts:180-201 | An overdue holder and a second claim: a run in which two drains come to hold one row |
| `Attempts.AttemptsAreClaims` | src/core/outbox_drainer.ts:197-258 | With one drain at a time, attempts counts the claims since the last requeue, and at most max(1, maxAttempts) failed deliveries are recorded |
| `Attempts.AttemptsCountIff` | src/core/outbox_drainer.ts:199-201 | Over every run with any number of drains, attempts are the claims of every row in every state if and only if every claim is made with the attempts its row has at that moment |
| `FailureBound.FailuresAreBounded` | src/core/outbox_drainer.ts:197-258 | With any number of drains, if no claim takes a row from an overdue holder and every claim is made with the row's own attempts, at most max(1, maxAttempts) failed deliveries are recorded |
| `OutboxWitness.FailuresExceed` | src/core/outbox_drainer.ts:197-258 | A run of three drains with old selections in which three failures are recorded of a row that may be tried twice |
| `OutboxWitness.LostIncrement` | src/core/outbox_drainer.ts:199-201 | With two drains a row is claimed twice while attempts says one: a run shows it |
| `OutboxPayload.NormalizePayload` | src/core/outbox_drainer.ts:42-104 | What is read from a payload is never empty, consists of audit events, and is what the parsed payload holds in one of the accepted shapes |
| `OutboxPayload.NormalizesIff` | src/core/outbox_drainer.ts:42-104 | A payload is read as given events if and only if it parses to a value that holds them in an accepted shape, at least one and all of them audit events |
| `OutboxPayload.ShapesAgree` | src/core/outbox_drainer.ts:89-104 | The shapes a payload may have give the same events |
| `OutboxPayload.SubmissionReadsBack` | src/services/audit.ts:103-119 | What is stored for a submitted event reads back as that event alone |
| `OutboxPayload.SubmittedIsStoredOnce` | src/services/audit.ts:103-119 | Once its outbox row is processed, a submitted event is in the store exactly once, in every run |
| `PayloadEvents.AcceptedIff` | src/core/outbox_drainer.ts:60-87 | A value is accepted as an audit event if and only if it holds, under their names, every field of some event of version 1; that event is the one read from it |
| `PayloadEvents.EventComesBack` | src/services/audit.ts:103-119 | What is stored for a submitted event is read as that one event, with every field as it was |
| `PayloadEvents.EventIsStoredOnce` | src/services/audit.ts:103-119 | Once its row is processed a submitted event is in the store exactly once, as that event, in every run |
| `Notifier.DeliveryNotifier.Notify` | src/core/successful_delivery_notifier.ts:25-50 | A report announces exactly the rows whose ids were not announced before, each once, in order |
| `Notifier.EachOnce` | src/core/successful_delivery_notifier.ts:16-50 | Over the life of a process each event is announced at most once, and every event reported is announced |
| `Pipeline.AuditPipeline.EnqueueOnce` | src/core/pipeline.ts:93-120 | One uninterrupted run of enqueue on the ring is the enqueue step on the queue, with its outcome |
| `Pipeline.AuditPipeline.Flush` | src/core/pipeline.ts:238-254 | Unless one is active or the ring is empty, a flush starts with the oldest events, one batch or all where there are fewer, grouped by store; they stay in the ring |
| `PipelineProgress.FlushTakesTheFront` | src/core/pipeline.ts:238-254 | With no flush active and an event queued, a flush step puts exactly the oldest events in flight, a batch or all where there are fewer, partitioned by store in order |
| `PipelineProgress.EnqueueIs` | src/core/pipeline.ts:93-120 | When a call is accepted, when it waits and when it is turned away, and what it does to the queue and the counters |
| `PipelineProgress.EveryEventCanBeSettled` | src/core/pipeline.ts:208-272 | From every state of a calm run before shutdown ends, whichever stores are up, flushes, writes and completions alone empty the queue, and with `dropNew` and `block` every accepted event is then settled once, in order; a waiting caller is then accepted |
| `Pipeline.AuditPipeline.PeekBuffer` | src/core/pipeline.ts:327-334 | The loop returns the oldest events, at most one batch |
| `Pipeline.AuditPipeline.RemoveBuffered` | src/core/pipeline.ts:336-343 | The loop takes as many events off the front of the ring, below zero where there are fewer |
| `Pipeline.AuditPipeline.DropOldest` | src/core/pipeline.ts:224-232 | The oldest event leaves the queue and is counted as dropped |
| `Pipeline.AuditPipeline.WriteWithRetry` | src/core/pipeline.ts:290-325 | At most five attempts: written and counted at the first success, dead-lettered and counted after five failures |
| `Pipeline.Failures` | src/core/pipeline.ts:296-321 | The number of failed attempts is the number before the first success, at most five |
| `Pipeline.AuditPipeline.RunGroup` | src/core/pipeline.ts:255-260 | A group that is not the last settles and the batch stays queued |
| `Pipeline.AuditPipeline.RunLastGroup` | src/core/pipeline.ts:255-263 | After the last group as many events as the batch has leave the ring |
| `Pipeline.AuditPipeline.CompleteFlush` | src/core/pipeline.ts:265-272 | The completion starts the next flush where a batch is queued, and lets a waiting shutdown end |
| `Pipeline.AuditPipeline.DrainBuffer` | src/core/pipeline.ts:179-184 | What is left, at most one batch, is dead-lettered |
| `Pipeline.AuditPipeline.EndShutdown` | src/core/pipeline.ts:174-184 | Shutdown after its loop waits for the active flush or drains |
| `PipelineCalm.AnyRunKeeps` | src/core/pipeline.ts:93-349 | In every run with any policy the events accepted are those that left the queue followed by those queued, and the batch in flight is the stretch that was at the front |
| `PipelineCalm.AcceptedIsSettledThenQueued` | src/core/pipeline.ts:208-263 | With `dropNew` and `block` accepted is settled followed by queued, the batch in flight is a prefix of the queue, and the counters add up |
| `PipelineCalm.EvictedOrSettled` | src/core/pipeline.ts:208-263 | With `dropOldest`, on runs without overflow during a flush, the same with the dropped events added |
| `PipelineCalm.RemovesItsBatchIff` | src/core/pipeline.ts:208-263 | In every run a flush discards exactly the events it wrote if and only if no `dropOldest` overflow happened since it began and no completion that shutdown waited for began it |
| `PipelineCalm.TakenIsZeroIff` | src/core/pipeline.ts:170-232 | In every run, events were taken from under the flush in flight exactly where the guards of those two branches held since it began |
| `PipelineWitness.OverflowLosesAnEvent` | src/core/pipeline.ts:208-263 | A run in which an overflow during a flush makes the flush discard an accepted event that no store was given |
| `PipelineCalm.RejectionKeepsQueueIff` | src/core/pipeline.ts:97-108 | An enqueue that is turned away leaves the queue as it was unless it is a `dropOldest` overflow after shutdown began |
| `PipelineWitness.RejectionEvicts` | src/core/pipeline.ts:97-108 | A run in which a call turned away after shutdown began evicts the queued event |
| `PipelineCalm.StoresSeeTheirEventsInOrder` | src/core/pipeline.ts:238-288 | Each store is delivered its events, and no others, in the order of acceptance |
| `PipelineCalm.ClosedForGood` | src/core/pipeline.ts:107-108 | Once shutdown began nothing more is accepted in any run that follows |
| `PipelineCalm.ShutdownSettlesIff` | src/core/pipeline.ts:159-185 | A shutdown that waits for a flush settles every accepted event once if and only if less than one batch is left when it ends; otherwise it dead-letters what another flush is writing |
| `PipelineWitness.ShutdownSettlesTwice` | src/core/pipeline.ts:159-185 | A run of that kind: of two accepted events one is dead-lettered and written |
| `PipelineCalm.IdleQueueIsShort` | src/core/pipeline.ts:93-272 | In every run under any policy, whenever no flush is active less than one batch is queued, so one final drain empties the queue |
| `PipelineCalm.IdleShutdownSettles` | src/core/pipeline.ts:174-185 | A shutdown with no flush active settles every accepted event |
| `StreamHeads.ChainBatches` | src/stores/http_store.ts:63-75 | The loop over the groups chains each after its stream's head, or throws |
| `StreamHeads.ChainsIff` | src/stores/http_store.ts:63-75 | Chaining the groups of a batch throws exactly where the events of some stream cannot be hashed |
| `StreamHeads.WriteKeepsHeads` | src/stores/http_store.ts:60-93 | After a write every stream is a chain whose last row is its head |
| `HttpStore.HttpStore.Write` | src/stores/http_store.ts:60-93 | A write fails exactly where the collector does not take the post or an event cannot be hashed, and then changes nothing; otherwise each stream gets its own events in order and the head is the last row |
| `HttpStore.HttpStore.LogsAreNewest` | src/stores/http_store.ts:77-86 | What is retained of each stream are its newest rows, as many as the cap allows |
| `HttpStore.HttpStore.Verify` | src/stores/http_store.ts:99-157 | Over any range every retained row of the range is reported valid |
| `HttpStore.WindowVerifies` | src/stores/http_store.ts:99-157 | Any suffix of a chain verifies over any range, with one report per row of the range |
| `HttpStore.SelectsTheRange` | src/stores/http_store.ts:107-117 | The rows selected are exactly those with numbers in the range, in order |
| `HttpStore.PruneRows` | src/stores/http_store.ts:166-187 | The loop keeps the rows of the specification and counts the others |
| `HttpStore.PruneKeepsIff` | src/stores/http_store.ts:166-187 | A row stays if and only if it is the newest, or has another name than the prune is for, or was not created before its cutoff; the others keep their order |
| `HttpStore.PruneVerifiesIff` | src/stores/http_store.ts:159-208 | After a prune the window verifies if and only if no row went that has an older one staying |
| `HttpStore.PruneLeavesAGap` | src/stores/http_store.ts:159-208 | Pruning one event name takes the second of three rows, and the two that stay do not verify |
| `StreamStore.StreamStore.WriteBatch` | src/stores/stream_store.ts:84-118 | A write fails exactly where the rows cannot be written or an event cannot be hashed, and then changes nothing; otherwise each stream's events are appended as the continuation of its chain |
| `StreamStore.StreamStore.Verify` | src/stores/stream_store.ts:125-145 | A range is reported valid throughout if and only if it has no rows or no lower bound above 1 |
| `StreamStore.RangeVerifiesIff` | src/stores/stream_store.ts:243-278 | The same for any chain: the pass starts from the genesis hash whatever the range |
| `StreamStore.RangeFromTwoFails` | src/stores/stream_store.ts:243-278 | Two events are written and the range from 2 is not accepted |
| `Anchor.LastPerStreamIs` | src/core/anchor.ts:44-55 | A flush has one head per stream, a row of the flush with no row of its stream above it |
| `Anchor.AnchorService.Publish` | src/core/anchor.ts:31-39 | An anchor published is a row that was flushed, with its hash; in rows mode it has a larger number than every earlier anchor of its stream, which the state remembers |
| `Anchor.AnchorService.OnFlush` | src/core/anchor.ts:26-42 | Unless a publication fails, exactly the newest rows of the flush that are due are published, one per stream in order, and no stream gets a flushed row in a later bucket than its last anchor; a publication that fails ends the flush at that head |
| `Anchor.AnchorService.AnchorHead` | src/core/anchor.ts:29-41 | A head is published if and only if it is due, and the call throws exactly where it is due and cannot be published |
| `Anchor.DueIff` | src/core/anchor.ts:57-68 | The state decides as the anchors published do: a head is due where its stream has none, where the last is of another day, or where a multiple of the interval lies above the last and not above the head |
| `Anchor.SameDayIff` | src/core/anchor.ts:57-62 | Two anchors are of one day exactly where the first ten characters of their times agree |
| `Anchor.DueAnchorsAre` | src/core/anchor.ts:26-42 | The anchors of a flush are exactly those of its heads that are due |
| `Anchor.CoveredBound` | src/core/anchor.ts:57-68 | Then the largest number flushed exceeds the last anchored one by less than the interval |
| `AnchorEvidence.VerifyAnchor` | commands/audit_verify.ts:109-161 | The check passes if and only if there is nothing to check or every anchor of the stream has the hash found at its number |
| `AnchorEvidence.AnchoredTrail` | commands/audit_verify.ts:109-161 | For a stream whose newest row was flushed to a service that keeps it covered, older rows perhaps by earlier processes, and a file with the anchors this service published: a trail that passes verification and the anchor check has lost fewer newest rows than the interval and is the true trail up to the last anchor, or a row of each is a collision of SHA-256 |
| `Redactor.TestPath` | src/core/redactor.ts:29-52 | The loop with its early return says whether some pattern matches the path |
| `Redactor.RedactedIffNamed` | src/core/redactor.ts:17-52 | A path is redacted if and only if one of the configured texts names it: `*.key` with the key on it, `key.*` with the key next to last, any other text as the last key |
| `Redactor.RedactValue` | src/core/redactor.ts:61-102 | The recursive pass with its loops is the redaction of the specification |
| `Redactor.RedactMembersAre` | src/core/redactor.ts:75-100 | The members after redaction are exactly what becomes of each member |
| `Redactor.MaskKeepsEveryKey` | src/core/redactor.ts:75-100 | Masking keeps every member under its key and in its place, with the mask for a redacted value |
| `Redactor.RemoveKeepsTheOthers` | src/core/redactor.ts:75-100 | Removing drops the redacted members and keeps the others, in order |
| `Redactor.UnchangedIffClean` | src/core/redactor.ts:61-103 | A value is left as it is if and only if nothing at a redacted path is left in it, at any depth |
| `Redactor.RedactionCleans` | src/core/redactor.ts:61-103 | Redaction leaves nothing at a redacted path |
| `Redactor.RedactCompose` | src/core/redactor.ts:61-103 | Redacting by one list and then another is redacting once by both |
| `Redactor.RedactTwice` | src/core/redactor.ts:61-103 | Redaction is idempotent |

## Left out

- NormalizePayload: member values keep the order of the text, and texts with insignificant white space, fractions or exponents are not parsed.
- Claims and fails through a tenant executor: the executor only chooses the connection.
- The scheduled drain timer and `stats`: a drain may start at any time, and the counts are a read.
- Outbox rows deleted by an operator, and clocks that differ between hosts.
- The retry counter is raised at the end of a group's write, not after each attempt; waiting times and jitter are left out.
- Coupled flush requests and their time-outs: they only start flushes, which may start at any time.
- A dead-letter handler, a route function or an emitter that throws.
- A second call of shutdown.
- HttpStore.Write: writes to the HTTP store that overlap at the post; two of them would chain after one head.
- HTTP pruning over all streams with its report and archive callback: the rows that stay are modelled per stream.
- A batch of the stream store of which only some lines reach the file, the sidecar file, and malformed lines.
- The hash mode of redaction, which digests a value and so is not idempotent.
- Dry runs of a prune, and the error where no maintenance operation is configured: neither changes the tables.
- Anchor.AnchorService.OnFlush: calls that overlap while one waits for its publication; two of them can publish in one bucket, and then the anchors need not ascend.
- The day of an anchor and its time stamp are taken from one reading of the clock; daily anchors carry no bound.
- Cyclic objects, `__proto__` keys, fractions, negative zero and lone surrogates in JSON.
- Drivers, query building, triggers, SHA-256 itself, signatures and subject encryption.
- Assembling events, the retention parser, the store manager, the fan-out store, listeners, middleware and the other commands.
