# Delivery, change detection and registration of the IT Portal agent

This project models the parts of the agent that must not lose or confuse data, and proves what
they guarantee. It has three cores.

**A. Store-and-forward delivery** (`Common`, `Protocol`, `Backlog`, `Invariants`, `Delivery`,
`Latest`, `Fate`, `Duplicates`, `Drain`, `Counterexamples`, `Storage`, `HttpClient`, `Signing`, `Steps`,
`SyncEngine`, `Producing`, `HeartbeatEngine`, `SoftwareEngine`, `InventoryEngine`).

`Protocol` is a labelled transition system: the queue table, the key/value table, the engine mutexes
and one program counter per producer. One step is one SQL statement, one HTTP attempt or one mutex
operation; the label carries what is decided outside (the Portal's reply or a lost request or reply, a
failed read, insert or delete, a cancelled context, the payload collected), and a crash can happen
between any two steps. Row ids are chosen as SQLite chooses them for an `INTEGER PRIMARY KEY` without
AUTOINCREMENT, so ids come back after deletions. `Invariants` proves an inductive invariant;
`Delivery`, `Latest`, `Fate`, `Duplicates` and `Drain` state what follows for every reachable state and every run.

The classes `Database`, `Client`, `SyncEngine.Engine` and the three producers' engines follow the code
statement by statement. Each keeps the protocol state as a ghost field, and each method's contract
gives the run of `Protocol` it performs (`Run(cfg, old(sys), trace) == Some(sys)`). Such a run is
uninterrupted; all interleavings of the three producers, and crashes, are covered by the transition
system itself.

What happens outside is recorded by the methods that stand for the outside and by nothing else:
`Database` counts the statements that fail, the client logs every attempt with its reply (`offers`) and
everything drawn from the clock and the random source (`draws`); cancellation is an input. The contracts
of the code are exact up to these records: a run in which no statement failed ends in the one way that
its inputs, the database and the Portal's replies call for (`Producing.Verdict`), and a pass stops early
only for a recorded reason.

**B. Canonical forms** (`Strings`, `Sorting`, `Dedup`, `Canonical`, `InputOrder`, `Software`, `Hardware`,
`NormalLists`, `Intelligence`, `Difference`, `ChangeHistory`).

The deduplicated software list and the normal form of a hardware snapshot: uniqueness whatever order a
Go map yields its values in, idempotence, what is remembered and what is forgotten, agreement between
fingerprint and diff, and the telescoping of reported changes.

**C. Registration** (`Registration`, `Bootstrap`).

A state machine over single writes, any of which may be the last one before a failure or a crash, and
the service whose methods perform its events.

SHA-256, HMAC and JSON encoding are arbitrary functions. Freedom from collisions, and decoding as the
inverse of encoding, appear as explicit hypotheses of the members that need them. A configuration also
says which payloads a producer makes (`genuine`): inventory payloads carry the fingerprint of their own
snapshot. `Codecs` builds a text encoding of payloads and shows that all hypotheses on configuration and
codecs can be met at once (`HypothesesCanBeMet`).

A service that starts again is modelled too: `SyncEngine.Reopen` and `InventoryEngine.Reopen` build new
engines on the database the old ones leave behind, and what was handed over before is not forgotten.

## What is false, and exactly when it holds

- Delivery without loss and sound suppression need one shared engine. `SafeIffSingleEngine` shows that
  each holds exactly when all producers use one mutex, whatever payloads they have to send: the service
  does (internal/app/app.go:97-103), the `inventory` and `software` commands beside it do not
  (internal/app/app.go:54, 67).
- The repository's README.md:19 says that failed deliveries are persisted. `Fate.HandedOnIff` says when
  a payload sent live ends up acknowledged or queued: exactly when the token could be read and either an
  attempt was acknowledged or the row was inserted; a crash before that hands nothing on.
  `FailedDeliveryIsDropped` gives, for every producer and payload, runs that drop it: no readable token,
  a cancelled context, a failed insert.
- The repository's README.md:17 promises FIFO delivery. Replays are in order, but a live send overtakes
  what is queued when the opening pass failed, when it returned nil on more than 100 rows, or when
  another producer queued a row after it. `OlderSnapshotCanWin` is a run that leaves the Portal with the
  older snapshot. `LatestSnapshotWinsIff` is exact for runs that lost no store since the last hand-over:
  the snapshot acknowledged last is the one whose fingerprint is stored if and only if the last
  hand-over was an insert, or came with nothing of its kind queued, or with the same fingerprint queued
  last.
- The comment at internal/software/normalize.go:51-52 promises the preferred record and a deterministic
  result. `WinnerIsBestIff` says when the record kept is best: exactly when the class has a record that
  is best on both criteria. `ListIgnoresOrderIff` says when the list does not depend on the order in
  which items were collected: exactly when every class has a best record and no second best one that
  differs. `WinnerCanBeWorse` is a class without a best record, `TiedRecordsDependOnOrder` the family of
  classes with two.
- `DiffHardware` does not compare the disk summary and the top-level serial number.
  `EmptyDiffIffSameForm` is the exact statement, and `DiskChangeUnreported` the family it misses:
  whatever replaces the disk section and the serial number, the diff is empty.
- Stable sorting forgets the order of a device list exactly when different entries have different keys
  (`NormalIgnoresOrderIff`).
- docs/architecture.md:7 says that registration is retried indefinitely. A stored UUID counts as a
  finished registration (internal/bootstrap/bootstrap.go:88-91), so an agent whose first registration
  stopped between storing the UUID and storing the token never registers again and never sends.
  `FirstRegistrationCutShort` shows that it happens, `StuckIffCutShort` that there is no other way to
  get there, `RegistrationIsFinal` that there is no way out.

## Model

| member | source | states |
|---|---|---|
| Delivery.QueueIsSuffixOfHistory | internal/sync/engine.go:84-106 | In every reachable state of the single-engine system the routable rows queued are a suffix of all routable rows ever queued, every row gone was acknowledged, and rows without a route are never touched. |
| Delivery.InsertsAreQueuedOrDeleted | internal/storage/sqlite.go:91-139 | Conservation: rows ever inserted = rows deleted + rows in the table, in every reachable state. |
| Delivery.NothingQueuedIsLost | internal/sync/engine.go:154-162 | A payload once reported as queued is still queued, or the Portal received and acknowledged it, through crashes, lost replies, failed deletes and reused ids. |
| Delivery.ReplaysArriveInOrder | internal/sync/engine.go:82-106 | The Portal receives replays in enqueue order; a row received again is received before any later row, so repeats form one block. |
| Delivery.NoReplayOvertakes | internal/sync/engine.go:82-83 | No replay the Portal has seen is newer than a routable row still waiting. |
| Delivery.SnapshotStaysLive | internal/sync/engine.go:87-105 | While a producer is inside `Flush`, every row it still has to handle is the live row with that id and payload, and nobody else is in a critical section. |
| Delivery.DeleteHitsAcknowledgedRow | internal/storage/sqlite.go:126-131 | A `DELETE ... WHERE id` of `Flush` removes exactly one row, which was acknowledged, although ids are reused. |
| Delivery.StoredFingerprintIsSafe | internal/inventory/engine.go:150-155 | A stored fingerprint belongs to a payload the producer made that was acknowledged or is still queued, whatever crashed or failed to be stored. |
| Delivery.SkippedRunHidesNothing | internal/inventory/engine.go:87-93 | A run skipped on the stored fingerprint hides nothing: a payload with that fingerprint, and so with that content if the fingerprint separates the contents the producer makes, is acknowledged or queued. |
| InventoryEngine.SkippedSnapshotIsSafe | internal/inventory/engine.go:87-93 | After a skipped inventory run, in every reachable state, a payload whose snapshot has the same normal form is acknowledged or queued, if hash and encoding do not collide. |
| InventoryEngine.StoredSnapshotIsSafe | internal/inventory/engine.go:150-155 | Whenever the stored fingerprint is that of a snapshot, a payload whose snapshot has its normal form is acknowledged or queued. |
| SoftwareEngine.SkippedListIsSafe | internal/software/engine.go:75-79 | After a skipped software run a payload of the same agent with the same list is acknowledged or queued, if hash and encoding do not collide. |
| SoftwareEngine.StoredListIsSafe | internal/software/engine.go:81-95 | Whenever the stored fingerprint is that of a list, a payload with that list is acknowledged or queued. |
| Delivery.OnlyRoutableRows | internal/sync/engine.go:179-190 | The three producers never put a row without a route into the queue. |
| Invariants.ReachableInv | internal/app/app.go:97-103 | The inductive invariant (locks, row order, ledger of deletions, order of receipts, passes, suppression) holds in every reachable state. |
| Counterexamples.SafeIffSingleEngine | internal/app/app.go:97-103 | No queued payload is ever lost if and only if all producers share one engine; suppression is sound under the same condition and no weaker one. Of the producers it supposes only that each has some payload to send. |
| Counterexamples.TwoEnginesLoseARow | internal/app/app.go:54-57 | For any two producers on different engines, a run that deletes a row nobody acknowledged and then suppresses the lost snapshot. |
| Counterexamples.OlderSnapshotCanWin | internal/inventory/engine.go:59-61 | A run after a failed opening pass that ends with an empty queue, the older snapshot acknowledged last and the newer fingerprint stored. |
| Latest.LatestSnapshotWinsIff | internal/inventory/engine.go:110-131 | If no store was lost since the last hand-over, then whenever no row of the kind is queued the last acknowledged snapshot is the one whose fingerprint is stored, if and only if the last hand-over was an insert, or a live acknowledgement with nothing of its kind queued or with the same fingerprint queued last. |
| Latest.LastHandOverDecides | internal/inventory/engine.go:110-131 | In every run the last hand-over alone decides whether the stored fingerprint is that of the newest payload handed over, if no store was lost since; earlier ones may have been. |
| Latest.LatestSnapshotWins | internal/inventory/engine.go:59-131 | In particular it is when every live acknowledgement comes with no row of its kind queued. |
| Latest.DrainedMeansNoOwnRows | internal/sync/engine.go:87-105 | After an opening pass that returned nil on at most 100 rows, no row of the producer's kind is queued until it sends. |
| Latest.DrainedRunIsCareful | internal/inventory/engine.go:59-110 | So runs whose live sends follow such a pass meet the hypothesis of LatestSnapshotWins. |
| Fate.HandedOnIff | internal/sync/engine.go:108-162 | A payload sent live is acknowledged or queued if and only if the token could be read and an attempt was acknowledged or the row inserted; otherwise it is in neither place and the producer is idle again. Other producers may move in between, and a crash may end the send. |
| Counterexamples.FailedDeliveryIsDropped | internal/sync/engine.go:154-162 | For every producer and payload, runs that end with the payload neither queued nor acknowledged: no readable token, cancelled context, failed insert. |
| Duplicates.AcksAreAccountedFor | internal/sync/engine.go:92-104 | In every run a row is acknowledged exactly once for each failed DELETE of it, once for each crash between acknowledgement and DELETE, and once more if it is deleted or about to be. |
| Duplicates.DuplicatesAreBounded | internal/sync/engine.go:98-103 | So acknowledgements beyond the first are at most the failed DELETEs and such crashes. |
| Drain.FlushIsCleanPass | internal/sync/engine.go:84-106 | A `Flush` that returns nil leaves exactly what the pass of the next rows leaves, and a failing one leaves no less. |
| Drain.PassRemoves | internal/storage/sqlite.go:98-102 | With k rows without a route and n routable ones, a pass without failures removes at least min(n, 100 - k) and at most min(n, 100) rows. |
| Drain.EmptyAfterCeiling | internal/sync/engine.go:87-105 | Without rows lacking a route, passes without failures empty a queue of n rows if and only if there are at least ceil(n/100) of them. |
| Drain.DrainsAroundForeignRows | internal/sync/engine.go:91-95 | With k < 100 rows lacking a route, all n routable rows are gone once (100 - k) times the number of passes reaches n. |
| Drain.BlockedIff | internal/sync/engine.go:91-95 | A pass without failures makes no progress if and only if its window holds no routable row. |
| Drain.BlockedForever | internal/storage/sqlite.go:102 | 100 leading rows without a route block every later row, for any number of passes. |
| Storage.Database.Enqueue | internal/storage/sqlite.go:91-96 | Appends one row under an id one above the largest live id, starting at 1; changes nothing when it fails, which is counted. |
| Storage.Database.Pending | internal/storage/sqlite.go:98-124 | The first rows in id order up to the limit, 100 when the limit is not positive. |
| Storage.Database.DeleteQueueItem | internal/storage/sqlite.go:126-131 | Removes the row carrying the id now, or changes nothing. |
| Storage.Database.QueueSize | internal/storage/sqlite.go:133-139 | The number of rows. |
| Storage.ScanInsert | internal/storage/sqlite.go:78 | A row inserted under a new greatest key comes last when the table is read in id order. |
| Storage.ScanDelete | internal/storage/sqlite.go:126-131 | Deleting a key removes exactly the row with that id from the table read in id order. |
| SyncEngine.Engine.Post | internal/sync/engine.go:116-150 | Every attempt posts exactly these bytes to this endpoint, with the bearer token and a signature under it, and the error is the judgement of the last reply. |
| SyncEngine.Engine.ReadToken | internal/sync/engine.go:109-115 | The stored token unless it is missing or empty or the read failed, and which of the two. |
| SyncEngine.Engine.SendJSON | internal/sync/engine.go:71-80 | Posts these bytes to the endpoint the queue type is replayed to, under the stored token; the error follows from the token, the replies, the context and the insert, ErrQueued exactly when one row with this type and these bytes was appended; performs the protocol run these facts determine. |
| SyncEngine.Engine.SendRow | internal/sync/engine.go:108-152 | One replay: every attempt posts exactly the payload of the row to the endpoint given, under the stored token; nil exactly when the row was acknowledged; queues nothing. |
| SyncEngine.Engine.QueueOnFailure | internal/sync/engine.go:154-162 | The cause itself exactly when the context is cancelled, else a queue failure when the insert fails and ErrQueued when it succeeds; the queue grows by the row only then. |
| SyncEngine.Engine.Flush | internal/sync/engine.go:84-106 | Each attempt posts the payload of a routable row of the window to the route of its type, row by row in order, and every row removed was acknowledged by one; the count returned is the drop in queue size on every exit path; nil exactly when no statement failed, the token was there if needed and the last attempt was acknowledged, and then all routable rows of the window are gone. |
| SyncEngine.SendEnds | internal/httpclient/client.go:63-79 | All attempts of one send, as one run of the protocol, with the state it leads to. |
| HttpClient.Client.Do | internal/httpclient/client.go:50-80 | At most Retries + 1 attempts; each offers the original method, path and bytes whatever pieces bodies are read in, signed at the time and with the nonce drawn for it; the first outcome that is no transport error decides, and exhaustion means all were. |
| Signing.ByteReader.Read | internal/security/signing.go:51-58 | Copies the next bytes that fit and advances past them; end of file exactly when nothing remains. |
| Signing.ReadAll | internal/security/signing.go:21 | Reading in pieces of any positive sizes yields exactly the remaining bytes. |
| Signing.SignRequest | internal/security/signing.go:17-43 | Restores the body to the same bytes, even on failure, and sets headers whose signature covers them; other headers keep their values. |
| Signing.HexDigits | internal/security/signing.go:34-36 | Two lower-case hexadecimal digits for each byte, the high half first. |
| Signing.DecimalDenotes | internal/security/signing.go:33 | The decimal digits of a timestamp denote it. |
| Signing.CanonicalInjective | internal/security/signing.go:33-36 | The signed string determines timestamp, nonce, method, path and body hash, if method and path of one of the two contain no newline. |
| Signing.SignatureDeterminesRequest | internal/security/signing.go:35-41 | Without collisions of hash and HMAC, a signature belongs to one body, method, path, timestamp and nonce. |
| Producing.Send | internal/sync/engine.go:71-80 | The live send as part of a producer's run: what it posts where, its exact effect on queue and acknowledgements, and an error that only a missing token, the replies, the context or a failed statement can cause. |
| HeartbeatEngine.Engine.Send | internal/heartbeat/heartbeat.go:95-123 | One heartbeat: replays from the front, then posts the payload for the stored agent and this host to its endpoint; without failed statements the result is the one that inputs, database and replies call for, and the notes say so; no other key changes. |
| SoftwareEngine.Engine.RunOnce | internal/software/engine.go:50-99 | One run: without failed statements skipped if and only if the fingerprint of the deduplicated list is the stored one, and otherwise sent, queued or failed as token, replies and context call for; posts this list for the stored agent; the stored fingerprint changes only to that of a payload handed over; after a skipped run a payload with this list is acknowledged or queued. |
| InventoryEngine.Engine.RunOnce | internal/inventory/engine.go:54-134 | One run: without failed statements skipped if and only if the fingerprint is the stored one, and otherwise sent, queued or failed as token, replies and context call for; posts the named snapshot for the stored agent on this host, with its fingerprint and the changes since the last stored snapshot; what was handed over is stored; a skipped run leaves a payload with this normal form acknowledged or queued. |
| InventoryEngine.Create | internal/app/app.go:97-101 | On a new database the producer starts with nothing handed over and nothing stored. |
| InventoryEngine.Reopen | internal/app/app.go:97-101 | A service that starts again between two runs remembers everything handed over before. |
| SyncEngine.Create | internal/app/app.go:97-100 | An engine on a new database is in an initial state of the protocol. |
| SyncEngine.Reopen | internal/app/app.go:97-100 | An engine opened on the database an earlier one left behind continues its protocol state after a crash. |
| Codecs.HypothesesCanBeMet | internal/inventory/engine.go:107-108 | One configuration with a shared engine and two codecs meets everything the theorems and the producers ask: payloads of every producer, made with their own fingerprint only, which is computed from what the bytes carry, and no collisions. |
| InventoryEngine.Engine.PersistTimeline | internal/inventory/engine.go:165-181 | Appends an entry; as long as no read or write of the timeline failed, it is the last 50 of all its entries; one that meets no failed statement keeps it so. |
| InventoryEngine.SnapshotRemembered | internal/inventory/engine.go:150-155 | Whichever of the two Puts succeed, the stored hardware is that of the last hand-over whose hardware was stored, and the stored fingerprint that of the last one whose fingerprint was. |
| InventoryEngine.SameFingerprintIff | internal/inventory/intelligence.go:18-26 | Without collisions, two snapshots share a fingerprint if and only if they share a normal form, and then their diff is empty. |
| ChangeHistory.ChangesTelescope | internal/inventory/engine.go:94-133 | A section that differs between a snapshot that was stored and a later one is listed, as itself or as the whole machine, by some payload after the first and up to the second, however many runs were skipped or failed, whatever could not be read or stored since, and however often the service started again in between. |
| ChangeHistory.InitialIff | internal/inventory/intelligence.go:92-94 | A payload reports the whole machine as new if and only if no snapshot had been stored before it or the stored one could not be read. |
| ChangeHistory.NoChangeListed | internal/inventory/intelligence.go:97-113 | A payload that lists nothing was compared with a stored snapshot, and if its normal form differs from that one's it carries a new disk summary or serial number. |
| Sorting.SortedUnique | internal/software/normalize.go:65-71 | Two sorted arrangements of the same elements are equal when the order separates different elements, so the sorting algorithm does not matter. |
| Sorting.SortInvariant | internal/inventory/intelligence.go:70-76 | Then sorting gives one result for every arrangement. |
| Sorting.IgnoresOrderIff | internal/inventory/intelligence.go:70-76 | Stable sorting forgets the arrangement if and only if different elements are separated by the order. |
| Sorting.InsertionSort | internal/inventory/intelligence.go:70 | The in-place algorithm computes the specified stable sort. |
| Dedup.KeptIsWinner | internal/software/normalize.go:44-60 | The map built record by record holds, for each fingerprint, the winner among the records with it. |
| Dedup.NoLaterRecordBeatsWinner | internal/software/normalize.go:50-57 | The record kept is never beaten by a later record of its class. |
| Dedup.WinnerIsBestIff | internal/software/normalize.go:50-57 | The record kept is best on rank and on location length if and only if the class has such a record. |
| Dedup.OrderIrrelevantIff | internal/software/normalize.go:51-52 | Source rank and location length of the record kept are the same for every input order if and only if the class has a record best on both criteria. |
| Dedup.DeterminedIff | internal/software/normalize.go:51-52 | The record kept itself is the same for every input order if and only if the class has a best record and no second best one that differs. |
| InputOrder.OrderFreeIff | internal/software/normalize.go:43-73 | The list made of any items, for every normalisation and comparison, is the same for every input order if and only if every class of the records that enter has one best record. |
| Software.ListIgnoresOrderIff | internal/software/normalize.go:43-73 | So for the installations collected. |
| Software.TiedRecordsDependOnOrder | internal/software/normalize.go:53-55 | Two different records of one product with equal source rank and location length: the list depends on which was collected first. |
| Dedup.AgreeingHasBest | internal/software/normalize.go:50-57 | A class in which rank and location length never disagree has such a record. |
| Dedup.FirstMostDetailedWins | internal/software/collector_windows.go:21-36 | On records of non-increasing rank, the collector's order, the first record of maximal location length is kept. |
| Canonical.CanonicalIsUnique | internal/software/normalize.go:61-72 | The list is the same for every order in which the map yields its values. |
| Canonical.SortListed | internal/software/normalize.go:65-72 | Sorts the listed values in place into that list. |
| Software.NormalizeInstallationIdempotent | internal/software/normalize.go:14-34 | Normalising a record twice is normalising it once. |
| Software.NormalizationKeepsWords | internal/software/normalize.go:14-34 | It keeps the words of every text field, lends a missing name from the other one, and leaves the dates alone. |
| Strings.CleanIdempotent | internal/software/normalize.go:10 | Cleaning white space twice is cleaning it once. |
| Strings.SameCleanIff | internal/software/normalize.go:10 | Two strings are cleaned to the same one if and only if they have the same words. |
| Strings.FieldsSplit | internal/software/normalize.go:10 | White space of any kind separates words. |
| Strings.LessIff | internal/software/normalize.go:65-71 | One string precedes another if and only if it has the smaller character at the first difference or is a proper prefix. |
| Software.NormalizeAndDeduplicate | internal/software/normalize.go:43-73 | Returns the sorted list of the winners of the normalised, named records. |
| Software.EnterItem | internal/software/normalize.go:46-59 | One record enters the map: skipped without a name, replacing only a record it beats on either criterion. |
| Software.ResultIsUnique | internal/software/normalize.go:61-72 | Two results for the same input are equal, whatever order the map was enumerated in. |
| Software.DeduplicateTwice | internal/software/engine.go:69 | Deduplicating a deduplicated list, as the pipeline does, changes nothing. |
| Software.ResultIsSorted | internal/software/normalize.go:65-71 | The list is sorted by name whatever the letter case, and by fingerprint where names agree. |
| Software.EveryProductOnce | internal/software/normalize.go:43-73 | Every named input's fingerprint occurs exactly once in the output, on the winner of its class; every output record is a normalised input record with a name. |
| Software.DifferentProductsKept | internal/software/normalize.go:36-59 | Two records that differ in normalised name, publisher, version or architecture are both kept. |
| Software.ArchitecturesAreKept | internal/software/normalize.go:38 | For instance one version of one program for two architectures. |
| Software.LaterIsKeptIff | internal/software/normalize.go:53-55 | Of two records of one product the later one is kept if and only if its source is preferred (64-bit machine, 32-bit machine, user, others) or its location is longer. |
| Software.SameFingerprintIff | internal/software/normalize.go:36-41 | If one record has no separator in its fields and the hash no collision, fingerprints agree if and only if normalised name, publisher, version and architecture all do, whatever the letter case. |
| Software.SeparatorMergesProducts | internal/software/normalize.go:38 | A separator inside a name or publisher gives two different products one fingerprint, whatever the hash. |
| Software.WinnerCanBeWorse | internal/software/normalize.go:53-54 | Three records whose winner is worse on both criteria than one seen before. |
| Strings.SplitJoin | internal/software/normalize.go:38 | Splitting undoes joining if and only if no field contains the separator. |
| Strings.AmbiguousIff | internal/software/normalize.go:38 | A list of two or more fields shares its joined string with another list of the same length if and only if some field contains the separator. |
| NormalLists.DistinctKeysForgetOrder | internal/inventory/intelligence.go:70-76 | With distinct keys, rearranging a device list never changes its normal form, whatever the sorting algorithm. |
| NormalLists.NormalIgnoresOrderIff | internal/inventory/intelligence.go:70-76 | For stable sorting, rearranging a device list never changes its normal form if and only if different erased entries have different keys. |
| NormalLists.StableSorts | internal/inventory/intelligence.go:70-76 | The insertion sort modelled is such an algorithm: it permutes, sorts by key and leaves a sorted list as it is. |
| Intelligence.NormalizedHardware | internal/inventory/intelligence.go:28-78 | Computes the normal form by copying, erasing and sorting in place; the caller's slices are not changed and none is handed back. |
| Intelligence.FormIsSorted | internal/inventory/intelligence.go:70-89 | In the normal form modules are ordered by locator and part number, devices by id, serial number and model, adapters by MAC address and name, all in lower case, monitors and graphics adapters by name. |
| Intelligence.FormIsIdempotent | internal/inventory/intelligence.go:28-78 | Normalising a normal form changes nothing, for every algorithm that sorts by key and leaves a sorted list as it is. |
| Intelligence.NormalizedIsIdempotent | internal/inventory/intelligence.go:28-78 | In particular for the stable sort of short slices. |
| Intelligence.VolatileFieldsIgnored | internal/inventory/intelligence.go:15-17 | Free space, memory use, addresses, status, users, boot time and the input's network list never show in the normal form, whatever the sorting algorithm. |
| Intelligence.SameFormIffSameMachine | internal/inventory/intelligence.go:28-78 | Snapshots with one normal form agree on every identity and capacity, up to the order of device lists; with distinct sort keys the converse holds. Whatever the sorting algorithm. |
| Difference.DiffHardware | internal/inventory/intelligence.go:91-135 | Computes the specified list of changes: the initial one without a previous snapshot, else one per differing section in order. |
| Difference.DiffListsIffDiffers | internal/inventory/intelligence.go:97-118 | A section is listed if and only if the normal forms differ in it. |
| Difference.DiffSpelledOut | internal/inventory/intelligence.go:97-133 | The same for each of the eleven sections by name, with the words reported. |
| Difference.DiffIsOrdered | internal/inventory/intelligence.go:97-133 | Sections are reported in their fixed order and at most once. |
| Difference.EmptyDiffIffSameForm | internal/inventory/intelligence.go:91-135 | The diff is empty and disk summary and serial number agree if and only if the normal forms are equal. |
| Difference.DiskChangeUnreported | internal/inventory/intelligence.go:97-113 | Whatever replaces the disk section and the serial number, the diff is empty, while the normal form stays the same only if serial number, disk identity and capacity, and the normal form of its devices do. |
| Registration.RegistrationPrefix | internal/bootstrap/bootstrap.go:204-218 | What is stored when a registration stops after any number of writes: nothing, the UUID alone, or UUID and token. |
| Registration.RegistrationStored | internal/bootstrap/bootstrap.go:204-218 | What a complete registration stores under each key; absent fields and all other keys keep their values. |
| Registration.ConfigurationStored | internal/bootstrap/bootstrap.go:220-242 | The same for a configuration. |
| Registration.RunKeepsBootInv | internal/bootstrap/bootstrap.go:71-144 | In every run a stored token implies a stored UUID, the UUID is not empty, and it was written once. |
| Registration.RegistrationIsFinal | internal/bootstrap/bootstrap.go:88-91 | Once the UUID is stored no run posts a registration or changes it, and an agent without a token stays without one. |
| Registration.StuckIffCutShort | internal/bootstrap/bootstrap.go:204-210 | A new agent ends up with a UUID and no token if and only if some registration stopped between the two writes. |
| Registration.FirstRegistrationCutShort | internal/bootstrap/bootstrap.go:204-210 | It happens: for every usable reply, a new agent whose first registration stops after one write ends up so. |
| Bootstrap.Service.SaveRegistration | internal/bootstrap/bootstrap.go:204-218 | The keys written form a prefix of the fixed plan; it stops only at a failed statement, and success means the whole plan. |
| Bootstrap.Service.SaveConfiguration | internal/bootstrap/bootstrap.go:220-242 | The same for the configuration part, skipping absent fields. |
| Bootstrap.Service.Register | internal/bootstrap/bootstrap.go:93-122 | Performs one registration event; succeeds if and only if there are an enrolment key, a request and a usable reply and no statement failed, and uses up the key exactly then. |
| Bootstrap.Service.EnsureRegistered | internal/bootstrap/bootstrap.go:71-86 | Performs one event, with the exact condition of success; after success the UUID is stored, and the token is if and only if the UUID had not been stored before it or the token already was; a first registration stores what the reply holds. |
| Bootstrap.Service.ReloadConfig | internal/bootstrap/bootstrap.go:124-144 | Succeeds if and only if a token is stored, the reply has a configuration and no statement failed; then every field that is present is stored under its key and nothing else changes. |
| Bootstrap.Service.BootstrapWithRetry | internal/app/app.go:135-157 | Gives up only when cancelled; a first attempt that lacks nothing succeeds at once; a new agent that has bootstrapped holds a token if and only if no attempt was cut short. |
| Bootstrap.WaitsAre | internal/app/app.go:135-157 | The waits are 1, 2, 4 and so on up to 256 seconds, and then 300. |

## Left out

- Windows collectors, PowerShell metrics, DPAPI, service control, logging, YAML, paths: collected items, hardware, figures and texts are arbitrary inputs, and a secret that cannot be decrypted is a failed read.
- HTTP, TLS, proxy, redirects, gzip: an attempt has one of the outcomes of `Common.Outcome`; a request arrives during its attempt or not at all; compression is the identity.
- JSON: encoders and decoders are functions; failures of `json.Marshal`, and a timeline that decodes only in part, are not modelled.
- SQL text and locking: each statement is atomic and may fail without effect; a row id at the 64-bit maximum is not modelled; `created_at` and `updated_at` are not kept.
- The `inventory_history` table: rows are only inserted and no modelled code reads them.
- Queue types and configuration keys are datatype constructors instead of strings; the remaining types and keys are `OtherType` and `OtherKey`, and what producers note about a run (times, durations, errors) are notes that no modelled branch reads.
- Timers, intervals, sleeping and wall-clock values: times are inputs, and so is cancellation: before a run, by the time a failed payload would be queued, and after how many waits of `BootstrapWithRetry`.
- The registration service's own requests: the reply is an input; what the client does with a request is `HttpClient.Client.Do`.
- The Portal's base URL: paths are endpoints. Secrets are kept in plain text in the modelled table; `GetSecret` may fail to decrypt, and `PutSecret` is `Put`.
- White space and letter case beyond ASCII; a byte is one character.
- `sort.Slice` in `NormalizedHardware` and in what is built on it is the stable insertion sort that Go runs on up to 12 elements. What the normal form remembers, forgets and repeats is proved for every algorithm that sorts by key and leaves a sorted slice as it is, which the pattern-defeating quicksort Go runs on longer slices does too.
- Machine integers in hardware records are unbounded, since they are only copied, compared and set to zero; floating-point sizes are bit patterns, so comparison does not identify the two zeros and NaN equals itself.
- `CalculateHealth`, `CalculateHealthV2`, the score helpers, `HardwareCount`, `BuildAssetLinkHints`, `truncate`, status printing: straight-line arithmetic and counting.
- `send` is two methods, `SendRow` and `SendLive` with `Deliver`, one for each value of its flag; `Flush` is split into `ReplayPending`, `ReplayItems`, `Handle`, `Round` and `Remove`, and the producers' `RunOnce` likewise, so that each proof stays short.
- InventoryEngine.Engine.RunOnce: takes the collected snapshot as a value and builds its slices anew where they are normalised and compared.
- ChangeHistory.ChangesTelescope: supposes that the Put of the earlier snapshot succeeded; changes since a snapshot that was never stored are listed from the last one that was.
- InventoryEngine.SnapshotRemembered: a crash between the Puts is a Put that does not happen; a crash elsewhere inside a run is a step of `Protocol` and not of the engine classes.
- Latest.LatestSnapshotWinsIff: supposes that no store was lost since the last hand-over; a crash or a failed Put between it and its fingerprint leaves an older one, which `Delivery.StoredFingerprintIsSafe` covers.
- Interleavings of the service with commands running beside it: only the runs of `Counterexamples` that show what they can break.
