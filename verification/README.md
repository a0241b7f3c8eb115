# Verified model of the application framework's stateful core

This project models, in Dafny, the parts of the framework that keep state or decide something subtle, and proves what
they promise.  Each component has its own modules, one module per file:

- **Canonical text** (`CanonicalText`, `CanonicalTextProofs`): the canonical JSON text behind query keys, budget
  fingerprints and audit digests.  An object is a sequence of fields in enumeration order; its meaning is a map.
- **Document store** (`DocumentStore`, `DocumentHistory`, `DocumentRuns`, `Restorations`, `DocumentReads`,
  `TransactionEffects`, `DocumentWriter`): versioned documents with optimistic concurrency, an append-only change
  journal, revision history with retention, purge and restore.
  `DocumentStore` gives the transaction as functions on values, `DocumentWriter` is the writer that updates tables in
  place, proved against those functions, `TransactionEffects` says what a transaction leaves alone, `DocumentReads`
  that what was written is read back, `Restorations` which revision comes back, and `DocumentRuns` holds the results
  about whole runs.
- **Query cache and live queries** (`ChangeMatcher`, `ChangeJournal`, `QueryHandlers`, `QueryReads`, `KeyText`,
  `QueryCache`, `CacheCoherence`, `Cluster`, `Invalidation`, `Listeners`, `ServedReads`, `Subscribers`, `StaleReads`,
  `QueryRuntime`): several processes share the database; each has a local version, an LRU cache with dependency sets,
  and subscriptions.  `Cluster` is the step system: committing, beginning and finishing a synchronization, notifying, querying and subscribing interleave freely, and reading the target revision and reading
  the journal are two steps.  Handlers are read programs, and the dependencies of a run are kept in a map under the
  source's own key texts, so that it is proved which reads they stand for.  They stand for all reads but one kind: a
  read of the ID "*" takes the entry of its whole table.  A call that does this after its last read of the table loses
  a read; the results about currency ask of a call that it lost none on the revisions of the run, and nothing of other
  calls.  Subscription objects have identities, because what `subscribe` returns acts on its own object and on its key
  (`Subscribers`).  `StaleReads` shows what goes wrong otherwise.
- **Contracts and schemas** (`Json`, `JsonSchema`, `ContractCompatibility`, `IgnoredEnums`, `Loosening`,
  `ContractComparison`, `ManifestComparison`, `SchemaCombinators`, `SchemaProofs`, `SchemaOutputs`, `SchemaParser`): JSON Schema validation after JSON Schema Validation, draft
  2020-12, sections 6.1 to 6.5 and Core sections 10.3.1.2, 10.3.2.1 and 10.3.2.3, the syntactic subset check, and the combinators that build a
  parser and a schema side by side.
- **Availability** (`Availability`, `AvailabilitySweep`, `AvailabilityCalendar`): slot calculation against a
  declarative specification, and the stored windows that never overlap.
- **Audit export** (`AuditExport`, `AuditIntegrity`, `AuditOutbox`, `AuditCapture`, `AuditRuns`,
  `AuditAuthenticity`, `AuditExporter`): the signed hash chain, its verifier, and capture, delivery and
  acknowledgement by several exporters over one outbox.  Hashing and signatures are functions with the assumptions
  `WellFormedCrypto` (formats) and `Trusts` (a key verifies what it signs); collisions are never assumed away but
  appear in the conclusions.  `Unforged` says of the entries of one export that none carries a signature nobody made;
  what a capture signs and does not store, because it did not fit, never leaves it.
- **Agent budgets** (`AgentBudgets`, `AgentBudgetProofs`, `AgentBudgetOutcomes`, `AgentBudgetRuns`,
  `AgentBudgetService`): grants, metered
  actions, receipts, retries and pruning.  An action is an arbitrary deterministic program that sees every failure and
  may swallow it.
- **Funnel** (`Funnel`, `FunnelMeaning`): the streaming scan over ordered rows and what its counts mean.
- **Rate limiter** (`RateLimiter`, `RateLimiterRuns`): the sliding window per key, its cleanup, and whole runs.
- **Work queue** (`WorkQueue`): the bounded first-in first-out queue in front of password hashing.
- **Aggregates** (`Aggregates`, `AggregateRows`, `AggregateProofs`, `AggregateExecutor`): grouped sums over authorized joins, with and
  without memos.
- **Shared by several of them** (`Wrappers`, `Sets`): absent values and errors, and sizes of sets.

Code that updates state in the source is a class or a method with loops here, proved against functions on values; the
lemmas are about those functions and about runs of them.  `dafny verify dfyconfig.toml` checks everything.

Where the code does less than one would expect, there is an input that shows it and a condition that is proved to be
exact:

- a query can be served stale after reading the ID "*" (`StaleReads.LostReadGoesStale`): `QueryReads.NoticedExact`;
- what `subscribe` returned, called again later, can remove somebody else's subscription
  (`StaleReads.StrayHandleGoesStale`): `Subscribers.StaysRegistered` and `Subscribers.StraysAreLate`;
- a notification can be missed for good (`StaleReads.MissedIsReached`): `Cluster.MissedExactly`;
- the compatibility check ignores an enum beside a const (`ContractCompatibility.IgnoredEnumExample`):
  `ContractCompatibility.IgnoredEnumExact` for the outermost pair, `IgnoredEnums.IgnoredEnumsExact` for every depth;
- parsers refuse record keys their schemas allow (`SchemaProofs.ReservedKeyExample`): `SchemaProofs.AcceptedExactly`;
- a repeated first event restarts a funnel (`FunnelMeaning.RestartLosesProgress`): `FunnelMeaning.ConvertedExact` and
  `FunnelMeaning.ReachedExact`.

## Model

| member | source | states |
|---|---|---|
| `CanonicalTextProofs.StableStringifyExact` | src/backend.ts:3827-3840 | Two JSON values have one canonical text exactly when they are equal up to the order of object keys, at every depth. |
| `CanonicalTextProofs.ValueUnique` | src/backend.ts:3827-3840 | Unique readability: a canonical text followed by anything determines both the value and what follows, through nesting and escapes. |
| `CanonicalTextProofs.FunctionKeyExact` | src/backend.ts:3823-3825 | Two calls share a function key exactly when path and arguments agree up to key order; null arguments count as none. |
| `CanonicalTextProofs.CacheKeyExact` | src/backend.ts:2539-2542 | The partitioned cache key also separates callers: two different calls never share a cache entry. |
| `CanonicalText.OrdersAreTotal` | src/backend.ts:3834 | UTF-16 key order and the enumeration order of rebuilt objects are total orders, so sorting has one result. |
| `ChangeMatcher.BuildMatcher` | src/backend.ts:3793-3821 | The indexed matcher, in its single-record and nested-map forms, matches a dependency exactly when the change is marked complete-invalidation or one single record agrees on table, owner if given and ID if given. |
| `TransactionEffects.UsersAreIsolated` | src/backend.ts:1197-1410 | A user's transaction, whatever its calls and however they end, changes nothing that another user reads of an owned table, and purges none of the other's recorded revisions. |
| `TransactionEffects.NobodyWritesOwned` | src/backend.ts:1197-1410 | Calls without a user change no document and no revision of an owned table. |
| `TransactionEffects.UnaddressedStays` | src/backend.ts:1147-1410 | A document no call of a transaction addresses keeps content, version and history, and is not announced. |
| `TransactionEffects.VersionsStep` | src/backend.ts:1197-1410 | A document a call leaves behind has version 1 if inserted, the next version if changed, and a version above all recorded ones if restored; changes and restorations keep owner and creation time, never repeat the content, and record what they store. |
| `TransactionEffects.AnnouncedInPlace` | src/backend.ts:1147-1168 | A document that was announced before is announced in its old place, any other one last. |
| `TransactionEffects.EachAnnouncedOnce` | src/backend.ts:1147-1168 | A transaction announces each document at most once, however often it changes it. |
| `DocumentReads.CollectExact` | src/backend.ts:947-975 | A read of a whole table returns exactly the documents that reading one by one finds, each as it is stored, and none of another table; a user sees of an owned table what is theirs. |
| `DocumentReads.InsertIsReadBack` | src/backend.ts:1197-1226 | An insert under a fresh ID, not addressed again in its transaction, is read back by its caller in both ways as it was inserted. |
| `DocumentReads.UpdateIsReadBack` | src/backend.ts:1228-1302 | A patch or replacement of a document the caller sees, guarded by its version or not at all, is read back as the changed content under the next version, everything else as before. |
| `DocumentReads.DeleteIsReadBack` | src/backend.ts:1303-1334 | A deleted document is read by nobody. |
| `DocumentReads.RefusalsExact` | src/backend.ts:1228-1334 | When patches, replacements and deletions are denied, conflict, find nothing, change nothing or run out of versions: each exactly under its condition. |
| `DocumentReads.RefusedLeavesNoTrace` | src/backend.ts:1197-1410 | A transaction with a refused call commits exactly what it commits without it. |
| `DocumentWriter.Database.RecordChange` | src/backend.ts:1147-1168 | One change record per document and transaction, replaced in place. |
| `DocumentWriter.Database.RunTransaction` | src/backend.ts:1416-1525 | A transaction commits everything it did, with one new revision, journal rows, history rows and both prunings, or leaves the state unchanged. |
| `DocumentHistory.NextOk` | src/backend.ts:1416-1525 | Every committed transaction, whatever its calls, keeps the document invariant (versions, owners, history against the full log). |
| `DocumentHistory.CommitRows` | src/backend.ts:1456-1507 | Retention keeps a suffix of the rows of each document and at most the per-document limit of a changed one. |
| `DocumentHistory.RetentionExact` | src/backend.ts:1479-1507 | Retention drops nothing that its limits allow: a row stays exactly if its revision is among the newest `history` ones and, in a changed document, it is among the newest `perDocument` rows. |
| `DocumentHistory.RestorePutOk` | src/backend.ts:1352-1410 | A restored document gets a version above every version ever committed of it. |
| `DocumentRuns.VersionsIdentify` | src/backend.ts:1197-1410 | Over every run with fresh insert IDs, two committed states that hold a document at one version hold the same document, and so does every state in between. |
| `DocumentRuns.GuardedWrite` | src/backend.ts:1228-1410 | A patch, deletion or restoration guarded by the version its caller saw only succeeds on exactly the document that caller saw; one guarded by absence only on a document that is not there. |
| `DocumentRuns.RetainedHistory` | src/backend.ts:1479-1507 | At every commit the newest retained revision is the live document or its deletion, retained revisions are a suffix of the full history, and never exceed the per-document limit. |
| `Restorations.CursorsAreDistinct` | src/backend.ts:1456-1478 | In every reachable state, and in every transaction on it, a cursor names at most one recorded revision of a document. |
| `Restorations.MissingExact` | src/backend.ts:1349-1372 | A restoration is refused as missing exactly if its guard holds and its caller may write, and no revision that the caller sees has the cursor. |
| `Restorations.RestoresTheRow` | src/backend.ts:1349-1410 | An admitted restoration stores the content of exactly the revision with the cursor, with its creation time or that of the live document, above all recorded versions, or finds that content in place. |
| `Restorations.RestoreBringsBack` | src/backend.ts:1349-1410 | From every reachable state, restoring any retained revision the caller sees leaves a document with exactly its content and owner. |
| `Restorations.DeleteThenRestore` | src/backend.ts:1303-1410 | After deleting a document, restoring any revision still retained brings back its content and creation time under a higher version; restoring the newest brings back the document as it was. |
| `Restorations.PurgeExact` | src/backend.ts:1335-1348 | In every reachable state a purge goes through exactly if the document is deleted, its caller may see it, and the cursor is that of its deletion. |
| `Restorations.PurgeForgets` | src/backend.ts:1335-1348 | After a purge nothing of the document can be restored, by anyone and under whatever cursor. |
| `ChangeJournal.ReadChanges` | src/backend.ts:886-918 | The scan of the selected journal rows reports their records and flags full invalidation exactly when a revision is missing. |
| `ChangeJournal.SynchronizationComplete` | src/backend.ts:882-918 | Whatever was committed and pruned between reading the target and reading the rows, a scan is complete exactly when nothing it needs was pruned, and then its records are exactly those of all revisions in between. |
| `ChangeJournal.CommitJournal` | src/backend.ts:1441-1480 | A commit appends one revision to the journal and drops the oldest ones: the journal always is a suffix of the log. |
| `ChangeJournal.JournalKeepsNewest` | src/backend.ts:1441-1480 | A commit keeps exactly the journal rows of the newest `changes` revisions, its own among them. |
| `Cluster.RecentIsReported` | src/backend.ts:878-925 | In every reachable state a process that is no more than `changes` revisions behind is told exactly what changed and need not invalidate everything. |
| `QueryReads.ReadKeyExact` | src/backend.ts:1100-1127 | Two reads of one run share an entry of the dependency map exactly when they agree on table and ID, a whole table counting as the ID "*". |
| `QueryReads.RecordedExact` | src/backend.ts:1100-1127 | The map holds the dependencies of the last read under each key and no others. |
| `QueryReads.RunUnaffected` | src/backend.ts:1100-1127 | A read program that lost no read gives the same value and dependencies after a change that touches nothing it recorded. |
| `QueryReads.NoticedExact` | src/backend.ts:1100-1127 | The recorded dependencies suffice for all programs that make given reads, and all changes, exactly when no read of the ID "*" follows the last read of its whole table. |
| `QueryReads.StarReadExample` | src/backend.ts:1105-1118 | Collecting a table and then reading the ID "*" of it leaves only the dependency on that ID. |
| `DocumentReads.RunIsTruthful` | src/backend.ts:1100-1134 | Every run of a read program got the answers of the tables to the questions it asked: it returns exactly when the program returns on them, and throws exactly at a read it may not make or one too many. |
| `QueryRuntime.Runtime.SetCache` | src/backend.ts:2563-2569 | Adds the newest entry, evicts the oldest ones beyond the capacity (also zero), and teaches the subscription its dependencies. |
| `CacheCoherence.InvokeServes` | src/backend.ts:2571-2606 | A served query returns what its handler computes on the tables of the process, from the cache or not, if the call lost no read; the cache stays coherent and within its capacity and no other entry is disturbed; without a value nothing changes. |
| `Listeners.RecentStays` | src/backend.ts:2563-2606 | A result stays cached while fewer calls than the capacity are served after it was last used, whatever they are and whether or not they succeed. |
| `QueryRuntime.Runtime.OnChange` | src/backend.ts:2660-2707 | Marks affected entries dirty and queues them and the affected subscriptions whose entry was evicted. |
| `Listeners.NotifyReachesAll` | src/backend.ts:2647-2658 | A notification gives one value to all listeners of its key or to none of them, and no other listener hears of it. |
| `Listeners.SubscribeHolds` | src/backend.ts:2728-2753 | A new listener holds the value the query was served with, beside the others of its key; without a value it is not registered, not even if it was before. |
| `Listeners.UnsubscribeRemoves` | src/backend.ts:2749-2752 | What subscribe returned removes its listener alone, and the subscription with the last one, while the object it was made for is under its key; afterwards it takes away whatever subscription is under the key, if its own object is left empty. |
| `Listeners.UnsubscribeUndoes` | src/backend.ts:2728-2753 | Unsubscribing right after subscribing undoes it: subscriptions, their order and all listeners are as before. |
| `Listeners.NoneOutlivesItsListeners` | src/backend.ts:2728-2753 | In no run does a process keep a subscription without listeners. |
| `QueryRuntime.Runtime.SynchronizeChanges` | src/backend.ts:878-925 | Catches up from the rows read: a moved-back revision or an unordered journal is an error, otherwise the version becomes the target and the change is published. |
| `CacheCoherence.PublishKeeps` | src/backend.ts:2660-2707 | A change that reports all differences leaves every cache entry and every subscription whose own call lost no read coherent with the new tables. |
| `Invalidation.PublishExact` | src/backend.ts:2660-2707 | A change takes exactly those results from the cache that depend on a table, ID and owner one of its records names, spares all others, and notifies exactly their keys and those of touched subscriptions without a result. |
| `Invalidation.AccountChangeReaches` | src/backend.ts:2600-2604 | In every reachable state, a change with a record of an account takes every result served to this user from the cache and notifies every subscription of the user that was ever served. |
| `Cluster.SynchronizationReports` | src/backend.ts:878-925 | A synchronization reports exactly the records of the revisions it catches up with, or asks for full invalidation; it is never silently incomplete. |
| `Cluster.ServedQueriesAreCurrent` | src/backend.ts:2571-2606 | In every interleaving of processes that commit, prune, poll and query, a served query returns what its handler computes on the tables at the revision just synchronized; if it comes from the cache, provided that this call lost no read on the revisions of the run. |
| `ServedReads.ServedIsTruthful` | src/backend.ts:2571-2606 | A served query returns what its handler returns once it got answers that are all true of the documents stored at the revision just synchronized, under the same proviso. |
| `Cluster.QueriesSeeWhatWasCommitted` | src/backend.ts:2571-2606 | A query asked after a synchronization has finished, whatever others and the process itself did in between, is answered as on the tables of a revision at least as new as the newest one when the synchronization began, under the same proviso. |
| `Cluster.SynchronizationCatchesUp` | src/backend.ts:878-925 | A synchronization begun at a revision ends at that revision, whatever other processes do in between. |
| `Subscribers.StaysRegistered` | src/backend.ts:2728-2753 | A registered listener that does not end itself (by calling its own handle, or by subscribing again without getting a value) stays registered exactly when no stray handle of its key is called: one made for another object than the one now under the key, whose own object is left empty. |
| `Subscribers.StraysAreLate` | src/backend.ts:2749-2752 | As long as none has strayed, the stray handles are exactly those of earlier, emptied objects of a key that has a subscription again. |
| `Subscribers.SubscriptionsAreCurrent` | src/backend.ts:2647-2753 | A subscriber that was served and does not end itself is registered exactly as long as no stray handle of its key was called; while it is, an idle process whose notifications it did not miss last gave it the value of its call on the tables of the process, provided that this call lost no read. |
| `Cluster.MissedExactly` | src/backend.ts:1527-1563 | A notification is missed exactly when its entry is not cached and another process has committed since the publication, or the handler throws: the exact condition under which the eight retries cannot help. |
| `Cluster.MissedStaysMissed` | src/backend.ts:2647-2658 | A missed notification is not repaired by later changes the subscription does not depend on (why the unconditional statement is false). |
| `Subscribers.SingleProcessSubscriptions` | src/backend.ts:2647-2753 | In a single process, for every cache capacity including zero, a subscriber that was served, does not end itself and is hit by no stray handle was last given the value of its call on the current tables, provided that this call lost no read and its handler finishes. |
| `StaleReads.LostReadGoesStale` | src/backend.ts:1100-1127 | A run from the start with one process, no eviction and no missed notification, after which a clean cache entry and a listener hold an outdated value: the handler collected a table and then read the ID "*". |
| `StaleReads.MissedIsReached` | src/backend.ts:2647-2658 | A run from the start with two processes in which a commit of the second costs the first its notification; after a further synchronization the first is idle and current, and its listener still holds the old value. |
| `StaleReads.StrayHandleGoesStale` | src/backend.ts:2749-2752 | A run from the start with one process, in which the first subscriber calls its handle twice and thereby unsubscribes the second one, which keeps an outdated value although it never called its own. |
| `ContractCompatibility.SubsumesSound` | src/contract-compatibility.ts:54-87 | If the subset check raises no finding, the target schema accepts every value the source schema accepts, for all nested schemas and values, unknown keywords being opaque predicates. |
| `ContractCompatibility.IgnoredEnumExact` | src/contract-compatibility.ts:64-66 | The check reads only const when const and enum stand together: it is sound for such a target exactly when the const is in the enum or the rest rejects it anyway. |
| `ContractCompatibility.IgnoredEnumExample` | src/contract-compatibility.ts:64-66 | A pair of schemas that passes although the target rejects a value the source accepts. |
| `ContractCompatibility.WithoutEnumSubsumes` | src/contract-compatibility.ts:64-66 | Dropping an enum beside a const never raises a finding. |
| `Loosening.LooseningPasses` | src/contract-compatibility.ts:54-87 | Every edit that only loosens a schema raises no finding: bounds moved outwards or dropped, types and values added, required names, uniqueness or closedness dropped, annotations changed, at any depth through properties, items and additional properties, as far as the depth limit leaves room. |
| `Loosening.FlatExact` | src/contract-compatibility.ts:54-87 | On satisfiable schemas of one type with two bounds the check raises no finding exactly if the target accepts everything the source accepts, except that it reports a length bound of 0 of which the source says nothing. |
| `Loosening.OpenedExample` | src/contract-compatibility.ts:83 | A closed object opened to additional properties of some type accepts more, and is reported all the same. |
| `IgnoredEnums.CheckSound` | src/contract-compatibility.ts:54-87 | Without any condition on the target: if the check raises no finding, the target read without the enums beside a const, at every depth, accepts every value the source accepts. |
| `IgnoredEnums.IgnoredEnumsExact` | src/contract-compatibility.ts:54-87 | For a target that the check reaches everywhere, the check is sound exactly when dropping those enums, at every depth, lets no further value through; for any target it is sound if each such const is in its enum or excluded by the rest of its schema, which asks one value per pair. |
| `ContractComparison.Comparison.Subset` | src/contract-compatibility.ts:56-86 | The finding-collecting recursion adds nothing exactly when the specification of the check holds; it throws only when the list of findings is full and one more is due. |
| `ContractComparison.CompareContracts` | src/contract-compatibility.ts:7-30 | Fails for manifests that are unreadable or of different kinds; all others get a report, ok exactly when they are compatible and naming exactly the lost and the new actions, unless they are incompatible and the list of findings is full. |
| `ContractComparison.CompatibleCatalogsAreSafe` | src/contract-compatibility.ts:16-27 | With an ok report every old action still exists, accepts every old argument, and returns only results the old output schema allows. |
| `Loosening.LooseningIsOk` | src/contract-compatibility.ts:7-30 | A contract that only loosens inputs, tightens outputs and adds actions gets an ok report that tells of nothing but the added actions. |
| `ManifestComparison.CompatibleManifests` | src/contract-compatibility.ts:7-52 | Two manifests are compatible exactly if the new one lists, under the name of every old entry, one of the same kind that is as open, with the same scope and path, taking at least the old arguments and returning at most the old results. |
| `ManifestComparison.ReadableExactly` | src/contract-compatibility.ts:32-52 | A manifest is read exactly if it is a whole listing of at most 1000 well-formed entries under different names within two million characters. |
| `ContractComparison.SelfCompatible` | src/contract-compatibility.ts:7-30 | A readable manifest is compatible with itself exactly when its tools state their scopes. |
| `SchemaParser.Parse` | src/ai.ts:83-361 | Each parser succeeds exactly on what its combinator accepts, with the output that belongs to the input (`SchemaOutputs.ParsesTo`), and otherwise reports issues that all lie at or below its path. |
| `SchemaOutputs.ParseMeans` | src/ai.ts:206-361 | Every successful parse, at any nesting: an absent value becomes its default or stays absent, arrays and records are parsed element by element, a strict object has exactly its declared fields that are present, a loose one also its other fields unchanged, and a union answers with its first member that accepts. |
| `SchemaOutputs.OutputUnique` | src/ai.ts:206-361 | The input determines the output that belongs to it. |
| `SchemaProofs.OptionalExact` | src/ai.ts:206-361 | The optional mark is published exactly when the parser accepts an absent value. |
| `SchemaProofs.AcceptedIsValid` | src/ai.ts:83-361 | A value the parser accepts validates against the published JSON Schema, and the records read in it have no reserved key. |
| `SchemaProofs.AcceptedExactly` | src/ai.ts:83-361 | The parser accepts exactly the values that validate against the published schema and whose records, where the combinator reads records, have no reserved key. |
| `SchemaProofs.ReservedKeyExample` | src/ai.ts:396 | A record key that the published schema allows and the parser refuses. |
| `SchemaProofs.ParsedIsInput` | src/ai.ts:83-361 | Without defaults a successful parse returns its input unchanged. |
| `SchemaProofs.CompatibleParsers` | src/contract-compatibility.ts:54-87 | When the check finds nothing between two published schemas, the newer parser accepts a value the older one accepts exactly when none of the records it reads in it has a reserved key; always, if it reads no records. |
| `AvailabilitySweep.AvailableSlots` | src/availability.ts:14-23 | Returns exactly the first limit slots, in order, of the aligned, covered, unblocked slots in range, and truncated exactly when more exist; rejects exactly the malformed requests. |
| `Availability.AnswerUnique` | src/availability.ts:14-23 | The answer is determined by the set of slots, the duration and the limit. |
| `Availability.FreeByInstants` | src/availability.ts:19-20 | A slot is free exactly when no instant of it, widened by the buffer on both sides, is blocked. |
| `Availability.SlotsInMinutes` | src/availability.ts:14-23 | A slot lies in the request and in one uninterrupted covered stretch, a whole number of steps after its beginning, and no instant of it or of the buffer around it is blocked; steps are as long as slots and there is no buffer, unless the request says otherwise. |
| `Availability.AcceptedExactly` | src/availability.ts:11-17 | Which requests are not rejected, number by number, and the default limit of 1000 slots. |
| `Availability.AnswerDependsOnCover` | src/availability.ts:17-20 | The answer depends only on which instants the windows cover and which instants are blocked: not on the order of either list, nor on how time is cut into touching or overlapping pieces. |
| `Availability.ReorderedCover` | src/availability.ts:17-20 | A permuted list of windows or blocked intervals covers the same instants. |
| `Availability.SplitCover` | src/availability.ts:17-20 | A window or blocked interval cut in two touching ones covers the same instants. |
| `AvailabilityCalendar.SaveKeeps` | src/availability.ts:29-30 | Saved windows of an owner stay valid, at most 200, and pairwise disjoint. |
| `AvailabilityCalendar.SaveAgain` | src/availability.ts:30 | Repeating the creation of a window that is still there changes nothing and returns that window. |
| `AvailabilityCalendar.EditSteps` | src/availability.ts:29-30 | An edit raises the version by one exactly when it changes the window, and leaves every other window alone. |
| `AvailabilityCalendar.CreatedExactly` | src/availability.ts:29-30 | A window is created exactly if it is valid, titled, at most seven days long and shares no instant with a stored one, and there is room; creating one that is already there succeeds and stores nothing. |
| `AvailabilityCalendar.EditedExactly` | src/availability.ts:29-30 | A window is edited exactly if the caller saw its version and it stays so and shares no instant with another stored one. |
| `AvailabilityCalendar.RemoveExact` | src/availability.ts:31 | A window is removed exactly under the version it has, and no other with it. |
| `AvailabilityCalendar.Calendar.Save` | src/availability.ts:29-30 | The scan for duplicates and conflicts implements the save specification. |
| `AvailabilityCalendar.Calendar.Remove` | src/availability.ts:31 | Removal under the expected version keeps the calendar invariant. |
| `AuditExport.VerifyAuditExport` | src/audit-export.ts:137-152 | Accepts exactly the chains that continue the checkpoint, and returns the checkpoint after the last entry. |
| `AuditAuthenticity.AcceptedIsSigned` | src/audit-export.ts:137-152 | Unless a signature was forged, every entry of an accepted export was signed under the key it names for the text it carries. |
| `AuditAuthenticity.ForgeryIsRefused` | src/audit-export.ts:141-149 | One entry with an unknown key, a signature that does not verify, another text than its digest, a text above 256 KiB, or another place than the next one spoils the whole export. |
| `AuditAuthenticity.AcceptedExportIsTheLog` | src/audit-export.ts:62-152 | In every run of several exporters, an export accepted from any checkpoint of the chain tells the audit log from there on, entry by entry and with the contents that captures signed and stored, unless someone forged a signature or found a hash collision. |
| `AuditIntegrity.MaterialDeterminesContent` | src/audit-export.ts:34-40 | Two entries have one signed text exactly when all signed fields agree, events up to key order. |
| `AuditIntegrity.CheckpointFixesContents` | src/audit-export.ts:137-152 | Two accepted exports between the same checkpoints have the same contents entry by entry, or exhibit a hash collision. |
| `AuditIntegrity.CheckpointIffContents` | src/audit-export.ts:137-152 | Without a collision among their texts, accepted exports reach the same checkpoint exactly when their contents agree. |
| `AuditRuns.SignedIsAccepted` | src/audit-export.ts:77-86 | The verifier accepts what the exporter signs. |
| `AuditRuns.CaptureKeeps` | src/audit-export.ts:67-94 | A capture extends the chain and the outbox by the same verified entries, within both capacity bounds. |
| `AuditCapture.CaptureExact` | src/audit-export.ts:67-94 | A capture stores one signed entry for each row in order as long as rows may be exported and fit: it stops early only at a row that does not fit, and fails only at one that is too large or out of order. |
| `AuditCapture.CaptureAdvances` | src/audit-export.ts:67-94 | If the next audit row is there, may be exported and fits, a capture that does not fail captures it. |
| `AuditRuns.EveryBatchVerifies` | src/audit-export.ts:62-120 | In every run of several exporters, each delivered batch is the gap-free audit log right after the acknowledged checkpoint, the verifier accepts it from there, and there is one whenever something captured is unacknowledged, however full the outbox is. |
| `AuditRuns.NothingIsLost` | src/audit-export.ts:62-120 | Everything up to the checkpoint was delivered, nothing signed is dropped undelivered, and the outbox keeps its entry and byte bounds. |
| `AuditRuns.CheckpointNeverMovesBack` | src/audit-export.ts:109-115 | The acknowledged checkpoint never moves back and stays a checkpoint of the growing chain. |
| `AuditExporter.AcknowledgementFreesCapacity` | src/audit-export.ts:109-115 | Without holds, acknowledging a pending batch shrinks the outbox, so capture can go on. |
| `AuditExporter.Exporter.CaptureTransaction` | src/audit-export.ts:67-94 | The capture loop stores rows until the capacity stops it, or undoes everything. |
| `AuditExporter.Exporter.AcknowledgeBatch` | src/audit-export.ts:109-115 | Moves the checkpoint only forward and deletes the batch entries no hold protects. |
| `AuditExporter.Exporter.Flush` | src/audit-export.ts:62-120 | One flush offers what is pending whatever the capture did, and acknowledges only what the destination took. |
| `AuditExporter.Exporter.Status` | src/audit-export.ts:128-131 | Pending and retained counts split the outbox at the checkpoint. |
| `AgentBudgetProofs.RunIsMetered` | src/agent-budgets.ts:218-251 | Whatever an action catches, its meter is exact: the exceeded flag is up exactly when the budget is exceeded, and from then on no write reaches the data. |
| `AgentBudgetProofs.SpendFits` | src/agent-budgets.ts:218-251 | An accepted run fits into the remaining budget in all four dimensions. |
| `AgentBudgetOutcomes.RunTells` | src/agent-budgets.ts:218-251 | Every run is told by its steps: its data are what its writes left one after the other, its output is what the action finished with on their replies, and the meter counts exactly the writes tried and the records changed. |
| `AgentBudgetOutcomes.AcceptedOperation` | src/agent-budgets.ts:200-257 | An operation that goes through the first time commits exactly what the steps of its action left, and its receipt states their output, revision, time and cost; its caller holds the open grant. |
| `AgentBudgetOutcomes.AcceptedExactly` | src/agent-budgets.ts:200-257 | An admitted new operation goes through exactly if there is room for its receipt and its action ends with a bounded output within what the grant has not used up. |
| `AgentBudgetOutcomes.ExceededExactly` | src/agent-budgets.ts:218-251 | An operation is refused for its budget exactly if no call or not its external operations are left, or its action lets the budget error through or hides it. |
| `AgentBudgetOutcomes.AdmittedExactly` | src/agent-budgets.ts:200-211 | Only the principal of the owner is admitted, on a grant that is neither revoked nor expired, for an action it names in its current revision, and then exactly with input the action takes and allows. |
| `AgentBudgetOutcomes.ClosedExactly` | src/agent-budgets.ts:202-205 | An operation is refused as closed exactly if its caller holds the grant and it is revoked or expired. |
| `AgentBudgetProofs.ExecuteShape` | src/agent-budgets.ts:200-257 | An execution leaves ledger and data alone, or makes one charge that fits. |
| `AgentBudgetProofs.ExecuteKeeps` | src/agent-budgets.ts:200-257 | Execution keeps the ledger invariant. |
| `AgentBudgetProofs.PruneKeeps` | src/agent-budgets.ts:157-164 | Pruning removes grants together with their receipts and keeps the books balanced. |
| `AgentBudgetRuns.BooksBalance` | src/agent-budgets.ts:150-258 | In every reachable state the used amounts of a grant are the sum of its receipts, within its limits in every dimension, add up with the remaining ones to the limits, and its calls are its receipts; both capacities hold. |
| `AgentBudgetRuns.RetryIsIdempotent` | src/agent-budgets.ts:212-216 | After an accepted operation, through any later calls, redeployments and writes, its operation ID never charges or writes again and yields an error or the very first receipt, exactly by the fingerprint. |
| `AgentBudgetRuns.FingerprintIdentifies` | src/agent-budgets.ts:211 | Fingerprints agree exactly for equal requests, unless their texts collide under the hash. |
| `AgentBudgetService.Budgets.Execute` | src/agent-budgets.ts:200-258 | The transaction step by step is the specified one: replay, refusal without effect, or charge. |
| `AgentBudgetService.Budgets.Grant` | src/agent-budgets.ts:166-185 | Cleans up, checks the capacity and inserts the grant, or changes nothing. |
| `AgentBudgetOutcomes.GrantedExactly` | src/agent-budgets.ts:166-185 | A grant is made exactly if its input is in order, the caller is known and permitted, it ends within 30 days and there is room after the cleanup; it says what was asked for, and no other grant is touched but the cleaned ones. |
| `AgentBudgetOutcomes.GrantEntitles` | src/agent-budgets.ts:166-205 | A new grant entitles its principal to each action it names until it expires, and to no other action and nobody else. |
| `AgentBudgetService.Budgets.Preview` | src/agent-budgets.ts:186-192 | Shows a grant to its principal or a manager with its status and remaining amounts, and changes nothing. |
| `AgentBudgetRuns.RevocationIsFinal` | src/agent-budgets.ts:193-258 | Revocation keeps the first revocation time and touches no other grant; whatever calls follow, the grant keeps that time and its used amounts until cleanup removes it, and every operation on it fails without effect. |
| `AgentBudgetOutcomes.RevokedExactly` | src/agent-budgets.ts:193-199 | A revocation goes through exactly for a known and permitted caller of the grant's owner, and touches no other grant and no receipt. |
| `AgentBudgetOutcomes.PrunesTheEnded` | src/agent-budgets.ts:157-164 | Pruning takes only grants of the owner that ended at least the retention time ago and admit nothing any more, and leaves none of these unless it takes as many as it may. |
| `AgentBudgetService.Budgets.PruneOwner` | src/agent-budgets.ts:157-164 | Deletes at most 500 ended grants of the owner, each with its receipts. |
| `Funnel.CountReached` | src/analytics.ts:682-715 | The one-pass scan counts, for each step, the subjects whose own scan ended beyond it. |
| `Funnel.QueryFunnel` | src/analytics.ts:678-732 | Fails exactly above the scan bound; otherwise each step shows its count and its share of the first step exactly when the cohort is large enough. |
| `Funnel.ReachedNonIncreasing` | src/analytics.ts:682-715 | The subjects of a later step are among those of an earlier one. |
| `FunnelMeaning.ReachedHasEvents` | src/analytics.ts:697-713 | Every subject counted for a step has events for all steps up to it, in row order, within the window of the first. |
| `FunnelMeaning.ReachedExact` | src/analytics.ts:697-713 | A subject counts for a step exactly when it has converted, or its attempt since the last first-step event took every step up to there or further at its first chance and within the window, and the step it waits for did not occur since. |
| `FunnelMeaning.ConvertedExact` | src/analytics.ts:697-713 | A subject counts for the last step exactly when it has such events with no first-step event in between. |
| `FunnelMeaning.RestartLosesProgress` | src/analytics.ts:699-703 | Events for all steps within the window do not suffice: a second first-step event restarts the scan. |
| `RateLimiter.Limiter.Consume` | src/auth.ts:2057-2070 | A call is refused with the seconds to wait, changing nothing, or its time is added and the map cleaned. |
| `RateLimiter.Limiter.Clean` | src/auth.ts:2063-2068 | Cleaning removes only expired keys, only from a large map, and stops at 8000. |
| `RateLimiterRuns.WindowHolds` | src/auth.ts:2056-2075 | In every run with fixed settings and a clock that does not go back, any attempts+1 consecutively admitted calls of a key since its last clear span at least the window. |
| `RateLimiterRuns.CleanedTracks` | src/auth.ts:2063-2068 | Cleaning never forgets an unexpired call. |
| `RateLimiterRuns.WaitingSuffices` | src/auth.ts:2060 | After a refusal, waiting the returned seconds makes the next call admissible if none was admitted meanwhile; without a clear, a second less would not, and admission is possible exactly from the expiry of the oldest call on. |
| `WorkQueue.StartedInOrder` | src/auth.ts:2018-2045 | In every run of the work queue at most concurrency tasks run at a time, tasks start in the order of their admission, none waits while a place is free, and a task is turned away exactly when places and queue are full. |
| `WorkQueue.Pool.Leave` | src/auth.ts:2036-2039 | Ends a task and starts the first waiting one in its place. |
| `AggregateExecutor.ExecuteAggregate` | src/backend.ts:1016-1098 | The memoizing executor returns exactly the answer of joining, authorizing, grouping and summing row by row, and fails exactly when a capacity is exceeded, a row fails, a total cannot be formed or the output is too large. |
| `AggregateRows.RowExact` | src/backend.ts:1043-1080 | A row contributes only if it and all its related records may be seen, and then a line whose group and values are the fields of exactly those records; a hidden row has a record that is missing or denied. |
| `AggregateRows.BrokenExact` | src/backend.ts:1043-1080 | A row makes the aggregate fail exactly if the policy gives no proper verdict on it, the first join that ends it is faulty, or its group is no scalar; a missing or denied record only hides it. |
| `AggregateRows.DeniedContributesNothing` | src/backend.ts:1043-1080 | A row with a record that may not be seen, its own or a related one, adds no line. |
| `AggregateRows.VisitsExact` | src/backend.ts:1047-1070 | A row looks up exactly what its joins name, up to the first join that ends it. |
| `AggregateRows.VisitCounts` | src/backend.ts:1053-1066 | A lookup counts towards the capacities the first time only, with the stored size of what it found. |
| `AggregateRows.TotalNeedsNumbers` | src/backend.ts:1081-1091 | A total exists only where every line leaves the measure out or has a finite number for it. |
| `AggregateExecutor.Executor.Lookup` | src/backend.ts:1053-1066 | A related record is looked up at most once, and the memo holds what the table holds. |
| `AggregateExecutor.Executor.Decide` | src/backend.ts:1067-1069 | The policy's verdict is remembered, and the policy asked only if there is none yet: it is asked as often as there are decisions. |
| `AggregateProofs.RelatedKeyUnique` | src/backend.ts:1053 | Different lookups never share a memo entry. |
| `AggregateProofs.PolicyKeyUnique` | src/backend.ts:1067 | Different policy decisions never share a memo entry. |
| `AggregateProofs.GroupKeyUnique` | src/backend.ts:1074 | Different group values never share a group. |
| `AggregateProofs.AnswerUnique` | src/backend.ts:1093-1095 | The sorted answer for the rows is unique. |
| `AggregateProofs.PrefixFeasible` | src/backend.ts:1043-1092 | An aggregate that fails on the first rows fails on all of them. |
| `Aggregates.IntegerTotalsAreExact` | src/backend.ts:1081-1091 | On integer data a total exists exactly when every partial sum is safe, and then it is the mathematical sum. |

## Left out

Document store and live queries:

- Retention holds, point-in-time capture and recovery, source bootstrap, file identity and SQL text: tables are maps
  and a transaction is one atomic step.
- `history()` reads in cached queries: they can go stale, because the global history limit removes rows of documents
  that have no change record; the cache results are about `get`, `query` and `collect`.
- Version numbers inside one transaction: patching, deleting and restoring in one transaction can reuse a version; the
  results about versions compare committed states.
- Document versions above 2^53 - 1 and the growth of timestamps.
- Handlers run for at most a fixed number of reads (`bound`); a handler that reads more counts as throwing.
- Refreshing the session inside a query: the partition is fixed, and the user is one more document.
- Listeners that write back while a change is published, replay of changes to reconnecting clients, and diagnostics.
- Cluster.ServedQueriesAreCurrent: a query served from the cache must have lost no read on the revisions of the run; `QueryReads.NoticedExact`
  says what that means for one run of a handler, and `StaleReads.LostReadGoesStale` is a run without it.
- Cluster.QueriesSeeWhatWasCommitted: under the same condition.
- ServedReads.ServedIsTruthful: under the same condition.
- Subscribers.SubscriptionsAreCurrent: the value is promised to registered subscribers that missed no notification and whose call lost
  no read; `Cluster.MissedExactly` says exactly when a notification is missed, and `StaleReads` has a run for each case.
- Subscribers.SingleProcessSubscriptions: for calls that lost no read and whose handler finishes on the revisions of the run.
- CacheCoherence.PublishKeeps: promises nothing about entries whose own call lost a read.
- The checks of `access: "required"`, which refuse a call before it is looked up: a call of the model is one its caller may make.
- Listeners that throw when they are first called.
- A handler that catches what a read throws: a read that throws ends the run.
- Authentication, HTTP, OAuth, MCP, jobs, buckets and live-resume.

Canonical text:

- Lone surrogates, negative zero, and the difference between a number and its printed text (numbers are identified
  with the text JavaScript prints for them).
- Cyclic arguments, which the code rejects and JSON cannot hold.

Contracts and schemas:

- `patternProperties`, `prefixItems`, `$ref` and other keywords whose meaning depends on their siblings; malformed
  bounds; `items` given as a boolean.
- The wording and the order of findings and issues; only their presence, action and path prefix are modelled.
- Loosening.LooseningPasses: a closed object whose additional properties get a schema is not among the loosenings, because the check
  reports it although it accepts more (`Loosening.OpenedExample`); nor is anything the check gives up on at its depth limit.
- ContractCompatibility.SubsumesSound: asks that the target does not combine `const` and `enum` in disagreement, because the check ignores `enum`
  beside `const`; `IgnoredEnums.CheckSound` asks nothing and says what holds instead.
- ContractCompatibility.IgnoredEnumExact: about the outermost pair of `const` and `enum`; `IgnoredEnums.IgnoredEnumsExact` is about all of them.
- IgnoredEnums.IgnoredEnumsExact: for targets nested less than the depth at which the check gives up, whose `items` are schema objects.
- Key patterns of records.
- `refine`, `coerce`, `date`, `datetime`, `url`, `email` and patterns; string lengths are counted in one unit.

Availability:

- Floating-point rounding in the grid arithmetic: all values are integers below 2^53, where the source's division and
  rounding up are exact for the bounded request range.
- The mounted calendar, and trimming of titles (a saved title is the trimmed one).

Audit export:

- Timers, abort signals and overlapping flushes of one exporter object: a delivery is taken or not, and several
  exporters interleave freely in `AuditRuns`.
- AuditAuthenticity.AcceptedExportIsTheLog: an export with a forged signature, or with a text that collides with a signed one, is not
  excluded by the verifier; the result says so.
- Sequence numbers beyond the safe integers, and `JSON.parse` of stored envelopes (the stored entry is read back as
  written).

Agent budgets:

- Values that are not JSON, and the counting of nodes and depth in `encode`: whether a value fits is a parameter.
- Actions that return promises or keep the writer after their end, both of which the code refuses.
- Which 500 grants a cleanup takes, which the query leaves open: the model allows any choice of that size.

Funnel:

- Range checks, sample rates and the other analytics queries.

Rate limiter:

- External stores, changing settings, and a clock that goes back.
- The promises of the work queue: a task is an identifier that arrives, starts and ends.

Aggregates:

- The checks that build a plan, the text of SQL conditions and promises returned by policies: a plan is given, and a
  policy answers yes, no or improperly.
- Rounding of fractions: sums of non-integers are whatever addition gives, in row order.

Not modelled at all: user interfaces, billing, bookmarks, checklists, activity, command palette, bulk edit, performance
checks and the blueprint registry, which would only add easy members.
