# Silicon Valet: a verified model

Silicon Valet is an operations assistant. It keeps a relational picture of the machines it looks
after (the "Infrastructure DNA"), runs shell commands behind a risk gate, streams answers from a
language model with its reasoning hidden, and keeps a searchable library of runbooks. This project
models those four parts and proves what they promise for every input, every run and every
interleaving.

`dafny verify dfyconfig.toml` checks the whole project.

| file | what it holds |
|---|---|
| `schema.dfy`, `models.dfy` | the tables, keys, cells and change-log entries; the upsert each scanned entity stands for |
| `store_spec.dfy` | each store call as a function on databases, and the invariant every sequence of calls keeps |
| `observations.dfy`, `change_log.dfy` | what a cell holds after any run; what the log tells about lives of rows and about earlier values |
| `upsert_effects.dfy` | what each upsert does, in the fields of the entity it stores |
| `reachability.dfy`, `dna_store.dfy` | dependency paths and breadth-first search; the class `DNAStore`, proved against the specification |
| `scan_spec.dfy`, `scans.dfy`, `replay.dfy`, `rescans.dfy`, `scan_runs.dfy`, `scanner.dfy` | one scan as a plan of calls, repeated scans, runs of scans; the class `BackgroundScanner` |
| `scan_effects.dfy`, `scan_cells.dfy` | the keys and the cells a scan leaves, in the fields of what was observed |
| `strings.dfy`, `classifier.dfy` | Python string operations; risk tiers of pipelines and rollback suggestions |
| `gate.dfy` | the approval gate: many `execute` calls, one approval slot per session, an event loop that interleaves them |
| `think_filter.dfy`, `think_cuts.dfy`, `think_streams.dfy` | the streaming filter for `<think>` blocks; the intervals the whole-text regular expression cuts; exactly when the two agree |
| `runbooks.dfy` | the runbook table and its search index across an embedding call that may fail |

Conventions. A NULL or `None` is `None` of `Option`, and a NULL cell is an absent map entry. The
command patterns are arbitrary predicates on strings, so what is proved of tiers holds for any
pattern lists. A call that waits is split into events at its `await`s: an event is one stretch of
code that nothing can interrupt, and a run is any finite sequence of events; an event that cannot
happen in a state leaves it as it is. Time stamps, embeddings, probe results, process outcomes,
time-outs and cancellations are inputs. SQLite's `LIMIT 1` without an order is taken to return the
port row with the lowest id.

Where the code and its documentation differ, the model follows the code:

* `mark_services_removed` is never called by a scan, so scans only ever add rows (`ScanRuns.AnyScansOnlyAdd`).
* A scanned port is kept only if its number is owned already, so scanning never discovers a port
  (`ScanRuns.PortNumbersAreConstant`).
* The change log does not tell a NULL from the text "None" on the tables that compare `str()` texts;
  `ChangeLog.UndoRecovers` says exactly when the earlier value is recovered, `ChangeLog.NoneTextIsLost`
  shows a case in which it is not.
* Every RED pattern that needs a pipe is dead, because commands are split at pipes before they are
  matched (`Classifier.PipePatternIsDead`).
* The engine's `approval_callback` attribute, which two components set, is never read; `execute`
  uses its parameter only.
* A second prompt in a session takes the slot of the first, which can then never be approved
  (`Gate.OverlappedPromptNeverRuns`).
* `get_recent_executions(0)` returns the whole log (`Gate.RecentIsLongestSuffix`).
* What is streamed and what is still buffered are together what the regular expression leaves, unless
  the loop flushes in the middle of a block (`ThinkStreams.StreamAgreesUnlessInterrupted`), as it does
  when an opening tag straddles two tokens (`ThinkStreams.StraddlingTagIsStreamed`); a closing tag that straddles tokens inside a buffered
  block does no harm. Text still buffered when the stream ends is dropped, while the regular
  expression keeps it.
* The index can keep an earlier text of a runbook: when two additions of it overlap
  (`Runbooks.OverlappingAddsCanLeaveTheIndexStale`), and when the embedding of the last one fails
  (`Runbooks.FailedEmbeddingLeavesTheIndexStale`). `Runbooks.IndexIsCurrentIff` says exactly when it is current.

## Model

| member | source | states |
|---|---|---|
| `Schema.OnlyTextPrintsAsNone` | silicon_valet/dna/store.py:74 | among all stored values only the literal text "None" prints like a NULL, so that is the one blind spot of a `str()` comparison |
| `Schema.DecimalReads` | silicon_valet/dna/store.py:49-50 | the text stored for a number reads back as that number, so different numbers have different texts |
| `StoreSpec.ApplyKeepsSound` | silicon_valet/dna/schema.py:15-77 | every accepted or refused call keeps the schema's rules: unique hostnames, services, owned ports and configs, dependency triples and interfaces, live foreign keys, ids below the counters, typed cells |
| `StoreSpec.ReachableIsSound` | silicon_valet/dna/store.py:55-336 | any sequence of upserts and cascading removals from the empty schema ends in a store that satisfies those rules |
| `StoreSpec.LookupIsUnique` | silicon_valet/dna/store.py:98-103 | the WHERE clause of an upsert matches at most one row, so `fetchone` has no choice; a service's NULL and empty namespace are one key |
| `StoreSpec.ServiceKeyIsStrongerThanUnique` | silicon_valet/dna/schema.py:36 | no two rows share a key, a NULL and an empty namespace being one key; SQL's UNIQUE would let in exactly the equal keys on no node or with a NULL namespace on one side |
| `StoreSpec.RowAfterApply` | silicon_valet/dna/store.py:76-82 | one call merges non-null cells into the row its key matches and leaves every other surviving row alone |
| `StoreSpec.RowPersists` | silicon_valet/dna/schema.py:26-66 | ids are never reused: a row with an id handed out before a run and live after it was live throughout, under the same key |
| `StoreSpec.RunExtendsLog` | silicon_valet/dna/store.py:37-51 | the change log only grows, by the concatenation of each call's entries |
| `StoreSpec.OwnerIs` | silicon_valet/dna/store.py:144-150 | the service a port number resolves to is the owner of the oldest port row that joins a service |
| `StoreSpec.OldestIsUnique` | silicon_valet/dna/store.py:144-150 | there is at most one oldest such row, so the answer is determined |
| `Observations.CellIsLastSeen` | silicon_valet/dna/store.py:121-125 | over any run a live row's cell is the last non-null value observed for its key, else what it held before |
| `Observations.CellIsLastObservationSinceInsertion` | silicon_valet/dna/store.py:330-334 | in every reachable store each cell is the last non-null observation since the row was inserted, and NULL if there was none |
| `ChangeLog.ApplyTellsLives` | silicon_valet/dna/store.py:105-113 | each call keeps the correspondence between the log and the live rows |
| `ChangeLog.LogTellsLivesOfReachable` | silicon_valet/dna/store.py:351-358 | the log of each id reads added, modified any number of times, then at most one removed; the live services are exactly those added and not removed |
| `ChangeLog.SurvivesUnlessRemoved` | silicon_valet/dna/schema.py:39-66 | a row survives a run if and only if the run logs no removal of it or of a service that owns it |
| `ChangeLog.LiveWhileOwnersLive` | silicon_valet/dna/schema.py:39-66 | in every reachable store an inserted row of any table is live if and only if the log shows no removal of the service it is or of one it belongs to |
| `ChangeLog.UndoRecovers` | silicon_valet/dna/store.py:71-75 | for every column of a table but the bind address, the modification time and the detail: walking the entries back from the current text recovers what the cell held before any run, if and only if the cell was not a NULL whose first observed value was the text "None" |
| `ChangeLog.NoneTextIsLost` | silicon_valet/dna/store.py:71-75 | a node stored without a role and then seen with the role "None": the role changes and walking the log back does not recover the NULL |
| `ChangeLog.ModificationsChain` | silicon_valet/dna/store.py:181-186 | successive modified entries of a cell in any such column chain: each starts where the last one ended, records a real change, and the last ends at the current text |
| `ChangeLog.NothingLoggedForNull` | silicon_valet/dna/store.py:219-223 | such a cell that is still NULL after a run was NULL all along, was never observed, and has no entry |
| `ChangeLog.OnlyLoggedColumnsAreLogged` | silicon_valet/dna/store.py:181-186 | over any run, every modified entry is of a column that table compares: bind addresses, modification times and details never get one |
| `Reachability.DependsOnIsWithin` | silicon_valet/dna/store.py:282-283 | a service depends on another by some path if and only if it is within some number of steps, the two definitions the search is judged by |
| `Reachability.SearchIsComplete` | silicon_valet/dna/store.py:288-305 | when the queue is empty the result holds exactly the other services with a path to the target, for every graph |
| `Reachability.SearchIsNearestFirst` | silicon_valet/dna/store.py:299-303 | services are first reported in order of shortest distance, whatever order the rows come in |
| `UpsertEffects.NodeUpsert` | silicon_valet/dna/store.py:55-84 | the row of the hostname has the stamp of the node; each of its ip, role, OS, RAM and core cells holds the field that is given, else what it held (NULL in a new row); an update logs exactly the given fields whose texts differ, an insert takes the next id and is logged as added; no other row changes |
| `UpsertEffects.ServiceUpsert` | silicon_valet/dna/store.py:98-127 | the same for status, pid and image of the row with the name, type, node and namespace (NULL as empty) |
| `UpsertEffects.PortUpsert` | silicon_valet/dna/store.py:165-188 | bind address and state are the ones given; an update logs a state that is not the stored one; without an owner a row is always inserted |
| `UpsertEffects.ConfigUpsert` | silicon_valet/dna/store.py:203-230 | hash and modification time hold what is given, else what they held; an update logs a given hash that is not the stored one |
| `UpsertEffects.DependencyUpsert` | silicon_valet/dna/store.py:241-258 | a triple that is stored leaves the whole store as it was; a new one is inserted with its detail |
| `UpsertEffects.InterfaceUpsert` | silicon_valet/dna/store.py:309-336 | ip, subnet and mac hold what is given, else what they held, and the state is the one given; an update logs exactly the given fields that differ |
| `UpsertEffects.UniqueInFields` | silicon_valet/dna/schema.py:15-77 | in a sound store no two rows share a hostname, a service's name, type, node and namespace, an owned port's owner, number and protocol, an owned file's owner and path, a dependency triple, or an interface's node and name |
| `UpsertEffects.ParentsInFields` | silicon_valet/dna/schema.py:26-66 | in a sound store the node of a service or interface, the owner of a port or file and both ends of a dependency are live rows |
| `DnaStore.DNAStore.constructor` | silicon_valet/dna/store.py:29-30 | a new store is the empty schema |
| `DnaStore.DNAStore.RecordChange` | silicon_valet/dna/store.py:37-51 | appends one entry to the change log and touches nothing else |
| `DnaStore.DNAStore.Find` | silicon_valet/dna/store.py:99-103 | returns the one row the key matches, or none exactly when none does |
| `DnaStore.DNAStore.LogModifications` | silicon_valet/dna/store.py:71-75 | logs one modified entry per observed column that differs, in column order; which columns those are is stated by the upserts |
| `DnaStore.DNAStore.UpdateExisting` | silicon_valet/dna/store.py:69-82 | logs the differing columns of a row, then merges the non-null cells into it |
| `DnaStore.DNAStore.InsertNew` | silicon_valet/dna/store.py:60-68 | inserts a row under the table's next id, which is used up, and logs it as added |
| `DnaStore.DNAStore.UpsertRow` | silicon_valet/dna/store.py:55-84 | updates the matching row or inserts one under the next id; refused exactly when a parent row is missing; keeps the invariant |
| `DnaStore.DNAStore.UpsertNode` | silicon_valet/dna/store.py:55-84 | the node upsert is the specified call, reports the id of the node's row, and changes cells, stamp and log as `UpsertEffects.NodeUpsert` says in the node's fields |
| `DnaStore.DNAStore.UpsertService` | silicon_valet/dna/store.py:98-127 | the service upsert is the specified call with the effect `UpsertEffects.ServiceUpsert` says in the service's fields; it fails exactly on a dangling node of a service not yet stored |
| `DnaStore.DNAStore.UpsertPort` | silicon_valet/dna/store.py:165-188 | the port upsert is the specified call with its effect in the port's fields; an ownerless port matches no row and is always inserted; it fails exactly on a missing owner |
| `DnaStore.DNAStore.UpsertConfigFile` | silicon_valet/dna/store.py:203-230 | the config-file upsert is the specified call with its effect in the file's fields; an ownerless file matches no row and is always inserted; it fails exactly on a missing owner |
| `DnaStore.DNAStore.AddDependency` | silicon_valet/dna/store.py:241-258 | an existing dependency is left alone and logged nowhere; a new one gets its detail; the call fails exactly if it is new and its source or target is missing |
| `DnaStore.DNAStore.UpsertNetworkInterface` | silicon_valet/dna/store.py:309-336 | the interface upsert is the specified call with its effect in the interface's fields; it fails exactly on a dangling node of an interface not yet stored |
| `DnaStore.DNAStore.GetServiceByPort` | silicon_valet/dna/store.py:144-150 | returns the owner of the port row with the lowest id among those that have the number and an owner, which is a live service, or none if there is no such row |
| `DnaStore.DNAStore.DeleteService` | silicon_valet/dna/store.py:356-357 | logs one removal and deletes exactly the service, the ports and config files it owns, and the dependencies it is the source or target of |
| `DnaStore.DNAStore.MarkServicesRemoved` | silicon_valet/dna/store.py:351-358 | removes exactly the services outside the active set, their ports and config files, and the dependencies with one of them at either end, with one log entry for each service |
| `DnaStore.RemovalsPurge` | silicon_valet/dna/store.py:354-357 | removing services one by one, in any order, leaves the store without them and without what they own |
| `DnaStore.RemovalTakes` | silicon_valet/dna/schema.py:39-66 | removing a service deletes the rows that name it as owner, source or target, and no others |
| `DnaStore.PurgeTakes` | silicon_valet/dna/store.py:354-357 | a purge of services leaves exactly the rows that are none of them and name none of them |
| `DnaStore.DependsByRows` | silicon_valet/dna/store.py:294-298 | a service depends on another if and only if dependency rows lead from it to the other, each from a source to its target |
| `DnaStore.DNAStore.DirectDependents` | silicon_valet/dna/store.py:294-298 | one live source service per dependency row onto the target, in an arbitrary order |
| `DnaStore.DNAStore.ReportDependents` | silicon_valet/dna/store.py:299-303 | the inner loop keeps the search invariant and charges every reported service to a dependency row of its own |
| `DnaStore.DNAStore.GetDependents` | silicon_valet/dna/store.py:282-305 | terminates on every graph and returns, as a set, exactly the other services from which a chain of dependency rows leads to the given one, nearest first, in at most as many entries as there are dependency rows |
| `Replay.SettledReplay` | silicon_valet/dna/store.py:116-125 | replaying a batch that is already stored changes no table, and logs nothing if and only if the batch never reports two texts for one logged cell |
| `Replay.ReplayIsIdempotent` | silicon_valet/dna/store.py:98-127 | two passes of a batch of accepted upserts leave the tables of one pass, time stamps apart; the second is silent if and only if the batch is consistent |
| `ScanSpec.ScanIsPlan` | silicon_valet/dna/scanner.py:132-174 | a scan in stages is the run of one plan of upserts |
| `Scans.ScanIsBatch` | silicon_valet/dna/scanner.py:132-174 | no call of a scan is refused, every row survives it under its key, and the store stays sound |
| `Scans.InferredIsLinked` | silicon_valet/dna/scanner.py:518-529 | the nested loops infer a dependency if and only if a pattern and two names with different ids exist such that the pattern's source occurs in the first name and its target in the second, and the dependency goes from the first id to the second with the pattern's type and detail |
| `Scans.UnownedPorts` | silicon_valet/dna/scanner.py:149-156 | ports scanned without a service id all go to the services that owned their numbers before the loop, and none is refused |
| `Scans.OwnerDuringScan` | silicon_valet/dna/scanner.py:149-156 | storing such ports never changes which service owns a port number |
| `Rescans.SameNames` | silicon_valet/dna/scanner.py:138-146 | a rescan with equal observations maps every service name to the same id |
| `Rescans.SamePlan` | silicon_valet/dna/scanner.py:132-174 | a rescan with equal observations makes the same calls, time stamps apart |
| `Rescans.RescanIsIdempotent` | silicon_valet/dna/scanner.py:100-176 | scanning twice with equal observations leaves the tables of one scan, and the second scan logs nothing if and only if the observation does not contradict itself |
| `Rescans.DistinctKeysRescanSilently` | silicon_valet/dna/scanner.py:100-176 | an observation whose nodes, services, interfaces and files are distinct and whose ports all listen, as the probe reports them, is consistent, so its rescan appends nothing to the change log |
| `ScanRuns.ScansOnlyAdd` | silicon_valet/dna/scanner.py:132-174 | over any run of scans no row is deleted or rekeyed, and each new port row belongs to the service that owned its number at the start |
| `ScanRuns.AnyScanOnlyAdds` | silicon_valet/dna/scanner.py:132-174 | a scan of any observation, wherever a refused call stops it, deletes no row, changes no key and keeps the store sound |
| `ScanRuns.AnyScansOnlyAdd` | silicon_valet/dna/scanner.py:86-98 | so does any number of such scans |
| `ScanRuns.RescansAreIdempotent` | silicon_valet/dna/scanner.py:86-98 | however often a scan is repeated with equal observations, the tables stay those of one scan, and the repetitions log nothing if and only if the observation does not contradict itself, or there are none |
| `ScanRuns.PortNumbersAreConstant` | silicon_valet/dna/scanner.py:148-156 | over any run of scans the set of port numbers in the ports table stays the same |
| `ScanRuns.DependenciesAfterScan` | silicon_valet/dna/scanner.py:171-174 | after a scan the dependency triples are the old ones and exactly those from a service whose name contains a known pattern's source to another whose name contains its target |
| `ScanRuns.DependenciesAfterScans` | silicon_valet/dna/scanner.py:171-174 | over any run of scans the dependency triples are the old ones and exactly those some scan of the run inferred from the store it found, never of a service with itself |
| `ScanEffects.DictKeys` | silicon_valet/dna/scanner.py:133-136 | the keys of a dictionary filled pair by pair are the names in order of first appearance |
| `ScanEffects.DictHolds` | silicon_valet/dna/scanner.py:138-146 | and each name maps to the value it was last paired with |
| `ScanEffects.FirstNodeIs` | silicon_valet/dna/scanner.py:139-142 | services and interfaces without a node go to the row of the first node observed; without any node there is none |
| `ScanEffects.NamesAre` | silicon_valet/dna/scanner.py:138-146 | the name map has each observed name with the id of the row that holds the last service observed under it |
| `ScanEffects.KeysAfterScan` | silicon_valet/dna/scanner.py:132-174 | after a scan the keys in the store are the old ones and exactly the observed ones: hostnames, services on the first node, ports under the owner of their number, interfaces on the first node, files under the service of their name, and inferred triples |
| `ScanCells.CellsAfterScan` | silicon_valet/dna/scanner.py:132-169 | after a scan each cell of a node, service, port, interface or file holds the last value the observation reports for its key, else what it held before, NULL in a new row |
| `ScanCells.OwnIdsStand` | silicon_valet/dna/scanner.py:138-162 | in any observation a service, port or interface that carries an id is stored with it, as it is |
| `Scanner.BackgroundScanner.PersistNodes` | silicon_valet/dna/scanner.py:133-136 | stores the nodes in order; the node map holds each hostname's id, in order of first appearance |
| `Scanner.BackgroundScanner.PersistServices` | silicon_valet/dna/scanner.py:138-146 | stores the services in order, those without a node on the first one, up to the first the store refuses; the name map holds the last id stored under each name |
| `Scanner.BackgroundScanner.PersistPorts` | silicon_valet/dna/scanner.py:148-156 | stores each port under its own service id, or under the service that owns its number by then, up to the first the store refuses; drops a port with neither |
| `Scanner.BackgroundScanner.PersistInterfaces` | silicon_valet/dna/scanner.py:158-162 | stores each interface on its own node, or on the first one, up to the first the store refuses; drops those with neither |
| `Scanner.BackgroundScanner.PersistConfigs` | silicon_valet/dna/scanner.py:164-169 | stores the files of each mapped service, in the order of the name map, up to the first the store refuses |
| `Scanner.BackgroundScanner.LinkNames` | silicon_valet/dna/scanner.py:519-528 | the two inner loops find all pairs one pattern links, in loop order, each dependency going from the name with the pattern's source to the one with its target |
| `Scanner.BackgroundScanner.InferDependencies` | silicon_valet/dna/scanner.py:504-529 | the inferred list is that of the known patterns over the name map, and holds exactly the dependencies described for `Scans.InferredIsLinked` |
| `Scanner.BackgroundScanner.PersistDependencies` | silicon_valet/dna/scanner.py:173-174 | adds the inferred dependencies in order, up to the first the store refuses |
| `Scanner.BackgroundScanner.PersistAttached` | silicon_valet/dna/scanner.py:148-174 | stores ports, interfaces, files and inferred dependencies in this order, up to the first the store refuses |
| `Scanner.BackgroundScanner.ScanOnce` | silicon_valet/dna/scanner.py:100-176 | for any observation the reconciliation loops run the specified plan to its end, or stop at the first call the store refuses, and delete no row; with the ids the probes leave open none is refused and the store is the specified result of a scan |
| `Classifier.StagesAreClean` | silicon_valet/risk/classifier.py:87-92 | every string the patterns see is stripped and free of pipes |
| `Strings.StripRemovesOnlySpace` | silicon_valet/risk/classifier.py:46 | stripping takes only white space off the two ends and keeps everything between |
| `Classifier.ClassifyPipeChain` | silicon_valet/risk/classifier.py:85-105 | the loop computes the highest tier of the stages |
| `Classifier.Classify` | silicon_valet/risk/classifier.py:44-63 | both branches of `classify` give the highest tier of the pipe stages of the unstripped command; a backup is asked for exactly on YELLOW; pipelines get no rollback |
| `Classifier.TierOfPipe` | silicon_valet/risk/classifier.py:85-94 | the tier of `x\|y` is the higher of the tiers of x and y, for all strings and pattern lists |
| `Classifier.TierOfJoin` | silicon_valet/risk/classifier.py:85-94 | a pipeline's tier bounds the tiers of its commands and is the tier of one of them |
| `Classifier.PipelineOrderIsIrrelevant` | silicon_valet/risk/classifier.py:85-94 | two pipelines whose commands have the same stages have the same tier, so reordering or repeating commands, or moving stages between them, changes nothing |
| `Classifier.TierMeaning` | silicon_valet/risk/classifier.py:65-83 | a command is RED if and only if some stage hits a RED pattern, GREEN if and only if every stage hits a GREEN and no RED one |
| `Classifier.PipePatternIsDead` | silicon_valet/risk/patterns.py:143 | adding a RED pattern that only matches text with a pipe changes no classification |
| `Classifier.RollbackUndoesItself` | silicon_valet/risk/classifier.py:30-38 | for every white-space- and pipe-free service word, start and stop, enable and disable are each other's suggested rollback, and restart is its own |
| `Classifier.RollbackIs` | silicon_valet/risk/classifier.py:30-38 | pipelines and commands of fewer than three words get no rollback; any other gets one if and only if it begins with one of the seven known prefixes, namely that prefix's counterpart for its third word |
| `Classifier.SuggestionsUndoThemselves` | silicon_valet/risk/classifier.py:164-171 | a rollback suggested for any systemctl command is its own double rollback, however the original was spaced or continued |
| `Gate.ApprovalGate.StartSession` | silicon_valet/server/session.py:55-57 | the session is connected, so it can be prompted; nothing else changes |
| `Gate.ApprovalGate.Execute` | silicon_valet/risk/engine.py:59-101 | `execute` up to its first await: a GREEN call runs unasked if and only if auto-approval is on; otherwise a call without a callback is denied, one of a session is prompted if the session has a socket and denied if not, and the HTTP callback passes GREEN, and YELLOW when opted in and the backup did not raise |
| `Gate.ApprovalGate.HttpCallback` | silicon_valet/api/openai_compat.py:80-87 | approves GREEN, and YELLOW only when opted in |
| `Gate.ApprovalGate.OpenPrompt` | silicon_valet/server/session.py:127-131 | a sent prompt creates a fresh future and overwrites the session's slot with it |
| `Gate.ApprovalGate.PromptFailed` | silicon_valet/server/session.py:126-127 | an exception in the send ends the call and leaves the slot alone |
| `Gate.ApprovalGate.HandleResponse` | silicon_valet/server/session.py:82-85 | a response settles the future in the slot if it is pending, does nothing to any future if the slot is empty, and raises exactly if that future is already settled; it connects the session |
| `Gate.ApprovalGate.Expire` | silicon_valet/server/session.py:131-135 | a time-out cancels the future if it is pending and decides the wait |
| `Gate.ApprovalGate.CancelTask` | silicon_valet/server/session.py:129-137 | cancelling a task ends its send, its wait or its command, with no log entry |
| `Gate.ApprovalGate.ResumeCallback` | silicon_valet/server/session.py:130-137 | the finally clause empties the session's slot whoever holds it; the call fails if its task was cancelled, is denied if it timed out or its own answer was not True, fails if a YELLOW backup raised, and runs otherwise |
| `Gate.ApprovalGate.FinishRun` | silicon_valet/risk/engine.py:103-147 | success, time-out and error each append exactly one entry with the call, its command and tier, and the process's code, or -1 on a time-out or error |
| `Gate.ApprovalGate.GetRecentExecutions` | silicon_valet/risk/engine.py:173-175 | returns the Python slice `log[-n:]` for any integer n |
| `Gate.RecentIsLongestSuffix` | silicon_valet/risk/engine.py:173-175 | for n at least 1 the slice is the last n entries, or the whole log if there are fewer; for n at most 0 it is the log without its first -n entries; so for n at least 0 its length is at most n if and only if n is at least 1 or the log is empty |
| `Gate.StepKeeps` | silicon_valet/server/session.py:129-137 | no event changes a settled or cancelled future, or what a call was called with |
| `Gate.SettledByResponse` | silicon_valet/server/session.py:82-85 | a future becomes approved only by an approving response to a slot that names it while it is pending |
| `Gate.ProtocolKept` | silicon_valet/server/session.py:121-137 | every event keeps: each waiting call has a future of its own, no two futures share a call, every slot names a future still waited for |
| `Gate.OnlyClearedKept` | silicon_valet/risk/engine.py:62-99 | every event keeps: a started command was GREEN with auto-approval on, or approved by its own session's answer, or came over HTTP and was GREEN, or YELLOW with the opt-in flag |
| `Gate.LogExactKept` | silicon_valet/risk/engine.py:146-147 | every event keeps: one log entry per finished call, none for others, and the log only grows |
| `Gate.RunIsSafe` | silicon_valet/risk/engine.py:41-147 | all of these hold after every interleaving of any number of calls |
| `Gate.SlotsNameWaitingCallbacks` | silicon_valet/server/session.py:129-137 | a session's slot never names the future of a callback that has finished |
| `Gate.CallsCanMove` | silicon_valet/server/session.py:121-137 | in every interleaving an unfinished call has its next events open whatever the others do: a prompt can be sent or fail, a wait can time out or be cancelled and resumes once it is answered or over, a command can end in every way |
| `Gate.NoCallIsStuck` | silicon_valet/server/session.py:129-137 | from every reachable state at most two events of a call's own, none of them an answer, end it |
| `Gate.UnsolicitedResponseIsIgnored` | silicon_valet/server/session.py:82-85 | a response handled while the slot is empty changes no call, future, slot or log entry |
| `Gate.EveryRunWasApproved` | silicon_valet/server/session.py:82-85 | for every command run through a session there is an approving response, handled by that session while the slot named the command's own pending future |
| `Gate.RunsNeverExceedApprovals` | silicon_valet/risk/engine.py:79-99 | in every interleaving, with duplicate, late or unsolicited responses, at most as many commands run through sessions as approving responses were handled |
| `Gate.SessionRunsNeverExceedItsApprovals` | silicon_valet/server/session.py:82-85 | nor does any one session run more commands than it handled approving responses |
| `Gate.LogIsAppendOnly` | silicon_valet/risk/engine.py:146 | the log at any earlier point of a run is a prefix of the log at its end |
| `Gate.LogTellsFinishedRuns` | silicon_valet/risk/engine.py:103-147 | exactly the calls that ran to an end are in the log, once each, and each was allowed to run; denials, failures and cancellations leave no entry |
| `Gate.LogTellsOutcomes` | silicon_valet/risk/engine.py:103-147 | each log entry stems from a finish of its own call in the run: its code is the process's if that completed, and -1 if it timed out or raised |
| `Gate.EveryStartHasItsCause` | silicon_valet/risk/engine.py:59-101 | in every interleaving each started call was submitted GREEN with auto-approval on, or passed the HTTP policy when it was submitted, or resumed a prompt of its own that had been approved, and no YELLOW one after a backup that raised |
| `Gate.HttpNeverRunsRed` | silicon_valet/api/openai_compat.py:78-87 | no logged command of an HTTP call has a stage that hits a RED pattern, and a YELLOW one appears only with the opt-in flag |
| `Gate.RedNeedsItsOwnApproval` | silicon_valet/risk/engine.py:66-92 | every logged command with a RED stage was approved in its own session's prompt |
| `Gate.PromptOpens` | silicon_valet/server/session.py:127-129 | a call whose prompt was sent holds its session's slot with a fresh pending future |
| `Gate.PromptReturnsItsVerdict` | silicon_valet/server/session.py:129-137 | in every interleaving a prompt returns True if and only if an approving response was the first to come while it held the slot, and it was neither timed out nor cancelled |
| `Gate.FirstResponseDecides` | silicon_valet/server/session.py:129-137 | when callbacks of the session do not overlap, the command runs if and only if the first response after the slot was filled approves and the wait was not ended before |
| `Gate.OverlappedPromptNeverRuns` | silicon_valet/server/session.py:129-137 | once another callback of the session opens a prompt or ends, the command of an unanswered prompt never starts, whatever its tier and whatever happens afterwards |
| `ThinkFilter.FirstBlock` | silicon_valet/orchestrator/planner.py:186 | the match is the leftmost block of the text, and the shortest one that starts there; none exactly when the text has no block |
| `ThinkFilter.StreamTokens` | silicon_valet/orchestrator/planner.py:162-178 | the token loop yields what the filter's step function yields |
| `ThinkFilter.RemoveConcat` | silicon_valet/orchestrator/planner.py:175 | cutting a text outside every block and tag splits the removal in two |
| `ThinkCuts.RemoveCutsBlocks` | silicon_valet/orchestrator/planner.py:186 | the regular expression takes exactly its cuts out of a text: ordered blocks without another closing tag in them, such that every block of the text starts inside one |
| `ThinkCuts.CutsAreUnique` | silicon_valet/orchestrator/planner.py:186 | only one list of intervals is made of ordered blocks without another closing tag, one of which every block starts in |
| `ThinkCuts.PartedRemoval` | silicon_valet/orchestrator/planner.py:175 | removing from the two parts of a text separately gives the removal of the whole if no cut lies across the place where it is parted, and leaves strictly more if one does |
| `ThinkStreams.StreamAgreesUnlessInterrupted` | silicon_valet/orchestrator/planner.py:162-186 | for all tokens, what was streamed plus what is buffered is the text with the regular expression's cuts removed if and only if no cut has a flush strictly inside it; then the streamed text alone is, if and only if nothing is buffered, and stripped it is what `_strip_thinking` returns |
| `ThinkStreams.StreamAgreesUnlessUnclosed` | silicon_valet/orchestrator/planner.py:162-186 | tokens that no tag straddles and that leave no block open after closing one are never interrupted: streaming agrees with the regular expression if and only if the text does not end inside a block |
| `ThinkStreams.StraddlingTagIsStreamed` | silicon_valet/orchestrator/planner.py:170-175 | the tokens `<th`, `ink>a</think>` are streamed whole although the regular expression removes everything |
| `ThinkStreams.OnlyBlocksAreMissing` | silicon_valet/orchestrator/planner.py:162-178 | for any tokens, the streamed text is the input with ordered intervals cut out: blocks without another closing tag or a flush in them, in one of which every flushed block without a flush inside it starts, and last exactly the text still buffered |
| `ThinkStreams.YieldsAreNotEmpty` | silicon_valet/orchestrator/planner.py:176-178 | no empty text is ever yielded, and at most one text for each token |
| `Runbooks.RunbookLibrary.StartAdd` | silicon_valet/memory/procedural.py:105-112 | replaces or inserts the row before the embedding is asked for |
| `Runbooks.RunbookLibrary.EndAdd` | silicon_valet/memory/procedural.py:114-120 | a returned embedding puts the entry's text in the index; a failed one leaves the index alone |
| `Runbooks.RunbookLibrary.Search` | silicon_valet/memory/procedural.py:134-139 | returns the rows of the hits that have one, in order |
| `Runbooks.RunbookLibrary.Succeed` | silicon_valet/memory/procedural.py:141-148 | counts one success and stamps the row, if there is one |
| `Runbooks.SearchTextIs` | silicon_valet/memory/procedural.py:52-57 | the text embedded is title, pattern, symptoms and, if it is given and not empty, root cause, in this order with one blank between |
| `Runbooks.LookupIs` | silicon_valet/memory/procedural.py:134-139 | each hit contributes its row at its place, or nothing if it has none |
| `Runbooks.IndexWithinTable` | silicon_valet/memory/procedural.py:103-121 | in every interleaving of additions every indexed id has a row, and the id sets are equal if and only if each added runbook was embedded at least once, in particular when all additions have completed |
| `Runbooks.SearchDropsNoHit` | silicon_valet/memory/procedural.py:123-139 | a search returns the row of every hit of the index |
| `Runbooks.RowIsLastBegun` | silicon_valet/memory/procedural.py:103-148 | a row is the entry of the last addition begun, with the successes recorded since; an index text is that of the last addition whose embedding returned |
| `Runbooks.IndexIsCurrentIff` | silicon_valet/memory/procedural.py:103-121 | for every run, the text in the index is that of the row if and only if the last addition embedded and the last one begun have the same search text |
| `Runbooks.IndexIsCurrentOneAtATime` | silicon_valet/memory/procedural.py:103-121 | if no addition of a runbook begins while another of it is in flight and the last one's embedding returned, the index holds the text of the row |
| `Runbooks.FailedEmbeddingLeavesTheIndexStale` | silicon_valet/memory/procedural.py:114-120 | an addition whose embedding fails leaves the table with its entry and the index with the earlier one's text, without any overlap |
| `Runbooks.OverlappingAddsCanLeaveTheIndexStale` | silicon_valet/memory/procedural.py:114-120 | two overlapping additions of one runbook that finish in reverse order leave the table with the second entry and the index with the first |

## Left out

- Probing and parsing of command output, kubectl, docker and file hashing: a scan takes an arbitrary observation. What is proved of repeated scans and runs of scans is about observations as the probes build them (services and ports carry no id, interfaces node 0); a port that brings its own id can give its number an owner that an earlier port of the same scan did not find.
- Ids written back onto the argument objects of the upserts: the methods return the id instead.
- Awaits inside `scan_once` (the config-file probe of each service): a scan is one step of the store; no other component writes these tables.
- NOT NULL violations and NULL port states or bind addresses: the record types exclude them, as the dataclasses do.
- Queries with one-line answers: listings, `get_dependencies`, `get_listening_ports`, `get_service_by_name`, `get_changes_since`, the context summary, and the time stamps of log entries.
- `_explain`, the text shown with a prompt, and whether the pattern lists are complete.
- Subprocess output, real time, the content of backups: an outcome, a time-out event, and whether the backup raised. A time-out or cancellation may also come after the answer and before the callback resumes, which is how `wait_for` behaves from Python 3.12 on; under 3.11 such an event has no effect, that is, it is absent from the run.
- Message parsing: the `approved` field of a response is a Boolean.
- The end-of-stream record and error messages of the model stream, and JSON decoding of its lines: the filter takes the tokens.
- Embedding distances and the ranking of the index query: a search takes any list of indexed ids.
- Network-device tools, CLI, prompts, routing, seed data, deployment, authentication: thin or textual.
