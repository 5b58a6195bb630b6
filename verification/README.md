# Verified models of the platform's self-contained state machines

The platform is mostly web handlers over services. A few pieces of it carry real state, loops,
arithmetic or interleavings, and each is modelled here on its own:

| module | what it models |
|---|---|
| `RateLimiter`, `RateLimiterRuns`, `RateLimiterWaits` | the per-client rate limiter of the API, with eviction of silent clients |
| `TreeBuilder`, `TreeBuilderRuns`, `TreeReading` | the HTML tree builder of the documentation extractor, and reading its nodes |
| `KvBlob` | the `key=value` log-trailer scanner and the printer of the latency harness |
| `StageSamples` | the bounded sample bag and its order statistics |
| `SingleFlight`, `SingleFlightEvents` | the single-flight, time-limited storage summary, over any interleaving of callers |
| `ProfileHistory`, `ProfileHistoryRuns`, `ProfileHistoryRequests` | discovery profiles, their snapshots and their runtimes |
| `SourceRegistry`, `SourceRegistryRuns`, `SourceRegistryRequests` | data sources and the loader's runtimes |
| `ProcessTree`, `WorkerPlanes`, `SupervisionThreads`, `SupervisionRuns`, `LauncherHealth` | the launcher: tree kill, lineage, worker supervision and its threads, offline debounce |
| `PositionMarks`, `PositionMarkRuns` | live price marks of open orders, their token index and the sync |
| `Slug`, `PythonLiteral` | identifier slugging and string-literal printing |
| `Wrappers` | optional values and white space, for the others |

Objects the code updates in place are classes (`InboundLimiter`, `TokenBucket`, `Tree`, `Node`, `Bag`,
`Process`, `Store`, `Registry`, `Launcher`, `Supervision`, `Monitor`, `PositionMarkState`). Each of their
methods is proved against a function on values, and what the code is for is then proved of those
functions over whole runs. A module `...Runs` holds the run theorems of the module it is
named after; `...Requests`, `...Events` and `...Waits` state what its operations do in terms of requests,
events and answers alone, without the functions the methods are proved against.
`dafny verify dfyconfig.toml` checks everything.

## What the proofs found

* **Profile edits that leave the source alone are refused.** The update handler
  (`backend/api/routes_discovery_profiles.py:543-575`) means to take a snapshot with the unchanged
  number, but the table has a unique constraint on profile and number
  (`backend/models/database.py:7489`), so the commit fails and is rolled back, after the loader has
  already been touched. `MetadataEditRefusedIff` says when, `UpdateCoherentIff` says exactly when that
  leaves a row and its runtime apart, in either direction, and `ConfigEditDrifts` and `EnableEditDrifts`
  are concrete runs. The same constraint makes history numbering gap-free and restoring by number
  unambiguous.
* **Deleting the active profile leaves the loader naming it** (`ActiveAgreesIff`, `DeleteLeavesActive`).
* **A run can mark a source as loaded beside the runtime of its old code.** A source whose new code does
  not load keeps its old runtime and says error; the next run succeeds on that runtime and writes loaded
  (`backend/services/data_source_runner.py:753`). `ApplyOwnIff` says exactly when, `RunRevives` is a
  concrete run.
* **Previewing a disabled data source leaves a runtime behind a row that says unloaded**, and a run whose
  source is disabled while it fetches leaves a disabled row that says error (`ApplySoundIff`,
  `PreviewLeavesRuntime`, `DisabledUnderRun`). The next refresh from the table heals all of these
  (`RefreshHeals`).
* **Re-registering an order under another token leaves the old index entry for good**, so prices of
  the old token still move the order (`RegisterExactIff`, `SyncExactIff`, `StaleEntry`).
* **Slugging is idempotent exactly when the default prefix has no double underscore** (`SlugIdempotentIff`).
* **A printed literal reads back exactly when the value has no NUL, and an empty value is not followed
  by another quote** (`LiteralReadsBackIff`).
* **Eviction of silent clients is invisible, and no client gets more than its burst plus its rate, exactly
  when rate times stale age covers the burst** (`EvictionInvisibleIff`, `AdmissionBoundIff`); the shipped settings meet that (`BurstWithinTwentyWindows`).
* **A denied client's wait is exact** (its next call is admitted from then on and not before) **if and only
  if the limiter remembers clients for as long as one token takes** (`WaitHonestIff`).
* **The tree kill terminates exactly when the root is not its own ancestor in the snapshot** (`TerminatesIff`,
  `TwoCycleNeverEnds`).
* **The flag that keeps supervision passes single never turns anyone away**: the flag on polls already
  does its work (`WhoIsTurnedAway`).

## Model

| member | source | states |
|---|---|---|
| RateLimiter.TokenBucket.Refill | backend/utils/rate_limiter.py:31-36 | tokens grow by rate times elapsed time, held to the capacity |
| RateLimiter.TokenBucket.Consume | backend/utils/rate_limiter.py:38-44 | after a refill, takes the tokens exactly if there are enough |
| RateLimiter.TokenBucket.WaitTime | backend/utils/rate_limiter.py:46-52 | after a refill, the time until the rate has made up what is missing |
| RateLimiter.InboundLimiter.BucketFor | backend/main.py:140-154 | the client's bucket, or a new full one, entered for it; no other client's changes |
| RateLimiter.InboundLimiter.Cleanup | backend/main.py:156-165 | at most once a minute, exactly the clients silent for the stale age are forgotten, in all three maps |
| RateLimiter.InboundLimiter.ForgetAll | backend/main.py:161-164 | the given keys, and no other, go from all three maps |
| RateLimiter.InboundLimiter.Touch | backend/main.py:169-174 | the caller's bucket is found or made and refilled, and the caller is seen now |
| RateLimiter.InboundLimiter.SpendFrom | backend/main.py:176-180 | admits and takes one token if there is one, else reports the wait and takes nothing |
| RateLimiter.InboundLimiter.Consume | backend/main.py:167-180 | the whole call, with its sweep in the middle, is the step that the run theorems are about |
| RateLimiter.SweepCommutes | backend/main.py:156-180 | a sweep never forgets the client being served, so spending before or after it is the same |
| RateLimiterRuns.EvictionInvisible | backend/main.py:140-180 | if rate times stale age covers the burst, every timed run of calls by any clients gets the same decisions, waits and token counts as from a limiter that never forgets |
| RateLimiterRuns.EvictionInvisibleIff | backend/main.py:140-180 | the decisions agree on every timed run if and only if rate times stale age covers the burst |
| RateLimiterRuns.BurstWithinTwentyWindows | backend/config.py:343-346 | a burst of at most twenty quotas, as shipped, meets that condition |
| RateLimiterRuns.AdmissionBound | backend/main.py:156-180 | under that condition, in every run, over every stretch of it, one client is admitted at most capacity plus rate times the stretch's length, across evictions |
| RateLimiterRuns.AdmissionBoundIff | backend/main.py:156-180 | the bound holds for every client over every stretch of every timed run if and only if rate times stale age covers the burst |
| RateLimiterRuns.CallerStays | backend/main.py:167-180 | a call never evicts its own key |
| RateLimiterWaits.WaitIsHonest | backend/main.py:174-180 | in any timed run, after a denied call and with no call of the client in between, its next call is admitted once the reported wait is over, and denied before, unless it has been silent for the stale age |
| RateLimiterWaits.WaitHonestIff | backend/main.py:156-180 | the reported wait is exact in every timed run if and only if rate times stale age is at least one token |
| RateLimiterWaits.WaitsIfDenied | backend/main.py:176-180 | a call is told to wait exactly if it is denied |
| RateLimiterWaits.LeftIsLeft | backend/main.py:176-180 | the tokens a call reports left are exactly how many more calls the client can make at once |
| RateLimiterWaits.NewClientHasBurst | backend/main.py:145-154 | a client not yet known gets exactly its burst at once |
| RateLimiterWaits.TrackedAreRecent | backend/main.py:156-165 | after any timed run a client still tracked has been silent for less than the stale age and a minute |
| RateLimiterWaits.SettingsMean | backend/main.py:145-159 | one window earns the quota, the burst is the capacity, and the stale age is twenty windows but at least five minutes; settings below one count as one |
| TreeBuilder.Tree.constructor | extract_md.py:51-54 | an empty tree with the cursor at its root |
| TreeBuilder.Tree.HandleStartTag | extract_md.py:56-61 | a void element is added to the cursor's children; any other is also entered |
| TreeBuilder.Tree.HandleStartEndTag | extract_md.py:63-66 | a childless element is added and the cursor stays |
| TreeBuilder.Tree.Climb | extract_md.py:69-71 | the climb ends, at the innermost open element with the tag, or at the root if there is none |
| TreeBuilder.Tree.HandleEndTag | extract_md.py:68-73 | that element and all inside it are finished and the cursor goes to its parent; the path to the cursor still holds only last children and no void element |
| TreeBuilder.Tree.HandleData | extract_md.py:75-76 | the text is added to the cursor's children |
| TreeBuilderRuns.BuilderUndoesSerializer | extract_md.py:50-76 | from any state, the events of any forest whose void and self-closing elements are childless append exactly that forest and leave the cursor where it was |
| TreeBuilderRuns.DocumentRoundTrip | extract_md.py:50-76 | from the empty tree the whole document comes back |
| TreeBuilderRuns.DocumentOrder | extract_md.py:50-76 | for any events, even unbalanced, the document's elements and texts, in document order, are those of the events |
| TreeBuilderRuns.DocumentText | extract_md.py:75-76 | for any events the in-order text of the tree is all data events joined |
| TreeBuilderRuns.EndTagClosesInnermost | extract_md.py:68-73 | an end tag changes nothing exactly when no open element has its tag; else the innermost such closes and everything above stays |
| TreeBuilderRuns.VoidNeverOpen | extract_md.py:15-61 | no event sequence puts the cursor inside a void element, so a void element's end tag changes nothing |
| TreeBuilderRuns.TextAfterTag | extract_md.py:15-61 | text after a start tag is its sibling for exactly the seven void tags by name, and inside it for any other |
| TreeReading.ReadIsDocument | extract_md.py:18-25 | at any moment, reading the children of the node objects from the root down gives exactly the document |
| TreeReading.Feed | extract_md.py:50-76 | any events given to their handlers leave the tree they stand for |
| TreeReading.DescendantsInOrder | extract_md.py:31-35 | after any events, even unbalanced, the nodes that `descendants` yields from the root are those of the start tags, in order, and the texts among the children are the data, in order |
| KvBlob.ParseKvBlob | tools/crypto_latency_harness.py:152-201 | terminates on every text with every index in range, with the dictionary of the bindings scanned |
| KvBlob.ScanBinding | tools/crypto_latency_harness.py:163-195 | one turn: the next raw binding and where it ends, or the end of the scan |
| KvBlob.ScanValue | tools/crypto_latency_harness.py:176-195 | a brace block or a non-space token, to its end |
| KvBlob.ScanBlock | tools/crypto_latency_harness.py:177-190 | stops where the block scan of the specification does |
| KvBlob.BlockRunMeaning | tools/crypto_latency_harness.py:177-190 | the block scan stops at the first place where the braces balance, or at the end of the text |
| KvBlob.PrintExtra | tools/crypto_latency_harness.py:518-523 | the pairs that have a value, as `k=v`, in order, joined by spaces |
| KvBlob.PresentIs | tools/crypto_latency_harness.py:518-522 | every pair with a value comes out, key as key and value as value, at the place of the pairs with a value before it, and nothing else |
| KvBlob.PrintParseIff | tools/crypto_latency_harness.py:152-201 | printing bindings and scanning them gives back exactly those bindings, in order, if and only if keys and values are of the printable shapes |
| KvBlob.ParseIsPrintable | tools/crypto_latency_harness.py:152-201 | whatever is scanned from any text is printable |
| KvBlob.ParsePrintParse | tools/crypto_latency_harness.py:152-201 | what is scanned from any text survives printing and scanning again |
| KvBlob.LastOneWins | tools/crypto_latency_harness.py:198-200 | the dictionary holds for each key the value of its last binding, and no other key |
| KvBlob.KeyEnds | tools/crypto_latency_harness.py:168-173 | a blank or a tab after a key ends the scan, whatever follows |
| KvBlob.KeyReads | tools/crypto_latency_harness.py:168-195 | a key without blank, tab or equals sign is read up to its equals sign |
| KvBlob.NestedBlocksRead | tools/crypto_latency_harness.py:176-190 | a value of properly nested braces, of any depth and text, is read whole, and the scan goes on after it |
| StageSamples.Bag.Add | tools/crypto_latency_harness.py:216-229 | missing and negative samples are dropped; the bag stays the last 5000 of the accepted ones |
| StageSamples.Bag.Percentiles | tools/crypto_latency_harness.py:231-249 | the report on the last 5000 accepted samples |
| StageSamples.AddAll | tools/crypto_latency_harness.py:216-229 | after any run of additions the bag is the last 5000 accepted samples in arrival order |
| StageSamples.SortPermutes | tools/crypto_latency_harness.py:234 | sorting orders the samples and keeps each as often as it was there |
| StageSamples.HalfEvenNearest | tools/crypto_latency_harness.py:238-239 | rounding is to the nearest integer, ties to the even one |
| StageSamples.PercentileIsOrderStatistic | tools/crypto_latency_harness.py:237-239 | the value read for a percentage is a sample of the bag; no more than its index lie below it, more than its index are at most it, and the index is the rounded share less one, held to the bag |
| StageSamples.MedianSplits | tools/crypto_latency_harness.py:244 | at least half of the bag is at most the median and at least half is at least it |
| StageSamples.ReportOrdered | tools/crypto_latency_harness.py:241-249 | for every nonempty bag min <= p50 <= p90 <= p95 <= p99 <= max, with the bag's count |
| StageSamples.ReportIs | tools/crypto_latency_harness.py:231-249 | to the nearest tenth, min and max are the least and greatest sample, p50 is halfway between the two in the middle, and p90, p95 and p99 are each the sample with the rounded share of the others before it |
| StageSamples.LastOnesAre | tools/crypto_latency_harness.py:228-229 | the window is the end of what was accepted, all of it up to the limit |
| SingleFlight.Process.CallSummary | backend/api/routes_dataset.py:1414-1418 | a caller returns a cached value still fresh, else waits for the lock |
| SingleFlight.Process.LockAcquired | backend/api/routes_dataset.py:1418-1425 | with the lock it looks again, and returns what another caller just cached, or starts the scan |
| SingleFlight.Process.ScanDone | backend/api/routes_dataset.py:1424-1431 | the scan's result, or an empty one if it raised, is cached with its time and returned, and the lock is free |
| SingleFlight.StepKeepsInv | backend/api/routes_dataset.py:1411-1431 | what every step between two awaits keeps |
| SingleFlight.SingleFlightSafe | backend/api/routes_dataset.py:1411-1431 | in every interleaving of any number of callers at most one scan is in flight, each scan starts at least one TTL after the one before ended, and every value returned is the caller's own scan's or a cached one younger than the TTL when looked up |
| SingleFlight.ScanBudget | backend/api/routes_dataset.py:1356-1359 | n finished scans take at least n - 1 TTLs |
| SingleFlight.NoDeadlock | backend/api/routes_dataset.py:1411-1431 | while a caller has not returned, some step other than a new call can be taken |
| SingleFlight.EveryoneReturns | backend/api/routes_dataset.py:1411-1431 | with no new calls a run takes a bounded number of steps, and where no step is left to take, and only there, every caller has returned |
| SingleFlightEvents.ReturnsFindings | backend/api/routes_dataset.py:1411-1431 | in every interleaving a caller that scanned returns what its own scan found, nothing if that raised; any other what the last scan to end before it looked had found, less than ten minutes earlier |
| SingleFlightEvents.ScansFarApart | backend/api/routes_dataset.py:1418-1431 | in every interleaving each scan was started by its caller taking the lock, with no other ending under it, ten minutes or more after every scan that had ended |
| ProfileHistory.Store.CreateProfile | backend/api/routes_discovery_profiles.py:394-474 | the outcome and both tables and the loader after a create, with its refusals |
| ProfileHistory.Store.EditRow | backend/api/routes_discovery_profiles.py:485-527 | the field-by-field edits and whether they call for a reload and a snapshot |
| ProfileHistory.Store.UpdateProfile | backend/api/routes_discovery_profiles.py:477-579 | the outcome and the state after an update |
| ProfileHistory.Store.RestoreVersion | backend/api/routes_discovery_profiles.py:671-758 | the outcome and the state after a restore |
| ProfileHistory.Store.CommitRow | backend/models/database.py:7488-7493 | latest flags cleared and one snapshot added, or nothing at all if its number is taken |
| ProfileHistory.Store.LoaderReload | backend/services/discovery_profile_loader.py:600-608 | unloads, then loads; a failure leaves no runtime |
| ProfileHistory.Store.SetActive | backend/api/routes_discovery_profiles.py:358-382 | the chosen profile and no other is active, and the loader names it |
| ProfileHistory.Store.ReloadProfile | backend/api/routes_discovery_profiles.py:610-640 | the state after a reload, refused for a disabled profile |
| ProfileHistory.Store.DeleteProfile | backend/api/routes_discovery_profiles.py:582-607 | the row, its snapshots and its runtime are gone |
| ProfileHistoryRuns.ReachableHistories | backend/api/routes_discovery_profiles.py:429-735 | after every run, each profile has exactly one snapshot for each number from 1 to its live version; exactly the last is latest and equals the live row in every snapshotted field; at most one profile is active |
| ProfileHistoryRuns.ApplyKeepsInv | backend/api/routes_discovery_profiles.py:358-758 | every handler keeps that, from any state that has it |
| ProfileHistoryRuns.HistoryGrows | backend/api/routes_discovery_profiles.py:543-575 | version numbers never go down and rise, by one, exactly on a restore or a committed change of source; earlier snapshots stay, latest flags aside |
| ProfileHistoryRuns.RestoreIs | backend/api/routes_discovery_profiles.py:684-706 | a restore succeeds exactly for the numbers 1 to the live version, is never ambiguous, and brings back the snapshot's source, class name, name, description, configuration, schema and kind |
| ProfileHistoryRuns.RestoreUndoesUpdate | backend/api/routes_discovery_profiles.py:696-706 | restoring the number before a source change brings the whole body back, two numbers later, exactly if the kind was not empty |
| ProfileHistoryRuns.MetadataEditRefusedIff | backend/api/routes_discovery_profiles.py:543-577 | an update is refused by the table exactly when it calls for a snapshot and leaves the source alone; rows and snapshots are then unchanged |
| ProfileHistoryRuns.UpdateIs | backend/api/routes_discovery_profiles.py:529-577 | on a reachable profile an update commits its edits, is refused after touching the loader, or does nothing, and which of these |
| ProfileHistoryRuns.UpdateCoherentIff | backend/api/routes_discovery_profiles.py:529-577 | an update keeps rows and runtimes together (loaded exactly with a runtime, of an enabled row's own source and configuration, and no runtime without a row) exactly when it is none of the named edits |
| ProfileHistoryRuns.OtherOpsCoherent | backend/api/routes_discovery_profiles.py:358-758 | every other handler keeps that |
| ProfileHistoryRuns.ReachableCoherent | backend/api/routes_discovery_profiles.py:358-758 | over every run in which no update is such an edit, a profile says loaded exactly when it has a runtime, of its own source and configuration, and every runtime is an enabled profile's |
| ProfileHistoryRuns.ConfigEditDrifts | backend/api/routes_discovery_profiles.py:503-506 | a concrete run in which a refused edit leaves the runtime with another configuration than its row |
| ProfileHistoryRuns.EnableEditDrifts | backend/api/routes_discovery_profiles.py:524-541 | a concrete run in which a refused enabling leaves a live runtime behind a disabled row |
| ProfileHistoryRuns.ActiveAgreesIff | backend/api/routes_discovery_profiles.py:582-607 | the loader's active slug stays that of the active row under every handler except the deletion of the active profile |
| ProfileHistoryRuns.DeleteLeavesActive | backend/api/routes_discovery_profiles.py:603-605 | a concrete run: create, activate, delete, and the loader still names the profile |
| ProfileHistoryRequests.CreateAcceptedIff | backend/api/routes_discovery_profiles.py:396-419 | a create goes through exactly if its slug is valid and free and its Python source valid |
| ProfileHistoryRequests.CreateStores | backend/api/routes_discovery_profiles.py:429-471 | the created row holds each requested field, the class found, version 1, inactive; its one snapshot records the row |
| ProfileHistoryRequests.CreateLoads | backend/api/routes_discovery_profiles.py:421-427 | it is loaded exactly if enabled, of Python and loading, and its status says so |
| ProfileHistoryRequests.UpdateAcceptedIff | backend/api/routes_discovery_profiles.py:489-501 | a change of source is accepted unless the source has to be valid and is not |
| ProfileHistoryRequests.UpdateStores | backend/api/routes_discovery_profiles.py:484-575 | with a new source each field is as requested or as it was, one version on, and one more snapshot records the row |
| ProfileHistoryRequests.UpdateLoads | backend/api/routes_discovery_profiles.py:529-541 | what the loader holds and the status says after it |
| ProfileHistoryRequests.OtherUpdatesStoreNothing | backend/api/routes_discovery_profiles.py:543-577 | an update that leaves the source alone changes no row and no snapshot |
| ProfileHistoryRequests.OtherUpdatesLoad | backend/api/routes_discovery_profiles.py:529-541 | and exactly what it does to the loader all the same |
| ProfileHistoryRequests.RestoreStores | backend/api/routes_discovery_profiles.py:696-736 | each restored field is the snapshot's, everything else as it was, one version on, and one more snapshot records the row |
| ProfileHistoryRequests.RestoreLoads | backend/api/routes_discovery_profiles.py:738-749 | what the loader holds and the status says after it |
| ProfileHistoryRequests.ReloadLoads | backend/api/routes_discovery_profiles.py:617-641 | refused for a disabled profile; else a runtime of its own or none, and the status says which |
| ProfileHistoryRequests.ActivateMarks | backend/api/routes_discovery_profiles.py:361-376 | the chosen profile and no other is active, the loader names it, and nothing else changes |
| ProfileHistoryRequests.DeleteForgets | backend/api/routes_discovery_profiles.py:603-605 | row, snapshots and runtime are gone and nothing else is |
| SourceRegistry.Registry.LoadSource | backend/services/data_source_loader.py:331-382 | a source that loads replaces the slug's runtime; one that does not leaves the map as it was |
| SourceRegistry.Registry.Unload | backend/services/data_source_loader.py:384-388 | the slug's runtime, and no other, is gone |
| SourceRegistry.Registry.CreateSource | backend/api/routes_data_sources.py:825-904 | the outcome, the row and the runtimes after a create |
| SourceRegistry.Registry.NextSlug | backend/api/routes_data_sources.py:925-937 | the slug after an update, or why it is turned away |
| SourceRegistry.Registry.NextSource | backend/api/routes_data_sources.py:967-1000 | the source, version and class name after an update, or why it is turned away |
| SourceRegistry.Registry.UpdateSource | backend/api/routes_data_sources.py:908-1036 | the outcome, the rows and the runtimes after an update, renames included |
| SourceRegistry.Registry.DeleteSource | backend/api/routes_data_sources.py:1040-1056 | row and runtime gone, a tombstone for a system source |
| SourceRegistry.Registry.ReloadSource | backend/api/routes_data_sources.py:1060-1105 | loaded afresh, marked as failed, or unloaded if disabled |
| SourceRegistry.Registry.StartRun | backend/services/data_source_runner.py:506-554 | an enabled source gets a runtime if it has none; a cached one is used whatever it is of |
| SourceRegistry.Registry.EndRun | backend/services/data_source_runner.py:636-842 | the row, as it then is, says loaded if all went well and it is still enabled, else error |
| SourceRegistry.Registry.RunSource | backend/api/routes_data_sources.py:1108-1128 | a run with nothing in between is its two halves; a load that fails inside it is an error result, not a refusal |
| SourceRegistry.Registry.PreviewSource | backend/services/data_source_runner.py:974-1010 | a preview loads a missing runtime without asking whether the source is enabled, and writes no status |
| SourceRegistry.Registry.RefreshAll | backend/services/data_source_loader.py:413-502 | every enabled row loaded or marked as failed, every disabled one unloaded, every other runtime dropped |
| SourceRegistryRuns.RegistryAgrees | backend/api/routes_data_sources.py:825-1150 | over every sequence of create, update, rename, delete, reload, preview and run, runs interleaved with the rest at their fetch, none of the first exception below: slugs unique, every runtime belongs to an enabled row, loaded means a runtime and unloaded means none; and with none of the second, the runtime of a loaded row is of its own source and configuration |
| SourceRegistryRuns.ApplySoundIff | backend/services/data_source_runner.py:506-993 | each handler keeps slugs, statuses and runtimes sound, except exactly a preview of a disabled source that loads and a run that ends on a source disabled, or left without a runtime, under it |
| SourceRegistryRuns.ApplyOwnIff | backend/services/data_source_runner.py:521-753 | each handler leaves every loaded row with a runtime of its own source and configuration, except exactly a run that succeeds on a cached runtime of another |
| SourceRegistryRuns.RunRevives | backend/services/data_source_runner.py:548-753 | a concrete run: new code that does not load, then a run, and the row says loaded with the new code beside the old runtime |
| SourceRegistryRuns.DisabledUnderRun | backend/services/data_source_runner.py:639-838 | a concrete run: a source disabled while its run fetches ends disabled and in error |
| SourceRegistryRuns.PreviewLeavesRuntime | backend/services/data_source_runner.py:986-993 | a concrete run: a disabled source, previewed, says unloaded and has a runtime |
| SourceRegistryRuns.RefreshHeals | backend/services/data_source_loader.py:442-500 | a refresh restores both from any state with unique slugs |
| SourceRegistryRuns.UpdateVersionIff | backend/api/routes_data_sources.py:983-1000 | a refused update changes nothing; an accepted one raises the version by one exactly when the source changes |
| SourceRegistryRuns.VersionCounts | backend/api/routes_data_sources.py:995-998 | over any run that does not delete it, a source's version counts the changes of its code |
| SourceRegistryRuns.RenameMovesRuntime | backend/api/routes_data_sources.py:1012-1025 | after a rename of an enabled source the old slug has no runtime and the new one has one exactly if the source loads; no other slug's appears or goes |
| SourceRegistryRequests.CreateAcceptedIff | backend/api/routes_data_sources.py:825-872 | a create goes through exactly if its slug is valid and free, there is a source, and it is valid |
| SourceRegistryRequests.CreateStores | backend/api/routes_data_sources.py:874-902 | the created row holds each requested field; it is loaded exactly if enabled and loading, and says so |
| SourceRegistryRequests.UpdateAcceptedIff | backend/api/routes_data_sources.py:911-994 | an update goes through exactly if the source exists and is not locked, its new slug is valid and free, there is a source, and it is valid where it has to be; else nothing changes |
| SourceRegistryRequests.UpdateStores | backend/api/routes_data_sources.py:925-1010 | slug, kind, configuration and enabled flag are the requested ones where given and the former ones otherwise |
| SourceRegistryRequests.UpdateSources | backend/api/routes_data_sources.py:967-1023 | and which source, version and class name the row ends with |
| SourceRegistryRequests.UpdateLoads | backend/api/routes_data_sources.py:1012-1032 | if the update calls for a reload, an enabled source that loads has a runtime of its new source and configuration, one that does not keeps what its slug had, a disabled one has none, and the status says which; else nothing is touched |
| SourceRegistryRequests.ReloadLoads | backend/api/routes_data_sources.py:1067-1105 | the same for a reload, told of the row as it is |
| SourceRegistryRequests.DeleteForgets | backend/api/routes_data_sources.py:1046-1054 | row and runtime are gone, a system source leaves a tombstone, and nothing else changes |
| SourceRegistryRequests.RefreshLoads | backend/services/data_source_loader.py:442-500 | after a refresh each row says loaded, error or unloaded as it should, with a runtime of its own, the one it had, or none |
| SourceRegistryRequests.RunStartLoads | backend/services/data_source_runner.py:510-554 | a run of an enabled source works with the runtime there is, else a new one of the row's own; a disabled one is refused |
| SourceRegistryRequests.RunEndStores | backend/services/data_source_runner.py:636-842 | its end writes one of two statuses, and nothing else, to a row that is still there |
| SourceRegistryRequests.RunStores | backend/api/routes_data_sources.py:1108-1128 | both together, with nothing in between |
| SourceRegistryRequests.PreviewLoads | backend/services/data_source_runner.py:974-1010 | a preview works with the same runtime, whether the source is enabled or not, and writes nothing to the table |
| ProcessTree.BuildChildren | gui.py:181-188 | each process's children in snapshot order |
| ProcessTree.MapsAgree | gui.py:181-188 | with one entry per process the child lists and the parent links say the same |
| ProcessTree.ParentMapIs | gui.py:185-188 | with one entry per process each one's parent is the one its entry names |
| ProcessTree.Walk | gui.py:191-196 | with the root not its own ancestor the queue loop ends, with no process twice, each after its parent |
| ProcessTree.TerminateTree | gui.py:181-205 | the root and its descendants, and nothing else, are each killed once, every process before its parent |
| ProcessTree.BreadthFirst | gui.py:191-196 | at every moment the processes found stand in order of their distance below the root, and the queue spans at most two generations |
| ProcessTree.KillOrder | gui.py:198-205 | reversing the order found gives that |
| ProcessTree.TerminatesIff | gui.py:191-196 | with one parent per process the queue loop ends if and only if the root is not its own ancestor |
| ProcessTree.TwoCycleNeverEnds | gui.py:191-196 | a concrete snapshot: two processes recorded as each other's parent, and the loop from either never ends |
| ProcessTree.Lineage | gui.py:515-530 | for every parent map, cyclic or not, the walk ends with the least set that holds the own process and is closed under known non-zero parents |
| ProcessTree.LineageMapIs | gui.py:517-525 | a process is known if some entry for it parses with a positive number, and its parent is that of the last such entry |
| WorkerPlanes.Launcher.SpawnWorkerPlane | gui.py:1889-1898 | the plane's process is entered, or nothing changes if the spawn raises |
| WorkerPlanes.Launcher.TerminateWorkerPlane | gui.py:1912-1935 | the plane's entry is gone; its process was stopped if it was running |
| WorkerPlanes.Launcher.Reconcile | gui.py:1943-1966 | one plane's turn does exactly its action: stop, spawn or nothing |
| WorkerPlanes.Launcher.ReconcileAll | gui.py:1942-1966 | a pass over distinct planes is the actions decided before it, in order |
| WorkerPlanes.Launcher.EnsureWorkerPlanesAlive | gui.py:1937-1966 | nothing unless supervision is on and the backend is up; else that pass |
| WorkerPlanes.Launcher.TakeFlags | gui.py:2250-2260 | the flags of the answer replace the known ones, with their defaults |
| WorkerPlanes.Launcher.HealthPolled | gui.py:2249-2261 | a poll takes the flags over first, so its pass already follows them |
| WorkerPlanes.PassOn | gui.py:1942-1966 | in whatever order the planes come, each ends as its own action alone leaves it |
| WorkerPlanes.PassReconciles | gui.py:1937-1966 | after a pass a plane is live exactly when it is enabled and was live or could be spawned, and a stopped one is no longer in the table |
| WorkerPlanes.SecondPassIdle | gui.py:1937-1966 | a second pass with nothing changed spawns and stops nothing |
| WorkerPlanes.ActionsWarranted | gui.py:1938-1956 | a pass spawns only with supervision on, the backend up, and an enabled plane that is not running; it stops only a disabled plane that is |
| WorkerPlanes.PollFollowsPayload | gui.py:306-313 | after a poll the gated planes run as the flags it carried say, the core planes always |
| WorkerPlanes.FirstPassRuns | gui.py:306-313 | with the flags a launcher starts with, everything runs but news and discovery |
| WorkerPlanes.WithoutWorkersNone | gui.py:738 | without the workers switch no run ever has a worker process |
| WorkerPlanes.EveryPollReconciles | gui.py:2249-2261 | at any moment of any run, after any crashes and toggles, a poll with the backend up and no failed spawn leaves exactly the enabled planes running |
| SupervisionThreads.Supervision.EnterPoll | gui.py:2242-2245 | a poll is turned away while another is under way, else marks itself |
| SupervisionThreads.Supervision.FetchOk | gui.py:2249-2260 | an answer's flags are taken over |
| SupervisionThreads.Supervision.FetchFails | gui.py:2263-2267 | a poll whose fetch raises goes straight to its end |
| SupervisionThreads.Supervision.EnterPass | gui.py:1968-1974 | a pass is turned away while another is under way, else marks itself and starts |
| SupervisionThreads.Supervision.ReconcileNext | gui.py:1942-1966 | one plane's turn of a pass |
| SupervisionThreads.Supervision.LeavePass | gui.py:1977-1979 | the pass's flag is down again |
| SupervisionThreads.Supervision.LeavePoll | gui.py:2265-2267 | the poll's flag is down again |
| SupervisionThreads.StepKeepsInv | gui.py:1937-2267 | what every step of any interleaving keeps: flags up exactly while someone is inside, and how far each plane has come under a pass |
| SupervisionThreads.AtMostOneInside | gui.py:1968-1979 | in any interleaving of any number of threads at most one is inside a poll and at most one inside a pass, and no flag is left up when none is |
| SupervisionThreads.WhoIsTurnedAway | gui.py:2242-2261 | a new poll is turned away exactly while another is under way; one that has fetched is never turned away from its pass |
| SupervisionThreads.PassAsIfAlone | gui.py:1937-1979 | a pass interleaved with other threads, process exits and backend changes leaves every plane that did not exit under it as the uninterrupted pass would |
| SupervisionThreads.ChangesWarranted | gui.py:1937-1966 | in any interleaving a plane comes up only with supervision on and while enabled, and goes down only if it exited or is disabled |
| SupervisionRuns.PassFromEntry | gui.py:1937-1979 | in any interleaving, told from the state a fetched thread enters its pass in: with supervision on and the backend up, at its end every plane that did not exit meanwhile is as an uninterrupted pass over the processes and flags at entry leaves it; otherwise none has come up or been stopped |
| SupervisionRuns.FlagsInForce | gui.py:2249-2260 | in any interleaving the flags in force are those of the last answer fetched, with their defaults, or the defaults before the first; an answer without flags changes none |
| SupervisionRuns.BackendInForce | gui.py:1940-1941 | and the backend is as it was last seen |
| SupervisionRuns.FailedPollNeverPasses | gui.py:2247-2267 | a poll whose fetch fails never comes to supervise |
| LauncherHealth.Monitor.ApplyHealth | gui.py:2275-2280 | an answer makes the backend healthy, counts the poll and forgets the misses |
| LauncherHealth.Monitor.ApplyHealthOffline | gui.py:2309-2319 | a miss is counted, and forgiven if there was an answer and it is the first since or within the grace period |
| LauncherHealth.HealthyIff | gui.py:2275-2319 | over every run of outcomes the backend shows as healthy exactly when it has answered and no miss since the last answer was inexcusable |
| LauncherHealth.OfflineIff | gui.py:2309-2319 | with a clock that never runs back: offline exactly from the second consecutive miss that comes ten seconds or more after the last answer |
| LauncherHealth.SinceLastAnswer | gui.py:2275-2319 | the counter and the time kept are those of the last answer |
| LauncherHealth.StaysOffline | gui.py:2309-2319 | no number of further misses brings the backend back |
| LauncherHealth.PollsAreAnswers | gui.py:2278 | the poll counter counts the answers |
| PositionMarks.PositionMarkState.RegisterPosition | backend/services/position_mark_state.py:90-122 | the order's token and terms are set, its price kept, and it is added to the token's watchers |
| PositionMarks.PositionMarkState.UnregisterPosition | backend/services/position_mark_state.py:124-130 | mark and index entry under the mark's own token are gone, an emptied token with them |
| PositionMarks.PositionMarkState.OnPriceUpdate | backend/services/position_mark_state.py:135-177 | exactly the token's watchers are repriced, under one new number; nothing if there are none |
| PositionMarks.PositionMarkState.SyncWith | backend/main.py:739-782 | both loops of a sync: qualifying rows registered, then every mark of no open order dropped |
| PositionMarks.PositionMarkState.Prune | backend/main.py:780-782 | whatever order the marks are visited in, the result is the same |
| PositionMarks.PruneOne | backend/services/position_mark_state.py:124-130 | dropping one more order is dropping it with the others |
| PositionMarkRuns.SyncKeys | backend/main.py:739-782 | after a sync the marked orders are the qualifying open ones and the previously marked that are still open |
| PositionMarkRuns.MarkedAfterSync | backend/main.py:742-782 | an order is marked after a sync exactly if it is open and was marked already or has a token and a positive notional |
| PositionMarkRuns.SyncMarks | backend/main.py:742-782 | after a sync each qualifying order has its stored token and terms and the price it had; other open orders keep their marks |
| PositionMarkRuns.SyncTwice | backend/main.py:721-782 | a second sync with the same orders changes nothing, marks, index or numbering |
| PositionMarkRuns.EverySync | backend/main.py:721-782 | at every sync of every run with any lost notifications: marks for open orders only, for every open order with a token and positive notional, and syncing again changes nothing |
| PositionMarkRuns.RunSound | backend/services/position_mark_state.py:90-130 | after every run every order is among its token's watchers and no token is kept without one |
| PositionMarkRuns.PriceReachesHolders | backend/services/position_mark_state.py:135-177 | after every run a price reaches every mark that holds its token |
| PositionMarkRuns.PriceRevalues | backend/services/position_mark_state.py:164-176 | a price values a position at notional over entry price, times the price; gain, percentage and edge difference follow from that; the mark shows the quote under its number and keeps token and terms |
| PositionMarkRuns.PriceWithoutEntry | backend/services/position_mark_state.py:173-176 | without a positive entry price the gain stays what it was |
| PositionMarkRuns.PricesNumbered | backend/services/position_mark_state.py:146-158 | over every run the counter counts the prices that reached an order, and no mark is numbered beyond it |
| PositionMarkRuns.RegisterExactIff | backend/services/position_mark_state.py:101-122 | registering keeps the index exact exactly when the order is new or keeps its token |
| PositionMarkRuns.SyncExactIff | backend/main.py:742-782 | a sync keeps the index exact exactly when no stored order has changed its token |
| PositionMarkRuns.PriceMovesExactly | backend/services/position_mark_state.py:145-177 | as long as no order changes its token, in every run a price moves exactly the marks that hold its token |
| PositionMarkRuns.StaleEntry | backend/services/position_mark_state.py:101-130 | a concrete run in which a price of the old token moves an order, and the old entry outlives it |
| Slug.CleanIsJoinedWords | backend/api/routes_ai.py:41-42 | cleaning keeps the words of any text, in order, joined by single underscores, and nothing else |
| Slug.SlugOfWords | backend/api/routes_ai.py:41-49 | the slug of any text is its words, with the default in place of none or before too few characters and `s_` before a digit; only what lies beyond fifty characters, and an underscore at the cut, is lost |
| Slug.ShapedIsValid | backend/api/routes_ai.py:41-49 | the text before the repair branches is already a valid slug |
| Slug.NothingToRepair | backend/api/routes_ai.py:50-56 | the repair branches leave a valid slug alone |
| Slug.RepairsAre | backend/api/routes_ai.py:50-55 | what the repair branches do to an empty text, one that does not open with a letter, and one that ends in neither letter nor digit |
| Slug.SlugAlwaysValid | backend/api/routes_data_sources.py:61-71 | for every text and every valid default prefix the slug passes the data-source validator unchanged, and the repair branches are never needed |
| Slug.SlugKeepsWords | backend/api/routes_ai.py:39-56 | words that already join to a valid slug are the slug |
| Slug.SlugFixedPoints | backend/api/routes_ai.py:39-56 | exactly the valid slugs without adjacent underscores are left alone |
| Slug.SlugIdempotentIff | backend/api/routes_ai.py:39-56 | slugging twice is slugging once for every text exactly when the default prefix has no adjacent underscores |
| PythonLiteral.EscapeIsOnePass | backend/api/routes_ai.py:234-240 | the four successive replacements are one character-by-character pass |
| PythonLiteral.LiteralReadsBackIff | backend/api/routes_ai.py:233-241 | in front of any further text, the literal read by section 2.4.1 of the Python Language Reference gives the value back and ends where it was closed, exactly when the value has no NUL and an empty one is not followed by a quote |
| PythonLiteral.LiteralOneLine | backend/api/routes_ai.py:238-239 | the literal has no raw line break |
| PythonLiteral.LiteralInjective | backend/api/routes_ai.py:233-241 | different values print differently |

## Left out

General

* Numbers are exact: times, tokens, prices and percentages are reals, integers are unbounded, and
  floating-point rounding and NaN samples are not modelled.
* Error-message texts, log lines, timestamps of rows and the random drawing of ids; an id is a
  parameter that is not in use yet.
* Handlers are atomic up to their commit: two requests racing between their reads and their commits
  are not modelled, except that a run of a data source is interleaved with everything else at its fetch.

By piece

- RateLimiter.InboundLimiter.Consume: one clock reading per call, where the code reads the bucket's
  clock and the loop's clock in turn; the lock objects hold no state, because a call does not yield
  while it holds one.
- KvBlob.ParseKvBlob: values stay raw strings; evaluating them as literals is left out.
- TreeBuilder.Tree.HandleData: starts from the parser's events; tokenizing HTML and character
  references, and the renderers over the finished tree, are left out.
- StageSamples.Bag.Add: a missing value and one that does not convert to a number are the same `None`.
- SingleFlight.Process.ScanDone: cancellation of a waiting or scanning caller; the scan itself is an
  abstract step that returns or raises.
- ProfileHistory.Store.CreateProfile: slug folding and name stripping (a request carries them folded);
  missing configuration and schema columns count as empty; tombstones of deleted system profiles,
  seeding, and failures of a load other than the one the handlers catch.
- SourceRegistry.Registry.CreateSource: names, descriptions, source keys, retention and schema; the
  source a template builds is a parameter; rows already spell their slug and kind in normal form.
- SourceRegistry.Registry.EndRun: the writeback is one step; the records and run entries it writes,
  retention, the events it sends, lost database connections and their retries, and a failing commit.
- SourceRegistry.Registry.RefreshAll: the error texts that a refresh compares before it writes a status.
- ProcessTree.TerminateTree: opening and killing a process may fail without effect on the rest, and
  nothing happens outside Windows.
- WorkerPlanes.Launcher.TerminateWorkerPlane: a process that survives being stopped; stopping counts
  as done, as it does in the code.
- WorkerPlanes.Launcher.SpawnWorkerPlane: environment, command line and log streaming of the process;
  a failure after the process was entered.
- SupervisionThreads.Supervision.EnterPass: restarting the services, which replaces the table of
  processes, does not overlap a pass.
- LauncherHealth.Monitor.ApplyHealth: what else an answer updates on screen; two readings of the clock
  for one miss are one.
- PositionMarks.PositionMarkState.SyncWith: a row comes with the token and entry price its fallbacks
  resolve to; a sync is one step, so a price that arrives in its middle counts as before or after it;
  subscriptions and the callback that pushes marks to the frontend.
- PositionMarks.PositionMarkState.RegisterPosition: the direction comes in lower case.
- Slug.SlugAlwaysValid: Unicode case folding and stripping are any function that leaves text over
  `[a-z0-9_]` alone.
- PythonLiteral.LiteralReadsBackIff: the reader does not interpret the numeric and named escapes, which
  the printer never emits; the templates that pass a literal through a regular-expression replacement,
  which reads backslashes again, are not part of this model.
- Settings tables, prompts, documentation dictionaries, plain create-read-update-delete routes, health
  payload shaping and performance counters: they would only add easy members.
