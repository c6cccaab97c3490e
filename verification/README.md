# AegisMesh: verified model of its stateful algorithms

This project models the stateful core of AegisMesh, a service mesh control plane with a Go client
library, and proves what its parts promise. Times and durations are integer nanoseconds, scores,
rates and costs are reals, names in the registry are byte strings. CRC-32C is an uninterpreted
function and the JSON payload codec a pair of functions assumed to round-trip.

- **Durable registry** (`Bytes`, `WalCodec`, `Leases`, `Recovery`, `WalOps`, `WalWriter`,
  `FileRegistry`): the write-ahead log's frame codec and torn-tail replay on bytes, the single
  group-commit writer, the registry object over memory, snapshot and writer with every outcome of
  the disk, and crash recovery over every run, with the exact condition under which it holds. The hypotheses are a clock that never
  goes backwards in lock order, a heartbeat that is one step, and, for plain equality, heartbeats
  that arrive before their lease lapses.
- **In-memory lease table** (`Order`, `ExpiryHeap`, `Registry`, `Watch`): the generation-fenced
  expiry heap and the cached sorted listings agree with a plain scan of the table, and watches lose
  no wake-up.
- **Endpoint health** (`Status`, `StateMachine`, `SlowScore`, `HealthManager`, `ManagerRuns`,
  `HealthStore`): the eject, probe and recover machine over whole runs, slow scoring, the manager
  that runs one such machine per endpoint and whose versions are cache tags, and newest-wins sharing
  through compare-and-swap.
- **Lease fencing** (`LeaseFencing`): registrations and owner heartbeats on the revisioned store.
- **Admission and policy** (`Counting`, `RetryBudget`, `Limiter`, `Policy`, `Picker`): the retry
  budget and the in-flight limiter under every interleaving of their atomic steps, compiled retry
  policies against rewritten dial options, and the prepared picker against its reference.
- **Latency histogram** (`Basics`, `Permutations`, `Histogram`): bucket bounds, sharded and single quantiles and
  their error bound.

Objects that the source updates in place are classes whose methods are proved against functions of
the old state. Code whose point is concurrency is a transition system: a state, atomic actions, and
theorems over all runs. Where the code falls short of a law, the law is stated with the exact
condition: a renewed lease that compaction had dropped is lost by a restart (`Recovery`), a service
name with an inner slash breaks the health versions and a health record without a time makes merging
it again count (`HealthManager`), and an int64 duration that wraps, or retries switched on over a mode
that pinned the attempt count, separates the two policy paths (`Policy`).

The comment on the manager's success rate says zero without requests; the code returns one
(pkg/fault/manager.go:456-460), and the model follows the code.

`dafny verify dfyconfig.toml` checks the whole project.

## Model

| member | source | states |
|---|---|---|
| `Bytes.BigEndianRoundTrip` | pkg/registry/file_registry_v2.go:541-551 | big-endian integers of any width read back |
| `Bytes.BigEndianCanonical` | pkg/registry/file_registry_v2.go:637-660 | whatever bytes are read as an integer are that integer's encoding |
| `Bytes.MostSignificantFirst` | pkg/registry/file_registry_v2.go:541-552 | the first byte of an encoded integer is its most significant one |
| `WalCodec.ParseEncodedHeader` | pkg/registry/file_registry_v2.go:633-678 | an encoded header parses to its record's fields exactly when the shape rules hold, and is refused otherwise |
| `WalCodec.FrameLayout` | pkg/registry/file_registry_v2.go:542-561 | a frame byte by byte: magic, version, kind, both times and the four lengths at their offsets, then service, identifier, address and payload in that order, then the checksum of all that precedes it |
| `WalCodec.FrameReadsBack` | pkg/registry/file_registry_v2.go:572-630 | an encodable record reads back, whatever follows it, if and only if it is valid; otherwise the log is torn there |
| `WalCodec.TornFrame` | pkg/registry/file_registry_v2.go:585-616 | every non-empty strict prefix of a valid frame is reported as torn |
| `WalCodec.AcceptedHeaderIsEncoded` | pkg/registry/file_registry_v2.go:633-678 | accepted header bytes are the encoding of the record they announce |
| `WalCodec.AcceptedFrameIsEncoded` | pkg/registry/file_registry_v2.go:585-630 | accepted bytes are exactly the frame of the record that was read |
| `WalCodec.ReplayOfLog` | pkg/registry/file_registry_v2.go:572-630 | valid records followed by any torn tail replay to exactly those records in order, with their total length as the valid bytes and truncation flagged exactly when the tail is not empty |
| `WalCodec.ReplayIsCanonical` | pkg/registry/file_registry_v2.go:572-630 | for arbitrary bytes, the replayed records are valid and accepted, and re-encode to exactly the valid bytes |
| `WalCodec.TruncationIsStable` | pkg/registry/file_registry_v2.go:338-347 | cutting the file at the valid bytes replays to the same records with no truncation left |
| `WalCodec.CutLog` | pkg/registry/file_registry_v2.go:572-630 | any prefix of a log is a whole number of frames and a torn tail |
| `WalCodec.CrashKeepsPrefix` | pkg/registry/file_registry_v2.go:572-630 | if the first k bytes survive, replay returns exactly the records whose frames lie within them |
| `WalCodec.EncodeRecord` | pkg/registry/file_registry_v2.go:530-562 | the buffer filled in place is the record's frame, stamped with the current time if it has none, and no buffer is returned exactly when a length limit is broken |
| `WalCodec.PutHeader` | pkg/registry/file_registry_v2.go:541-551 | writes the header at its offsets and leaves every byte after it alone |
| `WalCodec.PutBody` | pkg/registry/file_registry_v2.go:552-557 | copies the four fields one after another behind the header |
| `WalCodec.ReadFrame` | pkg/registry/file_registry_v2.go:585-625 | one step of the loop finds what the specification finds at the front of the bytes |
| `WalCodec.ReplayLog` | pkg/registry/file_registry_v2.go:572-630 | the accumulating loop computes the recursive replay: records, valid bytes, truncation and callback failure |
| `Leases.ReplayConcat` | pkg/registry/file_registry_v2.go:350-386 | replaying two logs in turn is replaying their concatenation |
| `Leases.FixedKeyForgetsBase` | pkg/registry/file_registry_v2.go:350-386 | after an operation that fixes a key, what was there before no longer matters |
| `Leases.RenewalsIndependent` | pkg/registry/file_registry_v2.go:350-386 | a run of renewals leaves the same times on any two leases of a key |
| `Leases.ReplayTwice` | pkg/registry/file_registry_v2.go:350-386 | replaying a log over its own result changes nothing, key by key |
| `Leases.ReplayOverMissing` | pkg/registry/file_registry_v2.go:350-386 | replaying a log over a snapshot that lacks a key gives the old result for it or leaves it missing |
| `Recovery.StepKeepsInv` | pkg/registry/file_registry_v2.go:168-296 | every step (register, heartbeat, read sweep, logged sweep, fsync, compaction whole or cut short, crash) keeps memory and the replayed files in agreement on every unexpired lease that no compaction dropped, and the log silent on what memory already says |
| `Recovery.RecoveryIff` | pkg/registry/file_registry_v2.go:135-141 | over every run, load, replay and sweep recover exactly the live unexpired leases if and only if no lease that compaction dropped has been revived by a later heartbeat |
| `Recovery.CrashRecovery` | pkg/registry/file_registry_v2.go:135-141 | with in-time heartbeats, recovery yields exactly the live unexpired leases: same deadlines, epochs and owner tokens |
| `Recovery.CutAgrees` | pkg/registry/file_registry_v2.go:281-296 | a new snapshot under the old log agrees with memory, key by key |
| `Recovery.MidCompaction` | pkg/registry/file_registry_v2.go:281-296 | between the snapshot's rename and the log's reset, the whole old log, an empty one or the mark over the new snapshot all recover exactly the live leases; over the old snapshot the log does so if and only if no dropped lease was revived |
| `Recovery.CompactionCrashLosesNothing` | pkg/registry/file_registry_v2.go:886-907 | in every run, a compaction cut short and then a crash with the log on disk restarts with exactly the live leases |
| `Recovery.PrefixConsistency` | pkg/registry/file_registry_v2.go:819-928 | whatever prefix of the log beyond the fsynced part survives, the restart equals the registry at some earlier point of the run, no older than the surviving log, provided compactions were cut short only over a synced log |
| `Recovery.UnsyncedCutMixes` | pkg/registry/file_registry_v2.go:802-816 | why the proviso: over an unsynced log a crash can recover a mix that the registry never held |
| `Recovery.RevivedLeaseIsLost` | pkg/registry/registry.go:240-267 | the failing family: a lapsed lease dropped by compaction and then renewed is live in memory and missing after a restart |
| `WalOps.OpRoundTrip` | pkg/registry/file_registry_v2.go:493-527 | an operation's record reads back as the operation |
| `WalOps.RecordSays` | pkg/registry/file_registry_v2.go:493-527 | each operation is written under its own kind with its names and times in their own fields |
| `WalOps.LogRecovery` | pkg/registry/file_registry_v2.go:338-386 | if the first bytes of a log survive, restart succeeds and recovers from exactly the operations whose frames lie within them |
| `WalOps.FileRecovery` | pkg/registry/file_registry_v2.go:338-386 | if a crash keeps any bytes that include the fsynced ones, restart succeeds and recovers from whole operations only, at least the fsynced ones |
| `WalOps.DurableRegistry` | pkg/registry/file_registry_v2.go:98-155 | end to end on bytes: over every run with in-time heartbeats and for every surviving file, the restart succeeds and holds the unexpired leases of some point of the run no older than the last fsync |
| `Order.SortedIsUnique` | pkg/registry/registry.go:470-494 | a strictly sorted listing of given names is unique |
| `Order.LessIsBytewise` | pkg/registry/registry.go:470-494 | the order of identifiers is bytewise: one name is before another exactly when it has ended or has the smaller byte where they first differ |
| `ExpiryHeap.RootIsEarliest` | pkg/registry/registry.go:127-142 | the heap's root has the earliest deadline |
| `ExpiryHeap.Push` | pkg/registry/registry.go:497-501 | the entry is added and the heap order kept |
| `ExpiryHeap.Pop` | pkg/registry/registry.go:504-512 | the earliest entry leaves, the rest stay, the heap order is kept |
| `Registry.ListingIsUnique` | pkg/registry/registry.go:470-494 | the table determines a service's listing: two listings at the same time are equal |
| `Registry.CacheIsCurrent` | pkg/registry/registry.go:568-570 | a cached listing equals the plain scan now if and only if the next expiry has not passed |
| `Registry.FreshLocal` | pkg/registry/registry.go:470-494 | a cached listing depends on the records of its own service only |
| `Registry.InsertSorts` | pkg/registry/registry.go:478-486 | ordered insertion keeps a listing in identifier order |
| `Registry.PushKeepsIndex` | pkg/registry/registry.go:497-501 | storing under a new generation keeps every record indexed and makes older heap entries stale |
| `Registry.PopKeepsIndex` | pkg/registry/registry.go:504-512 | popping an entry that is stale or whose record goes keeps every remaining record indexed |
| `Registry.Drained` | pkg/registry/registry.go:352-388 | when the root is not due, no remaining record has lapsed, stale entries notwithstanding |
| `Registry.MemoryRegistry.constructor` | pkg/registry/registry.go:159-164 | an empty, valid registry |
| `Registry.ListingMeans` | pkg/registry/registry.go:470-494 | a listing holds every record of the service whose deadline is after the given time and no other, in byte order of the identifiers |
| `Registry.HeartbeatError` | pkg/registry/registry.go:240-267 | which heartbeats are refused and why: malformed exactly without service, identifier or positive TTL; admitted only with the stored epoch and token where a fence asks for them; mismatched only when one of them differs |
| `Registry.MemoryRegistry.Rebuild` | pkg/registry/registry.go:470-494 | republishes one service with a higher version, a listing equal to the scan and its next expiry |
| `Registry.MemoryRegistry.Store` | pkg/registry/registry.go:609-640 | stores a lease under a new generation, pushes its deadline and republishes exactly its service under the next version |
| `Registry.MemoryRegistry.Register` | pkg/registry/registry.go:172-206 | refuses exactly a registration without identifier, service, address or positive TTL; else the record is stored with a known status, the clock and the given fence, is live at a time t if and only if t < now + ttl, and no other key changes |
| `Registry.MemoryRegistry.ValidateHeartbeat` | pkg/registry/registry.go:240-267 | the error of a heartbeat: bad arguments, not found, or fenced off by epoch or owner; expiry is not looked at |
| `Registry.MemoryRegistry.HeartbeatAt` | pkg/registry/registry.go:270-311 | an admitted heartbeat makes the lease live at a time t if and only if t < now + ttl, sets last seen to now, and changes no other field and no other key; a refused one changes nothing |
| `Registry.MemoryRegistry.DeleteRecord` | pkg/registry/registry.go:551-565 | removes one record and reports whether it was there |
| `Registry.MemoryRegistry.SweepService` | pkg/registry/registry.go:515-535 | removes exactly the lapsed records of one service and counts them |
| `Registry.MemoryRegistry.Snapshot` | pkg/registry/registry.go:323-344 | whatever the cache and the lazy sweep do: lists exactly the records of the service whose deadline is after now, in byte order of their identifiers, under a version that never goes back |
| `Registry.MemoryRegistry.SweepExpired` | pkg/registry/registry.go:352-388 | the heap sweep removes exactly the records whose deadline has passed, each reported once, and republishes exactly their services, each under its next version |
| `Registry.MemoryRegistry.Drain` | pkg/registry/registry.go:352-388 | popping due entries until none is left removes exactly the lapsed records |
| `FileRegistries.FilledIsSame` | pkg/registry/registry.go:609-640 | restoring a table whose records all have names, address, status, epoch and token gives that table |
| `FileRegistries.FileRegistry.Open` | pkg/registry/file_registry_v2.go:98-141 | restart from the files: fails exactly when a record does not apply, else cuts the log after its last whole frame and holds what the files recover to, missing epochs, tokens and statuses filled in |
| `FileRegistries.FileRegistry.Restart` | pkg/registry/file_registry_v2.go:126-147 | the same from the log's records, and with complete records exactly what the files recover to |
| `FileRegistries.FileRegistry.Recover` | pkg/registry/file_registry_v2.go:133-139 | load, replay and sweep in turn |
| `FileRegistries.FileRegistry.LoadSnapshot` | pkg/registry/file_registry_v2.go:315-335 | memory becomes the snapshot's complete records, each filled |
| `FileRegistries.FileRegistry.ReplayWal` | pkg/registry/file_registry_v2.go:338-347 | memory becomes the replay of the log's operations over the snapshot, filled |
| `FileRegistries.FileRegistry.RestoreRecord` | pkg/registry/registry.go:609-640 | skips a record without a name or address; else stores it with status, epoch and token filled in and nothing else changed |
| `FileRegistries.FileRegistry.ApplyRecord` | pkg/registry/file_registry_v2.go:350-386 | one logged operation applied to memory is one step of replay, filled |
| `FileRegistries.FileRegistry.Append` | pkg/registry/file_registry_v2.go:760-766 | encodes and hands over: taken, unencodable or not taken; the log holds the acknowledged operations and at most one that failed; an accepting log takes what encodes and goes on accepting |
| `FileRegistries.FileRegistry.Send` | pkg/registry/file_registry_v2.go:802-816 | one frame to the writer and its answer |
| `FileRegistries.FileRegistry.LogWrite` | pkg/registry/file_registry_v2.go:186-196 | a write that the log does not take changes nothing but the time and what is fsynced |
| `FileRegistries.FileRegistry.Register` | pkg/registry/file_registry_v2.go:168-199 | refused exactly when malformed, not encodable, failed or done; when done it is one register step, fsynced in mode always, after which the record is live at t if and only if t < now + ttl and no other key changed; otherwise the leases stay; an accepting log means done |
| `FileRegistries.FileRegistry.Heartbeat` | pkg/registry/file_registry_v2.go:223-249 | refused with the right error, not encodable, failed or done; when done it is one heartbeat step, after which the lease is live at t if and only if t < now + ttl, last seen is now and nothing else changed; otherwise the leases stay; an accepting log means done |
| `FileRegistries.FileRegistry.Read` | pkg/registry/file_registry_v2.go:252-264 | returns exactly the unexpired records of the service in byte order of their identifiers; the lazy sweep it may make is the unlogged read step |
| `FileRegistries.FileRegistry.SweepExpired` | pkg/registry/file_registry_v2.go:267-278 | drops exactly the lapsed leases and logs each drop, at its own time, that encodes and the log takes: one logged sweep step; on a working disk every drop that encodes is logged |
| `FileRegistries.FileRegistry.Compact` | pkg/registry/file_registry_v2.go:281-296 | done: the snapshot becomes the live leases and the log its mark; snapshot not written: nothing changes, and that is the only such case; otherwise a compaction cut short, with the old log or an empty one; a written snapshot and a working log mean done |
| `FileRegistries.FileRegistry.ResetLog` | pkg/registry/file_registry_v2.go:769-775 | the log ends up as the fsynced mark, as it was, or empty; as the mark whenever every call on the file works |
| `FileRegistries.FileRegistry.TakeSnapshot` | pkg/registry/file_registry_v2.go:389-413 | the snapshot holds exactly the unexpired records |
| `FileRegistries.FileRegistry.Tick` | pkg/registry/file_registry_v2.go:917-926 | only what is fsynced changes, to everything when the disk works |
| `FileRegistries.FileRegistry.AlwaysSynced` | pkg/registry/file_registry_v2.go:877-884 | in mode always every acknowledged operation is fsynced |
| `FileRegistries.FileRegistry.DiskRecovers` | pkg/registry/file_registry_v2.go:819-928 | whatever bytes a crash leaves of the writer's log, restart succeeds and recovers from a prefix of append order that has every fsynced operation |
| `FileRegistries.FileRegistry.AcknowledgedWritesSurvive` | pkg/registry/file_registry_v2.go:168-249 | in mode always, whatever bytes a crash leaves, restart has every acknowledged write: exactly the live leases if and only if no dropped lease was revived, or those with the one failed write as well |
| `WalWriter.Writer.constructor` | pkg/registry/file_registry_v2.go:730-752 | a writer on the frames of a file, all of them durable and nothing pending |
| `WalWriter.Writer.Flush` | pkg/registry/file_registry_v2.go:837-851 | flush and fsync: on success everything is on disk and nothing is pending, on failure no byte and neither count is lost |
| `WalWriter.Writer.Append` | pkg/registry/file_registry_v2.go:860-885 | exactly one answer; in mode always a nil answer means the frame and all before it are fsynced; fewer than the group limits stay acknowledged but unsynced; after a fatal error every append fails; a failed frame is the last in the log, whole or torn, or not there |
| `WalWriter.Writer.Settle` | pkg/registry/file_registry_v2.go:870-884 | answers at once in mode batch and after the fsync in mode always; a full group is committed |
| `WalWriter.Writer.Submit` | pkg/registry/file_registry_v2.go:802-816 | the answer of one append, as its caller sees it; nil whenever write, flush and fsync work |
| `WalWriter.Writer.SubmitReset` | pkg/registry/file_registry_v2.go:769-775 | the answer of one reset: only the mark, the log as it was, or an empty log with a torn mark; only the mark whenever every call on the file works |
| `WalWriter.Writer.Tick` | pkg/registry/file_registry_v2.go:917-926 | the timer makes everything pending durable and answers nobody twice |
| `WalWriter.Writer.Reset` | pkg/registry/file_registry_v2.go:886-907 | on success the file holds exactly the fsynced mark, on failure the log is fatally stopped; success whenever flush, fsync, close, reopen and the write of the mark work |
| `WalWriter.Writer.CrashLosesSuffix` | pkg/registry/file_registry_v2.go:819-928 | whatever unsynced bytes a crash leaves, replay gives a prefix of append order: all acknowledged records in mode always, all but fewer than the group limits in mode batch |
| `Watch.StepKeepsInv` | pkg/registry/registry.go:406-444 | every step of publisher, watcher, timer and consumer keeps the watch invariant |
| `Watch.NoLostWakeup` | pkg/registry/registry.go:406-444 | a watcher parked on an open notify channel has seen the current version |
| `Watch.ReceivedIncreases` | pkg/registry/registry.go:685-710 | the versions a consumer receives strictly increase, coalescing included |
| `RetryBudget.StepKeepsInv` | pkg/retry/budget.go:56-84 | every atomic step, rollbacks and window rollover included, keeps counters, grants and readings consistent |
| `RetryBudget.GrantsBounded` | pkg/retry/budget.go:108-141 | over every interleaving, grants of the current and of every closed window stay within that window's capacity |
| `RetryBudget.InvocationsAccountedFor` | sdk/go/aegisgrpc/retry.go:136-170 | invocations made or due equal originals plus grants |
| `RetryBudget.AmplificationBounded` | pkg/retry/budget.go:130-141 | over the whole run, invocations are at most the originals times one plus the ratio, plus a constant per window |
| `RetryBudget.AllowedMeans` | pkg/retry/budget.go:135-141 | the capacity is the minimum or the share of the originals rounded down, whichever is more |
| `RetryBudget.AskAloneDecides` | pkg/retry/budget.go:70-84 | an ask that nobody interleaves with is granted if and only if the counter is below the capacity, and a refused one leaves no trace |
| `RetryBudget.CallsRetryOnlyRetryable` | sdk/go/aegisgrpc/retry.go:136-170 | over every interleaving a call makes at most the configured attempts, all but its last failed retryably, and one given up after a retryable failure had used up its attempts or was refused by the budget |
| `Limiter.StepKeepsInv` | pkg/circuitbreaker/breaker.go:80-113 | every compare-and-swap step keeps the counter equal to held plus pending increments, below the largest maximum |
| `Limiter.CounterIsExact` | pkg/circuitbreaker/breaker.go:80-113 | over every interleaving the counter is held permits plus pending rollbacks, never above the largest maximum set, and each permit is returned at most once |
| `Limiter.HeldWithinMax` | pkg/circuitbreaker/breaker.go:80-113 | with a fixed maximum, held permits never exceed it |
| `Limiter.AcquireAlone` | pkg/circuitbreaker/breaker.go:80-97 | an acquire that nobody interleaves with gets a permit if and only if the counter is below the maximum |
| `Limiter.ReleaseAlone` | pkg/circuitbreaker/breaker.go:164-177 | a release that nobody interleaves with takes one off the counter, and calling it again does nothing |
| `Limiter.RejectedOnlyWhenFull` | pkg/circuitbreaker/breaker.go:80-97 | over every interleaving with a fixed maximum, an attempt is rejected only if the counter had reached it |
| `HealthStore.StepKeepsInv` | pkg/fault/health_store.go:169-218 | every Get, compare and swap step keeps what each controller remembers true, and the stored record never gets older |
| `HealthStore.NeverOlder` | pkg/fault/health_store.go:169-218 | over every interleaving the stored timestamp never decreases |
| `HealthStore.NoOlderThanAnySave` | pkg/fault/health_store.go:169-218 | the store is no older than any save that has returned |
| `HealthStore.FailedSwapHasCause` | pkg/fault/health_store.go:375-386 | a failed swap has another controller's successful write after this one's read |
| `HealthStore.SaveAloneStores` | pkg/fault/health_store.go:169-218 | a save that nobody interrupts returns, and its record ends up stored unless a strictly newer one was there |
| `LeaseFencing.StepKeepsInv` | pkg/registry/lease_store_registry.go:120-158 | every step keeps the stored record a refresh of the newest registration |
| `LeaseFencing.NewestRegistrationStored` | pkg/registry/lease_store_registry.go:76-96 | what is stored is always the newest registration, up to refreshed times |
| `LeaseFencing.SupersededHeartbeatsAreFenced` | pkg/registry/lease_store_registry.go:120-158 | once a newer registration is stored, a heartbeat naming a superseded epoch or token never changes the store, even if it read before the replacement |
| `LeaseFencing.BeatAloneRefreshes` | pkg/registry/lease_store_registry.go:120-158 | a heartbeat that nobody interrupts refreshes the last-seen time and nothing else if and only if it is open or carries the stored epoch, and token where asked |
| `StateMachine.WithDefaults` | pkg/fault/state_machine.go:68-89 | every field of the result is usable |
| `StateMachine.Resolve` | pkg/fault/state_machine.go:44-65 | a resolved config is usable whatever the override leaves out |
| `StateMachine.ResolveChooses` | pkg/fault/state_machine.go:44-89 | each setting of a resolved config is the override's where set, else the base's, else the documented default |
| `StateMachine.Endpoint.Transition` | pkg/fault/state_machine.go:195-209 | no-op on the same state, else stamps, clears both counters and keeps the ejection time in step |
| `StateMachine.Endpoint.Apply` | pkg/fault/state_machine.go:139-192 | the in-place update computes the pure transition that the run theorems are about |
| `StateMachine.RunKeepsInv` | pkg/fault/state_machine.go:139-209 | the machine's invariant over every run from a fresh endpoint, config changes and replaced owners included |
| `StateMachine.CountersBelowLimit` | pkg/fault/state_machine.go:169-188 | HEALTHY keeps both counters, DEGRADED the eject counter, below the configured windows |
| `StateMachine.CountersAreRunLengths` | pkg/fault/state_machine.go:169-179 | each counter is exactly the length of the current unbroken run of qualifying windows since the last transition or reset |
| `StateMachine.EjectedSince` | pkg/fault/state_machine.go:195-209 | an ejected endpoint's ejection time is the time of the window that ejected it, with no other state since |
| `StateMachine.EjectionIsServed` | pkg/fault/state_machine.go:152-157 | EJECTED is left only for PROBING and never before the ejection duration since that window |
| `StateMachine.HealthyOnlyAfterProbe` | pkg/fault/state_machine.go:158-166 | absent a replaced owner, an ejected endpoint is back in traffic only after a passing probe |
| `StateMachine.TrafficWindowDecides` | pkg/fault/state_machine.go:169-188 | over every run, a window in traffic ejects if and only if it completes a run of windows at the eject threshold; otherwise it degrades if and only if it completes a run of slow windows, and an endpoint stays degraded until a score at the recovery threshold |
| `StateMachine.ProbeWindowDecides` | pkg/fault/state_machine.go:158-166 | over every run, a probe window ejects exactly when it fails its success rate or is slow, and recovers exactly when it passes at the recovery threshold |
| `StateMachine.EjectedWindowDecides` | pkg/fault/state_machine.go:152-157 | over every run, a window of an ejected endpoint starts probing if and only if it comes at least the ejection duration after the window that ejected it |
| `StateMachine.WindowIsRecorded` | pkg/fault/state_machine.go:139-209 | every window publishes its score; a change of state is stamped with its time and starts both counters afresh, and nothing else of the record changes |
| `HealthManagers.ScoreKeyInjective` | pkg/fault/slow_score.go:213-215 | score keys are injective on service names without a slash after the first character |
| `HealthManagers.SlashBreaksTags` | pkg/fault/manager.go:124-166 | any other service name breaks the cache tags, in two steps of a new manager: another service's view changes under an unchanged version |
| `HealthManagers.BumpIsSound` | pkg/fault/manager.go:436-454 | bumping every service whose view may differ keeps the version tags sound |
| `HealthManagers.BumpIsPrecise` | pkg/fault/manager.go:436-454 | bumping raises the version of the marked services and the global one to a single new revision, and no other version |
| `HealthManagers.StoreIsSound` | pkg/fault/manager.go:157-161 | storing a record changes no view but its own service's, which is marked unless only the time changed |
| `HealthManagers.StepAdvances` | pkg/fault/manager.go:124-329 | every operation advances versions and never changes a view without its version |
| `HealthManagers.VersionsAreCacheTags` | pkg/fault/manager.go:436-454 | over every run of updates, ticks, merges, prunes and config replacements, an equal version at two points means an identical view ignoring update times, and no service revision exceeds the global one |
| `HealthManagers.NewestWins` | pkg/fault/manager.go:270-304 | a merge ends, for every key, with an offered record that no offered record is newer than |
| `HealthManagers.MergeIgnoresOrder` | pkg/fault/manager.go:270-304 | with distinct timestamps a merge does not depend on the order or repetition of records |
| `HealthManagers.NothingToMerge` | pkg/fault/manager.go:277-301 | a merge changes nothing and marks no service if and only if the table already holds, for every named record, that record or a newer one |
| `HealthManagers.MergeIsIdempotent` | pkg/fault/manager.go:270-304 | merging the same snapshot again at a later time changes nothing and marks no service if and only if every record without a time of its own is overtaken by something newer than that later time |
| `HealthManagers.TimedMergeIsIdempotent` | pkg/fault/manager.go:270-304 | so a snapshot whose records all carry a time can be merged again at any time |
| `HealthManagers.UntimedRecordWins` | pkg/fault/manager.go:284-300 | a record without a time replaces whatever is not newer than the merge itself |
| `HealthManagers.UntimedMergeIsNotIdempotent` | pkg/fault/manager.go:284-300 | the failing family: merging an untimed record again changes the table, and turns an ejected endpoint healthy |
| `HealthManagers.HotApplyReconfigures` | pkg/fault/manager.go:83-114 | applying new overrides is, per endpoint, one config event of its state machine or none |
| `HealthManagers.ReportIsWindow` | pkg/fault/manager.go:133-156 | folding in a sample is exactly one window of its endpoint's state machine, with the calculated total and the sample's success rate, from a fresh record when address or epoch name a new owner |
| `HealthManagers.SuccessRate` | pkg/fault/manager.go:457-466 | times the requests, the rate is the requests that did not fail; 1 without requests and 0 when more failed than were made |
| `HealthManagers.ReportedRecord` | pkg/fault/manager.go:137-161 | what a sample leaves: the given or kept address and epoch, nothing kept of a former owner, no other record touched, and stamp and mark if and only if the record changed |
| `HealthManagers.TickIsWindow` | pkg/fault/manager.go:177-188 | a tick is exactly one window of each endpoint's state machine, with its last score and full success |
| `HealthManagers.TickMarksChanges` | pkg/fault/manager.go:177-190 | a tick marks a service if and only if it changes its view |
| `HealthManagers.TickedRecord` | pkg/fault/manager.go:177-188 | a tick keeps who a record belongs to, and stamps it exactly when it changed |
| `HealthManagers.RetainedAddress` | pkg/fault/manager.go:399-416 | finds a registered address by epoch, then by legacy identity, then by any epoch for a record without one |
| `HealthManagers.PruneRule` | pkg/fault/manager.go:307-329 | a record registered under its own epoch, or else under none, is kept if and only if no two known addresses differ; one whose endpoint is not registered goes; one without an epoch is kept when every registration could be it |
| `HealthManagers.HealthManager.constructor` | pkg/fault/manager.go:42-58 | starts empty at revision 0, without an override for the empty service name |
| `HealthManagers.HealthManager.Bump` | pkg/fault/manager.go:436-446 | one new revision for all changed services, none when nothing changed |
| `HealthManagers.HealthManager.Update` | pkg/fault/manager.go:124-166 | folds the samples with the scores of the whole report; with slash-free names versions advance and tag the views |
| `HealthManagers.HealthManager.Report` | pkg/fault/manager.go:133-162 | one sample: a new owner starts afresh, the machine applies a window, the service is marked unless only the time differs |
| `HealthManagers.HealthManager.Tick` | pkg/fault/manager.go:169-192 | re-feeds every endpoint its last score with full success and marks exactly the services that changed |
| `HealthManagers.HealthManager.MergeSnapshot` | pkg/fault/manager.go:270-304 | the loop computes the merge that newest-wins is proved about, and returns how many services changed |
| `HealthManagers.HealthManager.Merge` | pkg/fault/manager.go:277-301 | one record: unspecified becomes healthy, a missing time is now, an older record is ignored, an equal one only gets newer |
| `HealthManagers.HealthManager.PruneMissing` | pkg/fault/manager.go:307-329 | what is left is registered at a matching address, what is gone is not or has moved; without a registry view nothing goes |
| `HealthManagers.HealthManager.SetServiceConfig` | pkg/fault/manager.go:61-80 | changes one override and resets counters exactly when the effective config changes |
| `HealthManagers.HealthManager.ReplaceConfigs` | pkg/fault/manager.go:83-114 | replaces all overrides and resets exactly the services whose effective config differs, counting them |
| `HealthManagers.HealthManager.Compare` | pkg/fault/manager.go:89-106 | the two loops collect exactly the services whose effective config differs |
| `HealthManagers.HealthManager.ResetAll` | pkg/fault/manager.go:109-111 | resetting the changed services one by one, in any order, resets exactly their endpoints |
| `HealthManagers.HealthManager.ResetService` | pkg/fault/manager.go:365-379 | zeroes the counters of one service's endpoints that have any |
| `ManagerRuns.StepTracks` | pkg/fault/manager.go:61-192 | every operation but a merge keeps each record the end of a run of its endpoint's state machine |
| `ManagerRuns.ManagerRunsMachines` | pkg/fault/manager.go:124-192 | over every merge-free run of a new manager, each record is where a run of the state machine from a fresh endpoint ends |
| `ManagerRuns.ManagedCountersBelowLimit` | pkg/fault/manager.go:124-192 | so every record's counters stay below the limit its service is configured with at that time |
| `ManagerRuns.WindowServesEjection` | pkg/fault/state_machine.go:152-157 | a window that ends an ejection comes at least the ejection duration after the window that began it |
| `ManagerRuns.TickServesEjection` | pkg/fault/manager.go:169-192 | a tick of the manager ends an ejection only by probing and never early |
| `ManagerRuns.ReportServesEjection` | pkg/fault/manager.go:133-161 | nor does a sample from the same owner |
| `Policy.BuildMask` | sdk/go/aegisgrpc/retry.go:48-54 | the loop builds the mask of the listed codes |
| `Policy.ListCodes` | sdk/go/aegisgrpc/retry.go:80-91 | the loop lists the codes of a mask in ascending order |
| `Policy.MaskHasCodes` | sdk/go/aegisgrpc/retry.go:57-68 | a compiled mask accepts exactly the listed codes below 64 |
| `Policy.CodesAreAscending` | sdk/go/aegisgrpc/retry.go:80-91 | decompiling lists each accepted code once, in ascending order |
| `Policy.MaskRoundTrip` | sdk/go/aegisgrpc/retry.go:71-91 | decompiling and compiling a mask gives it back |
| `Policy.CompiledMaskRoundTrip` | sdk/go/aegisgrpc/retry.go:32-45 | through a policy, the mask comes back if and only if it is not empty, since an empty list means the default codes |
| `Policy.NormalizeIsNormal` | sdk/go/aegisgrpc/dial_options.go:61-76 | normalizing yields normal options and is the identity exactly on them |
| `Policy.UnsetTakesDefault` | sdk/go/aegisgrpc/dial_options.go:47-76 | each option that is set is kept and each that is unset takes its documented default, the retry policy as a whole |
| `Policy.CompiledCodes` | sdk/go/aegisgrpc/retry.go:32-68 | a compiled record retries exactly the listed codes below 64, or UNAVAILABLE and DEADLINE_EXCEEDED when none is listed |
| `Policy.HasAnyField` | sdk/go/aegisgrpc/dial_options.go:173-181 | a message says something exactly when it is sent and is not all unset |
| `Policy.SilentMessage` | sdk/go/aegisgrpc/dial_options.go:143-146 | a message that is absent or all unset changes neither path |
| `Policy.DisablingMessage` | sdk/go/aegisgrpc/dial_options.go:147-151 | a message that sets anything without enabling ends in mode off with one attempt on both paths, and changes nothing else |
| `Policy.EnablingMessage` | sdk/go/aegisgrpc/policy.go:155-182 | a message that enables retries: each field it sets wins, in its unit, each it leaves unset stays, and codes and clock never change |
| `Policy.MethodDecides` | sdk/go/aegisgrpc/policy.go:185-197 | a method's own message decides whether and how often its calls are retried whatever its service says; without one a method that is not idempotent is not retried and an idempotent one follows its service |
| `Policy.WritesAgree` | sdk/go/aegisgrpc/policy.go:169-180 | a chain of durations ends the same patched and rewritten if and only if the last one that is set does not wrap an int64 to nothing, or wraps to what was there |
| `Policy.PatchesAreRewrites` | sdk/go/aegisgrpc/policy.go:127-197 | for normal options and any service and method policy, present or not, patching the compiled record equals compiling the rewritten options if and only if mode off has not pinned the attempt count that retries end up with and the last write of the timeout and of the window does not wrap |
| `Policy.PatchIsRewrite` | sdk/go/aegisgrpc/policy.go:127-182 | the same if and only if for one retry message |
| `Policy.MethodPatchIsRewrite` | sdk/go/aegisgrpc/policy.go:185-197 | the same if and only if for a method policy, timeout and idempotency included |
| `Policy.CompiledPolicyIsReference` | sdk/go/aegisgrpc/policy.go:243-258 | compiling once and patching per service and method equals rewriting the options and compiling, for every method, under exactly that condition |
| `Policy.UsuallyCommutes` | sdk/go/aegisgrpc/policy.go:200-213 | durations that fit an int64 and options whose mode off comes with one attempt meet the condition |
| `Policy.WrappingTimeoutDiffers` | sdk/go/aegisgrpc/dial_options.go:157-159 | an example: a timeout of 9223372036855 ms is skipped by the patch and turned negative by the rewrite |
| `Policy.PinnedCountDiffers` | sdk/go/aegisgrpc/policy.go:148-150 | an example: retries switched on over mode off with three attempts get one attempt patched and three rewritten |
| `Policy.UnsetOptionsDiffer` | sdk/go/aegisgrpc/dial_options.go:61-76 | for every options without an attempt count or the default timeout, a message that sets the count and no timeout separates the two paths |
| `Policy.PatchTwice` | sdk/go/aegisgrpc/policy.go:155-182 | patching twice is patching once |
| `Policy.MethodPatchTwice` | sdk/go/aegisgrpc/policy.go:185-197 | applying a method policy twice is applying it once |
| `Policy.PolicyTwice` | sdk/go/aegisgrpc/policy.go:243-258 | applying the whole policy twice is applying it once |
| `Policy.CompileMethods` | sdk/go/aegisgrpc/policy.go:94-113 | compiles the method policies in any map order; an entry without a key is filed under its own name |
| `Policy.KeyedMethods` | sdk/go/aegisgrpc/policy.go:98-112 | without an empty key the compiled methods are the sent ones, name by name |
| `Histogram.BuildBounds` | pkg/telemetry/recorder.go:464-480 | the array filled in place holds the geometric bounds from zero and one microsecond to one hour |
| `Histogram.BoundsAscend` | pkg/telemetry/recorder.go:464-480 | the bounds never decrease |
| `Histogram.BucketIndex` | pkg/telemetry/recorder.go:451-462 | binary search finds the first bucket whose bound reaches the latency, or the last |
| `Histogram.RoundingBound` | pkg/telemetry/recorder.go:451-480 | a bucket's bound reaches the latency exactly up to one hour and overshoots by at most a seventh in the geometric part |
| `Histogram.BoundsGrow` | pkg/telemetry/recorder.go:464-480 | each geometric bound is at least a seventh above the one before, until the hour cuts it off |
| `Histogram.Target` | pkg/telemetry/latency_histogram.go:60-63 | the target rank is the least rank from one up that exceeds the share of the samples less a billionth, and lies between one and the number of samples, for every argument |
| `Histogram.RankedBucket` | pkg/telemetry/latency_histogram.go:64-70 | the bucket the scan stops in is the bucket of the sample of the target rank |
| `Histogram.RankExists` | pkg/telemetry/latency_histogram.go:60-70 | every rank from one to the number of samples has a sample |
| `Histogram.Scan` | pkg/telemetry/latency_histogram.go:60-71 | the scan reports the bound of the ranked sample's bucket |
| `Histogram.QuantileIsUnique` | pkg/telemetry/latency_histogram.go:40-72 | two histograms of the same samples, in any order or shards, report the same quantile |
| `Histogram.QuantileBound` | pkg/telemetry/latency_histogram.go:40-72 | the reported quantile is at least the exact ranked sample if and only if that is at most one hour, and at most a seventh more between one microsecond and the second-last bound |
| `Histogram.LatencyHistogram.constructor` | pkg/telemetry/latency_histogram.go:85-88 | an empty histogram |
| `Histogram.LatencyHistogram.Record` | pkg/telemetry/latency_histogram.go:91-98 | counts one more sample, negative ones as zero |
| `Histogram.LatencyHistogram.Quantile` | pkg/telemetry/latency_histogram.go:101-123 | the quantile of the recorded samples, zero when there are none |
| `Histogram.LatencyHistogram.Reset` | pkg/telemetry/latency_histogram.go:126-131 | forgets every sample |
| `Histogram.ShardedHistogram.Record` | pkg/telemetry/latency_histogram.go:29-37 | counts one more sample in whichever shard is picked |
| `Histogram.ShardedHistogram.Merge` | pkg/telemetry/latency_histogram.go:48-55 | adding up the shards gives the bucket counts and the total of all samples |
| `Histogram.ShardedHistogram.Quantile` | pkg/telemetry/latency_histogram.go:40-72 | the same quantile as the single histogram's, whatever the shard assignment |
| `SlowScore.LoadsIgnoreOrder` | pkg/fault/slow_score.go:118-151 | reordering a report's samples changes no endpoint's numbers |
| `SlowScore.FoldAddsUp` | pkg/fault/slow_score.go:93-151 | an endpoint is folded exactly when a named sample is about it; its counts are the sums over those samples, its capacity and latency the largest reported |
| `SlowScore.FoldIdentifies` | pkg/fault/slow_score.go:118-130 | the identity of a folded sample: the first address given, the epoch if all given agree and otherwise none or the last, the method only while no sample names another |
| `SlowScore.MedianIgnoresOrder` | pkg/fault/slow_score.go:245-256 | the median depends on the values, not their order |
| `SlowScore.HalfAtMostMedian` | pkg/fault/slow_score.go:245-256 | at least half of the values, rounded up, are no larger than the median |
| `SlowScore.MedianIsMiddle` | pkg/fault/slow_score.go:245-256 | the median is the midpoint of the values of the two middle ranks, by counting what lies below and not above, without sorting |
| `SlowScore.BaselineIgnoresOrder` | pkg/fault/slow_score.go:154-167 | median, deviation and averages of a service do not depend on the order of its endpoints |
| `SlowScore.HalfUnhurt` | pkg/fault/slow_score.go:169-170 | at least half of a service's endpoints, rounded up, have relative latency score 0 |
| `SlowScore.SharesAreBounded` | pkg/fault/slow_score.go:173-182 | error scores, and retransmit scores, of n endpoints each sum to at most n |
| `SlowScore.ScoreObeysLaws` | pkg/fault/slow_score.go:169-202 | the total is the weighted sum of its four published components; latency is the largest of zero, the excess over the service's median per median deviation or millisecond, and the share of the objective where one is set; in-flight times capacity is the in-flight count; error and retransmit times the service's average, or the epsilon, are the endpoint's own rates |
| `SlowScore.OneWeight` | pkg/fault/slow_score.go:184-187 | with one weight alone the total is that component |
| `SlowScore.ScoredInAnyOrder` | pkg/fault/slow_score.go:106-114 | an endpoint's scores are the same for every order in which a map lists its service |
| `SlowScore.ScoresIgnoreSampleOrder` | pkg/fault/slow_score.go:92-104 | an endpoint's scores are the same for every order of the samples |
| `SlowScore.FoldSamples` | pkg/fault/slow_score.go:93-104 | the loop folds the samples per endpoint and skips those without a name |
| `SlowScore.ListService` | pkg/fault/slow_score.go:107-111 | lists a service's endpoints once each |
| `SlowScore.Measure` | pkg/fault/slow_score.go:154-167 | the collected columns give the service's baseline |
| `SlowScore.CalculateService` | pkg/fault/slow_score.go:169-202 | writes each endpoint's score under its key and leaves the other keys alone |
| `SlowScore.Calculate` | pkg/fault/slow_score.go:92-115 | every endpoint with a key of its own gets the one score that no visiting order changes, and in every listing of its service that score keeps the laws of ScoreObeysLaws |
| `SlowScore.ScoredIsLawful` | pkg/fault/slow_score.go:106-114 | the score an endpoint gets keeps those laws whatever order its service is listed in |
| `Picker.ReferencePicker.constructor` | pkg/routing/round_robin.go:121-140 | whatever is configured, penalties end up positive and the probe share in (0, 1], so the probe threshold is between 0 and 100; usable settings are kept, and unset ones are the client picker's |
| `Picker.ReferencePicker.PickCandidates` | pkg/routing/round_robin.go:193-212 | the candidates and draws of the reference: normal traffic, or probes within the probe share |
| `Picker.ReferencePicker.Pick` | pkg/routing/round_robin.go:143-171 | the cheaper of two distinct random candidates, the first on a tie |
| `Picker.ClientPicker.constructor` | sdk/go/aegisgrpc/adaptive_balancer.go:46-79 | the loop prepares routable items and both index lists |
| `Picker.ClientPicker.PickCandidateIndexes` | sdk/go/aegisgrpc/adaptive_balancer.go:183-194 | the candidates and draws of the prepared picker |
| `Picker.ClientPicker.PickItem` | sdk/go/aegisgrpc/adaptive_balancer.go:159-180 | the pick from the prepared lists, reading only live counters |
| `Picker.SameCost` | sdk/go/aegisgrpc/adaptive_balancer.go:209-252 | an item's precomputed cost is the reference cost with weight and penalties 1 |
| `Picker.PreparedMirrors` | sdk/go/aegisgrpc/adaptive_balancer.go:46-79 | position by position, the index lists are the reference's candidates at the same cost |
| `Picker.ClientPicksAsReference` | sdk/go/aegisgrpc/adaptive_balancer.go:159-194 | from the same order, counters and draws the prepared picker picks the connection the reference picks |
| `Picker.NeverCostliest` | pkg/routing/round_robin.go:161-170 | of the two positions compared, the one picked costs no more than the other |
| `Picker.CostMeans` | pkg/routing/round_robin.go:215-232 | the cost is the load times one plus the slow score over the weight, plus latency and penalties, with negative loads and scores counted as zero and unusable weights as one |
| `Picker.CostGrows` | pkg/routing/round_robin.go:215-232 | an endpoint with no less load, latency, slowness and degradation costs no less |
| `Picker.PairsAreEven` | pkg/routing/round_robin.go:161-165 | of all pairs of draws exactly one gives each ordered pair of distinct positions |
| `Picker.ProbeShare` | pkg/routing/round_robin.go:207-211 | of a hundred draws exactly as many choose the probing endpoints as the threshold says |
| `Picker.FiltersByStatus` | pkg/routing/round_robin.go:194-203 | normal traffic is unspecified, healthy and degraded endpoints; probing ones are kept apart and all others dropped |
| `Picker.PickTakesTraffic` | pkg/routing/round_robin.go:143-171 | a pick fails if and only if no endpoint takes traffic; else it returns one that does, a probing one only when nothing else takes traffic or the first draw falls in the probing share |
| `Picker.ReferenceSparesCostliest` | pkg/routing/round_robin.go:161-170 | the reference never picks the strictly costliest of two or more candidates |
| `Picker.ClientSparesCostliest` | sdk/go/aegisgrpc/adaptive_balancer.go:168-179 | nor does the client's picker |

## Left out

- File, etcd and gRPC input and output, fsync and rename internals, JSON, protobuf and CRC-32C arithmetic: contracts or parameters; a rename is atomic and durable.
- Concurrency of the registry, the health manager and the histogram: one call is one step under its lock; the retry budget, limiter, watches, health store and lease store are modelled on values over interleavings of atomic steps, so field layout and memory order are not captured.
- Registry table shape: the nested per-service maps are one map keyed by service and instance, the snapshot file is such a map, and string ordering is on bytes.
- Context cancellation inside in-memory registry calls, the writer's close request and back-pressure of its queue, and the automatic compactions that the log's size triggers.
- Delivery liveness of coalescing sends: only safety is proved, since the inner receive can wait on a slot the consumer has just emptied.
- Recovery.PrefixConsistency: not claimed for a compaction cut short over an unsynced log, where it is false.
- WalOps.DurableRegistry: its runs have no failed append; what a failed append can leave behind is stated by AcknowledgedWritesSurvive.
- FileRegistries.FileRegistry.Open: the log's times are not later than the restart's, and a made-up epoch or token is any non-empty name; that it equals what the files recover to is claimed for complete records, since made-up names differ from restart to restart.
- FileRegistries.FileRegistry.Heartbeat: validation, append and renewal are one step; a lazy sweep by a concurrent reader in between is not modelled.
- Registry.MemoryRegistry.HeartbeatAt: the public entry points refuse an empty epoch or token before they call it, which is not modelled.
- Registry.MemoryRegistry.Register: epochs and tokens are parameters; their random generation is not modelled.
- HealthManagers.HealthManager.Update: the sorted list it returns is not modelled, nor are the labels that a score copies from its sample.
- HealthManagers.HealthManager.Tick: the sorted list it returns is not modelled.
- HealthManagers.HealthManager.MergeSnapshot: order independence is claimed for distinct timestamps only; on a tie the later record wins.
- ManagerRuns.ManagerRunsMachines: merged records come from other controllers, whose runs are not this manager's, so runs with merges are excluded.
- SlowScore.Calculate: endpoints that share a key in the result, possible only with an inner slash in a service name, get whichever score is written last; replacing unusable weights and a negative latency objective by defaults is not modelled.
- SlowScore.SharesAreBounded: error counts are non-negative, as a recorder reports them.
- Policy.PatchesAreRewrites: options are normal, as after construction; fields that no retry record reads are left out.
- Policy.CompileMethods: absent entries of the method map are taken as already dropped.
- Per-method budget objects and their recreation on a policy revision: a cache keyed by method and revision.
- Histogram.ShardedHistogram.Record: the process-wide shard sequence is a parameter, and counters do not wrap at 64 bits.
- Picker.ClientPicker.PickItem: acquiring the limiter and the completion's counters are not modelled here; the limiter is proved on its own.
- Picker.ClientPicksAsReference: the order in which ready connections are listed is the same for both pickers.
- Health store and lease store: one key at a time, since the keys of a save or a service are independent; other keys appear as writes that move the store's revision.
- Integer overflow of absolute times, floating-point rounding and NaN.
- The first file registry format, the etcd and policy stores' watch caches, lease-store listing and watching, instance version combination, health-store key encoding, routing by round robin, security, telemetry recording, collectors, exporters, demo services and experiment scripts.
