# osvbng: a verified model of its stateful core

osvbng is a broadband network gateway. This project models the parts of it that keep shared
state right under many small updates, and proves what they promise.

- **Port-block NAT** (`internal/cgnat`). A bitmap allocator hands out blocks of ports on outside
  addresses; a reverse index answers who owns an address and port; an activation protocol ties
  sessions, blocks and an asynchronous dataplane together; a restore-window queue holds early
  events back; a reconciler drives the dataplane to the configured pools.
  Files: `Words`, `Bitmap`, `PoolModel`, `PoolInvariant`, `PoolLaws`, `PoolDuplicates`,
  `PoolManager`, `Snapshot`, `ReverseIndex`, `Activation`, `ActivationSafety`, `ActivationRuns`,
  `ActivationLeads`, `ActivationRoom`, `ActivationExact`, `ActivationEnds`, `ReleaseLost`, `ActivationLookup`,
  `LookupRuns`, `ActivationHandlers`, `RestoreQueue`, `Reconcile`, `Reconciler`.
- **Router Advertisements** (`internal/ra`, `internal/pppoe`). A template is copied, patched and
  given a one's-complement checksum; a hashed timing wheel re-sends it before the Router Lifetime
  runs out. Files: `Checksum`, `RaWheel`, `RaLifetime`, `RaEmitter`.
- **RADIUS accounting** (`internal/aaa`). Buckets, cache, checkpoints, restores and releases.
  Files: `Accounting`, `AccountingExact`, `AccountingHandlers`.
- **Smaller pieces.** The L2TP identifier allocator (`IdAllocator`), the command line's request
  bodies (`CliBody`) and the VLAN range compressor (`VlanRanges`). `Collections`, `IdList` and
  `Optional` hold what several of them share.

Code that updates fields step by step is a class here, with methods proved against functions on
values; the theorems are about those functions, over every input, every run or every schedule.
A Go map's iteration order is an arbitrary choice in each loop over one.

Concurrent handlers are state machines whose steps are the stretches between two lock
operations, because the event bus starts every handler in a goroutine of its own
(`pkg/events/local/bus.go:116`). A message or a dispatch after the last unlock is a step too.

## What turned out false, and when it holds

- **Free test.** `hasFreeBlock` counts the bits of whole words. It is exact when the bits past
  the last block are clear, which every reachable bitmap satisfies; `Bitmap.HasFreeWithSlack` gives
  the exact condition for any bitmap.
- **Addresses listed twice.** A configured pool has a run of allocations and releases that gives one
  block to two subscribers exactly when an address has a block to give and some address that is not
  excluded is listed twice (`PoolDuplicates.DoubleBooksIff`).
- **Restores.** `restoreLocked` accepts any block. Bitmap and table stay in agreement all through a
  run exactly when every restore is of a free block of the pool or of one the subscriber has
  (`PoolInvariant.RunKeepsInvIff`).
- **Reverse index.** Adding a mapping whose block is already indexed leaves a list entry that no
  later Remove takes out; Add keeps the two maps in step exactly when the block is new
  (`ReverseIndex.AddCoherentIff`).
- **Releases.** A release does not always end its session. One that finds the session not committed
  yet frees nothing and returns. The session can still be committed afterwards, without any further
  activation, exactly when an activation of it has begun and its pool has a block to give, or is out
  at the dataplane, or is about to commit (`ReleaseLost.ReleaseLostIff`); it then keeps its block. A
  failed activation gives its block back by itself.
- **One block per session.** Releases of one session may overlap, and one inside address may serve
  one session after another. What breaks the bijection between blocks and sessions is an activation
  that takes effect while a release of its session runs, or while another session still claims the
  inside address. From every safe state, an activation of a session whose pool has a block to give,
  be it taken at the moment, is safe for good exactly when neither is the case
  (`ActivationExact.ActivateSafeIff`).
- **Lookup.** The reverse index is right all through a run exactly when each Add finds the session
  committed with no Remove of its releases done, and each Remove meets the releasing session's own
  entry or none (`LookupRuns.AlwaysMatchesIff`). It is enough that a release that finds its session
  committed finds no other release of it running and its Add done (`LookupRuns.QuietLookUp`);
  releases during the dataplane call do no harm. A release between the commit and the Add always
  leaves a stale entry (`LookupRuns.ReleaseBeforeAddLeavesStale`).
- **Queue order.** An event that `maybeEnqueue` hands back is dispatched after the unlock, by its own
  goroutine. Whatever the goroutines do, the events of a run go out in arrival order exactly when
  each one arrives while the queue is still open, or after everything that left it was dispatched
  (`RestoreQueue.ArrivalOrderIff`). It is not enough that none arrives during the drain: two that
  arrive after it can swap (`RestoreQueue.SwapAfterDrain`).
- **Checksum.** `PatchChecksum` yields a valid packet exactly when the field held 0x0000 or 0xffff
  before; cached templates hold 0x0000.
- **Router Lifetime.** The comment on the wheel says the default route never expires. It holds in
  every run exactly when `max(refresh, 16) + buckets - 1` is below the lifetime
  (`RaLifetime.AlwaysAliveIff`). A refresh of ten seconds or more within a third of the lifetime is
  enough; a lifetime of twenty-five seconds or less expires in some run, whatever the refresh.
- **First advertisement.** It comes within one turn of the wheel in every run in which the session
  does not go down between the two critical sections of an emit to it
  (`RaWheel.FirstWithinATurn`). If it does, and comes up again, the stale due time can hold the first
  advertisement back for a whole refresh (`RaLifetime.TornEmitDelays`).
- **One Start per session.** A handler's message goes out in a goroutine after its last locked step.
  The promise holds over every run in which a restore does not begin during an activation or a
  release of the session, a release not during an activation or a restore, and an activation of an
  unlisted session not during a release, each lasting until its message is sent; repeated
  activations, restores and releases may overlap as they like. From every state in agreement these
  are exactly the steps after which the handlers and messages under way cannot go wrong
  (`AccountingExact.OrderlyIff`), and over runs the same (`AccountingExact.OrderlyRunIff`). After a
  process restart an activation that overtakes the restore sends a second Start
  (`Accounting.RestartThenActivate`).
- **Reconcile and divergence.** With `on_divergence: fail` an orphan pool that is deliberately kept
  counts as divergence on every run, because its plan is never a no-op
  (`Reconciler.AllNoop`).

## Model

| member | source | states |
|---|---|---|
| `Words.PopCountIsOnes` | internal/cgnat/pool.go:623-628 | for every 64-bit word the four-line bit trick, with its wrapping multiplication, is the number of set bits |
| `Words.SetClearBitAt` | internal/cgnat/pool.go:606-619 | setting or clearing one bit of a word changes that bit and no other |
| `PoolManager.Popcount` | internal/cgnat/pool.go:623-628 | the method computes the number of set bits |
| `Bitmap.HasFreeIsExact` | internal/cgnat/pool.go:588-613 | on a bitmap without stray bits, hasFreeBlock holds exactly when some block is free and exactly when allocateBlock finds one |
| `Bitmap.HasFreeWithSlack` | internal/cgnat/pool.go:588-594 | on any bitmap hasFreeBlock never says free when full, and wrongly says full exactly when the stray bits are at least as many as the free blocks |
| `Bitmap.LeastFreeFromMeans` | internal/cgnat/pool.go:596-613 | the scan ends at the least free index, or at the total when every block is taken |
| `Bitmap.OnesSumCounts` | internal/cgnat/pool.go:588-594 | the sum of the words' popcounts counts the taken indices |
| `Bitmap.TakenDeterminesBitmap` | internal/cgnat/pool.go:596-621 | two bitmaps with the same taken indices are the same words |
| `PoolManager.OutsideAddress.constructor` | internal/cgnat/pool.go:80-85 | a new address has an all-zero bitmap of the right length |
| `PoolManager.OutsideAddress.HasFreeBlock` | internal/cgnat/pool.go:588-594 | the loop over the words decides the free test |
| `PoolManager.OutsideAddress.AllocateBlock` | internal/cgnat/pool.go:596-613 | the word and bit loops take exactly the least free index, or change nothing and return -1 |
| `PoolManager.OutsideAddress.FreeBlock` | internal/cgnat/pool.go:615-621 | clears exactly the given index, ignoring one past the words |
| `PoolManager.OutsideAddress.MarkBlock` | internal/cgnat/pool.go:398-403 | sets exactly the given index, ignoring one past the words |
| `PoolModel.BlockArithmetic` | internal/cgnat/pool.go:508-509 | a block's uint16 start and end lie in the configured range without a harmful wrap, also at 65535, and the release index inverts the allocation index |
| `PoolModel.BlocksFill` | internal/cgnat/pool.go:70-71 | the blocks of an address fill the port range: they fit in it and one more would not, so fewer ports than a block are left over |
| `PoolModel.BlockFitsIff` | internal/cgnat/pool.go:70-71 | block k exists exactly when its last port is in the range |
| `PoolModel.AddrIndex` | internal/cgnat/pool.go:219-225 | the first address with that IP, or none |
| `PoolModel.FirstUsable` | internal/cgnat/pool.go:487-497 | the first address that is not excluded and passes the free test |
| `PoolModel.PairedIndex` | internal/cgnat/pool.go:477-485 | the first non-excluded address with the subscriber's IP |
| `PoolInvariant.AllocateGrants` | internal/cgnat/pool.go:464-538 | a successful allocation grants one block of the pool that was not marked and reports it with the pool's name and ID; a failed one changes nothing |
| `PoolInvariant.GrantKeepsInv` | internal/cgnat/pool.go:503-538 | granting an unmarked block keeps bitmap and table in agreement, appends exactly that block to the subscriber's list, keeps the interface of an existing subscriber and leaves the others alone |
| `PoolInvariant.ReleaseKeepsInv` | internal/cgnat/pool.go:200-230 | release keeps the agreement and removes exactly the subscriber's blocks |
| `PoolInvariant.PresentMeansHeld` | internal/cgnat/pool.go:386-394 | the presence scan by address and first port finds exactly a held block |
| `PoolInvariant.RestoreKeepsInv` | internal/cgnat/pool.go:376-425 | restoring a free block keeps the agreement and adds exactly that block; one the subscriber has changes nothing |
| `PoolInvariant.RestoreBreaksInv` | internal/cgnat/pool.go:376-425 | every other restore, which the code accepts too, breaks the agreement |
| `PoolInvariant.RunKeepsInv` | internal/cgnat/pool.go:200-230 | every run of allocations, get-or-allocates, releases and sound restores keeps the agreement |
| `PoolInvariant.RunKeepsInvIff` | internal/cgnat/pool.go:376-425 | the agreement holds after every front of a run exactly when all its restores are sound |
| `PoolInvariant.BitIffOneOwner` | internal/cgnat/pool.go:376-538 | a bit is set exactly when some subscriber holds that block and the position is the first with its address; then one subscriber holds it, once |
| `PoolInvariant.NoPortShared` | internal/cgnat/pool.go:508-509 | two held blocks that share a port of an address are the same block of the same subscriber |
| `PoolLaws.AllocateErrors` | internal/cgnat/pool.go:464-538 | each error of allocateLocked is returned exactly under its condition, and success exactly under the rest |
| `PoolLaws.GetOrAllocateFailsIff` | internal/cgnat/pool.go:431-462 | fails exactly when the subscriber holds no block and every non-excluded address is full; otherwise it reports the first block the subscriber then holds, field by field, and an existing one changes nothing |
| `PoolLaws.InPoolIff` | internal/cgnat/pool.go:70-71 | the blocks of a pool are exactly the blocks of ports of the configured size, a whole number of blocks from the start of the range and inside it, on its addresses |
| `PoolLaws.ExhaustedIff` | internal/cgnat/pool.go:487-501 | a pool has no free block exactly when somebody holds every such block of every address it may use |
| `PoolLaws.AllocateThenRelease` | internal/cgnat/pool.go:200-230 | allocating for a new subscriber and releasing restores the exact pool |
| `PoolLaws.RunKeepsPaired` | internal/cgnat/pool.go:468-526 | over every run of allocations and releases a subscriber's blocks are on one non-excluded address and never more than the maximum (section 4.1 of RFC 4787) |
| `PoolLaws.ConfigureInv` | internal/cgnat/pool.go:63-108 | a configured pool satisfies both invariants when no address but an excluded one is listed twice |
| `PoolDuplicates.DuplicateAddressDoubleBooks` | internal/cgnat/pool.go:63-108 | any list with an address that is not excluded at two positions: serving new subscribers one by one gives its block 0 to two of them |
| `PoolDuplicates.SoundNeverDoubles` | internal/cgnat/pool.go:464-538 | from a pool in agreement no run of allocations and releases gives one block to two subscribers |
| `PoolDuplicates.DoubleBooksIff` | internal/cgnat/pool.go:63-108 | a configured pool can be double booked exactly when an address has a block and one that is not excluded is listed twice |
| `PoolManager.AllocateOn` | internal/cgnat/pool.go:503-506 | allocation on one address leaves the other addresses' bitmaps alone |
| `PoolManager.FreeOn` | internal/cgnat/pool.go:219-225 | freeing on one address leaves the other addresses' bitmaps alone |
| `PoolManager.MarkOn` | internal/cgnat/pool.go:396-406 | marking on one address leaves the other addresses' bitmaps alone |
| `PoolManager.PoolState.constructor` | internal/cgnat/pool.go:99-105 | a new pool has its addresses and no subscribers |
| `PoolManager.PoolState.FindPaired` | internal/cgnat/pool.go:477-485 | the loop finds the subscriber's pinned address |
| `PoolManager.PoolState.FindUsable` | internal/cgnat/pool.go:487-497 | the loop finds the first usable address |
| `PoolManager.PoolState.FindAddress` | internal/cgnat/pool.go:219-225 | the loop finds the address by IP |
| `PoolManager.PoolState.FindTarget` | internal/cgnat/pool.go:476-497 | pinned address first, then the first usable one |
| `PoolManager.PoolState.AppendBlock` | internal/cgnat/pool.go:518-526 | the block joins the subscriber's list, creating the subscriber if needed |
| `PoolManager.PoolState.AllocateLocked` | internal/cgnat/pool.go:464-538 | the whole new pool and the result are those of the allocation function |
| `PoolManager.PoolState.GetOrAllocateLocked` | internal/cgnat/pool.go:431-462 | returns the first held block unchanged, or allocates |
| `PoolManager.PoolState.FreeOne` | internal/cgnat/pool.go:219-225 | clears the block's bit on its address |
| `PoolManager.PoolState.FreeAll` | internal/cgnat/pool.go:218-226 | the loop clears the bits of all listed blocks |
| `PoolManager.PoolState.ReleaseLocked` | internal/cgnat/pool.go:200-230 | the whole new pool is that of the release function |
| `PoolManager.PoolState.HasBlock` | internal/cgnat/pool.go:386-394 | the presence scan |
| `PoolManager.PoolState.MarkOne` | internal/cgnat/pool.go:396-406 | sets the block's bit on its address |
| `PoolManager.PoolState.RestoreLocked` | internal/cgnat/pool.go:376-425 | the whole new pool is that of restore-if-absent |
| `PoolManager.PoolState.Mappings` | internal/cgnat/pool.go:232-262 | one mapping per held block, in order |
| `PoolManager.PoolMappings` | internal/cgnat/pool.go:270-284 | each subscriber's blocks in order, the subscribers in any order |
| `PoolManager.MappingsOf` | internal/cgnat/pool.go:264-287 | the same over all pools, in any order |
| `PoolManager.GetAllMappings` | internal/cgnat/pool.go:264-287 | a full snapshot of the manager |
| `PoolManager.NewAddresses` | internal/cgnat/pool.go:73-97 | one fresh address object per IP, none shared |
| `PoolManager.NewPool` | internal/cgnat/pool.go:63-108 | the configured starting pool: per IP one address with its exclusion, as many blocks as fill the port range, and all of them free |
| `PoolManager.Manager.constructor` | internal/cgnat/pool.go:57-61 | no pools |
| `PoolManager.Manager.AddPool` | internal/cgnat/pool.go:99-105 | replaces the pool of that name and no other |
| `PoolManager.Manager.GetOrAllocateBlock` | internal/cgnat/pool.go:431-462 | changes only the named pool; an unknown pool is an error that changes nothing |
| `PoolManager.Manager.ReleaseBlocks` | internal/cgnat/pool.go:200-230 | changes only the named pool; an unknown pool is an error that changes nothing |
| `PoolManager.Manager.GetMappings` | internal/cgnat/pool.go:232-262 | the mappings of one subscriber in one pool, none for an unknown pool |
| `PoolManager.Manager.RestoreMappingIfAbsent` | internal/cgnat/pool.go:370-425 | changes only the named pool; an unknown pool is an error that changes nothing |
| `Snapshot.SnapshotRoundTrip` | internal/cgnat/pool.go:264-287 | replaying a snapshot into a freshly configured identical pool rebuilds the very pool |
| `Snapshot.ReplayAnyOrder` | internal/cgnat/pool.go:370-425 | replaying the mappings in any order, any number of times, rebuilds the same bitmaps and block sets |
| `Snapshot.ReachableRoundTrip` | internal/cgnat/pool.go:264-287 | the round trip holds for every pool that a run with sound restores reaches from any configuration that lists no used address twice |
| `Snapshot.FullRoundTrip` | internal/cgnat/pool.go:264-287 | the round trip holds for all pools at once |
| `ReverseIndex.AddCoherentIff` | internal/cgnat/mapping.go:32-42 | Add keeps byBlock and byIP describing the same set exactly when the block was not indexed |
| `ReverseIndex.RemoveCoherent` | internal/cgnat/mapping.go:44-67 | Remove keeps them in step and removes exactly that block |
| `ReverseIndex.LookUpIsExact` | internal/cgnat/mapping.go:69-87 | Lookup returns exactly the indexed mapping whose block covers the port |
| `ReverseIndex.ReAddLeavesStale` | internal/cgnat/mapping.go:32-67 | adding a block again and removing it leaves an entry that Lookup still finds |
| `ReverseIndex.Reverse.Add` | internal/cgnat/mapping.go:32-42 | the two maps after Add |
| `ReverseIndex.Reverse.Remove` | internal/cgnat/mapping.go:44-67 | the splice loop removes the one entry and deletes an empty list |
| `ReverseIndex.Reverse.Lookup` | internal/cgnat/mapping.go:69-87 | the loop returns the first covering entry |
| `ActivationSafety.NextSafe` | internal/cgnat/component.go:514-574 | every step of every handler keeps sessions, phases and tables in agreement; an activation that takes effect must find its slot unclaimed and no release of its session running |
| `ActivationRuns.RunSafe` | internal/cgnat/component.go:399-407 | over every interleaving with sound activations, overlapping releases and reused inside addresses included, the agreement holds |
| `ActivationRuns.InitialSafe` | internal/cgnat/component.go:94-115 | the component starts in agreement |
| `ActivationRuns.BlocksMatchSessions` | internal/cgnat/component.go:514-574 | in agreement the allocated blocks are in bijection with the sessions owed one: no leak, no second block; with no release running these are the committed and in-flight ones |
| `ActivationRuns.BijectionOverRuns` | internal/cgnat/component.go:399-407 | from the start, over every run with sound activations, the bijection holds |
| `ActivationRuns.DuplicateActivation` | internal/cgnat/component.go:767-784 | a repeated activation changes nothing |
| `ActivationRuns.RollBackIsExact` | internal/cgnat/component.go:538-543 | a failed callback frees exactly the block it was called for |
| `ActivationRuns.ReleaseAloneFrees` | internal/cgnat/component.go:657-760 | an undisturbed release frees the session's block and forgets the session |
| `ActivationRuns.ReleaseLeavesBlockIff` | internal/cgnat/component.go:705-718 | right after a release the slot holds a block exactly when an activation of the session is between its allocation and its commit or rollback |
| `ActivationRuns.ReleaseForgets` | internal/cgnat/component.go:705-753 | whatever the state, a release run to its end leaves its session uncommitted and the activations where they were |
| `ReleaseLost.LostReleaseCommits` | internal/cgnat/component.go:705-718 | from every safe state with an activation begun that a block may serve, out, or about to commit: after the release a run without further activations commits the session with its block |
| `ReleaseLost.NeverCommits` | internal/cgnat/component.go:705-753 | in every other safe state no such run ever commits the released session |
| `ReleaseLost.ReleaseLostIff` | internal/cgnat/component.go:705-718 | so a release is lost exactly when such an activation is under way |
| `ActivationEnds.ActivationAlwaysEnds` | internal/cgnat/component.go:514-574 | from every safe state an activation under way, whatever its phase and the dataplane's answer, ends in its own steps: its reservation is gone, the session is committed exactly when it has a block and the answer is ok, and nothing else has changed |
| `ActivationEnds.FailureCanRetry` | internal/cgnat/component.go:538-543 | one that fails leaves no block, the next activation takes effect, and with room it goes on to the dataplane |
| `ActivationExact.ReleaseRunning` | internal/cgnat/component.go:721-753 | an activation with a block to take, while a release of its slot has not freed yet, has a continuation that breaks the bijection |
| `ActivationExact.ForgetPending` | internal/cgnat/component.go:751-753 | so has one before a release of the session that has freed forgets it |
| `ActivationExact.ClaimedElsewhere` | internal/cgnat/component.go:514-533 | so has one while another session claims the inside address |
| `ActivationRoom.MakesRoom` | internal/cgnat/pool.go:431-462 | from every safe state in which the pool has a block to give at all, another session's handlers can lead to one with a block for this session, its slot as it was |
| `ActivationExact.ActivateSafeIff` | internal/cgnat/component.go:767-784 | from every safe state an activation of a session whose pool has a block to give, free or not, keeps the bijection in every continuation exactly when no other session claims its slot and no release of it runs |
| `ActivationLookup.LookUpNamesHolder` | internal/cgnat/mapping.go:69-87 | in agreement, Lookup names the session that holds the port, and nobody exactly when none does |
| `LookupRuns.NextIndex` | internal/cgnat/component.go:560-565 | every step whose Add or Remove is sound keeps the index right |
| `LookupRuns.LateAddBreaks` | internal/cgnat/component.go:560-565 | an Add after its session was released or its mapping removed leaves the index wrong |
| `LookupRuns.StrayRemoveBreaks` | internal/cgnat/component.go:736-750 | a Remove that meets the entry of another slot leaves the index wrong |
| `LookupRuns.IndexStepIff` | internal/cgnat/component.go:736-750 | after any step the index is right exactly when the step was sound |
| `LookupRuns.RunFull` | internal/cgnat/component.go:560-565 | over every run with sound activations and index steps, tables and index agree |
| `LookupRuns.AlwaysMatchesIff` | internal/cgnat/component.go:560-565 | the index is right after every front of a run exactly when the index steps are sound |
| `LookupRuns.LookUpOverRuns` | internal/cgnat/mapping.go:69-87 | from the start, over every such run, Lookup names the holder of the port, or nobody |
| `LookupRuns.LookUpAtRest` | internal/cgnat/mapping.go:69-87 | with no handler running Lookup answers exactly for the ports of the committed sessions |
| `LookupRuns.QuietRunIsSound` | internal/cgnat/component.go:705-718 | the index steps are sound when every release that finds its session committed finds no other release of it and its Add done |
| `LookupRuns.QuietLookUp` | internal/cgnat/component.go:705-718 | so Lookup is right over every such run, releases during the dataplane call included |
| `LookupRuns.ReleaseBeforeAddLeavesStale` | internal/cgnat/component.go:560-565 | from every state with the Add due: a release that runs first leaves Lookup answering for ports nobody holds |
| `ActivationHandlers.Component.BeginActivation` | internal/cgnat/component.go:767-784 | reserves the slot exactly for a session that is neither committed nor activating |
| `ActivationHandlers.Component.constructor` | internal/cgnat/component.go:94-115 | a component over a given pool manager, with an empty reverse index |
| `ActivationHandlers.Component.AllocateBlock` | internal/cgnat/component.go:519-533 | get-or-allocate on the bitmaps of the pool manager is the allocation step of the machine |
| `ActivationHandlers.Component.CommitMapping` | internal/cgnat/component.go:560-574 | session map, then Add on the reverse index, then done |
| `ActivationHandlers.Component.HandleActivate` | internal/cgnat/component.go:399-407 | the handler run to its end is the composition of its steps; one that takes effect leaves a call out or its reservation given back; from a safe state, with room, a sound one leaves a call out; a sound one keeps the agreement between the bitmaps, tables and sessions |
| `ActivationHandlers.Component.HandleCallback` | internal/cgnat/component.go:537-553 | the callback, success or failure, is the composition of its steps, gives the reservation back, commits exactly on success, leaves no block on failure and keeps the agreement |
| `ActivationHandlers.FailedThenCalls` | internal/cgnat/component.go:538-543 | after a failed callback from a safe state the next activation, with room, has a call out again |
| `ActivationHandlers.Component.RollBackBlock` | internal/cgnat/component.go:538-543 | the release of a failed callback on the bitmaps is the roll-back step |
| `ActivationHandlers.Component.ReadMappings` | internal/cgnat/component.go:721-732 | the mappings read from the pool manager are those of the machine |
| `ActivationHandlers.Component.RemoveMappings` | internal/cgnat/component.go:736-748 | the loop takes every read mapping out of the reverse index |
| `ActivationHandlers.Component.FreeHeld` | internal/cgnat/component.go:750 | the release on the bitmaps is the freeing step |
| `ActivationHandlers.Component.HandleRelease` | internal/cgnat/component.go:657-760 | the handler run to its end is the composition of its steps, forgets its session and nothing else, and keeps the agreement, whatever other releases are running |
| `RestoreQueue.RunValid` | internal/cgnat/component.go:791-825 | over every run each event is exactly one of dispatched once, waiting, in a goroutine's hand, or dropped, and the queue keeps its bound |
| `RestoreQueue.InitialValid` | internal/cgnat/component.go:94-115 | the empty queue is where every run starts |
| `RestoreQueue.DrainKeepsOrder` | internal/cgnat/component.go:808-825 | waiting events are dispatched in arrival order |
| `RestoreQueue.DirectOvertakes` | internal/cgnat/component.go:808-825 | an event that arrives during the drain can go before those still waiting |
| `RestoreQueue.DirectsSwap` | internal/cgnat/component.go:328-333 | an event handed back can go before one handed back earlier |
| `RestoreQueue.SwapAfterDrain` | internal/cgnat/component.go:328-333 | two events that arrive after the drain is over can be dispatched the other way round |
| `RestoreQueue.ArriveInOrderIff` | internal/cgnat/component.go:791-806 | from every state in order so far, an arrival stays in order whatever the goroutines do exactly when the queue is open or all that left it is dispatched |
| `RestoreQueue.ArrivalOrderIff` | internal/cgnat/component.go:791-825 | over every run: at each point of it every continuation without arrivals dispatches in arrival order exactly when every arrival found the queue so |
| `RestoreQueue.DropsRaiseAlarm` | internal/cgnat/component.go:791-844 | a drop marks the component degraded until a recovery clears it |
| `RestoreQueue.DroppedIff` | internal/cgnat/component.go:797-803 | over every run the dropped events are exactly those from the 4097th on that arrive before the drain begins |
| `RestoreQueue.DegradedIff` | internal/cgnat/component.go:827-844 | over every run the component is degraded exactly when a restore failed or an event was dropped since the last recovery |
| `RestoreQueue.EventQueue.constructor` | internal/cgnat/component.go:94-115 | the empty queue of the machine |
| `RestoreQueue.EventQueue.MaybeEnqueue` | internal/cgnat/component.go:791-806 | the critical section is an arrival of the machine; the event is dropped, with the alarm, exactly when the queue is open and 4096 wait, joins the queue when fewer do, and is in the caller's hand exactly when it answers false |
| `RestoreQueue.EventQueue.DispatchInHand` | internal/cgnat/component.go:332 | the dispatch after the unlock is a step of its own |
| `RestoreQueue.EventQueue.Receive` | internal/cgnat/component.go:328-333 | a subscriber callback that nothing interrupts is the arrival and, if handed back, the dispatch |
| `RestoreQueue.EventQueue.BeginDrain` | internal/cgnat/component.go:808-813 | the locked part is the machine's begin of the drain; what it returns are the waiting events in order of arrival |
| `RestoreQueue.EventQueue.DispatchTaken` | internal/cgnat/component.go:815-824 | the loop hands the taken events to the handlers in order, each a dispatch of the machine |
| `RestoreQueue.EventQueue.DrainQueue` | internal/cgnat/component.go:808-825 | undisturbed, everything that waited is handed over in order of arrival |
| `Reconcile.ConvergesToConfig` | internal/cgnat/reconcile.go:156-209 | with drop_orphans the state a run reaches is the configured one, whatever was there before |
| `Reconcile.WantedChildrenIff` | internal/cgnat/reconcile.go:370-410 | a child is wanted exactly when some configured pool of that ID lists that prefix with that VRF, or that address |
| `Reconcile.MatchesHoldsConfig` | internal/cgnat/reconcile.go:280-301 | a dataplane that matches the goal holds each configured pool under its ID field by field, each parseable prefix and address, and nothing else |
| `Reconcile.SettledIncludesConfig` | internal/cgnat/reconcile.go:280-301 | a settled dataplane holds at least that |
| `Reconcile.DisruptsIff` | internal/cgnat/reconcile.go:303-368 | a mutation disrupts exactly when it takes mappings, hard fields or a child from a pool with mappings |
| `Reconcile.TargetIsSettled` | internal/cgnat/reconcile.go:156-209 | the state a run reaches leaves nothing to do |
| `Reconcile.SettledIsTarget` | internal/cgnat/reconcile.go:156-209 | a settled dataplane is its own target |
| `Reconcile.ActivePoolsUndisturbed` | internal/cgnat/reconcile.go:303-368 | a run that does not disrupt leaves every pool with mappings its hard fields, mappings and children |
| `Reconcile.PlannedIsSafe` | internal/cgnat/reconcile.go:303-368 | when nothing would be disrupted no planned mutation disrupts |
| `Reconcile.SettledPlansNothing` | internal/cgnat/reconcile.go:439-547 | a settled dataplane gets no mutation |
| `Reconcile.DriftIsDifference` | internal/cgnat/reconcile.go:227-257 | poolHardDrift reports each field exactly when the dataplane's value is not the configured one, modes read from their strings, and nothing exactly when all agree |
| `Reconcile.OneMorePlan` | internal/cgnat/reconcile.go:160-205 | executing one plan moves the dataplane to the state after one more plan, whatever the order |
| `Reconciler.Dataplane.AddPool` | internal/cgnat/reconcile.go:280-301 | a call that succeeds updates in place or replaces and empties; one that fails changes nothing |
| `Reconciler.Dataplane.DelPool` | internal/cgnat/reconcile.go:197-199 | removes the pool and its children, or fails without change |
| `Reconciler.Dataplane.AddChild` | internal/cgnat/reconcile.go:549-563 | adds the child, or fails without change |
| `Reconciler.Dataplane.DelChild` | internal/cgnat/reconcile.go:490-495 | removes the child; an absent one answers "no such entry" |
| `Reconciler.Dataplane.constructor` | internal/cgnat/reconcile.go:86-110 | a dataplane with any state and any set of failing calls |
| `Reconciler.PlanWanted` | internal/cgnat/reconcile.go:115-143 | one plan per wanted pool; a collision exactly when two names share an ID |
| `Reconciler.PlanOrphans` | internal/cgnat/reconcile.go:144-154 | one drop plan per present pool that is not wanted |
| `Reconciler.BuildPlans` | internal/cgnat/reconcile.go:112-154 | one plan per wanted or present pool |
| `Reconciler.HasActive` | internal/cgnat/reconcile.go:430-437 | some plan of that pool has active mappings |
| `Reconciler.PlansDisrupt` | internal/cgnat/reconcile.go:312-331 | some plan replaces or drops a pool with mappings |
| `Reconciler.ChildrenDisrupt` | internal/cgnat/reconcile.go:333-357 | some unwanted child belongs to a pool with mappings |
| `Reconciler.Preflight` | internal/cgnat/reconcile.go:303-368 | refuses exactly when disruption is not allowed and reaching the target would need some |
| `Reconciler.ApplyPlan` | internal/cgnat/reconcile.go:161-204 | one plan's effect, and only planned mutations in the log |
| `Reconciler.ApplyPlans` | internal/cgnat/reconcile.go:160-205 | after the loop the pools are the target's, whatever the order of the plans |
| `Reconciler.ClearedPools` | internal/cgnat/reconcile.go:443-454 | the two sets are exactly the pools that lost their children |
| `Reconciler.AddChildren` | internal/cgnat/reconcile.go:463-478 | adds exactly the wanted children the dataplane lacks |
| `Reconciler.DropChildren` | internal/cgnat/reconcile.go:479-500 | deletes exactly the unwanted children of the pools that kept theirs |
| `Reconciler.ReconcileChildren` | internal/cgnat/reconcile.go:439-547 | after both kinds the children are the target's |
| `Reconciler.Verify` | internal/cgnat/reconcile.go:565-584 | accepts exactly when every wanted pool is there without hard drift |
| `Reconciler.AllNoop` | internal/cgnat/reconcile.go:217-223 | all plans are no-ops exactly when the pools match the configuration field by field and none is extra |
| `Reconciler.Converge` | internal/cgnat/reconcile.go:160-209 | pools then children reach the target |
| `Reconciler.Execute` | internal/cgnat/reconcile.go:156-225 | preflight, apply, verify and the divergence policy, each outcome under its exact condition |
| `Reconciler.ReconcileWith` | internal/cgnat/reconcile.go:86-225 | collision, refusal and dump errors leave the dataplane untouched; otherwise the target is reached in any order; without permission nothing disruptive is ever issued, even if a call fails midway; verification never fails; a settled dataplane gets no mutation; a run that gets through leaves every configured pool, prefix and address in the dataplane, with drop_orphans nothing else |
| `Reconciler.ReconcileTwice` | internal/cgnat/reconcile.go:86-225 | after a run that got through, the next issues no mutation and is neither refused nor a collision; with drop_orphans it converges to the configuration, and without permission active pools are as before both |
| `Checksum.WordSum` | internal/ra/ra.go:303-313 | a bound on the sum that rules out overflow |
| `Checksum.Sum16` | internal/ra/ra.go:303-313 | the loop's uint32 result is the word sum modulo 2^32, odd lengths padded |
| `Checksum.Fold` | internal/ra/ra.go:315-320 | the folded value fits sixteen bits |
| `Checksum.CarryKeepsFold` | internal/ra/ra.go:315-320 | one carry-around keeps the residue modulo 0xffff |
| `Checksum.Fold16` | internal/ra/ra.go:315-320 | the loop computes the residue modulo 0xffff, 0xffff standing for a non-zero multiple |
| `Checksum.NoWrap` | internal/ra/ra.go:324-331 | for an IPv6-sized payload no uint32 wraps |
| `Checksum.PatchValidIff` | internal/ra/ra.go:322-331 | the written complement makes the packet valid exactly when the field was 0x0000 or 0xffff |
| `Checksum.ChecksumIsUnique` | internal/ra/ra.go:324-331 | no other value below 0xffff makes the packet valid |
| `Checksum.PacketSum16` | internal/ra/ra.go:324-330 | pseudo-header and message summed with wrapping additions |
| `Checksum.PacketSumIsRfc` | internal/ra/ra.go:328-330 | the sum folds to the one's-complement sum of the pseudo-header bytes and the message (section 8.1 of RFC 8200) |
| `Checksum.PatchChecksum` | internal/ra/ra.go:324-331 | writes only the checksum field; under 44 bytes nothing; the result is valid exactly when the field was 0x0000 or 0xffff (section 2.3 of RFC 4443, section 8.1 of RFC 8200) |
| `Checksum.CopyWithDst` | internal/pppoe/ra.go:247-249 | a fresh copy of the template with the destination in place |
| `Checksum.Replicate` | internal/pppoe/ra.go:247-250 | a fresh valid packet that differs from the template only in destination and checksum; the template is unchanged |
| `Checksum.Engine.constructor` | internal/ra/ra.go:356-362 | an empty cache |
| `Checksum.Engine.GroupStateFor` | internal/ra/ra.go:369-403 | a cached state is returned while the configuration is the same; a new one has the resolved bytes with a zero checksum field and the resolved refresh; failures are not cached; over all calls every cached template keeps its bytes |
| `Checksum.Engine.Advertise` | internal/pppoe/ra.go:238-251 | what an emit sends is the group's resolved advertisement but for destination and checksum, and valid |
| `RaWheel.BucketCount` | internal/pppoe/ra.go:43-63 | the least positive refresh clamped to 10..600 |
| `RaWheel.RefreshIsLongest` | internal/ra/ra.go:126-152 | the refresh is the longest interval within a third of the advertised lifetime and the maximum, raised to the minimum; zero exactly without a lifetime |
| `RaWheel.OnlyUpBursts` | internal/pppoe/component.go:1263-1265 | over every run only coming up starts a burst; a restored session gets none |
| `RaWheel.PlaceKeeps` | internal/pppoe/ra.go:78-92 | enrolling keeps every session in its hash bucket once |
| `RaWheel.RemoveKeeps` | internal/pppoe/ra.go:96-110 | withdrawing removes exactly that session |
| `RaWheel.NextInv` | internal/pppoe/ra.go:115-137 | every event keeps one slot per up session and every deadline |
| `RaWheel.RunInv` | internal/pppoe/ra.go:115-137 | over every run |
| `RaWheel.Deadline` | internal/pppoe/ra.go:177-266 | over every run, with ups and downs between the two critical sections of an emit included, an up session waits at most max(refresh, 16) + buckets - 1 ticks for its next advertisement and for its first; fewer than buckets ticks for its first when no due time is left over |
| `RaWheel.FirstWithinATurn` | internal/pppoe/ra.go:205-265 | when the session never goes down between the two critical sections of an emit to it, its first advertisement takes fewer than buckets ticks |
| `RaLifetime.LifetimeCovered` | internal/ra/ra.go:126-152 | refresh at least 10 and minimum interval at most a third of the lifetime put the deadline below the advertised lifetime |
| `RaLifetime.RouteNeverExpires` | internal/pppoe/ra.go:112-114 | under that condition no run lets the route expire (sections 6.2.1 and 6.2.4 of RFC 4861) |
| `RaLifetime.WorstRun` | internal/pppoe/ra.go:115-266 | a run in which a session waits exactly refresh + buckets - 1 ticks |
| `RaLifetime.KickCrowd` | internal/pppoe/session.go:668-688 | any number of other sessions can be in the burst set and down: each comes up, is taken off the channel and goes down |
| `RaLifetime.WorstBurst` | internal/pppoe/ra.go:144-175 | a run in which 2048 such sessions fill every burst walk and a session waits exactly 16 + buckets - 1 ticks |
| `RaLifetime.TornEmitDelays` | internal/pppoe/ra.go:205-265 | a run with a Down between the two critical sections of an emit in which an up session waits a whole refresh without a first advertisement |
| `RaLifetime.AlwaysAliveIff` | internal/pppoe/ra.go:112-114 | the route is alive in every run exactly when max(refresh, 16) + buckets - 1 is below the lifetime |
| `RaLifetime.ShortLifetimeExpires` | internal/pppoe/ra.go:43-63 | a lifetime of at most 25 seconds expires in some run, whatever the refresh interval |
| `RaEmitter.Emitter.PlaceSession` | internal/pppoe/ra.go:78-92 | the scan and append |
| `RaEmitter.Emitter.RemoveSession` | internal/pppoe/ra.go:96-110 | the scan and splice |
| `RaEmitter.Emitter.OnUp` | internal/pppoe/session.go:668-680 | starts the burst, enrols, kicks unless the channel is full, keeps the invariant |
| `RaEmitter.Emitter.OnRestore` | internal/pppoe/component.go:1263-1265 | enrols a restored session without a burst |
| `RaEmitter.Emitter.OnKick` | internal/pppoe/ra.go:129-130 | the channel's first session joins the burst set |
| `RaEmitter.Emitter.constructor` | internal/pppoe/ra.go:115-125 | an empty wheel at its first bucket |
| `RaEmitter.Emitter.OnDown` | internal/pppoe/session.go:682-688 | withdraws and clears the due time |
| `RaEmitter.Emitter.SendIfDue` | internal/pppoe/ra.go:204-251 | sends exactly when the session is up and due; the first half of an emit |
| `RaEmitter.Emitter.StoreDue` | internal/pppoe/ra.go:253-265 | burst count and next due time, whatever became of the session; the second half |
| `RaEmitter.Emitter.EmitPeriodic` | internal/pppoe/ra.go:204-266 | both halves with nothing between are one offer |
| `RaEmitter.Emitter.EmitBucket` | internal/pppoe/ra.go:177-198 | each listed session is offered one emit |
| `RaEmitter.Emitter.WalkInitial` | internal/pppoe/ra.go:144-175 | offers an emit to bursting sessions, at most 2048 a tick, and drops the finished ones it meets |
| `RaEmitter.Emitter.OnTick` | internal/pppoe/ra.go:131-134 | bucket, cursor and burst walk together are the machine's tick |
| `IdList.RemoveFirstIs` | internal/pppoe/ra.go:102-108 | removing the first occurrence from a duplicate-free list removes exactly that ID |
| `IdList.RemoveOne` | internal/aaa/component.go:724-729 | the splice loop removes the first occurrence |
| `IdList.Contains` | internal/aaa/component.go:489-493 | the scan loop |
| `Accounting.NextInv` | internal/aaa/component.go:471-496 | every locked step and every message of every handler keeps buckets, cache, messages under way and history in agreement |
| `Accounting.RunInv` | internal/aaa/component.go:498-731 | over every run whose overlaps are the ones the handlers stand |
| `Accounting.AccountingOverRuns` | internal/aaa/component.go:573-623 | two Starts have a Stop or a restart between them, none between a restore and the next release; the listed sessions are the confirmed cache entries, each once in its hash bucket; once its messages are out a session is listed exactly when the server has it open (section 5.1 of RFC 2866) |
| `Accounting.StopBetweenStarts` | internal/aaa/component.go:626-631 | without a restart it is always a Stop |
| `Accounting.ActivationStartsIff` | internal/aaa/component.go:580-623 | with nothing of the session under way, an activation sends a Start exactly when this process does not track the session |
| `Accounting.RestartThenActivate` | internal/aaa/component.go:636-709 | after a restart an activation before the restore sends a Start, after it none |
| `Accounting.PlacedSweeps` | internal/aaa/component.go:471-496 | whatever stale copies lie in other buckets, placing leaves the session once and in its hash bucket |
| `Accounting.PurgedClears` | internal/aaa/component.go:722-731 | a release leaves no copy in any bucket and the other sessions alone |
| `Accounting.RowSurvivesIff` | internal/aaa/accounting.go:208-229 | over every run that leaves the row alone, an unconfirmed row goes, checkpoint included, exactly with a prune at its deadline or later; a confirmed one stays |
| `Accounting.LoadedSurvivesIff` | internal/aaa/accounting.go:144-229 | a row loaded at a restart survives every prune in its first 300 seconds and none after |
| `AccountingExact.RestoreDuringActivation` | internal/aaa/component.go:636-647 | after a restore between an activation's placement and its Start, some way for what is under way to finish breaks what AccountingOverRuns promises |
| `AccountingExact.ReleaseDuringActivation` | internal/aaa/component.go:711-731 | the same for a release between an activation's placement and its Start |
| `AccountingExact.ReleaseDuringRestore` | internal/aaa/component.go:711-731 | the same for a release between the halves of a restore |
| `AccountingExact.RestoreDuringRelease` | internal/aaa/component.go:636-709 | the same for a restore between the start of a release and its Stop |
| `AccountingExact.ActivationDuringRelease` | internal/aaa/component.go:580-623 | the same for an activation of an unlisted session between the start of a release and its Stop |
| `AccountingExact.OrderlyIff` | internal/aaa/component.go:498-781 | from every state in agreement: a step that is none of these five overlaps leaves every orderly continuation right, and each of the five can finish wrong with no further handler |
| `AccountingExact.OrderlyRunIff` | internal/aaa/component.go:498-781 | at every point of a run what is under way can only finish right, exactly when the run has none of the five |
| `AccountingExact.WindowSendsTwoStarts` | internal/aaa/component.go:731-778 | an activation between a release's purge and its Stop puts a Start after a Start with no Stop between |
| `AccountingExact.OverlapSendsTwoStarts` | internal/aaa/component.go:580-623 | a release between the locked steps of an activation makes the next activation send a second Start in a row |
| `AccountingHandlers.Component.constructor` | internal/aaa/component.go:109-127 | empty buckets, cache and history |
| `AccountingHandlers.Component.Reload` | internal/aaa/accounting.go:144-194 | a new process holds every checkpoint it finds, whichever those are, as a pending entry |
| `AccountingHandlers.Component.Place` | internal/aaa/component.go:471-496 | sweep of the other buckets, then scan and append; reports presence exactly |
| `AccountingHandlers.Component.SweepAll` | internal/aaa/component.go:477-487 | removes the session from every other bucket |
| `AccountingHandlers.Component.PurgeAll` | internal/aaa/component.go:722-731 | removes the session from every bucket |
| `AccountingHandlers.Component.BeginActive` | internal/aaa/component.go:580-583 | the bucket half of an activation; an orderly one keeps the agreement, a repeated one included |
| `AccountingHandlers.Component.FinishActive` | internal/aaa/component.go:587-606 | the cache half, with the Start on its way |
| `AccountingHandlers.Component.StartAccounting` | internal/aaa/component.go:623 | the goroutine's Start is a step of its own |
| `AccountingHandlers.Component.BeginRestored` | internal/aaa/component.go:636-647 | the bucket half of a restore; an orderly one keeps the agreement |
| `AccountingHandlers.Component.FinishRestored` | internal/aaa/component.go:661-709 | confirms or seeds the entry and sends no Start |
| `AccountingHandlers.Component.BeginRelease` | internal/aaa/component.go:711-720 | the cache half of a release; an orderly one keeps the agreement |
| `AccountingHandlers.Component.FinishRelease` | internal/aaa/component.go:722-731 | the bucket half, with the Stop on its way |
| `AccountingHandlers.Component.StopAccounting` | internal/aaa/component.go:778 | the goroutine's Stop is a step of its own |
| `AccountingHandlers.Component.DropExpired` | internal/aaa/accounting.go:208-229 | drops exactly the pending entries past their deadline |
| `AccountingHandlers.Component.PruneOrphans` | internal/aaa/accounting.go:208-229 | the same as a step of the machine, with the number dropped |
| `IdAllocator.ScanIsComplete` | internal/l2tp/id_allocator.go:49-60 | 65535 steps from anywhere meet every identifier |
| `IdAllocator.AllocatedKeeps` | internal/l2tp/id_allocator.go:32-61 | an allocation yields no zero and nothing in use, and before the first wrap the counter itself |
| `IdAllocator.RunValid` | internal/l2tp/id_allocator.go:25-93 | every state of a run of a new allocator has its counter in range and, before the first wrap, above every identifier in use |
| `IdAllocator.AllocatesAbove` | internal/l2tp/id_allocator.go:32-93 | over every run of a new allocator an allocated identifier is not zero and not in use, and before the first wrap it exceeds every one issued or reserved before |
| `IdAllocator.AllHeldIffCount` | internal/l2tp/id_allocator.go:96-100 | all identifiers are held exactly when the count is 65535 |
| `IdAllocator.IDAllocator.constructor` | internal/l2tp/id_allocator.go:25-30 | the counter at one, nothing held |
| `IdAllocator.IDAllocator.Allocate` | internal/l2tp/id_allocator.go:32-61 | the first free identifier from the counter on; fails exactly when all are held |
| `IdAllocator.IDAllocator.Scan` | internal/l2tp/id_allocator.go:49-60 | one turn of the cycle |
| `IdAllocator.IDAllocator.Release` | internal/l2tp/id_allocator.go:63-70 | frees the identifier; zero changes nothing |
| `IdAllocator.IDAllocator.Reserve` | internal/l2tp/id_allocator.go:75-93 | succeeds exactly for a free non-zero identifier and moves the counter past it before the first wrap |
| `IdAllocator.IDAllocator.Count` | internal/l2tp/id_allocator.go:96-100 | the number held; 65535 exactly when exhausted |
| `CliBody.FlattenPrefixFree` | cmd/osvbngcli/contract.go:373-450 | flattened paths are pairwise distinct and none is a prefix of another |
| `CliBody.FlattensIff` | cmd/osvbngcli/contract.go:373-450 | a schema is flattened exactly when nothing reachable in it allows additional properties, lacks a type, or is an array with missing or structured items |
| `CliBody.FlagsAreLeaves` | cmd/osvbngcli/contract.go:373-450 | the flags are exactly the leaves found by walking the schema, with their requirement and arity |
| `CliBody.AssignGet` | cmd/osvbngcli/shell.go:472-513 | one assignment sets the end of its path, makes the way objects, and changes nothing else |
| `CliBody.BodyIsRight` | cmd/osvbngcli/shell.go:472-513 | over any sequence of prefix-free assignments the leaves are exactly the assigned paths, with the last value or the list in order, and no intermediate node is overwritten |
| `CliBody.FlagsRoundTrip` | cmd/osvbngcli/shell.go:357 | values given through a schema's flags come back out of the body at the flags' paths |
| `VlanRanges.ContiguousRanges` | internal/l2gw/component.go:293-311 | sorted, disjoint, non-adjacent ranges whose union is exactly the given VLANs, for any list and at 65535 |
| `VlanRanges.CanonicalIsUnique` | internal/l2gw/component.go:293-311 | there is only one such list for a set of VLANs |
| `VlanRanges.Sort` | internal/l2gw/component.go:297-298 | an ascending list with the same VLANs |

## Left out

- The HA-synced restore of a mapping (`internal/cgnat/component.go:576-635`): restores enter the pool model only, where any restore is allowed and the sound ones are characterised.
- `restoreFromOpDB` and `RecoverDataplane`: they read stores and a dataplane that are not part of this model.
- Deterministic and bypass sessions, and classifySession: a session here is one that resolves to a port-block pool; the VRF is always 0, as the code passes it.
- `AllocateBlock` of the pool manager: the same code as allocateLocked under another lock.
- `GetPoolStats`, `FindPoolForIP`, `LookupByIP`: reads that would add only easy members.
- The text form of addresses and prefixes, and the FNV hash: addresses are numbers, prefixes opaque strings, and every hash an arbitrary function.
- Configuration getters: block size at least 1 and a non-empty port range below 65536 are assumed of a pool's configuration.
- `populateLocalState` and the check for a missing CGNAT section in reconcile: a map copy and an early return.
- Reconciler.Dataplane.AddPool: how the dataplane treats a repeated pool add is taken from what reconcile relies on; nothing else changes the dataplane during a run.
- Reconciler.ReconcileChildren: prefixes and addresses are one datatype with two kinds, worked through one kind after the other.
- Serialisation of packets: a template is any byte string of at least 44 bytes.
- RaWheel.Deadline: an emit that nothing interrupts is part of its tick as a whole; ticks are exactly one second apart, the configuration stays the same and readable, and eligibility (redundancy group active, group found, MAC known) does not change; LAC handoff and the cease advertisement are not modelled.
- IPoE's own Router Advertisement buckets: they append without the duplicate check.
- Accounting: interim updates and their counters are not modelled; which checkpoints a restart finds is left open, because they are written and deleted in the background; a message takes effect when it is sent.
- Accounting.AccountingOverRuns: asks for the overlaps OrderlyIff shows to be the exact ones.
- CliBody.AssignGet: the nested maps are values, so the in-place update through one reference and aliasing between bodies are not captured; schemas are finite trees, so cyclic references are not either.
- `tokenizeLine`, flag names and the sorting of flags: text handling around the two functions modelled here.
- L2TP control channel, PPP state machines, DHCP and IPoE packet handling, routing, gateway API and the wiring of main.
