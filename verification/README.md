# A model of the replay engine

wekai replays captured agent traffic against an inference fleet. Around the replay sit
offline simulators that must agree with a much simpler definition, and small concurrent
protocols whose guarantees are stated in comments. This project models them in Dafny and
proves what they promise.

- **Cache simulators.** `TtlCaches` is the definition: one cache per window that forgets
  idle entries. `RetentionSim` is the one-pass trie that replaces it, `PrefixStore` the
  delta-compressed requests it can read from, `PrefillCache` the memo that must not be seen.
- **Session replay.** `InstanceActions` decides which instance fires, waits or is dropped;
  `SessionRun` runs the goroutines and their done-channels in every interleaving;
  `Truncation` cuts a session without orphaning a child.
- **Shared state.** `ConcurrencyGate` and `GateProtocol`, `UuidRegistry` and
  `RegistryProtocol`, `LiveView`: the objects as the code has them, and a state machine with
  one step per critical section.
- **Stream.** `ReplayIndex` finds the index and orders the laps; `ReplayProducers` shows that
  the two producers emit the same sessions.
- **Simulators and governor.** `SimQueue` and `AdmissionSim`, `DatasetSim`,
  `AdmissionGates` (the admission gate that exists twice), `Realtime` (the TTFT window).
- **Accumulators, layout, wire.** `RateAccum`, `SubRows`, `SynthText`, `Injection`,
  `ChatMessages`.

Objects whose methods update fields are classes. Where one body would be too much for one
proof it is split into methods that keep the order of its statements. Each class is tied to a
specification function or relation, and the promises are proved about that.

What the proofs turned up, where the code and its comments part:

- `benchmark/admission_sim.go:160-163` promises completions before arrivals at the same
  instant; the kinds are numbered the other way round, so arrivals come first.
- `promoted` counts instances whose owner chain ends in an excluded parent as well as those in
  a cycle, while the log line at `benchmark/replay_router.go:952-955` speaks of cycles
  (`PromotedWithoutCycle`).
- A request id owned by two instances can close its channel twice: the closing is a check
  and then a close. It happens in some interleaving exactly when both owners can get going
  while the channel is open (`SessionRun.DoubleCloseIffRace`), as two firing ones always can.
- A gate waiter that takes `ctx.Done` after being granted leaves its slot charged for good,
  and `Release` hands a slot on whatever the limit has become.
- `benchmark/replay_truncate.go:20-28` says no surviving child loses its parent's request. A
  missing time stamp (`UntimedSpawnOrphans`) or a tie (`TiedSpawnOrphans`) can make it lose it;
  the exact condition, for every session, is in `OrphanFreeIffSpawnPrecedes`.
- A spread that ends before time zero leaves nothing; every other addition leaves all its
  tokens (`TokensAreConserved`, `LandsUnlessBeforeZero`).
- A request of no length can open a sub-row that is never needed (`SubRows.IdleRowsIff`).
- After a server restart a live-view client whose cursor happens to fit the new history keeps
  requests the new server never had (`LiveViews.RestartCanMixLives`).
- An unterminated file whose last session is filtered out, under a filter that names a session
  the file does not have, is played once and not again (`ProducersAgree`, `StopsShortOnce`).
- `SimulateDataset` returns exactly unless the horizon is ahead, every session is over the
  moment it begins, and the retirement rule does not hold of an idle fleet: then the clock
  never leaves 0 (`DatasetSim.Run`, `NeverReturns`).
- The recite window holds up to 40 markers (`benchmark/replay_router_uuid.go:168-180`); the
  comment on `buildInjection` says four. Its "current turn" is the last one to appear for the
  first time in the request, not the one with the highest number.
- `synthText` writes no header before the text, though its comment announces one.
- A tool result inside an assistant message, and a call inside anyone else's, is dropped.

## Model

| member | source | states |
|---|---|---|
| `TtlCaches.MatchLenIsLongest` | benchmark/retention_sim.go:160-194 | the served run is the longest one whose every prefix is still held, both directions |
| `TtlCaches.ClockIsTheLatest` | benchmark/retention_sim.go:158-163 | a request's moment is the latest time stamp so far, zero before any |
| `TtlCaches.TtlCacheIsAView` | benchmark/retention_sim.go:160-194 | a real cache that forgets idle entries before each request equals the never-forgetting cache seen through its time-to-live, for every run and window; this is why one trie can stand for all windows |
| `TtlCaches.HitsFromTheView` | benchmark/retention_sim.go:176-189 | hence its hits can be read off last-use times alone |
| `TtlCaches.ServesIffUsedWithin` | benchmark/retention_sim.go:160-194 | the first n units of a request are served exactly if some earlier request began with them at most a window ago: no cache in the statement |
| `TtlCaches.LongerTtlServesNoLess` | benchmark/retention_sim.go:196-205 | for every run a longer time-to-live serves at least as many tokens |
| `TtlCaches.HeldForeverIffSeen` | benchmark/retention_sim.go:160-194 | a prefix is in the infinite cache exactly when some earlier request began with it |
| `TtlCaches.ForeverServesLongestSeen` | benchmark/retention_sim.go:196-205 | the infinite cache serves exactly the longest previously seen prefix of every request |
| `RetentionSimulation.BucketServes` | benchmark/retention_sim.go:176-189 | the windows that serve the first n units are exactly those at or after the bucket of the largest idle gap so far |
| `RetentionSimulation.GrowTrie` | benchmark/retention_sim.go:180-187 | adding a node keeps the edge map a bijection between seen paths and node ids |
| `RetentionSimulation.RetentionSim.Lookup` | benchmark/retention_sim.go:173-181 | an edge lookup answers exactly whether the path was ever seen |
| `RetentionSimulation.RetentionSim.NextBucket` | benchmark/retention_sim.go:176-179 | the first window, from the current bucket on, that reaches the gap |
| `RetentionSimulation.RetentionSim.Hit` | benchmark/retention_sim.go:180-193 | a hit credits every window from its bucket on and refreshes only its own node |
| `RetentionSimulation.RetentionSim.Visit` | benchmark/retention_sim.go:170-193 | one step of the walk advances every window as its own cache would |
| `RetentionSimulation.RetentionSim.Observe` | benchmark/retention_sim.go:160-194 | one walk credits every window, and the infinite one, with exactly what its own cache serves, and records the request |
| `RetentionSimulation.RetentionSim.Feed` | benchmark/retention_sim.go:160-194 | agreement with the separate caches is kept from request to request, whatever the time stamps |
| `RetentionSimulation.RetentionSim.Cumulate` | benchmark/retention_sim.go:196-205 | running sums turn buckets into per-window totals |
| `RetentionSimulation.RetentionSim.Report` | benchmark/retention_sim.go:196-205 | the report equals one real expiring cache per window over the whole run |
| `RetentionSimulation.SimulateRetention` | benchmark/retention_sim.go:128-135 | the one-pass simulator equals the definition for every request sequence and ascending windows |
| `RetentionSimulation.ReportIsOrdered` | benchmark/retention_sim.go:81-90 | Cached never decreases with the window, is at most the infinite figure, which is at most the total |
| `PrefixStores.PrefixBatch.AddChain` | benchmark/replay_prefix_store.go:59-94 | a batch stores every request of the chain, each flagged by whether it carries tokens, links well formed, chain depth below 32 |
| `PrefixStores.AppendKeeps` | benchmark/replay_prefix_store.go:59-94 | storing one more request changes nothing that earlier ones stand for, and it stands for its own prefix |
| `PrefixStores.ExpandRebased` | benchmark/replay_prefix_store.go:97-116 | a batch appended at any offset stands for the same prefixes |
| `PrefixStores.PrefixStore.Append` | benchmark/replay_prefix_store.go:97-116 | appending keeps every stored request and adds the batch as one session |
| `PrefixStores.PrefixStore.Units` | benchmark/replay_prefix_store.go:120-137 | rebuilds the exact prefix whatever the reused buffer held, in place when it fits, in at most depth < 32 hops |
| `PrefixStores.SimulateRetentionStore` | benchmark/replay_prefix_store.go:194-202 | simulating off the store gives the report of the definition on the selected requests |
| `PrefixStores.ScoreChains` | benchmark/replay_prefix_store.go:59-202 | compress every chain, append the batches and simulate any selection: the report is that of the uncompressed requests |
| `InstanceActions.OwnerMap` | benchmark/replay_router.go:690-699 | the owner of a request id is the last instance carrying it |
| `InstanceActions.OwnerIsTheLast` | benchmark/replay_router.go:690-699 | no instance after the owner of an id carries it |
| `InstanceActions.ResolveInstanceActions` | benchmark/replay_router.go:688-758 | the in-place fixpoint ends with exactly: drop when excluded or owned by an excluded instance, wait when owner links reach a root, fire otherwise; promoted counts the fired non-roots |
| `InstanceActions.ActionsByParent` | benchmark/replay_router.go:704-729 | an excluded instance is dropped; an included one with no parent link, or one nobody carries, fires; with a carrier it is dropped exactly when the last carrier is excluded |
| `InstanceActions.Classify` | benchmark/replay_router.go:704-729 | the first pass marks exactly the roots and dangling parents, and decides every instance on its own |
| `InstanceActions.PromoteUnanchored` | benchmark/replay_router.go:749-755 | waiters that never anchored fire, and are counted |
| `InstanceActions.Settle` | benchmark/replay_router.go:731-747 | sweeping until nothing changes marks exactly the instances whose owner links reach a root |
| `InstanceActions.Sweep` | benchmark/replay_router.go:733-743 | one pass marks only what is justified and reports a change exactly when it made one |
| `InstanceActions.ClosedMarkingIsComplete` | benchmark/replay_router.go:731-747 | a marking closed under the owner step that holds the roots holds everything anchored |
| `InstanceActions.WaitGraphIsAcyclic` | benchmark/replay_router.go:688-758 | whoever an instance waits for runs and is strictly closer to a root |
| `InstanceActions.PromotedIffCycleOrDropped` | benchmark/replay_router.go:749-758 | promotion happens exactly when the owner chain runs into a cycle or into an instance that was dropped; the source speaks of cycles only |
| `InstanceActions.PromotedWithoutCycle` | benchmark/replay_router.go:749-758 | a session that promotes without a cycle: an excluded instance, its child, and that child's child |
| `SessionRun.RunKeepsInv` | benchmark/replay_router.go:925-988 | in every interleaving every closed channel has a reason, every goroutine is where its channels say |
| `SessionRun.RunsAreBounded` | benchmark/replay_router.go:957-986 | no interleaving is longer than the work the session holds |
| `SessionRun.BlockedMeansProgress` | benchmark/replay_router.go:957-986 | while an instance is blocked someone on the way to its root can move |
| `SessionRun.NeverStuck` | benchmark/replay_router.go:957-988 | no reachable state has a goroutine alive and no step to take |
| `SessionRun.EndedRunIsComplete` | benchmark/replay_router.go:936-988 | a run that cannot go on has every goroutine gone and, unless cancelled, every channel closed; that the requests were sent first is the next two rows |
| `SessionRun.UndisturbedRunsSend` | benchmark/replay_router.go:1124-1307 | in every run that nothing cancels or fails, an instance sends its requests one by one in order, and reaches its sweep only after the last |
| `SessionRun.UndisturbedRunsFinish` | benchmark/replay_router.go:1124-1307 | such a run that cannot go on has sent every request of every instance that was not dropped and closed its channel |
| `SessionRun.ChildStartsAfterSpawn` | benchmark/replay_router.go:966-976 | a waiting child starts only after its spawning request ended or an instance owning it left |
| `SessionRun.NoDoubleClose` | benchmark/replay_router.go:1040-1046 | without a race no channel is closed twice, in any interleaving; a race is two owners of one id that can both get going while its channel is open |
| `SessionRun.RaceDoubleCloses` | benchmark/replay_router.go:1040-1046 | every race of every session is run by some interleaving, which closes the channel twice |
| `SessionRun.DoubleCloseIffRace` | benchmark/replay_router.go:936-1046 | for every session: some interleaving closes a channel twice exactly when the session has a race |
| `SessionRun.UniqueOwnersNeverRace` | benchmark/replay_router.go:936-949 | ids owned by one instance each never race |
| `SessionRun.FiringOwnersRace` | benchmark/replay_router.go:957-986 | two firing owners of one id always race |
| `SessionRun.ChildOfTheIdNeverRaces` | benchmark/replay_router.go:965-976 | a child that shares the very id it waits on never races for it |
| `Truncation.LessIsStrictTotal` | benchmark/replay_truncate.go:59-72 | the sort is by a strict total order, so the cut is determined; the next row says which order |
| `Truncation.EarliestSurvive` | benchmark/replay_truncate.go:59-80 | if a request survives, so does every timed one that is earlier, every timed one if it is untimed, and, where the stamps do not decide, every one that stands earlier in the file |
| `Truncation.ReplaySession.Truncate` | benchmark/replay_truncate.go:32-101 | at most maxRequests or no cap: untouched; else exactly the requests with fewer than maxRequests before them survive, in file order |
| `Truncation.MarkKept` | benchmark/replay_truncate.go:74-80 | the keep table marks exactly the first of the sorted references |
| `Truncation.Rebuild` | benchmark/replay_truncate.go:82-100 | survivors keep instance and turn order, instances left empty go |
| `Truncation.KeptIsDownwardClosed` | benchmark/replay_truncate.go:59-80 | whatever precedes a survivor survives |
| `Truncation.ExactlyCapSurvive` | benchmark/replay_truncate.go:32-101 | exactly maxRequests requests survive |
| `Truncation.NoneIsEmpty` | benchmark/replay_truncate.go:82-100 | no surviving instance is empty |
| `Truncation.TruncatedHasId` | benchmark/replay_truncate.go:82-100 | an id is in the result exactly when one of its requests survived |
| `Truncation.NoOrphans` | benchmark/replay_truncate.go:20-28 | a surviving child still finds its parent's request, if one came no later than the child's own |
| `Truncation.OrphanFreeIffSpawnPrecedes` | benchmark/replay_truncate.go:20-28 | for every session and instance: no cap orphans it exactly when it has no requests, or a request with the id it was spawned by comes no later than any of its own |
| `Truncation.UntimedSpawnOrphans` | benchmark/replay_truncate.go:20-32 | a spawning request without a time stamp loses its child under a cap of one |
| `Truncation.TiedSpawnOrphans` | benchmark/replay_truncate.go:56-72 | so does one at the very time of a child that stands earlier in the file |
| `Truncation.CutKeepsActions` | benchmark/replay_truncate.go:20-28 | with unique ids and spawning requests first, every surviving instance waits, fires or is dropped in the cut session as in the whole one |
| `Truncation.ChildStaysAChild` | benchmark/replay_truncate.go:20-28 | without unique ids, too, a child whose spawning request came first keeps an owner for its parent link |
| `ConcurrencyGates.ConcurrencyGate.PopNormalWaiter` | benchmark/auto.go:982-997 | without random order the first of the normal waiters, the others kept in order; with it the drawn one, swapped out |
| `ConcurrencyGates.ConcurrencyGate.Enter` | benchmark/auto.go:1001-1010 | a slot if active is below the limit, else the end of the right queue |
| `ConcurrencyGates.ConcurrencyGate.LeaveQueue` | benchmark/auto.go:1012-1025 | a cancelled waiter leaves its queue if it is still in it, and nothing else changes |
| `ConcurrencyGates.ConcurrencyGate.Release` | benchmark/auto.go:1057-1072 | the slot goes to the first cold waiter, without one to the first normal waiter (a drawn one in random order), without any active drops |
| `ConcurrencyGates.ConcurrencyGate.SetLimit` | benchmark/auto.go:1075-1094 | waiters are granted new slots until the limit is reached or nobody waits |
| `GateProtocol.RunKeepsInv` | benchmark/auto.go:962-1094 | in every run: a queued waiter means active >= limit; active is held plus undelivered plus abandoned slots; never above the largest limit; each waiter served at most once and in one place |
| `GateProtocol.WakeServes` | benchmark/auto.go:1075-1094 | a limit change grants distinct queued waiters, one slot each, and stops only at the limit or an empty queue |
| `GateProtocol.WakeServesColdFirst` | benchmark/auto.go:1075-1094 | the cold queue from its head, normal waiters only after it |
| `GateProtocol.FirstComeFirstServed` | benchmark/auto.go:982-1094 | over every run: of two cold callers, or of two normal ones without random order, the later neither gets in nor is granted while the earlier is queued, and stands behind it |
| `GateProtocol.ColdBeforeNormal` | benchmark/auto.go:1057-1094 | no step grants a normal waiter while a cold one is left waiting |
| `GateProtocol.NoBarging` | benchmark/auto.go:1001-1036 | a caller that gets in at once finds both queues empty |
| `GateProtocol.LeakedIffLeftAfterGrant` | benchmark/auto.go:1012-1025 | over every run a slot is lost exactly when its caller took ctx.Done at some step with its grant undelivered |
| `GateProtocol.LeaksAreForGood` | benchmark/auto.go:1012-1072 | lost slots stay charged for the rest of the run |
| `GateProtocol.StarvedUntilSetLimit` | benchmark/auto.go:1001-1094 | with every slot lost and the limit unchanged, no caller ever gets in or is granted again |
| `GateProtocol.ReleaseIgnoresTheLimit` | benchmark/auto.go:1057-1072 | Release hands its slot on even when the limit has since been lowered |
| `UuidRegistries.UuidRegistry.HoldKnown` | benchmark/replay_uuid_registry.go:98-113 | the read-locked pass counts each distinct known marker once and lists the others |
| `UuidRegistries.UuidRegistry.Register` | benchmark/replay_uuid_registry.go:117-133 | every missing marker is looked up again: one more hold, registered if still unknown; first holder kept; peak raised |
| `UuidRegistries.UuidRegistry.Acquire` | benchmark/replay_uuid_registry.go:88-133 | undisturbed, one more hold on each distinct marker, first holders kept, one more live session, both peaks raised |
| `UuidRegistries.UuidRegistry.Release` | benchmark/replay_uuid_registry.go:137-154 | one hold fewer per distinct marker, entries at zero deleted |
| `UuidRegistries.UuidRegistry.Lookup` | benchmark/replay_uuid_registry.go:157-165 | found exactly when registered |
| `RegistryProtocol.RunKeepsInv` | benchmark/replay_uuid_registry.go:86-154 | over all interleavings of the lock sections: each count is the number of sessions that have counted the marker, an entry exists iff it is positive, the peaks bound the live figures |
| `RegistryProtocol.ReadSectionIsHoldKnown` | benchmark/replay_uuid_registry.go:98-116 | a read-locked section taken marker by marker comes to what HoldKnown ensures |
| `RegistryProtocol.HeldMarkersAreFound` | benchmark/replay_uuid_registry.go:86-165 | a marker is found from its Acquire return to its Release |
| `RegistryProtocol.CountsAreHolders` | benchmark/replay_uuid_registry.go:86-154 | with no Acquire under way a count is the number of holders |
| `RegistryProtocol.RetiredMarkersAreForgotten` | benchmark/replay_uuid_registry.go:137-165 | a marker nobody has counted is unknown |
| `RegistryProtocol.EveryHoldIsReturned` | benchmark/replay_uuid_registry.go:137-154 | once every session released, the registry is empty |
| `DatasetSims.SlotIsExact` | benchmark/dataset_sim.go:391-405 | a slot counts exactly the requests with start <= now < end, or start < now <= end while its own event is due now |
| `DatasetSims.TracksTheLastResponse` | benchmark/dataset_sim.go:391-399 | a slot tracks the prompt of the latest response its session has had, 0 before the first |
| `DatasetSims.AfterPlaying` | benchmark/dataset_sim.go:400-414 | a finished session leaves nothing in flight, any other slot has a later event |
| `DatasetSims.FinishedIsOver` | benchmark/dataset_sim.go:403-406 | a session is played to its end exactly when its duration has passed |
| `DatasetSims.InstantFleet` | benchmark/dataset_sim.go:386-414 | a fleet of instant sessions runs nothing, and while it holds a session an event is due now |
| `DatasetSims.Play` | benchmark/dataset_sim.go:391-405 | responses first, then starts, up to now; both totals follow |
| `DatasetSims.PopFirst` | benchmark/dataset_sim.go:232-247 | the earliest event, ties in order of scheduling |
| `DatasetSims.DatasetSim.Assign` | benchmark/dataset_sim.go:330-338 | a new session in an empty slot: its event scheduled, totals untouched |
| `DatasetSims.DatasetSim.Refill` | benchmark/dataset_sim.go:403-409 | an ended slot is refilled from the next draw exactly unless the retirement rule holds |
| `DatasetSims.DatasetSim.HandleEvent` | benchmark/dataset_sim.go:386-415 | the earliest event moves the clock and the three integrals and changes its own slot alone: the session goes on until its duration is over, then the slot retires or plays the next draw; the clock moves, or what is due now gets less, or an instant session was drawn |
| `DatasetSims.DatasetSim.Step` | benchmark/dataset_sim.go:383-485 | one turn handles the earliest event if it is before every mark, else comes to the next mark, as `HandleEvent` and `Tick` say, with progress, and the run's record kept |
| `DatasetSims.DatasetSim.AdmitOne` | benchmark/dataset_sim.go:441-454 | one more session, the next draw, in the first slot without one or else in a new one; the others untouched |
| `DatasetSims.DatasetSim.AdmitTick` | benchmark/dataset_sim.go:424-456 | the gate steps as SimTick and exactly its batch of slots joins, each at the start of its session, the others untouched |
| `DatasetSims.DatasetSim.Tick` | benchmark/dataset_sim.go:416-483 | the clock comes to the mark: a gate sample at or above target clears `sustained`; then an admission tick steps the gate on the interval's mean and exactly its batch joins; then a sample shows the integral's mean and the sums over the slots; nothing else changes |
| `DatasetSims.LedgerHandled` | benchmark/dataset_sim.go:386-415 | an event adds to the record whether its slot retired or played on, and leaves the intervals, the batches and the marks as they are |
| `DatasetSims.LedgerMarked` | benchmark/dataset_sim.go:416-483 | a mark extends the record: the gate is what its intervals and samples make of it, and an admission tick adds what is due after them |
| `DatasetSims.OneMoreInterval` | benchmark/dataset_sim.go:424-456 | one more interval through the gate: its next state, and a batch that is the one due by the rule without any gate state |
| `DatasetSims.DatasetSim.Run` | benchmark/dataset_sim.go:383-485 | the loop reaches the horizon when some session takes time, or instant ones are retired, or the horizon is not ahead |
| `DatasetSims.DatasetSim.Turns` | benchmark/dataset_sim.go:383-485 | otherwise, from any state with a session in a slot, any number of turns leaves the clock where it was, one more session drawn each turn |
| `DatasetSims.LapsRecur` | benchmark/dataset_sim.go:303-318 | the order the laps give draws every session again and again |
| `DatasetSims.TotalsAreExact` | benchmark/dataset_sim.go:319-413 | after every event and tick the in-flight total equals a recount from every live slot, the dataset total what the slots track, retired slots nothing |
| `DatasetSims.OneEventEach` | benchmark/dataset_sim.go:319-413 | each live slot has exactly one event, its next one, never in the past; a retired slot has none |
| `DatasetSims.SimulateDataset` | benchmark/dataset_sim.go:277-486 | refused without sessions or unless one of the two targets is set; else, on every input where it ends, all invariants hold at the horizon, and over the run: marks fall on every multiple of their period, the k-th admission tick added exactly `AdmissionGates.Due` of the intervals so far, slots are those that joined less those that retired, and sessions started are the joins and the refills |
| `DatasetSims.NeverReturns` | benchmark/dataset_sim.go:277-486 | on every other accepted input the clock still reads 0 after any number of turns |
| `SimQueues.PopFirst` | benchmark/admission_sim.go:153-173 | some event no other precedes, the rest unchanged |
| `SimQueues.ArrivalsComeFirst` | benchmark/admission_sim.go:156-164 | at one instant an arrival precedes a completion, the reverse of what the comment promises |
| `SimQueues.TicksRunOut` | benchmark/admission_sim.go:378-380 | each admission tick leaves fewer to come |
| `SimQueues.OpenGrows` | benchmark/admission_sim.go:364-371 | time open grows by the requests in flight times the jump |
| `AdmissionSims.Defaulted` | benchmark/admission_sim.go:213-224 | unset settings get their defaults, the rest is kept |
| `AdmissionSims.SerialNeverOverlaps` | benchmark/admission_sim.go:339-345 | a chain of prefills is pairwise disjoint |
| `AdmissionSims.SinceIsTheTail` | benchmark/admission_sim.go:277-308 | the running window equals a filter over everything ever observed |
| `AdmissionSims.AdmissionSim.Expire` | benchmark/admission_sim.go:277-288 | what is left is exactly what is not older than the window |
| `AdmissionSims.AdmissionSim.GateOpen` | benchmark/admission_sim.go:290-300 | open exactly when no TTFT was seen in the window or their mean is below the limit |
| `AdmissionSims.AdmissionSim.Pick` | benchmark/admission_sim.go:311-319 | the fewest open requests, the first of several |
| `AdmissionSims.AdmissionSim.Schedule` | benchmark/admission_sim.go:328-348 | prefill begins when the engine is free and, with the batch full, when the earliest sequence still running ends |
| `AdmissionSims.AdmissionSim.Dispatch` | benchmark/admission_sim.go:322-357 | the session's next request goes to the least loaded server; its TTFT is observed, its completion scheduled, no other server changes and the peak is raised |
| `AdmissionSims.AdmissionSim.AdmitSession` | benchmark/admission_sim.go:262-274 | a session of the next template, due now; nothing without templates |
| `AdmissionSims.AdmissionSim.OnArrive` | benchmark/admission_sim.go:382-402 | at its session's end an arrival retires it, with the pool full it waits, otherwise its request is sent; nothing else of the queues changes |
| `AdmissionSims.AdmissionSim.Complete` | benchmark/admission_sim.go:404-411 | counters, cursor and the log of open times move together |
| `AdmissionSims.AdmissionSim.Continue` | benchmark/admission_sim.go:412-424 | the next request is due at its offset but not before the response, or the session retires |
| `AdmissionSims.AdmissionSim.Unpark` | benchmark/admission_sim.go:426-436 | with room the head of the waiting list is sent, without it nothing changes |
| `AdmissionSims.AdmissionSim.OnDone` | benchmark/admission_sim.go:404-436 | a response frees its server and the pool, its session's next request is due at its time or now, and the first session waiting is let through |
| `AdmissionSims.AdmissionSim.OnAdmit` | benchmark/admission_sim.go:374-380 | a session of the next template is admitted exactly when there is one and the gate is open; the tick is recorded and the next one queued unless it is past the horizon |
| `AdmissionSims.AdmissionSim.Handle` | benchmark/admission_sim.go:373-436 | an arrival, a response or a tick does what `OnArrive`, `OnDone` and `OnAdmit` say |
| `AdmissionSims.AdmissionSim.Step` | benchmark/admission_sim.go:359-436 | the first event by the heap's order is handled as `Handle` says; every invariant, every session's story and the record of the ticks are kept, both peaks are exact, and less work is left |
| `AdmissionSims.AdmissionSim.Run` | benchmark/admission_sim.go:359-441 | the loop ends with everything due by the horizon played and every invariant holding; the two peaks are the largest values in the states it went through |
| `AdmissionSims.InFlightAddsUp` | benchmark/admission_sim.go:322-436 | in flight equals the sum of outstanding, at most a positive MaxSeries, equal to it when anyone waits; admitted = active + retired; sent = completed + in flight |
| `AdmissionSims.OneOfThree` | benchmark/admission_sim.go:382-436 | each active session is in exactly one of a queued arrival, the waiting list and a scheduled completion; a finished one in none |
| `AdmissionSims.ToldSend` | benchmark/admission_sim.go:322-357 | requests are sent in order, each no sooner than its own time and the response before it, and at that very moment without a cap; prefill and decode take their server's time |
| `AdmissionSims.EverySessionIsPlayedOut` | benchmark/admission_sim.go:359-436 | at the end a session is over, or waits for the pool, or its response or its next request is past the horizon |
| `AdmissionSims.TickedOnce` | benchmark/admission_sim.go:374-380 | a tick falls on the next multiple of the period, admits exactly by the templates and the TTFTs seen before it, and the session it admits is the next one |
| `AdmissionSims.PrefillsNeverOverlap` | benchmark/admission_sim.go:339-345 | no server prefills two requests at once |
| `AdmissionSims.LittlesLaw` | benchmark/admission_sim.go:359-475 | mean concurrency times the run is the time requests were open, throughput times the run the requests completed; the peak bounds the mean and MaxSeries the peak |
| `AdmissionSims.RunAdmissionSim` | benchmark/admission_sim.go:212-487 | over the whole run: ticks are 0, every, 2*every and so on up to the horizon, each admits exactly when there are templates and the gate is open on the TTFTs seen by then, session k is the k-th to be admitted and plays template k modulo their number, request by request as it is due, as far as the horizon reaches; the report is that of the final state, its peaks attained |
| `AdmissionGates.SeriesAdmitter.Tick` | benchmark/replay_realtime.go:135-185 | one tick of admitSeries is LiveTick, with its Hold and Capped outcomes |
| `AdmissionGates.DatasetGate.Tick` | benchmark/dataset_sim.go:424-456 | one tick of the copy is SimTick |
| `AdmissionGates.GatesAreDetermined` | benchmark/replay_realtime.go:135-185 | the open streak, the copy's blocked flag and the latest batch of both gates in terms of the intervals alone; the live flag is the next row |
| `AdmissionGates.BatchIsAllThatFits` | benchmark/replay_realtime.go:173-176 | with room a batch is at least one slot, never over the cap, and smaller than the count only where it fills the cap |
| `AdmissionGates.LiveBlockedIffNothingDue` | benchmark/replay_realtime.go:151-172 | admitSeries is blocked exactly when an interval was closed and no batch has been due since |
| `AdmissionGates.SameBatches` | benchmark/replay_realtime.go:135-185 | fed the same signals the two gates admit the same batch sizes on the same ticks, those an independent reading of the rule asks for |
| `AdmissionGates.UnblockedAtDifferentMoments` | benchmark/dataset_sim.go:433-435 | though they clear blocked at different moments |
| `AdmissionGates.BlockedUntilThreeOpen` | benchmark/replay_realtime.go:101-107 | after a closed interval nothing is admitted until three open ones in a row |
| `AdmissionGates.NeverOverCap` | benchmark/replay_realtime.go:135-185 | active slots never exceed a positive MaxSeries |
| `AdmissionGates.CappedIsForGood` | benchmark/replay_realtime.go:135-185 | where slots only grow, a full pool stays full and nothing more is admitted |
| `Realtime.TtftWindow.Observe` | benchmark/replay_realtime.go:264-277 | a positive TTFT is recorded, anything else ignored; only older ones are dropped |
| `Realtime.TtftWindow.Expire` | benchmark/replay_realtime.go:279-290 | sum and lists keep describing what is held |
| `Realtime.TtftWindow.Statistics` | benchmark/replay_realtime.go:310-333 | the window is exactly what was recorded since the cut, with its mean; each quantile is the observation of its rank |
| `Realtime.SetSeriesDefaults` | benchmark/replay_realtime.go:58-68 | 1 <= start, start <= max when capped, and the run is bounded one way or the other |
| `RateAccums.RateAccum.constructor` | benchmark/rates.go:31-39 | width and bucket bound as given or by default |
| `RateAccums.CoarsenedIsExact` | benchmark/rates.go:45-58 | merging neighbours keeps every bucket exact at twice the width |
| `RateAccums.RateAccum.Coarsen` | benchmark/rates.go:45-58 | all five series are halved together and stay exact |
| `RateAccums.RateAccum.Bucket` | benchmark/rates.go:62-76 | the bucket of a time, after as much growing and coarsening as it takes, within the bound |
| `RateAccums.RateAccum.AddImpulse` | benchmark/rates.go:78-84 | each prompt series grows by its own argument and output by nothing; every bucket holds precisely the tokens of its interval |
| `RateAccums.RateAccum.AddSpread` | benchmark/rates.go:87-106 | output grows by the tokens unless the interval ends before zero, the other series by nothing; every bucket holds precisely its part |
| `RateAccums.SpreadOver` | benchmark/rates.go:92-105 | each bucket from first to last gets the part of the spread inside it |
| `RateAccums.SpreadIsEven` | benchmark/rates.go:92-105 | any part of a spread's interval gets its tokens in proportion to its length |
| `RateAccums.TokensAreConserved` | benchmark/rates.go:45-106 | whatever was coarsened, the buckets together hold every token that landed |
| `RateAccums.LandsUnlessBeforeZero` | benchmark/rates.go:45-106 | one addition raises the buckets' total by all its tokens, whatever was coarsened in between, or by none if it is a spread that ended before time zero |
| `RateAccums.RateAccum.WindowSum` | benchmark/rates.go:147-161 | the loop computes the pro-rata sum over all buckets |
| `RateAccums.WindowsAdd` | benchmark/rates.go:147-161 | adjacent windows add up |
| `RateAccums.WindowInsideABucket` | benchmark/rates.go:147-161 | a window inside one bucket returns the bucket's tokens in proportion to its length |
| `RateAccums.AlignedWindowIsExact` | benchmark/rates.go:147-161 | a window cut at bucket edges returns exactly the tokens added inside it, past the last bucket too |
| `RateAccums.WindowIsBetween` | benchmark/rates.go:147-161 | any window returns at least the tokens of the whole buckets inside it and at most those of the buckets it touches, for non-negative buckets |
| `LiveViews.LiveArm.Complete` | benchmark/live_view.go:442-459 | the log stays the end of the history, trimmed past a tenth over its bound; its new state is the one the protocol reaches |
| `LiveViews.LiveArm.FirstAfter` | benchmark/live_view.go:500-504 | the first entry after the cursor |
| `LiveViews.LiveArm.Snapshot` | benchmark/live_view.go:491-508 | everything after the cursor, or a reset with everything retained |
| `LiveViews.PollBringsUpToDate` | benchmark/live_view.go:491-508 | one poll brings a client fully up to date, whatever was trimmed meanwhile |
| `LiveViews.RunKeepsInv` | benchmark/live_view.go:442-508 | over any interleaving a client holds one contiguous run of sequence numbers ending at its cursor and covering all the server retains |
| `LiveViews.EveryRunIsInOrder` | benchmark/live_view.go:442-508 | so from a fresh server and page on, in every run |
| `LiveViews.LiveArm.ValidIsServerOk` | benchmark/live_view.go:442-459 | the log never gives up its last entry, the server half of that invariant |
| `LiveViews.RestartHarmlessIff` | benchmark/live_view.go:496-503 | a server restart does a client no harm exactly when its cursor is before the retained log or past the new history, or it holds what the new history has there |
| `LiveViews.RestartCanMixLives` | benchmark/live_view.go:496-503 | a restart that does harm: the cursor fits the new history, and the client keeps requests the new server never had |
| `LiveViews.CompleteIsCompleteThenTrim` | benchmark/live_view.go:442-459 | what LiveArm.Complete makes of the log is a run of the protocol: its completion and, when the log is a tenth over its bound, its trim |
| `SubRows.SubRowPacker.Place` | benchmark/timeline.go:364-373 | the first free sub-row, or a new one; the others untouched |
| `SubRows.SubRowPacker.Release` | benchmark/timeline.go:376-380 | a placed row is freed at the given end |
| `SubRows.PackTimeline` | benchmark/timeline.go:415-441 | each request gets the sub-row greedy placement gives it within its own group |
| `SubRows.NoOverlapInASubRow` | benchmark/timeline.go:358-373 | two requests of one sub-row never overlap |
| `SubRows.NeverMoreThanRows` | benchmark/timeline.go:358-373 | no moment runs more requests of a group than it has sub-rows |
| `SubRows.RowsAreThePeakLoad` | benchmark/timeline.go:358-373 | the sub-rows of a group number exactly the most requests that run when one of its requests starts, plus that one, for all durations from zero up |
| `SubRows.IdleRowsIff` | benchmark/timeline.go:358-373 | the sub-rows outnumber the running requests at all times exactly when a request of no length starts beside as many as ever run |
| `SubRows.SomeMomentFillsTheRows` | benchmark/timeline.go:358-373 | with positive durations some moment runs exactly as many as there are sub-rows |
| `SubRows.InstantRequestsOpenIdleRows` | benchmark/timeline.go:358-373 | a run with such a request: two that start together, one of no length |
| `PrefillCaches.KeyIsInjective` | benchmark/prefill_split.go:235-236 | different blocks never share a key, whatever their hashes contain |
| `PrefillCaches.TouchKeepsTheTop` | benchmark/prefill_split.go:134-144 | a hit keeps the cache the most recent keys in order |
| `PrefillCaches.InsertKeepsTheTop` | benchmark/prefill_split.go:148-166 | so does an insertion with its eviction |
| `PrefillCaches.PrefillUnitCache.Get` | benchmark/prefill_split.go:134-144 | answers from the contents, changes only the order |
| `PrefillCaches.PrefillUnitCache.Put` | benchmark/prefill_split.go:148-166 | the key is stored and the contents are cut to the cap most recently used keys; list and map agree |
| `PrefillCaches.StoringIsFaithful` | benchmark/prefill_split.go:235-254 | storing a synthesized block keeps every entry what its block synthesizes to |
| `PrefillCaches.PrefillBlockUnits` | benchmark/prefill_split.go:232-263 | with any cache built for the same docs, or none, the units are those the blocks synthesize to |
| `PrefillCaches.MatchedBlocks` | benchmark/prefill_split.go:207-215 | the block count is recovered exactly from the token sum |
| `PrefillCaches.SimulatePrefillBlocks` | benchmark/prefill_split.go:192-222 | each request is scored with the longest run of blocks any earlier request began with |
| `Decimals.ItoaIsInjective` | benchmark/prefill_split.go:236 | different sizes are written differently |
| `ReplayIndexes.LastLineOfTail` | benchmark/replay_index.go:72-79 | a window holding a newline before its last line decides the last line of the file |
| `ReplayIndexes.ReadReplayIndex` | benchmark/replay_index.go:59-88 | the tail search returns the file's last line if it is an index, for every window size |
| `ReplayIndexes.Lap` | benchmark/replay_index.go:139-170 | the order of a lap for each strategy |
| `ReplayIndexes.LapsAreWhole` | benchmark/replay_index.go:132-170 | every lap after the first, and every random one, visits each allowed index exactly once |
| `ReplayProducers.ProduceIndexed` | benchmark/replay_router.go:416-476 | the indexed producer emits the stream, as long as its limit, filter and reuse setting say |
| `ReplayProducers.Produce` | benchmark/replay_router.go:485-590 | the line-by-line producer emits the same stream, for terminated and unterminated files |
| `ReplayProducers.StreamIsLapByLap` | benchmark/replay_router.go:416-476 | the k-th session of a lap is the k-th chosen one, with its own id and the number of the lap |
| `ReplayProducers.ChosenAreAll` | benchmark/replay_router.go:496-509 | every session the filter allows is among the chosen |
| `ReplayProducers.OutputIsAllAllowed` | benchmark/replay_router.go:416-590 | the output is as long as the session limit, or as the time it is listened to, or as the one lap there is: never longer than any of them, and as long as one |
| `ReplayProducers.ChosenFits` | benchmark/replay_router.go:496-509 | no lap emits more than the filter allows, so the early stop loses nothing |
| `ReplayProducers.ProducersAgree` | benchmark/replay_router.go:416-590 | the two streams are equal exactly unless a second lap is wanted of a file whose laps stop short; one ending in a newline always agrees |
| `ReplayProducers.StopsShortOnce` | benchmark/replay_router.go:517-523 | a file that does stop short |
| `SynthTexts.SynthText` | benchmark/replay_router_wire.go:554-585 | exactly n bytes of the corpus from the seed's offset, wrapping round |
| `SynthTexts.ShorterIsPrefix` | benchmark/replay_router_wire.go:545-553 | a shorter text for a seed is a prefix of a longer one |
| `Injections.BuildSessionUUIDs` | benchmark/replay_uuid_registry.go:233-253 | exactly the qualifying turns, numbered by first appearance, each with its hash's marker; none when there are none |
| `Injections.TurnsAreTheQualifying` | benchmark/replay_uuid_registry.go:259-269 | a hash is a turn exactly when a qualifying message carries it |
| `Injections.TurnsAreDistinct` | benchmark/replay_uuid_registry.go:241-246 | no turn is numbered twice |
| `Injections.TurnsGrow` | benchmark/replay_uuid_registry.go:208-213 | turns keep their numbers as the history grows |
| `Injections.ReciteCapacity` | benchmark/replay_router_uuid.go:196-205 | the most ids the output budget carries, up to the cap |
| `Injections.Window` | benchmark/replay_router_post.go:182-202 | the first visible turn and the most recent others, without the current one |
| `Injections.WindowFacts` | benchmark/replay_router_post.go:163-202 | the window is distinct, within budget and cap, all visible, and leaves out the last turn unless it is alone |
| `Injections.BuildInjection` | benchmark/replay_router_post.go:142-217 | every visible turn is stamped; the window's markers are asked for exactly when the budget carries one |
| `Injections.StampsAgree` | benchmark/replay_router_post.go:142-160 | a turn is stamped alike in every request that carries it |
| `Injections.StampsAreTheirTurns` | benchmark/replay_router_post.go:142-160 | each stamp carries its own hash's marker; different turns have different labels |
| `ChatMessages.BuildMessageContent` | benchmark/replay_router_wire.go:454-543 | the k-th tool block of a kind carries the k-th id; the marker ends the last text block and nothing else |
| `ChatMessages.ContentIsDetermined` | benchmark/replay_router_wire.go:440-453 | content depends on the message and its own stamp alone |
| `ChatMessages.BuildAssistant` | benchmark/replay_router_wire.go:881-915 | calls and text in order, call ids made known |
| `ChatMessages.BuildOther` | benchmark/replay_router_wire.go:916-953 | answers to known calls first, everything else as text |
| `ChatMessages.BuildOpenAIMessages` | benchmark/replay_router_wire.go:873-956 | the loops compute the conversion that the next two rows are about |
| `ChatMessages.HistoryIsAPrefix` | benchmark/replay_router_wire.go:873-956 | a longer history is built into messages that begin with those of the shorter, stamps included |
| `ChatMessages.ToolsReferBack` | benchmark/replay_router_wire.go:923-940 | every tool message answers a call an earlier assistant message made |
| `ChatMessages.OnlyMisplacedToolsAreDropped` | benchmark/replay_router_wire.go:881-945 | nothing is dropped but results in an assistant's message and calls in anyone else's |
| `ChatMessages.AppendTail` | benchmark/replay_router_wire.go:845-866 | the tail ask changes at most the last message |
| `Units.SumTokensMonotone` | benchmark/prefill_split.go:202-207 | more leading units never carry fewer tokens |

## Left out

- SessionRun.RunsAreBounded: waiting inside the request loop, for the concurrency gate, the pacer or the response, is a step that is always enabled; that the gate is served and requests eventually return is assumed here. The gate has its own model in `GateProtocol`.
- DatasetSims.SimulateDataset: the refusal of an unknown strategy is not modelled, since the order of draws is a parameter; nor is a positive `AdmitEvery` or `SampleEvery` under a millisecond, which becomes 0 ms. Inputs on which it does not return are outside its precondition and inside that of `NeverReturns`.
- AdmissionSims.RunAdmissionSim: needs at least one server, positive rates, a hit rate of at most 1, `MaxSeqs >= 1` and non-negative token counts; without a server, or with a full batch of size 0, the source panics, and the other cases are not meaningful workloads.
- `MaxSeqs` is not stated as a hard cap on resident sequences: several queued requests can be given the same freed slot.
- Machine integers, `int32` truncation in the prefix store and overflow are not modelled; times, tokens and rates are `int` or `real`, and floating-point rounding is not.
- The bound of `pick` in the admission simulator (counts below 2^31-1) is kept, but counts are unbounded integers.
- Heaps are modelled by what they return: the pop is some event that none precedes, in `SimQueue` with ties left open.
- Locks and channels are modelled as atomic steps, one per critical section or channel operation; memory-model effects are not.
- Randomness: the random gate order is an arbitrary choice function, a random lap an arbitrary permutation; the generators are not modelled.
- sha256, UUID formatting, JSON encoding, block chunking and `kvcache` are functions about which nothing is known beyond determinism and, where stated, at least one token per unit; `kvcache` is not part of this model.
- `kvcache.Cover`, finite trie budgets and `AggregatePrefillSplit` are left out: the prefill model stops at the matched block count of an unbounded trie.
- PrefillCaches.PrefillBlockUnits: the memo is keyed without the docs, so sharing one cache between different docs is outside the precondition.
- `BuildReplayRequestPrefix`, `ParseRetentionWindows`, ratios and their formatting: easy members only.
- `BuildDatasetSession`, stationary averages, settle times, per-life shares and mean ages of the dataset simulator: not modelled; its sessions are taken as built, sorted by start with ends after starts.
- The order in which the dataset simulator draws sessions is a parameter that must return to every session; `DatasetSims.LapsRecur` shows that the laps of `ReplayIndexes` do.
- The mean TTFT, quantiles and utilisation figures of the admission report, which are arithmetic over the state the invariants describe.
- `export`, `ttftOverTime` and the rounding of the rate accumulator: rendering.
- The live view's lanes, in-flight rows, rates and gate figures: rendering; only the log and its polling are modelled.
- `buildTimelineArm` apart from its use of the sub-row packer, `splitPrefill` and `timelineSegments`: rendering.
- `replayFirstStart` and `--replay-from` parsing: lap 0 starts at a given index.
- Read errors, an index that names the wrong session and a header without a newline end the stream early; they are not modelled beyond stopping.
- Anthropic bodies, tools, system blocks, output-length asks and request options: only OpenAI messages are built.
- The pacing, the skip clock and the pacing-lag statistics: no claim is made about parked due times.
- The decode-rate gate and `stalledLocked`: the admission gates take the open signal as an input.
- Metrics, progress, summaries, HTTP, SSE, files and command-line flags.
