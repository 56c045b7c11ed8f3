# darwin-net: proofs about a userspace pod network

This project models the parts of darwin-net that must survive interleaving, partial failure
and restart, and the pairs of Go and C code that must agree, and proves what they keep.
`dafny verify dfyconfig.toml` checks all of it.

One module covers one component:

- `Affinity`, `AffinityProtocol`: session affinity against lock-free snapshots. Picks, sweeps
  and writers interleave at the grain of single snapshot accesses and stretches under `affMu`.
- `MeshPlan`, `MeshUapi`, `MeshUapiEffect`, `MeshDevice`, `MeshApplier`, `MeshSkips`: the
  wireguard plan, the configuration text with an interpreter of it over a peer table, the
  applier over runs with failed writes, device re-creation and endpoint roaming, and which
  plans make its skipped writes unsafe.
- `MeshRoutes`: kernel routes reconciled and verified by read-back.
- `TcpReset`, `Refuser`: the reset packet with its ones'-complement arithmetic, and the
  wake/rearm protocol between writers and one blocked reader.
- `MeshWatcher`: the coalescing watcher with its two one-slot triggers.
- `PodAllocator`, `PodNetwork`, `PodAlias`, `PodExposure`: pod addresses over their lifetime,
  with the lo0 alias manager and its blackhole routes underneath, and the history of an
  address that lost its blackhole.
- `NetdCommands`, `NetdApplier`: the root executor, at the grain of its commands.
- `NetdIdentity`, `NetdRuns`, `NetdStrays`, `NetdServer`, `NetdExecutor`, `NetdRefinement`:
  node identity and interconnect ownership over runs of atomic requests with restarts, the
  history of an alias the daemon does not track, and the daemon's runs as executor runs.
- `DnsConfig`, `DnsServers`, `DnsLookup`, `DnsAgreement`, `DnsPlain`, `DnsLimits`,
  `DnsTimeouts`, `DnsEngines`: one name looked up by the Go resolver and by the C shim, and
  exactly when the two agree.
- `DnsWire`, `DnsAnswer`: the shim's query encoder and answer parser.
- `CidrEnv`, `CidrLoops`: the shim's destination scopes, encoded in Go and parsed in C.
- `PodDnsName`: the dashed pod names.
- `Text`, `Inet`, `Bytes`, `History`: decimal numbers, lists, dotted quads, prefixes, bytes,
  and facts that one event of a run starts and another ends.

Where the code works in place, a method or class follows it statement by statement and is
proved against a function of the old state; the results are then proved about that function
over all inputs or all runs. What the outside world answers (commands, the kernel, files,
the network, informer deliveries) is a parameter of each step, free to fail.

## Findings

Five properties hold only under a condition the code does not check. Each has a concrete
counterexample and the exact condition.

- Skipping a write is a no-op over every run of a set of plans exactly when each plan is
  settled: every non-empty endpoint is the one the last peer with its key carries
  (`MeshApplier.SkipsAreNoOpsExactly`). BuildPlan and ValidatePlan accept two nodes that share
  a public key, and a run of their plan skips a text that would have moved a roamed endpoint
  (`MeshSkips.SharedKeySkipMoves`).
- A route the applier added is in the kernel unowned exactly when a read-back failed after its
  add took effect and no later reconcile both wanted the route and read back
  (`MeshRoutes.LeakLivesExactly`, `MeshRoutes.FailedReadBackLeaks`).
- A departed pod's free address is without its blackhole exactly when a plumb of it was rolled
  back past the clear, or a sweep could not install it, with no successful plumb and no
  retried install since (`PodExposure.ExposedExactly`); a three-event run gets there
  (`PodAlias.RollbackUnprotects`).
- A move of the node identity leaves on lo0 exactly those old addresses whose last event is an
  ensure the utun refused, or a start that found them there, with no successful ensure or
  removal since (`NetdStrays.MoveOrphansExactly`); both happen
  (`NetdStrays.RefusedUtunOrphans`, `NetdStrays.RestartOrphans`), and without them no move
  orphans anything (`NetdStrays.UndisturbedMoveOrphansNothing`). A netmask repair that fails
  halfway takes slot 0 from under its riders, and nothing else does
  (`NetdRuns.SlotZeroKeptExactly`, `NetdRuns.RepairDropsSlotZero`).
- The shim and the Go resolver agree on every network exactly when they put the same names on
  the wire and class each alike (`DnsAgreement.AgreeExactly`); on a normalised list that fits,
  exactly when no domain that can be asked repeats and none ending in two dots matters
  (`DnsPlain.EnginesAgreeExactly`). Duplicates, such a domain, a long name under it and a domain
  over 255 bytes each part them (`DnsLimits.DuplicateParts`, `DnsLimits.DoubleDotParts`,
  `DnsLimits.LongNameParts`, `DnsLimits.LongSearchParts`, `DnsConfig.ShortDomainsFit`).

## Model

| member | source | states |
|---|---|---|
| `AffinityProtocol.BindingsOnlyWhilePurgeOwed` | pkg/proxy/affinity.go:141-156 | in every interleaving, a port whose current snapshot is absent, drained or not ClientIP holds bindings only while a writer sits between its store and its purge |
| `AffinityProtocol.PurgedStaysPurged` | pkg/proxy/affinity.go:346-354 | after a purge a port holds no binding until a later writer publishes it as ClientIP again, whatever picks were in flight and whatever else is published or deleted |
| `AffinityProtocol.CountExactAndCapped` | pkg/proxy/affinity.go:199-286 | in every interleaving affinityCount is the sum of all binding counts and neither the per-port nor the global cap is exceeded |
| `AffinityProtocol.AnswerIsEligible` | pkg/proxy/affinity.go:199-286 | in every interleaving, every answer ever returned (hit, fresh pick recorded or not, degraded pick, pick with affinity off, error) is a backend of the pool, or the error, of the generation its pick loaded in the critical section that returned it |
| `AffinityProtocol.ReturnedIsEligible` | pkg/proxy/affinity.go:199-286 | a step returns at most one answer, and that one is right for the generation its pick last loaded |
| `AffinityProtocol.RunKeeps` | pkg/proxy/affinity.go:199-354 | every step of load, lock, revalidate, record, store, purge and sweep keeps the invariant behind the results above |
| `Affinity.AffinityTable.PickStickyScoped` | pkg/proxy/affinity.go:199-286 | the pick, with its two reloads, computes the pick function on the table |
| `Affinity.AffinityTable.OpenPick` | pkg/proxy/affinity.go:208-270 | the stretch under affMu up to the ceiling check: a hit, a stale drop, eviction of one binding of a full port, degradation at the ceiling, or an owed record |
| `Affinity.AffinityTable.SweepExpired` | pkg/proxy/affinity.go:296-319 | one sweep leaves exactly the unexpired bindings of ports the snapshot still has, and keeps the count exact |
| `Affinity.AffinityTable.DropBinding` | pkg/proxy/affinity.go:327-330 | drops one binding and one from the count |
| `Affinity.AffinityTable.DropAffinity` | pkg/proxy/affinity.go:341-344 | drops a whole port and its share of the count |
| `Affinity.OpenKeeps` | pkg/proxy/affinity.go:208-270 | a pick keeps the count exact and both caps, answers a backend of the pool, and owes a record only with room for it |
| `Affinity.RecordKeeps` | pkg/proxy/affinity.go:272-286 | the record keeps the count exact and both caps |
| `Affinity.SweepKeeps` | pkg/proxy/affinity.go:296-319 | a sweep keeps the count exact and keeps precisely the bindings whose port the snapshot still has and whose idle time is within its timeout |
| `MeshPlan.RoutesExactly` | pkg/mesh/plan.go:120-150 | the routes are exactly the planned peers' /24s, never this node's own or a supernet, one per range, ascending |
| `MeshPlan.PeerRanges` | pkg/mesh/plan.go:157-241 | every planned peer's allowed ranges are exactly its own pod range, never this node's |
| `MeshPlan.ValidatedIsClosed` | pkg/mesh/plan.go:282-304 | a validated plan skipped nothing, gives every peer its route and every route its peer |
| `MeshPlan.GoodExactly` | pkg/mesh/plan.go:190-304 | a validated plan meets the precondition of the update theorems exactly when no two peers share a key or a pod range |
| `MeshPlan.BuildPeers` | pkg/mesh/plan.go:190-234 | the peer loop collects exactly the peers judged usable, in order |
| `MeshPlan.Routes` | pkg/mesh/plan.go:126-150 | the route loop gives the sorted set of routable ranges |
| `MeshPlan.ChooseEndpoint` | pkg/mesh/plan.go:265-272 | the first underlay candidate, else the spec's endpoint |
| `MeshPlan.StrictPlan` | pkg/mesh/plan.go:282-304 | ValidatePlan with its loops |
| `MeshApplier.UAPIUpdate` | pkg/mesh/plan.go:344-379 | the rendered text and the next memory are the specified ones, line by line |
| `MeshUapiEffect.RenderParses` | pkg/mesh/plan.go:344-379 | a rendered text parses back to exactly the commands it was rendered from |
| `MeshUapiEffect.UpdateEffect` | pkg/mesh/plan.go:327-379 | on any device whose keys are the remembered ones, interpreting the incremental text leaves exactly the plan's keys, keepalives and allowed ranges |
| `MeshUapiEffect.UpdateMatchesReplacement` | pkg/mesh/plan.go:327-379 | the incremental text and the full replacement leave the same peers, keepalives and allowed ranges |
| `MeshUapiEffect.RoamedEndpointKept` | pkg/mesh/plan.go:327-341 | an update changes a configured peer's endpoint only for a non-empty plan endpoint other than the one last written |
| `MeshDevice.SameTextSameUpdate` | pkg/mesh/device_wireguard.go:373-390 | two updates with the same text consist of the same sections |
| `MeshDevice.RepeatedTextEffect` | pkg/mesh/device_wireguard.go:373-407 | whatever the plan, repeating the text that programmed a device moves each endpoint to the last one stamped on its key and changes nothing else; it is a no-op exactly when every stamped key stands at its stamp |
| `MeshDevice.RepeatedTextIsNoOp` | pkg/mesh/device_wireguard.go:373-407 | on a device programmed with a settled plan, a text equal to the last one interprets to the same device, roamed endpoints included |
| `MeshDevice.RepeatIsNoOpExactly` | pkg/mesh/device_wireguard.go:373-407 | a plan's repeated text is a no-op on every table its endpoints may have roamed to exactly when every non-empty endpoint is the one the last peer with its key carries |
| `MeshDevice.GoodIsSettled` | pkg/mesh/plan.go:364-378 | a plan with distinct keys is settled |
| `MeshUapiEffect.AnyUpdateEffect` | pkg/mesh/plan.go:327-379 | the effect of an update of any clean plan, keys and ranges free to repeat |
| `MeshApplier.SkippedWriteIsNoOp` | pkg/mesh/device_wireguard.go:391-407 | over every run of Up, Down, Apply, failed writes and roaming, whatever the plans, a write Apply skips would have changed nothing exactly when no key it stamps has roamed, and never changes anything when the run's plans are settled |
| `MeshApplier.SkipsAreNoOpsExactly` | pkg/mesh/device_wireguard.go:373-407 | skipping is a no-op over every run of a set of plans exactly when each plan is settled |
| `MeshApplier.UnsettledSkipMoves` | pkg/mesh/device_wireguard.go:396-405 | any plan that is not settled has a run whose skipped write would have moved a roamed endpoint |
| `MeshSkips.SharedKeySkipMoves` | pkg/mesh/plan.go:190-234 | such a run from a validated plan of two nodes sharing a public key: applied twice, the key roams, the third Apply skips a text that would have moved it back |
| `MeshSkips.SettledPlanExactly` | pkg/mesh/plan.go:364-378 | a validated plan is settled exactly when each peer's non-empty endpoint is that of the last peer with its key |
| `MeshApplier.AppliedPlanIsProgrammed` | pkg/mesh/device_wireguard.go:391-407 | over every run, an Apply whose IpcSet does not fail leaves the device holding the plan, written or skipped: exactly its peers for distinct keys and ranges, else the last peer of each key and the last key of each range |
| `MeshApplier.WGDevice.Apply` | pkg/mesh/device_wireguard.go:391-407 | the peer write of Apply is its step of the run |
| `MeshApplier.WGDevice.Up` | pkg/mesh/device_wireguard.go:243-302 | Up starts an empty device with both memories empty, does nothing on a running one, and changes nothing when a step fails |
| `MeshApplier.WGDevice.Down` | pkg/mesh/device_wireguard.go:533-568 | Down drops the device and both memories |
| `MeshRoutes.RouteOwner.ReconcileRoutes` | pkg/mesh/device_wireguard.go:434-503 | whatever the kernel did, after a read-back the owned set is (wanted + owned) cut to the table's link routes on the utun; success exactly when every wanted route is there; a failed read changes nothing |
| `MeshRoutes.RouteOwner.InKernel` | pkg/mesh/device_wireguard.go:511-519 | a route is found exactly when the table holds its prefix as a link route on the interface |
| `MeshRoutes.SortedAscending` | pkg/mesh/routes.go:395-407 | the prefixes come without duplicates, by address and then length |
| `MeshRoutes.LeaksExactly` | pkg/mesh/device_wireguard.go:465-497 | one reconcile leaves an unowned route of its own in the kernel exactly when the read-back fails after an add took effect |
| `MeshRoutes.ListedRunNeverLeaks` | pkg/mesh/device_wireguard.go:434-503 | over every run whose read-backs succeed, every route the applier added is owned and every owned route is in the kernel |
| `MeshRoutes.LeakLivesExactly` | pkg/mesh/device_wireguard.go:434-503 | over every run, whatever the kernel did, a route is in the kernel unowned exactly when some read-back failed after its add took effect and no later reconcile both wanted it and read back |
| `MeshRoutes.FailedReadBackLeaks` | pkg/mesh/device_wireguard.go:465-468 | a run that leaks: the route stays through every reconcile that does not want it and read back, and the first one that does owns it again |
| `MeshRoutes.HonestRoundConverges` | pkg/mesh/device_wireguard.go:434-503 | one reconcile on an obedient kernel leaves the owned set equal to the wanted one and nothing stale |
| `TcpReset.BuildReset` | pkg/mesh/refuse.go:95-121 | the buffer, filled in place, is the specified reset, every read inside the packet |
| `TcpReset.ResetAnswers` | pkg/mesh/refuse.go:95-121 | 40 bytes, addresses and ports swapped, sequence 0, flags RST and ACK, ACK = SEQ + segment length mod 2^32 |
| `TcpReset.HeaderChecksumVerifies` | pkg/mesh/refuse.go:110-142 | the IP header folds to all ones with its checksum |
| `TcpReset.SegmentChecksumVerifies` | pkg/mesh/refuse.go:111-142 | the segment folds to all ones over its pseudo-header |
| `TcpReset.ResetNeverRefused` | pkg/mesh/refuse.go:61-121 | no node and no allocation makes refuseSYN accept a reset |
| `TcpReset.FoldMod` | pkg/mesh/refuse.go:136-142 | folding keeps the sum modulo 2^16 - 1 and never makes a positive sum zero |
| `TcpReset.OnesSum` | pkg/mesh/refuse.go:124-133 | adds the big-endian words, odd byte padded, modulo 2^32 |
| `TcpReset.InetChecksum` | pkg/mesh/refuse.go:136-142 | the complement of the folded sum |
| `Refuser.BlockedReaderIsWoken` | pkg/mesh/refuse.go:144-156 | with any number of writers, a reader blocked in the device with a reset queued and no writer mid-inject has a past deadline |
| `Refuser.RunConserves` | pkg/mesh/refuse.go:222-254 | in every run the queue is FIFO and at most 64, nothing is lost or doubled, and the deadline error never leaves Read |
| `Refuser.HeadGoesOut` | pkg/mesh/refuse.go:235-254 | however writers, wakes and traffic interleave, a queued reset is returned within four reader steps |
| `Refuser.ReaderCanAlwaysMove` | pkg/mesh/refuse.go:235-254 | with a reset queued and every wake done, the reader has a step to take without device traffic |
| `Refuser.FailedWakeStrands` | pkg/mesh/refuse.go:228-230 | one failed wake does strand a queued reset |
| `Refuser.Write` | pkg/mesh/refuse.go:195-218 | passes exactly the packets not refused, in order, queues one reset per refused one, and reports the whole batch unless the device failed |
| `MeshWatcher.ChangeIsNeverLost` | pkg/mesh/watch.go:203-313 | in every interleaving, a cache that differs from the last pass has the slot armed, drained and not read, or a real event on its way |
| `MeshWatcher.StatusPassIsNeverLost` | pkg/mesh/watch.go:296-338 | the same for the status slot and the passes it reports on |
| `MeshWatcher.PassesNeverOutnumberTriggers` | pkg/mesh/watch.go:219-276 | every pass is owed by at least one real event or tick |
| `MeshWatcher.WorkShrinks` | pkg/mesh/watch.go:257-338 | every step of the watcher's own goroutines lowers its remaining work |
| `MeshWatcher.NeverStuck` | pkg/mesh/watch.go:257-338 | until it is idle the watcher has a step to take |
| `MeshWatcher.IdleMeansConverged` | pkg/mesh/watch.go:257-338 | idle means the last pass read the current cache and the status writer saw every successful pass |
| `PodAllocator.ExhaustedExactlyWhenFull` | pkg/podnet/allocator.go:186-207 | allocation fails exactly when all 253 hosts are held, and otherwise gives a free host |
| `PodAllocator.Allocator.Allocate` | pkg/podnet/allocator.go:190-207 | the cursor scan returns the nearest free host, wrapping past .254, and moves the cursor past it |
| `PodAllocator.Allocator.AllocateSpecific` | pkg/podnet/allocator.go:215-226 | out of range, already held, or taken |
| `PodAllocator.Allocator.Release` | pkg/podnet/allocator.go:233-241 | frees a held address, reports one that is not |
| `PodNetwork.RunKeeps` | pkg/podnet/podnet.go:178-244 | over every run pods and addresses are in bijection and the addresses are exactly the allocator's held set |
| `PodNetwork.AddressesAreUnique` | pkg/podnet/podnet.go:178-211 | no two pods share an address and every one is a host of the /24 |
| `PodNetwork.HeldIsAlwaysBound` | pkg/podnet/reconcile.go:105-110 | the held-but-unbound refusal is never given |
| `PodNetwork.ReleasedOnlyByItsTeardown` | pkg/podnet/podnet.go:214-244 | a held address is released by exactly its own pod's teardown after the alias removal succeeded |
| `PodNetwork.ExhaustedExactlyWhenAllBound` | pkg/podnet/podnet.go:196-200 | a fresh Setup is refused for want of addresses exactly when every host is bound |
| `PodNetwork.RepeatIsIdempotent` | pkg/podnet/podnet.go:183-196 | Setup and reattach of an existing binding change nothing and answer its address |
| `PodNetwork.FailureLeaksNothing` | pkg/podnet/podnet.go:200-206 | a failed Setup, Teardown or reattach changes nothing but the cursor |
| `PodNetwork.Network.Setup` | pkg/podnet/podnet.go:178-211 | Setup and SetupGuest are their step of the run |
| `PodNetwork.Network.Teardown` | pkg/podnet/podnet.go:221-244 | Teardown is its step of the run |
| `PodNetwork.Network.Reattach` | pkg/podnet/reconcile.go:75-122 | both reattaches are their step of the run |
| `PodNetwork.Network.SweepStale` | pkg/podnet/reconcile.go:140-166 | asks for the removal of exactly the hosts no known or bound pod has and succeeds exactly when each removal does |
| `PodAlias.AliasManager.Ensure` | pkg/podnet/alias.go:130-147 | the alias manager's Ensure is the specified transition |
| `PodAlias.AliasManager.Remove` | pkg/podnet/alias.go:165-197 | the alias manager's Remove is the specified transition |
| `PodAlias.RemoveKeeps` | pkg/podnet/alias.go:149-197 | removing an aliased pod address ends with the alias gone and the blackhole in, or with an error and the address tracked; only an address once aliased is ever blackholed; none is aliased and blackholed at once |
| `PodAlias.BoundStaysTracked` | pkg/podnet/alias.go:160-164 | over every run a bound address stays tracked, held and out of the allocator's hands until its removal succeeded |
| `PodAlias.ProtectedExactly` | pkg/podnet/alias.go:82-91 | a departed pod's free address loses its blackhole exactly when a plumb is rolled back past the clear, or a sweep cannot install one |
| `PodAlias.RollbackUnprotects` | pkg/podnet/podnet.go:200-206 | a three-event run in which the rollback leaves a departed pod's free address without its blackhole |
| `PodExposure.ExposedExactly` | pkg/podnet/podnet.go:178-244 | over every run, a departed pod's free address lacks its blackhole exactly when some plumb of it was rolled back past the clear, or some sweep could not install it, with no successful plumb of the address and no retried install since |
| `PodExposure.ExposureStep` | pkg/podnet/alias.go:82-197 | the same for one event: which events expose an address, which cover it again, and that no other event changes either |
| `PodExposure.UndisturbedStaysProtected` | pkg/podnet/alias.go:82-91 | from a fresh node, a run with no such rollback and no such sweep protects every departed pod's free address |
| `NetdApplier.SafeAtEveryCommand` | pkg/netd/applier.go:123-181 | over every run with restarts and failing commands, after every single command: pods live on lo0 count as allocated, utun pod aliases have their lo0 alias, nothing is aliased and blackholed |
| `NetdApplier.ConfigureConverges` | pkg/netd/applier.go:581-622 | an error-free ConfigureMesh leaves the utun and lo0 pod sets equal, and a successful lo0 read makes the allocation exactly that set |
| `NetdApplier.EnsureRuns` | pkg/netd/applier.go:292-319 | EnsureAlias's commands are each allowed where they run |
| `NetdApplier.RemoveRuns` | pkg/netd/applier.go:429-469 | RemoveAlias's commands are each allowed where they run |
| `NetdApplier.ConfigureRuns` | pkg/netd/applier.go:586-622 | ConfigureMesh's commands are each allowed where they run and end in the specified state |
| `NetdApplier.SetNodeRuns` | pkg/netd/applier.go:538-579 | SetNodePodCIDR refuses under a live mesh and otherwise re-points, forgets, untracks and sweeps safely |
| `NetdApplier.RestartRuns` | pkg/netd/applier.go:492-516 | a daemon restart and its sweep keep the invariant |
| `NetdApplier.DarwinApplier.EnsureAlias` | pkg/netd/applier.go:292-319 | the method leaves the state its commands lead to |
| `NetdApplier.DarwinApplier.RemoveAlias` | pkg/netd/applier.go:429-469 | the method leaves the state its commands lead to |
| `NetdApplier.DarwinApplier.SetNodePodCIDR` | pkg/netd/applier.go:538-579 | refuses exactly under a live mesh; otherwise leaves the state its commands lead to |
| `NetdApplier.DarwinApplier.RemoveMesh` | pkg/netd/applier.go:625-640 | the utun and its aliases go, unless the teardown fails |
| `NetdApplier.DarwinApplier.SeedPods` | pkg/netd/applier.go:385-399 | the allocation becomes the lo0 pods plus the live tracked ones, or unknown |
| `NetdApplier.DarwinApplier.ReconcileUtun` | pkg/netd/applier.go:346-379 | stale utun aliases go, missing ones come unless refused, and it succeeds exactly when none was refused |
| `NetdApplier.DarwinApplier.ConfigureMesh` | pkg/netd/applier.go:586-622 | the method leaves the specified state and succeeds exactly when every part did |
| `NetdRuns.TrackedAliasesInPolicy` | pkg/netd/server.go:985-1001 | over every run with restarts each tracked alias lies in the node CIDR in force or the Service CIDR |
| `NetdRuns.OwnedAliasesAreDerived` | pkg/netd/interconnect.go:138-176 | over every run each owned interconnect alias is the confirmed identity's address of its slot |
| `NetdRuns.IdentityMovesExactly` | pkg/netd/server.go:789-826 | ConfigureMesh moves the identity exactly for another /24 of the aggregate with nothing live and the executor's mesh down |
| `NetdRuns.OnlyConfigureMovesIdentity` | pkg/netd/server.go:789-826 | no other request moves it |
| `NetdRuns.OtherBridgeAddressesUntouched` | pkg/netd/interconnect.go:368-376 | every step leaves every bridge0 address outside the eight derived ones as it is |
| `NetdRuns.ForeignBridgeAddressesKept` | pkg/netd/interconnect.go:368-376 | over every run with its restarts, a bridge0 address that is never one of the eight derived ones stands at the end exactly as it stood at the start |
| `NetdRuns.RestartKeepsOwned` | pkg/netd/interconnect.go:339-428 | a restart over intact files keeps the identity and the owned set and removes no owned alias |
| `NetdRuns.FilesFollowEveryRun` | pkg/netd/server.go:401-429 | over every run whose file writes succeed the files follow the daemon |
| `NetdRuns.SlotZeroKeptExactly` | pkg/netd/interconnect.go:178-286 | a request takes slot 0 from under an owned rider exactly when a netmask repair removes it and then fails |
| `NetdRuns.RepairDropsSlotZero` | pkg/netd/interconnect.go:185-224 | a run in which it does: a start over slot 0 as a /32 under an owned slot 1, then an EnsureInterconnect(0) that removes and cannot add |
| `NetdRuns.RestartKeepsSlotZero` | pkg/netd/interconnect.go:407-438 | the start-up reconcile keeps slot 0 under an owned rider |
| `NetdStrays.StrayExactly` | pkg/netd/server.go:672-703 | over every run with restarts, an address is on lo0 untracked exactly when its last relevant event is an ensure the utun refused or a start with the address on lo0, with no successful ensure or removal since |
| `NetdStrays.OnLo0Exactly` | pkg/netd/applier.go:292-319 | at every point of a run an address is on lo0 exactly when something put it there and nothing took it off since |
| `NetdStrays.MoveOrphansExactly` | pkg/netd/server.go:812-826 | over every run, a move of the identity leaves on lo0 exactly the old identity's addresses with that history |
| `NetdStrays.UndisturbedMoveOrphansNothing` | pkg/netd/server.go:789-826 | a run from an empty lo0 without a refused utun alias and without a restart never moves the identity over a live alias |
| `NetdStrays.RefusedUtunOrphans` | pkg/netd/applier.go:311-319 | a run from a first boot: mesh up, utun alias refused, mesh down, and the next ConfigureMesh moves the identity over the lo0 alias |
| `NetdStrays.RestartOrphans` | pkg/netd/server.go:336-347 | a run from a first boot: an ensured alias, a restart, and a ConfigureMesh that moves the identity over it |
| `NetdExecutor.EnsureIsTheExecutors` | pkg/netd/applier.go:292-319 | an admitted ensure, as the identity runs take it, reports and leaves on lo0 what the executor's commands do |
| `NetdExecutor.RemoveIsTheExecutors` | pkg/netd/applier.go:429-469 | and so does an admitted removal |
| `NetdRefinement.CallMatches` | pkg/netd/server.go:658-887 | every request or start, whatever the kernel answers, is a legal run of executor operations and leaves the daemon and the executor agreeing on the /24, the mesh and lo0 |
| `NetdRefinement.RunsRefine` | pkg/netd/server.go:265-360 | every run of the daemon over its executor is at once a run of the identity model and a legal run of the executor, and the two agree at its end |
| `NetdRefinement.DaemonRunsAreSafe` | pkg/netd/applier.go:123-181 | so after every single command of every operation of a daemon run, pods live on lo0 count as allocated, utun pod aliases have their lo0 alias, and nothing is aliased and blackholed |
| `NetdIdentity.StepKeeps` | pkg/netd/server.go:656-873 | every request and restart keeps aliases in policy and owned slots derived |
| `NetdServer.Server.constructor` | pkg/netd/server.go:265-360 | start-up restores the identity and reconciles the interconnect as specified |
| `NetdServer.Server.AdoptNodePodCIDR` | pkg/netd/server.go:789-826 | the adoption rules in order |
| `NetdServer.Server.LivePodAliases` | pkg/netd/server.go:834-842 | positive exactly when a tracked alias lies in the node CIDR |
| `NetdServer.Server.ConfigureMesh` | pkg/netd/server.go:711-754 | adopts first, then records the mesh or leaves it |
| `NetdServer.Server.EnsureAlias` | pkg/netd/server.go:658-680 | tracks an alias only after its plumb |
| `NetdServer.Server.RemoveAlias` | pkg/netd/server.go:684-703 | untracks an alias only after its removal |
| `NetdServer.Server.RemoveMesh` | pkg/netd/server.go:880-887 | drops the mesh from the accounting only when the executor did, and keeps the identity |
| `NetdServer.Server.EnsureInterconnect` | pkg/netd/interconnect.go:185-224 | one slot's alias: present, repaired, added or refused |
| `NetdServer.Server.RemoveInterconnect` | pkg/netd/interconnect.go:230-286 | ownership is dropped only on a verified absence, slot 0 only without riders |
| `NetdServer.Server.ReconcileInterconnectAtStart` | pkg/netd/interconnect.go:377-428 | restores the owned entries that are exactly derived and sweeps the stale ones |
| `NetdServer.Server.RestoreInterconnect` | pkg/netd/interconnect.go:339-366 | keeps exactly the ledger entries that are this node's |
| `NetdServer.Server.SweepStale` | pkg/netd/interconnect.go:407-428 | removes the derived addresses present and not owned, slot 0 only when nothing owned rides it |
| `DnsAgreement.AgreeExactly` | shim/getaddrinfo_shim.c:1381-1508 | for every configuration whose servers survive the environment and every name, the shim and LookupHost send the same queries in the same order and reach matching verdicts on every network exactly when they put the same names on the wire in the same order and class each alike |
| `DnsPlain.EnginesAgreeExactly` | shim/getaddrinfo_shim.c:394-495 | for every encoded configuration with a normalised search list that fits and every plain name, they agree on every network exactly when no domain under which the name can be asked repeats, no candidate exceeds the shim's limit by a trailing dot, and none lies under a domain only the shim recognises |
| `DnsPlain.EnginesAgree` | shim/getaddrinfo_shim.c:1381-1508 | so a list without duplicates and without a domain ending in two dots agrees for every plain name and every stream of answers |
| `DnsPlain.SameWireExactly` | pkg/dns/expand.go:71-95 | Go's deduplicated list and the shim's put the same names on the wire exactly when no name that can be asked repeats or exceeds the limit by its dot |
| `DnsPlain.ClassesDifferExactly` | pkg/dns/resolver.go:262-281 | the fail-closed decisions differ on a name that can be asked exactly when it lies only under a search domain ending in two dots |
| `DnsAgreement.SameNamesNeeded` | pkg/dns/resolver.go:187-241 | a network that knows nothing tells different lists apart |
| `DnsAgreement.SameClassesNeeded` | pkg/dns/resolver.go:262-281 | a network that falls silent at a name classed differently tells the engines apart |
| `DnsAgreement.SameWalk` | pkg/dns/resolver.go:187-241 | the two candidate walks over the same names in the same classes agree from any state |
| `DnsLookup.GoOrdered` | pkg/dns/expand.go:41-81 | the Go candidates are the ordered expansion |
| `DnsLookup.ShimOrdered` | shim/getaddrinfo_shim.c:394-431 | the shim's slots are the same expansion, over-long ones marked |
| `DnsConfig.ShimReadsConfig` | pkg/dns/env.go:163-202 | the loader reads back the encoder's servers, suffixes, domain and ndots, each string cut at its buffer |
| `DnsConfig.SearchReadsBack` | pkg/dns/normalize.go:46-120 | the search list survives the join, the tokenizer and the dot strip |
| `DnsConfig.ServersReadBack` | shim/getaddrinfo_shim.c:239-263 | the server list survives the join and the token parser |
| `DnsServers.AnsweredLeavesLive` | pkg/dns/resolver.go:303-325 | a candidate that was not transient leaves some server live |
| `DnsServers.UnencodableMisses` | pkg/dns/resolver.go:366-456 | with a server to ask, an unencodable candidate is a miss that changes nothing |
| `DnsServers.SweepKeepsDead` | shim/getaddrinfo_shim.c:1155-1170 | a dead server is not asked again |
| `DnsServers.GoQueryCandidate` | pkg/dns/resolver.go:289-331 | the Go attempt and server loops compute the shared candidate query |
| `DnsServers.ShimQueryCandidate` | shim/getaddrinfo_shim.c:1140-1174 | the shim's loops compute the same query |
| `DnsTimeouts.EachServerTimesOutOnce` | shim/getaddrinfo_shim.c:1126-1139 | with several servers, no server is waited for twice in one lookup by either engine |
| `DnsEngines.DedupeInPlace` | pkg/dns/expand.go:84-95 | the in-place compaction leaves the first occurrences, in order |
| `DnsEngines.CandidateNames` | pkg/dns/expand.go:41-81 | the expansion loop gives the specified candidates |
| `DnsEngines.LookupHost` | pkg/dns/resolver.go:187-241 | the candidate loop gives the specified queries and verdict |
| `DnsEngines.Candidates` | shim/getaddrinfo_shim.c:394-431 | the fixed tables are filled with the specified slots |
| `DnsEngines.Resolve` | shim/getaddrinfo_shim.c:1381-1508 | the shim's candidate loop gives the specified queries and verdict |
| `DnsLimits.CandidatesAgreeExactly` | pkg/dns/expand.go:71-95 | the two candidate lists are the same exactly for an absolute name or a duplicate-free search list |
| `DnsLimits.RepeatParts` | pkg/dns/expand.go:71-95 | any repeated domain under which the name can be asked parts the engines on a network that knows nothing |
| `DnsLimits.DuplicateParts` | pkg/dns/expand.go:71-95 | the search list "a a" and the name "x" do |
| `DnsLimits.DoubleDotParts` | pkg/dns/resolver.go:270-279 | the search list "a..", ndots 1 and the name "x.a" end in a temporary failure in the shim and a missing name in Go when the server never answers |
| `DnsLimits.DotOverLimitParts` | shim/getaddrinfo_shim.c:394-431 | a candidate of 253 bytes and a trailing dot is asked by Go and not by the shim |
| `DnsLimits.LongNameParts` | shim/getaddrinfo_shim.c:394-431 | the search list "a..", ndots 1 and a name of 251 bytes part the engines on a silent network: the candidate of 253 bytes and a dot is asked by Go alone |
| `DnsLimits.LongSearchIsCut` | shim/getaddrinfo_shim.c:307-328 | a search list past the shim's buffer is cut inside a domain |
| `DnsLimits.LongSearchParts` | shim/getaddrinfo_shim.c:307-328 | and then Go asks for the name under the domain it was given, the shim under the piece that fitted |
| `DnsConfig.ShortDomainsFit` | shim/getaddrinfo_shim.c:307-312 | only a domain over 255 bytes can overrun that buffer |
| `DnsWire.EncodeName` | shim/getaddrinfo_shim.c:589-632 | succeeds exactly when the name without one trailing dot, of L bytes, is not empty, every label has 1 to 63 bytes and L + 2 bytes leave room; then writes exactly its L + 2 wire bytes |
| `DnsWire.WireNameDecodes` | shim/getaddrinfo_shim.c:589-632 | what is written decodes to exactly the name's labels (section 3.1 of RFC 1035) |
| `DnsWire.BuildQuery` | shim/getaddrinfo_shim.c:635-684 | a candidate within the length limit gives a query exactly when encodable, of L + 29 bytes, always within 512 |
| `DnsAnswer.ParseReply` | shim/getaddrinfo_shim.c:923-1000 | the parser's loops end and read inside the reply, and compute the specified verdict |
| `DnsAnswer.ParsesWellFormed` | shim/getaddrinfo_shim.c:923-1000 | on every well-formed reply it returns the first 4-byte A record or a miss, and the right verdict for truncation and each rcode |
| `DnsAnswer.FirstAIsFirst` | shim/getaddrinfo_shim.c:975-999 | the address found is the first such record's |
| `CidrEnv.ClusterScopeReadsBack` | pkg/podnet/env.go:176-203 | an emitted cluster list fits the C buffers, parses, and matches exactly the addresses of the caller's usable prefixes |
| `CidrEnv.PairSwitchesOn` | shim/getaddrinfo_shim.c:1823-1876 | an emitted interconnect pair always switches the scope on, edge rule included, and pins exactly its destinations |
| `CidrEnv.ScopeParses` | shim/getaddrinfo_shim.c:1696-1766 | the joined list parses to the same prefixes in the same order |
| `CidrEnv.MatchIsContains` | shim/getaddrinfo_shim.c:1769-1776 | C's mask comparison is Go's containment |
| `CidrEnv.LinkEntry` | pkg/podnet/env.go:254-262 | the range test and the network/broadcast rule are the same on both sides |
| `CidrLoops.ClusterList` | pkg/podnet/env.go:176-203 | the encoder's loop gives the specified list |
| `CidrLoops.InterconnectEnv` | pkg/podnet/env.go:229-268 | the encoder's loop gives the specified pair |
| `CidrLoops.ParseList` | shim/getaddrinfo_shim.c:1696-1766 | the parser's loop gives the specified table |
| `CidrLoops.InterconnectInit` | shim/getaddrinfo_shim.c:1823-1876 | the scope is on exactly when specified |
| `PodDnsName.DecodeOfEncode` | pkg/dns/synth.go:296-346 | decoding an encoded name, in any case and with or without a trailing dot, gives back the address and lower-cased namespace |
| `PodDnsName.EncodeOfDecode` | pkg/dns/synth.go:296-346 | any name that decodes re-encodes to itself up to case and one trailing dot |
| `PodDnsName.EncodedIsCanonical` | pkg/dns/synth.go:293-309 | an encoded name is lower case, has no trailing dot and decodes as it stands |

## Left out

- IPv6 allowed ranges in the configuration text: the plan compares them, the text and the peer table hold IPv4 ones.
- wireguard cryptography, handshakes, sockets and the private-key write of Up.
- MeshPeer validation, defaults, key decoding and prefix parsing: taken by their results.
- The order of route and alias requests beyond what the results need: sets and sorted lists stand for them.
- A watcher built without the status writer, and what the status pass writes.
- Reader steps of the refuser below one queue or deadline operation, and a wake or rearm that half succeeds.
- An executor or alias manager built for an unusable node CIDR, and addresses that are not IPv4.
- PodAlias and NetdApplier changes of lo0 made by other programs, and an lo0 -alias that fails on an address that is there.
- NetdIdentity: interleavings finer than one request; validation and derivation happen before the locks, so nothing is claimed for them.
- NetdRefinement.RunsRefine: for a configured and a recorded identity that are /24s clear of the Service range, which is what the executor is built for.
- Per-connection request caps, port binding, updates and code signing of the root daemon.
- NodeCIDR and the allocator's accessors: arithmetic and reads.
- DnsAgreement.AgreeExactly: starts at the candidate list with a numeric service and ndots already defaulted; numeric nodes, localhost, AF_INET6 hints and named services are decided before it, a context cancelled during a Go lookup is not modelled, and neither is the name of two dots, for which Go asks the root.
- MeshRoutes.LeakLivesExactly: starts after Up; what Down and the closing of the utun do to a leaked route is not modelled.
- DnsConfig: the 512-byte copy of the server list, which three quads never reach, and server tokens with a port.
- DnsWire.BuildQuery: the name is written to an array of its own standing for the buffer's last 500 bytes.
- CidrLoops.ParseList: takes the list token by token; the pointer walk between commas is the split.
- The rest of the Service records, the resolv.conf of a guest, the ingress and the link tools: flat case analysis or wiring.
