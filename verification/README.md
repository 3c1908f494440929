# StarFabric verification

A Dafny model of the decision logic of StarFabric, a controller for a satellite network whose links come and
go, with proofs of what that logic promises. `dafny verify dfyconfig.toml` verifies all of it.

- `Allocation`, `Feeder`, `DonorExchange`, `Frames`: which ground site gets which satellite terminal, frame after frame.
- `Fabric`, `Graph`, `Dijkstra`, `Policy`, `LatencyLimit`, `Disjoint`, `Planner`, `Validation`, `Probe`: from a topology and intents to paths, routes, a plan, its validation and the forwarding walk.
- `Device`, `Reconciler`, `Controller`: the two-phase installation of a plan on many devices that may fail at any call, and the controller that plans and installs.
- `Lease`: leader election among any number of controllers on one lease record.
- `Store`, `Forecast`, `Changes`: the versioned topology, its forecast over a horizon and what changes between two plans.
- `ContactPlan`, `Scenario`: the contact table compiler and the run of a compiled scenario on the topology store.
- `Evpn`: the byte codec of EVPN routes: section 4.3 of RFC 4271, sections 7.2 and 7.3 of RFC 7432, section 3.1 of RFC 9136, section 3.1 of RFC 9252.
- `Rendezvous`: the assignment of shards to controllers.
- `Names`, `Basics`: string order, linear orders and stable sorting; optional values, minimum and maximum.

Main results:

- The augmenting search of the terminal allocator is complete, also with established contacts in the way, and a
  failed search leaves no trace. In every frame no contact with a lasting satellite could be added to the result;
  from scratch the whole allocation is max-min fair and of maximum size. In every run of frames no ground site falls
  below two operational feeder links, or below what it has left of them, from one frame to the next, as long as the
  returning contacts are balanced; for every pair of counts that is not balanced there is a run in which a site does.
- A link is operational exactly if its pair was chosen in every frame of an unbroken span at least as long as the
  acquisition time, over every run of frames.
- The shortest path is the canonical one: a function of the set of admissible links only. All paths of an intent are
  pairwise disjoint, and a backup is missing only if nothing is left that could serve as one. Each intent is planned on
  exactly the capacity that the primaries before it leave, capacity is conserved over the whole intent loop, every plan
  built passes validation until it expires, and until then the hop-by-hop walk over the installed routes delivers
  however equal routes are chosen, whatever state the devices without routes are in.
- When the controller has planned and applied, the network delivers every intent until the plan expires.
- Applying a plan is all or nothing under every combination of faults. No commit is attempted before every device of
  the earlier batches was read back after its own commit and held its share, and over every sequence of calls no device
  keeps routes that the controller does not know of.
- No run of any number of controllers has two leaders if and only if the recorded lease duration covers four retry
  periods, the reload time and one microsecond.
- A batch of events does what the events do one by one; every event is applied at most once.
- A forecast at finitely many instants is right for every instant of the horizon, and each of its plans is acceptable
  for as long as it lasts.
- A compiled contact table, run through the topology store, has a link up at exactly the instants of its windows.
- Decoding an encoded route gives that route; removing a controller moves no more shards than it has to.

Five natural claims do not hold of the code. For each there is a lemma with an input that breaks it and a lemma
that says when it holds:

- The donor exchange counts assigned contacts, not locked ones, so it can cost a site its service. It never does if the
  kept contacts are balanced: no site has more than two of them and more than one above another site. For every pair of
  counts beyond that there is a run of four frames in which a site falls from two operational feeder links to one or
  none (`Frames.Contacts.Frame`, `DonorExchange.UnbalancedLosesService`, `Feeder.Terminals.DonorService`).
- Rolling back a plan that a device had applied before the call steps to the plan before it. Before the call it can be
  seen whether these steps lead nowhere on the participants that the call may get to. If they do, every failed call
  leaves all devices as they were; if not, there are faults with which a failed call does not
  (`Device.RollbackStepsBack`, `Device.UndoAlreadyApplied`, `Reconciler.Reconciler.Apply`).
- The latency limit is applied to the cheapest path only, so it can refuse although another path meets it. On a class
  of topologies it never does if and only if the policy is one of the latency-cost policies and every link takes time
  (`LatencyLimit.OtherPoliciesMisjudge`, `LatencyLimit.ZeroLatencyMisjudges`, `LatencyLimit.LatencyLimitIff`).
- What construction of an elector accepts does not make a single leader, and neither does a lease of exactly four retry
  periods plus the reload time: the duration is recorded in whole 32-bit seconds and renewal times in whole
  microseconds (`Lease.AcceptedIsNotEnough`, `Lease.Overtaken`, `Lease.SingleLeaderIff`).
- The reliability cost of a link is positive unless its sum overflows 64 bits, which needs a reliability far below
  zero. The overflow guard of the search, itself in 64-bit arithmetic, turns exactly those links away
  (`Policy.ReliabilityOverflows`, `Policy.EdgeCostPositive`, `Policy.OverflowUnused`).

Instants and durations are naturals in nanoseconds with 0 as the zero value, except for the offsets of frames,
which are reals. Go integers are unbounded in the model except where wrap-around can be reached: link costs, path
latencies and version numbers are computed modulo 64 bits, lease seconds modulo 32 bits. Faults, clocks, persistence outcomes and hash values
are parameters or free choices.

## Model

| member | source | states |
|---|---|---|
| `Allocation.HallBound` | tools/physical_constellation.py:208-222 | A set of sites and the full satellites around them bound what any feasible allocation that keeps the established contacts can give those sites |
| `Allocation.NoAugmentation` | tools/physical_constellation.py:208-222 | A certificate rules out one more contact for a site while all other sites keep their counts |
| `Allocation.SaturatedIsFair` | tools/physical_constellation.py:183-189 | If every site below its budget is saturated, no site can gain without a site losing that ends no better served |
| `Allocation.SaturatedIsMaximum` | tools/physical_constellation.py:183-189 | The same allocation has the largest number of contacts within both budgets |
| `Feeder.Terminals.Allocate` | tools/physical_constellation.py:208-222 | Success adds one contact to the site and leaves every other count alone, and no satellite ends with fewer contacts; failure restores both maps exactly; no site falls below two locked contacts; a failed search from an empty visited set means no feasible allocation that keeps the established contacts does better |
| `Feeder.Terminals.MoveAway` | tools/physical_constellation.py:214-221 | One displacement with its nested search either hands the satellite over or undoes every move |
| `Feeder.Terminals.SearchCertificate` | tools/physical_constellation.py:208-222 | The visited satellites of a failed search and their replaceable owners form a Hall certificate |
| `Feeder.Terminals.SearchComplete` | tools/physical_constellation.py:208-222 | A failed search means that no better allocation exists |
| `Feeder.Terminals.SearchBlocked` | tools/physical_constellation.py:208-222 | After a failed search no satellite in the site's sight has a free terminal, except those ruled out beforehand |
| `Feeder.Terminals.DropKeepsService` | tools/physical_constellation.py:215-218 | The guard of the displacement is what keeps min(2, locked contacts) from falling |
| `Feeder.Terminals.Displaces` | tools/physical_constellation.py:218-220 | A nested success followed by the handover raises the count of the asking site only and keeps service |
| `Feeder.Terminals.DenserDisplaces` | tools/physical_constellation.py:218-220 | Through nested displacements satellites never carry less, and a contact is given up only for a satellite that stays full |
| `Feeder.Terminals.Seed` | tools/physical_constellation.py:201-207 | Only previous contacts are seeded, and one that is still visible is left out only when its site or satellite has no free terminal |
| `Feeder.Terminals.Donate` | tools/physical_constellation.py:229-234 | The donor keeps at least max(2, count + 1) contacts and nobody else loses any; without a donation nothing changes and no owner in sight was rich enough |
| `Feeder.Terminals.DonorService` | tools/physical_constellation.py:229-234 | The exchange keeps the donor's service if and only if it does not give away one of at most two locked contacts |
| `DonorExchange.ServiceLost` | tools/physical_constellation.py:247-304 | A run of four frames at equal steps: two sites with one terminal per satellite, the larger with more than two returning contacts and more than one above the other, two of them operational before the last frame and at most one after it, although both are still eligible |
| `DonorExchange.UnbalancedLosesService` | tools/physical_constellation.py:223-234 | Every pair of counts of returning contacts that is not balanced has such a run |
| `DonorExchange.TakeAll` | tools/physical_constellation.py:279-304 | A frame chooses every candidate where no satellite is seen twice and no site sees more than it has terminals for |
| `DonorExchange.SettingPresses` | tools/physical_constellation.py:229-234 | What the first three frames record presses the smaller site in the fourth |
| `Feeder.Terminals.Serve` | tools/physical_constellation.py:224-234 | One turn of one site keeps both budgets and both round invariants: a site above the round's count is passed over, nobody gains beyond count + 1 or falls below it, and a site is served unless no owner in sight is rich enough |
| `Feeder.Terminals.BalancedTurn` | tools/physical_constellation.py:225-234 | From a balanced start no site is ever rich enough to become a donor |
| `Feeder.Terminals.CorneringTurn` | tools/physical_constellation.py:225-234 | A cornered site gains nothing before the round of its own count, gains a contact in that round and never loses it |
| `Feeder.Terminals.YieldedBreaks` | tools/physical_constellation.py:229-234 | What a cornered site gains is a locked contact of a site that has at most two of them |
| `Feeder.Terminals.RoundServed` | tools/physical_constellation.py:223-226 | A success serves exactly the site whose turn it is |
| `Feeder.Terminals.RoundStuck` | tools/physical_constellation.py:223-226 | A failure saturates the site for good |
| `Feeder.Terminals.StaysSaturated` | tools/physical_constellation.py:223-226 | A saturated site stays saturated, with the same count, through every later augmentation |
| `Feeder.Terminals.FloorServed` | tools/physical_constellation.py:223-234 | A served site has one contact more or sees no free terminal, and that stays so |
| `Feeder.Terminals.Rounds` | tools/physical_constellation.py:223-234 | All rounds keep both budgets; every site ends with its budget or sees no free terminal; without a donation nobody loses contacts or service; from a balanced start there is no donation, and a cornered site always gets one; from scratch every site ends with its budget or saturated |
| `Feeder.Terminals.Succeed` | tools/physical_constellation.py:239-244 | A departing contact is traded for a lasting one, or everything is as before and no lasting satellite in sight has a free terminal; all counts and all service are kept |
| `Feeder.Terminals.Successors` | tools/physical_constellation.py:235-244 | The replacement step keeps every site's count and service |
| `Feeder.Terminals.StaysPacked` | tools/physical_constellation.py:223-244 | After the replacement step an eligible contact is missing only if its site has its budget, its satellite is full, or somebody is about to lose that satellite |
| `Feeder.Terminals.FairlySharedIsOptimal` | tools/physical_constellation.py:183-189 | The end of the rounds is max-min fair and of maximum size |
| `Feeder.Terminals.SeedCounts` | tools/physical_constellation.py:201-207 | If the still-visible previous contacts respect the satellite limits, each site keeps as many of them as its budget allows |
| `Feeder.Terminals.UndisturbedSeed` | tools/physical_constellation.py:201-207 | A condition on the input under which the kept contacts are balanced: no site sees more than two previous contacts, or the visible ones respect the limits and are balanced |
| `Feeder.Terminals.Pairs` | tools/physical_constellation.py:182-245 | In every frame the result is a set of candidates within both terminal budgets to which no contact with a lasting satellite could be added; visible established contacts are kept first; their service survives if they are balanced, which the input decides, and is lost if a site is cornered; without previous contacts the result is max-min fair and maximum |
| `Frames.SinceIsSpanStart` | tools/physical_constellation.py:292-304 | The recorded time of a pair is the offset of the frame that began its unbroken span |
| `Frames.OperationalMeansAcquired` | tools/physical_constellation.py:292-304 | Over every run of frames with increasing offsets: operational if and only if chosen in every frame of a span that began at least the acquisition time ago |
| `Frames.FeederFits` | tools/physical_constellation.py:281-286 | The counters never reject a pair that the allocator granted |
| `Frames.FitsIsPreviousFits` | tools/physical_constellation.py:201-207 | Returning contacts within both budgets are all kept first |
| `Frames.BalancedIsUndisturbed` | tools/physical_constellation.py:201-207 | Balance of the returning contacts, counted on the candidate list, is the allocator's own condition |
| `Frames.PressesIsCornered` | tools/physical_constellation.py:229-234 | A site pressed by the candidate list and the record is cornered in the allocator |
| `Frames.ServiceFollows` | tools/physical_constellation.py:197-207 | The allocator keeps service if and only if the frame does |
| `Frames.ReadyIsUp` | tools/physical_constellation.py:292-304 | Kept service means operational links, and with an acquisition time nothing else does |
| `Frames.Contacts.FeederPairs` | tools/physical_constellation.py:182-196 | The granted pairs are candidates within both budgets, and no candidate with a lasting satellite could be added; in the first frame no allocation has more; of returning contacts within the budgets, balanced ones keep their service and pressed ones lose it |
| `Frames.Contacts.Schedule` | tools/physical_constellation.py:280-291 | The counters equal the numbers of chosen pairs, all four budgets hold, and an inter-satellite pair is passed over only if an end is out of terminals |
| `Frames.Contacts.Frame` | tools/physical_constellation.py:279-304 | One frame extends the history by its chosen pairs, keeps every budget, so that returning contacts always fit them, leaves out a candidate only where terminals have run out, and reports exactly the acquired pairs as operational; with balanced returning contacts every site has two operational feeder links or all it has left of them, and a pressed site does not |
| `Graph.CanonicalUnique` | internal/policy/path.go:116-119 | There is at most one path that is cheapest and enters every node by the smallest tight link |
| `Graph.CanonicalSimple` | internal/policy/path.go:101-135 | The canonical path visits no node twice |
| `Dijkstra.SettledBound` | internal/policy/path.go:101-122 | Every path cheaper than the first open label ends at a settled node and costs no less than its label |
| `Dijkstra.BackCanonical` | internal/policy/path.go:127-135 | Following the recorded links back gives the canonical path |
| `Dijkstra.NothingBelow` | internal/policy/path.go:110-125 | A label of the largest 64-bit integer means that no path costs less, overflow guard included |
| `Dijkstra.GuardHolds` | internal/policy/path.go:110-112 | The overflow guard in 64-bit arithmetic passes exactly the positive costs that do not overflow the label |
| `Dijkstra.Relax` | internal/policy/path.go:109-121 | Relaxing the links of a node in any order keeps the search state and settles them, also with overflowed negative costs among them |
| `Dijkstra.Search` | internal/policy/path.go:93-125 | The search ends with a canonical path to the target, or with the proof that every path costs at least the largest 64-bit integer |
| `Policy.EdgeCostPositive` | internal/policy/path.go:206-219 | A cost is positive if and only if the policy is not reliability or its sum fits into 64 bits |
| `Policy.ReliabilityInRange` | internal/policy/path.go:214-215 | A reliability in parts per million never overflows |
| `Policy.ReliabilityOverflows` | internal/policy/path.go:214-215 | A reliability that drives the cost of a link to the smallest 64-bit integer |
| `Policy.OverflowUnused` | internal/policy/path.go:110-112 | A link is left out of the search for its cost if and only if its reliability cost overflows |
| `Policy.Retrace` | internal/policy/path.go:127-135 | The walk back over the recorded links ends and yields the path |
| `Policy.Describe` | internal/policy/path.go:136-154 | Nodes, links, latency, combined loss, smallest capacity and risk groups are those of the path |
| `Policy.Shortest` | internal/policy/path.go:50-159 | On every topology with 64-bit values the result is the canonical path over the admissible links and within the latency limit; failure means a bad intent, a disabled endpoint, no path below the largest 64-bit integer, or a canonical path beyond the limit |
| `Policy.ShortestDeterministic` | internal/policy/path.go:84-122 | The result depends on the set of admissible links only, not on link order or queue ties |
| `LatencyLimit.LatencyIsCost` | internal/policy/path.go:142-142 | Under latency costs the latency of a path is its cost, without wrap-around |
| `LatencyLimit.DefaultPolicyCostsLatency` | internal/policy/path.go:216-217 | The latency-cost policies charge exactly the latency where every link takes time |
| `LatencyLimit.LatencyLimitComplete` | internal/policy/path.go:155-157 | Under latency costs the limit rejects only if every admissible path breaks it |
| `LatencyLimit.OtherPoliciesMisjudge` | internal/policy/path.go:155-157 | A valid topology on which every other policy refuses an intent although an admissible path meets the limit |
| `LatencyLimit.ZeroLatencyMisjudges` | internal/policy/path.go:206-219 | One with links of zero latency on which the latency-cost policies do so |
| `LatencyLimit.NeverMisjudged` | internal/policy/path.go:155-157 | Where every link takes time the latency-cost policies never do |
| `LatencyLimit.LatencyLimitIff` | internal/policy/path.go:155-157 | Both directions, for the class of all topologies and the class of those whose links all take time |
| `Disjoint.EdgesExclude` | internal/policy/plugin.go:68-100 | Excluding a path removes exactly the links that share an ID, a node pair in either direction, a risk group or an interior node with it |
| `Disjoint.FailureIsFinal` | internal/policy/path.go:123-157 | A failed search leaves no path within the limits whose canonical choice respects the latency limit |
| `Disjoint.WithPolicy` | internal/policy/plugin.go:68-100 | The exclusions grow by exactly what the given path uses and stay for later calls; the result is the canonical path under them, and failure means that there is none |
| `Planner.SelectDestination` | internal/planner/planner.go:173-202 | The chosen destination is the cheapest reachable candidate, the smallest name on ties; failure means that none is reachable |
| `Planner.LeftApart` | internal/planner/planner.go:98-110 | A link that is left after some paths is admissible and shares nothing with any of them |
| `Planner.BackupIsGood` | internal/planner/planner.go:93-111 | The canonical path over what is left is apart from every earlier path |
| `Planner.NextBackup` | internal/planner/planner.go:93-111 | One more path over what the paths before it leave, or proof that nothing is left that answers the intent; the exclusions stay in force |
| `Planner.Backups` | internal/planner/planner.go:92-111 | As many backups as asked for, each the canonical path over what the paths before it leave, all pairwise apart; failure means that nothing is left that answers the intent |
| `Planner.PathRoom` | internal/policy/path.go:72-75 | A chosen path crosses a link once and every link on it has room for the demand |
| `Planner.Reserve` | internal/planner/planner.go:113-123 | Exactly the links of the path lose the demand, and it is recorded |
| `Planner.ReserveConserves` | internal/planner/planner.go:113-123 | Residual plus reserved stays the original capacity on every link, and reserved stays the load of the primaries |
| `Planner.LoadWithinCapacity` | internal/planner/planner.go:74-123 | The demand of all primaries over a link never exceeds its capacity |
| `Planner.EmitRoutes` | internal/planner/planner.go:134-159 | Succeeds exactly if every hop has an address; one route for every hop of every path, the best metric for the primary and its equal-cost companions |
| `Planner.Lifetime` | internal/planner/planner.go:124-133 | The lifetime ends no later than any link on the paths, and is not over if none of them is |
| `Planner.PathsLast` | internal/planner/planner.go:124-168 | No link on a chosen path has ended, so the lifetime of a plan is never used up |
| `Planner.PlanOne` | internal/planner/planner.go:77-159 | One intent is planned on what is left of the topology, towards its cheapest candidate, with pairwise disjoint paths and addressed routes; failure has one of four stated reasons |
| `Planner.Build` | internal/planner/planner.go:29-171 | The plan describes one planned intent per intent in order of priority, each planned on the topology minus exactly the demands of the primaries before it; it expires after now and no later than the topology or any link used, and conserves capacity; it fails only on an unusable topology or an intent that cannot be planned on what is left |
| `Planner.FirstIsShortest` | internal/planner/planner.go:74-90 | An intent before which nothing was reserved gets the shortest path of the topology itself |
| `Fabric.SortRoutesIdempotent` | internal/model/model.go:287-300 | Listing routes in order is stable under repetition |
| `Validation.Plan` | internal/validation/validation.go:13-76 | Accepts exactly the plans with a name, the right version and lifetime, valid and distinct routes over usable links, and loop-free paths |
| `Validation.RoutesForDistinct` | internal/validation/validation.go:55-59 | The routes of one intent never repeat a key |
| `Validation.StaysAcceptable` | internal/validation/validation.go:13-76 | A plan that passes validation when it is built passes until it expires |
| `Validation.BuiltPlansAreAcceptable` | internal/validation/validation.go:13-76 | Every plan built for intents with distinct prefixes passes validation on the same topology at every instant until it expires |
| `Probe.PrefixCheapest` | internal/policy/path.go:101-122 | Every beginning of a cheapest path is a cheapest path |
| `Probe.SameProgress` | internal/planner/planner.go:140-143 | All equal-cost paths reach a common node at the same cost |
| `Probe.StepForward` | internal/verification/routeprobe.go:65-98 | From any node on a best path every preferred route leads over a usable link to a best path at a higher cost |
| `Probe.Follow` | internal/verification/routeprobe.go:60-98 | At every instant until the plan expires, and whatever the state of devices without routes, the walk over its installed routes reaches the destination without meeting a node twice, whichever preferred route is used; acceptance means delivery |
| `Probe.Verify` | internal/verification/routeprobe.go:31-103 | Until it expires the probe accepts every installed plan that was built for distinct prefixes, and what it accepts delivers |
| `Probe.WalkOnBest` | internal/verification/routeprobe.go:60-98 | Every walk that devices may choose stays on best paths at rising cost |
| `Probe.InstalledForwards` | internal/verification/routeprobe.go:60-98 | Until it expires, an installed plan forwards each intent over healthy devices and usable links, without a repeated node, until the destination, for every choice among equally good routes |
| `Probe.ForwardsDelivers` | internal/verification/routeprobe.go:60-98 | Such forwarding delivers |
| `Device.MemoryDevice.Prepare` | internal/adapter/adapter.go:88-116 | A transaction is opened only by success on a plan neither applied nor prepared; everything else leaves the device alone |
| `Device.MemoryDevice.Commit` | internal/adapter/adapter.go:118-141 | Success switches to the prepared routes and remembers what they replaced; failure changes nothing |
| `Device.MemoryDevice.Rollback` | internal/adapter/adapter.go:143-159 | The device steps back from the plan, whatever its health |
| `Device.CommitAfterPrepare` | internal/adapter/adapter.go:106-139 | Preparing and then committing installs exactly the share |
| `Device.UndoOpened` | internal/adapter/adapter.go:146-150 | Rolling back an open transaction restores the device exactly |
| `Device.UndoSwitched` | internal/adapter/adapter.go:151-157 | Rolling back a committed one restores routes and applied plan |
| `Device.UndoAlreadyApplied` | internal/adapter/adapter.go:100-102 | Rolling back a plan applied before the call changes nothing if and only if the remembered step leads to the same routes and plan |
| `Device.RollbackStepsBack` | internal/adapter/adapter.go:151-156 | Such a rollback empties a device |
| `Reconciler.FreshIsTracked` | internal/reconcile/reconciler.go:54-82 | New devices satisfy the run invariant |
| `Reconciler.FailureKeepsTrack` | internal/reconcile/reconciler.go:352-386 | A failed call keeps the run invariant, also for a plan that had been applied before |
| `Reconciler.SuccessKeepsTrack` | internal/reconcile/reconciler.go:278-290 | A successful call keeps it: devices that could not be cleaned up become pending |
| `Reconciler.Reconciler.PrepareAll` | internal/reconcile/reconciler.go:202-228 | Every participant is prepared or, with nothing to install, deferred; otherwise the call fails with the prepared ones known |
| `Reconciler.Reconciler.Precheck` | internal/reconcile/reconciler.go:185-201 | Health and state of all participants are read before anything is prepared, and nothing changes |
| `Reconciler.Reconciler.FailureIsAtomicIff` | internal/reconcile/reconciler.go:352-386 | A failed call leaves every device as it was if and only if the step back from the plan leads nowhere on the participants it had reached that had applied it before |
| `Reconciler.Reconciler.HarmlessIffAtomic` | internal/reconcile/reconciler.go:352-386 | The same for the participants that a call may get to, known before it: if the steps lead nowhere every failed call is atomic, and a failed call that got to all of them is atomic only then |
| `Reconciler.GatedCommits` | internal/reconcile/reconciler.go:230-262 | A commit keeps the order of the journal if every device of the earlier batches was read back before it |
| `Reconciler.Reconciler.OpenNext` | internal/reconcile/reconciler.go:258-262 | Reading back a whole batch after its commits opens the next one |
| `Reconciler.Reconciler.CommitBatch` | internal/reconcile/reconciler.go:235-257 | Every commit of a batch is attempted, also next to a failed one; success means that each is in the journal and every device has switched |
| `Reconciler.Reconciler.CommitNext` | internal/reconcile/reconciler.go:231-262 | One batch and its read-back: only a batch that was read back opens the next |
| `Reconciler.Reconciler.CommitAll` | internal/reconcile/reconciler.go:230-262 | In the devices' own journal no commit is attempted before every device of the earlier batches was read back, after its commit, with exactly its share; a device that changed has its commit there; success means that all were read back |
| `Reconciler.Reconciler.Verify` | internal/reconcile/reconciler.go:300-328 | Acceptance means that every device was read and held exactly its share; nothing changes |
| `Reconciler.Reconciler.Fail` | internal/reconcile/reconciler.go:352-386 | Every prepared device is rolled back and no open transaction is left |
| `Reconciler.Reconciler.Publish` | internal/reconcile/reconciler.go:278-290 | The committed plan and the pending set change together, or not at all if they cannot be persisted |
| `Reconciler.Reconciler.CommitAndCheck` | internal/reconcile/reconciler.go:230-277 | The batches and the final check together: acceptance means that every device holds its share, and all commits are gated |
| `Reconciler.Reconciler.Apply` | internal/reconcile/reconciler.go:111-298 | Either every participant that is not deferred holds exactly its share, or every device that had not applied the plan before is as it was and the others are stepped back from it, with committed plan and pending set unchanged; no open transaction survives; all commits in the journal are gated by batches; devices with routes stay accounted for; without faults an applicable plan succeeds; every failed call leaves all devices as they were if and only if the steps back lead nowhere on the participants at risk, which is known before the call |
| `Controller.HoldsIsInstalled` | internal/reconcile/reconciler.go:300-328 | Devices that hold their shares have the plan installed |
| `Controller.HoldsIsWorking` | internal/verification/routeprobe.go:31-103 | Then the network forwards and delivers every intent of a built plan until it expires |
| `Controller.App.Reconcile` | internal/app/app.go:193-227 | Success means that exactly the wanted intents are planned and the network delivers each of them until the plan expires, as long as the devices with routes stay up; a failure to plan changes nothing and a failed rollout is rolled back |
| `Lease.StepKept` | internal/leadership/kubernetes.go:149-218 | Every step of every controller keeps the timing invariant |
| `Lease.LeaseLive` | internal/leadership/kubernetes.go:149-172 | Whoever leads, or has won, is the recorded holder of a lease that has not run out |
| `Lease.WinnerIsAlone` | internal/leadership/kubernetes.go:174-218 | A successful write finds no other controller leading or about to lead |
| `Lease.LateFindsNobody` | internal/leadership/kubernetes.go:213-217 | A write that the server handles after its controller gave it up goes through only when nobody leads or has won |
| `Lease.RunKept` | internal/leadership/kubernetes.go:149-218 | The invariant holds after every run of steps of any number of controllers |
| `Lease.HolderChangesInRuns` | internal/leadership/kubernetes.go:194-217 | In every run the recorded holder changes only at or after the expiry of the one before |
| `Lease.Overtaken` | internal/leadership/kubernetes.go:149-218 | With any shorter recorded lease there is a run with two leaders |
| `Lease.SingleLeaderIff` | internal/leadership/kubernetes.go:174-218 | For every configuration: no run has two leaders if and only if the duration, cut to whole 32-bit seconds, covers four retry periods, the reload time and one microsecond |
| `Lease.AcceptedIsNotEnough` | internal/leadership/kubernetes.go:106-114 | For every retry period there is an accepted lease duration with a run that has two leaders |
| `Store.Mutate` | internal/topology/store.go:217-263 | The search for the object of an event and its change agree with the event's meaning |
| `Store.BatchRefinesSequence` | internal/topology/store.go:162-215 | Events that would be accepted one by one are accepted as a batch, with the same nodes, links and sequence guards |
| `Store.BatchIsSequence` | internal/topology/store.go:162-215 | An accepted batch is an accepted sequence, given the three checks a batch skips |
| `Store.InOrderGrows` | internal/topology/store.go:115-160 | An admitted event keeps the log strictly ascending per subject, so no event is applied twice |
| `Store.CollectedInOrder` | internal/topology/store.go:162-215 | So does a batch |
| `Store.TopologyStore.Replace` | internal/topology/store.go:97-113 | Only a valid newer topology replaces, and only if it persists; replay guards stay |
| `Store.TopologyStore.Apply` | internal/topology/store.go:115-160 | Success is one new version with the event in the log; every rejection and every failed write changes nothing |
| `Store.TopologyStore.CollectAll` | internal/topology/store.go:162-196 | Taking in the events on working copies agrees with the meaning of a batch, also in what it refuses |
| `Store.TopologyStore.ApplyBatch` | internal/topology/store.go:162-215 | All events become one version, or nothing changes |
| `Store.TopologyStore.ExpireSeen` | internal/topology/store.go:273-284 | Forgetting old duplicates leaves topology, versions and sequence guards alone |
| `Evpn.AttributesRoundTrip` | lab/live/evpn_codec.py:129-130 | Attributes of distinct types are found again, each with its value |
| `Evpn.NlriRoundTrip` | lab/live/evpn_codec.py:59-110 | One encoded route of any type is read back as itself |
| `Evpn.ServiceRoundTrip` | lab/live/evpn_codec.py:14-24 | The service SID and behaviour can be read out of the nested service attribute |
| `Evpn.CommunitiesRoundTrip` | lab/live/evpn_codec.py:119-193 | The route target and the mobility sequence are found again, and a target is never taken for a sequence |
| `Evpn.AnnouncementRoundTrip` | lab/live/evpn_codec.py:113-195 | Decoding an encoded Type-2, Type-3 or Type-5 announcement returns exactly that route |
| `Evpn.WithdrawalRoundTrip` | lab/live/evpn_codec.py:113-195 | Decoding an encoded withdrawal returns exactly its key |
| `Evpn.AnnouncedAreComplete` | lab/live/evpn_codec.py:145-195 | Whatever bytes arrive, a route is announced only with a usable SID, a full next hop and the behaviour and target of its own kind |
| `Evpn.ReadTlvs` | lab/live/evpn_codec.py:18-24 | The consuming loop agrees with the recursive reading, also in what it refuses |
| `Evpn.FindTlv` | lab/live/evpn_codec.py:178-182 | The first value of a type is found |
| `Evpn.ReadCommunities` | lab/live/evpn_codec.py:170-172 | Communities are cut out in steps of eight bytes |
| `Evpn.LargestSequence` | lab/live/evpn_codec.py:193-193 | The largest mobility sequence among the communities, or zero |
| `Evpn.ReadServiceSid` | lab/live/evpn_codec.py:166-188 | Every check on the service attributes of an announcement, in loops, agrees with their meaning |
| `Evpn.ReadTunnel` | lab/live/evpn_codec.py:190-192 | Type-3 routes are taken only with their next hop as tunnel endpoint and originator |
| `Evpn.ReadRecords` | lab/live/evpn_codec.py:89-110 | The same for reachability records |
| `Evpn.ReadAttributes` | lab/live/evpn_codec.py:149-156 | The same for path attributes |
| `Evpn.ReadUpdate` | lab/live/evpn_codec.py:145-195 | The decoder, run with these loops, computes the update that the round trips speak of |
| `Rendezvous.Healthy` | internal/sharding/rendezvous.go:28-44 | The healthy controllers, unless an ID is missing or repeated |
| `Rendezvous.Assign` | internal/sharding/rendezvous.go:25-75 | Succeeds exactly for proper input with enough healthy controllers, and returns the beginning of the preference order over the set of healthy controllers |
| `Rendezvous.PickFirsts` | internal/sharding/rendezvous.go:51-64 | The first loop takes the best controller of every region, in order, up to the number of replicas |
| `Rendezvous.Pick` | internal/sharding/rendezvous.go:51-75 | Both loops together take the beginning of the preference order |
| `Rendezvous.OwnersCoverRegions` | internal/sharding/rendezvous.go:51-75 | The owners cover min(replicas, healthy regions) regions |
| `Rendezvous.PreferenceAfterRemoval` | internal/sharding/rendezvous.go:45-75 | Removing a controller takes one entry out of the preference order and moves at most one other forward |
| `Rendezvous.NonOwnerRemoval` | internal/sharding/rendezvous.go:25-75 | Removing a controller that owns nothing leaves the owner list unchanged |
| `Rendezvous.OwnerRemoval` | internal/sharding/rendezvous.go:25-75 | Removing an owner keeps every other owner and adds exactly one |
| `Rendezvous.MinimalDisruption` | internal/sharding/rendezvous.go:25-75 | Both, for the assignments computed before and after |
| `Forecast.SnapshotAt` | internal/predictive/engine.go:113-161 | Succeeds exactly if all windows and the resulting topology are valid, and then returns the topology the windows describe |
| `Forecast.UpExactlyInWindows` | internal/predictive/engine.go:123-156 | A windowed link is up at exactly the instants of its half-open windows; any other link is untouched |
| `Forecast.WindowedIsPresent` | internal/predictive/engine.go:129-134 | Every windowed link is in every forecast |
| `Forecast.LinksSteady` | internal/predictive/engine.go:113-161 | Forecasts for two instants with the same active windows have the same links |
| `Forecast.UniqueTimes` | internal/predictive/engine.go:163-171 | An ascending list loses its repetitions and nothing else |
| `Forecast.Boundaries` | internal/predictive/engine.go:64-74 | The instants are strictly increasing, begin with now and are exactly the starts and ends of windows in the horizon |
| `Forecast.NothingBetween` | internal/predictive/engine.go:64-74 | Between two boundaries no contact begins or ends |
| `Changes.ChangedPrefixes` | internal/predictive/engine.go:173-213 | The prefixes whose sorted route lists differ between two plans, each once and in order |
| `Changes.ListedIffRouteChanges` | internal/predictive/engine.go:173-213 | For plans without repeated route keys a prefix is listed if and only if a route to it comes or goes |
| `Forecast.Schedule` | internal/predictive/engine.go:49-111 | One activation for every boundary, each plan gone by the next, acceptable at every instant until it expires and listed with the prefixes that change; every refusal has its stated reason, and intents with distinct prefixes never fail the validation of their own forecast |
| `Forecast.HorizonCovered` | internal/predictive/engine.go:46-111 | For every instant of the horizon the activation in charge has exactly the nodes and links of that instant |
| `Forecast.ActivationsInOrder` | internal/predictive/engine.go:77-108 | Versions are consecutive, activation times never decrease, and each lies between now and its boundary |
| `ContactPlan.Compile` | tools/contactplan.py:44-92 | Exactly the tables without unknown nodes, bad numbers, overlaps or changed endpoints compile; links are introduced down, once; the timeline is the base timeline merged with the generated groups |
| `ContactPlan.WriteOut` | tools/contactplan.py:87-90 | The groups come out in order of time and name, each with exactly the links the rows ask for |
| `ContactPlan.DownFirst` | tools/contactplan.py:84-90 | At one time ends come before starts |
| `ContactPlan.SortInTurn` | tools/contactplan.py:91-91 | Sorting by time alone keeps the order of the groups |
| `ContactPlan.NothingSinceStart` | tools/contactplan.py:61-63 | While a window lasts, its start is the last action on the link |
| `ContactPlan.MeaningKept` | tools/contactplan.py:44-92 | Replaying the timeline up to any instant leaves a link up if and only if the instant lies in one of its windows, whatever else the base timeline does |
| `Scenario.LinkEvent` | internal/topology/store.go:217-245 | A link event moves the link it names and no other |
| `Scenario.EventIdsDiffer` | internal/scenario/scenario.go:204-207 | Two events of one run have the same ID only if they come from the same action and subject |
| `Scenario.LinkEventAcceptedIff` | internal/scenario/scenario.go:194-211 | The store accepts an event that a run raises for a known link if and only if the action has not named the link before and a version number is left |
| `Scenario.ExecuteLinks` | internal/scenario/scenario.go:188-212 | The links of an action go up or down up to exactly the first one that is unknown, repeated, not persisted or without a version number left; all others stay |
| `Scenario.ActionEffect` | internal/scenario/scenario.go:188-212 | An action without flaws moves all its links and no other while version numbers last |
| `Scenario.Execute` | internal/scenario/scenario.go:184-245 | The same for every kind of action; other kinds leave the links alone |
| `Scenario.Validate` | internal/scenario/scenario.go:76-114 | Exactly the scenarios with an ID, a valid topology, valid intents with different IDs and proper actions pass |
| `Scenario.Run` | internal/scenario/scenario.go:122-182 | A run starts exactly on such a scenario, if the application can be set up, and performs the actions in order of time |
| `Scenario.RunReplays` | internal/scenario/scenario.go:134-176 | Along a run the topology has a link up as the timeline so far says |
| `Scenario.CompiledProper` | internal/scenario/scenario.go:93-111 | A compiled timeline passes the checks before a run if the base timeline does |
| `Scenario.CompiledRunFollowsTable` | internal/scenario/scenario.go:130-176 | At every instant of a run of a compiled scenario, a link the table introduced is up in the topology store if and only if the instant lies in one of its windows |

## Left out

- Planner.Build: latencies and reliabilities are 64-bit integers, as in the source; a zero instant is not replaced by the clock; the digest in the plan ID and the parsing of prefixes are parameters.
- Policy.Shortest: the risk groups of a path are a set instead of a sorted list.
- Disjoint.WithPolicy: a path without links and node-disjoint backups end the Go program with a slice error; the model reports a failure there.
- Planner.EmitRoutes: the choice of a next-hop address for a pair of nodes is a parameter that may fail.
- Scenario.Run: one clock reading per event; reconciliation between actions is not part of this model since it leaves the topology alone.
- Scenario.CompiledRunFollowsTable: speaks of links that the base topology and base timeline do not mention, since either could leave them in another state, and whose events are persisted, in a run that does not use up the 64-bit version counter.
- Forecast.Schedule: a missing planner is not an input.
- Store.BatchIsSequence: asks for valid intermediate topologies, unknown event names and one version number per event, because a batch does not check these.
- Reconciler.Reconciler.Apply: the status record, its phases, metrics and log lines are not modelled; the concurrent calls of a batch are made one after the other with independent outcomes; timeouts and retries are free choices between outcomes.
- Lease.SingleLeaderIff: one common clock, requests given up at the client timeout and no scheduling delay between the steps of a controller.
- Feeder.Terminals.Pairs: between balanced and cornered starts the outcome for service depends on which contacts the search moves; the two conditions meet in the counts of kept contacts, not on every single input.
- Controller.App.Reconcile: metrics and log lines; the address book, prefix parser and digest of the planner are parameters, and the reported states are those of the devices with routes, healthy and up to date.
- Frames.Contacts.Frame: orbits, geometry, link budgets and the prediction of departures are inputs; candidates come as a list without repetitions, in the order of the source.
- ContactPlan.Compile: reading the CSV and JSON files, number formats and the fields for link type, range and Doppler shift.
- Evpn.AnnouncementRoundTrip: textual addresses; the model works on their bytes.
- Rendezvous.Assign: the SHA-256 score is an arbitrary function of the controller ID.
- Loading and reloading of persisted state, JSON, SHA-256 and file replacement.
- Keys that the source joins from strings with a NUL byte are tuples here.
- The BGP OPEN exchange and sessions, the FRR and OpenConfig adapters, plugin path policies beyond the built-in costs.
- Command line programs, HTTP and gRPC servers, metrics, inventory, reports, user interface, laboratory scripts and the onboard runtime.
