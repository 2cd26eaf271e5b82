# Macrame's concurrency core, verified

This project models the protocols at the heart of Macrame's task system in Dafny and proves what they
guarantee over every input and every interleaving: the per-object reader/writer pipe and the cascade of
turns over many pipes, the compiled task graph and its runs, the two parallel loops, the access harness,
the circular-wait registry, the timer, the periodic clock and the worker's search for work.
`dafny verify dfyconfig.toml` checks everything.

Concurrency is modelled as transition systems: each atomic operation or mutex section of the source is one
step, any enabled step may be taken next, and the theorems are about every state of every run. Sequential
code that updates fields or arrays in place is modelled as classes and methods proved against functions on
values. The parts, with their main results:

- `pipe.dfy`, `cascade.dfy`, `cascade_run.dfy`: one pipe; many pipes and tasks, with "admitted" and "turn
  fired" kept apart because firing happens after unlock. Every step keeps the protocol invariant.
- `exclusion.dfy`: in every run that mixes graph nodes, asyncs, inline accesses, guards and nested runs, two
  active bodies that touch one object, one of them writing, are a caller that waits for nested work and part
  of that work, under one holder of the pipe, although lent objects take no turn. Dispatch happens once and
  with all pipes held; grants are conserved.
- `composition.dfy`: the parts together. A launch built from what compilation and lend binding produced is a
  batch the protocol accepts, and nodes started by the run's counters alone meet the protocol's guard, so the
  exclusion theorem holds of the whole with neither assumed.
- `progress.dfy`: no cross-object deadlock, and every step uses up a measure, so every task settles.
- `canonical_order.dfy`, `lend_binding.dfy`: the insertion sort that makes the order canonical, and the
  per-run binding that leaves out lent links.
- `walks.dfy`, `graph_compile.dfy`, `graph_run.dfy`: conflict edges, Kahn's check (compilation succeeds if
  and only if the edges have no cycle), and the counter-driven run.
- `chunks.dfy`, `flat_loop.dfy`, `coloured_loop.dfy`, `coloured_progress.dfy`, `coloured_entry.dfy`,
  `colouring.dfy`: exactly-once processing, the packed phase word, termination of both loops, and
  bit-determinism: the coloured loop ends like the plain nested loop under every schedule, from the greedy
  colouring to the final memory.
- `access_harness.dfy`, `wait_registry.dfy`: what an unchanged write epoch proves, and that a wait is
  reported exactly when it would close a cycle of at most 66 edges.
- `timer.dfy`, `periodic.dfy`, `find_work.dfy`: one ending and one hand-over per wait over every run, exact
  grid arithmetic, starvation bounds.
- `arithmetic.dfy`: the source's truncating division.

Four results are sharper than what the source's comments suggest. The comment at src/scheduler.cpp:304-307 says
that resetting the low-priority counter caps it, but every high-priority task raises it before the cap is looked
at: `FindWork.HighStreamRaisesCounter` shows it growing without bound, and `FindWork.CapHoldsExactly` says exactly
when it stays within 64, namely while the streak of calls that see high work is no longer than what was left when
it began. `WaitRegistry.LongRingIsMissed`: the circular-wait search is depth-bounded, so a ring of 67 pipes is not
reported; `WaitRegistry.FewPipesNoCycle` shows that with at most 66 pipes the registry is exactly cycle detection.
`Timer.LateArmIsStranded`: a wait armed while a shutdown waits for the timer thread to end is left armed and
counted with nobody to serve it; `Timer.OnlyLateWaitsAreStranded` shows that no other wait ever is.
`PeriodicClock.EarlyTickOvershoots`: the clock does not check that a completion is on time, and the lemma says
exactly which early ones break the grid promise, deadline and sum together.

## Model

| member | source | states |
|---|---|---|
| Pipes.CollectAdmitsExactlyThePass | src/guarded.cpp:241-254 | one admission pass lets in exactly the leading readers, or one leading writer if nobody is inside, or nobody behind a writer; the rest stay queued in order |
| Pipes.CollectKeepsSound | src/guarded.cpp:243-254 | a pass from any sound state ends with an inadmissible head or an empty queue, and nobody inside is put out |
| Pipes.PopHeadKeepsSound | src/guarded.cpp:224-239 | each single admission keeps: admissions then queue are the arrivals in order, counters count who is inside, a writer is alone, the epoch is odd exactly with a writer |
| Pipes.EnterKeepsUnlocked | src/guarded.cpp:349-376 | entering keeps the unlocked-pipe invariant and is admitted at once exactly when nothing waits and the mode rule allows |
| Pipes.ReleaseKeepsUnlocked | src/guarded.cpp:305-343 | releasing keeps it too; the pipe is drained afterwards exactly when nothing waited and this was the last grant, and then nothing was admitted |
| Pipes.WaitersAreBehindAHolder | src/guarded.cpp:208-254 | no lost wakeup: a non-empty queue implies somebody inside, a writer if the head is a reader |
| Pipes.OneWriter | src/guarded.cpp:215-220 | at most one writer is inside |
| Pipes.Pipe.AdmitLocked | src/guarded.cpp:224-239 | the in-place admission equals the admission function |
| Pipes.Pipe.CollectAdmissions | src/guarded.cpp:243-254 | the in-place loop equals the pass function and returns exactly the entries the pass admits |
| Pipes.Pipe.EnterLink | src/guarded.cpp:349-376 | the mutex section of entering (also of `pipe_acquire`): new state, and whether admission was immediate |
| Pipes.Pipe.DropLocked | src/guarded.cpp:310-321 | the bookkeeping half of a release |
| Pipes.Pipe.ReleaseAndRedispatch | src/guarded.cpp:305-343 | the mutex section of a release: new state, the entries to fire, the drain notify exactly when drained and then with nothing to fire |
| Cascade.RestageKeeps | src/guarded.cpp:262-277 | moving one link keeps every pipe in agreement with every task about who waits and who is inside |
| Cascade.DrainIsCollect | src/guarded.cpp:241-254 | the admission pass, seen by all tasks, is the pipe's own pass and only moves waiting links |
| Cascade.EnterKeeps | src/guarded.cpp:349-376 | entering a link keeps all pipes sound and unlocked, whether granted or queued |
| Cascade.ReleaseKeeps | src/guarded.cpp:385-389 | releasing a link keeps all pipes sound and unlocked and equals the pipe's release |
| CascadeRun.UnfiredBounds | include/ts/detail/task_block.h:404-434 | the lock count is zero exactly when every turn has fired |
| CascadeRun.StartStep | src/guarded.cpp:380-383 | starting a task enters its first link only and keeps the invariant |
| CascadeRun.AdmitAllKeeps | src/guarded.cpp:431-449 | admitting every link of a successful probe keeps every pipe sound and unlocked |
| CascadeRun.InlineStep | src/guarded.cpp:431-454 | the all-or-nothing probe takes every pipe at once and dispatches, keeping the invariant |
| CascadeRun.ProbeIsExact | src/guarded.cpp:431-446 | the probe succeeds exactly when nobody waits for, writes, or (to write) reads any of the objects |
| CascadeRun.ProbeEntersAll | src/guarded.cpp:447-449 | and then enters exactly the pipes of those objects, as the cascade would |
| CascadeRun.TurnStep | src/guarded.cpp:262-277 | firing a granted turn enters the next link in canonical order and keeps the invariant, for locks and for the guard handshake |
| CascadeRun.UnlockStep | src/guarded.cpp:274-277 | dropping the lock dispatches exactly at zero |
| CascadeRun.GuardTurnKeeps | include/ts/coroutine_support.h:1067-1085 | a guard takes its pipes one after another and makes its exchange only past the last |
| CascadeRun.PhaseStep | include/ts/coroutine_support.h:1019-1034 | the suspending caller's exchange, the body's start and end and the finish keep the invariant; the second exchange resumes |
| CascadeRun.AdvanceStep | src/guarded.cpp:385-389 | settling releases the links one by one, front to back |
| CascadeRun.StepKeepsInv | src/guarded.cpp:208-491 | every step of every kind keeps the protocol invariant and changes only the acting task and links that were waiting |
| Exclusion.RunKeepsAll | src/static_task_graph.cpp:530-608 | every state of every run satisfies the protocol invariant and the relations between callers, nested runs and compiled edges |
| Exclusion.HolderExists | src/static_task_graph.cpp:520-530 | every active body reaches each object under a grant that an active task really holds in a covering mode, itself or up its lending chain |
| Exclusion.PipeExcludes | src/guarded.cpp:215-239 | two different links inside one pipe are both readers |
| Exclusion.SiblingsExcluded | src/static_task_graph.cpp:194-203 | conflicting nested work of one caller is never active together, by its compiled edge (supplied by `Composition.PlanIsABatch`) or by the settled-children rule |
| Exclusion.LentTogether | src/static_task_graph.cpp:530-608 | conflicting bodies under one lent grant are ancestor and descendant |
| Exclusion.ConflictingBodiesAreNested | src/static_task_graph.cpp:518-608 | main safety theorem: of two active bodies touching one object, one writing, one called the other and still waits for nested work, and both have the object by lending from one task that is inside its pipe |
| Exclusion.CallerIsWaiting | src/static_task_graph.cpp:698-707 | a caller of an active body is in its own body and cannot settle |
| Exclusion.TopLevelBodiesExclude | src/guarded.cpp:215-343 | without nesting, plain mutual exclusion over every run |
| Exclusion.DispatchedOnceHoldingAll | src/guarded.cpp:262-277 | a task is dispatched at most once, is inside all its pipes from dispatch to settlement, and inside none before it starts and after it is done |
| Exclusion.BodyRunsOnce | src/guarded.cpp:262-277 | over every run a task's body runs at most once, by cascade or probe, and the phase says exactly whether it ran and settled |
| Exclusion.GrantsConserved | src/guarded.cpp:385-389 | when all tasks are done every pipe is drained and admitted exactly its arrivals in order |
| Composition.ConflictHasEdge | src/static_task_graph.cpp:194-203 | declared conflicts of a compiled graph have their edge |
| Composition.LentIsCovered | src/static_task_graph.cpp:536-561 | an object bound to no turn was lent, and the caller's declared grant covers the node's mode |
| Composition.PlanIsABatch | src/static_task_graph.cpp:610-703 | a launch made from the compiled edges and the bound links is a batch the protocol accepts: every conflict ordered, every lent object covered |
| Composition.LaunchedAsPlanned | src/static_task_graph.cpp:610-703 | each launched task touches exactly its node's objects in their modes, takes a turn on exactly the unlent ones and follows exactly its compiled predecessors |
| Composition.PlanIsRanked | src/static_task_graph.cpp:354-382 | the topological order that Kahn's loop found ranks the new tasks, so the progress theorem covers them |
| Composition.BindAndLaunch | src/static_task_graph.cpp:667-703 | when the binding succeeds, the tasks with exactly the bound links are such a batch |
| Composition.PredsReleased | src/static_task_graph.cpp:458-492 | a node triggered by its counter has every predecessor past the release of its pipes |
| Composition.EveryStepIsProtocol | src/static_task_graph.cpp:391-515 | every step of launches, counters and tasks together is a protocol step or leaves tasks and pipes alone, with starts guarded by the counters only |
| Composition.TakeKeepsInv | src/static_task_graph.cpp:391-515 | every such step keeps the protocol, the relations and the runs' bookkeeping |
| Composition.NodesFollowTheCompiledOrder | src/static_task_graph.cpp:458-492 | over every run of the whole a launched node is started by its counter only, and once started every compiled predecessor has released its pipes |
| Composition.GraphBodiesAreNested | src/static_task_graph.cpp:518-608 | the safety theorem for every run of compiled, bound and counter-driven graphs with single operations in between, nothing assumed of launch order or start |
| Composition.HandleSettlesAfterRelease | src/static_task_graph.cpp:494-515 | when a run's handle has settled every node's pipes have been released |
| Progress.FollowTheHolders | include/ts/guarded.h:571-598 | whoever waits waits behind a holder that can step or waits in a higher pipe |
| Progress.NeverStuck | src/guarded.cpp:262-277 | while a task is unfinished, some step is enabled |
| Progress.StepShrinksWork | src/guarded.cpp:349-389 | every step strictly decreases the measure |
| Progress.EveryTaskSettles | include/ts/coroutine_support.h:1067-1085 | a run without new tasks is no longer than the work left and can only end with every task settled |
| CanonicalOrder.InsertAt | include/ts/guarded.h:588-595 | the shifting loop opens a gap in place and keeps the rest in order |
| CanonicalOrder.BindTargets | include/ts/guarded.h:561-598 | the in-place sort ends strictly ascending, each position carrying its own mode and declaration slot; fatal exactly when an object was passed twice |
| CanonicalOrder.AscendingIsUnique | include/ts/coroutine_support.h:983-1000 | there is only one ascending arrangement of a set of links |
| CanonicalOrder.DeclarationOrderIsIrrelevant | include/ts/guarded.h:1284-1310 | the same objects declared in any order give the same links, ascending as the cascade demands |
| LendBinding.PackedIsCanonicalMinusLent | src/static_task_graph.cpp:588-603 | a node's bound links are its canonical links minus the lent ones, numbered from zero, strictly ascending by pipe |
| LendBinding.Graph.constructor | src/static_task_graph.cpp:293-317 | the binding at compile time is the full one |
| LendBinding.Graph.Pack | src/static_task_graph.cpp:588-601 | packing in place fills the front of the node's own range and touches nothing outside it |
| LendBinding.Graph.BindNode | src/static_task_graph.cpp:585-607 | binding one node leaves the others bound |
| LendBinding.Graph.BindForRun | src/static_task_graph.cpp:530-608 | after any history of runs every node is bound to its links minus those lent now, early return included; the two fatal exits happen exactly when the caller reads what the graph writes, or lends with a child in flight |
| LendBinding.NothingWaitsForTheCaller | src/static_task_graph.cpp:519-527 | after a successful binding no bound link is on a pipe the caller holds |
| GraphCompile.Conflicts | src/static_task_graph.cpp:169-180 | true exactly when the nodes share an instance one of them writes |
| GraphCompile.ConflictIsSharedWrite | src/static_task_graph.cpp:169-180 | nodes conflict exactly when one writes an object the other touches; sharing by readers alone orders nothing |
| GraphCompile.CollectEdges | src/static_task_graph.cpp:188-203 | the edge set is exactly the explicit edges and every conflicting pair in declaration order |
| GraphCompile.FillNodes | src/static_task_graph.cpp:205-209 | successor lists name exactly the edges, ascending; indegrees count distinct predecessors |
| GraphCompile.CountDown | src/static_task_graph.cpp:373-377 | counting down in place queues exactly the nodes that reach zero |
| GraphCompile.DetectCycles | src/static_task_graph.cpp:354-382 | Kahn's loop visits all nodes if and only if the graph has no cycle, and then in topological order |
| GraphCompile.KahnDecides | src/static_task_graph.cpp:380-381 | the nodes left over when the queue runs dry contain a cycle |
| GraphCompile.Compile | src/static_task_graph.cpp:182-270 | compilation succeeds if and only if explicit and conflict edges together are acyclic, and then the successor lists are exactly the explicit edges and the pairs, in declaration order, that share an object one of them writes |
| GraphRun.StepKeepsInv | src/static_task_graph.cpp:391-515 | every step of a run keeps: counters equal the predecessors not yet counted, nobody is triggered twice, the handle settles with the last node |
| GraphRun.NodesFollowTheirPredecessors | src/static_task_graph.cpp:472-492 | a node is triggered at most once and only after every predecessor's body and nested work are over; the handle settles at most once and exactly after the last node |
| GraphRun.BodyRunsOnce | src/static_task_graph.cpp:391-470 | over every run each body is begun and ended at most once, as the node's status says |
| GraphRun.BodiesFollowEdges | src/static_task_graph.cpp:472-492 | a body begins only after the bodies of all predecessors have ended |
| GraphRun.SettledAfterEveryBody | src/static_task_graph.cpp:494-515 | when the handle has settled every body has run exactly once |
| GraphRun.NeverStuck | src/static_task_graph.cpp:391-515 | while a node is unfinished an acyclic graph has a step to take |
| GraphRun.StepShrinksWork | src/static_task_graph.cpp:472-515 | every step uses up work |
| GraphRun.EveryRunCompletes | src/static_task_graph.cpp:669-723 | every run ends after boundedly many steps, with every node finished and the handle settled once |
| FlatLoop.GrainBounds | include/ts/parallel_for.h:55-66 | every claim is between one and the whole loop, also from an outdated or overrun counter |
| FlatLoop.GrainIsExact | include/ts/parallel_for.h:55-66 | what each policy claims: the smallest even share, the largest half share of what is left (at least one), or one |
| FlatLoop.ClaimsWhatItSized | include/ts/parallel_for.h:143-150 | an executor sizes by the counter it read and claims that much at the counter it then finds, clamped to the loop |
| FlatLoop.StepKeepsInv | include/ts/parallel_for.h:123-168 | every step keeps the accounting of every index |
| FlatLoop.EveryIndexOnce | include/ts/parallel_for.h:123-168 | no index is processed twice; the task settles at most once, then every index was processed once or skipped, and it settled cancelled exactly when some index was skipped |
| FlatLoop.WithoutRequestAllIsProcessed | include/ts/parallel_for.h:133-142 | over every run: without a cancellation request nothing is skipped, and the settled task is completed with every index processed once |
| FlatLoop.RequestEndsTheWork | include/ts/parallel_for.h:133-139 | after a request nobody starts another chunk: the executors at work only become fewer, and with none left no index is processed any more |
| FlatLoop.RequestedFirstSkipsAll | include/ts/parallel_for.h:133-139 | a task cancelled before anybody looked processes nothing and settles as cancelled |
| FlatLoop.SettledWhenAllLeft | include/ts/parallel_for.h:123-168 | once every executor has left, the task has settled |
| FlatLoop.StepShrinksWork | include/ts/parallel_for.h:123-168 | every step of an executor uses up work |
| FlatLoop.EveryLoopSettles | include/ts/parallel_for.h:119-168 | executors take boundedly many steps under every interleaving, and when none can take another the task has settled |
| FlatLoop.CounterIsBounded | include/ts/parallel_for.h:133-150 | the claim counter never exceeds n + (executors + 1) times the largest grain |
| ColouredLoop.StepKeepsCtl | include/ts/parallel_for.h:193-265 | every step keeps word, items, leader and executors consistent |
| ColouredLoop.RunKeepsCtl | include/ts/parallel_for.h:193-265 | so in every run, coloured or not |
| ColouredLoop.WordNeverDecreases | include/ts/parallel_for.h:180-184 | every successful update strictly raises the packed word |
| ColouredLoop.ClaimTakesFreeItems | include/ts/parallel_for.h:234-241 | a successful claim takes exactly free items of the current phase |
| ColouredLoop.ClaimIsOneGrain | include/ts/parallel_for.h:230-233 | a claim is one grain of the policy, or what is left of the band |
| ColouredLoop.ItemCallsBody | include/ts/parallel_for.h:242-246 | running an item calls its body on what is at its locations; locations the result names get it, everything else stays |
| ColouredLoop.CountTallies | include/ts/parallel_for.h:249-262 | the counter tallies finished items and exactly one executor completes the band |
| ColouredLoop.PhasesDoNotOverlap | include/ts/parallel_for.h:193-265 | the phase moves by one, only when every item of it is finished and nobody is busy |
| ColouredLoop.NeverStuck | include/ts/parallel_for.h:188-192 | until completion some executor can do something useful, whichever helpers never came |
| ColouredLoop.StepKeepsMem | include/ts/parallel_for.h:242-262 | at every step the memory is the phase's start with exactly the finished items' writes merged in |
| ColouredLoop.EndsLikeTheSequentialLoop | include/ts/parallel_for.h:400-409 | with disjoint items per band, completion leaves the memory of the sequential phases |
| ColouredProgress.StepShrinksWork | include/ts/parallel_for.h:193-265 | every productive step uses up work; a yield or a spurious claim failure adds at most three |
| ColouredProgress.EveryLoopCompletes | include/ts/parallel_for.h:188-192 | productive steps are bounded by the work and the number of yields and spurious failures, and when none is left the loop has completed once |
| ColouredEntry.EffectiveWorkers | include/ts/parallel_for.h:303-313 | the option, else the pool's size, brought within one and the number of items |
| ColouredEntry.Prepare | include/ts/parallel_for.h:410-434 | returns at once exactly when rounds are not positive or all bands are empty; otherwise runs exactly the non-empty bands, with the asked-for workers brought within one and the widest band |
| ColouredEntry.PhasesAreRounds | include/ts/parallel_for.h:205-210 | phase numbers walk rounds by bands in the order of the nested loop |
| ColouredEntry.OneItem | include/ts/parallel_for.h:242-246 | the plain loop over one item is one call of its body |
| ColouredEntry.OneAfterAnother | include/ts/parallel_for.h:400-409 | the plain loop takes items, bands and rounds one after another, each from the memory the last one left; with the one-item law this determines it |
| ColouredEntry.BandCallsBodies | include/ts/parallel_for.h:400-409 | with disjoint items every location ends as its item's body makes it from the memory before the band, all others unchanged |
| ColouredEntry.RoundsWithoutEmpties | include/ts/parallel_for.h:425-429 | leaving out empty bands changes nothing |
| ColouredEntry.DeterministicUnderAnySchedule | include/ts/parallel_for.h:400-434 | bit-determinism: under every interleaving, executor count and grain the result is that of the plain rounds-by-bands-by-items loop |
| ColouredEntry.EveryCallEndsLikeThePlainLoop | include/ts/parallel_for.h:400-434 | and it completes: when no productive step is left the memory is the plain loop's |
| ColouredEntry.ReturnsAtOnceRightly | include/ts/parallel_for.h:413-417 | when the call returns at once the plain loop does nothing |
| Colouring.ColorConstraints | sample/coloring.cpp:165-189 | every constraint gets the smallest colour no earlier neighbour has, so the bands are a valid colouring with every constraint in exactly one band and no band empty; it fails only at a constraint with all 32 taken, never with at most 16 constraints per particle |
| Colouring.FirstFree | sample/coloring.cpp:171-173 | the smallest colour not taken, or 32 |
| Colouring.GreedyIsValid | sample/coloring.cpp:162-164 | every constraint is in exactly one band and no particle is in two constraints of a band |
| Colouring.ColoringIsValid | sample/coloring.cpp:192-206 | the check accepts exactly the valid colourings |
| Colouring.ScanBand | sample/coloring.cpp:197-204 | the inner loop accepts exactly the bands without a shared particle |
| Colouring.FewColours | sample/coloring.cpp:171-181 | at most 2d-1 bands when a particle has at most d constraints, so 32 colours suffice for d up to 16 |
| Colouring.RelaxationIsDeterministic | sample/coloring.cpp:114-138 | relaxing by greedily made bands in parallel ends in the sequential result under every schedule |
| AccessHarness.AccessContext.Add | src/access.cpp:35-64 | appends with the current epoch; a ninth entry is refused |
| AccessHarness.AccessContext.Check | src/access.cpp:66-92 | granted exactly when a matching entry is current; none exactly when the object is not declared, or only for reading and the access writes; else stale |
| AccessHarness.RunKeepsEpoch | src/guarded.cpp:224-239 | over every run of a pipe the epoch is twice the write admissions less one while the last is inside: odd exactly with a writer, never falling |
| AccessHarness.WriteWindow | include/ts/access.h:111-123 | captured by a writer, the epoch is unchanged exactly while that same window has stayed open |
| AccessHarness.ReadWindow | include/ts/access.h:111-123 | captured by a reader, it is unchanged exactly while no writer was admitted since |
| AccessHarness.GrantedWhileWindowOpen | src/access.cpp:66-92 | an access is granted exactly when a matching entry's window is still open |
| AccessHarness.WriteIsGrantedToTheWriter | src/access.cpp:66-92 | a write is granted exactly when the object was declared for writing and the declarer has been the only one inside the pipe ever since |
| AccessHarness.ReadIsGrantedBesideNoOtherWriter | src/access.cpp:66-92 | a read is granted exactly under a declaration in any mode whose window holds, and then nobody else writes |
| WaitRegistry.Registry.WaitReaches | src/guarded.cpp:578-590 | the depth-bounded search terminates on any edges and finds exactly the walks of at most 65 edges |
| WaitRegistry.EdgeCloses | src/guarded.cpp:600-609 | adding an edge keeps short cycles out exactly when the search for its way back fails |
| WaitRegistry.Registry.RecordEdge | src/guarded.cpp:609-657 | an edge is refused exactly when it would close a cycle of at most 66 edges |
| WaitRegistry.Registry.RecordRow | src/guarded.cpp:601-660 | one held pipe against all awaited ones, null ones passed over |
| WaitRegistry.Registry.Record | src/guarded.cpp:594-662 | a suspension is reported as circular exactly when its edges with the present ones would contain a cycle of at most 66 edges; otherwise exactly those edges are added |
| WaitRegistry.PairsAreAllPairs | src/guarded.cpp:601-660 | the edges of a call are exactly those from each held pipe to each awaited pipe that is there |
| WaitRegistry.OneWaitIsCircular | src/guarded.cpp:609-633 | in an empty registry a suspension closes a cycle exactly when it awaits a pipe it holds |
| WaitRegistry.AbbaIsReported | src/guarded.cpp:594-662 | from any registry: once a holder of a was let suspend on b, the holder of b that suspends on a is reported |
| WaitRegistry.Registry.Clear | src/guarded.cpp:664-668 | removes exactly the ticket's edges and keeps the registry free of short cycles |
| WaitRegistry.FewPipesNoCycle | src/guarded.cpp:575-590 | with at most 66 pipes, no short cycle means no cycle at all |
| WaitRegistry.LongRingIsMissed | src/guarded.cpp:582-583 | a ring of 67 pipes is not noticed |
| Timer.Service.ArmWait | src/timer.cpp:139-158 | one arming step: the wait is live, queued and counted once, the thread started if it is not there; it is reported earlier exactly when it became the queue's front |
| Timer.Service.CancelWait | src/timer.cpp:160-175 | one cancel step: the block is taken exactly when the wait is still live |
| Timer.Service.DeliverFired | src/timer.cpp:246-248 | the timer thread hands over the next block of its own list and only then releases the external wait |
| Timer.Service.DeliverCancelled | src/timer.cpp:94-103 | so does a canceller with the block it took |
| Timer.Service.Shutdown | src/timer.cpp:177-206 | fatal exactly when checking finds a live wait; otherwise exactly the live waits are dropped |
| Timer.Service.Round | src/timer.cpp:211-245 | one round takes exactly the live waits due by now, ordered by deadline and arming |
| Timer.Service.TakeDue | src/timer.cpp:229-235 | exactly the entries due leave the queue, front first |
| Timer.StepKeeps | src/timer.cpp:139-253 | every step keeps queue, flags, counters and the whereabouts of every taken block in agreement |
| Timer.HandedOverOnce | src/timer.cpp:94-253 | over every run a block is handed over at most once, and once exactly when its wait fired or was cancelled and nobody holds the block any more; fired waits fired at or after their deadline; external waits are the live ones and the deliveries in progress |
| Timer.EndingIsFinal | src/timer.cpp:139-253 | a wait keeps its one ending for the rest of the run |
| Timer.EndsExactlyWhen | src/timer.cpp:139-253 | a live wait is cancelled exactly by its own cancel, fired exactly by a round at or after its deadline, dropped exactly by a shutdown, and whoever ended it has its block |
| Timer.ArmedIsLive | src/timer.cpp:139-158 | waits come from arming only; an armed wait is live, queued for its deadline and counted, with a thread there |
| Timer.RoundIsHandedInOrder | src/timer.cpp:246-248 | a round's blocks are handed over front to back |
| Timer.NothingDueAfterTick | src/timer.cpp:229-245 | after a round no live wait is due, and what fired is listed by deadline and arming |
| Timer.NoRoundBeforeJoin | src/timer.cpp:177-208 | from a shutdown's section until the join there is no round and no second shutdown, and the join is possible exactly when the thread's list is empty |
| Timer.RoundIsPossible | src/timer.cpp:211-245 | a running thread with nothing in hand can make a round at any time |
| Timer.HandOverIsPossible | src/timer.cpp:94-103 | the front of its list and every block a canceller took can be handed over at any time |
| Timer.OnlyLateWaitsAreStranded | src/timer.cpp:139-208 | a wait is armed without a thread only if it was armed while a shutdown waited for the thread |
| Timer.LateArmIsStranded | src/timer.cpp:204-208 | and then it is, with neither a round nor a shutdown able to end it |
| PeriodicClock.Periodic.Create | src/timer.cpp:379-387 | refused exactly when the period is not positive |
| PeriodicClock.Periodic.Advance | src/timer.cpp:408-416 | whenever it comes, a completion puts the deadline on the grid after now; it is the first such point, and all counts sum to the whole periods since the start, exactly when the completion is not early or early by whole periods; nothing changes when cancelled |
| PeriodicClock.CountsAddUp | src/timer.cpp:389-416 | over any run of completions no grid point is lost or counted twice |
| PeriodicClock.EarlyTickOvershoots | src/timer.cpp:412-414 | after completions on time, the next one keeps deadline and sum exact if and only if it is not early or early by whole periods |
| FindWork.Worker.Find | src/scheduler.cpp:292-371 | the search takes from the source its rules choose, removes that task only and ages the counters accordingly |
| FindWork.Worker.Steal | src/scheduler.cpp:344-363 | the wrap-around scan steals from the first victim |
| FindWork.VictimIsFirst | src/scheduler.cpp:346-363 | the scan finds a victim exactly when another worker has work, the first on its way around |
| FindWork.LowIsLast | src/scheduler.cpp:279-292 | empty-handed exactly when there is no task anywhere; low outside the valve exactly when only low work exists |
| FindWork.EachSourceExactly | src/scheduler.cpp:292-371 | the order of the search: for every source the exact condition on queues and counters under which it is taken |
| FindWork.PutBackRestores | src/scheduler.cpp:296-371 | which end a task comes from: put back at the front of a global queue or a robbed deque, or the back of the own deque, the queues are as before |
| FindWork.CountersCount | src/scheduler.cpp:293-371 | the low counter counts tasks since the last low one, the global one own takes since the last global one; a valve whose turn came starts over, served or not |
| FindWork.NoTaskIsLost | src/scheduler.cpp:292-371 | a call removes the returned task once and no other |
| FindWork.LowWithin65 | src/scheduler.cpp:264-316 | with no high and some low work at each of 65 calls, one takes low, however the queues change between calls |
| FindWork.NormalWithin63 | src/scheduler.cpp:269-342 | with no high and some global normal work at each of 63 calls, one takes it, against any local chain |
| FindWork.CountersAreCapped | src/scheduler.cpp:303-334 | a call that sees no high work leaves at most 64 in the low counter; the global one never passes 61 |
| FindWork.CapHoldsExactly | src/scheduler.cpp:296-317 | after a streak of calls that see high work the low counter is within 64 if and only if the streak is no longer than what was left when it began |
| FindWork.EveryCallIsInAStreak | src/scheduler.cpp:296-302 | every call belongs to such a streak, so the condition covers every call |
| FindWork.HighStreamRaisesCounter | src/scheduler.cpp:297-302 | under an endless stream of high tasks the low counter grows by one a call |

## Left out

- Weak memory orderings, reference counts, block lifetime and destructor races: atomics are sequentially consistent steps and blocks live forever.
- `Deferred`, `Versioned`, `Event_bus`, the rank rule, single awaits, scope guards, cancellation callbacks and the frame gate: they would only add easier members or rest on code outside this core.
- The event count, parking, spinning, the work-stealing deque and MPMC queue internals and OS timer waits: queues are sequences whose operations are atomic and fail only when empty.
- Tools, traces, profiling, diagnostics text, crash handling, samples other than the colouring, benchmarks.
- Machine integer widths: the write epoch, serials, the flat loop's counter (whose bound is proved), phase counts and the counts of the periodic clock are unbounded integers; the packed phase word and the 32 colours are modelled exactly, the colour masks as sets of bit positions.
- Floating-point physics of `relax`: a body is any function of the memory at its two particles.
- Cascade.EnterKeeps: a pipe's intrusive list is a sequence, and a link names its task by number, so a guard held outside any task is modelled as a task of its own.
- CascadeRun.InlineStep: the probe holds all its mutexes for a few checks and is one atomic step.
- CascadeRun.PhaseStep: a guard's suspension may happen at any time after its first acquire, which allows more interleavings than the source.
- CascadeRun.UnlockStep: ordinary prerequisites counted in the same lock word are not modelled; graph nodes start when their compiled predecessors are done.
- Exclusion.ConflictingBodiesAreNested: runs start from fresh pipes and no tasks; that a caller has given up its thread while it waits is not recorded, only that it cannot settle.
- Composition.GraphBodiesAreNested: single operations enter with their own lend decision, and one that uses lent objects is started when the caller's earlier nested runs have settled, as src/static_task_graph.cpp:563-582 checks for graph runs; `instances` and `needs` of a plan are what compilation collects at src/static_task_graph.cpp:211-268, which is not modelled.
- Progress.EveryTaskSettles: covers tasks that hold nothing when they enter their first link; nested work is outside it, as its caller's awaiting is not part of the model.
- GraphCompile.Compile: explicit edges name existing nodes, as the node handles guarantee; pipe collection, ranks and the DOT output are not modelled, and the sorted edge set is walked by index.
- ColouredLoop.StepKeepsMem: a body reads its footprint in one step and writes it in another; the yield between chunks is a reload of the word.
- Colouring.ColorConstraints: particle indices are in range, as the vectors demand.
- LendBinding.Graph.BindForRun: the caller's grants enter as the strongest mode it holds per pipe; nothing is said about the slab after a fatal exit.
- WaitRegistry.Registry.Record: nothing is said about which of the call's edges were added before a fatal exit.
- Timer.Service.Shutdown: a second shutdown while the first still waits for the thread is not modelled; the heap is the set of its entries.
- Timer.Service.Round: the clock is read once a round, and the settle-in-the-call path of a sleep whose deadline has passed is not modelled.
- FindWork.Worker.Find: a call sees one snapshot of the queues; the yield-signal counters are not modelled.
