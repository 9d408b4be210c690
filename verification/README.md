# Release and build tooling: a verified model

This project models the parts of the release and build scripts whose correctness depends on an algorithm, a protocol
or an interleaving, and proves what they promise. Each module follows one script or one component of it.

- **Publication graph and order** (`Graphs`, `Tarjan`, `TarjanSearch`, `PublishGraph`, `Kahn`, `PublishOrder`,
  `Naming`, `Workspace`). Tarjan's search is a class with the script's own mutable tables, proved against reachability.
  Dropping the dev edges inside a component, Kahn's sort with a sorted ready queue (twice: once counting degrees, once
  striking names out of sets) and the allowlist filter are proved from cargo's metadata to the published list; `Naming` says
  exactly when the two scripts agree whatever the crates are called.
- **Owned process tree, admission lease, managed run** (`ProcessKernel`, `OwnedTree`, `Lease`, `SlotSafety`,
  `AdmittedRun`). A small kernel (fork, detach, exit, reparenting to the nearest subreaper, reaping, pid reuse, and the
  status everybody exited with) runs between any two system calls of the owner, under an arbitrary schedule. The lease is
  a state machine over the steps of any number of runs, with crashes and inode reuse anywhere; `SlotSafety` joins it with
  the processes each run leaves behind, and derives its guard on releasing from what `AdmittedRun` promises.
- **Cohort reclaim** (`CohortScope`). One producer, its consumers, and deletions guarded by a write-ahead receipt, run on
  the process tree above; every durable state a run passes through is kept in a trace, one system call at a time. A crash
  may lose whatever was not yet fsynced, and power loss may take unlinks back as well.
- **Bounded capture** (`BoundedCapture`). Two reader threads, a child process and the polling classifier; any number of
  events may happen between any two samples the poller takes.
- **TypeScript mask and executable search** (`TypescriptMask`, `LexicalGrammar`, `ExecutableSearch`, `WindowsTargets`,
  `DownloaderTargets`). The hand-written lexer, the grammar it follows stated independently of it, the position-aware
  search on top, the three regular expressions for the Windows targets, and the target derivation that uses all of them.
- **Storage inventory** (`StorageInventory`). A bounded depth-first walk over a file graph with hard links.
- **Terminal manifest** (`TerminalManifest`, `ManifestContents`). Writing, checking, what the inventory pins down, and
  what a manifest says, field by field.
- **Range-holder cache** (`RangeHolderCache`). A least-recently-used cache keyed by the identity of a callable.
- **Overlap classes** (`PrOverlap`). Jaccard measures and the triangle inequality behind them.

`Names`, `Sets` and `Wrappers` hold what several modules share: the order of names, sizes of sets, optional values.

## How the outside world is modelled

- Other processes, threads and clocks are schedules: arbitrary finite lists of events consumed at the points where the
  script makes a system call or takes a sample. Clock readings, and the Jaccard measures, are exact numbers.
- Files are finite maps. Digests, UTF-8, JSON and Python's character classes are functions passed in as parameters,
  with the facts a proof needs stated as `requires`. No proof assumes an injective digest: the inventory theorem is
  stated for the digests of the files at hand.
- `git` and `cargo` answer deterministically during one run.

Properties that are false of the code, each with a concrete witness and the condition under which it holds:

- A recorded return code need not survive `finish`: when a leader's pid is recycled by an adopted child, `finish` writes
  that child's status over the leader's (`OwnedTree.LeaderCodeOverwritten`, a run from the start). The exact condition is
  `OwnedTree.Overwritable`: the leader's handle is still there, and at its pid a child has exited with another status,
  or none has exited there and some child is alive. From every such state some schedule overwrites the code
  (`OwnedTree.OverwriteRecordedCode`, `OwnedTree.OverwritableIff`), from every other state none does
  (`OwnedTree.ClippyTree.Finish`).
- An unclosed slash is not always treated as code: `/gi` before a newline is blanked
  (`TypescriptMask.UnclosedFlagsAreBlanked`). It is treated as code exactly under the condition of
  `TypescriptMask.UnclosedIsCodeIff`.
- `re.finditer` skips overlapping matches, so a needle that overlaps itself can be missed in code
  (`ExecutableSearch.OverlapCanHideCode`). Every needle is admitted exactly when some match that is yielded has its
  identifier in code (`ExecutableSearch.AdmittedIffYieldedInCode`), and one in code that no other occurrence overlaps
  from the left is never missed (`ExecutableSearch.UnobstructedIsAdmitted`). A needle without a border is admitted
  exactly when it occurs in code (`ExecutableSearch.AdmittedIffInCode`), and none of the needles in use has a border.
- Likely duplicates are not transitive (`PrOverlap.DuplicateIsNotTransitive`). They are exactly when the measures of the
  two pairs add up (`PrOverlap.CloseDuplicatesAreDuplicates`, `PrOverlap.CloserIsNeeded`).
- Sorting everything and filtering, and sorting the allowed part alone, agree when the allowlist is closed under the kept
  dependencies (`Workspace.SameCrateSequence`) and can differ when it is not (`PublishOrder.UnclosedOrdersCanDiffer`).
  Closure is not necessary (`PublishOrder.UnclosedOrdersCanAgree`). They agree whatever the crates are called exactly when
  the published crates are insulated: of any two, the second not needing the first, the first needs the second through
  published crates or needs nothing unpublished that the second does not need (`Naming.AgreeIffInsulated`).
- A "reclaimed" entry need not be true after power loss, because the directory is not fsynced after an unlink: the
  surviving entries are true whatever is lost exactly as long as there are none
  (`CohortScope.RecordsOutliveUnlinksIff`). What does survive power loss is `CohortScope.PowerLossSafe`.

Where code and comments disagree the model follows the code: the lexer accepts the regex flags `gimsuy`, although its
comment also lists `d`; `)` and `]` do not start a term, although a comment says a regex may follow them; and the first
identifier of the macOS needle is `return`, not `arch`.

## Model

| member | source | states |
|---|---|---|
| Names.LeqIs | scripts/publish-topo.py:203-214 | A name sorts before another iff it is a prefix of it or has the smaller code point where they first differ |
| Tarjan.EnterOk | scripts/publish-topo.py:50-55 | Numbering and stacking an unvisited node reachable from every active call starts a sound scan of it |
| Tarjan.KnownOk | scripts/publish-topo.py:60-61 | A successor already numbered lowers the link only while it is stacked, and the lowered link still names a stacked node the scanned node reaches |
| Tarjan.ChildOk | scripts/publish-topo.py:57-59 | After a recursive call the smaller of the two links is again witnessed and again bounds every edge back into the older stack |
| Tarjan.LeaveOk | scripts/publish-topo.py:62-70 | A node whose link is lower than its index stays stacked and an older active call is reachable from it |
| Tarjan.PopOk | scripts/publish-topo.py:62-70 | A node whose link equals its index roots one whole component, with edges only into itself and into components popped before |
| TarjanSearch.Search.StrongConnect | scripts/publish-topo.py:50-70 | One call, from any reachable state of the tables, visits its node and keeps every invariant of the search |
| TarjanSearch.Search.Visit | scripts/publish-topo.py:56-61 | One turn of the successor loop keeps the scan sound, whichever branch is taken |
| TarjanSearch.Search.PopComponent | scripts/publish-topo.py:63-70 | The pop loop removes exactly the nodes stacked since its root, latest first |
| TarjanSearch.NumberingClassifies | scripts/publish-topo.py:62-70 | Two nodes are popped together exactly when each reaches the other |
| TarjanSearch.NoClimb | scripts/publish-topo.py:41-42 | Reachability never leads to a component listed later |
| TarjanSearch.Sccs | scripts/publish-topo.py:41-76 | The lists are free of repetitions and partition exactly the nodes reachable from the given ones; two nodes share a list iff mutually reachable; an edge never leads to a later list |
| PublishGraph.CollectDependencies | scripts/publish-topo.py:116-129 | The two maps hold exactly the declared internal dependencies, dev ones in one and all others in the other |
| PublishGraph.DeclaredIs | scripts/publish-topo.py:116-129 | An edge is declared iff some package of that name has a dependency without a source on a known name, of kind "dev" or of any other |
| PublishGraph.NumberNodes | scripts/publish-topo.py:134-137 | Two nodes get one number exactly when they are mutually reachable |
| PublishGraph.DropInnerDevEdges | scripts/publish-topo.py:139-147 | Every normal edge is kept, and a dev edge exactly when its ends are not mutually reachable |
| PublishGraph.BuildPublishGraph | scripts/publish-topo.py:109-147 | The result is the one graph the policy describes, whatever the iteration order of sets |
| PublishGraph.KeptIsKept | scripts/publish-topo.py:109-147 | The graph contains every normal edge, and a dev-only edge iff its ends do not reach each other |
| PublishGraph.KeptEdgeIff | scripts/publish-topo.py:109-147 | In cargo's own terms: an edge is kept iff it is declared otherwise than for development, or for development and not leading back through dependencies of any kind |
| PublishGraph.CyclesAreNormal | scripts/publish-topo.py:110-147 | Every edge that lies on a cycle of the kept graph is a normal edge |
| PublishGraph.KeptAcyclicIffNormalAcyclic | scripts/publish-topo.py:109-147 | The kept graph is acyclic iff the normal dependencies are |
| Kahn.Relax | scripts/publish-topo.py:209-214 | The inner loop leaves in every degree the number of dependencies not yet listed and queues exactly the crates that became ready |
| Kahn.SortByDegree | scripts/publish-topo.py:201-214 | The list is the greedy order: always the least ready crate, until none is ready |
| Kahn.KahnOrderUnique | scripts/publish-topo.py:201-214 | There is only one such order, so dict and set iteration order cannot matter |
| Kahn.KahnOrderLeast | scripts/publish-topo.py:201-214 | A complete order is the lexicographically least of all topological orders |
| Kahn.KahnCompleteIffAcyclic | scripts/publish-topo.py:201-218 | The order lists every crate iff the graph is acyclic |
| Kahn.NoSinkMeansCycle | scripts/publish-topo.py:216-218 | A nonempty finite set in which every node has a successor contains a cycle: why a shortfall proves one |
| Kahn.Strike | scripts/generate_release_topology.py:222-226 | Striking a listed name out of every dependency set leaves what is still unlisted and makes ready exactly the crates with nothing left |
| Kahn.SortByStriking | scripts/generate_release_topology.py:218-227 | The second implementation computes the same greedy order |
| PublishOrder.PublishedAfterReached | scripts/publish-topo.py:199-291 | A published crate comes after every published crate it reaches in the kept graph, even through unpublished ones |
| PublishOrder.FilterThenSortAgree | scripts/generate_release_topology.py:213-227 | With a closed allowlist, sorting the induced graph equals sorting everything and filtering |
| PublishOrder.InducedIs | scripts/generate_release_topology.py:214-216 | The induced graph has the allowed crates and every edge between two of them |
| PublishOrder.UnclosedOrdersCanDiffer | scripts/generate_release_topology.py:213-227 | Without closure the two can differ: a three-crate graph on which the induced sort publishes a crate before one it reaches |
| PublishOrder.UnclosedOrdersCanAgree | scripts/generate_release_topology.py:213-227 | Nor does the lack of closure make them differ: the same graph with one crate published |
| Naming.InsulatedAgree | scripts/generate_release_topology.py:213-227 | Insulation is enough for any one naming |
| Naming.NotInsulatedDisagree | scripts/generate_release_topology.py:213-227 | One published crate that needs something unpublished another does not need, and not that other one, is enough for a naming under which the two lists differ |
| Naming.AgreeIffInsulated | scripts/generate_release_topology.py:213-235 | Filtering the sorted graph and sorting the filtered one agree under every naming of the crates iff the published crates are insulated from the unpublished ones |
| Naming.ClosedIsInsulated | scripts/generate_release_topology.py:213-216 | A closed allowlist is insulated |
| Workspace.CompleteIffNormalAcyclic | scripts/publish-topo.py:199-218 | The sort covers the workspace iff the normal dependencies have no cycle |
| Workspace.PackagesOfPublish | scripts/publish-topo.py:190-197 | For every name the last workspace member of that name in the metadata |
| Workspace.PackagesOfGenerator | scripts/generate_release_topology.py:184-196 | For every name the package of the last listed member id of that name |
| Workspace.PublishableAre | scripts/publish-topo.py:79-106 | Publishable are the members whose `publish` is absent or names a registry |
| Workspace.SamePublishable | scripts/generate_release_topology.py:202-206 | On cargo's metadata both scripts mean the same crates by publishable |
| Workspace.ReadEntries | scripts/publish-topo.py:253-272 | The allowlist is accepted iff every entry is a string naming a member, and the result holds exactly the entries; otherwise the error is that of the first entry that is not |
| Workspace.ReadAllowlist | scripts/publish-topo.py:242-282 | A well-formed allowlist is read as the set of its names, and every other one is refused with its own error |
| Workspace.ComputePublishOrder | scripts/publish-topo.py:174-291 | Success iff the normal dependencies are acyclic and the request is well formed; then exactly the requested crates with their versions, in the unique order sorted by code points; otherwise the error that applies |
| Workspace.Emit | scripts/publish-topo.py:284-291 | The allowed crates of the order with their own versions |
| Workspace.DeriveCrates | scripts/generate_release_topology.py:183-250 | Success iff the allowlist equals the publishable set and its induced graph is acyclic; then the entries in the induced graph's order with their dependencies sorted; otherwise the first error that applies |
| Workspace.SameKept | scripts/generate_release_topology.py:213-216 | Both scripts read the same packages from cargo's metadata and so build the same publication graph |
| Workspace.SameCrateSequence | scripts/generate_release_topology.py:213-235 | When the allowlist is closed under kept edges, both scripts list the same crates in the same order |
| Workspace.SameCrateSequenceIfInsulated | scripts/generate_release_topology.py:213-235 | The same under insulation instead of closure |
| Workspace.AcceptedUnlessDrift | scripts/generate_release_topology.py:187-211 | What the publish script accepts, the generator accepts iff the allowlist equals the publishable set |
| ProcessKernel.ApplyValid | scripts/cargo_admitted.py:363-371 | Fork, detach, exit, reparenting and reaping keep every descendant hanging from the owner or from a live older descendant |
| ProcessKernel.ApplyStays | scripts/cargo_admitted.py:491-495 | Nothing another process does takes an unreaped child away from the owner |
| ProcessKernel.RunOk | scripts/cargo_admitted.py:363-371 | Both hold over every sequence of events |
| ProcessKernel.AdopterOk | scripts/cargo_admitted.py:404-407 | Orphans go to the owner or to a live subreaper older than they are |
| ProcessKernel.NoChildrenNoDescendants | scripts/cargo_admitted.py:522-527 | In every reachable state, no children means no descendants, detached ones included |
| OwnedTree.ClippyTree.Track | scripts/cargo_admitted.py:422-437 | A pidfd is kept only if it proves to name an unreaped child, an unreaped child is always bound, a failure leaves nothing open, no other handle changes, and neither a fresh leader nor an adopted child is ever taken for an older handle |
| OwnedTree.ClippyTree.Bind | scripts/cargo_admitted.py:431-437 | Opening, checking and recording a pidfd keeps the open pidfds exactly those in `handles` |
| OwnedTree.ClippyTree.Confirm | scripts/cargo_admitted.py:432-437 | The pidfd just opened is recorded iff it proves waitable, and closed otherwise |
| OwnedTree.ClippyTree.Launch | scripts/cargo_admitted.py:439-444 | A started leader is a child and its handle is recorded |
| OwnedTree.ClippyTree.WaitLeader | scripts/cargo_admitted.py:618-634 | Exactly the status the leader's process exited with, or nothing while it lives; it is recorded once and the leader is reaped |
| OwnedTree.ClippyTree.ReapAdopted | scripts/cargo_admitted.py:465-500 | No status of a leader still awaited is consumed; the drain goes on until nothing is left to take, such a leader is in front, or 128 children were reaped |
| OwnedTree.ClippyTree.TakeAdopted | scripts/cargo_admitted.py:494-500 | Reaping one adopted child removes exactly it and its handle and records its status |
| OwnedTree.ClippyTree.Drain | scripts/cargo_admitted.py:522-537 | Either the kernel has no children and then no descendant is left, or live children are and none of them has exited; whoever had exited is reaped; codes and handles are exactly those after the reaps, and stay true when no handle was stale |
| OwnedTree.ClippyTree.ReapNext | scripts/cargo_admitted.py:522-535 | One turn of the drain keeps the account of what was reaped and what that did |
| OwnedTree.ClippyTree.ReapOne | scripts/cargo_admitted.py:530-535 | Reaping drops the handle with its pidfd and gives a tracked process object its code |
| OwnedTree.ClippyTree.StopChildren | scripts/cargo_admitted.py:538-552 | Every listed child is bound and every awaited child signalled, or the turn fails, for an unreadable table or a listed pid that was no child |
| OwnedTree.ClippyTree.DrainTurn | scripts/cargo_admitted.py:522-538 | The draining part; a cancellation that came meanwhile asks for the rest to be stopped |
| OwnedTree.ClippyTree.SignalChildren | scripts/cargo_admitted.py:543-552 | Every awaited child is signalled; under pid reuse every signal goes to an unreaped child of the owner; SIGKILL exactly once the grace period is over |
| OwnedTree.ClippyTree.FinishTurn | scripts/cargo_admitted.py:513-553 | One turn, exactly: it settles an empty tree; else only live children are left, and when stopping (asked, or cancelled meanwhile) every listed child is bound and every awaited one signalled, or it fails for a stated reason; when not stopping nobody is signalled; the codes are those after its reaps |
| OwnedTree.ClippyTree.Turns | scripts/cargo_admitted.py:513-553 | The whole loop, turn by turn: all but the last turn neither settle nor fail, the last one decides, once stopping every turn stops, and what was sent is what the turns sent; it ends unsettled only for a failure or the timeout |
| OwnedTree.ClippyTree.Finish | scripts/cargo_admitted.py:502-575 | Over every interleaving, with the account of every turn: settled iff the last turn settled and the scope was restored, and then the tree is empty, every leader's code is known and no pidfd is open; unsettled only for a failure, an unrestored scope or the timeout, and then the handles are kept; when asked to stop or cancelled every turn signals everybody left; every code that is not overwritable survives, and when no handle is stale every code is the status its leader exited with |
| OwnedTree.ClippyTree.CloseAll | scripts/cargo_admitted.py:556-565 | Pidfds are closed exactly when nobody is left |
| OwnedTree.WaitableStaysAt | scripts/cargo_admitted.py:431-437 | A pidfd that proves waitable after it was opened names the child at that pid, whatever happened between |
| OwnedTree.SettledOwns | scripts/cargo_admitted.py:556-560 | With no process left, no handle is awaited and every leader's code is known |
| OwnedTree.CodeAfterReaps | scripts/cargo_admitted.py:522-535 | A leader's recorded code after a series of reaps: the status its handle's pid was first reaped with, if it was, else unchanged |
| OwnedTree.OverwriteRecordedCode | scripts/cargo_admitted.py:522-535 | From every overwritable state some schedule makes `finish` replace that leader's recorded code |
| OwnedTree.OverwritableIff | scripts/cargo_admitted.py:522-535 | The states `Finish` excludes are exactly those from which a schedule overwrites the code |
| OwnedTree.LeaderCodeOverwritten | scripts/cargo_admitted.py:422-575 | A run from the start (launch, collect, recycle the pid, finish) after which a leader's recorded code is not the status it exited with |
| Lease.StepInv | scripts/cargo_admitted.py:880-907 | Every step of every run keeps: a run in the slot created the directory there and knows its identity |
| Lease.AtMostOneHolder | scripts/cargo_admitted.py:955-967 | Over every interleaving with crashes and inode reuse, at most one run is in the slot |
| Lease.AcquireHolds | scripts/cargo_admitted.py:955-967 | An undisturbed run that finds the slot free comes to hold it, with its own marker in its own directory |
| Lease.TakenRefuses | scripts/cargo_admitted.py:956-959 | A run that finds the slot taken gives up and leaves it alone |
| Lease.OnlyOwnDirectoriesRemoved | scripts/cargo_admitted.py:894-907 | Only its creator removes a lock or marker directory, or the operator one whose run is over |
| Lease.ForeignMarkerProtects | scripts/cargo_admitted.py:887-907 | A lock that holds another run's marker, and that marker, survive every step of a run, from any state |
| Lease.ReleaseFrees | scripts/cargo_admitted.py:894-907 | An undisturbed release from a holding state frees the slot |
| SlotSafety.StepInv | scripts/cargo_admitted.py:968-1090 | Every step of runs, their processes, crashes and the operator keeps: the lock of a run with living descendants is in place, and that run holds it or is over |
| SlotSafety.SlotStaysClosed | scripts/cargo_admitted.py:955-1090 | While a descendant of one run lives, its run crashed or not, no other run is in the slot |
| SlotSafety.ReleaseIsAllowed | scripts/cargo_admitted.py:1077-1084 | The guard on releasing follows from the managed run: holding the lease, it comes to release it only with no descendant left, and the release then frees the slot |
| SlotSafety.ReleaseGuardIsNeeded | scripts/cargo_admitted.py:1077-1084 | Were the lease released without proven closure, six steps would let a second run in beside a living process of the first |
| AdmittedRun.RunProbe | scripts/cargo_admitted.py:439-452 | A probe that starts ends as cancelled, as scripted, well when its process exited with 0, refused otherwise; its status is collected if it has exited |
| AdmittedRun.RunProbes | scripts/cargo_admitted.py:439-452 | Probing keeps the scope sound and its leaders; it goes on until the first probe that does not go well, and ends as that one does; without a launch nothing changes |
| AdmittedRun.PollLeader | scripts/cargo_admitted.py:618-634 | One turn: adopted children that have exited are taken, then the leader's status is collected iff it has exited |
| AdmittedRun.CallLeader | scripts/cargo_admitted.py:578-640 | A product status exists exactly when the call ended without an exception, and it is the status the process launched here exited with; every other end is that of the turn it happened in, with the leader still running |
| AdmittedRun.Attempt | scripts/cargo_admitted.py:968-1075 | The stage that ended the attempt and how; a child exists iff one was launched, and then a launch was attempted under an owned scope; a product status is the one the leader's process exited with |
| AdmittedRun.FinishAttempt | scripts/cargo_admitted.py:1071-1083 | Whatever is left is stopped unless the attempt ended well, with the account of every turn |
| AdmittedRun.ManagedRun | scripts/cargo_admitted.py:968-1107 | The exit code in every case: 75 for a refusal, unproven closure or a lock still there, else 130 after a cancellation, else the status the leader's process exited with; the lease comes to be released iff closure is proven or no launch was attempted, and then no descendant is left; a cancellation is one that ended the attempt, one the tree saw or one while releasing; closure, turn by turn, as `finish` proves it; an attempt that did not end well has an excuse in the script, the schedule, the statuses or the scope |
| CohortScope.CrashSafe | scripts/cargo_cohort.py:312-332 | Whatever of the receipt survives a crash: recorded reclaims ⊆ unlinked ⊆ authorised, and at most one unlinked file is unrecorded |
| CohortScope.PowerLossSafe | scripts/cargo_cohort.py:312-332 | When power loss may also take unlinks back, the files still gone are authorised by the surviving receipt and at most one of them is unrecorded |
| CohortScope.RecordsOutliveUnlinksIff | scripts/cargo_cohort.py:326-332 | The surviving records are true of the files still gone, whatever is lost, iff there are none |
| CohortScope.UnlinkSafe | scripts/cargo_cohort.py:376-390 | Unlinking one authorised file while everything earlier is recorded keeps the durable state safe |
| CohortScope.Execute | scripts/cargo_cohort.py:364-374 | The status is the one the started process exited with, and that process is the only one started; no status iff it could not start, or it was cancelled or is still running when the wait is over |
| CohortScope.Cohort.Capture | scripts/cargo_cohort.py:219-241 | Accepted iff irrelevant, or newly produced, consistent with both tables and observable unchanged; then exactly that record and its table entries are added, in order |
| CohortScope.Cohort.Persist | scripts/cargo_cohort.py:349-356 | The receipt is the old one, the old one with the entry, or that made durable, exactly according to where it stopped |
| CohortScope.Cohort.Reclaim | scripts/cargo_cohort.py:376-390 | A file is unlinked iff closure is proven, deletion is authorised and it is observed exactly as recorded; its record goes with it; on failure disk, records and order are unchanged |
| CohortScope.Cohort.Unlink | scripts/cargo_cohort.py:387-388 | The file is unlinked and its record goes with it, nothing else, and the durable states stay safe |
| CohortScope.Cohort.Unchanged | scripts/cargo_cohort.py:307-311 | Success iff every executable is observed exactly as recorded |
| CohortScope.Cohort.Authorise | scripts/cargo_cohort.py:312-326 | Succeeds iff write and both fsyncs do; then the authorisation and the receipt's name are durable |
| CohortScope.Cohort.ReclaimNext | scripts/cargo_cohort.py:327-332 | One deletion followed by its durable record, exactly when the file is still as recorded and both system calls succeed |
| CohortScope.Cohort.ReclaimAll | scripts/cargo_cohort.py:307-333 | Files are reclaimed one at a time, each recorded before the next; every unlinked one was observed exactly as recorded twice, before any deletion and right before its own; success iff every observation and every system call goes well |
| CohortScope.Cohort.DeleteNext | scripts/cargo_cohort.py:326-332 | One turn of the loop succeeds iff the file is still as recorded and unlink and record succeed |
| CohortScope.Cohort.DeleteAll | scripts/cargo_cohort.py:326-333 | The reclaim loop, the authorisation being durable |
| CohortScope.Cohort.Produce | scripts/cargo_cohort.py:273-285 | The status is the one the producer's process exited with; nothing is captured unless that is 0 and every line is acceptable; a refusal has its reason |
| CohortScope.Cohort.ReadJson | scripts/cargo_cohort.py:276-283 | Accepted iff every line is JSON and every relevant artifact is fresh, openable and observed, shares its target with an earlier one iff it shares its executable, and is then observed as before; the tables then hold exactly what the lines are about |
| CohortScope.Cohort.ReadLine | scripts/cargo_cohort.py:276-283 | One line is accepted iff it is acceptable after the lines before it |
| CohortScope.Cohort.ConsumeNext | scripts/cargo_cohort.py:289-294 | A consumer runs only on an executable observed with the captured identity and digest; it is refused iff that is not seen or it cannot be started |
| CohortScope.Cohort.Consume | scripts/cargo_cohort.py:286-297 | Consumption follows the capture order and stops at the first failure; every consumed executable was observed with its captured identity and digest; the processes started are distinct, one per consumer and no other, and each consumed one's exited with 0; success means all of them; failure means coverage, an observation or a consumer failed |
| CohortScope.Cohort.ProduceAndConsume | scripts/cargo_cohort.py:256-302 | Success means the processes started are exactly one producer and one consumer per executable, each of which exited with 0 |
| CohortScope.FinishTree | scripts/cargo_cohort.py:300-302 | The tree is finished with the account of every turn |
| CohortScope.Cohort.Conclude | scripts/cargo_cohort.py:303-344 | Reclaim happens iff the cohort succeeded, closure is proven and nothing was cancelled; the run raises iff it is settled and was refused or its reclaim does not go through; what it returns otherwise, exactly: 75 without closure, 130 after a cancellation, else its status |
| CohortScope.Cohort.Supervise | scripts/cargo_cohort.py:256-302 | Success means every process the tree ever started exited with 0, one producer and one consumer per captured executable; a status is that of a process started; a settled receipt means no process is left |
| CohortScope.Cohort.Run | scripts/cargo_cohort.py:243-347 | The durable states form a chain from nothing, one system call at a time, each safe; when anything is unlinked, the processes started were the producer and one consumer per captured executable, each exited with 0, no process is left, and each unlinked file did not exist at construction and was observed unchanged at capture, at consumption, before any deletion and before its own; why producing and consuming ended as they did; whether the run raises and what it returns, exactly; status 0 means everything consumed was reclaimed and recorded |
| BoundedCapture.AdvanceOk | scripts/generate-badges.py:444-468 | For every chunking the buffer stays the stream's prefix within the limit, and a reader signals what stopped it |
| BoundedCapture.ChunkRead | scripts/generate-badges.py:455-468 | A chunk read advances the reader by its size; the buffer holds what the limit allows, and the reader stops iff that is not all |
| BoundedCapture.QuietReaderIsComplete | scripts/generate-badges.py:444-468 | A reader that ended without a signal holds its whole stream |
| BoundedCapture.DeadlineEndsWait | scripts/generate-badges.py:479-525 | No poll at or after the deadline lets the wait go on |
| BoundedCapture.CleanEndIff | scripts/generate-badges.py:479-525 | The wait ends well iff nothing was signalled and process and readers are over |
| BoundedCapture.FailureMeans | scripts/generate-badges.py:497-525 | Each verdict is given exactly in its own case: overflow first, then a reader failure, then a hang after exit, then the timeout |
| BoundedCapture.OneMorePoll | scripts/generate-badges.py:479-525 | The classifier ends the wait at a poll iff that poll ends it, and with that verdict |
| BoundedCapture.QueuesFirstWouldBeWrong | scripts/generate-badges.py:540-555 | Sampling the queues before the threads would take an overflowing reader for a complete one |
| BoundedCapture.Capture.TakeOverflow | scripts/generate-badges.py:419-427 | One signal is consumed iff one is queued |
| BoundedCapture.Capture.TakeFailures | scripts/generate-badges.py:430-441 | The queue is drained, and a failure is reported iff there was one |
| BoundedCapture.Capture.Sample | scripts/generate-badges.py:540-550 | What was over before the samples is seen, and what is seen has happened |
| BoundedCapture.Capture.Wait | scripts/generate-badges.py:528-556 | Over every interleaving: the last poll decides and no earlier one does; a clean end iff nothing was signalled and process and readers were seen over, a hang iff the process was seen over, a reader alive, and the deadline or the time since the first such poll had run out, a timeout iff the process was never seen over by the deadline; what was over before the wait ends it at its first poll; without a failure both buffers are the complete streams within their limits |
| TypescriptMask.NextAdvances | scripts/generate_release_topology.py:1153-1339 | Every token consumes at least one character |
| TypescriptMask.BlockEndIs | scripts/generate_release_topology.py:1210-1217 | A block comment ends right behind the first `*/`, or with the text |
| TypescriptMask.StringEndIs | scripts/generate_release_topology.py:1225-1243 | A string ends right behind the first unescaped quote of its kind, before an earlier unescaped newline, or with the text |
| TypescriptMask.TemplateEndIs | scripts/generate_release_topology.py:1263-1281 | A template literal ends right behind the first unescaped backtick, or with the text |
| TypescriptMask.RegexEndIs | scripts/generate_release_topology.py:1282-1316 | Exactly when a slash in term position is taken for a regex, and where it ends: closed with a body, cut off by a newline behind a flag letter, or cut off by the end of the text |
| TypescriptMask.UnclosedIsCodeIff | scripts/generate_release_topology.py:1180-1182 | An unclosed slash counts as code, as the comment promises, iff it is cut off by a newline without a flag letter behind it or is the last character |
| TypescriptMask.UnclosedFlagsAreBlanked | scripts/generate_release_topology.py:1300-1316 | A text on which an unclosed slash is blanked as a regex |
| TypescriptMask.NextIsToken | scripts/generate_release_topology.py:1191-1338 | Every token starts and ends as its kind says, in terms of first unescaped delimiters and maximal runs, and no kind of literal starts where another does |
| TypescriptMask.ScanRegex | scripts/generate_release_topology.py:1282-1316 | The imperative scan, character classes, escapes and give-up included, finds the first unescaped slash outside a class, or newline, and from it the end of the literal |
| TypescriptMask.Recognise | scripts/generate_release_topology.py:1191-1338 | One turn of the scanner recognises the token that starts there and passes on the term position |
| TypescriptMask.Mask | scripts/generate_release_topology.py:1153-1339 | The loop's output is the mask: the source with exactly the blanked kinds replaced |
| TypescriptMask.MaskShape | scripts/generate_release_topology.py:1153-1175 | Same length; each character unchanged or a space; newlines exactly where they were |
| TypescriptMask.StrictMaskBlanksTemplates | scripts/generate_release_topology.py:1153-1175 | The strict mask differs from the default one only by blanking template literals |
| TypescriptMask.SurvivesIffCode | scripts/generate_release_topology.py:1153-1339 | A character that is not white space survives exactly where the lexer sees code |
| LexicalGrammar.OneToken | scripts/generate_release_topology.py:1191-1338 | The text and the term position determine the token: its kind and its end |
| LexicalGrammar.TermStep | scripts/generate_release_topology.py:1184-1337 | The flag carried along is the term position: the last character before that is neither comment nor blank does not exist, is a newline, or is punctuation that a value may follow |
| LexicalGrammar.LexesIff | scripts/generate_release_topology.py:1153-1339 | There is exactly one way to cut a text into tokens in which a slash opens a regex only in term position, and it is the lexer's |
| LexicalGrammar.NoRegexBehindValue | scripts/generate_release_topology.py:1176-1182 | Behind an identifier, number, string, template or closing bracket on the same line a slash never opens a regex, whatever comments and blanks stand between |
| LexicalGrammar.MaskedIff | scripts/generate_release_topology.py:1153-1175 | The mask is the one text the grammar gives: comments, strings and regex literals blanked, template literals in strict mode only, newlines never, everything else kept |
| ExecutableSearch.FirstIdentifier | scripts/generate_release_topology.py:1097-1118 | The first maximal identifier, or nothing when no character starts one |
| ExecutableSearch.AnchorIndex | scripts/generate_release_topology.py:1136-1145 | `needle.index(anchor)` is where that identifier was found |
| ExecutableSearch.SearchMatches | scripts/generate_release_topology.py:1121-1150 | The loop over the non-overlapping matches succeeds iff some yielded match is visible |
| ExecutableSearch.HasExecutableSubstring | scripts/generate_release_topology.py:1121-1150 | Success iff some yielded match survives in the mask at its anchor |
| ExecutableSearch.VisibleIffCode | scripts/generate_release_topology.py:1121-1150 | At an occurrence the check succeeds iff every character of the anchor is code |
| ExecutableSearch.AdmittedOnlyInCode | scripts/generate_release_topology.py:1121-1150 | A needle whose anchor lies only in comments, strings or regex literals is never admitted |
| ExecutableSearch.AdmittedIffYieldedInCode | scripts/generate_release_topology.py:1121-1150 | For every needle with an identifier: admitted iff some yielded match has its identifier in code |
| ExecutableSearch.UnobstructedIsAdmitted | scripts/generate_release_topology.py:1121-1150 | An occurrence in code that no other occurrence overlaps from the left is never missed |
| ExecutableSearch.AdmittedIffInCode | scripts/generate_release_topology.py:1121-1150 | A border-free needle is admitted iff it occurs with its anchor in code |
| ExecutableSearch.OverlapCanHideCode | scripts/generate_release_topology.py:1121-1150 | A concrete text and a self-overlapping needle that occurs in code and is not admitted |
| WindowsTargets.QuotedIs | scripts/generate_release_topology.py:1382-1382 | A quoted target is the target between two single or two double quotes |
| WindowsTargets.LiteralEndIs | scripts/generate_release_topology.py:1382-1382 | The first pattern matches at a place iff `return`, white space and the quoted target stand there |
| WindowsTargets.DeclaredEndIs | scripts/generate_release_topology.py:1390-1392 | The second matches iff the constant at a word boundary, an equals sign and the quoted target stand there, white space aside |
| WindowsTargets.IsConstantIs | scripts/generate_release_topology.py:1386-1388 | The third matches iff `return`, white space and the constant up to a word boundary stand there |
| WindowsTargets.LiteralsApart | scripts/generate_release_topology.py:1382-1385 | No match of the first pattern starts inside another, so none is skipped |
| WindowsTargets.DeclarationsApart | scripts/generate_release_topology.py:1390-1395 | Nor does one of the second |
| WindowsTargets.WordSurvives | scripts/generate_release_topology.py:1383-1383 | A word stands in a mask iff it stands in the source with every character in code |
| WindowsTargets.FindLiteral | scripts/generate_release_topology.py:1381-1385 | The loop succeeds iff some match has its `return` in the mask |
| WindowsTargets.FindDeclaration | scripts/generate_release_topology.py:1389-1395 | The loop succeeds iff some match has its constant in the mask |
| WindowsTargets.ConstantAtIsReturn | scripts/generate_release_topology.py:1386-1388 | Matches in the strict mask are the returns of the constant in code, comments and literals between the two aside |
| WindowsTargets.FindWindowsTarget | scripts/generate_release_topology.py:1381-1397 | A Windows target counts iff code returns it as a literal, or declares a constant as it and returns that constant |
| DownloaderTargets.DarwinHasNoBorder | scripts/generate_release_topology.py:1371-1373 | The macOS needle cannot overlap itself |
| DownloaderTargets.LinuxReturnHasNoBorder | scripts/generate_release_topology.py:1402-1402 | Nor can the Linux construction |
| DownloaderTargets.LinuxPrefixHasNoBorder | scripts/generate_release_topology.py:1403-1403 | Nor the architecture prefix |
| DownloaderTargets.LinuxLibcHasNoBorder | scripts/generate_release_topology.py:1404-1405 | Nor the two libc comparisons |
| DownloaderTargets.FindWindowsTargets | scripts/generate_release_topology.py:1377-1397 | The loop over both Windows targets finds exactly those |
| DownloaderTargets.FindLinux | scripts/generate_release_topology.py:1399-1407 | The Linux construction is found iff all four of its parts occur in code |
| Names.EndsWithIs | scripts/generate_release_topology.py:1411-1414 | The Linux targets are those that end with one of the two suffixes |
| DownloaderTargets.DeriveDownloaderTargets | scripts/generate_release_topology.py:1342-1416 | The managed targets are exactly the workflow targets whose construction occurs in code: both macOS ones with their ternary, each Windows one as a literal or through its constant, the Linux ones with all four parts |
| StorageInventory.TotalAdd | scripts/storage_observation.py:319-322 | A sum over files counts each file once, in any order |
| StorageInventory.SumApparent | scripts/storage_observation.py:319-321 | The loop computes the sizes of the distinct regular files |
| StorageInventory.SumAllocated | scripts/storage_observation.py:314-322 | The allocated bytes, known iff every file reports its blocks |
| StorageInventory.WalkDone | scripts/storage_observation.py:238-315 | A clean walk with an empty stack has seen exactly the files reachable from its root |
| StorageInventory.Walker.ReadFingerprint | scripts/storage_observation.py:69-101 | Exactly the bytes read are charged, one over the limit at most and all of that when unknown, before anything is validated; a fingerprint counts iff it was accepted within the limit |
| StorageInventory.Walker.PushChildren | scripts/storage_observation.py:276-282 | An unclipped enumeration pushes every name in order, one level deeper, each after a reading of the clock that was not late; a clipped one pushed a prefix |
| StorageInventory.Walker.Expand | scripts/storage_observation.py:272-309 | A directory is expanded completely when depth, entries and time allow, and never at the depth limit; a fingerprint is read iff the entry is a file named as one |
| StorageInventory.Walker.Visit | scripts/storage_observation.py:246-313 | One popped entry keeps the walk sound; an unsupported one spoils it, a file seen before costs nothing more and reads no fingerprint again |
| StorageInventory.Walker.Walk | scripts/storage_observation.py:237-315 | A complete walk saw exactly the distinct files reachable from its root, every directory within the depth limit, at the exact cost of one entry per name and one timely reading of the clock per entry and per name; a root that fits the limits is always complete |
| StorageInventory.Walker.Inventory | scripts/storage_observation.py:217-333 | Every resource reports the totals over the distinct files observed, a complete one over its reachable set, and the combined record over the union of what the resources observed; the entry and fingerprint limits always hold |
| TerminalManifest.Candidate.ReadArchives | scripts/release_terminal_manifest.py:450-475 | Accepted iff every listed archive is well named, present with its digest, and no two share a target |
| TerminalManifest.Candidate.BuildManifest | scripts/release_terminal_manifest.py:429-527 | A manifest is built iff the candidate is eligible, the closed-world check included |
| TerminalManifest.Candidate.ExpectedInventory | scripts/release_terminal_manifest.py:534-549 | An inventory exists iff the subjects are a nonempty list without repetitions of present files |
| TerminalManifest.Candidate.WriteOutputs | scripts/release_terminal_manifest.py:552-559 | Fails iff the candidate is not eligible, and then changes nothing; otherwise replaces the two outputs and nothing else |
| TerminalManifest.Candidate.CheckOutputs | scripts/release_terminal_manifest.py:562-570 | Accepts iff both outputs are exactly what would be written |
| TerminalManifest.SubjectsDistinct | scripts/release_subject_projection.py:11-16 | No archive, evidence record or fixed subject ever goes by another's name, so the uniqueness check cannot fail |
| TerminalManifest.SubjectsPresent | scripts/release_terminal_manifest.py:487-504 | Every subject exists once the manifest is written, and every file is a subject or the inventory |
| TerminalManifest.OutputsAreNotInputs | scripts/release_terminal_manifest.py:429-527 | Adding or replacing the two outputs changes no manifest |
| TerminalManifest.WriteThenCheck | scripts/release_terminal_manifest.py:552-570 | A check right after a write succeeds |
| TerminalManifest.CheckedIsFixed | scripts/release_terminal_manifest.py:552-570 | Writing a candidate that passes the check changes nothing |
| TerminalManifest.TextInjective | scripts/release_terminal_manifest.py:538-549 | With newline-free paths the inventory text gives back its paths and every digest |
| TerminalManifest.InventoryPins | scripts/release_terminal_manifest.py:487-570 | Two passing candidates with the same inventory hold the same files with the same digests |
| TerminalManifest.InventoryPinsContents | scripts/release_terminal_manifest.py:487-570 | Without a collision between their files the two candidates are identical |
| TerminalManifest.ManifestPins | scripts/release_terminal_manifest.py:487-570 | With no condition on evidence paths: two passing candidates with the same inventory hold the same files with the same digests, because the manifest's own row fixes the list of subjects |
| TerminalManifest.RowsAloneAreAmbiguous | scripts/release_terminal_manifest.py:548-549 | Rows alone do not determine their paths: a path with a newline can spell a further row |
| ManifestContents.ManifestSays | scripts/release_terminal_manifest.py:429-527 | Field by field: version is the tag without its v; one row per listed archive with its path, its listed and real digest and the target its name spells; digests of the fixed files; one row per evidence record in order; the subjects in the producer's order; the sorted targets of the rows |
| ManifestContents.TargetIs | scripts/release_terminal_manifest.py:448-459 | A target is read out of an archive name iff the name is the canonical one for it |
| ManifestContents.ExtraIs | scripts/release_terminal_manifest.py:468-476 | An extra archive stands directly in dist, has an archive extension and is not listed |
| ManifestContents.RecordIs | scripts/release_terminal_manifest.py:373-376 | A record has its name and lies at any depth below evidence |
| ManifestContents.TextIs | scripts/release_terminal_manifest.py:538-549 | The inventory is one line per subject: digest, two blanks, path, newline |
| RangeHolderCache.KeptIffRecent | scripts/generate_domain6_fragment.py:2960-2973 | The youngest `max_entries` keys are exactly those with fewer than `max_entries` distinct others used since |
| RangeHolderCache.LastAfterUse | scripts/generate_domain6_fragment.py:2960-2973 | Moving a hit to the end, or appending and evicting the oldest, keeps exactly the youngest keys |
| RangeHolderCache.DirectUnique | scripts/generate_domain6_fragment.py:2963-2968 | The direct answer is determined by the query's output |
| RangeHolderCache.BlankIs | scripts/generate_domain6_fragment.py:2968-2968 | A line is dropped iff it holds nothing but white space |
| RangeHolderCache.Cache.SetQuery | scripts/generate_domain6_fragment.py:2946-2955 | Replacing the callable, even by one with a recycled address, keeps every cached answer right |
| RangeHolderCache.Cache.MoveToEnd | scripts/generate_domain6_fragment.py:2960-2962 | A hit becomes the youngest entry and no other changes |
| RangeHolderCache.Cache.Add | scripts/generate_domain6_fragment.py:2969-2973 | A new entry keeps its callable alive and evicts only the least recently used |
| RangeHolderCache.Cache.Holders | scripts/generate_domain6_fragment.py:2957-2974 | Always the direct query's answer, within the size bound; the callable is asked again iff at least `max_entries` distinct other keys were used since this key's last use, or it was never used |
| RangeHolderCache.Open | scripts/generate_domain6_fragment.py:2946-2955 | Construction is refused iff the bound is below one |
| PrOverlap.JaccardRange | scripts/pr_overlap.py:133-140 | Symmetric, between 0 and 1; 0 iff disjoint, 1 iff equal and nonempty |
| PrOverlap.JaccardTriangle | scripts/pr_overlap.py:133-140 | J(A,B) + J(B,C) ≤ 1 + J(A,C) for all finite sets, two empty sets counting as 0 |
| PrOverlap.DuplicatesOverlap | scripts/pr_overlap.py:194-288 | Likely duplicates of one pull request share at least 0.6 of their files and are never isolated or not proven |
| PrOverlap.DuplicateIsNotTransitive | scripts/pr_overlap.py:257-280 | The bound is attained, by two that are only `sequence-both` |
| PrOverlap.CloseDuplicatesAreDuplicates | scripts/pr_overlap.py:252-275 | Two likely duplicates of one pull request are likely duplicates of each other when their file measures add up to 1.8 and their test and symbol measures to 1.5 |
| PrOverlap.CloserIsNeeded | scripts/pr_overlap.py:252-275 | Whenever the measures are not that high, pull requests with the very same measures exist whose ends are not likely duplicates: the condition is exact |
| PrOverlap.Realise | scripts/pr_overlap.py:133-140 | Any two overlaps that add up to one or more occur together with the least third overlap the triangle inequality allows |
| PrOverlap.ClassifySymmetric | scripts/pr_overlap.py:194-288 | The order of the two pull requests does not matter |
| PrOverlap.IsolatedIff | scripts/pr_overlap.py:207-250 | Isolated iff both sources are definitive and no file is shared; not proven iff a source is not definitive |
| PrOverlap.ClassifyIs | scripts/pr_overlap.py:236-280 | Every class by counting: what is shared and what there is of files, tests and symbols, with the thresholds as fractions; and the measures reported |
| PrOverlap.ShareIs | scripts/pr_overlap.py:133-140 | A measure reaches a threshold iff that fraction of the elements is shared and there are some |
| PrOverlap.DefinitiveIs | scripts/pr_overlap.py:206-214 | A source is trusted when it is absent or says known or known_empty |
| PrOverlap.DuplicateOfItself | scripts/pr_overlap.py:257-261 | A pull request is a likely duplicate of itself iff it names a file, a test and a symbol |

## Left out

- The Rust crates, xtask and examples: only thin re-exports are in these scripts' reach.
- `/proc` parsing, `prctl`, real signal delivery and Windows jobs: the process model is the small kernel above.
- Toolchain probing, TOML reading, capacity checks and command-line assembly of the cargo wrapper; unmanaged runs and preflight.
- The contents of SPDX documents, build identities, receipts and package evidence: one deterministic function of the files that are not outputs.
- The order of evidence rows: rows are sorted by path text, not by path components; only the manifest's row order depends on it.
- Symlinks, hostile concurrent writers and replaced ancestors: the file system is quiescent during an inventory, a manifest or a mask.
- `entry_changed` in the inventory, which needs a changing file system; the fingerprint records' digests and hash fields.
- OwnedTree.ClippyTree.Finish: does not model running out of file descriptors in `pidfd_open`, or the polling delays beyond their order.
- AdmittedRun.CallLeader: a polling schedule that ends before the leader exits counts as an interruption there.
- Lease: an operator is assumed never to clear a lease in use, and the random part of a marker's name never to repeat; `Lease.ForeignMarkerProtects` holds without either.
- CohortScope.Execute: a wait that outlasts the script's polls counts as an interruption there.
- BoundedCapture.Capture.Wait: does not model what `run_ripr` does after the wait.
- PrOverlap: measures are exact rationals, so floating-point rounding at a threshold is not modelled; rationale texts are left out.
- RangeHolderCache.Cache.Holders: the query answers deterministically, and splitting its output into lines is part of the query.
- Python's recursion limit in the component search, and `package_path` in crate entries.
