# Verified models of LXD's algorithms and protocols

This project models the parts of the LXD daemon and its client that decide something hard, and
proves properties of them with Dafny. `dafny verify dfyconfig.toml` checks everything. Each
module covers one piece of code:

- `Balance`, with `Greedy` and `Cpuset`: the CPU balancer. `Balance` keeps the program's form
  (maps of pinning lists, CPU objects with counters, a list sorted again for every container)
  and proves that what it leaves behind is an `Outcome`: a greedy run, over some order of the
  containers and some order of CPUs with equal load, on top of the pinned ones. `Greedy` is the
  theory of such runs. A run turns the number of CPUs below load h into a value that depends only on the
  multiset of limits (`Predict`), which gives confluence. The load above each level h
  (`Excess`) is minimal among all assignments, which gives optimality.
- `Idmap`: the allocator of isolated uid/gid ranges, a first fit over sorted ranges, and the
  runs of configuring and deleting containers.
- `Migration`: the migration protocol, a machine of both parties, two message queues, the dump
  with its blocking action script, the sink's restore goroutine, and a connection that can break
  at any time. Every step carries whether its calls succeed and whether its message arrives. The
  source's container has a version that grows while it runs. What is written and received carries
  the version it was taken at, so that "complete" and "up to date" speak of contents.
- `Operations` and `ContainerLock`: the life of a background operation and the per-container
  operation lock, as machines. `ContainerLock` has the locked sections as steps. `Operations` has a
  parameter: the checks that the program makes outside the lock either count as one step with the
  write that follows, or are steps of their own. Classes with the source's fields and methods refine
  single steps.
- `ForkExec`, `TarExport`, `Processes`, `Snapshot`, `Aliases`, `InitApply`: builders against
  readers, and work lists. `GoStrings` holds the string functions of Go they rely on, and
  `Sequences` the notion of a list without repetitions, `Machines` that of a run of steps, which
  `Migration`, `Operations`, `ContainerLock` and `Idmap` share.

Wherever the program ranges over a Go map, lists a database table, or sorts with an unstable sort,
the model takes any order. What the contracts say holds for every order.

## What the proofs found

Some promises hold only under a condition. The condition is proved to be exact, or a concrete
failing input is given.

- Allocating id ranges passes over a gap of exactly the wanted size, except before the first
  range (`FitSucceeds`).
- An isolated container with a range of size 0 can make the allocator hand out ids that are taken
  (`EmptyRangeBreaksRun`). Runs that draw their sizes from a set keep all ranges apart exactly if 0
  is not in the set, or no positive size in it fits the region (`KeepsApartExactly`).
- A container without a limit takes the text of the effective CPUs as its limit. The text of a
  single CPU reads as a count, so the container is balanced over min(id, 1) CPUs
  (`UnlimitedContainer`); if CPU 0 is the only one, it is placed nowhere. A negative limit never
  brings the countdown of the placement loop to 0, so it means all CPUs (`Share` in `Greedy`).
- `done()`, `Cancel` and the update calls check first and lock afterwards. If these are separate
  steps, then the channel is closed at most once, and a readonly operation has a final status, if and
  only if the operation is neither a token nor one whose run hook installs a canceler
  (`ClosedOnceExactly`, `ReadonlyMeansFinal`), and resources are frozen if and only if nothing closes
  the operation at all (`ResourcesFrozenExactly`). If they are single steps, these three hold.
- The progress callback of an image download writes into the metadata map that the operation holds,
  before any check. So metadata is frozen if and only if nothing closes the operation, or the checks
  are single steps and the operation is no such download (`DataFrozenExactly`).
- The status a waiter finds can still change afterwards (`StatusSettlesExactly`). That happens, even
  with single steps, exactly in operations whose hook can be cancelled (`AlwaysSettledExactly`).
- A canceler that fails leaves its operation in Cancelling while the hook goes on, and nobody can
  cancel it any more (`CancelFailed`).
- `createOperation` looks up and registers in two locked sections. An operation is lost, and its
  waiters wait for ever, if and only if one registers over another (`LostExactlyWhenDisplaced`); two
  calls are enough for that (`OperationsGetLost`).
- The action script may exit with an error of its own, after it called in or after the success
  verdict. CRIU then leaves the source running, and the source's `Do` only logs it. The two copies
  never run together, and a move never loses anything, if and only if that cannot happen
  (`NeverBothRunning`, `MoveLosesNothing`). The copy can even have memory of one version and files of
  another (`TornCopy`).
- A source that loses the control connection while the dump waits leaves its container frozen
  (`AbandonedReachable`), and for good exactly if the script cannot break (`AbandonedForGood`).
  Without the action script the source of a live migration waits for a dump that was never started:
  it never returns success (`PlainDumpNeverSucceeds`), though the sink may (`PlainDumpHangs`).
- Environment variables come back from the exec argument list if and only if no name contains
  `=` (`ExecRoundTrip`).
- The chosen snapshot name is free in every order of the rows exactly when the largest int is not
  in use, or no number in use is followed by a name in use (`FreeExactlyWhen`, `WrapCollides`).
  That is when the query succeeds; when it fails the name is snap0, in use or not (`ChooseName`).
- `lxd init` reverts in the order of application. That restores every store if and only if no two
  steps write to the same profile (`ForwardOrderIsSafeExactly`); a given store is restored, with
  all reverters succeeding, exactly when each value written repeatedly already had the value of
  its last write but one (`ForwardRestoresExactly`). The opposite order always restores
  (`BackwardRestores`).
- `ensureImageAliases` reports no error when a creation is refused after the old alias was
  deleted; `EnsuredExactlyWhen` says when the request is met.
- The hard-link table of `tarStoreFile` goes by the inode number alone. Hard links come back
  as they were if and only if no two tracked paths share a number on different devices, and contents
  if and only if tracked paths with one number have one content (`RoundTrip`). Two subvolumes are
  enough to lose a file's content (`SubvolumesClash`).
- The branch of `tarStoreFile` that skips files below `/rootfs` is never taken, because names
  in the archive are relative (`StoreFile`).
- What CRIU does with the exit code of the action script (lxd/main_migratedumpsuccess.go: 0 on
  success, an error otherwise) follows the comment at lxd/migrate.go:411-426: the container is killed
  or left running as asked. The comment lists the codes in the opposite order; the model follows the
  code.

## Model

| member | source | states |
|---|---|---|
| `GoStrings.AtoiDec` | lxd/devices.go:165-169 | a number printed in decimal reads back as itself, and is an error exactly above the largest int |
| `GoStrings.AtoiSigned` | lxd/devices.go:269 | with a sign in front it reads as itself or negated, down to the smallest int |
| `GoStrings.AtoiZeros` | lxd/devices.go:269 | zeros in front do not matter |
| `GoStrings.AtoiNonDigit` | lxd/devices.go:269 | any other character, and the empty text, is an error |
| `GoStrings.SplitJoin` | lxd/devices.go:141 | splitting at a separator undoes joining, if no part contains the separator |
| `GoStrings.JoinSplit` | lxd/devices.go:141 | joining undoes splitting for every string |
| `GoStrings.CutAtFirst` | lxd/main_forkexec.go:82 | splitting in two parts cuts at the first separator, whatever follows |
| `Cpuset.ParseCpuset` | lxd/devices.go:139-173 | the nested loops compute the CPUs of all chunks in order, or fail if any chunk is bad |
| `Cpuset.NumberMeans` | lxd/devices.go:163-170 | a text without comma and dash is one number or an error |
| `Cpuset.DashMeans` | lxd/devices.go:143-162 | a text with a dash is every number from the one before the first dash to the one behind it, in order, or an error |
| `Cpuset.CommaMeans` | lxd/devices.go:141-142 | what is before a comma and what is behind it are read one after the other, and both must read |
| `Cpuset.AppendChunk` | lxd/devices.go:143-170 | one chunk appends a number or an inclusive range, nothing else |
| `Cpuset.NoNegativeCpus` | lxd/devices.go:139-173 | no parsed list contains a negative number or one above the largest int |
| `Cpuset.PrintParse` | lxd/devices.go:224-251 | a non-empty list printed with commas and parsed again is unchanged; the empty one does not parse |
| `Cpuset.UsableCpus` | lxd/devices.go:199-251 | filter, join, write and parse again gives exactly effective minus isolated CPUs in order, and fails exactly if a list does not parse or nothing is left |
| `Cpuset.UsableExactly` | lxd/devices.go:199-251 | there are usable CPUs exactly if both lists parse and the first has a member that is not in the second |
| `Cpuset.UsableMeans` | lxd/devices.go:224-243 | place by place: the usable CPUs are the members of the first list that are not in the second, in order |
| `Greedy.RunPredicted` | lxd/devices.go:332-349 | after any greedy run the number of CPUs below load h is a function of the start loads and the limits alone, ties and choices do not matter |
| `Greedy.PredictPermuted` | lxd/devices.go:332-349 | that function does not depend on the order of the limits |
| `Greedy.Confluence` | lxd/devices.go:327-349 | two runs from the same multiset of loads with the same multiset of limits end in the same multiset of loads, for any starting loads |
| `Greedy.GreedyIsOptimal` | lxd/devices.go:332-349 | at every level the load above it is at most that of any other assignment of the same numbers of CPUs, in any order |
| `Greedy.NoWorseBusiest` | lxd/devices.go:332-349 | whatever cap the other assignment respects, the greedy one respects |
| `Greedy.ChoiceIsCheapest` | lxd/devices.go:333-348 | the CPUs chosen for one container have the least total load among all choices of that size |
| `Greedy.GapKept` | lxd/devices.go:332-349 | a run never pushes the gap between the busiest and the idlest CPU above the larger of its old value and 1 |
| `Greedy.BusiestIsCeiling` | lxd/devices.go:332-349 | from zero loads all counters are placements / n rounded down or up, and the busiest is exactly the ceiling |
| `Greedy.RunExists` | lxd/devices.go:332-349 | a greedy run exists for every list of limits |
| `Balance.UnlimitedContainer` | lxd/devices.go:258-275 | an unset limit means every usable CPU, pinned, unless there is one usable CPU, whose number reads as a count |
| `Balance.SortContainers` | lxd/devices.go:253-293 | integers are counts, anything else a cpuset; both maps hold exactly what the containers ask for; fails exactly if some cpuset does not parse |
| `Balance.SortByCount` | lxd/devices.go:46-48 | the list of CPUs is reordered by load, ties in any order |
| `Balance.Cpu.constructor` | lxd/devices.go:297-307 | a CPU starts with counter 0 |
| `Balance.NewUsage` | lxd/devices.go:297-307 | one counter object per usable CPU, all 0 |
| `Balance.CountOne` | lxd/devices.go:316-323 | entering a CPU in a list and bumping its counter keeps counters equal to numbers of entries |
| `Balance.PlacePinned` | lxd/devices.go:309-325 | in any order of the map, each pinned container is listed for each CPU as often as it asked, and counters agree with the lists |
| `Balance.TakeFront` | lxd/devices.go:334-348 | the countdown loop takes the first min(limit, n) CPUs, all of them if the limit is negative, and bumps exactly these |
| `Balance.PlaceContainer` | lxd/devices.go:333-348 | one container gets that many different CPUs, least loaded ones, each bumped by one; other lists stay |
| `Balance.PlaceBalanced` | lxd/devices.go:332-349 | in any order of the map, the containers are placed one after the other by greedy choices on top of the pinned loads |
| `Balance.Rebalance` | lxd/devices.go:253-349 | every counter equals the entries for its CPU over all lists; balanced containers have min(limit, n) different CPUs, pinned ones what they asked for; the loads are those of a greedy run |
| `Balance.DeviceTaskBalance` | lxd/devices.go:175-349 | from the kernel's CPU lists to the pinning lists: every container has what its limit asks for; nothing is balanced exactly if a list or a limit does not parse or no CPU is left |
| `Balance.OutcomeServes` | lxd/devices.go:253-349 | field by field: a running container whose limit is a number has that many different usable CPUs, or all; one whose limit is a cpuset has exactly its usable members, as often as named; any other has none |
| `Balance.CountedLimit` | lxd/devices.go:260-273 | a limit printed as the number k gives min(k, n) different usable CPUs |
| `Balance.TraceIsRun` | lxd/devices.go:332-349 | placements made object by object are a greedy run on the sequence of counters |
| `Balance.OutcomesAgree` | lxd/devices.go:253-349 | two rebalancings of the same containers leave the same multiset of counters, whatever the map orders and sort ties |
| `Balance.OutcomeIsOptimal` | lxd/devices.go:253-349 | on top of the pinned containers, no other assignment of as many CPUs is better balanced or has a less busy busiest CPU |
| `Balance.OutcomeWithoutPinned` | lxd/devices.go:327-349 | with nothing pinned the busiest counter is exactly the ceiling of placements / n and the idlest the floor |
| `Idmap.FindOffset` | lxd/container_lxc.go:725-768 | the loop computes the first fit; its second branch is dead |
| `Idmap.FitIsFree` | lxd/container_lxc.go:725-768 | the range found lies in the region and shares no id with any entry |
| `Idmap.FitIsFirst` | lxd/container_lxc.go:725-768 | no run of size + 1 free ids starts below the offset, and failure means there is none |
| `Idmap.FitSucceeds` | lxd/container_lxc.go:725-768 | allocation succeeds if and only if a run of size + 1 ids is free, or the ids before the first entry suffice |
| `Idmap.EmptyRangeBreaksAllocation` | lxd/container_lxc.go:727-757 | behind an entry of size 0 the first fit falls back onto a range in use, for every size that fits |
| `Idmap.EmptyRangeBreaksRun` | lxd/container_lxc.go:619-768 | the run from no containers at all with sizes n, 0, n: the last container is given ids of the first |
| `Idmap.KeepsApartExactly` | lxd/container_lxc.go:619-768 | every run with sizes from a set keeps all ranges free of shared ids if and only if 0 is not in the set or no positive size in it fits |
| `Idmap.ContainerDb.Gather` | lxd/container_lxc.go:679-723 | the entries are those of the other isolated unprivileged containers, each once; an unreadable size is an error |
| `Idmap.SortByBase` | lxd/container_lxc.go:725 | the entries sorted by host id, ties in any order |
| `Idmap.ContainerDb.FindIdmap` | lxd/container_lxc.go:619-768 | the offset is the first fit among the ranges in use, the container's own old range ignored |
| `Idmap.ContainerDb.Configure` | lxd/container_lxc.go:342-362 | allocate and record as one step; a failed allocation changes nothing |
| `Idmap.ContainerDb.Delete` | lxd/container_lxc.go:2475-2520 | the container and its range are gone, the others stay |
| `Idmap.StepKeepsValid` | lxd/container_lxc.go:619-768 | one allocate, reallocate or delete keeps all ranges pairwise disjoint and in the region |
| `Idmap.RunKeepsValid` | lxd/container_lxc.go:619-768 | so does every run of such steps |
| `Idmap.RunKeepsIdsApart` | lxd/container_lxc.go:619-768 | field by field: after any run from no containers with sizes of at least 1, two isolated unprivileged containers, of default size or not, share no id, and all ids lie behind the first 65536 |
| `Idmap.AllocationIsFirstFit` | lxd/container_lxc.go:679-768 | in a valid state, if size + 1 ids free of the others' ranges start at y, the allocation succeeds at or below y |
| `Idmap.ConfigureIsFirstFit` | lxd/container_lxc.go:619-768 | field by field: in such a run a configured container is recorded with an offset no later than any n + 1 ids free of all others |
| `Machines.LaterByRuns` | lxd/migrate.go:293-789 | the notion of reachability used for the machines below: a state is in every set that no step leaves, if and only if some run of steps leads to it |
| `Migration.StepKeepsInv` | lxd/migrate.go:293-789 | every step of either party, the dump, the goroutine, the client or the network keeps the protocol invariant |
| `Migration.ReachableInv` | lxd/migrate.go:293-789 | the invariant holds in every reachable state |
| `Migration.NeverBothRunning` | lxd/migrate.go:396-545 | in all runs source copy and sink copy are never running together, if and only if the action script cannot fail on its own |
| `Migration.BothRunningExactly` | lxd/migrate.go:396-545 | in each reachable state both run exactly if a broken script keeps the source running while the sink runs |
| `Migration.BothRun` | lxd/main_migratedumpsuccess.go:10-36 | a run with a script that breaks, in which both copies run |
| `Migration.TornCopy` | lxd/main_migratedumpsuccess.go:10-36 | a run with a script that breaks, in which the sink succeeds with memory of one version and files of another |
| `Migration.KilledOnlyAfterRestore` | lxd/migrate.go:411-503 | the source is released for killing only after the sink restored, finished and reported success |
| `Migration.ResumedOnlyAfterFailure` | lxd/migrate.go:411-503 | a source resumed after its state was sent means the sink never restored and never will, or the script broke |
| `Migration.SinkResult` | lxd/migrate.go:606-789 | the sink returns an error exactly when it has deleted its container, and success only after the source wrote files and images in full and the sink received and restored them |
| `Migration.CopyIsUpToDate` | lxd/migrate.go:502-545 | a copy that succeeded has the source's last version exactly if the source has not run since the dump, which only a broken script makes it do |
| `Migration.SourceSuccess` | lxd/migrate.go:526-545 | the source returns success only if the sink did, with a complete copy |
| `Migration.VerdictDecides` | lxd/migrate.go:526-545 | a verdict received is the truth about the sink, and the source returns accordingly, at once or after the dump |
| `Migration.VerdictIsTaken` | lxd/migrate.go:526-531 | a waiting source takes the first message as the verdict |
| `Migration.FailureEndsSink` | lxd/migrate.go:766-776 | a message from the source ends the sink in its select, which deletes its container |
| `Migration.SourceReportsFailure` | lxd/migrate.go:346-389 | a source that fails before it waits for the verdict says so and closes the connection |
| `Migration.SourceGivesUpSilently` | lxd/migrate.go:296-311 | before its header it says nothing |
| `Migration.SinkReportsFailure` | lxd/migrate.go:616-664 | a sink that fails before it receives deletes its container, says so and closes the connection |
| `Migration.SinkFailsSilently` | lxd/migrate.go:606-613 | without a control connection it deletes its container and says nothing |
| `Migration.SinkReportsResult` | lxd/migrate.go:759-765 | the result of the restore goroutine is reported and returned |
| `Migration.FailureResumesSource` | lxd/migrate.go:533-545 | after a failure verdict the source can run on and return its error |
| `Migration.SourceMayFail` | lxd/migrate.go:293-524 | every call of the source may fail, with or without its report getting through |
| `Migration.SinkMayFail` | lxd/migrate.go:606-667 | so may every call of the sink before its goroutine |
| `Migration.RestoreMayFail` | lxd/migrate.go:692-752 | and of its goroutine |
| `Migration.ConnectionMayBreak` | lxd/migrate.go:134-148 | the connection may break at any time, and whoever waits for a message can notice |
| `Migration.FailureInsteadOfHeader` | lxd/migrate.go:363-367 | a verdict where a header is expected is a failure |
| `Migration.WrittenMayArrive` | lxd/migrate.go:692-741 | what was written in full can be received in full |
| `Migration.MoveKeepsACopy` | lxc/move.go:85-96 | a move deletes the source only when a complete copy is left, an up-to-date one unless the script broke |
| `Migration.MoveLosesNothing` | lxc/move.go:85-96 | in all runs a deleted source leaves an up-to-date copy, if and only if the action script cannot fail on its own |
| `Migration.SameTransport` | lxd/migrate.go:346-376 | after the headers both sides use the same transport: the common one, else rsync |
| `Migration.NoUnexpectedMessage` | lxd/migrate.go:117-148 | no party receives a header where it expects a verdict, and the sink never hears success from the source |
| `Migration.AbandonedForGood` | lxd/migrate.go:527-531 | once the source gave up waiting for the verdict, its container stays frozen in every continuation, if and only if the script cannot fail on its own |
| `Migration.AbandonedReachable` | lxd/migrate.go:527-531 | a run that ends like that |
| `Migration.SourceEndings` | lxd/migrate.go:396-545 | how a source with action script ends: killed exactly on success with an unbroken script, frozen exactly when abandoned, else running |
| `Migration.PlainDumpNeverSucceeds` | lxd/migrate.go:497-545 | without the action script a live source never returns success, and once it has the verdict it waits for ever |
| `Migration.PlainDumpHangs` | lxd/migrate.go:497-545 | a run that ends like that, with an up-to-date copy running at the sink |
| `Migration.LiveMoveCanSucceed` | lxd/migrate.go:293-789 | a run exists in which a live move completes: source killed and deleted, sink running |
| `Migration.StoppedMoveCanSucceed` | lxd/migrate.go:293-789 | a move of a stopped container completes too: both sides succeed, the copy is up to date, the source deleted |
| `Operations.ClosedMeansReadonly` | lxd/operations.go:66-221 | in every interleaving, whatever is one step: closed if and only if readonly, only readonly operations leave the registry, and none is pending or running |
| `Operations.StatusTells` | lxd/operations.go:104-221 | in every run Success means that the hook returned no error, Failure that it did, Cancelled that Cancel was called; uncancelled, an operation ends with what its hook returned |
| `Operations.HookDecides` | lxd/operations.go:114-134 | the hook's return writes the status it stands for |
| `Operations.CancelFailed` | lxd/operations.go:201-206 | a run in which a canceler fails: the operation stays in Cancelling, and cannot be cancelled any more |
| `Operations.UpdateUninterrupted` | lxd/operations.go:328-373 | the check and the write of an update, if nothing comes between, do what the single step does |
| `Operations.CancelUninterrupted` | lxd/operations.go:154-168 | so do the check and the write of Cancel |
| `Operations.CancelDoneUninterrupted` | lxd/operations.go:66-102 | and those of done() at the end of a Cancel |
| `Operations.RunnerDoneUninterrupted` | lxd/operations.go:66-102 | and at the end of the hook |
| `Operations.ReadonlyMeansFinal` | lxd/operations.go:66-221 | in all runs readonly implies Success, Failure or Cancelled, if and only if the checks are single steps with their writes or no two calls race |
| `Operations.ClosedOnceExactly` | lxd/operations.go:66-102 | in all runs the channel is closed at most once, if and only if the same holds |
| `Operations.DoubleClose` | lxd/operations.go:66-221 | otherwise a run closes it twice: two Cancels of a token, or a Cancel and the end of the hook |
| `Operations.LateCancelling` | lxd/operations.go:154-168 | otherwise a run writes Cancelling into a closed operation |
| `Operations.DataFrozenExactly` | lxd/operations.go:328-373 | in all runs metadata and resources never change once readonly, if and only if nothing closes the operation, or the checks of the update calls are single steps with their writes and no run hook writes into the metadata itself |
| `Operations.ResourcesFrozenExactly` | lxd/operations.go:328-347 | the same for resources alone, which no hook writes into |
| `Operations.LateProgress` | lxd/daemon_images.go:305-319 | a run in which a progress callback changes the metadata of a closed operation, whatever is one step |
| `Operations.LateUpdate` | lxd/operations.go:328-347 | a run that changes the resources of a closed operation, if the checks are steps of their own |
| `Operations.StatusSettlesExactly` | lxd/operations.go:104-221 | the status of a readonly operation can still change if and only if the hook is running or a cancel that would write something else is pending |
| `Operations.AlwaysSettledExactly` | lxd/operations.go:104-221 | in all runs a readonly operation is settled, if and only if its hook cannot be cancelled and no two Cancels of a token race |
| `Operations.ClosedInHook` | lxd/operations.go:154-221 | a run that closes the operation while its hook is at work |
| `Operations.Operation.constructor` | lxd/operations.go:375-428 | a new operation is pending, open and registered |
| `Operations.Operation.CallDone` | lxd/operations.go:66-102 | readonly, closed once more and a timer armed, or nothing if readonly already |
| `Operations.Operation.Run` | lxd/operations.go:104-152 | starts exactly a pending operation |
| `Operations.Operation.HookReturned` | lxd/operations.go:114-134 | the status is Success if the hook returned no error and Failure if it did, before done() |
| `Operations.Operation.StartCancel` | lxd/operations.go:154-172 | accepted exactly for a running operation that may be cancelled |
| `Operations.Operation.SetCancelled` | lxd/operations.go:176-221 | the pending cancel writes its status |
| `Operations.Operation.FinishRunner` | lxd/operations.go:122-136 | the goroutine's call of done(), after the status |
| `Operations.Operation.FinishCancel` | lxd/operations.go:185-214 | the cancel's call of done(), after the status |
| `Operations.Operation.UpdateMetadata` | lxd/operations.go:349-373 | accepted exactly while pending or running and not readonly, and changes only the metadata |
| `Operations.Operation.UpdateResources` | lxd/operations.go:328-347 | the same for the resources |
| `Operations.Operation.ReportProgress` | lxd/daemon_images.go:305-319 | metadata that is there is changed in any case, a first map only while updates are accepted |
| `Operations.Operation.TimerFires` | lxd/operations.go:84-101 | the operation leaves the registry |
| `ContainerLock.ClosedAtMostOnce` | lxd/container_lxc.go:81-104 | in every interleaving no channel is closed twice and a registered operation is open |
| `ContainerLock.FirstDoneWins` | lxd/container_lxc.go:81-104 | the error is that of the first Done that takes effect, in every continuation |
| `ContainerLock.OutForGood` | lxd/container_lxc.go:81-104 | an operation that is not registered never changes again, closed or not |
| `ContainerLock.LostExactlyWhenDisplaced` | lxd/container_lxc.go:452-471 | some operation can never be completed if and only if a creation registered over another in the unlocked gap |
| `ContainerLock.OperationsGetLost` | lxd/container_lxc.go:452-471 | a run of two creations in which one operation is lost |
| `ContainerLock.SoloRunsLoseNothing` | lxd/container_lxc.go:452-471 | with at most one creation per container in the gap no operation is lost |
| `ContainerLock.OperationTable.Get` | lxd/container_lxc.go:473-488 | finds the open operation of the container, or says that there is none or another action |
| `ContainerLock.OperationTable.CheckFree` | lxd/container_lxc.go:452-460 | shares a reusable operation, refuses if busy, else enters the gap |
| `ContainerLock.OperationTable.RegisterNew` | lxd/container_lxc.go:461-470 | registers the new operation whatever is registered by then |
| `ContainerLock.OperationTable.Done` | lxd/container_lxc.go:81-104 | closes and unregisters exactly the operation that is registered, once |
| `ForkExec.BuildArgs` | lxd/container_lxc.go:4248-4263 | the argument list: sections env and cmd, each variable once, in any order of the map |
| `ForkExec.SplitLine` | shared/cmd/parser.go:107-130 | the first word that starts with a dash ends subcommand and parameters; if it is `--`, everything behind it is extra |
| `ForkExec.ParseSections` | lxd/main_forkexec.go:65-92 | the loop computes the fold of its branches, or fails on an unknown section |
| `ForkExec.EmptySections` | lxd/main_forkexec.go:69-80 | a separator in front, or a section without arguments, makes no difference |
| `ForkExec.UnknownSection` | lxd/main_forkexec.go:69-92 | a section that is neither env nor cmd is an error once it has an argument |
| `ForkExec.SectionsRoundTrip` | lxd/main_forkexec.go:65-92 | the parser returns the environment list and an arbitrary command exactly if no environment string is `--` |
| `ForkExec.ExecRoundTrip` | lxd/main_forkexec.go:65-92 | for every environment and command the parser undoes the builder; reading the variables back gives the map exactly if no name contains `=` |
| `ForkExec.Exec` | lxd/container_lxc.go:4248-4263 | builder, command line split and parser together give back subcommand, parameters, command and assignments, and HOME as working directory |
| `TarExport.StoreFile` | lxd/container_lxc.go:4464-4550 | a multiply linked regular file becomes a link if its inode is in the table, else it is stored and entered; no file is dropped |
| `TarExport.Export` | lxd/container_lxc.go:3569-3585 | the entry of each path is a link to the first path of its inode, or its own content |
| `TarExport.LinksPointBack` | lxd/container_lxc.go:3409-3427 | a link names an earlier entry that holds the content of the same inode number, and each number's content is stored once |
| `TarExport.RoundTrip` | lxd/container_lxc.go:4464-4550 | extraction succeeds and gives back exactly the paths; every regular path its content and any other its kind, exactly if tracked paths with one inode number have one content; hard links exactly if no such number is used on two devices |
| `TarExport.SubvolumesClash` | lxd/container_lxc.go:4514-4523 | two tracked files of two subvolumes with one inode number: the second is exported as a link and its content lost |
| `TarExport.ExportAndExtract` | lxd/container_lxc.go:3371-3595 | the walk followed by extraction restores contents and hard links together, if and only if no inode number of a tracked path is used on two devices |
| `Processes.ListingRead` | lxd/container_lxc.go:4445-4458 | the kernel's list of children, as it prints it, reads back as the same numbers |
| `Processes.Walk` | lxd/container_lxc.go:4441-4461 | the loop over the growing list ends, and the list holds exactly the subtree of the root, each process once, whoever lists the root itself |
| `Processes.WalkShown` | lxd/container_lxc.go:4441-4461 | walking what the kernel prints: the list holds the root, the children of everybody in it and nobody else, each once |
| `Processes.AnyRoot` | lxd/container_lxc.go:4441 | in a process table where nobody is listed twice and parents are older than children, every process can be the root of the walk |
| `Processes.WalkStep` | lxd/container_lxc.go:4442-4459 | appending the children of one process keeps the list free of repetitions and inside the subtree |
| `Processes.SubtreeListed` | lxd/container_lxc.go:4441-4461 | when the walk is over no descendant is missing |
| `Processes.ProcessesState` | lxd/container_lxc.go:4424-4462 | 0 when stopped; the kernel's counter if there is one, -1 if it does not parse; without a counter, the size of the subtree |
| `Snapshot.ScanItoa` | lxd/container_snapshot.go:83-84 | scanning undoes printing for every non-negative int |
| `Snapshot.ScanMeans` | lxd/container_snapshot.go:83-87 | white space, a sign, digits and anything behind them: the number counts; without a digit there is none |
| `Snapshot.NextSnapshot` | lxd/container_snapshot.go:64-94 | the loop computes the wrapping maximum over the numbers read; 0 if the query fails |
| `Snapshot.NextIsAbove` | lxd/container_snapshot.go:88-90 | without the largest int, the next number is above all numbers in use |
| `Snapshot.NextIsLeast` | lxd/container_snapshot.go:75-91 | and the least such: 0 exactly if no number in use is non-negative, else one more than one of them |
| `Snapshot.ChooseName` | lxd/container_snapshot.go:115-123 | the name a request without a name gets; free unless the query fails or some snapshot reads as the largest int |
| `Snapshot.ChosenIsFree` | lxd/container_snapshot.go:115-119 | the chosen name is not in use, whatever other names look like |
| `Snapshot.FreeExactlyWhen` | lxd/container_snapshot.go:67-94 | the exact condition for a free name in every order of the rows |
| `Snapshot.WrapCollides` | lxd/container_snapshot.go:88-90 | snapshots n + 1, the largest int and n: the chosen name is taken |
| `Aliases.SortStrings` | lxc/utils.go:341 | sorted, and the same strings |
| `Aliases.SearchStrings` | lxc/utils.go:373 | binary search finds the least position not below the name |
| `Aliases.FoundExactlyWhenMember` | lxc/utils.go:373-374 | the found position holds the name if and only if the list contains it |
| `Aliases.GetExistingAliases` | lxc/utils.go:369-379 | exactly the existing aliases whose name is requested |
| `Aliases.ImageServer.CreateImageAlias` | lxd/images.go:1094-1121 | fails exactly on a name in use or refused, else adds the alias |
| `Aliases.ImageServer.DeleteImageAlias` | lxd/images.go:1170-1183 | removes one alias, fails if it is missing or stuck |
| `Aliases.EnsureImageAliases` | lxc/utils.go:332-366 | for every name and every combination of failing calls, what it points to afterwards; repetitions allowed, other names unchanged |
| `Aliases.EnsuredExactlyWhen` | lxc/utils.go:332-366 | the table is the old one with all requested names on the fingerprint, if and only if no needed deletion got stuck and no creation was refused |
| `InitApply.Server.Handle` | lxd/profiles.go:57-99 | creating fails on a name in use, updating and deleting on a missing one, and a failure changes nothing |
| `InitApply.InitConfig` | lxd/main_init.go:325-354 | the configuration is replaced and the reverter holds the old one, or nothing changes |
| `InitApply.InitProfile` | lxd/main_init.go:357-392 | created or updated, with the matching reverter, or nothing changes |
| `InitApply.Apply` | lxd/main_init.go:275-311 | succeeds exactly if the server takes every step, and then each profile is as it was named last and the rest as before; otherwise the reverters of the steps taken ran in their order, and the store is as before if no profile is named twice and no reverter is refused |
| `InitApply.Revert` | lxd/main_init.go:314-322 | reverters run in order up to the first that fails |
| `InitApply.ForwardRestoresExactly` | lxd/main_init.go:297-322 | for every store and list of steps, forward order succeeds and restores exactly if none is refused and repeated writes are harmless |
| `InitApply.ForwardOrderIsSafeExactly` | lxd/main_init.go:297-322 | forward order restores every store if and only if the steps write to different things |
| `InitApply.ForwardOrderFails` | lxd/main_init.go:297-322 | with a repeated profile there is a store on which all reverters succeed and the result is another store |
| `InitApply.BackwardRestores` | lxd/main_init.go:314-322 | the opposite order restores every store |

## Left out

- CPU balancer: CPUs are named by integers where the program uses their decimal strings; the final sorting and joining of each list and the cgroup writes (lxd/devices.go:351-363) are not modelled; the bounds of a range are read as 64-bit integers but the loop counter of a range ending at the largest int, which wraps around in Go, does not wrap here.
- CPU balancer: sort.Sort is modelled by its contract, an arbitrary order of equal elements, not by its algorithm.
- Balance.Rebalance: containers are numbered by their position in the list of the database, because only their identity matters.
- Id ranges: a manually set security.idmap.base, raw.idmap additions, and 64-bit overflow of host ids are not modelled.
- Idmap.ContainerDb.Configure: allocation and recording are one step, although the lock is released before the base is recorded, so two allocations in that window are not covered.
- Migration: a message with an unexpected tag counts as a decoding error; a transfer may fail at any time, and succeeds at the receiver only after the sender wrote all of it; a failed restore leaves nothing running; CRIU kills or resumes the container as the exit code of the action script tells it; deleting the sink's container succeeds and does not stop one that CRIU restored; reporting, deleting and returning are one step of the sink. Nobody starts the container of a migration that is not live, and what the sink's container does after the restore has no version.
- Migration: liveness is proved only where a run gets stuck for good, not that every run ends.
- Operations: one operation at a time, its registry entry being a flag; the connect hooks, events, rendering and time-outs of waiting calls are not modelled. Run is called once, by the creator of the operation (lxd/response.go:193, lxd/migrate.go:478), so its check and its write are one step. The two checks of a guard, of status and readonly or of status and canceler, are one step. The class has the methods for checks that are single steps with their writes.
- Operations.Operation.Run: starting the hook's goroutine, the hook's own doings and a failing canceler are steps of the machine without a method.
- ContainerLock: the reset channel and the 30 seconds are not modelled; the timer is one more caller of Done that may come at any time.
- ForkExec.Exec: the parameters before the first `--` must not look like flags, as the program builds them; forkexec's later use of the parsed values is not modelled.
- TarExport: owners, modes, times, sizes, extended attributes and the generated metadata file are not modelled, nor paths that end the export with an error, such as sockets. Files come with distinct relative paths in one walk, and the file system does not change meanwhile.
- Processes.Walk: /proc is read as one fixed state, in which no descendant of init is listed twice and init is not a descendant of itself; "subtree" is meant by the listings read, and task/<pid>/children lists only the children of the main thread; processes that start or end during the walk are not modelled.
- Snapshot: names are character sequences; the database compares a prefix by characters where the program counts bytes.
- Aliases: the calls that fail are fixed per name for one request; the server's other changes between the calls are not modelled.
- InitApply: updating the server is all or nothing, integer configuration values are already strings, reading calls do not fail, and the hidden trust password, which the server does not return, is not part of the store.
- The client's event listener and operation wrapper, the HTTP and SQL layers, shared/idmap, storage, networks and the command line front end.
