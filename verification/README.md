# Shuru, verified

A Dafny model of the stateful protocols of shuru, a sandbox that runs a guest virtual
machine: what leaves the guest and how fast, the registry of guest processes, guest
services, the disk seal, port watches, the framing between host and guest, file copies and
listings, the TLS host name, a proxied connection as a byte stream, stdin over JSON-RPC, and
the editor of default apps.

`dafny verify dfyconfig.toml` checks everything. Each module is one component:

| module | component |
|---|---|
| `Pacing`, `Egress` | token buckets; bytes held back to keep a pace |
| `Gate`, `EgressLog`, `Admission` | which SYNs open, the record of connections, both together |
| `Children` | the registry of guest processes against the kernel's process table |
| `Services` | guest services: restarts, readiness, shutdown |
| `Disk` | the seal of the root disk under a lease |
| `Ports` | the scanner of listening ports and its watches |
| `Frame` | frames: printer, blocking reader, incremental parser |
| `Sni` | the host name of a ClientHello |
| `TreeCopy`, `Listing` | recursive copies and directory listings in the guest |
| `Stream` | one proxied connection: paced reads, writes against permits |
| `Outflow` | all connections of a guest on one egress pace |
| `Stdio` | stdin, kill and events of one process spawned over JSON-RPC |
| `Defaults`, `Entries` | the default apps of `mimeapps.list`; the reader and the editor told by the lines alone |

Time is a real or a number of milliseconds that callers pass in; bucket levels are reals. A
region of code that holds a lock, or one atomic operation, is one step; a run is a sequence
of steps of all threads in any order, and the main results hold for every run. Objects the
source updates in place are classes whose methods are tied to a function or a relation on
values, and what is promised is proved of those. The answers of the kernel, of the other end
of a connection and of system calls are parameters of the steps, so they range over
everything.

Where a law the code is meant to keep does not hold of it, the model keeps the code, a lemma
shows an input that breaks the law, and another says exactly when it holds:

- Setting a default twice is setting it once exactly when no line that is kept ends in a
  stray carriage return (`SetAgainExactlyWhenNoStrayCr`, `StrayCrIsLostLater`).
- The host name is found exactly when the first segment holds the five bytes of the record
  header (`FirstSegmentDecides`, `ShortFirstSegmentHidesTheHost`).
- Input for a process is answered exactly when it was not queued before a connection that
  failed to open (`UnansweredExactlyWhenDropped`, `QueuedInputCanGoUnanswered`).
- A service that waits to restart has exactly one restart to come unless one came due after a
  shutdown had begun, and that is exactly when it has none (`RestartIsPending`,
  `ShutdownDropsARestart`).
- A readiness watcher that makes a service ready has watched its present run exactly when the
  exit of the run it watched is not recorded yet (`ReadyIsForTheWatchedRun`); once it is, the
  verdict can fall on a later run (`StaleVerdictFallsOnALaterRun`).
- A shutdown asks a process whose exit is not recorded to stop exactly unless its service was
  given up as not ready, or stopped before (`LeftRunningExactlyWhenGivenUp`,
  `GivenUpServiceIsLeftRunning`).
- A ports watch shows the right owner of a port exactly unless the port changed hands between two
  scans that both found it (`OwnerIsRightExactlyUnlessItChanged`, `OwnerCanBeStale`).
- Frames written to a raw descriptor arrive exactly when no call wrote less than its frame: a
  short write is not repeated (`FramesArriveExactlyWhenWritesAreWhole`,
  `ShortWriteLosesTheFrame`).
- What is typed at a terminal reaches its program whole exactly when the terminal had room at
  every write (`TypedWhole`, `ShortRoomLosesInput`).
- A copy keeps to places of its own, all below the destination, exactly when none of them holds
  a link, or for a file a device or another name of a file, and nothing fails outright
  (`CopyTree`, through `Ends`). Otherwise its writes go where that leads
  (`CopyThroughALink`).
- A copy that nothing stops leaves what lies at or below its destination unread exactly when
  the source is not there itself (`CopyTree`). A directory copied onto itself keeps its shape
  and loses the content of every file (`CopyOntoItself`, `CopyOneFileOntoItself`).

## Model

| member | source | states |
|---|---|---|
| Pacing.TokenBucket.constructor | crates/shuru-proxy/src/egress.rs:383-389 | a bucket starts full |
| Pacing.TokenBucket.Refill | crates/shuru-proxy/src/egress.rs:391-396 | what has come in since the last refill is added, up to the burst |
| Pacing.TokenBucket.Has | crates/shuru-proxy/src/egress.rs:398-400 | whether a whole token is there |
| Pacing.TokenBucket.Take | crates/shuru-proxy/src/egress.rs:402-404 | one token less |
| Pacing.TokenBucket.Owe | crates/shuru-proxy/src/egress.rs:406-413 | takes any amount, into debt if need be, and answers the time until the debt is paid when that passes the slack |
| Pacing.SinceLevel | crates/shuru-proxy/src/egress.rs:391-413 | between two points of a run no more is taken than was there and has come in since, debt included |
| Pacing.SinceDraw | crates/shuru-proxy/src/egress.rs:391-413 | in the window that opens with any draw no more is taken than the burst, what has come in since and the debt left |
| Pacing.SomeWindowIsSaturated | crates/shuru-proxy/src/egress.rs:391-413 | the bound is tight: what a bucket holds is exactly what some window leaves |
| Pacing.WindowBound | crates/shuru-proxy/src/egress.rs:391-404 | a bucket never drawn into debt lets through, in every window of time, at most the burst and the rate times the window |
| Pacing.ShortExactlyWhenOver | crates/shuru-proxy/src/egress.rs:391-404 | a bucket lacks tokens exactly when taking them would put some window over its bound |
| Egress.Egress.constructor | crates/shuru-proxy/src/egress.rs:235-242 | a pace is kept exactly when a rate above zero is given |
| Egress.Egress.Spend | crates/shuru-proxy/src/egress.rs:250-257 | spending draws on the pace, into debt, and answers how long the payload waits |
| Egress.Egress.Sent | crates/shuru-proxy/src/egress.rs:259-261 | the byte counter is 64 bits wide and wraps |
| Egress.ReleasedSinceStart | crates/shuru-proxy/src/stream.rs:54-73 | however late after its spend time plus its answered delay each payload is polled and leaves, the bytes gone by any time T are at most burst + rate times (T - start) + rate times slack, in whatever order they leave |
| Egress.ReleasedInWindow | crates/shuru-proxy/src/stream.rs:54-73 | if each payload leaves at most `late` after it is due, at most rate times the window and `late` together, the slack and one burst or one payload leave in every window of time |
| Egress.HeldExactlyWhenOver | crates/shuru-proxy/src/egress.rs:406-413 | a payload is held back exactly when it ends a window over the pace by more than the slack |
| Egress.HeldNoLongerThanNeeded | crates/shuru-proxy/src/egress.rs:406-413 | a hold ends at the moment its window is used up |
| EgressLog.EgressLog.constructor | crates/shuru-proxy/src/egress.rs:77-88 | a log starts with nothing open and nothing counted |
| EgressLog.EgressLog.Open | crates/shuru-proxy/src/egress.rs:110-128 | a connection is entered under the next id |
| EgressLog.EgressLog.Ended | crates/shuru-proxy/src/egress.rs:130-135 | the record is taken out under the lock, once, and its line is written after |
| EgressLog.EgressLog.Refused | crates/shuru-proxy/src/egress.rs:137-139 | a refused SYN is counted under its port |
| EgressLog.EgressLog.Held | crates/shuru-proxy/src/egress.rs:141-143 | a SYN held back is counted |
| EgressLog.EgressLog.TakeReport | crates/shuru-proxy/src/egress.rs:145-151 | the counts are taken and reset together; no line when there are none |
| EgressLog.EgressLog.TakeAll | crates/shuru-proxy/src/egress.rs:96-108 | closing takes every open connection and the counts, each once |
| EgressLog.StepMoves | crates/shuru-proxy/src/egress.rs:96-151 | every step moves an id between table, flight and lines, and every count with it, and loses neither |
| EgressLog.EveryRunAccounts | crates/shuru-proxy/src/egress.rs:96-151 | after every run each id is in exactly one place and the counts are those of the steps |
| EgressLog.WrittenExactlyOnce | crates/shuru-proxy/src/egress.rs:211-219 | in every interleaving an opened connection has exactly one line once it has ended or a close ran, and none before |
| EgressLog.WrittenAtMostOnce | crates/shuru-proxy/src/egress.rs:130-135 | and never more than one, whatever is in flight |
| EgressLog.TurnedAwayIsConserved | crates/shuru-proxy/src/egress.rs:137-151 | counts over all lines, with those in flight and pending, are the SYNs held and refused per port |
| EgressLog.LinesAreTruthful | crates/shuru-proxy/src/egress.rs:157-192 | a line names the destination its connection was opened to and the way it ended |
| Gate.Gate.constructor | crates/shuru-proxy/src/egress.rs:313-324 | a gate starts with full buckets, no memory, and its first report an interval away |
| Gate.Gate.Decide | crates/shuru-proxy/src/egress.rs:351-373 | a denied port is refused and spends nothing; the rest is decided by two buckets and the memory |
| Gate.Gate.Admit | crates/shuru-proxy/src/egress.rs:326-336 | the verdict of the decision, and a SYN turned away counted in the record |
| Gate.Gate.Report | crates/shuru-proxy/src/egress.rs:340-349 | the counts are taken once the interval has passed, and then the next interval starts |
| Gate.DecisionDraws | crates/shuru-proxy/src/egress.rs:351-373 | a decision takes a token or none from each bucket, and none when it makes a SYN wait |
| Gate.BucketFollowsDraws | crates/shuru-proxy/src/egress.rs:351-373 | over every run of SYNs each bucket is where its draws put it and never in debt |
| Gate.OpensAreBounded | crates/shuru-proxy/src/egress.rs:351-404 | in every window of every run at most burst + rate times the window connections open |
| Gate.MemoryIsHistory | crates/shuru-proxy/src/egress.rs:351-373 | every entry the bounded memory holds is a connection that did open then |
| Gate.FreshIsCharged | crates/shuru-proxy/src/egress.rs:351-373 | a destination not opened in the 600 s before always costs a destinations token, whatever was evicted |
| Gate.FreshDestinationsAreBounded | crates/shuru-proxy/src/egress.rs:351-404 | in every window opens of destinations fresh by the whole history obey the destinations rate |
| Gate.MemoryIsTheMostRecent | crates/shuru-proxy/src/egress.rs:351-373 | in every run the memory is the most recently used of the destinations, as many as it keeps, the latest first, each at its latest open |
| Gate.MemoryIsComplete | crates/shuru-proxy/src/egress.rs:351-373 | in every run a destination is remembered exactly when it opened and fewer others than the memory keeps were opened or found again since it last was, and then at its latest open |
| Gate.ChargedExactlyWhenFresh | crates/shuru-proxy/src/egress.rs:351-373 | an open costs a destinations token exactly when its destination is fresh by the whole history, or as many others were used since as the memory keeps |
| Gate.HeldBackExactlyWhenOver | crates/shuru-proxy/src/egress.rs:351-373 | a SYN is refused exactly when its port is denied and waits exactly when opening it would put some window over the connections rate, or over the destinations rate when its destination is new by the history |
| Admission.VerdictsAreOnRecord | crates/shuru-proxy/src/egress.rs:326-336 | for a gate with or without a pace, however its SYNs interleave with the rest of the log, the counts on record are its Wait and Refuse verdicts |
| Admission.ReportsAreSpaced | crates/shuru-proxy/src/egress.rs:340-349 | two reports are at least the interval apart |
| Admission.ReportsExactlyWhenDue | crates/shuru-proxy/src/egress.rs:340-349 | a report goes out exactly when the interval has passed since the start and since every report before |
| Children.Kernel.WaitPid | crates/shuru-guest/src/children.rs:146-170 | `waitpid` on one pid reaps it when it is a child that has exited |
| Children.Kernel.WaitAny | crates/shuru-guest/src/children.rs:172-190 | `waitpid` on any child reaps one that has exited, or there is none |
| Children.Watched.constructor | crates/shuru-guest/src/children.rs:18-22 | a registry starts empty |
| Children.Watched.Insert | crates/shuru-guest/src/children.rs:24-34 | a registration gets the next serial; the registry is then what the machine's Insert step makes it |
| Children.Watched.MaySignal | crates/shuru-guest/src/children.rs:135-144 | a signal is sent only while the registration with that serial stands, as the machine's step of taking the lock for it decides |
| Children.Watched.ReapWatched | crates/shuru-guest/src/children.rs:146-170 | reaps exactly the registered children that exited; each is unregistered and owed its one call with its own status; registry, process table and calls are what a run of the machine's reaping steps under one lock makes them |
| Children.Watched.ReapAll | crates/shuru-guest/src/children.rs:172-190 | reaps every exited child and leaves none; the registered ones are owed their calls; all of it a run of the machine's reaping steps under one lock |
| Children.KernelKept | crates/shuru-guest/src/children.rs:95-190 | pids are reused, processes are told apart, and the history of exits agrees with the table |
| Children.EntryKept | crates/shuru-guest/src/children.rs:95-190 | what an entry says of its process survives every other step |
| Children.LockKept | crates/shuru-guest/src/children.rs:95-133 | a pid just started is not registered until it is inserted, whatever happens in between |
| Children.CallsKept | crates/shuru-guest/src/children.rs:146-190 | a call is added exactly when its entry is removed |
| Children.EveryRunKeeps | crates/shuru-guest/src/children.rs:95-190 | all of this holds after every run of starts, exits, reaps, pid reuse and signals |
| Children.EntriesNameTheirProcess | crates/shuru-guest/src/children.rs:24-34 | every registered pid and serial names the very process it was made for, which is not reaped |
| Children.InsertOverwritesNothing | crates/shuru-guest/src/children.rs:24-34 | a registration never overwrites another |
| Children.UnwatchedChildIsGone | crates/shuru-guest/src/children.rs:117-133 | a child started without a pidfd is gone when the start fails, and nothing is registered for it |
| Children.SignalsReachTheirOwn | crates/shuru-guest/src/children.rs:135-144 | a signal reaches the process its watch was made for or nothing |
| Children.SignalsReachWhileRegistered | crates/shuru-guest/src/children.rs:135-142 | a signal does reach its process as long as the registration stands |
| Children.CallsCarryTheirOwnStatus | crates/shuru-guest/src/children.rs:146-190 | a callback runs at most once, after its own process was reaped, with that process's status |
| Children.EveryRegistrationIsAccountedFor | crates/shuru-guest/src/children.rs:95-190 | a registration stands, or its one call is owed or made |
| Services.DelaysDouble | crates/shuru-guest/src/services.rs:216-224 | restart delays double from a second to a minute and start over after a healthy run |
| Services.Supervisor.constructor | crates/shuru-guest/src/services.rs:83-95 | a registry starts without services |
| Services.Supervisor.Set | crates/shuru-guest/src/services.rs:326-343 | a state is set only where it may follow the one before |
| Services.Supervisor.Record | crates/shuru-guest/src/services.rs:345-380 | an exit leads to a restart with its delay, to a failure, or is only noted |
| Services.Supervisor.Restart | crates/shuru-guest/src/services.rs:391-428 | a restart spawns only a service that waits for it, and not once a shutdown began |
| Services.Supervisor.StartAll | crates/shuru-guest/src/services.rs:493-563 | services start once; a second call is refused |
| Services.SpawnedCounts | crates/shuru-guest/src/services.rs:556-562 | the number answered is the number of processes started |
| Services.RegistryKept | crates/shuru-guest/src/services.rs:326-428 | every step keeps each service, its timer and its delay in agreement |
| Services.RunsKept | crates/shuru-guest/src/services.rs:345-428 | a live run belongs to the service that spawned it and to no other |
| Services.WatchersKept | crates/shuru-guest/src/services.rs:449-489 | a watcher decides only what its service's policy allows |
| Services.EveryRunKeeps | crates/shuru-guest/src/services.rs:326-563 | and so after every run of the machine |
| Services.StatesFitThePolicy | crates/shuru-guest/src/services.rs:326-428 | in every run, a service that always restarts is never failed, one that does not is never restarting, one that waits does so for a second to a minute, and none is stopped but by a shutdown |
| Services.FailureTellsTheStatus | crates/shuru-guest/src/services.rs:345-380 | in every run the status a service failed with is the one its exit was recorded with |
| Services.ExitIsTold | crates/shuru-guest/src/services.rs:345-380 | a recorded exit has a service that restarts wait, and any other fail with that status |
| Services.RestartIsPending | crates/shuru-guest/src/services.rs:382-428 | in every run a service that waits to restart has exactly one restart to come, except that it has none exactly when one came due after a shutdown had begun; no other service has any |
| Services.ShutdownDropsARestart | crates/shuru-guest/src/services.rs:390-394 | a run that ends with a service waiting for a restart that will not come |
| Services.NoRestartBeforeItsDelay | crates/shuru-guest/src/services.rs:345-428 | in every run no restart comes before the delay it was to wait has passed, counted from the step that had it wait |
| Services.RestartIsDueAfterItsDelay | crates/shuru-guest/src/services.rs:382-387 | in every run a restart to come is due exactly its delay after the step that had the service wait |
| Services.StartedWhenSpawned | crates/shuru-guest/src/services.rs:400-411 | in every run a service that is starting or ready has noted when its present run was spawned |
| Services.DelayFollowsTheRuns | crates/shuru-guest/src/services.rs:345-428 | in every run the delay of a service is what the lengths of its runs so far make it, each from the step that spawned the run to the step that recorded its exit |
| Services.DelayDoublesInEveryRun | crates/shuru-guest/src/services.rs:216-225 | and so doubles with each run since the latest healthy one, from a second to a minute |
| Services.StoppedIsTerminal | crates/shuru-guest/src/services.rs:326-343 | a stopped service stays stopped |
| Services.NothingIsSpawnedAfterShutdown | crates/shuru-guest/src/services.rs:391-428 | once a shutdown has begun no process is spawned |
| Services.LeftRunningExactlyWhenGivenUp | crates/shuru-guest/src/services.rs:693-701 | in every run, a process whose exit is not recorded is no target of a shutdown exactly when its service was given up as not ready or is stopped already |
| Services.GivenUpServiceIsLeftRunning | crates/shuru-guest/src/services.rs:476-484 | a run in which a process that was too slow to get ready outlives the shutdown |
| Services.WatcherJudgesItsOwnRun | crates/shuru-guest/src/services.rs:449-489 | while the run a watcher looks at has not exited it is its service's present run |
| Services.WatcherKeepsWatching | crates/shuru-guest/src/services.rs:449-489 | a watcher keeps watching until its run exits or it has set what it decided |
| Services.ClockIsNow | crates/shuru-guest/src/services.rs:345-428 | time moves to that of each step that looks at the clock and never back |
| Services.ReadyIsForTheWatchedRun | crates/shuru-guest/src/services.rs:449-489 | in every run, a watcher that makes a service ready has watched its present run exactly when the exit of the run it watched is not recorded yet |
| Services.StaleVerdictFallsOnALaterRun | crates/shuru-guest/src/services.rs:449-489 | a run in which a watcher's late verdict makes ready a run nobody looked at |
| Services.WaitReady | crates/shuru-guest/src/services.rs:650-691 | a command waits until the registry lets it go or says why not |
| Services.AnyHolds | crates/shuru-guest/src/services.rs:635-668 | whether some service holds commands back |
| Services.FindFailed | crates/shuru-guest/src/services.rs:670-675 | the first failed service that commands wait for |
| Services.GateOpensAfterTheTimeout | crates/shuru-guest/src/services.rs:513-525 | in every run the services are those of the step that started them, each with its gate open its ready timeout after |
| Services.EverReadyIsHistory | crates/shuru-guest/src/services.rs:326-343 | in every run a service counts as having been ready exactly when it was |
| Services.GoesExactlyWhenReady | crates/shuru-guest/src/services.rs:650-691 | a command goes ahead exactly when services have begun, no shutdown has, every one-shot service is ready and every restarting one was ready at some time or has had its ready timeout since the start; it fails, naming the first failed one-shot service, exactly when there is one and every other is let through |
| Services.Retain | crates/shuru-guest/src/services.rs:713-734 | targets that meet a condition leave the list in order, and the rest stay in order |
| Services.Pass | crates/shuru-guest/src/services.rs:712-747 | a pass takes out what has exited, then what is past its timeout |
| Services.Wait | crates/shuru-guest/src/services.rs:706-749 | pass by pass every target leaves by its own exit or by its timeout, and exactly the late ones are killed |
| Services.Stop | crates/shuru-guest/src/services.rs:693-763 | the `stopped` and `killed` lists are ordered and disjoint and name every target once, in `stopped` exactly when it exited in time; every target got its request to stop, in order, then each late one a kill of its group and one of itself, and nothing else was sent |
| Services.StoppedOrKilled | crates/shuru-guest/src/services.rs:750-763 | sorting the names of a split of the targets keeps them disjoint and complete |
| Services.Supervisor.BeginShutdown | crates/shuru-guest/src/services.rs:693-703 | marks the shutdown and takes every service that runs for a target |
| Services.TargetsRun | crates/shuru-guest/src/services.rs:693-703 | the targets are the services that are starting or ready with a process, each once, with its run and its timeout |
| Services.Supervisor.SetStopped | crates/shuru-guest/src/services.rs:752-754 | each named service is set to stopped |
| Services.Supervisor.ShutDown | crates/shuru-guest/src/services.rs:693-763 | a whole shutdown: every service that runs is stopped, named once and signalled as its exit and timeout have it, and no other service changes |
| Disk.Disk.constructor | crates/shuru-guest/src/disk.rs:17-26 | a disk starts thawed and without a lease |
| Disk.Disk.Seal | crates/shuru-guest/src/disk.rs:116-163 | a seal with a lease in range freezes an idle root; any failure leaves it thawed or powers the guest off |
| Disk.Disk.SealRoot | crates/shuru-guest/src/disk.rs:124-160 | a seal ends at its first failure |
| Disk.Disk.Thaw | crates/shuru-guest/src/disk.rs:165-182 | a thaw must name the lease; it answers whether the lease had run out |
| Disk.Disk.TrimRoot | crates/shuru-guest/src/disk.rs:105-114 | no trim while sealed |
| Disk.Disk.WatchdogPass | crates/shuru-guest/src/disk.rs:184-200 | an overdue lease is thawed and marked expired |
| Disk.FrozenExactlyWhileLeased | crates/shuru-guest/src/disk.rs:116-200 | after every run the root is frozen exactly while an unexpired lease is held, and the busy flag agrees |
| Disk.LeaseHasASeal | crates/shuru-guest/src/disk.rs:116-182 | a lease that stands is that of the latest successful seal |
| Disk.ThawedProvesUnbrokenFreeze | crates/shuru-guest/src/disk.rs:165-182 | an answer Thawed proves the root stayed frozen without a break since that lease's seal |
| Disk.ThawedIsForThatSeal | crates/shuru-guest/src/disk.rs:165-182 | with distinct ids it is the very seal the thaw names |
| Disk.StaleThawReleasesNothing | crates/shuru-guest/src/disk.rs:165-182 | a thaw for an earlier seal changes nothing |
| Disk.ThawedExactlyWhen | crates/shuru-guest/src/disk.rs:165-182 | exactly when a thaw is answered Thawed |
| Disk.ExpiredExactlyWhen | crates/shuru-guest/src/disk.rs:165-182 | exactly when a thaw is answered Expired, what it leaves, and why any other fails |
| Disk.SealedExactlyWhen | crates/shuru-guest/src/disk.rs:116-163 | exactly when a seal is answered Sealed; the root is then frozen under that lease |
| Disk.FailedSealUndoes | crates/shuru-guest/src/disk.rs:116-163 | a seal that fails leaves the root as it was and says why; it powers the guest off exactly when it froze a root it could neither verify nor thaw |
| Disk.TrimmedExactlyWhen | crates/shuru-guest/src/disk.rs:105-114 | a trim is carried out exactly when the root is not frozen |
| Disk.WatchdogThawsExactlyOverdue | crates/shuru-guest/src/disk.rs:184-200 | the watchdog thaws exactly the overdue |
| Ports.Scanner.constructor | crates/shuru-guest/src/ports.rs:30-52 | no watches, nothing known |
| Ports.Scanner.Register | crates/shuru-guest/src/ports.rs:92-110 | a watch gets a fresh id and asks for a scan; the 65th is refused |
| Ports.Scanner.Drop | crates/shuru-guest/src/ports.rs:85-90 | a watch leaves the table before its receiving end goes |
| Ports.Scanner.Receive | crates/shuru-guest/src/ports.rs:122-142 | events are received in the order they were sent |
| Ports.Scanner.Begin | crates/shuru-guest/src/ports.rs:157-173 | the scanner waits exactly when nobody is interested, or nothing is pending or due; without interest it forgets what it knew |
| Ports.Scanner.End | crates/shuru-guest/src/ports.rs:175-200 | the scan is compared with the last one and every watch is told |
| Ports.Scanner.TellAll | crates/shuru-guest/src/ports.rs:186-199 | new watches get the list, the others the changes; those that refuse an event leave |
| Ports.Offer | crates/shuru-guest/src/ports.rs:204-211 | events are sent one by one until the channel is full or gone |
| Ports.Enumerate | crates/shuru-guest/src/ports.rs:213-234 | the ports of some keys, each once |
| Ports.ChangesFit | crates/shuru-guest/src/ports.rs:219-234 | however many of the changes have come, each fits what the client shows |
| Ports.ChangesLead | crates/shuru-guest/src/ports.rs:219-234 | all the changes lead from the last scan to this one |
| Ports.OfferedIsPrefix | crates/shuru-guest/src/ports.rs:204-211 | a channel takes a prefix of the events and stops short only when it is full |
| Ports.TellingOne | crates/shuru-guest/src/ports.rs:186-199 | a watch that takes all its news is told this scan |
| Ports.StepKeeps | crates/shuru-guest/src/ports.rs:85-202 | every step keeps table, streams and watches in agreement |
| Ports.ListedWatchesShowTheLatestScan | crates/shuru-guest/src/ports.rs:152-202 | at every moment of every run, replaying what a listed watch was sent gives exactly the keys of the latest scan |
| Ports.EveryWatchShowsTheScan | crates/shuru-guest/src/ports.rs:186-200 | after every scan every watch left is listed and shows that scan, also one that came during it |
| Ports.EveryWatchShowsTheOwners | crates/shuru-guest/src/ports.rs:176-200 | after every scan every watch left shows this scan's owner for a port new to it, and for any other the owner it showed before |
| Ports.OwnerIsRightExactlyUnlessItChanged | crates/shuru-guest/src/ports.rs:176-237 | a watch that showed the right owner goes on doing so through a scan exactly unless the port was there before and has changed hands |
| Ports.OwnerCanBeStale | crates/shuru-guest/src/ports.rs:219-237 | a run in which a port changes hands between two scans and its watch goes on showing the first owner |
| Ports.NewsIsTold | crates/shuru-guest/src/ports.rs:219-237 | the changes are exactly the ports that came, with their new owner, and those that went, with their last; the list is every port with its owner |
| Ports.DroppedExactlyWhenItMisses | crates/shuru-guest/src/ports.rs:186-211 | a scan drops a watch exactly when it misses an event it is due |
| Ports.WhatIsReceivedFits | crates/shuru-guest/src/ports.rs:112-143 | what any client received is one list and then changes that fit: nothing opens twice or closes unopened |
| Ports.NewWatchesAreSeenTo | crates/shuru-guest/src/ports.rs:92-173 | a watch without its list keeps the scanner awake; the scanner never meets a dropped receiver |
| Ports.RegisteredExactlyWhenRoom | crates/shuru-guest/src/ports.rs:92-105 | a watch is taken on exactly when there are fewer than 64, under an id never used before |
| Ports.WatchStays | crates/shuru-guest/src/ports.rs:85-90 | a watch leaves by its own dropping or in a scan, and in no other way |
| Ports.NothingForADropped | crates/shuru-guest/src/ports.rs:85-90 | nothing is sent to a receiver that was dropped |
| Ports.ReceivingTakes | crates/shuru-guest/src/ports.rs:122-128 | a receiver gets what was sent, in order |
| Ports.ScansAsAsked | crates/shuru-guest/src/ports.rs:152-173 | one scan runs at a time, and with ports known one begins early exactly for a watch that came since the last began |
| Frame.FromBe32RoundTrip | crates/shuru-proto/src/frame.rs:101-101 | four bytes read as a length are written back the same |
| Frame.Be32RoundTrip | crates/shuru-proto/src/frame.rs:85-86 | a 32-bit length is written and read back |
| Frame.ParsedExactlyWhenEncoded | crates/shuru-proto/src/frame.rs:127-141 | whatever is parsed is the encoding of what it is parsed to, and nothing but a complete encoding is parsed |
| Frame.DrainedInTwo | crates/shuru-guest/src/main.rs:1752-1780 | parsing what has arrived so far changes nothing about what is parsed in the end |
| Frame.Terminal.Feed | crates/shuru-guest/src/main.rs:1750-1780 | a chunk is appended and every complete frame handled and dropped; of a payload the program gets as much as the terminal has room for |
| Frame.TypedWhole | crates/shuru-guest/src/main.rs:1757-1763 | nothing typed is lost exactly when the terminal had room at every write |
| Frame.ShortRoomLosesInput | crates/shuru-guest/src/main.rs:1757-1763 | a payload longer than the room is cut off |
| Frame.ResizeRoundTrip | crates/shuru-proto/src/frame.rs:143-159 | a window size is read back as it was sent, and only its own payload reads as it |
| Frame.EffectsAre | crates/shuru-guest/src/main.rs:1756-1777 | input goes to the program, a window size sets the window, and nothing else does anything |
| Frame.CuttingChangesNothing | crates/shuru-guest/src/main.rs:1750-1780 | however a stream is cut up, well formed or not, the frames and the bytes left are those of the whole |
| Frame.FramesSurviveAnyChunking | crates/shuru-proto/src/frame.rs:82-141 | for every list of frames within the limit and every chunking of their encodings the loop yields those frames and leaves nothing |
| Frame.DrainedIsEncoded | crates/shuru-proto/src/frame.rs:127-141 | what is drained from any bytes is what they encode, and the rest is left as it was |
| Frame.FramesArriveExactlyWhenWritesAreWhole | crates/shuru-guest/src/main.rs:427-450 | frames written to a descriptor arrive exactly when no call wrote less than its frame |
| Frame.ShortWriteLosesTheFrame | crates/shuru-guest/src/main.rs:427-450 | a frame whose last byte is not written does not arrive |
| Frame.Source.ReadExact | crates/shuru-proto/src/frame.rs:94-118 | all of the bytes asked for, or the stream is used up |
| Frame.Source.ReadFrame | crates/shuru-proto/src/frame.rs:94-118 | a frame, a clean end, a length out of range, or a frame cut short |
| Frame.ParsersAgree | crates/shuru-proto/src/frame.rs:94-141 | on every stream the blocking reader and the incremental parser see the same frames, and the reader ends cleanly, by a length out of range or cut short as the bytes left to the parser say |
| Frame.BadLengthStalls | crates/shuru-proto/src/frame.rs:127-141 | where the reader fails for a length out of range, the incremental parser yields no frame ever after, whatever chunks come |
| Frame.FramesSurviveReading | crates/shuru-proto/src/frame.rs:82-118 | repeated reads of the encodings give the frames back and then a clean end |
| Sni.ExtractSni | crates/shuru-proxy/src/proxy.rs:488-559 | no byte out of range is read on any input; the answer is that of a recursive reader of the format |
| Sni.ScanExtensions | crates/shuru-proxy/src/proxy.rs:537-558 | the walk over the extensions finds the first server_name |
| Sni.HelloIsRead | crates/shuru-proxy/src/proxy.rs:488-559 | for every well-formed ClientHello in one record (sections 4.1.2 and 5.1 of RFC 8446) with a server_name (section 3 of RFC 6066), whatever follows, its host is found |
| Sni.HelloWithoutNameIsRead | crates/shuru-proxy/src/proxy.rs:488-559 | and none when it asks for none |
| Sni.CutHelloIsNotRead | crates/shuru-proxy/src/proxy.rs:488-500 | a hello cut anywhere gives no host |
| Sni.ValidExactlyWhenText | crates/shuru-proxy/src/proxy.rs:548-548 | a name is taken for text exactly when it is Unicode scalar values written in UTF-8 |
| Sni.Reassemble | crates/shuru-proxy/src/proxy.rs:255-272 | segments are taken as long as the record is not complete and its header is there |
| Sni.HostOf | crates/shuru-proxy/src/proxy.rs:255-274 | the host of what was reassembled |
| Sni.FirstSegmentDecides | crates/shuru-proxy/src/proxy.rs:255-274 | for every segmentation the host is found exactly when the first segment has at least five bytes |
| Sni.TakesNoMoreThanNeeded | crates/shuru-proxy/src/proxy.rs:255-272 | no more segments are taken than the record needs |
| Sni.ShortFirstSegmentHidesTheHost | crates/shuru-proxy/src/proxy.rs:255-274 | a valid hello cut after its fourth byte, for which no host is found |
| TreeCopy.FileSystem.MakeDirs | crates/shuru-guest/src/files.rs:285-287 | makes a directory and what is missing above it, exactly when nothing else stands in the way; otherwise changes nothing |
| TreeCopy.FileSystem.ReadDir | crates/shuru-guest/src/files.rs:297-299 | lists every child once |
| TreeCopy.FileSystem.CopyOne | crates/shuru-guest/src/files.rs:321-351 | a file or a link is copied exactly when what stands at its place may be replaced, fails exactly at a device or where a directory stands, and goes on elsewhere exactly where a file's place leads away; a file copied onto itself is emptied |
| TreeCopy.FileSystem.CopyThrough | crates/shuru-guest/src/files.rs:337-338 | a file copied to a link that leads to a file overwrites that file |
| TreeCopy.FileSystem.SetMode | crates/shuru-guest/src/files.rs:312-313 | sets the mode of a directory |
| TreeCopy.FileSystem.Enter | crates/shuru-guest/src/files.rs:293-296 | the place of a directory is made |
| TreeCopy.FileSystem.VisitKids | crates/shuru-guest/src/files.rs:297-309 | files and links are copied, directories other than the destination are left for later |
| TreeCopy.FileSystem.Visit | crates/shuru-guest/src/files.rs:293-310 | one directory off the stack is done, and its mode noted |
| TreeCopy.FileSystem.WalkTree | crates/shuru-guest/src/files.rs:291-311 | wherever the destination lies the walk ends, and has read only where it may; unless the source lies strictly below the destination it has copied the whole tree outside the destination, or ends at a place that fails outright or one that leads away, and says which |
| TreeCopy.FileSystem.SetModes | crates/shuru-guest/src/files.rs:312-318 | the modes go last |
| TreeCopy.FileSystem.CopyTree | crates/shuru-guest/src/files.rs:268-319 | for every source and destination the copy ends, and up to where it would go on through a link or into a file with another name, only what lies below the destination changes; when nothing stops it, nothing at or below the destination is read exactly when the source is not there; unless the source lies strictly below the destination it is made whole exactly when every place is clear, and then count and tree match the source outside the destination and nothing else changed; when no place fails outright it goes on elsewhere exactly when some place leads away |
| TreeCopy.Expand | crates/shuru-guest/src/files.rs:297-306 | listing a directory leaves exactly its children to come |
| TreeCopy.BareDestinationHoldsTheTree | crates/shuru-guest/src/files.rs:281-319 | a bare destination then holds exactly the tree that was copied |
| TreeCopy.CopyingBackChangesNothing | crates/shuru-guest/src/files.rs:281-319 | copying the copy back changes nothing |
| TreeCopy.CopyOntoItself | crates/shuru-guest/src/files.rs:268-351 | a tree copied onto itself keeps its paths, links and modes, and every file in it is empty |
| TreeCopy.OntoItselfIsClear | crates/shuru-guest/src/files.rs:321-351 | a copy onto itself fails only at a device, and the model stops only at a file with another hard link |
| TreeCopy.CopyOneFileOntoItself | crates/shuru-guest/src/files.rs:268-351 | a directory with one file, copied onto itself: two things copied, no error, and the file is empty |
| TreeCopy.CopyThroughALink | crates/shuru-guest/src/files.rs:337-338 | a directory with one file, copied over one with a link of that name: the copy goes through the link, and the content lands in the file outside the destination that it leads to |
| TreeCopy.DoneFits | crates/shuru-guest/src/files.rs:291-311 | what a walk has done stays within a bound fixed before it, even where it reads what it has written |
| Listing.Listing.constructor | crates/shuru-guest/src/files.rs:158-163 | a listing starts empty |
| Listing.Listing.Push | crates/shuru-guest/src/files.rs:217-234 | an entry that would pass the limit sends what is held first, or fails an unstreamed listing |
| Listing.Listing.Finish | crates/shuru-guest/src/files.rs:236-242 | what is held goes out last, with nothing to follow |
| Listing.List | crates/shuru-guest/src/files.rs:131-190 | an unstreamed listing sends one frame with everything, or nothing exactly when several entries pass the limit |
| Listing.SizeOfFrame | crates/shuru-guest/src/files.rs:19-23 | the length of a frame's JSON |
| Listing.StreamHoldsTheEntries | crates/shuru-guest/src/files.rs:210-243 | the frames of a streamed listing hold the entries in order, none lost or repeated |
| Listing.MoreOnAllButTheLast | crates/shuru-guest/src/files.rs:224-241 | more is set on all frames but the last |
| Listing.FramesAreFilled | crates/shuru-guest/src/files.rs:218-230 | an entry is put off only when it does not fit |
| Listing.FramesFitExactlyWhenEntriesDo | crates/shuru-guest/src/files.rs:210-243 | every frame fits the frame limit exactly when each entry would fit by itself |
| Listing.WholeListingFits | crates/shuru-guest/src/files.rs:22-23 | a listing in one frame fits unless it is one entry that does not |
| Stream.GuestRx.Release | crates/shuru-proxy/src/stream.rs:75-85 | a payload let go is tallied, counted and given back to the stack once |
| Stream.GuestRx.PollRecv | crates/shuru-proxy/src/stream.rs:54-73 | a payload is spent once when taken and kept until its time; a due one is let go at the first poll |
| Stream.ChannelReader.Prepend | crates/shuru-proxy/src/stream.rs:171-181 | data goes in front of what is unread |
| Stream.ChannelReader.PollRead | crates/shuru-proxy/src/stream.rs:184-218 | a read takes what is buffered, else the next payload, and keeps what does not fit |
| Stream.ReadTakesTheFront | crates/shuru-proxy/src/stream.rs:184-218 | a read gives the front of all that remains, and what remains after it is the rest |
| Stream.EmptyReadIsTheEnd | crates/shuru-proxy/src/stream.rs:203-216 | reading nothing into room means all was read and the guest is done; the stack hands on no empty payload |
| Stream.EveryByteOnceInOrder | crates/shuru-proxy/src/stream.rs:54-218 | in every run what is delivered is a prefix of what was given, nothing lost or repeated, and each payload is spent, tallied and returned once, in order |
| Stream.PromisedInOrder | crates/shuru-proxy/src/stream.rs:170-218 | what is given is the prepended bytes and then the payloads |
| Stream.EndExactlyWhenDone | crates/shuru-proxy/src/stream.rs:184-218 | in every run of payloads as the stack hands them on, none empty, a read gives nothing exactly once everything was delivered and the guest is done |
| Stream.PayloadsLeaveWhenDue | crates/shuru-proxy/src/stream.rs:54-85 | in every run no payload leaves before its spend time plus its answered delay, one answered none leaves at its own poll, and one that is due at the first poll that finds nothing buffered |
| Outflow.StepKeeps | crates/shuru-proxy/src/stream.rs:54-85 | every poll of every connection keeps the level, the draws and the departures in agreement |
| Outflow.ThePaceIsKept | crates/shuru-proxy/src/stream.rs:54-85 | in every run of any number of connections on one pace, however they are polled, the bytes they have let go by any time are at most the burst, the rate times the time and the slack |
| Stream.ChannelWriter.Enqueue | crates/shuru-proxy/src/stream.rs:126-137 | accepted bytes are queued and counted |
| Stream.ChannelWriter.PollWrite | crates/shuru-proxy/src/stream.rs:220-249 | a poll keeps its pending acquire, takes no more than it got permits for, and gives back what a shorter retry leaves |
| Stream.ChannelWriter.Moved | crates/shuru-proxy/src/stack.rs:480-487 | bytes moved on give their permits back, to the waiting acquire first |
| Stream.ChannelWriter.Await | crates/shuru-proxy/src/stream.rs:115-120 | an acquire gets every permit there is and is given back, exactly until it has what it wants |
| Stream.EveryPermitIsAccountedFor | crates/shuru-proxy/src/stream.rs:114-249 | in every run of polls, retries, sends that wait, sends given up and closes, permits taken are the bytes queued and those of the one pending acquire, and accepted bytes reach the stack in order |
| Stream.WritesAreTakenOnceTheQueueDrains | crates/shuru-proxy/src/stream.rs:114-249 | a write waits only while bytes are queued, and otherwise takes a first piece of what it is offered; a waiting send has all its permits once nothing is queued |
| Stream.ChannelWriter.SendChunk | crates/shuru-proxy/src/stream.rs:115-122 | however the stack moves bytes on meanwhile, a chunk is queued exactly when the free permits and those given back cover it, and no later; else it is refused by a close or still waits, and nothing of it is queued |
| Stream.ChannelWriter.Send | crates/shuru-proxy/src/stream.rs:114-124 | the data goes out in order, in chunks that each can get their permits, whole or up to the chunk at which the connection closed or the wait goes on, and no permit is lost |
| Stdio.Session.Answer | crates/shuru-cli/src/stdio.rs:321-329 | a request with an id is answered, a notification is not |
| Stdio.Session.CheckInput | crates/shuru-cli/src/stdio.rs:747-760 | input that would pass the backlog limit is turned away |
| Stdio.Session.AddInput | crates/shuru-cli/src/stdio.rs:761-761 | the bytes are counted before they are queued |
| Stdio.Session.SendInput | crates/shuru-cli/src/stdio.rs:762-767 | input nobody will read is taken back and answered |
| Stdio.Session.SwapKilled | crates/shuru-cli/src/stdio.rs:716-718 | only the first kill counts |
| Stdio.Session.SendKill | crates/shuru-cli/src/stdio.rs:718-718 | a kill is queued behind what is there |
| Stdio.Session.TakeMessage | crates/shuru-cli/src/stdio.rs:611-643 | messages are taken in order; a kill is passed on unless stdin is closed |
| Stdio.Session.SubtractInput | crates/shuru-cli/src/stdio.rs:614-614 | input leaves the backlog when it is taken |
| Stdio.Session.WriteChunks | crates/shuru-cli/src/stdio.rs:620-628 | chunks are written in order until one fails |
| Stdio.Session.HandleInput | crates/shuru-cli/src/stdio.rs:613-635 | input after a kill or a failed write is refused; otherwise it is written and answered |
| Stdio.Session.ReadFrame | crates/shuru-cli/src/stdio.rs:648-694 | output becomes events, and an exit, an error or the end becomes the exit event |
| Stdio.StepKeeps | crates/shuru-cli/src/stdio.rs:579-768 | every atomic step of the three threads keeps all of what follows |
| Stdio.BacklogIsBounded | crates/shuru-cli/src/stdio.rs:747-767 | the counter is at least the stdin queued and never over the limit |
| Stdio.AtMostOneReply | crates/shuru-cli/src/stdio.rs:321-329 | no request is answered twice and no notification at all (section 4.1 of the JSON-RPC 2.0 specification) |
| Stdio.AnsweredExactlyWhenSettled | crates/shuru-cli/src/stdio.rs:725-768 | a request that asks is answered exactly when it is no longer on its way or dropped |
| Stdio.ExactlyOneReplyOnceDrained | crates/shuru-cli/src/stdio.rs:608-646 | once the connection opened and the input thread drained, every request that asks has its reply |
| Stdio.UnansweredExactlyWhenDropped | crates/shuru-cli/src/stdio.rs:579-600 | when it did not open, exactly the requests queued before are unanswered |
| Stdio.QueuedInputCanGoUnanswered | crates/shuru-cli/src/stdio.rs:581-595 | a run in which queued input is never answered |
| Stdio.StdinArrivesInOrder | crates/shuru-cli/src/stdio.rs:611-635 | the stdin on the wire is the data of the requests answered Ok, in order and unaltered, then at most a part of one that failed |
| Stdio.KillComesLast | crates/shuru-cli/src/stdio.rs:636-642 | a kill frame is written at most once, no stdin follows it, and none is written when stdin waited ahead of it |
| Stdio.ExitComesLast | crates/shuru-cli/src/stdio.rs:648-695 | there is at most one exit event, it comes last, and a process that ended has one |
| Stdio.EventsTellTheFrames | crates/shuru-cli/src/stdio.rs:648-695 | in every run the output events are the output frames in order, each on its stream with its bytes, and the exit code is that of the exit frame, 0 when it does not parse and 1 when the process ends otherwise |
| Stdio.RepliesTellWhy | crates/shuru-cli/src/stdio.rs:611-635 | in every run each reply tells what became of its request: rejected, over the backlog, too late, killed, stdin closed by an earlier failure, its own write failed, or written |
| Stdio.ClosedExactlyWhen | crates/shuru-cli/src/stdio.rs:611-642 | stdin is closed exactly once a write failed or a kill was met |
| Stdio.KillIsPassedOnExactlyWhen | crates/shuru-cli/src/stdio.rs:636-642 | the guest is told to kill exactly when a kill that could be written was met and stdin was not closed before |
| Stdio.KillIsHeeded | crates/shuru-cli/src/stdio.rs:636-642 | a kill that was asked for is on its way or was met as long as the input thread listens, and once the queue is drained it takes no more |
| Stdio.InputThreadListens | crates/shuru-cli/src/stdio.rs:602-647 | the input thread listens while the connection opens and until its queue is drained and the process let go, and runs whenever the connection is open |
| Stdio.ForgottenGetsNoMore | crates/shuru-cli/src/stdio.rs:561-569 | a process the main loop has let go of gets no more requests |
| Defaults.ReadDefault | crates/shuru-desktop/src/defaults.rs:160-181 | answers as the reader on the lines; what that is, ReadsTheFirstEntry tells |
| Defaults.WriteDefault | crates/shuru-desktop/src/defaults.rs:185-217 | one pass over the lines replaces the entry, or adds it where the section ends or the file does |
| Defaults.SetDefaultThenRead | crates/shuru-desktop/src/defaults.rs:160-217 | for every text, with repeated sections and keys, the type set reads as the app and every other type as before |
| Defaults.SetAgainExactlyWhenNoStrayCr | crates/shuru-desktop/src/defaults.rs:185-217 | setting twice is setting once exactly when no line kept ends in a stray carriage return |
| Defaults.StrayCrIsLostLater | crates/shuru-desktop/src/defaults.rs:185-217 | a text on which it is not |
| Defaults.EditKeepsTheRest | crates/shuru-desktop/src/defaults.rs:185-217 | every line that does not decide the type stays, in order |
| Entries.ReadsTheFirstEntry | crates/shuru-desktop/src/defaults.rs:160-181 | for every text the default of a type is an app exactly when the first line of a default section that names the type gives that app as the first of its values that is not blank |
| Entries.FirstValueExactly | crates/shuru-desktop/src/defaults.rs:171-175 | the value read is what follows blank pieces each ended by a semicolon, trimmed |
| Entries.LinesAre | crates/shuru-desktop/src/defaults.rs:160-190 | lines end at a newline and lose one carriage return before it, and nothing else is lost |
| Entries.TrimIs | crates/shuru-desktop/src/defaults.rs:160-190 | trimming takes the blanks off both ends and nothing else |
| Entries.SpacesAreWhiteSpace | crates/shuru-desktop/src/defaults.rs:160-190 | the blanks are the 25 code points with the Unicode property White_Space |
| Entries.EntryIsWrittenOnce | crates/shuru-desktop/src/defaults.rs:185-217 | for every text the entry goes over the first line of the first default section that names the type, else where that section ends, else at the end with the section; every line before it stays, and every line after it but those that name the type in a default section |
| Defaults.SetBrowser | crates/shuru-desktop/src/defaults.rs:71-81 | all four types then read as the browser and no other type changes |

## Left out

- TreeCopy.FileSystem.CopyTree: when the source lies strictly below the destination, what the copy leaves there; it may read what it has itself written, and then depends on the order of listings.
- TreeCopy.FileSystem.CopyOne: owners, times and the byte total of a copy, and failures of single system calls; at a link, a device or a file with another hard link the model says that the code goes on there and stops; where it leads, and whether that succeeds, is not modelled beyond `CopyThrough`.
- TreeCopy.FileSystem.ReadDir: a listing is taken at once; the code lists a directory as it goes, while a link copied onto itself is removed from it and made again.
- TreeCopy.FileSystem.MakeDirs: paths are taken as resolved, so a link above the destination stops the model.
- Ports.Scanner.End: the events sent to exec sessions, the order of ports in a list, and the parsing of the system's socket tables.
- Listing.List: the walk that finds the entries, and failures to write to the host.
- Stream.GuestRx.PollRecv: the shared egress pace is the parameter that answers a spend; `Egress` has its law.
- Stream.ChannelWriter.PollWrite: wakers, and permits while the stack is shutting the connection down.
- Stream.EndExactlyWhenDone: that payloads are not empty is a premise; the stack sends one only when it has read a byte (crates/shuru-proxy/src/stack.rs:563-573).
- Stdio.Session.CheckInput: JSON and base64 decoding; a request that fails to decode or names no process is the `Reject` step.
- Stdio.KillComesLast: the kill on its own connection after the grace period; the frame it backs up may not be written at all when stdin waits ahead of it.
- Services.WatcherJudgesItsOwnRun: readiness commands, log files, environments and the parsing of service files.
- Services.Stop: when processes exit is a parameter of the passes; a service whose run is not a target is not waited for.
- Services.Supervisor.ShutDown: other threads at work on the registry meanwhile; they are steps of the machine.
- Children.SignalsReachTheirOwn: signals to a whole process group, and pidfds beyond the failure to get one.
- Disk.Disk.Seal: what the freeze, trim and check of the superblock do; each is a parameter that succeeds or fails.
- Sni.HelloIsRead: hellos split over several TLS records, which the code does not read either.
- Gate.Gate.Decide: rounding of floating point, and a clock that runs backwards.
- EgressLog.LinesAreTruthful: the text of a line, its times, byte counts and host name.
- Frame.Source.ReadFrame: errors of the underlying stream other than its end.
- Out of scope: hypervisor wrappers, mounts, cgroups and jails, TLS interception and secrets, DNS, the packet stack, exec sessions, the desktop's windows and drawing, command-line merging, downloads, checkpoints and recipes.
