# WinCtl: a verified model

WinCtl restarts or locks a Windows machine on a random schedule or after a one-minute delay, shows
what is pending on a password-protected dashboard, keeps its schedules across restarts of the
program, and upgrades itself. This project models the parts of it where several activities meet
over time, and proves what they keep over every run.

**The scheduler as a step machine** (`Basics`, `Slots`, `Machine`). Four slots (restart or lock,
schedule or one-shot) hold a cancel handle, a generation counter and every worker goroutine ever
spawned. A worker is a program counter over its code, cut where other goroutines can interleave:
each section under the scheduler's mutex, each section under the lock of the published status, the
disk write of the change callback, and entry to and exit from `select` are one step each. API
calls, workers, clock ticks, interval updates, the removal of the callback and the stop of the
scheduler interleave in any order; a step that is not enabled does nothing, so every sequence of
labels is a run.

- `Safety`, `Firings`, `Timing`, `Draining`: what holds under arbitrary interleaving.
- `PublishedStatus`, `StatusExactly`: when the dashboard tells the truth, and that the condition
  asked of requests is exact. `Steering` drives the runs that show it.
- `IntentOnDisk`, `DiskSettles`, `BootCycles`: which intents reach the disk, exactly when the disk
  ends up equal to the flags, and what survives shutdown and boot.
- `Scenarios`: concrete runs in which the promises fail, or which show why a hypothesis is needed.
- `StateObject`, `SchedulerObject`: the same operations as classes with mutable fields; the
  contract of each method names the step of the machine it performs.

**The gate** (`LoginTracker`, `FailureWindow`, `Sessions`, `Gate`, `GateHistory`, `GateOverlap`). The failure
tracker that compacts its slice in place, the session store with lazy expiry and the middleware
that combines them are classes over arrays and maps. Each is proved equal to a function on values,
and these functions are then related to the plain history of requests, first one request at a
time and then with the locked sections of any number of requests interleaved.

**Supporting protocols.** `Configuration` and `ConfigHandlers` follow an update from its validation
through save and reload to the scheduler's ranges, and `WholeProgram` puts configuration calls and
scheduler into one run; `UpgradeOwnership` the single-upgrade flag under
any number of concurrent requests; `UpgradeScript` the upgrade as a transaction over images;
`Versions` and `Updater` the version order and the cached check result.

Conventions of the model:

- Times are integers in nanoseconds and the clock never goes back. In `select`, a context that is
  already done wins against a timer that has not expired; if both are ready, either branch is taken.
- Random draws, generated tokens, responses of the releases API, service commands and the outcome of
  every file write are parameters, so that each result holds for all of them. A failed write may
  leave anything in the file; a torn state file loads as the zero intent.
- Executing a slot's action is an entry in the slot's log. The logged minimum is the one of the
  range the worker read when it drew the wait.
- Base64 decoding is a parameter; the results about loaded configurations assume only that the
  default password decodes to itself.
- Where the code and its documents disagree the code is followed. The project's own README.md
  (line 24) says that a lockout needs a service restart, but the code ends it after fifteen
  minutes (server/auth.go:60, 130-134). docs/plan.md (section 2.6) says that state is not persisted, but
  it is (state/persist.go:25-52).

Some promises one might expect are false of the code. For each the model has a run in which it
fails and the exact condition under which it holds:

- A published flag can stay wrong for good. A one-shot requested while its cancelled predecessor is
  about to clear the flag waits unseen (`StatusCanLie`); a schedule started and stopped twice, with
  its first goroutine delayed, stays on and comes back at the next boot
  (`StoppedScheduleComesBack`). It happens exactly through a request accepted while an earlier
  worker may still publish or a reset under way has passed the slot (`StatusLiesIff`).
- The disk can end up with a stale intent when notifications overlap (`OverlapLeavesStaleIntent`):
  exactly if a flag changes while a snapshot is in flight (`ChangeIsFollowedIff`,
  `DiskEndsRightIff`). An intent loaded at boot survives the shutdown exactly as `IntentSurvivesIff`
  says.
- Failures of overlapping requests escape the ration, without any bound (`AnyNumberFailAtOnce`), and
  a late one can end a lockout early (`LateFailureFreesAddress`). The ration holds exactly if every
  failure is recorded while fewer than three recent ones are stored (`RationHoldsIff`), and a
  lockout ends early exactly as `LockoutEndsIff` says.
- A configuration update changes the held configuration before it is saved; if saving fails, the
  held configuration and the scheduler's ranges part exactly unless nothing was to change
  (`FailedSaveParts`).

The results about draining ask for ranges with a minimum of at least one minute. `ZeroIntervalSpins`
shows why; the code never hands out any other range, as `WaitsStayLong` proves for the whole program.

## Model

| member | source | states |
|---|---|---|
| Safety.OneUncancelledWorker | scheduler/scheduler.go:83-137 | After any interleaving, a slot never has two uncancelled workers, a nil handle means all are cancelled, and a set handle is the latest generation's |
| Safety.OnlyOwnHandleCleared | scheduler/scheduler.go:94-104 | At any moment of any run, a worker's step can only clear the handle that names that worker, and only once its context is done |
| Safety.StopReachesEveryWorker | scheduler/scheduler.go:130-137 | Stopping a slot at any moment leaves every worker the slot ever had with a done context |
| Safety.FinishedSlotAcceptsAgain | scheduler/scheduler.go:163-173 | After any run, once the latest worker has passed its exit section, fired or cancelled, the handle is nil and the next request gets a new worker |
| Safety.RunSafe | scheduler/scheduler.go:83-175 | The safety invariant (older generations cancelled, workers past their exit section cancelled) is kept by every run from any state that has it |
| Firings.FiringGap | scheduler/scheduler.go:106-126 | Whatever interval updates arrive, two executions by one worker are at least the minimum minutes in force when the later wait was drawn apart |
| Firings.NFiringsTakeNWaits | scheduler/scheduler.go:74-126 | If no minimum below `floor` was ever in force, the n-th firing of a worker comes at least n times `floor` minutes after its spawn |
| Firings.RunSpaced | scheduler/scheduler.go:106-126 | The timing invariant (log ordered, each worker's firings spaced, timers not early) is kept by every run |
| Firings.RunPaced | scheduler/scheduler.go:106-126 | The counting invariant behind the n-firings bound is kept by every run whose interval updates respect the floor |
| Firings.OneShotConservation | scheduler/scheduler.go:139-175 | Accepted one-shot requests are exactly the executions plus the workers that ended unfired plus the undecided ones; none fires twice or before its sixty seconds |
| Firings.GenerationCountsAccepted | scheduler/scheduler.go:233-269 | The generation counter counts exactly the requests that found the handle unset; a request while it is set creates nothing |
| Firings.Partition | scheduler/scheduler.go:152-174 | Every one-shot worker is fired, ended unfired or undecided, and only one of the three |
| Timing.FiresExactlyWhenDue | scheduler/scheduler.go:115-121 | In select, a worker that owes nothing can fire exactly from the moment when the announced wait has passed since it entered: sixty seconds for a one-shot, what it rolled for a schedule |
| Timing.TimerRunsAsAnnounced | scheduler/scheduler.go:110-115 | A timer expires exactly as long after the announced time as the worker took from its roll, or a one-shot from its request, to its select |
| Timing.AnnouncedIsRolled | scheduler/scheduler.go:106-112 | A schedule announces a whole number of minutes, counted from its roll, in the range in force when it read it |
| Timing.EveryMinuteCanBeRolled | scheduler/scheduler.go:74-81 | A worker that is rolling can draw every minute of its range, and for an empty range its minimum |
| Timing.EntryTellsMinimum | scheduler/scheduler.go:106-121 | The minimum noted with an execution is that of the range in force when the worker last read it |
| Timing.LogGrowsIff | scheduler/scheduler.go:116-121 | The action is executed, once and by the worker that fires, exactly when a worker fires |
| Timing.OneShotOnTime | scheduler/scheduler.go:150-161 | An accepted one-shot whose worker enters select at once can fire exactly from sixty seconds after the request on, and then has been executed once |
| Draining.CancelledWorkerLeaves | scheduler/scheduler.go:106-126 | In a stopped or a running scheduler, a worker with a done context executes at most once more, and only if already waiting; until it has exited it always has a step to take, and after at most fourteen steps of its own it has exited |
| Draining.EverythingEndsAfterStop | scheduler/scheduler.go:70-72 | After the scheduler is stopped and without new starts, all workers together take boundedly many steps, and are stuck exactly when all have exited |
| Draining.StuckMeansExited | scheduler/scheduler.go:94-126 | In a stopped system no worker can take a step if and only if every worker has exited: no deadlock short of exit |
| Draining.StoppedRun | scheduler/scheduler.go:70-72 | Along every run of a stopped system the summed rank falls by at least the number of worker steps |
| PublishedStatus.StatusIsTrue | state/state.go:72-139 | After any run with polite requests of a slot, with calls and workers overlapping freely, a quiescent slot's flag is set exactly if a live worker waits; the time is the one it announced, and its timer expires exactly as much later as the worker took to reach its select |
| PublishedStatus.RunFits | scheduler/scheduler.go:321-330 | The status invariant of a slot survives every run with polite requests of it, with worker steps interleaved freely even inside ResetAll |
| StatusExactly.StatusLiesIff | scheduler/scheduler.go:94-127 | From any state in which the status fits, a request can lead, with only polite requests afterwards, to a quiescent slot with a wrong status if and only if it is accepted while an earlier worker may still publish or a reset under way has passed the slot |
| StatusExactly.PoliteRunsAreExactlySafe | scheduler/scheduler.go:83-93 | The same if and only if in every state that a polite run reaches from boot |
| Steering.Drains | scheduler/scheduler.go:94-126 | From any state, a worker with a done context can be driven to its exit without anybody else moving, and silently if it is superseded |
| IntentOnDisk.OnlyLiveSnapshotsReachDisk | cmd/root.go:122-134 | If the callback is removed before the scheduler is stopped, every intent on its way to disk, and the disk itself once written, is a snapshot of both flags from before, even if the write lands later |
| IntentOnDisk.DisconnectedDiskStays | service/service_windows.go:90-97 | Without callback and without a write in flight nothing changes the disk any more |
| DiskSettles.DiskFollowsFlags | state/state.go:54-62 | Along any run, with any calls, in which the flags change only while no snapshot is in flight: whenever nothing is owed, the disk shows the flags if any of them changed, and is untouched otherwise |
| DiskSettles.DiskEndsRightIff | state/state.go:54-62 | With the flags fixed, every way of working off what is owed ends with the disk showing them if and only if no snapshot in flight is stale and something is still owed or the disk is right already |
| DiskSettles.ChangeIsFollowedIff | state/state.go:88-115 | When a step changes a flag, the disk is sure to follow if and only if no snapshot was in flight |
| DiskSettles.RunFollows | state/persist.go:25-33 | The invariant behind it: in orderly runs no snapshot is ever stale, and the disk is right or being brought up to date |
| BootCycles.ShutdownSavesWhatRuns | cmd/root.go:122-134 | A shutdown from a settled state saves exactly which schedules are running, whatever starts, stops and resets were called since the boot and whatever the dying workers do |
| BootCycles.FirstBootStartsNothing | state/persist.go:36-52 | Without a readable state file a boot starts no worker in any slot |
| BootCycles.BootStartsWhatWasSaved | cmd/root.go:100-108 | A boot from a saved intent starts one worker for each schedule it names and nothing else |
| BootCycles.TornSessionStartsNothing | state/persist.go:25-52 | After a session whose last write was torn the next boot starts nothing |
| BootCycles.NextBootStartsWhatRan | cmd/root.go:90-110 | After any number of sessions, the next boot starts exactly the schedules that were running when the last one ended |
| BootCycles.CyclesKeepIntent | service/service_windows.go:47-97 | Any number of orderly shutdowns and boots that leave the schedules alone preserve the saved intent |
| BootCycles.IntentSurvivesIff | cmd/root.go:124-129 | Shutting down at any moment without a notification under way keeps the intent if and only if no flag had changed since the boot or the flags are those of the intent |
| BootCycles.WhatIsSaved | state/persist.go:25-52 | The next boot loads the flags at the shutdown if any of them had changed since the boot, else what was saved before |
| BootCycles.RestoredRuns | cmd/root.go:101-110 | In a session that leaves the schedules alone, a schedule runs at the settled end exactly if the loaded intent asked for it |
| Scenarios.StatusCanLie | scheduler/scheduler.go:94-104 | A run in which a one-shot waits, all other workers have exited, and the published flag is off |
| Scenarios.StoppedScheduleComesBack | scheduler/scheduler.go:83-137 | A run of start, stop, start, stop, one call after the other, that ends with every worker gone, the flag on, and the disk asking the next boot to start the schedule |
| Scenarios.ReversedOrderLosesIntent | cmd/root.go:124-129 | With the callback still installed, stopping the scheduler overwrites a saved intent by the empty one |
| Scenarios.OverlapLeavesStaleIntent | state/state.go:54-62 | A run in which overlapping notifications end with both schedules active and only one of them on disk |
| Scenarios.ZeroIntervalSpins | scheduler/scheduler.go:74-126 | Why the draining results ask for positive ranges: with a zero range a worker whose context is done can go on to fire any number n of times |
| Scenarios.SpinningIsReachable | scheduler/scheduler.go:74-126 | Such a state is reached from a boot with the zero range |
| StateObject.SectionsMakeTheSetter | state/state.go:54-115 | The machine's sections of a schedule setter, run back to back, have exactly the effect of the whole setter on status and disk |
| StateObject.SectionsMakeTheCancel | scheduler/scheduler.go:306-319 | An uninterrupted Cancel or Stop call cancels exactly the slots it names and publishes nothing itself |
| StateObject.SectionsMakeTheReset | scheduler/scheduler.go:321-330 | An uninterrupted ResetAll cancels every slot, turns every flag off, and saves the empty intent exactly if a schedule flag had been on |
| StateObject.State.SetRestartSchedule | state/state.go:88-97 | The cell is replaced, and exactly if the flag changed the callback saves the new restart flag with the lock flag as it was |
| StateObject.State.SetLockSchedule | state/state.go:106-115 | The cell is replaced, and exactly if the flag changed the callback saves the new lock flag with the restart flag as it was |
| StateObject.State.SetRestartOnce | state/state.go:99-104 | Only the one-shot's cell changes and nothing is persisted |
| StateObject.State.SetLockOnce | state/state.go:117-122 | The same for the lock one-shot |
| StateObject.State.Reset | state/state.go:124-139 | All cells are off, and the empty intent is persisted exactly if a schedule had been on |
| StateObject.State.NotifyChange | state/state.go:46-62 | An installed callback saves the two published schedule flags, and nothing happens without one |
| SchedulerObject.SlotObject.Start | scheduler/scheduler.go:83-93 | Refines the machine's request step: ignored while a handle is set, otherwise a new generation and worker |
| SchedulerObject.SlotObject.StopRunning | scheduler/scheduler.go:130-137 | Refines the machine's cancel step: the named worker's context is done and the handle is nil |
| SchedulerObject.SlotObject.Leave | scheduler/scheduler.go:95-104 | Refines the machine's exit step: the handle is cleared only by the latest generation, which alone goes on to publish |
| SchedulerObject.Scheduler.StartRestartSchedule | scheduler/scheduler.go:83-128 | Performs the request step on its slot and publishes nothing itself |
| SchedulerObject.Scheduler.StartLockSchedule | scheduler/scheduler.go:177-222 | The same for the lock schedule |
| SchedulerObject.Scheduler.RestartOnce | scheduler/scheduler.go:139-175 | Performs the request step and publishes the deadline one minute ahead exactly if the request was accepted |
| SchedulerObject.Scheduler.LockOnce | scheduler/scheduler.go:233-269 | The same for the lock one-shot |
| SchedulerObject.Scheduler.Cancel | scheduler/scheduler.go:306-319 | Each slot asked for is cancelled and every other slot is unchanged |
| SchedulerObject.Scheduler.ResetAll | scheduler/scheduler.go:321-330 | All four slots are cancelled, the board is off, and the empty intent is persisted exactly if a schedule had been on |
| SchedulerObject.Scheduler.UpdateIntervals | scheduler/scheduler.go:271-277 | Both ranges are replaced, and nothing else |
| SchedulerObject.RandomInterval | scheduler/scheduler.go:74-81 | A wait that the machine's roll can make of the range: a whole number of minutes, at least the minimum, within the range if it is not empty, and the minimum if it is |
| LoginTracker.IpRecord.Compact | server/auth.go:94-104 | The in-place filter keeps exactly the attempts past the cutoff, in order, with no element overwritten before it is read |
| LoginTracker.IpRecord.RecordFailure | server/auth.go:85-110 | The record holds the recent attempts and the new one, and the lock time moves exactly if there are three |
| LoginTracker.Tracker.RecordFailure | server/auth.go:85-110 | Exactly the failing address's record changes; the records never share an array |
| LoginTracker.Tracker.RecordSuccess | server/auth.go:112-118 | The address is forgotten and no other record changes |
| LoginTracker.Tracker.IsLocked | server/auth.go:120-137 | Locked exactly if three attempts are stored and the lock is at most fifteen minutes old; a lock that is over is forgotten |
| FailureWindow.StoredAreTheRecentFailures | server/auth.go:85-118 | For any failures and clears at non-decreasing times, the stored attempts are exactly the failures since the last clear less than five minutes before the last one, in order |
| FailureWindow.RecentTwice | server/auth.go:94-104 | Compacting again with a later cutoff gives what compacting the full history would have given |
| FailureWindow.RecentIsSuffix | server/auth.go:94-104 | On an ordered history the kept attempts are the suffix past the cutoff |
| FailureWindow.FailuresInSpan | server/auth.go:58-62 | If any four consecutive failures span the window, a span of length d holds at most 3 (d / 5min + 1) of them |
| FailureWindow.AtMostThreeInWindow | server/auth.go:58-62 | Under the same condition, no half-open window holds four failures |
| FailureWindow.SpacedIffFewRecent | server/auth.go:85-110 | One more failure keeps four failures from falling into one window if and only if fewer than three recent ones precede it |
| GateHistory.FailuresAreRationed | server/auth.go:85-137 | For any ordered requests through the gate, an address without a success has at most three recorded failures in five minutes and at most 3 (d / 5min + 1) in a span d |
| GateHistory.LockoutHolds | server/auth.go:58-62 | Once locked out at T, an address is refused on every request up to T + 15 minutes, whatever others do, and T does not move |
| GateHistory.LockedIffBarred | server/auth.go:120-137 | The tracker says locked exactly if the last three failures of the history lie within the window and the last is at most fifteen minutes old |
| GateHistory.HandlerRunsIff | server/auth.go:204-269 | The protected handler runs exactly if, by the history alone, the address is not locked out, there is no logged-out cookie, and the session is open or user and password are those in force and a token can be made |
| GateHistory.GateDecides | server/auth.go:204-269 | The history alone decides every request's outcome: lockout, logged-out cookie, open session, user and password in force, random source, in this order |
| GateHistory.WrongCredentialsFail | server/auth.go:236-248 | A request that gets as far as its credentials with a wrong user, a wrong password or none is unauthorized, adds exactly one failure to its own address, and opens no session |
| GateHistory.LoginOpensSession | server/auth.go:251-266 | After a login, a request with the drawn token is served without credentials until the timeout then in force is over |
| GateHistory.LockoutIsOver | server/auth.go:130-134 | More than fifteen minutes after the last failure an address is not refused as locked |
| GateHistory.LoggedOutTokenIsDead | server/handlers.go:135-156 | After a served logout no later request that relies on that token is admitted, unless the same token is drawn again |
| GateHistory.LoggedOutCookieIsFree | server/auth.go:204-269 | A request with the logged-out cookie is never served, adds no failure and changes no session |
| GateHistory.SessionOpenIffValid | server/auth.go:184-196 | In any run through the gate the store accepts a token exactly if the history says that its session is open |
| GateHistory.RunFits | server/auth.go:85-137 | After every run the tracker's record of an address fits the recorded failures of its history |
| GateHistory.RunStore | server/auth.go:143-202 | The store after any run through the gate is the replay of the session calls the run made |
| GateOverlap.RationHoldsIff | server/auth.go:205-251 | For any overlap of requests, no four failures of an address without a success lie within five minutes if and only if each of them, when recorded, found fewer than three in the five minutes before |
| GateOverlap.LockedIffHistorySays | server/auth.go:120-137 | For any overlap of requests, an address is locked exactly if its last three recorded failures lie within the window and the last is at most fifteen minutes old |
| GateOverlap.LockoutEndsIff | server/auth.go:85-137 | A step ends a lockout early if and only if it records a success, or a failure that finds fewer than two recent ones; a failure that does not end it moves it |
| GateOverlap.OnlyLockedBreaksRation | server/auth.go:206-251 | Only a failure recorded for an address that has been locked since its check can break the ration |
| GateOverlap.AnyNumberFailAtOnce | server/auth.go:205-251 | Without that guard there is no ration: for every n an overlap of requests records n failures of one address at one moment |
| GateOverlap.LateFailureFreesAddress | server/auth.go:85-110 | An overlap of four requests in which the fourth failure, recorded late, ends a lockout nine minutes early |
| GateOverlap.UninterruptedIsVisit | server/auth.go:204-269 | A request whose sections nothing interrupts passes the gate exactly as the sequential gate describes it |
| GateOverlap.RunFits | server/auth.go:85-137 | Whatever overlaps, the record of an address is the recent part of its recorded failures, unless a lockout has been forgotten |
| Gate.AuthGate.Handle | server/auth.go:204-269 | The middleware over the mutable stores does to its state, and answers, what the visit function on values says, which GateDecides ties to the history |
| Sessions.SessionStore.Create | server/auth.go:162-182 | Every expired session is swept, no live one is lost, and the new token lives for the timeout; a failed draw changes nothing |
| Sessions.SessionStore.Valid | server/auth.go:184-196 | True exactly for a stored unexpired token; an expired one is forgotten and no other is touched |
| Sessions.SessionStore.Remove | server/auth.go:198-202 | The token is gone, and every other session stays |
| Sessions.SessionStore.UpdateTimeout | server/auth.go:156-160 | Only the timeout for later sessions changes; existing deadlines stay |
| Sessions.LazyExpiryIsInvisible | server/auth.go:156-202 | Whatever was swept, a token is valid exactly if it was created, not removed since, and the time is not past its creation plus the timeout then in force |
| Sessions.ReplayAgrees | server/auth.go:156-202 | The store holds exactly the deadlines of the history, except that it may have dropped expired ones |
| Configuration.Validate | server/handlers.go:198-227 | The complaints are exactly those the request deserves, in order, and there are none exactly if every field is acceptable |
| Configuration.DeservedExactly | server/handlers.go:198-227 | A complaint is listed if and only if the request deserves it |
| Configuration.DeservedInOrder | server/handlers.go:198-227 | The seven complaints and their causes, written out in the order in which they are listed |
| Configuration.LoadFailsIff | config/config.go:63-118 | Loading fails exactly for an unreadable or undecodable file, an empty user or password, a port outside 1 to 65535 or an interval outside 1 to 1440 minutes |
| Configuration.ErrorNamesCause | config/config.go:63-118 | Every load error names a cause that is present |
| Configuration.LoadedFields | config/config.go:84-133 | A loaded configuration keeps every field of the file; only a session timeout or update interval below one minute and an unknown level become 30, 360 and "info" |
| Configuration.FirstRun | config/config.go:46-82 | Without a file the program runs with its defaults and leaves a file that loads as the same |
| Configuration.LoadKeepsFile | config/config.go:63-82 | Loading writes only where no file was; a file that exists is left as it is |
| Configuration.AcceptedIffMergedValid | server/handlers.go:198-245 | Merged into a valid configuration, a request is accepted exactly if the result is valid |
| Configuration.ReloadsUnchangedIffValid | config/config.go:63-143 | A saved configuration is loaded back unchanged, with no default replacing a value, exactly if it is valid |
| Configuration.LoadedIsValid | config/config.go:63-134 | Whatever the file holds, a configuration that loads is valid |
| Configuration.LoadConfig | config/config.go:63-134 | The step-by-step loader yields exactly the value or the first error the specification names, and creates a missing file |
| Configuration.CheckIntervals | config/config.go:106-118 | Accepts exactly 1 <= min <= max <= 1440 for both ranges and otherwise names the first violated bound |
| ConfigHandlers.ConfigHolder.Reload | server/auth.go:35-44 | The held configuration is replaced by what loads, and kept on an error |
| ConfigHandlers.ConfigHolder.SetLogLevel | server/auth.go:46-56 | A level that cannot be saved is taken back |
| ConfigHandlers.Handlers.ConfigUpdate | server/handlers.go:177-271 | Field by field mutation, save, reload and hand-on amount to the update function on values, including its failure paths |
| ConfigHandlers.Handlers.ConfigReload | server/handlers.go:273-300 | Reload and hand-on to scheduler and session store; an error changes nothing held |
| ConfigHandlers.Handlers.ConfigSetLogLevel | server/handlers.go:302-327 | An unknown level is refused, and a known one is held exactly if it was saved |
| ConfigHandlers.HeldStaysValid | server/handlers.go:177-327 | Over any run of updates, reloads, level changes and outside edits, with any write failing, the held configuration and the ranges handed on stay valid |
| ConfigHandlers.StaysInStep | server/handlers.go:247-259 | As long as every update is saved, the ranges and the timeout in force are those of the held configuration |
| ConfigHandlers.AcceptedUpdateTakesEffect | server/handlers.go:229-259 | An accepted, saved update is reloaded without error, each of the seven fields has the requested value and no other changes, and scheduler and sessions get them |
| ConfigHandlers.FailedSaveParts | server/handlers.go:229-245 | After a failed save, scheduler and sessions agree with the held configuration exactly if the request asked for the values already in force |
| ConfigHandlers.UpdateAnswers | server/handlers.go:198-259 | An update out of bounds is refused with nothing changed; one that cannot be saved leaves the held fields changed and what was handed on as it was; a saved one succeeds |
| ConfigHandlers.ReloadAnswers | server/handlers.go:273-300 | A reload fails exactly if the file does not load, and then changes nothing; otherwise scheduler and sessions get what was loaded |
| ConfigHandlers.LevelAnswers | server/auth.go:46-56 | Only the three levels are accepted, and the level changes, alone, exactly if it was saved |
| WholeProgram.FiringsAMinuteApart | scheduler/scheduler.go:106-126 | For the whole program, whatever configuration calls are made and whichever writes fail, two executions by one worker are at least a minute apart |
| WholeProgram.NFiringsTakeNMinutes | scheduler/scheduler.go:74-126 | Likewise the n-th execution of a schedule worker comes at least n minutes after it was spawned |
| WholeProgram.EveryWaitIsBounded | scheduler/scheduler.go:74-81 | Every wait that a worker rolls in such a run lies between a minute and a day, without 64-bit overflow |
| WholeProgram.WaitsStayLong | server/handlers.go:247-259 | Every state of such a run meets the hypothesis under which cancelled workers leave |
| WholeProgram.ProgramIsRun | scheduler/scheduler.go:271-277 | The scheduler's part of such a run is a run of the machine in which each configuration call is an interval update |
| UpgradeOwnership.FlagHasOneOwner | server/handlers.go:353-413 | Under any interleaving of any number of apply requests the flag is set exactly if one request owns it, and no two own it together |
| UpgradeOwnership.FlagComesBack | server/upgrade_windows.go:55-201 | On every path the flag is given back: without new arrivals the requests end within boundedly many steps, and then it is clear |
| UpgradeOwnership.RunAccounted | server/handlers.go:353-413 | After every run the number of owners is one or zero as the flag says |
| UpgradeOwnership.StagesInOrder | server/handlers.go:353-413 | Under any interleaving, a request in a stage has passed every earlier one in order; it cleans up or gives the flag back only after a stage failed |
| UpgradeOwnership.LaunchedAfterEverything | server/upgrade_windows.go:55-201 | A script is launched only by a request whose pre-flight check, cached update, download and every later stage succeeded |
| UpgradeScript.Installation.RunScript | server/upgrade_windows.go:107-152 | For all images and outcomes the exact commands, beginning with the stop, and the ending: new image installed and RUNNING seen, or old image installed and its start issued last, or a failed rollback with the backup intact; no partial image is started |
| UpgradeScript.Installation.Prepare | server/upgrade_windows.go:55-193 | Any failure before the script gives the flag back and removes the download, and leaves no script file and no task unless the write or the deletion itself failed; the script is launched only with a complete backup |
| UpgradeScript.Installation.Upgrade | server/upgrade_windows.go:55-193 | The whole upgrade is a transaction: whenever the installed image is neither the old nor the new one, the backup is the old one |
| Versions.NewerIsStrictOrder | updater/updater.go:211-226 | Irreflexive, asymmetric, transitive, total up to equal parsed triples, and false if either side does not parse |
| Versions.NewerIsNumeric | updater/updater.go:211-244 | On rendered versions, with or without "v", major decides before minor and minor before patch |
| Versions.ParseRendered | updater/updater.go:229-244 | Rendering a triple and parsing it gives the triple back |
| Versions.ParsesIff | updater/updater.go:229-244 | A version parses to a triple exactly if, after at most one "v", it is three decimal numbers separated by dots |
| Versions.AtoiParses | updater/updater.go:236-240 | A part is a number exactly if it is an optional sign and at least one digit, within 64 bits |
| Versions.AtoiSigned | updater/updater.go:236-240 | A rendered number with a sign before it parses to itself or its negative |
| Versions.FourPartsDoNotParse | updater/updater.go:229-244 | A fourth part spoils the third, and the version does not parse |
| Versions.ParseSemver | updater/updater.go:229-244 | Yields an array of three numbers exactly if the string parses, and then those of the parsed triple |
| Versions.IsNewer | updater/updater.go:211-226 | The comparison loop over the arrays decides the order of the parsed triples |
| Updater.UpdateChecker.Check | updater/updater.go:69-136 | Cache and answer after a response are those of the specification, including the rate-limited answer from the cache |
| Updater.FirstExe | updater/updater.go:98-104 | An asset is found exactly if one ends in ".exe", and it is the first such |
| Updater.CacheIsLastSettled | updater/updater.go:69-143 | After any responses the cache is decided by the last settling one alone, and holds no update if there was none |
| Updater.AvailableIsNewer | updater/updater.go:69-143 | An available cached update is newer than the running version and has the tag, texts, address, size and digest of the first binary of a fetched release |
| Updater.CheckDecides | updater/updater.go:69-136 | A response that settles the question decides the cache whatever it held, and any other leaves it alone |
| Updater.CheckAnswers | updater/updater.go:69-136 | Which responses are answered with an error, which with the cached result, and which with no update |
| Updater.ExeByName | updater/updater.go:100-104 | An asset counts as a binary exactly if its name ends in ".exe" in any case of letters |

## Left out

- HTTP, cookies, JSON and headers: a request is a record of address, time, cookies, credentials and drawn token, and stripping the port from the address is not modelled.
- Base64, token generation and constant-time comparison of credentials: a parameter, a parameter, and equality.
- Windows itself (service manager, scheduled tasks, firewall, executors): outcomes are parameters and an execution is a log entry.
- The script killing the server process: the ownership results follow the case in which the process lives on until the watchdog fires, where the flag matters most; an upgrade that panics is not modelled.
- Builds for other systems, whose apply goroutine removes the download and clears the flag at once: the same ending as the modelled goroutine's first failure.
- Download and its SHA-256 check, the background ticker of the update check, the dashboard and the log output: plumbing around the modelled operations.
- `parseBinaryPath`, `formatCountdown`, `copyTime` and the method checks of the handlers: easy members.
- Goroutine bodies as methods: a worker blocks in `select`, which a method cannot express, so its sections are steps of the machine; `SlotObject.Leave` is the one that changes the scheduler's fields.
- Runs of the scheduler object: its methods are tied to the machine's steps one call at a time; whole runs are runs of the machine.
- Interleaving inside configuration calls, and sessions under overlapping requests: those results are about calls that run one at a time.
- Wrap-around of the generation counters at 2^64.
- SessionStore.UpdateTimeout: does not model the 64-bit overflow of timeouts beyond 153,722,867 minutes; the session results hold for unbounded integers.
- FindExe: lower-casing of asset names is modelled for ASCII letters only.
- StatusIsTrue: speaks of quiescent slots only; between a worker's section under the scheduler's mutex and its status write the flag may lag.
- Some methods of the source are split for their proofs (`Numbers`, `FirstDifference`, `FindExe`, `CheckIntervals`, `ValidateIntervals`, `CancelSchedules`, `CancelOneShots`, `ComeIn`, `LogIn`, `Keep`, `Launch`, `RollBack`, `TidyUp`); the parts follow the source's order.
