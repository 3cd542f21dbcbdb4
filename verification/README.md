# Verification of the browser-fetch gateway core

A Dafny model of the parts of the gateway in which several things must hold together: the
pacing scheduler, the tab pool with its browser generations, the session leases, the history
query compiler, the screenshot pipeline and its store, and the macro life cycle (record,
store, approve, edit, replay). `dafny verify dfyconfig.toml` checks everything.

## How the parts are modelled

**Concurrent protocols** (`scheduler*.dfy`, `pool*.dfy`, `session_lease.dfy`,
`session_progress.dfy`, `macro_agents.dfy`, `macro_freeze.dfy`) are transition systems. Any finite number of callers run at once; each
has a program counter that names its next atomic action, which is one section under a mutex,
one channel operation, one reading of the clock or one call into code outside the model. The
environment chooses the order of the actions, the times, the ends of contexts, the results of
`fn`, the failures of Chrome and the deaths of tabs. What is stated as a safety property holds
in every state such a system can reach, and what is stated about progress holds of every run.

**Objects** whose methods change fields (`scheduler_object.dfy`, `pool_object.dfy`,
`session_object.dfy`, `capture_store.dfy`, `macros.dfy`, `macro_store.dfy`, `recorder.dfy`,
`replay.dfy`) are classes. Each lock-held section is a method whose contract gives the new
state as the transition system or the specification function defines it.

**Loops over pixels, tiles, arguments, rows, macro steps and map entries** are methods with
loops, proved against specification functions; the lemmas about these functions say what the
results mean.

### Scheduler

`Scheduler` has one program counter for each action of `Do`. `hostState` objects
live on a heap of their own, so that an object that was pruned from the map can still be in
use. `SchedulerInvariant` proves the invariant in five parts (references, coalescing, counters,
the log of runs, pacing); `SchedulerSafety` and `SchedulerProgress` draw the conclusions per
host object. `SchedulerReturns` follows every caller through a whole run and says what `Do`
returns to it; `SchedulerLastRun` says which run a host shows. The package promises one run at a time and a gap per host *name*. `SchedulerNames`
proves both for at most 1024 names. Beyond that they are false, because a new entry is pruned
before its `usedAt` is set, so that two callers of one name get an object each.
`SchedulerCrowd` builds the crowd that fills the map, and `SchedulerNameRuns` proves the exact
guards: runs of one name never overlap if and only if at most 1024 names are in use or there is
a single slot, and they keep the gap if and only if at most 1024 names are in use, or there is a
single slot and no gap.

### Tab pool, generations and session leases

`Pools` covers `acquire`, `release`, `retire`, `newPage`, `closeAll` and the replacement of the
pool by `currentPool`. A `changed` channel is its serial number: it is closed when the pool's
number is larger. `PoolReuse` follows tabs and clients through whole runs: a tab is used again
exactly when it passed every test of `acquire` and `release`, and one that failed a test never
is. `SessionLease` covers `Open`, `Close`, `Reap` and the closing of a session;
that a session's release function runs exactly once is what entitles the pool model to let each
client give its tab back once; `SessionProgress` shows that the threads that owe it all finish. Every
session limit but zero can be exceeded by `Open`s that overlap between check and insertion;
`SessionLease.LimitHoldsExactly` proves, limit by limit, that it holds exactly when no two do.

### History queries

`Like` defines SQLite's LIKE with an escape character by a recursive matcher and proves the
escaping of `pattern` exact. `History` builds the condition and the argument list with the
source's loops; `HistoryMeaning` parses the condition with SQL's precedences, binds the
arguments to the placeholders in order, and proves that the value on every row is the filter
of docs/history.md, and that the selection from every table is the documented one.

### Screenshots

`AreaAverage` works on two-dimensional arrays of pixels: the boxes of the reduction partition
the source, hold one, two or four pixels, and every smaller pixel is the mean of its box. `ScreenshotSplit` proves the ladder of qualities and sizes and the tiling. `CaptureStore`
proves that the store cannot be told apart from one that never deletes anything and only
compares expiry times, although every call takes a clock reading of its own for each entry.

### Macros

`Macros` has validation, file names and edits; `MacroStore` the lock-held sections and what all
of them keep; `MacroAgents` the agent's calls, whose checks run outside the lock, interleaved
with the operator's, and `MacroFreeze` what this means for approved macros; `Recording` is the
recorder and `Replay` the replayer over an arbitrary executor, resolver and human.
`RecordedReplay` joins the two: a completed replay does again what the human did. The freeze of
approved macros can fail when an approval lands between an agent call's read and its commit:
`MacroFreeze.FreezeCanFail` is such a run, `MacroFreeze.AgentThawsExactly` says exactly when an
agent event changes an approved macro, and `MacroFreeze.FreezeFailsOnlyInARace` that there is no
other way.

### Assumptions

The clock never runs backwards; a sleep that returns without an error lasted as long as asked;
`fn` returns (progress only); ids drawn by the capture store are new; files that exist can be
read, and a write either replaces the whole file or nothing; the PNG decoder returns a picture
of the size its header declares; edits passed to `Store.Update` do not change the macro's id,
which `Macros.AgentEditKeepsIdentity` proves of the agent's; recordings passed to `Put` and
`PutOrphan` carry no approval, which `Recording.Recorder.Draft` guarantees.

### Where the code differs from its own texts

The model follows the code; each of these is proved, with the exact condition where there is one.

- internal/server/macro.go:388-390 says that unknown operations and indexes out of bounds become
  malformed steps, which the re-validation refuses. The code skips them: such an operation changes
  nothing (`Macros.BadOpChangesNothing`), the update is refused exactly when it would be without the
  operation (`MacroStore.BadOpIsSkipped`), and on its own it is accepted
  (`MacroStore.BadOpIsAccepted`, with an input in `MacroStore.OutOfBoundsIsAccepted`).
- docs/macros.md:69-71 says that approval is refused until every type step has its reference. Strict
  validation accepts a type step without one when it carries a pause, and no replay gets past such a
  step. `Replay.CanLackSecretSomewhere` says of which macros a replay can stop for a missing
  reference, by their steps alone; `Replay.ApprovedButNeverReplayed` is such a macro.
- docs/macros.md:30-32 says that the human's clicks are never lost. They are when neither the store
  nor the parking takes the draft (`Recording.RecordingIsKeptExactly`), and an earlier parked draft
  is when a later one is parked under the same name (`Recording.EarlierDraftSurvivesExactly`, with an
  input in `Recording.ParkingCanLose`).
- docs/macros.md:83 says that the profile hash pins a macro to a browser profile. Nothing sets the
  hash and no replay depends on it (`Replay.ProfileIsIgnored`).
- internal/macro/macro.go:459-460 says that approved macros are frozen to the agent: see above.
- The registry of agent-editable sites shares its directory with the macros. Saving it replaces a
  macro named `agent-editable-sites`, approved or not, and costs no other
  (`MacroStore.RegistryCostsItsNamesake`).

## Model

| member | source | states |
|---|---|---|
| SchedulerInvariant.InvStep | internal/scheduler/scheduler.go:91-176 | every atomic action of `Do`, by any caller at any time, keeps the whole invariant |
| SchedulerInvariant.InvReachable | internal/scheduler/scheduler.go:91-234 | the invariant holds in every reachable state, for any number of callers |
| SchedulerInvariant.DedupeStep | internal/scheduler/scheduler.go:94-116 | coalescing: one registered leader per key, the record matches the leader's progress, followers point to a leader of their key |
| SchedulerInvariant.CountersStep | internal/scheduler/scheduler.go:106-176 | slots, tokens and all counters agree with the callers' program points, although they change in separate sections |
| SchedulerInvariant.PacedStep | internal/scheduler/scheduler.go:133-172 | whoever passed the cooldown of a host is past the end of its last run by the gap, and stays so |
| SchedulerInvariant.StartIsSpaced | internal/scheduler/scheduler.go:158-164 | a run that starts now is spaced from every earlier run on the same object |
| SchedulerSafety.SlotExclusion | internal/scheduler/scheduler.go:145-156 | at most MaxSlots callers are inside `fn` |
| SchedulerSafety.TokenExclusion | internal/scheduler/scheduler.go:120-131 | at most one caller per host object is between taking and returning its token |
| SchedulerSafety.OneLeaderPerKey | internal/scheduler/scheduler.go:94-116 | a caller is a registered leader if and only if `inflight` maps its key to it |
| SchedulerSafety.FollowersShareTheResult | internal/scheduler/scheduler.go:96-105 | a woken follower returns exactly what the leader of the same key returned |
| SchedulerSafety.FollowersDoNotRun | internal/scheduler/scheduler.go:96-105 | no run of `fn` belongs to a follower |
| SchedulerSafety.RecordIsTheReturn | internal/scheduler/scheduler.go:111-176 | on every exit path the closed record carries what the leader returns |
| SchedulerSafety.OneRunPerLeader | internal/scheduler/scheduler.go:158-176 | `fn` runs at most once per leader, and the leader returns that run's result |
| SchedulerSafety.HostGap | internal/scheduler/scheduler.go:120-172 | any two runs on one host object are at least the gap apart, end to start, whatever waits or cancellations lie between |
| SchedulerSafety.Accounting | internal/scheduler/scheduler.go:163-172 | total, shared, queued, running, completed, failed and timed-out equal the callers at the matching points and the sums over all host objects |
| SchedulerSafety.RegisteredIffRoom | internal/scheduler/scheduler.go:178-202 | a host is registered afterwards if and only if it was or the map had room; the bound is kept |
| SchedulerSafety.HostsBounded | internal/scheduler/scheduler.go:191-202 | the host map never exceeds 1024 entries |
| SchedulerSafety.PrunedExactly | internal/scheduler/scheduler.go:192-202 | adding a host prunes another if and only if the map was full and the other has nobody queued or running and was not used within the hour |
| SchedulerSafety.BusyHostsStay | internal/scheduler/scheduler.go:192-202 | a host with a caller queued for it or running on it keeps its entry and its object, whatever happens |
| SchedulerSafety.AskedHostsStay | internal/scheduler/scheduler.go:178-202 | whoever asks for a registered host within an hour of its last use gets the same object |
| SchedulerSafety.PauseIsExact | internal/scheduler/scheduler.go:204-219 | the pause ends at the last run plus gap plus jitter, and there is none without a last run, without a gap or after that time |
| SchedulerSafety.SleepIsBounded | internal/scheduler/scheduler.go:133-144 | in no reachable state has a caller longer to sleep than the gap and the largest jitter |
| SchedulerReturns.WhatDoReturns | internal/scheduler/scheduler.go:91-176 | in every run a leader that ran `fn` returns its result and was not cancelled; any other leader, and a follower that gave up, returns no value and exactly the error its context ended with |
| SchedulerReturns.SuccessMeansRan | internal/scheduler/scheduler.go:123-176 | in every reachable state a leader without an error has a finished run of `fn` with that value |
| SchedulerLastRun.LastRunIsShown | internal/scheduler/scheduler.go:163-172 | a host shows the key and a time of the last run that was recorded on it, and none when there was no such run |
| SchedulerProgress.Progress | internal/scheduler/scheduler.go:91-176 | while a caller is unfinished, some caller can move without any context ending: no deadlock |
| SchedulerProgress.WorkFalls | internal/scheduler/scheduler.go:91-176 | every action strictly lowers one global measure |
| SchedulerProgress.EveryRunIsFinite | internal/scheduler/scheduler.go:91-176 | a run of n callers has at most 28 n actions |
| SchedulerProgress.MaximalRunsServeAll | internal/scheduler/scheduler.go:91-176 | a run that cannot go on has finished every caller |
| SchedulerProgress.Completes | internal/scheduler/scheduler.go:91-176 | from every invariant state a run without cancellations finishes all callers |
| SchedulerProgress.Quiescent | internal/scheduler/scheduler.go:111-176 | when all callers have finished, every slot, token, registration and gauge is given back |
| SchedulerNames.OnePerNameWithin | internal/scheduler/scheduler.go:178-202 | with at most 1024 host names no two callers hold the gate of one name |
| SchedulerNames.RunsPerNameWithin | internal/scheduler/scheduler.go:6-15 | with at most 1024 host names no two runs of one name overlap, and any two are the gap apart, end to start |
| SchedulerCrowd.TwoAtOneName | internal/scheduler/scheduler.go:183-187 | a reachable state of 1025 names in which two callers hold the gate of one name |
| SchedulerCrowd.OnePerNameExactly | internal/scheduler/scheduler.go:178-202 | the gate admits one caller per name in all runs with at most n names if and only if n <= 1024 |
| SchedulerNameRuns.OneSlotIsSerial | internal/scheduler/scheduler.go:145-164 | with a single slot every run has ended when the next begins |
| SchedulerNameRuns.PairInFn | internal/scheduler/scheduler.go:145-164 | with two slots, a reachable state of 1025 names in which two callers of one name are inside `fn` |
| SchedulerNameRuns.PairWithoutGap | internal/scheduler/scheduler.go:133-164 | with a gap and any number of slots, a reachable state of 1025 names in which a run of one name follows another without the gap |
| SchedulerNameRuns.OneRunPerNameExactly | internal/scheduler/scheduler.go:6-15 | runs of one name never overlap, in all runs with at most n names, if and only if n <= 1024 or there is a single slot |
| SchedulerNameRuns.SpacedByNameExactly | internal/scheduler/scheduler.go:6-15 | runs of one name are the gap apart, in all runs with at most n names, if and only if n <= 1024, or there is a single slot and no gap |
| SchedulerObject.Pacer.Join | internal/scheduler/scheduler.go:94-109 | the first section of `Do`, as the transition system's step on `inflight`, records and statistics |
| SchedulerObject.Pacer.HostState | internal/scheduler/scheduler.go:178-189 | the object returned and the map and heap afterwards, pruning before `usedAt` is set |
| SchedulerObject.Pacer.PruneLocked | internal/scheduler/scheduler.go:192-202 | in any order of iteration, exactly the stale entries go, and only above the limit |
| SchedulerObject.Pacer.Mark | internal/scheduler/scheduler.go:221-228 | at each of the ten points that call it, the transition system's step on objects and statistics |
| SchedulerObject.Pacer.HostWait | internal/scheduler/scheduler.go:204-219 | after sleeping the returned time the gap since the host's last run has passed |
| SchedulerObject.Pacer.CountTimeout | internal/scheduler/scheduler.go:230-234 | the transition system's step on the statistics of a caller that timed out |
| SchedulerObject.Pacer.RecordRun | internal/scheduler/scheduler.go:163-172 | the transition system's step at the end of a run, on objects and statistics |
| SchedulerObject.Pacer.Leave | internal/scheduler/scheduler.go:111-114 | the transition system's step on `inflight` of a leader that leaves |
| SchedulerObject.Pacer.TakeSnapshot | internal/scheduler/scheduler.go:258-290 | every registered host appears once with its counters and remaining cooldown |
| SchedulerObject.CooldownIsThePause | internal/scheduler/scheduler.go:273-279 | the cooldown shown is the pause a caller would be told, jitter aside |
| SchedulerObject.HostStatsCountCallers | internal/scheduler/scheduler.go:280-287 | the queued and running shown for a host are the callers queued for its object and inside `fn` on it |
| PoolInvariant.InvMove | internal/browser/pool.go:80-247 | every action of `acquire`, `release`, `retire` and `newPage` keeps the invariant of all generations |
| PoolInvariant.InvReachable | internal/browser/pool.go:80-257 | the invariant holds in every reachable state, whatever tabs die and generations end |
| PoolInvariant.CountsStep | internal/browser/pool.go:103-116 | `created`, `busy` and `retired` stay the counts they stand for |
| PoolInvariant.WaitsStep | internal/browser/pool.go:103-138 | what a waiter's captured channel says about the pool is kept by every action |
| PoolSafety.StatBounds | internal/browser/pool.go:67-77 | idle + busy <= created <= size in every reading |
| PoolSafety.Conservation | internal/browser/pool.go:89-182 | `created` is the idle tabs plus the tabs and slots in clients' hands; `retired` counts the retired tabs |
| PoolSafety.SendNeverBlocks | internal/browser/pool.go:154-157 | the send made while holding the mutex always has room |
| PoolSafety.NoLostWakeup | internal/browser/pool.go:107-132 | if a tab is idle or a slot is free, the channel of every waiter has been closed |
| PoolSafety.OnePlace | internal/browser/pool.go:80-187 | a tab is in exactly one place: retired, idle or in one client's hands |
| PoolSafety.OneLease | internal/browser/pool.go:89-101 | no tab is in two clients' hands, across generations too |
| PoolSafety.OwnGeneration | internal/browser/session_tab.go:29-42 | idle and leased tabs belong to the generation they are filed under, even after a replacement |
| PoolSafety.RetiredForever | internal/browser/pool.go:168-187 | a retired tab stays retired, and a tab never changes its generation |
| PoolProgress.Progress | internal/browser/pool.go:80-187 | while a client is unfinished, some client can move without a failure |
| PoolProgress.NotificationsFall | internal/browser/pool.go:135-182 | the bound on the broadcasts still to come falls with every broadcast |
| PoolProgress.WorkFalls | internal/browser/pool.go:80-187 | every action of a client lowers one measure, retries of the acquire loop included |
| PoolProgress.EveryRunIsFinite | internal/browser/pool.go:80-187 | the number of client actions in any run is bounded: no endless retrying |
| PoolProgress.MaximalRunsServeAll | internal/browser/pool.go:80-187 | a run that cannot go on has served every client and every pool is at rest |
| PoolReuse.ReleaseReturnsExactly | internal/browser/pool.go:140-158 | a client that has given its tab back has put it among the idle ones if and only if it was reported healthy, was alive, was parked and was still alive; otherwise the tab is retired |
| PoolReuse.BrokenTabsAreRetired | internal/browser/pool.go:141-146 | a tab reported broken is never idle or leased again, and retired once its client has ended |
| PoolReuse.FailedTabsStayOut | internal/browser/pool.go:92-158 | the same of a tab that fails any test of `acquire` or `release`, in every continuation |
| PoolReuse.IdleIsEarned | internal/browser/pool.go:147-157 | a tab that was not idle and now is was given back healthy and passed every test since |
| PoolReuse.IdleTabsPassedAllTests | internal/browser/pool.go:140-158 | from the start, every idle tab came there by such a release |
| PoolReuse.LeasedTabsWereAlive | internal/browser/pool.go:92-121 | whoever has a tab opened it itself or found it alive when taking it from the idle ones |
| PoolReuse.TakenIsLeasedExactly | internal/browser/pool.go:94-101 | an idle tab that was taken goes to the client if and only if it is alive; otherwise it is condemned |
| PoolReuse.ServedOrRefused | internal/browser/pool.go:80-133 | a client that ends without a tab was refused: its context ended, its own operation failed or its generation was stopped |
| PoolReuse.EveryoneIsServed | internal/browser/pool.go:80-133 | a run that cannot go on has given a tab to every client it did not refuse |
| PoolReuse.SweepReachesAll | internal/browser/pool.go:241-257 | until a generation is swept its list has exactly its working tabs, so the sweep reaches them all |
| PoolReuse.StartsInTheNewest | internal/browser/browser.go:146-188 | a client starts in the newest generation |
| PoolObject.TabPool.Look | internal/browser/pool.go:89-108 | the locked section of `acquire`: takes an idle tab, or reserves a slot, or captures the channel |
| PoolObject.TabPool.Unreserve | internal/browser/pool.go:112-116 | the slot is given up and the waiters are woken |
| PoolObject.TabPool.Return | internal/browser/pool.go:154-157 | the tab is the last idle one, waiters are woken, and the channel does not overflow |
| PoolObject.TabPool.Unpool | internal/browser/pool.go:172-182 | counters, list and notification of a retirement |
| PoolObject.TabPool.Unlist | internal/browser/pool.go:175-180 | the first occurrence is removed from the list, if there is one |
| PoolObject.TabPool.TakeId | internal/browser/pool.go:196-199 | a number no earlier tab of the pool got |
| PoolObject.TabPool.List | internal/browser/pool.go:241-243 | the tab is listed last |
| PoolObject.TabPool.TakeAll | internal/browser/pool.go:249-253 | the list is handed over, and what is left is the transition system's sweep of this generation |
| PoolObject.TabPool.MarkBusy | internal/browser/pool.go:189-193 | +1 is the transition system's action after taking a tab, -1 the one that begins a release |
| PoolObject.TabPool.Stat | internal/browser/pool.go:67-77 | one consistent reading; in every reachable state it shows idle + busy <= created <= size |
| SessionLease.InvReachable | internal/session/session.go:133-233 | each session is registered once, or ahead of one thread once, or closing; closing pays for one release |
| SessionLease.ReleasedAtMostOnce | internal/session/session.go:169-233 | under any interleaving of Close and Reap a session's release runs at most once, and not while it is registered |
| SessionLease.ReleasedExactlyOnce | internal/session/session.go:214-233 | when all threads are done, a session is still open or was released exactly once |
| SessionLease.SessionsBounded | internal/session/session.go:133-154 | the limit is exceeded by at most the overlap of Opens less one |
| SessionLease.LimitCanBeExceeded | internal/session/session.go:134-154 | for every limit of at least one, a run in which two Opens overlap and one session too many is open |
| SessionLease.LimitHoldsExactly | internal/session/session.go:134-154 | each limit holds in all runs with at most n overlapping Opens if and only if n <= 1 or the limit is zero |
| SessionProgress.NobodyBlocks | internal/session/session.go:133-233 | a thread that has not ended can act |
| SessionProgress.WorkFalls | internal/session/session.go:133-233 | every action lowers one measure, whatever is closed or found idle |
| SessionProgress.EveryRunIsFinite | internal/session/session.go:133-233 | a run of n threads has at most 6 n actions |
| SessionProgress.MaximalRunsRelease | internal/session/session.go:214-233 | a run that cannot go on has ended every thread, and every session is open or was released exactly once |
| SessionObject.Manager.Reserve | internal/session/session.go:134-141 | the check of the limit and the new id, as the transition system's step |
| SessionObject.Manager.Lease | internal/session/session.go:143-151 | a new session object around the leased tab |
| SessionObject.Manager.Insert | internal/session/session.go:152-154 | the session is registered under its id |
| SessionObject.Manager.Take | internal/session/session.go:170-178 | Close removes the session it goes on to close, or finds none |
| SessionObject.Manager.TakeExpired | internal/session/session.go:193-207 | in any order of iteration, exactly the idle sessions leave the map, each listed once |
| SessionObject.Manager.StartClosing | internal/session/session.go:215-222 | exactly the first closer goes on |
| SessionObject.Manager.Release | internal/session/session.go:231 | one more call of the release function |
| Like.SearchIsContains | internal/history/history.go:278-280 | t LIKE pattern(s) ESCAPE '\' if and only if t contains s up to ASCII case, for every s, with %, _ and backslashes |
| Like.QuotedMatches | internal/history/history.go:278-280 | an escaped text in front of any pattern matches itself and nothing else |
| Like.PatternLength | internal/history/history.go:278-280 | a pattern is at most twice its filter and two characters long |
| History.Validate | internal/history/history.go:52-78 | accepts exactly the valid queries, and otherwise reports the first thing wrong |
| History.AddMatches | internal/history/history.go:339-346 | one condition and two arguments for each value, in order |
| History.AddHosts | internal/history/history.go:347-354 | the hosts share one condition, with one argument each |
| History.BuildQuery | internal/history/history.go:329-363 | the condition, the arguments in the order of their placeholders and the limit as the last one |
| History.ReadRows | internal/history/history.go:370-403 | within limit and size; marked truncated if and only if the rows are not the complete selection; stops only for the limit or the size |
| History.FitsIsUncut | internal/history/history.go:364-388 | a field cut by substr is still too long, so no row that is kept was cut |
| History.KeptRowsFit | internal/history/history.go:385-398 | the rows kept are exactly the selected ones that fit |
| History.KeptInOrder | internal/history/history.go:374-398 | the rows kept are in the order of the selection |
| History.SizeCoversTheBody | internal/history/history.go:370-398 | the reckoned size covers the rows, their commas and 4096 bytes for the rest |
| HistoryMeaning.PlaceholdersMatchArguments | internal/history/history.go:329-363 | as many arguments as placeholders, for every query |
| HistoryMeaning.WhereMeansFilter | internal/history/history.go:329-358 | the condition parses, and on every row its value is the documented filter |
| HistoryMeaning.SelectionIsDocumented | internal/history/history.go:323-364 | on every table the statement selects exactly the visited, unhidden rows that pass the filter |
| HistoryMeaning.SelectedExactly | internal/history/history.go:323-364 | the query selects a row if and only if it describes a visited, unhidden row of the table that passes the filter, with its time in milliseconds since 1970 |
| HistoryMeaning.ParseConditions | internal/history/history.go:355-358 | joined conditions parse as their conjunction: no OR escapes its parentheses |
| AreaAverage.BoxesPartition | internal/screenshot/image.go:111-113 | every pixel of a line is in exactly one box |
| AreaAverage.PixelsPartition | internal/screenshot/image.go:107-116 | every source pixel belongs to exactly one destination pixel |
| AreaAverage.BoxSpan | internal/screenshot/image.go:112-113 | a box spans one or two pixels |
| AreaAverage.BoxIsSmall | internal/screenshot/image.go:112-126 | a box lies inside the picture, holds one, two or four pixels, and no channel sum can overflow |
| AreaAverage.MeanBetween | internal/screenshot/image.go:114-126 | the rounded mean lies between the bounds of the box |
| AreaAverage.ShrunkIsTheMean | internal/screenshot/image.go:101-126 | each channel of a smaller pixel is the value, or the mean rounded down, of the one, two or four source pixels in its box |
| AreaAverage.EdgeIsFloor | internal/screenshot/image.go:112-113 | the edge of a box is the rounded-down quotient |
| AreaAverage.ShrunkBetween | internal/screenshot/image.go:106-128 | each channel of a smaller pixel lies within the range of its own box |
| AreaAverage.AverageBox | internal/screenshot/image.go:114-126 | the two inner loops compute the four means of the box |
| AreaAverage.ShrinkRow | internal/screenshot/image.go:111-127 | writes one row of the smaller picture and touches no other |
| AreaAverage.Shrink | internal/screenshot/image.go:101-129 | the new picture is the reduction of the old one, pixel for pixel |
| ScreenshotSplit.Encode | internal/screenshot/image.go:85-131 | the first attempt of the ladder that is not too large decides; the refusal comes only after every size at every quality |
| ScreenshotSplit.EncodedIsUnique | internal/screenshot/image.go:85-131 | a picture has one answer and one deciding attempt |
| ScreenshotSplit.LadderFromFullWidth | internal/screenshot/image.go:101-104 | from width 1280 there are at most six sizes: 1280, 960, 720, 540, 405, 303 |
| ScreenshotSplit.EncodedIsBounded | internal/screenshot/image.go:85-104 | at most 18 attempts, and a tile keeps to the byte limit |
| ScreenshotSplit.ImageIsTheBest | internal/screenshot/image.go:85-105 | every larger size, and every higher of the qualities 85, 70 and 55 at its own size, came out too large |
| ScreenshotSplit.Crop | internal/screenshot/image.go:67-68 | the crop is the rows of its span |
| ScreenshotSplit.CutTiles | internal/screenshot/image.go:61-82 | every tile of the tiling, cropped and encoded in order, or the fault of the first that cannot be encoded |
| ScreenshotSplit.Split | internal/screenshot/image.go:43-83 | each refusal in its order; otherwise what cutting the picture into tiles yields |
| ScreenshotSplit.SpansTile | internal/screenshot/image.go:62-80 | the spans are in order, start at the top, end at the bottom, are non-empty, at most 1400 tall, and neighbours share exactly 100 rows |
| ScreenshotSplit.SpansCover | internal/screenshot/image.go:62-80 | every row is in some tile |
| ScreenshotSplit.SpansAreFewest | internal/screenshot/image.go:62-80 | no tiling of that height and overlap has fewer tiles |
| ScreenshotSplit.SpansWithinLimit | internal/screenshot/image.go:51-77 | a permitted height needs at most ten tiles |
| ScreenshotSplit.SplitIsBounded | internal/screenshot/image.go:43-83 | a capture has one to ten tiles on exactly these spans, within the byte limit; the segment-limit fault is unreachable |
| ScreenshotSplit.TileShowsItsRows | internal/screenshot/image.go:61-82 | the image of each tile is what the encoder made of exactly the rows it names |
| CaptureStore.WeighTiles | internal/screenshot/store.go:71-80 | the weight of a capture, or the fault of the checks before the lock |
| CaptureStore.SplitIsStorable | internal/screenshot/store.go:71-80 | what Split produces passes these checks if and only if the encoder yielded no empty image |
| CaptureStore.Store.ReapLocked | internal/screenshot/store.go:110-117 | in any order of iteration, exactly the entries expired at their own readings go, and the byte count follows |
| CaptureStore.Store.Add | internal/screenshot/store.go:70-92 | faults of the capture come before the lock; then the expired go, the limits decide, and an accepted capture is stored under its own id and answered with its first segment |
| CaptureStore.Store.Get | internal/screenshot/store.go:94-107 | the expired go; a foreign, unknown or expired id is refused alike, a bad number differently, and otherwise the stored segment is answered |
| CaptureStore.Store.Reap | internal/screenshot/store.go:109 | exactly the expired go |
| CaptureStore.StepFollows | internal/screenshot/store.go:70-117 | one call keeps the store in step with a ledger that never deletes |
| CaptureStore.AnswersAreTheLedgers | internal/screenshot/store.go:70-117 | in every run every answer is the ledger's: lazy expiry cannot be observed |
| CaptureStore.LimitsHold | internal/screenshot/store.go:85-90 | after every call the byte count is the sum over the entries, at most 64 MiB, with at most 32 entries |
| CaptureStore.NothingUnexpiredIsLost | internal/screenshot/store.go:81-91 | no call removes an entry that is unexpired at its reading; Add evicts nothing |
| CaptureStore.GetSeesExactlyTheFresh | internal/screenshot/store.go:94-107 | Get serves exactly what that owner added less than the time to live ago, with the stored tile, and tells a bad segment number only to the owner |
| CaptureStore.ServedIsWhatWasAdded | internal/screenshot/store.go:94-129 | what is served is the requested tile of what was added, with its id, address and page sizes, and it expires ten minutes after it was added |
| CaptureStore.AddServesTheFirst | internal/screenshot/store.go:86-92 | an accepted Add answers with the first segment |
| CaptureStore.EntriesWeighTheirData | internal/screenshot/store.go:74-91 | the bytes charged for an entry are the bytes of its images |
| CaptureStore.ReapIsInvisible | internal/screenshot/store.go:109-117 | leaving out any one call of the reaper changes no other answer |
| Macros.Validate | internal/macro/macro.go:108-158 | no fault if and only if the macro is valid; otherwise the first fault, with everything before it in order |
| Macros.ValidateStep | internal/macro/macro.go:118-156 | no reason if and only if the step is good; otherwise a reason that holds of the step |
| Macros.StrictIsDraftWithSecrets | internal/macro/macro.go:93-106 | strict validity is draft validity and no type step that lacks both reference and pause |
| Macros.SanitizeId | internal/macro/macro.go:183-194 | the loop computes the file name |
| Macros.SanitizedIsSafe | internal/macro/macro.go:183-194 | names are safe, sanitizing twice changes nothing, and exactly the safe names are left alone |
| Macros.SanitizedFoldsCase | internal/macro/macro.go:183-194 | ids that differ in the case of ASCII letters share a file, named after the lower-case one |
| Macros.AgentEditKeepsIdentity | internal/server/macro.go:366-425 | no sequence of agent operations touches id, site, creation time or approval |
| Macros.MoveIsUndone | internal/server/macro.go:416-421 | a move permutes the steps, and the opposite move restores them |
| Macros.AppendIsUndone | internal/server/macro.go:393-415 | dropping the appended step restores the steps |
| Macros.AppendAddsLast | internal/server/macro.go:393-401 | the new step is the last and all others stay |
| Macros.ReplaceTouchesOne | internal/server/macro.go:402-410 | the step at the index is exchanged for one that keeps nothing of it, and no other changes |
| Macros.DropRemovesOne | internal/server/macro.go:411-415 | the step at the index goes and those after it move up |
| Macros.MoveGoesThatWay | internal/server/macro.go:416-421 | "up" exchanges a step with the one before it, "down" with the one after it, and a number goes before both |
| Macros.DescriptionIsTheLast | internal/server/macro.go:366-373 | the description is the text the last operation carries, else that of the last set_description, else the old one |
| Macros.BadOpChangesNothing | internal/server/macro.go:388-425 | an operation that is unknown, lacks its step or is out of bounds changes nothing |
| Macros.SkipBadOp | internal/server/macro.go:366-373 | such an operation may be left out of a list wherever it stands |
| Macros.Draft.ApplyEditOp | internal/server/macro.go:391-425 | one operation changes the draft as specified; unknown or out of bounds, it changes nothing |
| Macros.Draft.Mutate | internal/server/macro.go:366-373 | all operations in order, then the description of the last |
| MacroStore.SectionKeeps | internal/macro/macro.go:202-396 | every lock-held section keeps each stored macro a valid draft and each approved one strictly valid and exactly what Approve read |
| MacroStore.RefusalChangesNothing | internal/macro/macro.go:202-396 | a refused section changed nothing, but for a promotion that could not remove the orphan |
| MacroStore.OneFile | internal/macro/macro.go:179-181 | a section touches the file of one sanitized id only |
| MacroStore.PutThenGet | internal/macro/macro.go:202-239 | a stored macro is read back unchanged under every id with its file name, and no other file moved |
| MacroStore.PutIsStored | internal/macro/macro.go:202-226 | when a put is accepted, if and only if; then the draft is what every spelling of its id reads, and all else reads as before |
| MacroStore.UpdateIsStored | internal/macro/macro.go:266-279 | an update is accepted if and only if there is a macro, its edit is a valid draft and the write succeeds; then the edit, without approval, is what is stored, and all else reads as before |
| MacroStore.AppendedIsStored | internal/server/macro.go:393-401 | a step appended to a stored draft is there afterwards |
| MacroStore.ApproveIsStored | internal/macro/macro.go:384-396 | when an approval is accepted, if and only if; it adds the stamp and nothing else |
| MacroStore.PromoteIsStored | internal/macro/macro.go:353-374 | when a promotion is accepted, if and only if; then the parked draft is stored and no longer parked |
| MacroStore.DeleteThenGet | internal/macro/macro.go:288-296 | a deleted macro is gone under every spelling of its id, and no other is |
| MacroStore.DiscardIsGone | internal/macro/macro.go:377-381 | a discarded draft is gone, and no other parked draft is |
| MacroStore.StoredAndParkedApart | internal/macro/macro.go:202-396 | sections on stored macros leave the parked drafts alone, and parking and discarding leave the stored ones |
| MacroStore.OneOrphan | internal/macro/macro.go:302-381 | a section touches the parked draft of one sanitized id only |
| MacroStore.RefusalIsJust | internal/macro/macro.go:202-396 | every refusal gives the reason that applies |
| MacroStore.OnlyApproveApproves | internal/macro/macro.go:266-279 | no section but Approve makes a file approved |
| MacroStore.PromoteKeepsApproved | internal/macro/macro.go:353-374 | a promotion replaces no approved macro, under any spelling of the id |
| MacroStore.EditClearsApproval | internal/macro/macro.go:266-279 | an update leaves a draft, which is approved again only if strictly valid |
| MacroStore.RevokeUndoesApprove | internal/macro/macro.go:283-285 | revoking restores the files as they were before the approval |
| MacroStore.BadOpIsSkipped | internal/server/macro.go:388-425 | an update with such an operation is refused exactly when it would be without it, and stores the same steps |
| MacroStore.BadOpIsAccepted | internal/server/macro.go:388-425 | on its own such an operation is accepted for every stored draft and leaves the store as it was |
| MacroStore.OutOfBoundsIsAccepted | internal/server/macro.go:411-415 | dropping step 7 of a macro of one step is accepted |
| MacroStore.RegistryCostsItsNamesake | internal/macro/editable.go:152-173 | saving the registry keeps the store sound and replaces a macro if and only if it has the name of the registry's file |
| MacroStore.Store.SaveRegistry | internal/macro/editable.go:152-173 | the registry's file replaces whatever had its name |
| MacroStore.Store.Put | internal/macro/macro.go:202-226 | new files and refusal, per validity, existence and overwriting |
| MacroStore.Store.Update | internal/macro/macro.go:266-279 | new files and refusal; the stamp is cleared before validation |
| MacroStore.Store.Approve | internal/macro/macro.go:384-396 | new files and refusal; what was read is what is certified |
| MacroStore.Store.Delete | internal/macro/macro.go:288-296 | the file is gone, or was not there |
| MacroStore.Store.PutOrphan | internal/macro/macro.go:302-315 | the draft is parked under its sanitized id |
| MacroStore.Store.PromoteOrphan | internal/macro/macro.go:353-374 | refusals in order, then stored, then no longer parked |
| MacroStore.Store.DiscardOrphan | internal/macro/macro.go:377-381 | the parked draft is gone, or was not there |
| MacroStore.Store.WriteLocked | internal/macro/macro.go:412-422 | exactly the macro's own file is replaced, or nothing |
| MacroAgents.ApprovalCertifies | internal/macro/macro.go:202-506 | in every interleaving of operator, registry and agent, every stored macro is a valid draft and every approval certifies the exact steps |
| MacroFreeze.AgentThawsExactly | internal/macro/macro.go:494-506 | an agent event changes an approved macro if and only if it commits a valid result onto a file approved by then, the write succeeds and, for a put, overwrites |
| MacroFreeze.FreezeFailsOnlyInARace | internal/macro/macro.go:494-506 | then an approval of that macro landed between the same call's read and its commit |
| MacroFreeze.FreezeCanFail | internal/macro/macro.go:494-506 | a run in which an agent's edit clears a fresh approval |
| MacroFreeze.PlainPutIsHarmless | internal/macro/macro.go:473-489 | a put without overwriting changes no stored macro, in any interleaving |
| MacroFreeze.WholeUpdate | internal/macro/macro.go:494-506 | taken whole, AgentUpdate changes no approved macro, approves none, and writes only on editable sites |
| MacroFreeze.WholePut | internal/macro/macro.go:473-489 | the same of AgentPut, with or without overwriting |
| MacroFreeze.UpdateIsItsEvents | internal/macro/macro.go:494-506 | AgentUpdate taken whole is its read, its check of the site and its locked section |
| MacroFreeze.PutIsItsEvents | internal/macro/macro.go:473-489 | AgentPut taken whole is its check of the site, its read and its locked section |
| Recording.Recorder.Ingest | internal/macro/recorder.go:184-247 | one event appends its step, or replaces the navigation it directly follows; errors for exactly the rejected payloads |
| Recording.Recorder.AddEvent | internal/macro/recorder.go:184-247 | after any events the steps are the recorded meanings with each run of navigations reduced to its last |
| Recording.Recorder.Draft | internal/macro/recorder.go:259-266 | the draft of everything received, without approval |
| Recording.CollapseAnother | internal/macro/recorder.go:215-231 | replacing the last navigation step by step is the collapse of all runs of navigations |
| Recording.CollapsedHasNoAdjacentNavs | internal/macro/recorder.go:215-231 | a recording has no two navigations in a row |
| Recording.OnlyAdjacentNavsCollapse | internal/macro/recorder.go:215-231 | exactly the recordings without two navigations in a row are left alone |
| Recording.CollapsedKeepsInteractions | internal/macro/recorder.go:215-231 | no interaction is lost or reordered |
| Recording.DraftIsValidExactly | internal/macro/recorder.go:200-246 | the draft passes draft validation if and only if id and site are not blank, something was recorded and every fill has a non-blank first candidate; strict validation if, besides, nothing was typed |
| Recording.RecordingIsKeptExactly | internal/server/macro.go:200-218 | a stopped recording is held if and only if the store takes it, it can be parked, or it was held before; no stored macro is touched |
| Recording.StoppingKeeps | internal/server/macro.go:200-218 | stopping a recording keeps the store sound |
| Recording.EarlierDraftSurvivesExactly | internal/macro/macro.go:302-315 | an earlier parked draft survives if and only if the new one is not parked under its name, or is the same |
| Recording.ParkingCanLose | internal/macro/macro.go:302-315 | two recordings parked under one name, after which the first is gone |
| Recording.ParkedIsRecoverable | internal/macro/macro.go:302-374 | a parked draft is recovered by a promotion if and only if it is valid and no approved macro has its name |
| RecordedReplay.StepsOfKeptEvents | internal/macro/recorder.go:200-246 | the steps are those of the interactions and of the last navigation of each run, in the order of the events |
| RecordedReplay.ReplayReenactsTheRecording | internal/macro/replay.go:87-104 | a replay that completes does again, in order and once each, what the human did in these events: the click on the recorded element, the address, the filled field |
| RecordedReplay.RecordingCanReplayExactly | internal/macro/replay.go:87-104 | an approved recording can be replayed to its end if and only if it was approvable as it stood and every click has a recorded selector or a long enough text |
| Replay.Run | internal/macro/replay.go:87-104 | how a replay may end and what it has executed by then, for every executor, resolver and human |
| Replay.RunStep | internal/macro/replay.go:114-142 | one step of any kind: its own requirement, its one action, the failure reported and the probe after it |
| Replay.RunPause | internal/macro/replay.go:226-255 | the wait, its timeout and the assertion after it |
| Replay.RunType | internal/macro/replay.go:259-279 | one action with the resolved value, or none |
| Replay.RunClick | internal/macro/replay.go:303-322 | one action with the recorded candidates first, or none |
| Replay.TextXPaths | internal/macro/replay.go:326-349 | there are text probes if and only if the trimmed text is long enough, counted in bytes |
| Replay.RunAutofill | internal/macro/replay.go:286-298 | one action, or none |
| Replay.RunPlain | internal/macro/replay.go:130-138 | one action, or none |
| Replay.DumpPage | internal/macro/replay.go:148-181 | at most one probe, of the step's own selectors |
| Replay.ReplayIsAPrefix | internal/macro/replay.go:83-104 | every step that passed has executed exactly one action of its own, in order and with success, but for a pause without an assertion; the reported step executed one if and only if that failed; then at most the probe that is due, and nothing else |
| Replay.ProbesEverySelector | internal/macro/replay.go:158-170 | the probe asks for every selector the step has and for no other |
| Replay.CauseIsTrue | internal/macro/replay.go:114-322 | the cause of an abort names what the step, the configuration or the outside really lacks |
| Replay.CandidatesAreTheLadder | internal/macro/replay.go:304-308 | a click tries the recorded selectors first, in order, then probes that contain the recorded text if it is long enough |
| Replay.EscapedIsReversible | internal/macro/replay.go:330 | escaping puts a backslash before every quote and does nothing else |
| Replay.PauseEnds | internal/macro/replay.go:230-236 | a wait has a positive timeout: the step's own, else the configured one, else five minutes |
| Replay.ReportedStepIsTheFirst | internal/macro/replay.go:94-103 | the reported step is the first that fails |
| Replay.RefusedRunsExecuteNothing | internal/macro/replay.go:88-93 | steps run if and only if the macro is approved or test-replayed and strictly valid; otherwise nothing is executed |
| Replay.FillsHaveSelectors | internal/macro/replay.go:291-293 | no replay stops for a missing autofill selector |
| Replay.MissingSecretExactly | internal/macro/replay.go:264-266 | a replay stops for a missing secret reference if and only if it reaches a type step that a pause excused from carrying one |
| Replay.CanLackSecretExactly | internal/macro/replay.go:226-322 | some replay stops at step k for a missing reference if and only if the macro is admitted, step k is a type step without one and the steps before it are passable by themselves |
| Replay.CanLackSecretSomewhere | internal/macro/macro.go:132-140 | whether a macro can stop for a missing reference at all is decided by its steps |
| Replay.CanCompleteExactly | internal/macro/replay.go:87-104 | some replay completes if and only if the macro is admitted and every step is passable by itself |
| Replay.ProfileIsIgnored | internal/macro/replay.go:87-104 | no replay depends on the profile hash of the macro |
| Replay.UnpausedTypesHaveSecrets | internal/macro/macro.go:132-140 | without paused type steps no replay of a valid macro stops for a missing reference |
| Replay.ApprovedButNeverReplayed | internal/macro/macro.go:132-135 | an approvable macro that every replay stops at |
| Replay.HandleReplay | internal/server/macro.go:480-510 | the gate, then the session, then the replay, and nothing executed without all three |
| Replay.EndpointIsGated | internal/server/macro.go:480-510 | through the endpoint steps run if and only if there is a session and the macro is strictly valid and approved or of an editable site |

## Left out

- Chrome and CDP: navigation, parking, page creation, snapshots and media blocking are outcomes the environment picks.
- Codecs: the JPEG encoder is any function of picture and quality, the PNG decoder any result that matches its header; the SHA-256 of a tile is not part of this model.
- SQLite: only LIKE with an escape, AND, OR, parentheses, comparisons and integer division are given a meaning; ORDER BY, LIMIT, snapshot copying, NULL urls, NUL characters inside text and the integrity check are not.
- HTTP, JSON encoding, templates, metrics, logging, configuration and deployment: plumbing around the modelled functions.
- Counter widths: the scheduler's 64-bit counters and the pool's machine integers are unbounded here.
- Panics inside `fn`: the deferred clean-up then leaves a record without error; only returns are modelled.
- The order in which blocked callers are served: the model lets any of them go first, so starvation under an endless stream of new callers is neither claimed nor excluded.
- The start of a sleep: the timer is set when the caller marks itself queued, slightly earlier than in the code; the gap is proved from the wake-up reading.
- The tabs cancelled one by one by `closeAll`: each may die at any time in the model, which allows more than the code does.
- `currentPool` under its own mutex: the probe, the replacement and the sweep of the old generation are separate events, which allows more interleavings than the code.
- `Fetch`: its attempt loop, challenge handling and capture slots; the pool sees it as a client that acquires and releases.
- Session actions (`Run`, the evidence log, holds, assertion freshness): only the lease is modelled, and nothing is claimed about a `Run` still executing after the release.
- Context ends inside `Split` and `encode`: they only add an early error.
- The segment's constant fields (protocol version, viewport width, MIME type, base64) and `rand.Text`.
- The editable-site registry: abstracted to a set of sites and the presence of its file; its normalisation, the reading of the file on first use and the sites it then yields are not part of this model.
- Listing of macros and orphans, and `HashProfile`.
- Read errors on existing files: `AgentPut` treats an unreadable file as absent, which the model does not have.
- JSON details of steps: duplicate or differently cased keys, invalid UTF-8, and JSON built from an arbitrary recorder `field`.
- Capture times, screenshot hashes and element attributes of recorded steps.
- Pause and resume rendezvous: `WaitResume` is an arbitrary success or failure; two waits on one macro id are not modelled.
- Challenge detection, URL guard, tokens, request log, secret resolver: single-branch or plumbing.
