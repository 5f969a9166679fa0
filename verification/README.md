# pthrlib, modelled and proved in Dafny

pthrlib is a cooperative threading runtime in C: a reactor that polls descriptors and fires timers, threads
that give up the processor only inside blocking calls, locks built from wait queues, buffered I/O on sockets,
and the small text codecs an HTTP server needs. This project models the parts whose correctness rests on
several small state machines working together, and proves what the source argues for only in comments.

`dafny verify dfyconfig.toml` checks everything. The modules follow the source files.

| modules | source | what they hold |
|---|---|---|
| `WaitQueues`, `Mutexes`, `RwLocks` | wait queue, mutex and rwlock | the objects, updated in place |
| `LockProtocol`, `LockProofs`, `LockTheorems`, `LockEffects` | the same, as a protocol | every wait queue, mutex and rwlock of a process as one state machine; an invariant of all runs; the theorems; what each step does |
| `ReaderWakeups`, `OverlookedReaders` | rwlock | which steps leave readers asleep that could enter |
| `WakePasses` | wait queue and reactor | the prepoll pass over the handlers that carry wake-ups |
| `TimerQueues`, `TimerRuns` | reactor timers | the linked delta queue, refining a list of absolute deadlines; all runs of that list |
| `PollTables` | reactor handles | the handle table and shared poll array, refining a map; dispatch with callbacks |
| `Prepolls` | reactor prepoll list | the linked list, and the pass whose callbacks change it |
| `Lifecycle`, `LifecycleProofs`, `LifecycleEffects`, `Schedulers` | pseudothreads | who runs, who called whom, what names whom; what each step does; the same in place |
| `Exceptions` | pseudothreads | jump buffers against structured exceptions |
| `IoStreams`, `IoHandles`, `IoRuns` | buffered I/O | two bounded buffers, refining two byte streams |
| `HexDigits`, `Cgi`, `CgiParams` | CGI | escaping, query strings, the parameter table |
| `HttpChunks`, `HeaderBits`, `HttpLengths`, `HttpResponses` | HTTP | chunked coding, and the headers that decide persistence |

## How it is modelled

**Locks.** A step of `LockProtocol` is what happens between two context switches: one call of a thread, one
thread resumed by a prepoll handler and taken round the loop it was sleeping in, an exit, an alarm. Runs are
arbitrary sequences of such steps over any number of threads and locks, so barging, priority changes and
exits that release any number of locks in any order are all covered. `Exit` and `Alarm` take the order in which
pool deletion runs the cleanups; it must list exactly the locks held. The one demand on callers is that no
thread enters an rwlock it is already inside, because the holder table has one entry per thread. Reaching an
`abort` or failing an `assert` is a state from which nothing more happens; the proofs say exactly which steps get
there. One of them is an alarm for a thread that has already been moved to a private wake list, which the loop
in `wq_sleep_on` does not find.

**Threads.** `Lifecycle` does what the C code does through `current_pth`, saved contexts and raw pointers in the same
way; using one that is wrong breaks the state, and the proofs show that no run does. A handle, a timer or an entry
of a wake list is all that a callback needs to switch into the thread it names; that the thread is suspended there
is proved. `Schedulers` performs the same steps in place.

**Callbacks.** Code the library calls back is a method that makes any number of arbitrary calls
(`TimerQueue.Callback`, `PollTable.Callback`, `PrepollList.Callback`), and the theorems hold for all of them. The
loops that call back record each call where it is made, and go turn by turn: a call, and what its callback does.
Callbacks cancel, remove or unregister only what is in a set `may`, for which any set can be taken; so what is not
in it must have been served, and with the empty set everything.

**Sockets.** `pth_read` returns any non-empty prefix of what is left, or nothing at end of file, or an error;
`pth_write` writes any non-empty prefix, or fails. An error ends the thread in the source, so after `ok == false`
nothing but the bytes already on the socket is promised.

**Clock.** It does not go back; timeouts are not negative; a `poll` that returns 0 has waited for its timeout.

## What turned out not to hold

- *Sleeping readers can be overlooked.* A reader leaves `readers_wq` only one at a time and only when a writer
  leaves, so readers can sleep on a lock that they could enter, with nothing on its way to wake them.
  `OverlookedReaders.ReadersCanBeOverlooked` gives a run. `OverlookedReaders.OverlookedExactlyBy` says exactly which
  steps do it: the last woken reader entering while others sleep; the priority being taken from a sleeping writer;
  an alarm for the only sleeping writer; and the last woken writer going back to sleep behind readers that have
  priority. `OverlookedReaders.ReadersAreNotOverlooked`: no run without such a step overlooks anybody.
- *They can even be stranded on a free lock*, when the last reader inside goes while only readers sleep:
  `ReaderWakeups.ReadersCanBeStranded` and `ReaderWakeups.StrandedExactlyByLastReader`. The comment in `_do_release`
  notes that the case occurs and calls it harmless.
- *A prepoll handler added during a pass may not run in it.* The comment above the pass promises that every
  handler runs even if it is new, but `fired` is not initialised at registration. `Prepolls.PrepollList.Pass`
  proves that a handler added and not removed runs if and only if its flag happened to be clear, and
  `Prepolls.AddedHandlerCanBeSkipped` shows a pass in which one does not.
- *So `poll` can be entered with a wake-up pending.* `WakePasses.PendingAtPollExactlyIfStale` says exactly when, and
  `WakePasses.StaleFlagDelaysWakeUp` shows such a pass.
- *An alarm can abort the process*, exactly if its thread is on a private wake list (`LockProofs.AlarmKeepsInv`,
  `LifecycleProofs.StepKeepsInv`); `WakePasses.AlarmCanAbort` is such a run.
- *The firing loop of the timers need not end*, because a timeout of zero is due at once. The account is exact: while
  the clock stands still, firings and cancellations of due timers and what is still due add up to what was due and
  the timeouts of zero asked for (`TimerRuns.FiringsAreAccountedFor`). So the loop ends for callbacks that ask for
  finitely many (`TimerQueues.TimerQueue.FireDue`), and each one more allows one more firing
  (`TimerRuns.ZeroTimeoutsGoOn`).
- *Byte 0xff looks like end of file.* `io_fgetc` returns a plain `char`, so where `char` is signed this byte is -1
  (`IoStreams.EofClash`). Reading lines gives back the stream if and only if it has no such byte
  (`IoStreams.PiecesAreTheStream`), and a shorter one otherwise (`IoStreams.ClashingBytesAreLost`). The echo loop is
  faithful if and only if there is neither that byte nor a NUL (`IoStreams.EchoIsFaithfulIffText`). `io_copy` loses
  no byte that was buffered before, always loses the first one behind those if it is to be moved and looks like end
  of file, and loses none if no byte behind them does (`IoHandles.IoHandle.CopyTo`); for bytes further on it depends
  on where the reads from the socket end. A caller of `io_fgetc` gets every byte if and only if none was taken for
  end of file (`IoRuns.InputIsConserved`).
- *A line cut short by end of file keeps its carriage returns* even when the caller asked for the end of line
  to be removed: `IoStreams.EolCanBeLeft`, and exactly when in `IoStreams.EolLeftExactlyAtEof`.
- *An empty chunk ends the body.* `HttpChunks.FaithfulIffNoEmptyBlock`: the chunked writer is faithful if and only
  if no block is empty.
- *A parameter name with a separator does not survive a query string.* `CgiParams.QueryRoundTripsExactly`: the
  round trip works for every name if and only if no name holds `&`, `=` or a NUL, no value holds a NUL, and the query
  is not an empty name alone.
- *A response can say keep-alive and close.* If the caller sends its own Connection header the connection always
  closes, whatever that header says: `HttpResponses.CallersKeepAliveCloses`, and exactly when in
  `HttpResponses.MisannouncedExactlyByCaller`.

## Model

| member | source | states |
|---|---|---|
| `WaitQueues.WaitQueue.LeaveOnAlarm` | src/pthr_wait_queue.c:80-102 | removes exactly the caller's first entry and keeps the order of the rest; reports the abort exactly when the caller is not listed |
| `WaitQueues.EraseDistinct` | src/pthr_wait_queue.c:86-94 | on a queue without repetitions, leaving removes the caller and nobody else |
| `WaitQueues.WaitQueue.WakeUp` | src/pthr_wait_queue.c:137-186 | for -1 the private list is the whole queue, which is left empty; for n it is the first n; what is taken and what stays make up the old queue in order |
| `WaitQueues.WaitQueue.WakeUpOne` | src/pthr_wait_queue.c:194-203 | takes the longest sleeper; the abort exactly on an empty queue |
| `Mutexes.Mutex.TryEnter` | src/pthr_mutex.c:107-128 | succeeds exactly when the mutex is free, and then the caller holds it |
| `Mutexes.Mutex.Leave` | src/pthr_mutex.c:142-149 | fails exactly for a thread that does not hold it; otherwise frees it and hands at most the first sleeper to a wake-up |
| `Mutexes.Mutex.Release` | src/pthr_mutex.c:151-161 | the release that also runs at thread exit: frees the mutex and wakes one sleeper if there is one |
| `RwLocks.EnterKeepsAgreement` | src/pthr_rwlock.c:146-151 | entering keeps the counter true to the holder table |
| `RwLocks.ReleaseKeepsAgreement` | src/pthr_rwlock.c:265-306 | a holder's release reaches neither the assert nor the abort, and keeps the counter true |
| `RwLocks.AgreementMeansExclusion` | src/pthr_rwlock.c:179-197 | a true counter means that a writer inside is alone, and tells the three cases apart |
| `RwLocks.RwLock.SetPriority` | src/pthr_rwlock.c:112-133 | changes the priority bit alone, at any time, and keeps the counter true |
| `RwLocks.RwLock.TryEnterRead` | src/pthr_rwlock.c:139-156 | lets a reader in exactly without a writer inside and, with writers first, without a writer asleep; keeps the counter true for a caller not inside |
| `RwLocks.RwLock.TryEnterWrite` | src/pthr_rwlock.c:162-177 | lets a writer in exactly when nobody is inside, and then it is alone; keeps the counter true |
| `RwLocks.RwLock.Leave` | src/pthr_rwlock.c:210-306 | aborts exactly for a thread that is not inside; otherwise the new counter and holders, and exactly whom it wakes from which queue, the other queue untouched |
| `LockProofs.SleepKeepsInv` | src/pthr_wait_queue.c:69-103 | going to sleep on a lock that is not free keeps the invariant |
| `LockProofs.WakeUpKeepsInv` | src/pthr_wait_queue.c:137-203 | a wake-up restores the invariant even if its queue was the one whose wake-up was missing |
| `LockProofs.ReleaseMutexKeepsInv` | src/pthr_mutex.c:151-161 | a release keeps the invariant, does not abort, and takes away that one holding only |
| `LockProofs.ReleaseRwKeepsInv` | src/pthr_rwlock.c:265-306 | the same for an rwlock: the assert and both aborts are unreachable |
| `LockProofs.ReleaseAllKeepsInv` | src/pthr_pseudothread.c:230-233 | deleting a thread's pool releases all its locks in any order, never aborts, and leaves it holding nothing |
| `LockProofs.ContinueKeepsInv` | src/pthr_mutex.c:133-138 | one turn of an enter loop restores the invariant after the thread has used up the pending wake-up of its queue |
| `LockProofs.ResumeKeepsInv` | src/pthr_wait_queue.c:113-131 | resuming the next thread of a private list, which goes round its loop, keeps the invariant |
| `LockProofs.AlarmKeepsInv` | src/pthr_wait_queue.c:80-102 | an alarm keeps the invariant, and aborts exactly for a thread already in a private wake list |
| `LockProofs.PriorityKeepsInv` | src/pthr_rwlock.c:112-133 | toggling the priority at any time loses no wake-up |
| `LockProofs.StepKeepsInv` | src/pthr_wait_queue.h:107-115 | every step of the whole protocol keeps the invariant, and aborts exactly on the listed misuses |
| `LockProofs.RunKeepsInv` | src/pthr_wait_queue.h:107-115 | the invariant holds after every run |
| `LockTheorems.InsideIsHolding` | src/pthr_mutex.c:107-161 | for every run, thread and section: the lock's fields say that the thread is inside exactly when the calls it made returned so |
| `LockTheorems.MutualExclusion` | src/pthr_rwlock.c:194-207 | after every run, two threads inside conflicting sections of a mutex or rwlock are the same thread in the same section |
| `LockTheorems.ExitedThreadsHoldNothing` | src/pthr_mutex.c:112-120 | a thread that is gone, by exit or alarm, is inside nothing |
| `LockTheorems.RwCounterTellsTheTruth` | src/pthr_rwlock.c:139-306 | after every run, `n` is the number of readers inside, or -1 exactly for one writer alone, counted from the calls |
| `LockTheorems.WakeUpsAreNotLost` | src/pthr_rwlock.c:281-305 | after every run, a free mutex with a sleeper, and a free rwlock with a sleeping writer, has a wake-up pending for that queue |
| `LockTheorems.SleepersAreListedOnce` | src/pthr_wait_queue.c:69-186 | after every run, no thread appears twice in or across all sleepers lists and private wake lists; those listed are alive and asleep |
| `LockTheorems.SleepersAreListed` | src/pthr_wait_queue.c:69-75 | conversely, every thread asleep is on some list |
| `LockTheorems.WakeUpsResumeOnceInOrder` | src/pthr_wait_queue.h:107-115 | over any continuation of any run, a wake-up resumes the threads it took when it was made, in that order, each at most once even if it sleeps again; `WakePasses.PassFinishesWakeUps` says when it gets to the end |
| `LockTheorems.WritersGoFirst` | src/pthr_rwlock.c:106-111 | over any stretch of any run during which writers are first and one is asleep, the readers inside only get fewer, and once nobody is inside a wake-up for the writer is pending |
| `LockTheorems.NoReaderPasses` | src/pthr_rwlock.c:146-148 | no step, be it a try, a call or a turn after being woken, lets a reader in past a sleeping writer that has priority |
| `LockEffects.WakeAllTakesEverybody` | src/pthr_wait_queue.c:158-165 | after wq_wake_up the queue is empty, and everybody that was on it is on the list of one new wake-up, in order |
| `LockEffects.WakeOneTakesFirst` | src/pthr_wait_queue.c:166-178 | after wq_wake_up_one the first sleeper alone is on the list of one new wake-up |
| `LockEffects.SleepJoinsTheBack` | src/pthr_wait_queue.c:72-75 | wq_sleep_on puts the thread behind all others |
| `LockEffects.TryNeedsRoom` | src/pthr_rwlock.c:139-177 | a try succeeds exactly if no conflicting section is held, and for a reader no writer with priority sleeps; otherwise it changes nothing |
| `LockEffects.TurnNeedsRoom` | src/pthr_rwlock.c:183-207 | a turn of an enter loop, at the call or after being woken, gets in exactly under the same conditions, and otherwise goes to the back of its queue |
| `LockEffects.LeavingMutexWakesFirst` | src/pthr_mutex.c:142-161 | after mutex_leave nobody holds the mutex and the first sleeper, if any, is being woken |
| `LockEffects.LeavingRwWakesFirst` | src/pthr_rwlock.c:281-305 | while others are inside nobody is woken; after the last one the first sleeping writer; only behind a writer, and without sleeping writers, the first sleeping reader |
| `LockEffects.ExitEnds` | src/pthr_pseudothread.c:221-233 | an exit, or an alarm that does not abort, leaves the thread gone and inside nothing |
| `LockEffects.QueuesAreFair` | src/pthr_wait_queue.c:69-203 | every step takes threads out of a queue without disturbing the order of the rest, or adds one behind all others |
| `ReaderWakeups.ReadersCanBeStranded` | src/pthr_rwlock.c:284-305 | a run from the start after which a reader sleeps on a free lock with no wake-up under way |
| `ReaderWakeups.StrandedExactlyByLastReader` | src/pthr_rwlock.c:281-305 | a step leaves a reader asleep on a free lock with no wake-up under way if and only if the last reader goes while only readers sleep and none is being woken |
| `OverlookedReaders.OverlookedExactlyBy` | src/pthr_rwlock.c:139-306 | a step leaves a reader asleep that could enter, with no wake-up under way, if and only if it is one of four: last woken reader enters, priority taken from a sleeping writer, alarm for the only sleeping writer, last woken writer sleeps again behind readers with priority |
| `OverlookedReaders.ReadersAreNotOverlooked` | src/pthr_rwlock.c:183-192 | after every run without such a step, no reader sleeps that could enter without a wake-up under way |
| `OverlookedReaders.ReadersCanBeOverlooked` | src/pthr_rwlock.c:302-304 | a run from the start after which a reader sleeps although another is inside and it could join |
| `OverlookedReaders.StrandedIsOverlooked` | src/pthr_rwlock.c:284-293 | the free lock is the special case of this in which nobody is inside |
| `WakePasses.PassFinishesWakeUps` | src/pthr_wait_queue.c:113-131 | from any reachable state, whatever threads and handlers do during a prepoll pass: when it ends, every wake-up made before it has resumed all its threads in order, and one made during it has if and only if its fired flag happened to be clear |
| `WakePasses.PendingAtPollExactlyIfStale` | src/pthr_reactor.c:463-502 | poll is entered with a wake-up of a queue pending if and only if one was made during the pass with its flag set |
| `WakePasses.NobodyForgottenAtPoll` | src/pthr_reactor.c:463-502 | a pass without a stale flag enters poll with every mutex that has a sleeper held and every rwlock that has a sleeping writer occupied |
| `WakePasses.StaleFlagDelaysWakeUp` | src/pthr_reactor.c:389-398 | a pass that ends with a woken thread not resumed |
| `WakePasses.AlarmCanAbort` | src/pthr_wait_queue.c:85-97 | a run from the start in which an alarm for a thread being woken reaches the abort |
| `TimerRuns.InsertSorted` | src/pthr_reactor.c:325-352 | insertion keeps the deadlines sorted and adds only the new one |
| `TimerRuns.Slot` | src/pthr_reactor.c:332-345 | the place of a new timer: all before it strictly earlier, the next one not earlier |
| `TimerRuns.RunKeepsInv` | src/pthr_reactor.c:429-556 | sortedness, firing order and the range of deadlines hold after every run |
| `TimerRuns.TimersFireInOrder` | src/pthr_reactor.c:443-461 | over every run, deadlines fire in non-decreasing order, none early, and those left lie within an int of the clock |
| `TimerRuns.FiringsAreAccountedFor` | src/pthr_reactor.c:443-461 | over every run with the clock standing still, firings, cancellations of due timers and timers still due add up exactly to the timers that were due and the timeouts of zero asked for |
| `TimerRuns.DueFireInTurn` | src/pthr_reactor.c:443-461 | over every run without cancellations and timeouts of zero, exactly the due timers fire, in the order of the queue |
| `TimerRuns.ZeroTimeoutsGoOn` | src/pthr_reactor.c:443-461 | from any state with a timer due, n timeouts of zero allow n firings with one still due, for every n |
| `TimerRuns.CallbackStaysAhead` | src/pthr_reactor.c:501-502 | after the firing loop no callback can put a deadline behind the clock |
| `TimerQueues.TimerQueue.DeadlinesArePrefixSums` | src/pthr_reactor.c:326-330 | a deadline is the sum of the stored deltas up to its node |
| `TimerQueues.TimerQueue.SetTimer` | src/pthr_reactor.c:294-353 | adds exactly the deadline clock plus timeout, before any equal one, and changes no other; links and deltas stay consistent |
| `TimerQueues.TimerQueue.FindPlace` | src/pthr_reactor.c:325-345 | the walk over the deltas finds that place, with the deadline there |
| `TimerQueues.TimerQueue.InsertBefore` | src/pthr_reactor.c:332-344 | splitting a delta keeps every other deadline |
| `TimerQueues.TimerQueue.Append` | src/pthr_reactor.c:347-352 | insertion at the end keeps every other deadline |
| `TimerQueues.TimerQueue.RemoveTimer` | src/pthr_reactor.c:355-371 | removing any node keeps every other deadline, and the links in both directions |
| `TimerQueues.TimerQueue.FireHead` | src/pthr_reactor.c:449-460 | the head is out of the queue before its callback runs, which may set and cancel timers |
| `TimerQueues.TimerQueue.FireDue` | src/pthr_reactor.c:443-461 | for callbacks that ask for any timeouts, finitely many of them zero, the firing loop ends, leaves nothing due, and goes turn by turn, a firing and what its callback does; every timer that was due has fired as often as it was queued unless a callback may cancel it; if none cancels and none asks for zero, exactly those have fired, in order |
| `TimerQueues.TimerQueue.PollTimeout` | src/pthr_reactor.c:501-502 | what poll is given: -1 without timers, otherwise the time to the first deadline, within 0..INT_MAX |
| `TimerQueues.TimerQueue.PollAndDispatch` | src/pthr_reactor.c:501-554 | the clock is read; a result of 0 fires the head, which exists and is due; a negative one does nothing; a positive one leads to callbacks |
| `TimerQueues.TimerQueue.Invoke` | src/pthr_reactor.c:429-556 | a whole invocation is a run of the deadline list up to the poll and after it, with the timeout poll is given; every timer that was due fires unless a callback may cancel it |
| `PollTables.ShareAddsOne` | src/pthr_reactor.c:230-252 | sharing a poll entry adds one handle's meaning and changes none |
| `PollTables.ExtendAddsOne` | src/pthr_reactor.c:242-252 | so does a new poll entry; entries stay distinct and in use |
| `PollTables.ClearShared` | src/pthr_reactor.c:275-281 | giving up a shared entry removes one handle's meaning and changes none |
| `PollTables.ClearUnshared` | src/pthr_reactor.c:283-291 | so does closing the gap in the array and lowering the offsets behind it |
| `PollTables.PollTable.Register` | src/pthr_reactor.c:204-262 | adds one key that was not in use, with the given descriptor, events, function and data; all others unchanged; an entry that asks for the same is shared, and a new one keeps the stale revents of its slot |
| `PollTables.PollTable.Unregister` | src/pthr_reactor.c:264-292 | removes that key and nothing else |
| `PollTables.PollTable.FindHandle` | src/pthr_reactor.c:210-224 | the first unused handle, the table growing by eight if there is none, without changing any meaning |
| `PollTables.PollTable.ShiftDown` | src/pthr_reactor.c:283-286 | the array loses exactly that entry and keeps its order |
| `PollTables.PollTable.LowerOffsets` | src/pthr_reactor.c:288-291 | exactly the offsets behind the gap go down by one |
| `PollTables.OthersKeepMeaning` | src/pthr_reactor.c:264-292 | through any sequence of calls, only its own removal changes what a handle means |
| `PollTables.PollTable.Dispatch` | src/pthr_reactor.c:519-534 | goes turn by turn, a call and what the callback does: only handles registered at that moment, with their own data and revents set, none twice, in increasing order; every one whose revents were set at the start unless it is unregistered first; those no callback may unregister are called and keep their meaning |
| `Prepolls.PrepollList.Register` | src/pthr_reactor.c:379-401 | a new head with an arbitrary fired flag |
| `Prepolls.PrepollList.Remove` | src/pthr_reactor.c:403-421 | finds the handle in the linked list, never falling off its end, and unlinks it; the links and the order of the rest stay |
| `Prepolls.PrepollList.Pass` | src/pthr_reactor.c:463-488 | for any callbacks that add at most a given number of handlers the pass ends, and goes turn by turn, a handler that runs and what its callback does; none runs twice; each one there at the start and not removed runs; those no callback may remove run and are still there; a handler added runs iff its flag was clear, unless removed |
| `Prepolls.AllFiredIsComplete` | src/pthr_reactor.c:477-488 | when no unfired handler is left, everything that should have run has |
| `Prepolls.StaysUnlessRemoved` | src/pthr_reactor.c:397-421 | a handler stays on the list until it is removed |
| `Prepolls.AddedHandlerCanBeSkipped` | src/pthr_reactor.c:389-398 | a pass in which a handler that was added, and not removed, does not run |
| `Prepolls.PassCanGoOn` | src/pthr_reactor.c:477-488 | from any point of a pass whose first handler has not fired, it can go on for any number of runs, each handler adding the next |
| `LifecycleProofs.SwitchAwayOk` | src/pthr_pseudothread.c:845-945 | registering and switching away from block, _sleep, _poll or wq_sleep_on keeps the invariant and returns to the thread below |
| `LifecycleProofs.StartOk` | src/pthr_pseudothread.c:240-250 | pth_start at any nesting keeps the invariant with the caller as parent |
| `LifecycleProofs.ExitOk` | src/pthr_pseudothread.c:206-238 | an exit at any nesting leaves the thread dead and named by no handle, timer or list, and returns to the calling context |
| `LifecycleProofs.ResumeByEvent` | src/pthr_pseudothread.c:855-872 | a thread resumed by a descriptor ends up running with everything it registered for the wait gone |
| `LifecycleProofs.ResumeByWakeUp` | src/pthr_wait_queue.c:119-127 | a thread named by a private wake list is suspended in wq_sleep_on, and ends up running, on no list |
| `LifecycleProofs.ResumeByTimer` | src/pthr_pseudothread.c:934-963 | the same when its own timer fired, which is then not removed twice |
| `LifecycleProofs.AlarmKills` | src/pthr_pseudothread.c:965-975 | an alarm leaves the thread dead, in whatever primitive it waited, and named by no handle, timer or list, unless it is on a wake list |
| `LifecycleProofs.AlarmAborts` | src/pthr_wait_queue.c:85-97 | an alarm for a thread on a wake list reaches the abort |
| `LifecycleProofs.TimeoutOk` | src/pthr_pseudothread.c:484-496 | setting, replacing and cancelling the alarm keeps the invariant: at most one alarm timer per thread |
| `LifecycleProofs.CallbackOk` | src/pthr_pseudothread.c:867-975 | a handle, timer or wake-list entry is all a callback needs: it finds the thread suspended in the call that put it there, and the invariant is kept |
| `LifecycleProofs.StepKeepsInv` | src/pthr_pseudothread.c:826-975 | every step uses no wrong context, handle, timer, list entry or thread; it aborts exactly on an alarm for a thread on a wake list, and otherwise keeps the invariant |
| `LifecycleProofs.RunKeepsInv` | src/pthr_pseudothread.c:826-975 | so does every run |
| `LifecycleProofs.ThreadsAreConsistent` | src/pthr_pseudothread.c:206-250 | after every run that did not abort, `current_pth` is the thread whose code runs; it owns no handle, no list entry and no timer but its alarm; no handle, timer or list names an exited or unstarted thread, and lists name no thread twice |
| `LifecycleProofs.OneThreadRuns` | src/pthr_pseudothread.c:240-250 | after every such run either the reactor has the processor and every thread is off it, or one thread runs on top of a chain of threads inside pth_start, each called from the one below |
| `LifecycleEffects.StepHasEffect` | src/pthr_pseudothread.c:157-975 | what every step does: a new thread is there; a started one runs with its caller as parent; a blocking call suspends the thread with exactly its handles, timer or list entry naming it, and the caller goes on; a callback makes the thread run with exactly those gone; an exit or alarm ends it; a wake-up moves its list entry |
| `LifecycleEffects.DispatchResumes` | src/pthr_pseudothread.c:852-872 | the thread that a handle names runs afterwards, called from the reactor, and no handle, list or timer but its alarm names it; all other handles and timers stay |
| `LifecycleEffects.TimerResumes` | src/pthr_pseudothread.c:899-963 | the same for the thread of a sleep or poll timer, which is gone |
| `LifecycleEffects.WakeResumes` | src/pthr_wait_queue.c:119-127 | the same for a thread on a wake list |
| `Schedulers.Scheduler.PthStart` | src/pthr_pseudothread.c:240-250 | in place and from the invariant alone: one step of the state machine, with its effect, nothing wrong used, invariant kept |
| `Schedulers.Scheduler.Suspend` | src/pthr_pseudothread.c:845-945 | the same for block, _sleep, _poll and wq_sleep_on: registering one by one, then switching away |
| `Schedulers.Scheduler.ReturnFromTimer` | src/pthr_pseudothread.c:899-975 | the same for return_from_sleep, return_from_poll_timeout and return_from_alarm, up to the abort or the exit of the thread |
| `Schedulers.Scheduler.ReturnFromHandle` | src/pthr_pseudothread.c:867-952 | the same for return_from_block and return_from_poll: the thread runs, and what it registered for the wait is gone |
| `Schedulers.Scheduler.ReturnFromQueue` | src/pthr_wait_queue.c:113-131 | the same for the loop of do_wake_up |
| `Schedulers.Scheduler.Perform` | src/pthr_pseudothread.c:826-975 | any step of the state machine can be performed in place from the invariant alone, and keeps it, or aborts exactly on a late alarm |
| `Schedulers.Run` | src/pthr_pseudothread.c:206-250 | a whole run in place reaches the state of the state machine, and that state is consistent |
| `Exceptions.Simulates` | src/pthr_pseudothread.c:324-370 | for every program, in any context of stack and handlers, the jump-buffer machine gets where structured exceptions get, with the handlers it started from |
| `Exceptions.SimulatesCatch` | src/pthr_pseudothread.c:324-348 | pth_catch restores the handler depth and returns null or the message of the die it caught |
| `Exceptions.ThreadBehaves` | src/pthr_pseudothread.c:218-219 | a whole thread halts having shown exactly the structured behaviour, an uncaught message printed |
| `Exceptions.InnermostCatches` | src/pthr_pseudothread.c:350-365 | a die inside any number of nested pth_catches is caught by the innermost, which returns its message; the others return null |
| `Exceptions.NobodyCatchesExit` | src/pthr_pseudothread.c:318-322 | an exit inside any number of them is caught by none |
| `Exceptions.CatchDecides` | src/pthr_pseudothread.c:337-347 | the caller goes on after null or after the message, as the body ended |
| `Exceptions.Pseudothread.RunThread` | src/pthr_pseudothread.c:318-370 | the handler vector pushed and popped in place gives that behaviour |
| `IoHandles.IoHandle.Flush` | src/pthr_iolib.c:505-531 | under partial writes everything buffered reaches the socket in order and is counted; after an ignored error, a prefix |
| `IoHandles.IoHandle.Fflush` | src/pthr_iolib.c:116-123 | nothing is pending afterwards and the output stream is unchanged |
| `IoHandles.IoHandle.Fputc` | src/pthr_iolib.c:267-288 | the output stream gains that byte in any mode; flushed at once when unbuffered or at a newline when line buffered, and otherwise only when the buffer is full |
| `IoHandles.IoHandle.Fputs` | src/pthr_iolib.c:290-303 | the output stream gains the string up to its NUL |
| `IoHandles.IoHandle.Fwrite` | src/pthr_iolib.c:342-364 | the output stream gains the data, after what was buffered, and all of it is on the socket |
| `IoHandles.IoHandle.SetBufMode` | src/pthr_iolib.c:499-503 | changing the mode changes neither stream |
| `IoHandles.IoHandle.Fclose` | src/pthr_iolib.c:125-144 | nothing is pending, and everything put is on the socket unless it refused a write, and then a proper prefix is |
| `IoHandles.IoHandle.Refill` | src/pthr_iolib.c:163-172 | a read starts only with no output pending and changes where the input is, not what it is |
| `IoHandles.IoHandle.Fgetc` | src/pthr_iolib.c:146-176 | the first byte of the input stream as a char, or -1 at its end |
| `IoHandles.IoHandle.Ungetc` | src/pthr_iolib.c:215-227 | puts a byte in front of the input stream exactly when there is room |
| `IoHandles.IoHandle.Fread` | src/pthr_iolib.c:229-265 | the next n bytes of the input stream, fewer only at its end |
| `IoHandles.IoHandle.Fgets` | src/pthr_iolib.c:178-213 | the line, the null, and what is left of the stream, for every size and both end-of-line choices |
| `IoHandles.IoHandle.Echo` | doc/eg_echo.c:54-55 | on any input the echo loop ends, and its output and what it leaves unread are given |
| `IoStreams.EchoIsFaithfulIffText` | doc/eg_echo.c:54-55 | that output is the input if and only if the input has no NUL and no byte that looks like end of file |
| `IoStreams.EchoIsTheLines` | doc/eg_echo.c:54-55 | on any input the echo is the lines, each as far as its first NUL |
| `IoStreams.UnreadIsBehindTheClash` | doc/eg_echo.c:54-55 | what the loop leaves unread, if anything, is right behind a byte that looks like end of file |
| `IoHandles.IoHandle.CopyTo` | src/pthr_iolib.c:451-497 | on any input moves a prefix in order, also from a handle to itself: min(len, available) bytes, all for -1, unless it stops at one byte taken for end of file. None is if no byte behind those buffered before the call looks like it; the first one behind them always is if it does and is to be moved, whatever the socket does |
| `IoHandles.IoHandle.FillForCopy` | src/pthr_iolib.c:463-475 | on any input, pushing back the one character read never fails; the stream stays as it was unless that character looks like end of file |
| `IoStreams.EofClash` | src/pthr_iolib.c:157-160 | a byte comes back as -1 exactly if char is signed and it is 0xff, and storing the result gives the byte back |
| `IoStreams.NewlineOnlyLast` | src/pthr_iolib.c:198-200 | a newline can only be the last byte of a piece |
| `IoStreams.PiecesAreTheStream` | src/pthr_iolib.c:178-213 | the concatenation of the lines is the stream if and only if it has no byte that looks like end of file; then the lines are non-empty, fit, and each but the last is full or ended by its newline |
| `IoStreams.ClashingBytesAreLost` | src/pthr_iolib.c:187-194 | with such a byte anywhere the lines are shorter than the stream |
| `IoStreams.EolLeftExactlyAtEof` | src/pthr_iolib.c:189-208 | a line whose end was to be removed still ends in CR or LF if and only if it was cut short by end of file behind a CR |
| `IoStreams.EolCanBeLeft` | src/pthr_iolib.c:189-194 | the input "a" CR is returned with its CR |
| `IoStreams.LineIsPieceWithoutEol` | src/pthr_iolib.c:203-212 | a line not cut short is the piece without its longest run of CR and LF at the end, or the piece itself where the end of line is kept |
| `IoRuns.Run` | src/pthr_iolib.c:146-364 | any sequence of operations without an error gives the results of two plain byte streams, whatever the socket does; socket bytes followed by buffered bytes are everything put |
| `IoRuns.InputIsConserved` | src/pthr_iolib.c:146-265 | over any run with honest push-backs, the bytes the results gave the caller, followed by what is to come, are the whole input in order if and only if no byte was taken for end of file; each one that was is missing |
| `IoRuns.CleanStreamsLoseNothing` | src/pthr_iolib.c:146-265 | which does not happen on a stream without such bytes |
| `Cgi.UnescapeInvertsEscape` | src/pthr_cgi.c:258-350 | unescaping undoes escaping on every byte string |
| `Cgi.EscapedIsSafe` | src/pthr_cgi.c:281-295 | escaped text holds only alphanumerics, comma, minus, plus and percent |
| `Cgi.EscapesByteByByte` | src/pthr_cgi.c:284-294 | letters, digits, comma and minus are written as themselves, a space as a plus, any other byte as a percent and two lower-case digits |
| `Cgi.UnescapesByteByByte` | src/pthr_cgi.c:321-345 | a plus is a space, a percent with two hex digits of either case is that byte, and anything else, a percent without them included, stays as it is |
| `Cgi.EscapedLengthIsExact` | src/pthr_cgi.c:267-279 | the precomputed length is the length written |
| `Cgi.CgiEscape` | src/pthr_cgi.c:258-300 | measures, allocates and fills a buffer that the escaped text and its NUL use up exactly |
| `Cgi.CgiUnescape` | src/pthr_cgi.c:311-350 | a buffer one longer than the input is enough, and holds the unescaped text |
| `CgiParams.QuerySplits` | src/pthr_cgi.c:153-154 | splitting a joined query gives back its pairs |
| `CgiParams.QueryRoundTrip` | src/pthr_cgi.c:144-185 | parsing joined items, name=escape(value) or a bare name meaning the value "1", gives every name its values, in order, and no other name |
| `CgiParams.QueryRoundTripsExactly` | src/pthr_cgi.c:144-185 | the round trip works for every name if and only if no name holds a separator or a NUL, no value a NUL, and it is not an empty name alone |
| `CgiParams.ParsedNamesAreGood` | src/pthr_cgi.c:153-168 | no parsed name holds a separator or a NUL, whatever the query string |
| `CgiParams.CgiTable.InsertParam` | src/pthr_cgi.c:173-185 | appends the unescaped value to that name's list |
| `CgiParams.CgiTable.ParseQs` | src/pthr_cgi.c:144-171 | the table holds the parse of the query string, a bare name meaning name=1 |
| `CgiParams.CgiTable.Copy` | src/pthr_cgi.c:223-256 | a copy with every name's list, whatever order the keys come in |
| `HttpChunks.HexRoundTrip` | src/pthr_http.c:620 | a length printed in hex, however large, reads back |
| `HttpChunks.HexIsPlain` | src/pthr_http.c:620 | it is printed in capitals and without leading zeros |
| `HttpChunks.ChunksRoundTrip` | src/pthr_http.c:617-635 | a reader for section 3.6.1 of RFC 2616 gets back the concatenation of non-empty blocks and consumes exactly what was written |
| `HttpChunks.EmptyBlockEndsBody` | src/pthr_http.c:617-623 | with an empty block the reader stops before the end of what was written |
| `HttpChunks.FaithfulIffNoEmptyBlock` | src/pthr_http.c:617-635 | the round trip holds if and only if no block is empty |
| `HttpChunks.WriteChunk` | src/pthr_http.c:617-623 | the length line through the buffer and the data past it reach the socket in order |
| `HttpChunks.WriteBody` | src/pthr_http.c:617-635 | a whole body adds exactly its coding to the output stream |
| `HeaderBits.NoLength` | src/pthr_http.c:560-561 | the combined test is true exactly if neither length header has been sent |
| `HttpResponses.DropSentIsUnsent` | src/pthr_http.c:483-502 | after the tests on a header, the kinds left are exactly those not sent so far |
| `HttpResponses.HttpResponse.SendHeader` | src/pthr_http.c:471-503 | puts out the header line and keeps the bitmap and the content length true to what has been sent; nothing for HTTP/0.9 |
| `HttpLengths.LengthReadsBack` | src/pthr_http.c:498 | a length printed in decimal is read back, whatever space is in front of it and whatever follows but a digit |
| `HttpResponses.LengthIsCallers` | src/pthr_http.c:495-499 | the content length is that of the last Content-Length header with a number, and headers of other kinds do not change it |
| `HttpResponses.LastLengthCounts` | src/pthr_http.c:495-499 | the content length is the number of the last Content-Length header, whatever came before |
| `HttpResponses.HttpResponse.SendHeaders` | src/pthr_http.c:505-521 | the same for a list of headers, in order |
| `HttpResponses.AddedOnceIfMissing` | src/pthr_http.c:532-607 | Server, Date, Content-Type and Connection are added once each and only if the caller sent none; no length is added |
| `HttpResponses.PersistenceIsAnnounced` | src/pthr_http.c:553-607 | a connection that stays open had its length announced, and its one Connection header is keep-alive; one the library closes says close; where the caller sent Connection headers it closes and none is added |
| `HttpResponses.MisannouncedExactlyByCaller` | src/pthr_http.c:553-614 | the response says keep-alive while the call returns close if and only if the caller itself sent a Connection header that says keep-alive |
| `HttpResponses.CallersKeepAliveCloses` | src/pthr_http.c:526-553 | an HTTP/1.1 response with a length and the caller's own keep-alive, which closes |
| `HttpResponses.HttpResponse.Decide` | src/pthr_http.c:560-606 | the branches keep the connection exactly if a length is known and the client agrees, which `HttpResponses.PersistenceRules` spells out |
| `HttpResponses.PersistenceRules` | src/pthr_http.c:553-607 | without a length the connection closes; with one, a request header keep-alive in any case of letters keeps it at any version, any other closes it, and without a request header it stays open exactly for HTTP/1.1 and later 1.x |
| `HttpResponses.KindsByName` | src/pthr_http.c:487-502 | which header names, and which value of Transfer-Encoding, the library recognises, in any case of letters |
| `HttpResponses.PlainResponse` | src/pthr_http.c:532-609 | the very text that follows the response line if the caller sends no headers |
| `HttpResponses.HttpResponse.EndHeaders` | src/pthr_http.c:523-615 | what is added, in which order, the blank line, a result of 0 exactly if the connection persists, and the content length untouched |

## Left out

- Context switching, jump buffer layout and stacks (src/pthr_context.c, src/pthr_stack.c): a switch is a step, a jump buffer the stack it restores.
- The database, FTP client, server and listener files, logging, signals, `pth_select`, `pth_wait_*` and the environment handling of threads: plumbing around calls this project does not see.
- `io_fprintf` and `io_popen`: formatting is not modelled; a chunk's length line is put as a string with its hex number.
- `mutex_enter`, `rwlock_enter_read` and `rwlock_enter_write` as methods: their loops span context switches, so they are steps of `LockProtocol` (`Enter`, `DoEnterRead`, `DoEnterWrite`, `Resume`) and not class methods.
- Fairness and liveness of locks: nothing is claimed about how long a thread may be barged.
- Re-entry into an rwlock by a thread already inside it: the holder table would lose an entry; callers must not do it.
- 32-bit overflow of counters (`n` of an rwlock, `inbufcount`, `outbufcount`, `written_len`) and of the clock: integers are unbounded, except that timeouts and the handle table are bounded by INT_MAX.
- Cleanup functions that block while a pool is being deleted, and pools themselves: an exit releases locks and removes timers as one step.
- TimerQueues.TimerQueue.FireDue: callbacks share a budget of timeouts of zero, as large as one likes, without which the source's loop need not end; order and earliness of firing (`TimerRuns.TimersFireInOrder`) need no such bound.
- Prepolls.PrepollList.Pass: callbacks share a budget of additions, as large as one likes, without which the source's loop need not end (`Prepolls.PassCanGoOn`).
- WakePasses.PassFinishesWakeUps: about passes that end; that they do is `Prepolls.PrepollList.Pass`, for handlers of any kind.
- PollTables.PollTable.Dispatch: a call means that the entry's revents are set, not that its descriptor is ready, because a new poll entry keeps the stale result bits of its slot.
- PollTables.PollTable.ShiftDown: the overlapping `memcpy` is read as the left shift it is meant to be.
- PollTables.PollTable.Register: the table holds at most INT_MAX handles, the range of its index type.
- IoHandles.IoHandle.CopyTo: lengths below -1, for which the source hands a negative count to io_fwrite, are not covered; and which later byte that looks like end of file is lost is left open, because it depends on where the reads end.
- IoHandles.IoHandle.Echo: the buffer holds at least one byte and the NUL; with less the source's loop does not end.
- Cgi.CgiEscape: alphanumeric is that of the C locale.
- HttpResponses.HttpResponse.SendHeader: a Content-Length too large for an int, for which sscanf promises nothing, is kept as it is.
- HttpResponses.HttpResponse.constructor: the response line and the switch to full buffering are not modelled.
- HttpResponses.HttpResponse.EndHeaders: the text of the Date header is a parameter, and the platform is taken to have the functions that format it.
