# A model of the Tizen system server's stateful core

The system server is a daemon that answers device events. Behind its device calls
sit six small stateful algorithms. This project models them in Dafny, in the form
the C code has (classes whose methods overwrite their fields, loops over linked
lists, arrays and directory listings), and proves properties of whole runs.

Each area has two parts. A specification on values says what one step does, and
every imperative method is proved to perform exactly that step. The theorems about
runs are lemmas about sequences of such steps. What the functions of a specification
mean is said once more without them, with the numbers of the source written out
(the lemmas named `...InNumbers`, `...InOrder` and their like).

- **Background ageing** (`ProcTable`, `ProcRuns`). The values 1 to 15 of `oom_adj`
  form a queue spread over all processes. A process in state (background, unlocked)
  sits at a level that counts the ageing passes since it entered slot 1. From this
  follow the LRU order, the choice of the process to be signalled, the uniqueness of
  slots and the capacity of 15. The same value encodes two independent bits, which
  always are the last requests made for the process. Runs are sequences of spawns (at
  a value of at most 0), exits and the four requests. In `LevelCountsPasses`,
  `LruOrder`, `EvictsOldest` and `BitsAreLastRequests` a directory scan may fail and
  a signalled process may outlive SIGTERM for any time; `NoSharedSlot` assumes that
  scans open, and `Capacity` also that SIGTERM removes its target at once.
- **Run queue** (`EinaList`, `RunQueue`, `RunQueueRuns`, `RunQueueTheorems`,
  `RunQueueBinding`, `RunQueueForeign`, `RunQueueHistory`, `RunQueueStrings`, `Server`,
  `ActionTable`). Calls, dispatches, forks and child deaths interleave,
  also inside an action, between its fork, the lookup of its result in /proc and the
  assignment of `forked_pid`. The model lets calls and forks happen at those last two
  points as well, which is more than the single-threaded server can do. A fork of a
  pid that is in use, or whose CLEAR message is still queued, and the death of a
  process that is not a live child are steps without effect; this states the
  assumption that pids are not reused too early. Each child death is announced by
  one SIGCHLD. `foreign` is the set of pids that exist throughout without ever being
  children of the server, such as 1; every other accessible pid is a child.
- **Command lines** (`CommandLine`, `CommandWords`, `Relaunch`, `Launch`). The
  pointer-driven tokenizer equals a fold of a quoting automaton. On every line the
  automaton yields the meaning that a grammar of words, quoted groups and escapes
  gives it, and it inverts three printers; a stored argument vector survives a
  relaunch exactly when it is plain.
- **CPU frequency** (`CpuFreq`, `CpuFreqRuns`). The code has a list for the upper
  bound and a copy of it for the lower one; `isMax` selects between them. Liveness of
  a pid is an argument of every operation. The list is the map of requests in force,
  and what is written to the hardware is its bound.
- **Battery** (`LowBattery`) and **memory pressure** (`LowMemory`). Table-driven
  state machines; reads and publishing results are arguments.

Where the code and what it is meant to do part, the model follows the code:

- `ss_launch.c:221` assigns the result of the comparison, so a program that already
  runs yields 1, and `ss_predefine.c:232-237` hands that on as the action's result.
  Process 1 is no child of the server. `RunQueueForeign.QuietQueueExactly` shows that
  with nothing pending the calls left in the queue are exactly those whose action
  named such a process, and `RunningProgramLeaks` that a launch of a running program
  always is one.
- `ss_cpu_handler.c:166` compares with `INT_MIN` where lines 107 and 199 compare with
  `INT_MAX`; `SavingOffAgrees` says exactly when that makes a difference.
- The power-saving switch going on while the CPU option is off rewrites the cached
  bound (`ss_cpu_handler.c:151-169`). A failed allocation may have left it wrong, and
  before any request, or when switching power saving off has left none, it is
  `INT_MAX` and not the hardware limit. `RewriteWritesTheBound` and
  `RewriteWritesLikeRelease` say for every history when the value written is right;
  `RewriteExposes` holds two histories in which it is not.
- A scan that cannot be opened, the first or the second, lets a process into an
  occupied slot 1; `SharesOnlyOnFailedScan` says that nothing else does, and
  `SharedSlotReached` is a run that gets there.
- A notification that comes from REBOOT has no row in the table
  (`ss_lowmem_handler.c:63-71`), so the timer can be armed in NORMAL and disarmed in
  CRITICAL; `CriticalUnarmed` and `NormalArmed` say exactly when.
- The throttle subtracts unsigned times (`ss_lowmem_handler.c:154`), so a clock that
  goes back can defeat it; `CleansTooSoon` says for which readings, and
  `SpacedUnlessWrapped` lifts that to runs.
- `ss_launch.c:188` offers the parser all 256 slots, so a line of more than 255
  tokens has no slot for the closing null, which the C code writes behind the array.
  `Launch.LaunchArgv` reports exactly these lines as `overrun`, and
  `Launch.LinesOfAllLengths` shows that they exist.

## Model

| member | source | states |
|---|---|---|
| ProcTable.ProcFs.GetAppOomAdj | ss_procmgr.c:31-50 | the level of an existing process, an error for a negative or missing pid |
| ProcTable.ProcFs.SetAppOomAdj | ss_procmgr.c:52-89 | the level is overwritten unless the old one is below the application limit; only a missing process is an error |
| ProcTable.ProcFs.FindSlotOne | ss_procmgr.c:130-150 | the first directory loop finds out whether any process is in slot 1, in whatever order the directory is listed |
| ProcTable.ProcFs.SweepAll | ss_procmgr.c:160-185 | the second loop ages levels 1 to 14 by one and sends each process at 15 exactly one SIGTERM, in whatever order |
| ProcTable.ProcFs.CheckAndSetOldBackgrd | ss_procmgr.c:115-189 | a pass runs exactly when some process is at 1 and both scans open: it ages 1 to 14 by one and sends everybody from 15 on one SIGTERM; otherwise nothing changes and nothing is signalled |
| ProcTable.PassInNumbers | ss_procmgr.c:144-183 | the same of the specification, with the numbers 1 and 15 |
| ProcTable.AgedByRequest | ss_procmgr.c:144-183 | a request ages another process by one if and only if it moves its own from below 1 to 1 while some process is at 1 and both scans open |
| ProcTable.NoPassOverEmptySlot | ss_procmgr.c:144-152 | with nobody at 1 nobody is signalled and no other process moves |
| ProcTable.ProcFs.SetActiveAction | ss_procmgr.c:191-230 | sets the locked bit of the caller, touches nobody else, sends no signal, and fails only for a missing or unknown process |
| ProcTable.ProcFs.SetForegrdAction | ss_procmgr.c:276-316 | sets the foreground bit likewise |
| ProcTable.ProcFs.SetInactiveAction | ss_procmgr.c:232-274 | clears the locked bit; exactly when that puts the caller into (background, unlocked) a pass runs first and the caller enters slot 1 |
| ProcTable.ProcFs.SetBackgrdAction | ss_procmgr.c:318-359 | clears the foreground bit, with the same entry into slot 1 |
| ProcTable.LevelsOfRequests | ss_procmgr.c:191-359 | the level each of the four requests leads to from every level, and the levels at which it succeeds |
| ProcRuns.StayOrEnter | ss_procmgr.c:175-183 | a process left background-unlocked by an event was aged by a pass, left alone, or is the caller that entered slot 1 |
| ProcRuns.LevelCountsPasses | ss_procmgr.c:115-189 | in every run each level of at least 1 is one plus the number of passes since the process entered slot 1, capped at 15 |
| ProcRuns.LevelInNumbers | ss_procmgr.c:115-189 | in every run a process at 1 or above is at one more than the passes since it got there, read off the tables, or at 15 from the fourteenth on |
| ProcRuns.SignalledAfterFourteen | ss_procmgr.c:176-179 | a pass signals exactly the processes that have seen at least 14 passes since they got to 1, each once |
| ProcRuns.PassesAreCounted | ss_procmgr.c:144-152 | the passes of a run are exactly the requests that move their process to an occupied slot 1 with scans that open |
| ProcRuns.LruOrder | ss_procmgr.c:115-189 | in every run a strictly smaller level means a strictly later entry, holes, skipped passes, failed scans and lingering processes included |
| ProcRuns.LruBothWays | ss_procmgr.c:115-189 | with scans that open, of two processes not both at 15 one has the smaller level if and only if it entered later |
| ProcRuns.EvictsOldest | ss_procmgr.c:153-187 | every signalled process entered before every one spared; the signalled have seen at least 14 passes since, the spared fewer |
| ProcRuns.OnlyLimitIsEvicted | ss_procmgr.c:176-179 | a request removes a process exactly when it runs a pass and the process is another one, at 15, that does not outlive SIGTERM |
| ProcRuns.SharesOnlyOnFailedScan | ss_procmgr.c:126-128 | a request makes two processes share a slot below 15 if and only if it enters an occupied slot 1 while a scan cannot be opened |
| ProcRuns.SharedSlotReached | ss_procmgr.c:126-128 | such a run exists: two spawns, two moves to the background, the second with a scan that fails |
| ProcRuns.NoSharedSlot | ss_procmgr.c:255-262 | with scans that open no two processes ever share a level in 1 to 14, nor 15 when SIGTERM works at once |
| ProcRuns.Capacity | ss_procmgr.c:341-348 | then at most 15 processes are background-unlocked |
| ProcRuns.RequestMovesBits | ss_procmgr.c:191-359 | a request changes only its process's bits, the way it says, and never a process at a level outside the scheme |
| ProcRuns.BitsAreLastRequests | ss_procmgr.c:191-359 | in every run a survivor's two bits are its last visibility and its last activity request since its spawn; processes spawned at -17 or another unmanaged level never move |
| ProcRuns.BitsInNumbers | ss_procmgr.c:191-359 | the same with the levels -15, -10, -5, -16 and 1 upwards |
| EinaList.List.Prepend | ss_queue.c:216 | a fresh node in front, the old chain behind it |
| EinaList.List.Remove | ss_queue.c:284 | exactly the first node holding the value is unlinked in place |
| Server.ActionServer.RunQueueAdd | ss_queue.c:197-220 | an accepted call is prepended as INIT with pid 0 and its arguments; a failed allocation changes nothing |
| Server.ActionServer.EntryCall | ss_queue.c:184-189 | RUN is written whether or not the call was queued |
| Server.ActionServer.SigChild | ss_sig_handler.c:38-52 | the dead child is reaped and announced by one CLEAR with its pid |
| Server.ActionServer.ActionRun | ss_core.c:37-64 | one execution is the protocol's step for that entry, with the outside world acting before, between and after fork, lookup and assignment |
| Server.ActionServer.QueueRun | ss_queue.c:222-236 | the walk runs exactly the entries that were INIT when it began, in queue order, although actions prepend to the list meanwhile |
| Server.ActionServer.FreeArgs | ss_queue.c:287-290 | the non-null strings of an entry are freed once each, in order |
| Server.ActionServer.QueueDelByPid | ss_queue.c:275-296 | the in-place loop leaves the order-preserving filter of the queue and frees the strings of what it removed |
| Server.ActionServer.CorePipeCb | ss_core.c:66-88 | one message off the pipe is one dispatch step |
| RunQueueRuns.NoLostCompletion | ss_core.c:37-88 | the protocol invariant holds in every interleaving of calls, dispatches, forks and child deaths |
| RunQueueRuns.ChildIsTracked | ss_core.c:51-53 | a child found by the lookup is alive or announced however much happens before its pid is assigned |
| RunQueueRuns.BatchStarts | ss_core.c:79-82 | reading RUN takes over every entry accepted since the last RUN, and loses none |
| RunQueueRuns.ClearDispatchKeeps | ss_core.c:83-85 | reading CLEAR keeps the invariant although its message is gone |
| RunQueueRuns.QuietQueue | ss_queue.c:275-296 | with an empty pipe and no live child the queue holds exactly the entries bound to a process that is no child, and is empty if and only if there are none |
| RunQueueTheorems.EveryEntryIsAwaited | ss_core.c:44-62 | in every run INIT implies a RUN in the pipe, DONE a CLEAR(-1), RUNNING a live child, a CLEAR for it or a process that is no child |
| RunQueueBinding.OutcomeOfAction | ss_core.c:46-63 | an execution leaves its entry RUNNING with the pid returned if and only if that is positive and, at the lookup, a live child or no child at all; else DONE with -1 and a CLEAR(-1); other entries stay |
| RunQueueBinding.DispatchResolves | ss_core.c:46-63 | a RUN dispatch does so to every waiting call, by its own action's result, and the call keeps its arguments |
| RunQueueBinding.HeldUntilClear | ss_queue.c:282-293 | in every run such a call stays queued, as its action left it, exactly until the CLEAR of its pid is read, and never comes back |
| RunQueueTheorems.RunsInBlocks | ss_queue.c:216-233 | the ids run so far are one block per RUN dispatch, newest first, and the blocks are consecutive |
| RunQueueTheorems.ExactlyOnce | ss_core.c:44-45 | an accepted call runs at most once ever, and exactly once as soon as no RUN is pending |
| RunQueueTheorems.BatchOrder | ss_queue.c:230-233 | of two calls that ran, the newer came first if both waited at one dispatch, and the older otherwise |
| RunQueueHistory.CallsInOrder | ss_queue.c:184-189 | in every run the accepted calls are, in order and with their arguments, the calls made whose allocation succeeded, the refused ones likewise, and each call wrote one RUN |
| RunQueueTheorems.FilterPartitions | ss_queue.c:282-293 | a deletion splits the queue without losing or repeating an entry |
| RunQueueTheorems.NothingLostOrFreedTwice | ss_queue.c:284-291 | in every run accepted calls are queued or deleted, each once, with their own arguments; the strings freed are those of the deleted entries, each once; nothing is deleted before it ran |
| RunQueueStrings.StringsConserved | ss_queue.c:287-290 | in every run the strings of the accepted calls are, as a multiset, those still queued and those freed |
| RunQueueStrings.EveryStringAccounted | ss_queue.c:287-290 | counted string by string over the arguments: handed in with accepted calls as often as held by queued entries and freed |
| RunQueueStrings.LeaksOnlyRefused | ss_queue.c:184-189 | all strings that reached the queue's allocation are queued or freed if and only if no call whose allocation failed had any |
| RunQueueTheorems.DeletesOnlyFinished | ss_core.c:83-85 | a CLEAR deletes only entries that have run and whose child is not alive |
| RunQueueTheorems.StepUsesWork | ss_core.c:59-63 | a dispatch or child death strictly lowers (2k+1) INIT entries + messages + 2 live children when actions make no calls and fork at most k times |
| RunQueueTheorems.DrainingTerminates | ss_core.c:66-88 | without new calls at most that many dispatches and deaths follow, and one is possible exactly until the system is quiet |
| RunQueueForeign.AdoptedExactly | ss_core.c:51-53 | the entries bound to a process that is no child are exactly the calls, read off the events, whose action returned the pid of one |
| RunQueueForeign.QuietQueueExactly | ss_core.c:44-62 | with nothing pending exactly these calls are queued; the queue is empty if and only if there was none, hence whenever every positive result is a child |
| RunQueueForeign.AdoptedForever | ss_queue.c:282-283 | the entry of an action that named a process that is no child is never deleted, whatever happens |
| RunQueueForeign.RunningProgramLeaks | ss_launch.c:217-222 | whatever came before and comes after, a call whose action launches a program that already runs stays queued |
| RunQueueForeign.AlreadyRunningLeaks | ss_predefine.c:232-237 | a run with one call, whose result is 1: nothing is pending and its entry is left |
| ActionTable.Actions.EntryFind | ss_queue.c:32-44 | the walk finds the newest entry of that name |
| ActionTable.Actions.EntryAddInternal | ss_queue.c:46-86 | a registration is refused for lack of memory, a known name or a null function |
| ActionTable.Actions.EntryCall | ss_queue.c:169-195 | a client's call is queued exactly when the name is known and the access check lets the caller through |
| ActionTable.Actions.EntryCallInternal | ss_queue.c:132-167 | the server's own call skips the check and treats an unknown name as success |
| ActionTable.FirstRegistrationWins | ss_queue.c:61-62 | after any registrations a name reaches its first successful one |
| CommandLine.CutAtSpace | ss_launch.c:110-117 | a space outside quotes and escapes splits a line into parts that are tokenized independently |
| CommandLine.PrintedTokens | ss_launch.c:89-130 | any printer whose output builds exactly its token is inverted by the tokenizer |
| CommandLine.PrintersInverted | ss_launch.c:89-130 | escaping every character, or double or single quotes with inner escapes, is inverted on every token vector, empty tokens included |
| CommandWords.TokensAreMeaning | ss_launch.c:89-130 | the tokens of every line of the grammar are its words' characters without quotes and backslashes, an open quote or dangling backslash at the end included |
| CommandWords.EveryLineHasItsMeaning | ss_launch.c:89-130 | every string is such a line, so the grammar gives the tokens of all strings |
| Launch.Consume | ss_launch.c:90-122 | one turn of the switch is one step of the automaton; the quote flags are never both set |
| Launch.ParseCmd | ss_launch.c:73-136 | on every line the pointer loop stores the prefix of the token list that fits under the cap, then a null, and stays within its buffer; it has no slot for the null exactly when the stored tokens take them all; -1 exactly for a null or empty line or a failed allocation |
| Launch.ReplaceChar | ss_pmon_handler.c:34-43 | the first `size` NULs become spaces in place, also for a size of -1 |
| Launch.GetPermanentPname | ss_pmon_handler.c:45-79 | null exactly when the file is missing, its size unknown or memory short; otherwise a buffer with the stored file, all but its last byte spaced, and a closing NUL |
| Launch.LaunchArgv | ss_launch.c:181-201 | on every line: at most 255 tokens reach execvp whole with their null, more overrun the array, with the first 256 stored |
| Launch.LinesOfAllLengths | ss_launch.c:186-188 | there is a line with any number of tokens |
| Launch.RelaunchArgv | ss_pmon_handler.c:101-104 | on every stored file: the successor of a dead process gets its stored vector if and only if no argument holds a space, quote or backslash, unless the file is missing, memory is short or more than 255 tokens overrun the array |
| Relaunch.RelaunchLine | ss_launch.c:287-288 | the command line of a stored vector is every argument followed by a space, then the extra argument |
| Relaunch.RelaunchRoundTrip | ss_pmon_handler.c:75 | storing, spacing, appending and tokenizing is the identity on a non-empty NUL-free vector if and only if all its arguments are plain |
| Relaunch.SpecialIsLost | ss_launch.c:95-109 | a line that ends in a space and holds a quote or backslash never equals the printout of its own tokens |
| Relaunch.EmptyVectorGainsOne | ss_pmon_handler.c:104 | an empty stored file is relaunched with one empty argument |
| CpuFreq.FreqSide.RemoveEntry | ss_cpu_handler.c:275-298 | one walk removes the caller's and every dead request in place and leaves the bound of the rest |
| CpuFreq.FreqSide.AddEntry | ss_cpu_handler.c:326-356 | the caller's old request is replaced; a failed allocation only tightens the cached bound |
| CpuFreq.FreqSide.SetAction | ss_cpu_handler.c:51-71 | a recorded request is written, a failed one is not |
| CpuFreq.FreqSide.ReleaseAction | ss_cpu_handler.c:95-117 | a release writes the bound left, or the limit |
| CpuFreq.FreqSide.PowerSavingCb | ss_cpu_handler.c:144-176 | the switch's three branches, with the comparison the code makes |
| CpuFreq.FreqSide.PowerSavingCpuCb | ss_cpu_handler.c:178-210 | the option matters only while the switch is on |
| CpuFreqRuns.ListIsHolders | ss_cpu_handler.c:275-356 | after every history the list has one entry per pid and is exactly the map of last requests of processes that stayed alive |
| CpuFreqRuns.CapIsBound | ss_cpu_handler.c:291-293 | the list's bound is attained by a request in force and none is tighter |
| CpuFreqRuns.WritesTheBound | ss_cpu_handler.c:51-142 | a successful set or release writes the tightest request in force, or the limit after a release that leaves none that binds |
| CpuFreqRuns.RequestWritesInOrder | ss_cpu_handler.c:51-93 | a recorded request writes to the lower bound a request in force that none exceeds, to the upper one that none is below |
| CpuFreqRuns.ReleaseWritesInOrder | ss_cpu_handler.c:95-142 | a release writes the same of the requests left, or the hardware limit when none is above INT_MIN, or below INT_MAX |
| CpuFreqRuns.SavingOffWritesInOrder | ss_cpu_handler.c:160-169 | switching power saving off writes the lowest request in force, INT_MAX when there is none, and the hardware limit when it is INT_MIN |
| CpuFreqRuns.OrderIrrelevant | ss_cpu_handler.c:51-93 | permuting set requests of distinct live processes does not change what is finally written |
| CpuFreqRuns.Heals | ss_cpu_handler.c:281-295 | the next add or remove forgets a wrong cached bound |
| CpuFreqRuns.FailedRequest | ss_cpu_handler.c:331-343 | a failed request writes nothing, drops the old one, and leaves the cache wrong if and only if it was tighter than the rest |
| CpuFreqRuns.CacheFollowsLastChange | ss_cpu_handler.c:275-356 | after every history the last operation that is no rewrite, and the bound of the list, determine the cached bound |
| CpuFreqRuns.RewriteWritesCache | ss_cpu_handler.c:169 | so they determine what a rewrite writes |
| CpuFreqRuns.RewriteWritesTheBound | ss_cpu_handler.c:151-169 | a rewrite writes the bound of the requests in force if and only if nothing has changed yet, or the last change was a recorded request, a failed one that asked for no more than the rest, or a release whose fallback changed nothing |
| CpuFreqRuns.RewriteWritesLikeRelease | ss_cpu_handler.c:106-110 | exactly when it writes what a release would: the tightest request in force, or the hardware limit when none binds |
| CpuFreqRuns.RewriteExposes | ss_cpu_handler.c:151-169 | after one failed request the rewrite writes that request's value, and before any request INT_MAX, whatever the hardware limit |
| CpuFreqRuns.SavingOffAgrees | ss_cpu_handler.c:160-168 | switching power saving off writes what a release would if and only if the bound left is no extreme marker or equals the limit |
| CpuFreqRuns.SavingOffWritesMarker | ss_cpu_handler.c:166-167 | with no other request it writes INT_MAX |
| LowBattery.BatteryMonitor.FindRow | ss_lowbat_handler.c:209-230 | the scan finds a row exactly for a strict descent, unknown counting as normal, and its action belongs to the level entered |
| LowBattery.BatteryMonitor.LowbatProcess | ss_lowbat_handler.c:145-234 | a published sample moves to its level and acts exactly on a strict descent; an unpublished one changes neither state nor actions; the status it calls for is set unless it is set already |
| LowBattery.BatteryMonitor.Monitor | ss_lowbat_handler.c:245-270 | bounding, the interval, the error count that is never reset, and the stop after eleven errors |
| LowBattery.LevelInNumbers | ss_lowbat_handler.c:166-183 | the percentages of each level, 15, 5, 1 and 0 being the last of theirs |
| LowBattery.CountsInNumbers | ss_lowbat_handler.c:162-203 | a sample counts if and only if it and the present status can be read and that is right for its percentage already or can be set |
| LowBattery.TableHasDescents | ss_lowbat_handler.c:77-88 | the table has rows for all strict descents and no others, with the action fixed by the lower level |
| LowBattery.TraceIsDescents | ss_lowbat_handler.c:167-233 | over every run, failed publishing included, the actions are exactly the strict descents of the published levels |
| LowBattery.ActionsInNumbers | ss_lowbat_handler.c:77-88 | in every run a sample that counts warns on falling to 6 to 15 percent, goes critical on falling to 2 to 5 or to 1, powers off on falling to 0, and does nothing else |
| LowBattery.IntervalInNumbers | ss_lowbat_handler.c:264-267 | the long interval follows exactly a fall, or a sample in the range of the last that counted other than 1 |
| LowBattery.FewActions | ss_lowbat_handler.c:77-88 | at most four actions plus four for every rise |
| LowMemory.MemoryHandler.MemoryOomAct | ss_lowmem_handler.c:145-168 | cleanup exactly when the unsigned difference exceeds 15, and the hard warning always |
| LowMemory.MemoryHandler.LowmemCb | ss_lowmem_handler.c:178-225 | the table scan with its timer handling is the transition's step, and the state is recorded even without a row |
| LowMemory.MemoryHandler.TimerFires | ss_lowmem_handler.c:145-168 | a timer tick is the out-of-memory action again and always asks to be renewed |
| LowMemory.TimerFollowsWarning | ss_lowmem_handler.c:185-191 | at most one timer exists, it is the one remembered, and it is armed if and only if the hard warning is published, when timers can be created |
| LowMemory.ArmedByLastRow | ss_lowmem_handler.c:178-198 | in every run, REBOOT and failing timers included, the timer is armed if and only if the last transition with a row went to CRITICAL and its timer was created; that transition also fixes the published level |
| LowMemory.CriticalUnarmed | ss_lowmem_handler.c:63-71 | CRITICAL without a timer holds if and only if the last notification was a CRITICAL that came from REBOOT while none was armed, or one with a row whose timer could not be created |
| LowMemory.NormalArmed | ss_lowmem_handler.c:63-71 | NORMAL with a timer holds if and only if the last notification was a NORMAL that came from REBOOT or NORMAL while one was armed |
| LowMemory.ArmedSinceCritical | ss_lowmem_handler.c:63-71 | without REBOOT it is armed if and only if the last notification other than LOW was CRITICAL; the published level follows likewise |
| LowMemory.ArmedInCritical | ss_lowmem_handler.c:63-71 | armed exactly in CRITICAL holds if and only if the run does not end in a LOW reached from CRITICAL |
| LowMemory.RebootBreaksBoth | ss_lowmem_handler.c:219-222 | two runs that show both: NORMAL with the timer armed, and CRITICAL without one |
| LowMemory.CleansTooSoon | ss_lowmem_handler.c:154 | in every state an action cleans up no later than 15 seconds after the last cleanup if and only if now < last < now + 2^32 - 15 |
| LowMemory.CleanupsSpacedModulo | ss_lowmem_handler.c:151-156 | in every run, with any clock, each cleanup is more than 15 after the one before modulo 2^32 |
| LowMemory.SpacedUnlessWrapped | ss_lowmem_handler.c:151-156 | in every run any two cleanups are more than 15 seconds apart if and only if no action met a clock as in CleansTooSoon |
| LowMemory.CleanupsSpaced | ss_lowmem_handler.c:151-156 | with a clock that never goes back any two cleanups are more than 15 seconds apart |
| LowMemory.OomActsAreCovered | ss_lowmem_handler.c:154-156 | an out-of-memory action cleans up if and only if the last cleanup is more than 15 seconds old |
| LowMemory.BackwardClockDefeatsThrottle | ss_lowmem_handler.c:154 | one second back and the difference wraps |

## Left out

- ProcTable.ProcFs.CheckAndSetOldBackgrd: a process that exits while a pass is under way counts as exiting before or after it; partial writes of a level are not modelled.
- OOMADJ_SET (`ss_procmgr.c:91-113`): it writes any value to any process and so bypasses the discipline the theorems are about.
- Spawns at a positive value: a child that inherits its parent's positive `oom_adj` is outside the runs; the launcher resets it to 0.
- Server.ActionServer.SigChild: the death of a child and the run of its handler are one step, and a signal that arrives during a list walk counts as arriving between two entries; the handler touches only the pipe. `waitpid` fails only for a pid that is no live child.
- RunQueueForeign.AdoptedForever: a process that is no child neither exits nor becomes a child during a run.
- RunQueueStrings.LeaksOnlyRefused: strings of a call that is turned away before the queue's allocation, for an unknown name or a denied access, are not counted.
- The capacity of the pipe: a full pipe would block the handler; messages are unbounded here.
- `eina_list_prepend` returning NULL; Eina itself is not part of the repository, so `EinaList` models its prepend, its remove and the walk of EINA_LIST_FOREACH_SAFE.
- `ss_run_queue_del` and `ss_run_queue_find_bypid` (`ss_queue.c:238-273`), which nothing calls, and `ss_action_entry_add`, which loads libraries.
- Launch.LaunchArgv: fork, exec, nice and the environment are not modelled, nor what a null written behind the array destroys.
- Launch.GetPermanentPname: a file that is found is read whole; the copy of the file made for the new pid is not modelled. Copies of tokens (`strdup`) succeed.
- `ss_launch_if_noexist` (`ss_launch.c:208-245`): only its answer is modelled, as a function of the pid found for the program.
- Parsing of numbers from argument strings: actions take the number, or its absence.
- CpuFreq.FreqSide.SetAction: what the hardware does with a failed write is not modelled; the value counts as written.
- CpuFreq.FreqSide.ReleaseAction: likewise, a failed write counts as written.
- `__set_freq_limit` (`ss_cpu_handler.c:227-261`): the limit is a constant of each side, and the request made at start-up when power saving is already on is a request like any other.
- LowMemory.MemoryHandler.MemoryOomAct: its internal call of the low-memory action queues an entry that is not followed here.
- LowMemory.MemoryHandler.MemoryLowAct: its own cleanup is not throttled and not recorded.
- LowMemory.TimerFollowsWarning: publishing is taken to succeed, since the code ignores its result.
- Unknown memory notifications, on which the code asserts.
- The capacity published for the battery is modelled, the charger state is not.
- Sockets, device plug-ins, mounts, time zones, popups and logging: event plumbing over libraries that are not part of the repository.
