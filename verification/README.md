# Models and proofs for an operating system course repository

The repository holds a student operating system (project1 to project6) and the
tools it is built and run with: the Bochs 2.4.2 emulator and the dev86 compiler
tools. This Dafny project models its seven most intricate parts and proves what
they are for. Each part has an imperative half, classes and loops shaped like the
C code, and a mathematical half, functions whose properties are proved as lemmas;
the contracts of the methods connect the two.

| Part | Files | Main results |
|---|---|---|
| Bochs timers | `TimerReference`, `PcSystem`, `TimerProperties`, `TimerCallbacks`, `UsecClock` | the 32-bit countdown with skewed periods is the clock that scans every timer on every tick; a timer left alone keeps its beat however ticks are batched; the last command a callback gives a timer decides what it does from then on; time stamps increase |
| `ifdef` filter | `IfdefLines`, `IfdefFilter`, `CPreprocessor`, `IfdefReading`, `IfdefGroups`, `IfdefMeaning`, `IfdefWitnesses`, `IfdefPasses`, `IfdefNumbers`, `IfdefModes` | directives as they are written are read for what they are; output and input mean the same to a preprocessor, exactly when no plain `#if` is dropped; a second pass changes nothing; when two passes are one; when line numbers come back |
| Scheduler | `SchedulerModel`, `SchedulerProperties`, `SavedContexts`, `SegmentWidths`, `ProcTable`, `KernelCalls`, `StaleLinks` | the linked ready queue, stale links and all, is a duplicate-free queue of exactly the waiting processes; segments and processes in bijection; bounded waiting; exact sleeping times; a process resumes where it was interrupted |
| Floppy file system | `FloppyModel`, `FloppyProperties`, `FloppyFiles`, `FloppyLaws`, `FloppyDisk` | any run of calls behaves as a map from names to contents; a saved file reads back until it is removed; where every byte lies; which writes keep the disk sound |
| CRC-32 | `Crc32` | the table form is polynomial division; a window is safe exactly up to four bytes; checksums agree exactly when the generator divides the difference; the check value |
| PCI regions | `Bits`, `PciRegions` | every register present gets one region of its size, at the first aligned address its arena has left; when the two memory arenas stay apart |
| MP table | `MpTable`, `MpBytes` | every byte of the table; an operating system reads back what was written, exactly when count and length are right |

Timer callbacks are a parameter: a function from the trace of firings so far to
the commands issued. What a file does not say of itself (names defined at its
start, the effect of included files, the values of expressions) is a parameter
`Env`. The disk is a sequence of 2880 sectors, `char` is 0 to 255. Whether a program
file was found is a parameter of exec. The values PCI registers read back, CPUID
values and the number of processors are parameters.

Where the code falls short of what it is for, the exact condition is proved and a
witness given: a plain `#if` inside a dropped region
(`IfdefMeaning.FilterPreservesMeaning`, `IfdefWitnesses.DroppedIfLeaks`), or inside
a conditional only a second pass decides (`IfdefPasses.TwoPassesAreOneIff`,
`IfdefPasses.TwoPassesDiffer`), line numbers with undecided conditionals (`IfdefNumbers.LineNumbersComeBackIff`,
`IfdefNumbers.UndecidedLosesNumbers`), a sleep whose 16-bit counter is below 2 or
has wrapped (`SchedulerProperties.SleepQueuesOnceIff`,
`SchedulerProperties.CounterExactIff`), the two highest segments in a 16-bit `int`
(`SegmentWidths.TerminateKeepsInvIff`, `SegmentWidths.SeventhProcessLeaks`),
overwriting a file (`FloppyFiles.WriteSoundIff`), lists of 26 sectors
(`FloppyFiles.TwentySixReadBackIff`, `FloppyFiles.TwentySixSectorsLost`), checksums
of wider differences (`Crc32.WindowSafeIff`, `Crc32.SameChecksumIff`), memory
arenas that meet (`PciRegions.MemoryApartIff`, `PciRegions.MemoryArenasCanCollide`),
and the QEMU variant of the MP table, whose entry count is one too many
(`MpTables.TableReads`).

The preprocessor that judges the filter, `CPreprocessor`, reads lines its own way,
by ISO/IEC 9899:1999 section 6.10. The filter reads some lines differently, and
`IfdefMeaning.Understands` says, line by line, where the two agree well enough: the
same directive and name; `#elif`, which the filter takes for some other directive,
only in a conditional it leaves alone or in a region it drops; and no `#define` or
`#undef` that contradicts what the filter was told. For each of the three a file
is spelled out that breaks it and goes wrong (`IfdefWitnesses.ParenthesisIsMissed`,
`IfdefWitnesses.ElifIsLost`, `IfdefWitnesses.DefinitionIsMissed`).

Two places where the code does not do what its comments say. The comment over
`writeFile` promises -2 when the disk is full; the code then reads list entries it
never filled, so that case is left out. The same comment allows 26 sectors; the
loops that walk a list stop only at a zero byte, so 25 is the most they can be
trusted with.

## Model

| member | source | states |
|---|---|---|
| PcSystemTimers.PcSystem.constructor | bochs-2.4.2/pc_system.cc:63-80 | power-on leaves the null timer alone in slot 0, armed one null interval ahead |
| PcSystemTimers.PcSystem.TickN | bochs-2.4.2/pc_system.h:111-121 | the batched tick is n ticks of the clock that scans all timers every tick: same firings in the same order, same timers, and time advanced by exactly n |
| PcSystemTimers.PcSystem.Tick1 | bochs-2.4.2/pc_system.h:106-110 | a single tick is one tick of that clock, and keeps every deadline ahead of the countdown |
| PcSystemTimers.PcSystem.CountdownEvent | bochs-2.4.2/pc_system.cc:324-388 | a countdown event fires exactly the timers due, in slot order, as decided before any callback runs |
| PcSystemTimers.PcSystem.Sweep | bochs-2.4.2/pc_system.cc:339-371 | marks and rearms exactly the timers due and finds the nearest deadline left, never more than a null interval away |
| PcSystemTimers.PcSystem.RunCallbacks | bochs-2.4.2/pc_system.cc:379-387 | callbacks run for the timers marked, even one an earlier callback deactivated |
| PcSystemTimers.PcSystem.Callback | bochs-2.4.2/pc_system.cc:382-386 | a callback's commands take effect one by one, the countdown staying valid throughout |
| PcSystemTimers.PcSystem.ActivateTimerTicks | bochs-2.4.2/pc_system.cc:464-497 | arming a timer, also inside the running countdown, is arming it in the reference clock; the clock does not move |
| PcSystemTimers.PcSystem.Skew | bochs-2.4.2/pc_system.cc:490-496 | shortening the countdown changes neither the time nor the bounds of the countdown |
| PcSystemTimers.PcSystem.DeactivateTimer | bochs-2.4.2/pc_system.cc:533-543 | deactivation is that of the reference clock |
| PcSystemTimers.PcSystem.RegisterTimerTicks | bochs-2.4.2/pc_system.cc:264-322 | registration takes the first free slot from 1 on and is that of the reference clock |
| PcSystemTimers.PcSystem.UnregisterTimer | bochs-2.4.2/pc_system.cc:545-573 | an active timer is refused; otherwise the slot is freed and the bound shrinks if it was the last |
| PcSystemTimers.PcSystem.Session | bochs-2.4.2/pc_system.h:106-132 | a whole run of ticks, batches, registrations and commands is a run of the reference clock |
| TimerReference.SkipQuietTicks | bochs-2.4.2/pc_system.h:118-120 | ticks before every deadline only move time, which is why skipping them is sound |
| TimerReference.JumpToDeadline | bochs-2.4.2/pc_system.h:112-117 | n ticks up to the first moment anything can be due are one jump and one service |
| TimerProperties.ContinuousTimerKeepsItsBeat | bochs-2.4.2/pc_system.cc:358-363 | a continuous timer armed at T with period p and left alone has fired floor((now - T)/p) times, at T + p, T + 2p and so on, over every run |
| TimerProperties.NullTimerKeepsItsBeat | bochs-2.4.2/pc_system.cc:60-70 | the null timer beats from power-on whatever else is registered |
| TimerProperties.OneShotTimerFiresOnce | bochs-2.4.2/pc_system.cc:354-357 | a one-shot timer left alone fires exactly once, at its deadline |
| TimerProperties.BatchingIsInvisible | bochs-2.4.2/pc_system.h:111-121 | any way of cutting ticks into batches gives the same firings, timers and time |
| TimerProperties.RunOnBeat | bochs-2.4.2/pc_system.cc:342-387 | no operation on other timers disturbs the beat of one timer |
| TimerCallbacks.TickFiresInOrder | bochs-2.4.2/pc_system.cc:342-387 | a tick fires exactly the timers whose deadline it is, in slot order |
| TimerCallbacks.LastCommandObeyed | bochs-2.4.2/pc_system.cc:379-387 | when a tick is over, a timer is as the last command any callback gave it in that tick says, whatever its own deadline |
| TimerCallbacks.CallbackTakesEffect | bochs-2.4.2/pc_system.cc:382-386 | over every run after it: armed for p ticks by a callback at time t, a timer fires at t + max(p, 1), and at every multiple when continuous; deactivated, it does not fire again |
| TimerCallbacks.CommandTakesEffect | bochs-2.4.2/pc_system.cc:464-543 | the same for a command issued between ticks |
| TimerCallbacks.RegistrationTakesEffect | bochs-2.4.2/pc_system.cc:264-322 | a timer registered active keeps its beat from then on, one registered inactive is silent; it takes the lowest free slot and touches no other |
| TimerCallbacks.DismissalTakesEffect | bochs-2.4.2/pc_system.cc:545-573 | an active timer stays as it is; any other leaves its slot free, or ends the list |
| TimerCallbacks.UntoldTimer | bochs-2.4.2/pc_system.cc:342-363 | a timer no callback commands is as its deadline leaves it |
| TimerCallbacks.RunSilent | bochs-2.4.2/pc_system.cc:342-353 | an inactive timer left alone never fires |
| TimerCallbacks.TimePasses | bochs-2.4.2/pc_system.h:106-132 | time grows by exactly the ticks asked for, over every run |
| TimerCallbacks.SelfRenewingTimerKeepsItsBeat | bochs-2.4.2/pc_system.cc:379-387 | a one-shot timer whose callback arms it again inside the event keeps the beat of a continuous one, through batches of any size |
| UsecClocks.UsecClock.TimeUsecSequential | bochs-2.4.2/pc_system.cc:441-455 | the stamp is one past the clock or the last stamp, whichever is later |
| UsecClocks.UsecClock.Readings | bochs-2.4.2/pc_system.cc:441-455 | a run of readings gives the sequence of such stamps |
| UsecClocks.StampsIncrease | bochs-2.4.2/pc_system.cc:441-455 | stamps strictly increase and run ahead of the clock by at most their lead and their number |
| IfdefLines.MatchesWord | dev86-0.16.17/ifdef.c:267-274 | the character-by-character comparison finds a name exactly when it is the next word of the line |
| IfdefReading.IfdefAsWritten | dev86-0.16.17/ifdef.c:211-219 | `#ifdef` of any identifier, with any white space before the hash sign and any blanks after it and before the name, is read as that directive and that name, by the filter as by the standard |
| IfdefReading.IfndefAsWritten | dev86-0.16.17/ifdef.c:220-223 | so is `#ifndef`, as the opposite |
| IfdefReading.IfAsWritten | dev86-0.16.17/ifdef.c:225-229 | so is `#if` with white space after it |
| IfdefReading.ElseAsWritten | dev86-0.16.17/ifdef.c:231-235 | so is `#else` |
| IfdefReading.EndifAsWritten | dev86-0.16.17/ifdef.c:237-243 | so is `#endif` |
| IfdefReading.DefinitionAsWritten | dev86-0.16.17/ifdef.c:244-246 | `#define` and `#undef` of any identifier are none of the filter's directives |
| IfdefReading.ElifAsWritten | dev86-0.16.17/ifdef.c:244-246 | nor is `#elif` |
| IfdefReading.TextAsWritten | dev86-0.16.17/ifdef.c:172-174 | a line that starts otherwise is text |
| IfdefGroups.KnownConditional | dev86-0.16.17/ifdef.c:264-297 | of a conditional on a name told or assumed defined or undefined, the filter keeps the group the name chooses and nothing else |
| IfdefGroups.UnknownConditional | dev86-0.16.17/ifdef.c:285-290 | of one it was told nothing about, or of a plain `#if`, it keeps every line |
| IfdefGroups.ConditionalAsWritten | dev86-0.16.17/ifdef.c:205-297 | from the characters on: an `#ifndef` group is dropped exactly when the name is defined, an `#ifdef` group exactly when it is not, and a preprocessor does the same by its definitions |
| IfdefGroups.ConditionalMeans | dev86-0.16.17/ifdef.c:205-297 | the preprocessor the filter is judged by takes exactly one of the two groups of a conditional, whatever balanced lines they hold |
| IfdefGroups.DeadLines | dev86-0.16.17/ifdef.c:205-297 | it takes nothing from a group that is not taken |
| IfdefGroups.DefinitionsCount | dev86-0.16.17/ifdef.c:205-297 | a `#define` or `#undef` decides the name from the next line on |
| IfdefModes.EndsDoneIff | dev86-0.16.17/ifdef.c:190-243 | the tool ends without a fatal error if and only if the conditionals it sees are balanced |
| IfdefModes.NestedEndsDone | dev86-0.16.17/ifdef.c:190-243 | so it does on every well-nested file it reads as the standard does |
| IfdefModes.FatalTells | dev86-0.16.17/ifdef.c:231-241 | the first `#else` or `#endif` outside every conditional ends the run with the message for it |
| IfdefModes.OpenTells | dev86-0.16.17/ifdef.c:190-191 | a file that only leaves conditionals open ends with the message for that |
| IfdefModes.OutputFollows | dev86-0.16.17/ifdef.c:154-189 | what a file prints follows what was printed before, after a first mark under -l, and does not depend on it |
| IfdefModes.HashesStripped | dev86-0.16.17/ifdef.c:244-253 | with -h and every conditional known, what is left is the text lines kept without it |
| IfdefFilter.IfdefTool.SaveName | dev86-0.16.17/ifdef.c:128-152 | the list of names behaves as a map that the last definition of a name wins |
| IfdefFilter.IfdefTool.DoIfdef | dev86-0.16.17/ifdef.c:255-297 | opens a conditional as known true, known false, unknown or already dropped |
| IfdefFilter.IfdefTool.Interpret | dev86-0.16.17/ifdef.c:205-246 | each directive advances the two-bit state and stack as the reference machine does, or is a fatal error |
| IfdefFilter.IfdefTool.DoHashcom | dev86-0.16.17/ifdef.c:205-253 | which directive lines pass through, and what stands for the others |
| IfdefFilter.IfdefTool.PrintLine | dev86-0.16.17/ifdef.c:176-188 | a line reaching the text path is printed, numbered, blanked, commented or deleted as the cut type says |
| IfdefFilter.IfdefTool.DoLine | dev86-0.16.17/ifdef.c:168-189 | one line of input does to state and output what the reference step does |
| IfdefFilter.IfdefTool.DoFile | dev86-0.16.17/ifdef.c:154-192 | a whole file does what the reference run does, and ends with every conditional closed or a fatal error |
| IfdefMeaning.DeletePrintsKept | dev86-0.16.17/ifdef.c:176-188 | delete mode prints exactly the kept lines |
| IfdefMeaning.SimStep | dev86-0.16.17/ifdef.c:205-297 | one line keeps the filter in step with a preprocessor reading the input and one reading the output, both reading lines by the standard |
| IfdefMeaning.PreservesFrom | dev86-0.16.17/ifdef.c:205-297 | from any state in step, output and rest of input mean the same under every environment that agrees |
| IfdefMeaning.FilterPreservesMeaning | dev86-0.16.17/ifdef.c:154-297 | for well-nested input whose lines the filter reads as the standard does (an `#elif` only in conditionals it leaves alone or drops whole, no told name redefined), the output is well nested and gives a preprocessor the same text and directives under every agreeing environment, if and only if no plain `#if` stands in a dropped region |
| IfdefWitnesses.DroppedIfLeaks | dev86-0.16.17/ifdef.c:225-229 | a four-line input whose dropped `#if` survives alone |
| IfdefWitnesses.ElifIsLost | dev86-0.16.17/ifdef.c:237-244 | a five-line input whose text after `#elif` is lost |
| IfdefMeaning.StrayElifBreaks | dev86-0.16.17/ifdef.c:237-253 | an `#elif` in a conditional known to be true, with none open that the filter leaves alone, always leaves output that is not well nested |
| IfdefWitnesses.ParenthesisIsMissed | dev86-0.16.17/ifdef.c:225-229 | a well-nested four-line file with `#if(X)` that ends in a fatal error in every mode |
| IfdefWitnesses.DefinitionIsMissed | dev86-0.16.17/ifdef.c:264-297 | a four-line input whose own `#define` the filter does not see |
| IfdefMeaning.KeptNet | dev86-0.16.17/ifdef.c:225-243 | the output opens more conditionals than it closes by exactly the number of dropped plain `#if`s |
| IfdefPasses.TwoPassesAreOne | dev86-0.16.17/ifdef.c:205-297 | filtering with A and then with B is filtering once with both, whenever no plain `#if` is dropped by A inside a conditional that only B decides |
| IfdefPasses.TwoPassesAreOneIff | dev86-0.16.17/ifdef.c:205-297 | that condition holds of the lines so far if and only if the passes agree on every beginning of them continued in any way without plain `#if`s |
| IfdefPasses.TwoPassesDiffer | dev86-0.16.17/ifdef.c:205-297 | an eight-line file that two passes and one treat differently |
| IfdefPasses.InStepNext | dev86-0.16.17/ifdef.c:205-297 | one line keeps the three filters in step, and the one that knows both shows it exactly when both passes do |
| IfdefPasses.FilterIsIdempotent | dev86-0.16.17/ifdef.c:205-297 | a second identical pass changes nothing, for every file |
| IfdefNumbers.PlacesKept | dev86-0.16.17/ifdef.c:183-187 | with -b or -c every input line is answered by one output line, itself or a blank or that line as a comment, and the lines left are those of delete mode |
| IfdefNumbers.LineNumbersComeBackIff | dev86-0.16.17/ifdef.c:164-203 | under -l a compiler that honours blanks and line marks sees every line under its original number if and only if it processes none between a mark it skips and the next one it honours |
| IfdefNumbers.NumbersFrom | dev86-0.16.17/ifdef.c:164-203 | the same from any state; the reader never counts ahead |
| IfdefNumbers.QuietNumbersComeBack | dev86-0.16.17/ifdef.c:164-203 | if no mark is printed while an undecided conditional is open, numbers come back in every environment |
| IfdefNumbers.LineNumbersComeBack | dev86-0.16.17/ifdef.c:164-203 | with every conditional known they do |
| IfdefNumbers.UndecidedLosesNumbers | dev86-0.16.17/ifdef.c:164-203 | a five-line file with an undecided conditional whose last line is misnumbered |
| ProcTables.ProcTable.constructor | project5/proc.c:25-51 | boot: all segments free, all blocks defunct, the idle process running, the queue empty |
| ProcTables.ProcTable.GetFreeMemorySegment | project5/proc.c:58-68 | takes the first free segment, or says there is none and changes nothing |
| ProcTables.ProcTable.ReleaseMemorySegment | project5/proc.c:74-76 | frees that segment and no other |
| ProcTables.ProcTable.GetFreePCB | project5/proc.c:83-93 | takes the first defunct block, marking it STARTING, or returns null; links are untouched |
| ProcTables.ProcTable.AddToReady | project5/proc.c:127-148 | appends to the represented queue, and says which next pointer changed |
| ProcTables.ProcTable.RemoveFromReady | project5/proc.c:154-182 | removes the head of the represented queue, leaving its next pointer as it was |
| ProcTables.ProcTable.ReleasePCB | project5/proc.c:100-122 | a block not queued leaves the queue alone, though its stale next may touch the head; a queued one is taken out |
| ProcTables.ChainUnlink | project5/proc.c:104-121 | unlinking any position leaves a chain of the remaining queue |
| ProcTables.ChainAppend | project5/proc.c:127-148 | linking behind the tail gives a chain of the longer queue whatever the tail's old next was |
| ProcTables.ChainPop | project5/proc.c:154-182 | dropping the head leaves a chain of the rest |
| KernelCalls.HandleTimerInterrupt | project5/kernel.c:74-100 | saves the running process, requeues it if it can go on, and runs the head of the queue or the idle process; the invariants and the bound on stale links are kept |
| KernelCalls.HandleTimerInterruptSleeping | project6/kernel.c:72-110 | the same with sleepers woken first, in slot order |
| KernelCalls.WakeSleepers | project6/kernel.c:77-86 | every sleeper loses one count, and those at zero join the queue |
| KernelCalls.Sleep | project6/kernel.c:63-70 | puts the running process to sleep with a 16-bit counter and raises one timer tick |
| KernelCalls.ExecuteProgram | project5/kernel.c:113-171 | -1 for no file, -2 for no segment, otherwise a new process at the tail; invariants kept |
| KernelCalls.Terminate | project5/kernel.c:177-187 | frees the process's own segment and block; the queue and every other process are untouched |
| KernelCalls.Boot | project5/proc.c:25-51 | the boot state satisfies every invariant |
| KernelCalls.Session | project5/kernel.c:74-187 | over any run of exec, terminate and tick the linked structure is the abstract kernel's run, and all invariants hold |
| KernelCalls.SleepySession | project6/kernel.c:63-110 | over any run of exec, sleep and tick the linked structure is the abstract kernel's run, and all invariants hold |
| StaleLinks.WakeAlone | project6/kernel.c:77-107 | a process that wakes into an empty queue runs with a next pointer to one that sleeps |
| StaleLinks.WokenInv | project6/kernel.c:63-110 | that kernel satisfies every invariant of the runs with sleep, and could terminate |
| StaleLinks.ReleaseAlone | project5/proc.c:100-122 | releasing its block then leaves a sleeping process at the head of a queue without a tail, which represents no queue |
| SchedulerProperties.StepInv | project5/kernel.c:74-187 | every step keeps: the queue holds exactly the READY and STARTING processes once, states fit, used segments and live processes are in bijection |
| SchedulerProperties.FreeSegmentFreePCB | project5/kernel.c:125-151 | when a segment is free so is a block, so the branch for no free block is never taken |
| SchedulerProperties.ExecOutcome | project5/kernel.c:113-171 | the three results of exec and exactly when each occurs; failures change nothing; success takes the first free segment and the first defunct block, and the new process stands last in the queue with its name cut to six characters, its segment and an empty stack |
| SchedulerProperties.TerminateInv | project5/kernel.c:177-187 | in unbounded arithmetic terminating frees the one segment the process owned and its block, and changes nothing else |
| SegmentWidths.ReleasedIff | project5/kernel.c:135-135 | in 16 bits it is, if and only if the segment is one of the first six; from then on the index is negative |
| SegmentWidths.TerminateKeepsInvIff | project5/kernel.c:177-187 | terminating in 16 bits keeps the invariant if and only if the process owns one of the first six segments |
| SegmentWidths.SeventhProcessLeaks | project5/kernel.c:177-187 | seven programs and seven ticks after boot, terminating would lose a segment |
| SchedulerProperties.BoundedWaiting | project5/kernel.c:74-100 | the process at position k is dispatched on exactly the (k+1)-th tick over every run, and k is at most 7 |
| SchedulerProperties.SleepLastsExactly | project6/kernel.c:63-86 | over every run a sleep ends on exactly the tick its 16-bit counter says, and the sleeper is then queued once |
| SchedulerProperties.CounterExactIff | project6/kernel.c:63-70 | that counter is the 125 ticks a second asked for, if and only if from 1 to 262 seconds were |
| SchedulerProperties.SleepQueuesOnceIff | project6/kernel.c:63-95 | nobody is queued twice by a sleep call if and only if its 16-bit counter is at least 2 |
| SchedulerProperties.WakeOthers | project6/kernel.c:77-86 | what the waking loop does to each process |
| SavedContexts.TickOutcome | project6/kernel.c:72-110 | a tick saves the interrupted process's stack pointer and nothing else of any context, takes one off every sleeper's count, queues those whose time is over and then the interrupted process, and runs the head of that queue or the idle process |
| SavedContexts.InterruptSaves | project5/kernel.c:74-84 | the interrupted process is queued last with the stack pointer it was interrupted at, or runs on alone |
| SavedContexts.StepKeepsContext | project5/kernel.c:74-187 | no step changes stack pointer, segment or name of a live process that is not running |
| SavedContexts.QueuedKeepsContext | project5/kernel.c:74-187 | so over every run a queued process keeps them until its turn |
| SavedContexts.DispatchedWithContext | project5/kernel.c:87-98 | over every run the process at position k of the queue runs on exactly the (k+1)-th tick with the stack pointer, segment and name it was queued with |
| SavedContexts.InterruptedResumes | project5/kernel.c:74-98 | over every run a process interrupted with stack pointer sp next runs with exactly sp and its own segment and name |
| SavedContexts.SleeperKeepsContext | project6/kernel.c:63-110 | over every run a sleeper keeps the stack pointer its call was made with, also when it wakes, on the tick its counter says |
| SavedContexts.NewProcessStarts | project5/kernel.c:113-171 | over every run a new process first runs with stack pointer 0xFF00, in a segment that was free and under its name |
| FloppyDisks.Floppy.Mod | project5/kernel.c:669-677 | the loop computes the remainder of a number that is not negative, and leaves a negative one as it is |
| FloppyDisks.Floppy.Address | project5/kernel.c:330-337 | the packed registers address the sector asked for |
| FloppyDisks.AddressReaches | project5/kernel.c:330-337 | for all 2880 sectors track, head and sector are on the disk and (2 * track + head) * 18 + sector - 1 is that sector |
| FloppyDisks.AddressInjective | project5/kernel.c:330-337 | two sectors never share an address |
| FloppyDisks.Floppy.ReadSector | project5/kernel.c:681-696 | fills 512 bytes of the buffer from the sector, and nothing else changes |
| FloppyDisks.Floppy.WriteSector | project5/kernel.c:327-341 | replaces that sector, and nothing else changes |
| FloppyDisks.Floppy.FindFile | project5/kernel.c:381-400 | the first entry with that name, or -1 when there is none |
| FloppyDisks.Floppy.ReadFile | project5/kernel.c:535-563 | -1 for no such file; otherwise the number of sectors counted, and the buffer begins with their bytes and is otherwise untouched, for any list that stops inside the directory |
| FloppyDisks.Floppy.FindUnused | project5/kernel.c:441-447 | first-fit: the lowest free sectors in order |
| FloppyDisks.Floppy.WriteFile | project5/kernel.c:405-481 | -1 when no entry is left and nothing changes; otherwise the file is created from the first-fit sectors and the count returned |
| FloppyDisks.Floppy.Erase | project5/kernel.c:362-369 | the loop zeroes the list and the map bytes it names, and no others |
| FloppyDisks.Floppy.DeleteFile | project5/kernel.c:345-376 | -1 for no such file and nothing changes; otherwise entry and sectors are freed |
| FloppyDisks.Floppy.Serve | project5/kernel.c:345-563 | each call answers and changes the disk as its function says |
| FloppyDisks.Floppy.Session | project5/kernel.c:345-563 | any run of calls gives the answers of a map from names to contents, and leaves the disk sound |
| FloppyProperties.CreateSound | project5/kernel.c:405-481 | writing to an entry without sectors keeps the disk sound: every used map byte is reserved or owned once, lists end in zeros, free entries are empty, names differ |
| FloppyProperties.DeleteSound | project5/kernel.c:345-376 | so does deleting any file |
| FloppyProperties.TwentySixSectorsRunOn | project5/kernel.c:365-369 | a full list of 26 is counted right exactly when the next entry's name starts with zero, and the last entry's runs to the end of the sector |
| FloppyFiles.TwentySixReadBackIff | project5/kernel.c:405-481 | a file written with 26 sectors reads back if and only if there is a next entry and it is free |
| FloppyFiles.TwentySixSectorsLost | project5/kernel.c:420-422 | a sound disk on which it does not |
| FloppyProperties.FitsIff | project5/kernel.c:441-447 | first fit finds its sectors, with numbers a byte can hold, if and only if that many of the first 256 are free |
| FloppyProperties.FormattedSound | project5/kernel.c:405-481 | an empty disk is sound and takes a file of any name and up to 25 sectors |
| FloppyFiles.WriteSoundIff | project5/kernel.c:405-481 | a write keeps the disk sound if and only if it writes nothing or the entry held no sectors |
| FloppyFiles.CreateReadsBack | project5/kernel.c:405-481 | a file reads back as the sectors written, followed by the tail of a longer old list under the name; a new file as exactly what was written |
| FloppyFiles.CreateKeepsOthers | project5/kernel.c:405-481 | writing, also over an old file, leaves every other file's contents as they were |
| FloppyFiles.DeleteKeepsOthers | project5/kernel.c:345-376 | so does deleting |
| FloppyFiles.DeleteUndoesCreate | project5/kernel.c:345-481 | deleting a file just written restores the map byte for byte, every list, and every sector but the directory and those written |
| FloppyFiles.CreateFiles | project5/kernel.c:405-481 | writing adds one name to the map of files |
| FloppyFiles.DeleteFiles | project5/kernel.c:345-376 | deleting removes one name from it |
| FloppyFiles.EntryTakes | project5/kernel.c:424-439 | a name finds an entry unless it is new and sixteen names are in use |
| FloppyFiles.CallRefines | project5/kernel.c:345-563 | each call on the disk is the same call on the map |
| FloppyFiles.RunRefines | project5/kernel.c:345-563 | over every run from a sound disk it stays sound and agrees with the map in answers and files |
| FloppyLaws.FindIsFirst | project5/kernel.c:381-400 | the search finds the first entry whose six bytes at 32 * i of sector 2 are the name |
| FloppyLaws.EntryIsFirst | project5/kernel.c:424-439 | a file is written to the first entry with its name or, without one, to the first that begins with a zero byte |
| FloppyLaws.ContentAt | project5/kernel.c:548-560 | a file's bytes are those of the sectors listed from byte 32 * e + 6 of sector 2 up to the first zero, in order |
| FloppyLaws.CreateLayout | project5/kernel.c:405-481 | writing puts the name and list into the entry, 0xFF into the map in sector 1 and the data into the sectors listed, and changes no other byte of the disk |
| FloppyLaws.DeleteLayout | project5/kernel.c:345-376 | deleting zeroes the name's first byte, the list and the list's map bytes, and changes no other byte |
| FloppyLaws.FirstFitLowest | project5/kernel.c:441-447 | no free sector is passed over |
| FloppyLaws.SavedReadsBack | project5/kernel.c:345-563 | over every run a file whose save was answered n reads back as n and the first n sectors of what was saved, or can be removed, as long as nothing else was saved or removed under its name |
| FloppyLaws.RemovedIsGone | project5/kernel.c:345-563 | over every run a removed file is answered -1 until it is saved again |
| FloppyLaws.SaveRefusedIff | project5/kernel.c:424-439 | a save is answered -1 if and only if none of the sixteen entries bears the name or begins with a zero byte |
| Crc32.CrcTable.InitCrc32 | bochs-2.4.2/crc.cc:41-51 | the table holds eight steps of division for every byte |
| Crc32.CrcTable.Crc32 | bochs-2.4.2/crc.cc:53-65 | the checksum of any buffer, on the first call and on later ones |
| Crc32.TableStep | bochs-2.4.2/crc.cc:62-63 | one table step is eight bit steps |
| Crc32.FeedIsRemainder | bochs-2.4.2/crc.cc:46-49 | feeding bits into the register is polynomial division by the generator with 32 zeros appended |
| Crc32.ChecksumDivides | bochs-2.4.2/crc.cc:53-65 | the checksum is the complement of the remainder of IEEE 802.3 section 3.2.9 with an all-ones preset |
| Crc32.CheckValue | bochs-2.4.2/crc.cc:53-65 | the checksum of the ASCII digits 1 to 9 is 0xfc891918 |
| Crc32.Invertible | bochs-2.4.2/crc.cc:46-49 | every bit step can be undone |
| Crc32.BurstDetected | bochs-2.4.2/crc.cc:53-65 | two buffers that differ only within four consecutive bytes never share a checksum |
| Crc32.FiveByteBurstCanHide | bochs-2.4.2/crc.cc:53-65 | in any surroundings two five-byte strings can |
| Crc32.WindowSafeIff | bochs-2.4.2/crc.cc:53-65 | windows of w bytes are safe everywhere if and only if w is at most four |
| Crc32.SameChecksumIff | bochs-2.4.2/crc.cc:53-65 | two buffers of one length share a checksum if and only if the generator divides their difference |
| Bits.MaskRoundsDown | bochs-2.4.2/bios/rombios32.c:974 | masking the low bits off is rounding down to a multiple of a power of two |
| Bits.RoundsUp | bochs-2.4.2/bios/rombios32.c:974 | the rounding expression gives the least multiple of the size from the pointer on |
| PciRegions.SizeIs | bochs-2.4.2/bios/rombios32.c:967-973 | the size and the arena read out of a probed register |
| PciRegions.PlaceFacts | bochs-2.4.2/bios/rombios32.c:966-976 | one region is aligned and lies between the old and the new pointer of its arena; no pointer goes back |
| PciRegions.AssignedWithin | bochs-2.4.2/bios/rombios32.c:954-978 | so it is for all regions of all devices |
| PciRegions.AssignedDisjoint | bochs-2.4.2/bios/rombios32.c:954-978 | no two regions of one arena overlap |
| PciRegions.ArenasSeparate | bochs-2.4.2/bios/rombios32.c:966-976 | what an arena gives out depends on its own registers alone |
| PciRegions.MemStartsAt | bochs-2.4.2/bios/rombios32.c:966-976 | a small region starts at every multiple of 64 MB the small memory arena reaches |
| PciRegions.MemoryApartIff | bochs-2.4.2/bios/rombios32.c:966-976 | the two memory arenas never overlap if and only if the small one gives out nothing or, each scanned alone, every big region ends by its start or starts from its end on |
| PciRegions.MemoryArenasCanCollide | bochs-2.4.2/bios/rombios32.c:1023-1027 | two 512 MB regions are enough for the arenas to meet |
| PciRegions.AssignedServes | bochs-2.4.2/bios/rombios32.c:954-978 | each register that read back anything gets exactly one region, of the size and in the arena its bits ask for, in device and slot order, and no other register gets any |
| PciRegions.AssignedSnug | bochs-2.4.2/bios/rombios32.c:966-976 | each region starts at the first multiple of its size that its arena has left |
| PciRegions.PciBios.MapRegion | bochs-2.4.2/bios/rombios32.c:966-977 | one register is given the next aligned address of its arena, an absent one nothing |
| PciRegions.PciBios.InitDevice | bochs-2.4.2/bios/rombios32.c:952-978 | the seven registers of a device in order |
| PciRegions.PciBios.InitDevices | bochs-2.4.2/bios/rombios32.c:1002-1032 | over all devices: one region for every register present, of its size and arena, in order, each at the first aligned address left in its arena, so that none overlap |
| MpTables.TableWriter.PutLe16 | bochs-2.4.2/bios/rombios32.c:1054-1061 | appends two bytes, low first, and changes no others |
| MpTables.TableWriter.PutLe32 | bochs-2.4.2/bios/rombios32.c:1063-1072 | appends four |
| MpTables.TableWriter.MpfChecksum | bochs-2.4.2/bios/rombios32.c:1074-1081 | the sum of the bytes modulo 256 |
| MpTables.TableWriter.PutEntries | bochs-2.4.2/bios/rombios32.c:1119-1177 | processors, bus, I/O APIC and interrupt routes in order |
| MpTables.TableWriter.Finish | bochs-2.4.2/bios/rombios32.c:1178-1183 | length and checksum are patched and nothing else |
| MpTables.TableWriter.MptableInit | bochs-2.4.2/bios/rombios32.c:1088-1185 | the bytes written, and what a reader makes of them |
| MpTables.EntriesRead | bochs-2.4.2/bios/rombios32.c:1113-1177 | a reader that walks entries by their type consumes all the bytes in n entries if and only if n were written |
| MpTables.TableReads | bochs-2.4.2/bios/rombios32.c:1100-1183 | the finished table is accepted and yields every entry if and only if there are at most 3267 processors and the build is not QEMU's |
| MpTables.MachineRecovered | bochs-2.4.2/bios/rombios32.c:1119-1177 | up to 255 processors, read back from the bytes: each with its identity, version, flags, and the machine's signature and features or, without CPUID, 0x600 and 0x201; the ISA bus, the I/O APIC at 0xfec00000 and the sixteen routes to it |
| MpBytes.ImageSpelled | bochs-2.4.2/bios/rombios32.c:1088-1185 | every byte of the finished table for any number of processors and both builds: header, processors, bus, I/O APIC and routes at their offsets, and a byte sum of 0 modulo 256 |
| MpTables.SumOfParts | bochs-2.4.2/bios/rombios32.c:1074-1081 | the byte sum of two parts is the sum of theirs |
| MpTables.ImageSums | bochs-2.4.2/bios/rombios32.c:1178-1183 | the finished bytes sum to 0 modulo 256 |
| MpTables.IdentitiesDistinctIff | bochs-2.4.2/bios/rombios32.c:1119-1153 | processors and I/O APIC have distinct identities if and only if there are at most 255 processors |

## Left out

- 64-bit wrap of timer ticks: tick counts are unbounded and runs stay below the horizon.
- Timer callbacks that register or unregister timers: the second loop of `countdownEvent` re-reads the number of timers, and flags past the old bound were never filled.
- Conversion between microseconds and ticks through `double`; instruction cache, A20, reset and save/restore.
- `ifdef`: a second `#else` in one conditional, more than 15 open conditionals, the stored names used only for messages, manifest constants.
- `ifdef` and translation phases 1 to 3: lines are those after splicing and comments; a comment or a splice inside a directive is not part of this model, nor is a file that sets line numbers itself, for -l, nor an expression that asks for `__LINE__`, which deleting lines changes.
- `ifdef` on lines over 2047 characters, which `fgets` hands over in pieces.
- IfdefFilter.IfdefTool.DoFile: takes a last line without a newline unless it is an `#ifdef` or `#ifndef`, where the name comparison would read past the end of the buffer; IfdefLines.MatchesWord likewise.
- IfdefLines.MatchesWord: see IfdefFilter.IfdefTool.DoFile.
- IfdefMeaning.FilterPreservesMeaning: is stated for files the filter reads as the standard does; an `#elif` in a conditional it decides is shown to go wrong (always, in one known to be true: IfdefMeaning.StrayElifBreaks); for which texts exactly it does in one known to be false depends on which combinations of conditions can hold at all, and is not part of this model.
- IfdefModes.HashesStripped: is stated for files whose conditionals are all known; of `-h` with undecided ones only the steps are modelled. `-C` differs from `-c` in the comment mark alone, which is not part of this model.
- IfdefPasses.TwoPassesAreOne: a dropped plain `#if` leaves one conditional too many open in the second pass, which is harmless where that pass decides nothing around it, and otherwise need not be (IfdefPasses.TwoPassesDiffer); a single complete file may then still come out the same, which IfdefPasses.TwoPassesAreOneIff does not count.
- `yield`, `kill` and `showProcesses`: `yield` queues without a switch and `kill` hands unsuitable links to the release code, so the queue invariants do not hold for them.
- Runs that mix sleep and terminate: a process that wakes into an empty queue keeps its stale `next`, and releasing it follows that link (StaleLinks.ReleaseAlone). Each kernel is run on its own calls.
- KernelCalls.Terminate: computes the segment in unbounded integers, as do SchedulerProperties.TerminateInv and the runs built on it; SegmentWidths.TerminateKeepsInvIff says exactly when 16 bits do the same.
- SchedulerProperties.TerminateInv: see KernelCalls.Terminate.
- SchedulerProperties.StepInv: see KernelCalls.Terminate.
- KernelCalls.Session: see KernelCalls.Terminate.
- KernelCalls.Sleep: takes calls whose 16-bit counter is at least 2; SchedulerProperties.SleepQueuesOnceIff shows what the others do to the queue.
- Loading a program into its segment, and a user program named IDLE.
- FloppyDisks.Floppy.WriteFile: does not say what happens when sectors below 256 run out, since the code then uses list entries it never filled, or keeps only the low byte of a sector number; FloppyProperties.FitsIff is the condition.
- FloppyDisks.Floppy.ReadFile: takes lists that stop inside the directory sector, since past it the code reads memory that is not the directory; likewise FloppyDisks.Floppy.DeleteFile.
- FloppyDisks.Floppy.DeleteFile: see FloppyDisks.Floppy.ReadFile.
- FloppyDisks.Floppy.Session: writes only to names without sectors and at most 25 sectors a file; the exact conditions are FloppyFiles.WriteSoundIff and FloppyFiles.TwentySixReadBackIff.
- BIOS disk errors, screen, keyboard, shells, user programs and projects 1 to 4.
- PCI devices that are not mapped by default, command register bits and interrupt lines, which would add only case tables.
- PciRegions.AssignedDisjoint: assumes power-of-two sizes and pointers that do not wrap at 32 bits.
- The MP floating pointer, ACPI, SMBIOS and SMM tables of the BIOS; the first is a shorter form of what is modelled.
- The rest of Bochs and dev86: option parsing, plugins, debuggers, devices.
