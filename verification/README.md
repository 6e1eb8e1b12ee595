# minlinux in Dafny

A model of the parts of minlinux whose correctness is not visible in any one
function: the io_uring ring and the `/init` event loop on top of it, the
in-place command line, the copying and number printing of the small C library,
and the incremental build. `dafny verify dfyconfig.toml` checks all of it.

| file | what it holds |
|---|---|
| `Word.dfy` | 32-bit wrapping counters and masking, related to unbounded counters |
| `Queue.dfy` | the two queues as unbounded FIFOs, and schedules of both parties |
| `Uring.dfy` | `util/uring_ctl.c`: the ring as a class over arrays and wrapping counters |
| `EventLoop.dfy` | `init/init.c` as a state machine interleaved with the kernel |
| `LoopInvariant.dfy`, `LoopTheorems.dfy` | what each step keeps; what holds in every run |
| `UnlinkedLoop.dfy`, `UnlinkedTheorems.dfy` | the same loop over a kernel that need not honour links |
| `Waits.dfy` | what is asked of the kernel: each entry field by field, and how many completions a call waits for |
| `InputLines.dfy` | lines of input, from the kernel's delivery to the loop picking them up |
| `InitProcess.dfy` | `init/init.c` as a class over the ring; its executions are runs |
| `Text.dfy`, `Memory.dfy` | splitting a line on values; C strings in one memory |
| `Command.dfy`, `Dispatch.dfy` | `init/command.c`: tokenizer, `fill_args`, `process_command` |
| `Decimal.dfy`, `Util.dfy` | `util/util.c`: `memmove`, `int_to_str`, `ltoa`, `write_int` |
| `Targets.dfy` | `buildscript/util/target.py`: the memoised target runner |
| `Build.dfy` | `buildscript/targets/project.py`: names, directories, timestamps, compiling, linking |
| `BuildProofs.dfy`, `BuildContents.dfy` | what one run does to stamps, and what it keeps about contents |
| `CleanBuild.dfy`, `Deletions.dfy` | histories, without and with deletions, against a build from scratch |
| `BuildOrder.dfy` | what the names in a build are, in which order it compiles and where it stops |
| `Checkouts.dfy`, `SharedObjects.dfy`, `DirectoryElf.dfy` | small checkouts; two sources for one object; a directory for an ELF |
| `Project.dfy` | the functions of project.py as methods, in the runner's order |

## How the parts fit

**Ring.** `UringQueue` keeps the seven wrapping counters, the slots, the index
array and ghost counters that never wrap. `Model()` is the pair of FIFOs its
user sees. Every method says what it does to that pair; `Drive` performs an
arbitrary schedule of program and kernel actions and ends where the FIFOs end.
The counters may start at any 32-bit value.

**Loop.** `EventLoop` stops the program at each call into the ring and lets the
kernel act between any two steps: consume a published entry, scribble into the
buffer of a console read in flight, or complete an operation that is not linked
behind an incomplete one. `UnlinkedLoop` drops that last restriction: what needs
only first-in-first-out consumption is proved for every kernel.
`InitProcess.Init` is the same program with its statements; `Run` returns, for
any kernel behaviour, a run of the unlinked state machine that ends in the
concrete state, and one of the linked machine if the kernel keeps links; so every
theorem about runs holds of it. It also returns the commands it ran: the whole
lines it picked up, which are the lines the kernel delivered, in order. And it
returns its calls of io_uring_enter: each waits for one completion, and
`WaitIsAnswerableIff` says of any number whether such a wait can end.

**Commands.** Pointers are offsets into one array. `Split` is the reference: it
is proved to be the only way of writing a line as non-empty words separated by
blanks. `ProcessCommand` is proved against it. A program is started by a forked
child, which cuts up its own copy of the line; `Exec` holds that copy.

**Build.** `Tools` are arbitrary functions for the compiler, the linker and the
directory order. Paths are lists of components; the file system holds files and
directories, both with stamps, because `mkdir`, `glob` and `is_any_newer` see
both. A history is any sequence of edits, additions, deletions and builds that
may fail midway. What a build must leave (`UpToDate`) is said of the nodes of
the file system: the text that the compiler makes of each source's text and the
script's, and what the linker makes of those, init's first.

**Targets.** Bodies may raise after any number of their own calls. `Attempt` is
the runner with exceptions on values; `Visit` is the one without, and every log
that an exception leaves is a front part of it, up to a target that had all it
needed until it raised.

## Assumptions about the environment

- Ring sizes are powers of two up to 2^31, each mask is one less than its size,
  and all submission counters start equal, as do the completion counters.
- The kernel posts one completion for each consumed entry, carrying its
  `user_data`; while the completion ring is full a completion waits. A read returns
  at most the length asked for.
- In `LoopTheorems` it also completes a linked entry only after its predecessor,
  even when the two were consumed by different calls. io_uring promises this only
  for entries consumed together, so `UnlinkedLoop`, `UnlinkedTheorems`,
  `InputLines` and `InitProcess` do without.
- A forked child never comes back from `busybox` or `cmd_memrun`: its execveat
  succeeds or ends it. In the code a child whose execveat fails
  (init/command.c:201-202, 253-254) falls back into `process_input`. It shares the
  ring's memory, so it stores the submission tail and the completion head before
  its own io_uring_enter fails on the descriptor it has closed; the parent's next
  flush then publishes prompt and read a second time, and its `uring_advance` moves
  past the completion tail. Every theorem on the loop is about runs without that.
- Steps are sequentially consistent; the tail store publishes.
- Every write is stamped later than all stamps before it, a new entry's directory
  before the file itself. A gcc that fails leaves its output as it was or deletes
  it; it fails on an input that is no file and on an output that is a directory or
  is in none. Since `-lgcc` counts as an input, a link of no objects does not fail
  for that. Listing order is a function of the set of paths listed. The compiler
  and linker are deterministic, and headers do not change. `project.py` is the
  script whose time and content count. A dot that starts a file name starts no
  suffix for `with_suffix`.

## Where the code does not do what one would expect

- `busybox` and `cmd_memrun` pass `fill_args` a limit that leaves no slot for
  the closing NULL. With 30 or more words after a busybox command (31 or more
  arguments after a memrun path) that store falls one slot past the array.
  `Obeys` says so: the vector is closed exactly when its words number fewer
  than `MAX_ARGS`, else the outcome is `Overrun`, and the truncation message is
  never reached. Such lines fit the 1024-byte buffer: 31 one-letter words are 62
  characters (`ManyOverrun`, `ManyMemrun`).
- `cmd_memrun` starts `fill_args` without skipping blanks, so its vector has one
  empty argument more exactly when the rest of the line is empty or starts with
  a blank (`WordsOrSplit`).
- The 21-byte number buffer is filled completely by every value at or below
  -10^18, not only by -2^63.
- `write_int` prints an unsigned value as itself exactly when it is below 2^63.
- The event loop never checks a submission for NULL. That is safe exactly when
  the ring has at least 3 entries (init asks for 16).
- If the kernel lets a console read complete before its prompt write, two events
  besides the reads can be outstanding (`SplitChainHasTwoOthers`); at most one is
  exactly when each console read's completion, of those the loop takes up, was
  posted after its prompt write's (`OneOtherIff`).
- `uring_advance` on an empty ring makes it look 2^32 - 1 entries full.
- The sources `.c` and `.c.c` of one directory share the object `.c.o`. With such
  a pair, and with no other, an incremental build can differ from a clean one even
  without deletions (`AgreeIff`, `DotCIsShared`).
- `mkdir` and the glob meet in odd places. A source below `init/init` has its
  object below the ELF's own path, and a directory whose name ends in .c is
  listed as a source. Without deletions no init succeeds while there is such a
  source; with deletions one can, but only by doing nothing, a directory standing
  where the ELF should be (`BelowElfNeverBuilds`, `InListedDirNeverBuilds`).
  Sources in `util` alone do not build, since nothing makes the ELF's directory.
  `ScratchSucceedsIff` has the exact condition for a fresh checkout.
- Such a directory outlives its source. Compile a source below `init/init`, delete
  it, and init succeeds without doing anything and without an ELF file: the
  directory is newer than every object that is left (`SuccessWithoutElf`).
- Deleting a source goes unnoticed as long as everything else looks up to date,
  and then the ELF is stale. Over every history with deletions in which no two
  listed paths share an object, `DeletionsAndTheElf` says exactly when a
  successful init leaves all right; `DeletionGoesStale` finds a stale build for
  every checkout.

## Model

| member | source | states |
|---|---|---|
| Word.SlotOfWrapped | util/uring_ctl.c:96 | masking a wrapped counter gives the slot of the unbounded counter, because the ring size divides 2^32 |
| Word.SlotDeterminesCounter | util/uring_ctl.c:95-97 | two counters less than a ring apart share a slot only if they are the same |
| Word.DifferenceOfWrapped | util/uring_ctl.c:106-136 | the wrapped difference of two counters is their true distance while that fits a word |
| Uring.WrappingRoomTest | util/uring_ctl.c:91-95 | the wrapping test passes exactly when fewer than a ring of entries await the kernel, wherever the counters stand |
| Uring.UringQueue.NewSubmission | util/uring_ctl.c:90-100 | NULL exactly when the ring is full; otherwise a slot at the end of the pending window that is none of those still awaiting the kernel or a flush |
| Uring.UringQueue.PlaceEntries | util/uring_ctl.c:111-116 | the flush loop advances both counters by the pending count and leaves the index array the identity on every published slot |
| Uring.UringQueue.Flush | util/uring_ctl.c:103-123 | everything pending becomes published, in order, and nothing else changes |
| Uring.UringQueue.Wait | util/uring_ctl.c:103-139 | as the flush; the count handed to the kernel is all published unconsumed entries, leftovers of earlier calls included |
| Uring.UringQueue.Result | util/uring_ctl.c:71-81 | NULL exactly when nothing is unread, else the oldest unread completion |
| Uring.UringQueue.Advance | util/uring_ctl.c:83-87 | exactly the oldest unread completion is taken; on an empty ring the head passes the tail |
| Uring.Drive | util/uring_ctl.c:71-139 | any interleaving of program and kernel steps leaves the masked wrapping rings where two unbounded FIFOs end |
| Queue.EveryScheduleIsFifo | util/uring_ctl.c:90-139 | for every schedule, what was submitted is what was accepted, in order; what was posted is what found room; capacity bounds are kept |
| Queue.ConsumedIsPrefixOfAccepted | util/uring_ctl.c:90-139 | the kernel consumes a prefix of the accepted submissions and the program takes a prefix of the posted completions, unaltered |
| Queue.UnreadHeadStays | util/uring_ctl.c:71-87 | without an advance the oldest unread completion stays first and unchanged |
| LoopInvariant.ProgramStepKeepsInv | init/init.c:89-187 | every step of the program keeps the loop invariant and never dereferences a refused submission, given 3 entries |
| LoopInvariant.KernelStepKeepsInv | init/init.c:89-187 | every kernel step keeps the loop invariant |
| LoopInvariant.ChainHoldsReadBack | init/init.c:169-187 | a console read never overtakes the prompt it is linked behind |
| LoopInvariant.RotateKeepsBalance | init/init.c:112-126 | handling the front event and queuing its answer keeps one console read, one signal read, at most one other |
| LoopInvariant.OvertakeKeepsBalance | init/init.c:169-187 | a completion passing others in flight keeps that balance and the prompt before its read |
| LoopTheorems.NullDereferenceIff | init/init.c:158-187 | some run dereferences a NULL submission if and only if the ring has fewer than 3 entries |
| LoopTheorems.OutstandingAtLoopHead | init/init.c:89-97 | at every loop head exactly one console read, one signal read and at most one other event are outstanding |
| LoopTheorems.WaitIsAnswerable | init/init.c:91 | inside the wait both reads are outstanding and the kernel can always move or a completion is there |
| LoopTheorems.BufferIsOwned | init/init.c:138-149 | while a line is processed the buffer holds what was delivered, no console read is queued, published or in flight, and no kernel step changes it |
| LoopTheorems.FlushPublishesWholeChains | init/init.c:169-187 | each flushed batch keeps every prompt write followed by its read, and no published window ends in a linked entry |
| LoopTheorems.HistoryIsAnswers | init/init.c:106-187 | all submissions ever made are the start-up ones, then the answer to each acknowledged completion in order |
| Waits.EveryEntryIsOneOfThree | init/init.c:158-187 | whatever the kernel makes of links, each entry ever handed over is, in every field, the linked 9-byte write of "Command: " to descriptor 1, the 1024-byte read of descriptor 0 into the buffer, or the 128-byte read of the signal descriptor |
| Waits.SubmissionsComeInPairs | init/init.c:106-187 | the first three entries are prompt, line read and signal read; two more follow for each acknowledged line read and one for each signal; prompts and line reads always stand in pairs |
| Waits.FreeDescriptorsAtLoopHead | init/init.c:89-97 | whatever the kernel makes of links, at every loop head exactly one read of descriptor 0 is outstanding or answered, exactly one of the signal descriptor, and the rest write the prompt to descriptor 1 |
| Waits.DescriptorsAtLoopHead | init/init.c:89-97 | over a kernel that honours links, at most one of those prompts besides |
| Waits.WaitIsAnswerableIff | init/init.c:91 | inside the wait, the kernel alone can bring about that n completions are unread exactly when n is at most the 2 or 3 it holds or has posted: one always, four never |
| Waits.FreeWaitIsAnswerableIff | init/init.c:91 | the same over any kernel, the number then being two more than the other events outstanding |
| LoopTheorems.CompletionsFit | init/init.c:91-96 | the completion ring holds at most 3 entries, each with one of the three tags, and is advanced only over the entry handled |
| LoopTheorems.EverySubmissionActedOnOnce | init/init.c:89-126 | at every loop head each console read and signal read ever submitted has been acted on exactly once but for the one outstanding, and each prompt write but for one at most |
| UnlinkedLoop.FreeNullDereferenceIff | init/init.c:158-187 | whatever the kernel makes of links, some run dereferences a NULL submission if and only if the ring has fewer than 3 entries |
| UnlinkedTheorems.FreeOutstandingAtLoopHead | init/init.c:89-97 | whatever the kernel makes of links, at every loop head exactly one console read and one signal read are outstanding |
| UnlinkedTheorems.FreeBufferIsOwned | init/init.c:138-149 | whatever the kernel makes of links, no console read is queued, published or in flight while one is processed, and no kernel step changes the buffer |
| UnlinkedTheorems.OneOtherIff | init/init.c:89-126 | whatever the kernel makes of links, at most one event besides the reads is outstanding all along a run exactly when, of the completions taken up, each console read's was posted after its prompt write's |
| UnlinkedTheorems.FreeCompletionsFit | init/init.c:91-96 | whatever the kernel makes of links, at most two completions more are unread than other events outstanding, plus the one in hand |
| UnlinkedTheorems.SplitChainHasTwoOthers | init/init.c:169-187 | a run with two others: the prompt write consumed by one call, its read by the next |
| InputLines.EveryLineIsPickedUpOnce | init/init.c:89-149 | in every run, whatever the kernel makes of links, the whole lines delivered are the lines picked up, in order, and those still waiting |
| InitProcess.Init.SubmitSigListen | init/init.c:158-167 | queues exactly the 128-byte read of the signal descriptor, tag 1, whatever the slot held before |
| InitProcess.Init.CreateConsolePrompt | init/init.c:169-187 | queues exactly the linked write of the 9 bytes "Command: " to descriptor 1, tag 2, and the 1024-byte read of descriptor 0, tag 0 |
| InitProcess.Init.ProcessInput | init/init.c:138-156 | a whole line runs what the words of its text ask for, and overwrites only blanks of it; then the next prompt is queued, or the machine halts |
| InitProcess.Init.Handle | init/init.c:112-126 | each completion is answered as the state machine answers it, or halts it |
| InitProcess.Init.Enter | init/init.c:91 | uring_wait is called for one completion, with all that is published and unconsumed to submit |
| InitProcess.Init.Respond | init/init.c:91-96 | a command runs exactly when a delivered line ends in a newline, on exactly the delivered bytes, of which the buffer then lacks only blanks; then the completion is advanced over |
| InitProcess.Init.StartUp | init/init.c:106-110 | the start-up prompt and signal read lead to the first loop head |
| InitProcess.Init.Run | init/init.c:67-98 | for any kernel behaviour the execution is a run over a kernel that need not honour links, and one over a kernel that does if this one does, and ends in its state; the commands it ran are the whole lines picked up, in order, each doing what the words of its own line ask for; each call of io_uring_enter asks to submit all that the run has published unconsumed by then, and waits for one completion |
| Text.SplitIsUnique | init/command.c:358-378 | any writing of a line as blank-free words and blank gaps gives exactly its Split |
| Text.SplitAt | init/command.c:359-370 | a line is cut at each space and each tab: the text before the first of them, if any, is its first word, and the words of the text behind it follow |
| Text.SplitReproduces | init/command.c:358-378 | every line is its Split with gaps of blanks in between |
| Text.WordsOrSplit | init/command.c:136-165 | started on a blank or the end, a collected list has one empty word more in front; else it is the Split |
| Memory.MarkedOnlyBlanks | init/command.c:368-378 | ending arguments in place overwrites nothing but blanks |
| Memory.StartsCount | init/command.c:260-267 | as many arguments are stored as there are words, up to the limit |
| Memory.StartsHoldWords | init/command.c:260-267 | each stored argument, read back from the cut text, is its word |
| Memory.StartsAreApart | init/command.c:260-267 | argument ranges lie inside the text, in order, and do not touch |
| Memory.StartsCoverWords | init/command.c:260-267 | with no word left over, the argument ranges cover every non-blank |
| Command.FindArg | init/command.c:358-366 | the offset of the first character that is no space, tab or NUL, only spaces and tabs before it, or NULL exactly when nothing else remains |
| Command.TerminateArg | init/command.c:368-378 | passes no space, tab or NUL; overwrites the space or tab it stops at and returns the offset behind it, or changes nothing at a NUL and returns that |
| Command.AfterTerminate | init/command.c:368-378 | what is left in memory is the first word and the rest, as strings |
| Command.FillArgs | init/command.c:260-276 | stores the starts of the words up to the limit, cuts the text exactly at their ends, and closes the list, or truncates, or overruns |
| Dispatch.TakeArgument | init/command.c:47-53 | the first word of the text, ended in place, and the text after it |
| Dispatch.StrEq | init/command.c:380-391 | true exactly when the two strings are equal |
| Dispatch.Busybox | init/command.c:209-230 | in the child's memory the vector is "/busybox", the command and the words of the rest, then NULL, exactly when they fit; the parent's memory stays |
| Dispatch.CmdMemrun | init/command.c:136-165 | no path, or in the child's memory the path and the words collected behind it, then NULL exactly when they fit |
| Dispatch.ProcessCommand | init/command.c:45-63 | what runs is what the words of the line ask for; of the process's own memory, and of a child's copy, only blanks of the line changed |
| Dispatch.LsWithPath | init/command.c:45-63 | "ls", a space or a tab, and a path: the builtin ls gets exactly that path |
| Dispatch.ManyOverrun | init/command.c:225-275 | a busybox line of n one-letter words, 2n characters long, puts the NULL outside the vector exactly from n = 31 on |
| Dispatch.ManyMemrun | init/command.c:161-165 | a memrun line does from n = 32 on, and with its path alone passes one empty argument |
| Decimal.DigitTable | util/util.c:65-70 | the digit of d is the one at place d of "0123456789", and has that value |
| Decimal.ShowParses | util/util.c:58-78 | decimal text is canonical, starts with a minus sign exactly when negative, and reads back as the value |
| Decimal.CanonicalIsShow | util/util.c:58-78 | it is the only canonical text that does |
| Decimal.ShowFits | util/util.c:58-98 | no 64-bit value needs more than 20 characters, and exactly those at or below -10^18 need 20 |
| Decimal.MagnitudeOf | util/util.c:62 | negating in two's complement and reading as unsigned gives the magnitude, for the smallest value too |
| Util.Memmove | util/util.c:4-13 | for any overlap memory becomes what moving through a copy gives |
| Util.MovedAt | util/util.c:4-13 | that is the old source in the destination, and every other byte as it was |
| Util.Memcpy | util/util.c:15-17 | the same, by memmove |
| Util.Render | util/util.c:58-98 | the digit loop never takes the early return, and leaves the decimal text and its terminator at the end of the buffer |
| Util.IntToStr | util/util.c:58-78 | the returned string is the decimal text, inside 21 bytes |
| Util.Printer.Ltoa | util/util.c:80-98 | the same in the static buffer |
| Util.Printer.WriteInt | util/util.c:100-103 | prints the decimal text of the word read as signed |
| Util.WriteIntMeaning | util/util.c:100-103 | every signed value passes through unchanged; an unsigned one prints as itself exactly below 2^63 |
| Targets.Runner.constructor | buildscript/util/target.py:42 | every target is registered under its name, the last of a name taking it over |
| Targets.Runner.OnTarget | buildscript/util/target.py:32-41 | the log becomes the depth-first post-order visit; or an exception leaves a front part of it and is blamed on a reached target that raises, whose dependencies, and calls before the raise, are all in the log |
| Targets.Runner.RunBody | buildscript/util/target.py:40 | the body's own calls in order, stopping where it raises |
| Targets.Runner.ExecuteArguments | buildscript/build.py:23-29 | the known names in order, unknown ones passed over, up to the first exception, which leaves a front part of that visit |
| Targets.AttemptMeans | buildscript/util/target.py:32-41 | asking for a target with bodies that may raise: a success is the visit, a failure a front part of it with a raiser that had all it needed until then |
| Targets.AttemptSucceedsIff | buildscript/util/target.py:32-41 | it succeeds exactly when nothing reached and not yet logged raises |
| Targets.RaiseLeaves | buildscript/util/target.py:35-41 | a body that raises after k calls leaves its dependencies and those k calls visited, and nothing more |
| Targets.LeavesInOrder | buildscript/util/target.py:35-41 | needs that need nothing run in the order listed, dependencies before the body's calls, then the target itself is logged |
| Targets.KnownOne | buildscript/build.py:24-29 | a known name is its target, an unknown one nothing |
| Targets.KnownConcat | buildscript/build.py:23-29 | the names on the command line are looked up one by one, in order |
| Targets.VisitKeeps | buildscript/util/target.py:32-41 | the log stays duplicate-free and in order, keeps what it had and gains the target |
| Targets.NeedsComeFirst | buildscript/util/target.py:35-41 | a target is logged only after everything it transitively needs |
| Targets.VisitIsReach | buildscript/util/target.py:32-41 | the log afterwards is exactly the log before and what the target reaches |
| BuildProofs.FreshIsNotNewer | buildscript/targets/project.py:37 | an object is recompiled exactly when it is missing or older than its source or the script |
| BuildProofs.ScanMeans | buildscript/util/target.py:18-23 | the scan answers no exactly when every listed file is at most as new as the target |
| BuildProofs.LinkDecision | buildscript/targets/project.py:69-71 | init links exactly when the ELF is missing or older than some object |
| BuildProofs.RunInitFinishes | buildscript/targets/project.py:55-71 | from any prior state a successful init leaves no object older than its inputs and no ELF older than an object |
| BuildProofs.RebuildIsIdle | buildscript/targets/project.py:34-71 | after a successful init from any prior state, another compiles nothing and does not link |
| BuildContents.GccCKeeps | buildscript/targets/project.py:34-38 | compiling one source, its directories included and failures included, keeps every up-to-date object file right |
| BuildContents.InitBodyKeeps | buildscript/targets/project.py:67-71 | the link keeps objects right and an up-to-date ELF the link of them |
| BuildContents.FinishedIsBuilt | buildscript/targets/project.py:55-71 | once stamps say all is up to date, every source and object is a file, and every object the compilation of its source |
| CleanBuild.ReplayKeepsGood | buildscript/targets/project.py:30-46 | over every history, deletions included, each up-to-date object file holds what its source gives |
| CleanBuild.SuccessIsUpToDate | buildscript/targets/project.py:55-71 | after a successful init each object file holds what the compiler makes of the text its source has now and of the script's, and build/bin/init/init the link of init's and then util's in listing order |
| CleanBuild.IncrementalEqualsClean | buildscript/targets/project.py:30-71 | after any history of edits, additions and builds in which no two listed paths share an object, a successful init leaves objects and ELF with the contents of a build from scratch, which succeeds too |
| CleanBuild.ScratchSucceedsIff | buildscript/targets/project.py:30-71 | from a checkout and without faults, init succeeds exactly when init holds a source, only files are listed, and no output lies on the way to another |
| Deletions.SuccessWithDeletions | buildscript/targets/project.py:55-71 | a successful init does nothing if all looks up to date, else leaves objects and ELF right; objects are right too whenever there is an ELF file |
| Deletions.DeletionsAndTheElf | buildscript/targets/project.py:55-71 | over every history with deletions in which no two listed paths ever share an object, a successful init leaves objects and ELF right exactly when not all looked up to date before, or they were right already |
| Deletions.EditReachesObject | buildscript/targets/project.py:34-38 | after any history, deletions included, and an edit that gives a source a new text, a successful init leaves in its object what the compiler makes of that text, and all the rest right |
| Deletions.ScriptEditReachesObjects | buildscript/targets/project.py:37 | after any history and a new text for project.py, a successful init leaves in every object what the compiler makes with that text |
| Deletions.BelowElfNeverBuilds | buildscript/targets/project.py:34-71 | with a source below init/init no init succeeds without deletions, and with them only by doing nothing, a directory standing for the ELF |
| Deletions.InListedDirNeverBuilds | buildscript/targets/project.py:40-71 | the same with a source in a directory named like a source |
| DirectoryElf.SuccessWithoutElf | buildscript/targets/project.py:34-71 | for every source below init/init in directories not listed: build it with init/init.c, delete it, and init succeeds, does nothing and leaves no ELF file |
| Deletions.DeletionIsMissed | buildscript/targets/project.py:69-71 | after a finished build and the deletion of a source, init does nothing |
| Deletions.DeletionGoesStale | buildscript/targets/project.py:69-71 | for every checkout that builds and every source of it there are tools with which the ELF then differs from a clean one |
| Build.OutFileInjective | buildscript/targets/project.py:30-32 | two sources share an object exactly when they are the same or are `.c` and `.c.c` of one directory |
| BuildOrder.OutFileOf | buildscript/targets/project.py:30-32 | the object lies below build/bin where its source lies below the root, its name ending in .o for .c, and `.c` giving `.c.o` |
| BuildOrder.CFilesAre | buildscript/targets/project.py:40-43 | the listing has exactly the existing paths, at any depth below the directory, whose names end in .c |
| BuildOrder.ScratchInListedOrder | buildscript/targets/project.py:55-71 | from a checkout, the stamps of the objects follow the listing of util and then that of init |
| BuildOrder.FailedGcc | buildscript/targets/project.py:27-28 | a gcc that fails raises, and leaves all as it was but for its output, which may be gone |
| BuildOrder.FailureStopsInit | buildscript/targets/project.py:27-64 | from a checkout, init stops at the first object gcc cannot make: no later source of util, then init, gets an object, and there is no ELF |
| SharedObjects.AgreeIff | buildscript/targets/project.py:30-71 | for any set of sources with init/init.c among them, none in another's way: over every history of edits and builds of them, incremental and clean build agree exactly when no two share an object |
| SharedObjects.DotCIsShared | buildscript/targets/project.py:30-32 | util/.c and util/.c.c are such a pair that does |
| Project.BuildProcess.IsAnyNewer | buildscript/util/target.py:14-23 | scans as the source does, the exception for a missing file included |
| Project.BuildProcess.MakeDirs | buildscript/targets/project.py:36 | makes the missing directories outermost first, or raises and makes none when a file is in the way |
| Project.BuildProcess.CompileFile | buildscript/targets/project.py:34-38 | directories, files, stamps and exception after gcc_c are those of the build step whose objects the lemmas above describe by their texts |
| Project.BuildProcess.CompileDir | buildscript/targets/project.py:55-64 | compiles the directory's sources in listing order up to the first failure |
| Project.BuildProcess.LinkInit | buildscript/targets/project.py:66-71 | the link decision and the link, failures included |
| Project.BuildProcess.RunTargets | buildscript/targets/project.py:55-71 | a failing body stops the run; the final file system and outcome are those of the build the theorems above are about |
| Project.InitRunsInLogOrder | buildscript/targets/project.py:55-71 | the runner's log for init is lib_util, lib_init, init, and the build is their bodies in that order |

## Left out

- InitProcess.Init.Run: an io_uring_enter that fails, and kernel steps in the middle of `handle`, are covered by the state machine, not by this method.
- InitProcess.Init.ProcessInput: a command is taken to return, except `exit`; a forked child that comes back from a failed exec is not modelled, as the assumptions say.
- `uring_init`, `uring_close`: mappings and kernel structures; the initialised ring is the starting state.
- Memory ordering of the atomic loads and stores.
- Start-up assembly, mounts, opens, signalfd and sockets; a failing system call halts.
- The bodies of the builtins beyond taking their arguments, and clone, exec and wait.
- The lifetime of the string `int_to_str` returns, which points into a copy; the result is a buffer and a start.
- `memcmp`, `memset`, `strcpy`, `strchr`: one loop each, used by nothing modelled here.
- Header changes, which the build does not track; symbolic links; removal of directories.
- `hello_world`, which links the utility objects without depending on them, and all targets outside project.py.
- `help` of build.py and the messages it prints.
- `dirs` targets beyond their place as leaves that need nothing.
