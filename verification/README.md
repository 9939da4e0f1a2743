# A model of the teaching kernel: processes, terminals, files and user programs

A small x86 teaching kernel with three virtual terminals, at most six processes, a round-robin
scheduler driven by timer ticks, a read-only file system image, and a few user programs with their
own data structures.  The kernel keeps its state in global tables that interrupts and system calls
update in place.  This project models those tables and their code, and proves what they are for.

How it is built, from the kernel outwards:

- `Process` holds the globals of the process, terminal and scheduler code as one `State`, with one
  step function per interrupt or system call, and beside it what those tables are for: three stacks
  of tasks (`Terminals`), one of them running and one shown.  `Inv` relates the two.  `Refinement`
  proves that every step keeps it, `Runs` carries that to every reachable state and restates it on
  the tables alone.  `Tables` proves the table part of it on a wider class of runs, in which `execute` may come from
  any terminal.  `Scheduling` and `Arguments` prove what holds across whole runs: fresh saved
  frames, round robin, nesting of execute and halt, the machine context, the argument bytes.
- `Console`, `Keyboard` and `Kernel` are classes with the fields and the loops of the code.  Each method is
  proved against the step functions of `Process` and against `World`, the abstract view of three
  independent terminals: screen, cursor and unfinished line of each.  `Screen` has the one abstract
  output operation that both output routines refine.
- `System` puts them together: `Run` drives the classes through any enabled sequence of ticks, calls, keys,
  reads, writes and argument requests, and proves that they follow the abstract machine throughout.  `Interaction`
  proves isolation, echo and the argument round trip over such runs, `Failures` leads to states in which a caller gets
  something that is not its own.
- `KeyLaws` says in figures what keys, writes and reads come to: which character a key prints, what a write shows.
- `Filesys` and `FileLaws` model the image reader, `ImageLaws` proves that what an image stores is what is read, and
  `Descriptors` models the descriptor table of one control block.
- `Grep`, `Blink` with `BlinkLaws`, `Numbers` and `Emulate` model user-level code: a chunked in-place
  line scanner, a linked list in a fixed pool with a timer, number conversions, and the cutting and
  joining of command lines.

A step stands for one handler or one system call that runs without interruption.  Saved
stack frames are opaque tokens: an event carries the frame that is current when it starts, and
`State.ebp` is the frame loaded when the step ends.  Which names resolve to an executable image is a
parameter (`Loader`), and so are the file image, the text of the file that grep reads, and whatever memory
lies behind an argument buffer.

## What the code does differently from its description

- `read_data` bounds a read by the whole file length and not by what is left of it
  (`student-distrib/filesys.c:114` against `student-distrib/filesys.c:136-137` and `323-326`).
  `Filesys.EndOfFileRuleIff` says exactly when the two agree, `FileLaws.DrainIsTheFileIff` what that does to a
  read loop.
- `read_dentry_by_index` lets the entry count itself through as an index
  (`student-distrib/filesys.c:49`).
- `terminal_write` reports one byte more than it was given (`student-distrib/lib.c:192-201`); the value
  the comment promises is the number of bytes copied.
- A new process is linked under the shown terminal but loaded on the processor of the running one
  (`student-distrib/sys_calls.c:157`, `189`, `208-214`), and the restart of a root shell counts down the
  running terminal but empties the shown one's chain (`student-distrib/sys_calls.c:53`, `76`).
  The tables survive every `execute` (`Tables.ExecuteKeepsTables`), and `halt` exactly when the process has a parent or
  its terminal is the shown one (`Tables.HaltKeepsTablesIff`); page and kernel stack are the running process's own
  after an accepted `execute` exactly when its terminal is the shown one (`Scheduling.ExecuteKeepsInvariantIff`,
  `Scheduling.ExecuteElsewhere`).  `Scheduling.BootThenBreaks` gives a reachable state in which an `execute` leaves the
  wrong page and a `halt` leaves broken tables.
- `getargs` reads the block of the shown terminal's process, whoever calls (`student-distrib/sys_calls.c:367`):
  `Interaction.OwnArgumentsIff`, `Failures.OthersArguments`.
- A read takes and wipes the line of the terminal that was asked for, while the reader is still shown
  (`student-distrib/keyboard.c:124-159`, `232-245`): `Interaction.OwnLineIff`, `Failures.ReadsOthersLine`.
- `dir_read` copies one byte more than it reports (`student-distrib/filesys.c:248`): `Filesys.DirOverrunIff`.
- The close loop of `halt` closes regular files in the shown process's table
  (`student-distrib/sys_calls.c:57-61`, `347-358`): `Descriptors.HaltSparesForegroundIff`,
  `Descriptors.OwnHaltClosesAnother`.
- Grep cuts a line of more than 1024 bytes into pieces, so that its output is wrong whenever such a line contains the
  pattern: `Grep.ScanIsGrepIff`.
- A second terminal request before the next tick loses a line (`student-distrib/keyboard.c:112-160`):
  `Keyboard.Keyboard.RequestKeepsLinesIff`, `Failures.SecondRequestLosesLine`.
- A blink entry at location 0 is on the list while its slot counts as free (`fish/fish.c:164`):
  `Blink.BlinkList.Add`, `BlinkLaws.SecondAddAfterZeroLoops`.
- `ece391_getargs` may write one NUL past `nbytes` before it fails (`syscalls/ece391emulate.c:140-149`):
  `Emulate.GetArgs`, `Emulate.EdgeIsHit`.
- The command parser takes a newline right behind a word, even behind an empty program name, for a space
  (`syscalls/ece391emulate.c:81-98`): `Emulate.NewlineStopsIff`.

## Model

| member | source | states |
|---|---|---|
| Refinement.SpawnPushes | student-distrib/sys_calls.c:156-238 | The table updates of a successful `execute` push exactly one task on the shown terminal's stack, in the least free slot, and keep the forest |
| Refinement.ReapPops | student-distrib/sys_calls.c:52-72 | The table updates of `halt` pop exactly the top task of the running terminal's stack, free its slot and zero its argument bytes |
| Refinement.SaveForest | student-distrib/scheduler.c:126-139 | Saving a frame in the running control block changes the saved frame of the running top task and nothing else in the forest |
| Refinement.SlotFound | student-distrib/sys_calls.c:126-169 | `process_count` equals the number of occupied slots, is at most 6, and the slot search stays below 6 iff the count is below 6 |
| Refinement.LeastFreeIsFirstFree | student-distrib/sys_calls.c:159-169 | The slot the search finds is the least process number that no stack uses |
| Refinement.ChainUnique | student-distrib/sys_calls.c:207-217 | Parent pointers determine a chain: one head names at most one list of processes |
| Refinement.CountTotal | student-distrib/sys_calls.c:157-169 | Every task on a chain is counted under one of the six process numbers |
| Refinement.ParentOfTop | student-distrib/sys_calls.c:54-74 | In a state that satisfies the invariant, `halt` finds a null parent exactly for a root, and otherwise the control block of the task below |
| Refinement.TopsDiffer | student-distrib/scheduler.c:125-140 | The process switched out and the process switched in have different control blocks |
| Refinement.SpawnInv | student-distrib/sys_calls.c:156-238 | A process started on the terminal that runs and is shown takes the invariant over |
| Refinement.TopSlot | student-distrib/sys_calls.c:207-217 | The head of a non-empty chain names a taken slot, on one chain only, whose parent pointer names the task below |
| Refinement.ExecuteRefines | student-distrib/sys_calls.c:115-248 | `execute`, accepted or rejected, takes the invariant to the invariant of the abstract push or of the unchanged stacks |
| Refinement.HaltRefines | student-distrib/sys_calls.c:47-105 | `halt` refines the abstract pop (and the restart of a root shell), and loads the frame of the `execute` that made the dying process |
| Refinement.HaltToParent | student-distrib/sys_calls.c:70-74 | After the halt of a child the page directory entry, kernel stack and chain head are the parent's own |
| Refinement.HaltRoot | student-distrib/sys_calls.c:75-82 | After the halt of a root shell a fresh shell stands alone on that terminal's chain |
| Refinement.TickRefines | student-distrib/scheduler.c:23-144 | Every tick, in boot or after, takes the invariant to the invariant of the abstract tick |
| Refinement.BootNext | student-distrib/scheduler.c:87-107 | The second and third ticks save the last shell's frame and start the next terminal's shell |
| Refinement.SwitchContext | student-distrib/scheduler.c:117-140 | A tick after boot resumes the frame saved for the next terminal's top task, maps its page and stack, and points the video at its screen |
| Refinement.StepRefines | student-distrib/scheduler.c:23-144 | One inductive invariant across ticks, terminal requests, `execute`, `halt` and `vidmap`: each allowed step is defined and keeps it |
| Runs.InitialInv | student-distrib/sys_calls.c:23-27 | The zeroed globals at power-on satisfy the invariant with three empty stacks |
| Runs.RunRefines | student-distrib/scheduler.c:23-144 | Over every allowed run no step is undefined and the tables hold the three abstract stacks at its end |
| Runs.ForestHolds | student-distrib/scheduler.c:126-127 | The forest property does not depend on the kernel stacks that the blocks have saved |
| Runs.FollowChain | student-distrib/sys_calls.c:207-217 | Following `parent_task` k times from a chain head reaches the k-th task of the stack, and 0 after the last |
| Runs.PositionsDiffer | student-distrib/sys_calls.c:207-217 | No two positions on the three parent chains name the same process: chains are acyclic and pairwise disjoint |
| Runs.TakenIffOnChain | student-distrib/sys_calls.c:159-217 | A slot is occupied iff its process lies on one of the three chains |
| Runs.HoldsIsExactForest | student-distrib/sys_calls.c:52-217 | Tables that hold three stacks have the forest property stated on the tables alone: finite disjoint chains, exact slots, exact counters, a free slot below six processes |
| Tables.ExecuteKeepsTables | student-distrib/sys_calls.c:115-248 | `execute` always keeps the tables: an accepted one pushes one task on the shown terminal's stack, whichever terminal runs, and a rejected one changes no stack |
| Tables.SpawnHolds | student-distrib/sys_calls.c:156-238 | The table updates of a successful `execute` are that push |
| Tables.HaltKeepsTablesIff | student-distrib/sys_calls.c:52-82 | `halt` keeps the tables iff the process has a parent or its terminal is the shown one; otherwise they hold no three stacks at all |
| Tables.ReapHolds | student-distrib/sys_calls.c:52-72 | Up to the parent test `halt` pops the running terminal's stack |
| Tables.RootHolds | student-distrib/sys_calls.c:75-82 | The halt of a root shell whose terminal is shown leaves a fresh shell there, or an empty stack when none can be loaded |
| Tables.BackgroundRootIsLost | student-distrib/sys_calls.c:53-76 | The halt of a root shell whose terminal is not shown counts that terminal down to 0 but leaves its chain |
| Tables.SaveRestacks | student-distrib/scheduler.c:126-139 | Whatever kernel stack a tick saves in the running block, the tables hold the stacks with the frame saved |
| Tables.TickKept | student-distrib/scheduler.c:23-144 | A tick after boot keeps the tables whatever page and stack it finds the processor in |
| Tables.StepKept | student-distrib/scheduler.c:23-144 | One inductive invariant of the tables across ticks, requests, `vidmap`, `halt` and any `execute` |
| Tables.AllowedRunIsPermitted | student-distrib/sys_calls.c:157-217 | The runs that keep the machine context are among these, with the same stacks |
| Tables.ReachableForest | student-distrib/sys_calls.c:47-248 | Every state reachable from power-on has the forest property, and no step on the way is undefined, with `execute` at any time on any terminal; the blocks keep process numbers, execute frames and arguments |
| Scheduling.ExecuteKeepsInvariantIff | student-distrib/sys_calls.c:157-217 | `execute` keeps the whole invariant, the running process's page and kernel stack included, iff it is rejected or the running terminal is the shown one |
| Scheduling.HaltKeepsInvariantIff | student-distrib/sys_calls.c:52-82 | `halt` keeps the whole invariant iff the process has a parent or its terminal is the shown one |
| Scheduling.ExecuteElsewhere | student-distrib/sys_calls.c:157-217 | An accepted `execute` by a terminal that is not shown leaves exact tables but the page of a process that is not the running terminal's |
| Scheduling.MappedStep | student-distrib/scheduler.c:58-84 | After boot a tick establishes the video mapping of the running terminal, and every other step keeps it |
| Scheduling.MappedAfter | student-distrib/scheduler.c:58-84 | From the fifth tick on the mapping holds over any run |
| Scheduling.ContextAfterBoot | student-distrib/scheduler.c:58-134 | From the fifth tick on, whatever else happened, in figures: the directory entry is 8 MB plus 4 MB for each process before the running one, the kernel stack top the last word of its own 8 KB block under 8 MB, `video_mem` and the user video page its own screen; every live block is in order, and any two live processes have no byte of block or page in common |
| Scheduling.BlocksOfStacks | student-distrib/sys_calls.c:171-238 | Every live control block stands at the low end of its own 8 KB block, has the last word of that block as its stack top, and names no parent or the block of another live process |
| Scheduling.RoundRobin | student-distrib/scheduler.c:58-134 | After boot the running terminal is the start advanced by the number of ticks, modulo 3; nothing but a tick moves it |
| Scheduling.EachTerminalOnce | student-distrib/scheduler.c:58-134 | Any three consecutive ticks run each terminal exactly once |
| Scheduling.AwayKeepsStack | student-distrib/sys_calls.c:47-248 | While a terminal is not running, no step changes its stack of tasks |
| Scheduling.ResumesItsOwnFrame | student-distrib/scheduler.c:125-140 | A process switched out with frame f is the one resumed three ticks later, with f |
| Scheduling.DeepKeepsBottom | student-distrib/sys_calls.c:47-248 | A run that never pops into the bottom d tasks of a terminal keeps their numbers, frames and arguments |
| Scheduling.HaltReturnsToItsExecute | student-distrib/sys_calls.c:84-102 | `execute` and its matching `halt` nest: whatever ran in between, `halt` loads the frame of that `execute`, with the caller's process, counter, page and stack back in place |
| Scheduling.BootStartsThreeShells | student-distrib/scheduler.c:86-115 | Four ticks from power-on: shells in slots 1, 2 and 3, terminal 1 shown, terminal 3 running, and the first two shells hold the frames to be resumed |
| Scheduling.BootThenBreaks | student-distrib/sys_calls.c:52-217 | The state right after boot is reachable; there any accepted `execute` leaves exact tables but a wrong page, and the halt of the running shell leaves tables that hold no three stacks |
| Arguments.NameEndIs | student-distrib/sys_calls.c:135-139 | The name loop stops at the first space, at the end or after 32 bytes |
| Arguments.CommandSplits | student-distrib/sys_calls.c:134-186 | A command is its name, then spaces, then its tail; the name is the longest space-free prefix of at most 32 bytes |
| Arguments.ArgsReadBack | student-distrib/sys_calls.c:366-383 | The argument bytes of a live process read back as its command tail although `execute` writes no terminator; the copy succeeds iff the tail and a NUL fit (a count of 0 passes the unsigned test) |
| Arguments.ArgumentsSurvive | student-distrib/sys_calls.c:180-186 | From `execute` over any run while the process lives, its block holds exactly the tail of the command that started it |
| Screen.PutLinear | student-distrib/lib.c:507-518 | A printable character goes to the linear cursor position and advances it by one; past the last cell everything moves up one row |
| Screen.WriteSplit | student-distrib/lib.c:207-218 | Writing a concatenation is writing its parts in turn |
| Screen.WriteShows | student-distrib/lib.c:207-218 | The whole screen after text without NUL and line breaks: the cells before the old cursor and the text are one stream, shown from the first row that has not moved off the top, with the cursor at its end and blanks behind it once anything has moved |
| Screen.WriteFits | student-distrib/lib.c:207-218 | Such text, when it fits, stands in the cells from the cursor on; every other cell is unchanged and the cursor stands behind it |
| Screen.EndStands | student-distrib/lib.c:507-518 | After longer text the cells before the cursor are its end, up to 24 rows, through wrap and scroll |
| Screen.BreakShows | student-distrib/lib.c:504-518 | A newline or carriage return puts the cursor at the start of the next row, and on the last row moves everything up one row |
| Screen.NulShowsNothing | student-distrib/lib.c:210 | NUL bytes show nothing, wherever they stand |
| Console.Console.constructor | student-distrib/lib.c:9-18 | Three blank pages, terminal 1 shown and mapped |
| Console.Console.PutCell | student-distrib/lib.c:508-509 | Stores one character with the attribute byte and no other cell |
| Console.Console.Scroll | student-distrib/lib.c:78-100 | In-place row loops equal the scroll of the page that was selected, and touch no other page |
| Console.Console.ScrollPastEnd | student-distrib/lib.c:514-518 | The scroll block brings the cursor back on screen and changes only its own terminal |
| Console.Console.Putc | student-distrib/lib.c:503-521 | With the mapping in place `putc` does the abstract put on the running terminal and nothing to the others |
| Console.Console.StoreAt | student-distrib/lib.c:504-513 | The first half of both output routines stores the character and steps the cursor, on one terminal only |
| Console.Console.Putc2 | student-distrib/lib.c:527-544 | `putc2` does the same abstract put on the shown terminal and nothing to the others |
| Console.Console.PrintMessage | student-distrib/lib.c:238-345 | A message without conversions is the write of its bytes on the running terminal |
| Console.Console.PutFile | student-distrib/lib.c:192-218 | A buffer reaches the running terminal by whichever routine applies; shown or not, the result is the same abstract write |
| Console.Console.SetCursors | student-distrib/lib.c:158-171 | The cursor moves, wraps back one row from column -1, and never leaves 80x25 |
| Console.Console.Clear | student-distrib/lib.c:29-35 | Only the shown terminal's cells become blank |
| Console.Console.SwitchTerminal | student-distrib/lib.c:106-135 | The in-place buffer exchange leaves all three abstract screens and cursors unchanged |
| Console.Console.Exchange | student-distrib/lib.c:130-133 | The copy loop exchanges the characters of the pages, also when both are one page |
| Keyboard.Keyboard.constructor | student-distrib/keyboard.c:43-57 | No key held, three empty lines |
| Keyboard.Keyboard.UpdateModifiers | student-distrib/keyboard.c:85-105 | The modifier flags follow the scan code, a shift code and an alt-to-ctrl code being looked at independently |
| Keyboard.Keyboard.TrackModifiers | student-distrib/keyboard.c:85-105 | Modifier codes change no line and no screen |
| Keyboard.Keyboard.Insert | student-distrib/keyboard.c:190-194 | A printable key is stored and echoed unless 128 are stored already |
| Keyboard.Keyboard.EraseCell | student-distrib/keyboard.c:172-175 | Step back, space, step back again erases exactly one cell, across a row boundary too, and never scrolls |
| Keyboard.Keyboard.Backspace | student-distrib/keyboard.c:169-178 | Takes the last byte off the owner's line and its cell off the screen, or does nothing at the top-left corner |
| Keyboard.Keyboard.SwapLines | student-distrib/keyboard.c:125-128 | The copy loop parks the live buffer and loads the target's, byte for byte |
| Keyboard.Keyboard.BringIn | student-distrib/keyboard.c:124-159 | The exchange parks the live line under the shown terminal, whoever owned it, and leaves every other line as its saved buffer has it |
| Keyboard.Keyboard.RequestTerminal | student-distrib/keyboard.c:112-160 | Alt-Fn changes the keyboard's owner and the lines as the exchange does, and nothing at all for the terminal already shown |
| Keyboard.Keyboard.RequestKeepsLinesIff | student-distrib/keyboard.c:112-160 | A terminal request keeps the unfinished lines of all three terminals iff no other terminal's request is waiting for its tick, or the lines it then confuses happen to be equal |
| Keyboard.Keyboard.RequestOverwrites | student-distrib/keyboard.c:112-160 | A terminal request parks the line of the keyboard's owner under the shown terminal, whose own line is gone if another one owned the keyboard |
| Keyboard.Keyboard.Act | student-distrib/keyboard.c:107-195 | Each branch of the handler, under the modifiers held, is its abstract action |
| Keyboard.Keyboard.EditKey | student-distrib/keyboard.c:161-195 | The editing branches are the abstract line editor |
| Keyboard.Keyboard.PrintKey | student-distrib/keyboard.c:182-195 | Caps lock and shift select the table; a NUL entry prints nothing |
| Keyboard.Keyboard.ClearScreen | student-distrib/keyboard.c:107-111 | ctrl-L blanks the shown screen, homes its cursor and keeps the line |
| Keyboard.Keyboard.Handle | student-distrib/keyboard.c:66-196 | One scan code takes the whole view (screens, lines, modifiers, switch state) to the abstract key step; a second terminal request before the tick is told apart and its effect on the lines stated in full |
| Keyboard.Keyboard.CopyLine | student-distrib/keyboard.c:238-241 | The copy loop delivers the first min(nbytes, index) bytes and leaves the rest of the buffer |
| Keyboard.Keyboard.ConsumeLine | student-distrib/keyboard.c:242-245 | The wipe empties the live line and no other |
| Keyboard.Keyboard.TerminalRead | student-distrib/keyboard.c:225-247 | A read returns the first min(nbytes, length) bytes of the owner's line, empties it, prints one newline, and does nothing for a negative count |
| Keyboard.Keyboard.WriteOut | student-distrib/keyboard.c:264 | The bytes and their terminator reach the running terminal only |
| Keyboard.Keyboard.DropSaved | student-distrib/keyboard.c:265-285 | The wipe after a write can only clear the running terminal's own line, and only when it does not own the live buffer |
| Keyboard.Keyboard.TerminalWrite | student-distrib/keyboard.c:257-288 | A write prints exactly the first nbytes on the running terminal; it reports nbytes + 1, 0 for an empty and -1 for a bad request |
| Keyboard.EraseByPut | student-distrib/keyboard.c:172-175 | Stepping back, putting a space and stepping back is the erasure of one cell |
| Keyboard.TrailingNul | student-distrib/lib.c:199-210 | The terminator added by `print_withoutnull` is not printed |
| Kernel.Kernel.constructor | student-distrib/sys_calls.c:23-27 | Power-on: zero tables, zero argument bytes, nothing running |
| Kernel.Kernel.FindSlot | student-distrib/sys_calls.c:159-169 | The slot loop returns the first empty slot |
| Kernel.Kernel.ParseName | student-distrib/sys_calls.c:135-139 | The name loop computes the file name and where it ends |
| Kernel.Kernel.ParseArgs | student-distrib/sys_calls.c:175-186 | The argument loops copy the tail over the old bytes without a terminator |
| Kernel.Kernel.Spawn | student-distrib/sys_calls.c:156-243 | The assignments of a successful `execute` are the abstract spawn, field for field |
| Kernel.Kernel.Execute | student-distrib/sys_calls.c:115-248 | `execute` is the table step; a rejected call changes no table; a full process table prints its message and reports 0 |
| Kernel.Kernel.WipeArgs | student-distrib/sys_calls.c:63-65 | Zeroes all argument bytes of one block only |
| Kernel.Kernel.Reap | student-distrib/sys_calls.c:52-67 | The first half of `halt` on counters, slot and arguments |
| Kernel.Kernel.ReturnToParent | student-distrib/sys_calls.c:70-74 | The child branch of `halt` is the table step |
| Kernel.Kernel.RestartShell | student-distrib/sys_calls.c:75-82 | The root branch of `halt` is the table step and clears the shown screen |
| Kernel.Kernel.Halt | student-distrib/sys_calls.c:47-105 | `halt` is the table step; only the restart of a root shell touches a screen |
| Kernel.Kernel.Remap | student-distrib/scheduler.c:42-84 | The top of a tick serves a pending switch without changing any screen or line, and points the video at the next terminal's page |
| Kernel.Kernel.MapVideo | student-distrib/scheduler.c:64-84 | The video pointer and the user page name VIDEO iff the terminal is shown, otherwise its own buffer |
| Kernel.Kernel.Vidmap | student-distrib/sys_calls.c:392-444 | An address inside the program page maps the running terminal's page and reports 0; any other changes nothing and reports -1 |
| Kernel.Kernel.SaveRunning | student-distrib/scheduler.c:126-139 | Stores kernel stack and frame in the running block only |
| Kernel.Kernel.SwitchProcess | student-distrib/scheduler.c:117-140 | The context switch in the order of the code is the table step, since the two blocks differ |
| Kernel.Kernel.ShowNext | student-distrib/scheduler.c:88-93 | A boot tick shows the next terminal with its cursor home and changes no other screen |
| Kernel.Kernel.StartShell | student-distrib/scheduler.c:87-107 | A boot tick after the remap starts one shell |
| Kernel.Kernel.LastBootTick | student-distrib/scheduler.c:108-115 | The fourth tick returns to terminal 1 and keeps the third shell running |
| Kernel.Kernel.FullTick | student-distrib/scheduler.c:42-140 | A tick after boot is the table step, changes no screen and no line, and leaves the mapping right |
| Kernel.Kernel.Tick | student-distrib/scheduler.c:23-144 | `pit_handler` in all five phases is the table step and the abstract tick of the three terminals |
| Kernel.Kernel.Getargs | student-distrib/sys_calls.c:366-383 | Copies nbytes of the shown terminal's top block iff the argument length passes the unsigned test, otherwise leaves the buffer alone and reports -1 |
| Kernel.Kernel.ArgLength | student-distrib/sys_calls.c:371-374 | The scan finds the length of the C string |
| System.Run | student-distrib/scheduler.c:23-144 | Main theorem: over any enabled run of ticks, calls, keys, reads, writes and argument requests the imperative kernel stays valid, ends where the abstract machine ends, and its replies are exactly the abstract ones |
| System.Do | student-distrib/keyboard.c:66-288 | One input on the imperative kernel is one step of the abstract machine |
| System.Boot | student-distrib/scheduler.c:86-115 | The constructed kernel stands for three blank terminals and no task |
| System.DoTick | student-distrib/scheduler.c:23-144 | A tick keeps tables, screens and lines of the kernel in step with the abstract machine |
| System.DoExec | student-distrib/sys_calls.c:115-248 | So does `execute`, also when it only prints its message |
| System.DoHalt | student-distrib/sys_calls.c:47-105 | So does `halt` |
| System.DoVidmap | student-distrib/sys_calls.c:392-444 | So does `vidmap` |
| System.DoKey | student-distrib/keyboard.c:66-196 | So does a key, a terminal request included |
| System.DoWrite | student-distrib/keyboard.c:257-288 | So does a write by the running process |
| System.DoRead | student-distrib/keyboard.c:225-247 | So does a read, and it returns the prefix of the abstract line |
| System.DoGetargs | student-distrib/sys_calls.c:366-383 | On a kernel that stands for an abstract state, getargs succeeds iff the tail of the shown terminal's top process fits with its NUL (a size of 0 passes), and then hands over exactly that tail |
| System.PartsAgree | student-distrib/scheduler.c:42-56 | Tasks and terminals always agree on what is shown, pending and running |
| Interaction.StepIsolation | student-distrib/keyboard.c:66-288 | After boot a step changes only the screens and lines it owns; a switching tick, a terminal request, an ordinary execute and the halt of a child change none |
| Interaction.QuietTerminalIsKept | student-distrib/keyboard.c:66-288 | Over any run that never touches a terminal its screen, cursor and unfinished line stay as they were |
| Interaction.EchoPut | student-distrib/keyboard.c:190-194 | Through wrap and scroll, a typed character extends the echoed line |
| Interaction.EchoErase | student-distrib/keyboard.c:169-178 | Backspace, across rows too, takes the last byte off the line and off the screen |
| Interaction.NoLineBreakOffEnter | student-distrib/keyboard.c:67-79 | No entry of the two scan-code tables, Enter aside, is a line break |
| Interaction.KeyEcho | student-distrib/keyboard.c:161-195 | Every key but ctrl-L and a switch keeps the echo and edits the line as the pure line editor does |
| Interaction.EchoRun | student-distrib/keyboard.c:161-195 | While only the keyboard writes to the shown terminal, whatever else the kernel does, the cells before the cursor are the typed line, which is the fold of the keys and at most 128 long |
| Interaction.ReadReturnsTypedLine | student-distrib/keyboard.c:225-247 | A read after such a run returns the first bytes of the fold of typed and erased keys, empties the line and leaves it echoed on a fresh row |
| Interaction.OwnLineIff | student-distrib/keyboard.c:232-245 | A read serves the terminal last asked for: the reader gets its own line iff no request is pending or the two lines start alike, and that terminal's line is consumed |
| Interaction.OwnArgumentsIff | student-distrib/sys_calls.c:366-368 | The caller of getargs gets what its own tail would give iff its terminal is the shown one, or the two tails are equal, or the size is 0 or too small for both |
| Interaction.Events | student-distrib/scheduler.c:23-144 | The process events of a run of the whole kernel are an allowed run of the process machine |
| Interaction.ArgumentRoundTrip | student-distrib/sys_calls.c:174-186 | From the execute of a command over any run of the whole kernel that does not halt the process: getargs for the shown terminal's top process yields exactly the command's tail iff it fits |
| Interaction.TasksFollowEvents | student-distrib/scheduler.c:23-144 | The process stacks of a whole-kernel run are those of its process events alone |
| KeyLaws.KeysPrint | student-distrib/keyboard.c:182-189 | The whole keyboard, scan code by scan code: letters are capital iff exactly one of shift and caps lock holds, the other keys take their upper character iff shift is held and caps lock is off |
| KeyLaws.ModifiersFollow | student-distrib/keyboard.c:84-104 | Over any run of scan codes shift, alt and control hold exactly while a key is down that was not let go of since, and caps lock changes with each press |
| KeyLaws.EraseUndoesType | student-distrib/keyboard.c:161-195 | A printing key adds its character to a line with room, and backspace takes it off again |
| KeyLaws.ControlL | student-distrib/keyboard.c:107-111 | Control and L blank the 2000 cells of the shown screen and home its cursor, and change no line and no other screen |
| KeyLaws.RequestIsServed | student-distrib/keyboard.c:112-160 | Alt and a function key: that terminal is the shown one after the next tick, with every screen and line as it was |
| KeyLaws.WriteInputShows | student-distrib/lib.c:184-218 | A write of plain text continues the running terminal's screen with it and changes no other; that terminal's unfinished line is dropped iff another one owns the keyboard, and no other line changes |
| KeyLaws.WriteLine | student-distrib/lib.c:184-218 | Text that fits the row, and a newline: the text stands behind the old cursor, and the new one at the start of the next row |
| KeyLaws.RootHaltBlanks | student-distrib/sys_calls.c:75-82 | The halt of a root shell leaves the shown screen blank with its cursor home, and changes no other screen and no line |
| KeyLaws.SeventhProcess | student-distrib/sys_calls.c:126-129 | With six processes an `execute` starts none and changes no stack, and the message stands on the running terminal |
| KeyLaws.WriteTwice | student-distrib/lib.c:184-218 | Two writes in turn are one write of both texts |
| KeyLaws.EnterStep | student-distrib/keyboard.c:179-181 | Enter is set by its key alone and taken by a read alone |
| KeyLaws.ReadsTakeEnters | student-distrib/keyboard.c:232-235 | Over any run of the whole kernel there are never more reads than presses of Enter |
| KeyLaws.ReadShows | student-distrib/keyboard.c:235-245 | A read breaks the line on the shown screen, takes Enter, empties the owner's line and changes no other |
| Failures.OthersArguments | student-distrib/sys_calls.c:366-383 | A reachable instance for `getargs`: boot, a command with arguments on the shown terminal, one tick, and the shell of another terminal gets them although it has none |
| Failures.ReadsOthersLine | student-distrib/keyboard.c:232-245 | A reachable instance for reads: "a", Enter and Alt-F2 on terminal 1, and its reader gets nothing |
| Failures.SecondRequestLosesLine | student-distrib/keyboard.c:112-160 | A reachable instance for terminal requests: "a", Alt-F2 and Alt-F3 before the next tick, and the line of terminal 1 is gone |
| Filesys.EndOfFileRuleIff | student-distrib/filesys.c:114-126 | The code's byte count meets the documented end-of-file rule iff the offset is 0, the read ends inside the file, or the offset is beyond it; it never copies less |
| Filesys.Strncmp | student-distrib/lib.c:780-794 | Reports 0 iff the two names agree when cut at NUL or 32 bytes |
| Filesys.FindFrom | student-distrib/filesys.c:23-33 | The first entry from a given one whose cut name equals the query's |
| Filesys.FileSystem.ReadDentryByName | student-distrib/filesys.c:14-34 | Copies out the first matching entry, the one `FindFrom` names; -1, with the output untouched, iff there is none |
| Filesys.FileSystem.ReadDentryByIndex | student-distrib/filesys.c:45-60 | Copies out that entry; the bound lets one index too many through, the entry count itself |
| Filesys.FileSystem.ReadInto | student-distrib/filesys.c:70-127 | The pointer walk over the block list copies exactly the directly indexed bytes, min(length, file length) of them, and leaves the rest of the buffer |
| Filesys.FileSystem.Advance | student-distrib/filesys.c:118-123 | The byte after an address is the next file byte, except at a block end, where the next listed block begins |
| Filesys.FileSystem.DirRead | student-distrib/filesys.c:221-257 | Delivers as much of the next name as fits, advances by one entry, returns 0 without advancing or writing once all are listed, and otherwise writes exactly one byte more than it reports |
| Filesys.DirOverrunIff | student-distrib/filesys.c:238-248 | The byte past the count is written iff an entry is listed whose cut name fills the count; it lies past the caller's buffer iff the name is at least as long as the buffer |
| Filesys.FileSystem.CopyEntry | student-distrib/filesys.c:53-57 | The copied entry is the 64 bytes behind the boot header |
| Filesys.OpenFile.FileRead | student-distrib/filesys.c:143-159 | A read delivers `read_data` at the position and advances it by the count; -1 and nothing changed for a negative size |
| FileLaws.ReadsCutTheFile | student-distrib/filesys.c:143-159 | Reads whose sizes sum to at most the file length deliver the file's prefix cut into exactly those pieces |
| FileLaws.DrainOverruns | student-distrib/filesys.c:114-126 | Repeated positive-size reads always reach a 0 return; what they delivered is the file by index, running past its end unless it is empty |
| FileLaws.DrainIsTheFileIff | student-distrib/filesys.c:323-326 | Reading to 0 yields the file as a prefix, and exactly the file iff it is empty |
| FileLaws.ListingIsTheDirectory | student-distrib/filesys.c:221-257 | Successive directory reads list every entry once in order, then nothing forever |
| FileLaws.ListedNameIsFound | student-distrib/filesys.c:14-34 | Looking up a listed name finds that entry iff no earlier entry has the same cut name |
| ImageLaws.StoredIsRead | student-distrib/filesys.c:70-127 | For any image of one boot block, as many inode blocks as its byte 4 says, and data blocks: a file stored under an inode, wherever its blocks lie, is read back, whole and in part |
| ImageLaws.StoredIsCovered | student-distrib/filesys.c:102-123 | Such a read never leaves the image |
| ImageLaws.EntryIsRead | student-distrib/filesys.c:23-60 | Directory entry e is 64 bytes of the boot block from byte 64(e + 1) on, with the name in front |
| ImageLaws.BuiltIsRead | student-distrib/filesys.c:14-127 | An image built from files gives them back: the number of entries, and for each file its name, type and inode number in the directory, its length, its contents, and every part of them within the length |
| ImageLaws.BuiltIsFound | student-distrib/filesys.c:14-34 | Looking a built file up by its name finds it, unless an earlier file has the same name |
| Descriptors.OpenLaw | student-distrib/sys_calls.c:297-336 | `open` fails iff the name is missing or descriptors 2 to 7 are all present; otherwise it returns the least absent one, never past the table, and touches no other; position, operations, inode and flags of the new one are spelled out for each file type |
| Descriptors.CloseLaw | student-distrib/sys_calls.c:347-358 | `close` succeeds iff it names a present descriptor in 2 to 7, clears that one and touches no other |
| Descriptors.CloseUndoesOpen | student-distrib/sys_calls.c:297-358 | Closing what `open` returned leaves the same descriptors present and the same count |
| Descriptors.AnyCalls | student-distrib/sys_calls.c:297-358 | Over any sequence of opens and closes the counter equals the number of present descriptors, and 0 and 1 stay as they were |
| Descriptors.HaltClosesWhat | student-distrib/sys_calls.c:57-61 | The close loop of `halt` clears in the shown terminal's table exactly the numbers from 2 on under which the dying process had regular files open |
| Descriptors.HaltClosesKeepsCount | student-distrib/sys_calls.c:57-61 | The shown process's counter still equals its present descriptors after that loop |
| Descriptors.FileTable.CloseAll | student-distrib/sys_calls.c:57-61 | The loop clears every descriptor of the dying process; when the shown process is another one it does the abstract closes there and leaves the dying one's counter, otherwise the counter drops by the regular files from 2 on |
| Descriptors.HaltSparesForegroundIff | student-distrib/sys_calls.c:57-61 | It leaves the shown process's table alone iff no such number is open there |
| Descriptors.OwnHaltClosesAnother | student-distrib/sys_calls.c:57-61 | An instance of the failure: two processes open one file each, both as descriptor 2, and the halt of the first, whose file is regular, closes the second one's |
| Descriptors.FileTable.constructor | student-distrib/sys_calls.c:221-233 | A new process has standard input and output present with their operations, all else absent, and a count of 2, whatever the block held before |
| Descriptors.FileTable.Open | student-distrib/sys_calls.c:297-336 | The search and the type switch are the abstract open |
| Descriptors.FileTable.Close | student-distrib/sys_calls.c:347-358 | The two tests and updates are the abstract close |
| Grep.CopyDown | syscalls/ece391support.c:14-17 | The overlapping forward copy moves the string to the front intact and touches nothing behind its terminator |
| Grep.Compare | syscalls/ece391support.c:35-46 | Reports 0 iff the text at that place starts with the pattern |
| Grep.SearchLine | syscalls/ece391grep.c:40-51 | The search loop reports a line once iff it contains the pattern, at the first match |
| Grep.ScanPiece | syscalls/ece391grep.c:29-57 | A piece of the buffer searched as a line is the next piece of the remaining text |
| Grep.Carry | syscalls/ece391grep.c:33-39 | The unfinished line moves to the front and leaves room to read on |
| Grep.ScanBuffer | syscalls/ece391grep.c:28-57 | The inner loop reports the finished lines of the buffer and carries the unfinished one, so that report and rest still make the whole scan |
| Grep.SearchNext | syscalls/ece391grep.c:40-56 | One turn of the inner loop writes the next piece of the scan and leaves the rest of the buffer as it was |
| Grep.ReadChunk | syscalls/ece391grep.c:22-27 | A read fills the buffer behind the carried piece, or takes what is left of the file |
| Grep.ScanFile | syscalls/ece391grep.c:20-60 | The chunked loop terminates and reports the scan of the whole file, whatever the chunk boundaries |
| Grep.DoOneFile | syscalls/ece391grep.c:10-66 | The output is the scan of the file; for a name without newlines it is, cut at newlines, exactly the lines that contain the pattern behind name and colon, each once and in order, iff no line of more than 1024 bytes contains it; a name that does not open is reported |
| Grep.ScanOfShortLines | syscalls/ece391grep.c:20-60 | If no line has more than 1024 bytes the scan equals split into lines, keep those that contain the pattern |
| Grep.ScanIsGrepIff | syscalls/ece391grep.c:20-60 | For every pattern and file: the scan reports exactly the matching lines iff no line of more than 1024 bytes contains the pattern |
| Grep.OutputLinesIff | syscalls/ece391grep.c:40-51 | Told from the output alone: it ends in a newline unless it is empty, and cut at newlines it is the lines of the file that contain the pattern, each behind the file name and a colon, iff no line of more than 1024 bytes contains it |
| Grep.MatchingAt | syscalls/ece391grep.c:40-51 | Those lines stand in the file at increasing places, which are the places of all the lines that contain the pattern: none is left out, repeated or moved |
| Grep.LinesAreTheText | syscalls/ece391grep.c:29-32 | The lines of a text hold no newline, and glued with newlines they are the text |
| Grep.GluedCutsBack | syscalls/ece391grep.c:29-32 | Lines glued with newlines are cut into the same lines |
| Grep.ContainsIff | syscalls/ece391grep.c:42-50 | A line contains a pattern iff it is some text, the non-empty pattern, and some text |
| Grep.OneByteTells | syscalls/ece391grep.c:20-60 | The scan is right for every one-byte pattern iff no line has more than 1024 bytes |
| Blink.BlinkList.constructor | fish/fish.c:28 | A zeroed pool and a null head hold the empty list |
| Blink.BlinkList.FindHelper | fish/blink.S:351-379 | Returns the slot of the newest entry at a location, or null |
| Blink.BlinkList.Find | fish/blink.S:302-349 | Returns the newest entry at a location, or fails |
| Blink.BlinkList.Malloc | fish/fish.c:160-170 | Returns the first slot with location 0, or null |
| Blink.BlinkList.Add | fish/blink.S:105-184 | Pushes at the front, and fails iff the location is 2000 or more or the pool is full; the pool still holds a list iff it failed or the location is not 0 |
| Blink.BlinkList.Remove | fish/blink.S:187-237 | Unlinks and frees just the newest entry at a location; fails iff there is none |
| Blink.BlinkList.FindPrevious | fish/blink.S:206-212 | The walk stops at the link that names the entry |
| Blink.BlinkList.Sync | fish/blink.S:240-300 | Copies lengths, countdown and status from the entry named by the high half to the one named by the low half, or fails and changes nothing |
| Blink.BlinkList.Tasklet | fish/blink.S:49-99 | One pass ticks every entry of the list once |
| Blink.TickEntry | fish/blink.S:64-86 | The 16-bit decrement and signed test of one entry |
| Blink.BlinkList.Run | fish/blink.S:101-300 | Any run of commands without an add at location 0 keeps the pool sound and refines the abstract list, results included |
| Blink.AddOutcome | fish/blink.S:131-170 | The add on pool and head is the abstract push or failure, with the exact condition for the list to survive |
| Blink.FullIff | fish/fish.c:160-170 | The list has at most 2000 entries, and has 2000 iff no slot is free |
| Blink.PushRepresents | fish/blink.S:159-162 | Linking a free slot in front keeps the list acyclic and exactly the slots in use |
| Blink.UnlinkRepresents | fish/blink.S:214-222 | Unlinking and zeroing a slot keeps it so, without that entry |
| BlinkLaws.PhaseLaw | fish/blink.S:64-86 | For all 16-bit lengths, n ticks after an add the entry is on iff n modulo the period is below its on time, with the matching countdown; a length of 0 or above 32768 lasts one tick |
| BlinkLaws.FirstPeriod | fish/blink.S:64-86 | The first period in figures: on for the on length while counting down, off for the off length, then on again; a length of 0 or above 32768 is over at the first tick |
| BlinkLaws.TimingStaysTheSame | fish/blink.S:64-86 | Entries with equal lengths, countdown and status have them equal after every number of ticks |
| BlinkLaws.AddLaw | fish/blink.S:131-170 | By field: an add fails iff the location is 2000 or more or 2000 entries blink; otherwise the entry asked for stands in front, on, with its on length ahead |
| BlinkLaws.RemoveLaw | fish/blink.S:187-224 | A remove fails iff the location has no entry; otherwise it takes out the newest one there and nothing else |
| BlinkLaws.SyncLaw | fish/blink.S:240-298 | By field: a sync fails iff either location has no entry; otherwise the newest entry at the low half takes on length, off length, countdown and status from the newest at the high half, keeps location and characters, and no other entry changes |
| BlinkLaws.SparedByRun | fish/blink.S:101-300 | Over any run that neither re-adds, removes nor syncs onto a location, its newest entry just ticks |
| BlinkLaws.BlinksByTheClock | fish/blink.S:101-300 | Over such a run a new entry blinks by the phase law counted from its add |
| BlinkLaws.SyncedBlinkAlike | fish/blink.S:267-275 | After a sync the newest entries at the two locations have equal lengths, countdown and status at the end of every run that spares both |
| BlinkLaws.RemoveUndoesAdd | fish/blink.S:159-222 | Removing a location just added restores the list |
| BlinkLaws.SecondAddAfterZeroLoops | fish/fish.c:160-170 | After an add at location 0 the next add reuses its slot and links it to itself |
| Numbers.ReadsBack | student-distrib/lib.c:570-581 | Parsing a numeral gives the number back, for every radix from 2 to 36, in digits of the radix and without leading zeros |
| Numbers.WritesBack | student-distrib/lib.c:570-581 | A digit string without a leading zero is the numeral of its value |
| Numbers.WordDigits | student-distrib/lib.c:552-582 | No 32-bit value has more than 32 digits, nor more than 8 hexadecimal ones |
| Numbers.ReversedDigits | student-distrib/lib.c:565-581 | Reversing the digits as written gives the numeral |
| Numbers.WriteDigits | student-distrib/lib.c:570-575 | The digit loop writes the digits lowest place first and touches nothing else |
| Numbers.StringLength | student-distrib/lib.c:607-612 | The scan finds the length of the string |
| Numbers.StrRev | student-distrib/lib.c:588-601 | The in-place swaps reverse the string and touch nothing else |
| Numbers.Itoa | student-distrib/lib.c:552-582 | Leaves the numeral of the value and a NUL, zero included, and touches nothing behind it |
| Numbers.PrintHex | student-distrib/lib.c:279-287 | `%#x` prints exactly eight hexadecimal digits with the same value |
| Numbers.PaddedIsValue | student-distrib/lib.c:282-286 | Padding with zeros in front keeps the value |
| Numbers.SameLengthSameValue | student-distrib/lib.c:279-287 | Two digit strings of equal length and value are equal, so the eight digits are the only ones |
| Emulate.TokensAreWords | syscalls/ece391emulate.c:81-100 | A command without newlines that starts with a word becomes its maximal space-free words, the first behind "./" |
| Emulate.ArgWordsAreWords | syscalls/ece391emulate.c:88-98 | The argument loop finds exactly the words of a newline-free text |
| Emulate.NewlineStopsIff | syscalls/ece391emulate.c:89-97 | With a newline in it, a command yields just the tokens of what stands before iff a space stands before the newline, or the first byte behind it that is not a space is a newline or does not exist |
| Emulate.NoWordsIff | syscalls/ece391emulate.c:88-93 | The argument loop finds no word iff the first byte that is not a space is a newline or does not exist |
| Emulate.NewlineAfter | syscalls/ece391emulate.c:89-97 | What the loop makes of a newline in every position |
| Emulate.ParseCommand | syscalls/ece391emulate.c:76-100 | In place, the buffer and pointer array hold the words as NUL-terminated strings; more than 1023 bytes are refused; the array never overflows |
| Emulate.CutProgram | syscalls/ece391emulate.c:81-86 | The first word becomes the program's name, ended in place when more follows |
| Emulate.ParseArgs | syscalls/ece391emulate.c:87-98 | The argument loop stores a pointer to each word and terminates it |
| Emulate.TakeWord | syscalls/ece391emulate.c:94-97 | One word is stored and cut off without disturbing the words before it |
| Emulate.GetArgs | syscalls/ece391emulate.c:131-157 | Joins the arguments with single spaces, and succeeds iff the joined length plus one is at most nbytes; the byte just past nbytes becomes NUL iff some of the arguments, joined, are exactly nbytes long, and is left alone otherwise |
| Emulate.EdgeIsHit | syscalls/ece391emulate.c:140-149 | A call that fails and writes past its limit: the argument "ab" and two bytes |
| Emulate.JoinArgs | syscalls/ece391emulate.c:139-152 | The copying loop stops at the first argument that does not fit, and its last terminator is the only byte that can land past the limit |
| Emulate.JoinReadsBack | syscalls/ece391emulate.c:138-156 | Cutting a join gives the words back |
| Emulate.JoinLength | syscalls/ece391emulate.c:138-156 | A join is as long as its words and one space between each two |
| Emulate.ArgumentsSurviveJoin | syscalls/ece391emulate.c:131-157 | For every command, what getargs hands over parses into the same arguments |

## Left out

- Kernel.Kernel.Tick: during the four boot ticks no key has been typed and no terminal switch is pending, because boot switches terminals itself and remaps the video before it does (`student-distrib/scheduler.c:64-116`).
- Kernel.Kernel.Remap: serves no switch during boot, for the same reason.
- Kernel.Kernel.ShowNext: no key typed during boot, for the same reason.
- Kernel.Kernel.StartShell: no key typed during boot, for the same reason.
- Kernel.Kernel.LastBootTick: no key typed during boot, for the same reason.
- System.Run: the image holds an executable shell, fewer than six processes run while boot starts the shells, and one terminal request is served by a tick before the next is made (what a second request does is stated by `Keyboard.Keyboard.Handle` for a single step). Between the fourth and the fifth tick the third shell, running but not shown, writes nothing: boot has mapped terminal 1's buffer for it (`student-distrib/scheduler.c:64-84`, `108-115`), and its output would land there.
- Scheduling.ContextAfterBoot: the runs it speaks of take `execute`, and `halt` of a root shell, only while the running terminal is the shown one; that the context needs exactly this is proved by `Scheduling.ExecuteKeepsInvariantIff` and `Scheduling.HaltKeepsInvariantIff`.
- Tables.ReachableForest: takes the `halt` of a root shell only while its terminal is shown, which is exactly when the tables survive it (`Tables.HaltKeepsTablesIff`); terminal requests wait for the end of boot, fewer than six processes run while boot starts the shells, and the image holds an executable shell.
- System.Do: the reader waits in a loop for Enter (`student-distrib/keyboard.c:232-234`); a read is a step that is enabled once that loop would end.
- Kernel.Kernel.Execute: more than 127 argument bytes run over the block's argument array in the code and are excluded; with exactly 127 no terminator is left, so runs allow 126.
- Kernel.Kernel.Getargs: a negative count, for which the code copies an enormous block, is excluded.
- Kernel.Kernel.Halt: the close loop over the descriptors is modelled apart, by `Descriptors.FileTable.CloseAll`.
- Kernel.Kernel.Vidmap: only the video mapping and the result, not the directory entry, which is the same for every process, nor the store through the caller's pointer; the error path leaves interrupts disabled, which has no counterpart here.
- Filesys.FileSystem.ReadInto: the caller's buffer and the listed blocks must exist; the code checks neither inode nor block numbers, although its description promises -1 for them. Addresses do not wrap around at 32 bits.
- Filesys.OpenFile.FileRead: the same holds for the blocks it reads.
- Filesys.FileSystem.DirRead: the buffer is the memory from the caller's buffer on, and holds the byte that the copy adds; a negative count is excluded; the code truncates it to a byte.
- Grep.ScanFile: as for `DoOneFile`.
- Grep.DoOneFile: the reader returns full chunks until the end of the file, the file has no NUL bytes, and the byte behind the buffer does not happen to be a newline at the start; the messages for failing reads and closes are not modelled.
- Descriptors.FileTable.Open: the table of one control block; that the descriptor calls always use the shown terminal's block appears only in the close loop of `halt`. A file type other than 0, 1 or 2 is excluded.
- Numbers.PrintHex: the other conversions of `printf` are not modelled.
- Console.Console.PrintMessage: messages without a percent sign, as the kernel's are.
- Blink.BlinkList.Add: the characters drawn on the screen are left out here and in the tasklet and sync, which draws the off character always (`fish/blink.S:279-285`).
- Emulate.ParseCommand: starting the program and waiting for it, and the directory and file calls of the emulation layer.
- The process tables are sequence-valued fields of `Kernel` and not arrays; pages, keyboard buffers, the blink pool and all text buffers are arrays.
- Interrupts that arrive in the middle of a handler or system call.
- Registers, paging structures other than the two entries that the code changes, `iret`, port input and output, the hardware cursor, the interrupt controller, descriptor bit packing.
- The real-time clock driver, boot parsing, the kernel's own tests, and the remaining user programs.
- Loading of the program image into its page; only whether the name resolves to an executable matters here.
