# Verification of the thos kernel

`thos` is a small multi-hart operating system for RISC-V. This project models its most
involved parts in Dafny and proves what they are for. `dafny verify dfyconfig.toml` checks
everything.

| part | files | what is modelled |
|---|---|---|
| Scheduler and locks | `Kernel*.dfy`, `ProcessSearch.dfy`, `SpinLockLoop.dfy`, `TrapRoutines.dfy` | Any number of harts, 32 process slots, three spinlocks, the trap-enable bit and the trap frames, as a state machine in which every access to shared memory is a step of its own. `KernelSteps` is the code, `KernelInvariant` and `KernelPreservation` the invariant and its proof, `KernelRuns` what follows for every run of every interleaving, `KernelFate` what a trap does to its process, `KernelProgress` what is known about waiting. `KernelHope` states when a search can still find a process. `KernelStarvation` and `KernelLostLock` prove that nothing comes of it otherwise; `KernelRevival` proves that it can, by runs built in `KernelReach`, `KernelWork`, `KernelSearch` and `KernelPublishing`. `KernelWitness` has runs from the start of the kernel to unwanted states, put together from the pieces in `KernelScenario`. |
| Page tables | `PageTable*.dfy` | Sv39 tables in a pool of pages, as an object that the mapping functions change in place; the flat map that a forest of tables stands for; the hardware's translation algorithm. |
| printf and parsing | `Numerals.dfy`, `Strings.dfy`, `Parse.dfy`, `Printf*.dfy`, `Stdio.dfy`, `DirectOutput.dfy` | The format engine with its fields and loops, proved against `PrintfSpec`; the laws of that specification; the syntax tree of formats; the integer parser; the round trips. |
| Devicetree | `DeviceTree*.dfy` | The recursive-descent parser over the bytes of a blob, with the two pools whose items it links; the flattened form as the specification describes it; the path search. |
| Console | `Console*.dfy` | The line buffers, and the interleaving of `putchar_buffer` calls one emitted character at a time. |

## What was found

Each item names the lemmas or contracts that state it.

- A user process loses an instruction at every timer or external interrupt: 4 is added to its
  pc for every trap, although only an ecall wants that (`src/kernel/process/switch.c:71-74`;
  `KernelRuns.PcIsRightExactlyFor`). It happens from every start (`KernelWitness.InstructionIsLost`).
- A hart that finds no process keeps searching, after a trap even under `trap_print_lock`
  (`src/kernel/process/switch.c:104-111`, `src/kernel/trap/handler.c:55`), so that no other trap can be handled.
  The search can still end if and only if `processes_lock` is not lost and a process waits, or one that runs or
  has trapped can come to wait because its trap gets `trap_print_lock`, or kernel code outside traps can create
  one (in an unused slot, or in one that another hart can free) (`KernelRevival.SearchCanEndExactlyIf`).
  Otherwise the system stands still for ever (`KernelStarvation.HopelessSearchNeverEnds`). One hart and the exit
  of one user process are enough for that (`KernelWitness.ExitLeavesNoHope`).
- `Process_create` panics with `processes_lock` held when no slot is left
  (`src/kernel/process/lifecycle.c:24-35`). From then on no hart can go on to another process
  (`KernelLostLock.LostLockStopsEverything`). The lock is lost exactly then: in every other state it can come
  to be free again (`KernelRevival.LockIsLostExactlyIf`). 33 calls of Process_create by one hart are enough
  (`KernelWitness.LockGetsLost`).
- Two harts can have the same `current_process` for a moment, because a process is published as
  RUNNABLE before the pointer is cleared (`src/kernel/process/switch.c:93-95`). It happens with two harts and
  one process (`KernelWitness.PointersCanBeEqual`), and it is harmless: ownership by program location stays
  exclusive (`KernelRuns.SamePointerOnlyWhenLeaving`, `KernelRuns.RunningIffOwned`).
- The id of a process is -1 for a moment while it is still RUNNING
  (`src/kernel/process/lifecycle.c:111-112`; `KernelRuns.IdIsIndex`).
- `SpinLock_acquire` reads `former_value` before it is assigned if the lock is taken when the loop
  starts (`src/kernel/lock.c:19-33`). It then leaves without the lock if and only if the variable happens to
  hold 0 (`SpinLockLoop.Acquire`). The state machine has the loop as intended: it is left only after a
  swap that returned 0.
- The end of a section is taken inclusively, so one page too many is mapped when its size is a
  whole number of pages (`src/kernel/virtual_memory/page_table.c:247`;
  `PageTableSections.OnePageTooMany`).
- The global special section ends where the user special section starts (`src/kernel/kernel.lds:52-57`), so
  the surplus page of the one is the first page of the other (`PageTableUser.AdjacentSpecialsOverlap`). That is
  harmless, because both map to themselves (`PageTableUser.UserTableIsUnion`).
- If one user program starts where another one ends, the surplus page of the other is its first page, and
  user code of the other can reach it; otherwise not (`PageTableUser.ProgramsAreIsolatedExactlyIf`). The same
  holds of the page pool, which starts where the user programs end (`src/kernel/kernel.lds:71-75`): behind a last
  program that fills its pages it is the first page of the pool, which holds the root of the kernel's page table
  (`src/kernel/virtual_memory/page_table.c:264`; `PageTableUser.PoolIsIsolatedExactlyIf`).
- Because the end of a section is inclusive, the loop over its pages does not end when it lies in the last page
  of the address space (`src/kernel/virtual_memory/page_table.c:247`; `PageTableSections.LoopEndsExactlyIf`).
- `PageTable_get_physical_address` looks neither at the valid bit of the last entry nor at the upper
  address bits, and answers for pages that are not mapped (`src/kernel/virtual_memory/page_table.c:353-382`;
  `PageTableHardware.PhysicalAgreesWithHardware`).
- A negative `*` width makes a conversion count its characters without printing them, so the result
  is not the length of the text and `sprintf` puts its NUL in the wrong place
  (`src/libc/stdio.c:117-124` with `286`; `PrintfLaws.CountsWhatItPrints`, `Stdio.Sprintf`).
- Zero padding goes before the sign, and behind the digits of a left-justified number
  (`src/libc/stdio.c:285-336`; `PrintfRoundTrip.FieldReadsBackExactlyFor`).
- Printing the minimum integer negates it, which overflows in C; with two's complement wrapping, which
  is what is modelled, the text is right (`src/libc/stdio.c:261`, `268`; `Printf.PrintState.PrintSigned`).
- `parse` overflows from 19 digits on, leading zeros included: the multiplier is raised once more than
  needed (`src/libc/stdlib.c:58-61`; `Parse.NoOverflowUpTo18Digits`).
- The property pool of 1024 is checked against the size of the node pool, and the last item of a pool
  is never used: 255 nodes and 255 properties are the limit, and one more writes through NULL
  (`src/kernel/device/device_tree.c:77`, `src/kernel/list.c:21`). NOP tokens between the root's END_NODE
  and END make a valid tree a kernel panic (`src/kernel/device/device_tree.c:186`;
  `DeviceTreeSearch.FlattenedTreeIsAccepted`).
- A trap taken by a hart without a process would be handled with the stack pointer at the bottom of the
  hart's scratch space (`src/kernel/trap/routines.c:100-110`; `TrapRoutines.Hart.TrapVector`). It
  cannot happen: traps are on only while a process runs (`KernelRuns.TrapsOnOnlyInProcessCode`).

## Assumptions

- Memory is sequentially consistent; a lock swap, a load or store of a shared word, and the copy of a
  frame by its owner are atomic. Interrupts of kernel-mode code are delivered only while `sstatus.SIE`
  is set.
- `trap_vector` and `restore_after_trap` are one step each in the state machine; `TrapRoutines` proves
  their register saving and loading separately.
- What a process computes, when it traps and why, and when kernel code calls `printf` or
  `Process_create` are free choices in every run. `printf` may be called at any place in the kernel.
- The page table and the stack page that `Process_create` gives to a process are parameters of the step;
  the page-table functions are proved as sequential code.
- Words have 64 bits. The counter `printed` is an unbounded number.
- A printf argument that is missing or of the wrong kind, which is undefined in C, reads as 0 or as the
  empty string.
- The devicetree blob is aligned and words behind its end read as 0; the name of a flattened property lies
  anywhere in the blob.
- A console buffer is wrapped anew only while no call that has the lock works on it, as a slot is created anew
  only while no hart owns it. The console lock is one field that names its holder; `KernelRuns.LockIsPassedOn`
  shows that each spinlock of the kernel behaves like one.

## Model

| member | source | states |
|---|---|---|
| `KernelPreservation.StepKeepsInv` | src/kernel/process/switch.c:57-191 | Every step of every hart keeps the invariant of the whole kernel: ownership by program location, lock words, owners and depths, interrupt states, and where the context of each process lies. All other lemmas about runs rest on it. |
| `KernelPreservation.OtherHartsUndisturbed` | src/kernel/process/lifecycle.c:95-119 | A step that writes a slot only with the right to (it owns the process, or holds `processes_lock` while the process is not RUNNING) leaves what every other hart relies on intact, although several of these writes are made without the lock. |
| `KernelRuns.EnabledIsPossible` | src/kernel/process/switch.c:33-49 | In a reachable state no step indexes outside the process table, follows a NULL `current_process` or steps on a slot that is not there. |
| `KernelRuns.RunningIffOwned` | src/kernel/process/switch.c:66-125 | In every state of every run a process is RUNNING if and only if some hart owns it, and no two harts own the same process. |
| `KernelRuns.SamePointerOnlyWhenLeaving` | src/kernel/process/switch.c:92-95 | Two harts can have equal `current_process` pointers only while one of them stands between publishing RUNNABLE and clearing its pointer. |
| `KernelRuns.MutualExclusion` | src/kernel/lock.c:16-67 | In every run a lock word is set if and only if some hart is inside, at most one is, and the owner of the lock is the hart that holds it, or -1 just before the word is cleared. |
| `KernelRuns.LockIsPassedOn` | src/kernel/lock.c:16-67 | In every step of a run each lock keeps its holder, or is taken by the hart that moves while nobody holds it, or is given up by that hart: what the console model takes its one `holder` field to be. |
| `SpinLockLoop.Acquire` | src/kernel/lock.c:19-33 | The loop with the unassigned variable: it is left without the lock if and only if the variable holds 0 at first and the lock is taken at the first turn; otherwise by the first turn that takes the lock. |
| `KernelRuns.TrapsOnOnlyInProcessCode` | src/kernel/hart.c:63-90 | `lock_depth` is the number of locks held, being acquired or released; traps are off while it is positive and on exactly in process code at depth 0; the only panics of a run are a full process table and an exception in kernel mode. |
| `KernelRuns.TrapsThatCanCome` | src/kernel/trap/registers.c:18-29 | In every state of every run a trap can come exactly to process code outside every lock; every interrupt and exception can come there, in either mode, but an ecall only in user mode. |
| `KernelRuns.LastReleaseRestoresInterrupts` | src/kernel/hart.c:63-90 | However acquires and releases nest, the last release restores the interrupt state from before the first acquire. |
| `KernelRuns.SlotsFollowLifeCycle` | src/kernel/process/lifecycle.c:24-88 | A slot only goes UNUSED, READY, RUNNING, then RUNNABLE and RUNNING in turn, and from RUNNING to UNUSED; the entry address is used as a start pc exactly once per creation. |
| `KernelRuns.IdIsIndex` | src/kernel/process/lifecycle.c:110-112 | The id of a slot in use is its index, except exactly while a hart stands between the two stores of Process_destroy_current; then it is 255. |
| `KernelRuns.ContextIsPreserved` | src/kernel/process/switch.c:66-191 | Over whole runs and any interleaving: a process that trapped on one hart is next entered, on whichever hart, with ra, sp, a1 and the 27 other registers of the trap; with its a0 too, except that the putchar call (0xAA) returns the low 32 bits of a1, sign-extended; at the old pc if it is a kernel process and 4 bytes further if it is a user process; under its own page table, in its own mode, with traps on. |
| `KernelRuns.FirstEntry` | src/kernel/process/switch.c:130-147 | A created process starts at its entry address with the stack pointer it was created with, ProcessExit_kernel or ProcessExit_user as return address by its kind, all other registers 0, under its own page table, in its own mode, with traps on. |
| `KernelRuns.PcIsRightExactlyFor` | src/kernel/process/switch.c:71-74 | Over whole runs: a process that traps is entered next at the pc that the architecture wants if and only if it is a kernel process or made an ecall; a user process loses an instruction at each timer or external interrupt. |
| `KernelFate.TrapEndsProcessExactlyIf` | src/kernel/trap/handler.c:38-127 | Over whole runs and any interleaving: after a trap a process leaves RUNNING as UNUSED if and only if it is a user process and the trap is an exception other than an ecall, a software interrupt, or an ecall with number 0x0F; otherwise as RUNNABLE; and a process in kernel mode never leaves RUNNING after an exception. |
| `KernelFate.TrapPanicsExactlyIf` | src/kernel/trap/handler.c:38-127 | When a hart leaves handle_trap, it has panicked if and only if the trap was an exception in kernel mode, destroys the process in the cases above, and switches to another one in all others. |
| `KernelProgress.AcquiredInOrder` | src/kernel/trap/handler.c:55-129 | A hart that holds one lock waits only for locks that come later in the order trap_print_lock, processes_lock, io_spinlock. |
| `KernelProgress.NoWaitCycle` | src/kernel/lock.c:16-47 | No reachable state has a cycle of harts waiting for each other, of any length; a chain of waiting harts has at most three links. |
| `KernelProgress.SomeHolderIsFree` | src/kernel/lock.c:16-47 | Behind every waiting hart there is a lock holder that waits for no lock and can take its next step, unless it has panicked. |
| `KernelProgress.ChoicesAreBounded` | src/kernel/process/switch.c:33-49 | While a process waits, each choice a hart makes, and nothing else it does, brings the search strictly closer to that process. |
| `KernelProgress.BoundedWaiting` | src/kernel/process/switch.c:90-125 | A hart that does not destroy its process makes fewer other choices than there are slots from its own process to a waiting one, so a process that stays READY or RUNNABLE is chosen within PROCESSES_MAXIMUM - 1 switches, whatever other harts do. |
| `KernelRevival.SearchCanEndExactlyIf` | src/kernel/process/switch.c:104-125 | In every state of every run in which a hart looks for a process, in a trap or not: some interleaving leads to a process being entered if and only if one is being entered already, or `processes_lock` is not lost and a process waits, or the process of some hart runs or has trapped and its trap has or can get `trap_print_lock`, or kernel code outside traps can create one in a slot that is unused or can be freed by another hart. |
| `KernelStarvation.HopelessSearchNeverEnds` | src/kernel/trap/handler.c:55-129 | Without that hope no process is ever entered again, and there is never hope again, whatever the harts and processes do. |
| `KernelLostLock.LostLockStopsEverything` | src/kernel/process/lifecycle.c:24-35 | Once a hart has panicked, or must panic, in Process_create with `processes_lock` held, no process is ever entered again that is not being entered then. |
| `KernelRevival.LockIsLostExactlyIf` | src/kernel/process/lifecycle.c:24-35 | In every state of every run some interleaving frees `processes_lock` if and only if no hart has panicked, or must panic, in Process_create; and some interleaving frees it or enters a process if and only if that is so or a process is being entered already. |
| `KernelWitness.LockGetsLost` | src/kernel/process/lifecycle.c:24-35 | From every start and for every hart a run leads to that panic: 32 processes are created and one more is asked for. |
| `KernelWitness.InstructionIsLost` | src/kernel/process/switch.c:71-74 | From every start and for every hart there is a run in which a user process, interrupted by the timer, is entered again 4 bytes behind the instruction that it was interrupted at. |
| `KernelWitness.ExitLeavesNoHope` | src/kernel/syscall.c:26-31 | From every start with one hart, a run leads to a search without hope: create one user process, enter it, let it exit. |
| `KernelWitness.PointersCanBeEqual` | src/kernel/process/switch.c:90-95 | From every start with two harts, a run leads to equal `current_process` pointers. |
| `ProcessSearch.FindNext` | src/kernel/process/switch.c:28-49 | The loop finds the first slot from the start on, going round, that is READY or RUNNABLE, and NULL only if none is. |
| `ProcessSearch.GoesRound` | src/kernel/process/switch.c:28-30 | Counting with Pid_next from any slot reaches every slot within PROCESSES_MAXIMUM steps. |
| `TrapRoutines.Hart.TrapVector` | src/kernel/trap/routines.c:21-121 | trap_vector saves all 31 registers as they were before the trap, sp by way of sscratch, and the pc; keeps the satp word of the frame; and leaves sscratch, satp and the stack pointer as the handler expects them. |
| `TrapRoutines.Hart.RestoreAfterTrap` | src/kernel/trap/routines.c:125-193 | restore_after_trap loads all 31 registers and satp from the frame, although it overwrites the frame pointer a0 and scratch register t0 on the way, and continues at sepc. |
| `TrapRoutines.Hart.TrapAndReturn` | src/kernel/trap/routines.c:21-193 | Saving and restoring cancel out: no register, satp or sscratch changes, and execution goes on at sepc. |
| `PageTableForest.LeafChangesOnePage` | src/kernel/virtual_memory/page_table.c:153-159 | In a forest of page tables, writing one leaf entry changes the flat map of one table at one page and nothing else. |
| `PageTableForest.LinkKeepsMap` | src/kernel/virtual_memory/page_table.c:110-148 | Linking a fresh zeroed table into an unused entry keeps the forest and changes no flat map. |
| `PageTableMemory.Memory.PageAlloc` | src/kernel/virtual_memory/page.c:12-29 | Pages are handed out once each, zeroed, in pool order, until the pool is used up; no table changes by it. |
| `PageTableMemory.Memory.MapAddress` | src/kernel/virtual_memory/page_table.c:81-160 | Refines a flat-map update over all tables: it succeeds if and only if both addresses are aligned and the pool has the missing tables; then this page has an entry that is valid and readable, has each other flag as asked for, and leads to the given address; every other page of every table is as before, and exactly the missing tables were allocated. |
| `PageTableMemory.Memory.MapSection` | src/kernel/virtual_memory/page_table.c:242-254 | Maps page k of the section for every k with start + k * 4096 <= end and nothing else; new tables are bounded per level by the spans entered; cannot fail when aligned and the pool has room. |
| `PageTableMemory.ProgressBound` | src/kernel/virtual_memory/page_table.c:110-148 | Mapping n >= 1 consecutive pages allocates at most ceil(n/512) + 1 tables of level 0, at most ceil(n/512^2) + 1 of level 1, and no other pages. |
| `PageTableMemory.Memory.UserInit` | src/kernel/virtual_memory/page_table.c:320-349 | The flat map of a user table is exactly what its three sections give, no other table changes, and it succeeds when everything is aligned and the pool has room. |
| `PageTableUser.UserTableIsUnion` | src/kernel/virtual_memory/page_table.c:320-349 | When the program overlaps neither special section, the table is the union of three maps: program pages at base + k * 4096 with the user bit, both special sections (which may overlap each other) mapped to themselves without it. |
| `PageTableUser.UserPermissions` | src/kernel/virtual_memory/page_table.c:320-349 | By section 4.3 of the RISC-V Privileged Architecture: on the pages of its program user code may read, write and execute, and the kernel read and write while SUM is set; on the pages of the special sections user code may do nothing and the kernel all three. |
| `PageTableUser.ProgramBelowIsSeparate` | src/kernel/kernel.lds:12-61 | Programs that lie below both special sections, as the layout of the kernel has it, overlap neither. |
| `PageTableUser.AdjacentSpecialsOverlap` | src/kernel/kernel.lds:52-57 | Where one special section ends the other starts, so the surplus page of the one is the first of the other. |
| `PageTableUser.ProgramIsReachable` | src/kernel/virtual_memory/page_table.c:320-349 | On such a table the hardware translates every byte of the program to the same byte of its memory. |
| `PageTableUser.ProgramsAreIsolatedExactlyIf` | src/kernel/virtual_memory/page_table.c:242-254 | A user table opens no page of another program to user code if and only if the other program does not start where this one ends. |
| `PageTableUser.PoolIsIsolatedExactlyIf` | src/kernel/kernel.lds:64-77 | A user table opens a page of the page pool to user code if and only if the pool starts where the program ends, and then it is the first page of the pool alone. |
| `PageTableSections.LoopEndsExactlyIf` | src/kernel/virtual_memory/page_table.c:242-254 | The loop over the pages of a section comes to an address beyond the end, as a wrapping word, if and only if the end is not in the last page of the address space or its offset in that page is below that of the start. |
| `PageTableSections.OnePageTooMany` | src/kernel/virtual_memory/page_table.c:242-254 | Because the end is inclusive, one page more than the section covers is mapped if and only if its size is a whole number of pages. |
| `PageTableSections.SectionMapsEachPage` | src/kernel/virtual_memory/page_table.c:242-254 | As long as a section is not larger than the address space no page of it replaces another. |
| `PageTableMemory.Memory.GetPhysicalAddress` | src/kernel/virtual_memory/page_table.c:353-382 | Returns the frame of the last entry with the page offset, or panics exactly when an inner table is missing. |
| `PageTableHardware.HardwareSeesTheMap` | src/kernel/virtual_memory/page_table.c:30-43 | The translation algorithm of section 4.3.2 of the RISC-V Privileged Architecture (20211203) translates a canonical address if and only if its page is in the flat map, always from a leaf of level 0, and to what PageTable_get_physical_address returns. |
| `PageTableHardware.PhysicalAgreesWithHardware` | src/kernel/virtual_memory/page_table.c:353-382 | For every 64-bit address, PageTable_get_physical_address agrees with the hardware if and only if the level-0 table is missing, or the page is mapped and the address is canonical. |
| `PageTableMemory.Memory.PrintPageAddresses` | src/kernel/virtual_memory/page_table.c:213-240 | Below a table of any level the dump lists the mapped pages, each once, in ascending order, with the addresses rebuilt from the entry numbers. |
| `PageTableMemory.Memory.PrintTable` | src/kernel/virtual_memory/page_table.c:213-240 | The dump of a whole table lists a pair if and only if the flat map has it, in ascending order. |
| `PageTableForest.HigherDigitDecides` | src/kernel/virtual_memory/virtual_address.c:20-52 | The order of virtual addresses is that of their entry numbers, the highest level first. |
| `PageTableForest.AddressOfPage` | src/kernel/virtual_memory/virtual_address.c:20-52 | Setting the entry numbers of all levels gives an address, aligned to a page, that has exactly these entry numbers. |
| `Numerals.PlaceStep` | src/libc/stdio.c:160-178 | What the place-by-place loops with suppressed leading zeros have produced after each place is the numeral of the part of the number read so far. |
| `Numerals.DecimalPlace` | src/libc/stdio.c:219-241 | One turn of the divisor loop over decimal places: the digit is below 10, and what is left and what is produced fit again. |
| `Numerals.NoLeadingZero` | src/libc/stdio.c:140-241 | A rendered number does not start with 0 unless it is 0. |
| `Numerals.NumberOfDigits` | src/libc/stdlib.c:44-57 | Reading the digits of a number gives the number. |
| `Numerals.DigitsDenote` | src/libc/stdio.c:140-241 | In every base up to 16 the digits of a number denote it, the letters from a on standing for ten and more. |
| `Printf.PrintState.PutcharMaybeMax` | src/libc/stdio.c:106-115 | A character is counted always, and reaches the target exactly while fewer than maximum - 1 were counted before. |
| `Printf.PrintState.PutcharMaybeMinWidth` | src/libc/stdio.c:117-124 | While a width is set a character is only counted. |
| `Printf.PrintState.PrintHex` | src/libc/stdio.c:140-178 | Puts the hexadecimal numeral of the argument, 32 or 64 bits wide, with 0x if the alternative form is asked for. |
| `Printf.PrintState.PrintBinary` | src/libc/stdio.c:180-217 | The same in binary. |
| `Printf.PrintState.PrintUnsigned` | src/libc/stdio.c:219-254 | Puts the decimal numeral of the argument. |
| `Printf.PrintState.PrintSigned` | src/libc/stdio.c:256-272 | Puts the decimal numeral of the signed argument, right even for the minimum, whose negation wraps back to its own magnitude. |
| `Printf.PrintState.MinWidthCall` | src/libc/stdio.c:285-336 | The fake pass emits nothing and leaves no trace in the count, the argument is consumed once, and the result is the body padded on the chosen side. |
| `Printf.PrintState.HandleConversionSpec` | src/libc/stdio.c:338-439 | One character inside a conversion specification does what the specification function says, for every character. |
| `Printf.PrintState.DoPrint` | src/libc/stdio.c:442-503 | The engine, run on any format and arguments, emits and counts exactly the rendering of that format. |
| `PrintfDirectives.RenderIsMeaning` | src/libc/stdio.c:442-503 | Interpreting a format character by character does what its directives mean as a syntax tree (flags in any order, fixed or variable width, conversion), one after the other; the low 32 bits of a number are converted without a length modifier, and all 64 with 1 to 255 of them. |
| `PrintfLaws.LengthOfBody` | src/libc/stdio.c:140-272 | A number takes at most n digits behind its sign or prefix if and only if it is below the n-th power of the base; so never more than 8, 32 or 10 digits with x, b or u and d for 32 bits, and 16, 64 or 20 for 64. |
| `PrintfLaws.FieldIsPadded` | src/libc/stdio.c:285-336 | For widths >= 0 a field is the body with exactly max(0, width - length) pad characters on the chosen side. |
| `PrintfLaws.LimitedIsPrefix` | src/libc/stdio.c:106-115 | What a limited call writes is a prefix of what an unlimited call writes, cut at limit - 1. |
| `PrintfLaws.CountsWhatItPrints` | src/libc/stdio.c:117-124 | The result is the length of the text if and only if no conversion with something to print runs under a negative width. |
| `Stdio.PrintToStream` | src/libc/stdio.c:505-517 | printf sends the rendering in order and returns its count. |
| `Stdio.Sprintf` | src/libc/stdio.c:553-568 | sprintf writes the rendering and a NUL behind the counted characters, and nothing else: directly behind the text if and only if no character was only counted. |
| `Stdio.Snprintf` | src/libc/stdio.c:584-610 | snprintf is exact truncation of sprintf (section 7.21.6.5 of ISO/IEC 9899:2011): full length returned, first min(length, size - 1) characters and NUL in the buffer, other bytes untouched, nothing written for size 0. |
| `Parse.Accumulate` | src/libc/stdlib.c:44-57 | The loop over digits and multipliers from the right yields the number that the digits stand for, wrapped to 64 bits. |
| `Parse.Parse` | src/libc/stdlib.c:9-68 | parse returns the number denoted after any spaces and one sign, wrapped to 64 bits; 0 if there is none. |
| `Parse.Atoi` | src/libc/stdlib.c:70-72 | atoi truncates that number to 32 bits. |
| `Parse.Atoll` | src/libc/stdlib.c:78-80 | atoll returns that number. |
| `Parse.NoOverflowUpTo18Digits` | src/libc/stdlib.c:44-57 | No sum or multiplier overflows 64 bits if and only if there are at most 18 digits. |
| `Parse.ReadsBack` | src/libc/stdlib.c:9-68 | Parsing undoes printing for every integer, with any blanks, newlines and tabs before and anything but a digit behind. |
| `Parse.ReadsBackBehindExactlyFor` | src/libc/stdlib.c:5-26 | Behind a single character that is no sign and no digit a number is read back if and only if that is a blank, a newline or a tab (or the number is 0); otherwise 0 is read. |
| `Parse.AtollReadsBack` | src/libc/stdlib.c:78-80 | atoll of the decimal rendering of any 64-bit integer is that integer. |
| `Parse.ZeroPaddedReadsBackExactlyFor` | src/libc/stdio.c:285-336 | Zeros before a rendered number leave it readable if and only if it is not negative (or there are none). |
| `Parse.ZerosBehindReadBackExactlyFor` | src/libc/stdio.c:285-336 | Zeros behind it multiply it by a power of ten, so it reads back if and only if it is 0 (or there are none). |
| `PrintfRoundTrip.FieldReadsBackExactlyFor` | src/libc/stdio.c:274-336 | A decimal field of any flags and width >= 0 reads back as its number if and only if it is not zero-padded on the wrong side. |
| `PrintfRoundTrip.PrintedReadsBack` | src/libc/stdio.c:77-80 | Through the engine: what %lld or %ld prints is read back as the number for every 64-bit number, and what %d prints if and only if the number has 32 bits. |
| `PrintfRoundTrip.SignedReadsBack` | src/libc/stdio.c:256-272 | What d prints with any number of length modifiers up to 255 is read back as the argument, cut to 32 bits as a signed number if there is none. |
| `PrintfRoundTrip.UnsignedReadsBack` | src/libc/stdio.c:140-254 | What u, x and b print, read as a numeral to base 10, 16 or 2, is the argument modulo 2^32 without a length modifier and the whole argument with 1 to 255 of them. |
| `DirectOutput.PutDirectU32` | src/kernel/io.c:71-97 | put_direct_u32 ends and sends the digits that %u prints; its branch for a digit above 9 cannot be reached. |
| `DirectOutput.PutDirectHex32` | src/kernel/io.c:45-69 | put_direct_hex32 sends what %#x prints. |
| `DeviceTree.Parser.SkipNopTokens` | src/kernel/device/device_tree.c:40-45 | Skips all NOP tokens and no other. |
| `DeviceTree.Parser.ParseNodeName` | src/kernel/device/device_tree.c:47-62 | Returns where the name starts and moves to the next word behind its NUL. |
| `DeviceTree.Parser.PropertyParse` | src/kernel/device/device_tree.c:64-117 | Allocates and fills one property from the pool and moves behind it, or stops before the next other token; a full pool makes it write through NULL. |
| `DeviceTree.Parser.AddProp` | src/kernel/list.c:9-18 | add_linked appends the property at the end of the list of its node and disturbs no other list. |
| `DeviceTree.Parser.AddChild` | src/kernel/list.c:9-18 | The same for a child node. |
| `DeviceTree.Parser.PropertiesParse` | src/kernel/device/device_tree.c:140-146 | All properties of a node end up in its list, in order. |
| `DeviceTree.Parser.ChildrenParse` | src/kernel/device/device_tree.c:148-154 | All children, with all that is inside them, end up in the list of the node, in order. |
| `DeviceTree.Parser.NodeParse` | src/kernel/device/device_tree.c:119-168 | The recursive parser with its pools computes the tree that the pure parser yields, laid out in document order in pool items that it allocates, and fails exactly on an unclosed node or an exhausted pool. |
| `DeviceTreeBlob.ParsesNode` | src/kernel/device/device_tree.c:119-168 | Parsing undoes flattening: from any node flattened to bytes (section 5.4.2 of the Devicetree Specification v0.4: tokens, big-endian numbers, alignment to 4) with NOPs wherever they are allowed, the parser yields that node with its properties and children in order and stops just behind its END_NODE. |
| `DeviceTreeBlob.ParsesTrees` | src/kernel/device/device_tree.c:119-168 | The same for any list of siblings. |
| `DeviceTreeSearch.ParseTree` | src/kernel/device/device_tree.c:170-203 | DeviceTree_parse succeeds if and only if the header is good, the root node is closed, both pools suffice and END follows at once; then the pools hold the tree. On the bytes of any header of section 5.2 with a flattened tree behind it: it succeeds exactly under the condition of the next row, and then yields that tree and the boot CPU of the header. |
| `DeviceTreeSearch.FlattenedTreeIsAccepted` | src/kernel/device/device_tree.c:170-203 | A flattened tree behind a header given as bytes (magic number, block offsets at bytes 8 and 12, version 17 at byte 20 or 24) is accepted if and only if it has at most 255 nodes and 255 properties and END stands directly behind the root, without NOPs between. |
| `DeviceTreeSearch.FindChild` | src/kernel/device/device_tree.c:225-272 | The search returns the first node in document order whose chain of names is the path, and NULL if and only if there is none, for paths of any length; its 8-bit depth never wraps around. |
| `DeviceTreeSearch.FindFromRoot` | src/kernel/device/device_tree.c:274-277 | The same from the root of every tree that was accepted. |
| `Console.Buffer.constructor` | src/kernel/buffer.c:11-19 | A wrapped buffer is empty and its memory cleared. |
| `Console.Buffer.TryPush` | src/kernel/buffer.c:25-34 | Pushes unless the buffer is full. |
| `Console.Buffer.OutputFlush` | src/kernel/buffer.c:43-49 | Sends the contents in order and empties the buffer. |
| `Console.Buffer.OutputHandleNew` | src/kernel/buffer.c:51-65 | A newline flushes and follows, a full buffer flushes first, any other character is kept; the second push cannot fail. |
| `ConsoleRuns.CallsAreAtomic` | src/kernel/io.c:18-34 | In every interleaving of any number of harts, one emitted character at a time, console and buffers are, whenever the lock is free, as if the calls had happened at once in the order of taking the lock. |
| `ConsoleRuns.NothingIsTakenBack` | src/kernel/io.c:18-34 | While a call is under way the console shows a beginning of what the calls so far will have put out. |
| `ConsoleLines.NothingIsLost` | src/kernel/buffer.c:25-65 | For any sequence of calls: what the console got from a buffer followed by what is pending is what was there and what was pushed, in order. |
| `ConsoleLines.NothingIsLostInRuns` | src/kernel/io.c:18-34 | In every run of interleaved calls, whenever the lock is free: until its slot is created anew, what the console got from a buffer followed by what is pending is what was pushed to it, in order. |
| `ConsoleLines.LineIsWholeExactlyIfItFits` | src/kernel/buffer.c:51-65 | A line pushed to an empty buffer stays pending in one piece until its newline if and only if it has at most BUFFER_LEN characters. |
| `ConsoleLines.EmptyExactlyAtLineStart` | src/kernel/buffer.c:51-65 | After any sequence of calls a buffer is empty if and only if the last thing that happened to it was a newline, or that it was wrapped anew, or nothing. |
| `ConsoleLines.LineAppearsInOnePiece` | src/kernel/io.c:18-34 | In every run, every line of at most BUFFER_LEN characters pushed to a buffer, behind a newline or a fresh wrap, appears contiguously on the console, under any interleaving of putchar_buffer calls. |

## Left out

- The kernel state machine is modelled on values, not as classes: its steps interleave, and an invariant of
  all harts and slots together is what it is about. Writes in place appear as the one slot, the locks and
  the hart that a step replaces; aliasing between `current_process` and the process table is an index.
- Page pool, devicetree pools and property lists are sequence-valued fields of a class whose methods
  reassign them; pointers into them are indices.
- Progress under a given schedule: what is characterised is whether some interleaving leads on. Fairness of
  the spinlocks is not assumed, so bounded waiting counts the choices of a hart, not time.
- KernelProgress.BoundedWaiting: counts the choices of one hart; a hart that destroys its process
  starts its search at slot 0 again (`src/kernel/process/switch.c:62`), so nothing is claimed about it.
- Memory fences, TLB flushes, timers, SBI calls and the bit masks in `src/kernel/trap/registers.c`: a
  register bit is a field.
- The external interrupt controller and the UART; `sifive_uart_drain` pushes to the console without
  `io_spinlock`, and the panic on an unknown interrupt is not modelled.
- Boot and hart start-up; the harts begin in kernel_main with traps off.
- The choice between the buffer of the hart and that of its process (`src/kernel/hart.c:44-52`): the buffer
  is a parameter of a console call.
- Kernel stack contents, and the example processes, which write to frames after creation.
- Sv32, superpages, ASIDs, access permissions and the A and D bits; PageTable_kernel_init; the dump of raw
  entries by PageTable_print.
- Deallocation: the kernel never frees a page.
- PageTableMemory.Memory.MapSection: requires that the loop of the code ends; PageTableSections.LoopEndsExactlyIf
  says exactly when. What an endless one does until the page pool is used up is not modelled.
- PageTableMemory.Memory.UserInit: requires the same of its three sections.
- PageTableMemory.Memory.MapAddress: physical page numbers are kept modulo the 44 bits of an entry, and
  the walk reads only tables of the pool.
- DeviceTreeNode_find_property, and printing or dumping a devicetree.
- The variants of the printf family that only forward, such as vprintf and fprintf.
- putchar, getchar, FILE streams, memcpy, memset, strlen and strcmp as subjects of their own.
