# A verified model of the kernel

This project models the two stateful cores of a small RISC-V kernel and proves what they are for.

**Virtual memory.** Physical memory is a map from frame numbers to pages of bytes. `Machine` holds it
together with the stack-style frame allocator; a ghost map says which slot (a page-table node, or one
page of one address space) holds the tracker of each allocated frame. `PageTable` is the three-level
Sv39 tree stored in those frames and refines a finite map from page numbers to entries. `MemorySet`
is a page table with its list of areas. mmap, munmap, sbrk, fork, exec, spawn, exit and waitpid all
work on these objects, byte for byte, with Rust's drop written out as frames going back.

**Processes.** A state machine over tasks, the ready queue, the current slot, parent and child links,
pids and kernel stacks, and the stride scheduler with its fairness bounds.

Both come together in `Kernel`: its invariant says that every allocated frame has exactly one holder,
that the table of every live space agrees with its areas, that every live task has a trap context the next
trap can rely on, that zombies hold page-table nodes only, that pids, tasks and kernel stacks match, and that
free frames and holdings add up to all frames. `Runs.Run` shows it for every state the kernel reaches,
`Runs.TrapEntersKernel` that every trap then enters the kernel, `Runs.Away` that no task ever sees the steps
of another, and `Runs.Lifetime` that a process gives back all it took. `Calls` says, call by call and from the
arguments alone, what each call does to the task table, to the caller's pages and to their bytes, and how it
can end; `Effects` says the same for the task table, field by field. Every step of a run is held to both.

Conventions:

- A kernel panic is an `Outcome`. Invariants are claimed for every step that does not panic, and the
  contracts say which panics can happen when. Three outcomes are no panics: `WildStore`, a store of the kernel
  that leaves the page it was meant for; `TrapStore`, a store of the kernel, on behalf of a task, into what
  the task's next trap relies on; and `Stuck`, a loop without end. The model stops there, and the contracts
  say exactly when that is.
- The kernel stores through its own mapping. A store into a frame below the first managed one is a page fault
  in the kernel, hence a panic (`StoreFault`): those frames are the kernel image, with the trampoline in its
  read-only text, and page 0, which no section maps.
- The kernel is built in release mode: `usize` arithmetic wraps, and every wrap that can matter is
  written out, as are the 39-bit and 44-bit truncations of `VirtAddr::from` and `PhysPageNum::from`.
- An `Arc<TaskControlBlock>` is a task number that is never reused; `Refs` counts the references.
- Space numbers are ghosts: they name owners and do not exist at run time.

Where the code does less than its comments or names suggest, the model follows the code:

- `translate` answers for any page whose interior tables exist, mapped or not. "Mapped" means the valid bit.
- `munmap_area` drops every whole area that contains the range and ignores ranges that span several
  areas; it unmaps exactly the range if and only if some area is the range (`MunmapExactly`). With an empty
  range it drops the areas the address touches (`MunmapUndoesMmap`).
- `waitpid` does not check the pointer it stores the exit code through. At the last three offsets of a page
  the store runs on into the next frame, whoever holds that (`SpillsExactly`, `SpillWitness`); on the trap page
  it can change the words the next trap goes by (`TrapWitness`). `KeepsWorldExactly` says which stores keep
  the invariant. The calls that fill a user buffer can do the same to the trap page (`WriteBuffer`).
- `munmap` takes the trap page like any other, and `sbrk` does where the heap bottom an exec has kept is that
  page. The return to user mode then faults without end (`UnmapUser`, `BreakUser`).
- The loops over user buffers never reach an end at or beyond 2^39 (`NeverDone`): they come to stand on the
  truncated end (`ComesToRest`), unless a page that does not translate stops them with a panic first.
- `copy_data` copies from the first byte of the first page whatever the offset of the segment in it.
- `from_elf` places the stack after the last segment of the table, not after the highest one.
- `exec` keeps `heap_bottom` and `program_brk`; `ExecKeepsHeap` says when sbrk still works afterwards.
- Priorities above 250 have pass 0 and starve exactly the tasks ahead of them (`FetchedExactly`); strides wrap
  (`WrapBreaksShare`).
- New tasks start at stride 0; the fairness bounds are for runs without arrivals.

Verify with `dafny verify dfyconfig.toml`.

## Files

| file | content |
|---|---|
| Address, Frames | addresses, page numbers, bytes and entries of a frame |
| FrameAllocator | physical memory and the frame allocator |
| PageTables, UserAccess | page tables; translation, user buffers, the hardware's walk |
| Areas, Layout, MemorySets | areas, their agreement with the table, address spaces |
| Fork, Loader, MemorySyscalls | copying a space, loading a program, mmap, munmap and sbrk |
| Stride | the scheduler and its fairness |
| Tasks, Lifecycle, TaskTables, Effects | the task machine as values, its runs, as an object, and each step field by field |
| Pids | pids and kernel stacks |
| Isolation, Worlds, Sights | many spaces on one machine; the invariant of the whole kernel; what a task sees |
| Traps, TrapPages | what the kernel stores in user memory: trap contexts and exit codes; what keeps a trap context usable |
| SpaceSteps, TaskSteps, Kernel, Calls, Runs | the system calls of the whole kernel, what each does, boot, and runs |
| KernelStores | which stores of an exit code keep the invariant of the whole kernel |

## Model

| member | source | states |
|---|---|---|
| Runs.Run | src/syscall/process.rs:100-328 | from a booted kernel, any script of calls and traps with any arguments: world i + 1 is what call i makes of world i (`Calls.Went`: its event, its effect on the caller's areas, flags and bytes, as in the rows of `Kernels.Kernel`), every world satisfies the whole-kernel invariant, and the events of the calls, in order, form a run of the task machine (so `ReapedOnce`, `CountsInRun` and `DeadStaysDead` apply); it stops early only at a call that does not return, and that ends exactly as `Calls.Ends` allows |
| Runs.Do | src/syscall/process.rs:100-328 | one call or trap of the running task, or one turn of the idle loop, ends as `Calls.Ends` allows: no call panics without its cause. When it returns, the invariant is kept, the call has had its effect (`Calls.Did`, one clause for every call), and every other live task has its space, its mapping and every byte it sees, the shared trampoline included; a call without a caller changes nothing |
| Runs.Away | src/task/processor.rs:78-106 | isolation over a run: in any stretch of a script in which a live task is not current, each call having its full effect, the task's space, its mapping and all its bytes, trap context and trampoline included, are in every world what they were at the start; the stretch ends when the task is fetched |
| Runs.TrapEntersKernel | src/trap/trap.S:12-54 | in every state of the kernel a trap of any live task enters the kernel: the hardware's walk finds the trap page, and the words there are the token of the kernel's page table, the trap handler and 2^64 - 4096 - 12288 * pid, the top of this task's own kernel stack, both pages of which the kernel space maps; the saved sstatus returns to user mode and takes no interrupt before |
| Runs.TrapContext | src/trap/context.rs:6-19 | the part of that about one space, from the invariant on values |
| Runs.Trampoline | src/mm/memory_set.rs:134-142 | in every state of the kernel the trampoline holds the bytes it had in the kernel image |
| Runs.TrampolineMapped | src/mm/memory_set.rs:327-334 | every live task maps that code at its last page, readable and executable, not writable, and not for the user |
| Runs.Lifetime | src/syscall/process.rs:158-228 | fork, exit of the child and waitpid by the parent, with n and n' fetches and yields in between: this happens exactly if the scheduler, followed from the table at the start, brings the child and then the parent to run; then the parent reaps that child with its pid and code, the call ends as its pointer at the start decides, and when it returns the code lies there; the pid is free again, every space is as before, and free frames plus kernel page-table nodes are what they were; out of frames only below what the copy takes plus 6 |
| Runs.ChildLives | src/syscall/process.rs:158-171 | the first part of that: the child exits exactly if it is current after n turns; until it is reaped it costs its page-table nodes and two stack frames, and one pid |
| TaskSteps.ChildIsFound | src/syscall/process.rs:191-224 | after fork, scheduling, the child's exit and more scheduling, waitpid for its pid finds exactly this child with this code |
| Runs.Boot | src/task/mod.rs:25-59 | INITPROC and `add_initproc` establish the invariant and a start state of the task machine, with the program loaded and its trap context complete (entry point, user stack, kernel token, kernel stack, handler, all other registers 0); for a good ELF layout the only panic is running out of frames, and only below what the program takes plus 6 |
| Runs.NewKernel | src/mm/memory_set.rs:106-204 | mapping the kernel image on an unused machine gives a kernel space with exactly these sections, each mapped at its own pages with its own permission, whose holdings plus the free frames are all frames; out of frames only below the page tables these take; otherwise it panics if and only if a section is reversed or two share a page |
| Runs.OneHolder | src/mm/frame_allocator.rs:87-115 | the tracker of every allocated frame sits in exactly one slot of exactly one space: the page-table node or the page of an area on record, in the kernel space or that of one task in the table |
| Runs.NothingShared | src/mm/memory_set.rs:466-500 | two live tasks map no common frame but the trampoline, and a mapped page is held as that page of that space, never as a page-table node |
| Sights.Unobserved | src/mm/memory_set.rs:371-394 | a step confined to other spaces that leaves the trampoline alone changes neither the space nor the mapping nor one byte of what a task sees |
| Sights.CallerStep | src/syscall/process.rs:100-171 | so a call confined to the caller, a new space and the kernel is seen by no other live task |
| Sights.ReapStep | src/syscall/process.rs:215-224 | the same for reaping a child |
| Sights.SpillsExactly | src/syscall/process.rs:222-222 | the store of an exit code on a mapped page of the caller touches nobody but caller, child and kernel, whatever the code, if and only if it ends within the page or the next frame is free or theirs (`KeepsWorldExactly` is about the invariant) |
| KernelStores.KeepsWorldExactly | src/syscall/process.rs:222-222 | the store at an offset of a mapped page of a live task, the trampoline apart, keeps the invariant of the whole kernel, whatever the code, if and only if: above offset 4092 the next frame is no page-table node of anyone; up to there it misses bytes 256, 257 and 272 to 295 of the trap page |
| KernelStores.SpillWitness | src/syscall/process.rs:222-222 | a kernel with one task that satisfies the invariant, and a code that breaks it when stored at offset 4094 of a page right below the task's root page table |
| KernelStores.TrapWitness | src/syscall/process.rs:222-222 | the same kernel, and a code that breaks the invariant when stored at offset 288 of the trap page, where the address of the trap handler is |
| Runs.ZombieHolds | src/task/task.rs:445-448 | all frames a zombie's space still holds are page-table nodes |
| Runs.FramesComeBack | src/mm/frame_allocator.rs:97-115 | in any two states of the kernel with the same holdings per task and as many pids out, free frames plus kernel page-table nodes are the same |
| Worlds.StepOne | src/task/task.rs:396-409 | a step of one space keeps the global invariant: all other spaces live and unchanged, every frame held once, all frames accounted for |
| Worlds.StepCreate | src/task/task.rs:205-267 | the same for a new task with a new space and a kernel stack |
| Worlds.StepSwap | src/task/task.rs:177-202 | the same for replacing a space and dropping the old one |
| Worlds.StepReap | src/syscall/process.rs:215-224 | the same for removing a task with its space and kernel stack |
| Worlds.FirstWorld | src/task/task.rs:115-174 | the invariant at boot, from one live space with a usable trap context |
| Worlds.FreshId | src/mm/memory_set.rs:75-80 | no frame is held under a space number not yet given out |
| Worlds.StepStore | src/syscall/process.rs:222-222 | a store that misses all page tables and, on trap pages, what traps rely on keeps the global invariant |
| Kernels.Kernel.Mmap | src/syscall/process.rs:100-135 | invariant kept and only the caller's space touched; refused without effect iff the arguments are bad or a page is mapped, reversed-range panic iff the truncated ends are reversed; else one zero-filled area more, every page of which has V and U, and R, W and X exactly as bits 0, 1 and 2 of the port, and no data page has changed; out of frames only if fewer are free than the range has pages plus missing page tables, and never succeeding then |
| Kernels.Kernel.Munmap | src/syscall/process.rs:137-156 | invariant kept, even when the call panics on a reversed range, and only the caller's space touched; refused without effect iff unaligned or a page is unmapped, reversed-range panic iff the start is aligned and the truncated ends are reversed; else exactly the containing areas go, and no byte of the others changes; no return to the user if and only if the start is aligned and the range, truncated to 39 bits, lies on the trap page |
| Kernels.Kernel.Sbrk | src/syscall/process.rs:231-243 | only the caller's space touched; refused iff the break would fall below the heap or there is no heap area, and then -1 and nothing has changed; else the old break, the break moved by exactly `size`, the mapping changed only between the two ends of the heap area, new pages zero and no byte of the others changed. A move down panics iff the area does not reach that far; a move up iff the area ends beyond, else only if a page on the way is mapped or the frames are fewer than its pages and missing tables, and it succeeds with none of these; while the heap area ends at the break no range assertion fires, and it stays so; panics apart, no return to the user if and only if the heap area is the trap page and the new break gives it up |
| Kernels.Kernel.Fork | src/syscall/process.rs:158-171 | the child inherits breaks and priority, starts at stride 0 as a ready child of the caller, and its areas are twins of the caller's with the same bytes, except for two words of the trap context: word 10 (x10) is 0 and word 35 (kernel_sp) its own kernel stack; all spaces but the new one and the kernel's are untouched; the only panic is running out of frames; it costs two stack frames, as many frames as a space with the caller's areas takes, and kernel page tables; 6 frames more than the space takes always suffice |
| Kernels.Kernel.Spawn | src/syscall/process.rs:294-312 | like fork with the program's segments loaded in a new space and its whole trap context set: word 33 is the entry point, word 2 the user stack, words 34, 35 and 36 kernel token, kernel stack and handler, all other registers 0, sstatus without bits 1 and 8; priority 16, both breaks at the stack top; for a good layout the only panic is running out of frames, and only below what the program takes plus 6 |
| Kernels.Kernel.Load | src/task/task.rs:314-320 | the program's space, and for a good layout an empty heap at the stack top |
| Kernels.Kernel.Exec | src/task/task.rs:177-202 | the running task gets a space with the program's segments, stack and heap, and a trap context with the entry point in word 33, the stack in word 2 and the task's own kernel stack in word 35; the old space is dropped entirely; heap bottom and break are not reset; for a good layout it runs out of frames if and only if fewer are free than the program takes, and panics in no other way |
| Kernels.Kernel.Exit | src/task/task.rs:424-456 | the task table follows `Tasks.Exit`, exactly the caller's data frames come back, its page tables stay, and no other space changes |
| Kernels.Kernel.Wait | src/syscall/process.rs:191-228 | answers as `Tasks.WaitPid`; a reaped child's code is stored at the translation of the caller's pointer: a panic exactly if that does not translate, is address 0, lies in a frame below the managed ones (which is to say, the page is unmapped or the trampoline) or runs past the end of memory; else a wild store exactly at page offsets above 4092, a trap store exactly if it meets bytes 256, 257 or 272 to 295 of the trap page, and the four bytes are all that has changed then; in all three cases the bytes at that address, lowest first, are the code modulo 2^32; otherwise the invariant is kept, only that store, the child and the kernel space change, and space, pid and stack go: free frames grow by the child's page-table nodes plus 2 |
| Kernels.Kernel.Collect | src/syscall/process.rs:201-222 | the first half of that, up to the store: the child is out of the table, all spaces are as they were, and the child's space, pid and stack can be dropped |
| Kernels.Kernel.Reap | src/syscall/process.rs:215-224 | dropping the last reference to a reaped child keeps the invariant and returns its pid, its stack and its page tables |
| Kernels.Kernel.YieldNow | src/task/mod.rs:37-54 | invariant kept, task table follows `Tasks.Yield` |
| Kernels.Kernel.Fetch | src/task/processor.rs:78-106 | invariant kept, task table follows `Tasks.Dispatch` |
| Kernels.Kernel.SetPriority | src/syscall/process.rs:315-328 | invariant kept, task table follows `Tasks.SetPrio`; returns -1 below 2, else the priority |
| Kernels.Kernel.UserStore | src/mm/memory_set.rs:371-394 | a store by user code of the running task changes one byte iff the page is writable, and never a frame of another space |
| Kernels.Kernel.WriteBuffer | src/syscall/process.rs:52-98 | a result written through any pointer of the caller: a panic if and only if the sum does not wrap, the buffer does not end at or beyond 2^39, and some byte of it does not translate or leads below the managed frames; a trap store if and only if it writes all its bytes and these meet bytes 256, 257 or 272 to 295 of the trap page; no return if and only if the buffer is not empty and ends at or beyond 2^39; otherwise the invariant is kept and no other space touched; unless it runs on, the bytes written are those before the first byte that stops it, at the translations of ptr + k, and nothing else |
| Kernels.Kernel.SaveContext | src/trap/trap.S:12-39 | a trap, and what the handler stores on its way back (src/trap/mod.rs:51-60): any values for the registers, sstatus and sepc of the running task's context keep the invariant; only these words of the trap page change |
| Kernels.Kernel.Register | src/task/task.rs:216-259 | pid, kernel stack, trap context, control block and ready-queue entry of a new task, whose trap context is then usable; no kernel stack ever wraps or meets a mapped page; the only panic is running out of frames, with fewer than 6 free |
| SpaceSteps.StoreByte | src/mm/page_table.rs:52-74 | a user store goes through exactly on pages whose entry the hardware takes and that have W and U set, into the frame of the hardware's walk, and changes one byte of a frame that only this page of this space holds |
| SpaceSteps.StoreExitCode | src/mm/page_table.rs:332-340 | the bytes at the translation of the pointer, lowest first, become the code modulo 2^32, and no other byte changes, with the outcome exactly as for `Wait`; the frame lies below the managed ones if and only if the page is unmapped or the trampoline; when it ends well it has missed all page tables and all that traps rely on, and stayed in the space |
| SpaceSteps.PointerFrame | src/mm/page_table.rs:166-198 | an address of a live space leads to the frame of its page, to the trampoline, or, in a hole of a leaf table, to frame 0 |
| SpaceSteps.LiveOffTables | src/mm/page_table.rs:257-292 | the kernel's writes through user pointers never hit a page table of the space |
| SpaceSteps.WriteUser | src/mm/page_table.rs:257-292 | `translated_and_write_bytes` on a live space, confined to its data frames, with the outcome exactly as for `WriteBuffer` |
| SpaceSteps.WriteTrap | src/task/task.rs:371-373 | the stores into a trap context change the trap page of that space and no other byte; null pointer panic exactly if it is unmapped |
| Traps.TrapPageWord | src/trap/context.rs:6-50 | each word of the page after the stores into it is the new one if there is one and the old one otherwise |
| Traps.TrapPageStored | src/trap/context.rs:21-50 | by word number and argument: fork's stores make word 10 zero and word 35 the kernel stack and change no other; `app_init_context` puts sp in word 2, entry in 33, satp, kernel_sp and handler in 34 to 36, status without bits 1 and 8 in 32, zero in the others below 32, and changes none from 37 on; a trap saves word k of the registers for 1 to 3, 5 to 31 and 33, sstatus without those bits, and nothing else |
| Traps.TrapPageSound | src/trap/context.rs:28-50 | after each of these stores the context is one the next trap can use: fork's on a usable one, a start with the kernel's token and handler, a save on a usable one |
| Traps.GuardKeeps | src/trap/trap.S:41-54 | a page with the same bytes 256, 257 and 272 to 295 is as usable |
| TrapPages.MmapKeepsTrap | src/syscall/process.rs:100-135 | mmap keeps the trap page and its entry |
| TrapPages.MunmapKeepsTrap | src/mm/memory_set.rs:342-354 | munmap keeps it if and only if the range does not lie on it |
| TrapPages.BreakKeepsTrap | src/task/task.rs:275-304 | sbrk keeps it if and only if the heap area is not the trap page or the new break does not give it up |
| TrapPages.UnmapUser | src/syscall/process.rs:137-156 | munmap on a space with a usable trap context: usable afterwards, or the return to the user never ends, if and only if the range lies on the trap page |
| TrapPages.BreakUser | src/task/task.rs:275-304 | the same for sbrk |
| TrapPages.CanReturn | src/trap/trap.S:55-84 | `__restore` finds a context if and only if the trap page is mapped |
| TrapPages.StartedReady | src/mm/memory_set.rs:288-297 | a program just loaded and started has its trap page mapped for the kernel alone, with a usable context |
| TrapPages.ForkTrappable | src/task/task.rs:205-264 | the copy of a space with a usable trap context has one, once fork has set the kernel stack |
| Traps.StoredByte | src/syscall/process.rs:222-222 | byte k at the address of the store is byte k of the code |
| Traps.CodeStored | src/syscall/process.rs:222-222 | the little-endian value of the four bytes at the address is the code modulo 2^32, and no other byte of memory has changed |
| Traps.StoreConfinedExactly | src/syscall/process.rs:222-222 | a four-byte store stays within given spaces, whatever the value, if and only if they hold every allocated frame it touches |
| SpaceSteps.Reload | src/task/task.rs:177-191 | load first, then drop: afterwards nobody holds a frame under the old number, and free frames plus holdings balance |
| SpaceSteps.Restart | src/task/task.rs:177-202 | exec as a whole on one space: the new one starts the program, the old one is gone |
| SpaceSteps.GiveStack | src/task/pid.rs:29-36 | a pid that no task has, and its stack mapped, beside any other live space |
| SpaceSteps.Equip | src/task/task.rs:216-264 | pid, stack and trap context of a new space, and nothing else of it changes |
| SpaceSteps.Bury | src/syscall/process.rs:215-224 | dropping what a zombie left returns its pid, its two stack pages and all its page-table nodes |
| SpaceSteps.ProgramKept | src/task/task.rs:164-171 | after the stores into the trap context the program's bytes are still there and the context starts it at its entry point on its stack |
| SpaceSteps.Rebreak | src/task/task.rs:275-304 | the break on a live user space, confined to that space, with the heap invariant kept |
| SpaceSteps.CopyKept | src/task/task.rs:260-264 | after the stores into the trap context the child's other bytes are still the parent's, x10 is 0 and kernel_sp its own |
| Isolation.NoSharedFrame | src/mm/frame_allocator.rs:32-45 | pages of different spaces lie in different frames |
| Isolation.ConfinedOther | src/mm/memory_set.rs:466-500 | a space outside the touched ones keeps its tables, its mapping and its frames |
| Lifecycle.RunKeeps | src/task/processor.rs:78-106 | in every reachable state each task is in the ready queue, in the current slot or in neither, as its status says; child lists and parent links agree; pids are distinct; priorities are at least 2 |
| Lifecycle.CountsInRun | src/syscall/process.rs:215-218 | the exact strong count of every task in every reachable state: 2 while ready or running, 1 as a zombie, 0 once reaped |
| Lifecycle.ReapedOnce | src/syscall/process.rs:211-223 | a reaped task had exited before with the code handed out, and no task is reaped at two steps of a run |
| Lifecycle.DeadStaysDead | src/task/task.rs:424-456 | an exited task is a zombie with that code until it is reaped; it never runs or exits again |
| Lifecycle.TurnsAreRounds | src/task/processor.rs:78-106 | k fetch-and-yield turns of the machine are k rounds of the scheduler, so its fairness theorems apply |
| Lifecycle.FairTurns | src/task/task.rs:307-311 | ready tasks that start level and take turns: after k turns n_a * (250 / prio_a) and n_b * (250 / prio_b) differ by at most the larger quotient, at most 125, for any k before a stride can wrap |
| Lifecycle.TurnsAddUp | src/task/processor.rs:78-106 | every turn serves exactly one task: after k turns the services of all ready tasks add up to k |
| Lifecycle.ServedInTime | src/task/manager.rs:26-44 | no starvation: with priorities 2..250 and strides within 125, a ready task among N is made current within 126 * (N - 1) + 1 turns |
| Lifecycle.ServedExactly | src/task/manager.rs:26-44 | a ready task that shares turns with the others runs some time if and only if no ready task with a smaller stride has a priority above 250 |
| Tasks.WaitAnswers | src/syscall/process.rs:201-227 | -1 iff no child matches, -2 iff some match and none is a zombie, else one matching zombie goes with its pid and code, and nothing else leaves the table |
| Tasks.StrongCount | src/task/task.rs:257-266 | references to every task in a good state: one from the tree, one more while ready or running, none outside the table |
| Tasks.ReapedIsUnreferenced | src/syscall/process.rs:215-218 | `assert_eq!(Arc::strong_count(&child), 1)` cannot fail |
| Tasks.TreeIsRooted | src/task/task.rs:41-45 | following parent links from any task ends at init |
| Tasks.ExitKeeps | src/task/task.rs:424-446 | reparenting to init keeps placement, tree and pids |
| Tasks.WaitKeeps | src/syscall/process.rs:201-227 | reaping keeps placement, tree and pids |
| Tasks.BirthKeeps | src/task/task.rs:231-266 | a new child keeps placement, tree and pids |
| Tasks.DispatchKeeps | src/task/manager.rs:26-44 | fetching keeps placement, tree and pids |
| Tasks.YieldKeeps | src/task/mod.rs:37-54 | yielding keeps placement, tree and pids |
| Effects.StepHappens | src/task/task.rs:205-267 | every step of the task machine does what its event says, field by field for the tasks it touches, and leaves every other task, the queue and the current slot as said |
| Effects.DispatchDoes | src/task/manager.rs:26-44 | a fetch takes the first entry of least stride out of the queue, advances its stride by 250 / prio modulo 2^64 and makes it current; its other fields, breaks and priority included, and all other tasks stay; with every stride at usize::MAX nothing happens |
| Effects.YieldDoes | src/task/mod.rs:37-54 | a yield makes the task ready at the end of the queue and changes no other field |
| Effects.BirthDoes | src/task/task.rs:231-259 | a new task has just the pid, breaks and priority given, stride 0, no children, the caller as parent, and is last in the queue and in the caller's list |
| Effects.ExitDoes | src/task/task.rs:424-446 | the caller is a zombie with the code and no children; these have init as parent and are last in its list, in order; nothing else changes |
| Effects.WaitDoes | src/syscall/process.rs:191-228 | -1 without a matching child, -2 while none has exited, else the first matching zombie in the list goes, with its pid and code, and nothing else changes |
| Effects.UpdateDoes | src/syscall/process.rs:315-328 | set_prio below 2 does nothing; else it sets the caller's priority to the argument, and sbrk its break, and no other field of any task |
| TaskTables.TaskTable.RunNext | src/task/manager.rs:26-44 | the loop over the queue takes the first task of least stride, advances it and makes it current |
| TaskTables.TaskTable.Suspend | src/task/mod.rs:37-54 | one `Yield` step |
| TaskTables.TaskTable.AddChild | src/task/task.rs:231-259 | one `Birth` step |
| TaskTables.TaskTable.ExitCurrent | src/task/task.rs:424-446 | the reparenting loop is one `Exit` step: all children move to the end of init's list, in order |
| TaskTables.TaskTable.Wait | src/syscall/process.rs:191-228 | the `any` and `find` loops are one `WaitPid` step |
| TaskTables.TaskTable.SetPriority | src/syscall/process.rs:315-328 | -1 and no change for priorities below 2 |
| TaskTables.AnyMatch | src/syscall/process.rs:202-205 | true iff some child matches |
| TaskTables.FindZombie | src/syscall/process.rs:211-213 | the first matching zombie child |
| Stride.Scan | src/task/manager.rs:26-44 | the loop finds the first entry of least stride; an entry at usize::MAX never wins |
| Stride.Pick | src/task/manager.rs:26-44 | least stride, first among equals, none iff all are at usize::MAX |
| Stride.ProportionalShare | src/task/task.rs:307-311 | tasks starting level with priorities of at least 2: after any k rounds n_a * (250 / prio_a) and n_b * (250 / prio_b) differ by at most the larger quotient, hence 125 |
| Stride.PassExact | src/task/task.rs:307-311 | the pass of a priority is 250 / prio rounded down: pass * prio <= 250 < (pass + 1) * prio |
| Stride.RoundsKeepSpread | src/task/manager.rs:26-44 | strides stay within 125 of each other for as long as none can wrap |
| Stride.WrapBreaksShare | src/task/task.rs:307-311 | while no stride is ahead of another by more than its own pass, one more fetch keeps it so if and only if the fetched stride does not wrap |
| Stride.WrapWitness | src/task/task.rs:307-311 | two tasks of priority 2 just below usize::MAX, whose strides part at the next fetch |
| Stride.NoStarvation | src/task/manager.rs:26-44 | priorities 2..250 and strides within 125: a ready task among N is fetched within 126 * (N - 1) + 1 rounds |
| Stride.FetchedExactly | src/task/manager.rs:26-44 | starvation exactly: a ready task below the end of the number range is fetched some time if and only if no task behind it has a priority above 250 |
| Stride.FetchedWhenUnblocked | src/task/manager.rs:26-44 | and then within its lag plus its place in the queue plus one rounds, without any bound on the spread |
| Stride.PassZeroStarves | src/task/task.rs:307-311 | the failing half: behind a pass-0 task with a smaller stride a task is never fetched again |
| Pids.PidAllocator.Alloc | src/task/pid.rs:29-36 | a pid that is not out; the counter moves only when every pid below it is out |
| Pids.PidAllocator.Dealloc | src/task/pid.rs:39-48 | the assertions fire exactly for pids that are not out |
| Pids.StackPosition | src/task/pid.rs:72-76 | with wrapping subtraction and 39-bit truncation the stack of a pid is two pages, at page 2^27 - 3 - 3 * pid, and its top is the address 2^64 - 4096 - 12288 * pid |
| Pids.StacksApart | src/task/pid.rs:72-76 | stacks of different pids are apart with at least a page between them |
| Pids.GuardPage | src/task/pid.rs:72-90 | the page above every stack but the first is unmapped in the kernel space |
| Pids.NewStack | src/task/pid.rs:80-90 | maps exactly the two pages of the stack; the only panic is running out of frames |
| Pids.DropStack | src/task/pid.rs:114-122 | removes exactly the two pages of its own stack and creates no page table |
| Pids.CounterBound | src/task/pid.rs:29-36 | twice the counter never exceeds the number of frames, so stacks cannot wrap on a machine of this size |
| Pids.StackWeight | src/task/pid.rs:80-90 | the kernel space holds its boot areas plus two frames per live pid |
| MemorySyscalls.SysMmap | src/syscall/process.rs:100-135 | -1 without effect iff the arguments are bad or a page of the range is mapped; reversed ranges panic exactly when the truncated ends are reversed; the mapped-before assertion cannot fire; out of frames only below pages plus missing page tables, and no success then; on success one zero-filled framed area, every page of which has V and U, and R, W and X exactly as bits 0, 1 and 2 of the port |
| MemorySyscalls.GoodMmap | src/syscall/process.rs:101-109 | the arguments are good exactly for ports 1 to 7 and a page-aligned start |
| MemorySyscalls.PlainRange | src/syscall/process.rs:111-125 | for an aligned start and an end below 2^39 the pages of the range are those that hold the bytes [start, start + len) |
| MemorySyscalls.SysMunmap | src/syscall/process.rs:137-156 | -1 without effect iff the start is unaligned or a page is unmapped; otherwise every area containing the whole range goes and no other |
| MemorySyscalls.CheckMapping | src/mm/memory_set.rs:533-540 | true iff some page of the range is mapped |
| MemorySyscalls.CheckUnmapping | src/mm/memory_set.rs:543-550 | true iff some page of the range is not mapped |
| MemorySyscalls.MunmapUndoesMmap | src/mm/memory_set.rs:342-354 | munmap of the range just mapped restores the area list if and only if the range is non-empty or touches no older area |
| MemorySyscalls.MmapThenMunmap | src/syscall/process.rs:100-156 | for a non-empty range the pair restores areas and mapping, and only page-table nodes stay consumed; out of frames only if mmap is |
| MemorySyscalls.MunmapExactly | src/mm/memory_set.rs:342-354 | a granted munmap of a non-empty range unmaps exactly that range if and only if some area is the range |
| MemorySyscalls.ChangeProgramBrk | src/task/task.rs:275-304 | refused iff below the heap bottom or without a heap area, and then nothing changes; granted calls move the end of the heap area only, and new pages show zeros; each panic with its cause as for `Kernel.Sbrk`; under the heap invariant no range assertion fires and the invariant is kept |
| MemorySyscalls.SbrkAll | src/task/task.rs:275-304 | any sequence of sbrk calls keeps the heap exactly [heap bottom page, ceil(break)) and ends at the break that moves by each size unless it would fall below the heap; without a positive size there is no panic |
| MemorySyscalls.GrowThenShrink | src/mm/memory_set.rs:573-587 | growing by n and shrinking by n restores the abstract mapping |
| MemorySyscalls.FreshHeap | src/mm/memory_set.rs:276-286 | `from_elf` on a good layout establishes the heap invariant with an empty heap |
| MemorySyscalls.MmapKeepsHeap | src/syscall/process.rs:100-135 | mmap keeps the heap invariant |
| MemorySyscalls.MunmapKeepsHeap | src/syscall/process.rs:137-156 | for a non-empty heap munmap keeps it if and only if the range does not lie in the heap area |
| MemorySyscalls.ForkKeepsHeap | src/task/task.rs:205-250 | the child of a fork has it if the parent has |
| MemorySyscalls.ExecKeepsHeap | src/task/task.rs:177-202 | after exec, with the old bounds above the new stack, it holds if and only if both bounds lie on the page of the new stack top |
| Loader.FromElf | src/mm/memory_set.rs:207-303 | segments, guard page, stack, empty heap, trap context, each segment's pages with U and with R, W and X as its own flags; on a good layout it runs out of frames if and only if fewer are free than pages and page tables of these areas, panics in no other way, and the page below the stack stays unmapped; frames taken equal frames held |
| Loader.LoadedByte | src/mm/memory_set.rs:503-525 | for any loaded segment, byte k of its pages is file byte k, or zero past the file size, on a page of the user that may be read, written and executed as the segment's flags say |
| Loader.LoadedAligned | src/mm/memory_set.rs:503-525 | for page-aligned segments that means file byte i at vaddr + i, zeros up to the memory size |
| Loader.GoodWitness | src/mm/memory_set.rs:207-303 | a text segment with a data segment behind it is a good layout |
| Fork.FromExistedUser | src/mm/memory_set.rs:371-394 | panics if and only if fewer frames are free than the pages and page tables of such a space; the clone has twin areas with the same bytes in frames that were free; the parent is unchanged |
| Fork.ForkIsExactCopy | src/mm/memory_set.rs:371-394 | same pages, same flags, same bytes, in frames nobody held before, and no byte of anyone else changed |
| Fork.ForkIsolates | src/mm/memory_set.rs:384-390 | a store through either space right after the copy is invisible through the other (`Runs.Away` says it for whole runs) |
| Fork.CloneArea | src/mm/memory_set.rs:376-391 | one round of the loop: push the twin, copy its pages |
| Fork.CopyArea | src/mm/memory_set.rs:384-390 | the copied pages equal their originals and no other byte changed |
| Fork.NewSpace | src/mm/memory_set.rs:75-80 | a space that maps the trampoline and nothing else, in three frames; panics if and only if fewer are free |
| MemorySets.MemorySet.Push | src/mm/memory_set.rs:83-89 | agreement kept; panics characterised, the lack of frames by the pages and missing page tables of the area; one area more, mapped where nothing was, filled with the data and zeros; data longer than the area never ends well; free frames plus holdings unchanged |
| MemorySets.MemorySet.PushNew | src/mm/memory_set.rs:92-102 | `MapArea::new` and push: reversed ranges panic exactly when the start page lies beyond the end page |
| MemorySets.MemorySet.RemoveAt | src/mm/memory_set.rs:459-463 | exactly the pages of the area leave the mapping |
| MemorySets.MemorySet.MunmapArea | src/mm/memory_set.rs:342-354 | keeps exactly the areas that do not contain the whole range, in order |
| MemorySets.MemorySet.RemoveAreaWithStartVpn | src/mm/memory_set.rs:357-368 | removes the first area starting there, or changes nothing |
| MemorySets.MemorySet.AppendTo | src/mm/memory_set.rs:411-422 | nothing without the area; reversed-range panic iff the new end is below the old one; else only the new pages are added, zero-filled; out of frames only below these and their missing page tables |
| MemorySets.MemorySet.ShrinkTo | src/mm/memory_set.rs:397-408 | nothing without the area; fine iff the new end lies within it, and then only the pages beyond it go |
| MemorySets.MemorySet.RecycleDataPages | src/mm/memory_set.rs:311-313 | all data frames come back, the table and its stale entries stay |
| MemorySets.MemorySet.Drop | src/mm/frame_allocator.rs:111-115 | afterwards nobody holds a frame under the space's number, and free frames are the old budget |
| Layout.PushOk | src/mm/memory_set.rs:83-89 | adding an unmapped area keeps table and areas in agreement |
| Layout.RemoveOk | src/mm/memory_set.rs:357-368 | removing an area's pages keeps the agreement and the trampoline |
| Layout.GrowOk | src/mm/memory_set.rs:582-587 | growing an area into unmapped pages keeps the agreement |
| Layout.ShrinkOk | src/mm/memory_set.rs:573-579 | shrinking an area keeps the agreement |
| Areas.MapOne | src/mm/memory_set.rs:466-487 | one page: a zeroed frame nobody held, one entry more, all other pages as before; out of frames if and only if fewer are free than it needs |
| Areas.MapRange | src/mm/memory_set.rs:449-455 | the loop maps exactly the range, taking one frame a page and one per missing table; out of frames only if that is more than there are |
| Areas.ThreePerPage | src/mm/page_table.rs:103-132 | a page never takes more than three frames |
| Areas.UnmapOne | src/mm/memory_set.rs:491-500 | the frame goes back and exactly one entry leaves |
| Areas.UnmapRange | src/mm/memory_set.rs:459-463 | exactly the range leaves, every frame of it is free again |
| Areas.CopyData | src/mm/memory_set.rs:503-525 | page i of the area shows piece i of the data over what it showed before; data longer than the area ends in a panic, at a page that does not translate or leads below the managed frames, or in a wild store; an empty area may panic |
| Areas.DropData | src/mm/frame_allocator.rs:111-115 | all trackers of an area go back |
| Areas.DropTables | src/mm/page_table.rs:83-88 | all page-table nodes go back, and no double-free check can fire |
| PageTables.PageTable.FindPteCreate | src/mm/page_table.rs:103-132 | the leaf slot of the page; exactly the missing levels are created, without changing any translation, and it panics if and only if fewer frames are free |
| PageTables.PageTable.MapPage | src/mm/page_table.rs:136-142 | adds exactly one entry with the frame and flags|V; mapped-before panic iff already mapped |
| PageTables.PageTable.UnmapPage | src/mm/page_table.rs:147-152 | removes exactly one entry; panics iff it is not mapped |
| PageTables.NewPageTable | src/mm/page_table.rs:93-99 | an empty mapping in one zeroed frame |
| PageTables.WalkFindsLeaf | src/mm/page_table.rs:166-185 | the walk through memory reaches exactly the leaf entries of the tree |
| PageTables.UnmappedIsZero | src/mm/page_table.rs:147-190 | an unmapped page has no leaf table or a zero entry: nothing stale is left behind |
| PageTables.LeafWriteView | src/mm/page_table.rs:141-151 | writing one leaf entry changes the abstract map at that page only |
| PageTables.NewTableKeepsView | src/mm/page_table.rs:123-127 | linking a zeroed table changes no translation |
| PageTables.TreeFrame | src/mm/page_table.rs:103-132 | stores outside the tree's own nodes change no translation |
| UserAccess.FindPte | src/mm/page_table.rs:166-185 | the loop computes the walk |
| UserAccess.FindVpn | src/mm/page_table.rs:201-207 | true iff the page, modulo 2^27, is mapped |
| UserAccess.TokenRoundTrip | src/mm/page_table.rs:155-198 | `from_token(token())` gives the root back for every 44-bit page number |
| UserAccess.HardwareAgrees | src/mm/page_table.rs:166-190 | the Sv39 walk of section 4.3.2 of the RISC-V Privileged Architecture, reading V, R, W and X from bits 0 to 3 and the frame number from bits 10 to 53 of an entry, finds a page iff the kernel maps it with a usable leaf, and then in the same frame |
| UserAccess.TranslatedByteBuffer | src/mm/page_table.rs:222-254 | slices of exactly len bytes, the k-th at the translation of ptr + k; no normal return if and only if the range is not empty and ends at or beyond 2^39; else a panic if and only if some byte of the range does not translate |
| UserAccess.PieceAdvances | src/mm/page_table.rs:228-250 | below 2^39 every piece moves towards the end and not past it; beyond, no piece reaches the end |
| UserAccess.NeverDone | src/mm/page_table.rs:228-250 | with an end at or beyond 2^39 the loop condition holds after any number of rounds |
| UserAccess.ComesToRest | src/mm/page_table.rs:228-250 | and from some round on the loop stands still on the truncated end |
| UserAccess.RunsOnExactly | src/mm/page_table.rs:228-250 | the loop condition holds after any number of rounds if and only if the range is not empty and ends at or beyond 2^39 |
| UserAccess.TranslatedAndWriteBytes | src/mm/page_table.rs:257-292 | the data at the translations of ptr + k, and nothing else; a sum that wraps writes nothing; no normal return as above; else a panic if and only if some byte does not translate or leads below the managed frames, with exactly the bytes before the first such one written |
| UserAccess.WriteThenRead | src/mm/page_table.rs:222-292 | on distinct frames, reading back gives the data, and all other physical bytes are unchanged |
| UserAccess.TranslatedStr | src/mm/page_table.rs:309-329 | returns if and only if there is a NUL-terminated string at ptr, and then that one; never returns if and only if every byte ahead can be read and none is NUL; else a panic at the first byte that does not translate or leads to frame 0 |
| UserAccess.StringIsPrefix | src/mm/page_table.rs:309-329 | over a buffer showing `data` that is `data` up to its first NUL |
| FrameAllocator.Machine.Alloc | src/mm/frame_allocator.rs:32-45 | a frame nobody holds, none iff nothing is free |
| FrameAllocator.Machine.Dealloc | src/mm/frame_allocator.rs:47-54 | in the managed range the check passes exactly for frames that are out |
| FrameAllocator.Machine.FrameAlloc | src/mm/frame_allocator.rs:97-124 | the frame is zeroed and nothing else is written |
| FrameAllocator.Machine.FrameDrop | src/mm/frame_allocator.rs:111-115 | a held tracker never trips the double-free check |
| Frames.PteRoundTrip | src/mm/page_table.rs:40-59 | entry encoding loses nothing for 44-bit page numbers and 8-bit flags |
| Frames.WordAfterSet | src/mm/address.rs:190-199 | writing one entry of a frame's table changes that entry and no other |
| Frames.WordOfZeroPage | src/mm/page_table.rs:103-132 | a zeroed frame is a table without valid entries |
| Address.Indexes | src/mm/address.rs:213-224 | the three nine-bit digits of the page number |
| Address.SameWalk | src/mm/address.rs:213-224 | two page numbers share all indices iff they agree modulo 2^27 |
| Address.PagesCoverBytes | src/mm/address.rs:100-110 | [floor(a), ceil(b)) is the least page range covering the bytes, tight at both ends |

## Left out

- Runs.Run: ends at the first panic, wild store, trap store or endless loop; nothing is claimed about the machine after that but the bytes written. A trap store ends it even where the new value happens to be harmless.
- Runs.Lifetime: other processes only take turns, as their own calls would move frames.
- Lifecycle.RunKeeps: init never exits. In `Runs.Do` an exit of init is the double borrow of its cell that the code runs into.
- Lifecycle.CountsInRun: a task suspended inside a read from the console (src/fs/stdio.rs:22-36) keeps the `Arc` that `sys_read` took, so its count is 3 while it is ready; reads are not part of the model, and such a task cannot be a zombie.
- Tasks.StrongCount: the same.
- Stride.ProportionalShare: bounded to the rounds in which no stride can wrap, for a fixed set of tasks and fixed priorities.
- Stride.FetchedExactly: for strides at least 126 below usize::MAX, for a fixed set of tasks; an entry at usize::MAX never wins.
- Runs.NewKernel: the sections are a list of address ranges; linker symbols and MMIO constants are not part of the model.
- Kernels.Kernel.Fork: that fewer than 6 frames may suffice for the kernel stack, depending on the tables the kernel space has, is not spelled out.
- Kernels.Kernel.Wait: the four bytes are stored one by one; what the hardware makes of a misaligned word is not modelled.
- UserAccess.TranslatedAndWriteBytes: what it writes on a way without end is not modelled; the call stops there.
- ELF parsing: segments come as a list of addresses, sizes, bytes and flags, the entry point as a number.
- Kernels.Kernel.SaveContext: the assembly of trap entry and return is one step with any register values. SPP is clear as after a trap from user mode, SIE as nothing in the kernel sets it; the other bits of sstatus (SUM, MXR, FS and so on) may take any value. The kernel reaches the context through the page table, not through the frame number it keeps beside it; no call that returns moves the trap page.
- Context switches are steps of the machine; assembly, CSR access and `sfence` are not modelled.
- A/D bits and access rights of the hardware's walk, beyond usable entries with W and U for user stores.
- `UPSafeCell` borrows, except for the exit of init: one processor with exclusive state.
- Files, descriptors, drivers (with their frames taken past the trackers), console, timer, task info and syscall counters; of the calls that report these only the write into the caller's buffer is modelled.
- The kernel heap allocator: `Vec`, `BTreeMap` and `Arc` never fail.
