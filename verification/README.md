# A model of the JOS kernel and its memory-based libraries, with proofs

JOS is the teaching kernel of `mit-6.828/lab`.  This project models, in Dafny, what is hard in
it and in the user libraries built on its memory system calls, and proves what they are for.

* **Memory** (`Mmu`, `PageTables`, `AddressSpaces`, `PageSteps`, `Teardown`, `Pmap`, `Paging`,
  `EnvIds`, `EnvRecords`, `Syscalls`, `Mappings`).  `Pmap.Kernel` keeps page records, a linked free list
  and two-level page tables stored in page contents, and models the code of `kern/pmap.c` on
  them; `Syscalls.System` adds environments and the memory and IPC calls, `Paging` what the
  hardware reads in the tables, and `UserMemory` the loads and stores of programs, through both
  levels of entries.  Each method is
  proved against an update of one value, `PageTables.Vm`, whose invariant says that each
  reference count is the number of entries, table slots and environments that refer to the
  page, and what each slot of a directory may hold; its abstraction is a flat map from virtual
  pages to pages for each environment.
  Properties of reachable states are the invariants `Pmap.Kernel.Valid` and
  `Syscalls.System.Good`, which every operation keeps.
* **Copy-on-write fork** (`CowFork`, `CowProof`, `CowRuns`, `CowKernel`, `KernelFork`,
  `ForkCode`): a machine whose steps are the
  system calls and stores of `lib/fork.c`, interleaved between any number of environments,
  against a machine in which fork copies each page.  `CowKernel` and `KernelFork` tie its steps
  and runs to what the calls of `Syscalls` do to the page tables and page contents of the
  kernel; `ForkCode` is the code of `lib/fork.c` on top of these calls.
* **CPUs and scheduling** (`Smp`, `SmpProof`, `SmpRuns`, `Sched`): trap, the big lock, the life
  cycle of environments on any number of CPUs; and the loop of `sched_yield`.
* **Messages** (`Ipc`): the histories of all senders and receivers over whole runs.
* **Pipes** (`PipeRing`, `PipeClose`): the shared ring, load by load; and the end-of-file test.
* **User heap** (`HeapModel`, `Malloc`).
* **File system** (`FsDisk`, `FsFormat`, `FsRead`): the formatter and the reader, as classes over
  one array of blocks.
* **Algorithms** (`Stabs`, `Spawn`, `OpenFiles`, `Numbers`).

State that the source updates in place is updated in place here, by methods with loops.  What
interleaves is a datatype for the state, a datatype for the steps, and a function that applies
one; results about it are lemmas over all sequences of steps.

## What the code does otherwise than it or its comments say

* `duppage`: the child's page is not always taken at the second `sys_page_map`
  (`CowRuns.CopyTime`).  The run of `CowRuns.CopyMayBeOlder` stores to a page between the two
  calls; of a program with one thread only the stack is written there, and the pages of the
  stack that it uses have been written just before.
* `sys_ipc_try_send`: a send that fails in `page_insert` has already woken the receiver.
* `env_destroy` and `sys_env_set_status` break the kernel's invariant on exactly the inputs that
  `SmpProof.DestroyKeeps` and `SmpProof.SetStatusKeeps` exclude.
* `devpipe_write` returns 0 when it finds the readers gone, also after it has stored bytes
  (`PipeRing.ReportsWhatItStores`, `PipeRing.GivingUpHidesBytes`); the positions of a pipe
  overflow after 2^31 bytes.
* `malloc` can step past its arena's end from the last page: then every request that
  takes a page with its count fails, until a shorter one comes; that gets a page below the
  arena, on which `free` panics, or address 0, which is also how failure is reported.  Requests within three bytes of
  2^32 are rounded to 0.  A request of a multiple of the page size leaves one reference that is
  never dropped, and with it the page (`HeapModel.PageMultiplesStrand`).
* `fsformat` with no files gives the root directory a block that it does not allocate.
* `stab_binsearch` leaves a non-empty region when all entries of the type lie above the address,
  and can find a wrong entry when entries at the address and at the next both occur
  (`Stabs.StabBinsearch` says when).
* `init_stack`'s size check wraps for more than four megabytes of arguments (`Spawn.CheckIsRight`
  says exactly when it is wrong).
* `openfile_lookup` accepts the initial id of a slot that was never given out; `serve_open`
  takes every id from 2^31 on for an error (`OpenFiles.IdLooksLikeError`).
* `%d` prints the sign before the padding, so that spaces come between sign and digits.

## Model

| member | source | states |
|---|---|---|
| PageSteps.FreeBelowExact | mit-6.828/lab/kern/pmap.c:294-337 | the list page_init builds holds, each once and in descending order, exactly: of the first 160 pages the base memory but pages 0 and 7, and from page 256 on what lies above the kernel and what it allocated at boot |
| PageSteps.InUseIs | mit-6.828/lab/kern/pmap.c:319-337 | the pages kept off the list, by number: page 0, the hole and what base memory lacks, page 7, and what lies above 1 MB below the end of boot memory |
| PageSteps.InitialInv | mit-6.828/lab/kern/pmap.c:294-337 | the memory page_init leaves satisfies the whole invariant: no page is referred to and every count is 0 |
| Pmap.Kernel.PageInit | mit-6.828/lab/kern/pmap.c:294-337 | the loop reaches that state |
| AddressSpaces.TakeFreeKeepsInv | mit-6.828/lab/kern/pmap.c:349-367 | taking the first free page keeps counts exact and the list duplicate-free, and the page belongs to the taker until it is mapped |
| Pmap.Kernel.PageAlloc | mit-6.828/lab/kern/pmap.c:349-367 | fails only when the list is empty; otherwise hands out its first page, unreferenced, cleared if asked |
| AddressSpaces.GiveBackKeepsInv | mit-6.828/lab/kern/pmap.c:370-381 | a page without references goes back to the list and the invariant stays |
| Pmap.Kernel.PageFree | mit-6.828/lab/kern/pmap.c:370-381 | puts the page at the head of the list |
| AddressSpaces.DropRefKeepsInv | mit-6.828/lab/kern/pmap.c:383-387 | one reference fewer keeps counts exact; the page is freed exactly when it was the last one, and then nothing in memory refers to it |
| Pmap.Kernel.PageDecref | mit-6.828/lab/kern/pmap.c:383-387 | drops one reference that its caller has just taken out of the tables |
| AddressSpaces.TableHasOneParent | mit-6.828/lab/kern/pmap.c:412-431 | in every reachable state a page table is in one slot of one directory |
| AddressSpaces.DirectoryHasOneOwner | mit-6.828/lab/kern/env.c:166-202 | in every reachable state no two environments have the same directory |
| AddressSpaces.WriteRefines | mit-6.828/lab/kern/pmap.c:481-503 | a store to one page-table entry changes one virtual page of one address space and no other page of any |
| AddressSpaces.NewTableRefines | mit-6.828/lab/kern/pmap.c:417-427 | hooking in an empty page table changes no address space |
| PageSteps.GrownOk | mit-6.828/lab/kern/pmap.c:417-427 | a page table taken from the free list, counted once and entered with PTE_P, PTE_W and PTE_U keeps every count exact and every user half open to its tables |
| Pmap.Kernel.PgdirWalk | mit-6.828/lab/kern/pmap.c:412-431 | finds or creates the entry for an address, fails only without table and without memory, changes no address space, and leaves directories whose every user entry in use has PTE_U and PTE_W |
| Pmap.Kernel.PageLookup | mit-6.828/lab/kern/pmap.c:514-525 | returns the page and permission of the flat map, or nothing where it has none, and changes nothing |
| PageSteps.RemovedInv | mit-6.828/lab/kern/pmap.c:542-553 | unmapping keeps every count exact and frees the page exactly when this was its last reference |
| PageSteps.RemovedSpaces | mit-6.828/lab/kern/pmap.c:542-553 | unmapping deletes one virtual page from one address space |
| Pmap.Kernel.PageRemove | mit-6.828/lab/kern/pmap.c:542-553 | the code does that, and nothing when the page is not mapped |
| PageSteps.InsertedInv | mit-6.828/lab/kern/pmap.c:481-503 | mapping over whatever was there keeps every count exact |
| PageSteps.InsertedSpaces | mit-6.828/lab/kern/pmap.c:481-503 | mapping sets one virtual page of one address space |
| PageSteps.CountFits | mit-6.828/lab/kern/pmap.c:496 | the 16-bit count stays exact under one more mapping if and only if the page has fewer than 65535 references |
| Mappings.CountIsMappings | mit-6.828/lab/kern/pmap.c:481-503 | between system calls, pp_ref of a user page is the number of virtual pages of environments mapped to it: a table entry in use is one virtual page of one environment and no other |
| Mappings.UnmappedIsNotData | mit-6.828/lab/kern/pmap.c:542-553 | a page that no environment maps any more is not kept as a user page |
| Mmu.LegalPermsAre | mit-6.828/lab/kern/syscall.c:201-204 | the permissions the page calls accept are PTE_U with any of PTE_P, PTE_W and the three bits for programs |
| Pmap.Kernel.PageInsert | mit-6.828/lab/kern/pmap.c:481-503 | the code does that also when the same page is mapped again, and on failure changes nothing; it fails exactly when a page table is needed and no page is free |
| Teardown.SetUpInv | mit-6.828/lab/kern/env.c:166-202 | a new directory, counted once by its environment, keeps every count exact |
| Teardown.SetUpSpaces | mit-6.828/lab/kern/env.c:166-202 | the new address space is empty below UTOP and the others stay as they are |
| Pmap.Kernel.EnvSetupVm | mit-6.828/lab/kern/env.c:166-202 | the code builds that directory: empty below UTOP, itself for reading at UVPT, and kern_pgdir's entries elsewhere, as the invariant asks of every directory |
| Paging.UserAccess | mit-6.828/lab/kern/pmap.c:426 | for every address below UTOP, what the paging unit allows by the U and W bits of both levels, and the page it reaches, are those of the flat map |
| Paging.DirectoryIsVisible | mit-6.828/lab/kern/env.c:198-199 | in every reachable state, from 0xef7bd000 on a program reads exactly its directory, and can write none of it |
| Paging.TablesAreVisible | mit-6.828/lab/kern/env.c:198-199 | in every reachable state, from 0xef400000 on a program reads exactly the entries of its page tables, faults where there is no table, and can write nothing there |
| Paging.KernelIsEverywhere | mit-6.828/lab/kern/env.c:195-196 | in every reachable state all directories have kern_pgdir's entries above UTOP, but for the slot at UVPT |
| Teardown.RemovedShare | mit-6.828/lab/kern/env.c:442-446 | each unmapping in env_free takes as much off a page's count as off the environment's share of it |
| Teardown.UnhookedInv | mit-6.828/lab/kern/env.c:448-450 | giving back an emptied page table keeps counts exact, and it had one reference |
| Teardown.FreeListGains | mit-6.828/lab/kern/env.c:415-462 | if each count fell by the environment's share, the free list grew by exactly the pages that only this environment kept in use |
| Pmap.Kernel.EnvFreeVm | mit-6.828/lab/kern/env.c:430-456 | the two loops and the directory return exactly that share; other address spaces and shared contents are unchanged |
| Syscalls.System.EnvFree | mit-6.828/lab/kern/env.c:415-462 | the slot is free again and first in the list, and memory is conserved as above |
| Syscalls.System.EnvAlloc | mit-6.828/lab/kern/env.c:213-275 | takes the first free slot, gives it the next id and an empty address space, and on either failure leaves everything as it was |
| Syscalls.System.EnvInit | mit-6.828/lab/kern/env.c:118-131 | all slots are free, in order from 0 |
| EnvIds.LiveIds | mit-6.828/lab/kern/env.c:227-230 | every id given out is positive and carries its slot; ids of different slots differ |
| EnvIds.StaleId | mit-6.828/lab/kern/env.c:227-230 | two ids of a slot are equal if and only if a multiple of 2^19-1 allocations lie between them |
| Syscalls.System.LiveIdsDiffer | mit-6.828/lab/kern/env.c:76-109 | live environments have distinct positive ids in every state the system calls reach |
| Syscalls.System.StaleIdRejected | mit-6.828/lab/kern/env.c:76-109 | envid2env accepts an id given out before only if it is still the slot's or has come round after whole periods |
| Syscalls.System.Envid2Env | mit-6.828/lab/kern/env.c:76-109 | returns exactly the slot of a live, permitted id, and the caller for 0 |
| Syscalls.System.StrangersKeep | mit-6.828/lab/kern/env.c:95-105 | with the permission check, an id that passes names the caller or its child; so the memory calls leave the address space of every other environment as it is |
| Syscalls.System.SysPageAlloc | mit-6.828/lab/kern/syscall.c:188-215 | each error exactly when its check fails, and out of memory exactly when the page, or a page table for it, is missing; success maps a zero page and changes no other page's contents; a failed insertion gives the page back |
| Syscalls.System.SysPageMap | mit-6.828/lab/kern/syscall.c:234-270 | each error exactly when its check fails, out of memory exactly when a page table is missing and no page is free; success shares the source's page at the destination and changes no other mapping and no contents |
| Syscalls.SharingGrantsNothing | mit-6.828/lab/kern/syscall.c:264-266 | after a page has been shared by sys_page_map or IPC, no page has a writer that had none before |
| Syscalls.System.SysPageUnmap | mit-6.828/lab/kern/syscall.c:280-294 | deletes one virtual page of one environment; the contents of the pages still mapped stay |
| Syscalls.System.SysIpcTrySend | mit-6.828/lab/kern/syscall.c:335-375 | the errors exactly as the checks say; otherwise the receiver's record and mapping, with the permission field untouched when the mapping failed |
| Syscalls.System.SysIpcRecv | mit-6.828/lab/kern/syscall.c:389-396 | marks the caller as receiving at the given address and blocked, or rejects an unaligned address |
| Syscalls.ReceiveThenSend | mit-6.828/lab/kern/syscall.c:335-399 | the two calls one after the other, for any two environments: a page is mapped at the receiver's own address if and only if both addresses are below UTOP, and the receiver's record has sender, value and permission and is runnable |
| Syscalls.System.SysExofork | mit-6.828/lab/kern/syscall.c:79-97 | a child of the caller with the first free slot, the next id and an empty address space, neither runnable nor receiving; fails exactly without slot or without memory, and then changes nothing |
| Syscalls.System.SysEnvSetStatus | mit-6.828/lab/kern/syscall.c:107-125 | each error exactly when its check fails; otherwise the status and nothing else |
| Syscalls.ForkThenStart | mit-6.828/lab/lib/fork.c:96-123 | sys_exofork and then sys_env_set_status on its result: the caller may start the child, the child is then runnable, and no other environment has changed |
| Syscalls.Boot | mit-6.828/lab/kern/init.c:59-62 | what mem_init and env_init build satisfies the invariant of the system calls, with all environments free |
| Syscalls.FirstEnvironment | mit-6.828/lab/kern/env.c:383-393 | the environment allocated first after boot is the only one, in slot 0, and runnable |
| Syscalls.FirstIsDispatched | mit-6.828/lab/kern/init.c:100-103 | and sched_yield dispatches it |
| UserMemory.UserStore | mit-6.828/lab/lib/fork.c:36 | a store by the running program goes through exactly where both levels of its entries allow it, which is where its flat map is writable for users, and changes one word of that page |
| UserMemory.UserLoad | mit-6.828/lab/lib/fork.c:30 | a load by the running program, at any address and also of the tables at UVPT, goes through exactly where both levels allow it and gives the word there |
| UserMemory.UserCopyPage | mit-6.828/lab/lib/fork.c:36 | memmove of a page, word by word: the destination page holds the source's words, nothing else changes |
| CowRuns.StepKeeps | mit-6.828/lab/lib/fork.c:17-72 | every system call and store of fork, duppage and pgfault, in any order among any environments, keeps the invariant that a private writable page is mapped once outside two windows |
| CowRuns.StepSimulates | mit-6.828/lab/lib/fork.c:17-72 | each such step is a step of the machine in which fork copies |
| CowRuns.QuietStart | mit-6.828/lab/lib/fork.c:91-126 | a state with every private page mapped once satisfies the invariant and agrees with the copying machine |
| CowRuns.ForkIsEagerCopy | mit-6.828/lab/lib/fork.c:91-126 | the main result: after any run each environment reads on each page, and may write, what it would if fork had copied every page not marked PTE_SHARE |
| CowRuns.WritableMappedOnce | mit-6.828/lab/lib/fork.c:36-42 | outside duppage's two calls and pgfault's last two, a private page mapped writable has no other mapping |
| CowRuns.StoreIsPrivate | mit-6.828/lab/lib/fork.c:17-43 | no other environment sees a store to a page that is not marked shared |
| CowRuns.CopyTime | mit-6.828/lab/lib/fork.c:64-72 | whatever happens between duppage's two calls, the child starts from the page as it was at the second call if the parent could write it at the first, and as it was at the first otherwise |
| CowRuns.CopyIsCurrent | mit-6.828/lab/lib/fork.c:64-72 | if the parent takes no fault on the page between the calls, that is what the parent holds at the second |
| CowRuns.CopyMayBeOlder | mit-6.828/lab/lib/fork.c:64-72 | an interleaving of the machine in which it does take one, and the child starts from older contents than the parent's at the second call |
| CowRuns.ForkCopiesEveryPage | mit-6.828/lab/lib/fork.c:107-123 | when fork returns, parent and child have the same pages, equally writable and shared, and the child an exception stack of zeros in the last page below UTOP |
| CowKernel.DupPermBits | mit-6.828/lab/lib/fork.c:60-65 | the permission duppage computes has the bits of the machine's step, passes sys_page_map's check, and asks for writing only where the parent may write |
| CowKernel.FaultAllocIsStep | mit-6.828/lab/lib/fork.c:34-35 | what sys_page_alloc does to the kernel's tables and pages is the machine's step, and the page it takes is one nobody maps |
| CowKernel.RemapIsStep | mit-6.828/lab/lib/fork.c:37-39 | likewise pgfault's sys_page_map |
| CowKernel.UnmapIsStep | mit-6.828/lab/lib/fork.c:40-41 | likewise its sys_page_unmap, also when it frees the page |
| CowKernel.MapChildIsStep | mit-6.828/lab/lib/fork.c:66-67 | likewise duppage's first sys_page_map |
| CowKernel.MapSelfIsStep | mit-6.828/lab/lib/fork.c:68-70 | likewise its second |
| CowKernel.ForkEndIsStep | mit-6.828/lab/lib/fork.c:117-119 | likewise the exception stack of the child |
| KernelFork.StoreIsStep | mit-6.828/lab/lib/fork.c:36 | likewise a program's store |
| KernelFork.CopyIsStep | mit-6.828/lab/lib/fork.c:36 | likewise pgfault's memmove |
| KernelFork.StepShows | mit-6.828/lab/lib/fork.c:17-126 | each step of the machine, done by the kernel's calls and stores as their contracts say, leaves the kernel's tables and pages as the machine's |
| KernelFork.RunShows | mit-6.828/lab/lib/fork.c:17-126 | every run of the kernel in which programs follow lib/fork.c, in any interleaving, is a run of the machine |
| KernelFork.KernelForkIsEagerCopy | mit-6.828/lab/lib/fork.c:91-126 | all layers together: after any such run the page an environment has mapped in the kernel's two-level tables holds what it would if every fork had copied, and is as writable |
| ForkCode.Uvpt | mit-6.828/lab/lib/fork.c:30 | the load of uvpt[v] gives the entry of virtual page v, and faults where there is no table |
| ForkCode.IsUserPage | mit-6.828/lab/lib/fork.c:110-111 | the test on uvpd and uvpt that fork makes is true exactly for pages mapped for users |
| ForkCode.PgFault | mit-6.828/lab/lib/fork.c:16-42 | the handler's calls in order take the machine's four steps; it panics exactly on a read, a page that is not copy-on-write, or lack of memory |
| ForkCode.DupPage | mit-6.828/lab/lib/fork.c:55-72 | maps the page in the child, and again in the parent if it is to be copy-on-write, with the permission computed from uvpt; panics only without memory |
| ForkCode.DupAll | mit-6.828/lab/lib/fork.c:107-115 | after the loop the child has every page of the parent's but the exception stack, on the same physical pages |
| ForkCode.DuppedCount | mit-6.828/lab/lib/fork.c:107-115 | and no page has more than twice the references it had, so that 16 bits suffice for pages mapped 32766 times at most |
| ForkCode.Fork | mit-6.828/lab/lib/fork.c:90-126 | the whole function, uninterrupted: parent and child share every page with the right permissions, the child's exception stack is a page of zeros, all contents and all other environments are as before, and the calls are a run of the machine |
| ForkCode.AllForked | mit-6.828/lab/lib/fork.c:107-119 | what its three parts do adds up to that |
| SmpProof.StepKeeps | mit-6.828/lab/kern/trap.c:287-343 | a step of any CPU keeps the invariant if and only if it neither destroys a dying environment nor meddles with the state of one that runs elsewhere or is blocked receiving |
| SmpProof.DestroyKeeps | mit-6.828/lab/kern/env.c:470-486 | env_destroy keeps it exactly when its target is not dying |
| SmpProof.SetStatusKeeps | mit-6.828/lab/kern/syscall.c:107-125 | sys_env_set_status keeps it exactly on the caller itself, or on an environment neither running nor dying, and wakes no blocked receiver |
| SmpRuns.BootInv | mit-6.828/lab/kern/init.c:76-103 | the state in which the boot CPU holds the lock and calls sched_yield satisfies it |
| SmpRuns.RunsAreSafe | mit-6.828/lab/kern/trap.c:287-343 | in every run from boot that respects the two hypotheses, at most one CPU holds the lock, no environment is current on two CPUs, a CPU in user mode has a running or dying environment, and every such environment is on a CPU |
| SmpRuns.TrapTakesLockOnce | mit-6.828/lab/kern/trap.c:300-312 | from user mode or from the halt state, trap takes the lock exactly once |
| SmpRuns.ZombieIsCollected | mit-6.828/lab/kern/trap.c:315-320 | a dying environment's CPU frees it at its next trap, before anything else |
| SmpRuns.MonitorMeansNobodyRuns | mit-6.828/lab/kern/sched.c:66-80 | a CPU drops into the monitor only when every environment is free or blocked, and then no CPU is in user mode or about to be, or has one that runs or dies |
| SmpRuns.HaltMeansSomebodyRuns | mit-6.828/lab/kern/sched.c:71-90 | a CPU halts and gives up the lock only when nothing is runnable and some other CPU has an environment that runs or dies |
| SmpRuns.NoLostWakeup | mit-6.828/lab/kern/syscall.c:389-399 | in any run in which nobody puts an environment aside, whenever it is blocked it is waiting for a message |
| SmpRuns.SendWakes | mit-6.828/lab/kern/syscall.c:360-363 | and a send makes it runnable |
| SmpRuns.ReceiverBlocks | mit-6.828/lab/kern/syscall.c:392-397 | the caller of sys_ipc_recv gives up its CPU, and the scheduler called there does not choose it again |
| SmpRuns.DestroyedIsGone | mit-6.828/lab/kern/env.c:470-486 | in any run in which its slot is not allocated again, a destroyed environment stays dying or free, and runs in user mode only while it is marked as dying |
| SmpRuns.CallReturns | mit-6.828/lab/kern/trap.c:336-342 | after every other call, a page fault with a handler, and a device interrupt, the caller goes on running on its CPU with the lock released |
| SmpRuns.HolderCanStep | mit-6.828/lab/kern/trap.c:313-343 | the holder of the lock always has a next step; the assertion on curenv cannot fail |
| SmpRuns.NoDeadlock | mit-6.828/lab/kern/spinlock.c:61-79 | while no CPU sits in the monitor, some CPU can make a step that changes the state |
| SmpRuns.MeddlingRunsTwice | mit-6.828/lab/kern/syscall.c:107-125 | without the first hypothesis a run from boot ends with one environment on both CPUs; all its steps but the parent's one call on its running child respect the hypotheses |
| SmpRuns.DestroyTwiceFreesUnderfoot | mit-6.828/lab/kern/env.c:475-480 | without the second, in a run from boot of which all steps but the last respect the hypotheses, an environment is freed under a CPU that runs it |
| Sched.Scheduler.NextRunnable | mit-6.828/lab/kern/sched.c:35-51 | the loop returns the runnable environment that is nearest in circular order, or finds that there is none |
| Sched.Scheduler.SchedYield | mit-6.828/lab/kern/sched.c:12-59 | dispatches that environment, or halts, or enters the monitor; the later test for a running curenv never succeeds |
| Sched.Scheduler.SchedHalt | mit-6.828/lab/kern/sched.c:66-90 | enters the monitor if and only if every environment is free or blocked; otherwise halts and clears curenv |
| Sched.Scheduler.EnvRun | mit-6.828/lab/kern/env.c:518-547 | makes the old current environment runnable if it ran, and the new one current and running |
| Sched.YieldIsDetermined | mit-6.828/lab/kern/sched.c:12-59 | the documented choice is unique |
| Sched.YieldIsTotal | mit-6.828/lab/kern/sched.c:12-59 | and there always is one |
| Sched.YieldWaysOut | mit-6.828/lab/kern/sched.c:12-90 | dispatches if and only if an environment is runnable or runs here, and enters the monitor if and only if all are free or blocked |
| Sched.NobodyIsPassed | mit-6.828/lab/kern/sched.c:35-51 | going round from the slot after curenv, no runnable environment is passed over |
| Sched.CloserOrDispatched | mit-6.828/lab/kern/sched.c:35-51 | each call dispatches a waiting environment or comes strictly closer to it |
| Sched.RunsAgainOnlyAlone | mit-6.828/lab/kern/sched.c:35-51 | the caller goes on running only if nobody else is runnable |
| Sched.DispatchesOnlyRunnable | mit-6.828/lab/kern/sched.c:35-51 | what is dispatched was runnable, or was running on this CPU |
| Sched.BoundedWaiting | mit-6.828/lab/kern/sched.c:35-51 | an environment that stays runnable is dispatched within as many calls as there are slots, whatever else changes between calls |
| Sched.ClearedCurenvStarves | mit-6.828/lab/kern/sched.c:35-40 | if curenv is cleared before each call, it can wait for ever |
| Ipc.StepKeeps | mit-6.828/lab/kern/syscall.c:335-399 | a step keeps the invariant exactly when it is no send whose mapping fails and wakes no blocked receiver |
| Ipc.DeliveredExactlyOnce | mit-6.828/lab/kern/syscall.c:335-399 | in every such run, for every receiver: what it has read is a prefix of what was sent to it, at most one message is unread, and each send answers one call of its own |
| Ipc.SendAnswersACall | mit-6.828/lab/kern/syscall.c:344-363 | a send that succeeds answers a sys_ipc_recv that no send has answered |
| Ipc.ReadsLastSent | mit-6.828/lab/lib/ipc.c:23-42 | a return from ipc_recv gives sender, value and permission of the last message sent, however many senders retry meanwhile |
| Ipc.PageGoesWhereAsked | mit-6.828/lab/kern/syscall.c:363-370 | over whole runs, the k-th send to a receiver maps its page at the address of the receiver's k-th call if both are below UTOP, and nothing otherwise |
| Ipc.FailedMappingDeliversAnyway | mit-6.828/lab/kern/syscall.c:360-369 | when the mapping fails, the sender gets an error but the receiver wakes up with the message and an old permission |
| Ipc.MappingCanFail | mit-6.828/lab/kern/syscall.c:364-369 | such a run from the start |
| PipeRing.StepKeeps | mit-6.828/lab/lib/pipe.c:104-172 | every single load and store of reader and writer keeps the ring's invariant |
| PipeRing.ReadsArePrefixOfWrites | mit-6.828/lab/lib/pipe.c:104-172 | in every interleaving, up to 2^31 bytes, what reads returned is a prefix of what writes stored, and 0 <= wpos - rpos <= 32 |
| PipeRing.UnreadIsInTheRing | mit-6.828/lab/lib/pipe.c:104-172 | no byte is lost: what has not been read is in the ring at its place |
| PipeRing.ZeroReadMeansEof | mit-6.828/lab/lib/pipe.c:117-131 | a read returns nothing only if it was asked for nothing, or found the ring empty and the pipe closed |
| PipeRing.ReadReturnsAllItCan | mit-6.828/lab/lib/pipe.c:104-137 | in every run, a read that ends has all bytes it was asked for, or its last two loads found the ring empty, and then it has read something or was told that the pipe is closed |
| PipeRing.ReadAlone | mit-6.828/lab/lib/pipe.c:104-137 | a read that is let run alone takes the next bytes, as many as there are and it was asked for |
| PipeRing.EmptyAndClosed | mit-6.828/lab/lib/pipe.c:117-131 | on an empty ring of a closed pipe it returns 0 |
| PipeRing.WriteReturnsAll | mit-6.828/lab/lib/pipe.c:139-172 | a write returns the number of all its bytes, or 0 when it finds the ring full and the readers gone |
| PipeRing.WriteAlone | mit-6.828/lab/lib/pipe.c:139-172 | a write for which there is room, let run alone, stores all its bytes and returns their number |
| PipeRing.ReportsWhatItStores | mit-6.828/lab/lib/pipe.c:151-171 | in every run, what writes report falls short of what they stored by exactly what those that give up had stored; so they report all they store if and only if no write finds the readers gone after storing a byte |
| PipeRing.GivingUpHidesBytes | mit-6.828/lab/lib/pipe.c:153-159 | any write of more than 32 bytes can end so: a run in which it stores 32 and returns 0 |
| PipeRing.IndexLeavesBuffer | mit-6.828/lab/lib/pipe.c:133-134 | the buffer index is in range exactly while positions are below 2^31, and later only at multiples of 32 |
| PipeClose.StepKeeps | mit-6.828/lab/lib/fd.c:175-204 | the steps of pipe, dup, close, fork, exit and _pipeisclosed on one CPU keep every fd page of the pipe paired with its data page |
| PipeClose.DataRefsCoverEnds | mit-6.828/lab/lib/pipe.c:185-190 | once pipe has returned, the data page has at least as many references as both fd pages together, also between the calls of dup and devpipe_close |
| PipeClose.ClosedMeansNobodyElse | mit-6.828/lab/lib/pipe.c:75-89 | _pipeisclosed returns true if and only if nobody has the other end open and nobody is between the two calls of dup or close |
| PipeClose.EndOfFileIsSeen | mit-6.828/lab/lib/pipe.c:75-89 | in any reachable state in which nobody has the other end and nobody is closing or duplicating, an environment that asks and is not switched away gets the answer that the pipe is closed, and nothing else changes |
| PipeClose.StaleCountsMislead | mit-6.828/lab/lib/pipe.c:81-85 | without the second load of env_runs, counts of different moments can be equal while the other end is open |
| PipeClose.StaleIsNotReturned | mit-6.828/lab/lib/pipe.c:85-88 | and with it, the function does not return then but starts over |
| PipeClose.ForkSharesEnds | mit-6.828/lab/lib/fork.c:55-72 | a child has the ends and the data page of its parent, and nobody loses any |
| PipeClose.DupAddsEnd | mit-6.828/lab/lib/fd.c:175-204 | dup, undisturbed, gives the new descriptor the end and the data page of the old one, and nobody loses any |
| PipeClose.CloseUndoesDup | mit-6.828/lab/lib/fd.c:175-204 | closing the copy leads back to the state before |
| PipeClose.ExitDropsEnds | mit-6.828/lab/kern/env.c:430-452 | an environment that exits has no end, and the others have what they had |
| HeapModel.BumpKeeps | mit-6.828/lab/lib/malloc.c:64-69 | a block cut from the open page keeps blocks disjoint and counts sufficient |
| HeapModel.FreshKeeps | mit-6.828/lab/lib/malloc.c:98-111 | so does a block on fresh pages, of any number |
| HeapModel.MoveOnKeeps | mit-6.828/lab/lib/malloc.c:70-75 | so does dropping the allocator's own reference to the open page |
| HeapModel.FreeKeeps | mit-6.828/lab/lib/malloc.c:115-139 | so does freeing a live block |
| HeapModel.KeepsPages | mit-6.828/lab/lib/malloc.c:126-138 | a free unmaps no page that holds part of another live block or its count |
| HeapModel.MappedIsInUse | mit-6.828/lab/lib/malloc.c:64-74 | a page is mapped if and only if a live block has a part or its count on it, malloc is handing it out, or it is stranded |
| HeapModel.AllFreed | mit-6.828/lab/lib/malloc.c:115-139 | with no live block only the stranded pages and the open one are mapped |
| HeapModel.FreedExactly | mit-6.828/lab/lib/malloc.c:126-138 | free unmaps a page if and only if the block had the last reference to it |
| HeapModel.MovedExactly | mit-6.828/lab/lib/malloc.c:73 | moving on unmaps the page left if and only if no block has a part on it and it is not stranded |
| HeapModel.CountsExactUnlessStranded | mit-6.828/lab/lib/malloc.c:107-108 | a count is the number of blocks, and one for the open page, if and only if the page is not stranded; then it is one more |
| HeapModel.PageMultiplesStrand | mit-6.828/lab/lib/malloc.c:107-110 | a request of any multiple of the page size: when its block is freed, its last page stays mapped with a reference that belongs to nobody |
| HeapModel.BytesAreUsable | mit-6.828/lab/lib/malloc.c:42-112 | every byte of a live block is mapped, is in no count, and is in no other live block |
| Malloc.Allocator.IsFree | mit-6.828/lab/lib/malloc.c:30-39 | true exactly when all pages of the range lie in the arena and are unmapped |
| Malloc.Allocator.FindRoom | mit-6.828/lab/lib/malloc.c:83-93 | the search in 32 bits: from inside the arena twice around it at most; from beyond it up to where the end of the range passes 2^32, or, for a request with its count shorter than a page, on from address 0 to the first unmapped page below the arena |
| Malloc.Allocator.Malloc | mit-6.828/lab/lib/malloc.c:42-112 | in every state: a block of the rounded size beside the live ones, or 0, the latter only when memory has run out, no page of the arena starts enough room, or the search has ended at the top; a page becomes stranded exactly when a multiple of the page size is served on fresh pages; what happens when the arena's end has been passed |
| Malloc.Allocator.Free | mit-6.828/lab/lib/malloc.c:115-139 | takes exactly the given block out of the live ones, and unmaps exactly the pages to which it had the last reference |
| Malloc.Allocator.MoveOn | mit-6.828/lab/lib/malloc.c:70-74 | drops malloc's own reference; the page goes exactly when no block has a part on it |
| Malloc.RoundedCovers | mit-6.828/lab/lib/malloc.c:52 | the rounded request covers the request except for the three sizes above 0xfffffffc, which become 0 |
| Malloc.OverrunLeavesArena | mit-6.828/lab/lib/malloc.c:74-92 | from the arena's last page mptr goes to its end; there isfree refuses every address until the end of the range goes round, and no step leads to the address at which the search would start over but by way of 0 |
| FsFormat.Formatter.FinishFile | mit-6.828/lab/fs/fsformat.c:135-148 | the file's slots, direct and indirect, name consecutive blocks, and no earlier block changes |
| FsFormat.Formatter.WriteFile | mit-6.828/lab/fs/fsformat.c:159-209 | adds the file with its contents, or gives up exactly when the directory is full, the file too large or the disk full |
| FsFormat.Formatter.FinishDir | mit-6.828/lab/fs/fsformat.c:170-178 | writes the entries, zeros after the last, where the root directory's slots point |
| FsFormat.Formatter.Format | mit-6.828/lab/fs/fsformat.c:219-243 | succeeds exactly when the files fit; the disk then lists them in order, each with its contents, and the bitmap has 0 for exactly the blocks given out |
| FsFormat.RoundUps | mit-6.828/lab/fs/fsformat.c:34 | the rounding macro gives whole blocks on unsigned operands; on ints it takes 0 to one block |
| FsFormat.WhatFits | mit-6.828/lab/fs/fsformat.c:116-150 | the bitmap has a bit for each block and no block too many; a file has 1034 blocks at most, and an indirect block from its tenth block on |
| FsRead.FileServer.FileBlockWalk | mit-6.828/lab/fs/fs.c:64-86 | finds the slot, in the file or its indirect block, and allocates nothing where that block exists |
| FsRead.FileServer.FileGetBlock | mit-6.828/lab/fs/fs.c:96-111 | returns the block a filled slot names and changes nothing |
| FsRead.FileServer.AllocBlock | mit-6.828/lab/fs/fs.c:124-135 | returns the first block from 2 on whose bit is 0, or fails when there is none |
| FsRead.FileServer.DirLookup | mit-6.828/lab/fs/fs.c:142-165 | finds the first file of the name, or none, and changes nothing |
| FsRead.FileServer.WalkPath | mit-6.828/lab/fs/fs.c:184-231 | reaches what the path's components name, or fails with the error of the first that fails |
| FsRead.OneComponent | mit-6.828/lab/fs/fs.c:170-175 | slashes before and after a name, any number, make no difference |
| FsRead.FileServer.FileRead | mit-6.828/lab/fs/fs.c:250-271 | returns exactly the asked-for slice of the contents, across the boundary of direct and indirect blocks |
| FsRead.FormatThenRead | mit-6.828/lab/fs/fsformat.c:219-243 | format, open, read is the identity: the slice of the first file of that name, for any files that fit and any slashes |
| Stabs.StabBinsearch | mit-6.828/lab/kern/kdebug.c:60-103 | the three outcomes: an empty region; the region of the last entry at or below the address, if and only if the bisection does not match an entry at it while an entry at the next address is still to its right, and so always unless both addresses have entries; or, when all are above, the region before the first |
| Stabs.OvershootNeedsBoth | mit-6.828/lab/kern/kdebug.c:84-90 | what goes wrong needs entries at the address and at the next |
| Stabs.ProbedFirstIsHarmless | mit-6.828/lab/kern/kdebug.c:80-83 | and need not when both occur: a table in which the entry at the next address is probed first |
| Stabs.TurnEnds | mit-6.828/lab/kern/kdebug.c:84-90 | an exact match moves no bound inward, but the next turn does |
| Stabs.FindsIsUnique | mit-6.828/lab/kern/kdebug.c:39-57 | the documented region is the only one a linear scan can find |
| Stabs.AdjacentValuesMislead | mit-6.828/lab/kern/kdebug.c:84-90 | a sorted table with entries at the address and the next on which the bisection overshoots, and the region a linear scan finds there |
| Stabs.SearchIsMisled | mit-6.828/lab/kern/kdebug.c:60-103 | the search itself does not return that region |
| Spawn.StackPage.InitStack | mit-6.828/lab/lib/spawn.c:216-290 | for all arguments on which the size check is right: fails exactly when they do not fit a page; otherwise, from the stack pointer, which is aligned and in the page below USTACKTOP, the child finds argc, argv, every string and the null pointer |
| Spawn.CheckIsRight | mit-6.828/lab/lib/spawn.c:234-242 | for any number and size of arguments, the size check decides fitting if and only if the lowest address computed does not go below 0 or goes round to below UTEMP; else it passes what does not fit |
| Spawn.CheckPassesWrongly | mit-6.828/lab/lib/spawn.c:234-242 | one argument of a little more than four megabytes passes |
| Spawn.HeaderReadsBack | mit-6.828/lab/lib/spawn.c:265-277 | strings, pointers and header words, once written, do not disturb each other |
| Spawn.LowByteFirst | mit-6.828/lab/lib/spawn.c:265-277 | words are stored low byte first |
| Spawn.StringBack | mit-6.828/lab/lib/spawn.c:268 | a string copied with its terminator reads back whole |
| Spawn.Loader.MapSegment | mit-6.828/lab/lib/spawn.c:293-327 | succeeds if and only if the segment lies below UTOP and every request for memory and data is met; then byte k of it is byte k of its part of the file below filesz and zero above, for any unaligned address; no page outside the segment changes |
| Spawn.Loader.ReadN | mit-6.828/lab/lib/fd.c:225-238 | fails if and only if a read fails; otherwise returns how many of the bytes asked for the file has, and these are in the buffer, however short the reads |
| OpenFiles.OpenTable.OpenfileAlloc | mit-6.828/lab/fs/serv.c:65-84 | takes the first slot no client has mapped and gives it its next id |
| OpenFiles.OpenTable.OpenfileLookup | mit-6.828/lab/fs/serv.c:87-97 | accepts an id if and only if its generation is the one its slot is at, and a client maps the page or the slot has never been given out |
| OpenFiles.SameId | mit-6.828/lab/fs/serv.c:57-80 | two file ids are equal if and only if they are of one slot, a whole number of 2^22 turns apart |
| OpenFiles.IdLooksLikeError | mit-6.828/lab/fs/serv.c:119-125 | the id is negative as an int, and so taken by serve_open for an error, in exactly every other run of 2^21 turns of its slot |
| OpenFiles.OpenTable.StaleFileId | mit-6.828/lab/fs/serv.c:88-97 | an id given out is accepted exactly while a client maps the page and the slot has not been given out again, short of a whole period |
| OpenFiles.OpenTable.VirginSlotAccepts | mit-6.828/lab/fs/serv.c:43-61 | the initial id of a slot never given out is accepted |
| Numbers.Printer.PrintNum | mit-6.828/lab/lib/printfmt.c:48-62 | appends the padding and then the digits, for any width |
| Numbers.Printer.PrintSigned | mit-6.828/lab/lib/printfmt.c:203-210 | the sign goes before the padding |
| Numbers.Strtol | mit-6.828/lab/lib/string.c:240-284 | the value, in 32 bits at every step, and the end of the digits |
| Numbers.ReadsBack | mit-6.828/lab/lib/string.c:240-284 | of a printed 32-bit number strtol consumes all, and returns the number if and only if it is below 2^31; the output is as long as the larger of width and digit count |
| Numbers.StrtolReads | mit-6.828/lab/lib/string.c:239-284 | with base 0 strtol reads a number in any of the three bases by its prefix, and with base 16 one with 0x, after any blanks and a sign: the number, negated after a minus, as a 32-bit long |
| Numbers.DigitsAre | mit-6.828/lab/lib/printfmt.c:60 | the digits printed are those of 0123456789abcdef |
| Numbers.EitherCase | mit-6.828/lab/lib/string.c:264-269 | letters are digits in either case |
| Numbers.PrintThenParse | mit-6.828/lab/lib/printfmt.c:48-62 | the two pieces of code one after the other |
| Numbers.NegativeReadsBack | mit-6.828/lab/lib/printfmt.c:203-210 | a negative number comes back if and only if no space stands between its sign and its digits |

## Left out

- Pmap.Kernel.PageInsert: requires fewer than 65535 references to the page, which is what keeps the 16-bit count exact (`PageSteps.CountFits`).
- Syscalls.System.SysPageMap: carries the same hypothesis for the page to be shared, as does Syscalls.System.SysIpcTrySend.
- ForkCode.Fork: `set_pgfault_handler`, the upcalls and registers are not modelled; the program has user pages only, each mapped at most 32766 times, and is not interrupted (interleavings are in KernelFork.KernelForkIsEagerCopy).
- KernelFork.KernelForkIsEagerCopy: the environments of the run neither end nor make other calls, and follow lib/fork.c (the machine's steps are enabled).
- Memory above UTOP: `boot_map_region`, kernel mappings and `mem_init` are not modelled; `kern_pgdir` is a constant that has nothing below UTOP, and of what it maps above, programs' accesses are not modelled but for those through UVPT.
- TLB flushes, `lcr3`, `iret`, trap frames, registers and descriptor tables.
- CowRuns.ForkIsEagerCopy: pages are not allocated or unmapped by the program itself while the run lasts, `PFTEMP` is not used by it, the fault handler and exception stack are installed, and system calls do not run out of memory (fork and pgfault panic then).
- CowFork reads `uvpt[pn]` once where duppage reads it twice; nothing can change it in between but a fault on the stack page, which the step after it allows.
- SmpProof.StepKeeps: permission checks of envid2env and the order of the free list are not modelled, so that the steps are a superset; `panicstr` and kernel panics are not.
- Ipc.DeliveredExactlyOnce: an id that comes round again after 2^19-1 allocations of its slot is excluded; receivers use ipc_recv, and the page mapping itself is in Syscalls.
- PipeRing.ReadsArePrefixOfWrites: one reader and one writer; the answers of _pipeisclosed are arbitrary there and proved in PipeClose.
- PipeClose.ClosedMeansNobodyElse: fork and exit are single steps, one CPU, and `env_runs` does not go round 2^32 between the two loads; a failed pipe call undoes its mappings in one step.
- HeapModel.BytesAreUsable: counts are unbounded numbers, so that 2^32 calls of malloc(0) in one page are excluded.
- Malloc.Allocator.Malloc: nothing is stated about calls after one that has ended on a page below the arena.
- FsRead.FileServer.FileGetBlock: nothing is stated about a slot that has to be filled, where `block_is_free` and the formatter's bitmap disagree on what a bit means.
- FsRead.FileServer.FileBlockWalk: nothing is stated about an indirect block that it allocates, for the same reason.
- FsRead.FileServer.DirLookup: directories are those the formatter lays out, as for FsRead.FileServer.WalkPath.
- FsDisk has blocks with a type (data, block numbers, directory entries) instead of bytes; `struct File` is not encoded, and names of 128 bytes or more, which `strcpy` would write past their field, are excluded.
- FsRead.FileServer.FileRead: offsets are not negative, and the file has no unfilled slots.
- Stabs.StabBinsearch: states nothing about the region found when every address from the one asked for to 2^32-1 has an entry, where `addr++` can wrap.
- Spawn.StackPage.InitStack: requires what `Spawn.CheckIsRight` shows the size check needs, since otherwise it writes outside its page; lack of memory for the page, and mapping it in the child, are not modelled.
- Spawn.Loader.MapSegment: requires the offset in the file to be at least the offset of the address in its page, as the ELF rule that both agree modulo the page size implies.
- The rest of `spawn`, `exec`, `sfork`, devices, the network, `vprintfmt` beyond numbers, `user_mem_check`, and block allocation on a running file system.
