# Opal, modelled and proved in Dafny

Opal is a small AArch64 kernel. This project models the four parts of it that carry real state machines,
loops and bit arithmetic, and proves what each is for. The parts share only `Words.dfy` (machine integers).

**A. Scheduler, IPC and blocking system calls.** `KernelState.dfy` gives the meaning of every scheduler
operation, system call, timer tick and fault as a function from kernel state to kernel state; a *step* is one
whole exception from EL0 (trap, handler, restore path) and a *session* is an empty table, some spawns, the
first entry to EL0 and any sequence of exceptions, in any interleaving, until the monitor is re-entered. User
code is arbitrary: an event carries any registers and any bytes the task wrote since it was resumed.
`Sched.dfy` is the same code in its own form: a ring-buffer class and a class with the task table and the other
statics, updated in place, each method proved to compute the function. `Actions.dfy` and `Handlers.dfy`
classify every exception by what the caller can see beforehand and prove what each kind of action does;
`Wakeups.dfy` writes out what one exception leaves in every slot of the table, field by field. On top stand the
session theorems: `Sessions`, `NoLostWakeup`, `Ledger`, `Endings`, `VirtualCpu`, `Fairness`, `ExactSleep`,
`Senders`, `Retries`, `Corners`; `Answers` says which call does what and what it answers. A *failed block* is a
task asking to block while no other task is Ready; the theorems that need its absence say so (`Clean`), the
others hold in every session. `History.dfy` records what was sent, accepted, consumed and ended.

**B. Page tables.** `Descriptors.dfy` has the descriptor encodings over `bv64` and a specification walker
(VMSAv8-64, 16 KiB granule, Arm DDI 0487 chapter D8). `TableTree.dfy` says what linking a blank table and
writing one page descriptor do to the translation of every address. `TableBuilder.dfy` says what the boot-time
builder writes, `StaticTables.dfy` where its tables lie, and `MemoryMap.dfy` proves the result against a memory
map written in addresses; `UserTables.dfy` does the same for a task's own tree. `Permissions.dfy` reads the
attribute bits as the machine does and says what every address may be used for and which kind of memory it is. `TableState.dfy` states the
run-time invariant of the kernel's tree and what each operation does to it, `AddressSpaces.dfy` the invariant of
all trees together over any sequence of operations, and `Mmu.dfy` is the code: a class over table memory and the
pool cursor, with loops where the source has loops.

**C. Flattened devicetree reader.** `FdtFormat.dfy` is the serialiser (Devicetree Specification, chapter 5),
with NOP tokens anywhere the reader tolerates them. `FdtReader.dfy` says what each reading operation computes
on arbitrary bytes; `Fdt.dfy` has the loops and iterators, proved to compute it. `FdtRoundTrip.dfy`,
`FdtSearch.dfy` and `FdtBlob.dfy` prove round trip and search. `FdtLayout.dfy` describes the format once more, in
bytes and offsets and without the functions that write and read it, and proves both sides agree with it.

**D. Framebuffer console.** `TextGrid.dfy` is a character grid and the endless transcript it is a window on;
`Framebuffer.dfy` keeps pixel memory in agreement with the grid, in place.

## Where the code and its documentation disagree

The model follows the code.

- `send`, `recv` and `wait` hand back positive error numbers (3, 11), where the comments on the system calls
  promise negative ones. `Answers` says exactly when the answer still tells: 11 from `recv` means an empty mailbox
  if and only if the buffer is valid and has room for at most ten bytes (`RecvTellsEmptyExactly`), 3 from `wait`
  means no such task if and only if the TID is out of range (`WaitTellsNoTaskExactly`), and the sign tells failure
  except for an empty mailbox, a missing task and a full mailbox (`RecvSignExactly`, `SendSignExactly`).
- `wait` on a slot nobody was ever spawned into answers 0, where the comment on `try_wait` promises ESRCH
  (`Answers.NeverSpawnedExactly`: of the TIDs that name no spawned task, exactly those out of range get it).
- A zero `kstack_top` is documented as "the boot stack"; it leaves SP_EL1 on the stack of whoever ran before
  (`VirtualCpu.SwitchInstalls`).
- A lone task that yields is enqueued and dequeued again, so the yield counts as a switch. No yield writes x0,
  where the comment says 0 is returned: x0 is 0 afterwards if and only if it was before (`Answers.YieldKeepsX0`).
- A fault kill wakes nobody (`Corners.KillWakesNobody`, `Corners.StrandedForever`); an exit wakes its waiters
  but not the senders blocked on it (`Retries.ExitWakesExactlyItsWaiters`).
- A receive is to wake the senders that wait for room. It wakes all of those, but its scan goes by the sending
  field alone, and a sender woken out of `sendblk` by a message keeps that field when its retried call succeeds: a
  later receive wakes it out of whatever it sleeps in by then (`Senders.StaleSenderIsWoken` is such a run, a sleep of
  a hundred ticks over at once). `Senders.ReceiveWakesExactlyItsSenders` says exactly whom a receive wakes: the
  sleepers whose last blocked sendblk it is still owed to, and of sleepers no message has disturbed exactly those in
  sendblk to the receiver.
- A failed block leaves the task that goes on executing marked Blocked (`Handlers.FailedBlockMeaning`);
  scheduler well-formedness survives a step if and only if it is not one (`Handlers.StepKeepsWF`), and
  `Corners.FailedBlockLosesTask` is a run after which the task is Blocked although it is in no call.
- NOP tokens are to be ignored wherever they stand, but `root` does not skip one in front of the root node
  (`FdtRoundTrip.RootSkipsNoNops`).

## Model

| member | source | states |
|---|---|---|
| Sched.Scheduler.Enqueue | src/sched.rs:264-273 | The ring takes the TID at its tail, or refuses it exactly when all eight slots are in use. |
| Sched.Scheduler.Dequeue | src/sched.rs:276-285 | The ring gives up its oldest TID, or nothing if empty. |
| Sched.Opal.SaveAndSwitch | src/sched.rs:690-746 | In place: keep the frame, requeue if Running, load the oldest Ready task; the new state is exactly that of the step semantics. |
| Sched.Opal.BlockAndSwitch | src/sched.rs:779-818 | In place: keep the frame, mark Blocked, load the oldest Ready task; false leaves the caller Blocked. |
| Sched.Opal.KillCurrentTask | src/sched.rs:842-886 | In place: end the current task with code -1, forget its mailbox and wake fields, load the next. |
| Sched.Opal.LoadNext | src/sched.rs:715-745 | The common tail of the three: frame, TTBR0, pending kernel stack and CURRENT_TID are the dispatched task's. |
| Sched.Opal.WakeBlockedSenders | src/sched.rs:575-593 | The scan loop equals the scan over TIDs 1 to 7 that wakes every Blocked sender to this receiver. |
| Sched.Opal.WakeSleepers | src/sched.rs:1032-1063 | The scan loop equals the scan that wakes every Blocked task with an elapsed deadline and clears stale ones. |
| Sched.Opal.WakeWaiters | src/sched.rs:1134-1148 | The scan loop equals the scan that wakes every Blocked task waiting on the exiting one. |
| Sched.Opal.AllocTask | src/sched.rs:344-356 | The loop finds the lowest free slot above 0, or none exactly if there is none. |
| Sched.Opal.Spawn | src/sched.rs:391-416 | A new task in the lowest free slot, Ready and queued, all other slots as before; nothing at all if the table is full. |
| Sched.Opal.IpcSend | src/sched.rs:445-488 | One-slot delivery in place: refused to dead tasks and full mailboxes, otherwise stored and the receiver woken whatever it sleeps on. |
| Sched.Opal.IpcRecv | src/sched.rs:528-556 | The mailbox drained in place, its blocked senders woken. |
| Sched.Opal.TryWait | src/sched.rs:1082-1108 | The exit code of an ended slot, EAGAIN for a live one, ESRCH outside the table. |
| Sched.Opal.DropToEl0 | src/arch/aarch64/user.rs:1748-1816 | The first Ready task is entered at the fixed entry point without consulting its saved frame. |
| Sched.Opal.CopyIn | src/arch/aarch64/user.rs:2586-2594 | The byte loop reads exactly the caller's bytes through the live TTBR0. |
| Sched.Opal.CopyOut | src/arch/aarch64/user.rs:2630-2635 | The byte loop writes exactly the message and no other byte of any address space. |
| Sched.Opal.SysWrite | src/arch/aarch64/user.rs:2497-2535 | The checks of write in their order, with the overflow-checked range test. |
| Sched.Opal.SysYield | src/arch/aarch64/user.rs:2536-2565 | The yield arm in place equals its step semantics. |
| Sched.Opal.SysSend | src/arch/aarch64/user.rs:2566-2605 | The send arm in place equals its step semantics. |
| Sched.Opal.SysRecv | src/arch/aarch64/user.rs:2606-2644 | The recv arm in place equals its step semantics. |
| Sched.Opal.SysRecvBlk | src/arch/aarch64/user.rs:2645-2716 | The recvblk arm, with the rewound program counter and its restoration on a failed block. |
| Sched.Opal.SysSendBlk | src/arch/aarch64/user.rs:2717-2818 | The sendblk arm, with the rewound program counter, the destination field and their restoration. |
| Sched.Opal.SysSleep | src/arch/aarch64/user.rs:2819-2901 | The sleep arm, deadline saturating, wake field cleared on a failed block. |
| Sched.Opal.SysExit | src/arch/aarch64/user.rs:2902-2951 | The exit arms: code recorded, waiters woken, next task or the monitor. |
| Sched.Opal.SysWait | src/arch/aarch64/user.rs:2952-3003 | The wait arm, with the rewound program counter and its restoration. |
| Sched.Opal.HandleSvcFromEl0 | src/arch/aarch64/user.rs:2494-3008 | The dispatch on x8, unknown numbers answered with -ENOSYS. |
| Sched.Opal.HandleTimerIrq | src/arch/aarch64/vectors.rs:979-1028 | The timer arm: tick, wake sleepers, preempt if enabled and count it. |
| Sched.Opal.KillTaskFromEl0 | src/arch/aarch64/vectors.rs:920-950 | A faulting task is killed and the next one loaded, or the monitor re-entered. |
| Sched.Opal.VectorsRestore | src/arch/aarch64/vectors.rs:225-289 | A pending kernel-stack switch is applied once and cleared. |
| Sched.Opal.TakeExceptions | src/arch/aarch64/vectors.rs:826-1028 | Any sequence of exceptions handled by the in-place code ends in the state of the run semantics. |
| Wakeups.StepTasks | src/sched.rs:445-886 | The whole task table after any exception that is not a failed block, slot by slot and field by field: whom a message, a receive, an exit and a tick wake, what they leave of everybody else, and that only the picked task becomes Running. |
| Wakeups.ReceiveWakesByField | src/sched.rs:575-593 | A receive wakes, in its own step, exactly the Blocked tasks whose sending field is the receiver; every other task keeps its whole record. |
| Wakeups.StepCounters | src/arch/aarch64/vectors.rs:979-1028 | One tick counts one tick and, under preemption, one preemption, both wrapping; nothing else counts; the monitor is entered with preemption off. |
| Senders.ReceiveWakesExactlyItsSenders | src/sched.rs:575-593 | Over every session without a failed block: a receive wakes exactly the sleepers whose last blocked sendblk it is owed to, changing no other sleeper; all in sendblk to it are among them, and a sleeper no message has disturbed is only if it is in sendblk to it. |
| Senders.StaleSenderIsWoken | src/sched.rs:479-593 | A run of seven calls in which a receive wakes a task out of sleep(100) at the tick it fell asleep, because its sending field is stale. |
| WellFormed.Room | src/sched.rs:264-273 | A duplicate-free queue of other user tasks has room for one more: no ignored `enqueue` result is ever false. |
| WellFormed.DispatchWF | src/sched.rs:715-745 | With nobody Running, picking succeeds exactly when someone is Ready, and runs the oldest: `task(next)` is never None. |
| WellFormed.ScanMeaning | src/sched.rs:575-593 | A wake scan touches every task once and queues exactly the woken ones, in TID order, none lost. |
| Actions.BeforeSane | src/sched.rs:690-886 | Every action leaves the queue holding exactly the Ready tasks, once each, and Running nobody but the current task. |
| Handlers.HandlePerforms | src/arch/aarch64/user.rs:2494-3008 | Each handler does exactly the one action its caller could predict, unless it is a failed block. |
| Handlers.FailedBlockMeaning | src/arch/aarch64/user.rs:2690-2715 | A failed block answers -EAGAIN (sleep: 0) with the program counter restored, zeroes the wake field it had set, leaves the caller Blocked, and changes nothing else. |
| Handlers.StepKeepsWF | src/sched.rs:770-818 | An exception keeps the scheduler well-formed if and only if it is not a failed block; the monitor is re-entered only when every task that has not ended is Blocked. |
| Sessions.StartMeaning | src/arch/aarch64/user.rs:1748-1816 | What spawning into an empty table and entering the first task leave in every slot, field by field; the first task starts at 0x10_0000 in EL0 with x0 to x18 zero. |
| Sessions.SessionWellFormed | src/sched.rs:690-886 | Over every session without a failed block: exactly one Running task and it is CURRENT_TID; the queue holds each Ready task once, nobody else, and at most six; at the monitor every task that has not ended is Blocked. |
| NoLostWakeup.StepForgetsNobody | src/sched.rs:445-593 | One exception leaves nobody Blocked on something that has happened. |
| NoLostWakeup.NoLostWakeups | src/arch/aarch64/user.rs:2645-3003 | Over every session without a failed block or counter overflow: a Blocked task's mailbox is empty (recvblk), its destination full or ended (sendblk), its deadline ahead (sleep), its child live or fault-killed (wait), and the wake field names it. |
| Durable.HandleFollows | src/arch/aarch64/user.rs:2494-3008 | Even across failed blocks, mailboxes, exit codes and endings change only as the exception's action says. |
| Ledger.MessagesConserved | src/sched.rs:445-556 | Over every session, per task: messages accepted = consumed, then those lost to its fault kill, then the one in the mailbox, in order, sender and bytes. |
| Ledger.WriteThenRead | src/arch/aarch64/user.rs:2630-2635 | Bytes copied out to user memory read back as written. |
| Ledger.SendStores | src/arch/aarch64/user.rs:2566-2605 | An accepted send stores the caller's first min(len, 32) bytes under its TID and returns 0. |
| Ledger.ReceiveReturnsOldest | src/arch/aarch64/user.rs:2606-2644 | A receive returns the oldest unconsumed message: its sender in x1, as many of its bytes as fit, counted in x0. |
| Ledger.LiveWaitBlocks | src/arch/aarch64/user.rs:2967-3002 | A wait for a live task puts the caller to sleep on it, program counter back on the svc, and runs the head of the queue; with nobody to run it answers -EAGAIN, program counter restored, and the caller stays Blocked. |
| Ledger.WaitStep | src/arch/aarch64/user.rs:2952-3003 | What one wait does, from the record of endings: answer or sleep. |
| Ledger.WaitAgreesWithExit | src/sched.rs:1082-1108 | Over every session: wait(c) on a spawned c answers with the code it passed to exit, or -1 if fault-killed, once c has ended; before that it sleeps, or on a failed block answers -EAGAIN. |
| Ledger.WaitReturnsOnceEnded | src/arch/aarch64/user.rs:2952-3003 | Over every session without a failed block: wait(c) on a spawned c returns to its caller exactly once c has ended. |
| Words.SignRoundTrip | src/arch/aarch64/user.rs:2967-2970 | A word read as a signed code and back is the word; all ones is -1. |
| Endings.StepKeepsWords | src/arch/aarch64/user.rs:2902-2951 | One exception ends a task with x0 at its exit call, or with all ones on a fault, and the recorded code is that word as a signed number. |
| Endings.WaitReturnsEndWord | src/arch/aarch64/user.rs:2952-3003 | Over every session, in registers: wait(c) on an ended c returns in x0 the x0 c had at its exit call, or 0xFFFF_FFFF_FFFF_FFFF if a fault killed it; before that it blocks. |
| VirtualCpu.StepKeepsVcpus | src/sched.rs:690-746 | One exception changes the caller's registers by its own call only, every other task's not at all. |
| VirtualCpu.ResumedAsSaved | src/sched.rs:690-886 | Over runs: a task is resumed with exactly the x0..x30, ELR and SPSR it was switched out or spawned with. |
| VirtualCpu.SwitchInstalls | src/sched.rs:620-680 | What a switch installs in TTBR0 and SP_EL1, including the zero cases. |
| VirtualCpu.SessionInstalls | src/arch/aarch64/vectors.rs:261-288 | Over every session without a failed block: at each return to EL0 the live TTBR0 is the running task's, nothing is pending, and after the first switch SP_EL1 is its kernel stack. |
| VirtualCpu.StepKeepsOtherSpaces | src/arch/aarch64/user.rs:2606-2644 | An exception changes no byte outside the live address space. |
| VirtualCpu.TryingChangesNothing | src/arch/aarch64/user.rs:2690-2715 | A task that only retries a call keeps its registers and memory, sends nothing, consumes nothing, does not end. |
| VirtualCpu.BlockedCallActsOnce | src/arch/aarch64/user.rs:2766-2817 | A blocked recvblk, sendblk or wait, woken any number of times, finally executes with the registers and bytes it was first made with, having changed nothing. |
| VirtualCpu.StillLive | src/sched.rs:842-886 | A task ends exactly by its own exit or fault. |
| Fairness.StepServesInOrder | src/sched.rs:264-284 | Each switch runs the head of the queue; whoever becomes Ready joins behind everyone else. |
| Fairness.MovesForward | src/sched.rs:690-886 | A waiting task only moves forward, one place a switch. |
| Fairness.ServedInTurn | src/sched.rs:690-886 | The task at position i is the one the (i+1)-th following switch runs, whatever happens meanwhile. |
| Fairness.WithinSevenSwitches | src/sched.rs:690-886 | Every Ready task runs within seven switches. |
| Fairness.TicksAreFair | src/arch/aarch64/vectors.rs:979-1028 | Under preemption n ticks run each of n spinning tasks once, in fixed cyclic order. |
| ExactSleep.StepQuiet | src/sched.rs:479-593 | While no message disturbs a task, each of its three wake fields is set only while it sleeps in the call that sets it. |
| ExactSleep.RunSleeps | src/sched.rs:1032-1063 | While the counter is below its deadline a sleeper stays off the CPU and out of the queue, whatever the others send to each other. |
| ExactSleep.SleepsExactly | src/arch/aarch64/user.rs:2819-2901 | Unless a message is accepted for the sleeper while it sleeps, and without failed blocks, sleep(n) at tick T: not dispatched before T+n (saturating), queued or running after that tick, x0 = 0, program counter behind the svc. |
| Retries.StepKeepsFields | src/sched.rs:1134-1148 | If interrupted calls are made again, a waiting field that names a live task goes on meaning a wait for it. |
| Retries.SleepersInWait | src/arch/aarch64/user.rs:2952-3003 | Over every session without a failed block: a sleeper's waiting field names a live task exactly if it is in wait on that task. |
| Retries.ExitWakesExactlyItsWaiters | src/arch/aarch64/user.rs:2918-2930 | Over every session without a failed block: an exit wakes, in its own step, exactly the tasks in wait on it; every other sleeper, a blocked sender among them, is left as it was. |
| Corners.EndWakes | src/sched.rs:1134-1148 | Whatever user code does: an exit wakes the sleepers whose waiting field names the exiting task and changes no other; a fault kill changes none. |
| Corners.ExitWakesItsWaiters | src/arch/aarch64/user.rs:2918-2930 | Whatever user code does: no task in wait on an exiting task is passed over. |
| Corners.KillWakesNobody | src/sched.rs:855-863 | A fault kill changes no Blocked task. |
| Corners.StrandedForever | src/sched.rs:855-863 | Unless a message disturbs it, a waiter on a fault-killed child never gets the CPU again. |
| Corners.FailedBlockLosesTask | src/sched.rs:770-801 | A run of three calls after which a task is Blocked outside any call. |
| Answers.CallTable | src/arch/aarch64/user.rs:2494-3008 | From the registers and the state a call finds, by call number: exactly when an exception sends, receives, blocks on mail, room, a tick or an ending, yields, exits or dies. |
| Answers.CallDetails | src/arch/aarch64/user.rs:2566-2901 | Whom it concerns, the saturated deadline, and how many bytes move. |
| Answers.WriteAnswer | src/arch/aarch64/user.rs:2497-2535 | What write puts in x0, in the order of its checks. |
| Answers.UnknownAnswer | src/arch/aarch64/user.rs:3004-3008 | Any number outside 1 to 10 is answered -38. |
| Answers.RecvAnswer | src/arch/aarch64/user.rs:2606-2644 | What recv puts in x0 in every well-formed state. |
| Answers.RecvTellsEmptyExactly | src/arch/aarch64/user.rs:2606-2644 | For every recv call: its answer 11 means an empty mailbox in every state if and only if the buffer is valid and has room for at most ten bytes. |
| Answers.RecvSignExactly | src/arch/aarch64/user.rs:2606-2644 | The sign of recv's answer tells failure if and only if the failure is not the empty mailbox of a valid call. |
| Answers.SendAnswer | src/arch/aarch64/user.rs:2566-2605 | What send, and sendblk when it does not sleep, put in x0 in every well-formed state. |
| Answers.SendSignExactly | src/arch/aarch64/user.rs:2566-2605 | The sign of send's answer tells failure if and only if the failure is neither a missing task nor a full mailbox. |
| Answers.WaitAnswer | src/arch/aarch64/user.rs:2952-3003 | What wait puts in x0 in every well-formed state. |
| Answers.WaitTellsNoTaskExactly | src/sched.rs:1082-1108 | For every wait call: its answer 3 means no such task in every state if and only if the TID is out of range. |
| Answers.NeverSpawnedExactly | src/sched.rs:1070-1108 | Of the waits that name no spawned task, exactly those out of range are answered ESRCH; an unused slot is answered 0. |
| Answers.YieldKeepsX0 | src/arch/aarch64/user.rs:2536-2565 | A yield returns, at once or later, with the registers it was made with; alone it switches to itself; x0 is 0 afterwards if and only if it was before. |
| Descriptors.TableRoundTrip | src/arch/aarch64/mmu.rs:434-436 | A table descriptor decodes to its table, at levels 0 to 2. |
| Descriptors.PageRoundTrip | src/arch/aarch64/mmu.rs:455-457 | A page descriptor decodes to its address and attributes at level 3. |
| Descriptors.BlockRoundTrip | src/arch/aarch64/mmu.rs:441-452 | A block descriptor decodes to its address and attributes at level 2 and to nothing at the others. |
| Descriptors.PageRoundTripExactly | src/arch/aarch64/mmu.rs:455-457 | The page round trip holds if and only if the address is a 48-bit granule: the constructor masks nothing. |
| Descriptors.IndicesDeterminePage | src/arch/aarch64/mmu.rs:241-270 | Two addresses have the same four indices if and only if they lie in the same page. |
| Descriptors.AddressFromIndices | src/arch/aarch64/mmu.rs:241-270 | Four indices and the offset put together are the 48-bit address. |
| Descriptors.BundleBits | src/arch/aarch64/mmu.rs:402-429 | Every bit of every bundle: PXN clear only for kernel text, UXN only for user code, AP[2] clear only for Rw, Device, UserRw and Framebuffer, AP[1] set only for the user bundles, AttrIndx 1 for Device and 2 for Framebuffer, inner shareable unless Device, AF set, no other bit. |
| Permissions.BundleRights | src/arch/aarch64/mmu.rs:150-169 | What each bundle permits, and the memory type its index selects in MAIR_EL1. |
| Permissions.BuiltPermits | src/arch/aarch64/mmu.rs:583-721 | Over every address of the built tree, in numbers: text executable by the kernel and read-only, DTB and rodata read-only, data, stack and RAM writable and never executable, the guard unmapped, MMIO and the window past RAM of device type, nothing open to EL0. |
| Permissions.TaskPermits | src/arch/aarch64/user.rs:1593-1627 | A task's page at 0x10_0000 is EL0-executable and read-only, the one at 0x20_0000 EL0-writable and not executable, neither executable by the kernel; nothing else is mapped. |
| Permissions.MappedPermits | src/arch/aarch64/mmu.rs:1028-1110 | A page mapped at run time shows the whole physical page, kernel-writable, never executable, of device or non-cacheable type. |
| Descriptors.BundlesAreSafe | src/arch/aarch64/mmu.rs:402-429 | No attribute bundle is writable and executable, none lacks AF. |
| TableTree.LinkChangesNothing | src/arch/aarch64/mmu.rs:1000-1012 | Linking a blank table into a hole of the tree changes the translation of no address. |
| TableTree.PageMapsOnePage | src/arch/aarch64/mmu.rs:1049-1049 | One page descriptor written through the walk of an address changes the translation of exactly that page. |
| TableTree.TranslationsAreSafe | src/arch/aarch64/mmu.rs:402-457 | If every leaf of a tree is safe, so is every translation. |
| StaticTables.StaticIsPlaced | src/arch/aarch64/mmu.rs:277-333 | The fourteen tables of the static, back to back at any granule below 2^48, are distinct granules inside it: what every result about the tables assumes of their placement. |
| MemoryMap.BuiltTranslates | src/arch/aarch64/mmu.rs:583-721 | For every layout the linker accepts, every aligned displacement and every address, the built tree translates as the memory map says: DTB window, text, rodata, data, guard hole, stack, RAM, nine MMIO pages, the window past RAM, nothing else. |
| MemoryMap.BuiltIsTree | src/arch/aarch64/mmu.rs:289-321 | Each built table hangs from exactly one entry. |
| MemoryMap.BuiltIsSafe | src/arch/aarch64/mmu.rs:606-705 | No built leaf is writable and executable or open to EL0, and each has AF. |
| MemoryMap.BuiltLeavesPool | src/arch/aarch64/mmu.rs:309-333 | The builder leaves the pool and the condemned root blank. |
| Mmu.Memory.constructor | src/arch/aarch64/mmu.rs:323-336 | The zeroed static at any granule, its tables placed, its cursor at zero. |
| Mmu.Memory.KernelLeaves | src/arch/aarch64/mmu.rs:606-645 | The 2048-page loop writes the descriptor of every page but the guard's. |
| Mmu.Memory.MmioLeaves | src/arch/aarch64/mmu.rs:659-676 | The UART page and the two GIC loops. |
| Mmu.Memory.L2Backbone | src/arch/aarch64/mmu.rs:678-706 | Two table entries, the RAM block loop and the window past RAM. |
| Mmu.Memory.OpalBuildTables | src/arch/aarch64/mmu.rs:527-721 | The in-place builder returns the root of a sound tree that translates every address as the memory map says and permits there what it should, with no task wired and no pool table taken. |
| Mmu.Memory.AllocRuntimeTable | src/arch/aarch64/mmu.rs:964-977 | The next pool table while there are any; the cursor moves regardless. |
| TableState.EnsureMeaning | src/arch/aarch64/mmu.rs:1000-1012 | The state after `ensure_table` is sound, only the one entry and only the kernel's tree changed, and no translation did. |
| Mmu.Memory.EnsureTable | src/arch/aarch64/mmu.rs:1000-1012 | The table behind an entry, linked from the pool if missing; which error when; no other entry and no translation changes; the tree stays sound. |
| TableState.IoremapMeaning | src/arch/aarch64/mmu.rs:1028-1065 | From every sound state: Ok changes the translation of exactly the page of va, each error none; only kernel tables are written, only pool tables join the tree. |
| Mmu.Memory.Ioremap | src/arch/aarch64/mmu.rs:1028-1046 | Ok changes the translation of exactly the page of va; each error is decided by the tables found and changes no translation; only kernel tables are written, and every tree, the tasks' included, stays as sound as it was. |
| Mmu.Memory.IoremapDevice | src/arch/aarch64/mmu.rs:1028-1065 | The same, with device memory; misaligned and non-kernel addresses are refused exactly when they are. |
| Mmu.Memory.IoremapFramebuffer | src/arch/aarch64/mmu.rs:1080-1110 | The same, with non-cacheable memory. |
| TableState.KernelIsSafe | src/arch/aarch64/mmu.rs:402-457 | In every sound state no kernel address is writable and executable or open to EL0, and every mapping has AF. |
| Mmu.Memory.WalkTables | src/arch/aarch64/mmu.rs:1149-1243 | The narrated walk takes the root in TTBR1 for the upper half and the one in TTBR0 for the lower, bit 0 and the ASID masked; from the kernel's root it reports what the specification walk finds, from the condemned root a fault at once, from any other it reads nothing. |
| UserTables.WiredTranslates | src/arch/aarch64/user.rs:1593-1627 | While a task's tables hold what wiring wrote, they map the code page and the stack page and nothing else. |
| UserTables.WiredIsSafe | src/arch/aarch64/user.rs:1593-1627 | And they form a tree no leaf of which, at any entry, is writable and executable or lacks AF. |
| UserTables.SpacesApart | src/arch/aarch64/user.rs:1543-1545 | Two wired tasks with pages of their own have no byte of memory in common. |
| AddressSpaces.OpKeepsGood | src/arch/aarch64/mmu.rs:1028-1110 | Every device mapping, framebuffer mapping and wiring keeps all trees, the kernel's and every task's. |
| AddressSpaces.EveryTreeStaysSafe | src/arch/aarch64/mmu.rs:402-457 | After the builder and any sequence of device mappings, framebuffer mappings and wirings: every tree is a tree, no leaf of any is writable and executable, every leaf has AF, no kernel leaf is open to EL0, and every task ever wired sees exactly its two pages. |
| AddressSpaces.TasksShareNothing | src/arch/aarch64/user.rs:1543-1545 | At any such time, tasks with pages of their own share no byte. |
| UserTables.FrameWalk | src/arch/aarch64/user.rs:1543-1545 | A walk depends on the tables of its own tree only. |
| Mmu.Memory.WireUserTables | src/arch/aarch64/user.rs:1593-1627 | In place: the task sees its two pages with their permissions; the kernel's tree and every other table are as before; a task may be wired again. |
| FdtFormat.U32RoundTrip | src/arch/aarch64/fdt.rs:172-187 | A big-endian word reads back as written. |
| FdtLayout.StructureLaidOut | src/arch/aarch64/fdt.rs:524-579 | The structure block of every tree is its tokens, lengths, offsets, names and values in order, each at a multiple of four, with fewer than four zero bytes of padding. |
| FdtLayout.HeaderRead | src/arch/aarch64/fdt.rs:305-358 | `new` accepts exactly if magic, sizes and ranges, read from their offsets as big-endian numbers, are in order, and each header field is the word at its offset. |
| FdtLayout.BlobSaysWhere | src/arch/aarch64/fdt.rs:305-358 | A written blob's header words, by offset, point at its laid-out structure block, from a multiple of eight on, and at its strings. |
| FdtLayout.LongIsRead | src/arch/aarch64/fdt.rs:172-187 | A 64-bit number is two big-endian words, the high one first. |
| FdtLayout.CellsAre | src/arch/aarch64/fdt.rs:941-950 | A property has as many cells as whole words, each the big-endian number at its place. |
| FdtLayout.Utf8Exactly | src/arch/aarch64/fdt.rs:213-246 | What is taken for text is exactly the encodings of sequences of Unicode scalar values. |
| FdtLayout.ContainsExactly | src/arch/aarch64/fdt.rs:751-763 | A substring is what stands between some prefix and some suffix. |
| FdtLayout.FirstStringIs | src/arch/aarch64/fdt.rs:499-512 | Of a list of NUL-terminated strings the first is compared. |
| Fdt.OpenBlob | src/arch/aarch64/fdt.rs:305-358 | The header loads accept exactly the blobs whose blocks lie inside totalsize and behind the header, reading nothing past it. |
| Fdt.ScanCstr | src/arch/aarch64/fdt.rs:213-246 | The scan finds the text before the first NUL inside the limit, or nothing if there is none or it is not UTF-8. |
| Fdt.FindProp | src/arch/aarch64/fdt.rs:524-579 | The token loop ends on any bytes and finds the first property of that name. |
| Fdt.FirstChildOffset | src/arch/aarch64/fdt.rs:652-687 | The token loop ends on any bytes and finds the first child's begin token. |
| Fdt.NodeIter.constructor | src/arch/aarch64/fdt.rs:637-643 | A new iterator stands before all the children of the node. |
| Fdt.NodeIter.Next | src/arch/aarch64/fdt.rs:981-1044 | One call yields the next direct child and leaves offset and depth so that the next continues there, on any bytes. |
| Fdt.CompatibleString | src/arch/aarch64/fdt.rs:499-512 | The first string of the compatible property. |
| Fdt.FindPath | src/arch/aarch64/fdt.rs:702-732 | The nested loops descend by the first selected child at each component. |
| Fdt.FindByCompatibleIn | src/arch/aarch64/fdt.rs:751-763 | The recursion over children ends on any bytes and returns the first match below and including the node. |
| Fdt.FindByCompatible | src/arch/aarch64/fdt.rs:744-746 | The same from the root. |
| Fdt.ReserveIter.Next | src/arch/aarch64/fdt.rs:917-930 | One call yields the next reserve entry and continues behind it, or the map has ended. |
| Fdt.CellIter.Next | src/arch/aarch64/fdt.rs:941-950 | One call yields the next whole cell and continues behind it. |
| FdtRoundTrip.SkipBody | src/arch/aarch64/fdt.rs:981-1044 | Inside a child the iterator passes over properties, grandchildren and NOPs up to the end token. |
| FdtRoundTrip.ListsKids | src/arch/aarch64/fdt.rs:981-1044 | Over a flattened list the iterator yields exactly the direct children, in order. |
| FdtRoundTrip.ReadsNode | src/arch/aarch64/fdt.rs:490-687 | From a flattened node: its name, for each property name the first value, and its children. |
| FdtRoundTrip.ReadsBack | src/arch/aarch64/fdt.rs:454-687 | Reading a flattened tree back rebuilds it, node for node. |
| FdtRoundTrip.RootSkipsNoNops | src/arch/aarch64/fdt.rs:454-461 | A well-formed structure block has a root for the reader if and only if no NOP precedes it. |
| FdtBlob.BlobReadsBack | src/arch/aarch64/fdt.rs:305-687 | From a whole blob: accepted, the tree rebuilt, the reserve map listed. |
| FdtBlob.CellsReadBack | src/arch/aarch64/fdt.rs:941-950 | Cells read back as written, ragged bytes ignored. |
| FdtBlob.BlobIsSearched | src/arch/aarch64/fdt.rs:702-763 | From a whole blob: a written path finds the subtree it leads to, a substring the first node in pre-order. |
| FdtSearch.SearchesInPreorder | src/arch/aarch64/fdt.rs:751-763 | The recursive search returns the first node in pre-order whose first compatible string contains the argument, or none exactly if there is none. |
| FdtSearch.FirstFit | src/arch/aarch64/fdt.rs:742-743 | What "first in pre-order" means: an earlier node never fits. |
| FdtSearch.FindsSubtree | src/arch/aarch64/fdt.rs:702-732 | find ends on a node representing the subtree the path leads to, or nowhere exactly if it leads nowhere. |
| FdtSearch.SelectsMeaning | src/arch/aarch64/fdt.rs:714-725 | A component with a unit address matches that full name, one without matches the name before the @. |
| FdtSearch.ComponentsOfWritten | src/arch/aarch64/fdt.rs:706-706 | Splitting a written path gives its components back. |
| TextGrid.GridIsWindow | src/hal/fb.rs:324-372 | Whatever is typed, the grid shows the last lines of everything typed. |
| TextGrid.LineFills | src/hal/fb.rs:324-372 | Text that fits stands on its line from the cursor on, even if it fills the line; nothing else moves. |
| TextGrid.LineEnds | src/hal/fb.rs:324-372 | On a full line the next character starts a new one; a newline starts a blank line; a carriage return erases nothing. |
| TextGrid.CrLfIsInvisible | src/hal/fb.rs:374-390 | The carriage returns put before newlines change nothing on the screen. |
| Framebuffer.DrawnByte | src/hal/fb.rs:253-257 | Eight pixels of a drawn scanline, leftmost weighing 128, are the font's byte, in two colours. |
| Framebuffer.ShownScanline | src/hal/fb.rs:240-262 | Each scanline of each cell of a shown grid is the font's byte for its character, '?' for non-ASCII, dark if blank. |
| Framebuffer.Framebuffer.CellShows | src/hal/fb.rs:240-262 | The same of the pixels in memory, whenever the console shows its grid, hence after every WriteChar and WriteStr. |
| Framebuffer.ShownAfterLineBreak | src/hal/fb.rs:288-322 | A scrolled grid looks like the picture moved up one glyph over a background strip, margins included. |
| Framebuffer.ShownAfterStamp | src/hal/fb.rs:240-262 | A typed glyph shows in its own cell and nowhere else. |
| Framebuffer.IndexInjective | src/hal/fb.rs:225-238 | Two pixels share a word only if they are the same pixel. |
| Framebuffer.Framebuffer.Absent | src/hal/fb.rs:73-75 | Without a framebuffer: inactive, and the geometry zero. |
| Framebuffer.Framebuffer.PutPixel | src/hal/fb.rs:225-238 | One pixel stored in bounds, no other changed; nothing at all while inactive. |
| Framebuffer.Framebuffer.BlitGlyph | src/hal/fb.rs:240-262 | The glyph's 128 pixels drawn, no other changed; each whole scanline, leftmost pixel weighing 128, is the font's byte for the character, '?' for non-ASCII; nothing while inactive. |
| Framebuffer.Framebuffer.Clear | src/hal/fb.rs:264-286 | The cleared screen shows the empty grid, cursor at the top left. |
| Framebuffer.Framebuffer.Scroll | src/hal/fb.rs:288-322 | The overlapping copy moves the picture up as it was before the call and fills the last strip; nothing while inactive. |
| Framebuffer.Framebuffer.WriteChar | src/hal/fb.rs:324-372 | After any character the visible pixels show the grid with that character typed. |
| Framebuffer.Framebuffer.WriteStr | src/hal/fb.rs:374-390 | After any string the visible pixels show the grid with that string typed; nothing changes while inactive. |

## Left out

- UART, GIC and AIC drivers, `println!`, the monitor's command table, the panic path and the bytes `write` puts on the UART: device I/O. `write` is modelled up to its return value.
- Boot assembly, the MMU-enable sequence, the granule check before the builder, barriers, TLB and cache maintenance, `AT` probes: no semantics in the code to prove against; `set_user_ttbr0` is an assignment.
- Task names, `esr` and `far` in the trap frame: recorded and printed only.
- SP_EL0: not part of the switched context, because the restore path ignores `frame.sp`.
- User addresses that are valid by range but unmapped: the kernel would fault at EL1 while copying; user memory is total here.
- The single-task paths (`el0`, `el0fault`), monitor re-entry across sessions, timer interrupts taken at EL1 before the first EL0 instruction, the embedded user programs.
- `SpinLock`: one core, one user, nothing to interleave.
- NoLostWakeup.NoLostWakeups: assumes the tick counter does not wrap, because a deadline it has wrapped past is no longer ahead of it.
- MemoryMap.BuiltTranslates: the displacement keeps all outputs below 2^48, because the descriptor constructors mask nothing.
- Mmu.Memory.Ioremap: assumes the physical address is below 2^48 (`Descriptors.PageRoundTripExactly` says exactly why) and that the pool cursor has not been advanced 2^64 - 2 times, because it wraps. The pool tables' physical addresses are the true ones, which `virt_to_phys` yields only without displacement.
- Mmu.Memory.WireUserTables: the task's tables lie outside the kernel's static and apart from other tasks', as its safety comment demands; `build_task_user_space`'s copy of the program into the code page is not modelled.
- Retries.ExitWakesExactlyItsWaiters: assumes of user code that a task resumed in the middle of a blocking call executes the same svc again. Program text is not modelled; the saved program counter points at that svc, in a page nobody can write.
- User memory in the scheduler's model is keyed by root table and address; that two tasks' spaces have no byte in common is `AddressSpaces.TasksShareNothing`.
- The texts `walk`, `decode_leaf`, `dump_tasks` and the devicetree `dump` print: formatting without a specification.
- Fdt.NodeIter.Next: offsets are unbounded here; all sums stay far below 2^64 because every term comes from a u32, so `checked_add` never fails and no addition wraps.
- `prop_u32`, `prop_u64`, `prop_str` and `name` of the devicetree reader: one-line wrappers of `prop` and `full_name`.
- The font's drawings are a parameter of the framebuffer, and `init_from_fdt` is left out: the buffer is assumed mapped in full.
