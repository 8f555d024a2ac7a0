/** The state the scheduler, the IPC code, the system calls and the timer share, and
    the meaning of every operation on it as a function from state to state. The class in
    Sched.dfy performs the same operations in place and is proved to compute these. */
module KernelState {
  import opened Words

  const MAX_TASKS: int := 8
  const MSG_MAX: int := 32
  const KERNEL_BASE: u64 := 0xFFFF_0000_0000_0000
  const USER_CODE_VA: u64 := 0x10_0000

  const SYS_WRITE: u64 := 1
  const SYS_EXIT: u64 := 2
  const SYS_YIELD: u64 := 3
  const SYS_SEND: u64 := 4
  const SYS_RECV: u64 := 5
  const SYS_RECVBLK: u64 := 6
  const SYS_SENDBLK: u64 := 7
  const SYS_SLEEP: u64 := 8
  const SYS_EXIT_CODE: u64 := 9
  const SYS_WAIT: u64 := 10

  /** Error numbers as they reach x0: the syscall arms negate some of them themselves,
      while `ipc_send` and `try_wait` hand back the positive number. */
  const ESRCH: u64 := 3
  const EAGAIN: u64 := 11
  const NEG_EBADF: u64 := 0xFFFF_FFFF_FFFF_FFFF
  const NEG_E2BIG: u64 := 0xFFFF_FFFF_FFFF_FFF9
  const NEG_EAGAIN: u64 := 0xFFFF_FFFF_FFFF_FFF5
  const NEG_EFAULT: u64 := 0xFFFF_FFFF_FFFF_FFF2
  const NEG_EINVAL: u64 := 0xFFFF_FFFF_FFFF_FFEA
  const NEG_ENOSYS: u64 := 0xFFFF_FFFF_FFFF_FFDA

  type Tid = n: int | 0 <= n < 8
  type Regs = s: seq<u64> | |s| == 31 witness ZERO_REGS
  const ZERO_REGS: seq<u64> := [0, 0, 0, 0, 0, 0, 0, 0, 0, 0, 0, 0, 0, 0, 0, 0, 0, 0, 0, 0, 0, 0, 0, 0, 0, 0, 0, 0, 0, 0, 0]
  type Mailbox = s: seq<u8> | |s| == 32 witness ZERO_MAILBOX
  const ZERO_MAILBOX: seq<u8> := [0, 0, 0, 0, 0, 0, 0, 0, 0, 0, 0, 0, 0, 0, 0, 0, 0, 0, 0, 0, 0, 0, 0, 0, 0, 0, 0, 0, 0, 0, 0, 0]
  type MsgLen = n: int | 0 <= n <= 32

  datatype TaskState = Exited | Ready | Running | Blocked

  /** What the vector stub saves and `__vectors_restore` reloads. `sp` is recorded but
      never reloaded. */
  datatype Frame = Frame(x: Regs, sp: u64, elr: u64, spsr: u64)

  /** The part of a frame that `eret` puts into the CPU. */
  datatype Cpu = Cpu(x: Regs, elr: u64, spsr: u64)

  function CpuOf(f: Frame): Cpu { Cpu(f.x, f.elr, f.spsr) }

  const EMPTY_FRAME: Frame := Frame(ZERO_REGS, 0, 0, 0)

  datatype Task = Task(
    saved: Frame,
    ttbr0: u64,
    kstackTop: u64,
    state: TaskState,
    mailbox: Mailbox,
    mailboxLen: MsgLen,
    mailboxFrom: Tid,
    blockedSendDst: Tid,
    wakeTick: u64,
    exitCode: i64,
    waitingOn: Tid)

  const EMPTY_TASK: Task := Task(EMPTY_FRAME, 0, 0, Exited, ZERO_MAILBOX, 0, 0, 0, 0, 0, 0)

  type Table = s: seq<Task> | |s| == 8 witness EMPTY_TABLE
  const EMPTY_TABLE: seq<Task> := [EMPTY_TASK, EMPTY_TASK, EMPTY_TASK, EMPTY_TASK, EMPTY_TASK, EMPTY_TASK, EMPTY_TASK, EMPTY_TASK]

  /** User memory: one byte store per address space, keyed by root table and address. */
  type Memory = map<(u64, u64), u8>

  datatype Kernel = Kernel(
    tasks: Table,
    queue: seq<Tid>,          // the ready queue, oldest first
    current: Tid,             // 0 when no user task is active
    frame: Frame,             // the on-stack trap frame of the exception being handled
    pendingSp: u64,           // PENDING_KSTACK_SP
    spEl1: u64,               // SP_EL1 while the task runs in EL0
    ttbr0: u64,               // live TTBR0_EL1
    ticks: u64,
    preempt: bool,
    preempts: u64,
    mem: Memory)

  function SetTask(k: Kernel, t: Tid, task: Task): Kernel {
    k.(tasks := k.tasks[t := task])
  }

  function SetX(f: Frame, i: nat, v: u64): Frame
    requires i < 31
  {
    f.(x := f.x[i := v])
  }

  /** Write a return value into x0 of the frame. */
  function Ret(k: Kernel, v: u64): Kernel { k.(frame := SetX(k.frame, 0, v)) }

  // ---- The ready queue --------------------------------------------------------

  function Enqueue(k: Kernel, t: Tid): Kernel {
    if |k.queue| >= MAX_TASKS then k else k.(queue := k.queue + [t])
  }

  /** The tail the three switching functions share: pick the oldest Ready task and load it. */
  function Dispatch(k: Kernel): (Kernel, bool) {
    if k.queue == [] then (k, false) else
    var next := k.queue[0];
    var k1 := k.(queue := k.queue[1..]);
    var t := k1.tasks[next];
    if t.state == Exited then (k1, false) else
    (k1.(frame := t.saved,
         tasks := k1.tasks[next := t.(state := Running)],
         ttbr0 := if t.ttbr0 != 0 then t.ttbr0 else k1.ttbr0,
         pendingSp := t.kstackTop,
         current := next),
     true)
  }

  /** `save_and_switch` before the pick: keep the frame, and if Running requeue. */
  function Park(k: Kernel): Kernel {
    var cur := k.current;
    if cur == 0 || k.tasks[cur].state == Exited then k else
    var t := k.tasks[cur].(saved := k.frame);
    if t.state == Running then Enqueue(SetTask(k, cur, t.(state := Ready)), cur)
    else SetTask(k, cur, t)
  }

  function SaveAndSwitch(k: Kernel): (Kernel, bool) { Dispatch(Park(k)) }

  /** `block_and_switch` before the pick: keep the frame and sleep. */
  function Sleepify(k: Kernel): Kernel {
    if k.tasks[k.current].state == Exited then k else
    SetTask(k, k.current, k.tasks[k.current].(saved := k.frame, state := Blocked))
  }

  function BlockAndSwitch(k: Kernel): (Kernel, bool) {
    if k.current == 0 then (k, false) else Dispatch(Sleepify(k))
  }

  /** `kill_current_task` before the pick. */
  function Bury(k: Kernel): Kernel {
    var t := k.tasks[k.current];
    if t.state == Exited then k else
    SetTask(k, k.current,
            t.(state := Exited, blockedSendDst := 0, wakeTick := 0, waitingOn := 0,
               exitCode := -1, mailboxLen := 0, mailboxFrom := 0))
  }

  function KillCurrent(k: Kernel): (Kernel, bool) {
    if k.current == 0 then (k, false) else Dispatch(Bury(k))
  }

  // ---- Wake scans -----------------------------------------------------------------

  /** Why a scan over the task table wakes tasks. */
  datatype Reason = Senders(recv: Tid) | Sleepers(now: u64) | Waiters(child: Tid)

  predicate Elapsed(t: Task, now: u64) { t.wakeTick != 0 && t.wakeTick <= now }

  /** Does the scan wake this task? */
  predicate Wakes(r: Reason, t: Task) {
    t.state == Blocked &&
    match r
    case Senders(recv) => t.blockedSendDst == recv
    case Sleepers(now) => Elapsed(t, now)
    case Waiters(child) => t.waitingOn == child
  }

  /** What the scan leaves of this task. An elapsed deadline is cleared even if stale. */
  function Touched(r: Reason, t: Task): Task {
    match r
    case Senders(_) => if Wakes(r, t) then t.(blockedSendDst := 0, state := Ready) else t
    case Sleepers(now) =>
      if Wakes(r, t) then t.(wakeTick := 0, state := Ready)
      else if Elapsed(t, now) then t.(wakeTick := 0)
      else t
    case Waiters(_) => if Wakes(r, t) then t.(waitingOn := 0, state := Ready) else t
  }

  function ScanOne(k: Kernel, r: Reason, t: Tid): Kernel {
    var k1 := SetTask(k, t, Touched(r, k.tasks[t]));
    if Wakes(r, k.tasks[t]) then Enqueue(k1, t) else k1
  }

  /** The scan over TIDs below `n`, in ascending order from 1. */
  function Scan(k: Kernel, r: Reason, n: nat): Kernel
    requires n <= 8
  {
    if n <= 1 then k else ScanOne(Scan(k, r, n - 1), r, n - 1)
  }

  // ---- Task creation --------------------------------------------------------------

  /** The lowest free slot, or 8. */
  function FreeSlot(tasks: Table, from: nat): (n: nat)
    requires from <= 8
    ensures from <= n <= 8
    decreases 8 - from
  {
    if from == 8 || tasks[from].state == Exited then from else FreeSlot(tasks, from + 1)
  }

  datatype SpawnArgs = SpawnArgs(ttbr0: u64, kstackTop: u64, entry: u64, sp: u64)

  function Spawn(k: Kernel, a: SpawnArgs): (Kernel, nat) {
    var tid := FreeSlot(k.tasks, 1);
    if tid == 8 then (k, 8) else
    var t := EMPTY_TASK.(saved := EMPTY_FRAME.(elr := a.entry, sp := a.sp),
                         ttbr0 := a.ttbr0, kstackTop := a.kstackTop, state := Ready);
    (Enqueue(SetTask(k, tid, t), tid), tid)
  }

  // ---- Message passing ------------------------------------------------------------

  datatype SendResult = SendOk | SendErr(errno: u64)

  function IpcSend(k: Kernel, dst: u64, data: seq<u8>): (r: (Kernel, SendResult))
    ensures r.1 != SendOk ==> r.0 == k
    ensures r.1 == SendErr(EAGAIN) ==> 0 < dst < MAX_TASKS
  {
    if dst == 0 || dst >= MAX_TASKS then (k, SendErr(ESRCH)) else
    var t := k.tasks[dst];
    if t.state == Exited then (k, SendErr(ESRCH)) else
    if t.mailboxLen > 0 then (k, SendErr(EAGAIN)) else
    var n := Min(|data|, MSG_MAX);
    var filled := t.(mailbox := data[..n] + t.mailbox[n..], mailboxLen := n, mailboxFrom := k.current);
    if t.state == Blocked
    then (Enqueue(SetTask(k, dst, filled.(state := Ready)), dst), SendOk)
    else (SetTask(k, dst, filled), SendOk)
  }

  datatype RecvResult = RecvOk(data: seq<u8>, from: Tid) | RecvErr

  function IpcRecv(k: Kernel, bufLen: nat): (Kernel, RecvResult) {
    if k.current == 0 then (k, RecvErr) else
    var t := k.tasks[k.current];
    if t.mailboxLen == 0 then (k, RecvErr) else
    var n := Min(t.mailboxLen, bufLen);
    var drained := SetTask(k, k.current, t.(mailboxLen := 0, mailboxFrom := 0));
    (Scan(drained, Senders(k.current), 8), RecvOk(t.mailbox[..n], t.mailboxFrom))
  }

  datatype WaitResult = WaitOk(code: i64) | WaitErr(errno: u64)

  function TryWait(k: Kernel, child: u64): (r: WaitResult)
    ensures r == WaitErr(EAGAIN) ==> 0 < child < MAX_TASKS
  {
    if child == 0 || child >= MAX_TASKS then WaitErr(ESRCH) else
    if k.tasks[child].state == Exited then WaitOk(k.tasks[child].exitCode) else WaitErr(EAGAIN)
  }

  // ---- User memory -------------------------------------------------------------------

  /** `is_valid_user_range`, with the overflow check of `checked_add`. */
  predicate ValidUserRange(va: u64, len: u64): (valid: bool)
    ensures valid <==> va < 0xFFFF_0000_0000_0000 && va + len <= 0xFFFF_0000_0000_0000
  {
    va < KERNEL_BASE &&
    (len == 0 || (va + len < TWO_64 && va + len <= KERNEL_BASE))
  }

  function Peek(m: Memory, root: u64, va: u64): u8 {
    if (root, va) in m then m[(root, va)] else 0
  }

  /** The `len` bytes at `va`, read through the live TTBR0. */
  function ReadUser(m: Memory, root: u64, va: u64, len: nat): (s: seq<u8>)
    requires va + len < TWO_64
    ensures |s| == len
  {
    if len == 0 then [] else ReadUser(m, root, va, len - 1) + [Peek(m, root, va + len - 1)]
  }

  function WriteUser(m: Memory, root: u64, va: u64, s: seq<u8>): Memory
    requires va + |s| < TWO_64
  {
    if s == [] then m
    else WriteUser(m, root, va, s[..|s| - 1])[(root, va + |s| - 1) := s[|s| - 1]]
  }

  // ---- System calls --------------------------------------------------------------------

  /** What the exception handler does next: return to EL0 through the frame, or re-enter
      the monitor because nothing is left to run. */
  datatype Outcome = Resume(k: Kernel) | Monitor(k: Kernel)

  function DoWrite(k: Kernel): Kernel {
    var x := k.frame.x;
    if x[0] != 1 then Ret(k, NEG_EBADF) else
    if x[2] > 256 then Ret(k, NEG_E2BIG) else
    if !ValidUserRange(x[1], x[2]) then Ret(k, NEG_EFAULT) else
    Ret(k, x[2])
  }

  function DoYield(k: Kernel): Kernel {
    if k.current == 0 then Ret(k, 0) else
    var (k1, switched) := SaveAndSwitch(k);
    if switched then k1 else Ret(k1, 0)
  }

  function DoSend(k: Kernel): Kernel {
    var x := k.frame.x;
    if x[2] == 0 then Ret(k, 0) else
    var len := Min(x[2], MSG_MAX);
    if !ValidUserRange(x[1], len) then Ret(k, NEG_EFAULT) else
    match IpcSend(k, x[0], ReadUser(k.mem, k.ttbr0, x[1], len))
    case (k1, SendOk) => Ret(k1, 0)
    case (k1, SendErr(e)) => Ret(k1, e)
  }

  /** Copy a received message out and report its length and sender. */
  function Deliver(k: Kernel, va: u64, data: seq<u8>, from: Tid): Kernel
    requires |data| <= 32 && va + |data| < TWO_64
  {
    k.(mem := WriteUser(k.mem, k.ttbr0, va, data),
       frame := SetX(SetX(k.frame, 0, |data|), 1, from))
  }

  function DoRecv(k: Kernel): Kernel {
    var x := k.frame.x;
    if x[1] == 0 then Ret(k, NEG_EINVAL) else
    var bufLen := Min(x[1], MSG_MAX);
    if !ValidUserRange(x[0], bufLen) then Ret(k, NEG_EFAULT) else
    match IpcRecv(k, bufLen)
    case (k1, RecvOk(data, from)) => Deliver(k1, x[0], data, from)
    case (k1, RecvErr) => Ret(k1, EAGAIN)
  }

  function Rewind(k: Kernel): Kernel { k.(frame := k.frame.(elr := WrappingSub(k.frame.elr, 4))) }
  function Unwind(k: Kernel): Kernel { k.(frame := k.frame.(elr := WrappingAdd(k.frame.elr, 4))) }

  function DoRecvBlk(k: Kernel): Kernel {
    var x := k.frame.x;
    if x[1] == 0 then Ret(k, NEG_EINVAL) else
    var bufLen := Min(x[1], MSG_MAX);
    if !ValidUserRange(x[0], bufLen) then Ret(k, NEG_EFAULT) else
    match IpcRecv(k, bufLen)
    case (k1, RecvOk(data, from)) => Deliver(k1, x[0], data, from)
    case (k1, RecvErr) =>
      var (k2, switched) := BlockAndSwitch(Rewind(k1));
      if switched then k2 else Ret(Unwind(k2), NEG_EAGAIN)
  }

  /** Apply `f`'s field update to a live task, as `if let Some(t) = task(tid)` does. */
  function SetSendDst(k: Kernel, t: Tid, dst: Tid): Kernel {
    if k.tasks[t].state == Exited then k else SetTask(k, t, k.tasks[t].(blockedSendDst := dst))
  }
  function SetWakeTick(k: Kernel, t: Tid, tick: u64): Kernel {
    if k.tasks[t].state == Exited then k else SetTask(k, t, k.tasks[t].(wakeTick := tick))
  }
  function SetWaitingOn(k: Kernel, t: Tid, child: Tid): Kernel {
    if k.tasks[t].state == Exited then k else SetTask(k, t, k.tasks[t].(waitingOn := child))
  }

  function DoSendBlk(k: Kernel): Kernel {
    var x := k.frame.x;
    if x[2] == 0 then Ret(k, 0) else
    var len := Min(x[2], MSG_MAX);
    if !ValidUserRange(x[1], len) then Ret(k, NEG_EFAULT) else
    match IpcSend(k, x[0], ReadUser(k.mem, k.ttbr0, x[1], len))
    case (k1, SendOk) => Ret(k1, 0)
    case (k1, SendErr(e)) =>
      if e != EAGAIN then Ret(k1, e) else
      var cur := k1.current;
      if cur == 0 then Ret(k1, e) else
      var (k2, switched) := BlockAndSwitch(Rewind(SetSendDst(k1, cur, x[0])));
      if switched then k2 else Ret(SetSendDst(Unwind(k2), cur, 0), NEG_EAGAIN)
  }

  /** `now.checked_add(n).unwrap_or(u64::MAX)`. */
  function Deadline(now: u64, n: u64): u64 { if now + n < TWO_64 then now + n else U64_MAX }

  function DoSleep(k: Kernel): Kernel {
    var n := k.frame.x[0];
    if n == 0 then Ret(k, 0) else
    var cur := k.current;
    if cur == 0 then Ret(k, NEG_EINVAL) else
    var (k1, switched) := BlockAndSwitch(Ret(SetWakeTick(k, cur, Deadline(k.ticks, n)), 0));
    if switched then k1 else SetWakeTick(k1, cur, 0)
  }

  /** The exit arm up to the switch: record the code and wake the waiters. */
  function Finish(k: Kernel): Kernel {
    var cur := k.current;
    var code := AsI64(k.frame.x[0]);
    var k1 := if k.tasks[cur].state == Exited then k
              else SetTask(k, cur, k.tasks[cur].(state := Exited, exitCode := code));
    Scan(k1, Waiters(cur), 8)
  }

  function DoExit(k: Kernel): Outcome {
    if k.current == 0 then Monitor(k.(preempt := false)) else
    var (k1, switched) := SaveAndSwitch(Finish(k));
    if switched then Resume(k1) else Monitor(k1.(preempt := false))
  }

  function DoWait(k: Kernel): Kernel {
    var child := k.frame.x[0];
    var cur := k.current;
    match TryWait(k, child)
    case WaitOk(code) => Ret(k, AsU64(code))
    case WaitErr(e) =>
      if e != EAGAIN then Ret(k, e) else
      var (k1, switched) := BlockAndSwitch(Rewind(SetWaitingOn(k, cur, child)));
      if switched then k1 else Ret(SetWaitingOn(Unwind(k1), cur, 0), NEG_EAGAIN)
  }

  function HandleSvc(k: Kernel): Outcome {
    var nr := k.frame.x[8];
    if nr == SYS_WRITE then Resume(DoWrite(k))
    else if nr == SYS_YIELD then Resume(DoYield(k))
    else if nr == SYS_SEND then Resume(DoSend(k))
    else if nr == SYS_RECV then Resume(DoRecv(k))
    else if nr == SYS_RECVBLK then Resume(DoRecvBlk(k))
    else if nr == SYS_SENDBLK then Resume(DoSendBlk(k))
    else if nr == SYS_SLEEP then Resume(DoSleep(k))
    else if nr == SYS_EXIT || nr == SYS_EXIT_CODE then DoExit(k)
    else if nr == SYS_WAIT then Resume(DoWait(k))
    else Resume(Ret(k, NEG_ENOSYS))
  }

  // ---- Timer interrupts and faults -------------------------------------------------------

  /** The timer arm of `handle_irq`; the tick counter's `fetch_add` wraps. */
  function HandleTick(k: Kernel): Kernel {
    var k1 := k.(ticks := WrappingAdd(k.ticks, 1));
    var k2 := Scan(k1, Sleepers(k1.ticks), 8);
    if k2.preempt && k2.current != 0 then
      var (k3, switched) := SaveAndSwitch(k2);
      if switched then k3.(preempts := WrappingAdd(k3.preempts, 1)) else k3
    else k2
  }

  function HandleFault(k: Kernel): Outcome {
    var (k1, switched) := KillCurrent(k);
    if switched then Resume(k1) else Monitor(k1.(preempt := false))
  }

  // ---- One exception, from trap to eret ------------------------------------------------

  datatype Cause = Svc | Tick | Fault

  /** An exception taken from EL0: the registers user code has by then, and the bytes it
      has written in its own address space since it was last resumed. */
  datatype Event = Event(cause: Cause, cpu: Cpu, writes: map<u64, u8>)

  function UserWrites(m: Memory, root: u64, w: map<u64, u8>): Memory {
    m + map p: (u64, u64) | p in (set va | va in w :: (root, va)) :: w[p.1]
  }

  /** The vector stub: build the frame on the kernel stack. */
  function Trap(k: Kernel, e: Event): Kernel {
    k.(frame := Frame(e.cpu.x, k.spEl1, e.cpu.elr, e.cpu.spsr),
       mem := UserWrites(k.mem, k.ttbr0, e.writes))
  }

  /** `__vectors_restore`: apply and clear a pending kernel-stack switch. */
  function Restore(k: Kernel): Kernel {
    if k.pendingSp == 0 then k else k.(spEl1 := k.pendingSp, pendingSp := 0)
  }

  function Handle(k: Kernel, c: Cause): Outcome {
    match c
    case Svc => HandleSvc(k)
    case Tick => Resume(HandleTick(k))
    case Fault => HandleFault(k)
  }

  function Step(k: Kernel, e: Event): Outcome {
    match Handle(Trap(k, e), e.cause)
    case Resume(k1) => Resume(Restore(k1))
    case Monitor(k1) => Monitor(k1)
  }

  /** A run: the kernel after a sequence of exceptions, stopping at the monitor. */
  function Run(k: Kernel, es: seq<Event>): Outcome
    decreases |es|
  {
    if es == [] then Resume(k) else
    match Step(k, es[0])
    case Resume(k1) => Run(k1, es[1..])
    case Monitor(k1) => Monitor(k1)
  }

  // ---- Sessions ------------------------------------------------------------------------------

  function SpawnAll(k: Kernel, args: seq<SpawnArgs>): Kernel {
    if args == [] then k else Spawn(SpawnAll(k, args[..|args| - 1]), args[|args| - 1]).0
  }

  /** A booted kernel with an empty task table and nothing running. */
  predicate Booted(k: Kernel) {
    k.tasks == EMPTY_TABLE && k.queue == [] && k.current == 0 && k.pendingSp == 0
  }

  /** The `drop_to_el0_*` tail: take the first Ready task, load its root table and enter EL0
      at the fixed entry point. Only x0..x18 are cleared; `saved` is not consulted. */
  function EnterFirst(k: Kernel, leftover: Regs): Outcome {
    if k.queue == [] then Monitor(k) else
    var first := k.queue[0];
    var k1 := k.(queue := k.queue[1..]);
    var t := k1.tasks[first];
    if t.state == Exited then Monitor(k1) else
    Resume(k1.(tasks := k1.tasks[first := t.(state := Running)],
               current := first,
               ttbr0 := t.ttbr0,
               frame := Frame(ZERO_REGS[..19] + leftover[19..], k1.spEl1, USER_CODE_VA, 0)))
  }

  /** A session: spawn the tasks and enter the first. */
  function Start(boot: Kernel, args: seq<SpawnArgs>, leftover: Regs): Outcome {
    EnterFirst(SpawnAll(boot, args), leftover)
  }

  /** A session as far as the exceptions `es`. */
  function Session(boot: Kernel, args: seq<SpawnArgs>, leftover: Regs, es: seq<Event>): Outcome {
    match Start(boot, args, leftover)
    case Resume(k) => Run(k, es)
    case Monitor(k) => Monitor(k)
  }
}
