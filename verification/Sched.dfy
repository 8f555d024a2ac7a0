/** The kernel's scheduler state updated in place, as the source does it. Every method is proved
    to compute the corresponding function of KernelState. */
module Sched {
  import opened Words
  import K = KernelState
  import opened KernelState

  datatype Option<+T> = None | Some(value: T)

  /** The ready queue: a FIFO ring of TIDs. */
  class Scheduler {
    const readyQueue: array<Tid>
    var head: nat
    var count: nat

    ghost predicate Valid()
      reads this
    {
      readyQueue.Length == 8 && head < 8 && count <= 8
    }

    /** The queue the ring stands for, oldest first. */
    ghost function Queue(): seq<Tid>
      requires Valid()
      reads this, readyQueue
    {
      seq(count, i requires 0 <= i < count && Valid() reads this, readyQueue =>
                   readyQueue[(head + i) % 8])
    }

    constructor ()
      ensures Valid() && fresh(readyQueue) && Queue() == []
    {
      readyQueue := new Tid[8](_ => 0);
      head, count := 0, 0;
    }

    method Enqueue(tid: Tid) returns (ok: bool)
      requires Valid()
      modifies this`count, readyQueue
      ensures Valid()
      ensures ok <==> |old(Queue())| < 8
      ensures Queue() == if ok then old(Queue()) + [tid] else old(Queue())
    {
      if count >= MAX_TASKS {
        return false;
      }
      var tail := (head + count) % MAX_TASKS;
      readyQueue[tail] := tid;
      count := count + 1;
      return true;
    }

    method Dequeue() returns (r: Option<Tid>)
      requires Valid()
      modifies this`head, this`count
      ensures Valid()
      ensures r == if old(Queue()) == [] then None else Some(old(Queue())[0])
      ensures Queue() == if old(Queue()) == [] then [] else old(Queue())[1..]
    {
      if count == 0 {
        return None;
      }
      var tid := readyQueue[head];
      ghost var before := Queue();
      ghost var first := head;
      head := (head + 1) % MAX_TASKS;
      count := count - 1;
      forall i | 0 <= i < count ensures Queue()[i] == before[i + 1] { NextSlot(first, i); }
      assert Queue() == before[1..];
      return Some(tid);
    }

    static lemma NextSlot(head: nat, i: nat)
      ensures ((head + 1) % 8 + i) % 8 == (head + (i + 1)) % 8
    {
    }
  }

  /** TASK_TABLE, CURRENT_TID, SCHEDULER, PENDING_KSTACK_SP, the tick counter, the live system
      registers and user memory, with the trap frame of the exception being handled. */
  class Opal {
    const table: array<Task>
    const scheduler: Scheduler
    var current: Tid
    var frame: Frame
    var pendingSp: u64
    var spEl1: u64
    var ttbr0: u64
    var ticks: u64
    var preempt: bool
    var preempts: u64
    var mem: Memory

    ghost function Repr(): set<object> { {this, table, scheduler, scheduler.readyQueue} }

    ghost predicate Valid()
      reads this, scheduler
    {
      table.Length == 8 && scheduler.Valid() && table as object != scheduler.readyQueue
    }

    ghost function View(): Kernel
      requires Valid()
      reads this, table, scheduler, scheduler.readyQueue
    {
      Kernel(table[..], scheduler.Queue(), current, frame, pendingSp, spEl1, ttbr0, ticks,
             preempt, preempts, mem)
    }

    constructor (sp: u64, ticks: u64, preempt: bool, preempts: u64, mem: Memory)
      ensures Valid() && fresh(Repr()) && Booted(View())
      ensures View() == Kernel(EMPTY_TABLE, [], 0, EMPTY_FRAME, 0, sp, 0, ticks, preempt, preempts, mem)
    {
      table := new Task[8](_ => EMPTY_TASK);
      scheduler := new Scheduler();
      current, frame, pendingSp, spEl1, ttbr0 := 0, EMPTY_FRAME, 0, sp, 0;
      this.ticks, this.preempt, this.preempts, this.mem := ticks, preempt, preempts, mem;
      new;
      assert table[..] == EMPTY_TABLE;
    }

    /** Write one slot of the table. */
    method Store(tid: Tid, t: Task)
      requires Valid()
      modifies table
      ensures Valid() && View() == SetTask(old(View()), tid, t)
    {
      table[tid] := t;
    }

    method Enqueue(tid: Tid)
      requires Valid()
      modifies scheduler, scheduler.readyQueue
      ensures Valid() && View() == K.Enqueue(old(View()), tid)
    {
      var _ := scheduler.Enqueue(tid);
    }

    // ---- Context switches -------------------------------------------------------------

    method SaveAndSwitch() returns (switched: bool)
      requires Valid()
      modifies Repr()
      ensures Valid() && (View(), switched) == K.SaveAndSwitch(old(View()))
    {
      var cur := current;
      if cur != 0 {
        if table[cur].state != Exited {
          Store(cur, table[cur].(saved := frame));
          if table[cur].state == Running {
            Store(cur, table[cur].(state := Ready));
            Enqueue(cur);
          }
        }
      }
      assert View() == Park(old(View()));
      switched := LoadNext();
    }

    method BlockAndSwitch() returns (switched: bool)
      requires Valid()
      modifies Repr()
      ensures Valid() && (View(), switched) == K.BlockAndSwitch(old(View()))
    {
      var cur := current;
      if cur == 0 {
        return false;
      }
      if table[cur].state != Exited {
        Store(cur, table[cur].(saved := frame, state := Blocked));
      }
      assert View() == Sleepify(old(View()));
      switched := LoadNext();
    }

    method KillCurrentTask() returns (switched: bool)
      requires Valid()
      modifies Repr()
      ensures Valid() && (View(), switched) == KillCurrent(old(View()))
    {
      var cur := current;
      if cur == 0 {
        return false;
      }
      if table[cur].state != Exited {
        Store(cur, table[cur].(state := Exited, blockedSendDst := 0, wakeTick := 0, waitingOn := 0,
                               exitCode := -1, mailboxLen := 0, mailboxFrom := 0));
      }
      assert View() == Bury(old(View()));
      switched := LoadNext();
    }

    /** The tail of all three: pick the next Ready task and load it. */
    method LoadNext() returns (switched: bool)
      requires Valid()
      modifies Repr()
      ensures Valid() && (View(), switched) == Dispatch(old(View()))
    {
      var picked := scheduler.Dequeue();
      if picked.None? {
        return false;
      }
      var next := picked.value;
      if table[next].state == Exited {
        return false;
      }
      frame := table[next].saved;
      Store(next, table[next].(state := Running));
      if table[next].ttbr0 != 0 {
        ttbr0 := table[next].ttbr0;
      }
      pendingSp := table[next].kstackTop;
      current := next;
      return true;
    }

    // ---- Wake scans -------------------------------------------------------------------------

    method WakeBlockedSenders(recvTid: Tid)
      requires Valid()
      modifies Repr()
      ensures Valid() && View() == Scan(old(View()), Senders(recvTid), 8)
    {
      for tid := 1 to MAX_TASKS
        invariant Valid() && View() == Scan(old(View()), Senders(recvTid), tid)
      {
        if table[tid].state == Blocked && table[tid].blockedSendDst == recvTid {
          Store(tid, table[tid].(blockedSendDst := 0, state := Ready));
          Enqueue(tid);
        }
      }
    }

    method WakeSleepers()
      requires Valid()
      modifies Repr()
      ensures Valid() && View() == Scan(old(View()), Sleepers(old(ticks)), 8)
    {
      var now := ticks;
      for tid := 1 to MAX_TASKS
        invariant Valid() && View() == Scan(old(View()), Sleepers(now), tid)
      {
        var wt := table[tid].wakeTick;
        if wt == 0 {
          continue;
        }
        if wt > now {
          continue;
        }
        if table[tid].state != Blocked {
          Store(tid, table[tid].(wakeTick := 0));
          continue;
        }
        Store(tid, table[tid].(wakeTick := 0, state := Ready));
        Enqueue(tid);
      }
    }

    method WakeWaiters(exitingTid: Tid)
      requires Valid()
      modifies Repr()
      ensures Valid() && View() == Scan(old(View()), Waiters(exitingTid), 8)
    {
      for tid := 1 to MAX_TASKS
        invariant Valid() && View() == Scan(old(View()), Waiters(exitingTid), tid)
      {
        if table[tid].state == Blocked && table[tid].waitingOn == exitingTid {
          Store(tid, table[tid].(waitingOn := 0, state := Ready));
          Enqueue(tid);
        }
      }
    }

    // ---- Creation ---------------------------------------------------------------------------------

    /** Reset the lowest free slot. */
    method AllocTask() returns (r: Option<Tid>)
      requires Valid()
      modifies table
      ensures Valid()
      ensures
        var n := FreeSlot(old(View()).tasks, 1);
        if n == 8 then r == None && View() == old(View())
        else r == Some(n) && View() == SetTask(old(View()), n, EMPTY_TASK)
    {
      for tid := 1 to MAX_TASKS
        invariant Valid() && View() == old(View())
        invariant FreeSlot(View().tasks, 1) == FreeSlot(View().tasks, tid)
      {
        if table[tid].state == Exited {
          Store(tid, EMPTY_TASK);
          return Some(tid);
        }
      }
      return None;
    }

    method Spawn(a: SpawnArgs) returns (r: Option<Tid>)
      requires Valid()
      modifies Repr()
      ensures Valid() && View() == K.Spawn(old(View()), a).0
      ensures r == if K.Spawn(old(View()), a).1 == 8 then None else Some(K.Spawn(old(View()), a).1)
    {
      r := AllocTask();
      if r.None? {
        return;
      }
      var tid := r.value;
      var t := table[tid];
      t := t.(saved := EMPTY_FRAME);
      t := t.(saved := t.saved.(elr := a.entry));
      t := t.(saved := t.saved.(sp := a.sp));
      t := t.(ttbr0 := a.ttbr0);
      t := t.(kstackTop := a.kstackTop);
      t := t.(state := Ready);
      Store(tid, t);
      Enqueue(tid);
    }

    /** Take the first spawned task into EL0. False means nobody was there to run. */
    method DropToEl0(leftover: Regs) returns (entered: bool)
      requires Valid()
      modifies Repr()
      ensures Valid()
      ensures EnterFirst(old(View()), leftover) == if entered then Resume(View()) else K.Monitor(View())
    {
      var first := scheduler.Dequeue();
      if first.None? {
        return false;
      }
      if table[first.value].state == Exited {
        return false;
      }
      Store(first.value, table[first.value].(state := Running));
      current := first.value;
      ttbr0 := table[first.value].ttbr0;
      frame := Frame(ZERO_REGS[..19] + leftover[19..], spEl1, USER_CODE_VA, 0);
      return true;
    }

    // ---- Messages ---------------------------------------------------------------------------------

    method IpcSend(dst: u64, data: seq<u8>) returns (r: SendResult)
      requires Valid()
      modifies Repr()
      ensures Valid() && (View(), r) == K.IpcSend(old(View()), dst, data)
    {
      if dst == 0 || dst >= MAX_TASKS {
        return SendErr(ESRCH);
      }
      if table[dst].state == Exited {
        return SendErr(ESRCH);
      }
      if table[dst].mailboxLen > 0 {
        return SendErr(EAGAIN);
      }
      var n := Min(|data|, MSG_MAX);
      Store(dst, table[dst].(mailbox := data[..n] + table[dst].mailbox[n..], mailboxLen := n,
                             mailboxFrom := current));
      ghost var filled := View();
      if table[dst].state == Blocked {
        Store(dst, table[dst].(state := Ready));
        assert View() == SetTask(old(View()), dst, filled.tasks[dst].(state := Ready));
        Enqueue(dst);
      }
      return SendOk;
    }

    method IpcRecv(bufLen: nat) returns (r: RecvResult)
      requires Valid()
      modifies Repr()
      ensures Valid() && (View(), r) == K.IpcRecv(old(View()), bufLen)
      ensures r.RecvOk? ==> |r.data| <= bufLen && |r.data| <= 32
    {
      var cur := current;
      if cur == 0 {
        return RecvErr;
      }
      if table[cur].mailboxLen == 0 {
        return RecvErr;
      }
      var n := Min(table[cur].mailboxLen, bufLen);
      var data := table[cur].mailbox[..n];
      var from := table[cur].mailboxFrom;
      Store(cur, table[cur].(mailboxLen := 0, mailboxFrom := 0));
      WakeBlockedSenders(cur);
      return RecvOk(data, from);
    }

    method TryWait(child: u64) returns (r: WaitResult)
      requires Valid()
      ensures r == K.TryWait(View(), child)
    {
      if child == 0 || child >= MAX_TASKS {
        return WaitErr(ESRCH);
      }
      if table[child].state == Exited {
        return WaitOk(table[child].exitCode);
      }
      return WaitErr(EAGAIN);
    }

    /** Copy a user buffer in, byte by byte through the live TTBR0. */
    method CopyIn(va: u64, len: nat) returns (msg: seq<u8>)
      requires va + len < TWO_64
      ensures msg == ReadUser(mem, ttbr0, va, len)
    {
      msg := [];
      for i := 0 to len
        invariant msg == ReadUser(mem, ttbr0, va, i)
      {
        msg := msg + [Peek(mem, ttbr0, va + i)];
      }
    }

    /** Copy a message out, byte by byte through the live TTBR0. */
    method CopyOut(va: u64, msg: seq<u8>)
      requires Valid() && va + |msg| < TWO_64
      modifies this`mem
      ensures Valid() && View() == old(View()).(mem := WriteUser(old(mem), ttbr0, va, msg))
    {
      for i := 0 to |msg|
        invariant Valid() && View() == old(View()).(mem := WriteUser(old(mem), ttbr0, va, msg[..i]))
      {
        assert msg[..i + 1][..i] == msg[..i];
        mem := mem[(ttbr0, va + i) := msg[i]];
      }
      assert msg[..|msg|] == msg;
    }

    // ---- System calls --------------------------------------------------------------------------

    method Return(v: u64)
      requires Valid()
      modifies this`frame
      ensures Valid() && View() == Ret(old(View()), v)
    {
      frame := frame.(x := frame.x[0 := v]);
    }

    method SysWrite()
      requires Valid()
      modifies Repr()
      ensures Valid() && View() == DoWrite(old(View()))
    {
      var fd, bufVa, len := frame.x[0], frame.x[1], frame.x[2];
      if fd != 1 {
        Return(NEG_EBADF);
        return;
      }
      if len > 256 {
        Return(NEG_E2BIG);
        return;
      }
      if !ValidUserRange(bufVa, len) {
        Return(NEG_EFAULT);
        return;
      }
      Return(len);  // the bytes themselves go to the UART, which is not part of this model
    }

    method SysYield()
      requires Valid()
      modifies Repr()
      ensures Valid() && View() == DoYield(old(View()))
    {
      hide K.SaveAndSwitch;
      var switched := false;
      if current != 0 {
        switched := SaveAndSwitch();
      }
      if !switched {
        Return(0);
      }
    }

    method SysSend()
      requires Valid()
      modifies Repr()
      ensures Valid() && View() == DoSend(old(View()))
    {
      hide K.IpcSend, ReadUser;
      var dst, bufVa, len := frame.x[0], frame.x[1], frame.x[2];
      if len == 0 {
        Return(0);
        return;
      }
      len := Min(len, MSG_MAX);
      if !ValidUserRange(bufVa, len) {
        Return(NEG_EFAULT);
        return;
      }
      var msg := CopyIn(bufVa, len);
      var r := IpcSend(dst, msg);
      match r
      case SendOk => Return(0);
      case SendErr(e) => Return(e);
    }

    /** Report a received message to the caller. */
    method Report(va: u64, data: seq<u8>, from: Tid)
      requires Valid() && |data| <= 32 && va + |data| < TWO_64
      modifies Repr()
      ensures Valid() && View() == Deliver(old(View()), va, data, from)
    {
      CopyOut(va, data);
      frame := frame.(x := frame.x[0 := |data|]);
      frame := frame.(x := frame.x[1 := from]);
    }

    method SysRecv()
      requires Valid()
      modifies Repr()
      ensures Valid() && View() == DoRecv(old(View()))
    {
      hide K.IpcRecv;
      var bufVa, bufLen := frame.x[0], frame.x[1];
      if bufLen == 0 {
        Return(NEG_EINVAL);
        return;
      }
      bufLen := Min(bufLen, MSG_MAX);
      if !ValidUserRange(bufVa, bufLen) {
        Return(NEG_EFAULT);
        return;
      }
      var r := IpcRecv(bufLen);
      match r
      case RecvOk(data, from) => Report(bufVa, data, from);
      case RecvErr => Return(EAGAIN);
    }

    method SysRecvBlk()
      requires Valid()
      modifies Repr()
      ensures Valid() && View() == DoRecvBlk(old(View()))
    {
      hide K.IpcRecv, K.BlockAndSwitch;
      var bufVa, bufLen := frame.x[0], frame.x[1];
      if bufLen == 0 {
        Return(NEG_EINVAL);
        return;
      }
      bufLen := Min(bufLen, MSG_MAX);
      if !ValidUserRange(bufVa, bufLen) {
        Return(NEG_EFAULT);
        return;
      }
      var r := IpcRecv(bufLen);
      match r
      case RecvOk(data, from) => Report(bufVa, data, from);
      case RecvErr =>
        frame := frame.(elr := WrappingSub(frame.elr, 4));
        var switched := BlockAndSwitch();
        if !switched {
          frame := frame.(elr := WrappingAdd(frame.elr, 4));
          Return(NEG_EAGAIN);
        }
    }

    method SysSendBlk()
      requires Valid()
      modifies Repr()
      ensures Valid() && View() == DoSendBlk(old(View()))
    {
      hide K.IpcSend, K.BlockAndSwitch, ReadUser;
      var dst, bufVa, len := frame.x[0], frame.x[1], frame.x[2];
      if len == 0 {
        Return(0);
        return;
      }
      len := Min(len, MSG_MAX);
      if !ValidUserRange(bufVa, len) {
        Return(NEG_EFAULT);
        return;
      }
      var msg := CopyIn(bufVa, len);
      var r := IpcSend(dst, msg);
      match r
      case SendOk => Return(0);
      case SendErr(e) =>
        if e == EAGAIN {
          var cur := current;
          if cur == 0 {
            Return(e);
            return;
          }
          if table[cur].state != Exited {
            Store(cur, table[cur].(blockedSendDst := dst));
          }
          frame := frame.(elr := WrappingSub(frame.elr, 4));
          var switched := BlockAndSwitch();
          if !switched {
            frame := frame.(elr := WrappingAdd(frame.elr, 4));
            if table[cur].state != Exited {
              Store(cur, table[cur].(blockedSendDst := 0));
            }
            Return(NEG_EAGAIN);
          }
        } else {
          Return(e);
        }
    }

    method SysSleep()
      requires Valid()
      modifies Repr()
      ensures Valid() && View() == DoSleep(old(View()))
    {
      hide K.BlockAndSwitch;
      var n := frame.x[0];
      if n == 0 {
        Return(0);
        return;
      }
      var cur := current;
      if cur == 0 {
        Return(NEG_EINVAL);
        return;
      }
      var now := ticks;
      var deadline := if now + n < TWO_64 then now + n else U64_MAX;
      if table[cur].state != Exited {
        Store(cur, table[cur].(wakeTick := deadline));
      }
      Return(0);
      var switched := BlockAndSwitch();
      if !switched {
        if table[cur].state != Exited {
          Store(cur, table[cur].(wakeTick := 0));
        }
      }
    }

    /** False means the handler re-enters the monitor. */
    method SysExit() returns (resumed: bool)
      requires Valid()
      modifies Repr()
      ensures Valid() && DoExit(old(View())) == if resumed then Resume(View()) else K.Monitor(View())
    {
      hide K.SaveAndSwitch, Scan;
      var cur := current;
      var code := AsI64(frame.x[0]);
      var switched := false;
      if cur != 0 {
        if table[cur].state != Exited {
          Store(cur, table[cur].(state := Exited, exitCode := code));
        }
        WakeWaiters(cur);
        assert View() == Finish(old(View()));
        switched := SaveAndSwitch();
      }
      if !switched {
        preempt := false;
        return false;
      }
      return true;
    }

    method SysWait()
      requires Valid()
      modifies Repr()
      ensures Valid() && View() == DoWait(old(View()))
    {
      hide K.TryWait, K.BlockAndSwitch;
      var child := frame.x[0];
      var cur := current;
      var r := TryWait(child);
      match r
      case WaitOk(code) => Return(AsU64(code));
      case WaitErr(e) =>
        if e == EAGAIN {
          if table[cur].state != Exited {
            Store(cur, table[cur].(waitingOn := child));
          }
          frame := frame.(elr := WrappingSub(frame.elr, 4));
          var switched := BlockAndSwitch();
          if !switched {
            frame := frame.(elr := WrappingAdd(frame.elr, 4));
            if table[cur].state != Exited {
              Store(cur, table[cur].(waitingOn := 0));
            }
            Return(NEG_EAGAIN);
          }
        } else {
          Return(e);
        }
    }

    method HandleSvcFromEl0() returns (resumed: bool)
      requires Valid()
      modifies Repr()
      ensures Valid() && HandleSvc(old(View())) == if resumed then Resume(View()) else K.Monitor(View())
    {
      var nr := frame.x[8];
      resumed := true;
      if nr == SYS_WRITE { SysWrite(); }
      else if nr == SYS_YIELD { SysYield(); }
      else if nr == SYS_SEND { SysSend(); }
      else if nr == SYS_RECV { SysRecv(); }
      else if nr == SYS_RECVBLK { SysRecvBlk(); }
      else if nr == SYS_SENDBLK { SysSendBlk(); }
      else if nr == SYS_SLEEP { SysSleep(); }
      else if nr == SYS_EXIT || nr == SYS_EXIT_CODE { resumed := SysExit(); }
      else if nr == SYS_WAIT { SysWait(); }
      else { Return(NEG_ENOSYS); }
    }

    // ---- Vectors -------------------------------------------------------------------------------------

    /** The timer arm of the IRQ handler. */
    method HandleTimerIrq()
      requires Valid()
      modifies Repr()
      ensures Valid() && View() == HandleTick(old(View()))
    {
      hide K.SaveAndSwitch, Scan;
      ticks := WrappingAdd(ticks, 1);
      WakeSleepers();
      if preempt && current != 0 {
        var switched := SaveAndSwitch();
        if switched {
          preempts := WrappingAdd(preempts, 1);
        }
      }
    }

    method KillTaskFromEl0() returns (resumed: bool)
      requires Valid()
      modifies Repr()
      ensures Valid() && HandleFault(old(View())) == if resumed then Resume(View()) else K.Monitor(View())
    {
      resumed := KillCurrentTask();
      if !resumed {
        preempt := false;
      }
    }

    method VectorsRestore()
      requires Valid()
      modifies this`spEl1, this`pendingSp
      ensures Valid() && View() == Restore(old(View()))
    {
      if pendingSp != 0 {
        spEl1 := pendingSp;
        pendingSp := 0;
      }
    }

    /** One exception taken from EL0: stub, handler, restore. False means the monitor. */
    method TakeException(e: Event) returns (resumed: bool)
      requires Valid()
      modifies Repr()
      ensures Valid() && Step(old(View()), e) == if resumed then Resume(View()) else K.Monitor(View())
    {
      frame := Frame(e.cpu.x, spEl1, e.cpu.elr, e.cpu.spsr);
      mem := UserWrites(mem, ttbr0, e.writes);
      match e.cause {
        case Svc => resumed := HandleSvcFromEl0();
        case Tick => HandleTimerIrq(); resumed := true;
        case Fault => resumed := KillTaskFromEl0();
      }
      if resumed {
        VectorsRestore();
      }
    }

    /** Any number of exceptions, until the monitor is re-entered. */
    method TakeExceptions(es: seq<Event>) returns (resumed: bool)
      requires Valid()
      modifies Repr()
      ensures Valid() && Run(old(View()), es) == if resumed then Resume(View()) else K.Monitor(View())
    {
      resumed := true;
      for i := 0 to |es|
        invariant Valid()
        invariant Run(old(View()), es) == if resumed then Run(View(), es[i..]) else K.Monitor(View())
      {
        if resumed {
          resumed := TakeException(es[i]);
        }
      }
    }
  }
}
