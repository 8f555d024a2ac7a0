/** The handlers do what `Perform` says, in every well-formed state and for every exception,
    except that a task which blocks while nobody is Ready stays on the CPU. */
module Handlers {
  import opened Words
  import opened KernelState
  import opened WellFormed
  import opened Actions

  lemma ParkIsRequeued(k: Kernel)
    requires WF(k)
    ensures Park(k) == Requeued(k)
  {
    MakeReady(k, k.current, k.tasks[k.current].(saved := k.frame, state := Ready));
  }

  lemma SendIsPut(k: Kernel, dst: Tid, data: seq<u8>)
    requires WF(k) && dst != 0 && |data| <= 32
    requires k.tasks[dst].state != Exited && k.tasks[dst].mailboxLen == 0
    ensures IpcSend(k, dst, data) == (Put(k, dst, data), SendOk)
  {
    assert data[..|data|] == data;
    var t := k.tasks[dst];
    var filled := t.(mailbox := data + t.mailbox[|data|..], mailboxLen := |data|, mailboxFrom := k.current);
    if t.state == Blocked {
      MakeReady(k, dst, filled.(state := Ready));
    }
  }

  /** Yielding always switches in a well-formed state, if only to the caller itself. */
  lemma YieldPerforms(k: Kernel)
    requires WF(k)
    ensures Resume(DoYield(k)) == Perform(k, Yields)
  {
    ParkIsRequeued(k);
    BeforeSane(k, Yields);
    DispatchWF(Requeued(k));
  }

  lemma SendPerforms(k: Kernel)
    requires WF(k)
    ensures Resume(DoSend(k)) == Perform(k, SendAction(k, false))
  {
    var a := SendAction(k, false);
    if a.Sends? { SendIsPut(k, a.dst, a.data); }
  }

  lemma RecvPerforms(k: Kernel)
    requires WF(k)
    ensures Resume(DoRecv(k)) == Perform(k, RecvAction(k, false))
  {
  }

  /** Blocking when somebody is Ready: the caller goes to sleep and the switch happens. */
  lemma SleepifyIsBlocks(k: Kernel, k1: Kernel, on: Condition)
    requires WF(k) && k.queue != []
    requires Sleepify(k1) == Before(k, Blocks(on)).(frame := k1.frame)
    requires k1.current == k.current
    ensures BlockAndSwitch(k1).1 && Resume(BlockAndSwitch(k1).0) == Perform(k, Blocks(on))
  {
    BeforeSane(k, Blocks(on));
    DispatchWF(Before(k, Blocks(on)));
  }

  lemma RecvBlkPerforms(k: Kernel)
    requires WF(k)
    requires RecvAction(k, true).Blocks? ==> k.queue != []
    ensures Resume(DoRecvBlk(k)) == Perform(k, RecvAction(k, true))
  {
    if RecvAction(k, true).Blocks? {
      SleepifyIsBlocks(k, Rewind(k), Mail);
    }
  }

  lemma SendBlkPerforms(k: Kernel)
    requires WF(k)
    requires SendAction(k, true).Blocks? ==> k.queue != []
    ensures Resume(DoSendBlk(k)) == Perform(k, SendAction(k, true))
  {
    var a := SendAction(k, true);
    if a.Sends? { SendIsPut(k, a.dst, a.data); }
    if a.Blocks? {
      SleepifyIsBlocks(k, Rewind(SetSendDst(k, k.current, k.frame.x[0])), a.on);
    }
  }

  lemma SleepPerforms(k: Kernel)
    requires WF(k) && k.frame.x[0] != 0 && k.queue != []
    ensures Resume(DoSleep(k)) == Perform(k, Blocks(TickAt(Deadline(k.ticks, k.frame.x[0]))))
  {
    var deadline := Deadline(k.ticks, k.frame.x[0]);
    SleepifyIsBlocks(k, Ret(SetWakeTick(k, k.current, deadline), 0), TickAt(deadline));
  }

  lemma WaitPerforms(k: Kernel)
    requires WF(k)
    requires WaitAction(k).Blocks? ==> k.queue != []
    ensures Resume(DoWait(k)) == Perform(k, WaitAction(k))
  {
    var a := WaitAction(k);
    if a.Blocks? {
      SleepifyIsBlocks(k, Rewind(SetWaitingOn(k, k.current, k.frame.x[0])), a.on);
    }
  }

  /** An exiting task is not parked: `save_and_switch` no longer finds it. */
  lemma ExitPerforms(k: Kernel)
    requires WF(k)
    ensures DoExit(k) == Perform(k, Exits(AsI64(k.frame.x[0])))
  {
    var a := Exits(AsI64(k.frame.x[0]));
    var task := k.tasks[k.current].(state := Exited, exitCode := a.code);
    RetireSane(k, k.current, task);
    ScanMeaning(SetTask(k, k.current, task), Waiters(k.current), 8);
    BeforeSane(k, a);
    DispatchWF(Before(k, a));
  }

  lemma FaultPerforms(k: Kernel)
    requires WF(k)
    ensures HandleFault(k) == Perform(k, Dies)
  {
    BeforeSane(k, Dies);
    DispatchWF(Before(k, Dies));
  }

  lemma TickPerforms(k: Kernel)
    requires WF(k)
    ensures Resume(HandleTick(k)) == Perform(k, TimerTick)
  {
    var k1 := k.(ticks := WrappingAdd(k.ticks, 1));
    ScanWF(k1, Sleepers(k1.ticks));
    ScanMeaning(k1, Sleepers(k1.ticks), 8);
    if k.preempt {
      ParkIsRequeued(Ticked(k));
      BeforeSane(k, TimerTick);
      DispatchWF(Before(k, TimerTick));
    }
  }

  /** The handlers and the action semantics agree on every exception but a failed block. */
  lemma HandlePerforms(k: Kernel, c: Cause)
    requires WF(k) && !FailedBlock(k, c)
    ensures Handle(k, c) == Perform(k, ActionOf(k, c))
  {
    match c
    case Fault => FaultPerforms(k);
    case Tick => TickPerforms(k);
    case Svc =>
      var nr := k.frame.x[8];
      if nr == SYS_YIELD { YieldPerforms(k); }
      else if nr == SYS_SEND { SendPerforms(k); }
      else if nr == SYS_RECV { RecvPerforms(k); }
      else if nr == SYS_RECVBLK { RecvBlkPerforms(k); }
      else if nr == SYS_SENDBLK { SendBlkPerforms(k); }
      else if nr == SYS_SLEEP { if k.frame.x[0] != 0 { SleepPerforms(k); } }
      else if nr == SYS_EXIT || nr == SYS_EXIT_CODE { ExitPerforms(k); }
      else if nr == SYS_WAIT { WaitPerforms(k); }
  }

  /** What a failed block changes: the caller is marked Blocked with the registers it would have slept
      with, the wake field the call has set is zero again, and x0 tells the failure. */
  ghost predicate StuckLike(k: Kernel, k1: Kernel) {
    var t := k.tasks[k.current];
    var nr := k.frame.x[8];
    var slept := if nr == 8 then k.frame.(x := k.frame.x[0 := 0]) else k.frame.(elr := WrappingSub(k.frame.elr, 4));
    && k1 == k.(tasks := k.tasks[k.current := k1.tasks[k.current]], frame := k1.frame)
    && k1.tasks[k.current] == t.(state := Blocked, saved := slept,
                                 blockedSendDst := if nr == 7 then 0 else t.blockedSendDst,
                                 wakeTick := if nr == 8 then 0 else t.wakeTick,
                                 waitingOn := if nr == 10 then 0 else t.waitingOn)
    && k1.frame == k.frame.(x := k.frame.x[0 := if nr == 8 then 0 else 0xFFFF_FFFF_FFFF_FFF5])
  }

  lemma RecvBlkStuck(k: Kernel)
    requires WF(k) && k.queue == [] && RecvAction(k, true).Blocks? && k.frame.x[8] == SYS_RECVBLK
    ensures StuckLike(k, DoRecvBlk(k))
  {
    RewindAndRestore(k.frame.elr, 4);
  }

  lemma SendBlkStuck(k: Kernel)
    requires WF(k) && k.queue == [] && SendAction(k, true).Blocks? && k.frame.x[8] == SYS_SENDBLK
    ensures StuckLike(k, DoSendBlk(k))
  {
    RewindAndRestore(k.frame.elr, 4);
  }

  lemma SleepStuck(k: Kernel)
    requires WF(k) && k.queue == [] && k.frame.x[0] != 0 && k.frame.x[8] == SYS_SLEEP
    ensures StuckLike(k, DoSleep(k))
  {
  }

  lemma WaitStuck(k: Kernel)
    requires WF(k) && k.queue == [] && WaitAction(k).Blocks? && k.frame.x[8] == SYS_WAIT
    ensures StuckLike(k, DoWait(k))
  {
    RewindAndRestore(k.frame.elr, 4);
  }

  /** A failed block: the call reports -EAGAIN (sleep reports 0), the program counter is where
      the trap found it, and no mailbox, exit code, other task, memory byte or queue entry
      changes -- but the task that goes on executing is marked Blocked. */
  lemma FailedBlockMeaning(k: Kernel, c: Cause)
    requires WF(k) && FailedBlock(k, c)
    ensures Handle(k, c).Resume? && StuckLike(k, Handle(k, c).k)
    ensures Handle(k, c).k.frame == SetX(k.frame, 0, if k.frame.x[8] == SYS_SLEEP then 0 else NEG_EAGAIN)
  {
    var nr := k.frame.x[8];
    if nr == SYS_RECVBLK { RecvBlkStuck(k); }
    else if nr == SYS_SENDBLK { SendBlkStuck(k); }
    else if nr == SYS_SLEEP { SleepStuck(k); }
    else { WaitStuck(k); }
  }

  /** Nobody can run: every task that has not ended is Blocked, and the timer preempts nobody. */
  ghost predicate Stuck(k: Kernel) {
    k.queue == [] && !k.preempt && forall t: Tid :: k.tasks[t].state == Exited || k.tasks[t].state == Blocked
  }

  /** One exception from EL0 keeps the scheduler well-formed exactly when it is not a failed
      block; a well-formed kernel returns to the monitor only when nobody can run. */
  lemma StepKeepsWF(k: Kernel, e: Event)
    requires WF(k)
    ensures
      var r := Step(k, e);
      (r.Monitor? || WF(r.k)) <==> !FailedBlock(Trap(k, e), e.cause)
    ensures Step(k, e).Monitor? ==> Stuck(Step(k, e).k)
  {
    hide Handle;
    var k1 := Trap(k, e);
    if FailedBlock(k1, e.cause) {
      FailedBlockMeaning(k1, e.cause);
    } else {
      HandlePerforms(k1, e.cause);
      var a := ActionOf(k1, e.cause);
      SendsToLiveTask(k1, e.cause);
      BeforeSane(k1, a);
      if Switches(k1, a) { DispatchWF(Before(k1, a)); }
    }
  }

  lemma SendsToLiveTask(k: Kernel, c: Cause)
    ensures ActionOf(k, c).Sends? ==> ActionOf(k, c).dst != 0
  {
  }
}
