/** What one exception does to every slot of the task table, field by field, and so whom it wakes. The
    table is written out here without the scans that compute it. */
module Wakeups {
  import opened Words
  import opened KernelState
  import opened WellFormed
  import opened Actions
  import opened Handlers
  import opened Sessions
  import opened VirtualCpu

  /** The slot of task t after action a of the current task, before the next task is picked.
      A message wakes its receiver whatever it sleeps on; a receive wakes those who wait for room at
      the receiver; an exit those who wait for the exiting task; a tick those whose deadline it reaches. */
  function After(k: Kernel, a: Action, t: Tid): Task
    requires a.Sends? ==> |a.data| <= 32
  {
    var o := k.tasks[t];
    var woken := if o.state == Blocked then Ready else o.state;
    if a.Sends? && a.dst == t then
      o.(mailbox := a.data + o.mailbox[|a.data|..], mailboxLen := |a.data|, mailboxFrom := k.current, state := woken)
    else if t == k.current then OwnAfter(k, a, o)
    else if a.Receives? && o.state == Blocked && o.blockedSendDst == k.current then o.(blockedSendDst := 0, state := Ready)
    else if a.Exits? && o.state == Blocked && o.waitingOn == k.current then o.(waitingOn := 0, state := Ready)
    else if a.TimerTick? && t != 0 && DeadlineReached(o, k.ticks) then o.(wakeTick := 0, state := woken)
    else o
  }

  /** The next tick reaches the task's deadline, if it has one. */
  predicate DeadlineReached(o: Task, ticks: u64) {
    o.wakeTick != 0 && o.wakeTick <= (if ticks == 0xFFFF_FFFF_FFFF_FFFF then 0 else ticks + 1)
  }

  /** The slot of the current task itself. */
  function OwnAfter(k: Kernel, a: Action, o: Task): Task {
    var retry := k.frame.(elr := if k.frame.elr >= 4 then k.frame.elr - 4 else k.frame.elr + 0xFFFF_FFFF_FFFF_FFFC);
    match a
    case Reply(_) => o
    case Sends(_, _) => o
    case Receives(_, _, _) => o.(mailboxLen := 0, mailboxFrom := 0)
    case Blocks(Mail) => o.(saved := retry, state := Blocked)
    case Blocks(RoomAt(dst)) => o.(saved := retry, state := Blocked, blockedSendDst := dst)
    case Blocks(EndOf(child)) => o.(saved := retry, state := Blocked, waitingOn := child)
    case Blocks(TickAt(d)) => o.(saved := k.frame.(x := k.frame.x[0 := 0]), state := Blocked, wakeTick := d)
    case Yields => o.(saved := k.frame, state := Ready)
    case Exits(code) => o.(state := Exited, exitCode := code)
    case Dies => o.(state := Exited, exitCode := -1, blockedSendDst := 0, wakeTick := 0, waitingOn := 0,
                    mailboxLen := 0, mailboxFrom := 0)
    case TimerTick =>
      var o1 := if DeadlineReached(o, k.ticks) then o.(wakeTick := 0) else o;
      if k.preempt then o1.(saved := k.frame, state := Ready) else o1
  }

  lemma ReceiveAfter(k: Kernel, a: Action, t: Tid)
    requires WF(k) && a.Receives? && |a.data| <= 32 && a.va + |a.data| < TWO_64
    ensures Before(k, a).tasks[t] == After(k, a, t)
  {
    hide Scan, Woken;
    var cur := k.current;
    var k1 := SetTask(k, cur, k.tasks[cur].(mailboxLen := 0, mailboxFrom := 0));
    SetTaskSane(k, cur, k1.tasks[cur]);
    ScanMeaning(k1, Senders(cur), 8);
  }

  lemma ExitAfter(k: Kernel, a: Action, t: Tid)
    requires WF(k) && a.Exits?
    ensures Before(k, a).tasks[t] == After(k, a, t)
  {
    hide Scan, Woken;
    var cur := k.current;
    var task := k.tasks[cur].(state := Exited, exitCode := a.code);
    RetireSane(k, cur, task);
    ScanMeaning(SetTask(k, cur, task), Waiters(cur), 8);
  }

  lemma TickAfter(k: Kernel, t: Tid)
    requires WF(k)
    ensures Before(k, TimerTick).tasks[t] == After(k, TimerTick, t)
  {
    hide Scan, Woken;
    var k1 := k.(ticks := WrappingAdd(k.ticks, 1));
    assert Sane(k1);
    ScanMeaning(k1, Sleepers(k1.ticks), 8);
    ScanKeepsContext(k1, Sleepers(k1.ticks), 8);
  }

  lemma BeforeIsAfter(k: Kernel, a: Action, t: Tid)
    requires WF(k)
    requires a.Sends? ==> |a.data| <= 32
    requires a.Receives? ==> |a.data| <= 32 && a.va + |a.data| < TWO_64
    ensures Before(k, a).tasks[t] == After(k, a, t)
  {
    match a
    case Receives(_, _, _) => ReceiveAfter(k, a, t);
    case Exits(_) => ExitAfter(k, a, t);
    case TimerTick => TickAfter(k, t);
    case _ => hide Scan;
  }

  /** The whole table after one exception: every slot as said, but that the picked task is Running. */
  lemma StepTasks(k: Kernel, e: Event, t: Tid)
    requires WF(k) && !FailedBlock(Trap(k, e), e.cause)
    ensures
      var a := ActionOf(Trap(k, e), e.cause);
      var o := After(Trap(k, e), a, t);
      var r := Step(k, e);
      r.k.tasks[t] == if Switches(k, a) && r.Resume? && t == r.k.current then o.(state := Running) else o
  {
    hide Handle, Before, After;
    var k1 := Trap(k, e);
    var a := ActionOf(k1, e.cause);
    HandlePerforms(k1, e.cause);
    SendsToLiveTask(k1, e.cause);
    BeforeIsAfter(k1, a, t);
    BeforeSane(k1, a);
    if Switches(k1, a) { PickedRuns(Before(k1, a), t); }
  }

  lemma PickedRuns(k: Kernel, t: Tid)
    requires Sane(k) && forall u: Tid :: k.tasks[u].state != Running
    ensures
      var k1 := Dispatch(k).0;
      k1.tasks[t] == if k.queue != [] && t == k1.current then k.tasks[t].(state := Running) else k.tasks[t]
    ensures k.queue != [] ==> Dispatch(k).1 && Dispatch(k).0.current == k.queue[0]
  {
    if k.queue != [] { assert k.queue[0] in k.queue; }
  }

  /** What the vectors save of the interrupted task: its registers as they were. */
  lemma TrapSaves(k: Kernel, e: Event)
    ensures Trap(k, e).frame == Frame(e.cpu.x, k.spEl1, e.cpu.elr, e.cpu.spsr)
    ensures Trap(k, e) == k.(frame := Trap(k, e).frame, mem := Trap(k, e).mem)
  {
  }

  /** The counters: a tick counts one tick, wrapping, and one preemption if preemption is on; nothing else
      counts. The monitor is entered with preemption off. */
  lemma StepCounters(k: Kernel, e: Event)
    requires WF(k) && !FailedBlock(Trap(k, e), e.cause)
    ensures
      var k1 := Step(k, e).k;
      && k1.ticks == (if !e.cause.Tick? then k.ticks else if k.ticks == 0xFFFF_FFFF_FFFF_FFFF then 0 else k.ticks + 1)
      && k1.preempts == (if !e.cause.Tick? || !k.preempt then k.preempts
                         else if k.preempts == 0xFFFF_FFFF_FFFF_FFFF then 0 else k.preempts + 1)
      && k1.preempt == (Step(k, e).Resume? && k.preempt)
  {
    hide Handle, Before;
    var k1 := Trap(k, e);
    var a := ActionOf(k1, e.cause);
    HandlePerforms(k1, e.cause);
    SendsToLiveTask(k1, e.cause);
    BeforeSane(k1, a);
    BeforeMachine(k1, a);
    DispatchCounters(Before(k1, a));
    if a.TimerTick? && k.preempt { assert k1.current in Before(k1, a).queue by { TickQueues(k1); } }
  }

  lemma DispatchCounters(k: Kernel)
    ensures var k1 := Dispatch(k).0; k1.ticks == k.ticks && k1.preempts == k.preempts && k1.preempt == k.preempt
  {
  }

  lemma TickQueues(k: Kernel)
    requires WF(k) && k.preempt
    ensures k.current in Before(k, TimerTick).queue
  {
    hide Scan;
    TickedWF(k);
  }

  // ---- Whom a receive wakes ---------------------------------------------------------------------

  /** A receive wakes exactly the sleepers whose sending field names the receiver, in its own step; every
      other task but the receiver keeps its whole record. */
  lemma ReceiveWakesByField(k: Kernel, e: Event, t: Tid)
    requires WF(k) && t != k.current && ActionOf(Trap(k, e), e.cause).Receives?
    ensures
      var k1 := Step(k, e).k;
      var o := k.tasks[t];
      && k1.current == k.current
      && (if o.state == Blocked && o.blockedSendDst == k.current
          then k1.tasks[t] == o.(blockedSendDst := 0, state := Ready) && t in k1.queue
          else k1.tasks[t] == o)
  {
    hide Step, ActionOf, After;
    StepTasks(k, e, t);
    StepKeepsWF(k, e);
    ReceiverStays(k, e);
    AfterReceive(Trap(k, e), ActionOf(Trap(k, e), e.cause), t);
  }

  lemma AfterReceive(k: Kernel, a: Action, t: Tid)
    requires a.Receives? && t != k.current
    ensures
      var o := k.tasks[t];
      After(k, a, t) ==
        if o.state == Blocked && o.blockedSendDst == k.current then o.(blockedSendDst := 0, state := Ready) else o
  {
  }

  lemma ReceiverStays(k: Kernel, e: Event)
    requires WF(k) && ActionOf(Trap(k, e), e.cause).Receives?
    ensures Step(k, e).Resume? && Step(k, e).k.current == k.current
  {
    hide Handle, Before;
    var k1 := Trap(k, e);
    HandlePerforms(k1, e.cause);
    BeforeSane(k1, ActionOf(k1, e.cause));
  }
}
