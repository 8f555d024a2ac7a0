/** A task is Blocked only while what it waits for has not happened. The register x8 it went to
    sleep with says which call it is in. */
module NoLostWakeup {
  import opened Words
  import opened KernelState
  import opened WellFormed
  import opened Actions
  import opened Handlers
  import opened Sessions
  import opened History
  import opened VirtualCpu

  /** The condition of the call the task sleeps in is still unmet, and the wake field that the
      satisfying event will look at names that condition. */
  ghost predicate StillWaiting(k: Kernel, t: Task, killed: set<Tid>) {
    var nr := t.saved.x[8];
    var arg := t.saved.x[0];
    if nr == SYS_RECVBLK then t.mailboxLen == 0
    else if nr == SYS_SENDBLK then
      && 0 < arg < MAX_TASKS && t.blockedSendDst == arg
      && (k.tasks[arg].mailboxLen > 0 || k.tasks[arg].state == Exited)
    else if nr == SYS_SLEEP then t.wakeTick > k.ticks
    else
      && nr == SYS_WAIT
      && 0 < arg < MAX_TASKS && t.waitingOn == arg
      && (k.tasks[arg].state != Exited || arg in killed)
  }

  ghost predicate NobodyForgotten(k: Kernel, killed: set<Tid>) {
    forall t: Tid :: k.tasks[t].state == Blocked ==> StillWaiting(k, k.tasks[t], killed)
  }

  lemma PutForgetsNobody(k: Kernel, dst: Tid, data: seq<u8>, killed: set<Tid>)
    requires NobodyForgotten(k, killed) && 0 < |data| <= 32
    requires k.tasks[dst].state != Exited && k.tasks[dst].mailboxLen == 0
    ensures NobodyForgotten(Put(k, dst, data), killed)
  {
  }

  /** A scan wakes everybody whose wait it ends and leaves all other waits as they were. */
  ghost predicate Scanned(k: Kernel, k1: Kernel, r: Reason) {
    forall t: Tid :: k1.tasks[t] == if 1 <= t then Touched(r, k.tasks[t]) else k.tasks[t]
  }

  lemma {:induction false} ScanIs(k: Kernel, r: Reason)
    requires Sane(k)
    ensures Scanned(k, Scan(k, r, 8), r) && Scan(k, r, 8).ticks == k.ticks
  {
    hide Sane, Touched, Scan, Woken;
    ScanMeaning(k, r, 8);
  }

  lemma ReceiveForgetsNobody(k: Kernel, killed: set<Tid>)
    requires WF(k) && NobodyForgotten(k, killed)
    ensures NobodyForgotten(Drained(k), killed)
  {
    var cur := k.current;
    var k1 := SetTask(k, cur, k.tasks[cur].(mailboxLen := 0, mailboxFrom := 0));
    SetTaskSane(k, cur, k1.tasks[cur]);
    ScanIs(k1, Senders(cur));
    DrainedScan(k, k1, Drained(k), killed);
  }

  lemma DrainedScan(k: Kernel, k1: Kernel, k2: Kernel, killed: set<Tid>)
    requires NobodyForgotten(k, killed) && k.tasks[0].state == Exited && k.tasks[k.current].state == Running
    requires k1 == SetTask(k, k.current, k.tasks[k.current].(mailboxLen := 0, mailboxFrom := 0))
    requires Scanned(k1, k2, Senders(k.current)) && k2.ticks == k.ticks
    ensures NobodyForgotten(k2, killed)
  {
    forall t: Tid | k2.tasks[t].state == Blocked ensures StillWaiting(k2, k2.tasks[t], killed) {
      assert StillWaiting(k, k.tasks[t], killed);
    }
  }

  lemma BlockForgetsNobody(k: Kernel, killed: set<Tid>)
    requires WF(k) && NobodyForgotten(k, killed) && ActionOf(k, Svc).Blocks? && k.ticks < U64_MAX
    ensures NobodyForgotten(Before(k, ActionOf(k, Svc)), killed)
  {
    var k1 := Before(k, ActionOf(k, Svc));
    var cur := k.current;
    assert StillWaiting(k1, k1.tasks[cur], killed);
    forall t: Tid | t != cur && k1.tasks[t].state == Blocked
      ensures StillWaiting(k1, k1.tasks[t], killed)
    {
      assert StillWaiting(k, k.tasks[t], killed);
    }
  }

  lemma ExitForgetsNobody(k: Kernel, code: i64, killed: set<Tid>)
    requires WF(k) && NobodyForgotten(k, killed)
    ensures NobodyForgotten(Before(k, Exits(code)), killed)
  {
    var cur := k.current;
    var task := k.tasks[cur].(state := Exited, exitCode := code);
    RetireSane(k, cur, task);
    ScanIs(SetTask(k, cur, task), Waiters(cur));
    ExitScan(k, SetTask(k, cur, task), Before(k, Exits(code)), killed);
  }

  lemma ExitScan(k: Kernel, k1: Kernel, k2: Kernel, killed: set<Tid>)
    requires NobodyForgotten(k, killed) && k.tasks[0].state == Exited && k.tasks[k.current].state == Running
    requires k1 == SetTask(k, k.current, k1.tasks[k.current])
    requires k1.tasks[k.current] == k.tasks[k.current].(state := Exited, exitCode := k1.tasks[k.current].exitCode)
    requires Scanned(k1, k2, Waiters(k.current)) && k2.ticks == k.ticks
    ensures NobodyForgotten(k2, killed)
  {
    forall t: Tid | k2.tasks[t].state == Blocked ensures StillWaiting(k2, k2.tasks[t], killed) {
      assert StillWaiting(k, k.tasks[t], killed);
    }
  }

  lemma TickedForgetsNobody(k: Kernel, killed: set<Tid>)
    requires WF(k) && NobodyForgotten(k, killed) && k.ticks < U64_MAX
    ensures NobodyForgotten(Ticked(k), killed)
  {
    var k1 := k.(ticks := WrappingAdd(k.ticks, 1));
    assert Sane(k1);
    ScanIs(k1, Sleepers(k1.ticks));
    TickScan(k, Ticked(k), killed);
  }

  lemma TickScan(k: Kernel, k2: Kernel, killed: set<Tid>)
    requires NobodyForgotten(k, killed) && k.tasks[0].state == Exited && k2.ticks == k.ticks + 1
    requires Scanned(k, k2, Sleepers(k2.ticks))
    ensures NobodyForgotten(k2, killed)
  {
    forall t: Tid | k2.tasks[t].state == Blocked ensures StillWaiting(k2, k2.tasks[t], killed) {
      assert StillWaiting(k, k.tasks[t], killed);
    }
  }

  lemma RequeueForgetsNobody(k: Kernel, killed: set<Tid>)
    requires WF(k) && NobodyForgotten(k, killed)
    ensures NobodyForgotten(Requeued(k), killed)
  {
  }

  lemma DispatchForgetsNobody(k: Kernel, killed: set<Tid>)
    requires NobodyForgotten(k, killed)
    ensures NobodyForgotten(Dispatch(k).0, killed)
  {
  }

  lemma BeforeForgetsNobody(k: Kernel, c: Cause, killed: set<Tid>)
    requires WF(k) && NobodyForgotten(k, killed) && k.ticks < U64_MAX
    ensures NobodyForgotten(Before(k, ActionOf(k, c)),
                            if c.Fault? then killed + {k.current} else killed)
  {
    var a := ActionOf(k, c);
    match a
    case Reply(_) =>
    case Sends(dst, data) => PutForgetsNobody(k, dst, data, killed);
    case Receives(_, _, _) => ReceiveForgetsNobody(k, killed);
    case Blocks(_) => BlockForgetsNobody(k, killed);
    case Yields => RequeueForgetsNobody(k, killed);
    case Exits(code) => ExitForgetsNobody(k, code, killed);
    case Dies =>
    case TimerTick =>
      TickedForgetsNobody(k, killed);
      BeforeSane(k, TimerTick);
      ScanWF(k.(ticks := WrappingAdd(k.ticks, 1)), Sleepers(WrappingAdd(k.ticks, 1)));
      if k.preempt { RequeueForgetsNobody(Ticked(k), killed); }
  }

  lemma SameTasksSameWaits(k: Kernel, k1: Kernel, killed: set<Tid>)
    requires NobodyForgotten(k, killed) && k1.tasks == k.tasks && k1.ticks == k.ticks
    ensures NobodyForgotten(k1, killed)
  {
    forall t: Tid | k1.tasks[t].state == Blocked ensures StillWaiting(k1, k1.tasks[t], killed) {
      assert StillWaiting(k, k.tasks[t], killed);
    }
  }

  lemma StepForgetsNobody(k: Kernel, e: Event, killed: set<Tid>)
    requires WF(k) && NobodyForgotten(k, killed) && k.ticks < U64_MAX
    requires !FailedBlock(Trap(k, e), e.cause)
    ensures NobodyForgotten(Step(k, e).k, if e.cause.Fault? then killed + {k.current} else killed)
    ensures Step(k, e).k.ticks <= k.ticks + 1
  {
    hide Handle;
    var k1 := Trap(k, e);
    var a := ActionOf(k1, e.cause);
    var killed1 := if e.cause.Fault? then killed + {k.current} else killed;
    HandlePerforms(k1, e.cause);
    SameTasksSameWaits(k, k1, killed);
    BeforeForgetsNobody(k1, e.cause, killed);
    BeforeMachine(k1, a);
    var k2 := Before(k1, a);
    DispatchForgetsNobody(k2, killed1);
    SameTasksSameWaits(if Switches(k1, a) then Dispatch(k2).0 else k2, Step(k, e).k, killed1);
  }

  lemma {:induction false} RunForgetsNobody(k: Kernel, es: seq<Event>, h: History)
    requires WF(k) && Clean(k, es) && NobodyForgotten(k, h.killed) && k.ticks + |es| <= U64_MAX
    ensures NobodyForgotten(Run(k, es).k, Replay(k, es, h).killed)
    decreases |es|
  {
    hide Step;
    if es != [] {
      var e := es[0];
      StepForgetsNobody(k, e, h.killed);
      StepKeepsWF(k, e);
      var h1 := Record(Trap(k, e), e.cause, h);
      if Step(k, e).Resume? { RunForgetsNobody(Step(k, e).k, es[1..], h1); }
    }
  }

  /** No lost wake-up, over every session without a failed block and without the tick counter
      wrapping: whoever is Blocked waits for something that has not happened yet. */
  lemma {:induction false} NoLostWakeups(boot: Kernel, args: seq<SpawnArgs>, leftover: Regs, es: seq<Event>)
    requires Booted(boot) && args != [] && Clean(Start(boot, args, leftover).k, es)
    requires boot.ticks + |es| <= U64_MAX
    ensures NobodyForgotten(Session(boot, args, leftover, es).k,
                            Replay(Start(boot, args, leftover).k, es, NOTHING).killed)
  {
    hide Step, ActionOf;
    StartMeaning(boot, args, leftover);
    var k := Start(boot, args, leftover).k;
    forall t: Tid ensures k.tasks[t].state != Blocked {
      assert k.tasks[t] == Initially(args, t);
    }
    RunForgetsNobody(k, es, NOTHING);
  }
}
