/** Sleeping takes exactly the ticks asked for, as long as no message disturbs the sleeper: a message
    wakes its receiver out of any call, not only out of `recvblk`. Other tasks may send what they like
    to each other. */
module ExactSleep {
  import opened Words
  import opened KernelState
  import opened WellFormed
  import opened Actions
  import opened Handlers
  import opened Sessions
  import opened VirtualCpu
  import opened Wakeups

  /** The exception is a message accepted for t while t is blocked in something other than recvblk. */
  ghost predicate Disturbs(k: Kernel, e: Event, t: Tid) {
    var a := ActionOf(Trap(k, e), e.cause);
    a.Sends? && a.dst == t && k.tasks[t].state == Blocked && k.tasks[t].saved.x[8] != SYS_RECVBLK
  }

  ghost predicate Undisturbed(k: Kernel, es: seq<Event>, t: Tid)
    decreases |es|
  {
    es == [] ||
    (&& !Disturbs(k, es[0], t)
     && (Step(k, es[0]).Resume? ==> Undisturbed(Step(k, es[0]).k, es[1..], t)))
  }

  /** What an undisturbed task keeps: a wake field is set only while the task is blocked in the call
      that sets it. */
  ghost predicate Quiet(o: Task) {
    && (o.blockedSendDst != 0 ==> o.state == Blocked && o.saved.x[8] == SYS_SENDBLK)
    && (o.waitingOn != 0 ==> o.state == Blocked && o.saved.x[8] == SYS_WAIT)
    && (o.wakeTick != 0 ==> o.state == Blocked && o.saved.x[8] == SYS_SLEEP)
  }

  /** Task t sleeps until the tick counter reaches d, to resume with the registers c. */
  ghost predicate Sleeping(k: Kernel, t: Tid, d: u64, c: Cpu) {
    var task := k.tasks[t];
    && task.state == Blocked && task.wakeTick == d && k.ticks < d
    && task.saved.x[8] == SYS_SLEEP && CpuOf(task.saved) == c
  }

  /** Which call blocks how. */
  lemma BlocksIn(k: Kernel, e: Event)
    ensures
      var a := ActionOf(Trap(k, e), e.cause);
      a.Blocks? ==>
        && (a.on.Mail? ==> e.cpu.x[8] == SYS_RECVBLK)
        && (a.on.RoomAt? ==> e.cpu.x[8] == SYS_SENDBLK)
        && (a.on.TickAt? ==> e.cpu.x[8] == SYS_SLEEP)
        && (a.on.EndOf? ==> e.cpu.x[8] == SYS_WAIT)
  {
  }

  lemma StepQuiet(k: Kernel, e: Event, t: Tid)
    requires WF(k) && !FailedBlock(Trap(k, e), e.cause) && Quiet(k.tasks[t]) && !Disturbs(k, e, t)
    ensures Quiet(Step(k, e).k.tasks[t])
  {
    hide Step, ActionOf;
    StepTasks(k, e, t);
    BlocksIn(k, e);
    NobodyBlockedRuns(k, e, t);
  }

  lemma {:induction false} RunQuiet(k: Kernel, es: seq<Event>, t: Tid)
    requires WF(k) && Quiet(k.tasks[t]) && Clean(k, es) && Undisturbed(k, es, t)
    ensures Run(k, es).Resume? ==> WF(Run(k, es).k) && Quiet(Run(k, es).k.tasks[t])
    decreases |es|
  {
    hide Step, ActionOf, Quiet, Disturbs;
    if es != [] {
      StepKeepsWF(k, es[0]);
      StepQuiet(k, es[0], t);
      if Step(k, es[0]).Resume? { RunQuiet(Step(k, es[0]).k, es[1..], t); }
    }
  }

  /** A step moves the tick counter by a tick, and only by a tick. */
  lemma StepTicks(k: Kernel, e: Event)
    requires WF(k) && !FailedBlock(Trap(k, e), e.cause) && k.ticks < U64_MAX
    ensures Step(k, e).k.ticks == if e.cause.Tick? then k.ticks + 1 else k.ticks
  {
    hide Handle;
    var k1 := Trap(k, e);
    HandlePerforms(k1, e.cause);
    BeforeMachine(k1, ActionOf(k1, e.cause));
  }

  lemma StepSleeps(k: Kernel, e: Event, t: Tid, d: u64, c: Cpu)
    requires WF(k) && !FailedBlock(Trap(k, e), e.cause) && Quiet(k.tasks[t]) && !Disturbs(k, e, t)
    requires Sleeping(k, t, d, c) && Step(k, e).Resume?
    ensures
      var k1 := Step(k, e).k;
      && k1.ticks == (if e.cause.Tick? then k.ticks + 1 else k.ticks)
      && Vcpu(k1, t) == c
      && if k1.ticks < d then Sleeping(k1, t, d, c) else t in k1.queue || t == k1.current
  {
    hide Step, ActionOf;
    StepTasks(k, e, t);
    StepTicks(k, e);
    StepKeepsVcpus(k, e, t);
    StepKeepsWF(k, e);
    TickIsTimer(k, e);
    NobodyBlockedRuns(k, e, t);
  }

  lemma TickIsTimer(k: Kernel, e: Event)
    ensures ActionOf(Trap(k, e), e.cause).TimerTick? <==> e.cause.Tick?
  {
  }

  /** Whoever is picked was Ready just before. */
  lemma NobodyBlockedRuns(k: Kernel, e: Event, t: Tid)
    requires WF(k) && !FailedBlock(Trap(k, e), e.cause)
    ensures
      var a := ActionOf(Trap(k, e), e.cause);
      Step(k, e).Resume? && Switches(k, a) && t == Step(k, e).k.current ==> After(Trap(k, e), a, t).state == Ready
  {
    hide Handle, Before, After;
    var k1 := Trap(k, e);
    var a := ActionOf(k1, e.cause);
    HandlePerforms(k1, e.cause);
    SendsToLiveTask(k1, e.cause);
    BeforeIsAfter(k1, a, t);
    BeforeSane(k1, a);
    if Switches(k1, a) && Before(k1, a).queue != [] { PickIsReady(Before(k1, a)); }
  }

  lemma PickIsReady(k: Kernel)
    requires Sane(k) && k.queue != [] && forall t: Tid :: k.tasks[t].state != Running
    ensures Dispatch(k).1 && k.tasks[Dispatch(k).0.current].state == Ready
  {
    assert k.queue[0] in k.queue;
  }

  /** While the tick counter is below its deadline, a sleeper is not dispatched. */
  lemma {:induction false} RunSleeps(k: Kernel, es: seq<Event>, t: Tid, d: u64, c: Cpu)
    requires WF(k) && Quiet(k.tasks[t]) && Clean(k, es) && Undisturbed(k, es, t)
    requires Sleeping(k, t, d, c)
    requires Run(k, es).Resume? && Run(k, es).k.ticks < d && k.ticks + |es| <= U64_MAX
    ensures WF(Run(k, es).k) && Quiet(Run(k, es).k.tasks[t]) && Sleeping(Run(k, es).k, t, d, c)
    decreases |es|
  {
    hide Step, ActionOf, Disturbs, Quiet;
    if es != [] {
      var e := es[0];
      var k1 := Step(k, e).k;
      StepKeepsWF(k, e);
      StepQuiet(k, e, t);
      StepSleeps(k, e, t, d, c);
      TicksGrow(k1, es[1..]);
      RunSleeps(k1, es[1..], t, d, c);
    }
  }

  lemma {:induction false} TicksGrow(k: Kernel, es: seq<Event>)
    requires WF(k) && Clean(k, es) && k.ticks + |es| <= U64_MAX
    ensures k.ticks <= Run(k, es).k.ticks
    decreases |es|
  {
    hide Step;
    if es != [] {
      StepKeepsWF(k, es[0]);
      StepTicks(k, es[0]);
      if Step(k, es[0]).Resume? { TicksGrow(Step(k, es[0]).k, es[1..]); }
    }
  }

  /** The tick a sleep of n from `now` lasts to: n ticks on, or the last one there is. */
  function WakesAt(now: u64, n: u64): u64 {
    if now + n <= 0xFFFF_FFFF_FFFF_FFFF then now + n else 0xFFFF_FFFF_FFFF_FFFF
  }

  /** Going to sleep: from the step on, the task sleeps until the deadline. */
  lemma FallAsleep(k: Kernel, e: Event)
    requires WF(k) && e.cause.Svc? && e.cpu.x[8] == SYS_SLEEP && e.cpu.x[0] > 0
    requires !FailedBlock(Trap(k, e), Svc) && k.ticks < U64_MAX
    ensures Step(k, e).Resume?
    ensures Sleeping(Step(k, e).k, k.current, WakesAt(k.ticks, e.cpu.x[0]), e.cpu.(x := e.cpu.x[0 := 0]))
    ensures Step(k, e).k.ticks == k.ticks
  {
    hide Handle;
    var k1 := Trap(k, e);
    var a := ActionOf(k1, e.cause);
    HandlePerforms(k1, e.cause);
    BeforeSane(k1, a);
    DispatchWF(Before(k1, a));
  }

  /** A sleep call, some exceptions while it lasts, and one more; nothing disturbs the caller. */
  ghost predicate SleepRun(k: Kernel, call: Event, es: seq<Event>, last: Event) {
    && call.cause.Svc? && call.cpu.x[8] == SYS_SLEEP && call.cpu.x[0] > 0
    && !FailedBlock(Trap(k, call), Svc)
    && k.ticks + |es| + 1 <= U64_MAX
    && Clean(Step(k, call).k, es) && Run(Step(k, call).k, es).Resume?
    && Undisturbed(Step(k, call).k, es, k.current)
    && var k2 := Run(Step(k, call).k, es).k;
    && k2.ticks < WakesAt(k.ticks, call.cpu.x[0])
    && !FailedBlock(Trap(k2, last), last.cause) && Step(k2, last).Resume?
    && !Disturbs(k2, last, k.current)
  }

  /** The caller is off the CPU and out of the queue; after the last exception it still is if the
      deadline is not reached, and is queued or running if it is; its registers are those of the
      call with x0 = 0 and the program counter behind the svc. */
  ghost predicate SleptExactly(k: Kernel, call: Event, es: seq<Event>, last: Event) {
    var t := k.current;
    var d := WakesAt(k.ticks, call.cpu.x[0]);
    var k2 := Run(Step(k, call).k, es).k;
    var k3 := Step(k2, last).k;
    && t != k2.current && t !in k2.queue
    && Vcpu(k3, t) == call.cpu.(x := call.cpu.x[0 := 0])
    && (k3.ticks < d ==> t != k3.current && t !in k3.queue)
    && (k3.ticks == d ==> t == k3.current || t in k3.queue)
    && k3.ticks <= d
  }

  lemma {:induction false} AsleepUntil(k: Kernel, call: Event, es: seq<Event>, last: Event)
    requires WF(k) && Quiet(k.tasks[k.current]) && SleepRun(k, call, es, last)
    ensures SleptExactly(k, call, es, last)
  {
    hide Step, ActionOf;
    var t := k.current;
    var d := WakesAt(k.ticks, call.cpu.x[0]);
    var c := call.cpu.(x := call.cpu.x[0 := 0]);
    var k1 := Step(k, call).k;
    FallAsleep(k, call);
    StepKeepsWF(k, call);
    StepQuiet(k, call, t);
    RunSleeps(k1, es, t, d, c);
    var k2 := Run(k1, es).k;
    StepSleeps(k2, last, t, d, c);
    StepKeepsWF(k2, last);
  }

  /** Exact sleep, in every session without a failed block in which no message is accepted for the
      sleeper while it is blocked in anything but recvblk: a task that calls sleep(n), n > 0, at tick T
      is not dispatched while the counter is below T + n (cut off at the largest u64), is in the queue
      or running after the tick that reaches it, and goes on behind its svc with x0 = 0 and every other
      register as it was. */
  lemma {:induction false} SleepsExactly(boot: Kernel, args: seq<SpawnArgs>, leftover: Regs,
                                         es: seq<Event>, call: Event, es1: seq<Event>, last: Event)
    requires Booted(boot) && args != [] && Session(boot, args, leftover, es).Resume?
    requires var k0 := Start(boot, args, leftover).k;
      Clean(k0, es) && Undisturbed(k0, es, Session(boot, args, leftover, es).k.current)
    requires SleepRun(Session(boot, args, leftover, es).k, call, es1, last)
    ensures SleptExactly(Session(boot, args, leftover, es).k, call, es1, last)
  {
    hide Step, ActionOf, SleepRun, SleptExactly, Start, WF;
    var k0 := Start(boot, args, leftover).k;
    var t := Session(boot, args, leftover, es).k.current;
    StartMeaning(boot, args, leftover);
    assert k0.tasks[t] == Initially(args, t);
    RunQuiet(k0, es, t);
    RunKeepsWF(k0, es);
    AsleepUntil(Run(k0, es).k, call, es1, last);
  }
}
