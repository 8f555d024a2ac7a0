/** What the machine adds to the model's arbitrary events: a task resumed in the middle of a blocking
    call finds its program counter on the svc, in a page nobody can write, and executes that svc
    again. Then a waiting field that names a live task means a wait for it, and an exit wakes
    exactly the tasks that wait for it. */
module Retries {
  import opened Words
  import opened KernelState
  import opened WellFormed
  import opened Actions
  import opened Handlers
  import opened Sessions
  import opened History
  import opened VirtualCpu
  import opened NoLostWakeup
  import opened Corners

  /** The calls tasks are in the middle of: the registers each was made with. */
  type Pending = map<Tid, Cpu>

  /** A task in the middle of a call executes its svc again; a tick or a fault may come first. */
  ghost predicate Retried(k: Kernel, e: Event, p: Pending) {
    k.current in p ==>
      || e.cause.Fault?
      || (e.cause.Tick? && e.cpu == Retry(p[k.current]))
      || (e.cause.Svc? && e.cpu == p[k.current])
  }

  ghost function Pend(k: Kernel, e: Event, p: Pending): Pending {
    if Repeats(ActionOf(Trap(k, e), e.cause)) then p[k.current := e.cpu]
    else if e.cause.Tick? then p
    else p - {k.current}
  }

  ghost predicate AllRetried(k: Kernel, es: seq<Event>, p: Pending)
    decreases |es|
  {
    es == [] ||
    (&& Retried(k, es[0], p)
     && (Step(k, es[0]).Resume? ==> AllRetried(Step(k, es[0]).k, es[1..], Pend(k, es[0], p))))
  }

  ghost function PendAll(k: Kernel, es: seq<Event>, p: Pending): Pending
    decreases |es|
  {
    if es == [] || Step(k, es[0]).Monitor? then p else PendAll(Step(k, es[0]).k, es[1..], Pend(k, es[0], p))
  }

  /** A task in the middle of a call has the registers to make it again; and whoever's waiting field
      names a live task is in the middle of a wait for that task. */
  ghost predicate FieldsMeanWaits(k: Kernel, p: Pending) {
    && (forall t: Tid :: t in p ==> k.tasks[t].state != Exited && Vcpu(k, t) == Retry(p[t]))
    && (forall t: Tid :: k.tasks[t].state != Exited && WaitsForLive(k, t) ==>
          t in p && p[t].x[8] == SYS_WAIT && p[t].x[0] == k.tasks[t].waitingOn)
  }

  predicate WaitsForLive(k: Kernel, t: Tid) {
    k.tasks[t].waitingOn != 0 && k.tasks[k.tasks[t].waitingOn].state != Exited
  }

  // ---- The waiting field over one exception ---------------------------------------------------

  lemma {:induction false} ScanClearsOrKeeps(k: Kernel, r: Reason, n: nat)
    requires n <= 8
    ensures forall t: Tid :: Scan(k, r, n).tasks[t].waitingOn in {k.tasks[t].waitingOn, 0}
    ensures !r.Waiters? ==> forall t: Tid :: Scan(k, r, n).tasks[t].waitingOn == k.tasks[t].waitingOn
    ensures forall t: Tid :: k.tasks[t].state == Running ==> Scan(k, r, n).tasks[t].waitingOn == k.tasks[t].waitingOn
    ensures forall t: Tid :: k.tasks[t].state == Running ==> Scan(k, r, n).tasks[t].state == Running
  {
    if n > 1 { ScanClearsOrKeeps(k, r, n - 1); }
  }

  lemma BeforeWaitingOn(k: Kernel, a: Action, t: Tid)
    requires WF(k)
    requires a.Sends? ==> |a.data| <= 32
    requires a.Receives? ==> |a.data| <= 32 && a.va + |a.data| < TWO_64
    ensures
      var w := Before(k, a).tasks[t].waitingOn;
      if t != k.current then w in {k.tasks[t].waitingOn, 0}
      else if a.Blocks? && a.on.EndOf? then w == a.on.child
      else a.Exits? || a.Dies? || w == k.tasks[t].waitingOn
  {
    hide Scan;
    var cur := k.current;
    match a
    case Receives(_, _, _) =>
      ScanClearsOrKeeps(SetTask(k, cur, k.tasks[cur].(mailboxLen := 0, mailboxFrom := 0)), Senders(cur), 8);
    case Exits(code) =>
      ScanClearsOrKeeps(SetTask(k, cur, k.tasks[cur].(state := Exited, exitCode := code)), Waiters(cur), 8);
    case TimerTick =>
      var k1 := k.(ticks := WrappingAdd(k.ticks, 1));
      ScanClearsOrKeeps(k1, Sleepers(k1.ticks), 8);
      assert Ticked(k).tasks[t].waitingOn == k.tasks[t].waitingOn;
    case _ =>
  }

  lemma StepWaitingOn(k: Kernel, e: Event, t: Tid)
    requires WF(k) && !FailedBlock(Trap(k, e), e.cause)
    ensures
      var a := ActionOf(Trap(k, e), e.cause);
      var w := Step(k, e).k.tasks[t].waitingOn;
      if t != k.current then w in {k.tasks[t].waitingOn, 0}
      else if a.Blocks? && a.on.EndOf? then w == a.on.child
      else a.Exits? || a.Dies? || w == k.tasks[t].waitingOn
  {
    hide Handle, Before;
    var k1 := Trap(k, e);
    var a := ActionOf(k1, e.cause);
    HandlePerforms(k1, e.cause);
    BeforeWaitingOn(k1, a, t);
  }

  /** A wait that blocks is a wait for what it names. */
  lemma WaitNamesChild(k: Kernel, e: Event)
    ensures
      var a := ActionOf(Trap(k, e), e.cause);
      a.Blocks? && a.on.EndOf? ==> e.cpu.x[8] == SYS_WAIT && e.cpu.x[0] == a.on.child
    ensures
      e.cause.Svc? && e.cpu.x[8] == SYS_WAIT && 0 < e.cpu.x[0] < 8 && k.tasks[e.cpu.x[0]].state != Exited ==>
        ActionOf(Trap(k, e), e.cause) == Blocks(EndOf(e.cpu.x[0]))
  {
  }

  lemma StepKeepsFields(k: Kernel, e: Event, p: Pending)
    requires WF(k) && !FailedBlock(Trap(k, e), e.cause) && Retried(k, e, p) && FieldsMeanWaits(k, p)
    requires Step(k, e).Resume?
    ensures FieldsMeanWaits(Step(k, e).k, Pend(k, e, p))
  {
    hide Step, ActionOf;
    var k1 := Step(k, e).k;
    var p1 := Pend(k, e, p);
    WaitNamesChild(k, e);
    TickOrFault(k, e);
    forall t: Tid
      ensures t in p1 ==> k1.tasks[t].state != Exited && Vcpu(k1, t) == Retry(p1[t])
      ensures k1.tasks[t].state != Exited && WaitsForLive(k1, t) ==>
        t in p1 && p1[t].x[8] == SYS_WAIT && p1[t].x[0] == k1.tasks[t].waitingOn
    {
      StepKeepsVcpus(k, e, t);
      StepWaitingOn(k, e, t);
      if k.tasks[t].state == Exited { EndedStaysEnded(k, e, t); } else { StillLive(k, e, t); }
      var w := k1.tasks[t].waitingOn;
      if k.tasks[w].state == Exited { EndedStaysEnded(k, e, w); }
    }
  }

  lemma TickOrFault(k: Kernel, e: Event)
    ensures e.cause.Tick? ==> ActionOf(Trap(k, e), e.cause) == TimerTick
    ensures e.cause.Fault? ==> ActionOf(Trap(k, e), e.cause) == Dies
    ensures e.cause.Svc? ==> !ActionOf(Trap(k, e), e.cause).Dies? && !ActionOf(Trap(k, e), e.cause).TimerTick?
  {
  }

  lemma {:induction false} RunKeepsFields(k: Kernel, es: seq<Event>, p: Pending)
    requires WF(k) && Clean(k, es) && AllRetried(k, es, p) && FieldsMeanWaits(k, p) && Run(k, es).Resume?
    ensures FieldsMeanWaits(Run(k, es).k, PendAll(k, es, p))
    decreases |es|
  {
    hide Step, ActionOf, Retried, Pend, FieldsMeanWaits;
    if es != [] {
      StepKeepsWF(k, es[0]);
      StepKeepsFields(k, es[0], p);
      RunKeepsFields(Step(k, es[0]).k, es[1..], Pend(k, es[0], p));
    }
  }

  // ---- Whom an exit wakes -------------------------------------------------------------------------

  /** Is the sleeping task in `wait` on c? Its saved registers say so. */
  predicate InWaitOn(t: Task, c: Tid) { t.saved.x[8] == SYS_WAIT && t.saved.x[0] == c }

  /** Over every session without a failed block: a sleeper whose waiting field names a live task is in
      `wait` on that task, and a sleeper in `wait` has the child in its waiting field. */
  lemma {:induction false} SleepersInWait(boot: Kernel, args: seq<SpawnArgs>, leftover: Regs, es: seq<Event>, t: Tid, c: Tid)
    requires Booted(boot) && args != [] && Session(boot, args, leftover, es).Resume?
    requires var k0 := Start(boot, args, leftover).k; Clean(k0, es) && AllRetried(k0, es, map[])
    requires boot.ticks + |es| <= U64_MAX
    requires var k := Session(boot, args, leftover, es).k;
      k.tasks[t].state == Blocked && c != 0 && k.tasks[c].state != Exited
    ensures var k := Session(boot, args, leftover, es).k;
      k.tasks[t].waitingOn == c <==> InWaitOn(k.tasks[t], c)
  {
    hide Step, ActionOf, Start, StillWaiting;
    var k0 := Start(boot, args, leftover).k;
    StartMeaning(boot, args, leftover);
    forall u: Tid ensures k0.tasks[u].waitingOn == 0 { assert k0.tasks[u] == Initially(args, u); }
    RunKeepsWF(k0, es);
    RunKeepsFields(k0, es, map[]);
    NoLostWakeups(boot, args, leftover, es);
    SleeperInWait(Session(boot, args, leftover, es).k, PendAll(k0, es, map[]), Replay(k0, es, NOTHING).killed, t, c);
  }

  lemma SleeperInWait(k: Kernel, p: Pending, killed: set<Tid>, t: Tid, c: Tid)
    requires WF(k) && FieldsMeanWaits(k, p) && NobodyForgotten(k, killed)
    requires k.tasks[t].state == Blocked && c != 0 && k.tasks[c].state != Exited
    ensures k.tasks[t].waitingOn == c <==> InWaitOn(k.tasks[t], c)
  {
    assert StillWaiting(k, k.tasks[t], killed);
  }

  /** Over every session without a failed block: an exit wakes, in its own step, exactly the tasks that
      sleep in `wait` on the exiting task. Every other sleeper, a blocked sender to it among them, is
      left as it was. */
  lemma {:induction false} ExitWakesExactlyItsWaiters(boot: Kernel, args: seq<SpawnArgs>, leftover: Regs,
                                                      es: seq<Event>, e: Event, t: Tid)
    requires Booted(boot) && args != [] && Session(boot, args, leftover, es).Resume?
    requires var k0 := Start(boot, args, leftover).k; Clean(k0, es) && AllRetried(k0, es, map[])
    requires boot.ticks + |es| <= U64_MAX
    requires var k := Session(boot, args, leftover, es).k;
      ActionOf(Trap(k, e), e.cause).Exits? && k.tasks[t].state == Blocked
    ensures
      var k := Session(boot, args, leftover, es).k;
      var k1 := Step(k, e).k;
      if InWaitOn(k.tasks[t], k.current) then k1.tasks[t].state in {Ready, Running}
      else k1.tasks[t] == k.tasks[t]
  {
    hide Step, ActionOf, Start, Run, Clean, AllRetried, Booted;
    var k0 := Start(boot, args, leftover).k;
    var k := Session(boot, args, leftover, es).k;
    StartMeaning(boot, args, leftover);
    RunKeepsWF(k0, es);
    SleepersInWait(boot, args, leftover, es, t, k.current);
    OnlyCallsExit(k, e);
    EndWakes(k, e, t);
  }

  lemma OnlyCallsExit(k: Kernel, e: Event)
    ensures ActionOf(Trap(k, e), e.cause).Exits? ==> e.cause.Svc?
  {
  }
}
