/** What the scheduler does not do: who is left waiting, and what a failed block breaks. */
module Corners {
  import opened Words
  import opened KernelState
  import opened WellFormed
  import opened Actions
  import opened Handlers
  import opened Sessions
  import opened NoLostWakeup
  import opened VirtualCpu
  import opened Wakeups
  import opened ExactSleep

  /** The slot of a Blocked task t once the running task has ended, before the pick. */
  lemma EndBefore(k: Kernel, a: Action, t: Tid)
    requires WF(k) && k.tasks[t].state == Blocked && (a.Exits? || a.Dies?)
    ensures
      var k1 := Before(k, a);
      if a.Exits? && k.tasks[t].waitingOn == k.current then k1.tasks[t].state == Ready
      else k1.tasks[t] == k.tasks[t]
  {
    var cur := k.current;
    if a.Exits? {
      var task := k.tasks[cur].(state := Exited, exitCode := a.code);
      RetireSane(k, cur, task);
      ScanMeaning(SetTask(k, cur, task), Waiters(cur), 8);
    }
  }

  lemma EndWakes(k: Kernel, e: Event, t: Tid)
    requires WF(k) && k.tasks[t].state == Blocked
    requires
      var a := ActionOf(Trap(k, e), e.cause);
      a.Exits? || a.Dies?
    ensures
      var k1 := Step(k, e).k;
      if e.cause.Svc? && k.tasks[t].waitingOn == k.current
      then (k1.tasks[t].state == Ready && t in k1.queue) || (k1.tasks[t].state == Running && t == k1.current)
      else k1.tasks[t] == k.tasks[t]
  {
    hide Handle, Before;
    var k1 := Trap(k, e);
    var a := ActionOf(k1, e.cause);
    HandlePerforms(k1, e.cause);
    BeforeSane(k1, a);
    EndBefore(k1, a, t);
    DispatchWF(Before(k1, a));
  }

  /** Nobody blocked in `wait` on an exiting task is passed over, whatever user code does in the middle
      of its calls: the exit wakes it in its own step. Whom else it may wake depends on the waiting
      field alone. */
  lemma ExitWakesItsWaiters(k: Kernel, e: Event, t: Tid, killed: set<Tid>)
    requires WF(k) && NobodyForgotten(k, killed) && k.tasks[t].state == Blocked
    requires ActionOf(Trap(k, e), e.cause).Exits?
    ensures
      var waits := k.tasks[t].saved.x[8] == SYS_WAIT && k.tasks[t].saved.x[0] == k.current;
      waits ==> Step(k, e).k.tasks[t].state in {Ready, Running}
    ensures k.tasks[t].waitingOn != k.current ==> Step(k, e).k.tasks[t] == k.tasks[t]
  {
    hide Step;
    EndWakes(k, e, t);
    assert StillWaiting(k, k.tasks[t], killed);
  }

  /** A fault kill wakes nobody: not the waiters on the killed task, not the senders to it. */
  lemma KillWakesNobody(k: Kernel, e: Event, t: Tid)
    requires WF(k) && e.cause.Fault? && k.tasks[t].state == Blocked
    ensures Step(k, e).k.tasks[t] == k.tasks[t]
  {
    EndWakes(k, e, t);
  }

  /** A task stranded in `wait` on a child that has already ended. */
  ghost predicate Stranded(k: Kernel, t: Tid, c: Tid) {
    && k.tasks[t].state == Blocked && k.tasks[t].saved.x[8] == SYS_WAIT
    && k.tasks[t].waitingOn == c && c != 0 && k.tasks[c].state == Exited
  }

  lemma StepStaysStranded(k: Kernel, e: Event, t: Tid, c: Tid)
    requires WF(k) && Quiet(k.tasks[t]) && Stranded(k, t, c)
    requires !FailedBlock(Trap(k, e), e.cause) && !Disturbs(k, e, t)
    ensures Stranded(Step(k, e).k, t, c)
  {
    hide Step, ActionOf;
    StepTasks(k, e, t);
    NobodyBlockedRuns(k, e, t);
    EndedStaysEnded(k, e, c);
  }

  /** A waiter whose child was fault-killed sleeps for the rest of the session, unless a message disturbs
      it: whatever the others do, it never gets the CPU again. */
  lemma {:induction false} StrandedForever(k: Kernel, es: seq<Event>, t: Tid, c: Tid)
    requires WF(k) && Quiet(k.tasks[t]) && Stranded(k, t, c) && Clean(k, es) && Undisturbed(k, es, t)
    ensures Stranded(Run(k, es).k, t, c)
    ensures Run(k, es).Resume? ==> Run(k, es).k.current != t && t !in Run(k, es).k.queue
    decreases |es|
  {
    hide Step, ActionOf, Quiet, Disturbs;
    if es != [] {
      StepKeepsWF(k, es[0]);
      StepStaysStranded(k, es[0], t, c);
      if Step(k, es[0]).Resume? {
        StepQuiet(k, es[0], t);
        StrandedForever(Step(k, es[0]).k, es[1..], t, c);
      }
    }
  }

  /** What a failed block breaks. Task 1 calls recvblk while task 2 sleeps in recvblk too: it is
      told -EAGAIN. It then sends to task 2, which becomes Ready, and yields. Now it is Blocked
      outside any call and in no queue: the yield it made is not one of the calls that wait. */
  lemma {:induction false} FailedBlockLosesTask(k: Kernel, recv: Event, send: Event, yielding: Event, killed: set<Tid>)
    requires WF(k) && k.current == 1 && k.queue == [] && k.tasks[1].mailboxLen == 0
    requires k.tasks[2].state == Blocked && k.tasks[2].mailboxLen == 0
    requires recv.cause.Svc? && recv.cpu.x[8] == SYS_RECVBLK && recv.cpu.x[0] == 0x20_0000 && recv.cpu.x[1] == 8
    requires send.cause.Svc? && send.cpu.x[8] == SYS_SEND && send.cpu.x[0] == 2 && send.cpu.x[1] == 0x20_0000
    requires send.cpu.x[2] == 5
    requires yielding.cause.Svc? && yielding.cpu.x[8] == SYS_YIELD
    ensures FailedBlock(Trap(k, recv), Svc)
    ensures
      var r := Run(k, [recv, send, yielding]);
      && r.Resume? && r.k.current == 2
      && r.k.tasks[1].state == Blocked && 1 !in r.k.queue
      && CpuOf(r.k.tasks[1].saved) == yielding.cpu
      && !NobodyForgotten(r.k, killed)
  {
    var k1 := Step(k, recv).k;
    var k2 := Step(k1, send).k;
    var k3 := Step(k2, yielding).k;
    AfterFailedRecv(k, recv);
    AfterSend(k1, send);
    AfterYield(k2, yielding);
    RunOf3(k, recv, send, yielding);
    assert !StillWaiting(k3, k3.tasks[1], killed);
  }

  lemma {:induction false} RunOf3(k: Kernel, a: Event, b: Event, c: Event)
    requires Step(k, a).Resume? && Step(Step(k, a).k, b).Resume?
    ensures Run(k, [a, b, c]) == Step(Step(Step(k, a).k, b).k, c)
  {
    hide Step;
    assert [a, b, c][1..] == [b, c] && [b, c][1..] == [c] && [c][1..] == [];
    var k1 := Step(k, a).k;
    var k2 := Step(k1, b).k;
    assert Run(k2, [c]) == match Step(k2, c) case Resume(k3) => Run(k3, []) case Monitor(k3) => Monitor(k3);
    assert Run(k1, [b, c]) == Run(k2, [c]);
    assert Run(k, [a, b, c]) == Run(k1, [b, c]);
  }

  lemma AfterFailedRecv(k: Kernel, e: Event)
    requires WF(k) && k.current == 1 && k.queue == [] && k.tasks[1].mailboxLen == 0
    requires e.cause.Svc? && e.cpu.x[8] == SYS_RECVBLK && e.cpu.x[0] == 0x20_0000 && e.cpu.x[1] == 8
    ensures FailedBlock(Trap(k, e), Svc) && Step(k, e).Resume?
    ensures
      var k1 := Step(k, e).k;
      k1.current == 1 && k1.queue == [] && k1.tasks[1].state == Blocked && k1.tasks[2] == k.tasks[2]
      && k1.frame.x[0] == NEG_EAGAIN
  {
    FailedBlockMeaning(Trap(k, e), Svc);
  }

  lemma AfterSend(k: Kernel, e: Event)
    requires k.current == 1 && k.queue == [] && k.tasks[1].state == Blocked
    requires k.tasks[2].state == Blocked && k.tasks[2].mailboxLen == 0
    requires e.cause.Svc? && e.cpu.x[8] == SYS_SEND && e.cpu.x[0] == 2 && e.cpu.x[1] == 0x20_0000
    requires e.cpu.x[2] == 5
    ensures Step(k, e).Resume?
    ensures
      var k1 := Step(k, e).k;
      k1.current == 1 && k1.queue == [2] && k1.tasks[1].state == Blocked && k1.tasks[2].state == Ready
  {
  }

  lemma AfterYield(k: Kernel, e: Event)
    requires k.current == 1 && k.queue == [2] && k.tasks[1].state == Blocked && k.tasks[2].state == Ready
    requires e.cause.Svc? && e.cpu.x[8] == SYS_YIELD
    ensures Step(k, e).Resume?
    ensures
      var k1 := Step(k, e).k;
      k1.current == 2 && k1.queue == [] && k1.tasks[1].state == Blocked
      && CpuOf(k1.tasks[1].saved) == e.cpu
  {
  }
}
