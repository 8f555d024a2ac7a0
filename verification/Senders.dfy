/** Whom a receive wakes, over sessions. Documented is that it wakes the senders that wait for room. It
    does wake all of those; but a sender woken out of `sendblk` by a message or an old deadline keeps its
    sending field when its retried call succeeds, and the receive will wake it out of a later call. */
module Senders {
  import opened Words
  import opened KernelState
  import opened WellFormed
  import opened Actions
  import opened Handlers
  import opened Sessions
  import opened History
  import opened VirtualCpu
  import opened NoLostWakeup
  import opened Wakeups
  import opened ExactSleep

  /** For each task the receiver its last blocked sendblk was for, unless that receiver has received
      while the task slept since. Written down from the calls alone. */
  type Owed = map<Tid, Tid>

  ghost function Owe(k: Kernel, e: Event, u: Owed): Owed {
    var a := ActionOf(Trap(k, e), e.cause);
    if a.Blocks? && a.on.RoomAt? then u[k.current := a.on.dst]
    else if a.Receives? then
      map t: Tid | t in u && !(k.tasks[t].state == Blocked && u[t] == k.current) :: u[t]
    else if a.Exits? || a.Dies? then u - {k.current}
    else u
  }

  ghost function OweAll(k: Kernel, es: seq<Event>, u: Owed): Owed
    decreases |es|
  {
    if es == [] || Step(k, es[0]).Monitor? then u else OweAll(Step(k, es[0]).k, es[1..], Owe(k, es[0], u))
  }

  /** The sending field of every live task is what it is owed. */
  ghost predicate FieldsAreOwed(k: Kernel, u: Owed) {
    forall t: Tid :: k.tasks[t].state != Exited ==> k.tasks[t].blockedSendDst == if t in u then u[t] else 0
  }

  lemma StepKeepsOwed(k: Kernel, e: Event, u: Owed)
    requires WF(k) && !FailedBlock(Trap(k, e), e.cause) && FieldsAreOwed(k, u)
    ensures FieldsAreOwed(Step(k, e).k, Owe(k, e, u))
  {
    hide Step, ActionOf, After;
    var k1 := Step(k, e).k;
    var u1 := Owe(k, e, u);
    forall t: Tid | k1.tasks[t].state != Exited ensures k1.tasks[t].blockedSendDst == if t in u1 then u1[t] else 0 {
      StepTasks(k, e, t);
      NobodyBlockedRuns(k, e, t);
      AfterOwed(k, e, u, t);
      if k.tasks[t].state == Exited { EndedStaysEnded(k, e, t); }
    }
  }

  lemma AfterOwed(k: Kernel, e: Event, u: Owed, t: Tid)
    requires WF(k) && FieldsAreOwed(k, u)
    ensures
      var o := After(Trap(k, e), ActionOf(Trap(k, e), e.cause), t);
      var u1 := Owe(k, e, u);
      k.tasks[t].state != Exited && o.state != Exited ==> o.blockedSendDst == if t in u1 then u1[t] else 0
  {
    hide ActionOf, UserWrites;
  }

  lemma {:induction false} RunKeepsOwed(k: Kernel, es: seq<Event>, u: Owed)
    requires WF(k) && Clean(k, es) && FieldsAreOwed(k, u) && Run(k, es).Resume?
    ensures FieldsAreOwed(Run(k, es).k, OweAll(k, es, u))
    decreases |es|
  {
    hide Step, ActionOf, Owe, FieldsAreOwed;
    if es != [] {
      StepKeepsWF(k, es[0]);
      StepKeepsOwed(k, es[0], u);
      RunKeepsOwed(Step(k, es[0]).k, es[1..], Owe(k, es[0], u));
    }
  }

  /** Is the sleeping task in `sendblk` to d? Its saved registers say so. */
  predicate InSendTo(o: Task, d: Tid) { o.saved.x[8] == SYS_SENDBLK && o.saved.x[0] == d }

  /** Does the step wake the sleeper? It leaves its whole record otherwise. */
  ghost predicate WokenOrKept(k: Kernel, e: Event, t: Tid, woken: bool) {
    var k1 := Step(k, e).k;
    if woken then k1.tasks[t] == k.tasks[t].(blockedSendDst := 0, state := Ready) && t in k1.queue
    else k1.tasks[t] == k.tasks[t]
  }

  /** Over every session without a failed block: a receive wakes, in its own step, exactly the sleepers
      whose last blocked sendblk it is owed to. Those in sendblk to the receiver are among them; and a
      sleeper no message has disturbed is among them only then. */
  lemma {:induction false} ReceiveWakesExactlyItsSenders(boot: Kernel, args: seq<SpawnArgs>, leftover: Regs,
                                                         es: seq<Event>, e: Event, t: Tid)
    requires Booted(boot) && args != [] && Session(boot, args, leftover, es).Resume?
    requires Clean(Start(boot, args, leftover).k, es) && boot.ticks + |es| <= U64_MAX
    requires var k := Session(boot, args, leftover, es).k;
      ActionOf(Trap(k, e), e.cause).Receives? && k.tasks[t].state == Blocked
    ensures
      var k0 := Start(boot, args, leftover).k;
      var k := Session(boot, args, leftover, es).k;
      var u := OweAll(k0, es, map[]);
      var owed := t in u && u[t] == k.current;
      && WokenOrKept(k, e, t, owed)
      && (InSendTo(k.tasks[t], k.current) ==> owed)
      && (Undisturbed(k0, es, t) ==> (owed <==> InSendTo(k.tasks[t], k.current)))
  {
    hide Step, ActionOf, Start, Quiet, StillWaiting;
    var k0 := Start(boot, args, leftover).k;
    var k := Session(boot, args, leftover, es).k;
    var u := OweAll(k0, es, map[]);
    StartMeaning(boot, args, leftover);
    forall v: Tid ensures k0.tasks[v].blockedSendDst == 0 { assert k0.tasks[v] == Initially(args, v); }
    RunKeepsWF(k0, es);
    RunKeepsOwed(k0, es, map[]);
    NoLostWakeups(boot, args, leftover, es);
    ReceiveWakesByField(k, e, t);
    SenderField(k, t, Replay(k0, es, NOTHING).killed);
    if Undisturbed(k0, es, t) {
      assert Quiet(k0.tasks[t]) by { FreshIsQuiet(args, t); assert k0.tasks[t] == Initially(args, t); }
      RunQuiet(k0, es, t);
      QuietSender(k.tasks[t]);
    }
  }

  lemma FreshIsQuiet(args: seq<SpawnArgs>, t: Tid)
    ensures Quiet(Initially(args, t))
  {
  }

  lemma QuietSender(o: Task)
    requires Quiet(o)
    ensures o.blockedSendDst != 0 ==> o.saved.x[8] == SYS_SENDBLK
  {
  }

  lemma SenderField(k: Kernel, t: Tid, killed: set<Tid>)
    requires NobodyForgotten(k, killed) && k.tasks[t].state == Blocked
    ensures k.tasks[t].saved.x[8] == SYS_SENDBLK ==> k.tasks[t].saved.x[0] == k.tasks[t].blockedSendDst
  {
    assert StillWaiting(k, k.tasks[t], killed);
  }

  // ---- A sender woken twice --------------------------------------------------------------------

  /** One of the calls of the run below, its buffers where a task has its stack. */
  predicate Call(e: Event, nr: u64, x0: u64, x1: u64, x2: u64) {
    e.cause.Svc? && e.cpu.x[8] == nr && e.cpu.x[0] == x0 && e.cpu.x[1] == x1 && e.cpu.x[2] == x2
  }

  /** Tasks 1 and 2 are the only ones; `current` runs, and the queue is as given. */
  ghost predicate At(k: Kernel, current: Tid, queue: seq<Tid>) {
    && k.current == current && k.queue == queue && k.tasks[current].state == Running && k.ticks < 1000
    && forall t: Tid :: t != 1 && t != 2 ==> k.tasks[t].state == Exited
  }

  /** Task 1 blocks in sendblk to task 2, whose mailbox is full. Task 2 sends it a message, which wakes it,
      empties its own mailbox and yields. Task 1's retried sendblk succeeds, and it goes to sleep for a
      hundred ticks. Task 2 receives: task 1 is Ready again at the same tick, though it sends nothing to
      anybody. */
  lemma StaleSenderIsWoken(k: Kernel, es: seq<Event>)
    requires At(k, 1, [2]) && k.tasks[2].state == Ready && k.tasks[1].mailboxLen == 0 && k.tasks[2].mailboxLen > 0
    requires |es| == 7 && Call(es[0], SYS_SENDBLK, 2, 0x20_0000, 5) && Call(es[1], SYS_SEND, 1, 0x20_0000, 5)
    requires Call(es[2], SYS_RECV, 0x20_0000, 32, 0) && Call(es[3], SYS_YIELD, 0, 0, 0) && es[4] == es[0]
    requires Call(es[5], SYS_SLEEP, 100, 0, 0) && Call(es[6], SYS_RECV, 0x20_0000, 32, 0)
    ensures
      var k1 := Step(k, es[0]).k;
      var k2 := Step(k1, es[1]).k;
      var k3 := Step(k2, es[2]).k;
      var k4 := Step(k3, es[3]).k;
      var k5 := Step(k4, es[4]).k;
      var k6 := Step(k5, es[5]).k;
      var k7 := Step(k6, es[6]).k;
      && k6.tasks[1].state == Blocked && k6.tasks[1].saved.x[8] == SYS_SLEEP && k6.tasks[1].wakeTick == k.ticks + 100
      && k7.tasks[1].state == Ready && 1 in k7.queue && k7.ticks == k.ticks
  {
    hide Step, At, Call;
    SendBlocks(k, es[0]);
    var k1 := Step(k, es[0]).k;
    MessageWakes(k1, es[1]);
    var k2 := Step(k1, es[1]).k;
    TooLate(k2, es[2]);
    var k3 := Step(k2, es[2]).k;
    YieldsToSender(k3, es[3]);
    var k4 := Step(k3, es[3]).k;
    RetrySucceeds(k4, es[4]);
    var k5 := Step(k4, es[4]).k;
    GoesToSleep(k5, es[5]);
    var k6 := Step(k5, es[5]).k;
    WokenOutOfSleep(k6, es[6]);
  }

  lemma SendBlocks(k: Kernel, e: Event)
    requires At(k, 1, [2]) && k.tasks[2].state == Ready && k.tasks[1].mailboxLen == 0 && k.tasks[2].mailboxLen > 0
    requires Call(e, SYS_SENDBLK, 2, 0x20_0000, 5)
    ensures
      var k1 := Step(k, e).k;
      && At(k1, 2, []) && k1.ticks == k.ticks && k1.tasks[2].mailboxLen > 0
      && k1.tasks[1].state == Blocked && k1.tasks[1].mailboxLen == 0 && k1.tasks[1].blockedSendDst == 2
  {
    hide ReadUser, UserWrites;
  }

  lemma MessageWakes(k: Kernel, e: Event)
    requires At(k, 2, []) && k.tasks[1].state == Blocked && k.tasks[1].mailboxLen == 0 && k.tasks[1].blockedSendDst == 2
    requires k.tasks[2].mailboxLen > 0 && Call(e, SYS_SEND, 1, 0x20_0000, 5)
    ensures
      var k1 := Step(k, e).k;
      && At(k1, 2, [1]) && k1.ticks == k.ticks && k1.tasks[2].mailboxLen > 0
      && k1.tasks[1].state == Ready && k1.tasks[1].blockedSendDst == 2
  {
    hide UserWrites;
  }

  lemma TooLate(k: Kernel, e: Event)
    requires At(k, 2, [1]) && k.tasks[1].state == Ready && k.tasks[1].blockedSendDst == 2
    requires k.tasks[2].mailboxLen > 0 && Call(e, SYS_RECV, 0x20_0000, 32, 0)
    ensures
      var k1 := Step(k, e).k;
      && At(k1, 2, [1]) && k1.ticks == k.ticks && k1.tasks[2].mailboxLen == 0
      && k1.tasks[1].state == Ready && k1.tasks[1].blockedSendDst == 2
  {
    hide UserWrites, WriteUser, Scan;
    Drained(SetTask(Trap(k, e), 2, k.tasks[2].(mailboxLen := 0, mailboxFrom := 0)), 8);
  }

  /** A receive of task 2 finds at most task 1 asleep. */
  lemma {:induction false} Drained(k: Kernel, n: nat)
    requires 2 <= n <= 8 && forall t: Tid :: t != 1 ==> k.tasks[t].state != Blocked
    ensures Scan(k, Senders(2), n) == ScanOne(k, Senders(2), 1)
  {
    if n == 2 {
      assert Scan(k, Senders(2), 1) == k;
    } else {
      Drained(k, n - 1);
      assert SetTask(k, 1, Touched(Senders(2), k.tasks[1])).tasks[n - 1] == k.tasks[n - 1];
      var k1 := ScanOne(k, Senders(2), 1);
      assert k1.tasks[n - 1 := k1.tasks[n - 1]] == k1.tasks;
    }
  }

  lemma YieldsToSender(k: Kernel, e: Event)
    requires At(k, 2, [1]) && k.tasks[1].state == Ready && k.tasks[1].blockedSendDst == 2 && k.tasks[2].mailboxLen == 0
    requires Call(e, SYS_YIELD, 0, 0, 0)
    ensures
      var k1 := Step(k, e).k;
      && At(k1, 1, [2]) && k1.ticks == k.ticks && k1.tasks[2].mailboxLen == 0 && k1.tasks[2].state == Ready
      && k1.tasks[1].blockedSendDst == 2
  {
    hide UserWrites;
  }

  lemma RetrySucceeds(k: Kernel, e: Event)
    requires At(k, 1, [2]) && k.tasks[2].mailboxLen == 0 && k.tasks[2].state == Ready && k.tasks[1].blockedSendDst == 2
    requires Call(e, SYS_SENDBLK, 2, 0x20_0000, 5)
    ensures
      var k1 := Step(k, e).k;
      && At(k1, 1, [2]) && k1.ticks == k.ticks && k1.tasks[2].mailboxLen > 0 && k1.tasks[2].state == Ready
      && k1.tasks[1].blockedSendDst == 2
  {
    hide UserWrites;
  }

  lemma GoesToSleep(k: Kernel, e: Event)
    requires At(k, 1, [2]) && k.tasks[2].mailboxLen > 0 && k.tasks[2].state == Ready && k.tasks[1].blockedSendDst == 2
    requires Call(e, SYS_SLEEP, 100, 0, 0)
    ensures
      var k1 := Step(k, e).k;
      && At(k1, 2, []) && k1.ticks == k.ticks && k1.tasks[2].mailboxLen > 0
      && k1.tasks[1].state == Blocked && k1.tasks[1].saved.x[8] == SYS_SLEEP
      && k1.tasks[1].wakeTick == k.ticks + 100 && k1.tasks[1].blockedSendDst == 2
  {
    hide UserWrites;
  }

  lemma WokenOutOfSleep(k: Kernel, e: Event)
    requires At(k, 2, []) && k.tasks[1].state == Blocked && k.tasks[1].blockedSendDst == 2 && k.tasks[2].mailboxLen > 0
    requires Call(e, SYS_RECV, 0x20_0000, 32, 0)
    ensures
      var k1 := Step(k, e).k;
      k1.tasks[1].state == Ready && 1 in k1.queue && k1.ticks == k.ticks
  {
    hide UserWrites, WriteUser, Scan;
    Drained(SetTask(Trap(k, e), 2, k.tasks[2].(mailboxLen := 0, mailboxFrom := 0)), 8);
  }
}
