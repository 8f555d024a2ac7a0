/** First come, first served: how long a Ready task waits, and the order in which ticks rotate
    the CPU. */
module Fairness {
  import opened Words
  import opened KernelState
  import opened WellFormed
  import opened Actions
  import opened Handlers
  import opened Sessions
  import opened VirtualCpu

  /** The tasks that join the queue in an action, in order. */
  ghost function Joining(k: Kernel, a: Action): seq<Tid>
    requires a.Sends? ==> |a.data| <= 32
    requires a.Receives? ==> |a.data| <= 32 && a.va + |a.data| < TWO_64
  {
    if |Before(k, a).queue| >= |k.queue| then Before(k, a).queue[|k.queue|..] else []
  }

  lemma JoinAtTail(k: Kernel, a: Action)
    requires WF(k)
    requires a.Sends? ==> |a.data| <= 32
    requires a.Receives? ==> |a.data| <= 32 && a.va + |a.data| < TWO_64
    ensures Before(k, a).queue == k.queue + Joining(k, a)
  {
    var cur := k.current;
    match a
    case Receives(_, _, _) =>
      var k1 := SetTask(k, cur, k.tasks[cur].(mailboxLen := 0, mailboxFrom := 0));
      ScanMeaning(k1, Senders(cur), 8);
      assert Before(k, a).queue == k.queue + Woken(k1.tasks, Senders(cur), 8);
    case Exits(code) =>
      var task := k.tasks[cur].(state := Exited, exitCode := code);
      RetireSane(k, cur, task);
      var k1 := SetTask(k, cur, task);
      ScanMeaning(k1, Waiters(cur), 8);
      assert Before(k, a).queue == k.queue + Woken(k1.tasks, Waiters(cur), 8);
    case TimerTick =>
      var k1 := k.(ticks := WrappingAdd(k.ticks, 1));
      ScanMeaning(k1, Sleepers(k1.ticks), 8);
      var woken := Woken(k1.tasks, Sleepers(k1.ticks), 8);
      assert Ticked(k).queue == k.queue + woken;
      assert k.preempt ==> Before(k, a).queue == k.queue + (woken + [cur]);
    case Blocks(_) =>
      assert k.queue + [] == k.queue;
    case _ =>
  }

  /** One exception leaves the queue, up to its tail, as it was, less its head if it switches;
      the head is then the task that runs. */
  lemma StepServesInOrder(k: Kernel, e: Event)
    requires WF(k) && !FailedBlock(Trap(k, e), e.cause)
    ensures
      var a := ActionOf(Trap(k, e), e.cause);
      var k1 := Step(k, e).k;
      && (k.queue != [] ==> Step(k, e).Resume?)
      && (Step(k, e).Resume? ==>
            if Switches(k, a) then
              k.queue != [] ==> k1.current == k.queue[0] && k.queue[1..] <= k1.queue
            else k1.current == k.current && k.queue <= k1.queue)
  {
    hide Handle;
    var k0 := Trap(k, e);
    var a := ActionOf(k0, e.cause);
    HandlePerforms(k0, e.cause);
    SendsToLiveTask(k0, e.cause);
    JoinAtTail(k0, a);
    BeforeSane(k0, a);
    if Switches(k0, a) { DispatchWF(Before(k0, a)); }
  }

  /** Where a waiting task is after one exception. */
  lemma StepMovesUp(k: Kernel, e: Event, i: nat)
    requires WF(k) && !FailedBlock(Trap(k, e), e.cause) && i < |k.queue|
    ensures
      var k1 := Step(k, e).k;
      && Step(k, e).Resume?
      && if !Switches(k, ActionOf(Trap(k, e), e.cause)) then i < |k1.queue| && k1.queue[i] == k.queue[i]
         else if i == 0 then k1.current == k.queue[0]
         else i - 1 < |k1.queue| && k1.queue[i - 1] == k.queue[i]
  {
    StepServesInOrder(k, e);
    if i > 0 { assert k.queue[1..][i - 1] == k.queue[i]; }
  }

  /** A waiting task only moves forward: i places from the head, after n <= i switches it is
      i - n places from it. */
  lemma {:induction false} MovesForward(k: Kernel, es: seq<Event>, i: nat)
    requires WF(k) && Clean(k, es) && i < |k.queue| && SwitchCount(k, es) <= i
    ensures Run(k, es).Resume? && WF(Run(k, es).k)
    ensures i - SwitchCount(k, es) < |Run(k, es).k.queue|
    ensures Run(k, es).k.queue[i - SwitchCount(k, es)] == k.queue[i]
    decreases |es|
  {
    hide Step, ActionOf, Switches;
    if es != [] {
      StepKeepsWF(k, es[0]);
      StepMovesUp(k, es[0], i);
      MovesForward(Step(k, es[0]).k, es[1..],
                   if Switches(k, ActionOf(Trap(k, es[0]), es[0].cause)) then i - 1 else i);
    }
  }

  /** Bounded waiting: the task at position i of the queue is the one the (i+1)-th following
      switch runs, whatever wakes, exits, faults and blocks occur meanwhile, and it keeps the CPU
      until the next one. */
  lemma {:induction false} ServedInTurn(k: Kernel, es: seq<Event>, i: nat)
    requires WF(k) && Clean(k, es) && i < |k.queue| && SwitchCount(k, es) == i + 1
    ensures Run(k, es).Resume? && Run(k, es).k.current == k.queue[i]
    decreases |es|
  {
    hide Step, ActionOf, Switches;
    var k1 := Step(k, es[0]).k;
    StepKeepsWF(k, es[0]);
    StepMovesUp(k, es[0], i);
    if !Switches(k, ActionOf(Trap(k, es[0]), es[0].cause)) {
      ServedInTurn(k1, es[1..], i);
    } else if i == 0 {
      NoSwitchSameTask(k1, es[1..]);
    } else {
      ServedInTurn(k1, es[1..], i - 1);
    }
  }

  lemma {:induction false} NoSwitchSameTask(k: Kernel, es: seq<Event>)
    requires WF(k) && Clean(k, es) && SwitchCount(k, es) == 0
    ensures Run(k, es).Resume? && Run(k, es).k.current == k.current
    decreases |es|
  {
    hide Step, ActionOf, Switches;
    if es != [] {
      StepKeepsWF(k, es[0]);
      NoSwitchKeepsTask(k, es[0]);
      NoSwitchSameTask(Step(k, es[0]).k, es[1..]);
    }
  }

  lemma NoSwitchKeepsTask(k: Kernel, e: Event)
    requires WF(k) && !FailedBlock(Trap(k, e), e.cause)
    requires !Switches(k, ActionOf(Trap(k, e), e.cause))
    ensures Step(k, e).Resume? && Step(k, e).k.current == k.current
  {
    hide Handle;
    var k0 := Trap(k, e);
    HandlePerforms(k0, e.cause);
    SendsToLiveTask(k0, e.cause);
    BeforeSane(k0, ActionOf(k0, e.cause));
  }

  /** Hence every Ready task runs within seven switches. */
  lemma {:induction false} WithinSevenSwitches(k: Kernel, t: Tid)
    requires WF(k) && k.tasks[t].state == Ready
    ensures exists i: nat ::
      && i < |k.queue| && i < 7 && k.queue[i] == t
      && forall es: seq<Event> :: Clean(k, es) && SwitchCount(k, es) == i + 1 ==>
           Run(k, es).Resume? && Run(k, es).k.current == t
  {
    hide Step, ActionOf, Switches;
    assert t in k.queue;
    var i: nat :| i < |k.queue| && k.queue[i] == t;
    Room(k.queue, k.current);
    forall es: seq<Event> | Clean(k, es) && SwitchCount(k, es) == i + 1
      ensures Run(k, es).Resume? && Run(k, es).k.current == t
    {
      ServedInTurn(k, es, i);
    }
  }

  // ---- Preemption rotates spinning tasks -----------------------------------------------------------

  /** The running task, then the Ready ones in order. */
  function Line(k: Kernel): seq<Tid> { [k.current] + k.queue }

  /** All tasks that have not ended are running or Ready, and ticks preempt. */
  ghost predicate AllSpinning(k: Kernel) {
    WF(k) && k.preempt && forall t: Tid :: k.tasks[t].state != Blocked
  }

  lemma {:induction false} NobodyToWake(tasks: Table, r: Reason, n: nat)
    requires n <= 8 && forall t: Tid :: tasks[t].state != Blocked
    ensures Woken(tasks, r, n) == []
  {
    if n > 1 { NobodyToWake(tasks, r, n - 1); }
  }

  lemma TickRequeues(k: Kernel)
    requires AllSpinning(k)
    ensures
      var k2 := Before(k, TimerTick);
      && Sane(k2) && k2.queue == k.queue + [k.current] && k2.preempt && k2.preempts == k.preempts
      && forall t: Tid :: k2.tasks[t].state in {Ready, Exited}
  {
    var k1 := k.(ticks := WrappingAdd(k.ticks, 1));
    BeforeSane(k, TimerTick);
    ScanMeaning(k1, Sleepers(k1.ticks), 8);
    NobodyToWake(k1.tasks, Sleepers(k1.ticks), 8);
  }

  lemma TickRotates(k: Kernel, e: Event)
    requires AllSpinning(k) && e.cause.Tick?
    ensures
      var k1 := Step(k, e).k;
      && Step(k, e).Resume? && AllSpinning(k1)
      && Line(k1) == Line(k)[1..] + [Line(k)[0]]
      && k1.preempts == WrappingAdd(k.preempts, 1)
  {
    hide Handle, Before;
    var k0 := Trap(k, e);
    HandlePerforms(k0, Tick);
    TickRequeues(k0);
    var k2 := Before(k0, TimerTick);
    DispatchWF(k2);
    assert Step(k, e).k.queue == k2.queue[1..];
    assert Line(Step(k, e).k) == [k2.queue[0]] + k2.queue[1..];
  }

  /** Moving the head to the tail, m times. */
  function Rotate(s: seq<Tid>, m: nat): seq<Tid>
    requires s != []
    decreases m
  {
    if m == 0 then s else Rotate(s[1..] + [s[0]], m - 1)
  }

  lemma {:induction false} RotateSplits(s: seq<Tid>, m: nat)
    requires s != [] && m <= |s|
    decreases m
    ensures Rotate(s, m) == s[m..] + s[..m]
  {
    if m > 0 {
      var r := s[1..] + [s[0]];
      RotateSplits(r, m - 1);
      assert r[m - 1..] + r[..m - 1] == s[m..] + s[..m];
    }
  }

  lemma {:induction false} TicksRotate(k: Kernel, es: seq<Event>)
    requires AllSpinning(k) && forall e :: e in es ==> e.cause.Tick?
    ensures Run(k, es).Resume? && AllSpinning(Run(k, es).k)
    ensures Line(Run(k, es).k) == Rotate(Line(k), |es|)
    decreases |es|
  {
    hide Step, ActionOf, Switches;
    if es != [] {
      TickRotates(k, es[0]);
      TicksRotate(Step(k, es[0]).k, es[1..]);
    }
  }

  /** Under preemption, m <= n ticks over n spinning tasks leave the task m places on running and
      keep the cyclic order; n ticks run each task once and restore the line. */
  lemma {:induction false} TicksAreFair(k: Kernel, es: seq<Event>)
    requires AllSpinning(k) && (forall e :: e in es ==> e.cause.Tick?) && |es| <= |Line(k)|
    ensures Run(k, es).Resume?
    ensures Line(Run(k, es).k) == Line(k)[|es|..] + Line(k)[..|es|]
    ensures Run(k, es).k.current == if |es| < |Line(k)| then Line(k)[|es|] else k.current
  {
    hide Step, ActionOf, Switches;
    TicksRotate(k, es);
    RotateSplits(Line(k), |es|);
    assert Run(k, es).k.current == Line(Run(k, es).k)[0];
  }
}
