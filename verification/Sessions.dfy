/** Whole sessions: an empty table, some spawns, the first entry to EL0, then any exceptions. */
module Sessions {
  import opened Words
  import opened KernelState
  import opened WellFormed
  import opened Actions
  import opened Handlers

  // ---- How a session starts -------------------------------------------------------------

  /** The task `spawn` leaves in the table. */
  function Fresh(a: SpawnArgs): Task {
    EMPTY_TASK.(saved := EMPTY_FRAME.(elr := a.entry, sp := a.sp),
                ttbr0 := a.ttbr0, kstackTop := a.kstackTop, state := Ready)
  }

  /** The table after spawning: slot i holds the i-th task, at most seven of them. */
  predicate Populated(tasks: Table, args: seq<SpawnArgs>) {
    && tasks[0] == EMPTY_TASK
    && forall t: Tid :: 1 <= t ==> tasks[t] == if t <= |args| then Fresh(args[t - 1]) else EMPTY_TASK
  }

  /** The queue after spawning n tasks: 1, 2, ..., n. */
  function UpTo(n: nat): (q: seq<Tid>)
    requires n < 8
    ensures |q| == n && forall i :: 0 <= i < n ==> q[i] == i + 1
  {
    if n == 0 then [] else UpTo(n - 1) + [n]
  }

  lemma {:induction false} FreeSlotIs(tasks: Table, from: nat, n: nat)
    requires from <= n <= 8
    requires forall t: Tid :: from <= t < n ==> tasks[t].state != Exited
    requires n == 8 || tasks[n].state == Exited
    ensures FreeSlot(tasks, from) == n
    decreases n - from
  {
    if from < n {
      var t: Tid := from;
      assert tasks[t].state != Exited;
      FreeSlotIs(tasks, from + 1, n);
    }
  }

  /** Spawning fills the slots in order and queues each task; past seven it changes nothing. */
  lemma {:induction false} SpawnAllMeaning(boot: Kernel, args: seq<SpawnArgs>)
    requires Booted(boot)
    ensures
      var k := SpawnAll(boot, args);
      && Populated(k.tasks, args)
      && k == boot.(tasks := k.tasks, queue := UpTo(Min(|args|, 7)))
  {
    hide Spawn, UpTo;
    if args == [] {
      NobodySpawned(boot);
    } else {
      SpawnAllMeaning(boot, args[..|args| - 1]);
      SpawnsNext(SpawnAll(boot, args[..|args| - 1]), args);
    }
  }

  lemma NobodySpawned(boot: Kernel)
    requires Booted(boot)
    ensures Populated(boot.tasks, []) && boot.queue == UpTo(0)
  {
  }

  lemma SpawnsNext(k: Kernel, args: seq<SpawnArgs>)
    requires args != [] && Populated(k.tasks, args[..|args| - 1]) && k.queue == UpTo(Min(|args| - 1, 7))
    ensures
      var k1 := Spawn(k, args[|args| - 1]).0;
      Populated(k1.tasks, args) && k1 == k.(tasks := k1.tasks, queue := UpTo(Min(|args|, 7)))
  {
    hide FreeSlot;
    FreeSlotIs(k.tasks, 1, Min(|args|, 8));
  }

  lemma PopulatedSane(k: Kernel, args: seq<SpawnArgs>)
    requires Populated(k.tasks, args) && k.queue == UpTo(Min(|args|, 7))
    ensures Sane(k) && forall t: Tid :: k.tasks[t].state != Running
  {
    forall t: Tid ensures t in k.queue <==> k.tasks[t].state == Ready {
      if 1 <= t <= Min(|args|, 7) { assert k.queue[t - 1] == t; }
    }
  }

  /** The task in each slot when the session's first instruction executes. */
  function Initially(args: seq<SpawnArgs>, t: Tid): Task {
    if t == 0 || t > |args| then EMPTY_TASK
    else if t == 1 then Fresh(args[0]).(state := Running)
    else Fresh(args[t - 1])
  }

  /** A slot somebody was just spawned into: the entry point and stack it was given, EL0 with all registers
      zero, an empty mailbox, and nothing it waits for. */
  ghost predicate JustSpawned(o: Task, a: SpawnArgs) {
    && o.saved.elr == a.entry && o.saved.sp == a.sp && o.saved.spsr == 0
    && (forall i :: 0 <= i < 31 ==> o.saved.x[i] == 0)
    && o.ttbr0 == a.ttbr0 && o.kstackTop == a.kstackTop && o.mailboxLen == 0 && o.exitCode == 0
    && o.blockedSendDst == 0 && o.wakeTick == 0 && o.waitingOn == 0
  }

  /** Entering EL0: the first spawned task runs at the fixed entry point with cleared argument registers,
      the others wait in spawn order. */
  lemma StartMeaning(boot: Kernel, args: seq<SpawnArgs>, leftover: Regs)
    requires Booted(boot)
    ensures Start(boot, args, leftover).Resume? <==> args != []
    ensures args != [] ==> WF(Start(boot, args, leftover).k)
    ensures args != [] ==>
      var k := Start(boot, args, leftover).k;
      && (forall t: Tid :: k.tasks[t] == Initially(args, t))
      && k == boot.(tasks := k.tasks, queue := UpTo(Min(|args|, 7))[1..], current := 1,
                    frame := k.frame, ttbr0 := args[0].ttbr0)
      && (forall t: Tid :: 1 <= t <= |args| ==> JustSpawned(k.tasks[t], args[t - 1]))
      && k.frame.elr == 0x10_0000 && k.frame.spsr == 0 && k.frame.sp == boot.spEl1
      && forall i :: 0 <= i < 31 ==> k.frame.x[i] == if i < 19 then 0 else leftover[i]
  {
    hide JustSpawned, SpawnAll;
    SpawnAllMeaning(boot, args);
    var k := SpawnAll(boot, args);
    PopulatedSane(k, args);
    if args != [] {
      DispatchWF(k);
      assert k.queue[0] == 1;
      FirstFrame(k, leftover);
      forall t: Tid | 1 <= t <= |args| ensures JustSpawned(Initially(args, t), args[t - 1]) { AsSpawned(args, t); }
    }
  }

  lemma AsSpawned(args: seq<SpawnArgs>, t: Tid)
    requires 1 <= t <= |args|
    ensures JustSpawned(Initially(args, t), args[t - 1])
  {
  }

  lemma FirstFrame(k: Kernel, leftover: Regs)
    requires k.queue != [] && k.tasks[k.queue[0]].state != Exited
    ensures
      var f := EnterFirst(k, leftover).k.frame;
      && EnterFirst(k, leftover).Resume? && f.elr == 0x10_0000 && f.spsr == 0 && f.sp == k.spEl1
      && forall i :: 0 <= i < 31 ==> f.x[i] == if i < 19 then 0 else leftover[i]
  {
  }

  // ---- Runs ------------------------------------------------------------------------------------

  /** No exception of the run is a failed block. */
  ghost predicate Clean(k: Kernel, es: seq<Event>)
    decreases |es|
  {
    es == [] ||
    (&& !FailedBlock(Trap(k, es[0]), es[0].cause)
     && (Step(k, es[0]).Resume? ==> Clean(Step(k, es[0]).k, es[1..])))
  }

  /** Scheduler well-formedness is kept by every run without a failed block. */
  lemma {:induction false} RunKeepsWF(k: Kernel, es: seq<Event>)
    requires WF(k) && Clean(k, es)
    ensures Run(k, es).Resume? ==> WF(Run(k, es).k)
    ensures Run(k, es).Monitor? ==> Stuck(Run(k, es).k)
    decreases |es|
  {
    hide Step, ActionOf;
    if es != [] {
      StepKeepsWF(k, es[0]);
      if Step(k, es[0]).Resume? { RunKeepsWF(Step(k, es[0]).k, es[1..]); }
    }
  }

  /** Scheduler well-formedness over every session without a failed block: at every return to
      EL0 exactly one task is Running and it is CURRENT_TID, the ring holds every Ready task
      exactly once and nobody else, and it never holds more than six. At the return to the monitor
      every task that has not ended is Blocked. */
  lemma {:induction false} SessionWellFormed(boot: Kernel, args: seq<SpawnArgs>, leftover: Regs, es: seq<Event>)
    requires Booted(boot) && args != [] && Clean(Start(boot, args, leftover).k, es)
    ensures
      var r := Session(boot, args, leftover, es);
      if r.Monitor? then Stuck(r.k)
      else
        && 1 <= r.k.current
        && (forall t: Tid :: r.k.tasks[t].state == Running <==> t == r.k.current)
        && Distinct(r.k.queue)
        && (forall t: Tid :: t in r.k.queue <==> r.k.tasks[t].state == Ready)
        && |r.k.queue| <= 6
  {
    hide Step, ActionOf;
    StartMeaning(boot, args, leftover);
    var k := Start(boot, args, leftover).k;
    RunKeepsWF(k, es);
    if Run(k, es).Resume? { Room(Run(k, es).k.queue, Run(k, es).k.current); }
  }
}
