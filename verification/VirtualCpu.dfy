/** Every task has its own virtual CPU and address space: what other tasks, ticks and faults do
    in between does not show. */
module VirtualCpu {
  import opened Words
  import opened KernelState
  import opened WellFormed
  import opened Actions
  import opened Handlers
  import opened Sessions
  import opened History
  import opened Ledger
  import Durable

  /** The registers a task has, or will be resumed with. */
  function Vcpu(k: Kernel, t: Tid): Cpu {
    CpuOf(if t == k.current then k.frame else k.tasks[t].saved)
  }

  /** What a task's own exception does to its registers, the task being the `self` that trapped. */
  function OwnEffect(c: Cpu, a: Action): Cpu
    requires a.Receives? ==> |a.data| <= 32
  {
    match a
    case Reply(v) => c.(x := c.x[0 := v])
    case Sends(_, _) => c.(x := c.x[0 := 0])
    case Receives(_, data, from) => c.(x := c.x[0 := |data|][1 := from])
    case Blocks(TickAt(_)) => c.(x := c.x[0 := 0])
    case Blocks(_) => c.(elr := WrappingSub(c.elr, 4))
    case _ => c
  }

  /** The part of a task a switch loads. */
  ghost predicate SameContext(a: Task, b: Task) {
    b.saved == a.saved && b.ttbr0 == a.ttbr0 && b.kstackTop == a.kstackTop
  }

  /** An action's own effect on registers and saved frames, before anybody is picked. */
  lemma BeforeRegisters(k: Kernel, a: Action)
    requires a.Sends? ==> |a.data| <= 32
    requires a.Receives? ==> |a.data| <= 32 && a.va + |a.data| < TWO_64
    ensures
      var k1 := Before(k, a);
      && (forall t: Tid :: t != k.current ==> SameContext(k.tasks[t], k1.tasks[t]))
      && SameContext(k.tasks[k.current], k1.tasks[k.current].(saved := k.tasks[k.current].saved))
      && (!Switches(k, a) ==> CpuOf(k1.frame) == OwnEffect(CpuOf(k.frame), a))
      && (Switches(k, a) && !a.Exits? && !a.Dies? ==>
          CpuOf(k1.tasks[k.current].saved) == OwnEffect(CpuOf(k.frame), a))
  {
    ScansInBefore(k, a);
    if a.TimerTick? { assert SameContext(k.tasks[k.current], Ticked(k).tasks[k.current]); }
  }

  /** And on the machine: nothing but the frame, and for a receive the caller's memory. */
  lemma BeforeMachine(k: Kernel, a: Action)
    requires a.Sends? ==> |a.data| <= 32
    requires a.Receives? ==> |a.data| <= 32 && a.va + |a.data| < TWO_64
    ensures
      var k1 := Before(k, a);
      k1 == k.(tasks := k1.tasks, queue := k1.queue, frame := k1.frame,
               ticks := if a.TimerTick? then WrappingAdd(k.ticks, 1) else k.ticks,
               mem := if a.Receives? then WriteUser(k.mem, k.ttbr0, a.va, a.data) else k.mem)
  {
    ScansInBefore(k, a);
  }

  lemma ScansInBefore(k: Kernel, a: Action)
    ensures a.Receives? ==>
      var k1 := SetTask(k, k.current, k.tasks[k.current].(mailboxLen := 0, mailboxFrom := 0));
      var k2 := Drained(k);
      k2 == k1.(tasks := k2.tasks, queue := k2.queue) && forall t: Tid :: SameContext(k1.tasks[t], k2.tasks[t])
    ensures a.Exits? ==>
      var k1 := SetTask(k, k.current, k.tasks[k.current].(state := Exited, exitCode := a.code));
      var k2 := Before(k, a);
      k2 == k1.(tasks := k2.tasks, queue := k2.queue) && forall t: Tid :: SameContext(k1.tasks[t], k2.tasks[t])
    ensures a.TimerTick? ==>
      var k1 := k.(ticks := WrappingAdd(k.ticks, 1));
      var k2 := Ticked(k);
      k2 == k1.(tasks := k2.tasks, queue := k2.queue) && forall t: Tid :: SameContext(k1.tasks[t], k2.tasks[t])
  {
    var cur := k.current;
    match a
    case Receives(_, _, _) =>
      ScanKeepsContext(SetTask(k, cur, k.tasks[cur].(mailboxLen := 0, mailboxFrom := 0)), Senders(cur), 8);
    case Exits(code) =>
      ScanKeepsContext(SetTask(k, cur, k.tasks[cur].(state := Exited, exitCode := code)), Waiters(cur), 8);
    case TimerTick =>
      var k1 := k.(ticks := WrappingAdd(k.ticks, 1));
      ScanKeepsContext(k1, Sleepers(k1.ticks), 8);
    case _ =>
  }

  lemma DispatchVcpus(k: Kernel, t: Tid)
    requires Sane(k) && k.queue != [] && forall u: Tid :: k.tasks[u].state != Running
    ensures Vcpu(Dispatch(k).0, t) == CpuOf(k.tasks[t].saved)
  {
    DispatchWF(k);
  }

  /** One exception: the trapping task's registers change by its own call alone, and every other
      task's not at all. */
  lemma StepKeepsVcpus(k: Kernel, e: Event, t: Tid)
    requires WF(k) && !FailedBlock(Trap(k, e), e.cause) && Step(k, e).Resume?
    ensures t != k.current ==> Vcpu(Step(k, e).k, t) == Vcpu(k, t)
    ensures
      var a := ActionOf(Trap(k, e), e.cause);
      t == k.current && !a.Exits? && !a.Dies? ==> Vcpu(Step(k, e).k, t) == OwnEffect(e.cpu, a)
  {
    hide Handle;
    var k1 := Trap(k, e);
    var a := ActionOf(k1, e.cause);
    var k2 := Before(k1, a);
    HandlePerforms(k1, e.cause);
    SendsToLiveTask(k1, e.cause);
    BeforeRegisters(k1, a);
    BeforeSane(k1, a);
    if Switches(k1, a) {
      DispatchVcpus(k2, t);
      assert Vcpu(Step(k, e).k, t) == Vcpu(Dispatch(k2).0, t);
    }
    assert SameContext(k.tasks[t], k2.tasks[t]) || t == k.current;
  }

  /** Task t takes none of the run's exceptions. */
  ghost predicate Absent(k: Kernel, es: seq<Event>, t: Tid)
    decreases |es|
  {
    es == [] ||
    (&& k.current != t
     && (Step(k, es[0]).Resume? ==> Absent(Step(k, es[0]).k, es[1..], t)))
  }

  /** The virtual CPU over runs: a task that is off the CPU is resumed with exactly the x0..x30,
      ELR and SPSR saved when it was switched out or spawned, whatever the others did since. */
  lemma {:induction false} ResumedAsSaved(k: Kernel, es: seq<Event>, t: Tid)
    requires WF(k) && Clean(k, es) && Absent(k, es, t) && t != k.current
    requires Run(k, es).Resume?
    ensures Vcpu(Run(k, es).k, t) == CpuOf(k.tasks[t].saved)
    ensures Run(k, es).k.current == t ==> CpuOf(Run(k, es).k.frame) == CpuOf(k.tasks[t].saved)
    decreases |es|
  {
    hide Step, ActionOf, Switches;
    if es != [] {
      StepKeepsWF(k, es[0]);
      StepKeepsVcpus(k, es[0], t);
      var k1 := Step(k, es[0]).k;
      if t != k1.current { ResumedAsSaved(k1, es[1..], t); }
    }
  }

  // ---- Address spaces and kernel stacks --------------------------------------------------------

  /** The root tables and kernel stacks of the tasks never change. */
  lemma StepKeepsRoots(k: Kernel, e: Event, t: Tid)
    requires WF(k) && !FailedBlock(Trap(k, e), e.cause)
    ensures Step(k, e).k.tasks[t].ttbr0 == k.tasks[t].ttbr0
    ensures Step(k, e).k.tasks[t].kstackTop == k.tasks[t].kstackTop
  {
    hide Handle, Before;
    var k1 := Trap(k, e);
    var a := ActionOf(k1, e.cause);
    HandlePerforms(k1, e.cause);
    SendsToLiveTask(k1, e.cause);
    BeforeRegisters(k1, a);
  }

  /** At a return to EL0, what the dispatched task finds. The documentation says a zero kernel
      stack means the boot stack; in fact it means the stack of whoever ran before. */
  lemma SwitchInstalls(k: Kernel, e: Event)
    requires WF(k) && k.pendingSp == 0 && !FailedBlock(Trap(k, e), e.cause) && Step(k, e).Resume?
    ensures
      var k1 := Step(k, e).k;
      var t := k1.tasks[k1.current];
      && k1.pendingSp == 0
      && if Switches(k, ActionOf(Trap(k, e), e.cause)) then
           && k1.ttbr0 == (if t.ttbr0 != 0 then t.ttbr0 else k.ttbr0)
           && k1.spEl1 == (if t.kstackTop != 0 then t.kstackTop else k.spEl1)
         else k1.current == k.current && k1.ttbr0 == k.ttbr0 && k1.spEl1 == k.spEl1
  {
    hide Handle;
    var k1 := Trap(k, e);
    var a := ActionOf(k1, e.cause);
    HandlePerforms(k1, e.cause);
    SendsToLiveTask(k1, e.cause);
    BeforeRegisters(k1, a);
    BeforeMachine(k1, a);
    BeforeSane(k1, a);
    if Switches(k1, a) { DispatchWF(Before(k1, a)); }
  }

  /** The number of task switches in a run. */
  ghost function SwitchCount(k: Kernel, es: seq<Event>): nat
    decreases |es|
  {
    if es == [] then 0 else
    (if Switches(k, ActionOf(Trap(k, es[0]), es[0].cause)) then 1 else 0) +
    if Step(k, es[0]).Resume? then SwitchCount(Step(k, es[0]).k, es[1..]) else 0
  }

  /** Each task's root table and kernel stack are those it was spawned with, and are not zero. */
  ghost predicate Installed(k: Kernel, args: seq<SpawnArgs>) {
    && k.ttbr0 == k.tasks[k.current].ttbr0
    && k.pendingSp == 0
    && forall t: Tid :: k.tasks[t].state != Exited ==>
         && 1 <= t <= |args|
         && k.tasks[t].ttbr0 == args[t - 1].ttbr0 != 0
         && k.tasks[t].kstackTop == args[t - 1].kstackTop != 0
  }

  lemma {:induction false} RunInstalls(k: Kernel, es: seq<Event>, args: seq<SpawnArgs>)
    requires WF(k) && Clean(k, es) && Installed(k, args)
    ensures Run(k, es).Resume? ==>
      var k1 := Run(k, es).k;
      && Installed(k1, args)
      && (SwitchCount(k, es) == 0 ==> k1.current == k.current && k1.spEl1 == k.spEl1)
      && (SwitchCount(k, es) > 0 ==> k1.spEl1 == k1.tasks[k1.current].kstackTop)
    ensures k.spEl1 == k.tasks[k.current].kstackTop && Run(k, es).Resume? ==>
      Run(k, es).k.spEl1 == Run(k, es).k.tasks[Run(k, es).k.current].kstackTop
    decreases |es|
  {
    hide Step, ActionOf, Switches;
    if es != [] && Step(k, es[0]).Resume? {
      var k1 := Step(k, es[0]).k;
      StepKeepsWF(k, es[0]);
      SwitchInstalls(k, es[0]);
      forall t: Tid
        ensures k1.tasks[t].ttbr0 == k.tasks[t].ttbr0 && k1.tasks[t].kstackTop == k.tasks[t].kstackTop
        ensures k1.tasks[t].state != Exited ==> k.tasks[t].state != Exited
      {
        StepKeepsRoots(k, es[0], t);
        if k.tasks[t].state == Exited { EndedStaysEnded(k, es[0], t); }
      }
      RunInstalls(k1, es[1..], args);
    }
  }

  lemma EndedStaysEnded(k: Kernel, e: Event, t: Tid)
    requires WF(k) && k.tasks[t].state == Exited
    ensures Step(k, e).k.tasks[t].state == Exited
  {
    TrapKeepsTasks(k, e);
    StepCores(k, e, t);
    ActionFacts(Trap(k, e), e.cause);
    BeforeCores(Trap(k, e), ActionOf(Trap(k, e), e.cause), t);
  }

  /** Over every session without a failed block, in which every task has a root table and a
      kernel stack: at every return to EL0 the live TTBR0 is the running task's, no stack switch
      is left pending, and from the first task switch on SP_EL1 is the running task's kernel
      stack (before it, the boot stack). */
  lemma {:induction false} SessionInstalls(boot: Kernel, args: seq<SpawnArgs>, leftover: Regs, es: seq<Event>)
    requires Booted(boot) && 1 <= |args| <= 7 && Clean(Start(boot, args, leftover).k, es)
    requires forall i :: 0 <= i < |args| ==> args[i].ttbr0 != 0 && args[i].kstackTop != 0
    ensures
      var r := Session(boot, args, leftover, es);
      r.Resume? ==>
        var t := r.k.tasks[r.k.current];
        && 1 <= r.k.current <= |args|
        && r.k.ttbr0 == t.ttbr0 == args[r.k.current - 1].ttbr0
        && r.k.pendingSp == 0
        && r.k.spEl1 == (if SwitchCount(Start(boot, args, leftover).k, es) == 0 then boot.spEl1
                         else args[r.k.current - 1].kstackTop)
  {
    hide Step, ActionOf, Switches, Start;
    var k := Start(boot, args, leftover).k;
    StartMeaning(boot, args, leftover);
    assert k.tasks[1] == Initially(args, 1);
    assert Installed(k, args) by {
      forall t: Tid | k.tasks[t].state != Exited ensures 1 <= t <= |args| {
        assert k.tasks[t] == Initially(args, t);
      }
    }
    RunInstalls(k, es, args);
    if Run(k, es).Resume? { RunKeepsWF(k, es); }
  }

  // ---- A blocked call is made once ----------------------------------------------------------------

  /** The registers a task resumes with to repeat a call: the program counter back on the svc. */
  function Retry(call: Cpu): Cpu { call.(elr := WrappingSub(call.elr, 4)) }

  /** All the run's exceptions that t takes are ticks at the unexecuted svc, or the call again,
      blocking again. User code of t executes nothing else. */
  ghost predicate Trying(k: Kernel, es: seq<Event>, t: Tid, call: Cpu)
    decreases |es|
  {
    es == [] ||
    (&& TryingOnce(k, es[0], t, call)
     && (Step(k, es[0]).Resume? ==> Trying(Step(k, es[0]).k, es[1..], t, call)))
  }

  /** A blocking that ends in re-executing the svc: all but sleep. */
  predicate Repeats(a: Action) { a.Blocks? && !a.on.TickAt? }

  /** The bytes of one address space. */
  ghost predicate SameSpace(a: Memory, b: Memory, root: u64) {
    forall va: u64 :: Peek(a, root, va) == Peek(b, root, va)
  }

  /** An exception changes memory in the live address space only. */
  lemma StepKeepsOtherSpaces(k: Kernel, e: Event, root: u64)
    requires WF(k) && !FailedBlock(Trap(k, e), e.cause)
    requires root != k.ttbr0 || (e.writes == map[] && !ActionOf(Trap(k, e), e.cause).Receives?)
    ensures SameSpace(k.mem, Step(k, e).k.mem, root)
  {
    hide Handle, Before;
    var k1 := Trap(k, e);
    var a := ActionOf(k1, e.cause);
    HandlePerforms(k1, e.cause);
    BeforeMachine(k1, a);
    forall va: u64 ensures Peek(k.mem, root, va) == Peek(Step(k, e).k.mem, root, va) {
      if a.Receives? { PeekAfterWrite(k1.mem, k.ttbr0, a.va, a.data, root, va); }
    }
  }

  /** The address space of t belongs to t alone. */
  ghost predicate OwnSpace(k: Kernel, t: Tid) {
    && k.ttbr0 == k.tasks[k.current].ttbr0
    && k.pendingSp == 0
    && forall u: Tid :: u != t && k.tasks[u].state != Exited ==> k.tasks[u].ttbr0 != k.tasks[t].ttbr0
  }

  /** What task t relies on while it waits: its registers, its memory, its life. */
  ghost predicate Holding(k: Kernel, t: Tid, call: Cpu) {
    && WF(k) && OwnSpace(k, t)
    && k.tasks[t].state != Exited && Vcpu(k, t) == Retry(call)
    && forall u: Tid :: k.tasks[u].state != Exited ==> k.tasks[u].ttbr0 != 0
  }

  /** The part of a history that only t itself makes. */
  ghost predicate SameDeeds(h: History, h1: History, t: Tid) {
    h1.sent[t] == h.sent[t] && h1.consumed[t] == h.consumed[t] && (t in h1.ended <==> t in h.ended)
  }

  /** The exception is a tick at t's unexecuted svc, or t's call blocking again, or not t's. */
  ghost predicate TryingOnce(k: Kernel, e: Event, t: Tid, call: Cpu) {
    k.current == t ==>
      && e.writes == map[]
      && (|| (e.cause.Tick? && e.cpu == Retry(call))
          || (e.cause.Svc? && e.cpu == call && Repeats(ActionOf(Trap(k, e), Svc))))
  }

  lemma TryingStepRegisters(k: Kernel, e: Event, t: Tid, call: Cpu)
    requires Holding(k, t, call) && !FailedBlock(Trap(k, e), e.cause) && TryingOnce(k, e, t, call)
    requires Step(k, e).Resume?
    ensures Holding(Step(k, e).k, t, call)
    ensures Step(k, e).k.tasks[t].ttbr0 == k.tasks[t].ttbr0
  {
    var k1 := Step(k, e).k;
    StepKeepsWF(k, e);
    StepKeepsVcpus(k, e, t);
    SwitchInstalls(k, e);
    StillLive(k, e, t);
    forall u: Tid
      ensures k1.tasks[u].ttbr0 == k.tasks[u].ttbr0
      ensures k1.tasks[u].state != Exited ==> k.tasks[u].state != Exited
    {
      StepKeepsRoots(k, e, u);
      if k.tasks[u].state == Exited { EndedStaysEnded(k, e, u); }
    }
  }

  lemma TryingStepDeeds(k: Kernel, e: Event, t: Tid, call: Cpu, h: History)
    requires Holding(k, t, call) && !FailedBlock(Trap(k, e), e.cause) && TryingOnce(k, e, t, call)
    ensures SameSpace(k.mem, Step(k, e).k.mem, k.tasks[t].ttbr0)
    ensures SameDeeds(h, Record(Trap(k, e), e.cause, h), t)
  {
    StepKeepsOtherSpaces(k, e, k.tasks[t].ttbr0);
  }

  /** Whatever the others do meanwhile, a task that only retries a call keeps the registers and
      the memory it made the call with, sends nothing, consumes nothing and does not end. */
  lemma {:induction false} TryingChangesNothing(k: Kernel, es: seq<Event>, t: Tid, call: Cpu, h: History)
    requires Clean(k, es) && Trying(k, es, t, call) && Holding(k, t, call)
    requires Run(k, es).Resume?
    ensures Holding(Run(k, es).k, t, call)
    ensures Run(k, es).k.tasks[t].ttbr0 == k.tasks[t].ttbr0
    ensures SameSpace(k.mem, Run(k, es).k.mem, k.tasks[t].ttbr0)
    ensures SameDeeds(h, Replay(k, es, h), t)
    decreases |es|
  {
    hide Step, ActionOf, Switches;
    if es != [] {
      var e := es[0];
      TryingStepRegisters(k, e, t, call);
      TryingStepDeeds(k, e, t, call, h);
      TryingChangesNothing(Step(k, e).k, es[1..], t, call, Record(Trap(k, e), e.cause, h));
    }
  }

  /** Only its own exit or fault ends a task. */
  lemma StillLive(k: Kernel, e: Event, t: Tid)
    requires WF(k) && k.tasks[t].state != Exited
    ensures
      var a := ActionOf(Trap(k, e), e.cause);
      Step(k, e).k.tasks[t].state == Exited <==> t == k.current && (a.Exits? || a.Dies?)
  {
    TrapKeepsTasks(k, e);
    StepCores(k, e, t);
    ActionFacts(Trap(k, e), e.cause);
    BeforeCores(Trap(k, e), ActionOf(Trap(k, e), e.cause), t);
  }

  lemma {:induction false} SameSpaceSameBytes(a: Memory, b: Memory, root: u64, va: u64, len: nat)
    requires SameSpace(a, b, root) && va + len < TWO_64
    ensures ReadUser(a, root, va, len) == ReadUser(b, root, va, len)
  {
    if len > 0 { SameSpaceSameBytes(a, b, root, va, len - 1); }
  }

  /** Blocking calls act once. A recvblk, sendblk or wait blocks, and is woken and blocks again
      any number of times, for good reason or not, while other tasks do what they like. When the
      task is next dispatched and its svc executes, the kernel sees the call it first made: same
      registers, same bytes anywhere in its address space. Until then the call has changed no
      mailbox, exit code or memory, sent nothing and consumed nothing. */
  lemma {:induction false} BlockedCallActsOnce(k: Kernel, e: Event, es: seq<Event>, h: History)
    requires WF(k) && OwnSpace(k, k.current)
    requires forall u: Tid :: k.tasks[u].state != Exited ==> k.tasks[u].ttbr0 != 0
    requires e.cause.Svc? && Repeats(ActionOf(Trap(k, e), Svc)) && k.queue != []
    requires Step(k, e).Resume?
    requires Clean(Step(k, e).k, es) && Trying(Step(k, e).k, es, k.current, e.cpu)
    requires Run(Step(k, e).k, es).Resume? && Run(Step(k, e).k, es).k.current == k.current
    ensures
      var t := k.current;
      var k1 := Step(k, e).k;
      var again := Trap(Run(k1, es).k, Event(Svc, e.cpu, map[]));
      var h1 := Replay(k1, es, h);
      && CpuOf(Run(k1, es).k.frame) == Retry(e.cpu)
      && CpuOf(again.frame) == CpuOf(Trap(k, e).frame)
      && again.ttbr0 == Trap(k, e).ttbr0
      && (forall va: u64, len: nat :: va + len < TWO_64 ==>
            ReadUser(again.mem, again.ttbr0, va, len) == ReadUser(Trap(k, e).mem, k.ttbr0, va, len))
      && (forall u: Tid :: Durable.CoreOf(k1.tasks[u]) == Durable.CoreOf(k.tasks[u]))
      && SameDeeds(h, h1, t)
  {
    var t := k.current;
    var k0 := Trap(k, e);
    var k1 := Step(k, e).k;
    var k2 := Run(k1, es).k;
    StepKeepsWF(k, e);
    StepKeepsVcpus(k, e, t);
    OnceBlocked(k, e);
    TryingChangesNothing(k1, es, t, e.cpu, h);
    var again := Trap(k2, Event(Svc, e.cpu, map[]));
    forall va: u64 ensures Peek(k0.mem, k.ttbr0, va) == Peek(again.mem, k.ttbr0, va) {
      assert Peek(k1.mem, k.ttbr0, va) == Peek(k2.mem, k.ttbr0, va);
    }
    forall va: u64, len: nat | va + len < TWO_64
      ensures ReadUser(again.mem, again.ttbr0, va, len) == ReadUser(k0.mem, k.ttbr0, va, len)
    {
      SameSpaceSameBytes(k0.mem, again.mem, k.ttbr0, va, len);
    }
  }

  /** Right after a call has blocked. */
  lemma OnceBlocked(k: Kernel, e: Event)
    requires WF(k) && OwnSpace(k, k.current) && ActionOf(Trap(k, e), e.cause).Blocks? && k.queue != []
    requires forall u: Tid :: k.tasks[u].state != Exited ==> k.tasks[u].ttbr0 != 0
    requires Step(k, e).Resume?
    ensures
      var k1 := Step(k, e).k;
      && OwnSpace(k1, k.current) && k1.mem == Trap(k, e).mem
      && (forall u: Tid :: Durable.CoreOf(k1.tasks[u]) == Durable.CoreOf(k.tasks[u]))
      && (forall u: Tid :: k1.tasks[u].ttbr0 == k.tasks[u].ttbr0)
  {
    hide Handle;
    var k0 := Trap(k, e);
    var a := ActionOf(k0, e.cause);
    HandlePerforms(k0, e.cause);
    StepKeepsWF(k, e);
    SwitchInstalls(k, e);
    BeforeMachine(k0, a);
    TrapKeepsTasks(k, e);
    forall u: Tid
      ensures Durable.CoreOf(Step(k, e).k.tasks[u]) == Durable.CoreOf(k.tasks[u])
      ensures Step(k, e).k.tasks[u].ttbr0 == k.tasks[u].ttbr0
    {
      StepKeepsRoots(k, e, u);
      StepCores(k, e, u);
      ActionFacts(k0, e.cause);
      BeforeCores(k0, a, u);
    }
    forall u: Tid
      ensures Step(k, e).k.tasks[u].state == Exited <==> k.tasks[u].state == Exited
    {
      assert Durable.CoreOf(Step(k, e).k.tasks[u]) == Durable.CoreOf(k.tasks[u]);
    }
  }
}
