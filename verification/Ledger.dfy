/** Messages are conserved and endings are remembered, in every session, failed blocks included. */
module Ledger {
  import opened Words
  import opened KernelState
  import opened WellFormed
  import opened Actions
  import opened Sessions
  import opened History
  import opened Durable

  // ---- One exception --------------------------------------------------------------------

  lemma TrapKeepsTasks(k: Kernel, e: Event)
    ensures Trap(k, e).tasks == k.tasks && Trap(k, e).current == k.current
    ensures Alive(k) ==> Alive(Trap(k, e))
  {
  }

  /** What an action leaves of each task's core: the whole list of changes. */
  lemma BeforeCores(k: Kernel, a: Action, t: Tid)
    requires Alive(k)
    requires a.Sends? ==> a.dst != 0 && 0 < |a.data| <= 32
    requires a.Receives? ==> |a.data| <= 32 && a.va + |a.data| < TWO_64
    ensures
      var c := CoreOf(k.tasks[t]);
      CoreOf(Before(k, a).tasks[t]) ==
        if a.Sends? && t == a.dst then
          c.(mailbox := a.data + c.mailbox[|a.data|..], mailboxLen := |a.data|, mailboxFrom := k.current)
        else if t != k.current then c
        else if a.Receives? then c.(mailboxLen := 0, mailboxFrom := 0)
        else if a.Exits? then c.(ended := true, exitCode := a.code)
        else if a.Dies? then c.(ended := true, exitCode := -1, mailboxLen := 0, mailboxFrom := 0)
        else c
  {
    var cur := k.current;
    match a
    case Receives(_, _, _) =>
      var k1 := SetTask(k, cur, k.tasks[cur].(mailboxLen := 0, mailboxFrom := 0));
      ScanKeepsCores(k1, Senders(cur), 8);
      assert CoreOf(k1.tasks[t]) == CoreOf(Drained(k).tasks[t]);
    case Exits(code) =>
      var k1 := SetTask(k, cur, k.tasks[cur].(state := Exited, exitCode := code));
      ScanKeepsCores(k1, Waiters(cur), 8);
      assert CoreOf(k1.tasks[t]) == CoreOf(Before(k, a).tasks[t]);
    case TimerTick =>
      var k1 := k.(ticks := WrappingAdd(k.ticks, 1));
      ScanKeepsCores(k1, Sleepers(k1.ticks), 8);
      assert CoreOf(k1.tasks[t]) == CoreOf(Ticked(k).tasks[t]);
      var now := k1.ticks;
      assert Ticked(k).current == cur;
    case _ =>
  }

  lemma ActionFacts(k: Kernel, c: Cause)
    ensures ActionOf(k, c).Sends? ==>
      ActionOf(k, c).dst != 0 && k.tasks[ActionOf(k, c).dst].state != Exited
      && k.tasks[ActionOf(k, c).dst].mailboxLen == 0
    ensures ActionOf(k, c).Receives? ==> k.tasks[k.current].mailboxLen > 0
  {
  }

  /** The core of every task after a whole exception. */
  lemma StepCores(k: Kernel, e: Event, t: Tid)
    requires Alive(k)
    ensures CoreOf(Step(k, e).k.tasks[t]) == CoreOf(Before(Trap(k, e), ActionOf(Trap(k, e), e.cause)).tasks[t])
    ensures Step(k, e).Resume? ==> Alive(Step(k, e).k)
  {
    hide HandleSvc;
    var k1 := Trap(k, e);
    var a := ActionOf(k1, e.cause);
    TrapKeepsTasks(k, e);
    HandleFollows(k1, e.cause);
    ActionFacts(k1, e.cause);
    BeforeCores(k1, a, 0);
    assert CoreOf(Before(k1, a).tasks[0]) == CoreOf(Handle(k1, e.cause).k.tasks[0]);
    assert CoreOf(Before(k1, a).tasks[t]) == CoreOf(Handle(k1, e.cause).k.tasks[t]);
  }

  // ---- Message conservation ---------------------------------------------------------------

  /** Everything accepted for a task is what it consumed, then what its death discarded, then
      what is in its mailbox; only a fault kill discards, and a killed task has ended. */
  ghost predicate Balanced(k: Kernel, h: History) {
    forall t: Tid ::
      && h.accepted[t] == h.consumed[t] + h.dropped[t] + Inbox(k.tasks[t])
      && (t in h.killed ==> k.tasks[t].state == Exited && k.tasks[t].mailboxLen == 0)
      && (t !in h.killed ==> h.dropped[t] == [])
  }

  lemma StepBalances(k: Kernel, e: Event, h: History)
    requires Alive(k) && Balanced(k, h)
    ensures Balanced(Step(k, e).k, Record(Trap(k, e), e.cause, h))
  {
    hide Step, ActionOf, Before;
    var k1 := Trap(k, e);
    var a := ActionOf(k1, e.cause);
    var h1 := Record(k1, e.cause, h);
    var k2 := Step(k, e).k;
    TrapKeepsTasks(k, e);
    ActionFacts(k1, e.cause);
    forall t: Tid
      ensures h1.accepted[t] == h1.consumed[t] + h1.dropped[t] + Inbox(k2.tasks[t])
      ensures t in h1.killed ==> k2.tasks[t].state == Exited && k2.tasks[t].mailboxLen == 0
      ensures t !in h1.killed ==> h1.dropped[t] == []
    {
      StepCores(k, e, t);
      BeforeCores(k1, a, t);
      if a.Sends? && t == a.dst {
        assert (a.data + k.tasks[t].mailbox[|a.data|..])[..|a.data|] == a.data;
      }
    }
  }

  lemma {:induction false} RunBalances(k: Kernel, es: seq<Event>, h: History)
    requires Alive(k) && Balanced(k, h)
    ensures Balanced(Run(k, es).k, Replay(k, es, h))
    decreases |es|
  {
    hide Step;
    if es != [] {
      StepBalances(k, es[0], h);
      StepCores(k, es[0], 0);
      if Step(k, es[0]).Resume? {
        RunBalances(Step(k, es[0]).k, es[1..], Record(Trap(k, es[0]), es[0].cause, h));
      }
    }
  }

  /** Message conservation, over every session: for each task the messages accepted are, in
      order, the messages consumed, then (only if it was fault-killed) those discarded with it,
      then the one in its mailbox if any. */
  lemma {:induction false} MessagesConserved(boot: Kernel, args: seq<SpawnArgs>, leftover: Regs, es: seq<Event>, t: Tid)
    requires Booted(boot) && args != []
    ensures
      var h := Replay(Start(boot, args, leftover).k, es, NOTHING);
      && h.accepted[t] == h.consumed[t] + h.dropped[t] + Inbox(Session(boot, args, leftover, es).k.tasks[t])
      && (t !in h.killed ==> h.dropped[t] == [])
  {
    hide Step, Start;
    var k := Start(boot, args, leftover).k;
    StartMeaning(boot, args, leftover);
    forall u: Tid ensures Inbox(k.tasks[u]) == [] {
      assert k.tasks[u] == Initially(args, u);
    }
    RunBalances(k, es, NOTHING);
  }

  // ---- What a send stores and a receive returns --------------------------------------------

  lemma {:induction false} PeekAfterWrite(m: Memory, root: u64, va: u64, s: seq<u8>, r: u64, p: u64)
    requires va + |s| < TWO_64
    ensures Peek(WriteUser(m, root, va, s), r, p)
         == if r == root && va <= p < va + |s| then s[p - va] else Peek(m, r, p)
  {
    if s != [] {
      PeekAfterWrite(m, root, va, s[..|s| - 1], r, p);
    }
  }

  lemma {:induction false} ReadUserAt(m: Memory, root: u64, va: u64, len: nat, i: nat)
    requires va + len < TWO_64 && i < len
    ensures ReadUser(m, root, va, len)[i] == Peek(m, root, va + i)
  {
    if i < len - 1 { ReadUserAt(m, root, va, len - 1, i); }
  }

  /** What user code wrote since it was last resumed is in its own address space, and nowhere else. */
  lemma UserWritesMeaning(k: Kernel, e: Event, r: u64, p: u64)
    ensures Peek(Trap(k, e).mem, r, p) == if r == k.ttbr0 && p in e.writes then e.writes[p] else Peek(k.mem, r, p)
  {
  }

  /** What is written to user memory is what is read back, and nothing else moves. */
  lemma {:induction false} WriteThenRead(m: Memory, root: u64, va: u64, s: seq<u8>)
    requires va + |s| < TWO_64
    ensures ReadUser(WriteUser(m, root, va, s), root, va, |s|) == s
    ensures forall r: u64, p: u64 :: r != root || !(va <= p < va + |s|) ==>
      Peek(WriteUser(m, root, va, s), r, p) == Peek(m, r, p)
  {
    var m1 := WriteUser(m, root, va, s);
    forall i: nat | i < |s| ensures ReadUser(m1, root, va, |s|)[i] == s[i] {
      ReadUserAt(m1, root, va, |s|, i);
      PeekAfterWrite(m, root, va, s, root, va + i);
    }
    forall r: u64, p: u64 | r != root || !(va <= p < va + |s|)
      ensures Peek(m1, r, p) == Peek(m, r, p)
    {
      PeekAfterWrite(m, root, va, s, r, p);
    }
  }

  /** An accepted send puts the caller's bytes, cut at 32, into the receiver's mailbox under
      the caller's TID, and returns 0. */
  lemma SendStores(k: Kernel, e: Event)
    requires Alive(k) && ActionOf(Trap(k, e), e.cause).Sends?
    ensures
      var x := e.cpu.x;
      var n := Min(x[2], MSG_MAX);
      && 0 < x[0] < 8 && x[1] + n < TWO_64
      && Step(k, e).Resume? && Step(k, e).k.frame.x == x[0 := 0]
      && Inbox(Step(k, e).k.tasks[x[0]])
         == [Msg(k.current, ReadUser(Trap(k, e).mem, k.ttbr0, x[1], n))]
  {
    var k1 := Trap(k, e);
    var a := ActionOf(k1, e.cause);
    var dst := e.cpu.x[0];
    ActionFacts(k1, e.cause);
    StepCores(k, e, dst);
    BeforeCores(k1, a, dst);
    assert (a.data + k.tasks[dst].mailbox[|a.data|..])[..|a.data|] == a.data;
  }

  lemma ReceiveEffect(k: Kernel)
    requires ActionOf(k, Svc).Receives?
    ensures
      var a := ActionOf(k, Svc);
      var t := k.tasks[k.current];
      && k.frame.x[0] < KERNEL_BASE
      && a.va == k.frame.x[0] && a.from == t.mailboxFrom
      && a.data == t.mailbox[..Min(t.mailboxLen, Min(k.frame.x[1], MSG_MAX))]
      && (k.current != 0 ==> Handle(k, Svc) == Resume(Deliver(Drained(k), a.va, a.data, a.from)))
  {
  }

  /** A receive returns the sender of the oldest unconsumed message in x1, and in x0 how many of
      its bytes it copied to the caller's buffer: as many as there are, or as fit. */
  lemma ReceiveReturnsOldest(k: Kernel, e: Event, h: History)
    requires Alive(k) && Balanced(k, h) && ActionOf(Trap(k, e), e.cause).Receives?
    ensures
      var t := k.current;
      var x := e.cpu.x;
      && |h.consumed[t]| < |h.accepted[t]| && x[0] < KERNEL_BASE
      && var oldest := h.accepted[t][|h.consumed[t]|];
         var n := Min(|oldest.data|, Min(x[1], MSG_MAX));
         var r := Step(k, e);
      && r.Resume? && r.k.current == t
      && x[0] + n < TWO_64
      && r.k.frame.x == x[0 := n][1 := oldest.peer]
      && ReadUser(r.k.mem, k.ttbr0, x[0], n) == oldest.data[..n]
  {
    hide Handle, Drained, IpcRecv;
    var k1 := Trap(k, e);
    var a := ActionOf(k1, e.cause);
    ActionFacts(k1, e.cause);
    OldestInMailbox(k, h);
    ReceiveEffect(k1);
    DeliverEffect(k1, a.va, a.data, a.from);
    MessagePrefix(k.tasks[k.current], Min(e.cpu.x[1], MSG_MAX));
  }

  /** The message in the mailbox is the oldest unconsumed one. */
  lemma OldestInMailbox(k: Kernel, h: History)
    requires Alive(k) && Balanced(k, h) && k.tasks[k.current].mailboxLen > 0
    ensures
      var t := k.current;
      && |h.consumed[t]| < |h.accepted[t]|
      && h.accepted[t][|h.consumed[t]|]
         == Msg(k.tasks[t].mailboxFrom, k.tasks[t].mailbox[..k.tasks[t].mailboxLen])
  {
    assert k.current !in h.killed;
  }

  lemma MessagePrefix(t: Task, room: nat)
    ensures t.mailbox[..t.mailboxLen][..Min(t.mailboxLen, room)] == t.mailbox[..Min(t.mailboxLen, room)]
  {
  }

  /** Draining and delivering: the frame gets length and sender, the caller's memory the bytes. */
  lemma {:induction false} DeliverEffect(k: Kernel, va: u64, data: seq<u8>, from: Tid)
    requires |data| <= 32 && va + |data| < TWO_64
    ensures
      var k1 := Restore(Deliver(Drained(k), va, data, from));
      && k1.current == k.current && k1.ttbr0 == k.ttbr0
      && k1.frame.x == k.frame.x[0 := |data|][1 := from]
      && ReadUser(k1.mem, k.ttbr0, va, |data|) == data
  {
    hide Scan;
    var cur := k.current;
    ScanKeepsContext(SetTask(k, cur, k.tasks[cur].(mailboxLen := 0, mailboxFrom := 0)), Senders(cur), 8);
    WriteThenRead(k.mem, k.ttbr0, va, data);
  }

  // ---- Wait and exit agree ---------------------------------------------------------------------

  /** A spawned task has ended exactly if the history says so, and the slot holds its code. */
  ghost predicate EndingsKept(k: Kernel, n: nat, h: History) {
    && n <= 7
    && (forall t: Tid :: k.tasks[t].state == Exited <==> t == 0 || t > n || t in h.ended)
    && (forall t: Tid :: t in h.ended ==> 1 <= t <= n && k.tasks[t].exitCode == h.ended[t])
    && (forall t: Tid :: t > n ==> k.tasks[t].exitCode == 0)
    && (forall t: Tid :: t in h.killed ==> t in h.ended && h.ended[t] == -1)
  }

  lemma StepKeepsEndings(k: Kernel, e: Event, n: nat, h: History)
    requires Alive(k) && EndingsKept(k, n, h)
    ensures EndingsKept(Step(k, e).k, n, Record(Trap(k, e), e.cause, h))
  {
    hide Step, ActionOf, Before;
    var k1 := Trap(k, e);
    var a := ActionOf(k1, e.cause);
    var h1 := Record(k1, e.cause, h);
    TrapKeepsTasks(k, e);
    ActionFacts(k1, e.cause);
    forall t: Tid
      ensures Step(k, e).k.tasks[t].state == Exited <==> t == 0 || t > n || t in h1.ended
      ensures t in h1.ended ==> 1 <= t <= n && Step(k, e).k.tasks[t].exitCode == h1.ended[t]
      ensures t > n ==> Step(k, e).k.tasks[t].exitCode == 0
    {
      StepCores(k, e, t);
      BeforeCores(k1, a, t);
    }
  }

  lemma {:induction false} RunKeepsEndings(k: Kernel, es: seq<Event>, n: nat, h: History)
    requires Alive(k) && EndingsKept(k, n, h)
    ensures EndingsKept(Run(k, es).k, n, Replay(k, es, h))
    ensures Run(k, es).Resume? ==> Alive(Run(k, es).k)
    decreases |es|
  {
    hide Step;
    if es != [] {
      StepKeepsEndings(k, es[0], n, h);
      StepCores(k, es[0], 0);
      if Step(k, es[0]).Resume? {
        RunKeepsEndings(Step(k, es[0]).k, es[1..], n, Record(Trap(k, es[0]), es[0].cause, h));
      }
    }
  }

  /** What a wait for a live child does: the caller goes to sleep on the child, with its program
      counter back on the svc, and the head of the queue runs. If there is nobody to run, the call
      answers -EAGAIN with the program counter where it was, and the caller, though it goes on, is
      Blocked. */
  ghost predicate WaitBlocks(k: Kernel, e: Event) {
    var t := k.current;
    var r := Step(k, e);
    && r.Resume?
    && if k.queue != [] && k.tasks[k.queue[0]].state != Exited then
         && r.k.current == k.queue[0] && r.k.queue == k.queue[1..]
         && CpuOf(r.k.tasks[t].saved) == e.cpu.(elr := WrappingSub(e.cpu.elr, 4))
         && r.k.tasks[t].waitingOn == e.cpu.x[0]
         && (k.queue[0] != t ==> r.k.tasks[t].state == Blocked)
       else
         && r.k.current == t && CpuOf(r.k.frame) == e.cpu.(x := e.cpu.x[0 := NEG_EAGAIN])
         && r.k.tasks[t].state == Blocked && r.k.tasks[t].waitingOn == 0
  }

  lemma LiveWaitBlocks(k: Kernel, e: Event)
    requires Alive(k) && e.cause.Svc? && e.cpu.x[8] == SYS_WAIT
    requires 0 < e.cpu.x[0] < MAX_TASKS && k.tasks[e.cpu.x[0]].state != Exited
    ensures WaitBlocks(k, e)
  {
    hide Dispatch, DoWait, HandleSvc;
    var k1 := Trap(k, e);
    var k2 := WaitAsleep(k1);
    WaitUpToPick(k1);
    Picked(k2);
    RewindAndRestore(e.cpu.elr, 4);
    WaitIsHandled(k1);
  }

  /** The caller of wait as it goes to sleep. */
  function WaitAsleep(k: Kernel): Kernel
    requires 0 < k.frame.x[0] < MAX_TASKS
  {
    var retry := k.frame.(elr := WrappingSub(k.frame.elr, 4));
    SetTask(k, k.current, k.tasks[k.current].(saved := retry, state := Blocked, waitingOn := k.frame.x[0])).(frame := retry)
  }

  lemma WaitIsHandled(k: Kernel)
    requires k.frame.x[8] == SYS_WAIT
    ensures Handle(k, Svc) == Resume(DoWait(k))
  {
    hide DoWait;
  }

  lemma WaitUpToPick(k: Kernel)
    requires Alive(k) && 0 < k.frame.x[0] < MAX_TASKS && k.tasks[k.frame.x[0]].state != Exited
    ensures
      var (k1, switched) := Dispatch(WaitAsleep(k));
      DoWait(k) == if switched then k1 else Ret(SetWaitingOn(Unwind(k1), k.current, 0), NEG_EAGAIN)
  {
    hide Dispatch;
    var k1 := Sleepify(Rewind(SetWaitingOn(k, k.current, k.frame.x[0])));
    assert k1.tasks == WaitAsleep(k).tasks;
  }

  /** What the pick does, whatever the state. */
  lemma Picked(k: Kernel)
    ensures
      var (k1, switched) := Dispatch(k);
      && (switched <==> k.queue != [] && k.tasks[k.queue[0]].state != Exited)
      && (if switched then
            && k1.current == k.queue[0] && k1.queue == k.queue[1..]
            && k1.tasks == k.tasks[k.queue[0] := k.tasks[k.queue[0]].(state := Running)]
          else k1 == k.(queue := k1.queue))
  {
  }

  /** `wait(c)` on a spawned task answers at once exactly if c has ended, and then with the code
      c passed to exit, or -1 if c was killed on a fault; otherwise it blocks. On a slot nobody
      was spawned into it answers 0, where the documentation of `try_wait` promises ESRCH;
      outside 1..7 it answers ESRCH. */
  ghost predicate WaitAnswers(k: Kernel, e: Event, n: nat, h: History)
    requires n <= 7
  {
    var c := e.cpu.x[0];
    var r := Step(k, e);
    var answer: u64 := if c == 0 || c > 7 then ESRCH else if c in h.ended then AsU64(h.ended[c]) else 0;
    if 1 <= c <= n && c !in h.ended then WaitBlocks(k, e)
    else
      && r.Resume? && r.k.current == k.current && r.k.frame.x == e.cpu.x[0 := answer]
      && (c in h.killed ==> c in h.ended && h.ended[c] == -1)
  }

  lemma WaitStep(k: Kernel, e: Event, n: nat, h: History)
    requires Alive(k) && EndingsKept(k, n, h) && e.cause.Svc? && e.cpu.x[8] == SYS_WAIT
    ensures WaitAnswers(k, e, n, h)
  {
    var c := e.cpu.x[0];
    if 0 < c < 8 {
      var t: Tid := c;
      assert k.tasks[t].state == Exited <==> t == 0 || t > n || t in h.ended;
      if t <= n && t !in h.ended { LiveWaitBlocks(k, e); }
    }
  }

  /** So in a session without a failed block, a wait on a spawned task returns to its caller, rather
      than putting it to sleep, exactly once that task has ended. */
  lemma {:induction false} WaitReturnsOnceEnded(boot: Kernel, args: seq<SpawnArgs>, leftover: Regs, es: seq<Event>, e: Event)
    requires Booted(boot) && args != [] && Clean(Start(boot, args, leftover).k, es)
    requires Session(boot, args, leftover, es).Resume?
    requires e.cause.Svc? && e.cpu.x[8] == SYS_WAIT && 1 <= e.cpu.x[0] <= Min(|args|, 7)
    requires !FailedBlock(Trap(Session(boot, args, leftover, es).k, e), Svc)
    ensures
      var k := Session(boot, args, leftover, es).k;
      var h := Replay(Start(boot, args, leftover).k, es, NOTHING);
      && (Step(k, e).k.current == k.current <==> e.cpu.x[0] in h.ended)
      && (e.cpu.x[0] in h.ended ==> Step(k, e).k.frame.x[0] == AsU64(h.ended[e.cpu.x[0]]))
      && (e.cpu.x[0] !in h.ended ==> Step(k, e).k.tasks[k.current].state == Blocked)
  {
    hide Step, Start;
    StartMeaning(boot, args, leftover);
    RunKeepsWF(Start(boot, args, leftover).k, es);
    WaitAgreesWithExit(boot, args, leftover, es, e);
    var k := Session(boot, args, leftover, es).k;
    if k.queue != [] { assert k.queue[0] in k.queue; }
    SpawnedOrOver(boot, args, leftover, es, e.cpu.x[0]);
  }

  lemma {:induction false} SessionKeepsEndings(boot: Kernel, args: seq<SpawnArgs>, leftover: Regs, es: seq<Event>)
    requires Booted(boot) && args != [] && Session(boot, args, leftover, es).Resume?
    ensures Alive(Session(boot, args, leftover, es).k)
    ensures EndingsKept(Session(boot, args, leftover, es).k, Min(|args|, 7), Replay(Start(boot, args, leftover).k, es, NOTHING))
  {
    hide Step, Start;
    var k0 := Start(boot, args, leftover).k;
    var n := Min(|args|, 7);
    StartMeaning(boot, args, leftover);
    forall t: Tid
      ensures k0.tasks[t].state == Exited <==> t == 0 || t > n
      ensures k0.tasks[t].exitCode == 0
    {
      assert k0.tasks[t] == Initially(args, t);
    }
    RunKeepsEndings(k0, es, n, NOTHING);
  }

  lemma {:induction false} SpawnedOrOver(boot: Kernel, args: seq<SpawnArgs>, leftover: Regs, es: seq<Event>, t: Tid)
    requires Booted(boot) && args != [] && Session(boot, args, leftover, es).Resume? && 1 <= t <= Min(|args|, 7)
    ensures Session(boot, args, leftover, es).k.tasks[t].state == Exited
      <==> t in Replay(Start(boot, args, leftover).k, es, NOTHING).ended
  {
    hide Step, Start;
    SessionKeepsEndings(boot, args, leftover, es);
  }

  /** Wait and exit agree, at every point of every session. */
  lemma {:induction false} WaitAgreesWithExit(boot: Kernel, args: seq<SpawnArgs>, leftover: Regs, es: seq<Event>, e: Event)
    requires Booted(boot) && args != []
    requires Session(boot, args, leftover, es).Resume?
    requires e.cause.Svc? && e.cpu.x[8] == SYS_WAIT
    ensures WaitAnswers(Session(boot, args, leftover, es).k, e, Min(|args|, 7),
                        Replay(Start(boot, args, leftover).k, es, NOTHING))
  {
    hide Step, Start;
    var n := Min(|args|, 7);
    SessionKeepsEndings(boot, args, leftover, es);
    WaitStep(Session(boot, args, leftover, es).k, e, n, Replay(Start(boot, args, leftover).k, es, NOTHING));
  }
}
