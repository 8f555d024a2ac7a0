/** What survives scheduling: mailboxes, exit codes and the fact of having ended. These follow
    the actions in every session, failed blocks included. */
module Durable {
  import opened Words
  import opened KernelState
  import opened WellFormed
  import opened Actions
  import opened Sessions
  import opened History

  /** The part of a task that only messages and endings change. */
  datatype Core = Core(mailbox: Mailbox, mailboxLen: MsgLen, mailboxFrom: Tid, exitCode: i64, ended: bool)

  function CoreOf(t: Task): Core {
    Core(t.mailbox, t.mailboxLen, t.mailboxFrom, t.exitCode, t.state == Exited)
  }

  ghost predicate SameCores(a: Kernel, b: Kernel) {
    forall t: Tid :: CoreOf(a.tasks[t]) == CoreOf(b.tasks[t])
  }

  /** The task on the CPU has not ended, and slot 0 is never used: all that is left of
      well-formedness after a failed block. */
  ghost predicate Alive(k: Kernel) {
    k.tasks[0].state == Exited && k.tasks[k.current].state != Exited
  }

  lemma {:induction false} ScanKeepsCores(k: Kernel, r: Reason, n: nat)
    requires n <= 8
    ensures SameCores(k, Scan(k, r, n))
    ensures Scan(k, r, n).current == k.current
  {
    if n > 1 {
      ScanKeepsCores(k, r, n - 1);
      var k0 := Scan(k, r, n - 1);
      assert Scan(k, r, n) == ScanOne(k0, r, n - 1);
      assert SameCores(k0, ScanOne(k0, r, n - 1));
    }
  }

  lemma DispatchKeepsCores(k: Kernel)
    ensures SameCores(k, Dispatch(k).0)
    ensures
      var (k1, switched) := Dispatch(k);
      if switched then k1.tasks[k1.current].state == Running else k1.current == k.current
  {
  }

  lemma SaveAndSwitchKeepsCores(k: Kernel)
    ensures SameCores(k, SaveAndSwitch(k).0)
    ensures
      var (k1, switched) := SaveAndSwitch(k);
      if switched then k1.tasks[k1.current].state == Running else k1.current == k.current
  {
    assert SameCores(k, Park(k)) && Park(k).current == k.current;
    DispatchKeepsCores(Park(k));
  }

  lemma BlockKeepsCores(k: Kernel)
    ensures SameCores(k, BlockAndSwitch(k).0)
    ensures
      var (k1, switched) := BlockAndSwitch(k);
      if switched then k1.tasks[k1.current].state == Running else k1.current == k.current
  {
    if k.current != 0 {
      assert SameCores(k, Sleepify(k));
      DispatchKeepsCores(Sleepify(k));
    }
  }

  /** The cores after an exception are those of its action, and if the session goes on, the
      task on the CPU has not ended. */
  ghost predicate Follows(k: Kernel, a: Action, r: Outcome)
    requires a.Sends? ==> |a.data| <= 32
    requires a.Receives? ==> |a.data| <= 32 && a.va + |a.data| < TWO_64
  {
    && SameCores(Before(k, a), r.k)
    && (r.Resume? ==> r.k.tasks[r.k.current].state != Exited)
  }

  lemma SendFollows(k: Kernel)
    requires Alive(k)
    ensures Follows(k, SendAction(k, false), Resume(DoSend(k)))
  {
    var a := SendAction(k, false);
    if a.Sends? { assert a.data[..|a.data|] == a.data; }
  }

  /** A blocking arm: prepare as `k1`, try to switch, and on failure clean up into `k2`. */
  lemma BlockFollows(k: Kernel, k1: Kernel, k2: Kernel, on: Condition)
    requires Alive(k) && SameCores(k, k1) && k1.current == k.current
    requires
      var (k3, switched) := BlockAndSwitch(k1);
      if switched then k2 == k3 else SameCores(k3, k2) && k2.current == k3.current
    ensures Follows(k, Blocks(on), Resume(k2))
  {
    BlockKeepsCores(k1);
    var k3 := BlockAndSwitch(k1).0;
    assert SameCores(k, k3);
    assert SameCores(k, k2);
    assert SameCores(k, Before(k, Blocks(on)));
    assert CoreOf(k.tasks[k.current]) == CoreOf(k2.tasks[k.current]);
  }

  lemma SetSendDstKeepsCores(k: Kernel, t: Tid, dst: Tid)
    ensures SameCores(k, SetSendDst(k, t, dst)) && SetSendDst(k, t, dst).current == k.current
  {
  }

  lemma SetWaitingOnKeepsCores(k: Kernel, t: Tid, child: Tid)
    ensures SameCores(k, SetWaitingOn(k, t, child)) && SetWaitingOn(k, t, child).current == k.current
  {
  }

  lemma SendBlkFollows(k: Kernel)
    requires Alive(k)
    ensures Follows(k, SendAction(k, true), Resume(DoSendBlk(k)))
  {
    var a := SendAction(k, true);
    if a.Sends? { assert a.data[..|a.data|] == a.data; }
    if a.Blocks? {
      var k1 := Rewind(SetSendDst(k, k.current, k.frame.x[0]));
      SetSendDstKeepsCores(k, k.current, k.frame.x[0]);
      SetSendDstKeepsCores(Unwind(BlockAndSwitch(k1).0), k.current, 0);
      BlockFollows(k, k1, DoSendBlk(k), a.on);
    }
  }

  lemma RecvFollows(k: Kernel)
    requires Alive(k)
    ensures Follows(k, RecvAction(k, false), Resume(DoRecv(k)))
  {
    var cur := k.current;
    ScanKeepsCores(SetTask(k, cur, k.tasks[cur].(mailboxLen := 0, mailboxFrom := 0)), Senders(cur), 8);
  }

  lemma RecvBlkFollows(k: Kernel)
    requires Alive(k)
    ensures Follows(k, RecvAction(k, true), Resume(DoRecvBlk(k)))
  {
    var cur := k.current;
    ScanKeepsCores(SetTask(k, cur, k.tasks[cur].(mailboxLen := 0, mailboxFrom := 0)), Senders(cur), 8);
    var a := RecvAction(k, true);
    if a.Blocks? {
      BlockFollows(k, Rewind(k), DoRecvBlk(k), a.on);
    }
  }

  lemma SleepFollows(k: Kernel)
    requires Alive(k) && k.frame.x[0] != 0
    ensures Follows(k, Blocks(TickAt(Deadline(k.ticks, k.frame.x[0]))), Resume(DoSleep(k)))
  {
    var k1 := Ret(SetWakeTick(k, k.current, Deadline(k.ticks, k.frame.x[0])), 0);
    BlockFollows(k, k1, DoSleep(k), TickAt(Deadline(k.ticks, k.frame.x[0])));
  }

  lemma WaitFollows(k: Kernel)
    requires Alive(k)
    ensures Follows(k, WaitAction(k), Resume(DoWait(k)))
  {
    var a := WaitAction(k);
    if a.Blocks? {
      var k1 := Rewind(SetWaitingOn(k, k.current, k.frame.x[0]));
      SetWaitingOnKeepsCores(k, k.current, k.frame.x[0]);
      SetWaitingOnKeepsCores(Unwind(BlockAndSwitch(k1).0), k.current, 0);
      BlockFollows(k, k1, DoWait(k), a.on);
    }
  }

  lemma YieldFollows(k: Kernel)
    requires Alive(k)
    ensures Follows(k, Yields, Resume(DoYield(k)))
  {
    SaveAndSwitchKeepsCores(k);
    assert SameCores(k, Requeued(k));
    assert SameCores(k, DoYield(k));
  }

  lemma ExitFollows(k: Kernel)
    requires Alive(k)
    ensures Follows(k, Exits(AsI64(k.frame.x[0])), DoExit(k))
  {
    SaveAndSwitchKeepsCores(Finish(k));
  }

  lemma FaultFollows(k: Kernel)
    requires Alive(k)
    ensures Follows(k, Dies, HandleFault(k))
  {
    DispatchKeepsCores(Bury(k));
  }

  lemma TickFollows(k: Kernel)
    requires Alive(k)
    ensures Follows(k, TimerTick, Resume(HandleTick(k)))
  {
    var k1 := k.(ticks := WrappingAdd(k.ticks, 1));
    ScanKeepsCores(k1, Sleepers(k1.ticks), 8);
    var k2 := Ticked(k);
    SaveAndSwitchKeepsCores(k2);
    assert SameCores(k2, Requeued(k2));
    assert SameCores(k2, HandleTick(k));
  }

  /** Every exception follows its action, whether or not it is a failed block. */
  lemma HandleFollows(k: Kernel, c: Cause)
    requires Alive(k)
    ensures Follows(k, ActionOf(k, c), Handle(k, c))
  {
    match c
    case Fault => FaultFollows(k);
    case Tick => TickFollows(k);
    case Svc =>
      var nr := k.frame.x[8];
      if nr == SYS_YIELD { YieldFollows(k); }
      else if nr == SYS_SEND { SendFollows(k); }
      else if nr == SYS_SENDBLK { SendBlkFollows(k); }
      else if nr == SYS_RECV { RecvFollows(k); }
      else if nr == SYS_RECVBLK { RecvBlkFollows(k); }
      else if nr == SYS_SLEEP { if k.frame.x[0] != 0 { SleepFollows(k); } }
      else if nr == SYS_EXIT || nr == SYS_EXIT_CODE { ExitFollows(k); }
      else if nr == SYS_WAIT { WaitFollows(k); }
  }
}
