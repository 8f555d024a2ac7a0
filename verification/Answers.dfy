/** What the calls answer, in every well-formed state, and exactly when the answer tells what the
    documentation says it does. The comments promise negative error numbers; `send`, `recv` and
    `wait` hand back positive ones, which are message lengths and exit codes too. */
module Answers {
  import opened Words
  import opened KernelState
  import opened WellFormed
  import opened Actions
  import opened Handlers
  import opened VirtualCpu
  import opened Ledger
  import opened History

  predicate Calls(e: Event, nr: u64) { e.cause.Svc? && e.cpu.x[8] == nr }

  /** The call returns to its caller with this in x0 and every other register as it was. */
  ghost predicate Answers(k: Kernel, e: Event, v: u64) {
    var r := Step(k, e);
    r.Resume? && r.k.current == k.current && r.k.frame.x == e.cpu.x[0 := v]
  }

  // ---- Which call does what ------------------------------------------------------------------------

  /** The buffer [va, va + n) lies in the lower part of the address space, with n cut at a message's size. */
  predicate Buffer(va: u64, len: u64) {
    va < 0xFFFF_0000_0000_0000 && va + (if len > 32 then 32 else len) <= 0xFFFF_0000_0000_0000
  }

  /** A live task other than slot 0. */
  predicate Live(k: Kernel, t: u64) { 1 <= t <= 7 && k.tasks[t].state != Exited }

  /** What an exception does, told from the registers and the state it finds: each kind of action comes
      about in these cases and no others. */
  lemma CallTable(k: Kernel, e: Event)
    ensures
      var a := ActionOf(Trap(k, e), e.cause);
      var svc := e.cause.Svc?;
      var (x, nr) := (e.cpu.x, e.cpu.x[8]);
      var mail := k.tasks[k.current].mailboxLen > 0;
      && (a.Dies? <==> e.cause.Fault?)
      && (a.TimerTick? <==> e.cause.Tick?)
      && (a.Yields? <==> svc && nr == 3)
      && (a.Exits? <==> svc && (nr == 2 || nr == 9))
      && (a.Sends? <==> svc && (nr == 4 || nr == 7) && x[2] != 0 && Buffer(x[1], x[2]) && Live(k, x[0]) && k.tasks[x[0]].mailboxLen == 0)
      && (a.Receives? <==> svc && (nr == 5 || nr == 6) && x[1] != 0 && Buffer(x[0], x[1]) && mail)
      && (a.Blocks? && a.on.Mail? <==> svc && nr == 6 && x[1] != 0 && Buffer(x[0], x[1]) && !mail)
      && (a.Blocks? && a.on.RoomAt? <==> svc && nr == 7 && x[2] != 0 && Buffer(x[1], x[2]) && Live(k, x[0]) && k.tasks[x[0]].mailboxLen > 0)
      && (a.Blocks? && a.on.TickAt? <==> svc && nr == 8 && x[0] != 0)
      && (a.Blocks? && a.on.EndOf? <==> svc && nr == 10 && Live(k, x[0]))
  {
    hide ReadUser, UserWrites, AsI64, AsU64, Deadline;
  }

  /** What it concerns: the task sent to, waited for or served, the deadline, and how many bytes move. */
  lemma CallDetails(k: Kernel, e: Event)
    ensures
      var a := ActionOf(Trap(k, e), e.cause);
      var x := e.cpu.x;
      && (a.Sends? ==> a.dst == x[0] && |a.data| == if x[2] > 32 then 32 else x[2])
      && (a.Receives? ==> a.va == x[0] && a.from == k.tasks[k.current].mailboxFrom)
      && (a.Receives? ==> |a.data| <= 32 && |a.data| <= x[1] && |a.data| <= k.tasks[k.current].mailboxLen)
      && (a.Blocks? && a.on.RoomAt? ==> a.on.dst == x[0])
      && (a.Blocks? && a.on.EndOf? ==> a.on.child == x[0])
      && (a.Blocks? && a.on.TickAt? ==> a.on.deadline == if k.ticks + x[0] > 0xFFFF_FFFF_FFFF_FFFF then 0xFFFF_FFFF_FFFF_FFFF
                                                         else k.ticks + x[0])
  {
    hide UserWrites, AsI64, AsU64;
  }

  /** The error numbers, as the signed numbers the documentation lists. */
  lemma ErrorNumbers()
    ensures AsI64(NEG_EBADF) == -1 && AsI64(NEG_E2BIG) == -7 && AsI64(NEG_EAGAIN) == -11 && AsI64(NEG_EFAULT) == -14
    ensures AsI64(NEG_EINVAL) == -22 && AsI64(NEG_ENOSYS) == -38
  {
  }

  /** The console call checks its stream, then the length, then the range, and answers the length. */
  lemma WriteAnswer(k: Kernel, e: Event)
    requires Calls(e, 1)
    ensures
      var x := e.cpu.x;
      Answers(k, e,
        if x[0] != 1 then 0xFFFF_FFFF_FFFF_FFFF
        else if x[2] > 256 then 0xFFFF_FFFF_FFFF_FFF9
        else if x[1] < 0xFFFF_0000_0000_0000 && x[1] + x[2] <= 0xFFFF_0000_0000_0000 then x[2]
        else 0xFFFF_FFFF_FFFF_FFF2)
  {
    hide UserWrites;
  }

  /** Any number but the ten is refused with -38. */
  lemma UnknownAnswer(k: Kernel, e: Event)
    requires e.cause.Svc? && !(1 <= e.cpu.x[8] <= 10)
    ensures Answers(k, e, 0xFFFF_FFFF_FFFF_FFDA)
  {
    hide UserWrites;
  }

  /** Sleeping for no ticks answers 0 at once. */
  lemma SleepZeroAnswer(k: Kernel, e: Event)
    requires Calls(e, 8) && e.cpu.x[0] == 0
    ensures Answers(k, e, 0)
  {
    hide UserWrites;
  }

  // ---- A kernel with two tasks, for the states that make an answer ambiguous ------------------------

  function Other(t: Tid): Tid { if t == 1 then 2 else 1 }

  /** Task `Other(c)` runs with a message of that length in its mailbox; c has ended with a code. */
  function Two(c: Tid, len: MsgLen, code: i64): Kernel {
    var running := EMPTY_TASK.(state := Running, mailboxLen := len);
    Kernel(EMPTY_TABLE[Other(c) := running][c := EMPTY_TASK.(exitCode := code)], [], Other(c), EMPTY_FRAME, 0, 0, 0, 0,
           false, 0, map[])
  }

  lemma TwoIsWF(c: Tid, len: MsgLen, code: i64)
    ensures WF(Two(c, len, code)) && Two(c, len, code).current == Other(c) && Two(c, len, code).queue == []
    ensures Two(c, len, code).tasks[Other(c)].mailboxLen == len
    ensures Two(c, len, code).tasks[c].state == Exited && Two(c, len, code).tasks[c].exitCode == code
  {
  }

  // ---- recv -------------------------------------------------------------------------------------

  predicate ValidRecv(x: Regs) { x[1] != 0 && Buffer(x[0], x[1]) }

  predicate MailboxEmpty(k: Kernel) { k.tasks[k.current].mailboxLen == 0 }

  /** The answer of recv in x0: an error number, or how many bytes were copied. */
  function RecvX0(k: Kernel, x: Regs): u64 {
    if x[1] == 0 then 0xFFFF_FFFF_FFFF_FFEA
    else if !ValidRecv(x) then 0xFFFF_FFFF_FFFF_FFF2
    else if MailboxEmpty(k) then 11
    else Min(k.tasks[k.current].mailboxLen, x[1])
  }

  lemma RecvAnswer(k: Kernel, e: Event)
    requires WF(k) && Calls(e, 5)
    ensures Step(k, e).Resume? && Step(k, e).k.current == k.current
    ensures Step(k, e).k.frame.x[0] == RecvX0(k, e.cpu.x)
  {
    hide Handle, Scan;
    var k1 := Trap(k, e);
    HandlePerforms(k1, Svc);
    if ActionOf(k1, Svc).Receives? {
      ScanKeepsContext(SetTask(k1, k.current, k1.tasks[k.current].(mailboxLen := 0, mailboxFrom := 0)), Senders(k.current), 8);
    }
  }

  /** Does the answer 11 of this call tell an empty mailbox from a message? */
  ghost predicate TellsEmpty(e: Event) {
    forall k: Kernel :: WF(k) ==> (Step(k, e).k.frame.x[0] == 11 <==> MailboxEmpty(k))
  }

  /** It does exactly if the buffer is valid and has room for at most ten bytes. With room for
      eleven or more, an 11-byte message is answered like none; an invalid buffer is answered
      before the mailbox is looked at. */
  lemma RecvTellsEmptyExactly(e: Event)
    requires Calls(e, 5)
    ensures TellsEmpty(e) <==> ValidRecv(e.cpu.x) && e.cpu.x[1] < 11
  {
    hide Step, Buffer;
    if ValidRecv(e.cpu.x) && e.cpu.x[1] < 11 {
      forall k: Kernel | WF(k) ensures Step(k, e).k.frame.x[0] == 11 <==> MailboxEmpty(k) {
        RecvAnswer(k, e);
      }
    } else {
      var k := Two(2, if ValidRecv(e.cpu.x) then 11 else 0, 0);
      TwoIsWF(2, if ValidRecv(e.cpu.x) then 11 else 0, 0);
      RecvAnswer(k, e);
    }
  }

  /** The sign of the answer tells failure from success, as documented, exactly unless the failure is
      the empty mailbox of a valid call. */
  lemma RecvSignExactly(k: Kernel, e: Event)
    requires WF(k) && Calls(e, 5)
    ensures
      var fails := !ValidRecv(e.cpu.x) || MailboxEmpty(k);
      (fails <==> AsI64(Step(k, e).k.frame.x[0]) < 0) <==> !(ValidRecv(e.cpu.x) && MailboxEmpty(k))
  {
    hide Step, Buffer;
    RecvAnswer(k, e);
  }

  // ---- send -------------------------------------------------------------------------------------

  predicate ValidSend(x: Regs) { Buffer(x[1], x[2]) }

  predicate NoTask(k: Kernel, dst: u64) { !Live(k, dst) }

  predicate MailboxFull(k: Kernel, dst: u64) { !NoTask(k, dst) && k.tasks[dst].mailboxLen > 0 }

  function SendX0(k: Kernel, x: Regs): u64 {
    if x[2] == 0 then 0
    else if !ValidSend(x) then 0xFFFF_FFFF_FFFF_FFF2
    else if NoTask(k, x[0]) then 3
    else if MailboxFull(k, x[0]) then 11
    else 0
  }

  predicate IsSend(e: Event) { Calls(e, 4) || Calls(e, 7) }

  /** Does sendblk go to sleep instead of answering? */
  predicate SendBlocks(k: Kernel, e: Event) {
    e.cpu.x[8] == 7 && e.cpu.x[2] != 0 && ValidSend(e.cpu.x) && MailboxFull(k, e.cpu.x[0])
  }

  /** send answers at once, and so does sendblk unless the mailbox is full. The answers are told
      apart: 0 is acceptance (or nothing to send), 3 no such task, 11 a full mailbox. */
  lemma SendAnswer(k: Kernel, e: Event)
    requires WF(k) && IsSend(e) && !SendBlocks(k, e)
    ensures Answers(k, e, SendX0(k, e.cpu.x))
  {
    hide Handle;
    var k1 := Trap(k, e);
    HandlePerforms(k1, Svc);
  }

  /** The sign tells failure from success, as documented, exactly unless the failure is a missing
      task or a full mailbox. */
  lemma SendSignExactly(k: Kernel, e: Event)
    requires WF(k) && IsSend(e) && !SendBlocks(k, e)
    ensures
      var x := e.cpu.x;
      var fails := x[2] != 0 && (!ValidSend(x) || NoTask(k, x[0]) || MailboxFull(k, x[0]));
      (fails <==> AsI64(Step(k, e).k.frame.x[0]) < 0)
        <==> !(x[2] != 0 && ValidSend(x) && (NoTask(k, x[0]) || MailboxFull(k, x[0])))
  {
    hide Step, Buffer;
    SendAnswer(k, e);
  }

  // ---- wait -------------------------------------------------------------------------------------

  lemma WaitAnswer(k: Kernel, e: Event)
    requires WF(k) && Calls(e, 10)
    ensures
      var c := e.cpu.x[0];
      && (c == 0 || c >= 8 ==> Answers(k, e, 3))
      && (0 < c < 8 && k.tasks[c].state == Exited ==> Answers(k, e, AsU64(k.tasks[c].exitCode)))
      && (0 < c < 8 && k.tasks[c].state != Exited ==> !Answers(k, e, 3))
  {
    var c := e.cpu.x[0];
    if 0 < c < 8 && k.tasks[c].state != Exited {
      LiveWait(k, e);
    }
  }

  /** A wait for a live child switches away or answers -11. */
  lemma LiveWait(k: Kernel, e: Event)
    requires WF(k) && Calls(e, 10) && 0 < e.cpu.x[0] < 8 && k.tasks[e.cpu.x[0]].state != Exited
    ensures !Answers(k, e, 3)
  {
    hide Handle;
    var k1 := Trap(k, e);
    if k.queue == [] {
      FailedBlockMeaning(k1, Svc);
      assert Step(k, e).k.frame.x[0] == NEG_EAGAIN;
      assert e.cpu.x[0 := 3][0] == 3;
    } else {
      HandlePerforms(k1, Svc);
      BeforeSane(k1, ActionOf(k1, Svc));
      DispatchWF(Before(k1, ActionOf(k1, Svc)));
      assert k.queue[0] in k.queue;
    }
  }

  /** Does the answer 3 of this call tell that there is no such task? */
  ghost predicate TellsNoTask(e: Event) {
    forall k: Kernel :: WF(k) ==> (Answers(k, e, 3) <==> e.cpu.x[0] == 0 || e.cpu.x[0] >= 8)
  }

  /** It does exactly if the TID is out of range: within it, 3 is the exit code of a child. */
  lemma WaitTellsNoTaskExactly(e: Event)
    requires Calls(e, 10)
    ensures TellsNoTask(e) <==> e.cpu.x[0] == 0 || e.cpu.x[0] >= 8
  {
    hide Answers;
    var c := e.cpu.x[0];
    if c == 0 || c >= 8 {
      forall k: Kernel | WF(k) ensures Answers(k, e, 3) { WaitAnswer(k, e); }
    } else {
      TwoIsWF(c, 0, 3);
      WaitAnswer(Two(c, 0, 3), e);
    }
  }

  /** The comment on `try_wait` promises 3 also for a slot nobody was spawned into. Of the calls that
      name no spawned task, exactly those out of range keep that promise; an unused slot answers 0. */
  lemma NeverSpawnedExactly(k: Kernel, e: Event, n: nat, h: History)
    requires WF(k) && EndingsKept(k, n, h) && Calls(e, 10) && !(1 <= e.cpu.x[0] <= n)
    ensures Answers(k, e, 3) <==> !(n < e.cpu.x[0] < 8)
    ensures n < e.cpu.x[0] < 8 ==> Answers(k, e, 0)
  {
    hide Step;
    WaitAnswer(k, e);
    if n < e.cpu.x[0] < 8 {
      var t: Tid := e.cpu.x[0];
      assert k.tasks[t].exitCode == 0 && k.tasks[t].state == Exited;
      assert e.cpu.x[0 := 0][0] == 0 && e.cpu.x[0 := 3][0] == 3;
    }
  }

  // ---- yield ------------------------------------------------------------------------------------

  /** A yield never writes x0: its caller goes on, at once or later, with the registers it yielded
      with, so the documented answer 0 comes about exactly if x0 was 0 before. Alone, it switches
      to itself. */
  lemma YieldKeepsX0(k: Kernel, e: Event)
    requires WF(k) && Calls(e, 3)
    ensures Step(k, e).Resume? && Vcpu(Step(k, e).k, k.current) == e.cpu
    ensures k.queue == [] ==> Step(k, e).k.current == k.current && CpuOf(Step(k, e).k.frame) == e.cpu
    ensures Vcpu(Step(k, e).k, k.current).x[0] == 0 <==> e.cpu.x[0] == 0
  {
    hide Handle;
    var k1 := Trap(k, e);
    HandlePerforms(k1, Svc);
    RequeuedSane(k1);
    DispatchWF(Before(k1, Yields));
    StepKeepsVcpus(k, e, k.current);
  }
}
