/** What each exception amounts to. `ActionOf` classifies an exception by what the caller can
    see before it is handled; `Perform` says what each kind of action does. The handlers in
    KernelState are proved to do exactly this in every well-formed state, unless a task blocks
    while nobody else can run. */
module Actions {
  import opened Words
  import opened KernelState
  import opened WellFormed

  /** What a blocked task waits for. */
  datatype Condition =
    | Mail                      // recvblk: a message in its own mailbox
    | RoomAt(dst: Tid)          // sendblk: the receiver's mailbox drained
    | TickAt(deadline: u64)     // sleep
    | EndOf(child: Tid)         // wait

  datatype Action =
    | Reply(v: u64)                                     // only x0 changes
    | Sends(dst: Tid, data: seq<u8>)                    // a message is accepted
    | Receives(va: u64, data: seq<u8>, from: Tid)       // the mailbox is drained
    | Blocks(on: Condition)
    | Yields
    | Exits(code: i64)
    | Dies                                              // killed on a fault
    | TimerTick

  function SendAction(k: Kernel, blocking: bool): (a: Action)
    ensures a.Sends? ==> 0 < |a.data| <= 32
    ensures !a.Receives?
  {
    var x := k.frame.x;
    var dst := x[0];
    if x[2] == 0 then Reply(0) else
    var len := Min(x[2], MSG_MAX);
    if !ValidUserRange(x[1], len) then Reply(NEG_EFAULT) else
    if dst == 0 || dst >= MAX_TASKS || k.tasks[dst].state == Exited then Reply(ESRCH) else
    if k.tasks[dst].mailboxLen == 0 then Sends(dst, ReadUser(k.mem, k.ttbr0, x[1], len)) else
    if blocking then Blocks(RoomAt(dst)) else Reply(EAGAIN)
  }

  function RecvAction(k: Kernel, blocking: bool): (a: Action)
    ensures !a.Sends?
    ensures a.Receives? ==> |a.data| <= 32 && a.va + |a.data| < TWO_64
  {
    var x := k.frame.x;
    if x[1] == 0 then Reply(NEG_EINVAL) else
    var bufLen := Min(x[1], MSG_MAX);
    if !ValidUserRange(x[0], bufLen) then Reply(NEG_EFAULT) else
    var t := k.tasks[k.current];
    if t.mailboxLen > 0 then Receives(x[0], t.mailbox[..Min(t.mailboxLen, bufLen)], t.mailboxFrom)
    else if blocking then Blocks(Mail) else Reply(EAGAIN)
  }

  function WaitAction(k: Kernel): (a: Action)
    ensures !a.Sends? && !a.Receives?
  {
    var c := k.frame.x[0];
    if c == 0 || c >= MAX_TASKS then Reply(ESRCH) else
    if k.tasks[c].state == Exited then Reply(AsU64(k.tasks[c].exitCode)) else Blocks(EndOf(c))
  }

  function WriteAction(k: Kernel): (a: Action)
    ensures !a.Sends? && !a.Receives?
  {
    var x := k.frame.x;
    if x[0] != 1 then Reply(NEG_EBADF) else
    if x[2] > 256 then Reply(NEG_E2BIG) else
    if !ValidUserRange(x[1], x[2]) then Reply(NEG_EFAULT) else Reply(x[2])
  }

  function ActionOf(k: Kernel, c: Cause): (a: Action)
    ensures a.Sends? ==> 0 < |a.data| <= 32
    ensures a.Receives? ==> |a.data| <= 32 && a.va + |a.data| < TWO_64
  {
    match c
    case Fault => Dies
    case Tick => TimerTick
    case Svc =>
      var x := k.frame.x;
      var nr := x[8];
      if nr == SYS_WRITE then WriteAction(k)
      else if nr == SYS_YIELD then Yields
      else if nr == SYS_SEND || nr == SYS_SENDBLK then SendAction(k, nr == SYS_SENDBLK)
      else if nr == SYS_RECV || nr == SYS_RECVBLK then RecvAction(k, nr == SYS_RECVBLK)
      else if nr == SYS_SLEEP then
        if x[0] == 0 then Reply(0) else Blocks(TickAt(Deadline(k.ticks, x[0])))
      else if nr == SYS_EXIT || nr == SYS_EXIT_CODE then Exits(AsI64(x[0]))
      else if nr == SYS_WAIT then WaitAction(k)
      else Reply(NEG_ENOSYS)
  }

  /** Put a message into an empty mailbox and wake the receiver if it is Blocked, whatever
      it is blocked on. */
  function Put(k: Kernel, dst: Tid, data: seq<u8>): Kernel
    requires |data| <= 32
  {
    var t := k.tasks[dst];
    var filled := t.(mailbox := data + t.mailbox[|data|..], mailboxLen := |data|, mailboxFrom := k.current);
    if t.state == Blocked
    then k.(tasks := k.tasks[dst := filled.(state := Ready)], queue := k.queue + [dst])
    else k.(tasks := k.tasks[dst := filled])
  }

  /** Empty the caller's mailbox and wake the senders that wait for it. */
  function Drained(k: Kernel): Kernel {
    var cur := k.current;
    Scan(SetTask(k, cur, k.tasks[cur].(mailboxLen := 0, mailboxFrom := 0)), Senders(cur), 8)
  }

  /** The task as it goes to sleep: what it waits for, and the registers it will resume with.
      All calls but sleep will re-execute their svc. */
  function Asleep(k: Kernel, on: Condition): Task {
    var t := k.tasks[k.current];
    var retry := k.frame.(elr := WrappingSub(k.frame.elr, 4));
    match on
    case Mail => t.(saved := retry, state := Blocked)
    case RoomAt(dst) => t.(saved := retry, state := Blocked, blockedSendDst := dst)
    case TickAt(deadline) => t.(saved := SetX(k.frame, 0, 0), state := Blocked, wakeTick := deadline)
    case EndOf(child) => t.(saved := retry, state := Blocked, waitingOn := child)
  }

  function Ticked(k: Kernel): Kernel {
    var k1 := k.(ticks := WrappingAdd(k.ticks, 1));
    Scan(k1, Sleepers(k1.ticks), 8)
  }

  /** The running task goes to the back of the queue. */
  function Requeued(k: Kernel): Kernel {
    k.(tasks := k.tasks[k.current := k.tasks[k.current].(saved := k.frame, state := Ready)],
       queue := k.queue + [k.current])
  }

  predicate Switches(k: Kernel, a: Action) {
    a.Blocks? || a.Yields? || a.Exits? || a.Dies? || (a.TimerTick? && k.preempt)
  }

  /** The kernel an action leaves behind, before the next task is picked if one is. */
  function Before(k: Kernel, a: Action): Kernel
    requires a.Sends? ==> |a.data| <= 32
    requires a.Receives? ==> |a.data| <= 32 && a.va + |a.data| < TWO_64
  {
    match a
    case Reply(v) => Ret(k, v)
    case Sends(dst, data) => Ret(Put(k, dst, data), 0)
    case Receives(va, data, from) => Deliver(Drained(k), va, data, from)
    case Blocks(on) => SetTask(k, k.current, Asleep(k, on))
    case Yields => Requeued(k)
    case Exits(code) =>
      Scan(SetTask(k, k.current, k.tasks[k.current].(state := Exited, exitCode := code)),
           Waiters(k.current), 8)
    case Dies => Bury(k)
    case TimerTick => if k.preempt then Requeued(Ticked(k)) else Ticked(k)
  }

  function Counted(k: Kernel, a: Action): Kernel {
    if a.TimerTick? then k.(preempts := WrappingAdd(k.preempts, 1)) else k
  }

  /** Doing an action: change the state, then switch if the action gives up the CPU. */
  function Perform(k: Kernel, a: Action): Outcome
    requires a.Sends? ==> |a.data| <= 32
    requires a.Receives? ==> |a.data| <= 32 && a.va + |a.data| < TWO_64
  {
    var k1 := Before(k, a);
    if !Switches(k, a) then Resume(k1)
    else if k1.queue == [] then Monitor(k1.(preempt := false))
    else Resume(Counted(Dispatch(k1).0, a))
  }

  /** A task asks to block while no other task is Ready: the guard of the branch of
      `block_and_switch` that returns false. */
  predicate FailedBlock(k: Kernel, c: Cause) {
    ActionOf(k, c).Blocks? && k.queue == []
  }

  // ---- Each action keeps the scheduler sane ---------------------------------------------------

  lemma PutSane(k: Kernel, dst: Tid, data: seq<u8>)
    requires Sane(k) && dst != 0 && |data| <= 32
    ensures Sane(Put(k, dst, data))
  {
    var t := k.tasks[dst];
    var filled := t.(mailbox := data + t.mailbox[|data|..], mailboxLen := |data|, mailboxFrom := k.current);
    if t.state == Blocked {
      MakeReady(k, dst, filled.(state := Ready));
    } else {
      SetTaskSane(k, dst, filled);
    }
  }

  lemma RequeuedSane(k: Kernel)
    requires WF(k)
    ensures Sane(Requeued(k)) && forall t: Tid :: Requeued(k).tasks[t].state != Running
  {
    MakeReady(k, k.current, k.tasks[k.current].(saved := k.frame, state := Ready));
  }

  lemma {:induction false} ScanWF(k: Kernel, r: Reason)
    requires WF(k)
    ensures WF(Scan(k, r, 8)) && Scan(k, r, 8).current == k.current
  {
    hide Scan, Woken;
    ScanMeaning(k, r, 8);
  }

  lemma DrainedWF(k: Kernel)
    requires WF(k)
    ensures WF(Drained(k)) && Drained(k).current == k.current
  {
    hide Scan;
    ScanWF(SetTask(k, k.current, k.tasks[k.current].(mailboxLen := 0, mailboxFrom := 0)), Senders(k.current));
  }

  lemma TickedWF(k: Kernel)
    requires WF(k)
    ensures WF(Ticked(k)) && Ticked(k).current == k.current && Ticked(k).preempt == k.preempt
  {
    hide Scan;
    var k1 := k.(ticks := WrappingAdd(k.ticks, 1));
    ScanWF(k1, Sleepers(k1.ticks));
    ScanKeepsContext(k1, Sleepers(k1.ticks), 8);
  }

  lemma ExitSane(k: Kernel, code: i64)
    requires WF(k)
    ensures Sane(Before(k, Exits(code))) && Before(k, Exits(code)).current == k.current
    ensures forall t: Tid :: Before(k, Exits(code)).tasks[t].state != Running
  {
    hide Scan, Woken;
    var task := k.tasks[k.current].(state := Exited, exitCode := code);
    RetireSane(k, k.current, task);
    ScanMeaning(SetTask(k, k.current, task), Waiters(k.current), 8);
  }

  /** After an action either the same task still runs, or nobody does and the pick follows. */
  lemma BeforeSane(k: Kernel, a: Action)
    requires WF(k)
    requires a.Sends? ==> a.dst != 0 && |a.data| <= 32
    requires a.Receives? ==> |a.data| <= 32 && a.va + |a.data| < TWO_64
    ensures Sane(Before(k, a)) && Before(k, a).current == k.current
    ensures Switches(k, a) ==> forall t: Tid :: Before(k, a).tasks[t].state != Running
    ensures !Switches(k, a) ==> WF(Before(k, a))
  {
    match a
    case Reply(v) =>
    case Sends(dst, data) => PutSane(k, dst, data);
    case Receives(va, data, from) => DrainedWF(k);
    case Blocks(on) => RetireSane(k, k.current, Asleep(k, on));
    case Yields => RequeuedSane(k);
    case Exits(code) => ExitSane(k, code);
    case Dies => RetireSane(k, k.current, Bury(k).tasks[k.current]);
    case TimerTick =>
      TickedWF(k);
      if k.preempt { RequeuedSane(Ticked(k)); }
  }
}
