/** What an observer of a session writes down: messages accepted, consumed and dropped, who
    ended with which code, and who was killed. Nothing here influences the kernel. */
module History {
  import opened Words
  import opened KernelState
  import opened Actions

  /** A message with its sender, or in the log of a sender with its receiver. */
  datatype Msg = Msg(peer: Tid, data: seq<u8>)
  type Log = s: seq<seq<Msg>> | |s| == 8 witness [[], [], [], [], [], [], [], []]

  datatype History = History(
    sent: Log,                // per sender: what ipc_send accepted from it
    accepted: Log,            // per receiver: what ipc_send accepted
    consumed: Log,            // per receiver: what ipc_recv took out, whole messages
    dropped: Log,             // per receiver: what a fault kill discarded
    ended: map<Tid, i64>,     // how each task ended; -1 if killed
    killed: set<Tid>)

  const NOTHING: History :=
    History([[], [], [], [], [], [], [], []], [[], [], [], [], [], [], [], []],
            [[], [], [], [], [], [], [], []], [[], [], [], [], [], [], [], []], map[], {})

  /** The message waiting in a mailbox, if any. */
  function Inbox(t: Task): seq<Msg> {
    if t.mailboxLen == 0 then [] else [Msg(t.mailboxFrom, t.mailbox[..t.mailboxLen])]
  }

  function Append(l: Log, t: Tid, s: seq<Msg>): Log { l[t := l[t] + s] }

  /** Write down one exception, seen as it is about to be handled. */
  function Record(k: Kernel, c: Cause, h: History): History {
    var cur := k.current;
    match ActionOf(k, c)
    case Sends(dst, data) => h.(sent := Append(h.sent, cur, [Msg(dst, data)]),
                                accepted := Append(h.accepted, dst, [Msg(cur, data)]))
    case Receives(_, _, _) => h.(consumed := Append(h.consumed, cur, Inbox(k.tasks[cur])))
    case Exits(code) => h.(ended := h.ended[cur := code])
    case Dies => h.(ended := h.ended[cur := -1], killed := h.killed + {cur},
                    dropped := Append(h.dropped, cur, Inbox(k.tasks[cur])))
    case _ => h
  }

  function Replay(k: Kernel, es: seq<Event>, h: History): History
    decreases |es|
  {
    if es == [] then h else
    var h1 := Record(Trap(k, es[0]), es[0].cause, h);
    match Step(k, es[0])
    case Resume(k1) => Replay(k1, es[1..], h1)
    case Monitor(_) => h1
  }
}
