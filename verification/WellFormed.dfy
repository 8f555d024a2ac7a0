/** Scheduler well-formedness, kept by every exception of every session without a failed block. */
module WellFormed {
  import opened Words
  import opened KernelState

  predicate Distinct(q: seq<Tid>) {
    forall i, j :: 0 <= i < j < |q| ==> q[i] != q[j]
  }

  /** What holds throughout a handler: the queue holds exactly the Ready tasks, once each. */
  ghost predicate Sane(k: Kernel) {
    && k.tasks[0].state == Exited
    && Distinct(k.queue)
    && (forall t: Tid :: t in k.queue <==> k.tasks[t].state == Ready)
    && (forall t: Tid :: k.tasks[t].state == Running ==> t == k.current)
  }

  /** What holds whenever a task executes in EL0: in addition exactly one task is Running,
      and it is CURRENT_TID. */
  ghost predicate WF(k: Kernel) {
    Sane(k) && k.current != 0 && k.tasks[k.current].state == Running
  }

  // ---- The queue never fills --------------------------------------------------------

  /** A duplicate-free queue of other user tasks has room: seven TIDs share eight slots. */
  lemma Room(q: seq<Tid>, t: Tid)
    requires Distinct(q) && 0 !in q && t !in q && t != 0
    ensures |q| <= 6
  {
    var s := multiset(q);
    forall u: Tid ensures s[u] <= 1 { Multiplicity(q, u); }
    assert s <= multiset{1, 2, 3, 4, 5, 6, 7} - multiset{t};
    Submultiset(s, multiset{1, 2, 3, 4, 5, 6, 7} - multiset{t});
  }

  lemma {:induction false} Multiplicity(q: seq<Tid>, u: Tid)
    requires Distinct(q)
    ensures multiset(q)[u] == if u in q then 1 else 0
  {
    if q != [] {
      Multiplicity(q[..|q| - 1], u);
      assert q == q[..|q| - 1] + [q[|q| - 1]];
    }
  }

  lemma Submultiset(a: multiset<Tid>, b: multiset<Tid>)
    requires a <= b
    ensures |a| <= |b|
  {
    assert b == a + (b - a);
  }

  // ---- Primitive steps ----------------------------------------------------------------

  /** Changing a task without changing its state. */
  lemma SetTaskSane(k: Kernel, t: Tid, task: Task)
    requires Sane(k) && task.state == k.tasks[t].state
    ensures Sane(SetTask(k, t, task))
  {
  }

  /** Taking a task off the CPU or out of the game. */
  lemma RetireSane(k: Kernel, t: Tid, task: Task)
    requires Sane(k) && t !in k.queue && task.state in {Exited, Blocked} && (t == 0 ==> task.state == Exited)
    ensures Sane(SetTask(k, t, task))
  {
  }

  /** Making a task Ready and queueing it: the enqueue succeeds. */
  lemma MakeReady(k: Kernel, t: Tid, task: Task)
    requires Sane(k) && t != 0 && k.tasks[t].state != Ready && task.state == Ready
    ensures Enqueue(SetTask(k, t, task), t) == SetTask(k, t, task).(queue := k.queue + [t])
    ensures Sane(Enqueue(SetTask(k, t, task), t))
  {
    Room(k.queue, t);
    var k1 := Enqueue(SetTask(k, t, task), t);
    forall u: Tid ensures u in k1.queue <==> k1.tasks[u].state == Ready {
      assert u in k1.queue <==> u in k.queue || u == t;
    }
  }

  /** Picking the next task when nobody is Running: it succeeds exactly when someone is
      Ready, and then the oldest Ready task runs. */
  lemma DispatchWF(k: Kernel)
    requires Sane(k) && forall t: Tid :: k.tasks[t].state != Running
    ensures Dispatch(k).1 <==> k.queue != []
    ensures k.queue != [] ==>
      var k1 := Dispatch(k).0;
      && WF(k1) && k1.current == k.queue[0] && k1.queue == k.queue[1..]
    ensures k.queue == [] ==> Dispatch(k).0 == k
  {
    if k.queue != [] {
      var next := k.queue[0];
      assert next in k.queue;
      var k1 := Dispatch(k).0;
      forall t: Tid ensures t in k1.queue <==> k1.tasks[t].state == Ready {
        if t in k1.queue {
          assert t in k.queue;
          assert t != next;
        }
        if k1.tasks[t].state == Ready {
          assert t in k.queue;
        }
      }
    }
  }

  // ---- Wake scans -------------------------------------------------------------------------

  /** The TIDs below `n` a scan wakes, in ascending order. */
  function Woken(tasks: Table, r: Reason, n: nat): (s: seq<Tid>)
    requires n <= 8
    ensures forall t :: t in s <==> 1 <= t < n && Wakes(r, tasks[t])
  {
    if n <= 1 then []
    else Woken(tasks, r, n - 1) + if Wakes(r, tasks[n - 1]) then [n - 1] else []
  }

  lemma ScanOneMeaning(k: Kernel, r: Reason, t: Tid)
    requires Sane(k) && t != 0
    ensures
      var k1 := ScanOne(k, r, t);
      && Sane(k1)
      && k1 == k.(tasks := k.tasks[t := Touched(r, k.tasks[t])],
                  queue := k.queue + if Wakes(r, k.tasks[t]) then [t] else [])
  {
    var task := Touched(r, k.tasks[t]);
    if Wakes(r, k.tasks[t]) {
      MakeReady(k, t, task);
    } else {
      SetTaskSane(k, t, task);
    }
  }

  /** What a scan does as a whole: every task is touched once, and the woken ones join the
      queue in TID order, none of them lost to a full queue. */
  lemma {:induction false} ScanMeaning(k: Kernel, r: Reason, n: nat)
    requires Sane(k) && n <= 8
    ensures Sane(Scan(k, r, n))
    ensures Scan(k, r, n) == k.(tasks := Scan(k, r, n).tasks, queue := k.queue + Woken(k.tasks, r, n))
    ensures forall t: Tid ::
      Scan(k, r, n).tasks[t] == if 1 <= t < n then Touched(r, k.tasks[t]) else k.tasks[t]
  {
    hide Touched, Wakes, Sane, ScanOne, Woken;
    if n > 1 {
      ScanMeaning(k, r, n - 1);
      ScanOneMeaning(Scan(k, r, n - 1), r, n - 1);
    }
    WokenGrows(k.queue, k.tasks, r, n);
  }

  lemma WokenGrows(q: seq<Tid>, tasks: Table, r: Reason, n: nat)
    requires n <= 8
    ensures n <= 1 ==> q + Woken(tasks, r, n) == q
    ensures n > 1 ==> q + Woken(tasks, r, n) == (q + Woken(tasks, r, n - 1)) + if Wakes(r, tasks[n - 1]) then [n - 1] else []
  {
    hide Wakes;
  }

  /** Whatever the state, a scan leaves alone all but the table and the queue, and of each task
      its saved frame, address space and kernel stack. */
  lemma {:induction false} ScanKeepsContext(k: Kernel, r: Reason, n: nat)
    requires n <= 8
    ensures
      var k1 := Scan(k, r, n);
      k1 == k.(tasks := k1.tasks, queue := k1.queue)
    ensures forall t: Tid ::
      var a := k.tasks[t];
      var b := Scan(k, r, n).tasks[t];
      b.saved == a.saved && b.ttbr0 == a.ttbr0 && b.kstackTop == a.kstackTop
  {
    if n > 1 { ScanKeepsContext(k, r, n - 1); }
  }
}
