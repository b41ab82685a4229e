/** What every event of the machine does, told by membership, order and states, and not by the
    functions that compute it: which tasks move between the rings and where they come to lie, who
    dies how, whom a context switch wakes and dispatches. */
module Laws {
  import opened Scheduling
  import opened Machines
  import opened Runs
  import opened Fairness

  // ---------- order ----------

  /** Members that were there before keep their order from head to tail, and new ones are behind
      them. */
  ghost predicate InOrder<T>(before: seq<T>, after: seq<T>) {
    forall i, j :: 0 <= i < j < |after| && after[j] in before ==>
      after[i] in before && IndexOf(before, after[i]) < IndexOf(before, after[j])
  }

  lemma SameOrder<T>(q: seq<T>)
    requires Distinct(q)
    ensures InOrder(q, q)
  {
    forall i, j | 0 <= i < j < |q| ensures IndexOf(q, q[i]) < IndexOf(q, q[j]) {
      IndexOfUnique(q, i);
      IndexOfUnique(q, j);
    }
  }

  lemma OrderWithout<T>(q: seq<T>, t: T)
    requires Distinct(q) && t in q
    ensures InOrder(q, Minus(q, t))
  {
    var r, k := Minus(q, t), IndexOf(q, t);
    forall i, j | 0 <= i < j < |r| ensures r[i] in q && r[j] in q && IndexOf(q, r[i]) < IndexOf(q, r[j]) {
      var a, b := if i < k then i else i + 1, if j < k then j else j + 1;
      assert r[i] == q[a] && r[j] == q[b];
      IndexOfUnique(q, a);
      IndexOfUnique(q, b);
    }
  }

  lemma OrderWith<T>(before: seq<T>, after: seq<T>, t: T)
    requires InOrder(before, after) && t !in before
    ensures InOrder(before, after + [t])
  {
  }

  /** Nothing that left in the first step comes back in the second. */
  lemma OrderOfTwo<T>(a: seq<T>, b: seq<T>, c: seq<T>)
    requires InOrder(a, b) && InOrder(b, c) && Distinct(b)
    requires forall t :: t in c && t in a ==> t in b
    ensures InOrder(a, c)
  {
    forall i, j | 0 <= i < j < |c| && c[j] in a
      ensures c[i] in a && IndexOf(a, c[i]) < IndexOf(a, c[j])
    {
      var k, l := IndexOf(b, c[i]), IndexOf(b, c[j]);
      assert b[k] == c[i] && b[l] == c[j] && k < l;
    }
  }

  /** Members and order determine a ring, as long as at most one member is new. */
  lemma {:induction false} OrderDetermines<T>(before: seq<T>, a: seq<T>, b: seq<T>, added: Option<T>)
    requires Distinct(a) && Distinct(b) && InOrder(before, a) && InOrder(before, b)
    requires forall t :: t in a <==> t in b
    requires forall t :: t in a && t !in before ==> added == Some(t)
    ensures a == b
    decreases |a|
  {
    hide Distinct, InOrder;
    SameLength(a, b);
    if a != [] {
      var x := a[|a| - 1];
      var c, d := a[..|a| - 1], b[..|b| - 1];
      LastIsSame(before, a, b, added);
      LastIsOther(a);
      LastIsOther(b);
      assert a == c + [x] && b == d + [x];
      FrontKeepsOrder(before, c, x);
      FrontKeepsOrder(before, d, x);
      SameFront(c, d, x);
      OrderDetermines(before, c, d, added);
    }
  }

  lemma SameLength<T>(a: seq<T>, b: seq<T>)
    requires Distinct(a) && Distinct(b) && forall t :: t in a <==> t in b
    ensures |a| == |b|
  {
    hide Distinct;
    DistinctCount(a);
    DistinctCount(b);
    assert Elements(a) == Elements(b);
  }

  lemma FrontKeepsOrder<T>(before: seq<T>, c: seq<T>, x: T)
    requires InOrder(before, c + [x])
    ensures InOrder(before, c)
  {
    hide IndexOf;
    forall i, j | 0 <= i < j < |c| && c[j] in before
      ensures c[i] in before && IndexOf(before, c[i]) < IndexOf(before, c[j])
    {
      assert (c + [x])[i] == c[i] && (c + [x])[j] == c[j];
    }
  }

  lemma SameFront<T>(c: seq<T>, d: seq<T>, x: T)
    requires x !in c && x !in d && forall t :: t in c + [x] <==> t in d + [x]
    ensures forall t :: t in c <==> t in d
  {
    forall t ensures t in c <==> t in d {
      assert t in c + [x] <==> t in c || t == x;
      assert t in d + [x] <==> t in d || t == x;
    }
  }

  lemma LastIsSame<T>(before: seq<T>, a: seq<T>, b: seq<T>, added: Option<T>)
    requires Distinct(a) && Distinct(b) && InOrder(before, a) && InOrder(before, b) && a != [] && b != []
    requires forall t :: t in a <==> t in b
    requires forall t :: t in a && t !in before ==> added == Some(t)
    ensures a[|a| - 1] == b[|b| - 1]
  {
    var x, y := a[|a| - 1], b[|b| - 1];
    assert x in b && y in a;
    var i :| 0 <= i < |a| && a[i] == y;
    var j :| 0 <= j < |b| && b[j] == x;
  }

  // ---------- waking ----------

  /** The first waiting task with this pid, if there is one. */
  ghost predicate FirstWaiting<T>(s: Scheduler<T>, pid: nat, w: Option<T>)
    requires Known(s)
  {
    match w
    case None => forall t :: t in s.waiting ==> s.tasks[t].pid != pid
    case Some(t) =>
      && t in s.waiting && s.tasks[t].pid == pid
      && (forall u :: u in s.waiting && s.tasks[u].pid == pid ==> IndexOf(s.waiting, t) <= IndexOf(s.waiting, u))
  }

  /** From s to r this task, if there is one, left the waiting ring for the tail of the running ring,
      and nothing else moved. */
  ghost predicate Joins<T>(s: Scheduler<T>, r: Scheduler<T>, w: Option<T>) {
    && (forall t :: t in r.running ==> t in s.running || w == Some(t))
    && (forall t :: t in s.running ==> t in r.running) && (w.Some? ==> w.value in r.running)
    && (forall t :: t in r.waiting ==> t in s.waiting && w != Some(t))
    && (forall t :: t in s.waiting && w != Some(t) ==> t in r.waiting)
    && InOrder(s.running, r.running) && InOrder(s.waiting, r.waiting)
  }

  /** Exactly the tasks of s exist in r, and all but this one are as they were. */
  ghost predicate OthersStay<T>(s: Scheduler<T>, r: Scheduler<T>, w: Option<T>) {
    && r.tasks.Keys == s.tasks.Keys
    && forall t :: t in s.tasks && w != Some(t) ==> r.tasks[t] == s.tasks[t]
  }

  ghost predicate BecomesReady<T>(s: Scheduler<T>, r: Scheduler<T>, w: Option<T>) {
    w.Some? ==>
      && w.value in s.tasks && w.value in r.tasks
      && r.tasks[w.value] == Task(s.tasks[w.value].pid, READY, s.tasks[w.value].sp)
  }

  lemma WakeupEffect<T>(s: Scheduler<T>, idle: T, pid: nat) returns (w: Option<T>)
    requires Sound(s, idle)
    ensures Known(s) && FirstWaiting(s, pid, w)
    ensures Joins(s, Wakeup(s, pid), w) && OthersStay(s, Wakeup(s, pid), w) && BecomesReady(s, Wakeup(s, pid), w)
    ensures Wakeup(s, pid).currentlyRunning == s.currentlyRunning
  {
    hide Sound, Distinct, Minus, Joins, Find;
    SoundParts(s, idle);
    WokenIsWaiting(s, pid);
    w := Woken(s, pid);
    if w.Some? {
      WaitsNotRuns(s, idle, w.value);
      WokenIsFirst(s, pid);
      JoinsAtTail(s, Wakeup(s, pid), w.value);
    } else {
      NobodyJoins(s, s);
    }
  }

  lemma WaitsNotRuns<T>(s: Scheduler<T>, idle: T, t: T)
    requires Sound(s, idle) && t in s.waiting
    ensures t !in s.running && t in s.tasks && s.tasks[t].state == WAITING
  {
  }

  lemma JoinsAtTail<T>(s: Scheduler<T>, r: Scheduler<T>, t: T)
    requires Distinct(s.running) && Distinct(s.waiting) && t in s.waiting && t !in s.running
    requires r.waiting == Minus(s.waiting, t) && r.running == s.running + [t]
    ensures Joins(s, r, Some(t))
  {
    hide Distinct, Minus, InOrder;
    SameOrder(s.running);
    MinusElements(s.waiting, t);
    OrderWithout(s.waiting, t);
    OrderWith(s.running, s.running, t);
  }

  lemma NobodyJoins<T>(s: Scheduler<T>, r: Scheduler<T>)
    requires Distinct(s.running) && Distinct(s.waiting) && r.running == s.running && r.waiting == s.waiting
    ensures Joins(s, r, None)
  {
    hide Distinct, InOrder;
    SameOrder(s.running);
    SameOrder(s.waiting);
  }

  lemma WokenIsFirst<T>(s: Scheduler<T>, pid: nat)
    requires Known(s) && Woken(s, pid).Some?
    ensures FirstWaiting(s, pid, Woken(s, pid))
  {
    WokenIsWaiting(s, pid);
    var i, w := Find(s.waiting, s.tasks, pid, 0), Woken(s, pid).value;
    forall u | u in s.waiting && s.tasks[u].pid == pid ensures IndexOf(s.waiting, w) <= IndexOf(s.waiting, u) {
    }
  }

  /** wakeup_pid: the first waiting task with this pid becomes READY at the tail of the running ring. */
  lemma WakeEffect<T>(m: Machine<T>, pid: nat) returns (w: Option<T>)
    requires Inv(m)
    ensures var s, r := m.sched, Step(m, Wake(pid)).sched;
      Known(s) && FirstWaiting(s, pid, w) && Joins(s, r, w) && OthersStay(s, r, w) && BecomesReady(s, r, w)
  {
    hide Sound, FirstWaiting, Joins, OthersStay, BecomesReady, Wakeup;
    w := WakeupEffect(m.sched, m.idle, pid);
  }

  // ---------- finishing and faulting ----------

  /** Exactly the executing task changes to this state, besides one that is woken. */
  ghost predicate Dies<T>(m: Machine<T>, r: Machine<T>, state: TaskState, w: Option<T>)
    requires Inv(m)
  {
    var s, t := m.sched, m.executing;
    && w != Some(t)
    && t in r.sched.tasks && r.sched.tasks[t] == Task(s.tasks[t].pid, state, s.tasks[t].sp)
    && r.sched.tasks.Keys == s.tasks.Keys
    && (forall u :: u in s.tasks && u != t && w != Some(u) ==> r.sched.tasks[u] == s.tasks[u])
    && Joins(s, r.sched, w) && BecomesReady(s, r.sched, w)
    && r.executing == t && r.pending
  }

  /** A fault makes the executing task INVALID and touches no other task and no ring. */
  lemma InvalidateEffect<T>(m: Machine<T>)
    requires Inv(m) && Enabled(m, Invalidate)
    ensures Dies(m, Step(m, Invalidate), INVALID, None)
  {
    hide Sound, Joins;
    SoundParts(m.sched, m.idle);
    NobodyJoins(m.sched, Step(m, Invalidate).sched);
  }

  /** finish_task makes the executing task FINISHED. If its parent joins it, the first waiting task
      with the pid of the parent is woken as by wakeup_pid; else no other task and no ring changes. */
  lemma FinishEffect<T>(m: Machine<T>, joined: Option<nat>) returns (w: Option<T>)
    requires Inv(m) && Enabled(m, Finish(joined))
    ensures Known(m.sched) && (if joined.Some? then FirstWaiting(m.sched, joined.value, w) else w == None)
    ensures Dies(m, Step(m, Finish(joined)), FINISHED, w)
  {
    hide Sound, Joins, FirstWaiting, Wakeup, DeadTasks;
    var s, t := m.sched, m.executing;
    SoundParts(s, m.idle);
    ReadyIsAlive(m);
    RunsNotWaits(s, m.idle, t);
    w := None;
    if joined.Some? {
      var f := s.(tasks := s.tasks[t := s.tasks[t].(state := FINISHED)],
                  cleanUpRequests := (s.cleanUpRequests + 1) % 16);
      OneMoreDead(s, m.idle, t, s.tasks[t].(state := FINISHED));
      w := WakeupEffect(f, m.idle, joined.value);
      FinishIsWakeup(s, joined.value, f);
      SameRings(s, f, Wakeup(f, joined.value), joined.value, w, t);
    } else {
      NobodyJoins(s, Step(m, Finish(joined)).sched);
    }
  }

  lemma FinishIsWakeup<T>(s: Scheduler<T>, pid: nat, f: Scheduler<T>)
    requires CurrentInRing(s) && Known(f)
    requires var t := s.currentlyRunning.value;
      f == s.(tasks := s.tasks[t := s.tasks[t].(state := FINISHED)], cleanUpRequests := (s.cleanUpRequests + 1) % 16)
    ensures FinishTask(s, Some(pid)) == Wakeup(f, pid)
  {
  }

  /** The task that dies runs, so it is not the one that is woken. */
  lemma SameRings<T>(s: Scheduler<T>, f: Scheduler<T>, r: Scheduler<T>, pid: nat, w: Option<T>, t: T)
    requires Known(s) && Known(f) && f.running == s.running && f.waiting == s.waiting
    requires t in s.running && t !in s.waiting
    requires f.tasks == s.tasks[t := s.tasks[t].(state := FINISHED)]
    requires FirstWaiting(f, pid, w) && Joins(f, r, w) && OthersStay(f, r, w) && BecomesReady(f, r, w)
    ensures FirstWaiting(s, pid, w) && Joins(s, r, w) && BecomesReady(s, r, w) && w != Some(t)
    ensures r.tasks.Keys == s.tasks.Keys && r.tasks[t] == s.tasks[t].(state := FINISHED)
    ensures forall u :: u in s.tasks && u != t && w != Some(u) ==> r.tasks[u] == s.tasks[u]
  {
    hide InOrder, IndexOf;
  }

  // ---------- blocking ----------

  /** block_current_task: the executing task leaves the running ring and becomes the last one of the
      waiting ring, WAITING. All other tasks keep state and order, in the running ring as read from
      its head, and as read from the task that is current: that one is rewound to the predecessor, or
      to NULL if no task is left. */
  lemma BlockEffect<T>(m: Machine<T>)
    requires Inv(m) && Enabled(m, Block)
    ensures var s, r, t := m.sched, Step(m, Block).sched, m.executing;
      && (forall u :: u in r.running <==> u in s.running && u != t) && InOrder(s.running, r.running)
      && (forall u :: u in r.waiting <==> u in s.waiting || u == t) && InOrder(s.waiting, r.waiting)
      && r.tasks == s.tasks[t := Task(s.tasks[t].pid, WAITING, s.tasks[t].sp)]
      && r.taskToPreserve == Some(t) && (r.running == [] <==> r.currentlyRunning == None)
      && (r.currentlyRunning.Some? ==> r.currentlyRunning.value in r.running)
      && (forall u :: u in r.running && u in s.running ==> Distance(r, u) == Distance(s, u))
  {
    hide Sound, Distinct, Minus, InOrder, Prev, Distance, IsDead, DeadTasks;
    var s, r, t := m.sched, Step(m, Block).sched, m.executing;
    SoundParts(s, m.idle);
    ReadyIsAlive(m);
    BlockSound(s, m.idle);
    SoundParts(r, m.idle);
    MinusElements(s.running, t);
    OrderWithout(s.running, t);
    SameOrder(s.waiting);
    RunsNotWaits(s, m.idle, t);
    OrderWith(s.waiting, s.waiting, t);
    forall u | u in r.running && u in s.running ensures Distance(r, u) == Distance(s, u) {
      BlockDelay(s, m.idle, u);
    }
  }

  lemma RunsNotWaits<T>(s: Scheduler<T>, idle: T, t: T)
    requires Sound(s, idle) && t in s.running
    ensures t !in s.waiting
  {
  }

  // ---------- the context switch ----------

  /** Whether switch_task looks for idle in the waiting ring: if no task is current, if an external task
      was transferred, or if no running task is READY. */
  ghost predicate WakesIdle<T>(s: Scheduler<T>, externalTaskTransfered: bool)
    requires Known(s)
  {
    s.currentlyRunning == None || externalTaskTransfered || forall t :: t in s.running ==> s.tasks[t].state != READY
  }

  /** t is the first READY task behind c, once around. */
  ghost predicate NearestReady<T>(s: Scheduler<T>, c: T, t: T)
    requires Known(s) && c in s.running
  {
    var ring := After(s.running, c);
    && t in s.running && s.tasks[t].state == READY
    && (forall u :: u in s.running && s.tasks[u].state == READY && u in ring && t in ring ==>
          IndexOf(ring, t) <= IndexOf(ring, u))
  }

  lemma IdleIsFirst<T>(s: Scheduler<T>, idle: T, w: Option<T>)
    requires Sound(s, idle) && Known(s) && FirstWaiting(s, IDLE_PID, w)
    ensures w == if idle in s.waiting then Some(idle) else None
  {
  }

  lemma IdleReadyWhereItRuns<T>(s: Scheduler<T>, idle: T)
    requires Sound(s, idle)
    ensures Known(s) && idle in s.tasks && (idle in s.running <==> idle !in s.waiting)
    ensures idle in s.running ==> s.tasks[idle].state == READY
  {
  }

  lemma FirstReadyIsNearest<T>(s: Scheduler<T>, c: T, k: nat)
    requires Known(s) && c in s.running && Distinct(s.running)
    requires k < |After(s.running, c)|
    requires forall t :: t in After(s.running, c) ==> t in s.tasks
    requires k == FirstReady(After(s.running, c), s.tasks, 0)
    ensures NearestReady(s, c, After(s.running, c)[k])
  {
    hide After, Distinct;
    AfterElements(s.running, c);
    var ring := After(s.running, c);
    assert ring[k] in ring;
  }

  /** switch_task on a sound scheduler. */
  lemma SwitchTaskEffect<T>(s: Scheduler<T>, idle: T, dma: bool) returns (w: Option<T>)
    requires Sound(s, idle)
    ensures Known(s) && (s.currentlyRunning.Some? ==> CurrentInRing(s))
    ensures w == if WakesIdle(s, dma) && idle in s.waiting then Some(idle) else None
    ensures var r := SwitchTask(s, dma);
      && Joins(s, r, w) && OthersStay(s, r, w) && BecomesReady(s, r, w)
      && CurrentInRing(r) && r.taskToPreserve == r.currentlyRunning
      && (s.currentlyRunning == None ==> r.currentlyRunning == Some(idle))
      && (s.currentlyRunning.Some? ==> s.currentlyRunning.value in r.running)
      && (s.currentlyRunning.Some? ==> NearestReady(r, s.currentlyRunning.value, r.currentlyRunning.value))
  {
    hide Sound, Distinct, Joins, OthersStay, BecomesReady, FirstWaiting, Wakeup, WakeOrForceIdle, After, FirstReady,
      NearestReady, DeadTasks;
    SoundParts(s, idle);
    IdleReadyWhereItRuns(s, idle);
    var u := WakeupEffect(s, idle, IDLE_PID);
    IdleIsFirst(s, idle, u);
    WakeupSound(s, idle, IDLE_PID);
    IdleIsDispatched(s, idle);
    if s.currentlyRunning == None {
      w := u;
      DispatchedJoins(s, Wakeup(s, IDLE_PID), idle, w);
    } else {
      var c := s.currentlyRunning.value;
      var x := if dma then Wakeup(s, IDLE_PID) else s;
      w := if dma then u else None;
      if !dma { NobodyMoves(s); }
      SoundParts(x, idle);
      IdleReadyWhereItRuns(x, idle);
      AfterElements(x.running, c);
      var ring := After(x.running, c);
      var k := FirstReady(ring, x.tasks, 0);
      if k < |ring| {
        FirstReadyIsNearest(x, c, k);
        assert ring[k] in ring;
        DispatchedJoins(s, x, ring[k], w);
        NearestStays(x, c, ring[k]);
        NearestRuns(x, c, ring[k]);
      } else {
        NoneReady(x, c);
        assert idle !in x.running && !dma;
        w := u;
        DispatchedJoins(s, Wakeup(s, IDLE_PID), idle, w);
        StaysRunning(s, Wakeup(s, IDLE_PID), w, c);
        OnlyIdleReady(s, idle, Wakeup(s, IDLE_PID), c);
        NearestStays(Wakeup(s, IDLE_PID), c, idle);
      }
    }
  }

  lemma NearestRuns<T>(s: Scheduler<T>, c: T, t: T)
    requires Known(s) && c in s.running && NearestReady(s, c, t)
    ensures t in s.running && s.tasks[t].state == READY
  {
  }

  lemma DispatchedJoins<T>(s: Scheduler<T>, x: Scheduler<T>, t: T, w: Option<T>)
    requires Joins(s, x, w) && OthersStay(s, x, w) && BecomesReady(s, x, w)
    ensures var r := Dispatch(x, Some(t)); Joins(s, r, w) && OthersStay(s, r, w) && BecomesReady(s, r, w)
  {
    hide InOrder;
  }

  lemma StaysRunning<T>(s: Scheduler<T>, r: Scheduler<T>, w: Option<T>, t: T)
    requires Joins(s, r, w) && t in s.running
    ensures t in r.running
  {
    hide InOrder;
  }

  lemma NobodyMoves<T>(s: Scheduler<T>)
    requires Distinct(s.running) && Distinct(s.waiting)
    ensures Joins(s, s, None) && OthersStay(s, s, None) && BecomesReady(s, s, None)
  {
    hide Distinct, Joins;
    NobodyJoins(s, s);
  }

  lemma NearestStays<T>(s: Scheduler<T>, c: T, t: T)
    requires Known(s) && c in s.running && NearestReady(s, c, t)
    ensures Known(Dispatch(s, Some(t))) && NearestReady(Dispatch(s, Some(t)), c, t)
  {
    hide After, IndexOf;
  }

  lemma NoneReady<T>(s: Scheduler<T>, c: T)
    requires Known(s) && c in s.running && forall t :: t in After(s.running, c) ==> t in s.tasks
    requires FirstReady(After(s.running, c), s.tasks, 0) == |After(s.running, c)|
    ensures forall t :: t in s.running ==> s.tasks[t].state != READY
  {
    hide After, FirstReady;
    AfterElements(s.running, c);
    var ring := After(s.running, c);
    forall t | t in s.running ensures s.tasks[t].state != READY {
      var i :| 0 <= i < |ring| && ring[i] == t;
      assert s.tasks[ring[i]].state != READY;
    }
  }

  lemma OnlyIdleReady<T>(s: Scheduler<T>, idle: T, r: Scheduler<T>, c: T)
    requires Known(s) && Known(r) && c in s.running && c in r.running
    requires Joins(s, r, Some(idle)) && OthersStay(s, r, Some(idle)) && BecomesReady(s, r, Some(idle))
    requires idle !in s.running && forall t :: t in s.running ==> s.tasks[t].state != READY
    ensures NearestReady(r, c, idle)
  {
    hide After, IndexOf, InOrder;
  }

  /** What pendsv_isr stores in each TCB: the stack pointer of the task that it preserves, and READY for
      idle if it woke it. */
  ghost predicate Stored<T>(m: Machine<T>, r: Scheduler<T>, w: Option<T>)
    requires Inv(m)
  {
    var s := m.sched;
    && r.tasks.Keys == s.tasks.Keys
    && forall t :: t in s.tasks ==>
      r.tasks[t] == Task(s.tasks[t].pid, if w == Some(t) then READY else s.tasks[t].state,
                               if t == m.executing then m.psp else s.tasks[t].sp)
  }

  /** A context switch. It moves idle, and no other task, to the running ring: exactly if idle waits and
      no task is current, an external task was transferred, or no running task is READY. From NULL it
      dispatches idle, and else the first READY task behind the current one, idle included if it was
      moved. It loads the stack pointer that this task left with. */
  lemma PendSvEffect<T>(m: Machine<T>, dma: bool) returns (w: Option<T>)
    requires Inv(m) && m.pending
    ensures var s, r := m.sched, Step(m, PendSV(dma));
      && Known(s) && Known(r.sched)
      && w == (if WakesIdle(s, dma) && m.idle in s.waiting then Some(m.idle) else None)
      && Joins(s, r.sched, w) && Stored(m, r.sched, w)
      && !r.pending && r.sched.currentlyRunning == Some(r.executing) && r.executing in s.tasks
      && (s.currentlyRunning == None ==> r.executing == m.idle)
      && (s.currentlyRunning.Some? ==> s.currentlyRunning.value in r.sched.running)
      && (s.currentlyRunning.Some? ==> NearestReady(r.sched, s.currentlyRunning.value, r.executing))
      && r.psp == (if r.executing == m.executing then m.psp else s.tasks[r.executing].sp)
  {
    hide Sound, Joins, NearestReady, SwitchTask, DeadTasks, WakesIdle, Stored, OthersStay, BecomesReady;
    var s, x := m.sched, SavePsp(m.sched, m.psp);
    SoundParts(s, m.idle);
    SavePspSound(s, m.idle, m.psp);
    SavedWakesIdle(m, x, dma);
    w := SwitchTaskEffect(x, m.idle, dma);
    SwitchTaskDispatches(x, m.idle, dma);
    var r := SwitchTask(x, dma);
    SavedJoins(s, x, r, w);
    SoundParts(r, m.idle);
    SavedStored(m, x, r, w);
  }

  lemma SavedWakesIdle<T>(m: Machine<T>, x: Scheduler<T>, dma: bool)
    requires Inv(m) && x == SavePsp(m.sched, m.psp)
    ensures Known(m.sched) && Known(x) && (WakesIdle(x, dma) <==> WakesIdle(m.sched, dma))
  {
  }

  lemma SavedStored<T>(m: Machine<T>, x: Scheduler<T>, r: Scheduler<T>, w: Option<T>)
    requires Inv(m) && x == SavePsp(m.sched, m.psp) && OthersStay(x, r, w) && BecomesReady(x, r, w)
    ensures Stored(m, r, w) && r.tasks.Keys == m.sched.tasks.Keys
    ensures forall t :: t in r.tasks ==> r.tasks[t].sp == if t == m.executing then m.psp else m.sched.tasks[t].sp
  {
    hide Sound;
  }

  lemma SavedJoins<T>(s: Scheduler<T>, x: Scheduler<T>, r: Scheduler<T>, w: Option<T>)
    requires x.running == s.running && x.waiting == s.waiting && Joins(x, r, w)
    ensures Joins(s, r, w)
  {
    hide InOrder;
  }

  /** So after a PendSV that finds the flag of a transferred external task and a current task, idle is
      READY in the running ring, and the other tasks keep their rings and their order. */
  lemma TransferWakesIdle<T>(m: Machine<T>)
    requires Inv(m) && m.pending && m.sched.currentlyRunning.Some?
    ensures var r := Step(m, PendSV(true)).sched;
      && m.idle in r.running && m.idle !in r.waiting && m.idle in r.tasks && r.tasks[m.idle].state == READY
      && (forall t :: t in r.waiting <==> t in m.sched.waiting && t != m.idle)
      && InOrder(m.sched.waiting, r.waiting) && InOrder(m.sched.running, r.running)
  {
    hide Sound, InOrder, NearestReady, DeadTasks;
    var w := PendSvEffect(m, true);
    IdleReadyWhereItRuns(m.sched, m.idle);
  }

  /** Over every run: once a PendSV has found the flag, idle, which creates the external task, is
      dispatched within as many switches as there are running tasks, plus one for each arrival. */
  lemma TransferIsServed<T>(m: Machine<T>, events: seq<Event<T>>)
    requires Inv(m) && CanRun(m, events) && events != [] && events[0] == PendSV(true)
    requires TotalSwitches(events[1..])
      >= |Step(m, events[0]).sched.running| + TotalArrivals(events[1..])
    ensures Dispatched(m, events, m.idle)
  {
    hide Inv, Step, Distance, Waits;
    var r := Step(m, events[0]);
    StepKeepsInv(m, events[0]);
    IdleWaitsItsTurn(m);
    if r.executing != m.idle {
      BoundedBypass(r, events[1..], m.idle);
    }
  }

  lemma IdleWaitsItsTurn<T>(m: Machine<T>)
    requires Inv(m) && m.pending && Inv(Step(m, PendSV(true)))
    ensures var r := Step(m, PendSV(true));
      r.executing != m.idle ==>
        && Waits(r, m.idle) && m.idle in r.sched.running && r.sched.currentlyRunning.Some?
        && r.sched.currentlyRunning.value in r.sched.running && Distance(r.sched, m.idle) <= |r.sched.running|
  {
    hide Sound, InOrder, NearestReady, DeadTasks, Step, Distance;
    var r := Step(m, PendSV(true));
    SoundParts(r.sched, r.idle);
    var w := PendSvEffect(m, true);
    if r.executing != m.idle {
      TransferWakesIdle(m);
      DistanceInRing(r.sched, m.idle);
    }
  }

  lemma DistanceInRing<T>(s: Scheduler<T>, t: T)
    requires t in s.running && s.currentlyRunning.Some? && s.currentlyRunning.value in s.running
    ensures Distance(s, t) <= |s.running|
  {
    hide After;
    AfterElements(s.running, s.currentlyRunning.value);
  }

  /** Without the flag the rings stay as they are, as long as some running task is READY. */
  lemma NoTransferLeavesRings<T>(m: Machine<T>)
    requires Inv(m) && m.pending && m.sched.currentlyRunning.Some?
    requires Known(m.sched) && exists t :: t in m.sched.running && m.sched.tasks[t].state == READY
    ensures var r := Step(m, PendSV(false)).sched;
      r.running == m.sched.running && r.waiting == m.sched.waiting
  {
    hide Sound, Distinct, InOrder, NearestReady, DeadTasks;
    var r := Step(m, PendSV(false)).sched;
    SoundParts(m.sched, m.idle);
    var w := PendSvEffect(m, false);
    StepKeepsInv(m, PendSV(false));
    SoundParts(r, m.idle);
    SameOrder(m.sched.running);
    SameOrder(m.sched.waiting);
    OrderDetermines(m.sched.running, r.running, m.sched.running, None);
    OrderDetermines(m.sched.waiting, r.waiting, m.sched.waiting, None);
  }

  // ---------- the reaper ----------

  /** A pass of the reaper leaves tasks out of the running ring and changes nothing else. */
  lemma {:induction false} ReapOrder<T>(s: Scheduler<T>, idle: T, q: T, j: nat)
    requires Sound(s, idle) && q in s.running && CurrentInRing(s)
    requires !IsDead(s.tasks[s.currentlyRunning.value])
    ensures Distinct(s.running) && forall t :: t in s.running ==> t in s.tasks
    ensures var r := ReapFrom(s, q, j);
      InOrder(s.running, r.running) && r.waiting == s.waiting && forall t :: t in r.running ==> t in s.running
    decreases |s.running| - j
  {
    hide Sound, Distinct, IsDead, DeadTasks, Next, InOrder, Minus, ReapFrom;
    SoundParts(s, idle);
    UnfoldReaps(s, idle, q, j);
    if j >= |s.running| {
      SameOrder(s.running);
    } else if IsDead(s.tasks[q]) {
      var x, next := Reaped(s, q), Next(s.running, q);
      ReapedSound(s, idle, q);
      SoundParts(x, idle);
      MinusElements(s.running, q);
      OrderWithout(s.running, q);
      ReapOrder(x, idle, next, j + 1);
      OrderOfTwo(s.running, x.running, ReapFrom(x, next, j + 1).running);
    } else {
      ReapOrder(s, idle, Next(s.running, q), j + 1);
    }
  }

  /** One round of the pass. */
  lemma UnfoldReaps<T>(s: Scheduler<T>, idle: T, q: T, j: nat)
    requires Sound(s, idle) && q in s.running && CurrentInRing(s) && !IsDead(s.tasks[s.currentlyRunning.value])
    ensures Distinct(s.running) && Next(s.running, q) in s.running
    ensures j >= |s.running| ==> ReapFrom(s, q, j) == s
    ensures j < |s.running| && !IsDead(s.tasks[q]) ==> ReapFrom(s, q, j) == ReapFrom(s, Next(s.running, q), j + 1)
    ensures j < |s.running| && IsDead(s.tasks[q]) ==>
      && |Reaped(s, q).running| == |s.running| - 1
      && CurrentInRing(Reaped(s, q)) && !IsDead(Reaped(s, q).tasks[s.currentlyRunning.value])
      && Distinct(Reaped(s, q).running) && Next(s.running, q) in Reaped(s, q).running
      && ReapFrom(s, q, j) == ReapFrom(Reaped(s, q), Next(s.running, q), j + 1)
  {
    hide Sound, Distinct, IsDead, DeadTasks;
    SoundParts(s, idle);
    NextInRing(s.running, q);
    MinusElements(s.running, q);
    if IsDead(s.tasks[q]) {
      ReapedSound(s, idle, q);
      SoundParts(Reaped(s, q), idle);
      NextStays(s.running, q);
    }
  }

  lemma NextStays<T>(ring: seq<T>, q: T)
    requires Distinct(ring) && q in ring
    ensures |ring| > 1 ==> Next(ring, q) in Minus(ring, q)
  {
    MinusElements(ring, q);
  }

  // ---------- all events ----------

  /** Only a context switch changes who executes, only it and the computing task itself move the stack
      pointer, only block_current_task moves the current node, and exactly block, yield, finish and
      fault request a switch. */
  lemma ProcessorEffect<T>(m: Machine<T>, e: Event<T>)
    requires Inv(m) && Enabled(m, e) && !e.PendSV?
    ensures var r := Step(m, e);
      && r.executing == m.executing && r.idle == m.idle
      && r.psp == (if e.Compute? then e.psp else m.psp)
      && (r.pending <==> m.pending || e.Block? || e.Yield? || e.Finish? || e.Invalidate?)
      && (!e.Block? ==> r.sched.currentlyRunning == m.sched.currentlyRunning)
      && (!e.Block? ==> r.sched.taskToPreserve == m.sched.taskToPreserve)
  {
    hide Sound, Distinct, InOrder, IsDead, DeadTasks, ReapFrom;
    SoundParts(m.sched, m.idle);
    if e.Reap? {
      ReadyIsAlive(m);
      ReapFromSound(m.sched, m.idle, m.executing, 0);
    }
  }

  /** No event reorders a ring: who stays keeps the order from head to tail, and who comes is last. */
  lemma StepKeepsOrder<T>(m: Machine<T>, e: Event<T>)
    requires Inv(m) && Enabled(m, e)
    ensures InOrder(m.sched.running, Step(m, e).sched.running)
    ensures InOrder(m.sched.waiting, Step(m, e).sched.waiting)
  {
    hide Sound, Distinct, InOrder, IsDead, DeadTasks, Wakeup, FinishTask, SwitchTask, ReapFrom, BlockCurrentTask,
      CreateTask, FirstWaiting, NearestReady;
    SoundParts(m.sched, m.idle);
    SameOrder(m.sched.running);
    SameOrder(m.sched.waiting);
    match e
    case Wake(pid) => var w := WakeEffect(m, pid);
    case Create(t, sp) =>
      CreateSound(m.sched, m.idle, t, sp);
      OrderWith(m.sched.running, m.sched.running, t);
    case Block => BlockEffect(m);
    case Yield =>
    case Finish(joined) => var w := FinishEffect(m, joined);
    case Invalidate => InvalidateEffect(m);
    case Compute(_) =>
    case Reap => ReadyIsAlive(m); ReapOrder(m.sched, m.idle, m.executing, 0);
    case PendSV(dma) => var w := PendSvEffect(m, dma);
  }
}
