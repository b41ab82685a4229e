/** The scheduler together with the processor: which task executes, on which stack pointer, and
    whether a PendSV is pending. A run is any sequence of the events below; interrupts wake
    tasks at any point, also between the moment a task has blocked and the PendSV that
    switches away from it. */
module Machines {
  import opened Scheduling

  datatype Machine<T(==)> = Machine(
    sched: Scheduler<T>,
    idle: T,          // the node of the idle task
    executing: T,     // the task whose code the processor runs
    psp: int,         // the process stack pointer
    pending: bool)    // a PendSV was requested; no task code runs until it is served

  datatype Event<T> =
    | Wake(pid: nat)                          // wakeup_pid from an interrupt or a service call
    | Create(task: T, frame: int)             // create_task with its initial stack pointer
    | Block                                   // block_current_task
    | Yield                                   // the yieldTask service call
    | Finish(joined: Option<nat>)             // finish_task
    | Invalidate                              // a fault of a task other than idle
    | Compute(psp: int)                       // task code moves the stack pointer
    | Reap                                    // the gate of idle_runner and search_invalidate_tasks
    | PendSV(externalTaskTransfered: bool)    // pendsv_isr

  // ---------- the invariant ----------

  predicate WellQueued<T(==)>(s: Scheduler<T>) {
    && Known(s)
    && (forall t :: t in s.tasks ==> t in s.running || t in s.waiting)
    && (forall t :: t in s.running ==> t !in s.waiting)
    && (forall t :: t in s.waiting ==> s.tasks[t].state == WAITING)
    && (forall t :: t in s.running ==> s.tasks[t].state == READY || IsDead(s.tasks[t]))
  }

  function DeadTasks<T(==)>(tasks: map<T, Task>): set<T> {
    set t | t in tasks && IsDead(tasks[t])
  }

  predicate IdleIsFit<T(==)>(s: Scheduler<T>, idle: T) {
    && idle in s.tasks
    && (forall t :: t in s.tasks ==> (s.tasks[t].pid == IDLE_PID <==> t == idle))
    && !IsDead(s.tasks[idle])
  }

  /** What every operation preserves about the queues and the tasks. */
  ghost predicate Sound<T>(s: Scheduler<T>, idle: T) {
    && Distinct(s.running) && Distinct(s.waiting)
    && WellQueued(s)
    && IdleIsFit(s, idle)
    && (s.currentlyRunning.Some? ==> s.currentlyRunning.value in s.running)
    && s.cleanUpRequests == |DeadTasks(s.tasks)| % 16
  }

  ghost predicate Inv<T>(m: Machine<T>) {
    && Sound(m.sched, m.idle)
    && m.sched.taskToPreserve == Some(m.executing)
    && m.executing in m.sched.tasks
    && (!m.pending ==> m.sched.currentlyRunning == Some(m.executing))
    && (!m.pending ==> m.sched.tasks[m.executing].state == READY)
  }

  lemma SoundUnfolds<T>(s: Scheduler<T>, idle: T)
    ensures Sound(s, idle) <==>
      (Distinct(s.running) && Distinct(s.waiting) && WellQueued(s) && IdleIsFit(s, idle)
      && (s.currentlyRunning.Some? ==> s.currentlyRunning.value in s.running)
      && s.cleanUpRequests == |DeadTasks(s.tasks)| % 16)
    ensures Sound(s, idle) ==> Known(s)
  {
  }

  // ---------- the events ----------

  ghost predicate Enabled<T>(m: Machine<T>, e: Event<T>) {
    match e
    case Wake(_) => true
    case Create(t, _) => !m.pending && t !in m.sched.tasks && |m.sched.tasks| < 256
    case Block => !m.pending
    case Yield => !m.pending
    case Finish(_) => !m.pending && m.executing != m.idle
    case Invalidate => !m.pending && m.executing != m.idle
    case Compute(_) => !m.pending
    case Reap => !m.pending && m.executing == m.idle
    case PendSV(_) => m.pending
  }

  /** pendsv_isr: save the stack pointer to task_to_preserve, switch, load the stack pointer. */
  function SavePsp<T(==)>(s: Scheduler<T>, psp: int): Scheduler<T>
    requires s.taskToPreserve.Some? && s.taskToPreserve.value in s.tasks
  {
    var t := s.taskToPreserve.value;
    s.(tasks := s.tasks[t := s.tasks[t].(sp := psp)])
  }

  ghost function Step<T>(m: Machine<T>, e: Event<T>): Machine<T>
    requires Inv(m) && Enabled(m, e)
  {
    match e
    case Wake(pid) => m.(sched := Wakeup(m.sched, pid))
    case Create(t, sp) => m.(sched := CreateTask(m.sched, t, sp))
    case Block => m.(sched := BlockCurrentTask(m.sched), pending := true)
    case Yield => m.(pending := true)
    case Finish(joined) => m.(sched := FinishTask(m.sched, joined), pending := true)
    case Invalidate => m.(sched := InvalidateCurrentTask(m.sched), pending := true)
    case Compute(psp) => m.(psp := psp)
    case Reap => if m.sched.cleanUpRequests != 0 then m.(sched := SearchInvalidateTasks(m.sched)) else m
    case PendSV(dma) =>
      var s := SwitchTask(SavePsp(m.sched, m.psp), dma);
      if CurrentInRing(s) then
        var t := s.currentlyRunning.value;
        Machine(s, m.idle, t, s.tasks[t].sp, false)
      else m.(sched := s)
  }

  // ---------- each operation keeps the queues well-formed ----------

  lemma AppendDistinct<T>(q: seq<T>, t: T)
    requires Distinct(q) && t !in q
    ensures Distinct(q + [t])
  {
  }

  lemma WokenIsWaiting<T>(s: Scheduler<T>, pid: nat)
    requires Known(s)
    ensures Woken(s, pid).Some? ==>
      Woken(s, pid).value in s.waiting && s.tasks[Woken(s, pid).value].pid == pid
    ensures Woken(s, pid).None? <==> forall t :: t in s.waiting ==> s.tasks[t].pid != pid
  {
    var i := Find(s.waiting, s.tasks, pid, 0);
    if i == |s.waiting| {
      forall t | t in s.waiting ensures s.tasks[t].pid != pid {
        var k :| 0 <= k < |s.waiting| && s.waiting[k] == t;
      }
    }
  }

  lemma SameDead<T>(a: map<T, Task>, b: map<T, Task>)
    requires forall t :: t in a <==> t in b
    requires forall t :: t in a ==> (IsDead(a[t]) <==> IsDead(b[t]))
    ensures DeadTasks(a) == DeadTasks(b)
  {
  }

  lemma WakeupSound<T>(s: Scheduler<T>, idle: T, pid: nat)
    requires Sound(s, idle)
    ensures Known(s) && Sound(Wakeup(s, pid), idle)
    ensures forall t :: t in Wakeup(s, pid).tasks <==> t in s.tasks
    ensures forall t :: t in s.tasks ==> Wakeup(s, pid).tasks[t].(state := READY) == s.tasks[t].(state := READY)
    ensures forall t :: t in s.running ==> Wakeup(s, pid).tasks[t] == s.tasks[t]
    ensures Wakeup(s, pid).currentlyRunning == s.currentlyRunning
  {
    hide Sound, Distinct, DeadTasks, Find, WellQueued, IdleIsFit;
    SoundUnfolds(s, idle);
    WokenIsWaiting(s, pid);
    if Woken(s, pid).Some? {
      var t := Woken(s, pid).value;
      MinusElements(s.waiting, t);
      WakeQueues(s, pid);
      AppendDistinct(s.running, t);
      SameDead(s.tasks, Wakeup(s, pid).tasks);
      WakeIdle(s, idle, pid);
      SoundUnfolds(Wakeup(s, pid), idle);
    }
  }

  lemma WakeQueues<T>(s: Scheduler<T>, pid: nat)
    requires WellQueued(s) && Distinct(s.waiting) && Woken(s, pid).Some?
    ensures WellQueued(Wakeup(s, pid)) && Woken(s, pid).value !in s.running
    ensures s.tasks[Woken(s, pid).value].state == WAITING
  {
    hide Distinct, Find;
    WokenIsWaiting(s, pid);
    MinusElements(s.waiting, Woken(s, pid).value);
  }

  lemma WakeIdle<T>(s: Scheduler<T>, idle: T, pid: nat)
    requires Known(s) && IdleIsFit(s, idle)
    ensures IdleIsFit(Wakeup(s, pid), idle)
  {
    hide Find;
    WokenIsWaiting(s, pid);
  }

  lemma BlockSound<T>(s: Scheduler<T>, idle: T)
    requires Sound(s, idle) && CurrentInRing(s) && !IsDead(s.tasks[s.currentlyRunning.value])
    ensures Sound(BlockCurrentTask(s), idle)
    ensures forall t :: t in BlockCurrentTask(s).tasks <==> t in s.tasks
  {
    hide Sound, Distinct, DeadTasks, WellQueued, IdleIsFit;
    var t := s.currentlyRunning.value;
    SoundUnfolds(s, idle);
    MinusElements(s.running, t);
    BlockQueues(s);
    AppendDistinct(s.waiting, t);
    PrevIsOther(s.running, t);
    SameDead(s.tasks, BlockCurrentTask(s).tasks);
    BlockIdle(s, idle);
    SoundUnfolds(BlockCurrentTask(s), idle);
  }

  lemma BlockQueues<T>(s: Scheduler<T>)
    requires WellQueued(s) && Distinct(s.running) && CurrentInRing(s)
    ensures WellQueued(BlockCurrentTask(s)) && s.currentlyRunning.value !in s.waiting
  {
    hide Distinct, Prev;
    MinusElements(s.running, s.currentlyRunning.value);
  }

  lemma BlockIdle<T>(s: Scheduler<T>, idle: T)
    requires IdleIsFit(s, idle) && CurrentInRing(s)
    ensures IdleIsFit(BlockCurrentTask(s), idle)
  {
    hide Prev;
  }

  lemma PrevIsOther<T>(q: seq<T>, t: T)
    requires Distinct(q) && t in q
    ensures |q| > 1 ==> Prev(q, t) in Minus(q, t)
  {
    MinusElements(q, t);
  }

  lemma OneMoreDead<T>(s: Scheduler<T>, idle: T, t: T, task: Task)
    requires Sound(s, idle) && t in s.running && t != idle && !IsDead(s.tasks[t])
    requires IsDead(task) && task.pid == s.tasks[t].pid
    ensures Sound(s.(tasks := s.tasks[t := task], cleanUpRequests := (s.cleanUpRequests + 1) % 16), idle)
  {
    hide Sound, Distinct, DeadTasks, WellQueued, IdleIsFit;
    var r := s.(tasks := s.tasks[t := task], cleanUpRequests := (s.cleanUpRequests + 1) % 16);
    SoundUnfolds(s, idle);
    DeadGrows(s.tasks, t, task);
    DeadStaysQueued(s, t, task);
    IdleStaysFit(s, idle, t, task);
    SoundUnfolds(r, idle);
  }

  lemma DeadGrows<T>(tasks: map<T, Task>, t: T, task: Task)
    requires t in tasks && !IsDead(tasks[t]) && IsDead(task)
    ensures |DeadTasks(tasks[t := task])| == |DeadTasks(tasks)| + 1
  {
    assert DeadTasks(tasks[t := task]) == DeadTasks(tasks) + {t};
  }

  lemma DeadStaysQueued<T>(s: Scheduler<T>, t: T, task: Task)
    requires WellQueued(s) && t in s.running && IsDead(task)
    ensures WellQueued(s.(tasks := s.tasks[t := task], cleanUpRequests := (s.cleanUpRequests + 1) % 16))
  {
  }

  lemma IdleStaysFit<T>(s: Scheduler<T>, idle: T, t: T, task: Task)
    requires IdleIsFit(s, idle) && t in s.tasks && t != idle && task.pid == s.tasks[t].pid
    ensures IdleIsFit(s.(tasks := s.tasks[t := task], cleanUpRequests := (s.cleanUpRequests + 1) % 16), idle)
  {
  }

  lemma FinishSound<T>(s: Scheduler<T>, idle: T, joined: Option<nat>)
    requires Sound(s, idle) && CurrentInRing(s)
    requires s.currentlyRunning.value != idle && !IsDead(s.tasks[s.currentlyRunning.value])
    ensures Sound(FinishTask(s, joined), idle)
    ensures forall t :: t in FinishTask(s, joined).tasks <==> t in s.tasks
  {
    hide Sound, DeadTasks;
    var t := s.currentlyRunning.value;
    var n := (s.cleanUpRequests + 1) % 16;
    var f := s.(tasks := s.tasks[t := s.tasks[t].(state := FINISHED)]);
    OneMoreDead(s, idle, t, s.tasks[t].(state := FINISHED));
    if joined.Some? {
      WakeupSound(f.(cleanUpRequests := n), idle, joined.value);
      assert Wakeup(f, joined.value).(cleanUpRequests := n) == Wakeup(f.(cleanUpRequests := n), joined.value);
    }
  }

  // ---------- reaping ----------

  lemma ReapedSound<T>(s: Scheduler<T>, idle: T, t: T)
    requires Sound(s, idle) && t in s.running && IsDead(s.tasks[t]) && s.currentlyRunning != Some(t)
    ensures Sound(Reaped(s, t), idle)
  {
    hide Sound, Distinct, DeadTasks, WellQueued, IdleIsFit, IsDead;
    SoundUnfolds(s, idle);
    MinusElements(s.running, t);
    OneLessDead(s.tasks, t);
    ReapedQueues(s, t);
    ReapedIdle(s, idle, t);
    SoundUnfolds(Reaped(s, t), idle);
  }

  lemma ReapedQueues<T>(s: Scheduler<T>, t: T)
    requires WellQueued(s) && Distinct(s.running) && t in s.running
    ensures WellQueued(Reaped(s, t))
  {
    hide Distinct;
    MinusElements(s.running, t);
    var r := Reaped(s, t);
    assert forall u :: u in r.running <==> u in s.running && u != t;
  }

  lemma ReapedIdle<T>(s: Scheduler<T>, idle: T, t: T)
    requires IdleIsFit(s, idle) && t in s.running && t in s.tasks && IsDead(s.tasks[t])
    ensures IdleIsFit(Reaped(s, t), idle)
  {
  }

  lemma OneLessDead<T>(tasks: map<T, Task>, t: T)
    requires t in tasks && IsDead(tasks[t])
    ensures |DeadTasks(tasks - {t})| == |DeadTasks(tasks)| - 1
  {
    assert DeadTasks(tasks - {t}) == DeadTasks(tasks) - {t};
  }

  /** The reaper touches only the running ring, and only dead tasks leave it. */
  ghost predicate OnlyDeadLeft<T>(s: Scheduler<T>, r: Scheduler<T>) {
    && r.waiting == s.waiting
    && r.currentlyRunning == s.currentlyRunning && r.taskToPreserve == s.taskToPreserve
    && (forall t :: t in r.tasks ==> t in s.tasks && r.tasks[t] == s.tasks[t])
    && (forall t :: t in s.tasks && !IsDead(s.tasks[t]) ==> t in r.tasks)
  }

  lemma OneDeadLeft<T>(s: Scheduler<T>, t: T, r: Scheduler<T>)
    requires t in s.running && t in s.tasks && IsDead(s.tasks[t]) && OnlyDeadLeft(Reaped(s, t), r)
    ensures OnlyDeadLeft(s, r)
  {
  }

  lemma {:induction false} ReapFromSound<T>(s: Scheduler<T>, idle: T, q: T, j: nat)
    requires Sound(s, idle) && q in s.running && CurrentInRing(s)
    requires !IsDead(s.tasks[s.currentlyRunning.value])
    ensures Sound(ReapFrom(s, q, j), idle) && OnlyDeadLeft(s, ReapFrom(s, q, j))
    decreases |s.running| - j
  {
    hide Sound, OnlyDeadLeft, Distinct, Minus, Next;
    SoundParts(s, idle);
    OnlyDeadLeftRefl(s);
    if j < |s.running| {
      var next := Next(s.running, q);
      NextInRing(s.running, q);
      if IsDead(s.tasks[q]) {
        ReapedSound(s, idle, q);
        MinusElements(s.running, q);
        var r := Reaped(s, q);
        SoundParts(r, idle);
        OnlyDeadLeftRefl(r);
        if next in r.running {
          ReapFromSound(r, idle, next, j + 1);
        }
        OneDeadLeft(s, q, ReapFrom(s, q, j));
      } else {
        ReapFromSound(s, idle, next, j + 1);
      }
    }
  }

  lemma NextInRing<T>(q: seq<T>, t: T)
    requires t in q
    ensures Next(q, t) in q
  {
  }

  lemma OnlyDeadLeftRefl<T>(s: Scheduler<T>)
    ensures OnlyDeadLeft(s, s)
  {
  }

  lemma SoundParts<T>(s: Scheduler<T>, idle: T)
    requires Sound(s, idle)
    ensures Known(s) && Distinct(s.running) && Distinct(s.waiting)
    ensures s.currentlyRunning.Some? ==> CurrentInRing(s)
    ensures forall t :: t in s.tasks ==> t in s.running || t in s.waiting
  {
  }

  // ---------- creation ----------

  function Elements<T(==)>(q: seq<T>): set<T> { set t | t in q }

  lemma {:induction false} DistinctCount<T>(q: seq<T>)
    requires Distinct(q)
    ensures |Elements(q)| == |q|
  {
    if q != [] {
      var r, last := q[..|q| - 1], q[|q| - 1];
      LastIsOther(q);
      hide Distinct;
      DistinctCount(r);
      assert q == r + [last];
      assert Elements(q) == Elements(r) + {last};
    }
  }

  lemma LastIsOther<T>(q: seq<T>)
    requires Distinct(q) && q != []
    ensures Distinct(q[..|q| - 1]) && q[|q| - 1] !in q[..|q| - 1]
  {
  }

  /** Every task is in exactly one ring. */
  lemma TaskCount<T>(s: Scheduler<T>)
    requires Distinct(s.running) && Distinct(s.waiting) && WellQueued(s)
    ensures |s.tasks| == |s.running| + |s.waiting|
  {
    DistinctCount(s.running);
    DistinctCount(s.waiting);
    assert s.tasks.Keys == Elements(s.running) + Elements(s.waiting);
    assert Elements(s.running) !! Elements(s.waiting);
  }

  lemma NewIsAlive<T>(tasks: map<T, Task>, t: T, task: Task)
    requires t !in tasks && !IsDead(task)
    ensures DeadTasks(tasks[t := task]) == DeadTasks(tasks)
  {
  }

  lemma CreateSound<T>(s: Scheduler<T>, idle: T, t: T, sp: int)
    requires Sound(s, idle) && t !in s.tasks && |s.tasks| < 256
    ensures Sound(CreateTask(s, t, sp), idle)
    ensures CreateTask(s, t, sp).running == s.running + [t] && CreateTask(s, t, sp).waiting == s.waiting
    ensures CreateTask(s, t, sp).tasks == s.tasks[t := Task(|s.tasks|, READY, sp)]
  {
    hide Distinct, DeadTasks;
    TaskCount(s);
    assert idle in s.tasks && |s.tasks| > 0;
    AppendDistinct(s.running, t);
    NewIsAlive(s.tasks, t, Task(|s.tasks|, READY, sp));
  }

  // ---------- the context switch ----------

  lemma SavePspSound<T>(s: Scheduler<T>, idle: T, psp: int)
    requires Sound(s, idle) && s.taskToPreserve.Some? && s.taskToPreserve.value in s.tasks
    ensures Sound(SavePsp(s, psp), idle)
  {
    SameDead(s.tasks, SavePsp(s, psp).tasks);
  }

  lemma FindsUnique<T>(q: seq<T>, tasks: map<T, Task>, pid: nat, t: T)
    requires t in q && (forall u :: u in q ==> u in tasks) && tasks[t].pid == pid
    requires forall u :: u in q && tasks[u].pid == pid ==> u == t
    ensures Find(q, tasks, pid, 0) < |q| && q[Find(q, tasks, pid, 0)] == t
  {
    var k :| 0 <= k < |q| && q[k] == t;
  }

  /** Idle can always be dispatched: it is either woken or found in the running ring. */
  lemma IdleIsDispatched<T>(s: Scheduler<T>, idle: T)
    requires Sound(s, idle)
    ensures var r := WakeOrForceIdle(s);
      && Sound(r, idle) && CurrentInRing(r)
      && r.currentlyRunning == Some(idle) && r.taskToPreserve == Some(idle)
      && r.tasks[idle].state == READY
      && r == Dispatch(Wakeup(s, IDLE_PID), Some(idle))
  {
    hide Distinct, Find, Wakeup, DeadTasks;
    WakeupSound(s, idle, IDLE_PID);
    WokenIsWaiting(s, IDLE_PID);
    var w := Wakeup(s, IDLE_PID);
    if Woken(s, IDLE_PID).None? {
      IdleRuns(s, idle);
      FindsUnique(w.running, w.tasks, 0, idle);
      assert w.tasks[idle := w.tasks[idle].(state := READY)] == w.tasks;
    } else {
      IdleWoken(s, idle);
    }
  }

  lemma IdleRuns<T>(s: Scheduler<T>, idle: T)
    requires Sound(s, idle) && Woken(s, IDLE_PID).None?
    ensures Wakeup(s, IDLE_PID) == s && idle in s.running && s.tasks[idle].state == READY
  {
    WokenIsWaiting(s, IDLE_PID);
    assert idle !in s.waiting;
  }

  lemma IdleWoken<T>(s: Scheduler<T>, idle: T)
    requires Sound(s, idle) && Woken(s, IDLE_PID).Some?
    ensures Woken(s, IDLE_PID) == Some(idle) && Wakeup(s, IDLE_PID).tasks[idle].state == READY
    ensures idle in Wakeup(s, IDLE_PID).running
  {
    WokenIsWaiting(s, IDLE_PID);
  }

  /** switch_task from any sound state, also with a NULL currently_running, ends on a READY task
      of the running ring, and task_to_preserve names it. */
  lemma SwitchTaskDispatches<T>(s: Scheduler<T>, idle: T, dma: bool)
    requires Sound(s, idle)
    ensures var r := SwitchTask(s, dma);
      && Sound(r, idle) && CurrentInRing(r)
      && r.tasks[r.currentlyRunning.value].state == READY
      && r.taskToPreserve == r.currentlyRunning
  {
    hide Sound, DeadTasks, WakeOrForceIdle, Wakeup, Distinct, IndexOf, From;
    SoundParts(s, idle);
    if s.currentlyRunning.None? {
      IdleIsDispatched(s, idle);
    } else {
      WakeupSound(s, idle, IDLE_PID);
      var w := if dma then Wakeup(s, IDLE_PID) else s;
      SoundParts(w, idle);
      var ring := After(w.running, w.currentlyRunning.value);
      AfterIsRing(w.running, w.currentlyRunning.value);
      var k := FirstReady(ring, w.tasks, 0);
      if k < |ring| {
        AfterElement(w.running, w.currentlyRunning.value, k);
        DispatchSound(w, idle, ring[k]);
      } else {
        IdleIsDispatched(w, idle);
      }
    }
  }

  lemma AfterElement<T>(q: seq<T>, t: T, k: nat)
    requires t in q && k < |After(q, t)|
    ensures After(q, t)[k] in q
  {
  }

  lemma DispatchSound<T>(s: Scheduler<T>, idle: T, t: T)
    requires Sound(s, idle) && t in s.running
    ensures Sound(Dispatch(s, Some(t)), idle)
  {
  }

  // ---------- a fault of idle ----------

  /** Why the machine has no fault of idle: hardfault_handler does not look who executes. Idle then
      counts as a dead task. If no other task is READY, the next switch sets it READY again, and
      one clean-up request is left over that no pass will ever answer. */
  lemma IdleFaultBreaks<T>(s: Scheduler<T>, idle: T, dma: bool)
    requires Sound(s, idle) && s.currentlyRunning == Some(idle) && s.tasks[idle].state == READY
    ensures CurrentInRing(s)
    ensures var r := SwitchTask(InvalidateCurrentTask(s), dma);
      && (r.currentlyRunning == Some(idle) <==>
            forall t :: t in s.running && t != idle ==> s.tasks[t].state != READY)
      && (r.currentlyRunning == Some(idle) ==>
            r.tasks == s.tasks && r.cleanUpRequests != |DeadTasks(r.tasks)| % 16)
      && !Sound(r, idle)
  {
    hide Distinct, DeadTasks, Find, FirstReady, After;
    SoundParts(s, idle);
    var f := InvalidateCurrentTask(s);
    assert f.tasks[idle].state == INVALID && forall t :: t in s.tasks && t != idle ==> f.tasks[t] == s.tasks[t];
    WokenIsWaiting(f, IDLE_PID);
    assert Wakeup(f, IDLE_PID) == f;
    var ring := After(f.running, idle);
    AfterIsRing(f.running, idle);
    var k := FirstReady(ring, f.tasks, 0);
    if k < |ring| {
      assert ring[k] in f.running && ring[k] != idle;
    } else {
      forall t | t in s.running && t != idle ensures s.tasks[t].state != READY {
        var i :| 0 <= i < |ring| && ring[i] == t;
      }
      FindsUnique(f.running, f.tasks, IDLE_PID, idle);
      assert f.tasks[idle := f.tasks[idle].(state := READY)] == s.tasks;
    }
  }

  lemma AfterIsRing<T>(q: seq<T>, t: T)
    requires t in q
    ensures forall u :: u in After(q, t) <==> u in q
  {
    var i := IndexOf(q, t) + 1;
    assert q == q[..i] + q[i..];
  }

  // ---------- the invariant holds over every run ----------

  lemma StepKeepsInv<T>(m: Machine<T>, e: Event<T>)
    requires Inv(m) && Enabled(m, e)
    ensures Inv(Step(m, e))
  {
    hide Sound, DeadTasks, IsDead, SwitchTask, ReapFrom;
    SoundParts(m.sched, m.idle);
    match e
    case Wake(pid) => WakeupSound(m.sched, m.idle, pid);
    case Create(t, sp) => CreateSound(m.sched, m.idle, t, sp);
    case Block => ReadyIsAlive(m); BlockSound(m.sched, m.idle);
    case Yield =>
    case Finish(joined) => ReadyIsAlive(m); FinishSound(m.sched, m.idle, joined);
    case Invalidate =>
      ReadyIsAlive(m);
      OneMoreDead(m.sched, m.idle, m.executing, m.sched.tasks[m.executing].(state := INVALID));
    case Compute(_) =>
    case Reap => ReadyIsAlive(m); ReapFromSound(m.sched, m.idle, m.executing, 0);
    case PendSV(dma) =>
      SavePspSound(m.sched, m.idle, m.psp);
      SwitchTaskDispatches(SavePsp(m.sched, m.psp), m.idle, dma);
  }

  lemma ReadyIsAlive<T>(m: Machine<T>)
    requires Inv(m) && !m.pending
    ensures !IsDead(m.sched.tasks[m.executing])
    ensures forall s :: s == FINISHED || s == INVALID ==> IsDead(m.sched.tasks[m.executing].(state := s))
  {
  }
}
