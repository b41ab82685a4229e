/** Properties of whole runs of the scheduler: safety, context-switch integrity, dead tasks. */
module Runs {
  import opened Scheduling
  import opened Machines

  // ---------- runs ----------

  /** Every event is enabled when its turn comes. */
  ghost predicate CanRun<T>(m: Machine<T>, events: seq<Event<T>>)
    requires Inv(m)
    decreases |events|
  {
    if events == [] then true
    else Enabled(m, events[0]) && (StepKeepsInv(m, events[0]); CanRun(Step(m, events[0]), events[1..]))
  }

  /** The invariant holds in every reachable state. */
  ghost function Run<T>(m: Machine<T>, events: seq<Event<T>>): (r: Machine<T>)
    requires Inv(m) && CanRun(m, events)
    ensures Inv(r)
    decreases |events|
  {
    if events == [] then m
    else StepKeepsInv(m, events[0]); Run(Step(m, events[0]), events[1..])
  }

  /** setup_kernel_runtime: idle was created WAITING, then run_scheduler woke it. */
  ghost function Boot<T>(idle: T, sp: int): Machine<T> {
    var s: Scheduler<T> := Scheduler([], [], map[], None, None, 0);
    var w := Wakeup(CreateTask(s, idle, sp), IDLE_PID);
    Machine(Dispatch(w, Some(idle)), idle, idle, sp, false)
  }

  lemma BootInv<T>(idle: T, sp: int)
    ensures Inv(Boot(idle, sp))
    ensures Boot(idle, sp).sched.running == [idle] && Boot(idle, sp).sched.waiting == []
  {
    var s: Scheduler<T> := Scheduler([], [], map[], None, None, 0);
    var c := CreateTask(s, idle, sp);
    assert c.waiting == [idle];
    assert Find(c.waiting, c.tasks, IDLE_PID, 0) == 0;
    var b := Boot(idle, sp);
    assert b.sched.tasks == map[idle := Task(0, READY, sp)];
    assert DeadTasks(b.sched.tasks) == {};
  }

  /** The boot state is what run_scheduler makes of a scheduler with only idle in it. */
  lemma BootIsRunScheduler<T>(idle: T, sp: int)
    ensures var s: Scheduler<T> := Scheduler([], [], map[], None, None, 0);
      var c := CreateTask(s, idle, sp);
      && c.running == [] && Wakeup(c, IDLE_PID).running == [idle]
      && Dispatch(Wakeup(c, IDLE_PID), Some(Wakeup(c, IDLE_PID).running[0])) == Boot(idle, sp).sched
  {
    BootInv(idle, sp);
  }

  // ---------- context-switch integrity ----------

  /** Task t does not execute anywhere in this part of a run, and is not created in it. */
  ghost predicate Sleeps<T>(m: Machine<T>, events: seq<Event<T>>, t: T)
    requires Inv(m) && CanRun(m, events)
    decreases |events|
  {
    m.executing != t &&
    (events != [] ==>
      && !(events[0].Create? && events[0].task == t)
      && (StepKeepsInv(m, events[0]); Sleeps(Step(m, events[0]), events[1..], t)))
  }

  /** Common tasks agree in everything but their states. */
  ghost predicate SameButState<T>(a: map<T, Task>, b: map<T, Task>) {
    forall t :: t in a && t in b ==> a[t].sp == b[t].sp && a[t].pid == b[t].pid
  }

  lemma WakeupKeepsSp<T>(s: Scheduler<T>, pid: nat)
    requires Known(s)
    ensures SameButState(s.tasks, Wakeup(s, pid).tasks)
  {
    WokenIsWaiting(s, pid);
  }

  lemma SwitchTaskKeepsSp<T>(s: Scheduler<T>, idle: T, dma: bool)
    requires Sound(s, idle)
    ensures Known(s) && (s.currentlyRunning.Some? ==> CurrentInRing(s))
    ensures SameButState(s.tasks, SwitchTask(s, dma).tasks)
    ensures forall t :: t in s.tasks <==> t in SwitchTask(s, dma).tasks
  {
    hide Sound, DeadTasks, WakeOrForceIdle, Wakeup, FirstReady, After;
    SoundParts(s, idle);
    WakeupSound(s, idle, IDLE_PID);
    WakeupKeepsSp(s, IDLE_PID);
    var w := if s.currentlyRunning.Some? && dma then Wakeup(s, IDLE_PID) else s;
    IdleIsDispatched(w, idle);
    WakeupSound(w, idle, IDLE_PID);
    WakeupKeepsSp(w, IDLE_PID);
  }

  /** Only the PendSV that switches away from a task writes the stack pointer in its TCB. */
  lemma SavedPspIsKept<T>(m: Machine<T>, e: Event<T>, t: T)
    requires Inv(m) && Enabled(m, e) && m.executing != t && t in m.sched.tasks
    ensures t in Step(m, e).sched.tasks ==> Step(m, e).sched.tasks[t].sp == m.sched.tasks[t].sp
  {
    hide Sound, DeadTasks, SwitchTask, ReapFrom, Wakeup;
    SoundParts(m.sched, m.idle);
    match e
    case Wake(pid) => WakeupKeepsSp(m.sched, pid);
    case Create(_, _) =>
    case Block =>
    case Yield =>
    case Finish(joined) =>
      FinishKeepsSp(m.sched, m.idle, joined);
    case Invalidate =>
    case Compute(_) =>
    case Reap => ReadyIsAlive(m); ReapFromSound(m.sched, m.idle, m.executing, 0);
    case PendSV(dma) =>
      var s := SavePsp(m.sched, m.psp);
      SavePspSound(m.sched, m.idle, m.psp);
      SwitchTaskKeepsSp(s, m.idle, dma);
  }

  lemma FinishKeepsSp<T>(s: Scheduler<T>, idle: T, joined: Option<nat>)
    requires Sound(s, idle) && CurrentInRing(s)
    ensures SameButState(s.tasks, FinishTask(s, joined).tasks)
  {
    var t := s.currentlyRunning.value;
    var f := s.(tasks := s.tasks[t := s.tasks[t].(state := FINISHED)]);
    if joined.Some? {
      WakeupKeepsSp(f, joined.value);
      WokenIsWaiting(f, joined.value);
    }
  }

  /** A task that does not execute in a run finds, when the PendSV at the end of the run
      dispatches it, exactly the stack pointer its TCB held at the start. */
  lemma {:induction false} DispatchLoadsSavedPsp<T>(m: Machine<T>, events: seq<Event<T>>, t: T, dma: bool)
    requires Inv(m) && CanRun(m, events) && Sleeps(m, events, t) && t in m.sched.tasks
    requires Enabled(Run(m, events), PendSV(dma)) && Step(Run(m, events), PendSV(dma)).executing == t
    ensures Step(Run(m, events), PendSV(dma)).psp == m.sched.tasks[t].sp
    decreases |events|
  {
    hide Inv;
    if events == [] {
      LoadsSp(m, dma, t);
    } else {
      var m' := Step(m, events[0]);
      StepKeepsInv(m, events[0]);
      SavedPspIsKept(m, events[0], t);
      if t in m'.sched.tasks {
        DispatchLoadsSavedPsp(m', events[1..], t, dma);
      } else {
        GoneStaysGone(m', events[1..], t, dma);
      }
    }
  }

  lemma LoadsSp<T>(m: Machine<T>, dma: bool, t: T)
    requires Inv(m) && m.pending && m.executing != t && t in m.sched.tasks
    requires Step(m, PendSV(dma)).executing == t
    ensures Step(m, PendSV(dma)).psp == m.sched.tasks[t].sp
  {
    hide Sound, SwitchTask;
    SavePspSound(m.sched, m.idle, m.psp);
    SwitchTaskDispatches(SavePsp(m.sched, m.psp), m.idle, dma);
    SavedPspIsKept(m, PendSV(dma), t);
    SwitchTaskKeepsSp(SavePsp(m.sched, m.psp), m.idle, dma);
  }

  lemma {:induction false} GoneStaysGone<T>(m: Machine<T>, events: seq<Event<T>>, t: T, dma: bool)
    requires Inv(m) && CanRun(m, events) && Sleeps(m, events, t) && t !in m.sched.tasks
    requires Enabled(Run(m, events), PendSV(dma))
    ensures Step(Run(m, events), PendSV(dma)).executing != t
    decreases |events|
  {
    if events == [] {
      StepKeepsInv(m, PendSV(dma));
      OnlyCreateAdds(m, PendSV(dma), t);
    } else {
      StepKeepsInv(m, events[0]);
      OnlyCreateAdds(m, events[0], t);
      GoneStaysGone(Step(m, events[0]), events[1..], t, dma);
    }
  }

  lemma OnlyCreateAdds<T>(m: Machine<T>, e: Event<T>, t: T)
    requires Inv(m) && Enabled(m, e) && t !in m.sched.tasks && !(e.Create? && e.task == t)
    ensures t !in Step(m, e).sched.tasks
  {
    hide Sound, DeadTasks, SwitchTask, ReapFrom, Wakeup, FinishTask;
    SoundParts(m.sched, m.idle);
    match e
    case Wake(pid) => WakeupSound(m.sched, m.idle, pid);
    case Create(_, _) =>
    case Block =>
    case Yield =>
    case Finish(joined) => ReadyIsAlive(m); FinishSound(m.sched, m.idle, joined);
    case Invalidate =>
    case Compute(_) =>
    case Reap => ReadyIsAlive(m); ReapFromSound(m.sched, m.idle, m.executing, 0);
    case PendSV(dma) =>
      SavePspSound(m.sched, m.idle, m.psp);
      SwitchTaskKeepsSp(SavePsp(m.sched, m.psp), m.idle, dma);
  }

  /** Context-switch integrity: whatever happens in between, a task that is switched away from,
      also after it blocked or was woken again before the PendSV, resumes with exactly the stack
      pointer it left with. */
  lemma TaskResumesWhereItLeft<T>(m: Machine<T>, dma: bool, events: seq<Event<T>>, dma': bool)
    requires Inv(m) && m.pending
    ensures Inv(Step(m, PendSV(dma)))
    ensures Step(m, PendSV(dma)).executing == m.executing ==> Step(m, PendSV(dma)).psp == m.psp
    ensures
      (CanRun(Step(m, PendSV(dma)), events)
        && Sleeps(Step(m, PendSV(dma)), events, m.executing)
        && Enabled(Run(Step(m, PendSV(dma)), events), PendSV(dma'))
        && Step(Run(Step(m, PendSV(dma)), events), PendSV(dma')).executing == m.executing)
      ==> Step(Run(Step(m, PendSV(dma)), events), PendSV(dma')).psp == m.psp
  {
    hide Sound, SwitchTask, DeadTasks;
    StepKeepsInv(m, PendSV(dma));
    var m' := Step(m, PendSV(dma));
    var s := SavePsp(m.sched, m.psp);
    SavePspSound(m.sched, m.idle, m.psp);
    SwitchTaskDispatches(s, m.idle, dma);
    SwitchTaskKeepsSp(s, m.idle, dma);
    assert m'.sched.tasks[m.executing].sp == m.psp;
    if && CanRun(m', events) && Sleeps(m', events, m.executing)
       && Enabled(Run(m', events), PendSV(dma'))
       && Step(Run(m', events), PendSV(dma')).executing == m.executing {
      DispatchLoadsSavedPsp(m', events, m.executing, dma');
    }
  }

  /** ... and a new task starts with the stack pointer that create_task prepared. */
  lemma TaskStartsAtItsFrame<T>(m: Machine<T>, t: T, frame: int, events: seq<Event<T>>, dma: bool)
    requires Inv(m) && Enabled(m, Create(t, frame))
    ensures Inv(Step(m, Create(t, frame)))
    ensures
      (CanRun(Step(m, Create(t, frame)), events)
        && Sleeps(Step(m, Create(t, frame)), events, t)
        && Enabled(Run(Step(m, Create(t, frame)), events), PendSV(dma))
        && Step(Run(Step(m, Create(t, frame)), events), PendSV(dma)).executing == t)
      ==> Step(Run(Step(m, Create(t, frame)), events), PendSV(dma)).psp == frame
  {
    hide Sound, SwitchTask, DeadTasks;
    StepKeepsInv(m, Create(t, frame));
    CreateSound(m.sched, m.idle, t, frame);
    var m' := Step(m, Create(t, frame));
    if && CanRun(m', events) && Sleeps(m', events, t)
       && Enabled(Run(m', events), PendSV(dma))
       && Step(Run(m', events), PendSV(dma)).executing == t {
      DispatchLoadsSavedPsp(m', events, t, dma);
    }
  }

  // ---------- dead tasks ----------

  /** A FINISHED or INVALID task stays so until it is reaped, and no PendSV dispatches it. */
  lemma DeadStaysDead<T>(m: Machine<T>, e: Event<T>, t: T)
    requires Inv(m) && Enabled(m, e) && t in m.sched.tasks && IsDead(m.sched.tasks[t])
    ensures t in Step(m, e).sched.tasks ==>
      Step(m, e).sched.tasks[t].state == m.sched.tasks[t].state
    ensures e.PendSV? ==> Step(m, e).executing != t
  {
    hide Sound, DeadTasks, SwitchTask, ReapFrom, FinishTask;
    SoundParts(m.sched, m.idle);
    DeadRuns(m.sched, m.idle, t);
    match e
    case Wake(pid) => WakeupSound(m.sched, m.idle, pid);
    case Create(_, _) =>
    case Block =>
    case Yield =>
    case Finish(joined) => FinishKeepsDead(m.sched, m.idle, joined, t);
    case Invalidate =>
    case Compute(_) =>
    case Reap => ReadyIsAlive(m); ReapFromSound(m.sched, m.idle, m.executing, 0);
    case PendSV(dma) =>
      SavePspSound(m.sched, m.idle, m.psp);
      SwitchTaskDispatches(SavePsp(m.sched, m.psp), m.idle, dma);
      SwitchTaskKeepsDead(SavePsp(m.sched, m.psp), m.idle, dma, t);
  }

  lemma DeadRuns<T>(s: Scheduler<T>, idle: T, t: T)
    requires Sound(s, idle) && t in s.tasks && IsDead(s.tasks[t])
    ensures t in s.running && t !in s.waiting
  {
  }

  lemma FinishKeepsDead<T>(s: Scheduler<T>, idle: T, joined: Option<nat>, t: T)
    requires Sound(s, idle) && CurrentInRing(s) && t in s.tasks && IsDead(s.tasks[t])
    requires s.tasks[s.currentlyRunning.value].state == READY
    ensures FinishTask(s, joined).tasks[t].state == s.tasks[t].state
  {
    var f := s.(tasks := s.tasks[s.currentlyRunning.value := s.tasks[s.currentlyRunning.value].(state := FINISHED)]);
    if joined.Some? {
      WokenIsWaiting(f, joined.value);
    }
  }

  lemma SwitchTaskKeepsDead<T>(s: Scheduler<T>, idle: T, dma: bool, t: T)
    requires Sound(s, idle) && t in s.tasks && IsDead(s.tasks[t])
    ensures Known(s) && (s.currentlyRunning.Some? ==> CurrentInRing(s))
    ensures t in SwitchTask(s, dma).tasks && SwitchTask(s, dma).tasks[t] == s.tasks[t]
  {
    hide Sound, DeadTasks, WakeOrForceIdle, Wakeup, FirstReady, After;
    SoundParts(s, idle);
    DeadRuns(s, idle, t);
    WakeupSound(s, idle, IDLE_PID);
    var w := if s.currentlyRunning.Some? && dma then Wakeup(s, IDLE_PID) else s;
    DeadRuns(w, idle, t);
    IdleIsDispatched(w, idle);
    WakeupSound(w, idle, IDLE_PID);
  }

  /** Some PendSV of this part of a run dispatches t. */
  ghost predicate Dispatched<T>(m: Machine<T>, events: seq<Event<T>>, t: T)
    requires Inv(m) && CanRun(m, events)
    decreases |events|
  {
    events != [] && (
      || (events[0].PendSV? && Step(m, events[0]).executing == t)
      || (StepKeepsInv(m, events[0]); Dispatched(Step(m, events[0]), events[1..], t)))
  }

  ghost predicate Creates<T>(events: seq<Event<T>>, t: T) {
    exists i :: 0 <= i < |events| && events[i].Create? && events[i].task == t
  }

  /** Over any run: once dead, never dispatched again (node addresses are reused only by a
      creation, which the run is asked not to contain). */
  lemma {:induction false} DeadNeverDispatched<T>(m: Machine<T>, events: seq<Event<T>>, t: T)
    requires Inv(m) && CanRun(m, events) && !Creates(events, t)
    requires t in m.sched.tasks ==> IsDead(m.sched.tasks[t])
    ensures !Dispatched(m, events, t)
    decreases |events|
  {
    hide Inv;
    if events != [] {
      var e, m' := events[0], Step(m, events[0]);
      StepKeepsInv(m, e);
      assert !(e.Create? && e.task == t);
      if t in m.sched.tasks {
        DeadStaysDead(m, e, t);
      } else {
        OnlyCreateAdds(m, e, t);
        ExecutingIsTask(m');
      }
      assert !Creates(events[1..], t) by {
        forall i | 0 <= i < |events[1..]| ensures !(events[1..][i].Create? && events[1..][i].task == t) {
          assert events[1..][i] == events[i + 1];
        }
      }
      DeadNeverDispatched(m', events[1..], t);
    }
  }

  lemma ExecutingIsTask<T>(m: Machine<T>)
    requires Inv(m)
    ensures m.executing in m.sched.tasks
  {
  }
}
