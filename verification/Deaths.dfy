/** How tasks die: FINISHED by finish_task, INVALID by a fault (os/src/process/scheduler.c). */
module Deaths {
  import opened Scheduling
  import opened Machines
  import opened Runs
  import opened Laws

  /** The event kills t: a fault of t, or its finish. */
  ghost predicate Kills<T>(m: Machine<T>, e: Event<T>, t: T, fault: bool) {
    m.executing == t && if fault then e.Invalidate? else e.Finish?
  }

  /** Some event of this run kills t, and t is not created again after it. */
  ghost predicate KilledBy<T>(m: Machine<T>, events: seq<Event<T>>, t: T, fault: bool)
    requires Inv(m) && CanRun(m, events)
    decreases |events|
  {
    events != [] && (
      || (Kills(m, events[0], t, fault) && !Creates(events[1..], t))
      || (StepKeepsInv(m, events[0]); KilledBy(Step(m, events[0]), events[1..], t, fault)))
  }

  function Mark(fault: bool): TaskState { if fault then INVALID else FINISHED }

  /** A task is dead after an event if it was dead before, in the same way, or the event killed it. */
  lemma DiesInStep<T>(m: Machine<T>, e: Event<T>, t: T, fault: bool)
    requires Inv(m) && Enabled(m, e)
    ensures Kills(m, e, t, fault) ==> t in Step(m, e).sched.tasks && Step(m, e).sched.tasks[t].state == Mark(fault)
    ensures t in Step(m, e).sched.tasks && Step(m, e).sched.tasks[t].state == Mark(fault) ==>
      || Kills(m, e, t, fault)
      || (t in m.sched.tasks && m.sched.tasks[t].state == Mark(fault))
  {
    hide Sound, DeadTasks, Wakeup, FinishTask, SwitchTask, ReapFrom, BlockCurrentTask, CreateTask, FirstWaiting, Joins,
      NearestReady, WakesIdle;
    SoundParts(m.sched, m.idle);
    match e
    case Wake(pid) => var w := WakeEffect(m, pid);
    case Create(x, sp) => CreateSound(m.sched, m.idle, x, sp);
    case Block => BlockEffect(m);
    case Yield =>
    case Finish(joined) => var w := FinishEffect(m, joined);
    case Invalidate => InvalidateEffect(m);
    case Compute(_) =>
    case Reap => ReadyIsAlive(m); ReapFromSound(m.sched, m.idle, m.executing, 0);
    case PendSV(dma) => var w := PendSvEffect(m, dma);
  }

  lemma {:induction false} AbsentStays<T>(m: Machine<T>, events: seq<Event<T>>, t: T)
    requires Inv(m) && CanRun(m, events) && t !in m.sched.tasks && !Creates(events, t)
    ensures t !in Run(m, events).sched.tasks
    decreases |events|
  {
    hide Inv, Step, Enabled;
    if events != [] {
      CreatesInParts(events, t);
      StepKeepsInv(m, events[0]);
      OnlyCreateAdds(m, events[0], t);
      AbsentStays(Step(m, events[0]), events[1..], t);
    }
  }

  lemma CreatesInParts<T>(events: seq<Event<T>>, t: T)
    requires events != []
    ensures Creates(events, t) <==> (events[0].Create? && events[0].task == t) || Creates(events[1..], t)
  {
    var rest := events[1..];
    forall i | 0 <= i < |rest| ensures rest[i] == events[i + 1] {
    }
    if Creates(events, t) {
      var i :| 0 <= i < |events| && events[i].Create? && events[i].task == t;
      assert i > 0 ==> rest[i - 1].Create? && rest[i - 1].task == t;
    }
    if Creates(rest, t) {
      var i :| 0 <= i < |rest| && rest[i].Create? && rest[i].task == t;
      assert events[i + 1].Create? && events[i + 1].task == t;
    }
  }

  /** The way a task died is the last event that killed it, or it was so from the start. */
  lemma {:induction false} DeathHistory<T>(m: Machine<T>, events: seq<Event<T>>, t: T, fault: bool)
    requires Inv(m) && CanRun(m, events) && t in Run(m, events).sched.tasks
    ensures Run(m, events).sched.tasks[t].state == Mark(fault) <==>
      || KilledBy(m, events, t, fault)
      || (t in m.sched.tasks && m.sched.tasks[t].state == Mark(fault) && !Creates(events, t))
    decreases |events|
  {
    hide Inv, Step, Enabled, Mark, Kills;
    if events == [] {
      NothingCreated(t);
    } else {
      var e, r, rest := events[0], Step(m, events[0]), events[1..];
      StepKeepsInv(m, e);
      CreatesInParts(events, t);
      DeathHistory(r, rest, t, fault);
      DiesInStep(m, e, t, fault);
      if t in m.sched.tasks {
        MarkIsDead(m, e, t, fault);
      }
      CreatedIsNew(m, e);
      if t !in r.sched.tasks && !Creates(rest, t) {
        AbsentStays(r, rest, t);
      }
    }
  }

  lemma NothingCreated<T>(t: T)
    ensures !Creates([], t)
  {
  }

  /** A dead task stays as it is until it is reaped. */
  lemma MarkIsDead<T>(m: Machine<T>, e: Event<T>, t: T, fault: bool)
    requires Inv(m) && Enabled(m, e) && t in m.sched.tasks
    ensures m.sched.tasks[t].state == Mark(fault) && t in Step(m, e).sched.tasks ==>
      Step(m, e).sched.tasks[t].state == Mark(fault)
  {
    hide Inv, Step, Enabled;
    if m.sched.tasks[t].state == Mark(fault) {
      DeadStaysDead(m, e, t);
    }
  }

  lemma CreatedIsNew<T>(m: Machine<T>, e: Event<T>)
    requires Inv(m) && Enabled(m, e)
    ensures e.Create? ==> e.task !in m.sched.tasks
  {
  }

  /** Over any run from boot a dead task that was not reaped is INVALID if and only if a fault killed it,
      and FINISHED if and only if it finished. */
  lemma DeathsFromBoot<T>(idle: T, frame: int, events: seq<Event<T>>, t: T)
    requires Inv(Boot(idle, frame)) && CanRun(Boot(idle, frame), events)
    requires t in Run(Boot(idle, frame), events).sched.tasks
    ensures var task := Run(Boot(idle, frame), events).sched.tasks[t];
      && (task.state == INVALID <==> KilledBy(Boot(idle, frame), events, t, true))
      && (task.state == FINISHED <==> KilledBy(Boot(idle, frame), events, t, false))
  {
    hide Inv, Boot, CanRun, Run, KilledBy;
    BootIsAlive(idle, frame, t);
    DeathHistory(Boot(idle, frame), events, t, true);
    DeathHistory(Boot(idle, frame), events, t, false);
  }

  lemma BootIsAlive<T>(idle: T, frame: int, t: T)
    ensures t in Boot(idle, frame).sched.tasks ==> Boot(idle, frame).sched.tasks[t].state == READY
  {
    BootInv(idle, frame);
  }
}
