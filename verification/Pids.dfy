/** Process ids (os/src/process/task.c): a new task gets the number of existing tasks as pid. */
module Pids {
  import opened Scheduling
  import opened Machines
  import opened Runs

  /** The pids are 0..n-1, each of one task. */
  ghost predicate DensePids<T>(tasks: map<T, Task>) {
    && (forall t :: t in tasks ==> tasks[t].pid < |tasks|)
    && (forall t, u :: t in tasks && u in tasks && t != u ==> tasks[t].pid != tasks[u].pid)
  }

  lemma PidsKept<T>(m: Machine<T>, e: Event<T>)
    requires Inv(m) && Enabled(m, e) && !e.Create? && !e.Reap?
    ensures forall t :: t in Step(m, e).sched.tasks <==> t in m.sched.tasks
    ensures forall t :: t in m.sched.tasks ==> Step(m, e).sched.tasks[t].pid == m.sched.tasks[t].pid
  {
    hide Sound, DeadTasks, SwitchTask, ReapFrom, Wakeup, FinishTask;
    SoundParts(m.sched, m.idle);
    match e
    case Wake(pid) => WakeupSound(m.sched, m.idle, pid); WakeupKeepsSp(m.sched, pid);
    case Block =>
    case Yield =>
    case Finish(joined) =>
      ReadyIsAlive(m);
      FinishSound(m.sched, m.idle, joined);
      FinishKeepsSp(m.sched, m.idle, joined);
    case Invalidate =>
    case Compute(_) =>
    case PendSV(dma) =>
      SavePspSound(m.sched, m.idle, m.psp);
      SwitchTaskKeepsSp(SavePsp(m.sched, m.psp), m.idle, dma);
  }

  lemma SameSize<T>(a: map<T, Task>, b: map<T, Task>)
    requires forall t :: t in a <==> t in b
    ensures |a| == |b|
  {
    assert a.Keys == b.Keys;
    assert |a| == |a.Keys| && |b| == |b.Keys|;
  }

  /** As long as nothing is reaped the pids stay dense. */
  lemma StepKeepsDense<T>(m: Machine<T>, e: Event<T>)
    requires Inv(m) && Enabled(m, e) && !e.Reap? && DensePids(m.sched.tasks)
    ensures DensePids(Step(m, e).sched.tasks)
  {
    var tasks := Step(m, e).sched.tasks;
    if e.Create? {
      CreatedTasks(m, e);
    } else {
      PidsKept(m, e);
      SameSize(m.sched.tasks, tasks);
    }
    DenseAgain(m.sched.tasks, tasks, if e.Create? then Some(e.task) else None);
  }

  lemma DenseAgain<T>(a: map<T, Task>, b: map<T, Task>, added: Option<T>)
    requires DensePids(a) && |b| == |a| + if added.Some? then 1 else 0
    requires forall t :: t in b <==> t in a || added == Some(t)
    requires forall t :: t in a ==> added != Some(t) && b[t].pid == a[t].pid
    requires added.Some? ==> b[added.value].pid == |a|
    ensures DensePids(b)
  {
  }

  lemma CreatedTasks<T>(m: Machine<T>, e: Event<T>)
    requires Inv(m) && Enabled(m, e) && e.Create?
    ensures e.task !in m.sched.tasks
    ensures Step(m, e).sched.tasks == m.sched.tasks[e.task := Task(|m.sched.tasks|, READY, e.frame)]
    ensures |Step(m, e).sched.tasks| == |m.sched.tasks| + 1
  {
    hide Sound;
    CreateSound(m.sched, m.idle, e.task, e.frame);
    assert Step(m, e).sched.tasks.Keys == m.sched.tasks.Keys + {e.task};
  }

  lemma {:induction false} RunKeepsDense<T>(m: Machine<T>, events: seq<Event<T>>)
    requires Inv(m) && CanRun(m, events) && DensePids(m.sched.tasks)
    requires forall i :: 0 <= i < |events| ==> !events[i].Reap?
    ensures DensePids(Run(m, events).sched.tasks)
    decreases |events|
  {
    hide Inv, Step, DensePids;
    if events != [] {
      StepKeepsInv(m, events[0]);
      StepKeepsDense(m, events[0]);
      RunKeepsDense(Step(m, events[0]), events[1..]);
    }
  }

  /** From boot on, until the first reaping: the pids are exactly 0..n-1 ... */
  lemma PidsFromBoot<T>(idle: T, frame: int, events: seq<Event<T>>, pid: nat)
    requires Inv(Boot(idle, frame)) && CanRun(Boot(idle, frame), events)
    requires forall i :: 0 <= i < |events| ==> !events[i].Reap?
    ensures var tasks := Run(Boot(idle, frame), events).sched.tasks;
      && DensePids(tasks)
      && (pid < |tasks| <==> exists t :: t in tasks && tasks[t].pid == pid)
  {
    hide Inv, Boot, CanRun, Run;
    BootIsDense(idle, frame);
    RunKeepsDense(Boot(idle, frame), events);
    PidsAreOnto(Run(Boot(idle, frame), events).sched.tasks, pid);
  }

  lemma BootIsDense<T>(idle: T, frame: int)
    ensures DensePids(Boot(idle, frame).sched.tasks)
  {
    var b := Boot(idle, frame);
    var s: Scheduler<T> := Scheduler([], [], map[], None, None, 0);
    assert CreateTask(s, idle, frame).tasks == map[idle := Task(0, WAITING, frame)];
    assert b.sched.tasks.Keys == {idle} && b.sched.tasks[idle].pid == 0;
    assert |b.sched.tasks| == 1;
  }

  /** ... by the pigeonhole principle. */
  lemma PidsAreOnto<T>(tasks: map<T, Task>, pid: nat)
    requires DensePids(tasks)
    ensures pid < |tasks| <==> exists t :: t in tasks && tasks[t].pid == pid
  {
    if pid < |tasks| && !exists t :: t in tasks && tasks[t].pid == pid {
      InjectionFits(tasks, tasks.Keys, Below(|tasks|) - {pid});
    }
  }

  function Below(n: nat): (r: set<nat>)
    ensures |r| == n && forall i: nat :: i in r <==> i < n
  {
    if n == 0 then {} else Below(n - 1) + {n - 1}
  }

  lemma {:induction false} InjectionFits<T>(tasks: map<T, Task>, keys: set<T>, pids: set<nat>)
    requires keys <= tasks.Keys && DensePids(tasks)
    requires forall t :: t in keys ==> tasks[t].pid in pids
    ensures |keys| <= |pids|
    decreases |keys|
  {
    if keys != {} {
      var t :| t in keys;
      InjectionFits(tasks, keys - {t}, pids - {tasks[t].pid});
    }
  }

  /** wakeup_pid then moves the one task that has this pid, from the waiting ring to the tail of
      the running ring. */
  lemma WakeMovesTheNamedTask<T>(m: Machine<T>, t: T)
    requires Inv(m) && DensePids(m.sched.tasks) && t in m.sched.waiting
    ensures var s := Step(m, Wake(m.sched.tasks[t].pid)).sched;
      && s.running == m.sched.running + [t] && s.waiting == Minus(m.sched.waiting, t)
      && s.tasks[t].state == READY
  {
    hide Sound;
    SoundParts(m.sched, m.idle);
    WokenIsWaiting(m.sched, m.sched.tasks[t].pid);
  }

  /** After a reaping the next pid may be taken. The new task then shares it, exactly when a
      task with that number exists. */
  lemma PidIsFresh<T>(m: Machine<T>, t: T, frame: int)
    requires Inv(m) && Enabled(m, Create(t, frame))
    ensures var tasks := Step(m, Create(t, frame)).sched.tasks;
      (forall u :: u in tasks && u != t ==> tasks[u].pid != tasks[t].pid) <==>
      (forall u :: u in m.sched.tasks ==> m.sched.tasks[u].pid != |m.sched.tasks|)
  {
    var e := Create(t, frame);
    CreatedTasks(m, e);
    var tasks := Step(m, e).sched.tasks;
    forall u | u in m.sched.tasks ensures u in tasks && u != t && tasks[u] == m.sched.tasks[u] {
    }
    if forall u :: u in tasks && u != t ==> tasks[u].pid != tasks[t].pid {
      forall u | u in m.sched.tasks ensures m.sched.tasks[u].pid != |m.sched.tasks| {
        assert u in tasks && u != t;
      }
    }
  }

  /** Then wakeup_pid cannot reach the second of two waiting tasks that share a pid. */
  lemma WakeMissesTheSecond<T>(m: Machine<T>, t: T, u: T)
    requires Inv(m) && t in m.sched.waiting && u in m.sched.waiting
    requires IndexOf(m.sched.waiting, t) < IndexOf(m.sched.waiting, u)
    requires m.sched.tasks[t].pid == m.sched.tasks[u].pid
    ensures var s := Step(m, Wake(m.sched.tasks[u].pid)).sched;
      u in s.waiting && u !in s.running && s.tasks[u].state == WAITING
  {
    hide Sound;
    SoundParts(m.sched, m.idle);
    var pid := m.sched.tasks[u].pid;
    WokenIsWaiting(m.sched, pid);
    var w := Woken(m.sched, pid).value;
    assert w != u;
    MinusElements(m.sched.waiting, w);
    WakeupSound(m.sched, m.idle, pid);
    StepKeepsInv(m, Wake(pid));
    WaitsOnly(Step(m, Wake(pid)), u);
  }

  /** Exactly which waiting task its pid reaches: the first one in the ring that has it. */
  lemma WakeReachesTheFirst<T>(m: Machine<T>, t: T)
    requires Inv(m) && t in m.sched.waiting
    ensures t in Step(m, Wake(m.sched.tasks[t].pid)).sched.running <==>
      forall u :: u in m.sched.waiting && m.sched.tasks[u].pid == m.sched.tasks[t].pid ==>
        IndexOf(m.sched.waiting, t) <= IndexOf(m.sched.waiting, u)
  {
    hide Sound;
    SoundParts(m.sched, m.idle);
    var s, pid := m.sched, m.sched.tasks[t].pid;
    WokenIsWaiting(s, pid);
    WaitsOnly(m, t);
    var i, w := Find(s.waiting, s.tasks, pid, 0), Woken(s, pid).value;
    assert IndexOf(s.waiting, w) == i;
    forall u | u in s.waiting && s.tasks[u].pid == pid ensures i <= IndexOf(s.waiting, u) {
    }
  }

  lemma WaitsOnly<T>(m: Machine<T>, u: T)
    requires Inv(m) && u in m.sched.waiting
    ensures u in m.sched.tasks && u !in m.sched.running && m.sched.tasks[u].state == WAITING
  {
  }
}
