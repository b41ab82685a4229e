/** The runs of the whole system are runs of the scheduler. What module Systems adds, memory and its
    owners, only decides which creations succeed; so every property of the runs of module
    Machines holds of every run of the system. */
module Projections {
  import opened Chunks
  import opened Scheduling
  import opened Machines
  import opened Runs
  import opened Fairness
  import opened Pids
  import opened TaskMemory
  import opened Systems

  /** What the scheduler sees of an event. */
  ghost function Seen<T>(k: System<T>, e: SystemEvent<T>): seq<Event<T>> {
    match e
    case Schedule(e) => [e]
    case Spawn(t, code) =>
      var blocks := CreateMemory(k.chunks, k.machine.sched.currentlyRunning.Some?, code).1;
      if blocks.None? then [] else [Create(t, k.base + FrameStart(blocks.value.stack))]
    case Sweep => [Reap]
    case _ => []
  }

  /** What it sees of a run. */
  ghost function Project<T>(k: System<T>, events: seq<SystemEvent<T>>): seq<Event<T>>
    requires SystemInv(k) && CanRunAt(k, events)
    decreases |events|
  {
    if events == [] then []
    else StepAtKeepsInv(k, events[0]); Seen(k, events[0]) + Project(StepAt(k, events[0]), events[1..])
  }

  lemma StepIsSeen<T>(k: System<T>, e: SystemEvent<T>)
    requires SystemInv(k) && EnabledAt(k, e)
    ensures Seen(k, e) == [] ==> StepAt(k, e).machine == k.machine
    ensures Seen(k, e) != [] ==>
      && |Seen(k, e)| == 1 && Inv(k.machine) && Enabled(k.machine, Seen(k, e)[0])
      && StepAt(k, e).machine == Step(k.machine, Seen(k, e)[0])
  {
    hide Sound, QueueBlocks, Ownership, CreateMemory, TryAllocate, ReapMemory, Step, Total;
    if e.Spawn? {
      TasksFitTable(k.machine.sched.tasks, k.chunks, k.owns);
    } else if e.Sweep? {
      SweepReady(k);
      NoRequestNoStep(k.machine);
    }
  }

  lemma NoRequestNoStep<T>(m: Machine<T>)
    requires Inv(m) && Enabled(m, Reap)
    ensures m.sched.cleanUpRequests == 0 ==> Step(m, Reap) == m
  {
  }

  /** Every run of the system is a run of its machine. */
  lemma {:induction false} RunIsProjected<T>(k: System<T>, events: seq<SystemEvent<T>>)
    requires SystemInv(k) && CanRunAt(k, events)
    ensures Inv(k.machine) && CanRun(k.machine, Project(k, events))
    ensures Run(k.machine, Project(k, events)) == RunAt(k, events).machine
    decreases |events|
  {
    hide Sound, QueueBlocks, Ownership, EnabledAt, StepAt, Step, Seen, Enabled;
    if events != [] {
      StepAtKeepsInv(k, events[0]);
      StepIsSeen(k, events[0]);
      var seen, rest := Seen(k, events[0]), Project(StepAt(k, events[0]), events[1..]);
      RunIsProjected(StepAt(k, events[0]), events[1..]);
      if seen == [] {
        assert seen + rest == rest;
      } else {
        StepKeepsInv(k.machine, seen[0]);
        assert (seen + rest)[0] == seen[0] && (seen + rest)[1..] == rest;
      }
    }
  }

  // ---------- runs of the system from boot ----------

  ghost predicate BootCanRun<T>(idle: T, base: nat, events: seq<SystemEvent<T>>) {
    BootSystemInv(idle, base);
    CanRunAt(BootSystem(idle, base), events)
  }

  /** Any state of the system that can be reached. */
  ghost function BootRun<T>(idle: T, base: nat, events: seq<SystemEvent<T>>): (k: System<T>)
    requires BootCanRun(idle, base, events)
    ensures SystemInv(k)
  {
    BootSystemInv(idle, base);
    RunAt(BootSystem(idle, base), events)
  }

  // ---------- bounded bypass ----------

  /** Some PendSV of this part of a run dispatches t. */
  ghost predicate DispatchedAt<T>(k: System<T>, events: seq<SystemEvent<T>>, t: T)
    requires SystemInv(k) && CanRunAt(k, events)
    decreases |events|
  {
    events != [] && (
      || (events[0].Schedule? && events[0].e.PendSV? && StepAt(k, events[0]).machine.executing == t)
      || (StepAtKeepsInv(k, events[0]); DispatchedAt(StepAt(k, events[0]), events[1..], t)))
  }

  function SystemSwitches<T>(events: seq<SystemEvent<T>>): nat {
    if events == [] then 0
    else (if events[0].Schedule? then Switches(events[0].e) else 0) + SystemSwitches(events[1..])
  }

  /** Wake-ups and creations. */
  function SystemArrivals<T>(events: seq<SystemEvent<T>>): nat {
    if events == [] then 0
    else
      (if events[0].Schedule? then Arrivals(events[0].e) else if events[0].Spawn? then 1 else 0)
      + SystemArrivals(events[1..])
  }

  lemma {:induction false} DispatchIsProjected<T>(k: System<T>, events: seq<SystemEvent<T>>, t: T)
    requires SystemInv(k) && CanRunAt(k, events)
    ensures Inv(k.machine) && CanRun(k.machine, Project(k, events))
    ensures Dispatched(k.machine, Project(k, events), t) <==> DispatchedAt(k, events, t)
    ensures TotalSwitches(Project(k, events)) == SystemSwitches(events)
    ensures TotalArrivals(Project(k, events)) <= SystemArrivals(events)
    decreases |events|
  {
    hide Sound, QueueBlocks, Ownership, EnabledAt, StepAt, Step, Enabled;
    RunIsProjected(k, events);
    if events != [] {
      StepAtKeepsInv(k, events[0]);
      StepIsSeen(k, events[0]);
      var seen, rest := Seen(k, events[0]), Project(StepAt(k, events[0]), events[1..]);
      DispatchIsProjected(StepAt(k, events[0]), events[1..], t);
      SeenKinds(k, events[0]);
      if seen == [] {
        assert seen + rest == rest;
      } else {
        StepKeepsInv(k.machine, seen[0]);
        assert (seen + rest)[0] == seen[0] && (seen + rest)[1..] == rest;
      }
    }
  }

  lemma SeenKinds<T>(k: System<T>, e: SystemEvent<T>)
    ensures Seen(k, e) == [] ==> !e.Schedule?
    ensures Seen(k, e) != [] && e.Schedule? ==> Seen(k, e)[0] == e.e
    ensures Seen(k, e) != [] && !e.Schedule? ==>
      !Seen(k, e)[0].PendSV? && Arrivals(Seen(k, e)[0]) <= if e.Spawn? then 1 else 0
  {
    hide CreateMemory;
  }

  /** In every reachable state of the system: a READY task at distance d is dispatched within d
      context switches plus one for each wake-up or creation in between, whatever tasks,
      interrupts and the memory do. */
  lemma BypassFromBoot<T>(idle: T, base: nat, before: seq<SystemEvent<T>>, events: seq<SystemEvent<T>>, t: T)
    requires BootCanRun(idle, base, before) && CanRunAt(BootRun(idle, base, before), events)
    requires Waits(BootRun(idle, base, before).machine, t)
    requires SystemSwitches(events)
      >= Distance(BootRun(idle, base, before).machine.sched, t) + SystemArrivals(events)
    ensures DispatchedAt(BootRun(idle, base, before), events, t)
  {
    hide Inv, QueueBlocks, Ownership, EnabledAt, StepAt, BootRun, BootCanRun, Waits, Distance;
    var k := BootRun(idle, base, before);
    DispatchIsProjected(k, events, t);
    BoundedBypass(k.machine, Project(k, events), t);
  }

  // ---------- context-switch integrity ----------

  /** Task t does not execute anywhere in this part of a run, and is not created in it. */
  ghost predicate SleepsAt<T>(k: System<T>, events: seq<SystemEvent<T>>, t: T)
    requires SystemInv(k) && CanRunAt(k, events)
    decreases |events|
  {
    k.machine.executing != t &&
    (events != [] ==>
      && !(events[0].Spawn? && events[0].task == t)
      && (StepAtKeepsInv(k, events[0]); SleepsAt(StepAt(k, events[0]), events[1..], t)))
  }

  lemma {:induction false} SleepIsProjected<T>(k: System<T>, events: seq<SystemEvent<T>>, t: T)
    requires SystemInv(k) && CanRunAt(k, events) && SleepsAt(k, events, t)
    ensures Inv(k.machine) && CanRun(k.machine, Project(k, events)) && Sleeps(k.machine, Project(k, events), t)
    decreases |events|
  {
    hide Sound, QueueBlocks, Ownership, EnabledAt, StepAt, Step, Enabled;
    RunIsProjected(k, events);
    if events != [] {
      StepAtKeepsInv(k, events[0]);
      StepIsSeen(k, events[0]);
      var seen, rest := Seen(k, events[0]), Project(StepAt(k, events[0]), events[1..]);
      SleepIsProjected(StepAt(k, events[0]), events[1..], t);
      SeenCreation(k, events[0], t);
      if seen == [] {
        assert seen + rest == rest;
      } else {
        StepKeepsInv(k.machine, seen[0]);
        assert (seen + rest)[0] == seen[0] && (seen + rest)[1..] == rest;
      }
    }
  }

  lemma SeenCreation<T>(k: System<T>, e: SystemEvent<T>, t: T)
    requires SystemInv(k) && EnabledAt(k, e)
    ensures !(e.Spawn? && e.task == t) && Seen(k, e) != [] ==> !(Seen(k, e)[0].Create? && Seen(k, e)[0].task == t)
  {
    hide CreateMemory, Sound, QueueBlocks, Ownership;
  }

  ghost function StepOn<T>(k: System<T>, e: SystemEvent<T>): (r: System<T>)
    requires SystemInv(k) && EnabledAt(k, e)
    ensures SystemInv(r)
  {
    StepAtKeepsInv(k, e);
    StepAt(k, e)
  }

  /** After a run in which t sleeps, a PendSV dispatches t with this stack pointer. */
  ghost predicate Awakes<T>(k: System<T>, events: seq<SystemEvent<T>>, dma: bool, t: T, psp: int)
    requires SystemInv(k)
  {
    && CanRunAt(k, events) && SleepsAt(k, events, t)
    && RunAt(k, events).machine.pending
    && var m := StepOn(RunAt(k, events), Schedule(PendSV(dma))).machine;
       m.executing == t && m.psp == psp
  }

  lemma AwakesIsProjected<T>(k: System<T>, events: seq<SystemEvent<T>>, dma: bool, t: T, psp: int)
    requires SystemInv(k) && Awakes(k, events, dma, t, psp)
    ensures Inv(k.machine) && CanRunAt(k, events) && CanRun(k.machine, Project(k, events))
    ensures Sleeps(k.machine, Project(k, events), t)
    ensures var m := Run(k.machine, Project(k, events));
      && Inv(m) && Enabled(m, PendSV(dma))
      && Step(m, PendSV(dma)).executing == t && Step(m, PendSV(dma)).psp == psp
  {
    hide Sound, QueueBlocks, Ownership, Step, CanRun, CanRunAt, Run, RunAt, Project, Sleeps, SleepsAt;
    SleepIsProjected(k, events, t);
    RunIsProjected(k, events);
  }

  /** In every reachable state of the system: the task that a PendSV switches away from resumes,
      whenever it is dispatched again, with the stack pointer it left with. */
  lemma ResumesFromBoot<T>(idle: T, base: nat, before: seq<SystemEvent<T>>, dma: bool,
                           events: seq<SystemEvent<T>>, dma': bool, psp: int)
    requires BootCanRun(idle, base, before) && EnabledAt(BootRun(idle, base, before), Schedule(PendSV(dma)))
    requires var k := BootRun(idle, base, before);
      Awakes(StepOn(k, Schedule(PendSV(dma))), events, dma', k.machine.executing, psp)
    ensures psp == BootRun(idle, base, before).machine.psp
  {
    hide Sound, QueueBlocks, Ownership, BootRun, BootCanRun, Step, Awakes, Sleeps, SleepsAt, CanRun, CanRunAt, Run;
    var k := BootRun(idle, base, before);
    var k1 := StepOn(k, Schedule(PendSV(dma)));
    AwakesIsProjected(k1, events, dma', k.machine.executing, psp);
    TaskResumesWhereItLeft(k.machine, dma, Project(k1, events), dma');
  }

  /** ... and a new task starts with a stack pointer that is one initial frame below the end of the
      stack that it owns. */
  lemma StartsFromBoot<T>(idle: T, base: nat, before: seq<SystemEvent<T>>, t: T, code: Option<nat>,
                          events: seq<SystemEvent<T>>, dma: bool, psp: int)
    requires BootCanRun(idle, base, before) && EnabledAt(BootRun(idle, base, before), SystemEvent.Spawn(t, code))
    requires var k1 := StepOn(BootRun(idle, base, before), SystemEvent.Spawn(t, code));
      t in k1.machine.sched.tasks && Awakes(k1, events, dma, t, psp)
    ensures var k1 := StepOn(BootRun(idle, base, before), SystemEvent.Spawn(t, code));
      t in k1.owns && psp + CPU_REGISTER_SIZE == base + k1.owns[t].stack + STACK_SIZE
  {
    hide Sound, QueueBlocks, Ownership, BootRun, BootCanRun, Awakes, Sleeps, SleepsAt, CanRun, CanRunAt, Run,
      CreateMemory, Total, Held, Parts;
    var k := BootRun(idle, base, before);
    var e := SystemEvent.Spawn(t, code);
    var k1 := StepOn(k, e);
    StepIsSeen(k, e);
    OwnersKnown(k1.machine.sched.tasks, k1.chunks, k1.owns);
    BaseStays(idle, base, before);
    AwakesIsProjected(k1, events, dma, t, psp);
    TaskStartsAtItsFrame(k.machine, t, Seen(k, e)[0].frame, Project(k1, events), dma);
  }

  lemma BaseStays<T>(idle: T, base: nat, events: seq<SystemEvent<T>>)
    requires BootCanRun(idle, base, events)
    ensures BootRun(idle, base, events).base == base
  {
    hide SystemInv, StepAt, EnabledAt, BootMemory;
    BootSystemInv(idle, base);
    SameBase(BootSystem(idle, base), events);
  }

  lemma {:induction false} SameBase<T>(k: System<T>, events: seq<SystemEvent<T>>)
    requires SystemInv(k) && CanRunAt(k, events)
    ensures RunAt(k, events).base == k.base
    decreases |events|
  {
    hide SystemInv, StepAt, EnabledAt;
    if events != [] {
      StepAtKeepsInv(k, events[0]);
      SameBase(StepAt(k, events[0]), events[1..]);
      StepBase(k, events[0]);
    }
  }

  lemma StepBase<T>(k: System<T>, e: SystemEvent<T>)
    requires SystemInv(k) && EnabledAt(k, e)
    ensures StepAt(k, e).base == k.base
  {
    hide SystemInv, EnabledAt, CreateMemory;
  }

  // ---------- dead tasks and pids ----------

  lemma {:induction false} CreationIsProjected<T>(k: System<T>, events: seq<SystemEvent<T>>, t: T)
    requires SystemInv(k) && CanRunAt(k, events)
    requires forall i :: 0 <= i < |events| ==> !(events[i].Spawn? && events[i].task == t)
    ensures !Creates(Project(k, events), t)
    decreases |events|
  {
    hide Sound, QueueBlocks, Ownership, EnabledAt, StepAt, Seen, Enabled;
    if events != [] {
      StepAtKeepsInv(k, events[0]);
      StepIsSeen(k, events[0]);
      SeenCreation(k, events[0], t);
      CreationIsProjected(StepAt(k, events[0]), events[1..], t);
      var seen, rest := Seen(k, events[0]), Project(StepAt(k, events[0]), events[1..]);
      var all: seq<Event<T>> := seen + rest;
      forall i | 0 <= i < |all| ensures !(all[i].Create? && all[i].task == t) {
        assert i >= |seen| ==> all[i] == rest[i - |seen|];
      }
    }
  }

  /** In every reachable state of the system: a dead task is never dispatched again. */
  lemma DeadFromBoot<T>(idle: T, base: nat, before: seq<SystemEvent<T>>, events: seq<SystemEvent<T>>, t: T)
    requires BootCanRun(idle, base, before) && CanRunAt(BootRun(idle, base, before), events)
    requires forall i :: 0 <= i < |events| ==> !(events[i].Spawn? && events[i].task == t)
    requires var tasks := BootRun(idle, base, before).machine.sched.tasks; t in tasks && IsDead(tasks[t])
    ensures !DispatchedAt(BootRun(idle, base, before), events, t)
  {
    hide Inv, QueueBlocks, Ownership, EnabledAt, StepAt, BootRun, BootCanRun, Creates;
    var k := BootRun(idle, base, before);
    DispatchIsProjected(k, events, t);
    CreationIsProjected(k, events, t);
    DeadNeverDispatched(k.machine, Project(k, events), t);
  }

  ghost predicate NoReap<T>(events: seq<Event<T>>) {
    forall i :: 0 <= i < |events| ==> !events[i].Reap?
  }

  lemma NoReapConcat<T>(a: seq<Event<T>>, b: seq<Event<T>>)
    requires NoReap(a) && NoReap(b)
    ensures NoReap(a + b)
  {
    forall i | 0 <= i < |a + b| ensures !(a + b)[i].Reap? {
      assert i >= |a| ==> (a + b)[i] == b[i - |a|];
    }
  }

  lemma SeenReap<T>(k: System<T>, e: SystemEvent<T>)
    requires EnabledAt(k, e) && !e.Sweep?
    ensures NoReap(Seen(k, e))
  {
    hide CreateMemory;
  }

  lemma {:induction false} ReapsAreProjected<T>(k: System<T>, events: seq<SystemEvent<T>>)
    requires SystemInv(k) && CanRunAt(k, events)
    requires forall i :: 0 <= i < |events| ==> !events[i].Sweep?
    ensures NoReap(Project(k, events))
    decreases |events|
  {
    hide SystemInv, StepAt, EnabledAt, Seen, NoReap;
    if events == [] {
      NoReapNil<T>();
    } else {
      StepAtKeepsInv(k, events[0]);
      SeenReap(k, events[0]);
      ReapsAreProjected(StepAt(k, events[0]), events[1..]);
      NoReapConcat(Seen(k, events[0]), Project(StepAt(k, events[0]), events[1..]));
    }
  }

  lemma NoReapNil<T>()
    ensures NoReap<T>([])
  {
  }

  /** In every state of the system that is reached without reaping: the pids are 0..n-1. */
  lemma SystemPidsFromBoot<T>(idle: T, base: nat, events: seq<SystemEvent<T>>, pid: nat)
    requires BootCanRun(idle, base, events)
    requires forall i :: 0 <= i < |events| ==> !events[i].Sweep?
    ensures var tasks := BootRun(idle, base, events).machine.sched.tasks;
      DensePids(tasks) && (pid < |tasks| <==> exists t :: t in tasks && tasks[t].pid == pid)
  {
    hide SystemInv, DensePids, Boot, Inv, CanRun, Run, CanRunAt, RunAt, Project, BootMemory;
    BootSystemInv(idle, base);
    var k := BootSystem(idle, base);
    RunIsProjected(k, events);
    ReapsAreProjected(k, events);
    PidsFromBoot(idle, base + FrameStart(BootMemory().1.value.stack), Project(k, events), pid);
  }
}
