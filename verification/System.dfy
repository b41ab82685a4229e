/** The kernel as one state machine: the scheduler, the processor and the slot table, with the
    blocks that every task owns. */
module Systems {
  import opened Chunks
  import opened Coalescing
  import opened Defragmenting
  import opened History
  import opened Sets
  import opened Scheduling
  import opened Machines
  import opened Runs
  import opened TaskMemory

  datatype System<T(==)> = System(
    machine: Machine<T>,
    chunks: seq<Chunk>,
    owns: map<T, Blocks>,
    queues: Queues,
    base: nat)              // USEABLE_MEM_START

  /** The blocks of the two queues that init_scheduler allocates. */
  datatype Queues = Queues(running: nat, waiting: nat)

  // ---------- ownership ----------

  /** Every task owns live blocks of its own. */
  ghost predicate Ownership<T>(tasks: map<T, Task>, cs: seq<Chunk>, owns: map<T, Blocks>) {
    && Tiled(cs)
    && (forall t :: t in tasks ==> t in owns && Owned(cs, owns[t]))
    && (forall t, u :: t in tasks && u in tasks && t in owns && u in owns && t != u ==>
          Parts(owns[t]) !! Parts(owns[u]))
  }

  /** The queues keep their blocks too, which no task owns. */
  ghost predicate QueueBlocks<T>(tasks: map<T, Task>, cs: seq<Chunk>, owns: map<T, Blocks>, queues: Queues) {
    && Held(cs, queues.running, QUEUE_SIZE) && Held(cs, queues.waiting, QUEUE_SIZE)
    && queues.running != queues.waiting
    && (forall t :: t in tasks && t in owns ==>
          queues.running !in Parts(owns[t]) && queues.waiting !in Parts(owns[t]))
  }

  ghost predicate SystemInv<T>(k: System<T>) {
    && Inv(k.machine)
    && Ownership(k.machine.sched.tasks, k.chunks, k.owns)
    && QueueBlocks(k.machine.sched.tasks, k.chunks, k.owns, k.queues)
  }

  // ---------- capacity ----------

  function AllParts<T(==)>(owns: map<T, Blocks>, keys: set<T>): set<nat>
    requires keys <= owns.Keys
  {
    set t, o | t in keys && o in Parts(owns[t]) :: o
  }

  lemma {:induction false} FourEach<T>(tasks: map<T, Task>, cs: seq<Chunk>, owns: map<T, Blocks>, keys: set<T>)
    requires Ownership(tasks, cs, owns) && keys <= tasks.Keys
    ensures keys <= owns.Keys && |AllParts(owns, keys)| >= 4 * |keys|
    decreases |keys|
  {
    hide AllParts, Owned, Tiled, Parts;
    OwnersKnown(tasks, cs, owns);
    if keys != {} {
      var t :| t in keys;
      FourEach(tasks, cs, owns, keys - {t});
      OneMoreOwner(tasks, cs, owns, keys, t);
    }
  }

  lemma OneMoreOwner<T>(tasks: map<T, Task>, cs: seq<Chunk>, owns: map<T, Blocks>, keys: set<T>, t: T)
    requires Ownership(tasks, cs, owns) && keys <= tasks.Keys && t in keys
    ensures keys <= owns.Keys
    ensures |AllParts(owns, keys)| >= |AllParts(owns, keys - {t})| + 4
  {
    hide Held, Tiled, Parts;
    var rest := AllParts(owns, keys - {t});
    assert AllParts(owns, keys) == rest + Parts(owns[t]);
    assert rest !! Parts(owns[t]);
  }

  /** The 64 slots bound the tasks: never more than 16 unreaped ones. */
  lemma TasksFitTable<T>(tasks: map<T, Task>, cs: seq<Chunk>, owns: map<T, Blocks>)
    requires Ownership(tasks, cs, owns)
    ensures 4 * |tasks| <= |cs| <= NUM_OF_SLOTS && |tasks| <= 16
  {
    hide Owned, Tiled;
    FourEach(tasks, cs, owns, tasks.Keys);
    forall o | o in AllParts(owns, tasks.Keys) ensures Held(cs, o, 0) {
      var t :| t in tasks && o in Parts(owns[t]);
      HeldAtLeast0(cs, owns[t]);
    }
    BlocksFitTable(cs, AllParts(owns, tasks.Keys));
    assert |tasks| == |tasks.Keys|;
  }

  /** With the two queues, never more than 15. */
  lemma TasksAndQueuesFit<T>(k: System<T>)
    requires SystemInv(k)
    ensures 4 * |k.machine.sched.tasks| + 2 <= |k.chunks| <= NUM_OF_SLOTS && |k.machine.sched.tasks| <= 15
  {
    hide Owned, Tiled, Held, Parts, Inv;
    var tasks, owns, queues := k.machine.sched.tasks, k.owns, {k.queues.running, k.queues.waiting};
    FourEach(tasks, k.chunks, owns, tasks.Keys);
    var all := AllParts(owns, tasks.Keys);
    forall o | o in all + queues ensures Held(k.chunks, o, 0) {
      if o in all {
        var t :| t in tasks && o in Parts(owns[t]);
        HeldAtLeast0(k.chunks, owns[t]);
      } else {
        KeepsLiveRefl(k.chunks);
        HeldKept(k.chunks, k.chunks, o, QUEUE_SIZE);
      }
    }
    assert all !! queues;
    assert |all + queues| == |all| + 2;
    BlocksFitTable(k.chunks, all + queues);
    assert |tasks| == |tasks.Keys|;
  }

  // ---------- what keeps ownership ----------

  lemma OwnedStays(cs: seq<Chunk>, ds: seq<Chunk>, b: Blocks)
    requires Owned(cs, b)
    requires forall o, n :: o in Parts(b) && Held(cs, o, n) ==> Held(ds, o, n)
    ensures Owned(ds, b)
  {
  }

  /** No owned block is lost. */
  lemma OwnershipStays<T>(tasks: map<T, Task>, cs: seq<Chunk>, owns: map<T, Blocks>,
                          tasks': map<T, Task>, ds: seq<Chunk>)
    requires Ownership(tasks, cs, owns) && Tiled(ds)
    requires forall t :: t in tasks' ==> t in tasks
    requires forall t, o, n :: t in tasks' && t in owns && o in Parts(owns[t]) && Held(cs, o, n) ==> Held(ds, o, n)
    ensures Ownership(tasks', ds, owns)
  {
    hide Owned, Held, Tiled;
    forall t | t in tasks' ensures t in owns && Owned(ds, owns[t]) {
      OwnedStays(cs, ds, owns[t]);
    }
  }

  lemma NewOwner<T>(tasks: map<T, Task>, cs: seq<Chunk>, owns: map<T, Blocks>,
                    t: T, task: Task, ds: seq<Chunk>, b: Blocks)
    requires Ownership(tasks, cs, owns) && Tiled(ds) && KeepsLive(cs, ds) && t !in tasks
    requires Owned(ds, b)
    requires forall o :: o in Parts(b) && b.code != Some(o) ==> !Held(cs, o, 0)
    requires b.code.Some? ==> forall u :: u in tasks && u in owns ==> b.code.value !in Parts(owns[u])
    ensures Ownership(tasks[t := task], ds, owns[t := b])
  {
    hide Owned, Held, Tiled, KeepsLive, Parts;
    var owns' := owns[t := b];
    forall u | u in tasks ensures Owned(ds, owns[u]) && Parts(owns[u]) !! Parts(b) {
      HeldAtLeast0(cs, owns[u]);
      forall o, n | o in Parts(owns[u]) && Held(cs, o, n) ensures Held(ds, o, n) {
        HeldKept(cs, ds, o, n);
      }
      OwnedStays(cs, ds, owns[u]);
    }
  }

  // ---------- the reaper and the memory ----------

  /** The allocator side of search_invalidate_tasks, round by round. */
  function ReapMemory<T(==)>(s: Scheduler<T>, cs: seq<Chunk>, owns: map<T, Blocks>, q: T, j: nat): seq<Chunk>
    requires forall t :: t in s.running ==> t in s.tasks && t in owns
    requires q in s.running && Distinct(s.running)
    decreases |s.running| - j
  {
    if j >= |s.running| then cs
    else
      var next := Next(s.running, q);
      if IsDead(s.tasks[q]) then
        MinusElements(s.running, q);
        var r, ds := Reaped(s, q), CleanUp(cs, owns[q]);
        if next in r.running then ReapMemory(r, ds, owns, next, j + 1) else ds
      else ReapMemory(s, cs, owns, next, j + 1)
  }

  /** One round of the reaper on values. */
  lemma ReapRound<T>(s: Scheduler<T>, cs: seq<Chunk>, owns: map<T, Blocks>, q: T, j: nat)
    requires forall t :: t in s.running ==> t in s.tasks && t in owns
    requires q in s.running && Distinct(s.running) && j < |s.running|
    ensures !IsDead(s.tasks[q]) ==>
      (Next(s.running, q) in s.running
      && ReapFrom(s, q, j) == ReapFrom(s, Next(s.running, q), j + 1)
      && ReapMemory(s, cs, owns, q, j) == ReapMemory(s, cs, owns, Next(s.running, q), j + 1))
    ensures IsDead(s.tasks[q]) && |s.running| >= 2 ==>
      (Distinct(Reaped(s, q).running) && Next(s.running, q) in Reaped(s, q).running
      && (forall t :: t in Reaped(s, q).running ==> t in Reaped(s, q).tasks && t in owns)
      && ReapFrom(s, q, j) == ReapFrom(Reaped(s, q), Next(s.running, q), j + 1)
      && ReapMemory(s, cs, owns, q, j)
        == ReapMemory(Reaped(s, q), CleanUp(cs, owns[q]), owns, Next(s.running, q), j + 1))
  {
    hide CleanUp;
    MinusElements(s.running, q);
    NextIsOther(s.running, q);
  }

  lemma ReapDone<T>(s: Scheduler<T>, cs: seq<Chunk>, owns: map<T, Blocks>, q: T, j: nat)
    requires forall t :: t in s.running ==> t in s.tasks && t in owns
    requires q in s.running && Distinct(s.running) && j >= |s.running|
    ensures ReapFrom(s, q, j) == s && ReapMemory(s, cs, owns, q, j) == cs
  {
  }

  lemma NextIsOther<T>(q: seq<T>, t: T)
    requires t in q && Distinct(q)
    ensures Next(q, t) in q && (|q| >= 2 ==> Next(q, t) != t)
  {
  }

  /** Cleaning up one task leaves every block of every other task alone. */
  lemma CleanUpKeepsOthers<T>(tasks: map<T, Task>, cs: seq<Chunk>, owns: map<T, Blocks>, q: T)
    requires Ownership(tasks, cs, owns) && q in tasks
    ensures Ownership(tasks - {q}, CleanUp(cs, owns[q]), owns)
    ensures AllFound(cs, owns[q]) && Total(CleanUp(cs, owns[q])) == Total(cs)
  {
    hide Owned, Held, Tiled, CleanUp, AllFound;
    CleanUpFreesExactly(cs, owns[q]);
    ReturnedIsOwned(owns[q]);
    forall t, o, n | t in tasks - {q} && t in owns && o in Parts(owns[t]) && Held(cs, o, n)
      ensures Held(CleanUp(cs, owns[q]), o, n)
    {
      assert Parts(owns[t]) !! Parts(owns[q]);
    }
    OwnershipStays(tasks, cs, owns, tasks - {q}, CleanUp(cs, owns[q]));
  }

  lemma ReturnedIsOwned(b: Blocks)
    ensures Returned(b) <= Parts(b)
  {
  }

  lemma {:induction false} ReapKeepsOwnership<T>(s: Scheduler<T>, idle: T, cs: seq<Chunk>,
                                                 owns: map<T, Blocks>, q: T, j: nat)
    requires Sound(s, idle) && q in s.running && CurrentInRing(s)
    requires !IsDead(s.tasks[s.currentlyRunning.value])
    requires Ownership(s.tasks, cs, owns)
    ensures Ownership(ReapFrom(s, q, j).tasks, ReapMemory(s, cs, owns, q, j), owns)
    ensures Total(ReapMemory(s, cs, owns, q, j)) == Total(cs)
    decreases |s.running| - j
  {
    hide Sound, Distinct, Next, Ownership, CleanUp, IsDead, Offset, DeadTasks, ReapFrom, ReapMemory, Reaped;
    SoundParts(s, idle);
    OwnersKnown(s.tasks, cs, owns);
    if j >= |s.running| {
      ReapDone(s, cs, owns, q, j);
    } else {
      var next := Next(s.running, q);
      ReapRound(s, cs, owns, q, j);
      if IsDead(s.tasks[q]) {
        var r := Reaped(s, q);
        ReapedSound(s, idle, q);
        ReapedParts(s, idle, q);
        CleanUpKeepsOthers(s.tasks, cs, owns, q);
        ReapKeepsOwnership(r, idle, CleanUp(cs, owns[q]), owns, next, j + 1);
      } else {
        ReapKeepsOwnership(s, idle, cs, owns, next, j + 1);
      }
    }
  }

  lemma ReapedParts<T>(s: Scheduler<T>, idle: T, q: T)
    requires Sound(s, idle) && CurrentInRing(s) && q in s.running && IsDead(s.tasks[q])
    requires !IsDead(s.tasks[s.currentlyRunning.value])
    ensures |s.running| >= 2 && |Reaped(s, q).running| == |s.running| - 1
    ensures Reaped(s, q).tasks == s.tasks - {q} && Reaped(s, q).currentlyRunning == s.currentlyRunning
    ensures CurrentInRing(Reaped(s, q))
  {
    hide Sound, IsDead, Distinct;
    SoundParts(s, idle);
    MinusElements(s.running, q);
    ReapedSound(s, idle, q);
    SoundParts(Reaped(s, q), idle);
  }

  lemma OwnersKnown<T>(tasks: map<T, Task>, cs: seq<Chunk>, owns: map<T, Blocks>)
    requires Ownership(tasks, cs, owns)
    ensures forall t :: t in tasks ==> t in owns
    ensures tasks.Keys <= owns.Keys
  {
  }

  // ---------- the events ----------

  datatype SystemEvent<T> =
    | Schedule(e: Event<T>)                    // any event that does not touch the memory
    | Spawn(task: T, code: Option<nat>)        // create_task
    | Sweep                                    // the reaper
    | Alloc(size: nat)                         // allocate, deallocate and defrag called by anyone else
    | Free(offset: nat)
    | Defrag

  ghost predicate EnabledAt<T>(k: System<T>, e: SystemEvent<T>) {
    match e
    case Schedule(e) => Enabled(k.machine, e) && !e.Create? && !e.Reap?
    case Spawn(t, code) =>
      && !k.machine.pending && t !in k.machine.sched.tasks
      && Total(k.chunks) + CREATE_BYTES <= 0x1_0000
      && (code.Some? ==> Held(k.chunks, code.value, 0))
      && (code.Some? ==> code.value != k.queues.running && code.value != k.queues.waiting)
      && (code.Some? ==> forall u :: u in k.machine.sched.tasks && u in k.owns ==>
            code.value !in Parts(k.owns[u]))
    case Sweep => Enabled(k.machine, Reap)
    case Alloc(size) => Decide(k.chunks, size).Carve? ==> size <= 32760 && Total(k.chunks) < 0x1_0000
    case Free(o) =>
      && o != k.queues.running && o != k.queues.waiting
      && (forall t :: t in k.machine.sched.tasks && t in k.owns ==> o !in Parts(k.owns[t]))
    case Defrag => |k.chunks| < NUM_OF_SLOTS && DefragSafe(k.chunks)
  }

  ghost function Spawned<T>(k: System<T>, t: T, code: Option<nat>): System<T>
    requires SystemInv(k) && EnabledAt(k, Spawn(t, code))
  {
    var (cs, blocks) := CreateMemory(k.chunks, k.machine.sched.currentlyRunning.Some?, code);
    if blocks.None? then k.(chunks := cs)
    else
      TasksFitTable(k.machine.sched.tasks, k.chunks, k.owns);
      k.(machine := Step(k.machine, Create(t, k.base + FrameStart(blocks.value.stack))),
         chunks := cs,
         owns := k.owns[t := blocks.value])
  }

  /** What the reaper needs of the system. */
  lemma SweepReady<T>(k: System<T>)
    requires SystemInv(k) && EnabledAt(k, Sweep)
    ensures Inv(k.machine) && Enabled(k.machine, Reap)
    ensures forall t :: t in k.machine.sched.running ==> t in k.machine.sched.tasks && t in k.owns
    ensures k.machine.executing in k.machine.sched.running && Distinct(k.machine.sched.running)
  {
    hide Sound, Distinct, Ownership, QueueBlocks;
    SoundParts(k.machine.sched, k.machine.idle);
    OwnersKnown(k.machine.sched.tasks, k.chunks, k.owns);
  }

  ghost function SweptSystem<T>(k: System<T>): System<T>
    requires SystemInv(k) && EnabledAt(k, Sweep)
  {
    if k.machine.sched.cleanUpRequests != 0 then
      SweepReady(k);
      k.(machine := Step(k.machine, Reap),
         chunks := ReapMemory(k.machine.sched, k.chunks, k.owns, k.machine.executing, 0))
    else k
  }

  ghost function StepAt<T>(k: System<T>, e: SystemEvent<T>): System<T>
    requires SystemInv(k) && EnabledAt(k, e)
  {
    match e
    case Schedule(e) => k.(machine := Step(k.machine, e))
    case Spawn(t, code) =>
      Spawned(k, t, code)
    case Sweep => SweptSystem(k)
    case Alloc(size) => k.(chunks := TryAllocate(k.chunks, size).0)
    case Free(o) => k.(chunks := Freed(k.chunks, o))
    case Defrag => k.(chunks := Coalesce(k.chunks))
  }

  lemma SameKeysOwnership<T>(tasks: map<T, Task>, tasks': map<T, Task>, cs: seq<Chunk>, owns: map<T, Blocks>)
    requires Ownership(tasks, cs, owns) && forall t :: t in tasks' ==> t in tasks
    ensures Ownership(tasks', cs, owns)
  {
  }

  lemma SpawnKeepsInv<T>(k: System<T>, t: T, code: Option<nat>)
    requires SystemInv(k) && EnabledAt(k, Spawn(t, code))
    ensures SystemInv(StepAt(k, Spawn(t, code)))
  {
    hide Sound, Ownership, QueueBlocks, CreateMemory, CreateTask, Owned, Held, Parts, Tiled, Total, KeepsLive;
    var m, hasParent := k.machine, k.machine.sched.currentlyRunning.Some?;
    OwnershipTiled(m.sched.tasks, k.chunks, k.owns);
    CreateMemoryIsClean(k.chunks, hasParent, code);
    var (cs, blocks) := CreateMemory(k.chunks, hasParent, code);
    if blocks.None? {
      KeepsLiveOwnership(m.sched.tasks, k.chunks, k.owns, cs);
      KeepsLiveQueues(m.sched.tasks, k.chunks, k.owns, cs, k.queues);
    } else {
      var b := blocks.value;
      var frame := k.base + FrameStart(b.stack);
      TasksFitTable(m.sched.tasks, k.chunks, k.owns);
      StepKeepsInv(m, Create(t, frame));
      CreateSound(m.sched, m.idle, t, frame);
      NewOwner(m.sched.tasks, k.chunks, k.owns, t, Task(|m.sched.tasks|, READY, frame), cs, b);
      QueuesNotTaken(m.sched.tasks, k.chunks, k.owns, t, Task(|m.sched.tasks|, READY, frame), cs, b, k.queues);
    }
  }

  lemma QueuesStay<T>(tasks: map<T, Task>, cs: seq<Chunk>, owns: map<T, Blocks>, queues: Queues,
                      tasks': map<T, Task>, ds: seq<Chunk>)
    requires QueueBlocks(tasks, cs, owns, queues) && forall t :: t in tasks' ==> t in tasks
    requires Held(cs, queues.running, QUEUE_SIZE) ==> Held(ds, queues.running, QUEUE_SIZE)
    requires Held(cs, queues.waiting, QUEUE_SIZE) ==> Held(ds, queues.waiting, QUEUE_SIZE)
    ensures QueueBlocks(tasks', ds, owns, queues)
  {
    hide Held, Parts;
  }

  lemma KeepsLiveQueues<T>(tasks: map<T, Task>, cs: seq<Chunk>, owns: map<T, Blocks>, ds: seq<Chunk>, queues: Queues)
    requires QueueBlocks(tasks, cs, owns, queues) && KeepsLive(cs, ds)
    ensures QueueBlocks(tasks, ds, owns, queues)
  {
    hide Held, Parts, KeepsLive;
    HeldKept(cs, ds, queues.running, QUEUE_SIZE);
    HeldKept(cs, ds, queues.waiting, QUEUE_SIZE);
  }

  /** A new task does not get the blocks of the queues. */
  lemma QueuesNotTaken<T>(tasks: map<T, Task>, cs: seq<Chunk>, owns: map<T, Blocks>,
                          t: T, task: Task, ds: seq<Chunk>, b: Blocks, queues: Queues)
    requires QueueBlocks(tasks, cs, owns, queues) && KeepsLive(cs, ds)
    requires forall o :: o in Parts(b) && b.code != Some(o) ==> !Held(cs, o, 0)
    requires b.code != Some(queues.running) && b.code != Some(queues.waiting)
    ensures QueueBlocks(tasks[t := task], ds, owns[t := b], queues)
  {
    hide Held, Parts, KeepsLive;
    KeepsLiveQueues(tasks, cs, owns, ds, queues);
    KeepsLiveRefl(cs);
    HeldKept(cs, cs, queues.running, QUEUE_SIZE);
    HeldKept(cs, cs, queues.waiting, QUEUE_SIZE);
  }

  lemma OwnershipTiled<T>(tasks: map<T, Task>, cs: seq<Chunk>, owns: map<T, Blocks>)
    requires Ownership(tasks, cs, owns)
    ensures Tiled(cs)
  {
  }

  lemma KeepsLiveOwnership<T>(tasks: map<T, Task>, cs: seq<Chunk>, owns: map<T, Blocks>, ds: seq<Chunk>)
    requires Ownership(tasks, cs, owns) && Tiled(ds) && KeepsLive(cs, ds)
    ensures Ownership(tasks, ds, owns)
  {
    hide Owned, Held, Tiled, KeepsLive;
    forall t, o, n | t in tasks && t in owns && o in Parts(owns[t]) && Held(cs, o, n) ensures Held(ds, o, n) {
      HeldKept(cs, ds, o, n);
    }
    OwnershipStays(tasks, cs, owns, tasks, ds);
  }

  lemma AllocKeepsOwnership<T>(tasks: map<T, Task>, cs: seq<Chunk>, owns: map<T, Blocks>, size: nat)
    requires Ownership(tasks, cs, owns)
    requires Decide(cs, size).Carve? ==> size <= 32760 && Total(cs) < 0x1_0000
    ensures Ownership(tasks, TryAllocate(cs, size).0, owns) && KeepsLive(cs, TryAllocate(cs, size).0)
  {
    hide Ownership, Tiled, Total;
    OwnershipTiled(tasks, cs, owns);
    if !Decide(cs, size).Refused? {
      AllocationIsClean(cs, size);
      assert KeepsLive(cs, TryAllocate(cs, size).0);
      KeepsLiveOwnership(tasks, cs, owns, TryAllocate(cs, size).0);
    }
  }

  lemma FreeKeepsOwnership<T>(tasks: map<T, Task>, cs: seq<Chunk>, owns: map<T, Blocks>, offset: nat)
    requires Ownership(tasks, cs, owns)
    requires forall t :: t in tasks && t in owns ==> offset !in Parts(owns[t])
    ensures Ownership(tasks, Freed(cs, offset), owns)
  {
    hide Owned, Held, Tiled, Freed;
    FreeClearsOne(cs, offset);
    forall t, o, n | t in tasks && t in owns && o in Parts(owns[t]) && Held(cs, o, n)
      ensures Held(Freed(cs, offset), o, n)
    {
      FreedHeld(cs, offset, o, n);
    }
    OwnershipStays(tasks, cs, owns, tasks, Freed(cs, offset));
  }

  lemma FreeKeepsQueues<T>(tasks: map<T, Task>, cs: seq<Chunk>, owns: map<T, Blocks>, offset: nat, queues: Queues)
    requires Tiled(cs) && QueueBlocks(tasks, cs, owns, queues)
    requires offset != queues.running && offset != queues.waiting
    ensures QueueBlocks(tasks, Freed(cs, offset), owns, queues)
  {
    hide Held, Tiled, Freed, Parts;
    FreedHeld(cs, offset, queues.running, QUEUE_SIZE);
    FreedHeld(cs, offset, queues.waiting, QUEUE_SIZE);
  }

  lemma DefragKeepsOwnership<T>(tasks: map<T, Task>, cs: seq<Chunk>, owns: map<T, Blocks>)
    requires Ownership(tasks, cs, owns) && |cs| < NUM_OF_SLOTS && DefragSafe(cs)
    ensures Ownership(tasks, Coalesce(cs), owns) && KeepsLive(cs, Coalesce(cs))
  {
    hide Ownership, Tiled, Coalesce, DefragSafe, LiveAt;
    OwnershipTiled(tasks, cs, owns);
    SafeStaysTiled(cs);
    forall o, s | LiveAt(cs, o, s) ensures LiveAt(Coalesce(cs), o, s) {
      SameBlocks(cs, o, s);
    }
    KeepsLiveOwnership(tasks, cs, owns, Coalesce(cs));
  }

  lemma SweepKeepsInv<T>(k: System<T>)
    requires SystemInv(k) && EnabledAt(k, Sweep)
    ensures SystemInv(StepAt(k, Sweep))
  {
    hide Sound, Ownership, QueueBlocks, ReapFrom, IsDead;
    var m := k.machine;
    SoundParts(m.sched, m.idle);
    OwnersKnown(m.sched.tasks, k.chunks, k.owns);
    ReadyIsAlive(m);
    StepKeepsInv(m, Reap);
    ReapKeepsOwnership(m.sched, m.idle, k.chunks, k.owns, m.executing, 0);
    ReapKeepsQueues(m.sched, m.idle, k.chunks, k.owns, m.executing, k.queues);
  }

  lemma ReapKeepsQueues<T>(s: Scheduler<T>, idle: T, cs: seq<Chunk>, owns: map<T, Blocks>, q: T, queues: Queues)
    requires Sound(s, idle) && q in s.running && CurrentInRing(s)
    requires !IsDead(s.tasks[s.currentlyRunning.value])
    requires Ownership(s.tasks, cs, owns) && QueueBlocks(s.tasks, cs, owns, queues)
    ensures Distinct(s.running) && forall t :: t in s.running ==> t in s.tasks && t in owns
    ensures QueueBlocks(ReapFrom(s, q, 0).tasks, ReapMemory(s, cs, owns, q, 0), owns, queues)
  {
    hide Sound, Ownership, ReapFrom, ReapMemory, Parts, IsDead, Held, Distinct, GivenBack;
    SoundParts(s, idle);
    OwnersKnown(s.tasks, cs, owns);
    var tasks := ReapFrom(s, q, 0).tasks;
    ReapFromFewer(s, idle, q, 0);
    ReapFreesExactly(s, idle, cs, owns, q, 0, queues.running, QUEUE_SIZE);
    ReapFreesExactly(s, idle, cs, owns, q, 0, queues.waiting, QUEUE_SIZE);
    GivenBackIsOwned(s.tasks, tasks, owns);
    QueuesStay(s.tasks, cs, owns, queues, tasks, ReapMemory(s, cs, owns, q, 0));
  }

  lemma GivenBackIsOwned<T>(before: map<T, Task>, after: map<T, Task>, owns: map<T, Blocks>)
    ensures forall o :: o in GivenBack(before, after, owns) ==>
      exists t :: t in before && t in owns && o in Parts(owns[t])
  {
    forall o | o in GivenBack(before, after, owns)
      ensures exists t :: t in before && t in owns && o in Parts(owns[t])
    {
      var t :| t in before && t !in after && t in owns && o in Returned(owns[t]);
      ReturnedIsOwned(owns[t]);
    }
  }

  lemma StepAtKeepsInv<T>(k: System<T>, e: SystemEvent<T>)
    requires SystemInv(k) && EnabledAt(k, e)
    ensures SystemInv(StepAt(k, e))
  {
    hide Sound, Ownership, QueueBlocks, Step, CreateMemory, TryAllocate, Freed, Coalesce, ReapFrom, DefragSafe, Held;
    var m := k.machine;
    match e
    case Schedule(e) =>
      StepKeepsInv(m, e);
      KeepsTasks(m, e);
      SameKeysOwnership(m.sched.tasks, Step(m, e).sched.tasks, k.chunks, k.owns);
      QueuesStay(m.sched.tasks, k.chunks, k.owns, k.queues, Step(m, e).sched.tasks, k.chunks);
    case Spawn(t, code) =>
      SpawnKeepsInv(k, t, code);
    case Sweep =>
      SweepKeepsInv(k);
    case Alloc(size) =>
      AllocKeepsOwnership(m.sched.tasks, k.chunks, k.owns, size);
      KeepsLiveQueues(m.sched.tasks, k.chunks, k.owns, TryAllocate(k.chunks, size).0, k.queues);
    case Free(o) =>
      FreeKeepsOwnership(m.sched.tasks, k.chunks, k.owns, o);
      OwnershipTiled(m.sched.tasks, k.chunks, k.owns);
      FreeKeepsQueues(m.sched.tasks, k.chunks, k.owns, o, k.queues);
    case Defrag =>
      DefragKeepsOwnership(m.sched.tasks, k.chunks, k.owns);
      KeepsLiveQueues(m.sched.tasks, k.chunks, k.owns, Coalesce(k.chunks), k.queues);
  }

  lemma KeepsTasks<T>(m: Machine<T>, e: Event<T>)
    requires Inv(m) && Enabled(m, e) && !e.Create? && !e.Reap?
    ensures forall t :: t in Step(m, e).sched.tasks ==> t in m.sched.tasks
  {
    hide Inv, SwitchTask, ReapFrom, Wakeup, FinishTask, SavePsp;
    var tasks := Step(m, e).sched.tasks;
    forall t | t in tasks ensures t in m.sched.tasks {
      if t !in m.sched.tasks {
        OnlyCreateAdds(m, e, t);
      }
    }
  }

  // ---------- main results ----------

  ghost predicate CanRunAt<T>(k: System<T>, events: seq<SystemEvent<T>>)
    requires SystemInv(k)
    decreases |events|
  {
    if events == [] then true
    else EnabledAt(k, events[0]) && (StepAtKeepsInv(k, events[0]); CanRunAt(StepAt(k, events[0]), events[1..]))
  }

  /** In every reachable state every task owns its blocks, and the scheduler invariant holds. */
  ghost function RunAt<T>(k: System<T>, events: seq<SystemEvent<T>>): (r: System<T>)
    requires SystemInv(k) && CanRunAt(k, events)
    ensures SystemInv(r)
    decreases |events|
  {
    if events == [] then k
    else StepAtKeepsInv(k, events[0]); RunAt(StepAt(k, events[0]), events[1..])
  }

  /** Because 64 slots hold at most 15 tasks, the 4-bit counter of the reaper never wraps: it is
      the number of dead tasks, and the gate of idle_runner never skips a needed pass. */
  lemma GateIsExact<T>(k: System<T>)
    requires SystemInv(k)
    ensures |k.machine.sched.tasks| <= 15
    ensures k.machine.sched.cleanUpRequests == |DeadTasks(k.machine.sched.tasks)| <= 14
    ensures k.machine.sched.cleanUpRequests != 0 <==>
      exists t :: t in k.machine.sched.tasks && IsDead(k.machine.sched.tasks[t])
  {
    hide Ownership, QueueBlocks, DeadTasks, IsDead, Sound;
    var tasks := k.machine.sched.tasks;
    TasksAndQueuesFit(k);
    IdleLives(k.machine);
    ProperSubsetSize(DeadTasks(tasks), tasks.Keys, k.machine.idle);
    NoDead(tasks);
  }

  lemma IdleLives<T>(m: Machine<T>)
    requires Inv(m)
    ensures m.idle in m.sched.tasks && m.idle !in DeadTasks(m.sched.tasks)
    ensures DeadTasks(m.sched.tasks) <= m.sched.tasks.Keys
    ensures m.sched.cleanUpRequests == |DeadTasks(m.sched.tasks)| % 16
    ensures |m.sched.tasks| == |m.sched.tasks.Keys|
  {
  }

  lemma NoDead<T>(tasks: map<T, Task>)
    ensures |DeadTasks(tasks)| != 0 <==> exists t :: t in tasks && IsDead(tasks[t])
  {
    if DeadTasks(tasks) != {} {
      var t :| t in DeadTasks(tasks);
      assert t in tasks && IsDead(tasks[t]);
    }
    if exists t :: t in tasks && IsDead(tasks[t]) {
      var t :| t in tasks && IsDead(tasks[t]);
      assert t in DeadTasks(tasks);
    }
  }

  /** The offsets that the tasks which left give back. */
  function GivenBack<T(==)>(before: map<T, Task>, after: map<T, Task>, owns: map<T, Blocks>): set<nat> {
    set t, o | t in before && t !in after && t in owns && o in Returned(owns[t]) :: o
  }

  /** A pass of the reaper frees exactly the stacks, TCBs, queue nodes and external code sections
      of the tasks it removes. */
  lemma {:induction false} ReapFreesExactly<T>(s: Scheduler<T>, idle: T, cs: seq<Chunk>, owns: map<T, Blocks>,
                                               q: T, j: nat, o: nat, n: nat)
    requires Sound(s, idle) && q in s.running && CurrentInRing(s)
    requires !IsDead(s.tasks[s.currentlyRunning.value])
    requires Ownership(s.tasks, cs, owns)
    ensures forall t :: t in s.running ==> t in owns
    ensures Held(ReapMemory(s, cs, owns, q, j), o, n) <==>
      Held(cs, o, n) && o !in GivenBack(s.tasks, ReapFrom(s, q, j).tasks, owns)
    decreases |s.running| - j
  {
    hide Sound, Distinct, Next, Ownership, CleanUp, Returned, Held;
    SoundParts(s, idle);
    OwnersKnown(s.tasks, cs, owns);
    if j < |s.running| {
      NextInRing(s.running, q);
      if IsDead(s.tasks[q]) {
        var r, ds := Reaped(s, q), CleanUp(cs, owns[q]);
        ReapedSound(s, idle, q);
        MinusElements(s.running, q);
        SoundParts(r, idle);
        CleanUpKeepsOthers(s.tasks, cs, owns, q);
        OwnersKnown(r.tasks, ds, owns);
        CleanUpExact(s.tasks, cs, owns, q, o, n);
        ReapFromFewer(s, idle, q, j);
        if Next(s.running, q) in r.running {
          ReapFromFewer(r, idle, Next(s.running, q), j + 1);
          ReapFreesExactly(r, idle, ds, owns, Next(s.running, q), j + 1, o, n);
        }
        GivenBackAlso(s.tasks, ReapFrom(s, q, j).tasks, owns, q);
      } else {
        ReapFreesExactly(s, idle, cs, owns, Next(s.running, q), j + 1, o, n);
      }
    }
  }

  lemma CleanUpExact<T>(tasks: map<T, Task>, cs: seq<Chunk>, owns: map<T, Blocks>, q: T, o: nat, n: nat)
    requires Ownership(tasks, cs, owns) && q in tasks
    ensures q in owns && (Held(CleanUp(cs, owns[q]), o, n) <==> Held(cs, o, n) && o !in Returned(owns[q]))
  {
    hide Owned, Held, Tiled, CleanUp;
    CleanUpFreesExactly(cs, owns[q]);
  }

  lemma ReapFromFewer<T>(s: Scheduler<T>, idle: T, q: T, j: nat)
    requires Sound(s, idle) && q in s.running && CurrentInRing(s)
    requires !IsDead(s.tasks[s.currentlyRunning.value])
    ensures Distinct(s.running) && forall t :: t in s.running ==> t in s.tasks
    ensures forall t :: t in ReapFrom(s, q, j).tasks ==> t in s.tasks
  {
    hide Sound, IsDead, ReapFrom;
    SoundParts(s, idle);
    ReapFromSound(s, idle, q, j);
  }

  lemma GivenBackAlso<T>(before: map<T, Task>, after: map<T, Task>, owns: map<T, Blocks>, q: T)
    requires q in before && q in owns && q !in after
    ensures GivenBack(before, after, owns) == GivenBack(before - {q}, after, owns) + Returned(owns[q])
  {
  }

  // ---------- boot ----------

  /** init_scheduler takes two queues, then create_task makes idle while no task is running. */
  function BootMemory(): (seq<Chunk>, Option<Blocks>) {
    var (c1, _) := TryAllocate([], QUEUE_SIZE);
    var (c2, _) := TryAllocate(c1, QUEUE_SIZE);
    CreateMemory(c2, false, None)
  }

  /** The first two blocks of an empty table. */
  const BOOT_QUEUES := Queues(0, 16)

  ghost function BootSystem<T>(idle: T, base: nat): System<T>
    requires BootMemory().1.Some?
  {
    var (cs, blocks) := BootMemory();
    System(Boot(idle, base + FrameStart(blocks.value.stack)), cs, map[idle := blocks.value], BOOT_QUEUES, base)
  }

  lemma CarvesWhenAllLive(cs: seq<Chunk>, size: nat, newSize: nat)
    requires forall i :: 0 <= i < |cs| ==> cs[i].live
    requires |cs| < NUM_OF_SLOTS && 1 <= size <= 32760 && RoundUp8(RoundUp4(size)) == newSize
    ensures TryAllocate(cs, size) == (cs + [Chunk(true, newSize)], Some(Total(cs)))
  {
    assert FirstFit(cs, RoundUp4(size), 0) == |cs|;
  }

  /** Booting on an empty table succeeds and establishes the invariant. */
  lemma BootSystemInv<T>(idle: T, base: nat)
    ensures BootMemory().1.Some? && SystemInv(BootSystem(idle, base))
  {
    hide CreateMemory, Boot, Owned, Held, Tiled, Parts, Inv;
    BootsFromEmpty();
    var (cs, blocks) := BootMemory();
    var frame := base + FrameStart(blocks.value.stack);
    BootInv(idle, frame);
    BootTasks(idle, frame);
  }

  lemma BootsFromEmpty()
    ensures BootMemory().1.Some? && Tiled(BootMemory().0) && Owned(BootMemory().0, BootMemory().1.value)
    ensures Held(BootMemory().0, BOOT_QUEUES.running, QUEUE_SIZE)
    ensures Held(BootMemory().0, BOOT_QUEUES.waiting, QUEUE_SIZE)
    ensures BOOT_QUEUES.running !in Parts(BootMemory().1.value) && BOOT_QUEUES.waiting !in Parts(BootMemory().1.value)
  {
    hide CreateMemory, Owned, Held, Parts, Tiled, TryAllocate, RoundUp4, RoundUp8, Total;
    Rounded(QUEUE_SIZE, 16);
    var q := Chunk(true, 16);
    CarvesWhenAllLive([], QUEUE_SIZE, 16);
    CarvesWhenAllLive([q], QUEUE_SIZE, 16);
    assert [] + [q] == [q] && [q] + [q] == [q, q];
    BootFrom([q, q]);
  }

  lemma BootTasks<T>(idle: T, frame: int)
    ensures Boot(idle, frame).sched.tasks == map[idle := Task(0, READY, frame)]
  {
    var s: Scheduler<T> := Scheduler([], [], map[], None, None, 0);
    var c := CreateTask(s, idle, frame);
    assert c.waiting == [idle];
    assert Find(c.waiting, c.tasks, IDLE_PID, 0) == 0;
  }

  /** Creating idle behind the two queues succeeds. */
  lemma BootFrom(c2: seq<Chunk>)
    requires c2 == [Chunk(true, 16), Chunk(true, 16)]
    ensures CreateMemory(c2, false, None).1.Some?
    ensures Tiled(CreateMemory(c2, false, None).0)
    ensures Owned(CreateMemory(c2, false, None).0, CreateMemory(c2, false, None).1.value)
    ensures Held(CreateMemory(c2, false, None).0, 0, QUEUE_SIZE)
    ensures Held(CreateMemory(c2, false, None).0, 16, QUEUE_SIZE)
    ensures 0 !in Parts(CreateMemory(c2, false, None).1.value) && 16 !in Parts(CreateMemory(c2, false, None).1.value)
  {
    hide TryAllocate, Owned, Held, KeepsLive, Parts, RoundUp4, RoundUp8;
    Sizes();
    var c3 := c2 + [Chunk(true, 1600)];
    var c4 := c3 + [Chunk(true, 56)];
    var c5 := c4 + [Chunk(true, 8)];
    CarvesWhenAllLive(c2, CPU_REGISTER_SIZE + STACK_SIZE, 1600);
    CarvesWhenAllLive(c3, TCB_SIZE, 56);
    CarvesWhenAllLive(c4, LIST_SIZE, 8);
    CarvesWhenAllLive(c5, NODE_SIZE, 16);
    TwoQueues(c2);
    CreateMemoryIsClean(c2, false, None);
    HeldKept(c2, CreateMemory(c2, false, None).0, 0, QUEUE_SIZE);
    HeldKept(c2, CreateMemory(c2, false, None).0, 16, QUEUE_SIZE);
  }

  lemma TwoQueues(c2: seq<Chunk>)
    requires c2 == [Chunk(true, 16), Chunk(true, 16)]
    ensures Tiled(c2) && Total(c2) == 32
    ensures Held(c2, 0, QUEUE_SIZE) && Held(c2, 16, QUEUE_SIZE) && Held(c2, 0, 0) && Held(c2, 16, 0)
  {
    assert Offset(c2, 0) == 0;
    assert Offset(c2, 1) == Offset(c2, 0) + c2[0].size;
    assert Offset(c2, 2) == Offset(c2, 1) + c2[1].size;
    assert LiveAt(c2, 0, 16) && LiveAt(c2, 16, 16);
  }
}
