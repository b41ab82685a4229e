/** The kernel in memory is the state machine of module Systems: from setup_kernel_runtime on,
    every operation on the rings, the TCBs and the slot table is one step of it. */
module Simulation {
  import opened Chunks
  import opened Coalescing
  import opened Allocation
  import opened Scheduling
  import opened Machines
  import opened Rings
  import opened Kernels
  import opened TaskMemory
  import opened Systems
  import opened Lifecycles

  /** Nodes and TCBs lie in the blocks that their tasks own. */
  ghost predicate Located(sys: System<Node>) {
    forall t :: t in sys.machine.sched.tasks && t in sys.owns ==> Owner(t, sys.base, sys.owns[t])
  }

  ghost predicate Refines(k: Kernel, mem: Allocator, sys: System<Node>)
    reads k, k.runningTasks, k.waitingTasks, k.runningTasks.nodes, k.waitingTasks.nodes, Tcbs(k.Nodes()), mem, mem.mem
  {
    && k.Valid() && mem.Valid()
    && k.State() == sys.machine.sched
    && mem.chunks == sys.chunks && mem.useableStart == sys.base
    && SystemInv(sys) && Located(sys)
    && k.runningTasks.address == sys.base + sys.queues.running
    && k.waitingTasks.address == sys.base + sys.queues.waiting
  }

  lemma Apart(k: Kernel, mem: Allocator)
    ensures mem !in k.Footprint() && mem.mem !in k.Footprint()
  {
  }

  lemma StaysLocated(sys: System<Node>, e: Event<Node>)
    requires SystemInv(sys) && Located(sys) && EnabledAt(sys, Schedule(e))
    ensures SystemInv(StepAt(sys, Schedule(e))) && Located(StepAt(sys, Schedule(e)))
  {
    hide SystemInv, Owner, Step;
    StepAtKeepsInv(sys, Schedule(e));
    MachineInv(sys);
    KeepsTasks(sys.machine, e);
  }

  lemma MachineInv(sys: System<Node>)
    requires SystemInv(sys)
    ensures Inv(sys.machine)
    ensures CurrentInRing(sys.machine.sched) || sys.machine.pending
    ensures !sys.machine.pending ==> sys.machine.sched.currentlyRunning == Some(sys.machine.executing)
    ensures Known(sys.machine.sched)
  {
  }

  // ---------- the scheduler ----------

  method Wake(k: Kernel, mem: Allocator, pid: nat, ghost sys: System<Node>)
    requires Refines(k, mem, sys)
    modifies k.Footprint()
    ensures Refines(k, mem, StepAt(sys, Schedule(Event.Wake(pid))))
  {
    hide SystemInv, Located, Kernel.Valid, Kernel.State, Allocator.Valid, Kernel.Footprint, Wakeup, Woken;
    Apart(k, mem);
    MachineInv(sys);
    StaysLocated(sys, Event.Wake(pid));
    var _ := k.WakeupPid(pid);
  }

  method Block(k: Kernel, mem: Allocator, ghost sys: System<Node>)
    requires Refines(k, mem, sys) && EnabledAt(sys, Schedule(Event.Block))
    modifies k.Footprint()
    ensures Refines(k, mem, StepAt(sys, Schedule(Event.Block)))
  {
    hide SystemInv, Located, Kernel.Valid, Kernel.State, Allocator.Valid, Kernel.Footprint;
    Apart(k, mem);
    MachineInv(sys);
    StaysLocated(sys, Event.Block);
    k.BlockCurrentTask();
  }

  method Finish(k: Kernel, mem: Allocator, ghost sys: System<Node>)
    requires Refines(k, mem, sys) && EnabledAt(sys, Schedule(Event.Finish(k.JoiningParent())))
    modifies k.Footprint()
    ensures Refines(k, mem, StepAt(sys, Schedule(Event.Finish(old(k.JoiningParent())))))
  {
    hide SystemInv, Located, Kernel.Valid, Kernel.State, Allocator.Valid, Kernel.Footprint, Scheduling.FinishTask;
    Apart(k, mem);
    MachineInv(sys);
    StaysLocated(sys, Event.Finish(k.JoiningParent()));
    k.FinishTask();
  }

  method Invalidate(k: Kernel, mem: Allocator, ghost sys: System<Node>)
    requires Refines(k, mem, sys) && EnabledAt(sys, Schedule(Event.Invalidate))
    modifies k.Footprint()
    ensures Refines(k, mem, StepAt(sys, Schedule(Event.Invalidate)))
  {
    hide SystemInv, Located, Kernel.Valid, Kernel.State, Allocator.Valid, Kernel.Footprint;
    Apart(k, mem);
    MachineInv(sys);
    StaysLocated(sys, Event.Invalidate);
    k.InvalidateCurrentTask();
  }

  /** pendsv_isr, on the process stack pointer of the machine. */
  method SwitchContext(k: Kernel, mem: Allocator, psp: int, dma: bool, ghost sys: System<Node>) returns (nextSp: int)
    requires Refines(k, mem, sys) && EnabledAt(sys, Schedule(PendSV(dma))) && psp == sys.machine.psp
    modifies k.Footprint()
    ensures Refines(k, mem, StepAt(sys, Schedule(PendSV(dma))))
    ensures nextSp == StepAt(sys, Schedule(PendSV(dma))).machine.psp
  {
    hide SystemInv, Located, Kernel.Valid, Kernel.State, Allocator.Valid, Kernel.Footprint, Step;
    Apart(k, mem);
    MachineInv(sys);
    StaysLocated(sys, PendSV(dma));
    nextSp := k.PendsvIsr(psp, dma, sys.machine);
  }

  // ---------- tasks ----------

  lemma TasksAreNodes(k: Kernel)
    ensures forall t :: t in k.State().tasks <==> t in k.Nodes()
    ensures k.State().currentlyRunning == Opt(k.currentlyRunning)
    ensures k.State().cleanUpRequests == k.cleanUpRequests
  {
  }

  /** A failed create_task keeps the invariant. */
  lemma FailedSpawn(sys: System<Node>, code: Option<nat>)
    requires SystemInv(sys) && Located(sys) && Total(sys.chunks) + CREATE_BYTES <= 0x1_0000
    requires code.Some? ==> Held(sys.chunks, code.value, 0)
    ensures var k := sys.(chunks := CreateMemory(sys.chunks, sys.machine.sched.currentlyRunning.Some?, code).0);
      SystemInv(k) && Located(k)
  {
    hide Ownership, QueueBlocks, Inv, CreateMemory, Owned, Held, Parts, Tiled, Total, KeepsLive;
    var tasks, hasParent := sys.machine.sched.tasks, sys.machine.sched.currentlyRunning.Some?;
    OwnershipTiled(tasks, sys.chunks, sys.owns);
    CreateMemoryIsClean(sys.chunks, hasParent, code);
    KeepsLiveOwnership(tasks, sys.chunks, sys.owns, CreateMemory(sys.chunks, hasParent, code).0);
    KeepsLiveQueues(tasks, sys.chunks, sys.owns, CreateMemory(sys.chunks, hasParent, code).0, sys.queues);
  }

  /** The step of the state machine that a successful create_task is. */
  lemma SpawnedSystem(sys: System<Node>, node: Node, code: Option<nat>)
    requires SystemInv(sys) && Located(sys) && EnabledAt(sys, SystemEvent.Spawn(node, code))
    requires var (cs, blocks) := CreateMemory(sys.chunks, sys.machine.sched.currentlyRunning.Some?, code);
      blocks.Some? && Owner(node, sys.base, blocks.value)
    ensures var (cs, blocks) := CreateMemory(sys.chunks, sys.machine.sched.currentlyRunning.Some?, code);
      var k := StepAt(sys, SystemEvent.Spawn(node, code));
      && SystemInv(k) && Located(k) && k.base == sys.base && k.queues == sys.queues && k.chunks == cs
      && k.machine.sched == Scheduling.CreateTask(sys.machine.sched, node, sys.base + FrameStart(blocks.value.stack))
  {
    hide Sound, Ownership, Owner, TryAllocate, Held, Parts, Total;
    var e := SystemEvent.Spawn(node, code);
    StepAtKeepsInv(sys, e);
    var (cs, blocks) := CreateMemory(sys.chunks, sys.machine.sched.currentlyRunning.Some?, code);
    TasksFitTable(sys.machine.sched.tasks, sys.chunks, sys.owns);
    CreateSound(sys.machine.sched, sys.machine.idle, node, sys.base + FrameStart(blocks.value.stack));
  }

  /** create_task. If it fails the scheduler is as before, and the blocks taken so far are lost. */
  method Spawn(k: Kernel, mem: Allocator, ramLocation: nat, ghost sys: System<Node>)
    returns (result: int, ghost node: Node?)
    requires Refines(k, mem, sys) && !sys.machine.pending && Total(mem.chunks) + CREATE_BYTES <= 0x1_0000
    requires ramLocation == 0 || mem.useableStart <= ramLocation
    requires var code := CodeOffset(ramLocation, mem.useableStart);
      code.Some? ==>
        && Held(mem.chunks, code.value, 0)
        && code.value != sys.queues.running && code.value != sys.queues.waiting
        && forall t :: t in sys.machine.sched.tasks && t in sys.owns ==> code.value !in Parts(sys.owns[t])
    modifies k.Footprint(), mem, mem.mem
    ensures result != -1 ==>
      && node != null && fresh(node)
      && EnabledAt(sys, SystemEvent.Spawn(node, CodeOffset(ramLocation, sys.base)))
      && Refines(k, mem, StepAt(sys, SystemEvent.Spawn(node, CodeOffset(ramLocation, sys.base))))
    ensures result == -1 ==> Refines(k, mem, sys.(chunks := mem.chunks))
  {
    hide SystemInv, Located, Kernel.Valid, Kernel.State, Allocator.Valid, Kernel.Footprint, Scheduling.CreateTask, Held,
      TryAllocate, Owner, Parts, Total, StepAt;
    ghost var code := CodeOffset(ramLocation, sys.base);
    TasksAreNodes(k);
    assert forall t :: t in sys.machine.sched.tasks ==> t in old(k.Nodes());
    FailedSpawn(sys, code);
    result, node := Lifecycles.CreateTask(k, mem, ramLocation);
    if node != null {
      SpawnedSystem(sys, node, code);
    }
  }

  lemma SweptStaysLocated(sys: System<Node>)
    requires SystemInv(sys) && Located(sys) && EnabledAt(sys, Sweep)
    ensures SystemInv(StepAt(sys, Sweep)) && Located(StepAt(sys, Sweep))
  {
    hide Ownership, Owner, ReapFrom, ReapMemory, Sound;
    StepAtKeepsInv(sys, Sweep);
    ReadyIsAlive(sys.machine);
    SoundParts(sys.machine.sched, sys.machine.idle);
    ReapFromFewer(sys.machine.sched, sys.machine.idle, sys.machine.executing, 0);
  }

  lemma NeedsOfReaper(k: Kernel, mem: Allocator, sys: System<Node>)
    requires Refines(k, mem, sys) && EnabledAt(sys, Sweep)
    ensures Lifecycles.Reapable(k, mem, sys.machine.idle, sys.owns)
  {
    hide Owner, Owned, Distinct, Linked, Parts;
    ReadyIsAlive(sys.machine);
  }

  /** The gate of idle_runner and the reaper. */
  method ReapGate(k: Kernel, mem: Allocator, ghost sys: System<Node>) returns (panicked: bool)
    requires Refines(k, mem, sys) && EnabledAt(sys, Sweep)
    modifies k.Footprint(), mem, mem.mem
    ensures !panicked && Refines(k, mem, StepAt(sys, Sweep))
  {
    hide SystemInv, Located, Kernel.Valid, Kernel.State, Allocator.Valid, Kernel.Footprint, Reapable;
    MachineInv(sys);
    TasksAreNodes(k);
    SweptStaysLocated(sys);
    panicked := false;
    if k.cleanUpRequests != 0 {
      NeedsOfReaper(k, mem, sys);
      panicked := Lifecycles.SearchInvalidateTasks(k, mem, sys.machine.idle, sys.owns);
    }
  }

  // ---------- the allocator, called by anyone else ----------

  lemma StaysLocatedElsewhere(sys: System<Node>, e: SystemEvent<Node>)
    requires SystemInv(sys) && Located(sys) && EnabledAt(sys, e) && (e.Alloc? || e.Free? || e.Defrag?)
    ensures SystemInv(StepAt(sys, e)) && Located(StepAt(sys, e))
  {
    hide SystemInv, Owner;
    StepAtKeepsInv(sys, e);
  }

  method Take(k: Kernel, mem: Allocator, size: nat, ghost sys: System<Node>) returns (address: nat)
    requires Refines(k, mem, sys) && EnabledAt(sys, Alloc(size))
    modifies mem, mem.mem
    ensures Refines(k, mem, StepAt(sys, Alloc(size)))
  {
    hide SystemInv, Located, Kernel.Valid, Kernel.State, Kernel.Tasks, Allocator.Valid, Decide;
    StaysLocatedElsewhere(sys, Alloc(size));
    address := mem.Allocate(size);
    k.Unwritten();
  }

  method Return(k: Kernel, mem: Allocator, address: nat, ghost sys: System<Node>) returns (found: nat)
    requires Refines(k, mem, sys) && EnabledAt(sys, Free(OffsetFrom(address, mem.useableStart)))
    modifies mem, mem.mem
    ensures Refines(k, mem, StepAt(sys, Free(OffsetFrom(address, mem.useableStart))))
  {
    hide SystemInv, Located, Kernel.Valid, Kernel.State, Kernel.Tasks, Allocator.Valid, Freed, SlotAt;
    StaysLocatedElsewhere(sys, Free(OffsetFrom(address, mem.useableStart)));
    found := mem.Deallocate(address);
    k.Unwritten();
  }

  method Compact(k: Kernel, mem: Allocator, ghost sys: System<Node>)
    requires Refines(k, mem, sys) && EnabledAt(sys, SystemEvent.Defrag)
    modifies mem, mem.mem
    ensures Refines(k, mem, StepAt(sys, SystemEvent.Defrag))
  {
    hide SystemInv, Located, Kernel.Valid, Kernel.State, Kernel.Tasks, Allocator.Valid, Coalesce;
    StaysLocatedElsewhere(sys, SystemEvent.Defrag);
    mem.Defrag();
    k.Unwritten();
  }

  // ---------- boot ----------

  method Boot(mem: Allocator) returns (k: Kernel?, ghost idle: Node?)
    requires mem.Valid() && mem.chunks == []
    modifies mem, mem.mem
    ensures k != null && idle != null && fresh(k) && BootMemory().1.Some?
    ensures Refines(k, mem, BootSystem<Node>(idle, mem.useableStart))
  {
    hide SystemInv, Kernel.Valid, Kernel.State, Allocator.Valid, Owner, BootMemory;
    var ok;
    ok, k, idle := Lifecycles.SetupKernelRuntime(mem);
    BootTasks<Node>(idle, mem.useableStart + FrameStart(BootMemory().1.value.stack));
  }
}
