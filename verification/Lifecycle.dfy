/** Tasks come and go: create_task of os/src/process/task.c, clean_up_task and
    search_invalidate_tasks of os/src/process/scheduler.c, on the kernel and the allocator in
    memory. Each is proved equal to its counterparts on values. */
module Lifecycles {
  import opened Chunks
  import opened Allocation
  import opened Scheduling
  import opened Machines
  import opened Runs
  import opened Rings
  import opened Kernels
  import opened TaskMemory
  import opened Systems

  /** The node, its TCB and what the TCB points to are the blocks b of a heap that starts at
      base. */
  ghost predicate Owner(n: Node, base: nat, b: Blocks) {
    && n.address == base + b.node
    && n.data.address == base + b.tcb
    && n.data.stackLowerBound == base + b.stack
    && n.data.codeSection == if b.code.Some? then Some(base + b.code.value) else None
  }

  function CodeOffset(ramLocation: nat, base: nat): Option<nat> {
    if ramLocation == 0 || ramLocation < base then None else Some(ramLocation - base)
  }

  // ---------- create_task ----------

  method TryGet(mem: Allocator, size: nat) returns (address: nat)
    requires mem.Valid() && size <= 32760 && Total(mem.chunks) < 0x1_0000
    modifies mem, mem.mem
    ensures mem.Valid()
    ensures var (cs, r) := TryAllocate(old(mem.chunks), size);
      && mem.chunks == cs
      && (r.None? ==> address == NULL)
      && (r.Some? ==> address == mem.useableStart + r.value && address != NULL)
    ensures Total(mem.chunks) <= Total(old(mem.chunks)) + RoundUp8(RoundUp4(size))
  {
    hide FirstFit, Tiled, Total, RoundUp4, RoundUp8;
    GrantedInRange(mem.chunks, size);
    TryAllocateIsClean(mem.chunks, size);
    address := mem.Allocate(size);
  }

  lemma GrantedInRange(cs: seq<Chunk>, size: nat)
    requires Tiled(cs) && Total(cs) < 0x1_0000
    ensures !Decide(cs, size).Refused? ==> Granted(cs, Decide(cs, size)) < 0x1_0000
  {
  }

  /** The allocations of create_task and of enqueue_element in their order. */
  method AllocateTask(mem: Allocator, hasParent: bool, ramLocation: nat)
    returns (ok: bool, stack: nat, tcb: nat, node: nat)
    requires mem.Valid() && Total(mem.chunks) + CREATE_BYTES <= 0x1_0000
    modifies mem, mem.mem
    ensures mem.Valid()
    ensures var (cs, blocks) := CreateMemory(old(mem.chunks), hasParent, CodeOffset(ramLocation, mem.useableStart));
      && mem.chunks == cs && ok == blocks.Some?
      && (ok ==>
          && stack == mem.useableStart + blocks.value.stack
          && tcb == mem.useableStart + blocks.value.tcb
          && node == mem.useableStart + blocks.value.node
          && node != NULL && blocks.value.code == CodeOffset(ramLocation, mem.useableStart))
  {
    hide Decide, Allocated, Granted, Total, RoundUp4, RoundUp8, Allocator.Valid, CodeOffset;
    Sizes();
    ok, stack, tcb, node := false, NULL, NULL, NULL;
    stack := TryGet(mem, CPU_REGISTER_SIZE + STACK_SIZE);
    if stack == NULL {
      return;
    }
    tcb := TryGet(mem, TCB_SIZE);
    if tcb == NULL {
      return;
    }
    if hasParent {
      var _ := TryGet(mem, LIST_NODE_SIZE);
    }
    var _ := TryGet(mem, LIST_SIZE);
    node := TryGet(mem, NODE_SIZE);
    ok := node != NULL;
  }

  /** Fills and enqueues a TCB, once everything is allocated. */
  method EnqueueTask(k: Kernel, stack: nat, tcbAddress: nat, nodeAddress: nat, ramLocation: nat)
    returns (pid: nat, node: Node)
    requires k.Valid() && nodeAddress != NULL
    modifies k.runningTasks, k.waitingTasks, k.runningTasks.nodes, k.waitingTasks.nodes
    ensures k.Valid() && k.Footprint() == old(k.Footprint()) + {node, node.data}
    ensures fresh(node) && fresh(node.data) && node.address == nodeAddress && node.data.address == tcbAddress
    ensures node.data.stackLowerBound == stack
    ensures node.data.codeSection == if ramLocation != 0 then Some(ramLocation) else None
    ensures node.data.parent == if k.currentlyRunning != null then k.currentlyRunning.data else null
    ensures pid == NewTask(old(k.State()), 0).pid
    ensures k.State() == Scheduling.CreateTask(old(k.State()), node, FrameStart(stack))
  {
    hide Distinct, Linked, Kernel.Valid, Kernel.Tasks, Kernel.Footprint, Kernel.State;
    k.StateParts();
    k.Sizes();
    pid := (k.runningTasks.size + k.waitingTasks.size) % 256;
    var state := if pid == 0 then WAITING else READY;
    var sp := stack + STACK_SIZE - CPU_REGISTER_SIZE;
    var codeSection := if ramLocation != 0 then Some(ramLocation) else None;
    var parent := if k.currentlyRunning != null then k.currentlyRunning.data else null;
    var tcb := new Tcb(tcbAddress, Task(pid, state, sp), stack, codeSection, parent);
    k.Unwritten();
    node := k.InsertScheduledTask(nodeAddress, tcb);
  }

  method CreateTask(k: Kernel, mem: Allocator, ramLocation: nat) returns (result: int, ghost node: Node?)
    requires k.Valid() && mem.Valid() && Total(mem.chunks) + CREATE_BYTES <= 0x1_0000
    requires ramLocation == 0 || mem.useableStart <= ramLocation
    modifies k.Footprint(), mem, mem.mem
    ensures k.Valid() && mem.Valid() && fresh(k.Footprint() - old(k.Footprint()))
    ensures var (cs, blocks) := CreateMemory(old(mem.chunks), old(k.currentlyRunning) != null,
        CodeOffset(ramLocation, mem.useableStart));
      && mem.chunks == cs
      && (blocks.None? ==> result == -1 && node == null && k.State() == old(k.State()))
      && (blocks.Some? ==>
          && node != null && fresh(node) && Owner(node, mem.useableStart, blocks.value)
          && node.data.parent == (if k.currentlyRunning != null then k.currentlyRunning.data else null)
          && result == NewTask(old(k.State()), 0).pid
          && k.State() == Scheduling.CreateTask(old(k.State()), node,
              mem.useableStart + FrameStart(blocks.value.stack)))
  {
    hide Distinct, Linked, CreateMemory, Total, Kernel.Valid, Kernel.Tasks, Kernel.Footprint, Kernel.State,
      Allocator.Valid;
    node := null;
    var ok, stack, tcbAddress, nodeAddress := AllocateTask(mem, k.currentlyRunning != null, ramLocation);
    k.Unwritten();
    k.RingsStay();
    if !ok {
      return -1, null;
    }
    result, node := EnqueueTask(k, stack, tcbAddress, nodeAddress, ramLocation);
  }

  // ---------- clean_up_task ----------

  /** Frees a block that is there. */
  method Release(mem: Allocator, address: nat) returns (panicked: bool)
    requires mem.Valid() && mem.useableStart <= address
    requires SlotAt(mem.chunks, address - mem.useableStart, 0) < |mem.chunks|
    modifies mem, mem.mem
    ensures mem.Valid() && !panicked
    ensures mem.chunks == Freed(old(mem.chunks), address - mem.useableStart)
  {
    hide Freed;
    SlotInRange(mem.chunks, address - mem.useableStart);
    var found := mem.Deallocate(address);
    panicked := found == 0;
  }

  lemma SlotInRange(cs: seq<Chunk>, offset: nat)
    requires Tiled(cs) && SlotAt(cs, offset, 0) < |cs|
    ensures offset < 0x1_0000
  {
  }

  /** The first part of clean_up_task: code section, stack and TCB. */
  method ReleaseTask(mem: Allocator, t: Tcb, ghost b: Blocks) returns (panicked: bool)
    requires mem.Valid() && AllFound(mem.chunks, b)
    requires t.address == mem.useableStart + b.tcb && t.stackLowerBound == mem.useableStart + b.stack
    requires t.codeSection == if b.code.Some? then Some(mem.useableStart + b.code.value) else None
    modifies mem, mem.mem
    ensures mem.Valid() && !panicked
    ensures CleanUp(old(mem.chunks), b) == Freed(mem.chunks, b.node)
    ensures SlotAt(mem.chunks, b.node, 0) < |mem.chunks|
  {
    hide SlotAt, Freed, Allocator.Valid;
    panicked := false;
    if t.codeSection.Some? {
      panicked := Release(mem, t.codeSection.value);
    }
    var failed := Release(mem, t.stackLowerBound);
    panicked := panicked || failed;
    failed := Release(mem, t.address);
    panicked := panicked || failed;
  }

  method CleanUpTask(k: Kernel, mem: Allocator, n: Node, ghost b: Blocks) returns (panicked: bool)
    requires k.Valid() && mem.Valid() && n in k.runningTasks.nodes && k.runningTasks.size >= 2
    requires Owner(n, mem.useableStart, b) && Owned(mem.chunks, b)
    modifies k.runningTasks, k.runningTasks.nodes, mem, mem.mem
    ensures k.Valid() && mem.Valid() && !panicked && n.next == old(n.next)
    ensures mem.chunks == CleanUp(old(mem.chunks), b)
    ensures k.Footprint() <= old(k.Footprint())
    ensures k.State() == old(k.State()).(running := Minus(old(k.runningTasks.nodes), n),
                                         tasks := old(k.Tasks()) - {n})
  {
    hide Distinct, Linked, Minus, Owned, SlotAt, Freed, CleanUp, Kernel.Valid, Kernel.Tasks,
      Kernel.Footprint, Kernel.State,
      Allocator.Valid;
    TiledHeap(mem);
    CleanUpFreesExactly(mem.chunks, b);
    panicked := ReleaseTask(mem, n.data, b);
    k.Unwritten();
    k.Dequeue(n);
    label dequeued:
    var failed := Release(mem, n.address);
    k.Unwritten@dequeued();
    panicked := panicked || failed;
  }

  lemma TiledHeap(mem: Allocator)
    requires mem.Valid()
    ensures Tiled(mem.chunks)
  {
  }

  // ---------- search_invalidate_tasks ----------

  /** What the reaper needs in every round. */
  ghost predicate Reapable(k: Kernel, mem: Allocator, idle: Node, owns: map<Node, Blocks>)
    reads k, k.runningTasks, k.waitingTasks, Tcbs(k.Nodes()), mem
  {
    && CurrentInRing(k.State()) && !IsDead(k.State().tasks[k.currentlyRunning])
    && Sound(k.State(), idle)
    && Ownership(k.State().tasks, mem.chunks, owns)
    && forall n :: n in k.runningTasks.nodes ==> n in owns && Owner(n, mem.useableStart, owns[n])
  }

  lemma CurrentIsNotReaped(k: Kernel, mem: Allocator, idle: Node, owns: map<Node, Blocks>, q: Node)
    requires k.Valid() && Reapable(k, mem, idle, owns) && q in k.runningTasks.nodes
    ensures q in owns && Owner(q, mem.useableStart, owns[q]) && Owned(mem.chunks, owns[q])
    ensures q in k.Tasks() && k.Tasks()[q] == q.data.Value()
    ensures IsDead(k.Tasks()[q]) ==> k.runningTasks.size >= 2 && k.currentlyRunning != q
  {
    hide Distinct, Linked, Owned, Owner, Parts;
    if IsDead(k.Tasks()[q]) {
      TwoMembers(k.runningTasks.nodes, q, k.currentlyRunning);
    }
  }

  lemma TwoMembers(q: seq<Node>, a: Node, b: Node)
    requires a in q && b in q && a != b
    ensures |q| >= 2
  {
  }

  /** The invariant of the loop on values. */
  lemma RoundKeeps(s: Scheduler<Node>, idle: Node, cs: seq<Chunk>, owns: map<Node, Blocks>, q: Node)
    requires Sound(s, idle) && CurrentInRing(s) && q in s.running && IsDead(s.tasks[q])
    requires !IsDead(s.tasks[s.currentlyRunning.value]) && Ownership(s.tasks, cs, owns)
    ensures Sound(Reaped(s, q), idle) && CurrentInRing(Reaped(s, q))
    ensures !IsDead(Reaped(s, q).tasks[s.currentlyRunning.value])
    ensures Ownership(Reaped(s, q).tasks, CleanUp(cs, owns[q]), owns)
    ensures |Reaped(s, q).running| < |s.running|
  {
    hide Sound, Ownership, CleanUp, DeadTasks;
    SoundParts(s, idle);
    MinusElements(s.running, q);
    ReapedSound(s, idle, q);
    SoundParts(Reaped(s, q), idle);
    CleanUpKeepsOthers(s.tasks, cs, owns, q);
  }

  method ReapIfDead(k: Kernel, mem: Allocator, q: Node, ghost idle: Node, ghost owns: map<Node, Blocks>)
    returns (panicked: bool)
    requires k.Valid() && mem.Valid() && Reapable(k, mem, idle, owns) && q in k.runningTasks.nodes
    modifies k, k.runningTasks, k.runningTasks.nodes, mem, mem.mem
    ensures k.Valid() && mem.Valid() && Reapable(k, mem, idle, owns) && !panicked
    ensures k.Footprint() <= old(k.Footprint()) && q.next == old(q.next)
    ensures k.runningTasks.size <= old(k.runningTasks.size)
    ensures var s := old(k.State());
      && k.State() == (if IsDead(s.tasks[q]) then Reaped(s, q) else s)
      && mem.chunks == (if IsDead(s.tasks[q]) then CleanUp(old(mem.chunks), owns[q]) else old(mem.chunks))
  {
    hide Distinct, Linked, Owned, Owner, Ownership, Sound, CleanUp, Kernel.Valid, Kernel.Tasks,
      Kernel.Footprint, Allocator.Valid;
    CurrentIsNotReaped(k, mem, idle, owns, q);
    k.Sizes();
    panicked := false;
    if q.data.state == FINISHED || q.data.state == INVALID {
      RoundKeeps(k.State(), idle, mem.chunks, owns, q);
      panicked := CleanUpTask(k, mem, q, owns[q]);
      k.CountReaped();
      k.Sizes();
    }
  }

  /** search_invalidate_tasks, called by idle: the pass does to the rings what ReapFrom does and
      to the heap what ReapMemory does, and every deallocation succeeds. */
  method SearchInvalidateTasks(k: Kernel, mem: Allocator, ghost idle: Node, ghost owns: map<Node, Blocks>)
    returns (panicked: bool)
    requires k.Valid() && mem.Valid() && Reapable(k, mem, idle, owns)
    modifies k.Footprint(), mem, mem.mem
    ensures k.Valid() && mem.Valid() && Reapable(k, mem, idle, owns) && !panicked
    ensures k.State() == Scheduling.SearchInvalidateTasks(old(k.State()))
    ensures mem.chunks == ReapMemory(old(k.State()), old(mem.chunks), owns, old(k.currentlyRunning), 0)
  {
    hide Distinct, Linked, Ownership, Sound, CleanUp, Reaped, Kernel.Valid, Kernel.Tasks, Kernel.Footprint,
      Allocator.Valid,
      Reapable, IsDead, ReapFrom, ReapMemory, Next;
    ReapableParts(k, mem, idle, owns);
    panicked := false;
    var q: Node := k.currentlyRunning;
    ghost var goal, goalMemory := ReapFrom(k.State(), q, 0), ReapMemory(k.State(), mem.chunks, owns, q, 0);
    var j := 0;
    while j < k.runningTasks.size
      invariant k.Valid() && mem.Valid() && Reapable(k, mem, idle, owns) && !panicked
      invariant k.Footprint() <= old(k.Footprint())
      invariant q in k.State().running && Distinct(k.State().running)
      invariant forall t :: t in k.State().running ==> t in k.State().tasks && t in owns
      invariant ReapFrom(k.State(), q, j) == goal && ReapMemory(k.State(), mem.chunks, owns, q, j) == goalMemory
      decreases k.runningTasks.size - j
    {
      k.Sizes();
      ReapRound(k.State(), mem.chunks, owns, q, j);
      CurrentIsNotReaped(k, mem, idle, owns, q);
      NextIs(k, q);
      var failed := ReapIfDead(k, mem, q, idle, owns);
      panicked := panicked || failed;
      ReapableParts(k, mem, idle, owns);
      q := q.next;
      j := j + 1;
    }
    k.Sizes();
    ReapDone(k.State(), mem.chunks, owns, q, j);
  }

  lemma NextIs(k: Kernel, q: Node)
    requires k.Valid() && q in k.runningTasks.nodes
    ensures q.next == Next(k.runningTasks.nodes, q)
  {
    LinkedAt(k.runningTasks.nodes, IndexOf(k.runningTasks.nodes, q));
  }

  lemma ReapableParts(k: Kernel, mem: Allocator, idle: Node, owns: map<Node, Blocks>)
    requires k.Valid() && Reapable(k, mem, idle, owns)
    ensures CurrentInRing(k.State()) && Distinct(k.runningTasks.nodes)
    ensures forall t :: t in k.State().running ==> t in k.State().tasks && t in owns
  {
  }

  // ---------- boot ----------

  /** setup_kernel_runtime on a fresh heap: init_scheduler, create_task for idle, run_scheduler.
      None of the three fails, and the kernel is in the boot state of the runs. */
  method SetupKernelRuntime(mem: Allocator) returns (ok: bool, k: Kernel?, ghost idle: Node?)
    requires mem.Valid() && mem.chunks == []
    modifies mem, mem.mem
    ensures ok && k != null && idle != null && fresh(k) && k.Valid() && mem.Valid()
    ensures BootMemory().1.Some?
    ensures var boot := BootSystem<Node>(idle, mem.useableStart);
      && SystemInv(boot)
      && k.State() == boot.machine.sched && mem.chunks == boot.chunks
      && Owner(idle, mem.useableStart, boot.owns[idle])
      && k.runningTasks.address == mem.useableStart + boot.queues.running
      && k.waitingTasks.address == mem.useableStart + boot.queues.waiting
  {
    hide Distinct, Linked, CreateMemory, TryAllocate, Total, RoundUp4, RoundUp8, Kernel.Valid, Kernel.Tasks,
      Kernel.Footprint, Allocator.Valid, SystemInv, Boot, Owner, Wakeup, Scheduling.CreateTask;
    ok, k, idle := false, null, null;
    EmptyHeap();
    BootParts();
    var running := TryGet(mem, QUEUE_SIZE);
    if running == NULL {
      return;
    }
    var waiting := TryGet(mem, QUEUE_SIZE);
    if waiting == NULL {
      return;
    }
    k := new Kernel(running, waiting);
    var pid;
    pid, idle := CreateTask(k, mem, 0);
    if pid == -1 {
      return;
    }
    BootSystemInv<Node>(idle, mem.useableStart);
    BootIsRunScheduler<Node>(idle, mem.useableStart + FrameStart(BootMemory().1.value.stack));
    var result := k.RunScheduler();
    ok := result != -1;
  }

  lemma EmptyHeap()
    ensures Total([]) == 0 && RoundUp8(RoundUp4(QUEUE_SIZE)) == 16
  {
    Rounded(QUEUE_SIZE, 16);
  }

  lemma BootParts()
    ensures var (c1, q1) := TryAllocate([], QUEUE_SIZE); var (c2, q2) := TryAllocate(c1, QUEUE_SIZE);
      && q1 == Some(BOOT_QUEUES.running) && q2 == Some(BOOT_QUEUES.waiting)
      && BootMemory() == CreateMemory(c2, false, None) && BootMemory().1.Some?
  {
    hide CreateMemory, TryAllocate, RoundUp4, RoundUp8;
    BootsFromEmpty();
    Rounded(QUEUE_SIZE, 16);
    var q := Chunk(true, 16);
    CarvesWhenAllLive([], QUEUE_SIZE, 16);
    CarvesWhenAllLive([q], QUEUE_SIZE, 16);
    assert [] + [q] == [q];
    assert Total([q]) == 16 && Total([]) == 0 by { assert Offset([q], 1) == Offset([q], 0) + [q][0].size; }
  }
}
