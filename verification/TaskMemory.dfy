/** The memory of tasks: what create_task (os/src/process/task.c) takes from the allocator and
    what clean_up_task (os/src/process/scheduler.c) gives back. Blocks are named by their offset
    from the start of the administered memory. */
module TaskMemory {
  import opened Chunks
  import opened Sets
  import opened Scheduling

  const STACK_SIZE: nat := 1536
  const CPU_REGISTER_SIZE: nat := 64   // sizeof(CpuRegister_t)
  const TCB_SIZE: nat := 52            // sizeof(Tcb_t) with DEBUG set
  const LIST_SIZE: nat := 8            // sizeof(List_t)
  const LIST_NODE_SIZE: nat := 8       // sizeof(SingleLinkedNode_t)
  const NODE_SIZE: nat := 12           // sizeof(Node_t)
  const QUEUE_SIZE: nat := 12          // sizeof(Queue_t)

  /** The most that create_task can carve. */
  const CREATE_BYTES: nat := 1688

  // ---------- one allocation ----------

  function TryAllocate(cs: seq<Chunk>, size: nat): (seq<Chunk>, Option<nat>) {
    var outcome := Decide(cs, size);
    (Allocated(cs, outcome), if outcome.Refused? then None else Some(Granted(cs, outcome)))
  }

  /** The block at this offset is live and has at least n bytes. */
  ghost predicate Held(cs: seq<Chunk>, offset: nat, n: nat) {
    exists s :: s >= n && LiveAt(cs, offset, s)
  }

  /** Live blocks stay live. */
  ghost predicate KeepsLive(cs: seq<Chunk>, ds: seq<Chunk>) {
    forall o, s :: LiveAt(cs, o, s) ==> LiveAt(ds, o, s)
  }

  lemma TryAllocateIsClean(cs: seq<Chunk>, size: nat)
    requires Tiled(cs) && size <= 32760 && Total(cs) < 0x1_0000
    ensures var (ds, r) := TryAllocate(cs, size);
      && Tiled(ds) && KeepsLive(cs, ds)
      && Total(ds) <= Total(cs) + RoundUp8(RoundUp4(size))
      && (r.Some? ==> Held(ds, r.value, size) && !Held(cs, r.value, 0))
  {
    hide LiveAt, Tiled, FirstFit;
    if !Decide(cs, size).Refused? {
      AllocationIsClean(cs, size);
      AllocatedTotal(cs, size);
    }
  }

  lemma AllocatedTotal(cs: seq<Chunk>, size: nat)
    ensures Total(Allocated(cs, Decide(cs, size))) <= Total(cs) + RoundUp8(RoundUp4(size))
  {
    hide FirstFit, RoundUp4, RoundUp8;
    var ds := Allocated(cs, Decide(cs, size));
    OffsetSameSizes(cs, ds, |cs|);
  }

  /** A refusal stays one for larger requests. */
  lemma RefusalIsMonotone(cs: seq<Chunk>, small: nat, large: nat)
    requires 1 <= small <= large && small <= 32764 && Decide(cs, small).Refused?
    ensures Decide(cs, large).Refused?
  {
    hide RoundUp4, FirstFit;
    RoundUp4Grows(small, large);
    RoundUp4Grows(small, 32764);
    var a, b := RoundUp4(small), RoundUp4(large);
    var slot := FirstFit(cs, b, 0);
    assert FirstFit(cs, a, 0) == |cs|;
  }

  lemma RoundUp4Grows(a: nat, b: nat)
    requires a <= b
    ensures RoundUp4(a) <= RoundUp4(b) && RoundUp4(32764) == 32764
  {
    assert (a + 3) / 4 <= (b + 3) / 4;
  }

  // ---------- create_task ----------

  /** What a task owns. The child list is never freed. */
  datatype Blocks = Blocks(stack: nat, tcb: nat, list: nat, node: nat, code: Option<nat>)

  function Parts(b: Blocks): set<nat> {
    {b.stack, b.tcb, b.list, b.node} + if b.code.Some? then {b.code.value} else {}
  }

  function PartCount(b: Blocks): nat { if b.code.Some? then 5 else 4 }

  /** The allocations of create_task in their order: stack, TCB, a link in the parent's child
      list if a task is running, the child list, the queue node. Blocks obtained before a
      failure are not given back. */
  function CreateMemory(cs: seq<Chunk>, hasParent: bool, code: Option<nat>): (seq<Chunk>, Option<Blocks>) {
    var (c1, stack) := TryAllocate(cs, CPU_REGISTER_SIZE + STACK_SIZE);
    if stack.None? then (c1, None) else
    var (c2, tcb) := TryAllocate(c1, TCB_SIZE);
    if tcb.None? then (c2, None) else
    var c3 := if hasParent then TryAllocate(c2, LIST_NODE_SIZE).0 else c2;
    var (c4, list) := TryAllocate(c3, LIST_SIZE);
    var (c5, node) := TryAllocate(c4, NODE_SIZE);
    if node.None? then (c5, None)
    else
      (c5, Some(Blocks(stack.value, tcb.value, if list.Some? then list.value else 0, node.value, code)))
  }

  ghost predicate Owned(cs: seq<Chunk>, b: Blocks) {
    && Held(cs, b.stack, CPU_REGISTER_SIZE + STACK_SIZE)
    && Held(cs, b.tcb, TCB_SIZE)
    && Held(cs, b.list, LIST_SIZE)
    && Held(cs, b.node, NODE_SIZE)
    && (b.code.Some? ==> Held(cs, b.code.value, 0))
    && |Parts(b)| == PartCount(b)
  }

  lemma HeldKept(cs: seq<Chunk>, ds: seq<Chunk>, offset: nat, n: nat)
    requires KeepsLive(cs, ds) && Held(cs, offset, n)
    ensures Held(ds, offset, n) && Held(ds, offset, 0)
  {
    var s :| s >= n && LiveAt(cs, offset, s);
    assert LiveAt(ds, offset, s);
  }

  lemma KeepsLiveTrans(a: seq<Chunk>, b: seq<Chunk>, c: seq<Chunk>)
    requires KeepsLive(a, b) && KeepsLive(b, c)
    ensures KeepsLive(a, c)
  {
  }

  /** A new task gets blocks of its own: live, large enough, pairwise different, and none of
      them was live before. A full table makes create_task fail, never return a task without
      its child list. */
  lemma CreateMemoryIsClean(cs: seq<Chunk>, hasParent: bool, code: Option<nat>)
    requires Tiled(cs) && Total(cs) + CREATE_BYTES <= 0x1_0000
    requires code.Some? ==> Held(cs, code.value, 0)
    ensures var (ds, b) := CreateMemory(cs, hasParent, code);
      && Tiled(ds) && KeepsLive(cs, ds) && Total(ds) <= Total(cs) + CREATE_BYTES
      && (b.Some? ==>
          && Owned(ds, b.value) && b.value.code == code
          && (forall o :: o in Parts(b.value) && code != Some(o) ==> !Held(cs, o, 0)))
  {
    hide Held, KeepsLive, Tiled, TryAllocate, RoundUp4, RoundUp8, Total;
    var (c1, stack) := TryAllocate(cs, CPU_REGISTER_SIZE + STACK_SIZE);
    Sizes();
    TryAllocateIsClean(cs, CPU_REGISTER_SIZE + STACK_SIZE);
    if stack.Some? {
      var (c2, tcb) := TryAllocate(c1, TCB_SIZE);
      TryAllocateIsClean(c1, TCB_SIZE);
      KeepsLiveTrans(cs, c1, c2);
      if tcb.Some? {
        var c3 := if hasParent then TryAllocate(c2, LIST_NODE_SIZE).0 else c2;
        TryAllocateIsClean(c2, LIST_NODE_SIZE);
        KeepsLiveRefl(c2);
        KeepsLiveTrans(cs, c2, c3);
        var (c4, list) := TryAllocate(c3, LIST_SIZE);
        TryAllocateIsClean(c3, LIST_SIZE);
        KeepsLiveTrans(cs, c3, c4);
        var (c5, node) := TryAllocate(c4, NODE_SIZE);
        TryAllocateIsClean(c4, NODE_SIZE);
        KeepsLiveTrans(cs, c4, c5);
        NoListNoNode(c3);
        if node.Some? {
          CollectBlocks(cs, c1, c2, c3, c4, c5, stack.value, tcb.value, list.value, node.value, code);
        }
      }
    }
  }

  lemma Rounded(n: nat, r: nat)
    requires n % 4 == 0 && n <= r < n + 8 && r % 8 == 0
    ensures RoundUp8(RoundUp4(n)) == r
  {
    hide RoundUp4, RoundUp8;
    MultipleOf4(n);
    UpTo8(n, r);
  }

  lemma MultipleOf4(n: nat)
    requires n % 4 == 0
    ensures RoundUp4(n) == n
  {
    var k := n / 4;
    assert n == 4 * k;
    assert (4 * k + 3) / 4 == k;
  }

  lemma UpTo8(n: nat, r: nat)
    requires n <= r < n + 8 && r % 8 == 0
    ensures RoundUp8(n) == r
  {
    var m := r / 8;
    assert r == 8 * m;
    assert (n + 7) / 8 == m;
  }

  lemma Sizes()
    ensures RoundUp8(RoundUp4(CPU_REGISTER_SIZE + STACK_SIZE)) == 1600
    ensures RoundUp8(RoundUp4(TCB_SIZE)) == 56
    ensures RoundUp8(RoundUp4(LIST_SIZE)) == 8 && RoundUp8(RoundUp4(NODE_SIZE)) == 16
  {
    hide RoundUp4, RoundUp8;
    Rounded(CPU_REGISTER_SIZE + STACK_SIZE, 1600);
    Rounded(TCB_SIZE, 56);
    Rounded(LIST_SIZE, 8);
    Rounded(NODE_SIZE, 16);
  }

  lemma KeepsLiveRefl(cs: seq<Chunk>)
    ensures KeepsLive(cs, cs)
  {
  }

  /** If the child list cannot be allocated, neither can the queue node. */
  lemma NoListNoNode(cs: seq<Chunk>)
    ensures TryAllocate(cs, LIST_SIZE).1.None? ==>
      TryAllocate(TryAllocate(cs, LIST_SIZE).0, NODE_SIZE).1.None?
  {
    if TryAllocate(cs, LIST_SIZE).1.None? {
      RefusalIsMonotone(cs, LIST_SIZE, NODE_SIZE);
    }
  }

  lemma CollectBlocks(cs: seq<Chunk>, c1: seq<Chunk>, c2: seq<Chunk>, c3: seq<Chunk>, c4: seq<Chunk>,
                      c5: seq<Chunk>, stack: nat, tcb: nat, list: nat, node: nat, code: Option<nat>)
    requires KeepsLive(cs, c1) && KeepsLive(c1, c2) && KeepsLive(c2, c3) && KeepsLive(c3, c4) && KeepsLive(c4, c5)
    requires Held(c1, stack, CPU_REGISTER_SIZE + STACK_SIZE) && !Held(cs, stack, 0)
    requires Held(c2, tcb, TCB_SIZE) && !Held(c1, tcb, 0)
    requires Held(c4, list, LIST_SIZE) && !Held(c3, list, 0)
    requires Held(c5, node, NODE_SIZE) && !Held(c4, node, 0)
    requires code.Some? ==> Held(cs, code.value, 0)
    ensures var b := Blocks(stack, tcb, list, node, code);
      Owned(c5, b) && forall o :: o in Parts(b) && code != Some(o) ==> !Held(cs, o, 0)
  {
    hide Held, KeepsLive;
    Carry(cs, c1, c2, c3, c4, c5, stack, tcb, list, node, code);
    var b := Blocks(stack, tcb, list, node, code);
    assert stack != tcb && stack != list && stack != node && tcb != list && tcb != node && list != node;
    if code.Some? {
      assert Parts(b) == {stack, tcb, list, node, code.value};
    } else {
      assert Parts(b) == {stack, tcb, list, node};
    }
  }

  /** Blocks held at some point are held afterwards, and were not held before they were new. */
  lemma Carry(cs: seq<Chunk>, c1: seq<Chunk>, c2: seq<Chunk>, c3: seq<Chunk>, c4: seq<Chunk>,
              c5: seq<Chunk>, stack: nat, tcb: nat, list: nat, node: nat, code: Option<nat>)
    requires KeepsLive(cs, c1) && KeepsLive(c1, c2) && KeepsLive(c2, c3) && KeepsLive(c3, c4) && KeepsLive(c4, c5)
    requires Held(c1, stack, CPU_REGISTER_SIZE + STACK_SIZE)
    requires Held(c2, tcb, TCB_SIZE)
    requires Held(c4, list, LIST_SIZE)
    requires code.Some? ==> Held(cs, code.value, 0)
    ensures Held(c1, stack, 0) && Held(c3, stack, 0) && Held(c4, stack, 0)
    ensures Held(c5, stack, CPU_REGISTER_SIZE + STACK_SIZE)
    ensures Held(c3, tcb, 0) && Held(c4, tcb, 0) && Held(c5, tcb, TCB_SIZE)
    ensures Held(c4, list, 0) && Held(c5, list, LIST_SIZE)
    ensures forall o :: Held(cs, o, 0) ==> Held(c1, o, 0) && Held(c3, o, 0) && Held(c4, o, 0)
    ensures code.Some? ==> Held(c1, code.value, 0) && Held(c3, code.value, 0)
    ensures code.Some? ==> Held(c4, code.value, 0) && Held(c5, code.value, 0)
  {
  }

  // ---------- clean_up_task ----------

  /** The blocks that clean_up_task gives back. */
  function Returned(b: Blocks): set<nat> {
    {b.stack, b.tcb, b.node} + if b.code.Some? then {b.code.value} else {}
  }

  /** The order of clean_up_task: code section of an external task, stack, TCB, queue node. */
  function CleanUp(cs: seq<Chunk>, b: Blocks): seq<Chunk> {
    var c0 := if b.code.Some? then Freed(cs, b.code.value) else cs;
    Freed(Freed(Freed(c0, b.stack), b.tcb), b.node)
  }

  /** deallocate finds every one of them, so no MEMORY_DEALLOC_FAILED panic is raised. */
  predicate AllFound(cs: seq<Chunk>, b: Blocks) {
    var c0 := if b.code.Some? then Freed(cs, b.code.value) else cs;
    var c1 := Freed(c0, b.stack);
    var c2 := Freed(c1, b.tcb);
    && (b.code.Some? ==> SlotAt(cs, b.code.value, 0) < |cs|)
    && SlotAt(c0, b.stack, 0) < |c0|
    && SlotAt(c1, b.tcb, 0) < |c1|
    && SlotAt(c2, b.node, 0) < |c2|
  }

  lemma HeldIsFound(cs: seq<Chunk>, offset: nat)
    requires Held(cs, offset, 0)
    ensures SlotAt(cs, offset, 0) < |cs|
  {
    var s :| LiveAt(cs, offset, s);
    var i :| 0 <= i < |cs| && cs[i].live && Offset(cs, i) == offset && cs[i].size == s;
  }

  lemma FreedHeld(cs: seq<Chunk>, offset: nat, o: nat, n: nat)
    requires Tiled(cs)
    ensures Tiled(Freed(cs, offset)) && Total(Freed(cs, offset)) == Total(cs)
    ensures Held(Freed(cs, offset), o, n) <==> Held(cs, o, n) && o != offset
  {
    FreeClearsOne(cs, offset);
  }

  /** clean_up_task frees exactly the blocks of the reaped task and no other block. */
  lemma CleanUpFreesExactly(cs: seq<Chunk>, b: Blocks)
    requires Tiled(cs) && Owned(cs, b)
    ensures Tiled(CleanUp(cs, b)) && Total(CleanUp(cs, b)) == Total(cs) && AllFound(cs, b)
    ensures forall o, n :: Held(CleanUp(cs, b), o, n) <==> Held(cs, o, n) && o !in Returned(b)
  {
    hide Tiled, Held, Freed, SlotAt, Total, Owned, Parts;
    var c0 := if b.code.Some? then Freed(cs, b.code.value) else cs;
    var c1 := Freed(c0, b.stack);
    var c2 := Freed(c1, b.tcb);
    HeldParts(cs, b);
    PartsDiffer(b);
    if b.code.Some? { FreedHolds(cs, b.code.value); HeldIsFound(cs, b.code.value); }
    FreedHolds(c0, b.stack);
    HeldIsFound(c0, b.stack);
    FreedHolds(c1, b.tcb);
    HeldIsFound(c1, b.tcb);
    FreedHolds(c2, b.node);
    HeldIsFound(c2, b.node);
  }

  lemma HeldParts(cs: seq<Chunk>, b: Blocks)
    requires Owned(cs, b)
    ensures |Parts(b)| == PartCount(b)
    ensures Held(cs, b.stack, 0) && Held(cs, b.tcb, 0) && Held(cs, b.node, 0)
    ensures b.code.Some? ==> Held(cs, b.code.value, 0)
  {
    hide Held;
    HeldAtLeast0(cs, b);
  }

  lemma FreedHolds(cs: seq<Chunk>, offset: nat)
    requires Tiled(cs)
    ensures Tiled(Freed(cs, offset)) && Total(Freed(cs, offset)) == Total(cs)
    ensures forall o, n :: Held(Freed(cs, offset), o, n) <==> Held(cs, o, n) && o != offset
  {
    hide Tiled, Held, Freed, Total;
    forall o, n ensures Held(Freed(cs, offset), o, n) <==> Held(cs, o, n) && o != offset {
      FreedHeld(cs, offset, o, n);
    }
    FreedHeld(cs, offset, 0, 0);
  }

  lemma HeldAtLeast0(cs: seq<Chunk>, b: Blocks)
    requires Owned(cs, b)
    ensures forall o :: o in Parts(b) ==> Held(cs, o, 0)
  {
    KeepsLiveRefl(cs);
    HeldKept(cs, cs, b.stack, CPU_REGISTER_SIZE + STACK_SIZE);
    HeldKept(cs, cs, b.tcb, TCB_SIZE);
    HeldKept(cs, cs, b.list, LIST_SIZE);
    HeldKept(cs, cs, b.node, NODE_SIZE);
  }

  lemma PartsDiffer(b: Blocks)
    requires |Parts(b)| == PartCount(b)
    ensures b.stack != b.tcb && b.stack != b.node && b.tcb != b.node && b.list !in Returned(b)
    ensures b.code.Some? ==> b.code.value !in {b.stack, b.tcb, b.list, b.node}
  {
    var four := {b.stack, b.tcb, b.list, b.node};
    FourDiffer(b.stack, b.tcb, b.list, b.node);
    if b.code.Some? {
      assert Parts(b) == four + {b.code.value};
    } else {
      assert Parts(b) == four;
    }
  }

  lemma FourDiffer(a: nat, b: nat, c: nat, d: nat)
    ensures |{a, b, c, d}| <= 4
    ensures |{a, b, c, d}| == 4 ==> a != b && a != c && a != d && b != c && b != d && c != d
  {
    assert {a, b, c, d} == {a} + {b} + {c} + {d};
    if a == b { assert {a, b, c, d} == {a, c, d}; ThreeAtMost(a, c, d); }
    if a == c { assert {a, b, c, d} == {a, b, d}; ThreeAtMost(a, b, d); }
    if a == d { assert {a, b, c, d} == {a, b, c}; ThreeAtMost(a, b, c); }
    if b == c { assert {a, b, c, d} == {a, b, d}; ThreeAtMost(a, b, d); }
    if b == d { assert {a, b, c, d} == {a, b, c}; ThreeAtMost(a, b, c); }
    if c == d { assert {a, b, c, d} == {a, b, c}; ThreeAtMost(a, b, c); }
  }

  lemma ThreeAtMost(a: nat, b: nat, c: nat)
    ensures |{a, b, c}| <= 3
  {
  }

  // ---------- the frame of a new task ----------

  /** prepare_cpu_register: the initial CPU frame lies at the end of the first STACK_SIZE bytes
      of the block, the 0xA5 fill below it. */
  function FrameStart(stack: nat): nat { stack + STACK_SIZE - CPU_REGISTER_SIZE }

  /** The end of memset_byte(address, STACK_SIZE - sizeof(CpuRegister_t), 0xA5). */
  function FillEnd(stack: nat): nat { stack + (STACK_SIZE - CPU_REGISTER_SIZE) }

  /** Fill and frame together are exactly the first 1536 bytes of the stack block: the fill ends
      where the frame begins, and the frame takes the last 64 of them. No other live block touches
      them. */
  lemma FrameStaysInStack(cs: seq<Chunk>, b: Blocks, o: nat, s: nat)
    requires Tiled(cs) && Owned(cs, b) && LiveAt(cs, o, s)
    ensures b.stack <= FillEnd(b.stack) == FrameStart(b.stack)
    ensures FrameStart(b.stack) + CPU_REGISTER_SIZE == b.stack + STACK_SIZE
    ensures FrameStart(b.stack) == b.stack + 1472 && FrameStart(b.stack) + CPU_REGISTER_SIZE == b.stack + 1536
    ensures FrameStart(b.stack) + CPU_REGISTER_SIZE <= Total(cs)
    ensures o == b.stack ==> b.stack <= FillEnd(b.stack) && FrameStart(b.stack) + CPU_REGISTER_SIZE <= o + s
    ensures o != b.stack ==> o + s <= b.stack || o >= FrameStart(b.stack) + CPU_REGISTER_SIZE
  {
    var n :| n >= CPU_REGISTER_SIZE + STACK_SIZE && LiveAt(cs, b.stack, n);
    LiveDisjoint(cs, b.stack, n, o, s);
  }

  // ---------- how many blocks a table can hold ----------

  function LiveOffsets(cs: seq<Chunk>, n: nat): (r: set<nat>)
    requires n <= |cs|
    ensures |r| <= n
  {
    if n == 0 then {}
    else LiveOffsets(cs, n - 1) + if cs[n - 1].live then {Offset(cs, n - 1)} else {}
  }

  lemma {:induction false} HeldIsLiveOffset(cs: seq<Chunk>, n: nat, o: nat)
    requires n <= |cs|
    requires exists i :: 0 <= i < n && cs[i].live && Offset(cs, i) == o
    ensures o in LiveOffsets(cs, n)
  {
    var i :| 0 <= i < n && cs[i].live && Offset(cs, i) == o;
    if i < n - 1 {
      HeldIsLiveOffset(cs, n - 1, o);
    }
  }

  /** Different live blocks need different slots. */
  lemma BlocksFitTable(cs: seq<Chunk>, offsets: set<nat>)
    requires Tiled(cs) && forall o :: o in offsets ==> Held(cs, o, 0)
    ensures |offsets| <= |cs| <= NUM_OF_SLOTS
  {
    forall o | o in offsets ensures o in LiveOffsets(cs, |cs|) {
      var s :| LiveAt(cs, o, s);
      var i :| 0 <= i < |cs| && cs[i].live && Offset(cs, i) == o && cs[i].size == s;
      HeldIsLiveOffset(cs, |cs|, o);
    }
    SubsetSize(offsets, LiveOffsets(cs, |cs|));
  }
}
