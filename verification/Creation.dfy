/** What create_task (os/src/process/task.c) asks of the allocator, as a list of sizes that are served
    one after the other, and when it succeeds. */
module Creations {
  import opened Chunks
  import opened Scheduling
  import opened Machines
  import opened TaskMemory
  import opened Systems

  /** Stack with initial frame, TCB, link in the child list of the parent, child list, queue node. */
  function Requests(hasParent: bool): seq<nat> {
    if hasParent then [1600, 52, 8, 8, 12] else [1600, 52, 8, 12]
  }

  /** The table and the offsets granted until all requests are served or one is refused. */
  datatype Service = Service(table: seq<Chunk>, granted: seq<nat>)

  function Serve(cs: seq<Chunk>, sizes: seq<nat>): (r: Service)
    ensures |r.granted| <= |sizes|
    decreases |sizes|
  {
    if sizes == [] then Service(cs, [])
    else
      var (ds, o) := TryAllocate(cs, sizes[0]);
      if o.None? then Service(ds, [])
      else
        var rest := Serve(ds, sizes[1..]);
        Service(rest.table, [o.value] + rest.granted)
  }

  /** If not all requests are served, the next one is refused on the table that it meets. */
  lemma {:induction false} ServedUntilRefused(cs: seq<Chunk>, sizes: seq<nat>)
    ensures var r, i := Serve(cs, sizes), |Serve(cs, sizes).granted|;
      i < |sizes| ==> Decide(Serve(cs, sizes[..i]).table, sizes[i]).Refused? && r.table == Serve(cs, sizes[..i]).table
    decreases |sizes|
  {
    hide Decide, Allocated, Granted;
    if sizes != [] {
      var (ds, o) := TryAllocate(cs, sizes[0]);
      if o.Some? {
        ServedUntilRefused(ds, sizes[1..]);
        var i := |Serve(ds, sizes[1..]).granted|;
        if i < |sizes| - 1 {
          assert sizes[..i + 1][0] == sizes[0] && sizes[..i + 1][1..] == sizes[1..][..i];
        }
      } else {
        RefusedStays(cs, sizes[0]);
      }
    }
  }

  lemma RefusedStays(cs: seq<Chunk>, size: nat)
    ensures TryAllocate(cs, size).1.None? <==> Decide(cs, size).Refused?
    ensures TryAllocate(cs, size).1.None? ==> TryAllocate(cs, size).0 == cs
  {
    hide Decide;
  }

  // ---------- create_task serves exactly these requests ----------

  /** create_task goes on when a list is refused, but then everything that follows is refused. */
  lemma SmallRefused(cs: seq<Chunk>, small: nat, large: nat)
    requires 1 <= small <= large && small <= 32764 && TryAllocate(cs, small).1.None?
    ensures TryAllocate(cs, small).0 == cs && TryAllocate(cs, large) == (cs, None)
  {
    hide Decide;
    RefusedStays(cs, small);
    RefusalIsMonotone(cs, small, large);
  }

  lemma Served(cs: seq<Chunk>, size: nat, rest: seq<nat>)
    ensures var (ds, o) := TryAllocate(cs, size);
      Serve(cs, [size] + rest) == if o.None? then Service(ds, [])
        else Service(Serve(ds, rest).table, [o.value] + Serve(ds, rest).granted)
  {
    hide Decide, Allocated, Granted;
    assert ([size] + rest)[0] == size && ([size] + rest)[1..] == rest;
  }

  /** The child list and the queue node. */
  lemma ListAndNode(cs: seq<Chunk>)
    ensures var (c4, list) := TryAllocate(cs, LIST_SIZE); var (c5, node) := TryAllocate(c4, NODE_SIZE);
      Serve(cs, [8, 12]) == Service(c5, if list.None? then [] else if node.None? then [list.value]
        else [list.value, node.value])
      && (list.None? ==> node.None?)
  {
    hide TryAllocate, Serve;
    var (c4, list) := TryAllocate(cs, LIST_SIZE);
    assert [8] + [12] == [8, 12] && [12] + [] == [12];
    Served(cs, 8, [12]);
    Served(c4, 12, []);
    ServeNothing(TryAllocate(c4, 12).0);
    if list.None? {
      SmallRefused(cs, LIST_SIZE, NODE_SIZE);
    }
  }

  lemma ServeNothing(cs: seq<Chunk>)
    ensures Serve(cs, []) == Service(cs, [])
  {
  }

  /** The link in the child list of the parent before them. */
  lemma LinkListAndNode(cs: seq<Chunk>)
    ensures var (c3, link) := TryAllocate(cs, LIST_NODE_SIZE); var r := Serve(c3, [8, 12]);
      Serve(cs, [8, 8, 12]) == (if link.None? then Service(c3, []) else Service(r.table, [link.value] + r.granted))
      && (link.None? ==> r == Service(c3, []))
  {
    hide TryAllocate, Serve;
    assert [8] + [8, 12] == [8, 8, 12];
    Served(cs, 8, [8, 12]);
    if TryAllocate(cs, LIST_NODE_SIZE).1.None? {
      SmallRefused(cs, LIST_NODE_SIZE, LIST_SIZE);
      ListAndNode(cs);
      SmallRefused(cs, LIST_SIZE, NODE_SIZE);
    }
  }

  function ListRequests(hasParent: bool): seq<nat> { if hasParent then [8, 8, 12] else [8, 12] }

  /** What follows stack and TCB. */
  lemma ListsServed(cs: seq<Chunk>, hasParent: bool)
    ensures var c3 := if hasParent then TryAllocate(cs, LIST_NODE_SIZE).0 else cs;
      var (c4, list) := TryAllocate(c3, LIST_SIZE);
      var (c5, node) := TryAllocate(c4, NODE_SIZE);
      var sizes := ListRequests(hasParent);
      var r := Serve(cs, sizes);
      && r.table == c5
      && (node.Some? <==> |r.granted| == |sizes|)
      && (node.Some? ==> list.Some? && r.granted[|sizes| - 2..] == [list.value, node.value])
  {
    hide Decide, Allocated, Granted, Serve;
    LinkListAndNode(cs);
    ListAndNode(if hasParent then TryAllocate(cs, LIST_NODE_SIZE).0 else cs);
  }

  lemma StackAndTcb(cs: seq<Chunk>, hasParent: bool)
    ensures var (c1, stack) := TryAllocate(cs, 1600); var (c2, tcb) := TryAllocate(c1, 52);
      var rest := Serve(c2, ListRequests(hasParent));
      Serve(cs, Requests(hasParent)) == if stack.None? then Service(c1, [])
        else if tcb.None? then Service(c2, [stack.value])
        else Service(rest.table, [stack.value, tcb.value] + rest.granted)
  {
    hide Decide, Allocated, Granted, Serve;
    var rest := ListRequests(hasParent);
    assert [1600] + ([52] + rest) == Requests(hasParent);
    Served(cs, 1600, [52] + rest);
    var (c1, stack) := TryAllocate(cs, 1600);
    Served(c1, 52, rest);
    var (c2, tcb) := TryAllocate(c1, 52);
    if stack.Some? && tcb.Some? {
      var g := Serve(c2, rest).granted;
      assert [stack.value] + ([tcb.value] + g) == [stack.value, tcb.value] + g;
    }
  }

  /** Table and outcome of create_task are those of its requests; whether the task is external makes
      no difference. */
  lemma CreationServes(cs: seq<Chunk>, hasParent: bool, code: Option<nat>)
    ensures var (ds, b) := CreateMemory(cs, hasParent, code);
      var sizes := Requests(hasParent);
      var r := Serve(cs, sizes);
      && ds == r.table
      && (b.Some? <==> |r.granted| == |sizes|)
      && (b.Some? ==>
          && b.value.stack == r.granted[0] && b.value.tcb == r.granted[1]
          && b.value.list == r.granted[|sizes| - 2] && b.value.node == r.granted[|sizes| - 1]
          && b.value.code == code)
  {
    hide Decide, Allocated, Granted, Serve;
    StackAndTcb(cs, hasParent);
    var c2 := TryAllocate(TryAllocate(cs, 1600).0, 52).0;
    ListsServed(c2, hasParent);
    var n, g := |ListRequests(hasParent)|, Serve(c2, ListRequests(hasParent)).granted;
    assert |g| == n ==> g[n - 2..][0] == g[n - 2] && g[n - 2..][1] == g[n - 1];
  }

  // ---------- when it succeeds, and what it adds ----------

  function LiveCount(cs: seq<Chunk>): nat {
    if cs == [] then 0
    else LiveCount(cs[..|cs| - 1]) + if cs[|cs| - 1].live then 1 else 0
  }

  lemma {:induction false} OneMoreLive(cs: seq<Chunk>, i: nat)
    requires i < |cs| && !cs[i].live
    ensures LiveCount(cs[i := cs[i].(live := true)]) == LiveCount(cs) + 1
  {
    var ds, n := cs[i := cs[i].(live := true)], |cs| - 1;
    if i < n {
      OneMoreLive(cs[..n], i);
      assert ds[..n] == cs[..n][i := cs[i].(live := true)];
    } else {
      assert ds[..n] == cs[..n];
    }
  }

  /** An allocation that is granted adds one live block, one slot at most. */
  lemma GrantAddsOne(cs: seq<Chunk>, size: nat)
    ensures var (ds, o) := TryAllocate(cs, size);
      && |cs| <= |ds| <= |cs| + 1
      && LiveCount(ds) == LiveCount(cs) + (if o.Some? then 1 else 0)
      && (1 <= size <= 32764 && |cs| < NUM_OF_SLOTS ==> o.Some?)
  {
    hide RoundUp4, FirstFit;
    RoundUp4Grows(size, if size <= 32764 then 32764 else size);
    match Decide(cs, size)
    case Refused =>
    case Reuse(i) => OneMoreLive(cs, i);
    case Carve(n) => assert (cs + [Chunk(true, n)])[..|cs|] == cs;
  }

  lemma {:induction false} ServiceCounts(cs: seq<Chunk>, sizes: seq<nat>)
    requires forall i :: 0 <= i < |sizes| ==> 1 <= sizes[i] <= 32764
    ensures LiveCount(Serve(cs, sizes).table) == LiveCount(cs) + |Serve(cs, sizes).granted|
    ensures |cs| + |sizes| <= NUM_OF_SLOTS ==> |Serve(cs, sizes).granted| == |sizes|
    decreases |sizes|
  {
    hide TryAllocate;
    if sizes != [] {
      GrantAddsOne(cs, sizes[0]);
      ServiceCounts(TryAllocate(cs, sizes[0]).0, sizes[1..]);
    }
  }

  /** create_task succeeds whenever as many slots are free as it has requests. It then adds exactly one
      live block for each of them: 5 with a running parent, 4 without. It fails only if one of them
      is refused on the table that the ones before it left. */
  lemma CreationOutcome(cs: seq<Chunk>, hasParent: bool, code: Option<nat>)
    ensures var (ds, b) := CreateMemory(cs, hasParent, code);
      var n := if hasParent then 5 else 4;
      && (|cs| + n <= NUM_OF_SLOTS ==> b.Some?)
      && (b.Some? ==> LiveCount(ds) == LiveCount(cs) + n)
      && |Requests(hasParent)| == n
      && (b.None? <==> exists i :: 0 <= i < n && RefusedAt(cs, Requests(hasParent), i))
  {
    hide Decide, Allocated, Granted, Serve, RefusedAt;
    var sizes := Requests(hasParent);
    CreationServes(cs, hasParent, code);
    ServiceCounts(cs, sizes);
    SomeRefused(cs, sizes);
  }

  lemma SomeRefused(cs: seq<Chunk>, sizes: seq<nat>)
    ensures |Serve(cs, sizes).granted| < |sizes| <==> exists i :: 0 <= i < |sizes| && RefusedAt(cs, sizes, i)
  {
    hide Serve;
    ServedUntilRefused(cs, sizes);
    var i := |Serve(cs, sizes).granted|;
    if i < |sizes| {
      PrefixServed(cs, sizes, i);
      assert RefusedAt(cs, sizes, i);
    } else {
      forall k | 0 <= k < |sizes| ensures !RefusedAt(cs, sizes, k) {
        PrefixServed(cs, sizes, k);
      }
    }
  }

  /** All requests before the i-th are served, and the i-th is refused on the table that they left. */
  ghost predicate RefusedAt(cs: seq<Chunk>, sizes: seq<nat>, i: nat)
    requires i < |sizes|
  {
    |Serve(cs, sizes[..i]).granted| == i && Decide(Serve(cs, sizes[..i]).table, sizes[i]).Refused?
  }

  lemma {:induction false} PrefixServed(cs: seq<Chunk>, sizes: seq<nat>, i: nat)
    requires i < |sizes| && i <= |Serve(cs, sizes).granted|
    ensures |Serve(cs, sizes[..i]).granted| == i
    ensures i < |Serve(cs, sizes).granted| ==> !Decide(Serve(cs, sizes[..i]).table, sizes[i]).Refused?
    decreases i
  {
    hide Decide, Allocated, Granted;
    if i == 0 {
      assert sizes[..0] == [];
      RefusedStays(cs, sizes[0]);
    } else {
      PrefixServed(TryAllocate(cs, sizes[0]).0, sizes[1..], i - 1);
      assert sizes[..i][0] == sizes[0] && sizes[..i][1..] == sizes[1..][..i - 1];
    }
  }

  /** So a received program that was put into an allocated block becomes a task just like any other. */
  lemma ExternalLikeInternal(cs: seq<Chunk>, hasParent: bool, code: nat)
    ensures var (ds, b) := CreateMemory(cs, hasParent, None);
      CreateMemory(cs, hasParent, Some(code)) == (ds, if b.None? then None else Some(b.value.(code := Some(code))))
  {
    hide TryAllocate, Serve;
    CreationServes(cs, hasParent, None);
    CreationServes(cs, hasParent, Some(code));
  }

  /** In every state of the system with five free slots create_task makes the task: it is READY at the
      tail of the running ring, with the initial frame at the end of its stack. */
  lemma SpawnSucceeds<T>(k: System<T>, t: T, code: Option<nat>)
    requires SystemInv(k) && EnabledAt(k, Spawn(t, code)) && |k.chunks| + 5 <= NUM_OF_SLOTS
    ensures var r := StepAt(k, Spawn(t, code));
      && r.machine.sched.running == k.machine.sched.running + [t] && r.machine.sched.waiting == k.machine.sched.waiting
      && t in r.machine.sched.tasks && t in r.owns && r.owns[t].code == code
      && r.machine.sched.tasks[t].state == READY
      && r.machine.sched.tasks[t].sp + CPU_REGISTER_SIZE == k.base + r.owns[t].stack + STACK_SIZE
      && LiveCount(r.chunks) == LiveCount(k.chunks) + 5
  {
    hide Sound, Ownership, QueueBlocks, CreateMemory, CreateTask, Held, Parts, Total, Requests, RefusedAt;
    var m := k.machine;
    CreationOutcome(k.chunks, true, code);
    CodeIsKept(k.chunks, code);
    TasksFitTable(m.sched.tasks, k.chunks, k.owns);
    CreateSound(m.sched, m.idle, t, k.base + FrameStart(CreateMemory(k.chunks, true, code).1.value.stack));
  }

  lemma CodeIsKept(cs: seq<Chunk>, code: Option<nat>)
    ensures CreateMemory(cs, true, code).1.Some? ==> CreateMemory(cs, true, code).1.value.code == code
  {
    hide TryAllocate;
  }

  // ---------- the layout after boot ----------

  lemma CarvedTotal(cs: seq<Chunk>, size: nat)
    ensures Total(cs + [Chunk(true, size)]) == Total(cs) + size
  {
    OffsetSameSizes(cs, cs + [Chunk(true, size)], |cs|);
  }

  function Live(sizes: seq<nat>): seq<Chunk> {
    if sizes == [] then [] else Live(sizes[..|sizes| - 1]) + [Chunk(true, sizes[|sizes| - 1])]
  }

  lemma {:induction false} AllLive(sizes: seq<nat>)
    ensures |Live(sizes)| == |sizes| && forall i :: 0 <= i < |sizes| ==> Live(sizes)[i].live
  {
    if sizes != [] {
      AllLive(sizes[..|sizes| - 1]);
    }
  }

  lemma CarvesNext(sizes: seq<nat>, size: nat, newSize: nat)
    requires |sizes| < NUM_OF_SLOTS && 1 <= size <= 32760 && RoundUp8(RoundUp4(size)) == newSize
    ensures TryAllocate(Live(sizes), size) == (Live(sizes + [newSize]), Some(Total(Live(sizes))))
    ensures Total(Live(sizes + [newSize])) == Total(Live(sizes)) + newSize
  {
    hide RoundUp4, RoundUp8, TryAllocate, Total;
    assert (sizes + [newSize])[..|sizes|] == sizes;
    AllLive(sizes);
    CarvesWhenAllLive(Live(sizes), size, newSize);
    CarvedTotal(Live(sizes), newSize);
  }

  /** Two queues, then stack, TCB, child list and node of idle, from the start of the memory on. */
  lemma BootLayout()
    ensures BootMemory() == (Live([16, 16, 1600, 56, 8, 16]), Some(Blocks(32, 1632, 1688, 1696, None)))
    ensures BOOT_QUEUES == Queues(0, 16)
  {
    hide RoundUp4, RoundUp8, Total, Decide, Allocated, Granted, Live;
    Sizes();
    Rounded(QUEUE_SIZE, 16);
    NothingLive();
    CarvesNext([], QUEUE_SIZE, 16);
    CarvesNext([16], QUEUE_SIZE, 16);
    CarvesNext([16, 16], CPU_REGISTER_SIZE + STACK_SIZE, 1600);
    CarvesNext([16, 16, 1600], TCB_SIZE, 56);
    CarvesNext([16, 16, 1600, 56], LIST_SIZE, 8);
    CarvesNext([16, 16, 1600, 56, 8], NODE_SIZE, 16);
    assert [] + [16] == [16] && [16] + [16] == [16, 16] && [16, 16] + [1600] == [16, 16, 1600];
    assert [16, 16, 1600] + [56] == [16, 16, 1600, 56] && [16, 16, 1600, 56] + [8] == [16, 16, 1600, 56, 8];
    assert [16, 16, 1600, 56, 8] + [16] == [16, 16, 1600, 56, 8, 16];
  }

  lemma NothingLive()
    ensures Live([]) == [] && Total(Live([])) == 0
  {
  }
}
