/** The scheduler in memory: os/include/process/scheduler.h and os/src/process/scheduler.c on
    rings of nodes. Every method is proved equal to the function of module Scheduling (and of
    TaskMemory, where it allocates) that the properties of whole runs are about. */
module Kernels {
  import opened Scheduling
  import opened Rings
  import opened Machines

  function Opt(n: Node?): Option<Node> { if n == null then None else Some(n) }

  ghost function Tcbs(q: seq<Node>): set<Tcb> { set n | n in q :: n.data }

  class Kernel {
    const runningTasks: Queue
    const waitingTasks: Queue
    var currentlyRunning: Node?
    var taskToPreserve: Node?
    var cleanUpRequests: nat   // a 4-bit field

    /** init_scheduler, with the addresses that allocate gave the two queues. */
    constructor (running: nat, waiting: nat)
      ensures Valid() && State() == Scheduler([], [], map[], None, None, 0)
      ensures runningTasks.address == running && waitingTasks.address == waiting
      ensures fresh(Footprint())
    {
      runningTasks := new Queue(running);
      waitingTasks := new Queue(waiting);
      currentlyRunning := null;
      taskToPreserve := null;
      cleanUpRequests := 0;
      new;
      hide Distinct, Linked;
      assert Nodes() == [] && Tasks() == map[];
    }

    ghost function Nodes(): seq<Node>
      reads runningTasks, waitingTasks
    {
      runningTasks.nodes + waitingTasks.nodes
    }

    ghost function Footprint(): (r: set<object>)
      reads runningTasks, waitingTasks
      ensures this in r && runningTasks in r && waitingTasks in r
      ensures forall n :: n in Nodes() ==> n in r && n.data in r
    {
      {this, runningTasks, waitingTasks} + (set n | n in Nodes()) + Tcbs(Nodes())
    }

    ghost predicate Valid()
      reads runningTasks, waitingTasks, runningTasks.nodes, waitingTasks.nodes
    {
      && runningTasks.Valid() && waitingTasks.Valid()
      && Disjoint(runningTasks, waitingTasks)
      && OwnTcbs(Nodes())
    }

    ghost function Tasks(): map<Node, Task>
      reads runningTasks, waitingTasks, Tcbs(Nodes())
    {
      map n | n in Nodes() :: n.data.Value()
    }

    ghost function State(): (s: Scheduler<Node>)
      reads this, runningTasks, waitingTasks, Tcbs(Nodes())
      ensures Known(s)
    {
      Scheduler(runningTasks.nodes, waitingTasks.nodes, Tasks(), Opt(currentlyRunning), Opt(taskToPreserve),
                cleanUpRequests)
    }

    // ---------- the steps that the operations share ----------

    method SetState(n: Node, state: TaskState)
      requires Valid() && n in Nodes()
      modifies n.data`state
      ensures Valid() && Footprint() == old(Footprint())
      ensures n in old(Tasks()) && State() ==
        old(State()).(tasks := old(Tasks())[n := old(Tasks())[n].(state := state)])
    {
      n.data.state := state;
      assert Tasks() == old(Tasks())[n := old(Tasks())[n].(state := state)];
    }

    method SetPointers(current: Node?, preserve: Node?)
      requires Valid()
      modifies this
      ensures Valid() && Footprint() == old(Footprint()) && cleanUpRequests == old(cleanUpRequests)
      ensures currentlyRunning == current && taskToPreserve == preserve
      ensures State() == old(State()).(currentlyRunning := Opt(current), taskToPreserve := Opt(preserve))
    {
      hide Kernel.Valid, Kernel.Tasks, Kernel.State, Kernel.Footprint;
      currentlyRunning := current;
      taskToPreserve := preserve;
      OnlyPointers();
    }

    lemma Queues()
      requires Valid()
      ensures runningTasks.Valid() && waitingTasks.Valid() && Disjoint(runningTasks, waitingTasks)
    {
    }

    /** The same nodes in other rings: the same TCBs. */
    twostate lemma Moved()
      requires old(Valid())
      requires runningTasks.Valid() && waitingTasks.Valid() && Disjoint(runningTasks, waitingTasks)
      requires forall m :: m in Nodes() <==> m in old(Nodes())
      requires forall m :: m in Nodes() ==> unchanged(m.data)
      ensures Valid() && Footprint() == old(Footprint()) && Tasks() == old(Tasks())
    {
      hide Distinct, Linked, Queue.Valid, Disjoint;
      assert Tasks() == old(Tasks());
      assert Tcbs(Nodes()) == old(Tcbs(Nodes()));
    }

    /** One node more. */
    twostate lemma Enqueued(new n: Node)
      requires old(Valid()) && forall m :: m in old(Nodes()) ==> m.data != n.data
      requires runningTasks.Valid() && waitingTasks.Valid() && Disjoint(runningTasks, waitingTasks)
      requires forall m :: m in Nodes() <==> m in old(Nodes()) || m == n
      requires forall m :: m in old(Nodes()) ==> m != n && unchanged(m.data)
      ensures Valid() && Footprint() == old(Footprint()) + {n, n.data}
      ensures Tasks() == old(Tasks())[n := n.data.Value()]
    {
      hide Distinct, Linked, Queue.Valid, Disjoint;
      assert Tasks() == old(Tasks())[n := n.data.Value()];
      assert Tcbs(Nodes()) == old(Tcbs(Nodes())) + {n.data};
    }

    /** isolate_node and move_node from the waiting ring to the running ring ... */
    method MoveToRunning(n: Node)
      requires Valid() && n in waitingTasks.nodes
      modifies runningTasks, waitingTasks, runningTasks.nodes, waitingTasks.nodes
      ensures Valid() && Footprint() == old(Footprint())
      ensures State() == old(State()).(waiting := Minus(old(waitingTasks.nodes), n),
                                       running := old(runningTasks.nodes) + [n])
    {
      hide Distinct, Linked, Minus, Kernel.Valid, Kernel.Tasks, Kernel.Footprint;
      Queues();
      Migrate(waitingTasks, runningTasks, n);
      Moved();
    }

    /** ... and back. */
    method MoveToWaiting(n: Node)
      requires Valid() && n in runningTasks.nodes
      modifies runningTasks, waitingTasks, runningTasks.nodes, waitingTasks.nodes
      ensures Valid() && Footprint() == old(Footprint())
      ensures State() == old(State()).(running := Minus(old(runningTasks.nodes), n),
                                       waiting := old(waitingTasks.nodes) + [n])
    {
      hide Distinct, Linked, Minus, Kernel.Valid, Kernel.Tasks, Kernel.Footprint;
      Queues();
      Migrate(runningTasks, waitingTasks, n);
      Moved();
    }

    twostate lemma Unwritten()
      requires unchanged(this, runningTasks, waitingTasks) && forall n :: n in Nodes() ==> unchanged(n.data)
      ensures State() == old(State()) && Tasks() == old(Tasks())
    {
      assert Tasks() == old(Tasks());
    }

    /** The node with this pid in one of the rings. */
    method FindPid(q: Queue, pid: nat) returns (n: Node?)
      requires Valid() && (q == runningTasks || q == waitingTasks)
      ensures forall t :: t in q.nodes ==> t in Tasks()
      ensures var i := Find(q.nodes, Tasks(), pid, 0);
        if i < |q.nodes| then n != null && n == q.nodes[i] else n == null
    {
      hide Distinct, Linked;
      n := q.head;
      if n == null {
        return;
      }
      for i := 0 to q.size
        invariant n == q.nodes[Wrap(i, |q.nodes|)]
        invariant forall k :: 0 <= k < i ==> Tasks()[q.nodes[k]].pid != pid
      {
        if n.data.pid == pid {
          FoundAt(q.nodes, Tasks(), pid, i);
          return;
        }
        NextNode(q.nodes, i);
        n := n.next;
      }
      FoundAt(q.nodes, Tasks(), pid, |q.nodes|);
      n := null;
    }

    // ---------- the operations ----------

    method WakeupPid(pid: nat) returns (q: Node?)
      requires Valid()
      modifies Footprint()
      ensures Valid() && Footprint() == old(Footprint())
      ensures State() == Wakeup(old(State()), pid) && Opt(q) == Woken(old(State()), pid)
    {
      hide Distinct, Linked, Kernel.Valid, Kernel.Tasks, Kernel.Footprint;
      q := FindPid(waitingTasks, pid);
      Unwritten();
      if q != null {
        MoveToRunning(q);
        SetState(q, READY);
      }
    }

    method BlockCurrentTask()
      requires Valid() && CurrentInRing(State())
      modifies Footprint()
      ensures Valid() && Footprint() == old(Footprint())
      ensures State() == Scheduling.BlockCurrentTask(old(State()))
    {
      hide Distinct, Linked, Tasks, Prev, Minus, Disjoint, OwnTcbs;
      var t := currentlyRunning;
      SetState(t, WAITING);
      PrevNode(runningTasks.nodes, t);
      var q := t.prev;
      MoveToWaiting(t);
      SetPointers(if runningTasks.size > 0 then q else null, t);
    }

    method ForcePid0IntoRunning()
      requires Valid()
      modifies Footprint()
      ensures Valid() && Footprint() == old(Footprint())
      ensures State() == Scheduling.ForcePid0IntoRunning(old(State()))
    {
      hide Distinct, Linked, Valid, Footprint, Tasks;
      var q := FindPid(runningTasks, 0);
      Unwritten();
      if q != null {
        SetState(q, READY);
        SetPointers(q, q);
      }
    }

    /** The two fallbacks of switch_task. */
    method FallBackToIdle()
      requires Valid()
      modifies Footprint()
      ensures Valid() && Footprint() == old(Footprint())
      ensures State() == WakeOrForceIdle(old(State()))
    {
      hide Distinct, Linked, Find, Tasks, Minus, Valid, Disjoint, Footprint;
      var q := WakeupPid(IDLE_PID);
      SetPointers(q, q);
      if currentlyRunning == null {
        ForcePid0IntoRunning();
      }
    }

    /** One round of the walk of switch_task, which moves currently_running itself. `ring` is the
        running ring behind the task at which the walk started. */
    method WalkOn(ghost ring: seq<Node>, ghost j: nat) returns (ready: bool)
      requires Valid() && j < |ring| == |runningTasks.nodes| && Linked(ring)
      requires forall m :: m in ring ==> m in runningTasks.nodes
      requires currentlyRunning == ring[Pred(j, |ring|)]
      modifies this`currentlyRunning
      ensures Valid() && currentlyRunning == ring[j]
      ensures ring[j] in Tasks() && ready == (Tasks()[ring[j]].state == READY)
    {
      hide Distinct, Linked, Kernel.Tasks, Kernel.Valid;
      LinkedAt(ring, Pred(j, |ring|));
      assert currentlyRunning.next == ring[j];
      currentlyRunning := currentlyRunning.next;
      OnlyPointers();
      assert ring[j] in ring;
      TaskOf(ring[j]);
      ready := currentlyRunning.data.state == READY;
    }

    /** The loop of switch_task. */
    method WalkToReady() returns (found: bool)
      requires Valid() && CurrentInRing(State())
      modifies this
      ensures Valid() && Footprint() == old(Footprint())
      ensures var s := old(State());
        var ring := After(s.running, s.currentlyRunning.value);
        var k := FirstReady(ring, s.tasks, 0);
        && found == (k < |ring|)
        && (found ==> State() == Dispatch(s, Some(ring[k])))
        && (!found ==> State() == s)
    {
      hide Distinct, Linked, Footprint, Tasks, Valid, From, IndexOf, FirstReady, State;
      StateParts();
      RingIsLinked();
      ghost var start: Node := currentlyRunning;
      ghost var all, tasks := runningTasks.nodes, Tasks();
      ghost var ring := After(all, start);
      AfterEndsAt(all, start);
      for j := 0 to runningTasks.size
        modifies this
        invariant taskToPreserve == old(taskToPreserve) && cleanUpRequests == old(cleanUpRequests)
        invariant currentlyRunning == ring[Pred(j, |ring|)]
        invariant forall i :: 0 <= i < j ==> ring[i] in tasks && tasks[ring[i]].state != READY
      {
        OnlyPointers();
        RingIsLinked();
        RotationLinked(all, IndexOf(all, start) + 1);
        var ready := WalkOn(ring, j);
        OnlyPointers();
        if ready {
          ReadyAt(ring, tasks, j);
          taskToPreserve := currentlyRunning;
          OnlyPointers();
          return true;
        }
      }
      ReadyAt(ring, tasks, |ring|);
      OnlyPointers();
      return false;
    }

    lemma StateParts()
      ensures State().running == runningTasks.nodes && State().waiting == waitingTasks.nodes
      ensures State().currentlyRunning == Opt(currentlyRunning) && State().taskToPreserve == Opt(taskToPreserve)
      ensures State().tasks == Tasks() && State().cleanUpRequests == cleanUpRequests
    {
    }

    twostate lemma OnlyPointers()
      requires old(Valid()) && unchanged(runningTasks, waitingTasks) && cleanUpRequests == old(cleanUpRequests)
      requires forall n :: n in Nodes() ==> unchanged(n) && unchanged(n.data)
      ensures Valid() && Footprint() == old(Footprint()) && Tasks() == old(Tasks())
      ensures State() == old(State()).(currentlyRunning := Opt(currentlyRunning), taskToPreserve := Opt(taskToPreserve))
    {
      hide Valid, Tasks;
      RingsStay();
    }

    twostate lemma OnlyCounter()
      requires old(Valid()) && unchanged(runningTasks, waitingTasks)
      requires currentlyRunning == old(currentlyRunning) && taskToPreserve == old(taskToPreserve)
      requires forall n :: n in Nodes() ==> unchanged(n) && unchanged(n.data)
      ensures Valid() && Footprint() == old(Footprint())
      ensures State() == old(State()).(cleanUpRequests := cleanUpRequests)
    {
      hide Valid, Tasks;
      RingsStay();
    }

    twostate lemma RingsStay()
      requires old(Valid()) && unchanged(runningTasks, waitingTasks)
      requires forall n :: n in Nodes() ==> unchanged(n) && unchanged(n.data)
      ensures Valid() && Footprint() == old(Footprint()) && Tasks() == old(Tasks())
    {
      hide Distinct, Linked;
      assert forall n :: n in runningTasks.nodes ==> n in Nodes() && unchanged(n);
      Untouched(runningTasks);
      assert forall n :: n in waitingTasks.nodes ==> n in Nodes() && unchanged(n);
      Untouched(waitingTasks);
      assert Tasks() == old(Tasks());
    }

    lemma RingIsLinked()
      requires Valid()
      ensures Linked(runningTasks.nodes) && runningTasks.size == |runningTasks.nodes|
    {
    }

    lemma Sizes()
      requires Valid()
      ensures runningTasks.size == |runningTasks.nodes| && waitingTasks.size == |waitingTasks.nodes|
    {
    }

    lemma TaskOf(n: Node)
      requires n in Nodes()
      ensures n in Tasks() && Tasks()[n] == n.data.Value()
      ensures forall m :: m in runningTasks.nodes ==> m in Tasks()
    {
    }

    method SwitchTask(externalTaskTransfered: bool)
      requires Valid() && (currentlyRunning != null ==> CurrentInRing(State()))
      modifies Footprint()
      ensures Valid() && Footprint() == old(Footprint())
      ensures State() == Scheduling.SwitchTask(old(State()), externalTaskTransfered)
    {
      hide Distinct, Linked, Find, FirstReady, After, Tasks, Valid, Footprint, Wakeup, Woken, WakeOrForceIdle;
      WakeupKnown(State(), IDLE_PID);
      if currentlyRunning == null {
        FallBackToIdle();
        SetPointers(currentlyRunning, currentlyRunning);
        return;
      }
      if externalTaskTransfered {
        var _ := WakeupPid(IDLE_PID);
      }
      var found := WalkToReady();
      if !found {
        FallBackToIdle();
      }
    }

    method InvalidateCurrentTask()
      requires Valid() && CurrentInRing(State())
      modifies Footprint()
      ensures Valid() && Footprint() == old(Footprint())
      ensures State() == Scheduling.InvalidateCurrentTask(old(State()))
    {
      hide Distinct, Linked, Tasks, Disjoint, OwnTcbs;
      SetState(currentlyRunning, INVALID);
      CountRequest();
    }

    method CountRequest()
      requires Valid()
      modifies this
      ensures Valid() && Footprint() == old(Footprint())
      ensures State() == old(State()).(cleanUpRequests := (old(cleanUpRequests) + 1) % 16)
    {
      hide Kernel.Valid, Kernel.Tasks, Kernel.State, Kernel.Footprint;
      cleanUpRequests := (cleanUpRequests + 1) % 16;
      OnlyCounter();
    }

    method CountReaped()
      requires Valid()
      modifies this
      ensures Valid() && Footprint() == old(Footprint()) && currentlyRunning == old(currentlyRunning)
      ensures State() == old(State()).(cleanUpRequests := (old(cleanUpRequests) - 1) % 16)
    {
      hide Kernel.Valid, Kernel.Tasks, Kernel.State, Kernel.Footprint;
      cleanUpRequests := (cleanUpRequests - 1) % 16;
      OnlyCounter();
    }

    /** The pid of the parent of the current task, if it waits for that task. */
    function JoiningParent(): Option<nat>
      reads this, if currentlyRunning != null then {currentlyRunning.data.parent} else {}
    {
      if currentlyRunning == null then None else currentlyRunning.data.JoiningParent()
    }

    method FinishTask()
      requires Valid() && CurrentInRing(State())
      modifies Footprint()
      ensures Valid() && Footprint() == old(Footprint())
      ensures State() == Scheduling.FinishTask(old(State()), old(JoiningParent()))
    {
      hide Distinct, Linked, Kernel.Valid, Kernel.Tasks, Kernel.Footprint, Kernel.State, Wakeup, Find;
      StateParts();
      SetState(currentlyRunning, FINISHED);
      StateParts();
      var joined := JoiningParent();
      if joined.Some? {
        var _ := WakeupPid(joined.value);
      }
      StateParts();
      CountRequest();
    }

    method SavePsp(psp: int)
      requires Valid() && taskToPreserve != null && taskToPreserve in Nodes()
      modifies taskToPreserve.data
      ensures Valid() && Footprint() == old(Footprint())
      ensures taskToPreserve in old(Tasks()) && State() == Machines.SavePsp(old(State()), psp)
    {
      taskToPreserve.data.sp := psp;
      assert Tasks() == old(Tasks())[taskToPreserve := old(Tasks())[taskToPreserve].(sp := psp)];
    }

    /** pendsv_isr serves a pending switch of the machine m: it saves the process stack pointer
        and returns the one to load. */
    method PendsvIsr(psp: int, externalTaskTransfered: bool, ghost m: Machine<Node>) returns (nextSp: int)
      requires Valid() && m.sched == State() && m.psp == psp
      requires Inv(m) && Enabled(m, PendSV(externalTaskTransfered))
      modifies Footprint()
      ensures Valid() && Footprint() == old(Footprint())
      ensures var served := Step(m, PendSV(externalTaskTransfered));
        State() == served.sched && currentlyRunning == served.executing && nextSp == served.psp
    {
      hide Distinct, Linked, Tasks, Valid, Footprint, Sound, Scheduling.SwitchTask;
      SavePspSound(m.sched, m.idle, psp);
      SwitchTaskDispatches(Machines.SavePsp(m.sched, psp), m.idle, externalTaskTransfered);
      SoundParts(Machines.SavePsp(m.sched, psp), m.idle);
      SavePsp(psp);
      SwitchTask(externalTaskTransfered);
      TaskOf(currentlyRunning);
      nextSp := currentlyRunning.data.sp;
    }

    method RunScheduler() returns (result: int)
      requires Valid()
      modifies Footprint()
      ensures Valid() && Footprint() == old(Footprint())
      ensures var s := old(State());
        var w := if s.running == [] then Wakeup(s, IDLE_PID) else s;
        && State() == (if w.running == [] then w else Dispatch(w, Some(w.running[0])))
        && result == (if w.running == [] then -1 else 0)
    {
      hide Distinct, Linked, Tasks, Footprint, Find, Minus, Disjoint;
      if runningTasks.size == 0 {
        var q := WakeupPid(IDLE_PID);
        if q == null {
          return -1;
        }
      }
      SetPointers(runningTasks.head, runningTasks.head);
      return 0;
    }

    // enqueue_element on either ring, once it has got a node.

    method EnqueueRunning(address: nat, tcb: Tcb) returns (n: Node)
      requires Valid() && forall m :: m in Nodes() ==> m.data != tcb
      modifies runningTasks, runningTasks.nodes
      ensures Valid() && fresh(n) && n.address == address && n.data == tcb
      ensures Footprint() == old(Footprint()) + {n, tcb}
      ensures State() == old(State()).(running := old(runningTasks.nodes) + [n],
                                       tasks := old(Tasks())[n := tcb.Value()])
    {
      hide Distinct, Linked, Kernel.Valid, Kernel.Tasks, Kernel.Footprint;
      Queues();
      n := runningTasks.EnqueueElement(address, tcb);
      assert forall m :: m in waitingTasks.nodes ==> m !in old(runningTasks.nodes);
      Untouched(waitingTasks);
      Enqueued(n);
    }

    method EnqueueWaiting(address: nat, tcb: Tcb) returns (n: Node)
      requires Valid() && forall m :: m in Nodes() ==> m.data != tcb
      modifies waitingTasks, waitingTasks.nodes
      ensures Valid() && fresh(n) && n.address == address && n.data == tcb
      ensures Footprint() == old(Footprint()) + {n, tcb}
      ensures State() == old(State()).(waiting := old(waitingTasks.nodes) + [n],
                                       tasks := old(Tasks())[n := tcb.Value()])
    {
      hide Distinct, Linked, Kernel.Valid, Kernel.Tasks, Kernel.Footprint;
      Queues();
      n := waitingTasks.EnqueueElement(address, tcb);
      assert forall m :: m in runningTasks.nodes ==> m !in old(waitingTasks.nodes);
      Untouched(runningTasks);
      Enqueued(n);
    }

    /** insert_scheduled_task: `address` is that of the new node, NULL means -1. */
    method InsertScheduledTask(address: nat, tcb: Tcb) returns (n: Node?)
      requires Valid() && forall m :: m in Nodes() ==> m.data != tcb
      modifies runningTasks, waitingTasks, runningTasks.nodes, waitingTasks.nodes
      ensures Valid()
      ensures n == null <==> address == 0 || (tcb.state != READY && tcb.state != WAITING)
      ensures n == null ==> State() == old(State()) && Footprint() == old(Footprint())
      ensures n != null ==> fresh(n) && n.address == address && n.data == tcb
      ensures n != null ==> State() == Scheduling.InsertScheduledTask(old(State()), n, tcb.Value())
      ensures n != null ==> Footprint() == old(Footprint()) + {n, tcb}
    {
      hide Distinct, Linked, Valid, Tasks, Footprint;
      n := null;
      match tcb.state
      case READY =>
        if address != 0 {
          n := EnqueueRunning(address, tcb);
        }
      case WAITING =>
        if address != 0 {
          n := EnqueueWaiting(address, tcb);
        }
      case _ =>
    }

    /** check_tasks_availability looks for a READY task in the waiting ring, where none is as long
        as the queues are well-formed. */
    method CheckTasksAvailability(pid: nat) returns (available: bool)
      requires Valid()
      ensures available <==> exists n :: n in waitingTasks.nodes && n.data.pid == pid && n.data.state == READY
      ensures WellQueued(State()) ==> !available
    {
      hide Distinct, Linked;
      var q := waitingTasks.head;
      if q == null {
        return false;
      }
      for i := 0 to waitingTasks.size
        invariant q == waitingTasks.nodes[Wrap(i, |waitingTasks.nodes|)]
        invariant forall k :: 0 <= k < i ==>
          !(waitingTasks.nodes[k].data.pid == pid && waitingTasks.nodes[k].data.state == READY)
      {
        if q.data.pid == pid && q.data.state == READY {
          assert waitingTasks.nodes[i] in waitingTasks.nodes;
          WaitingIsNotReady(q);
          return true;
        }
        NextNode(waitingTasks.nodes, i);
        q := q.next;
      }
      available := false;
    }

    lemma WaitingIsNotReady(n: Node)
      requires n in waitingTasks.nodes && n.data.state == READY
      ensures !WellQueued(State())
    {
      TaskOf(n);
      assert n in State().waiting && State().tasks[n] == n.data.Value();
    }

    method SetJoinPid(pid: nat)
      requires Valid() && currentlyRunning != null && currentlyRunning in Nodes()
      modifies currentlyRunning.data`joinPid
      ensures Valid() && Footprint() == old(Footprint()) && State() == old(State())
    {
      hide Distinct, Linked;
      currentlyRunning.data.joinPid := pid;
      assert Tasks() == old(Tasks());
    }

    /** join_task blocks if it finds the task it waits for, which it never does while the queues are
        well-formed. */
    method JoinTask(pid: nat)
      requires Valid() && CurrentInRing(State())
      modifies Footprint()
      ensures Valid() && Footprint() == old(Footprint())
      ensures State() == old(State()) || State() == Scheduling.BlockCurrentTask(old(State()))
      ensures old(WellQueued(State())) ==> State() == old(State())
    {
      hide Kernel.Valid, Kernel.Tasks, Kernel.Footprint, Kernel.State, Queue.Valid, Distinct, Linked;
      StateParts();
      var available := CheckTasksAvailability(pid);
      Unwritten();
      RingsStay();
      if available {
        SetJoinPid(pid);
        BlockCurrentTask();
      }
    }

    /** dequeue_element on the running ring, which idle never leaves while the reaper runs. */
    method Dequeue(n: Node)
      requires Valid() && n in runningTasks.nodes && runningTasks.size >= 2
      modifies runningTasks, runningTasks.nodes
      ensures Valid() && Footprint() <= old(Footprint())
      ensures State() == old(State()).(running := Minus(old(runningTasks.nodes), n),
                                       tasks := old(Tasks()) - {n})
      ensures n.next == old(n.next)
    {
      hide Distinct, Linked, Minus;
      assert forall m :: m in waitingTasks.nodes ==> m !in runningTasks.nodes;
      var _ := runningTasks.DequeueElement(n);
      Untouched(waitingTasks);
      assert Tasks() == old(Tasks()) - {n};
    }
  }

  lemma NextNode(q: seq<Node>, i: nat)
    requires Linked(q) && i < |q|
    ensures q[i].next == q[Wrap(i + 1, |q|)]
  {
    assert q[i].next == q[Succ(i, |q|)];
  }

  lemma PrevNode(q: seq<Node>, n: Node)
    requires Linked(q) && n in q
    ensures n.prev == Prev(q, n)
  {
    var i := IndexOf(q, n);
    assert q[i].prev == q[Pred(i, |q|)];
  }

  lemma AfterEndsAt(q: seq<Node>, n: Node)
    requires n in q
    ensures |After(q, n)| == |q| && After(q, n)[|q| - 1] == n
    ensures forall m <- After(q, n) :: m in q
  {
    var i := IndexOf(q, n) + 1;
    assert q == q[..i] + q[i..];
    assert q[..i][i - 1] == n;
  }

  /** A ring read from elsewhere is a ring. */
  lemma RotationLinked(q: seq<Node>, i: nat)
    requires Linked(q) && i <= |q|
    ensures Linked(From(q, i))
  {
    hide Linked;
    var n, r := |q|, From(q, i);
    forall j | 0 <= j < n ensures r[j].next == r[Succ(j, n)] && r[j].prev == r[Pred(j, n)] {
      var k := if j < n - i then i + j else j - (n - i);
      LinkedAt(q, k);
      assert r[j] == q[k];
      assert r[Succ(j, n)] == q[Succ(k, n)];
      assert r[Pred(j, n)] == q[Pred(k, n)];
    }
    LinkedWhen(r);
  }

  lemma LinkedWhen(q: seq<Node>)
    requires forall j :: 0 <= j < |q| ==> q[j].next == q[Succ(j, |q|)] && q[j].prev == q[Pred(j, |q|)]
    ensures Linked(q)
  {
  }

  lemma LinkedAt(q: seq<Node>, i: nat)
    requires Linked(q) && i < |q|
    ensures q[i].next == q[Succ(i, |q|)] && q[i].prev == q[Pred(i, |q|)]
  {
  }

  lemma ReadyAt(ring: seq<Node>, tasks: map<Node, Task>, j: nat)
    requires j <= |ring| && forall t :: t in ring ==> t in tasks
    requires forall i :: 0 <= i < j ==> tasks[ring[i]].state != READY
    requires j < |ring| ==> tasks[ring[j]].state == READY
    ensures FirstReady(ring, tasks, 0) == j
  {
    var r := FirstReady(ring, tasks, 0);
    assert r < |ring| ==> tasks[ring[r]].state == READY;
  }

  /** Different nodes have different TCBs. */
  ghost predicate OwnTcbs(q: seq<Node>) {
    forall m, n :: m in q && n in q && m != n ==> m.data != n.data
  }

  /** The ring position of a loop counter that walks once around. */
  function Wrap(i: int, n: int): int { if i < n then i else 0 }

  lemma FoundAt(q: seq<Node>, tasks: map<Node, Task>, pid: nat, i: nat)
    requires i <= |q| && forall n :: n in q ==> n in tasks
    requires forall k :: 0 <= k < i ==> tasks[q[k]].pid != pid
    requires i < |q| ==> tasks[q[i]].pid == pid
    ensures Find(q, tasks, pid, 0) == i
  {
    var r := Find(q, tasks, pid, 0);
    assert r < |q| ==> tasks[q[r]].pid == pid;
  }
}
