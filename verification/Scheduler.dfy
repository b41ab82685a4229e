/** The scheduling protocol of os/include/process/scheduler.h and os/src/process/scheduler.c on
    values: one function per operation of the kernel. `T` names the queue nodes. */
module Scheduling {

  datatype Option<+T> = None | Some(value: T)

  datatype TaskState = READY | WAITING | FINISHED | DEAD | INVALID

  /** The scheduling part of a Tcb_t. */
  datatype Task = Task(pid: nat, state: TaskState, sp: int)

  /** running and waiting list a ring from its head to its tail. */
  datatype Scheduler<T(==)> = Scheduler(
    running: seq<T>,
    waiting: seq<T>,
    tasks: map<T, Task>,
    currentlyRunning: Option<T>,
    taskToPreserve: Option<T>,
    cleanUpRequests: nat)

  const IDLE_PID: nat := 0

  predicate IsDead(task: Task) { task.state == FINISHED || task.state == INVALID }

  // ---------- rings ----------

  ghost predicate Distinct<T>(q: seq<T>) {
    forall i, j :: 0 <= i < j < |q| ==> q[i] != q[j]
  }

  function IndexOf<T(==)>(q: seq<T>, t: T): (i: nat)
    requires t in q
    ensures i < |q| && q[i] == t && forall k :: 0 <= k < i ==> q[k] != t
  {
    if q[0] == t then 0 else 1 + IndexOf(q[1..], t)
  }

  function Without<T>(q: seq<T>, i: nat): seq<T>
    requires i < |q|
  {
    q[..i] + q[i + 1..]
  }

  function Minus<T(==)>(q: seq<T>, t: T): seq<T>
    requires t in q
  {
    Without(q, IndexOf(q, t))
  }

  /** The ring read from index i on, once around. */
  function From<T>(q: seq<T>, i: nat): seq<T>
    requires i <= |q|
  {
    q[i..] + q[..i]
  }

  /** The ring as switch_task walks it: the successor of t first, t itself last. */
  function After<T(==)>(q: seq<T>, t: T): seq<T>
    requires t in q
  {
    From(q, IndexOf(q, t) + 1)
  }

  /** node->next and node->prev */
  function Next<T(==)>(q: seq<T>, t: T): T
    requires t in q
  {
    var i := IndexOf(q, t);
    if i + 1 < |q| then q[i + 1] else q[0]
  }

  function Prev<T(==)>(q: seq<T>, t: T): T
    requires t in q
  {
    var i := IndexOf(q, t);
    if i > 0 then q[i - 1] else q[|q| - 1]
  }

  // ---------- the operations ----------

  /** Every node has a TCB. */
  predicate Known<T(==)>(s: Scheduler<T>) {
    (forall t :: t in s.running ==> t in s.tasks) && (forall t :: t in s.waiting ==> t in s.tasks)
  }

  /** First node of q with this pid, from index i on, or |q|. */
  function Find<T(==)>(q: seq<T>, tasks: map<T, Task>, pid: nat, i: nat): (r: nat)
    requires i <= |q| && forall t :: t in q ==> t in tasks
    ensures i <= r <= |q|
    ensures r < |q| ==> tasks[q[r]].pid == pid
    ensures forall k :: i <= k < r ==> tasks[q[k]].pid != pid
    decreases |q| - i
  {
    if i == |q| then i
    else if tasks[q[i]].pid == pid then i
    else Find(q, tasks, pid, i + 1)
  }

  /** The node wakeup_pid returns. */
  function Woken<T(==)>(s: Scheduler<T>, pid: nat): Option<T>
    requires Known(s)
  {
    var i := Find(s.waiting, s.tasks, pid, 0);
    if i < |s.waiting| then Some(s.waiting[i]) else None
  }

  function Wakeup<T(==)>(s: Scheduler<T>, pid: nat): Scheduler<T>
    requires Known(s)
  {
    match Woken(s, pid)
    case None => s
    case Some(t) =>
      s.(waiting := Minus(s.waiting, t),
         running := s.running + [t],
         tasks := s.tasks[t := s.tasks[t].(state := READY)])
  }

  predicate CurrentInRing<T(==)>(s: Scheduler<T>) {
    Known(s) && s.currentlyRunning.Some? && s.currentlyRunning.value in s.running
  }

  function BlockCurrentTask<T(==)>(s: Scheduler<T>): Scheduler<T>
    requires CurrentInRing(s)
  {
    var t := s.currentlyRunning.value;
    var running := Minus(s.running, t);
    s.(running := running,
       waiting := s.waiting + [t],
       tasks := s.tasks[t := s.tasks[t].(state := WAITING)],
       taskToPreserve := Some(t),
       currentlyRunning := if |running| > 0 then Some(Prev(s.running, t)) else None)
  }

  /** First READY node of `ring` from index k on, or |ring|. */
  function FirstReady<T(==)>(ring: seq<T>, tasks: map<T, Task>, k: nat): (r: nat)
    requires k <= |ring| && forall t :: t in ring ==> t in tasks
    ensures k <= r <= |ring|
    ensures r < |ring| ==> tasks[ring[r]].state == READY
    ensures forall i :: k <= i < r ==> tasks[ring[i]].state != READY
    decreases |ring| - k
  {
    if k == |ring| then k
    else if tasks[ring[k]].state == READY then k
    else FirstReady(ring, tasks, k + 1)
  }

  function Dispatch<T(==)>(s: Scheduler<T>, t: Option<T>): Scheduler<T> {
    s.(currentlyRunning := t, taskToPreserve := t)
  }

  function ForcePid0IntoRunning<T(==)>(s: Scheduler<T>): Scheduler<T>
    requires Known(s)
  {
    var i := Find(s.running, s.tasks, 0, 0);
    if i < |s.running| then
      var t := s.running[i];
      Dispatch(s.(tasks := s.tasks[t := s.tasks[t].(state := READY)]), Some(t))
    else s
  }

  /** The fallback of switch_task: wake idle, or force it if it was not waiting. */
  function WakeOrForceIdle<T(==)>(s: Scheduler<T>): Scheduler<T>
    requires Known(s)
  {
    var woken := Dispatch(Wakeup(s, IDLE_PID), Woken(s, IDLE_PID));
    WakeupKnown(s, IDLE_PID);
    if woken.currentlyRunning == None then ForcePid0IntoRunning(woken) else woken
  }

  lemma WakeupKnown<T>(s: Scheduler<T>, pid: nat)
    requires Known(s)
    ensures Known(Wakeup(s, pid))
    ensures Wakeup(s, pid).currentlyRunning == s.currentlyRunning
    ensures CurrentInRing(s) ==> CurrentInRing(Wakeup(s, pid))
  {
  }

  function SwitchTask<T(==)>(s: Scheduler<T>, externalTaskTransfered: bool): Scheduler<T>
    requires Known(s) && (s.currentlyRunning.Some? ==> CurrentInRing(s))
  {
    if s.currentlyRunning == None then
      var r := WakeOrForceIdle(s);
      r.(taskToPreserve := r.currentlyRunning)
    else
      WakeupKnown(s, IDLE_PID);
      var w := if externalTaskTransfered then Wakeup(s, IDLE_PID) else s;
      var ring := After(w.running, w.currentlyRunning.value);
      var k := FirstReady(ring, w.tasks, 0);
      if k < |ring| then Dispatch(w, Some(ring[k])) else WakeOrForceIdle(w)
  }

  /** finish_task; `joined` is the pid of the parent if the parent waits for this task. */
  function FinishTask<T(==)>(s: Scheduler<T>, joined: Option<nat>): Scheduler<T>
    requires CurrentInRing(s)
  {
    var t := s.currentlyRunning.value;
    var f := s.(tasks := s.tasks[t := s.tasks[t].(state := FINISHED)]);
    var w := if joined.Some? then Wakeup(f, joined.value) else f;
    w.(cleanUpRequests := (w.cleanUpRequests + 1) % 16)
  }

  function InvalidateCurrentTask<T(==)>(s: Scheduler<T>): Scheduler<T>
    requires CurrentInRing(s)
  {
    var t := s.currentlyRunning.value;
    s.(tasks := s.tasks[t := s.tasks[t].(state := INVALID)],
       cleanUpRequests := (s.cleanUpRequests + 1) % 16)
  }

  /** create_task up to the enqueue: the pid is a `char`, and pid 0 starts WAITING. */
  function NewTask<T>(s: Scheduler<T>, sp: int): Task {
    var pid := (|s.running| + |s.waiting|) % 256;
    Task(pid, if pid == 0 then WAITING else READY, sp)
  }

  function InsertScheduledTask<T(==)>(s: Scheduler<T>, t: T, task: Task): Scheduler<T> {
    match task.state
    case READY => s.(running := s.running + [t], tasks := s.tasks[t := task])
    case WAITING => s.(waiting := s.waiting + [t], tasks := s.tasks[t := task])
    case _ => s
  }

  function CreateTask<T(==)>(s: Scheduler<T>, t: T, sp: int): Scheduler<T> {
    InsertScheduledTask(s, t, NewTask(s, sp))
  }

  /** clean_up_task, as far as the scheduler sees it, and the counter of the reaper. */
  function Reaped<T(==)>(s: Scheduler<T>, t: T): Scheduler<T>
    requires t in s.running
  {
    s.(running := Minus(s.running, t),
       tasks := s.tasks - {t},
       cleanUpRequests := (s.cleanUpRequests - 1) % 16)
  }

  /** The loop of search_invalidate_tasks at node q, after j rounds: the bound is the shrinking
      size of the ring. */
  function ReapFrom<T(==)>(s: Scheduler<T>, q: T, j: nat): Scheduler<T>
    requires forall t :: t in s.running ==> t in s.tasks
    requires q in s.running && Distinct(s.running)
    decreases |s.running| - j
  {
    if j >= |s.running| then s
    else
      var next := Next(s.running, q);
      if IsDead(s.tasks[q]) then
        MinusElements(s.running, q);
        var r := Reaped(s, q);
        if next in r.running then ReapFrom(r, next, j + 1) else r
      else ReapFrom(s, next, j + 1)
  }

  lemma MinusElements<T>(q: seq<T>, t: T)
    requires t in q && Distinct(q)
    ensures Distinct(Minus(q, t)) && |Minus(q, t)| == |q| - 1
    ensures forall u :: u in Minus(q, t) <==> u in q && u != t
  {
    var i, r := IndexOf(q, t), Minus(q, t);
    forall u ensures u in r <==> u in q && u != t {
      if u in q && u != t {
        var k :| 0 <= k < |q| && q[k] == u;
        assert r[if k < i then k else k - 1] == u;
      }
    }
  }

  function SearchInvalidateTasks<T(==)>(s: Scheduler<T>): Scheduler<T>
    requires CurrentInRing(s) && Distinct(s.running)
  {
    ReapFrom(s, s.currentlyRunning.value, 0)
  }
}
