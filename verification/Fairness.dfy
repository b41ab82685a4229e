/** Bounded bypass: how long a READY task can be passed over by the round robin of switch_task
    (os/include/process/scheduler.h). */
module Fairness {
  import opened Scheduling
  import opened Machines
  import opened Runs

  // ---------- rings read after a node ----------

  lemma IndexOfUnique<T>(q: seq<T>, i: nat)
    requires Distinct(q) && i < |q|
    ensures IndexOf(q, q[i]) == i
  {
  }

  lemma AfterElements<T>(q: seq<T>, c: T)
    requires c in q
    ensures |After(q, c)| == |q| && (forall t :: t in q <==> t in After(q, c))
    ensures Distinct(q) ==> Distinct(After(q, c))
    ensures After(q, c)[|q| - 1] == c
  {
    var p, r := IndexOf(q, c) + 1, After(q, c);
    forall t | t in q ensures t in r {
      var k :| 0 <= k < |q| && q[k] == t;
      assert r[if k >= p then k - p else k + |q| - p] == t;
    }
  }

  lemma AfterSplit<T>(pre: seq<T>, c: T, post: seq<T>)
    requires Distinct(pre + [c] + post)
    ensures c in pre + [c] + post && After(pre + [c] + post, c) == post + pre + [c]
  {
    var q := pre + [c] + post;
    assert q[|pre|] == c;
    IndexOfUnique(q, |pre|);
    assert q[|pre| + 1..] == post && q[..|pre| + 1] == pre + [c];
  }

  lemma MinusSplit<T>(pre: seq<T>, x: T, post: seq<T>)
    requires Distinct(pre + [x] + post)
    ensures x in pre + [x] + post && Minus(pre + [x] + post, x) == pre + post
  {
    var q := pre + [x] + post;
    assert q[|pre|] == x;
    IndexOfUnique(q, |pre|);
    assert q[..|pre|] == pre && q[|pre| + 1..] == post;
  }

  lemma SplitAtNode<T>(q: seq<T>, c: T) returns (pre: seq<T>, post: seq<T>)
    requires c in q
    ensures q == pre + [c] + post
  {
    pre, post := q[..IndexOf(q, c)], q[IndexOf(q, c) + 1..];
  }

  lemma InsertDelaysByOne<T>(a: seq<T>, x: T, b: seq<T>, t: T)
    requires Distinct(a + [x] + b) && t in a + b
    ensures t in a + [x] + b && IndexOf(a + [x] + b, t) <= IndexOf(a + b, t) + 1
  {
    var i, r := IndexOf(a + b, t), a + [x] + b;
    var j := if i < |a| then i else i + 1;
    assert r[j] == t;
    IndexOfUnique(r, j);
  }

  /** Appending a node delays every other node by at most one place. */
  lemma AppendDelaysByOne<T>(q: seq<T>, c: T, x: T, t: T)
    requires Distinct(q) && c in q && t in q && x !in q
    ensures t in After(q, c) && t in After(q + [x], c)
    ensures IndexOf(After(q + [x], c), t) <= IndexOf(After(q, c), t) + 1
  {
    hide After;
    var pre, post := SplitAtNode(q, c);
    AppendDistinct(q, x);
    assert q + [x] == pre + [c] + (post + [x]);
    AfterSplit(pre, c, post);
    AfterSplit(pre, c, post + [x]);
    AfterElements(q, c);
    AfterElements(q + [x], c);
    assert post + [x] + pre + [c] == post + [x] + (pre + [c]) && post + pre + [c] == post + (pre + [c]);
    InsertDelaysByOne(post, x, pre + [c], t);
  }

  /** The rewind to prev on block keeps every distance. */
  lemma BlockKeepsOrder<T>(q: seq<T>, c: T)
    requires Distinct(q) && c in q && |q| > 1
    ensures Prev(q, c) in Minus(q, c)
    ensures After(Minus(q, c), Prev(q, c)) == After(q, c)[..|q| - 1]
  {
    var p, r := IndexOf(q, c), Minus(q, c);
    MinusElements(q, c);
    var k := if p > 0 then p - 1 else |q| - 2;
    assert r[k] == Prev(q, c);
    IndexOfUnique(r, k);
  }

  /** Removing another node never pushes a node back. */
  lemma RemovalKeepsOrder<T>(q: seq<T>, c: T, x: T)
    requires Distinct(q) && c in q && x in q && x != c
    ensures c in Minus(q, x) && x in After(q, c)
    ensures After(Minus(q, x), c) == Minus(After(q, c), x)
  {
    hide After, Minus;
    var pre, post := SplitAtNode(q, c);
    MinusElements(q, x);
    AfterElements(q, c);
    AfterSplit(pre, c, post);
    if x in pre {
      var a, b := SplitAtNode(pre, x);
      assert q == a + [x] + (b + [c] + post);
      MinusSplit(a, x, b + [c] + post);
      assert Minus(q, x) == (a + b) + [c] + post;
      AfterSplit(a + b, c, post);
      assert After(q, c) == (post + a) + [x] + (b + [c]);
      MinusSplit(post + a, x, b + [c]);
    } else {
      assert x in post;
      var a, b := SplitAtNode(post, x);
      assert q == (pre + [c] + a) + [x] + b;
      MinusSplit(pre + [c] + a, x, b);
      assert Minus(q, x) == pre + [c] + (a + b);
      AfterSplit(pre, c, a + b);
      assert After(q, c) == a + [x] + (b + pre + [c]);
      MinusSplit(a, x, b + pre + [c]);
    }
  }

  lemma MinusIndex<T>(q: seq<T>, x: T, t: T)
    requires Distinct(q) && x in q && t in q && x != t
    ensures t in Minus(q, x) && IndexOf(Minus(q, x), t) <= IndexOf(q, t)
  {
    var i, k, r := IndexOf(q, x), IndexOf(q, t), Minus(q, x);
    MinusElements(q, x);
    IndexOfUnique(r, if k < i then k else k - 1);
  }

  /** The ring after any of its nodes is a rotation of the ring after any other. */
  lemma RotateTo<T>(q: seq<T>, c: T, u: seq<T>, x: T, v: seq<T>)
    requires Distinct(q) && c in q && After(q, c) == u + [x] + v
    ensures x in q && After(q, x) == v + u + [x]
  {
    hide After, Distinct, IndexOf;
    var pre, post := SplitAtNode(q, c);
    AfterSplit(pre, c, post);
    AfterElements(q, c);
    assert (u + [x] + v)[|u|] == x;
    if |u| < |post| {
      var b := post[|u| + 1..];
      assert post == u + [x] + b && v == b + pre + [c] by { SplitPoint(post, pre + [c], u, x, v); }
      assert q == (pre + [c] + u) + [x] + b;
      AfterSplit(pre + [c] + u, x, b);
    } else {
      var a := u[|post|..];
      assert u == post + a && pre + [c] == a + [x] + v by { SplitPoint2(post, pre + [c], u, x, v); }
      assert q == a + [x] + (v + post);
      AfterSplit(a, x, v + post);
    }
  }

  lemma SplitPoint<T>(s: seq<T>, r: seq<T>, u: seq<T>, x: T, v: seq<T>)
    requires s + r == u + [x] + v && |u| < |s|
    ensures s == u + [x] + s[|u| + 1..] && v == s[|u| + 1..] + r
  {
    var w := s + r;
    assert s == w[..|s|] && r == w[|s|..];
    assert u == w[..|u|] && v == w[|u| + 1..] && x == w[|u|];
  }

  lemma SplitPoint2<T>(s: seq<T>, r: seq<T>, u: seq<T>, x: T, v: seq<T>)
    requires s + r == u + [x] + v && |u| >= |s|
    ensures u == s + u[|s|..] && r == u[|s|..] + [x] + v
  {
    var w := s + r;
    assert s == w[..|s|] && r == w[|s|..];
    assert u == w[..|u|] && v == w[|u| + 1..] && x == w[|u|];
  }

  /** Moving on by k + 1 nodes rotates the ring. */
  lemma MovingOnRotates<T>(q: seq<T>, c: T, k: nat)
    requires Distinct(q) && c in q && k < |q|
    ensures |After(q, c)| == |q| && After(q, c)[k] in q
    ensures After(q, After(q, c)[k]) == After(q, c)[k + 1..] + After(q, c)[..k + 1]
  {
    hide After;
    AfterElements(q, c);
    var ring := After(q, c);
    assert ring == ring[..k] + [ring[k]] + ring[k + 1..];
    RotateTo(q, c, ring[..k], ring[k], ring[k + 1..]);
    assert ring[k + 1..] + ring[..k] + [ring[k]] == ring[k + 1..] + ring[..k + 1];
  }

  // ---------- the measure ----------

  /** Forward distance of a node from currently_running; the full circle for the node itself.
      While currently_running is NULL it is larger than any of these, for every node: the next
      switch goes to idle, wherever in the ring it lies. */
  function Distance<T(==)>(s: Scheduler<T>, t: T): nat
    requires t in s.running && (s.currentlyRunning.Some? ==> s.currentlyRunning.value in s.running)
  {
    if s.currentlyRunning.None? then |s.running| + 1
    else
      AfterElements(s.running, s.currentlyRunning.value);
      IndexOf(After(s.running, s.currentlyRunning.value), t) + 1
  }

  /** t is READY and waits for its turn. */
  ghost predicate Waits<T>(m: Machine<T>, t: T)
    requires Inv(m)
  {
    t in m.sched.running && m.sched.tasks[t].state == READY && (m.executing != t || m.pending)
  }

  /** Whether the event may append a task to the running ring. */
  function Arrivals<T>(e: Event<T>): nat {
    match e
    case Wake(_) => 1
    case Create(_, _) => 1
    case Finish(joined) => if joined.Some? then 1 else 0
    case PendSV(dma) => if dma then 1 else 0
    case _ => 0
  }

  function Switches<T>(e: Event<T>): nat { if e.PendSV? then 1 else 0 }

  function TotalArrivals<T>(events: seq<Event<T>>): nat {
    if events == [] then 0 else Arrivals(events[0]) + TotalArrivals(events[1..])
  }

  function TotalSwitches<T>(events: seq<Event<T>>): nat {
    if events == [] then 0 else Switches(events[0]) + TotalSwitches(events[1..])
  }

  // ---------- each operation ----------

  lemma WakeupDelay<T>(s: Scheduler<T>, idle: T, pid: nat, t: T)
    requires Sound(s, idle) && t in s.running
    ensures Known(s) && Sound(Wakeup(s, pid), idle) && t in Wakeup(s, pid).running
    ensures Distance(Wakeup(s, pid), t) <= Distance(s, t) + 1
    ensures Wakeup(s, pid).tasks[t] == s.tasks[t]
  {
    WakeupSound(s, idle, pid);
    WokenIsWaiting(s, pid);
    if Woken(s, pid).Some? && s.currentlyRunning.Some? {
      AppendDelaysByOne(s.running, s.currentlyRunning.value, Woken(s, pid).value, t);
    }
  }

  lemma CreateDelay<T>(s: Scheduler<T>, idle: T, x: T, sp: int, t: T)
    requires Sound(s, idle) && t in s.running && x !in s.tasks && |s.tasks| < 256
    ensures Sound(CreateTask(s, x, sp), idle) && t in CreateTask(s, x, sp).running
    ensures Distance(CreateTask(s, x, sp), t) <= Distance(s, t) + 1
    ensures CreateTask(s, x, sp).tasks[t] == s.tasks[t]
  {
    CreateSound(s, idle, x, sp);
    if s.currentlyRunning.Some? {
      AppendDelaysByOne(s.running, s.currentlyRunning.value, x, t);
    }
  }

  lemma BlockDelay<T>(s: Scheduler<T>, idle: T, t: T)
    requires Sound(s, idle) && CurrentInRing(s) && t in s.running && s.currentlyRunning != Some(t)
    requires !IsDead(s.tasks[s.currentlyRunning.value])
    ensures Sound(BlockCurrentTask(s), idle) && t in BlockCurrentTask(s).running
    ensures Distance(BlockCurrentTask(s), t) == Distance(s, t)
    ensures BlockCurrentTask(s).tasks[t] == s.tasks[t]
  {
    hide Sound, Distinct, After, Prev, IsDead;
    SoundParts(s, idle);
    BlockSound(s, idle);
    var q, c := s.running, s.currentlyRunning.value;
    MinusElements(q, c);
    TwoNodes(q, c, t);
    BlockKeepsOrder(q, c);
    AfterElements(q, c);
    var i := IndexOf(After(q, c), t);
    AfterElements(Minus(q, c), Prev(q, c));
    IndexOfUnique(After(Minus(q, c), Prev(q, c)), i);
  }

  lemma TwoNodes<T>(q: seq<T>, c: T, t: T)
    requires c in q && t in q && c != t
    ensures |q| > 1
  {
  }

  lemma {:induction false} ReapDelay<T>(s: Scheduler<T>, idle: T, q: T, j: nat, t: T)
    requires Sound(s, idle) && q in s.running && CurrentInRing(s)
    requires t in s.running && !IsDead(s.tasks[t]) && !IsDead(s.tasks[s.currentlyRunning.value])
    ensures Sound(ReapFrom(s, q, j), idle) && t in ReapFrom(s, q, j).running
    ensures Distance(ReapFrom(s, q, j), t) <= Distance(s, t)
    decreases |s.running| - j
  {
    hide Sound, Distinct, Minus, Next, After;
    SoundParts(s, idle);
    ReapFromSound(s, idle, q, j);
    if j < |s.running| {
      NextInRing(s.running, q);
      if IsDead(s.tasks[q]) {
        ReapedSound(s, idle, q);
        MinusElements(s.running, q);
        SoundParts(Reaped(s, q), idle);
        RemovalDelay(s, idle, q, t);
        if Next(s.running, q) in Reaped(s, q).running {
          ReapDelay(Reaped(s, q), idle, Next(s.running, q), j + 1, t);
        }
      } else {
        ReapDelay(s, idle, Next(s.running, q), j + 1, t);
      }
    }
  }

  lemma RemovalDelay<T>(s: Scheduler<T>, idle: T, x: T, t: T)
    requires Sound(s, idle) && x in s.running && CurrentInRing(s) && s.currentlyRunning.value != x
    requires t in s.running && t != x
    ensures t in Reaped(s, x).running && s.currentlyRunning.value in Reaped(s, x).running
    ensures Distance(Reaped(s, x), t) <= Distance(s, t)
  {
    var c := s.currentlyRunning.value;
    MinusElements(s.running, x);
    RemovalKeepsOrder(s.running, c, x);
    AfterElements(s.running, c);
    MinusIndex(After(s.running, c), x, t);
  }

  /** A context switch brings every READY task it does not dispatch at least one place nearer. */
  lemma SwitchProgress<T>(s: Scheduler<T>, idle: T, dma: bool, t: T)
    requires Sound(s, idle) && t in s.running && s.tasks[t].state == READY
    ensures Known(s) && (s.currentlyRunning.Some? ==> CurrentInRing(s))
    ensures var r := SwitchTask(s, dma);
      && t in r.running && CurrentInRing(r) && r.tasks[t] == s.tasks[t]
      && (r.currentlyRunning != Some(t) ==>
          Distance(r, t) + 1 <= Distance(s, t) + if dma then 1 else 0)
  {
    hide Sound, DeadTasks, WakeOrForceIdle, Wakeup, FirstReady, After, Distinct;
    SoundParts(s, idle);
    SwitchTaskDispatches(s, idle, dma);
    if s.currentlyRunning.None? {
      IdleStep(s, idle, t);
    } else {
      WakeupDelay(s, idle, IDLE_PID, t);
      WakeupSound(s, idle, IDLE_PID);
      var w := if dma then Wakeup(s, IDLE_PID) else s;
      SoundParts(w, idle);
      RoundRobinStep(w, idle, t);
    }
  }

  lemma RoundRobinStep<T>(w: Scheduler<T>, idle: T, t: T)
    requires Sound(w, idle) && CurrentInRing(w) && t in w.running && w.tasks[t].state == READY
    ensures var ring := After(w.running, w.currentlyRunning.value);
      var k := FirstReady(ring, w.tasks, 0);
      && k < |ring| && ring[k] in w.running
      && (ring[k] != t ==> Distance(Dispatch(w, Some(ring[k])), t) < Distance(w, t))
  {
    hide Sound, After;
    SoundParts(w, idle);
    var q, c := w.running, w.currentlyRunning.value;
    AfterElements(q, c);
    var ring := After(q, c);
    var i, k := IndexOf(ring, t), FirstReady(ring, w.tasks, 0);
    assert k <= i;
    MovingOnRotates(q, c, k);
    if ring[k] != t {
      AfterElements(q, ring[k]);
      assert After(q, ring[k])[i - k - 1] == t;
      IndexOfUnique(After(q, ring[k]), i - k - 1);
    }
  }

  lemma IdleStep<T>(s: Scheduler<T>, idle: T, t: T)
    requires Sound(s, idle) && s.currentlyRunning.None? && t in s.running && s.tasks[t].state == READY
    ensures var r := WakeOrForceIdle(s);
      && t in r.running && CurrentInRing(r) && r.tasks[t] == s.tasks[t]
      && (r.currentlyRunning != Some(t) ==> Distance(r, t) <= |s.running|)
  {
    hide Sound, DeadTasks, WakeOrForceIdle, After, Distinct;
    SoundParts(s, idle);
    IdleIsDispatched(s, idle);
    WakeupSound(s, idle, IDLE_PID);
    WokenIsWaiting(s, IDLE_PID);
    var r := WakeOrForceIdle(s);
    AfterElements(r.running, idle);
    var ring := After(r.running, idle);
    var i := IndexOf(ring, t);
    assert ring[|r.running| - 1] == idle;
  }

  // ---------- one event ----------

  lemma StepProgress<T>(m: Machine<T>, e: Event<T>, t: T)
    requires Inv(m) && Enabled(m, e) && Waits(m, t)
    requires e.PendSV? ==> Step(m, e).executing != t
    ensures Inv(Step(m, e)) && Waits(Step(m, e), t)
    ensures Distance(Step(m, e).sched, t) + Switches(e) <= Distance(m.sched, t) + Arrivals(e)
  {
    hide Sound, DeadTasks, SwitchTask, ReapFrom, Wakeup, FinishTask, CreateTask, BlockCurrentTask, IsDead,
      Distance;
    SoundParts(m.sched, m.idle);
    StepKeepsInv(m, e);
    match e
    case Wake(pid) => WakeupDelay(m.sched, m.idle, pid, t);
    case Create(x, sp) => CreateDelay(m.sched, m.idle, x, sp, t);
    case Block => ReadyIsAlive(m); BlockDelay(m.sched, m.idle, t);
    case Yield =>
    case Finish(joined) => FinishDelay(m, joined, t);
    case Invalidate => SameRing(m.sched, InvalidateCurrentTask(m.sched), t);
    case Compute(_) =>
    case Reap =>
      ReadyIsAlive(m);
      ReadyLives(m.sched.tasks[t]);
      ReapDelay(m.sched, m.idle, m.executing, 0, t);
      ReapFromSound(m.sched, m.idle, m.executing, 0);
    case PendSV(dma) =>
      var s := SavePsp(m.sched, m.psp);
      SavePspSound(m.sched, m.idle, m.psp);
      SameRing(m.sched, s, t);
      SwitchProgress(s, m.idle, dma, t);
  }

  lemma ReadyLives(task: Task)
    ensures task.state == READY ==> !IsDead(task)
  {
  }

  lemma SameRing<T>(s: Scheduler<T>, r: Scheduler<T>, t: T)
    requires t in s.running && (s.currentlyRunning.Some? ==> s.currentlyRunning.value in s.running)
    requires r.running == s.running && r.currentlyRunning == s.currentlyRunning
    ensures Distance(r, t) == Distance(s, t)
  {
  }

  lemma FinishDelay<T>(m: Machine<T>, joined: Option<nat>, t: T)
    requires Inv(m) && Enabled(m, Finish(joined)) && Waits(m, t)
    ensures var r := FinishTask(m.sched, joined);
      && t in r.running && r.currentlyRunning == m.sched.currentlyRunning
      && m.sched.currentlyRunning.value in r.running && r.tasks[t] == m.sched.tasks[t]
      && Distance(r, t) <= Distance(m.sched, t) + if joined.Some? then 1 else 0
  {
    hide Sound, Wakeup, DeadTasks;
    SoundParts(m.sched, m.idle);
    ReadyIsAlive(m);
    var s, x := m.sched, m.executing;
    var f := s.(tasks := s.tasks[x := s.tasks[x].(state := FINISHED)],
                cleanUpRequests := (s.cleanUpRequests + 1) % 16);
    OneMoreDead(s, m.idle, x, s.tasks[x].(state := FINISHED));
    SameRing(s, f, t);
    if joined.Some? {
      WakeupDelay(f, m.idle, joined.value, t);
      WakeupSound(f, m.idle, joined.value);
      WakeupCounter(f, s.cleanUpRequests, joined.value);
      SameRing(Wakeup(f, joined.value), FinishTask(s, joined), t);
      SoundParts(Wakeup(f, joined.value), m.idle);
    } else {
      SameRing(s, FinishTask(s, joined), t);
    }
  }

  lemma WakeupCounter<T>(s: Scheduler<T>, n: nat, pid: nat)
    requires Known(s)
    ensures Wakeup(s.(cleanUpRequests := n), pid) == Wakeup(s, pid).(cleanUpRequests := n)
  {
  }

  // ---------- main result ----------

  /** While t is not dispatched its distance pays for every context switch. */
  lemma {:induction false} Bypass<T>(m: Machine<T>, events: seq<Event<T>>, t: T)
    requires Inv(m) && CanRun(m, events) && Waits(m, t) && !Dispatched(m, events, t)
    ensures Waits(Run(m, events), t)
    ensures TotalSwitches(events) + Distance(Run(m, events).sched, t)
         <= Distance(m.sched, t) + TotalArrivals(events)
    decreases |events|
  {
    hide Inv, Distance, Waits, Step;
    SoundRing(m, t);
    if events != [] {
      StepKeepsInv(m, events[0]);
      StepProgress(m, events[0], t);
      Bypass(Step(m, events[0]), events[1..], t);
    }
  }

  lemma SoundRing<T>(m: Machine<T>, t: T)
    requires Inv(m) && Waits(m, t)
    ensures t in m.sched.running
    ensures m.sched.currentlyRunning.Some? ==> m.sched.currentlyRunning.value in m.sched.running
    ensures Distance(m.sched, t) >= 1
  {
  }

  /** Bounded bypass: a READY task at forward distance d is dispatched within d context switches
      plus one for each wake-up or creation in between, whatever the tasks and interrupts do. */
  lemma BoundedBypass<T>(m: Machine<T>, events: seq<Event<T>>, t: T)
    requires Inv(m) && CanRun(m, events) && Waits(m, t)
    requires TotalSwitches(events) >= Distance(m.sched, t) + TotalArrivals(events)
    ensures Dispatched(m, events, t)
  {
    if !Dispatched(m, events, t) {
      Bypass(m, events, t);
      SoundRing(Run(m, events), t);
    }
  }
}
