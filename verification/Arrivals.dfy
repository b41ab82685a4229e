/** Who arrives in the running ring queues up: it is not dispatched before a READY task that lay
    between the current node and the tail when it came. */
module Arrivals {
  import opened Scheduling
  import opened Machines
  import opened Runs
  import opened Fairness
  import opened Laws

  // ---------- cyclic order ----------

  /** Walking on from c once around, t comes before x; c itself comes last. */
  ghost predicate ComesFirst<T>(q: seq<T>, c: T, t: T, x: T)
    requires c in q && t in q && x in q
  {
    var i, j, k := IndexOf(q, c), IndexOf(q, t), IndexOf(q, x);
    (i < j && (j < k || k <= i)) || (j < k && k <= i)
  }

  /** The place of u in the ring as read from behind c. */
  lemma PlaceBehind<T>(q: seq<T>, c: T, u: T)
    requires Distinct(q) && c in q && u in q
    ensures u in After(q, c)
    ensures var i, k := IndexOf(q, c), IndexOf(q, u);
      IndexOf(After(q, c), u) == if k > i then k - i - 1 else k + |q| - i - 1
  {
    var i, k, r := IndexOf(q, c), IndexOf(q, u), After(q, c);
    AfterElements(q, c);
    var p := if k > i then k - i - 1 else k + |q| - i - 1;
    assert r[p] == q[k];
    IndexOfUnique(r, p);
  }

  /** Members that stay in order stay in cyclic order. */
  lemma StaysFirst<T>(q: seq<T>, r: seq<T>, c: T, t: T, x: T)
    requires Distinct(q) && Distinct(r) && InOrder(q, r)
    requires c in q && t in q && x in q && c in r && t in r && x in r
    ensures ComesFirst(q, c, t, x) <==> ComesFirst(r, c, t, x)
  {
    hide Distinct;
    SameSide(q, r, c, t);
    SameSide(q, r, c, x);
    SameSide(q, r, t, x);
  }

  lemma SameSide<T>(q: seq<T>, r: seq<T>, a: T, b: T)
    requires InOrder(q, r) && a in q && b in q && a in r && b in r
    ensures IndexOf(q, a) < IndexOf(q, b) <==> IndexOf(r, a) < IndexOf(r, b)
  {
    var i, j := IndexOf(r, a), IndexOf(r, b);
    assert r[i] == a && r[j] == b;
  }

  /** A member that is new in r is behind everybody who was there. */
  lemma NewIsLast<T>(q: seq<T>, r: seq<T>, t: T, x: T)
    requires InOrder(q, r) && t in q && t in r && x !in q && x in r
    ensures IndexOf(r, t) < IndexOf(r, x)
  {
    var i, j := IndexOf(r, t), IndexOf(r, x);
    assert r[i] == t && r[j] == x;
  }

  /** Moving on to a task d in front of both keeps their order. */
  lemma MovesOn<T>(q: seq<T>, c: T, d: T, t: T, x: T)
    requires Distinct(q) && c in q && d in q && t in q && x in q && t != x
    requires t in After(q, c) && d in After(q, c) && IndexOf(After(q, c), d) < IndexOf(After(q, c), t)
    requires ComesFirst(q, c, t, x)
    ensures ComesFirst(q, d, t, x) && d != t && d != x
  {
    hide Distinct, After;
    PlaceBehind(q, c, d);
    PlaceBehind(q, c, t);
    PlaceBehind(q, c, x);
    IndexIs(q, c);
    IndexIs(q, d);
    IndexIs(q, t);
    IndexIs(q, x);
  }

  lemma IndexIs<T>(q: seq<T>, t: T)
    requires t in q
    ensures IndexOf(q, t) < |q| && q[IndexOf(q, t)] == t
  {
  }

  // ---------- one event ----------

  /** t and x wait for their turn, and t comes first. */
  ghost predicate InFront<T>(m: Machine<T>, t: T, x: T)
    requires Inv(m)
  {
    && Waits(m, t) && Waits(m, x) && t != x
    && m.sched.currentlyRunning.Some? && m.sched.currentlyRunning.value in m.sched.running
    && ComesFirst(m.sched.running, m.sched.currentlyRunning.value, t, x)
  }

  /** Until one of the two is dispatched, every event keeps t in front of x. */
  lemma StaysInFront<T>(m: Machine<T>, e: Event<T>, t: T, x: T)
    requires Inv(m) && Enabled(m, e) && InFront(m, t, x)
    requires e.PendSV? ==> Step(m, e).executing != t
    ensures Inv(Step(m, e)) && InFront(Step(m, e), t, x)
    ensures e.PendSV? ==> Step(m, e).executing != x
  {
    hide Sound, Distinct, Waits, ComesFirst, InOrder, NearestReady, DeadTasks, Step;
    StepKeepsInv(m, e);
    var r, c := Step(m, e), m.sched.currentlyRunning.value;
    RunParts(m);
    RunParts(r);
    if e.PendSV? {
      SwitchKeepsFront(m, e.externalTaskTransfered, t, x);
    } else {
      StepProgress(m, e, t);
      StepProgress(m, e, x);
      WaitsRuns(m, t);
      WaitsRuns(m, x);
      WaitsRuns(r, t);
      WaitsRuns(r, x);
      StepKeepsOrder(m, e);
      if e.Block? {
        BlockKeepsFront(m, t, x);
      } else {
        ProcessorEffect(m, e);
        StaysFirst(m.sched.running, r.sched.running, c, t, x);
      }
    }
  }

  lemma RunParts<T>(m: Machine<T>)
    requires Inv(m)
    ensures Distinct(m.sched.running) && Distinct(m.sched.waiting) && Known(m.sched)
    ensures m.sched.currentlyRunning.Some? ==> m.sched.currentlyRunning.value in m.sched.running
  {
    hide Distinct;
  }

  lemma WaitsRuns<T>(m: Machine<T>, t: T)
    requires Inv(m) && Waits(m, t)
    ensures t in m.sched.running && t in m.sched.tasks && m.sched.tasks[t].state == READY
  {
  }

  /** In front by distance is in front. */
  lemma NearerIsFirst<T>(s: Scheduler<T>, t: T, x: T)
    requires CurrentInRing(s) && Distinct(s.running) && t in s.running && x in s.running && t != x
    ensures ComesFirst(s.running, s.currentlyRunning.value, t, x) <==> Distance(s, t) < Distance(s, x)
  {
    hide Distinct, After;
    var q, c := s.running, s.currentlyRunning.value;
    PlaceBehind(q, c, t);
    PlaceBehind(q, c, x);
    IndexIs(q, c);
    IndexIs(q, t);
    IndexIs(q, x);
  }

  lemma BlockKeepsFront<T>(m: Machine<T>, t: T, x: T)
    requires Inv(m) && Enabled(m, Block) && InFront(m, t, x)
    requires t in Step(m, Block).sched.running && x in Step(m, Block).sched.running
    ensures var r := Step(m, Block).sched;
      && r.currentlyRunning.Some? && r.currentlyRunning.value in r.running
      && ComesFirst(r.running, r.currentlyRunning.value, t, x)
  {
    hide Sound, Distinct, ComesFirst, InOrder, Distance, DeadTasks, Step;
    var r := Step(m, Block).sched;
    StepKeepsInv(m, Block);
    RunParts(m);
    RunParts(Step(m, Block));
    WaitsRuns(m, t);
    WaitsRuns(m, x);
    BlockEffect(m);
    NearerIsFirst(m.sched, t, x);
    NearerIsFirst(r, t, x);
  }

  lemma SwitchKeepsFront<T>(m: Machine<T>, dma: bool, t: T, x: T)
    requires Inv(m) && m.pending && InFront(m, t, x) && Step(m, PendSV(dma)).executing != t
    ensures Inv(Step(m, PendSV(dma))) && InFront(Step(m, PendSV(dma)), t, x)
    ensures Step(m, PendSV(dma)).executing != x
  {
    hide Sound, Distinct, ComesFirst, InOrder, DeadTasks, Step, After, IndexOf;
    var r, c := Step(m, PendSV(dma)), m.sched.currentlyRunning.value;
    StepKeepsInv(m, PendSV(dma));
    RunParts(m);
    RunParts(r);
    var w := PendSvEffect(m, dma);
    StepProgress(m, PendSV(dma), t);
    WaitsRuns(m, t);
    WaitsRuns(m, x);
    StaysFirst(m.sched.running, r.sched.running, c, t, x);
    NearestIsOther(r.sched, c, r.executing, t);
    MovesOn(r.sched.running, c, r.executing, t, x);
    StepProgress(m, PendSV(dma), x);
  }

  lemma NearestIsOther<T>(s: Scheduler<T>, c: T, d: T, t: T)
    requires Known(s) && Distinct(s.running) && c in s.running && NearestReady(s, c, d) && t != d
    requires t in s.running && s.tasks[t].state == READY
    ensures t in After(s.running, c) && d in After(s.running, c)
    ensures IndexOf(After(s.running, c), d) < IndexOf(After(s.running, c), t)
  {
    hide Distinct, After;
    AfterElements(s.running, c);
    IndexIs(After(s.running, c), d);
    IndexIs(After(s.running, c), t);
  }

  // ---------- arriving ----------

  /** x comes into the running ring while t, READY, lies between the current node and the tail. */
  ghost predicate Arrives<T>(m: Machine<T>, e: Event<T>, t: T, x: T)
    requires Inv(m) && Enabled(m, e)
  {
    && Waits(m, t) && x !in m.sched.running && x in Step(m, e).sched.running
    && m.sched.currentlyRunning.Some? && m.sched.currentlyRunning.value in m.sched.running
    && IndexOf(m.sched.running, m.sched.currentlyRunning.value) < IndexOf(m.sched.running, t)
  }

  lemma ArrivesBehind<T>(m: Machine<T>, e: Event<T>, t: T, x: T)
    requires Inv(m) && Enabled(m, e) && Arrives(m, e, t, x)
    requires e.PendSV? ==> Step(m, e).executing != t
    ensures Inv(Step(m, e)) && InFront(Step(m, e), t, x)
    ensures e.PendSV? ==> Step(m, e).executing != x
  {
    hide Sound, Distinct, Waits, InOrder, NearestReady, DeadTasks, Step, IndexOf;
    var r, c := Step(m, e), m.sched.currentlyRunning.value;
    StepKeepsInv(m, e);
    StepProgress(m, e, t);
    StepKeepsOrder(m, e);
    RunParts(m);
    RunParts(r);
    WaitsRuns(m, t);
    WaitsRuns(r, t);
    CurrentStaysIn(m, e, x);
    NewIsLast(m.sched.running, r.sched.running, t, x);
    SameSide(m.sched.running, r.sched.running, c, t);
    ArrivesReady(m, e, x);
    if e.PendSV? {
      NewIsOther(m, e.externalTaskTransfered, c, t, x);
    } else {
      ProcessorEffect(m, e);
    }
  }

  /** Only wake-ups, creations and switches bring somebody into the ring, and none takes the current
      node out. */
  lemma CurrentStaysIn<T>(m: Machine<T>, e: Event<T>, x: T)
    requires Inv(m) && Enabled(m, e) && m.sched.currentlyRunning.Some?
    requires x !in m.sched.running && x in Step(m, e).sched.running
    ensures !e.Block? && m.sched.currentlyRunning.value in Step(m, e).sched.running
  {
    hide Sound, Distinct, InOrder, NearestReady, DeadTasks, Step;
    StepKeepsInv(m, e);
    RunParts(m);
    RunParts(Step(m, e));
    if e.Block? {
      BlockEffect(m);
      assert false;
    } else if e.PendSV? {
      var w := PendSvEffect(m, e.externalTaskTransfered);
    } else {
      ProcessorEffect(m, e);
    }
  }

  /** Who comes is READY and does not execute. */
  lemma ArrivesReady<T>(m: Machine<T>, e: Event<T>, x: T)
    requires Inv(m) && Enabled(m, e) && x !in m.sched.running && x in Step(m, e).sched.running
    requires Inv(Step(m, e))
    ensures x in Step(m, e).sched.tasks && Step(m, e).sched.tasks[x].state == READY
    ensures !e.PendSV? ==> Waits(Step(m, e), x)
  {
    hide Sound, Distinct, InOrder, NearestReady, DeadTasks, Wakeup, FinishTask, SwitchTask, ReapFrom, FirstWaiting,
      IsDead, BlockCurrentTask, CreateTask, WakesIdle;
    RunParts(m);
    RunParts(Step(m, e));
    match e
    case Wake(pid) => var w := WakeEffect(m, pid);
    case Create(y, sp) => CreateSound(m.sched, m.idle, y, sp);
    case Block => BlockEffect(m);
    case Yield =>
    case Finish(joined) => var w := FinishEffect(m, joined);
    case Invalidate =>
    case Compute(_) =>
    case Reap => ReadyIsAlive(m); ReapOrder(m.sched, m.idle, m.executing, 0);
    case PendSV(dma) => var w := PendSvEffect(m, dma);
  }

  lemma NewIsOther<T>(m: Machine<T>, dma: bool, c: T, t: T, x: T)
    requires Inv(m) && m.pending && m.sched.currentlyRunning == Some(c)
    requires Inv(Step(m, PendSV(dma))) && Step(m, PendSV(dma)).executing != t
    requires var q := Step(m, PendSV(dma)).sched.running;
      c in q && t in q && x in q && IndexOf(q, c) < IndexOf(q, t) < IndexOf(q, x)
    requires Waits(Step(m, PendSV(dma)), t) && Step(m, PendSV(dma)).sched.tasks[x].state == READY
    ensures InFront(Step(m, PendSV(dma)), t, x) && Step(m, PendSV(dma)).executing != x
  {
    hide Sound, Distinct, InOrder, DeadTasks, Step, After, IndexOf;
    var r := Step(m, PendSV(dma));
    RunParts(r);
    WaitsRuns(r, t);
    var w := PendSvEffect(m, dma);
    NearestIsOther(r.sched, c, r.executing, t);
    MovesOn(r.sched.running, c, r.executing, t, x);
  }

  // ---------- main result ----------

  lemma {:induction false} NotOvertaken<T>(m: Machine<T>, events: seq<Event<T>>, t: T, x: T)
    requires Inv(m) && CanRun(m, events) && InFront(m, t, x) && !Dispatched(m, events, t)
    ensures !Dispatched(m, events, x)
    decreases |events|
  {
    hide Inv, Enabled, Step, InFront;
    if events != [] {
      StepKeepsInv(m, events[0]);
      StaysInFront(m, events[0], t, x);
      NotOvertaken(Step(m, events[0]), events[1..], t, x);
    }
  }

  /** Whatever follows: as long as t is not dispatched, x, which came behind it, is not either. */
  lemma ArrivalsQueueUp<T>(m: Machine<T>, events: seq<Event<T>>, t: T, x: T)
    requires Inv(m) && CanRun(m, events) && events != [] && Arrives(m, events[0], t, x)
    requires !Dispatched(m, events, t)
    ensures !Dispatched(m, events, x)
  {
    hide Inv, Enabled, Step, InFront, Arrives;
    StepKeepsInv(m, events[0]);
    ArrivesBehind(m, events[0], t, x);
    NotOvertaken(Step(m, events[0]), events[1..], t, x);
  }
}
