/** A run from boot on which the pid that create_task hands out is already taken
    (os/src/process/task.c, the pid is the number of tasks), and what wakeup_pid then does. */
module PidClash {
  import opened Scheduling
  import opened Machines
  import opened Runs

  // ---------- runs, one event at a time ----------

  /** Appending one event to a run. */
  lemma {:induction false} RunSnoc<T>(m: Machine<T>, events: seq<Event<T>>, e: Event<T>)
    requires Inv(m) && CanRun(m, events) && Enabled(Run(m, events), e)
    ensures CanRun(m, events + [e]) && Run(m, events + [e]) == Step(Run(m, events), e)
    decreases |events|
  {
    hide Inv, Enabled, Step;
    if events == [] {
      assert [e][1..] == [] && events + [e] == [e];
      StepKeepsInv(m, e);
    } else {
      assert (events + [e])[0] == events[0] && (events + [e])[1..] == events[1..] + [e];
      StepKeepsInv(m, events[0]);
      RunSnoc(Step(m, events[0]), events[1..], e);
    }
  }

  /** A context switch to the successor of the current task, if that is READY and the stack
      pointer did not move. */
  lemma SwitchToNext<T>(m: Machine<T>, c: T, t: T)
    requires Inv(m) && m.pending && m.sched.currentlyRunning == Some(c) && c in m.sched.running
    requires m.executing in m.sched.tasks && m.psp == m.sched.tasks[m.executing].sp
    requires t == Next(m.sched.running, c) && t in m.sched.tasks && m.sched.tasks[t].state == READY
    ensures Step(m, PendSV(false)) == Machine(Dispatch(m.sched, Some(t)), m.idle, t, m.sched.tasks[t].sp, false)
  {
    hide Sound, Wakeup;
    SoundParts(m.sched, m.idle);
    assert SavePsp(m.sched, m.psp) == m.sched;
    NextInRing(m.sched.running, c);
    assert After(m.sched.running, c)[0] == t;
  }

  // ---------- the run ----------

  // Node 0 is idle, f gives every task its initial stack pointer.

  function T(pid: nat, state: TaskState, sp: int): Task { Task(pid, state, sp) }

  function M(running: seq<nat>, waiting: seq<nat>, tasks: map<nat, Task>, current: nat, executing: nat,
             requests: nat, f: nat -> int, pending: bool): Machine<nat> {
    var s := Scheduler(running, waiting, tasks, Some(current), Some(executing), requests);
    Machine(s, 0, executing, f(executing), pending)
  }

  /** Tasks 1 and 2 are created. 1 runs and finishes, 2 runs and blocks, idle reaps 1 and creates 3,
      which runs and blocks. Then the pid of 2 and 3 is woken. */
  function EventAt(i: nat, f: nat -> int): Event<nat> {
    match i
    case 0 => Create(1, f(1))
    case 1 => Create(2, f(2))
    case 4 => Finish(None)
    case 8 => Reap
    case 9 => Create(3, f(3))
    case 14 => Wake(2)
    case _ =>
      if i == 2 || i == 10 then Yield else if i == 6 || i == 12 then Block else PendSV(false)
  }

  function Events(i: nat, f: nat -> int): seq<Event<nat>> {
    if i == 0 then [] else Events(i - 1, f) + [EventAt(i - 1, f)]
  }

  /** The machine after i events. */
  function State(i: nat, f: nat -> int): Machine<nat> {
    var t0, t1, t2, t3 := T(0, READY, f(0)), T(1, READY, f(1)), T(2, READY, f(2)), T(2, READY, f(3));
    var d1, w2, w3 := T(1, FINISHED, f(1)), T(2, WAITING, f(2)), T(2, WAITING, f(3));
    match i
    case 0 => M([0], [], map[0 := t0], 0, 0, 0, f, false)
    case 1 => M([0, 1], [], map[0 := t0, 1 := t1], 0, 0, 0, f, false)
    case 2 => M([0, 1, 2], [], map[0 := t0, 1 := t1, 2 := t2], 0, 0, 0, f, false)
    case 3 => M([0, 1, 2], [], map[0 := t0, 1 := t1, 2 := t2], 0, 0, 0, f, true)
    case 4 => M([0, 1, 2], [], map[0 := t0, 1 := t1, 2 := t2], 1, 1, 0, f, false)
    case 5 => M([0, 1, 2], [], map[0 := t0, 1 := d1, 2 := t2], 1, 1, 1, f, true)
    case 6 => M([0, 1, 2], [], map[0 := t0, 1 := d1, 2 := t2], 2, 2, 1, f, false)
    case 7 => M([0, 1], [2], map[0 := t0, 1 := d1, 2 := w2], 1, 2, 1, f, true)
    case 8 => M([0, 1], [2], map[0 := t0, 1 := d1, 2 := w2], 0, 0, 1, f, false)
    case 9 => M([0], [2], map[0 := t0, 2 := w2], 0, 0, 0, f, false)
    case 10 => M([0, 3], [2], map[0 := t0, 2 := w2, 3 := t3], 0, 0, 0, f, false)
    case 11 => M([0, 3], [2], map[0 := t0, 2 := w2, 3 := t3], 0, 0, 0, f, true)
    case 12 => M([0, 3], [2], map[0 := t0, 2 := w2, 3 := t3], 3, 3, 0, f, false)
    case 13 => M([0], [2, 3], map[0 := t0, 2 := w2, 3 := w3], 0, 3, 0, f, true)
    case 14 => M([0], [2, 3], map[0 := t0, 2 := w2, 3 := w3], 0, 0, 0, f, false)
    case _ => M([0, 2], [3], map[0 := t0, 2 := t2, 3 := w3], 0, 0, 0, f, false)
  }

  lemma CreateLeg(i: nat, f: nat -> int)
    requires (i == 0 || i == 1 || i == 9) && Inv(State(i, f))
    ensures Enabled(State(i, f), EventAt(i, f)) && Step(State(i, f), EventAt(i, f)) == State(i + 1, f)
  {
    hide Inv, State, EventAt;
    if i == 0 { FirstCreate(f); } else if i == 1 { SecondCreate(f); } else { ThirdCreate(f); }
  }

  /** A creation while some task exists. */
  lemma CreatesReady<T>(m: Machine<T>, t: T, sp: int)
    requires Inv(m) && Enabled(m, Create(t, sp))
    ensures var task := Task(|m.sched.running| + |m.sched.waiting|, READY, sp);
      Step(m, Create(t, sp)).sched.running == m.sched.running + [t]
      && Step(m, Create(t, sp)) == m.(sched := m.sched.(running := m.sched.running + [t],
                                                        tasks := m.sched.tasks[t := task]))
  {
    hide Sound;
    CreateSound(m.sched, m.idle, t, sp);
    TasksCounted(m);
  }

  lemma FirstCreate(f: nat -> int)
    requires Inv(State(0, f))
    ensures Enabled(State(0, f), EventAt(0, f)) && Step(State(0, f), EventAt(0, f)) == State(1, f)
  {
    hide Inv, Step;
    TasksCounted(State(0, f));
    CreatesReady(State(0, f), 1, f(1));
  }

  lemma SecondCreate(f: nat -> int)
    requires Inv(State(1, f))
    ensures Enabled(State(1, f), EventAt(1, f)) && Step(State(1, f), EventAt(1, f)) == State(2, f)
  {
    hide Inv, Step;
    TasksCounted(State(1, f));
    CreatesReady(State(1, f), 2, f(2));
  }

  lemma ThirdCreate(f: nat -> int)
    requires Inv(State(9, f))
    ensures Enabled(State(9, f), EventAt(9, f)) && Step(State(9, f), EventAt(9, f)) == State(10, f)
  {
    hide Inv, Step;
    TasksCounted(State(9, f));
    CreatesReady(State(9, f), 3, f(3));
  }

  lemma TasksCounted<T>(m: Machine<T>)
    requires Inv(m)
    ensures |m.sched.tasks| == |m.sched.running| + |m.sched.waiting|
  {
    TaskCount(m.sched);
  }

  lemma YieldLeg(i: nat, f: nat -> int)
    requires (i == 2 || i == 10) && Inv(State(i, f))
    ensures Enabled(State(i, f), EventAt(i, f)) && Step(State(i, f), EventAt(i, f)) == State(i + 1, f)
  {
    hide Inv;
  }

  lemma RingOf3(a: nat, b: nat, c: nat)
    requires a != b && b != c && a != c
    ensures Next([a, b, c], a) == b && Next([a, b, c], b) == c && Next([a, b, c], c) == a
    ensures Minus([a, b, c], c) == [a, b] && Prev([a, b, c], c) == b
  {
    var q := [a, b, c];
    assert q[1..] == [b, c] && q[1..][1..] == [c];
    assert IndexOf(q, b) == 1 && IndexOf(q, c) == 2;
  }

  lemma RingOf2(a: nat, b: nat)
    requires a != b
    ensures Next([a, b], a) == b && Next([a, b], b) == a && Next([a], a) == a
    ensures Minus([a, b], b) == [a] && Minus([a, b], a) == [b] && Prev([a, b], b) == a
  {
    var q := [a, b];
    assert q[1..] == [b];
    assert IndexOf(q, b) == 1;
  }

  lemma SwitchLeg(i: nat, f: nat -> int)
    requires (i == 3 || i == 5 || i == 7 || i == 11 || i == 13) && Inv(State(i, f))
    ensures Enabled(State(i, f), EventAt(i, f)) && Step(State(i, f), EventAt(i, f)) == State(i + 1, f)
  {
    hide Inv, Step, Next, Prev, Minus;
    RingOf3(0, 1, 2);
    RingOf2(0, 1);
    RingOf2(0, 3);
    var m := State(i, f);
    SwitchToNext(m, m.sched.currentlyRunning.value, State(i + 1, f).executing);
  }

  lemma FinishLeg(f: nat -> int)
    requires Inv(State(4, f))
    ensures Enabled(State(4, f), EventAt(4, f)) && Step(State(4, f), EventAt(4, f)) == State(5, f)
  {
    hide Inv;
  }

  lemma BlockLeg(i: nat, f: nat -> int)
    requires (i == 6 || i == 12) && Inv(State(i, f))
    ensures Enabled(State(i, f), EventAt(i, f)) && Step(State(i, f), EventAt(i, f)) == State(i + 1, f)
  {
    hide Inv, Prev, Minus;
    if i == 6 {
      RingOf3(0, 1, 2);
    } else {
      RingOf2(0, 3);
    }
    var s, t := State(i, f).sched, State(i + 1, f).sched;
    assert s.tasks[s.currentlyRunning.value := T(2, WAITING, f(s.currentlyRunning.value))] == t.tasks;
  }

  lemma ReapLeg(f: nat -> int)
    requires Inv(State(8, f))
    ensures Enabled(State(8, f), EventAt(8, f)) && Step(State(8, f), EventAt(8, f)) == State(9, f)
  {
    hide Inv, Next, Minus;
    RingOf2(0, 1);
    var s, r := State(8, f).sched, State(9, f).sched;
    TwoDistinct(0, 1);
    assert Reaped(s, 1) == r;
    assert ReapFrom(s, 1, 1) == ReapFrom(r, 0, 2) == r;
    assert ReapFrom(s, 0, 0) == ReapFrom(s, 1, 1);
  }

  lemma TwoDistinct(a: nat, b: nat)
    requires a != b
    ensures Distinct([a, b]) && Distinct([a]) && Distinct([b])
  {
  }

  lemma WakeLeg(f: nat -> int)
    requires Inv(State(14, f))
    ensures Enabled(State(14, f), EventAt(14, f)) && Step(State(14, f), EventAt(14, f)) == State(15, f)
  {
    hide Inv, Minus, Find;
    RingOf2(2, 3);
    var s := State(14, f).sched;
    assert s.waiting[0] == 2 && s.tasks[2].pid == 2;
    assert Find(s.waiting, s.tasks, 2, 0) == 0;
  }

  lemma Leg(i: nat, f: nat -> int)
    requires i < 15 && Inv(State(i, f))
    ensures Enabled(State(i, f), EventAt(i, f)) && Step(State(i, f), EventAt(i, f)) == State(i + 1, f)
  {
    hide Inv, Enabled, Step, State, EventAt;
    if i == 0 || i == 1 || i == 9 { CreateLeg(i, f); }
    else if i == 2 || i == 10 { YieldLeg(i, f); }
    else if i == 4 { FinishLeg(f); }
    else if i == 6 || i == 12 { BlockLeg(i, f); }
    else if i == 8 { ReapLeg(f); }
    else if i == 14 { WakeLeg(f); }
    else { SwitchLeg(i, f); }
  }

  lemma Boots(f: nat -> int)
    ensures Inv(Boot<nat>(0, f(0))) && Boot<nat>(0, f(0)) == State(0, f)
  {
    BootInv<nat>(0, f(0));
    assert Find([0], map[0 := T(0, WAITING, f(0))], 0, 0) == 0;
  }

  ghost predicate Leads<T>(b: Machine<T>, events: seq<Event<T>>, m: Machine<T>) {
    Inv(b) && CanRun(b, events) && Run(b, events) == m
  }

  /** The first i events lead from boot to the i-th state. */
  ghost predicate Reached(i: nat, f: nat -> int) { Leads(Boot<nat>(0, f(0)), Events(i, f), State(i, f)) }

  lemma LeadsOn<T>(b: Machine<T>, events: seq<Event<T>>, m: Machine<T>, e: Event<T>)
    requires Leads(b, events, m) && Inv(m) && Enabled(m, e)
    ensures Leads(b, events + [e], Step(m, e))
  {
    hide Inv, Enabled, Step;
    RunSnoc(b, events, e);
  }

  lemma LeadsNowhere<T>(b: Machine<T>)
    requires Inv(b)
    ensures Leads(b, [], b)
  {
    hide Inv;
  }

  lemma Starts(f: nat -> int)
    ensures Reached(0, f) && Inv(State(0, f))
  {
    hide Inv, Leads;
    Boots(f);
    LeadsNowhere<nat>(Boot<nat>(0, f(0)));
  }

  lemma {:induction false} Legs(i: nat, f: nat -> int)
    requires i <= 15
    ensures Reached(i, f) && Inv(State(i, f))
  {
    hide Inv, Enabled, Step, State, EventAt, Leads;
    if i == 0 {
      Starts(f);
    } else {
      Legs(i - 1, f);
      Leg(i - 1, f);
      StepKeepsInv(State(i - 1, f), EventAt(i - 1, f));
      LeadsOn(Boot<nat>(0, f(0)), Events(i - 1, f), State(i - 1, f), EventAt(i - 1, f));
    }
  }

  // ---------- main results ----------

  /** From boot, with one reaping: the task that is created then gets the pid of one that exists. */
  lemma SecondPid2(f: nat -> int)
    ensures Reached(10, f) && EventAt(9, f) == Create(3, f(3))
    ensures State(10, f).sched.tasks == map[0 := T(0, READY, f(0)), 2 := T(2, WAITING, f(2)), 3 := T(2, READY, f(3))]
  {
    hide Reached;
    Legs(10, f);
  }

  /** When both of them wait, waking their pid wakes one and leaves the other waiting. */
  lemma OneOfTwoWakes(f: nat -> int)
    ensures Reached(14, f) && State(14, f).sched.waiting == [2, 3]
    ensures Reached(15, f) && State(15, f).sched.waiting == [3] && State(15, f).sched.running == [0, 2]
    ensures EventAt(14, f) == Wake(2)
  {
    hide Reached;
    Legs(14, f);
    Legs(15, f);
  }
}
