/** search_invalidate_tasks (os/src/process/scheduler.c) with interrupts: between any two rounds
    of its loop, wakeup_pid may append tasks to the ring that it walks. */
module Interrupts {
  import opened Sets
  import opened Scheduling
  import opened Machines
  import opened Runs
  import opened Fairness
  import opened Reaping

  datatype Action = Round | Interrupt(pid: nat)

  /** The loop before a round: the scheduler, its cursor and its round counter. */
  datatype Pass<T(==)> = Pass(s: Scheduler<T>, q: T, j: nat, done: bool)

  ghost predicate Ready<T>(p: Pass<T>, idle: T) {
    && Sound(p.s, idle) && CurrentInRing(p.s) && !IsDead(p.s.tasks[p.s.currentlyRunning.value])
    && (!p.done ==> p.q in p.s.running)
  }

  ghost function Act<T>(p: Pass<T>, idle: T, a: Action): Pass<T>
    requires Ready(p, idle)
  {
    match a
    case Interrupt(pid) => p.(s := Wakeup(p.s, pid))
    case Round =>
      if p.done then p
      else if p.j >= |p.s.running| then p.(done := true)
      else
        var next := Next(p.s.running, p.q);
        if IsDead(p.s.tasks[p.q]) then Pass(Reaped(p.s, p.q), next, p.j + 1, false)
        else p.(q := next, j := p.j + 1)
  }

  lemma ActKeepsReady<T>(p: Pass<T>, idle: T, a: Action)
    requires Ready(p, idle)
    ensures Ready(Act(p, idle, a), idle)
    ensures DeadTasks(Act(p, idle, a).s.tasks) <= DeadTasks(p.s.tasks)
  {
    hide Sound, Distinct, Next, IsDead, DeadTasks, Wakeup;
    SoundParts(p.s, idle);
    match a
    case Interrupt(pid) =>
      WakeupSound(p.s, idle, pid);
      WakeKeepsDead(p.s, idle, pid);
      SoundParts(Wakeup(p.s, pid), idle);
      RunningGrows(p.s, idle, pid);
    case Round =>
      if !p.done && p.j < |p.s.running| {
        NextInRing(p.s.running, p.q);
        if IsDead(p.s.tasks[p.q]) {
          TwoNodesLeft(p.s, p.q);
          RemovalDropsHead(p.s.running, p.q);
          ReapedSound(p.s, idle, p.q);
          SoundParts(Reaped(p.s, p.q), idle);
          CurrentStays(p.s, p.q);
          DeadGoes(p.s.tasks, p.q);
        }
      }
  }

  lemma DeadGoes<T>(tasks: map<T, Task>, q: T)
    requires q in tasks && IsDead(tasks[q])
    ensures DeadTasks(tasks - {q}) == DeadTasks(tasks) - {q}
    ensures q in DeadTasks(tasks)
  {
  }

  lemma WakeKeepsDead<T>(s: Scheduler<T>, idle: T, pid: nat)
    requires Sound(s, idle)
    ensures Known(s) && DeadTasks(Wakeup(s, pid).tasks) == DeadTasks(s.tasks)
  {
    hide Distinct, Find;
    SoundParts(s, idle);
    WokenIsWaiting(s, pid);
    SameDead(s.tasks, Wakeup(s, pid).tasks);
  }

  lemma RunningGrows<T>(s: Scheduler<T>, idle: T, pid: nat)
    requires Sound(s, idle)
    ensures Known(s)
    ensures Woken(s, pid).None? ==> Wakeup(s, pid) == s
    ensures Woken(s, pid).Some? ==>
      Wakeup(s, pid).running == s.running + [Woken(s, pid).value] && Woken(s, pid).value !in s.running
    ensures forall t :: t in s.running ==> t in Wakeup(s, pid).running
    ensures forall t :: t in s.running && t in s.tasks && t in Wakeup(s, pid).tasks ==>
      Wakeup(s, pid).tasks[t] == s.tasks[t]
  {
    hide Find;
    SoundParts(s, idle);
    WokenIsWaiting(s, pid);
  }

  ghost function Acts<T>(p: Pass<T>, idle: T, actions: seq<Action>): Pass<T>
    requires Ready(p, idle)
    decreases |actions|
  {
    if actions == [] then p
    else ActKeepsReady(p, idle, actions[0]); Acts(Act(p, idle, actions[0]), idle, actions[1..])
  }

  /** The loop as it starts. */
  ghost function Start<T>(s: Scheduler<T>): Pass<T>
    requires CurrentInRing(s)
  {
    Pass(s, s.currentlyRunning.value, 0, false)
  }

  // ---------- without interrupts ----------

  function Rounds(k: nat): seq<Action> { if k == 0 then [] else [Round] + Rounds(k - 1) }

  /** Enough rounds in a row are the pass that search_invalidate_tasks is without interrupts. */
  lemma {:induction false} RoundsAreThePass<T>(p: Pass<T>, idle: T, k: nat)
    requires Ready(p, idle) && !p.done && p.j + k > |p.s.running| && k > 0
    ensures Distinct(p.s.running) && forall t :: t in p.s.running ==> t in p.s.tasks
    ensures Acts(p, idle, Rounds(k)).s == ReapFrom(p.s, p.q, p.j) && Acts(p, idle, Rounds(k)).done
    decreases k
  {
    hide Sound, Distinct, Next, IsDead, Minus;
    SoundParts(p.s, idle);
    UnfoldReap(p.s, p.q, p.j);
    ActKeepsReady(p, idle, Round);
    assert Rounds(k)[0] == Round && Rounds(k)[1..] == Rounds(k - 1);
    var r := Act(p, idle, Round);
    if p.j >= |p.s.running| {
      DoneStays(r, idle, k - 1);
    } else {
      if IsDead(p.s.tasks[p.q]) {
        TwoNodesLeft(p.s, p.q);
        MinusElements(p.s.running, p.q);
      }
      RoundsAreThePass(r, idle, k - 1);
    }
  }

  lemma {:induction false} DoneStays<T>(p: Pass<T>, idle: T, k: nat)
    requires Ready(p, idle) && p.done
    ensures Acts(p, idle, Rounds(k)) == p
    decreases k
  {
    if k > 0 {
      assert Rounds(k)[0] == Round && Rounds(k)[1..] == Rounds(k - 1);
      DoneStays(p, idle, k - 1);
    }
  }

  // ---------- with interrupts: at least half of the dead tasks are reaped ----------

  /** Read from the cursor on, the ring is what lies ahead and then what was visited, where no
      task is dead. Every round so far either left a node behind or removed one. */
  ghost predicate Ahead<T>(p: Pass<T>, ahead: seq<T>, behind: seq<T>, removed: int) {
    && p.q in p.s.running && StartingAt(p.s.running, p.q) == ahead + behind
    && (forall t :: t in behind ==> t in p.s.tasks && !IsDead(p.s.tasks[t]))
    && p.j <= |behind| + removed
  }

  /** What a task that is appended to the ring becomes part of. */
  lemma AppendAt<T>(ring: seq<T>, q: T, t: T, ahead: seq<T>, behind: seq<T>) returns (ahead': seq<T>, behind': seq<T>)
    requires Distinct(ring) && t !in ring && q in ring && StartingAt(ring, q) == ahead + behind
    ensures q in ring + [t] && StartingAt(ring + [t], q) == ahead' + behind'
    ensures forall u :: u in behind' ==> u in behind || u == t
    ensures if |ahead| >= |ring| - IndexOf(ring, q)
      then |ahead'| == |ahead| + 1 && behind' == behind && forall u :: u in ahead' ==> u in ahead || u == t
      else ahead' == ahead && |behind'| == |behind| + 1 && behind' != [] && behind != [] && behind'[0] == behind[0]
  {
    hide StartingAt;
    var pre, post := SplitAtNode(ring, q);
    var front := [q] + post;
    AppendDistinct(ring, t);
    StartingAtSplit(pre, q, post);
    assert ring + [t] == pre + [q] + (post + [t]);
    StartingAtSplit(pre, q, post + [t]);
    assert ring[|pre|] == q;
    IndexOfUnique(ring, |pre|);
    assert ahead + behind == front + pre;
    if |ahead| >= |front| {
      Cut(front, pre, ahead, behind);
      ahead', behind' := front + [t] + ahead[|front|..], behind;
    } else {
      Cut(ahead, behind, front, pre);
      ahead', behind' := ahead, front[|ahead|..] + [t] + pre;
    }
    assert [q] + (post + [t]) + pre == ahead' + behind';
  }

  lemma Cut<T>(a: seq<T>, b: seq<T>, c: seq<T>, d: seq<T>)
    requires a + b == c + d && |a| <= |c|
    ensures c == a + c[|a|..] && b == c[|a|..] + d
  {
    assert (a + b)[..|a|] == a && (c + d)[..|a|] == c[..|a|];
    assert (a + b)[|a|..] == b && (c + d)[|a|..] == c[|a|..] + d;
  }

  /** The dead tasks lie ahead. */
  lemma DeadAhead<T>(p: Pass<T>, idle: T, ahead: seq<T>, behind: seq<T>, removed: int)
    requires Ready(p, idle) && Ahead(p, ahead, behind, removed)
    ensures |p.s.running| == |ahead| + |behind|
    ensures Distinct(ahead + behind) && (ahead + behind)[0] == p.q
    ensures forall t :: t in ahead + behind ==> t in p.s.tasks
    ensures |DeadTasks(p.s.tasks)| <= |ahead|
    ensures ahead == [] ==> DeadTasks(p.s.tasks) == {}
  {
    hide Distinct, StartingAt, IsDead, DeadTasks;
    SoundParts(p.s, idle);
    StartingAtElements(p.s.running, p.q);
    var dead := DeadTasks(p.s.tasks);
    forall t | t in dead ensures t in ahead {
      DeadIsDead(p.s.tasks, t);
      DeadRuns(p.s, idle, t);
    }
    assert DeadIn(ahead, dead) == dead;
    AtMostLength(ahead, dead);
  }

  lemma DeadIsDead<T>(tasks: map<T, Task>, t: T)
    ensures t in DeadTasks(tasks) <==> t in tasks && IsDead(tasks[t])
  {
  }

  lemma {:induction false} AheadStays<T>(p: Pass<T>, idle: T, a: Action, ahead: seq<T>, behind: seq<T>, total: nat)
    returns (ahead': seq<T>, behind': seq<T>)
    requires Ready(p, idle) && !p.done && DeadTasks(p.s.tasks) != {}
    requires Ahead(p, ahead, behind, total - |DeadTasks(p.s.tasks)|)
    ensures var r := Act(p, idle, a);
      && (r.done ==> 2 * |DeadTasks(r.s.tasks)| <= total)
      && (!r.done ==> Ahead(r, ahead', behind', total - |DeadTasks(r.s.tasks)|))
  {
    hide Distinct, StartingAt, IsDead, DeadTasks, Sound, Next, Wakeup, IndexOf;
    var dead := DeadTasks(p.s.tasks);
    SoundParts(p.s, idle);
    ahead', behind' := ahead, behind;
    match a
    case Interrupt(pid) =>
      RunningGrows(p.s, idle, pid);
      WakeKeepsDead(p.s, idle, pid);
      WakeupSound(p.s, idle, pid);
      if Woken(p.s, pid).Some? {
        var t := Woken(p.s, pid).value;
        WokenIsReady(p.s, idle, pid);
        ahead', behind' := AppendAt(p.s.running, p.q, t, ahead, behind);
        BehindRuns(p, idle, ahead, behind);
      }
    case Round =>
      DeadAhead(p, idle, ahead, behind, total - |dead|);
      if p.j < |p.s.running| {
        HeadOfRing(ahead, behind, p.q);
        ahead' := ahead[1..];
        if IsDead(p.s.tasks[p.q]) {
          TwoNodesLeft(p.s, p.q);
          RemovalDropsHead(p.s.running, p.q);
          assert ([p.q] + ahead' + behind)[1..] == ahead' + behind;
          OthersStay(p.s, p.q, ahead', behind);
          DeadGoes(p.s.tasks, p.q);
        } else {
          StepRotates(p.s.running, p.q);
          NextInRing(p.s.running, p.q);
          behind' := behind + [p.q];
        }
      }
  }

  lemma WokenIsReady<T>(s: Scheduler<T>, idle: T, pid: nat)
    requires Sound(s, idle)
    ensures Known(s)
    ensures Woken(s, pid).Some? ==>
      var t, r := Woken(s, pid).value, Wakeup(s, pid);
      t in r.tasks && r.tasks[t].state == READY && !IsDead(r.tasks[t])
  {
    hide Find;
    SoundParts(s, idle);
    WokenIsWaiting(s, pid);
  }

  lemma BehindRuns<T>(p: Pass<T>, idle: T, ahead: seq<T>, behind: seq<T>)
    requires Ready(p, idle) && p.q in p.s.running && StartingAt(p.s.running, p.q) == ahead + behind
    ensures forall t :: t in behind ==> t in p.s.running
  {
    hide StartingAt, Distinct;
    SoundParts(p.s, idle);
    StartingAtElements(p.s.running, p.q);
  }

  lemma {:induction false} InterruptedPass<T>(p: Pass<T>, idle: T, actions: seq<Action>, ahead: seq<T>,
                                              behind: seq<T>, total: nat)
    requires Ready(p, idle)
    requires p.done ==> 2 * |DeadTasks(p.s.tasks)| <= total
    requires !p.done && DeadTasks(p.s.tasks) != {} ==> Ahead(p, ahead, behind, total - |DeadTasks(p.s.tasks)|)
    ensures var r := Acts(p, idle, actions);
      && Ready(r, idle) && DeadTasks(r.s.tasks) <= DeadTasks(p.s.tasks)
      && (r.done ==> 2 * |DeadTasks(r.s.tasks)| <= total)
    decreases |actions|
  {
    hide Ready, DeadTasks, Act, Ahead;
    if actions != [] {
      var r := Act(p, idle, actions[0]);
      ActKeepsReady(p, idle, actions[0]);
      SubsetSize(DeadTasks(r.s.tasks), DeadTasks(p.s.tasks));
      ActKeepsDone(p, idle, actions[0]);
      var ahead', behind' := ahead, behind;
      if !p.done && DeadTasks(p.s.tasks) != {} {
        ahead', behind' := AheadStays(p, idle, actions[0], ahead, behind, total);
      }
      InterruptedPass(r, idle, actions[1..], ahead', behind', total);
    }
  }

  lemma ActKeepsDone<T>(p: Pass<T>, idle: T, a: Action)
    requires Ready(p, idle)
    ensures p.done ==> Act(p, idle, a).done
  {
  }

  /** Every live task stays, with its pid and stack pointer. */
  ghost predicate LiveStay<T>(before: map<T, Task>, after: map<T, Task>) {
    forall t :: t in before && !IsDead(before[t]) ==>
      t in after && !IsDead(after[t]) && after[t].pid == before[t].pid && after[t].sp == before[t].sp
  }

  lemma ActKeepsLive<T>(p: Pass<T>, idle: T, a: Action)
    requires Ready(p, idle)
    ensures LiveStay(p.s.tasks, Act(p, idle, a).s.tasks)
  {
    hide Sound, Distinct, Next, DeadTasks, Wakeup;
    SoundParts(p.s, idle);
    if a.Interrupt? {
      WakeupSound(p.s, idle, a.pid);
      WakeupKeepsSp(p.s, a.pid);
      WakeKeepsLive(p.s, a.pid);
    }
  }

  lemma WakeKeepsLive<T>(s: Scheduler<T>, pid: nat)
    requires Known(s)
    ensures LiveStay(s.tasks, Wakeup(s, pid).tasks)
  {
    hide Find;
    WokenIsWaiting(s, pid);
  }

  lemma {:induction false} ActsKeepLive<T>(p: Pass<T>, idle: T, actions: seq<Action>)
    requires Ready(p, idle)
    ensures LiveStay(p.s.tasks, Acts(p, idle, actions).s.tasks)
    decreases |actions|
  {
    hide Ready, Act, IsDead;
    if actions != [] {
      ActKeepsReady(p, idle, actions[0]);
      ActKeepsLive(p, idle, actions[0]);
      ActsKeepLive(Act(p, idle, actions[0]), idle, actions[1..]);
    }
  }

  /** A pass that interrupts may interleave with any wake-ups still removes only dead tasks, and at
      least half of them by the time it ends. */
  lemma InterruptedPassReapsHalf<T>(s: Scheduler<T>, idle: T, actions: seq<Action>)
    requires Sound(s, idle) && CurrentInRing(s) && !IsDead(s.tasks[s.currentlyRunning.value])
    ensures var r := Acts(Start(s), idle, actions);
      && Sound(r.s, idle) && LiveStay(s.tasks, r.s.tasks)
      && DeadTasks(r.s.tasks) <= DeadTasks(s.tasks)
      && (r.done ==> 2 * |DeadTasks(r.s.tasks)| <= |DeadTasks(s.tasks)|)
  {
    hide Sound, StartingAt, DeadTasks, IsDead, LiveStay;
    var ring := StartingAt(s.running, s.currentlyRunning.value);
    assert ring == ring + [];
    InterruptedPass(Start(s), idle, actions, ring, [], |DeadTasks(s.tasks)|);
    ActsKeepLive(Start(s), idle, actions);
  }

  // ---------- the pass ends ----------

  function CountRounds(actions: seq<Action>): nat {
    if actions == [] then 0 else CountRounds(actions[1..]) + if actions[0].Round? then 1 else 0
  }

  /** How many rounds the pass still takes if no interrupt comes. */
  function RoundsLeft<T>(p: Pass<T>): nat { if p.j < |p.s.running| then |p.s.running| - p.j else 0 }

  lemma ActProgress<T>(p: Pass<T>, idle: T, a: Action)
    requires Ready(p, idle)
    ensures var r := Act(p, idle, a);
      && (p.done ==> r.done)
      && (a.Round? && !r.done ==> RoundsLeft(r) < RoundsLeft(p))
      && (a.Interrupt? ==> RoundsLeft(r) <= RoundsLeft(p) + 1)
  {
    hide Sound, Distinct, IsDead, DeadTasks, Next, Wakeup;
    SoundParts(p.s, idle);
    if a.Interrupt? {
      RunningGrows(p.s, idle, a.pid);
    } else if !p.done && p.j < |p.s.running| {
      MinusElements(p.s.running, p.q);
    }
  }

  /** The pass is over after one round for each task of the ring, one for each interrupt, and the
      comparison that ends it. */
  lemma {:induction false} InterruptedPassEnds<T>(p: Pass<T>, idle: T, actions: seq<Action>)
    requires Ready(p, idle)
    requires p.done || CountRounds(actions) > RoundsLeft(p) + (|actions| - CountRounds(actions))
    ensures Acts(p, idle, actions).done
    decreases |actions|
  {
    hide Ready, Act, RoundsLeft;
    if actions != [] {
      ActKeepsReady(p, idle, actions[0]);
      ActProgress(p, idle, actions[0]);
      InterruptedPassEnds(Act(p, idle, actions[0]), idle, actions[1..]);
    }
  }

  // ---------- which nodes the loop visits ----------

  ghost function Visits<T>(p: Pass<T>, idle: T, actions: seq<Action>): seq<T>
    requires Ready(p, idle)
    decreases |actions|
  {
    if actions == [] then []
    else
      ActKeepsReady(p, idle, actions[0]);
      (if actions[0].Round? && !p.done && p.j < |p.s.running| then [p.q] else [])
      + Visits(Act(p, idle, actions[0]), idle, actions[1..])
  }

  lemma EmptyDistinct<T>()
    ensures Distinct<T>([])
  {
  }

  // ---------- exactly when a node is visited twice ----------

  /** Nodes that the loop has not visited and will come to, tasks that were woken behind its
      cursor, and tasks that it removed. */
  datatype Count = Count(ahead: nat, late: nat, removed: nat)

  /** A woken task becomes the tail of the ring. It lies ahead of the cursor if the tail does. */
  function Counted<T(==)>(p: Pass<T>, c: Count, a: Action): Count
    requires Known(p.s) && (!p.done ==> p.q in p.s.running)
  {
    match a
    case Interrupt(pid) =>
      if p.done || Woken(p.s, pid).None? then c
      else if c.ahead >= |p.s.running| - IndexOf(p.s.running, p.q) then c.(ahead := c.ahead + 1)
      else c.(late := c.late + 1)
    case Round =>
      if p.done || p.j >= |p.s.running| || c.ahead == 0 then c
      else
        Count(c.ahead - 1, c.late, if p.q in p.s.tasks && IsDead(p.s.tasks[p.q]) then c.removed + 1 else c.removed)
  }

  /** At some round the loop has come around, and more tasks were woken behind its cursor than it
      removed. */
  ghost predicate Overtaken<T>(p: Pass<T>, idle: T, c: Count, actions: seq<Action>)
    requires Ready(p, idle)
    decreases |actions|
  {
    actions != [] && (
      || (actions[0].Round? && !p.done && c.ahead == 0 && c.late > c.removed)
      || (ActKeepsReady(p, idle, actions[0]); ReadyParts(p, idle);
          Overtaken(Act(p, idle, actions[0]), idle, Counted(p, c, actions[0]), actions[1..])))
  }

  lemma ReadyParts<T>(p: Pass<T>, idle: T)
    requires Ready(p, idle)
    ensures Known(p.s) && Distinct(p.s.running) && (!p.done ==> p.q in p.s.running)
    ensures forall t :: t in p.s.running ==> t !in p.s.waiting
  {
  }

  /** Read from the cursor on, the ring is what was not visited and then the rest, which begins with
      the current task, the first that was visited. */
  ghost predicate Tracked<T>(p: Pass<T>, c: Count, ahead: seq<T>, behind: seq<T>, visited: set<T>) {
    && p.q in p.s.running && StartingAt(p.s.running, p.q) == ahead + behind
    && c.ahead == |ahead| && p.j + c.late == |behind| + c.removed
    && (forall t :: t in ahead ==> t !in visited)
    && (forall t :: t in visited ==> t !in p.s.waiting)
    && (if behind == [] then Some(p.q) == p.s.currentlyRunning
        else Some(behind[0]) == p.s.currentlyRunning && behind[0] in visited)
  }

  lemma {:induction false} DoneVisitsNothing<T>(p: Pass<T>, idle: T, c: Count, actions: seq<Action>)
    requires Ready(p, idle) && p.done
    ensures Visits(p, idle, actions) == [] && !Overtaken(p, idle, c, actions)
    decreases |actions|
  {
    hide Ready;
    if actions != [] {
      ActKeepsReady(p, idle, actions[0]);
      ReadyParts(p, idle);
      DoneVisitsNothing(Act(p, idle, actions[0]), idle, Counted(p, c, actions[0]), actions[1..]);
    }
  }

  lemma InterruptTracked<T>(p: Pass<T>, idle: T, pid: nat, c: Count, ahead: seq<T>, behind: seq<T>, visited: set<T>)
    returns (ahead': seq<T>, behind': seq<T>)
    requires Ready(p, idle) && !p.done && Tracked(p, c, ahead, behind, visited) && Known(p.s)
    ensures Tracked(Act(p, idle, Interrupt(pid)), Counted(p, c, Interrupt(pid)), ahead', behind', visited)
  {
    hide Sound, Distinct, StartingAt, IndexOf, Find, Minus;
    SoundParts(p.s, idle);
    ReadyParts(p, idle);
    ahead', behind' := ahead, behind;
    RunningGrows(p.s, idle, pid);
    StartingAtElements(p.s.running, p.q);
    WaitingShrinks(p.s, pid);
    if Woken(p.s, pid).Some? {
      ahead', behind' := AppendAt(p.s.running, p.q, Woken(p.s, pid).value, ahead, behind);
    }
  }

  lemma WaitingShrinks<T>(s: Scheduler<T>, pid: nat)
    requires Known(s) && Distinct(s.waiting)
    ensures forall t :: t in Wakeup(s, pid).waiting ==> t in s.waiting
    ensures Woken(s, pid).Some? ==> Woken(s, pid).value in s.waiting
    ensures Wakeup(s, pid).currentlyRunning == s.currentlyRunning
  {
    hide Distinct, Find;
    WokenIsWaiting(s, pid);
    if Woken(s, pid).Some? {
      MinusElements(s.waiting, Woken(s, pid).value);
    }
  }

  /** A round while something lies ahead visits a new node. */
  lemma RoundTracked<T>(p: Pass<T>, idle: T, c: Count, ahead: seq<T>, behind: seq<T>, visited: set<T>)
    returns (behind': seq<T>)
    requires Ready(p, idle) && !p.done && p.j < |p.s.running| && Known(p.s)
    requires Tracked(p, c, ahead, behind, visited) && ahead != []
    ensures p.q !in visited
    ensures Tracked(Act(p, idle, Round), Counted(p, c, Round), ahead[1..], behind', visited + {p.q})
  {
    hide Sound, Distinct, StartingAt, IsDead, DeadTasks, Next;
    SoundParts(p.s, idle);
    ReadyParts(p, idle);
    StartingAtElements(p.s.running, p.q);
    HeadOfRing(ahead, behind, p.q);
    var rest := ahead[1..];
    assert ([p.q] + rest + behind)[1..] == rest + behind;
    HeadIsOther(p.q, rest, behind);
    if IsDead(p.s.tasks[p.q]) {
      behind' := behind;
      TwoNodesLeft(p.s, p.q);
      RemovalDropsHead(p.s.running, p.q);
    } else {
      behind' := behind + [p.q];
      StepRotates(p.s.running, p.q);
      assert rest + behind + [p.q] == rest + behind';
    }
  }

  lemma HeadIsOther<T>(q: T, rest: seq<T>, behind: seq<T>)
    requires Distinct([q] + rest + behind)
    ensures q !in rest
  {
    forall k | 0 <= k < |rest| ensures rest[k] != q {
      assert ([q] + rest + behind)[k + 1] == rest[k] && ([q] + rest + behind)[0] == q;
    }
  }

  lemma UnfoldVisits<T>(p: Pass<T>, idle: T, c: Count, actions: seq<Action>)
    requires Ready(p, idle) && actions != []
    ensures Ready(Act(p, idle, actions[0]), idle) && Known(p.s) && (!p.done ==> p.q in p.s.running)
    ensures Visits(p, idle, actions) ==
      (if actions[0].Round? && !p.done && p.j < |p.s.running| then [p.q] else [])
      + Visits(Act(p, idle, actions[0]), idle, actions[1..])
    ensures Overtaken(p, idle, c, actions) <==>
      ((actions[0].Round? && !p.done && c.ahead == 0 && c.late > c.removed)
      || Overtaken(Act(p, idle, actions[0]), idle, Counted(p, c, actions[0]), actions[1..]))
  {
    hide Ready;
    ActKeepsReady(p, idle, actions[0]);
    ReadyParts(p, idle);
  }

  ghost predicate NewAndDistinct<T>(v: seq<T>, visited: set<T>) {
    Distinct(v) && forall t :: t in v ==> t !in visited
  }

  lemma NewCons<T>(q: T, v: seq<T>, visited: set<T>)
    ensures NewAndDistinct([q] + v, visited) <==> q !in visited && NewAndDistinct(v, visited + {q})
  {
    var w := [q] + v;
    assert w[0] == q && forall k :: 0 <= k < |v| ==> w[k + 1] == v[k];
    if NewAndDistinct(w, visited) {
      forall i, j | 0 <= i < j < |v| ensures v[i] != v[j] {
        assert w[i + 1] != w[j + 1];
      }
      forall t | t in v ensures t !in visited + {q} {
        var k :| 0 <= k < |v| && v[k] == t;
        assert w[0] != w[k + 1] && w[k + 1] in w;
      }
    }
    if q !in visited && NewAndDistinct(v, visited + {q}) {
      forall i, j | 0 <= i < j < |w| ensures w[i] != w[j] {
        assert w[j] == v[j - 1] && v[j - 1] in v;
      }
    }
  }

  lemma {:induction false} VisitsExactly<T>(p: Pass<T>, idle: T, c: Count, actions: seq<Action>,
                                            ahead: seq<T>, behind: seq<T>, visited: set<T>)
    requires Ready(p, idle) && (!p.done ==> Tracked(p, c, ahead, behind, visited))
    ensures NewAndDistinct(Visits(p, idle, actions), visited) <==> !Overtaken(p, idle, c, actions)
    decreases |actions|
  {
    hide Ready, Act, Counted, Tracked, Distinct;
    if actions == [] {
      EmptyDistinct<T>();
    } else if p.done {
      DoneVisitsNothing(p, idle, c, actions);
      EmptyDistinct<T>();
    } else {
      hide Visits, Overtaken;
      UnfoldVisits(p, idle, c, actions);
      var r, d, rest := Act(p, idle, actions[0]), Counted(p, c, actions[0]), actions[1..];
      var v := Visits(r, idle, rest);
      if actions[0].Interrupt? {
        assert Visits(p, idle, actions) == v;
        var ahead', behind' := InterruptTracked(p, idle, actions[0].pid, c, ahead, behind, visited);
        VisitsExactly(r, idle, d, rest, ahead', behind', visited);
      } else {
        CountOfRing(p, idle, c, ahead, behind, visited);
        if p.j >= |p.s.running| {
          assert Visits(p, idle, actions) == v;
          RoundEnds(p, idle);
          VisitsExactly(r, idle, d, rest, ahead, behind, visited);
        } else {
          NewCons(p.q, v, visited);
          if ahead != [] {
            var behind' := RoundTracked(p, idle, c, ahead, behind, visited);
            VisitsExactly(r, idle, d, rest, ahead[1..], behind', visited + {p.q});
          }
        }
      }
    }
  }

  lemma RoundEnds<T>(p: Pass<T>, idle: T)
    requires Ready(p, idle) && !p.done && p.j >= |p.s.running|
    ensures Act(p, idle, Round).done
  {
  }

  lemma CountOfRing<T>(p: Pass<T>, idle: T, c: Count, ahead: seq<T>, behind: seq<T>, visited: set<T>)
    requires Ready(p, idle) && !p.done && Tracked(p, c, ahead, behind, visited)
    ensures c.ahead == |ahead|
    ensures p.j < |p.s.running| <==> c.ahead + c.late > c.removed
    ensures ahead == [] ==> p.q in visited
  {
    hide Sound, Distinct, StartingAt;
    SoundParts(p.s, idle);
    StartingAtElements(p.s.running, p.q);
  }

  /** Exactly when the loop visits no node twice: as long as, once it has come around, the tasks that
      were woken behind its cursor never outnumber those that it removed. */
  lemma NoNodeTwiceExactly<T>(s: Scheduler<T>, idle: T, actions: seq<Action>)
    requires Sound(s, idle) && CurrentInRing(s) && !IsDead(s.tasks[s.currentlyRunning.value])
    ensures Distinct(Visits(Start(s), idle, actions)) <==>
      !Overtaken(Start(s), idle, Count(|s.running|, 0, 0), actions)
  {
    hide Sound, StartingAt, Distinct, IsDead, Visits, Overtaken;
    var q := s.currentlyRunning.value;
    var ring := StartingAt(s.running, q);
    SoundParts(s, idle);
    StartingAtElements(s.running, q);
    assert ring == ring + [];
    VisitsExactly(Start(s), idle, Count(|s.running|, 0, 0), actions, ring, [], {});
  }

  lemma {:induction false} NeverOvertaken<T>(p: Pass<T>, idle: T, c: Count, k: nat)
    requires Ready(p, idle) && c.late == 0
    ensures !Overtaken(p, idle, c, Rounds(k))
    decreases k
  {
    hide Ready, Act;
    if k > 0 {
      assert Rounds(k)[0] == Round && Rounds(k)[1..] == Rounds(k - 1);
      ActKeepsReady(p, idle, Round);
      ReadyParts(p, idle);
      NeverOvertaken(Act(p, idle, Round), idle, Counted(p, c, Round), k - 1);
    }
  }

  /** In particular, without interrupts the loop visits no node twice. */
  lemma NoNodeTwice<T>(s: Scheduler<T>, idle: T, k: nat)
    requires Sound(s, idle) && CurrentInRing(s) && !IsDead(s.tasks[s.currentlyRunning.value])
    ensures Distinct(Visits(Start(s), idle, Rounds(k)))
  {
    hide Sound, Distinct, IsDead, Visits, Overtaken;
    NeverOvertaken(Start(s), idle, Count(|s.running|, 0, 0), k);
    NoNodeTwiceExactly(s, idle, Rounds(k));
  }

  // ---------- a pass that visits a node twice ----------

  /** What the gate of idle_runner sees: one dead task behind idle. */
  lemma OneDeadTask<T>(s: Scheduler<T>, idle: T, d: T)
    requires Sound(s, idle) && s.running == [idle, d] && IsDead(s.tasks[d])
    ensures d in s.tasks && idle in s.tasks && !IsDead(s.tasks[idle]) && idle != d
    ensures s.cleanUpRequests == 1
  {
    assert s.running[0] == idle && s.running[1] == d;
    forall x | x in DeadTasks(s.tasks) ensures x == d {
      DeadRuns(s, idle, x);
    }
    assert DeadTasks(s.tasks) == {d};
  }

  lemma TwoNodeRing<T>(a: T, b: T)
    requires a != b
    ensures Next([a, b], a) == b && Next([a, b], b) == a && Minus([a, b], b) == [a]
  {
    var q := [a, b];
    assert q[0] == a && q[1] == b && q[1..] == [b];
    assert IndexOf(q, b) == 1;
  }

  /** Idle and the dead task are visited, the dead one is removed, and idle is next. */
  lemma TwoRounds<T>(s: Scheduler<T>, idle: T, d: T)
    requires Sound(s, idle) && s.running == [idle, d] && s.currentlyRunning == Some(idle) && IsDead(s.tasks[d])
    ensures CurrentInRing(s) && !IsDead(s.tasks[idle]) && d in s.running
    ensures var p := Start(s);
      && Ready(p, idle) && Act(p, idle, Round) == Pass(s, d, 1, false)
      && Ready(Pass(s, d, 1, false), idle)
      && Act(Pass(s, d, 1, false), idle, Round) == Pass(Reaped(s, d), idle, 2, false)
      && Ready(Pass(Reaped(s, d), idle, 2, false), idle) && Reaped(s, d).running == [idle]
  {
    hide Sound, Distinct, DeadTasks, Next, Minus, IsDead;
    SoundParts(s, idle);
    OneDeadTask(s, idle, d);
    TwoNodeRing(idle, d);
    assert s.running[0] == idle && s.running[1] == d;
    ActKeepsReady(Start(s), idle, Round);
    ActKeepsReady(Pass(s, d, 1, false), idle, Round);
  }

  /** Each of two waiting tasks with different pids can be woken, one after the other. */
  lemma TwoWakeups<T>(s: Scheduler<T>, idle: T, t: T, u: T)
    requires Sound(s, idle) && s.running == [idle] && t in s.tasks && u in s.tasks
    requires t in s.waiting && u in s.waiting && s.tasks[t].pid != s.tasks[u].pid
    ensures Known(s) && Known(Wakeup(s, s.tasks[t].pid))
    ensures |Wakeup(s, s.tasks[t].pid).running| == 2
    ensures var r := Wakeup(Wakeup(s, s.tasks[t].pid), s.tasks[u].pid).running;
      |r| == 3 && r[0] == idle && Next(r, idle) == r[1]
  {
    hide Sound, Distinct, Find, Minus;
    SoundParts(s, idle);
    WokenIsWaiting(s, s.tasks[t].pid);
    WakeupSound(s, idle, s.tasks[t].pid);
    RunningGrows(s, idle, s.tasks[t].pid);
    var w, r := Woken(s, s.tasks[t].pid).value, Wakeup(s, s.tasks[t].pid);
    assert w != u;
    MinusElements(s.waiting, w);
    SoundParts(r, idle);
    WokenIsWaiting(r, s.tasks[u].pid);
    RunningGrows(r, idle, s.tasks[u].pid);
    var q := Wakeup(r, s.tasks[u].pid).running;
    assert q[0] == idle;
  }

  /** Such a pass: the loop visits idle, removes the dead task behind it and has come around. Two
      tasks that are woken now keep it going: it visits idle again and ends, and has visited
      neither of them. */
  lemma IdleVisitedTwice<T>(s: Scheduler<T>, idle: T, d: T, t: T, u: T)
    requires Sound(s, idle) && s.running == [idle, d] && s.currentlyRunning == Some(idle)
    requires IsDead(s.tasks[d]) && t in s.waiting && u in s.waiting && s.tasks[t].pid != s.tasks[u].pid
    ensures CurrentInRing(s) && !IsDead(s.tasks[idle]) && s.cleanUpRequests == 1
    ensures var actions := [Round, Round, Interrupt(s.tasks[t].pid), Interrupt(s.tasks[u].pid), Round, Round];
      && Visits(Start(s), idle, actions) == [idle, d, idle]
      && Acts(Start(s), idle, actions).done && |Acts(Start(s), idle, actions).s.running| == 3
  {
    hide Sound, Distinct, DeadTasks, Minus, Next, IsDead, Wakeup, Reaped, Ready;
    SoundParts(s, idle);
    OneDeadTask(s, idle, d);
    TwoRounds(s, idle, d);
    var a, b := Interrupt(s.tasks[t].pid), Interrupt(s.tasks[u].pid);
    var p2 := Pass(Reaped(s, d), idle, 2, false);
    ReapedWaits(s, idle, d, t, u);
    TwoWakeups(p2.s, idle, t, u);
    var p3 := Act(p2, idle, a);
    ActKeepsReady(p2, idle, a);
    var p4 := Act(p3, idle, b);
    ActKeepsReady(p3, idle, b);
    OneMoreVisit(p4, idle);
    LastVisits(p2, idle, a, b);
    FirstVisits(s, idle, d, [a, b, Round, Round]);
    assert [Round, Round] + [a, b, Round, Round] == [Round, Round, a, b, Round, Round];
  }

  lemma ReapedWaits<T>(s: Scheduler<T>, idle: T, d: T, t: T, u: T)
    requires Sound(s, idle) && d in s.running && t in s.waiting && u in s.waiting && IsDead(s.tasks[d])
    requires s.currentlyRunning != Some(d)
    ensures var r := Reaped(s, d);
      && Sound(r, idle) && t in r.tasks && u in r.tasks && t in r.waiting && u in r.waiting
      && r.tasks[t] == s.tasks[t] && r.tasks[u] == s.tasks[u]
  {
    hide Distinct, DeadTasks;
    ReapedSound(s, idle, d);
  }

  /** The round at which idle is visited again, and the comparison that ends the loop. */
  lemma OneMoreVisit<T>(p: Pass<T>, idle: T)
    requires Ready(p, idle) && !p.done && p.q == idle && p.j == 2 && |p.s.running| == 3
    ensures Visits(p, idle, [Round, Round]) == [idle]
    ensures Acts(p, idle, [Round, Round]).done && |Acts(p, idle, [Round, Round]).s.running| == 3
  {
    hide Sound, Distinct, DeadTasks, Next;
    IdleAlive(p.s, idle);
    var r := Act(p, idle, Round);
    ActKeepsReady(p, idle, Round);
    ActKeepsReady(r, idle, Round);
    assert [Round, Round][1..] == [Round] && [Round][1..] == [];
    assert Visits(r, idle, [Round]) == [] + Visits(Act(r, idle, Round), idle, []);
  }

  lemma IdleAlive<T>(s: Scheduler<T>, idle: T)
    requires Sound(s, idle)
    ensures idle in s.tasks && !IsDead(s.tasks[idle])
  {
  }

  /** Two interrupts before some actions visit nothing. */
  lemma LastVisits<T>(p: Pass<T>, idle: T, a: Action, b: Action)
    requires Ready(p, idle) && a.Interrupt? && b.Interrupt?
    ensures Ready(Act(p, idle, a), idle) && Ready(Act(Act(p, idle, a), idle, b), idle)
    ensures Visits(p, idle, [a, b, Round, Round]) == Visits(Act(Act(p, idle, a), idle, b), idle, [Round, Round])
    ensures Acts(p, idle, [a, b, Round, Round]) == Acts(Act(Act(p, idle, a), idle, b), idle, [Round, Round])
  {
    hide Ready, Act;
    ActKeepsReady(p, idle, a);
    ActKeepsReady(Act(p, idle, a), idle, b);
    assert [a, b, Round, Round][1..] == [b, Round, Round] && [b, Round, Round][1..] == [Round, Round];
  }

  lemma FirstVisits<T>(s: Scheduler<T>, idle: T, d: T, rest: seq<Action>)
    requires Sound(s, idle) && s.running == [idle, d] && s.currentlyRunning == Some(idle) && IsDead(s.tasks[d])
    ensures CurrentInRing(s) && Ready(Start(s), idle) && d in s.running
    ensures Ready(Pass(Reaped(s, d), idle, 2, false), idle)
    ensures Visits(Start(s), idle, [Round, Round] + rest)
         == [idle, d] + Visits(Pass(Reaped(s, d), idle, 2, false), idle, rest)
    ensures Acts(Start(s), idle, [Round, Round] + rest) == Acts(Pass(Reaped(s, d), idle, 2, false), idle, rest)
  {
    hide Sound, Reaped, IsDead, Act, Ready;
    TwoRounds(s, idle, d);
    var actions := [Round, Round] + rest;
    assert actions[0] == Round && actions[1..] == [Round] + rest;
    assert actions[1..][0] == Round && actions[1..][1..] == rest;
  }
}
