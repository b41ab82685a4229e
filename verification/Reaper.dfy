/** search_invalidate_tasks (os/src/process/scheduler.c): the reaper walks the running ring while
    it shrinks it, and compares its round counter with the shrinking size. */
module Reaping {
  import opened Sets
  import opened Scheduling
  import opened Machines
  import opened Runs
  import opened Fairness

  /** The nodes the reaper never looks at: it stops as soon as it has removed as many nodes as
      are still unvisited. `ring` is unvisited, `removed` nodes were removed so far. */
  function Unvisited<T(==)>(ring: seq<T>, dead: set<T>, removed: nat): (rest: seq<T>)
    ensures |rest| <= |ring|
    decreases |ring|
  {
    if removed >= |ring| then ring
    else Unvisited(ring[1..], dead, if ring[0] in dead then removed + 1 else removed)
  }

  lemma {:induction false} UnvisitedIsSuffix<T>(ring: seq<T>, dead: set<T>, removed: nat)
    ensures var rest := Unvisited(ring, dead, removed); rest == ring[|ring| - |rest|..]
    decreases |ring|
  {
    if removed < |ring| {
      UnvisitedIsSuffix(ring[1..], dead, if ring[0] in dead then removed + 1 else removed);
    }
  }

  function DeadIn<T(==)>(ring: seq<T>, dead: set<T>): set<T> {
    set t | t in ring && t in dead
  }

  // ---------- the loop on the ring read from the current node ----------

  /** The ring with node q first. */
  function StartingAt<T(==)>(ring: seq<T>, q: T): seq<T>
    requires q in ring
  {
    From(ring, IndexOf(ring, q))
  }

  lemma StartingAtSplit<T>(pre: seq<T>, q: T, post: seq<T>)
    requires Distinct(pre + [q] + post)
    ensures q in pre + [q] + post && StartingAt(pre + [q] + post, q) == [q] + post + pre
  {
    var r := pre + [q] + post;
    assert r[|pre|] == q;
    IndexOfUnique(r, |pre|);
    assert r[|pre|..] == [q] + post && r[..|pre|] == pre;
  }

  lemma StartingAtElements<T>(ring: seq<T>, q: T)
    requires q in ring && Distinct(ring)
    ensures |StartingAt(ring, q)| == |ring| && StartingAt(ring, q)[0] == q
    ensures Distinct(StartingAt(ring, q))
    ensures forall t :: t in ring <==> t in StartingAt(ring, q)
  {
    var pre, post := SplitAtNode(ring, q);
    StartingAtSplit(pre, q, post);
    assert StartingAt(ring, q) == [q] + (post + pre);
  }

  /** Stepping to the next node rotates the ring by one. */
  lemma StepRotates<T>(ring: seq<T>, q: T)
    requires Distinct(ring) && q in ring
    ensures Next(ring, q) in ring
    ensures StartingAt(ring, Next(ring, q)) == StartingAt(ring, q)[1..] + [q]
  {
    hide StartingAt, Distinct, IndexOf;
    var pre, post := SplitAtNode(ring, q);
    assert ring[|pre|] == q;
    IndexOfUnique(ring, |pre|);
    StartingAtSplit(pre, q, post);
    var next := Next(ring, q);
    if post != [] {
      assert next == post[0] && post == [next] + post[1..];
      assert ring == (pre + [q]) + [next] + post[1..];
      StartingAtSplit(pre + [q], next, post[1..]);
    } else if pre != [] {
      assert next == pre[0] && pre == [next] + pre[1..];
      assert ring == [] + [next] + (pre[1..] + [q]);
      StartingAtSplit([], next, pre[1..] + [q]);
    } else {
      assert next == q;
    }
  }

  /** Removing the current node and stepping on drops the head. */
  lemma RemovalDropsHead<T>(ring: seq<T>, q: T)
    requires Distinct(ring) && q in ring && |ring| > 1
    ensures Next(ring, q) in Minus(ring, q)
    ensures StartingAt(Minus(ring, q), Next(ring, q)) == StartingAt(ring, q)[1..]
  {
    hide StartingAt, Minus;
    var pre, post := SplitAtNode(ring, q);
    IndexOfUnique(ring, |pre|);
    assert ring[|pre|] == q;
    StartingAtSplit(pre, q, post);
    MinusSplit(pre, q, post);
    MinusElements(ring, q);
    var next := Next(ring, q);
    if post != [] {
      assert next == post[0] && post == [next] + post[1..];
      assert pre + post == pre + [next] + post[1..];
      StartingAtSplit(pre, next, post[1..]);
    } else {
      assert next == pre[0] && pre == [next] + pre[1..];
      assert pre + post == [] + [next] + pre[1..];
      StartingAtSplit([], next, pre[1..]);
    }
  }

  lemma UnfoldReap<T>(s: Scheduler<T>, q: T, j: nat)
    requires Distinct(s.running) && (forall t :: t in s.running ==> t in s.tasks) && q in s.running
    ensures j >= |s.running| ==> ReapFrom(s, q, j) == s
    ensures Next(s.running, q) in s.running && Distinct(Minus(s.running, q))
    ensures j < |s.running| && !IsDead(s.tasks[q]) ==>
      ReapFrom(s, q, j) == ReapFrom(s, Next(s.running, q), j + 1)
    ensures j < |s.running| && IsDead(s.tasks[q]) && |s.running| > 1 ==>
      && Next(s.running, q) in Reaped(s, q).running
      && (forall t :: t in Reaped(s, q).running ==> t in Reaped(s, q).tasks)
      && ReapFrom(s, q, j) == ReapFrom(Reaped(s, q), Next(s.running, q), j + 1)
  {
    hide Distinct, Next, IsDead, Minus, StartingAt;
    NextInRing(s.running, q);
    MinusElements(s.running, q);
    ReapedKnown(s, q);
    if |s.running| > 1 {
      RemovalDropsHead(s.running, q);
    }
  }

  lemma ReapedKnown<T>(s: Scheduler<T>, q: T)
    requires Distinct(s.running) && (forall t :: t in s.running ==> t in s.tasks) && q in s.running
    ensures forall t :: t in Reaped(s, q).running ==> t in Reaped(s, q).tasks
  {
    hide Distinct;
    MinusElements(s.running, q);
  }

  /** `unvisited` lies ahead of the reaper, the live nodes it visited behind it. */
  ghost predicate Swept<T>(s: Scheduler<T>, unvisited: seq<T>, visited: seq<T>, dead: set<T>) {
    && (forall t :: t in visited ==> t in s.tasks && !IsDead(s.tasks[t]))
    && (forall t :: t in unvisited ==> t in s.tasks && (t in dead <==> IsDead(s.tasks[t])))
  }

  /** Afterwards the dead tasks are those the reaper never looked at. */
  lemma {:induction false} LoopLeavesUnvisited<T>(s: Scheduler<T>, idle: T, q: T, j: nat,
      unvisited: seq<T>, visited: seq<T>, removed: nat, dead: set<T>)
    requires Sound(s, idle) && CurrentInRing(s) && !IsDead(s.tasks[s.currentlyRunning.value])
    requires q in s.running && StartingAt(s.running, q) == unvisited + visited
    requires Swept(s, unvisited, visited, dead) && j == |visited| + removed
    ensures DeadTasks(ReapFrom(s, q, j).tasks) == DeadIn(Unvisited(unvisited, dead, removed), dead)
    decreases |unvisited|
  {
    hide *;
    SoundParts(s, idle);
    StartingAtElements(s.running, q);
    UnfoldReap(s, q, j);
    if removed >= |unvisited| {
      AllDeadUnvisited(s, idle, unvisited, visited, dead);
      UnfoldUnvisited(unvisited, dead, removed);
    } else {
      var rest := unvisited[1..];
      HeadOfRing(unvisited, visited, q);
      SweptHead(s, unvisited, visited, dead);
      UnfoldUnvisited(unvisited, dead, removed);
      if IsDead(s.tasks[q]) {
        DeadStep(s, idle, q, rest, visited, dead);
        LoopLeavesUnvisited(Reaped(s, q), idle, Next(s.running, q), j + 1, rest, visited, removed + 1, dead);
      } else {
        StepRotates(s.running, q);
        SweptLive(s, q, rest, visited, dead);
        LoopLeavesUnvisited(s, idle, Next(s.running, q), j + 1, rest, visited + [q], removed, dead);
      }
    }
  }

  lemma UnfoldUnvisited<T>(ring: seq<T>, dead: set<T>, removed: nat)
    ensures removed >= |ring| ==> Unvisited(ring, dead, removed) == ring
    ensures removed < |ring| ==>
      Unvisited(ring, dead, removed) == Unvisited(ring[1..], dead, if ring[0] in dead then removed + 1 else removed)
  {
  }

  lemma HeadOfRing<T>(unvisited: seq<T>, visited: seq<T>, q: T)
    requires unvisited != [] && (unvisited + visited)[0] == q
    ensures unvisited[0] == q && unvisited == [q] + unvisited[1..]
    ensures unvisited + visited == [q] + unvisited[1..] + visited
    ensures (unvisited + visited)[1..] + [q] == unvisited[1..] + (visited + [q])
  {
  }

  lemma DeadStep<T>(s: Scheduler<T>, idle: T, q: T, rest: seq<T>, visited: seq<T>, dead: set<T>)
    requires Sound(s, idle) && CurrentInRing(s) && !IsDead(s.tasks[s.currentlyRunning.value])
    requires q in s.running && StartingAt(s.running, q) == [q] + rest + visited
    requires Swept(s, [q] + rest, visited, dead) && IsDead(s.tasks[q])
    ensures |s.running| > 1 && Sound(Reaped(s, q), idle) && CurrentInRing(Reaped(s, q))
    ensures Reaped(s, q).currentlyRunning == s.currentlyRunning
    ensures !IsDead(Reaped(s, q).tasks[s.currentlyRunning.value])
    ensures Next(s.running, q) in Reaped(s, q).running
    ensures StartingAt(Reaped(s, q).running, Next(s.running, q)) == rest + visited
    ensures Swept(Reaped(s, q), rest, visited, dead)
  {
    hide Sound, StartingAt, Next, Distinct, DeadTasks, IsDead, Swept;
    SoundParts(s, idle);
    StartingAtElements(s.running, q);
    TwoNodesLeft(s, q);
    ReapedSound(s, idle, q);
    RemovalDropsHead(s.running, q);
    assert ([q] + rest + visited)[1..] == rest + visited;
    SweptDead(s, q, rest, visited, dead);
    SoundParts(Reaped(s, q), idle);
    CurrentStays(s, q);
  }

  lemma SweptHead<T>(s: Scheduler<T>, unvisited: seq<T>, visited: seq<T>, dead: set<T>)
    requires Swept(s, unvisited, visited, dead) && unvisited != []
    ensures unvisited[0] in s.tasks && (unvisited[0] in dead <==> IsDead(s.tasks[unvisited[0]]))
  {
  }

  lemma CurrentStays<T>(s: Scheduler<T>, q: T)
    requires CurrentInRing(s) && q in s.running && IsDead(s.tasks[q])
    requires !IsDead(s.tasks[s.currentlyRunning.value])
    ensures s.currentlyRunning.value in Reaped(s, q).tasks
    ensures Reaped(s, q).tasks[s.currentlyRunning.value] == s.tasks[s.currentlyRunning.value]
    ensures Reaped(s, q).currentlyRunning == s.currentlyRunning
  {
  }

  lemma SweptLive<T>(s: Scheduler<T>, q: T, rest: seq<T>, visited: seq<T>, dead: set<T>)
    requires Swept(s, [q] + rest, visited, dead) && q in s.tasks && !IsDead(s.tasks[q])
    ensures Swept(s, rest, visited + [q], dead)
  {
    hide IsDead;
    forall t | t in rest ensures t in [q] + rest {
    }
  }

  lemma SweptDead<T>(s: Scheduler<T>, q: T, rest: seq<T>, visited: seq<T>, dead: set<T>)
    requires Swept(s, [q] + rest, visited, dead) && q in s.running
    requires Distinct([q] + rest + visited)
    ensures Swept(Reaped(s, q), rest, visited, dead)
  {
    hide IsDead, Minus;
    OthersStay(s, q, rest, visited);
    forall t | t in rest ensures t in [q] + rest {
    }
  }

  lemma TwoNodesLeft<T>(s: Scheduler<T>, q: T)
    requires CurrentInRing(s) && q in s.running && s.currentlyRunning != Some(q)
    ensures |s.running| > 1
  {
  }

  lemma OthersStay<T>(s: Scheduler<T>, q: T, rest: seq<T>, visited: seq<T>)
    requires q in s.running && Distinct([q] + rest + visited)
    ensures forall t :: (t in rest || t in visited) && t in s.tasks ==>
      t in Reaped(s, q).tasks && Reaped(s, q).tasks[t] == s.tasks[t]
  {
    assert ([q] + rest + visited)[0] == q;
    forall t | t in rest || t in visited ensures t != q {
      if t in rest {
        var k :| 0 <= k < |rest| && rest[k] == t;
        assert ([q] + rest + visited)[k + 1] == t;
      } else {
        var k :| 0 <= k < |visited| && visited[k] == t;
        assert ([q] + rest + visited)[k + 1 + |rest|] == t;
      }
    }
  }

  lemma AllDeadUnvisited<T>(s: Scheduler<T>, idle: T, unvisited: seq<T>, visited: seq<T>, dead: set<T>)
    requires Sound(s, idle)
    requires forall t :: t in s.running <==> t in unvisited + visited
    requires Swept(s, unvisited, visited, dead)
    ensures DeadTasks(s.tasks) == DeadIn(unvisited, dead)
  {
    forall t | t in DeadTasks(s.tasks) ensures t in unvisited {
      DeadRuns(s, idle, t);
    }
  }

  /** search_invalidate_tasks from a current node that is alive. */
  lemma PassLeavesUnvisited<T>(s: Scheduler<T>, idle: T)
    requires Sound(s, idle) && CurrentInRing(s) && !IsDead(s.tasks[s.currentlyRunning.value])
    ensures DeadTasks(SearchInvalidateTasks(s).tasks)
         == DeadIn(Unvisited(StartingAt(s.running, s.currentlyRunning.value), DeadTasks(s.tasks), 0),
                   DeadTasks(s.tasks))
  {
    hide StartingAt, ReapFrom;
    var q := s.currentlyRunning.value;
    var ring := StartingAt(s.running, q);
    StartingAtElements(s.running, q);
    assert ring + [] == ring;
    assert Swept(s, ring, [], DeadTasks(s.tasks)) by { SoundParts(s, idle); }
    LoopLeavesUnvisited(s, idle, q, 0, ring, [], 0, DeadTasks(s.tasks));
  }

  // ---------- how much one pass reaps ----------

  /** The reaper stops with at most as many nodes unvisited as it removed. */
  lemma {:induction false} UnvisitedIsSmall<T>(ring: seq<T>, dead: set<T>, removed: nat)
    requires Distinct(ring)
    ensures var rest := Unvisited(ring, dead, removed);
      |rest| <= removed + |DeadIn(ring[..|ring| - |rest|], dead)|
    decreases |ring|
  {
    hide Distinct;
    var rest := Unvisited(ring, dead, removed);
    if removed < |ring| {
      var tail := ring[1..];
      var k := |tail| - |rest|;
      TailDistinct(ring);
      UnvisitedIsSmall(tail, dead, if ring[0] in dead then removed + 1 else removed);
      OneMoreVisited(ring, k, dead);
    }
  }

  lemma TailDistinct<T>(ring: seq<T>)
    requires Distinct(ring) && ring != []
    ensures Distinct(ring[1..]) && ring[0] !in ring[1..]
  {
  }

  lemma OneMoreVisited<T>(ring: seq<T>, k: nat, dead: set<T>)
    requires Distinct(ring) && k < |ring|
    ensures |DeadIn(ring[..k + 1], dead)|
         == |DeadIn(ring[1..][..k], dead)| + if ring[0] in dead then 1 else 0
  {
    var rest := ring[1..][..k];
    TailDistinct(ring);
    hide Distinct;
    assert ring[..k + 1] == [ring[0]] + rest;
    OneMoreDeadIn(ring[0], rest, dead);
  }

  lemma OneMoreDeadIn<T>(t: T, rest: seq<T>, dead: set<T>)
    requires t !in rest
    ensures |DeadIn([t] + rest, dead)| == |DeadIn(rest, dead)| + if t in dead then 1 else 0
  {
    var more := DeadIn(rest, dead);
    assert DeadIn([t] + rest, dead) == if t in dead then more + {t} else more;
  }

  /** One pass removes only dead tasks, and at least half of them. */
  lemma PassReapsHalf<T>(s: Scheduler<T>, idle: T)
    requires Sound(s, idle) && CurrentInRing(s) && !IsDead(s.tasks[s.currentlyRunning.value])
    ensures Sound(SearchInvalidateTasks(s), idle) && OnlyDeadLeft(s, SearchInvalidateTasks(s))
    ensures DeadTasks(SearchInvalidateTasks(s).tasks) <= DeadTasks(s.tasks)
    ensures 2 * |DeadTasks(SearchInvalidateTasks(s).tasks)| <= |DeadTasks(s.tasks)|
  {
    hide Sound, OnlyDeadLeft, Distinct, DeadTasks;
    SoundParts(s, idle);
    ReapFromSound(s, idle, s.currentlyRunning.value, 0);
    PassLeavesUnvisited(s, idle);
    StartingAtElements(s.running, s.currentlyRunning.value);
    HalfIsVisited(StartingAt(s.running, s.currentlyRunning.value), DeadTasks(s.tasks));
  }

  lemma HalfIsVisited<T>(ring: seq<T>, dead: set<T>)
    requires Distinct(ring)
    ensures DeadIn(Unvisited(ring, dead, 0), dead) <= dead
    ensures 2 * |DeadIn(Unvisited(ring, dead, 0), dead)| <= |dead|
  {
    UnvisitedIsSmall(ring, dead, 0);
    UnvisitedIsSuffix(ring, dead, 0);
    var rest := Unvisited(ring, dead, 0);
    var k := |ring| - |rest|;
    var left, gone := DeadIn(rest, dead), DeadIn(ring[..k], dead);
    AtMostLength(rest, dead);
    assert left !! gone;
    assert left + gone <= dead;
    SubsetSize(left + gone, dead);
    assert |left + gone| == |left| + |gone|;
  }

  lemma {:induction false} AtMostLength<T>(q: seq<T>, dead: set<T>)
    ensures |DeadIn(q, dead)| <= |q|
  {
    if q != [] {
      AtMostLength(q[1..], dead);
      assert q == [q[0]] + q[1..];
      assert DeadIn(q, dead) == if q[0] in dead then DeadIn(q[1..], dead) + {q[0]} else DeadIn(q[1..], dead);
    }
  }

  // ---------- repeated passes ----------

  /** What idle_runner does round after round while there is work: k passes of the reaper. */
  ghost function Passes<T>(s: Scheduler<T>, idle: T, k: nat): (r: Scheduler<T>)
    requires Sound(s, idle) && CurrentInRing(s) && !IsDead(s.tasks[s.currentlyRunning.value])
    ensures Sound(r, idle) && CurrentInRing(r) && !IsDead(r.tasks[r.currentlyRunning.value])
  {
    if k == 0 then s
    else
      var r := Passes(s, idle, k - 1);
      PassKeepsCurrent(r, idle);
      SearchInvalidateTasks(r)
  }

  lemma PassKeepsCurrent<T>(s: Scheduler<T>, idle: T)
    requires Sound(s, idle) && CurrentInRing(s) && !IsDead(s.tasks[s.currentlyRunning.value])
    ensures Distinct(s.running)
    ensures var r := SearchInvalidateTasks(s);
      Sound(r, idle) && CurrentInRing(r) && !IsDead(r.tasks[r.currentlyRunning.value])
  {
    hide Sound, IsDead, ReapFrom;
    SoundParts(s, idle);
    ReapFromSound(s, idle, s.currentlyRunning.value, 0);
    SoundParts(SearchInvalidateTasks(s), idle);
  }

  function Pow2(k: nat): (p: nat)
    ensures p > k
  {
    if k == 0 then 1 else 2 * Pow2(k - 1)
  }

  /** Every pass halves the dead tasks, so repeated passes reap all of them. */
  lemma {:induction false} RepeatedPassesReapAll<T>(s: Scheduler<T>, idle: T, k: nat)
    requires Sound(s, idle) && CurrentInRing(s) && !IsDead(s.tasks[s.currentlyRunning.value])
    ensures |DeadTasks(Passes(s, idle, k).tasks)| * Pow2(k) <= |DeadTasks(s.tasks)|
    ensures k >= |DeadTasks(s.tasks)| ==> DeadTasks(Passes(s, idle, k).tasks) == {}
  {
    hide Sound, DeadTasks, IsDead, SearchInvalidateTasks, CurrentInRing;
    var n, left := |DeadTasks(s.tasks)|, |DeadTasks(Passes(s, idle, k).tasks)|;
    if k > 0 {
      RepeatedPassesReapAll(s, idle, k - 1);
      PassReapsHalf(Passes(s, idle, k - 1), idle);
      Halve(left, |DeadTasks(Passes(s, idle, k - 1).tasks)|, Pow2(k - 1), n);
    }
    NoneLeft(left, Pow2(k), k, n);
  }

  lemma Halve(left: nat, before: nat, p: nat, n: nat)
    requires 2 * left <= before && before * p <= n
    ensures left * (2 * p) <= n
  {
    assert left * (2 * p) == (2 * left) * p <= before * p;
  }

  lemma NoneLeft(left: nat, p: nat, k: nat, n: nat)
    requires left * p <= n && p > k
    ensures k >= n ==> left == 0
  {
    if left > 0 {
      assert left * p >= p;
    }
  }

  // ---------- exactly when one pass is enough ----------

  /** Position of the last dead node of a ring that has one. */
  function LastDead<T(==)>(ring: seq<T>, dead: set<T>): (i: nat)
    requires DeadIn(ring, dead) != {}
    ensures i < |ring|
  {
    if DeadIn(ring[1..], dead) != {} then 1 + LastDead(ring[1..], dead) else 0
  }

  lemma {:induction false} UnvisitedHasDead<T>(ring: seq<T>, dead: set<T>, removed: nat)
    requires Distinct(ring)
    ensures DeadIn(Unvisited(ring, dead, removed), dead) == {} <==>
      (DeadIn(ring, dead) != {} ==> LastDead(ring, dead) + removed + |DeadIn(ring, dead)| <= |ring|)
    decreases |ring|
  {
    hide Distinct, DeadIn, LastDead, Unvisited;
    UnfoldUnvisited(ring, dead, removed);
    if removed < |ring| {
      TailDistinct(ring);
      DeadInCons(ring, dead);
      UnvisitedHasDead(ring[1..], dead, if ring[0] in dead then removed + 1 else removed);
    }
  }

  lemma {:induction false} DeadInCons<T>(ring: seq<T>, dead: set<T>)
    requires ring != [] && ring[0] !in ring[1..]
    ensures |DeadIn(ring, dead)| == |DeadIn(ring[1..], dead)| + if ring[0] in dead then 1 else 0
    ensures DeadIn(ring, dead) == {} <==> ring[0] !in dead && DeadIn(ring[1..], dead) == {}
    ensures DeadIn(ring[1..], dead) != {} ==>
      DeadIn(ring, dead) != {} && LastDead(ring, dead) == 1 + LastDead(ring[1..], dead)
    ensures DeadIn(ring, dead) != {} && DeadIn(ring[1..], dead) == {} ==> LastDead(ring, dead) == 0
  {
    hide LastDead;
    DeadInHead(ring, dead);
    if DeadIn(ring, dead) != {} {
      LastDeadCons(ring, dead);
    }
  }

  lemma {:induction false} DeadInHead<T>(ring: seq<T>, dead: set<T>)
    requires ring != []
    ensures DeadIn(ring, dead) == DeadIn(ring[1..], dead) + if ring[0] in dead then {ring[0]} else {}
  {
    assert ring == [ring[0]] + ring[1..];
  }

  lemma {:induction false} LastDeadCons<T>(ring: seq<T>, dead: set<T>)
    requires DeadIn(ring, dead) != {}
    ensures ring != []
    ensures LastDead(ring, dead) == if DeadIn(ring[1..], dead) != {} then 1 + LastDead(ring[1..], dead) else 0
  {
  }

  /** One pass reaps every dead task if and only if, in the order in which the reaper walks the
      ring, the position of the last dead task plus the number of dead tasks is within the ring:
      at least all but one of the dead tasks are matched by live tasks behind the last one. */
  lemma OnePassSuffices<T>(s: Scheduler<T>, idle: T)
    requires Sound(s, idle) && CurrentInRing(s) && !IsDead(s.tasks[s.currentlyRunning.value])
    ensures Distinct(s.running)
    ensures var ring := StartingAt(s.running, s.currentlyRunning.value);
      var dead := DeadTasks(s.tasks);
      (DeadTasks(SearchInvalidateTasks(s).tasks) == {} <==>
        (DeadIn(ring, dead) != {} ==> LastDead(ring, dead) + |dead| <= |ring|))
  {
    hide Sound, Distinct, StartingAt, ReapFrom, Unvisited;
    SoundParts(s, idle);
    PassLeavesUnvisited(s, idle);
    StartingAtElements(s.running, s.currentlyRunning.value);
    var ring, dead := StartingAt(s.running, s.currentlyRunning.value), DeadTasks(s.tasks);
    UnvisitedHasDead(ring, dead, 0);
    forall t | t in dead ensures t in ring {
      DeadRuns(s, idle, t);
    }
    assert DeadIn(ring, dead) == dead;
  }

  /** A ring that one pass does not clean: of three dead tasks behind idle it misses the last. */
  lemma OnePassExample<T>(s: Scheduler<T>, idle: T, a: T, b: T, c: T)
    requires Sound(s, idle) && s.running == [idle, a, b, c] && s.currentlyRunning == Some(idle)
    requires DeadTasks(s.tasks) == {a, b, c}
    ensures CurrentInRing(s) && DeadTasks(SearchInvalidateTasks(s).tasks) == {c}
  {
    hide Sound, StartingAt, SearchInvalidateTasks, Unvisited, DeadTasks;
    var dead := DeadTasks(s.tasks);
    IdleIsAlive(s, idle);
    PassLeavesUnvisited(s, idle);
    assert s.running[0] == idle;
    StartingAtHead(s.running);
    ThreeDeadBehind(idle, a, b, c, dead);
    assert DeadIn([c], dead) == {c};
  }

  lemma IdleIsAlive<T>(s: Scheduler<T>, idle: T)
    requires Sound(s, idle) && s.currentlyRunning == Some(idle)
    ensures CurrentInRing(s) && Distinct(s.running)
    ensures !IsDead(s.tasks[idle]) && idle !in DeadTasks(s.tasks)
  {
  }

  lemma StartingAtHead<T>(ring: seq<T>)
    requires ring != []
    ensures StartingAt(ring, ring[0]) == ring
  {
    assert ring[0..] == ring && ring[..0] == [];
  }

  lemma ThreeDeadBehind<T>(idle: T, a: T, b: T, c: T, dead: set<T>)
    requires dead == {a, b, c} && idle !in dead
    ensures Unvisited([idle, a, b, c], dead, 0) == [c]
  {
    UnfoldUnvisited([idle, a, b, c], dead, 0);
    assert [idle, a, b, c][1..] == [a, b, c] && [a, b, c][1..] == [b, c] && [b, c][1..] == [c];
    UnfoldUnvisited([a, b, c], dead, 0);
    UnfoldUnvisited([b, c], dead, 1);
    UnfoldUnvisited([c], dead, 2);
  }
}
