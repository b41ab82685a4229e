/** os/src/data/queue.c: circular doubly linked queues of tasks. A queue is refined by the ghost
    sequence of its nodes from head to tail. */
module Rings {
  import opened Scheduling

  /** The scheduling part of a Tcb_t in memory. `address` is where allocate put it. */
  class Tcb {
    const address: nat
    const pid: nat
    const stackLowerBound: nat
    const codeSection: Option<nat>   // of a task that was sent over the UART
    const parent: Tcb?
    var joinPid: int
    var state: TaskState
    var sp: int

    constructor (address: nat, task: Task, stackLowerBound: nat, codeSection: Option<nat>, parent: Tcb?)
      ensures Value() == task && this.address == address && this.parent == parent && joinPid == -1
      ensures this.stackLowerBound == stackLowerBound && this.codeSection == codeSection
    {
      this.address := address;
      this.pid := task.pid;
      this.state := task.state;
      this.sp := task.sp;
      this.stackLowerBound := stackLowerBound;
      this.codeSection := codeSection;
      this.parent := parent;
      this.joinPid := -1;
    }

    ghost function Value(): Task
      reads this
    {
      Task(pid, state, sp)
    }

    /** The pid of the parent, if it waits for this task. */
    function JoiningParent(): Option<nat>
      reads parent
    {
      if parent != null && parent.joinPid == pid then Some(parent.pid) else None
    }
  }

  class Node {
    const address: nat
    const data: Tcb
    var next: Node?
    var prev: Node?

    constructor (address: nat, data: Tcb)
      ensures this.address == address && this.data == data && next == null && prev == null
    {
      this.address := address;
      this.data := data;
      next := null;
      prev := null;
    }
  }

  /** The neighbours of position i in a ring of n nodes. */
  function Succ(i: int, n: int): int { if i + 1 < n then i + 1 else 0 }

  function Pred(i: int, n: int): int { if i > 0 then i - 1 else n - 1 }

  ghost predicate Linked(nodes: seq<Node>)
    reads nodes
  {
    forall i :: 0 <= i < |nodes| ==>
      nodes[i].next == nodes[Succ(i, |nodes|)] && nodes[i].prev == nodes[Pred(i, |nodes|)]
  }

  /** Taking position i out: its neighbours point at each other, all others are untouched. */
  lemma LinkedWithout(nodes: seq<Node>, i: nat)
    requires |nodes| >= 2 && i < |nodes|
    requires forall k {:trigger nodes[k].next} :: 0 <= k < |nodes| && k != i ==>
      nodes[k].next == nodes[if k == Pred(i, |nodes|) then Succ(i, |nodes|) else Succ(k, |nodes|)]
    requires forall k {:trigger nodes[k].prev} :: 0 <= k < |nodes| && k != i ==>
      nodes[k].prev == nodes[if k == Succ(i, |nodes|) then Pred(i, |nodes|) else Pred(k, |nodes|)]
    ensures Linked(Without(nodes, i))
  {
    var n, r := |nodes|, Without(nodes, i);
    forall j | 0 <= j < |r| ensures r[j].next == r[Succ(j, |r|)] && r[j].prev == r[Pred(j, |r|)] {
      var k := if j < i then j else j + 1;
      assert r[j] == nodes[k];
      assert r[j].next == nodes[k].next && r[j].prev == nodes[k].prev;
    }
  }

  /** Appending a node between the last and the first. */
  lemma LinkedAppend(nodes: seq<Node>, node: Node)
    requires nodes != []
    requires node.prev == nodes[|nodes| - 1] && node.next == nodes[0]
    requires forall k {:trigger nodes[k].next} :: 0 <= k < |nodes| ==>
      nodes[k].next == if k + 1 < |nodes| then nodes[k + 1] else node
    requires forall k {:trigger nodes[k].prev} :: 0 <= k < |nodes| ==>
      nodes[k].prev == if k > 0 then nodes[k - 1] else node
    ensures Linked(nodes + [node])
  {
    var r := nodes + [node];
    forall j | 0 <= j < |r| ensures r[j].next == r[Succ(j, |r|)] && r[j].prev == r[Pred(j, |r|)] {
      if j < |nodes| {
        assert r[j] == nodes[j];
        assert r[j].next == nodes[j].next && r[j].prev == nodes[j].prev;
      }
    }
  }

  /** The pointer surgery that isolate_node and dequeue_element share: a and b, the neighbours
      of the node that leaves, point at each other. */
  method Join(a: Node, b: Node, ghost node: Node, ghost all: seq<Node>)
    requires Distinct(all) && Linked(all) && node in all && |all| >= 2
    requires a == node.prev && b == node.next
    modifies all
    ensures Linked(Minus(all, node))
    ensures node.next == old(node.next) && node.prev == old(node.prev)
  {
    hide Distinct, Succ, Pred;
    ghost var n, i := |all|, IndexOf(all, node);
    ghost var p, q := Pred(i, n), Succ(i, n);
    Neighbours(all, i);
    DistinctFrom(all, p);
    DistinctFrom(all, q);
    assert all[i].next == all[q] && all[i].prev == all[p];
    a.next := b;
    b.prev := a;
    AllBounds(n);
    forall k | 0 <= k < n && k != i
      ensures all[k].next == all[if k == p then q else Succ(k, n)]
      ensures all[k].prev == all[if k == q then p else Pred(k, n)]
    {
      assert old(all[k].next) == all[Succ(k, n)] && old(all[k].prev) == all[Pred(k, n)];
    }
    LinkedWithout(all, i);
  }

  lemma AllBounds(n: int)
    ensures forall i :: 0 <= i < n ==> 0 <= Pred(i, n) < n && 0 <= Succ(i, n) < n
  {
  }

  lemma Neighbours(all: seq<Node>, i: nat)
    requires Distinct(all) && i < |all| && |all| >= 2
    ensures 0 <= Pred(i, |all|) < |all| && 0 <= Succ(i, |all|) < |all|
    ensures all[Succ(i, |all|)] != all[i] && all[Pred(i, |all|)] != all[i]
  {
  }

  lemma DistinctFrom(all: seq<Node>, i: int)
    requires Distinct(all) && 0 <= i < |all|
    ensures forall k :: 0 <= k < |all| && k != i ==> all[k] != all[i]
  {
  }

  /** The pointer surgery that move_node and enqueue_element share. */
  method LinkAtTail(node: Node, head: Node, tail: Node, ghost all: seq<Node>)
    requires Distinct(all) && Linked(all) && all != [] && node !in all
    requires head == all[0] && tail == all[|all| - 1]
    modifies all, node
    ensures Linked(all + [node])
  {
    hide Distinct, Succ, Pred;
    ghost var n := |all|;
    DistinctFrom(all, 0);
    DistinctFrom(all, n - 1);
    InnerLinks(all);
    hide Linked;
    node.prev := tail;
    node.next := head;
    tail.next := node;
    head.prev := node;
    LinkedAppend(all, node);
  }

  lemma AppendKeepsDistinct(all: seq<Node>, node: Node)
    requires Distinct(all) && node !in all
    ensures Distinct(all + [node])
  {
  }

  lemma InnerLinks(all: seq<Node>)
    requires Linked(all)
    ensures forall k {:trigger all[k].next} :: 0 <= k < |all| - 1 ==> all[k].next == all[k + 1]
    ensures forall k {:trigger all[k].prev} :: 0 < k < |all| ==> all[k].prev == all[k - 1]
  {
    forall k | 0 <= k < |all| - 1 ensures all[k].next == all[k + 1] {
      assert all[k].next == all[Succ(k, |all|)];
    }
    forall k | 0 < k < |all| ensures all[k].prev == all[k - 1] {
      assert all[k].prev == all[Pred(k, |all|)];
    }
  }

  /** What becomes of head and tail when a node leaves. */
  lemma RingEnds(all: seq<Node>, node: Node)
    requires Distinct(all) && Linked(all) && node in all && |all| >= 2
    ensures Minus(all, node)[0] == (if node == all[0] then node.next else all[0])
    ensures Minus(all, node)[|all| - 2] == (if node == all[|all| - 1] then node.prev else all[|all| - 1])
    ensures node.next in all && node.prev in all && node.next != node && node.prev != node
  {
    var i := IndexOf(all, node);
    assert all[i].next == all[Succ(i, |all|)] && all[i].prev == all[Pred(i, |all|)];
  }

  class Queue {
    const address: nat
    var size: nat
    var head: Node?
    var tail: Node?
    ghost var nodes: seq<Node>

    ghost predicate Valid()
      reads this, nodes
    {
      && size == |nodes|
      && Distinct(nodes)
      && (nodes == [] ==> head == null && tail == null)
      && (nodes != [] ==> head == nodes[0] && tail == nodes[|nodes| - 1])
      && Linked(nodes)
    }

    constructor (address: nat)
      ensures Valid() && nodes == [] && this.address == address
    {
      this.address := address;
      size := 0;
      head := null;
      tail := null;
      nodes := [];
    }

    method IsolateNode(node: Node)
      requires Valid() && node in nodes
      modifies this, nodes
      ensures Valid() && nodes == Minus(old(nodes), node)
    {
      hide Distinct, Succ, Pred;
      ghost var all := nodes;
      MinusElements(all, node);
      if |all| >= 2 { RingEnds(all, node); }
      size := size - 1;
      if size == 0 {
        head := null;
        tail := null;
      } else {
        if node == head {
          head := node.next;
        }
        if node == tail {
          tail := node.prev;
        }
        Join(node.prev, node.next, node, all);
      }
      nodes := Minus(all, node);
    }

    method MoveNode(node: Node)
      requires Valid() && node !in nodes
      modifies this, nodes, node
      ensures Valid() && nodes == old(nodes) + [node]
    {
      hide Distinct;
      if size == 0 {
        node.next := node;
        node.prev := node;
        tail := node;
        head := node;
      } else {
        LinkAtTail(node, head, tail, nodes);
        tail := node;
      }
      size := size + 1;
      AppendKeepsDistinct(nodes, node);
      nodes := nodes + [node];
    }

    /** Allocation of the node is done by the caller; this is the linking. */
    method EnqueueElement(address: nat, data: Tcb) returns (node: Node)
      requires Valid()
      modifies this, nodes
      ensures Valid() && fresh(node) && nodes == old(nodes) + [node]
      ensures node.address == address && node.data == data
    {
      node := new Node(address, data);
      MoveNode(node);
    }

    /** Sound on rings of at least two nodes, and only there: the last node stays behind as a
        stale head and tail. */
    method DequeueElement(node: Node) returns (q: Node)
      requires Valid() && node in nodes
      modifies this, nodes
      ensures q == node && nodes == Minus(old(nodes), node) && size == old(size) - 1
      ensures forall m :: m in nodes <==> m in old(nodes) && m != node
      ensures Valid() <==> old(size) >= 2
      ensures old(size) == 1 ==> head == node && tail == node
      ensures node.next == old(node.next)
    {
      hide Distinct, Succ, Pred, Linked;
      ghost var all := nodes;
      MinusElements(all, node);
      if |all| >= 2 { RingEnds(all, node); } else { OnlyNode(all, node); }
      EndsMeet(all);
      q := node;
      if node == head {
        head := node.next;
        if size >= 2 {
          Join(tail, head, node, all);
        } else {
          head.prev := tail;
          tail.next := head;
        }
      } else if node == tail {
        tail := node.prev;
        Join(tail, head, node, all);
      } else {
        Join(node.prev, node.next, node, all);
      }
      size := size - 1;
      nodes := Minus(all, node);
    }
  }

  /** A queue none of whose nodes was written is as it was. */
  twostate lemma Untouched(q: Queue)
    requires old(q.Valid()) && unchanged(q)
    requires forall n :: n in q.nodes ==> unchanged(n)
    ensures q.Valid()
  {
    hide Distinct, Succ, Pred;
    AllBounds(|q.nodes|);
    forall i | 0 <= i < |q.nodes|
      ensures q.nodes[i].next == q.nodes[Succ(i, |q.nodes|)] && q.nodes[i].prev == q.nodes[Pred(i, |q.nodes|)]
    {
      assert q.nodes[i] in q.nodes;
    }
  }

  ghost predicate Disjoint(a: Queue, b: Queue)
    reads a, b
  {
    a != b && forall n :: n in a.nodes ==> n !in b.nodes
  }

  /** isolate_node, then move_node: the node leaves one ring and becomes the tail of the other. */
  method Migrate(source: Queue, target: Queue, node: Node)
    requires source.Valid() && target.Valid() && Disjoint(source, target) && node in source.nodes
    modifies source, target, source.nodes, target.nodes
    ensures source.Valid() && target.Valid() && Disjoint(source, target)
    ensures source.nodes == Minus(old(source.nodes), node) && target.nodes == old(target.nodes) + [node]
    ensures forall m :: m in source.nodes <==> m in old(source.nodes) && m != node
  {
    hide Distinct, Linked;
    MinusElements(source.nodes, node);
    source.IsolateNode(node);
    assert forall m :: m in target.nodes ==> m !in old(source.nodes);
    Untouched(target);
    label isolated:
    assert forall m :: m in source.nodes ==> m !in target.nodes && m != node;
    target.MoveNode(node);
    Untouched@isolated(source);
  }

  lemma OnlyNode(all: seq<Node>, node: Node)
    requires Linked(all) && |all| == 1 && node in all
    ensures all == [node] && Minus(all, node) == [] && node.next == node && node.prev == node
  {
    assert all[0].next == all[Succ(0, 1)];
  }

  lemma EndsMeet(all: seq<Node>)
    requires Linked(all)
    ensures all != [] ==> all[0].prev == all[|all| - 1] && all[|all| - 1].next == all[0]
  {
    if all != [] {
      assert all[0].prev == all[Pred(0, |all|)];
      assert all[|all| - 1].next == all[Succ(|all| - 1, |all|)];
    }
  }
}
