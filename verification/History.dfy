/** Whole histories of the allocator of os/src/memory.c: what the callers of `allocate` hold
    after any sequence of calls. */
module History {
  import opened Words
  import opened Chunks
  import opened Coalescing
  import opened Defragmenting

  datatype Call = Allocate(size: nat) | Deallocate(offset: nat) | Defragment

  /** The chunks, and for every block that is held the size its owner asked for. */
  datatype Heap = Heap(chunks: seq<Chunk>, held: map<nat, nat>)

  const EMPTY := Heap([], map[])

  /** The calls for which the code keeps its promises: carved memory fits the 16-bit offsets,
      a carved request fits the 15-bit size, defrag finds a virgin slot and a safe table. */
  predicate Allowed(h: Heap, call: Call) {
    match call
    case Allocate(size) => Decide(h.chunks, size).Carve? ==> size <= 32760 && Total(h.chunks) < 0x1_0000
    case Deallocate(_) => true
    case Defragment => |h.chunks| < NUM_OF_SLOTS && DefragSafe(h.chunks)
  }

  function Apply(h: Heap, call: Call): Heap {
    match call
    case Allocate(size) =>
      var outcome := Decide(h.chunks, size);
      if outcome.Refused? then h
      else Heap(Allocated(h.chunks, outcome), h.held[Granted(h.chunks, outcome) := size])
    case Deallocate(offset) => Heap(Freed(h.chunks, offset), h.held - {offset})
    case Defragment => Heap(Coalesce(h.chunks), h.held)
  }

  predicate AllAllowed(h: Heap, calls: seq<Call>)
    decreases |calls|
  {
    calls == [] || (Allowed(h, calls[0]) && AllAllowed(Apply(h, calls[0]), calls[1..]))
  }

  function ApplyAll(h: Heap, calls: seq<Call>): Heap
    decreases |calls|
  {
    if calls == [] then h else ApplyAll(Apply(h, calls[0]), calls[1..])
  }

  /** What is held is live and large enough, and nothing else is live. */
  ghost predicate Consistent(h: Heap) {
    && Tiled(h.chunks)
    && (forall o :: o in h.held ==> exists s :: s >= h.held[o] && LiveAt(h.chunks, o, s))
    && (forall o, s :: LiveAt(h.chunks, o, s) ==> o in h.held)
  }

  /** A safe table stays tiled. */
  lemma SafeStaysTiled(cs: seq<Chunk>)
    requires Tiled(cs) && |cs| < NUM_OF_SLOTS && DefragSafe(cs)
    ensures Tiled(Coalesce(cs))
  {
    var mem: seq<Word> := seq(2 * N, i requires 0 <= i < 2 * N => if i < |cs| then Entry(cs, i) else VIRGIN);
    assert Represents(mem, cs);
    RepresentsHolds(mem, cs, 0);
    assert cs[0..] == cs && Offset(cs, 0) == 0;
    ScanHolds(mem, |cs|, 0, 0, cs);
    HoldsRepresents(ScanFrom(mem, |cs|, 0), Coalesce(cs));
  }

  lemma SameBlocks(cs: seq<Chunk>, o: nat, s: nat)
    ensures LiveAt(Coalesce(cs), o, s) <==> LiveAt(cs, o, s)
  {
    CoalesceKeepsBlocks(cs, 0);
    BlocksAreLive(cs, 0, o, s);
    BlocksAreLive(Coalesce(cs), 0, o, s);
  }

  lemma ApplyKeepsConsistent(h: Heap, call: Call)
    requires Consistent(h) && Allowed(h, call)
    ensures Consistent(Apply(h, call))
  {
    hide LiveAt, Tiled, Decide, Allocated, Granted, Freed, Coalesce, DefragSafe, Total;
    var h' := Apply(h, call);
    match call
    case Allocate(size) =>
      if !Decide(h.chunks, size).Refused? {
        AllocationIsClean(h.chunks, size);
      }
    case Deallocate(offset) =>
      FreeClearsOne(h.chunks, offset);
    case Defragment =>
      SafeStaysTiled(h.chunks);
      forall o, s ensures LiveAt(h'.chunks, o, s) <==> LiveAt(h.chunks, o, s) {
        SameBlocks(h.chunks, o, s);
      }
  }

  lemma {:induction false} HistoryKeepsConsistent(h: Heap, calls: seq<Call>)
    requires Consistent(h) && AllAllowed(h, calls)
    ensures Consistent(ApplyAll(h, calls))
    decreases |calls|
  {
    if calls != [] {
      ApplyKeepsConsistent(h, calls[0]);
      HistoryKeepsConsistent(Apply(h, calls[0]), calls[1..]);
    }
  }

  /** After any allowed history two held blocks never overlap over the sizes their owners asked
      for, start at 8-byte boundaries, and lie inside the carved memory. */
  lemma HeldBlocksAreDisjoint(calls: seq<Call>, o1: nat, o2: nat)
    requires AllAllowed(EMPTY, calls)
    requires o1 in ApplyAll(EMPTY, calls).held && o2 in ApplyAll(EMPTY, calls).held
    ensures var h := ApplyAll(EMPTY, calls);
      && o1 % 8 == 0
      && o1 + h.held[o1] <= Total(h.chunks)
      && (o1 != o2 ==> o1 + h.held[o1] <= o2 || o2 + h.held[o2] <= o1)
  {
    HistoryKeepsConsistent(EMPTY, calls);
    var h := ApplyAll(EMPTY, calls);
    var s1 :| s1 >= h.held[o1] && LiveAt(h.chunks, o1, s1);
    var s2 :| s2 >= h.held[o2] && LiveAt(h.chunks, o2, s2);
    LiveDisjoint(h.chunks, o1, s1, o2, s2);
  }
}
