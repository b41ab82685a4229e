/** What `defrag` (os/src/memory.c) is for: every run of adjacent free chunks becomes one. */
module Coalescing {
  import opened Chunks

  /** Length of the run of free chunks at the start. */
  function FreeRun(cs: seq<Chunk>): (r: nat)
    ensures r <= |cs|
    ensures forall i :: 0 <= i < r ==> !cs[i].live
    ensures r < |cs| ==> cs[r].live
  {
    if cs == [] || cs[0].live then 0 else 1 + FreeRun(cs[1..])
  }

  /** How many chunks the first chunk absorbs, itself included, and what it becomes. */
  function HeadRun(cs: seq<Chunk>): (r: nat)
    requires cs != []
    ensures 1 <= r <= |cs|
  {
    if cs[0].live then 1 else FreeRun(cs)
  }

  function HeadChunk(cs: seq<Chunk>): Chunk
    requires cs != []
  {
    Chunk(cs[0].live, Offset(cs, HeadRun(cs)))
  }

  function Coalesce(cs: seq<Chunk>): seq<Chunk>
    decreases |cs|
  {
    if cs == [] then [] else [HeadChunk(cs)] + Coalesce(cs[HeadRun(cs)..])
  }

  lemma {:induction false} FreeRunHasNoBlocks(cs: seq<Chunk>, r: nat, base: nat)
    requires r <= |cs| && forall i :: 0 <= i < r ==> !cs[i].live
    ensures Blocks(cs, base) == Blocks(cs[r..], base + Offset(cs, r))
    decreases r
  {
    if r == 0 {
      assert cs[0..] == cs;
    } else {
      FreeRunHasNoBlocks(cs[1..], r - 1, base + cs[0].size);
      OffsetSplit(cs, 1, r - 1);
      assert Offset(cs, 1) == Offset(cs, 0) + cs[0].size;
      assert cs[1..][r - 1..] == cs[r..];
    }
  }

  lemma HeadBlocks(cs: seq<Chunk>, base: nat)
    requires cs != []
    ensures var r := HeadRun(cs);
      Blocks(cs, base) == Blocks([HeadChunk(cs)], base) + Blocks(cs[r..], base + Offset(cs, r))
  {
    assert Offset(cs, 1) == Offset(cs, 0) + cs[0].size;
    if !cs[0].live {
      FreeRunHasNoBlocks(cs, HeadRun(cs), base);
    }
  }

  lemma BlocksCons(c: Chunk, ds: seq<Chunk>, base: nat)
    ensures Blocks([c] + ds, base) == Blocks([c], base) + Blocks(ds, base + c.size)
    ensures Total([c] + ds) == c.size + Total(ds)
  {
    var es := [c] + ds;
    assert es[1..] == ds;
    OffsetSplit(es, 1, |ds|);
    assert Offset(es, 1) == Offset(es, 0) + c.size;
  }

  lemma {:induction false} CoalesceKeepsTotal(cs: seq<Chunk>)
    ensures Total(Coalesce(cs)) == Total(cs)
    ensures |Coalesce(cs)| <= |cs|
    decreases |cs|
  {
    hide Blocks, FreeRun;
    if cs != [] {
      var r := HeadRun(cs);
      CoalesceKeepsTotal(cs[r..]);
      BlocksCons(HeadChunk(cs), Coalesce(cs[r..]), 0);
      OffsetSplit(cs, r, |cs| - r);
    }
  }

  /** Coalescing keeps the live blocks, in place and in order, and the carved bytes. */
  lemma {:induction false} CoalesceKeepsBlocks(cs: seq<Chunk>, base: nat)
    ensures Blocks(Coalesce(cs), base) == Blocks(cs, base)
    ensures Total(Coalesce(cs)) == Total(cs)
    ensures |Coalesce(cs)| <= |cs|
    decreases |cs|
  {
    hide Blocks, HeadRun, Total;
    CoalesceKeepsTotal(cs);
    if cs != [] {
      var r := HeadRun(cs);
      CoalesceKeepsBlocks(cs[r..], base + Offset(cs, r));
      HeadBlocks(cs, base);
      BlocksCons(HeadChunk(cs), Coalesce(cs[r..]), base);
    }
  }

  /** No two adjacent chunks are free afterwards. */
  lemma {:induction false} CoalesceLeavesNoFreePair(cs: seq<Chunk>)
    ensures cs == [] <==> Coalesce(cs) == []
    ensures cs != [] ==> Coalesce(cs)[0].live == cs[0].live
    ensures forall i :: 0 < i < |Coalesce(cs)| ==> Coalesce(cs)[i - 1].live || Coalesce(cs)[i].live
    decreases |cs|
  {
    if cs != [] {
      var r := HeadRun(cs);
      CoalesceLeavesNoFreePair(cs[r..]);
    }
  }

  predicate HasFree(cs: seq<Chunk>, size: int) {
    exists d :: 0 <= d < |cs| && !cs[d].live && cs[d].size >= size
  }

  lemma HasFreeCons(c: Chunk, ds: seq<Chunk>, size: int)
    requires HasFree(ds, size) || (!c.live && c.size >= size)
    ensures HasFree([c] + ds, size)
  {
    var es := [c] + ds;
    if HasFree(ds, size) {
      var d :| 0 <= d < |ds| && !ds[d].live && ds[d].size >= size;
      assert es[d + 1] == ds[d];
    } else {
      assert es[0] == c;
    }
  }

  /** A run of adjacent free chunks ends up inside one free chunk of at least their sum. */
  lemma {:induction false} RunsAreMerged(cs: seq<Chunk>, i: nat, j: nat)
    requires i < j <= |cs| && forall k :: i <= k < j ==> !cs[k].live
    ensures HasFree(Coalesce(cs), Offset(cs, j) - Offset(cs, i))
    decreases |cs|
  {
    hide HasFree, HeadRun, HeadChunk;
    var r, sum := HeadRun(cs), Offset(cs, j) - Offset(cs, i);
    var tail := cs[r..];
    if i >= r {
      assert forall k :: i - r <= k < j - r ==> !tail[k].live;
      RunsAreMerged(tail, i - r, j - r);
      OffsetSplit(cs, r, i - r);
      OffsetSplit(cs, r, j - r);
      assert Offset(tail, j - r) - Offset(tail, i - r) == sum;
    } else {
      RunInHead(cs, i, j);
    }
    HasFreeCons(HeadChunk(cs), Coalesce(tail), sum);
  }

  lemma RunInHead(cs: seq<Chunk>, i: nat, j: nat)
    requires i < j <= |cs| && forall k :: i <= k < j ==> !cs[k].live
    requires i < HeadRun(cs)
    ensures !HeadChunk(cs).live && HeadChunk(cs).size >= Offset(cs, j)
  {
    var r := HeadRun(cs);
    assert !cs[i].live;
    assert j <= r;
    OffsetMonotone(cs, j, r);
  }

  /** A request that fits a run of adjacent free chunks is served from a free chunk after
      coalescing, without carving a virgin slot. */
  lemma RunIsUsable(cs: seq<Chunk>, i: nat, j: nat, size: nat)
    requires i < j <= |cs| && forall k :: i <= k < j ==> !cs[k].live
    requires 1 <= size <= Offset(cs, j) - Offset(cs, i)
    requires Tiled(Coalesce(cs))
    ensures Decide(Coalesce(cs), size).Reuse?
  {
    RunsAreMerged(cs, i, j);
    FreeChunkServes(Coalesce(cs), size);
  }

  lemma FreeChunkServes(ds: seq<Chunk>, size: nat)
    requires Tiled(ds) && HasFree(ds, size) && 1 <= size
    ensures Decide(ds, size).Reuse?
  {
    hide FirstFit, Offset, RoundUp4;
    var d :| 0 <= d < |ds| && !ds[d].live && ds[d].size >= size;
    assert ProperSize(ds[d].size);
    RoundedFits(ds[d].size, size);
  }

  /** Coalescing never makes a request unsatisfiable. */
  lemma CoalesceKeepsSatisfiable(cs: seq<Chunk>, size: nat)
    requires Tiled(cs) && Tiled(Coalesce(cs)) && !Decide(cs, size).Refused?
    ensures !Decide(Coalesce(cs), size).Refused?
  {
    match Decide(cs, size)
    case Reuse(i) =>
      RunsAreMerged(cs, i, i + 1);
      assert Offset(cs, i + 1) == Offset(cs, i) + cs[i].size;
      RunIsUsable(cs, i, i + 1, size);
    case Carve(_) =>
      CoalesceKeepsBlocks(cs, 0);
  }
}
