/** `defrag` of os/src/memory.c on the words of the memory: what its scan, merge and shift
    loops compute, when that is the coalesced table, and why it is not otherwise.

    The first NUM_OF_SLOTS words of `mem` are the slot table; the words behind it are the memory
    that the table administers. The shift loop can read past the end of the table. */
module Defragmenting {
  import opened Words
  import opened Chunks
  import opened Coalescing
  import opened Sorting

  const N: nat := NUM_OF_SLOTS

  // ---------- the comparators ----------

  /** The word as the signed `int` that the comparators take. */
  function Signed(w: Word): int { if w < 0x8000_0000 then w else w - 0x1_0000_0000 }

  /** Arithmetic shift: `/` with a positive divisor rounds down. */
  function OffsetComparator(a: Word, b: Word): int {
    var offsetA, offsetB := Signed(a) / 0x1_0000, Signed(b) / 0x1_0000;
    if offsetA > offsetB then 1 else if offsetA < offsetB then -1 else 0
  }

  function SizeComparator(a: Word, b: Word): int {
    var sizeA, sizeB := SizeOf(a), SizeOf(b);
    if sizeA > sizeB then 1 else if sizeA < sizeB then -1 else 0
  }

  function IntComparator(a: int, b: int): int {
    if a > b then 1 else if a < b then -1 else 0
  }

  lemma ComparatorsQualify()
    ensures IsComparator(OffsetComparator) && IsComparator(SizeComparator)
    ensures IsComparator(IntComparator)
  {
  }

  lemma SignedOffset(w: Word)
    ensures Signed(w) / 0x1_0000 == if OffsetOf(w) < 0x8000 then OffsetOf(w) else OffsetOf(w) - 0x1_0000
  {
    Shift16(w);
  }

  // ---------- the loops, from slot `b` on, with `n` used slots ----------

  /** First slot from i on that is occupied or behind the used slots. */
  function ScanEnd(mem: seq<Word>, n: nat, i: nat): (e: nat)
    requires i <= n < |mem|
    ensures i <= e <= n
    ensures forall k :: i <= k < e ==> !IsOccupied(mem[k])
    ensures e < n ==> IsOccupied(mem[e])
    decreases n - i
  {
    if IsOccupied(mem[i]) || i > n - 1 then i else ScanEnd(mem, n, i + 1)
  }

  function SizeSum(mem: seq<Word>, lo: nat, hi: nat): (sum: nat)
    requires lo <= hi <= |mem|
    ensures sum <= 0x8000 * (hi - lo)
  {
    if lo == hi then 0 else SizeSum(mem, lo, hi - 1) + SizeOf(mem[hi - 1])
  }

  ghost predicate Room(mem: seq<Word>, n: nat) { n < N && |mem| >= 2 * N }

  function MergedWord(mem: seq<Word>, b: nat, e: nat): Word
    requires b < e <= N <= |mem|
  {
    RewriteFields(mem[b], SizeSum(mem, b, e), 0);
    Rewrite(mem[b], SizeSum(mem, b, e), 0)
  }

  /** Slots b..e-1 merged into slot b, the words behind moved up; n is the stale bound. */
  function Merged(mem: seq<Word>, n: nat, b: nat, e: nat): (r: seq<Word>)
    requires Room(mem, n) && b < e <= n
    ensures |r| == |mem|
    ensures r[b] == MergedWord(mem, b, e)
    ensures forall k {:trigger r[k]} :: 0 <= k < b || n <= k < |mem| ==> r[k] == mem[k]
    ensures forall k {:trigger r[k]} :: b < k < n ==> r[k] == mem[k + (e - b - 1)]
  {
    seq(|mem|, k requires 0 <= k < |mem| =>
      if k == b then MergedWord(mem, b, e)
      else if b < k < n then mem[k + (e - b - 1)] else mem[k])
  }

  function ScanStep(mem: seq<Word>, n: nat, b: nat): (r: seq<Word>)
    requires Room(mem, n) && b + 1 < n
    ensures |r| == |mem|
  {
    if !IsOccupied(mem[b]) && mem[b] != VIRGIN then
      var e := ScanEnd(mem, n, b + 1);
      if e > b + 1 then Merged(mem, n, b, e) else mem
    else mem
  }

  function ScanFrom(mem: seq<Word>, n: nat, b: nat): (r: seq<Word>)
    requires Room(mem, n)
    ensures |r| == |mem|
    decreases n - b
  {
    if b + 1 < n then ScanFrom(ScanStep(mem, n, b), n, b + 1) else mem
  }

  /** The effect of defrag on the memory: sort the used slots by offset, then scan. */
  ghost predicate Defragged(before: seq<Word>, after: seq<Word>, n: nat)
    requires Room(before, n)
  {
    exists sorted: seq<Word> ::
      |sorted| == |before| && UsedSlotsSorted(before, sorted, n) && after == ScanFrom(sorted, n, 0)
  }

  ghost predicate UsedSlotsSorted(before: seq<Word>, sorted: seq<Word>, n: nat)
    requires n <= |before| == |sorted|
  {
    PermutesSlice(before, sorted, 0, n) && Sorted(sorted[..n], OffsetComparator)
  }

  // ---------- when the scan is safe ----------

  /** The remaining chunks can be scanned: every merged size fits the size field, and no free run
      at the very end is scanned with a stale bound, which would swallow virgin slots. The bound
      is stale once something was merged. */
  predicate ScanSafe(cs: seq<Chunk>, stale: bool)
    decreases |cs|
  {
    if cs == [] then true
    else if cs[0].live then ScanSafe(cs[1..], stale)
    else
      var r := FreeRun(cs);
      && (r >= 2 ==> Offset(cs, r) < 0x8000)
      && (r == |cs| ==> !stale)
      && ScanSafe(cs[r..], stale || r >= 2)
  }

  /** How many words behind the table the shifts of a scan over n used slots read. */
  function Overread(cs: seq<Chunk>, n: nat): (x: nat)
    ensures |cs| <= n < N ==> x < N
    decreases |cs|
  {
    if cs == [] then 0
    else
      var r := HeadRun(cs);
      var more, here := Overread(cs[r..], n), n + r - N - 1;
      if r >= 2 && here > more then here else more
  }

  predicate DefragFits(cs: seq<Chunk>) {
    && (cs != [] ==> Offset(cs, |cs| - 1) < 0x8000)
    && ScanSafe(cs, false)
  }

  predicate DefragSafe(cs: seq<Chunk>) {
    DefragFits(cs) && Overread(cs, |cs|) == 0
  }

  // ---------- the scanned part of the table ----------

  /** From slot b on the table holds these chunks, the first at offset `base`, then virgin slots. */
  predicate Holds(mem: seq<Word>, b: nat, base: nat, cs: seq<Chunk>)
    requires |mem| >= N
    decreases |cs|
  {
    if cs == [] then b <= N && forall k :: b <= k < N ==> mem[k] == VIRGIN
    else
      && b < N && base < 0x1_0000 && ProperSize(cs[0].size)
      && mem[b] == Pack(base, cs[0].size, cs[0].live)
      && Holds(mem, b + 1, base + cs[0].size, cs[1..])
  }

  lemma {:induction false} RepresentsHolds(mem: seq<Word>, cs: seq<Chunk>, b: nat)
    requires Represents(mem, cs) && b <= |cs|
    ensures Holds(mem, b, Offset(cs, b), cs[b..])
    decreases |cs| - b
  {
    if b < |cs| {
      RepresentsHolds(mem, cs, b + 1);
      assert cs[b..][1..] == cs[b + 1..];
      assert mem[b] == Entry(cs, b) && ProperSize(cs[b].size);
    }
  }

  lemma {:induction false} HoldsAt(mem: seq<Word>, b: nat, base: nat, cs: seq<Chunk>, i: nat)
    requires |mem| >= N && Holds(mem, b, base, cs) && i < |cs|
    ensures b + i < N && base + Offset(cs, i) < 0x1_0000 && ProperSize(cs[i].size)
    ensures mem[b + i] == Pack(base + Offset(cs, i), cs[i].size, cs[i].live)
    decreases i
  {
    if i > 0 {
      HoldsAt(mem, b + 1, base + cs[0].size, cs[1..], i - 1);
      OffsetSplit(cs, 1, i - 1);
      assert Offset(cs, 1) == Offset(cs, 0) + cs[0].size;
    }
  }

  lemma {:induction false} HoldsRest(mem: seq<Word>, b: nat, base: nat, cs: seq<Chunk>, r: nat)
    requires |mem| >= N && Holds(mem, b, base, cs) && r <= |cs|
    ensures b + |cs| <= N
    ensures Holds(mem, b + r, base + Offset(cs, r), cs[r..])
    ensures forall k :: b + |cs| <= k < N ==> mem[k] == VIRGIN
    decreases |cs|
  {
    if cs == [] {
    } else if r == 0 {
      HoldsRest(mem, b + 1, base + cs[0].size, cs[1..], 0);
      assert cs[0..] == cs;
    } else {
      HoldsRest(mem, b + 1, base + cs[0].size, cs[1..], r - 1);
      OffsetSplit(cs, 1, r - 1);
      assert Offset(cs, 1) == Offset(cs, 0) + cs[0].size;
      assert cs[1..][r - 1..] == cs[r..];
    }
  }

  lemma HoldsRepresents(mem: seq<Word>, cs: seq<Chunk>)
    requires |mem| >= N && Holds(mem, 0, 0, cs)
    ensures Represents(mem, cs)
  {
    HoldsRest(mem, 0, 0, cs, 0);
    forall i | 0 <= i < |cs|
      ensures ProperSize(cs[i].size) && Offset(cs, i) < 0x1_0000 && mem[i] == Entry(cs, i)
    {
      HoldsAt(mem, 0, 0, cs, i);
    }
  }

  /** Holds only looks at the slots from b on. */
  lemma {:induction false} HoldsFrame(m1: seq<Word>, m2: seq<Word>, b: nat, base: nat, cs: seq<Chunk>,
                                      shift: nat, limit: nat)
    requires |m1| >= N && |m2| >= N && Holds(m1, b + shift, base, cs)
    requires b + |cs| <= limit <= N && limit + shift <= |m1|
    requires forall k :: N <= k < limit + shift ==> m1[k] == VIRGIN
    requires forall k :: b <= k < limit ==> m2[k] == m1[k + shift]
    requires forall k :: limit <= k < N ==> m2[k] == VIRGIN
    ensures Holds(m2, b, base, cs)
    decreases |cs|
  {
    if cs == [] {
      forall k | b <= k < N ensures m2[k] == VIRGIN {
      }
    } else {
      HoldsFrame(m1, m2, b + 1, base + cs[0].size, cs[1..], shift, limit);
    }
  }

  // ---------- one merge ----------

  lemma {:induction false} SizeSumIsOffset(mem: seq<Word>, b: nat, base: nat, cs: seq<Chunk>, r: nat)
    requires |mem| >= N && Holds(mem, b, base, cs) && r <= |cs| && b + r <= N
    ensures SizeSum(mem, b, b + r) == Offset(cs, r)
  {
    if r > 0 {
      SizeSumIsOffset(mem, b, base, cs, r - 1);
      HoldsAt(mem, b, base, cs, r - 1);
      PackFields(base + Offset(cs, r - 1), cs[r - 1].size, cs[r - 1].live);
    }
  }

  /** All that the scan looks at in a used slot. */
  predicate FlagAt(w: Word, c: Chunk) { w != VIRGIN && IsOccupied(w) == c.live }

  /** The slots from b on are these chunks, as far as the scan looks at them. */
  predicate Flags(mem: seq<Word>, b: nat, cs: seq<Chunk>)
    requires b + |cs| <= |mem|
  {
    forall i {:trigger cs[i]} :: 0 <= i < |cs| ==> FlagAt(mem[b + i], cs[i])
  }

  lemma HoldsFlags(mem: seq<Word>, b: nat, base: nat, cs: seq<Chunk>)
    requires |mem| >= N && Holds(mem, b, base, cs)
    ensures b + |cs| <= N && Flags(mem, b, cs)
    ensures forall k :: b + |cs| <= k < N ==> mem[k] == VIRGIN
  {
    hide Pack, Holds, IsOccupied, OffsetOf, SizeOf;
    HoldsRest(mem, b, base, cs, 0);
    VirginFields();
    forall i {:trigger cs[i]} | 0 <= i < |cs| ensures FlagAt(mem[b + i], cs[i]) {
      HoldsAt(mem, b, base, cs, i);
      PackFields(base + Offset(cs, i), cs[i].size, cs[i].live);
    }
  }

  lemma RunEnds(mem: seq<Word>, n: nat, b: nat, cs: seq<Chunk>, r: nat, e: nat)
    requires b + 1 <= e <= n <= |mem| && r <= |cs| && 1 <= r && b + |cs| <= n && Flags(mem, b, cs)
    requires (forall i :: 0 <= i < r ==> !cs[i].live) && (r < |cs| ==> cs[r].live)
    requires forall k :: b + 1 <= k < e ==> !IsOccupied(mem[k])
    requires e < n ==> IsOccupied(mem[e])
    requires forall k :: b + |cs| <= k < n ==> !IsOccupied(mem[k])
    ensures e == if r < |cs| then b + r else n
  {
    hide IsOccupied;
    assert e < b + |cs| ==> FlagAt(mem[b + (e - b)], cs[e - b]);
    assert r < |cs| ==> FlagAt(mem[b + r], cs[r]);
  }

  /** Where the scan for more free slots stops. */
  lemma ScanEndIsRun(mem: seq<Word>, n: nat, b: nat, base: nat, cs: seq<Chunk>)
    requires Room(mem, n) && b < n && Holds(mem, b, base, cs) && b + |cs| <= n
    requires cs != [] && !cs[0].live
    ensures ScanEnd(mem, n, b + 1) == if FreeRun(cs) < |cs| then b + FreeRun(cs) else n
  {
    hide Pack, Holds, IsOccupied, FlagAt, Flags, ScanEnd;
    HoldsFlags(mem, b, base, cs);
    VirginFields();
    assert FreeRun(cs) >= 1;
    hide FreeRun;
    RunEnds(mem, n, b, cs, FreeRun(cs), ScanEnd(mem, n, b + 1));
  }

  // ---------- a safe scan computes the coalesced table ----------

  /** Merging a run whose size fits, with everything behind it kept. The shift reads only
      virgin words. */
  lemma MergeHolds(mem: seq<Word>, n: nat, b: nat, base: nat, cs: seq<Chunk>, r: nat)
    requires Room(mem, n) && Holds(mem, b, base, cs) && b + |cs| <= n
    requires 2 <= r <= |cs| && Offset(cs, r) < 0x8000
    requires forall k :: N <= k < n + r - 1 ==> mem[k] == VIRGIN
    ensures b + r <= n && SizeOf(Merged(mem, n, b, b + r)[b]) == Offset(cs, r)
    ensures Merged(mem, n, b, b + r)[b] == Pack(base, Offset(cs, r), false) && base < 0x1_0000
    ensures ProperSize(Offset(cs, r))
    ensures Holds(Merged(mem, n, b, b + r), b + 1, base + Offset(cs, r), cs[r..])
  {
    hide Pack, SizeOf, OffsetOf, IsOccupied, Rewrite, Merged;
    var m := Merged(mem, n, b, b + r);
    HoldsRest(mem, b, base, cs, r);
    SizeSumIsOffset(mem, b, base, cs, r);
    RewriteFields(mem[b], Offset(cs, r), 0);
    PackFields(base, cs[0].size, cs[0].live);
    PackFields(base, Offset(cs, r), false);
    SizesProper(mem, b, base, cs);
    OffsetAligned(cs, r);
    OffsetMonotone(cs, 1, r);
    assert Offset(cs, 1) == Offset(cs, 0) + cs[0].size;
    HoldsFrame(mem, m, b + 1, base + Offset(cs, r), cs[r..], r - 1, n);
  }

  lemma {:induction false} SizesProper(mem: seq<Word>, b: nat, base: nat, cs: seq<Chunk>)
    requires |mem| >= N && Holds(mem, b, base, cs)
    ensures forall i :: 0 <= i < |cs| ==> ProperSize(cs[i].size)
    decreases |cs|
  {
    if cs != [] {
      SizesProper(mem, b + 1, base + cs[0].size, cs[1..]);
      forall i | 0 <= i < |cs| ensures ProperSize(cs[i].size) {
        assert i > 0 ==> cs[i] == cs[1..][i - 1];
      }
    }
  }

  lemma StepFrame(mem: seq<Word>, n: nat, b: nat, k: nat)
    requires Room(mem, n) && b + 1 < n && k < |mem| && (k < b || n <= k)
    ensures ScanStep(mem, n, b)[k] == mem[k]
  {
    hide IsOccupied, ScanEnd, Merged;
  }

  lemma {:induction false} ScanFrame(mem: seq<Word>, n: nat, b: nat, k: nat)
    requires Room(mem, n) && k < |mem| && (k < b || n <= k)
    ensures ScanFrom(mem, n, b)[k] == mem[k]
    decreases n - b
  {
    hide ScanStep;
    if b + 1 < n {
      StepFrame(mem, n, b, k);
      ScanFrame(ScanStep(mem, n, b), n, b + 1, k);
    }
  }

  /** Where the scan at slot b ends: at the first live chunk, or at the stale bound. */
  function StepEnd(n: nat, b: nat, cs: seq<Chunk>): nat
    requires cs != []
  {
    if cs[0].live then b + 1 else if FreeRun(cs) < |cs| then b + FreeRun(cs) else n
  }

  lemma HoldsHead(mem: seq<Word>, b: nat, base: nat, cs: seq<Chunk>)
    requires |mem| >= N && Holds(mem, b, base, cs) && cs != []
    ensures b < N && mem[b] != VIRGIN && IsOccupied(mem[b]) == cs[0].live
    ensures base < 0x1_0000 && ProperSize(cs[0].size)
    ensures mem[b] == Pack(base, cs[0].size, cs[0].live)
  {
    hide Pack, IsOccupied, SizeOf, OffsetOf;
    PackFields(base, cs[0].size, cs[0].live);
    VirginFields();
  }

  /** The scan, one slot at a time. */
  lemma ScanStepCases(mem: seq<Word>, n: nat, b: nat)
    requires Room(mem, n) && b < n
    ensures b + 1 == n ==> ScanFrom(mem, n, b) == mem
    ensures b + 1 < n ==> ScanFrom(mem, n, b) == ScanFrom(ScanStep(mem, n, b), n, b + 1)
    ensures b + 1 < n && !IsOccupied(mem[b]) && mem[b] != VIRGIN && ScanEnd(mem, n, b + 1) > b + 1
      ==> ScanStep(mem, n, b) == Merged(mem, n, b, ScanEnd(mem, n, b + 1))
    ensures b + 1 < n && (IsOccupied(mem[b]) || mem[b] == VIRGIN || ScanEnd(mem, n, b + 1) == b + 1)
      ==> ScanStep(mem, n, b) == mem
  {
    hide IsOccupied, Merged;
  }

  lemma StepAt(mem: seq<Word>, n: nat, b: nat, base: nat, cs: seq<Chunk>)
    requires Room(mem, n) && Holds(mem, b, base, cs) && b + |cs| <= n && b + 1 < n && cs != []
    ensures b + 1 <= StepEnd(n, b, cs) <= n
    ensures StepEnd(n, b, cs) > b + 1 ==> ScanStep(mem, n, b) == Merged(mem, n, b, StepEnd(n, b, cs))
    ensures StepEnd(n, b, cs) == b + 1 ==> ScanStep(mem, n, b) == mem
  {
    hide Pack, IsOccupied, Merged, Holds, ScanEnd, ScanStep, ScanFrom;
    HoldsHead(mem, b, base, cs);
    ScanStepCases(mem, n, b);
    if !cs[0].live {
      ScanEndIsRun(mem, n, b, base, cs);
    }
  }

  lemma SafeRest(cs: seq<Chunk>, stale: bool)
    requires cs != []
    ensures ScanSafe(cs, stale) <==>
      ((HeadRun(cs) >= 2 ==> Offset(cs, HeadRun(cs)) < 0x8000)
      && (!cs[0].live && HeadRun(cs) == |cs| ==> !stale)
      && ScanSafe(cs[HeadRun(cs)..], stale || HeadRun(cs) >= 2))
  {
  }

  lemma OverreadRest(cs: seq<Chunk>, n: nat)
    requires cs != []
    ensures Overread(cs[HeadRun(cs)..], n) <= Overread(cs, n)
    ensures HeadRun(cs) >= 2 ==> n + HeadRun(cs) - 1 <= N + Overread(cs, n)
    ensures Overread(cs, n) == Overread(cs[HeadRun(cs)..], n)
      || (HeadRun(cs) >= 2 && N + Overread(cs, n) == n + HeadRun(cs) - 1)
  {
  }

  /** One safe step of the scan. */
  lemma StepHolds(mem: seq<Word>, n: nat, b: nat, base: nat, cs: seq<Chunk>)
    requires Room(mem, n) && Holds(mem, b, base, cs) && b + |cs| <= n && b + 1 < n && cs != []
    requires HeadRun(cs) >= 2 ==> Offset(cs, HeadRun(cs)) < 0x8000
    requires HeadRun(cs) >= 2 ==> forall k :: N <= k < n + HeadRun(cs) - 1 ==> mem[k] == VIRGIN
    requires !cs[0].live && HeadRun(cs) == |cs| ==> b + |cs| == n
    ensures base < 0x1_0000 && ProperSize(HeadChunk(cs).size)
    ensures ScanStep(mem, n, b)[b] == Pack(base, HeadChunk(cs).size, HeadChunk(cs).live)
    ensures Holds(ScanStep(mem, n, b), b + 1, base + HeadChunk(cs).size, cs[HeadRun(cs)..])
  {
    hide Pack, IsOccupied, SizeOf, Merged, Holds, ScanStep, ProperSize;
    HoldsHead(mem, b, base, cs);
    StepAt(mem, n, b, base, cs);
    if HeadRun(cs) >= 2 {
      MergeHolds(mem, n, b, base, cs, HeadRun(cs));
    } else {
      HoldsRest(mem, b, base, cs, 1);
      assert Offset(cs, 1) == Offset(cs, 0) + cs[0].size;
    }
  }

  lemma HoldsCons(mem: seq<Word>, b: nat, base: nat, c: Chunk, ds: seq<Chunk>)
    requires |mem| >= N
    ensures Holds(mem, b, base, [c] + ds) <==>
      (b < N && base < 0x1_0000 && ProperSize(c.size) && mem[b] == Pack(base, c.size, c.live)
      && Holds(mem, b + 1, base + c.size, ds))
  {
    assert ([c] + ds)[1..] == ds;
  }

  /** A safe scan turns the chunks from slot b on into their coalesced form. Words that its
      shifts read behind the table do no harm if they are virgin. */
  lemma {:induction false} ScanHolds(mem: seq<Word>, n: nat, b: nat, base: nat, cs: seq<Chunk>)
    requires Room(mem, n) && Holds(mem, b, base, cs) && b + |cs| <= n
    requires ScanSafe(cs, b + |cs| < n)
    requires forall k :: N <= k < N + Overread(cs, n) ==> mem[k] == VIRGIN
    ensures Holds(ScanFrom(mem, n, b), b, base, Coalesce(cs))
    decreases |cs|
  {
    hide Pack, Holds, ScanStep, ScanSafe, Overread, HeadRun, HeadChunk;
    if cs == [] {
      HoldsRest(mem, b, base, cs, 0);
      ScanOverVirgin(mem, n, b);
    } else if b + 1 < n {
      SafeRest(cs, b + |cs| < n);
      OverreadRest(cs, n);
      StepHolds(mem, n, b, base, cs);
      var m, head, rest := ScanStep(mem, n, b), HeadChunk(cs), cs[HeadRun(cs)..];
      forall k | N <= k < 2 * N ensures m[k] == mem[k] { StepFrame(mem, n, b, k); }
      ScanHolds(m, n, b + 1, base + head.size, rest);
      ScanFrame(m, n, b + 1, b);
      HoldsCons(ScanFrom(m, n, b + 1), b, base, head, Coalesce(rest));
    } else {
      SingleChunk(cs);
    }
  }

  lemma SingleChunk(cs: seq<Chunk>)
    requires |cs| == 1
    ensures Coalesce(cs) == cs
  {
    assert Offset(cs, 1) == Offset(cs, 0) + cs[0].size;
  }

  lemma {:induction false} ScanOverVirgin(mem: seq<Word>, n: nat, b: nat)
    requires Room(mem, n) && b <= N && forall k :: b <= k < N ==> mem[k] == VIRGIN
    ensures ScanFrom(mem, n, b) == mem
    decreases n - b
  {
    if b + 1 < n {
      ScanOverVirgin(mem, n, b + 1);
    }
  }

  // ---------- an unsafe scan does not ----------

  /** The number of occupied words in lo..hi-1. */
  function Occupied(mem: seq<Word>, lo: nat, hi: nat): nat
    requires lo <= hi <= |mem|
  {
    if lo == hi then 0 else Occupied(mem, lo, hi - 1) + if IsOccupied(mem[hi - 1]) then 1 else 0
  }

  lemma {:induction false} OccupiedSplit(mem: seq<Word>, lo: nat, mid: nat, hi: nat)
    requires lo <= mid <= hi <= |mem|
    ensures Occupied(mem, lo, hi) == Occupied(mem, lo, mid) + Occupied(mem, mid, hi)
    decreases hi
  {
    hide IsOccupied;
    if mid < hi {
      OccupiedSplit(mem, lo, mid, hi - 1);
    }
  }

  lemma {:induction false} OccupiedShift(m1: seq<Word>, m2: seq<Word>, lo: nat, hi: nat, shift: nat)
    requires lo <= hi <= |m2| && hi + shift <= |m1|
    requires forall k {:trigger m2[k]} :: lo <= k < hi ==> m2[k] == m1[k + shift]
    ensures Occupied(m2, lo, hi) == Occupied(m1, lo + shift, hi + shift)
    decreases hi
  {
    hide IsOccupied;
    if lo < hi {
      OccupiedShift(m1, m2, lo, hi - 1, shift);
      assert m2[hi - 1] == m1[hi - 1 + shift];
    }
  }

  lemma {:induction false} NoneOccupied(mem: seq<Word>, lo: nat, hi: nat)
    requires lo <= hi <= |mem|
    ensures Occupied(mem, lo, hi) == 0 <==> forall k :: lo <= k < hi ==> !IsOccupied(mem[k])
    decreases hi
  {
    hide IsOccupied;
    if lo < hi {
      NoneOccupied(mem, lo, hi - 1);
    }
  }

  /** A merge loses no occupied word, and gains those that its shift reads behind the bound. */
  lemma MergeGains(mem: seq<Word>, n: nat, b: nat, e: nat)
    requires Room(mem, n) && b < e <= n && forall k :: b <= k < e ==> !IsOccupied(mem[k])
    ensures Occupied(Merged(mem, n, b, e), 0, N) >= Occupied(mem, 0, N) + Occupied(mem, n, n + (e - b - 1))
  {
    hide IsOccupied, Merged, Occupied;
    var m, shift := Merged(mem, n, b, e), e - b - 1;
    OccupiedSplit(mem, 0, b, N);
    OccupiedSplit(mem, b, e, N);
    NoneOccupied(mem, b, e);
    OccupiedSplit(mem, e, n, N);
    OccupiedSplit(mem, e, n, n + shift);
    OccupiedSplit(m, 0, b, N);
    OccupiedSplit(m, b, b + 1, N);
    OccupiedSplit(m, b + 1, n, N);
    OccupiedShift(mem, m, 0, b, 0);
    OccupiedShift(mem, m, b + 1, n, shift);
    OccupiedShift(mem, m, n, N, 0);
  }

  lemma StepGains(mem: seq<Word>, n: nat, b: nat)
    requires Room(mem, n) && b + 1 < n
    ensures Occupied(ScanStep(mem, n, b), 0, N) >= Occupied(mem, 0, N)
  {
    hide IsOccupied, Merged, Occupied;
    if !IsOccupied(mem[b]) && mem[b] != VIRGIN {
      var e := ScanEnd(mem, n, b + 1);
      if e > b + 1 {
        MergeGains(mem, n, b, e);
      }
    }
  }

  /** Occupied words move, but the scan never removes one. */
  lemma {:induction false} ScanGains(mem: seq<Word>, n: nat, b: nat)
    requires Room(mem, n)
    ensures Occupied(ScanFrom(mem, n, b), 0, N) >= Occupied(mem, 0, N)
    decreases n - b
  {
    hide Occupied, ScanStep;
    if b + 1 < n {
      StepGains(mem, n, b);
      ScanGains(ScanStep(mem, n, b), n, b + 1);
    }
  }

  lemma {:induction false} HoldsOccupied(mem: seq<Word>, b: nat, base: nat, cs: seq<Chunk>)
    requires |mem| >= N && Holds(mem, b, base, cs)
    ensures b <= N && Occupied(mem, b, N) == |Blocks(cs, base)|
    decreases |cs|
  {
    hide IsOccupied, Pack, Occupied;
    if cs == [] {
      VirginFields();
      NoneOccupied(mem, b, N);
    } else {
      HoldsHead(mem, b, base, cs);
      HoldsOccupied(mem, b + 1, base + cs[0].size, cs[1..]);
      OccupiedSplit(mem, b, b + 1, N);
      NoneOccupied(mem, b, b + 1);
      OneOccupied(mem, b);
    }
  }

  lemma OneOccupied(mem: seq<Word>, k: nat)
    requires k < |mem|
    ensures Occupied(mem, k, k + 1) == if IsOccupied(mem[k]) then 1 else 0
  {
    hide IsOccupied;
    assert Occupied(mem, k, k) == 0;
  }

  /** A merge whose shift reads an occupied word behind the table: from then on there is one
      occupied word too many. */
  lemma OverreadBreaks(mem: seq<Word>, n: nat, b: nat, base: nat, cs: seq<Chunk>, k: nat)
    requires Room(mem, n) && Holds(mem, b, base, cs) && b + |cs| <= n && b + 1 < n && cs != []
    requires HeadRun(cs) >= 2 && N <= k < n + HeadRun(cs) - 1 && IsOccupied(mem[k])
    ensures !Holds(ScanFrom(mem, n, b), b, base, Coalesce(cs))
  {
    hide Pack, IsOccupied, Holds, Merged, ScanStep, Coalesce, Occupied, Blocks;
    var m, after, e := ScanStep(mem, n, b), ScanFrom(mem, n, b), StepEnd(n, b, cs);
    StepAt(mem, n, b, base, cs);
    ScannedAreFree(mem, n, b, base, cs);
    MergeGains(mem, n, b, e);
    NoneOccupied(mem, n, n + (e - b - 1));
    ScanGains(m, n, b + 1);
    HoldsOccupied(mem, b, base, cs);
    OccupiedSplit(mem, 0, b, N);
    OccupiedSplit(after, 0, b, N);
    forall i | 0 <= i < b ensures after[i] == mem[i] { ScanFrame(mem, n, b, i); }
    OccupiedShift(mem, after, 0, b, 0);
    CoalesceKeepsBlocks(cs, base);
    if Holds(after, b, base, Coalesce(cs)) {
      HoldsOccupied(after, b, base, Coalesce(cs));
    }
  }

  lemma ScannedAreFree(mem: seq<Word>, n: nat, b: nat, base: nat, cs: seq<Chunk>)
    requires Room(mem, n) && b < n && Holds(mem, b, base, cs) && b + |cs| <= n
    requires cs != [] && !cs[0].live
    ensures forall k :: b <= k < StepEnd(n, b, cs) ==> !IsOccupied(mem[k])
  {
    hide IsOccupied, Pack;
    HoldsHead(mem, b, base, cs);
    ScanEndIsRun(mem, n, b, base, cs);
  }

  /** A foreign word that the scan cannot get rid of: it is occupied, or it has an offset, or its
      size and those of the words behind it never add up to the size of a virgin slot. */
  predicate Lasting(mem: seq<Word>, p: nat)
    requires p < 2 * N <= |mem|
  {
    || IsOccupied(mem[p])
    || OffsetOf(mem[p]) > 0
    || (SizeOf(mem[p]) > 0 && forall j :: p < j <= 2 * N ==> SizeSum(mem, p, j) != 0x7FFF)
  }

  /** The first foreign word, at p, can be found in slot k, with the virgin slots before it that
      were read with it, and behind it the words that follow it, up to a virgin slot. */
  ghost predicate CopyAt(mem: seq<Word>, n: nat, k: int, p: nat)
    requires Room(mem, n) && N <= p < 2 * N
  {
    && p - n <= k < n
    && mem[k] == mem[p]
    && (forall i :: k - (p - n) <= i < k ==> mem[i] == VIRGIN)
    && (forall i {:trigger VirginBetween(mem, k, i)} :: k < i < n ==>
          VirginBetween(mem, k, i) || mem[i] == mem[i + (p - k)])
  }

  ghost predicate VirginBetween(mem: seq<Word>, k: int, i: int)
    requires 0 <= k <= i < |mem|
  {
    exists j :: k < j <= i && mem[j] == VIRGIN
  }

  /** What does not change during the scan. */
  ghost predicate ForeignAt(mem: seq<Word>, n: nat, p: nat) {
    && Room(mem, n) && N <= p < 2 * N
    && (forall i :: n <= i < p ==> mem[i] == VIRGIN)
    && mem[p] != VIRGIN && !IsOccupied(mem[p]) && Lasting(mem, p)
  }

  /** A shift that reads the foreign word puts a copy of it into the table. */
  lemma Reread(mem: seq<Word>, n: nat, b: nat, e: nat, p: nat)
    requires ForeignAt(mem, n, p) && b < e <= n && e - b - 1 >= p - n + 1
    ensures CopyAt(Merged(mem, n, b, e), n, p - (e - b - 1), p)
  {
    hide IsOccupied, Merged, Lasting, MergedWord;
    var m, shift := Merged(mem, n, b, e), e - b - 1;
    var k := p - shift;
    assert m[k] == mem[k + shift];
    forall i | k - (p - n) <= i < k ensures m[i] == VIRGIN {
      assert m[i] == mem[i + shift];
    }
    forall i {:trigger VirginBetween(m, k, i)} | k < i < n ensures m[i] == m[i + (p - k)] {
      assert m[i] == mem[i + shift];
    }
  }

  /** A merge in front of a copy moves it. */
  lemma CopyMoves(mem: seq<Word>, n: nat, b: nat, e: nat, k: int, p: nat)
    requires ForeignAt(mem, n, p) && CopyAt(mem, n, k, p) && b < e <= k - (p - n)
    ensures CopyAt(Merged(mem, n, b, e), n, k - (e - b - 1), p)
  {
    hide IsOccupied, Merged, Lasting, MergedWord;
    var m, shift := Merged(mem, n, b, e), e - b - 1;
    var k' := k - shift;
    assert m[k'] == mem[k' + shift];
    forall i | k' - (p - n) <= i < k' ensures m[i] == VIRGIN {
      assert m[i] == mem[i + shift];
    }
    forall i {:trigger VirginBetween(m, k', i)} | k' < i < n
      ensures VirginBetween(m, k', i) || m[i] == m[i + (p - k')]
    {
      assert m[i] == mem[i + shift];
      if i + shift < n {
        if VirginBetween(mem, k, i + shift) {
          var j :| k < j <= i + shift && mem[j] == VIRGIN;
          assert m[j - shift] == mem[j - shift + shift] == VIRGIN;
        } else {
          assert mem[i + shift] == mem[i + shift + (p - k)];
        }
      } else {
        assert m[n - shift] == mem[n - shift + shift] == VIRGIN;
      }
    }
  }

  /** Where the step at slot b ends. */
  function StepTo(mem: seq<Word>, n: nat, b: nat): (e: nat)
    requires Room(mem, n) && b + 1 < n
    ensures b + 1 <= e <= n
  {
    if !IsOccupied(mem[b]) && mem[b] != VIRGIN then ScanEnd(mem, n, b + 1) else b + 1
  }

  lemma StepIs(mem: seq<Word>, n: nat, b: nat)
    requires Room(mem, n) && b + 1 < n
    ensures StepTo(mem, n, b) > b + 1 ==> ScanStep(mem, n, b) == Merged(mem, n, b, StepTo(mem, n, b))
    ensures StepTo(mem, n, b) == b + 1 ==> ScanStep(mem, n, b) == mem
    ensures b + 1 <= StepTo(mem, n, b) <= n
    ensures StepTo(mem, n, b) > b + 1 ==> !IsOccupied(mem[b]) && mem[b] != VIRGIN
    ensures b + 1 < StepTo(mem, n, b) < n ==> IsOccupied(mem[StepTo(mem, n, b)])
  {
    hide IsOccupied, Merged;
  }

  /** A copy of the first foreign word, as long as the scan does not change what is foreign. */
  ghost predicate Copied(mem: seq<Word>, n: nat, k: int, p: nat) {
    ForeignAt(mem, n, p) && CopyAt(mem, n, k, p)
  }

  /** One step of the scan in front of a copy: it moves, or the shift reads the foreign word again. */
  lemma CopyStep(mem: seq<Word>, n: nat, b: nat, k: int, p: nat) returns (k': int)
    requires Room(mem, n) && Copied(mem, n, k, p) && b < k && b + 1 < n
    ensures Copied(ScanStep(mem, n, b), n, k', p)
    ensures mem[b] != VIRGIN ==> k' - (p - n) >= b + 1
    ensures mem[b] == VIRGIN ==> k' == k
    ensures StepTo(mem, n, b) <= k ==> k' == k - (StepTo(mem, n, b) - b - 1)
  {
    hide IsOccupied, ScanStep, StepTo, Copied;
    if StepTo(mem, n, b) > k {
      k' := StepRereads(mem, n, b, k, p);
    } else {
      k' := StepMoves(mem, n, b, k, p);
    }
  }

  lemma StepRereads(mem: seq<Word>, n: nat, b: nat, k: int, p: nat) returns (k': int)
    requires Room(mem, n) && Copied(mem, n, k, p) && b < k && b + 1 < n && StepTo(mem, n, b) > k
    ensures Copied(ScanStep(mem, n, b), n, k', p)
    ensures mem[b] != VIRGIN && k' - (p - n) >= b + 1
  {
    hide IsOccupied, Merged, ScanStep, StepTo, ForeignAt, CopyAt;
    CopyParts(mem, n, k, p);
    StepIs(mem, n, b);
    ForeignStays(mem, n, b, p);
    k' := p - (StepTo(mem, n, b) - b - 1);
    Reread(mem, n, b, StepTo(mem, n, b), p);
  }

  lemma StepMoves(mem: seq<Word>, n: nat, b: nat, k: int, p: nat) returns (k': int)
    requires Room(mem, n) && Copied(mem, n, k, p) && b < k && b + 1 < n && StepTo(mem, n, b) <= k
    ensures Copied(ScanStep(mem, n, b), n, k', p)
    ensures mem[b] != VIRGIN ==> k' - (p - n) >= b + 1
    ensures mem[b] == VIRGIN ==> k' == k
    ensures k' == k - (StepTo(mem, n, b) - b - 1)
  {
    hide IsOccupied, Merged, ScanStep, StepTo, ForeignAt, CopyAt;
    CopyParts(mem, n, k, p);
    StepIs(mem, n, b);
    ForeignStays(mem, n, b, p);
    k' := k - (StepTo(mem, n, b) - b - 1);
    if StepTo(mem, n, b) > b + 1 {
      EndsBefore(mem, n, b, k, p);
      CopyMoves(mem, n, b, StepTo(mem, n, b), k, p);
    }
  }

  lemma EndsBefore(mem: seq<Word>, n: nat, b: nat, k: int, p: nat)
    requires Room(mem, n) && Copied(mem, n, k, p) && b + 1 < n
    requires b + 1 < StepTo(mem, n, b) <= k
    ensures StepTo(mem, n, b) <= k - (p - n)
  {
    hide IsOccupied, Merged, ScanStep, StepTo, Copied;
    VirginFields();
    CopyParts(mem, n, k, p);
    StepIs(mem, n, b);
    EndsAtOccupied(mem, StepTo(mem, n, b), k, k - (p - n));
  }

  lemma EndsAtOccupied(mem: seq<Word>, e: nat, k: nat, from: int)
    requires e <= k < |mem| && 0 <= from && IsOccupied(mem[e]) && !IsOccupied(mem[k]) && !IsOccupied(VIRGIN)
    requires forall i :: from <= i < k ==> mem[i] == VIRGIN
    ensures e <= from
  {
    hide IsOccupied;
  }

  lemma CopyParts(mem: seq<Word>, n: nat, k: int, p: nat)
    requires Copied(mem, n, k, p)
    ensures Room(mem, n) && n < N <= p < 2 * N && p - n <= k < n
    ensures mem[k] == mem[p] && mem[k] != VIRGIN && !IsOccupied(mem[k])
    ensures forall i :: k - (p - n) <= i < k ==> mem[i] == VIRGIN
  {
    hide IsOccupied, Lasting;
  }

  lemma ForeignStays(mem: seq<Word>, n: nat, b: nat, p: nat)
    requires ForeignAt(mem, n, p) && b + 1 < n
    ensures ForeignAt(ScanStep(mem, n, b), n, p)
  {
    hide IsOccupied, ScanStep, OffsetOf, SizeOf, SizeSum;
    var m := ScanStep(mem, n, b);
    forall k | n <= k < |mem| ensures m[k] == mem[k] { StepFrame(mem, n, b, k); }
    forall j | p < j <= 2 * N ensures SizeSum(m, p, j) == SizeSum(mem, p, j) { SizeSumSame(mem, m, p, j, p); }
  }

  lemma {:induction false} SizeSumSame(m1: seq<Word>, m2: seq<Word>, lo: nat, hi: nat, lo2: nat)
    requires lo <= hi <= |m1| && lo2 + (hi - lo) <= |m2|
    requires forall k {:trigger m1[k]} :: lo <= k < hi ==> m1[k] == m2[k - lo + lo2]
    ensures SizeSum(m1, lo, hi) == SizeSum(m2, lo2, lo2 + (hi - lo))
    decreases hi
  {
    hide SizeOf;
    if lo < hi {
      SizeSumSame(m1, m2, lo, hi - 1, lo2);
      assert m1[hi - 1] == m2[hi - 1 - lo + lo2];
    }
  }

  lemma {:induction false} SizeSumAtLeast(mem: seq<Word>, lo: nat, hi: nat, j: nat)
    requires lo < j < hi <= |mem|
    ensures SizeSum(mem, lo, hi) >= SizeOf(mem[lo]) + SizeOf(mem[j])
    decreases hi
  {
    hide SizeOf;
    if j < hi - 1 {
      SizeSumAtLeast(mem, lo, hi - 1, j);
    } else {
      SizeSumHead(mem, lo, j);
    }
  }

  lemma {:induction false} SizeSumHead(mem: seq<Word>, lo: nat, hi: nat)
    requires lo < hi <= |mem|
    ensures SizeSum(mem, lo, hi) >= SizeOf(mem[lo])
    decreases hi
  {
    hide SizeOf;
    if lo + 1 < hi {
      SizeSumHead(mem, lo, hi - 1);
    }
  }

  /** A merge at the copy itself does not make a virgin slot of it. */
  lemma CopyMerged(mem: seq<Word>, n: nat, k: nat, e: nat, p: nat)
    requires ForeignAt(mem, n, p) && CopyAt(mem, n, k, p) && k < e <= n
    ensures MergedWord(mem, k, e) != VIRGIN
  {
    hide IsOccupied, SizeOf, OffsetOf, SizeSum, Rewrite;
    var sum, w := SizeSum(mem, k, e), mem[k];
    RewriteFields(w, sum, 0);
    VirginFields();
    if Rewrite(w, sum, 0) == VIRGIN {
      assert OffsetOf(w) == 0 && SizeOf(w) > 0;
      VirginSum(w, sum);
      if j :| k < j < e && mem[j] == VIRGIN {
        SizeSumAtLeast(mem, k, e, j);
      } else {
        forall i {:trigger mem[i]} | k <= i < e ensures mem[i] == mem[i - k + p] {
          assert i > k ==> !VirginBetween(mem, k, i);
        }
        SizeSumSame(mem, mem, k, e, p);
      }
    }
  }

  lemma VirginSum(w: Word, sum: nat)
    requires sum < 0x80_0000 && OffsetOf(w) == 0 && Rewrite(w, sum, 0) == VIRGIN
    ensures sum == 0x7FFF
  {
    hide And, Or, Rewrite;
    Shift16(w);
    RewriteSum(w, sum, 0);
    OrZero(2 * sum / 0x1_0000);
  }

  lemma OrZero(a: nat)
    ensures Or(0, a) == a
  {
  }

  /** A step over chunks ends where their first run does, or behind all of them. */
  lemma FlagsStep(mem: seq<Word>, n: nat, b: nat, cs: seq<Chunk>)
    requires Room(mem, n) && b + 1 < n && cs != [] && b + |cs| <= n && Flags(mem, b, cs)
    ensures var r, e := HeadRun(cs), StepTo(mem, n, b);
      (r < |cs| ==> e == b + r) && (r == |cs| ==> e >= b + r)
    ensures b + 1 + |cs[HeadRun(cs)..]| <= n && Flags(ScanStep(mem, n, b), b + 1, cs[HeadRun(cs)..])
  {
    hide IsOccupied, Merged, ScanStep;
    var r, e := HeadRun(cs), StepTo(mem, n, b);
    StepIs(mem, n, b);
    assert FlagAt(mem[b + 0], cs[0]);
    assert e < b + |cs| ==> FlagAt(mem[b + (e - b)], cs[e - b]);
    assert r < |cs| ==> FlagAt(mem[b + r], cs[r]);
    MovedFlags(mem, ScanStep(mem, n, b), b + r, b + 1, cs[r..], cs, r, b);
  }

  lemma MovedFlags(mem: seq<Word>, m: seq<Word>, from: nat, to: nat, rest: seq<Chunk>, cs: seq<Chunk>, r: nat, b: nat)
    requires r <= |cs| && rest == cs[r..] && from == b + r
    requires b + |cs| <= |mem| && to + |rest| <= |m| && Flags(mem, b, cs)
    requires forall i {:trigger m[to + i]} :: 0 <= i < |rest| ==> m[to + i] == mem[from + i]
    ensures Flags(m, to, rest)
  {
    hide FlagAt;
    forall i {:trigger rest[i]} | 0 <= i < |rest| ensures FlagAt(m[to + i], rest[i]) {
      assert rest[i] == cs[r + i];
      assert FlagAt(mem[b + (r + i)], cs[r + i]);
      assert m[to + i] == mem[from + i];
    }
  }

  /** A copy behind the chunks leaves a word that is not virgin behind their coalesced form. */
  lemma {:induction false} CopyStays(mem: seq<Word>, n: nat, b: nat, cs: seq<Chunk>, k: int, p: nat) returns (k': int)
    requires Room(mem, n) && Copied(mem, n, k, p)
    requires b + |cs| <= k < n && Flags(mem, b, cs) && (cs != [] ==> b + |cs| <= k - (p - n))
    ensures b + |Coalesce(cs)| <= k' < n && ScanFrom(mem, n, b)[k'] != VIRGIN
    decreases n - b
  {
    hide IsOccupied, ScanStep, Copied, StepTo, HeadRun, Flags;
    CopyParts(mem, n, k, p);
    k' := k;
    if b + 1 < n {
      var m := ScanStep(mem, n, b);
      if cs != [] {
        var rest := cs[HeadRun(cs)..];
        FlagsStep(mem, n, b, cs);
        FlagsHead(mem, b, cs);
        k' := CopyStep(mem, n, b, k, p);
        CopyParts(m, n, k', p);
        k' := CopyStays(m, n, b + 1, rest, k', p);
      } else if b < k {
        NoFlags(m, b + 1);
        k' := CopyStep(mem, n, b, k, p);
        CopyParts(m, n, k', p);
        k' := CopyStays(m, n, b + 1, [], k', p);
      } else {
        StepOnCopy(mem, n, k, p);
        ScanFrame(m, n, b + 1, b);
      }
    }
  }

  lemma NoFlags(mem: seq<Word>, b: nat)
    requires b <= |mem|
    ensures Flags(mem, b, [])
  {
  }

  lemma FlagsHead(mem: seq<Word>, b: nat, cs: seq<Chunk>)
    requires b + |cs| <= |mem| && Flags(mem, b, cs) && cs != []
    ensures mem[b] != VIRGIN
  {
    hide IsOccupied;
    assert FlagAt(mem[b + 0], cs[0]);
  }

  lemma StepOnCopy(mem: seq<Word>, n: nat, k: nat, p: nat)
    requires Room(mem, n) && Copied(mem, n, k, p) && k + 1 < n
    ensures ScanStep(mem, n, k)[k] != VIRGIN
  {
    hide IsOccupied, ScanStep, Merged, CopyAt, ForeignAt;
    CopyParts(mem, n, k, p);
    StepIs(mem, n, k);
    CopyMerged(mem, n, k, StepTo(mem, n, k), p);
  }

  lemma {:induction false} SizeSumVirgin(mem: seq<Word>, b: nat, m: nat, n: nat)
    requires b <= m <= n <= |mem| && forall k :: m <= k < n ==> mem[k] == VIRGIN
    ensures SizeSum(mem, b, n) == SizeSum(mem, b, m) + 0x7FFF * (n - m)
    decreases n - m
  {
    hide SizeOf, IsOccupied, OffsetOf;
    VirginFields();
    if m < n {
      SizeSumVirgin(mem, b, m, n - 1);
    }
  }

  /** What the scan makes of slot b: everything up to the stale bound. */
  lemma StaleMerge(mem: seq<Word>, n: nat, b: nat, base: nat, cs: seq<Chunk>)
    requires Room(mem, n) && Holds(mem, b, base, cs) && b + |cs| < n && cs != []
    requires FreeRun(cs) == |cs|
    ensures SizeSum(mem, b, n) == Offset(cs, |cs|) + 0x7FFF * (n - b - |cs|)
    ensures ScanFrom(mem, n, b)[b] == MergedWord(mem, b, n)
  {
    hide Pack, Holds, IsOccupied, SizeOf, OffsetOf, ScanStep, ScanFrom, ScanEnd, SizeSum, Merged, MergedWord, Offset;
    HoldsRest(mem, b, base, cs, 0);
    ScanStepCases(mem, n, b);
    StepAt(mem, n, b, base, cs);
    SizeSumIsOffset(mem, b, base, cs, |cs|);
    SizeSumVirgin(mem, b, b + |cs|, n);
    ScanFrame(ScanStep(mem, n, b), n, b + 1, b);
  }

  lemma CoalescedRun(cs: seq<Chunk>)
    requires cs != [] && FreeRun(cs) == |cs|
    ensures Coalesce(cs) != [] && Coalesce(cs)[0] == Chunk(false, Offset(cs, |cs|))
  {
    hide Offset;
  }

  /** A free run at the end, scanned with a stale bound, swallows virgin slots. */
  lemma StaleBoundBreaks(mem: seq<Word>, n: nat, b: nat, base: nat, cs: seq<Chunk>)
    requires Room(mem, n) && Holds(mem, b, base, cs) && b + |cs| < n && cs != []
    requires FreeRun(cs) == |cs|
    ensures !Holds(ScanFrom(mem, n, b), b, base, Coalesce(cs))
  {
    hide Pack, Holds, IsOccupied, SizeOf, OffsetOf, Rewrite, ScanFrom, SizeSum, Offset, FreeRun, Coalesce;
    var sum, res := SizeSum(mem, b, n), ScanFrom(mem, n, b);
    StaleMerge(mem, n, b, base, cs);
    RewriteFields(mem[b], sum, 0);
    VirginsShow(Offset(cs, |cs|), n - b - |cs|);
    CoalescedRun(cs);
    if Holds(res, b, base, Coalesce(cs)) {
      HeldSize(res, b, base, Coalesce(cs));
    }
  }

  lemma HeldSize(mem: seq<Word>, b: nat, base: nat, cs: seq<Chunk>)
    requires |mem| >= N && Holds(mem, b, base, cs) && cs != []
    ensures b < N && SizeOf(mem[b]) == cs[0].size < 0x8000
  {
    hide Pack, Holds, IsOccupied, SizeOf, OffsetOf;
    HoldsHead(mem, b, base, cs);
    PackFields(base, cs[0].size, cs[0].live);
  }

  /** Virgin slots in a sum change the size that is stored. */
  lemma VirginsShow(size: nat, m: nat)
    requires 1 <= m < 0x8000
    ensures (size + 0x7FFF * m) % 0x8000 != size % 0x8000
  {
    var q, p := (size + 0x7FFF * m) / 0x8000, size / 0x8000;
    assert size + 0x7FFF * m == 0x8000 * q + (size + 0x7FFF * m) % 0x8000;
    assert size == 0x8000 * p + size % 0x8000;
  }

  /** What lies behind the table decides the outcome: the first of the x words there that is not
      virgin, if there is one, is lasting. */
  ghost predicate Decided(mem: seq<Word>, x: nat)
    requires x < N && 2 * N <= |mem|
  {
    forall p :: N <= p < N + x && FirstForeign(mem, p) ==> Lasting(mem, p)
  }

  predicate FirstForeign(mem: seq<Word>, p: nat)
    requires N <= p < |mem|
  {
    mem[p] != VIRGIN && forall i :: N <= i < p ==> mem[i] == VIRGIN
  }

  lemma {:induction false} FindForeign(mem: seq<Word>, k: nat) returns (p: nat)
    requires N <= k < |mem| && mem[k] != VIRGIN
    ensures N <= p <= k && FirstForeign(mem, p)
    decreases k
  {
    p := k;
    if i :| N <= i < k && mem[i] != VIRGIN {
      p := FindForeign(mem, i);
    }
  }

  /** A merge whose shift reads the first foreign word copies it behind the remaining chunks. */
  lemma Pulled(mem: seq<Word>, n: nat, b: nat, cs: seq<Chunk>, p: nat) returns (k: int)
    requires ForeignAt(mem, n, p) && b + |cs| <= n && b + 1 < n && cs != [] && Flags(mem, b, cs)
    requires HeadRun(cs) >= 2 && p < n + HeadRun(cs) - 1
    ensures Copied(ScanStep(mem, n, b), n, k, p)
    ensures b + 1 + |cs[HeadRun(cs)..]| <= k - (p - n)
    ensures Flags(ScanStep(mem, n, b), b + 1, cs[HeadRun(cs)..])
  {
    hide IsOccupied, ScanStep, Lasting, HeadRun, CopyAt, Flags, StepTo;
    var e := StepTo(mem, n, b);
    FlagsStep(mem, n, b, cs);
    StepIs(mem, n, b);
    ForeignStays(mem, n, b, p);
    Reread(mem, n, b, e, p);
    k := p - (e - b - 1);
    BehindRun(n, b, cs, e, k, p);
  }

  /** A merge whose shift reads a lasting word behind the table breaks the table. */
  lemma ForeignBreaks(mem: seq<Word>, n: nat, b: nat, base: nat, cs: seq<Chunk>, p: nat)
    requires Room(mem, n) && Holds(mem, b, base, cs) && b + |cs| <= n && b + 1 < n && cs != []
    requires HeadRun(cs) >= 2 && N <= p < n + HeadRun(cs) - 1
    requires FirstForeign(mem, p) && Lasting(mem, p)
    ensures !Holds(ScanFrom(mem, n, b), b, base, Coalesce(cs))
  {
    hide Pack, IsOccupied, Holds, ScanStep, ScanFrom, Lasting, HeadRun, HeadChunk, Copied, Flags, Coalesce,
      FirstForeign;
    if IsOccupied(mem[p]) {
      OverreadBreaks(mem, n, b, base, cs, p);
    } else {
      HoldsFlags(mem, b, base, cs);
      FirstIsForeign(mem, n, b, cs, p);
      var k := ForeignLasts(mem, n, b, cs, p);
      var after, ds := ScanFrom(mem, n, b), Coalesce(cs);
      if Holds(after, b, base, ds) {
        HoldsRest(after, b, base, ds, 0);
      }
    }
  }

  lemma FirstIsForeign(mem: seq<Word>, n: nat, b: nat, cs: seq<Chunk>, p: nat)
    requires Room(mem, n) && b + |cs| <= n && N <= p < 2 * N && FirstForeign(mem, p) && Lasting(mem, p)
    requires !IsOccupied(mem[p]) && forall k :: b + |cs| <= k < N ==> mem[k] == VIRGIN
    ensures ForeignAt(mem, n, p)
  {
    hide IsOccupied, Lasting;
  }

  lemma ForeignLasts(mem: seq<Word>, n: nat, b: nat, cs: seq<Chunk>, p: nat) returns (k: int)
    requires ForeignAt(mem, n, p) && b + |cs| <= n && b + 1 < n && cs != [] && Flags(mem, b, cs)
    requires HeadRun(cs) >= 2 && p < n + HeadRun(cs) - 1
    ensures b + |Coalesce(cs)| <= k < n && ScanFrom(mem, n, b)[k] != VIRGIN
  {
    hide IsOccupied, ScanStep, ScanFrom, ForeignAt, HeadRun, HeadChunk, Copied, Flags;
    ForeignRoom(mem, n, p);
    ScanStepCases(mem, n, b);
    k := Pulled(mem, n, b, cs, p);
    CopyParts(ScanStep(mem, n, b), n, k, p);
    k := CopyStays(ScanStep(mem, n, b), n, b + 1, cs[HeadRun(cs)..], k, p);
    assert |Coalesce(cs)| == 1 + |Coalesce(cs[HeadRun(cs)..])|;
  }

  lemma ForeignRoom(mem: seq<Word>, n: nat, p: nat)
    requires ForeignAt(mem, n, p)
    ensures Room(mem, n) && N <= p < 2 * N
  {
    hide IsOccupied, Lasting;
  }

  /** The copy lies behind the chunks that follow the run. */
  lemma BehindRun(n: nat, b: nat, cs: seq<Chunk>, e: nat, k: int, p: nat)
    requires cs != [] && b + |cs| <= n < N <= p && e <= n && k == p - (e - b - 1)
    requires HeadRun(cs) < |cs| ==> e == b + HeadRun(cs)
    ensures b + 1 + |cs[HeadRun(cs)..]| <= k - (p - n)
  {
    hide HeadRun;
  }

  ghost predicate VirginBehind(mem: seq<Word>, x: nat)
    requires N + x <= |mem|
  {
    forall k :: N <= k < N + x ==> mem[k] == VIRGIN
  }

  lemma ShortScan(cs: seq<Chunk>, n: nat)
    requires |cs| <= 1
    ensures Overread(cs, n) == 0 && ScanSafe(cs, false) && (cs == [] ==> ScanSafe(cs, true))
  {
  }

  lemma SameForeign(mem: seq<Word>, m: seq<Word>, x: nat)
    requires x < N && |m| == |mem| >= 2 * N && Decided(mem, x)
    requires forall k :: N <= k < 2 * N ==> m[k] == mem[k]
    ensures Decided(m, x)
  {
    hide IsOccupied, OffsetOf, SizeOf, SizeSum;
    forall p | N <= p < N + x && FirstForeign(m, p) ensures Lasting(m, p) {
      assert FirstForeign(mem, p);
      forall j | p < j <= 2 * N ensures SizeSum(m, p, j) == SizeSum(mem, p, j) { SizeSumSame(mem, m, p, j, p); }
    }
  }

  lemma {:induction false} ScanBroken(mem: seq<Word>, n: nat, b: nat, base: nat, cs: seq<Chunk>)
    requires Room(mem, n) && Holds(mem, b, base, cs) && b + |cs| <= n
    requires Decided(mem, Overread(cs, n))
    requires ScanSafe(cs, b + |cs| < n) ==> exists k :: N <= k < N + Overread(cs, n) && mem[k] != VIRGIN
    ensures !Holds(ScanFrom(mem, n, b), b, base, Coalesce(cs))
    decreases |cs|
  {
    hide Pack, Holds, ScanStep, IsOccupied, SizeOf, Overread, ScanSafe, StepEnd;
    if |cs| <= 1 && b + 1 >= n {
      ShortScan(cs, n);
      assert false;
    } else if cs == [] {
      ShortScan(cs, n);
      assert false;
    } else {
      var r, head, rest := HeadRun(cs), HeadChunk(cs), cs[HeadRun(cs)..];
      SafeRest(cs, b + |cs| < n);
      OverreadRest(cs, n);
      if r >= 2 && exists k :: N <= k < n + r - 1 && mem[k] != VIRGIN {
        var k :| N <= k < n + r - 1 && mem[k] != VIRGIN;
        var p := FindForeign(mem, k);
        ForeignBreaks(mem, n, b, base, cs, p);
      } else if !cs[0].live && r == |cs| && b + |cs| < n {
        StaleBoundBreaks(mem, n, b, base, cs);
      } else {
        HoldsCons(ScanFrom(mem, n, b), b, base, head, Coalesce(rest));
        if Offset(cs, r) < 0x8000 || r < 2 {
          StepHolds(mem, n, b, base, cs);
          var m := ScanStep(mem, n, b);
          forall k | N <= k < 2 * N ensures m[k] == mem[k] { StepFrame(mem, n, b, k); }
          SameForeign(mem, m, Overread(rest, n));
          ScanBroken(m, n, b + 1, base + head.size, rest);
        }
      }
    }
  }

  // ---------- the sort ----------

  lemma EntriesByOffset(before: seq<Word>, cs: seq<Chunk>, i: nat, j: nat)
    requires Represents(before, cs) && i < j < |cs| && Offset(cs, |cs| - 1) < 0x8000
    ensures OffsetComparator(before[i], before[j]) == -1
  {
    hide IsOccupied, SizeOf, OffsetOf, Pack;
    EntryFields(before, cs);
    OffsetMonotone(cs, i, j);
    OffsetMonotone(cs, j, |cs| - 1);
    SignedOffset(before[i]);
    SignedOffset(before[j]);
  }

  /** On a tiled table whose offsets are below 32768 the sort changes nothing. */
  lemma SortIsIdentity(before: seq<Word>, sorted: seq<Word>, cs: seq<Chunk>)
    requires Represents(before, cs) && cs != [] && Offset(cs, |cs| - 1) < 0x8000
    requires |sorted| == |before| && UsedSlotsSorted(before, sorted, |cs|)
    ensures sorted == before
  {
    hide OffsetComparator, IsOccupied, SizeOf, OffsetOf;
    var n := |cs|;
    ComparatorsQualify();
    forall i, j | 0 <= i < j < n ensures OffsetComparator(before[..n][i], before[..n][j]) == -1 {
      EntriesByOffset(before, cs, i, j);
    }
    assert sorted[0..n] == sorted[..n] && before[0..n] == before[..n];
    StrictlySortedUnique(before[..n], sorted[..n], OffsetComparator);
    assert sorted == sorted[..n] + sorted[n..] && before == before[..n] + before[n..];
  }

  /** An offset of 32768 or more is negative for the comparator and sorts to the front. */
  lemma LargeOffsetFirst(before: seq<Word>, sorted: seq<Word>, cs: seq<Chunk>)
    requires Represents(before, cs) && cs != [] && Offset(cs, |cs| - 1) >= 0x8000
    requires |sorted| == |before| && UsedSlotsSorted(before, sorted, |cs|)
    ensures OffsetOf(sorted[0]) >= 0x8000
  {
    hide IsOccupied, SizeOf, OffsetOf, Pack, Represents, Offset, OffsetComparator;
    var n := |cs|;
    LastEntry(before, cs);
    var w := before[n - 1];
    assert w == before[0..n][n - 1];
    assert w in multiset(sorted[0..n]);
    var k :| 0 <= k < n && sorted[0..n][k] == w;
    assert sorted[..n][k] == w && sorted[..n][0] == sorted[0];
    assert k == 0 || OffsetComparator(sorted[0], w) <= 0;
    NotAbove(sorted[0], w);
  }

  lemma LastEntry(mem: seq<Word>, cs: seq<Chunk>)
    requires Represents(mem, cs) && cs != []
    ensures |cs| <= |mem| && OffsetOf(mem[|cs| - 1]) == Offset(cs, |cs| - 1)
  {
    hide IsOccupied, SizeOf, OffsetOf, Pack;
    EntryFields(mem, cs);
  }

  lemma NotAbove(v: Word, w: Word)
    requires OffsetOf(w) >= 0x8000 && (v == w || OffsetComparator(v, w) <= 0)
    ensures OffsetOf(v) >= 0x8000
  {
    hide OffsetOf;
    SignedOffset(v);
    SignedOffset(w);
  }

  lemma FirstStepKeepsOffset(mem: seq<Word>, n: nat)
    requires Room(mem, n) && 1 < n
    ensures OffsetOf(ScanFrom(mem, n, 0)[0]) >= OffsetOf(mem[0])
  {
    hide IsOccupied, OffsetOf, Rewrite;
    var m := ScanStep(mem, n, 0);
    ScanFrame(m, n, 1, 0);
    var e := ScanEnd(mem, n, 1);
    if e > 1 {
      RewriteFields(mem[0], SizeSum(mem, 0, e), 0);
    }
  }

  // ---------- main results ----------

  /** Tables that fit: if the shifts read only virgin words behind the table, or none at all,
      defrag computes the coalesced table and leaves the memory behind it alone. */
  lemma DefragCorrect(before: seq<Word>, after: seq<Word>, cs: seq<Chunk>)
    requires Represents(before, cs) && Room(before, |cs|) && cs != []
    requires Defragged(before, after, |cs|) && DefragFits(cs)
    requires VirginBehind(before, Overread(cs, |cs|))
    ensures Represents(after, Coalesce(cs)) && |after| == |before| && after[N..] == before[N..]
  {
    hide UsedSlotsSorted, ScanSafe, Holds, ScanStep, Represents;
    var n := |cs|;
    var sorted: seq<Word> :| |sorted| == |before| && UsedSlotsSorted(before, sorted, n)
                          && after == ScanFrom(sorted, n, 0);
    SortIsIdentity(before, sorted, cs);
    RepresentsHolds(before, cs, 0);
    assert cs[0..] == cs && Offset(cs, 0) == 0;
    ScanHolds(before, n, 0, 0, cs);
    HoldsRepresents(after, Coalesce(cs));
    forall k | N <= k < |before| ensures after[k] == before[k] {
      ScanFrame(before, n, 0, k);
    }
  }

  /** All other tables: defrag does not compute the coalesced table. */
  lemma DefragBroken(before: seq<Word>, after: seq<Word>, cs: seq<Chunk>)
    requires Represents(before, cs) && Room(before, |cs|) && cs != []
    requires Defragged(before, after, |cs|) && Decided(before, Overread(cs, |cs|))
    requires !(DefragFits(cs) && VirginBehind(before, Overread(cs, |cs|)))
    ensures !Represents(after, Coalesce(cs))
  {
    hide UsedSlotsSorted, ScanSafe, Holds, ScanStep, Represents, OffsetOf, IsOccupied, SizeOf, Overread, Decided;
    var n, ds := |cs|, Coalesce(cs);
    var sorted: seq<Word> :| |sorted| == |before| && UsedSlotsSorted(before, sorted, n)
                          && after == ScanFrom(sorted, n, 0);
    if Represents(after, ds) {
      if Offset(cs, n - 1) < 0x8000 {
        SortIsIdentity(before, sorted, cs);
        RepresentsHolds(before, cs, 0);
        assert cs[0..] == cs && Offset(cs, 0) == 0;
        ScanBroken(before, n, 0, 0, cs);
        RepresentsHolds(after, ds, 0);
      } else {
        LargeOffsetFirst(before, sorted, cs);
        assert n > 1 by { assert Offset(cs, 0) == 0; }
        FirstStepKeepsOffset(sorted, n);
        EntryFields(after, ds);
        assert Offset(ds, 0) == 0;
      }
    }
  }

  /** Exactly when defrag is right. If no shift reads past the table, the memory behind it does
      not matter: the outcome is the coalesced table if and only if the table fits. A shift that
      reads past the table must find virgin words there, and a lasting word breaks the table. */
  lemma DefragExact(before: seq<Word>, after: seq<Word>, cs: seq<Chunk>)
    requires Represents(before, cs) && Room(before, |cs|) && cs != []
    requires Defragged(before, after, |cs|) && Decided(before, Overread(cs, |cs|))
    ensures Represents(after, Coalesce(cs)) <==> DefragFits(cs) && VirginBehind(before, Overread(cs, |cs|))
    ensures Overread(cs, |cs|) == 0 ==> (Represents(after, Coalesce(cs)) <==> DefragSafe(cs))
  {
    if DefragFits(cs) && VirginBehind(before, Overread(cs, |cs|)) {
      DefragCorrect(before, after, cs);
    } else {
      DefragBroken(before, after, cs);
    }
  }

  /** In the running kernel the first word behind the table is the size of the queue of running
      tasks: occupied if it is odd, and otherwise lasting unless it and the words behind it add up
      to the size of a virgin slot. A shift that reads past the table then breaks the table. */
  lemma LastingBehindBreaks(before: seq<Word>, after: seq<Word>, cs: seq<Chunk>)
    requires Represents(before, cs) && Room(before, |cs|) && cs != []
    requires Defragged(before, after, |cs|) && Overread(cs, |cs|) > 0
    requires before[N] != VIRGIN && Lasting(before, N)
    ensures !Represents(after, Coalesce(cs))
  {
    hide Represents, Defragged, Lasting, Coalesce, Overread, Tiled;
    DefragExact(before, after, cs);
  }

  predicate FreeRange(cs: seq<Chunk>, i: nat, j: nat) {
    i < j <= |cs| && forall k :: i <= k < j ==> !cs[k].live
  }

  /** A simple sufficient condition: fewer than 32768 bytes carved, the last used slot live, and
      room in the table for the longest free run behind the last used slot. */
  lemma SimplySafe(cs: seq<Chunk>)
    requires cs != [] ==> cs[|cs| - 1].live
    requires Total(cs) < 0x8000
    requires forall i: nat, j: nat :: FreeRange(cs, i, j) ==> |cs| - 1 + (j - i) <= N
    ensures DefragSafe(cs)
  {
    SimplySafeFrom(cs, 0, false);
    assert cs[0..] == cs;
    if cs != [] {
      OffsetMonotone(cs, |cs| - 1, |cs|);
    }
  }

  lemma {:induction false} SimplySafeFrom(cs: seq<Chunk>, b: nat, stale: bool)
    requires b <= |cs| && (cs != [] ==> cs[|cs| - 1].live)
    requires Total(cs) < 0x8000
    requires forall i: nat, j: nat :: FreeRange(cs, i, j) ==> |cs| - 1 + (j - i) <= N
    ensures ScanSafe(cs[b..], stale) && Overread(cs[b..], |cs|) == 0
    decreases |cs| - b
  {
    hide HeadChunk, HeadRun, FreeRun, FreeRange, ScanSafe, Overread, Offset;
    if b < |cs| {
      var rest := cs[b..];
      var r := HeadRun(rest);
      assert rest[r..] == cs[b + r..];
      SimplySafeFrom(cs, b + r, stale || r >= 2);
      SafeRest(rest, stale);
      OverreadRest(rest, |cs|);
      if r >= 2 || !rest[0].live {
        HeadIsRange(cs, b);
        OffsetSplit(cs, b, r);
        OffsetMonotone(cs, b + r, |cs|);
        assert rest[|rest| - 1] == cs[|cs| - 1];
      }
    } else {
      NothingLeft(cs[b..], stale, |cs|);
    }
  }

  lemma NothingLeft(cs: seq<Chunk>, stale: bool, n: nat)
    requires cs == []
    ensures ScanSafe(cs, stale) && Overread(cs, n) == 0
  {
  }

  lemma HeadIsRange(cs: seq<Chunk>, b: nat)
    requires b < |cs|
    ensures HeadRun(cs[b..]) >= 2 ==> !cs[b].live
    ensures !cs[b].live ==> FreeRange(cs, b, b + HeadRun(cs[b..]))
    ensures !cs[b].live && HeadRun(cs[b..]) == |cs[b..]| ==> !cs[|cs| - 1].live
  {
    if !cs[b].live {
      RunIsRange(cs, b);
    }
  }

  lemma RunIsRange(cs: seq<Chunk>, b: nat)
    requires b < |cs| && !cs[b].live
    ensures FreeRange(cs, b, b + FreeRun(cs[b..]))
  {
    forall k | b <= k < b + FreeRun(cs[b..]) ensures !cs[k].live {
      assert cs[k] == cs[b..][k - b];
    }
  }

  /** A table that defrag breaks, whatever lies behind it: the merge in front of the free last
      chunk leaves a stale bound, and the scan then swallows virgin slots. Without that last
      chunk the table is safe. */
  lemma StaleBoundExample(cs: seq<Chunk>, before: seq<Word>, after: seq<Word>)
    requires cs == [Chunk(false, 8), Chunk(false, 8), Chunk(true, 8), Chunk(false, 8)]
    requires Represents(before, cs) && Room(before, 4) && Defragged(before, after, 4)
    ensures !Represents(after, Coalesce(cs))
    ensures Tiled(cs[..3]) && DefragSafe(cs[..3])
  {
    hide Represents, Defragged, Coalesce;
    FourChunks(cs);
    DefragExact(before, after, cs);
  }

  lemma FourChunks(cs: seq<Chunk>)
    requires cs == [Chunk(false, 8), Chunk(false, 8), Chunk(true, 8), Chunk(false, 8)]
    ensures Tiled(cs) && !DefragFits(cs) && Overread(cs, 4) == 0
    ensures Tiled(cs[..3]) && DefragSafe(cs[..3])
  {
    FourOffsets(cs);
    var ds, last := cs[..3], cs[3..];
    OffsetSameSizes(cs, ds, 2);
    OffsetSameSizes(cs, ds, 1);
    OffsetSameSizes(cs, ds, 0);
    assert FreeRun(cs) == 2 by { assert cs[1..][0] == cs[1] && cs[1..][1..][0] == cs[2]; }
    assert FreeRun(ds) == 2 by { assert ds[1..][0] == ds[1] && ds[1..][1..][0] == ds[2]; }
    assert cs[2..][0] == cs[2] && cs[2..][1..] == last == [cs[3]];
    assert FreeRun(last) == 1 == |last|;
    assert !ScanSafe(last, true);
    assert !ScanSafe(cs[2..], true);
    assert ds[2..][0] == ds[2] && ds[2..][1..] == [];
    ShortScan(last, 4);
    ShortScan(ds[2..], 3);
    OverreadRest(cs[2..], 4);
    OverreadRest(cs, 4);
    OverreadRest(ds, 3);
  }

  lemma FourOffsets(cs: seq<Chunk>)
    requires |cs| == 4 && forall i :: 0 <= i < 4 ==> cs[i].size == 8
    ensures forall i :: 0 <= i <= 4 ==> Offset(cs, i) == 8 * i
  {
    assert Offset(cs, 0) == 0;
    assert Offset(cs, 1) == Offset(cs, 0) + cs[0].size;
    assert Offset(cs, 2) == Offset(cs, 1) + cs[1].size;
    assert Offset(cs, 3) == Offset(cs, 2) + cs[2].size;
    assert Offset(cs, 4) == Offset(cs, 3) + cs[3].size;
  }
}
