/** The abstract allocator: what the slot table of os/src/memory.c stands for. Chunks tile the
    memory behind the table from offset 0 on; slot i describes chunk i, and the slots behind
    the last chunk were never carved. */
module Chunks {
  import opened Words

  const NUM_OF_SLOTS: nat := 64

  datatype Chunk = Chunk(live: bool, size: nat)

  /** Where chunk i starts: the sum of the earlier sizes. */
  function Offset(cs: seq<Chunk>, i: nat): nat
    requires i <= |cs|
  {
    if i == 0 then 0 else Offset(cs, i - 1) + cs[i - 1].size
  }

  function Total(cs: seq<Chunk>): nat { Offset(cs, |cs|) }

  predicate ProperSize(size: nat) { 0 < size < 0x8000 && size % 8 == 0 }

  predicate Tiled(cs: seq<Chunk>) {
    && |cs| <= NUM_OF_SLOTS
    && (forall i :: 0 <= i < |cs| ==> ProperSize(cs[i].size))
    && (forall i :: 0 <= i < |cs| ==> Offset(cs, i) < 0x1_0000)
  }

  function Entry(cs: seq<Chunk>, i: nat): Word
    requires i < |cs| && Offset(cs, i) < 0x1_0000 && cs[i].size < 0x8000
  {
    Pack(Offset(cs, i), cs[i].size, cs[i].live)
  }

  /** The first words of the memory are the slot table of these chunks. */
  predicate Represents(mem: seq<nat>, cs: seq<Chunk>) {
    && Tiled(cs)
    && |mem| >= NUM_OF_SLOTS
    && (forall i :: 0 <= i < |cs| ==> mem[i] == Entry(cs, i))
    && (forall i :: |cs| <= i < NUM_OF_SLOTS ==> mem[i] == VIRGIN)
  }

  // ---------- offsets ----------

  lemma {:induction false} OffsetSplit(cs: seq<Chunk>, k: nat, i: nat)
    requires k + i <= |cs|
    ensures Offset(cs, k + i) == Offset(cs, k) + Offset(cs[k..], i)
  {
    if i != 0 {
      OffsetSplit(cs, k, i - 1);
    }
  }

  lemma {:induction false} OffsetSameSizes(cs: seq<Chunk>, ds: seq<Chunk>, i: nat)
    requires i <= |cs| && i <= |ds|
    requires forall k :: 0 <= k < i ==> cs[k].size == ds[k].size
    ensures Offset(cs, i) == Offset(ds, i)
  {
    if i != 0 {
      OffsetSameSizes(cs, ds, i - 1);
    }
  }

  lemma {:induction false} OffsetMonotone(cs: seq<Chunk>, i: nat, j: nat)
    requires i <= j <= |cs|
    ensures Offset(cs, i) <= Offset(cs, j)
    ensures i < j ==> Offset(cs, i) + cs[i].size <= Offset(cs, j)
  {
    if i < j {
      OffsetMonotone(cs, i, j - 1);
    }
  }

  lemma {:induction false} OffsetAligned(cs: seq<Chunk>, i: nat)
    requires i <= |cs| && forall k :: 0 <= k < i ==> ProperSize(cs[k].size)
    ensures Offset(cs, i) % 8 == 0
  {
    if i != 0 {
      OffsetAligned(cs, i - 1);
    }
  }

  /** In a tiled table an offset names at most one slot. */
  lemma OffsetInjective(cs: seq<Chunk>, i: nat, j: nat)
    requires Tiled(cs) && i < |cs| && j < |cs| && Offset(cs, i) == Offset(cs, j)
    ensures i == j
  {
    if i < j {
      OffsetMonotone(cs, i, j);
    } else if j < i {
      OffsetMonotone(cs, j, i);
    }
  }

  /** The table determines its chunks. */
  lemma RepresentsUnique(mem: seq<nat>, cs: seq<Chunk>, ds: seq<Chunk>)
    requires Represents(mem, cs) && Represents(mem, ds)
    ensures cs == ds
  {
    EntryFields(mem, cs);
    EntryFields(mem, ds);
    SlotsCarved(mem, cs, ds);
    SlotsCarved(mem, ds, cs);
  }

  lemma SlotsCarved(mem: seq<nat>, cs: seq<Chunk>, ds: seq<Chunk>)
    requires Represents(mem, cs) && Represents(mem, ds)
    ensures |cs| >= |ds|
  {
    if |cs| < |ds| {
      EntryField(ds, |cs|);
      assert false;
    }
  }

  lemma EntryField(cs: seq<Chunk>, i: nat)
    requires Tiled(cs) && i < |cs|
    ensures var w := Entry(cs, i);
      (w != VIRGIN && OffsetOf(w) == Offset(cs, i) && SizeOf(w) == cs[i].size
      && IsOccupied(w) == cs[i].live)
  {
    hide Pack, IsOccupied, SizeOf, OffsetOf;
    VirginFields();
    PackFields(Offset(cs, i), cs[i].size, cs[i].live);
  }

  lemma EntryFields(mem: seq<nat>, cs: seq<Chunk>)
    requires Represents(mem, cs)
    ensures forall i :: 0 <= i < |cs| ==>
      && mem[i] < 0x1_0000_0000 && mem[i] != VIRGIN
      && OffsetOf(mem[i]) == Offset(cs, i)
      && SizeOf(mem[i]) == cs[i].size
      && IsOccupied(mem[i]) == cs[i].live
  {
    hide Entry, IsOccupied, SizeOf, OffsetOf;
    forall i | 0 <= i < |cs|
      ensures mem[i] < 0x1_0000_0000 && mem[i] != VIRGIN
      ensures OffsetOf(mem[i]) == Offset(cs, i)
      ensures SizeOf(mem[i]) == cs[i].size && IsOccupied(mem[i]) == cs[i].live
    {
      EntryField(cs, i);
    }
  }

  // ---------- live blocks ----------

  /** The live blocks, as pairs of offset and size, of chunks that start at `base`. */
  function Blocks(cs: seq<Chunk>, base: nat): seq<(nat, nat)> {
    if cs == [] then []
    else (if cs[0].live then [(base, cs[0].size)] else []) + Blocks(cs[1..], base + cs[0].size)
  }

  predicate LiveAt(cs: seq<Chunk>, offset: nat, size: nat) {
    exists i :: 0 <= i < |cs| && cs[i].live && Offset(cs, i) == offset && cs[i].size == size
  }

  lemma {:induction false} BlocksAreLive(cs: seq<Chunk>, base: nat, offset: nat, size: nat)
    ensures (base + offset, size) in Blocks(cs, base) <==> LiveAt(cs, offset, size)
  {
    if cs != [] {
      LiveAtTail(cs, offset, size);
      BlocksStartAt(cs[1..], base + cs[0].size);
      if offset >= cs[0].size {
        BlocksAreLive(cs[1..], base + cs[0].size, offset - cs[0].size, size);
      }
    }
  }

  lemma LiveAtTail(cs: seq<Chunk>, offset: nat, size: nat)
    requires cs != []
    ensures LiveAt(cs, offset, size) <==>
      || (cs[0] == Chunk(true, size) && offset == 0)
      || (offset >= cs[0].size && LiveAt(cs[1..], offset - cs[0].size, size))
  {
    var tail, s := cs[1..], cs[0].size;
    forall i | 0 <= i < |tail| ensures Offset(cs, i + 1) == s + Offset(tail, i) {
      OffsetSplit(cs, 1, i);
      assert Offset(cs, 1) == Offset(cs, 0) + s;
    }
    if LiveAt(cs, offset, size) {
      var i :| 0 <= i < |cs| && cs[i].live && Offset(cs, i) == offset && cs[i].size == size;
      if i > 0 {
        assert tail[i - 1] == cs[i] && Offset(cs, (i - 1) + 1) == s + Offset(tail, i - 1);
      }
    }
    if offset >= s && LiveAt(tail, offset - s, size) {
      var i :| 0 <= i < |tail| && tail[i].live && Offset(tail, i) == offset - s && tail[i].size == size;
      assert cs[i + 1] == tail[i] && Offset(cs, i + 1) == offset;
    }
    if cs[0] == Chunk(true, size) && offset == 0 {
      assert Offset(cs, 0) == 0;
    }
  }

  lemma {:induction false} BlocksStartAt(cs: seq<Chunk>, base: nat)
    ensures forall b :: b in Blocks(cs, base) ==> b.0 >= base
  {
    if cs != [] {
      BlocksStartAt(cs[1..], base + cs[0].size);
    }
  }

  function LiveBytes(cs: seq<Chunk>): nat {
    if cs == [] then 0
    else LiveBytes(cs[..|cs| - 1]) + if cs[|cs| - 1].live then cs[|cs| - 1].size else 0
  }

  /** Two different live blocks of a tiled table do not overlap. */
  lemma LiveDisjoint(cs: seq<Chunk>, o1: nat, s1: nat, o2: nat, s2: nat)
    requires Tiled(cs) && LiveAt(cs, o1, s1) && LiveAt(cs, o2, s2)
    ensures o1 == o2 ==> s1 == s2
    ensures o1 != o2 ==> o1 + s1 <= o2 || o2 + s2 <= o1
    ensures o1 % 8 == 0 && o1 + s1 <= Total(cs)
  {
    var i :| 0 <= i < |cs| && cs[i].live && Offset(cs, i) == o1 && cs[i].size == s1;
    var j :| 0 <= j < |cs| && cs[j].live && Offset(cs, j) == o2 && cs[j].size == s2;
    OffsetAligned(cs, i);
    OffsetMonotone(cs, i, |cs|);
    if i < j {
      OffsetMonotone(cs, i, j);
    } else if j < i {
      OffsetMonotone(cs, j, i);
    }
  }

  // ---------- allocate ----------

  datatype Outcome = Refused | Reuse(slot: nat) | Carve(size: nat)

  function RoundUp4(n: nat): (r: nat)
    ensures n <= r < n + 4 && r % 4 == 0
  {
    (n + 3) / 4 * 4
  }

  function RoundUp8(n: nat): (r: nat)
    ensures n <= r < n + 8 && r % 8 == 0
  {
    (n + 7) / 8 * 8
  }

  /** The size a fresh chunk gets: rounded up to 8 inside a 15-bit field. */
  function FreshSize(size: nat): nat { RoundUp8(size) % 0x8000 }

  /** The first free chunk of at least this size, or |cs|. */
  function FirstFit(cs: seq<Chunk>, size: nat, from: nat): (slot: nat)
    requires from <= |cs|
    ensures from <= slot <= |cs|
    ensures slot < |cs| ==> !cs[slot].live && cs[slot].size >= size
    ensures forall k :: from <= k < slot ==> cs[k].live || cs[k].size < size
    decreases |cs| - from
  {
    if from == |cs| then from
    else if !cs[from].live && cs[from].size >= size then from
    else FirstFit(cs, size, from + 1)
  }

  function Decide(cs: seq<Chunk>, size: nat): Outcome {
    if size == 0 || size > 32768 then Refused
    else
      var wanted := RoundUp4(size);
      var slot := FirstFit(cs, wanted, 0);
      if slot < |cs| then Reuse(slot)
      else if |cs| < NUM_OF_SLOTS && wanted <= 0x7FFF then Carve(FreshSize(wanted))
      else Refused
  }

  function Allocated(cs: seq<Chunk>, outcome: Outcome): seq<Chunk>
    requires outcome.Reuse? ==> outcome.slot < |cs|
  {
    match outcome
    case Refused => cs
    case Reuse(i) => cs[i := cs[i].(live := true)]
    case Carve(size) => cs + [Chunk(true, size)]
  }

  /** The offset of the block that an allocation hands out. */
  function Granted(cs: seq<Chunk>, outcome: Outcome): nat
    requires outcome.Reuse? ==> outcome.slot < |cs|
  {
    if outcome.Reuse? then Offset(cs, outcome.slot) else Total(cs)
  }

  predicate Suitable(cs: seq<Chunk>, size: nat, i: nat)
    requires i < NUM_OF_SLOTS
  {
    if i < |cs| then !cs[i].live && cs[i].size >= size else true
  }

  lemma RoundedFits(chunk: nat, size: nat)
    requires ProperSize(chunk)
    ensures chunk >= size <==> chunk >= RoundUp4(size)
  {
    var k, r := chunk / 8, (size + 3) / 4;
    assert chunk == 8 * k && RoundUp4(size) == 4 * r;
  }

  /** First fit: up to 32760 bytes a request is refused exactly when every slot is carved and
      no free chunk is large enough, and otherwise gets the lowest suitable slot. */
  lemma DecideIsFirstFit(cs: seq<Chunk>, size: nat)
    requires Tiled(cs) && 1 <= size <= 32760
    ensures Decide(cs, size).Refused? <==> forall i :: 0 <= i < NUM_OF_SLOTS ==> !Suitable(cs, size, i)
    ensures !Decide(cs, size).Refused? ==>
      var slot := if Decide(cs, size).Reuse? then Decide(cs, size).slot else |cs|;
      (slot < NUM_OF_SLOTS && Suitable(cs, size, slot)
      && forall k :: 0 <= k < slot ==> !Suitable(cs, size, k))
  {
    hide FirstFit, Offset, RoundUp4;
    var slot := FirstFit(cs, RoundUp4(size), 0);
    RoundedFits(32760, size);
    forall i | 0 <= i < |cs| ensures cs[i].size >= size <==> cs[i].size >= RoundUp4(size) {
      assert ProperSize(cs[i].size);
      RoundedFits(cs[i].size, size);
    }
    if |cs| < NUM_OF_SLOTS {
      assert Suitable(cs, size, |cs|);
    }
    if slot < |cs| {
      assert Suitable(cs, size, slot);
    }
  }

  /** All other sizes: 0 and more than 32764 bytes are refused on every table; what is left in between
      is carved as long as a slot is free, and no free chunk is large enough for it. */
  lemma DecideOutside(cs: seq<Chunk>, size: nat)
    requires Tiled(cs)
    ensures size == 0 || size > 32764 ==> Decide(cs, size).Refused?
    ensures 32760 < size <= 32764 ==>
      if |cs| < NUM_OF_SLOTS then Decide(cs, size).Carve? else Decide(cs, size).Refused?
  {
    hide FirstFit, Offset;
    if 32760 < size <= 32768 {
      var slot := FirstFit(cs, RoundUp4(size), 0);
      assert slot < |cs| ==> ProperSize(cs[slot].size);
    }
  }

  /** A fresh chunk is too small exactly for requests above 32760: the round-up to 8 then wraps
      the 15-bit size field to 0. All others get the least multiple of 8 that is large enough. */
  lemma FreshSizeWraps(cs: seq<Chunk>, size: nat)
    requires Decide(cs, size).Carve?
    ensures Decide(cs, size).size >= size <==> size <= 32760
    ensures ProperSize(Decide(cs, size).size) <==> size <= 32760
    ensures size <= 32760 ==> Decide(cs, size).size < size + 8
    ensures size > 32760 ==> Decide(cs, size).size == 0
  {
    hide FirstFit, Offset;
  }

  /** A block that is handed out is live, 8-byte aligned, at least as large as requested, and
      clear of every block that was live before; those blocks stay as they are. */
  lemma AllocationIsClean(cs: seq<Chunk>, size: nat)
    requires Tiled(cs) && !Decide(cs, size).Refused?
    requires Decide(cs, size).Carve? ==> size <= 32760 && Total(cs) < 0x1_0000
    ensures var out := Decide(cs, size); var ds := Allocated(cs, out); var o := Granted(cs, out);
      (Tiled(ds)
      && (exists s :: s >= size && LiveAt(ds, o, s))
      && (forall s :: !LiveAt(cs, o, s))
      && (forall o', s :: LiveAt(ds, o', s) && o' != o <==> LiveAt(cs, o', s) && o' != o))
  {
    var out := Decide(cs, size);
    var ds, o := Allocated(cs, out), Granted(cs, out);
    var slot := if out.Reuse? then out.slot else |cs|;
    assert out.Carve? ==> |cs| < NUM_OF_SLOTS;
    forall i | 0 <= i <= |cs| ensures Offset(ds, i) == Offset(cs, i) {
      OffsetSameSizes(cs, ds, i);
    }
    FreshProper(cs, size);
    assert ds[slot].live && Offset(ds, slot) == o && ds[slot].size >= size;
    assert LiveAt(ds, o, ds[slot].size);
    forall s ensures !LiveAt(cs, o, s) {
      if LiveAt(cs, o, s) {
        var i :| 0 <= i < |cs| && cs[i].live && Offset(cs, i) == o && cs[i].size == s;
        OffsetMonotone(cs, i, |cs|);
        if out.Reuse? { OffsetInjective(cs, i, slot); }
      }
    }
    forall o', s | o' != o ensures LiveAt(ds, o', s) <==> LiveAt(cs, o', s) {
      if LiveAt(ds, o', s) {
        var i :| 0 <= i < |ds| && ds[i].live && Offset(ds, i) == o' && ds[i].size == s;
        assert cs[i] == ds[i] && Offset(cs, i) == o';
      }
      if LiveAt(cs, o', s) {
        var i :| 0 <= i < |cs| && cs[i].live && Offset(cs, i) == o' && cs[i].size == s;
        assert ds[i] == cs[i] && Offset(ds, i) == o';
      }
    }
  }

  /** An allocation splits and moves nothing: one slot becomes live, the others keep state and size. */
  lemma AllocationKeepsSlots(cs: seq<Chunk>, size: nat)
    requires Tiled(cs) && !Decide(cs, size).Refused?
    ensures var out := Decide(cs, size); var ds := Allocated(cs, out); var o := Granted(cs, out);
      && |ds| == (if out.Carve? then |cs| + 1 else |cs|)
      && (forall i :: 0 <= i < |cs| ==> ds[i].size == cs[i].size)
      && (forall i :: 0 <= i < |ds| ==> (ds[i].live <==> Offset(ds, i) == o || (i < |cs| && cs[i].live)))
  {
    hide Decide;
    DecideFits(cs, size);
    var out := Decide(cs, size);
    var ds, o := Allocated(cs, out), Granted(cs, out);
    var slot := if out.Reuse? then out.slot else |cs|;
    forall i | 0 <= i <= |cs| ensures Offset(ds, i) == Offset(cs, i) {
      OffsetSameSizes(cs, ds, i);
    }
    forall i | 0 <= i < |cs| ensures Offset(cs, i) == o ==> i == slot {
      OffsetMonotone(cs, i, |cs|);
      if out.Reuse? && Offset(cs, i) == o { OffsetInjective(cs, i, slot); }
    }
  }

  lemma DecideFits(cs: seq<Chunk>, size: nat)
    ensures Decide(cs, size).Reuse? ==> Decide(cs, size).slot < |cs|
  {
  }

  lemma FreshProper(cs: seq<Chunk>, size: nat)
    ensures Decide(cs, size).Carve? && size <= 32760 ==> ProperSize(Decide(cs, size).size)
    ensures Decide(cs, size).Carve? && size <= 32760 ==> Decide(cs, size).size >= size
  {
  }

  // ---------- deallocate ----------

  /** The slot whose offset this is, or |cs|. */
  function SlotAt(cs: seq<Chunk>, offset: nat, from: nat): (slot: nat)
    requires from <= |cs|
    ensures from <= slot <= |cs|
    ensures slot < |cs| ==> Offset(cs, slot) == offset
    ensures forall k :: from <= k < slot ==> Offset(cs, k) != offset
    decreases |cs| - from
  {
    if from == |cs| then from
    else if Offset(cs, from) == offset then from
    else SlotAt(cs, offset, from + 1)
  }

  function Freed(cs: seq<Chunk>, offset: nat): seq<Chunk> {
    var slot := SlotAt(cs, offset, 0);
    if slot < |cs| then cs[slot := cs[slot].(live := false)] else cs
  }

  /** Freeing merges nothing: every slot keeps its size, and only the one at the offset its state. */
  lemma FreeKeepsSlots(cs: seq<Chunk>, offset: nat)
    requires Tiled(cs)
    ensures var ds := Freed(cs, offset);
      && |ds| == |cs|
      && forall i :: 0 <= i < |cs| ==>
        ds[i].size == cs[i].size && (ds[i].live <==> cs[i].live && Offset(cs, i) != offset)
  {
    var slot := SlotAt(cs, offset, 0);
    forall i | 0 <= i < |cs| && Offset(cs, i) == offset ensures i == slot {
      OffsetInjective(cs, i, slot);
    }
  }

  /** Freeing clears exactly the named block. */
  lemma FreeClearsOne(cs: seq<Chunk>, offset: nat)
    requires Tiled(cs)
    ensures Tiled(Freed(cs, offset)) && Total(Freed(cs, offset)) == Total(cs)
    ensures forall o, s :: LiveAt(Freed(cs, offset), o, s) <==> LiveAt(cs, o, s) && o != offset
  {
    var ds, slot := Freed(cs, offset), SlotAt(cs, offset, 0);
    forall i | 0 <= i <= |cs| ensures Offset(ds, i) == Offset(cs, i) {
      OffsetSameSizes(cs, ds, i);
    }
    forall o, s ensures LiveAt(ds, o, s) <==> LiveAt(cs, o, s) && o != offset {
      if LiveAt(ds, o, s) {
        var i :| 0 <= i < |ds| && ds[i].live && Offset(ds, i) == o && ds[i].size == s;
        assert cs[i].live && Offset(cs, i) == o && cs[i].size == s;
        if o == offset { OffsetInjective(cs, i, slot); }
      }
      if LiveAt(cs, o, s) && o != offset {
        var i :| 0 <= i < |cs| && cs[i].live && Offset(cs, i) == o && cs[i].size == s;
        assert ds[i].live && Offset(ds, i) == o && ds[i].size == s;
      }
    }
  }
}
