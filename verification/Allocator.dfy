/** os/src/memory.c: the allocator that works in place on the packed slot table. */
module Allocation {
  import opened Words
  import opened Chunks
  import opened Coalescing
  import opened Sorting
  import opened Defragmenting

  const NULL: nat := 0

  // ---------- the word updates of allocate ----------

  lemma ReusedWord(w: Word)
    requires !IsOccupied(w)
    ensures Rewrite(WithOccupied(WithSize(w, 0), 0), FieldSize(w), 1)
         == Pack(OffsetOf(w), SizeOf(w), true)
  {
    hide *;
    ViewsAgree(w);
    StoreSize(OffsetOf(w), SizeOf(w), 0);
    StoreFree(OffsetOf(w), 0);
    var v := Pack(OffsetOf(w), 0, false);
    PackFields(OffsetOf(w), 0, false);
    RewriteFields(v, FieldSize(w), 1);
  }

  lemma StoreOffset(offset: nat)
    ensures WithOffset(VIRGIN, offset) == Pack(offset % 0x1_0000, 0x7FFF, false)
  {
  }

  lemma StoreSize(offset: nat, was: nat, size: nat)
    requires offset < 0x1_0000 && was < 0x8000
    ensures WithSize(Pack(offset, was, false), size) == Pack(offset, size % 0x8000, false)
  {
    assert Pack(offset, was, false) / 2 == 0x8000 * offset + was;
  }

  lemma StoreOccupied(offset: nat, size: nat)
    requires offset < 0x1_0000 && size < 0x8000
    ensures WithOccupied(Pack(offset, size, false), 1) == Pack(offset, size, true)
  {
  }

  lemma StoreFree(offset: nat, size: nat)
    requires offset < 0x1_0000 && size < 0x8000
    ensures WithOccupied(Pack(offset, size, false), 0) == Pack(offset, size, false)
  {
    var half := 0x8000 * offset + size;
    assert Pack(offset, size, false) == 2 * half;
    EvenWord(half);
  }

  lemma EvenWord(half: nat)
    ensures 2 * half % 2 == 0
  {
  }

  // ---------- table updates on the abstract side ----------

  lemma ReuseRepresents(mem: seq<Word>, cs: seq<Chunk>, i: nat)
    requires Represents(mem, cs) && i < |cs|
    ensures Represents(mem[i := Pack(Offset(cs, i), cs[i].size, true)], cs[i := cs[i].(live := true)])
  {
    SetLive(mem, cs, i, true);
  }

  lemma FreeRepresents(mem: seq<Word>, cs: seq<Chunk>, i: nat)
    requires Represents(mem, cs) && i < |cs|
    ensures Represents(mem[i := Pack(Offset(cs, i), cs[i].size, false)], cs[i := cs[i].(live := false)])
  {
    SetLive(mem, cs, i, false);
  }

  lemma SetLive(mem: seq<Word>, cs: seq<Chunk>, i: nat, live: bool)
    requires Represents(mem, cs) && i < |cs|
    ensures Represents(mem[i := Pack(Offset(cs, i), cs[i].size, live)], cs[i := cs[i].(live := live)])
  {
    hide Pack;
    var ds := cs[i := cs[i].(live := live)];
    forall k | 0 <= k < |cs| ensures Offset(ds, k) == Offset(cs, k) && ProperSize(ds[k].size) {
      OffsetSameSizes(cs, ds, k);
    }
  }

  lemma CarveRepresents(mem: seq<Word>, cs: seq<Chunk>, size: nat)
    requires Represents(mem, cs) && |cs| < NUM_OF_SLOTS
    requires ProperSize(size) && Total(cs) < 0x1_0000
    ensures Represents(mem[|cs| := Pack(Total(cs), size, true)], cs + [Chunk(true, size)])
  {
    hide Pack;
    var ds := cs + [Chunk(true, size)];
    forall k | 0 <= k <= |cs| ensures Offset(ds, k) == Offset(cs, k) {
      OffsetSameSizes(cs, ds, k);
    }
    forall k | 0 <= k < |ds| ensures ProperSize(ds[k].size) && Offset(ds, k) < 0x1_0000 {
    }
  }

  /** No chunks tile the memory as this table says. */
  ghost predicate Untiled(mem: seq<Word>) {
    forall ds :: !Represents(mem, ds)
  }

  /** A fresh entry whose size wrapped to 0, or whose offset needs more than 16 bits, leaves a
      table that no chunks tile. */
  lemma CarveBreaks(mem: seq<Word>, cs: seq<Chunk>, size: nat)
    requires Represents(mem, cs) && |cs| < NUM_OF_SLOTS && size < 0x8000 && size != 0x7FFF
    requires size == 0 || Total(cs) >= 0x1_0000
    ensures Untiled(mem[|cs| := Pack(Total(cs) % 0x1_0000, size, true)])
  {
    hide Pack, IsOccupied, SizeOf, OffsetOf;
    var m := mem[|cs| := Pack(Total(cs) % 0x1_0000, size, true)];
    forall ds ensures !Represents(m, ds) {
      if Represents(m, ds) {
        PackFields(Total(cs) % 0x1_0000, size, true);
        VirginFields();
        assert m[|cs|] != VIRGIN;
        SamePrefix(mem, cs, m, ds);
        EntryFields(m, ds);
        assert false;
      }
    }
  }

  lemma SamePrefix(mem: seq<Word>, cs: seq<Chunk>, m: seq<Word>, ds: seq<Chunk>)
    requires Represents(mem, cs) && Represents(m, ds) && |cs| <= |ds|
    requires forall k :: 0 <= k < |cs| ==> m[k] == mem[k]
    ensures Offset(ds, |cs|) == Offset(cs, |cs|)
  {
    hide Pack, IsOccupied, SizeOf, OffsetOf;
    EntryFields(m, ds);
    EntryFields(mem, cs);
    OffsetSameSizes(cs, ds, |cs|);
  }

  // ---------- the allocator ----------

  class Allocator {
    const mem: array<Word>    // the slot table, then the memory it administers
    const tableStart: nat     // MEM_TABLE_START
    const useableStart: nat   // USEABLE_MEM_START
    ghost var chunks: seq<Chunk>

    ghost predicate Placed() {
      && mem.Length >= 2 * NUM_OF_SLOTS
      && tableStart % 8 == 0
      && useableStart == tableStart + 4 * NUM_OF_SLOTS
      && useableStart + 0x2_0000 <= 0x1_0000_0000
    }

    ghost predicate Valid()
      reads this, mem
    {
      Placed() && Represents(mem[..], chunks)
    }

    /** `ram` is the RAM from the table on; it lies below the top of the address space. */
    constructor (startOsSection: nat, ram: array<Word>)
      requires ram.Length >= 2 * NUM_OF_SLOTS && startOsSection < 0xF000_0000
      modifies ram
      ensures Valid() && mem == ram && chunks == []
      ensures startOsSection <= tableStart < startOsSection + 8
      ensures ram[NUM_OF_SLOTS..] == old(ram[NUM_OF_SLOTS..])
    {
      var start := startOsSection;
      while start % 8 != 0
        invariant startOsSection <= start <= RoundUp8(startOsSection)
        decreases RoundUp8(startOsSection) - start
      {
        start := start + 1;
      }
      tableStart := start;
      useableStart := start + 4 * NUM_OF_SLOTS;
      mem := ram;
      chunks := [];
      new;
      for index := 0 to NUM_OF_SLOTS
        invariant chunks == [] && forall k :: 0 <= k < index ==> ram[k] == VIRGIN
        invariant ram[NUM_OF_SLOTS..] == old(ram[NUM_OF_SLOTS..])
      {
        ram[index] := VIRGIN;
      }
    }

    /** The branch of allocate for a free chunk that is large enough. */
    method ReuseSlot(index: nat)
      requires index < mem.Length && !IsOccupied(mem[index])
      modifies mem
      ensures mem[..] == old(mem[..])[index := Pack(OffsetOf(old(mem[index])), SizeOf(old(mem[index])), true)]
    {
      hide Pack, IsOccupied, SizeOf, OffsetOf, Or, And, Shl, WithSize, WithOccupied;
      ghost var w := mem[index];
      ReusedWord(w);
      ghost var v := WithOccupied(WithSize(w, 0), 0);
      RewriteFields(v, FieldSize(w), 1);
      var oldSize := FieldSize(mem[index]);
      mem[index] := WithSize(mem[index], 0);
      mem[index] := WithOccupied(mem[index], 0);
      mem[index] := And(mem[index], 0xFFFF_0000);
      mem[index] := Or(mem[index], Or(Shl(oldSize, 1), 1));
    }

    /** The branch of allocate for a slot that was never carved. */
    method CarveSlot(index: nat, nextUseableChunk: nat, wanted: nat)
      requires index < mem.Length && mem[index] == VIRGIN && wanted <= 0x7FFF
      modifies mem
      ensures mem[..] == old(mem[..])[index := Pack(nextUseableChunk % 0x1_0000, FreshSize(wanted), true)]
    {
      hide Pack, IsOccupied, SizeOf, OffsetOf, WithSize, WithOffset, WithOccupied, FieldSize;
      var offset := nextUseableChunk % 0x1_0000;
      StoreOffset(nextUseableChunk);
      StoreSize(offset, 0x7FFF, wanted);
      mem[index] := WithOffset(mem[index], nextUseableChunk);
      mem[index] := WithSize(mem[index], wanted);
      ghost var size := wanted;
      SizeInField(offset, size);
      while FieldSize(mem[index]) % 8 != 0
        invariant size < 0x8000 && mem[index] == Pack(offset, size, false)
        invariant FieldSize(mem[index]) == size
        invariant wanted <= size <= RoundUp8(wanted) || (size == 0 && RoundUp8(wanted) == 0x8000)
        invariant mem[..] == old(mem[..])[index := mem[index]]
        decreases RoundUp8(wanted) - if size == 0 then 0x8000 else size
      {
        StoreSize(offset, size, size + 1);
        mem[index] := WithSize(mem[index], FieldSize(mem[index]) + 1);
        size := (size + 1) % 0x8000;
        SizeInField(offset, size);
      }
      StoreOccupied(offset, size);
      mem[index] := WithOccupied(mem[index], 1);
    }

    method Allocate(size: nat) returns (address: nat)
      requires Valid()
      modifies mem, this`chunks
      ensures Decide(old(chunks), size).Refused? ==> address == NULL && mem[..] == old(mem[..])
      ensures Decide(old(chunks), size).Carve? ==> mem[..] == old(mem[..])[|old(chunks)| :=
        Pack(Total(old(chunks)) % 0x1_0000, Decide(old(chunks), size).size, true)]
      ensures !Decide(old(chunks), size).Refused? ==>
        address == useableStart + Granted(old(chunks), Decide(old(chunks), size)) % 0x1_0000
      ensures Decide(old(chunks), size).Carve? && (size > 32760 || Total(old(chunks)) >= 0x1_0000)
        ==> Untiled(mem[..])
      ensures !(Decide(old(chunks), size).Carve? && (size > 32760 || Total(old(chunks)) >= 0x1_0000))
        ==> Valid() && chunks == Allocated(old(chunks), Decide(old(chunks), size))
      ensures address != NULL ==> address >= tableStart + 4 * NUM_OF_SLOTS && address % 8 == 0
      ensures mem[NUM_OF_SLOTS..] == old(mem[NUM_OF_SLOTS..])
    {
      hide Pack, IsOccupied, SizeOf, OffsetOf, FieldSize, FieldOccupied, FieldOffset, Represents,
        Decide, Granted, Allocated, FirstFit, Scanning, RoundUp4, Offset;
      ghost var cs, was := chunks, mem[..];
      AlignedGrant(was, cs, size, tableStart);
      if size == 0 || size > 32768 {
        BadSize(cs, size);
        return NULL;
      }
      var wanted := size;
      while wanted % 4 != 0
        invariant size <= wanted <= RoundUp4(size)
        decreases RoundUp4(size) - wanted
      {
        wanted := wanted + 1;
      }
      var nextUseableChunk: nat := 0;
      ScanningStart(cs, wanted);
      for index := 0 to NUM_OF_SLOTS
        invariant mem[..] == was && chunks == cs
        invariant Scanning(cs, wanted, index, nextUseableChunk)
      {
        var entry := mem[index];
        assert entry == was[index];
        if index < |cs| {
          ScanCarved(was, cs, size, wanted, index, nextUseableChunk);
        } else {
          ScanVirgin(was, cs, size, wanted, index, nextUseableChunk);
        }
        if FieldOccupied(entry) == 1 {
          nextUseableChunk := nextUseableChunk + FieldSize(entry);
          continue;
        }
        if FieldSize(entry) != 0x7FFF && FieldSize(entry) >= wanted {
          ReuseSlot(index);
          chunks := cs[index := cs[index].(live := true)];
          address := OffsetOf(mem[index]) + useableStart;
          return;
        }
        if FieldSize(entry) >= wanted {
          CarveOutcome(was, cs, size);
          CarveSlot(index, nextUseableChunk, wanted);
          if size <= 32760 && Total(cs) < 0x1_0000 {
            chunks := cs + [Chunk(true, FreshSize(wanted))];
          }
          address := FieldOffset(mem[index]) + useableStart;
          return;
        }
        nextUseableChunk := nextUseableChunk + FieldSize(entry);
      }
      NothingFits(was, cs, size, wanted, nextUseableChunk);
      return NULL;
    }

    /** Frees the slot whose offset the address names. On a table without any chunk the base
        address also "succeeds", because virgin slots carry offset 0. */
    method Deallocate(address: nat) returns (found: nat)
      requires Valid()
      modifies mem, this`chunks
      ensures Valid() && chunks == Freed(old(chunks), OffsetFrom(address, useableStart))
      ensures found <= 1
      ensures found == 1 <==>
        || SlotAt(old(chunks), OffsetFrom(address, useableStart), 0) < |old(chunks)|
        || (old(chunks) == [] && address % 0x1_0000_0000 == useableStart)
      ensures SlotAt(old(chunks), OffsetFrom(address, useableStart), 0) == |old(chunks)|
        ==> mem[..] == old(mem[..])
      ensures mem[NUM_OF_SLOTS..] == old(mem[NUM_OF_SLOTS..])
    {
      hide Pack, IsOccupied, SizeOf, OffsetOf, ClearOccupied, Represents, Offset, SlotAt, Freed, OffsetFrom;
      ghost var cs, was := chunks, mem[..];
      OffsetZero(address, useableStart);
      var addressOffset := OffsetFrom(address, useableStart);
      for index := 0 to NUM_OF_SLOTS
        invariant mem[..] == was && chunks == cs
        invariant forall k :: 0 <= k < index && k < |cs| ==> Offset(cs, k) != addressOffset
        invariant index > 0 ==> cs != [] || addressOffset != 0
      {
        var allocEntry := mem[index];
        SlotOffset(was, cs, index, addressOffset);
        if OffsetOf(allocEntry) == addressOffset {
          mem[index] := ClearOccupied(allocEntry);
          assert mem[..] == was[index := ClearOccupied(was[index])];
          if index < |cs| {
            chunks := cs[index := cs[index].(live := false)];
          }
          return 1;
        }
      }
      NotFound(was, cs, addressOffset);
      return 0;
    }

    /** The bytes allocated as update_memory_statistic counts them, in 32 bits: the stack above
        `msp`, what lies below the table, the table, and every live chunk. It ends by freeing
        NULL, which frees nothing. */
    method UpdateMemoryStatistic(ramSize: nat, msp: nat) returns (total: nat)
      requires Valid()
      modifies mem, this`chunks
      ensures Valid() && chunks == old(chunks) && mem[..] == old(mem[..])
      ensures total == Unsigned((RAM_START + ramSize - msp) + (tableStart - RAM_START) + 4 * NUM_OF_SLOTS
        + LiveBytes(chunks))
    {
      hide IsOccupied, SizeOf, OffsetOf, LiveBytes, Offset, Unsigned;
      ghost var base := (RAM_START + ramSize - msp) + (tableStart - RAM_START) + 4 * NUM_OF_SLOTS;
      UnsignedSum(RAM_START + ramSize - msp, tableStart - RAM_START);
      UnsignedSum((RAM_START + ramSize - msp) + (tableStart - RAM_START), 4 * NUM_OF_SLOTS);
      total := Unsigned(RAM_START + ramSize - msp);
      total := Unsigned(total + (tableStart - RAM_START));
      total := Unsigned(total + 4 * NUM_OF_SLOTS);
      ghost var cs := chunks;
      LiveBytesPrefix(cs, 0);
      for index := 0 to NUM_OF_SLOTS
        invariant mem[..] == old(mem[..]) && chunks == cs
        invariant total == Unsigned(base + LiveBytes(cs[..if index < |cs| then index else |cs|]))
      {
        SlotBytes(mem[..], cs, index);
        var entry := mem[index];
        if IsOccupied(entry) {
          UnsignedSum(base + LiveBytes(cs[..if index < |cs| then index else |cs|]), SizeOf(entry));
          total := Unsigned(total + SizeOf(entry));
        }
      }
      assert cs[..|cs|] == cs;
      NullOffset(cs, useableStart);
      var _ := Deallocate(NULL);
    }

    /** The search for the end of the gap: the first slot that is occupied or behind h. */
    method FindGapEnd(base: nat, h: nat) returns (end: nat)
      requires base < h && h + 1 < mem.Length
      ensures base < end <= h + 1
      ensures end == ScanEnd(mem[..], h + 1, base + 1)
    {
      hide IsOccupied;
      end := base + 1;
      while true
        invariant base < end <= h + 1
        invariant ScanEnd(mem[..], h + 1, base + 1) == ScanEnd(mem[..], h + 1, end)
        decreases h + 2 - end
      {
        var entry := mem[end];
        if IsOccupied(entry) || end > h {
          break;
        }
        end := end + 1;
      }
    }

    /** The merge of the slots base..end-1 and the shift of the slots behind them. */
    method Merge(base: nat, end: nat, h: nat)
      requires Room(mem[..], h + 1) && base < end <= h + 1
      modifies mem
      ensures mem[..] == Merged(old(mem[..]), h + 1, base, end)
    {
      hide SizeOf, Or, And, Shl, SizeSum, Merged, MergedWord, Rewrite;
      ghost var was := mem[..];
      SizeSumStart(was, base);
      var newSize: nat := 0;
      for k := base to end
        invariant newSize == SizeSum(was, base, k) && mem[..] == was
      {
        SizeSumNext(was, base, k);
        newSize := newSize + SizeOf(mem[k]);
      }
      MergedWordIs(was, base, end);
      mem[base] := And(mem[base], 0xFFFF_0000);
      mem[base] := Or(mem[base], Shl(newSize, 1));
      var offsetIndex := end;
      for newLocation := base + 1 to h + 1
        invariant offsetIndex == end + (newLocation - (base + 1))
        invariant mem[base] == MergedWord(was, base, end)
        invariant forall k {:trigger mem[k]} ::
          0 <= k < base || newLocation <= k < mem.Length ==> mem[k] == was[k]
        invariant forall k {:trigger mem[k]} :: base < k < newLocation ==> mem[k] == was[k + (end - base - 1)]
      {
        mem[newLocation] := mem[offsetIndex];
        offsetIndex := offsetIndex + 1;
      }
      MergedIs(was, mem[..], h + 1, base, end);
    }

    /** The first loop of defrag, which ends at the first virgin word it meets. On a table whose
        64 slots are all carved it leaves the table: everything up to that word would be sorted
        with it. */
    method HighestUsedEntry() returns (h: int)
      requires Valid() && exists k :: 0 <= k < mem.Length && mem[k] == VIRGIN
      ensures -1 <= h < mem.Length - 1 && mem[h + 1] == VIRGIN
      ensures forall k :: 0 <= k <= h ==> mem[k] != VIRGIN
      ensures |chunks| < NUM_OF_SLOTS ==> h == |chunks| - 1
      ensures |chunks| == NUM_OF_SLOTS ==> h >= NUM_OF_SLOTS - 1
      ensures |chunks| == NUM_OF_SLOTS && mem[NUM_OF_SLOTS] != VIRGIN ==> h >= NUM_OF_SLOTS
    {
      hide IsOccupied, Represents;
      UsedSlots(mem[..], chunks);
      ghost var end :| 0 <= end < mem.Length && mem[end] == VIRGIN;
      h := 0;
      while mem[h] != VIRGIN
        invariant 0 <= h <= end && forall k :: 0 <= k < h ==> mem[k] != VIRGIN
        decreases end - h
      {
        h := h + 1;
      }
      h := h - 1;
    }

    /** The outer loop of defrag over the slots 0..h. */
    method ScanTable(h: int)
      requires -1 <= h && Room(mem[..], h + 1)
      modifies mem
      ensures h < 0 ==> mem[..] == old(mem[..])
      ensures h >= 0 ==> mem[..] == ScanFrom(old(mem[..]), h + 1, 0)
    {
      hide IsOccupied, ScanStep, ScanFrom, ScanEnd, Merged;
      ghost var sorted := mem[..];
      var base := 0;
      while base < h
        invariant 0 <= base && |mem[..]| == |sorted| && (h < 0 ==> mem[..] == sorted)
        invariant h >= 0 ==> base <= h && ScanFrom(mem[..], h + 1, base) == ScanFrom(sorted, h + 1, 0)
        decreases h - base
      {
        ghost var before := mem[..];
        ScanStepCases(before, h + 1, base);
        var entry := mem[base];
        if !IsOccupied(entry) && entry != VIRGIN {
          var end := FindGapEnd(base, h);
          if end > base + 1 {
            Merge(base, end, h);
          }
        }
        assert mem[..] == ScanStep(before, h + 1, base);
        base := base + 1;
      }
      if h >= 0 {
        ScanStepCases(mem[..], h + 1, base);
      }
    }

    /** Needs a virgin slot in the table: the first loop looks for one. */
    method Defrag()
      requires Valid() && |chunks| < NUM_OF_SLOTS
      modifies mem, this`chunks
      ensures old(chunks) == [] ==> mem[..] == old(mem[..])
      ensures old(chunks) != [] ==> Defragged(old(mem[..]), mem[..], |old(chunks)|)
      ensures DefragSafe(old(chunks)) ==> Valid() && chunks == Coalesce(old(chunks))
      ensures DefragSafe(old(chunks)) ==> mem[NUM_OF_SLOTS..] == old(mem[NUM_OF_SLOTS..])
    {
      hide IsOccupied, ScanStep, ScanFrom, OffsetComparator, DefragSafe, Coalesce, Merged, PermutesSlice,
        Sorted, Represents, Defragged;
      ghost var cs, was := chunks, mem[..];
      UsedSlots(was, cs);
      assert mem[|cs|] == VIRGIN;
      var h := HighestUsedEntry();
      ComparatorsQualify();
      Sorting.Quicksort(mem, 0, h, OffsetComparator);
      ghost var sorted := mem[..];
      assert h >= 0 ==> sorted[0..h + 1] == mem[0..h + 1];
      ScanTable(h);
      if h >= 0 {
        DefragOutcome(was, sorted, mem[..], cs);
      } else {
        NothingToDefrag(was, cs);
      }
      if DefragSafe(cs) {
        chunks := Coalesce(cs);
      }
    }
  }

  lemma DefragOutcome(was: seq<Word>, sorted: seq<Word>, after: seq<Word>, cs: seq<Chunk>)
    requires Represents(was, cs) && Room(was, |cs|) && cs != [] && |sorted| == |was|
    requires PermutesSlice(was, sorted, 0, |cs|) && Sorted(sorted[0..|cs|], OffsetComparator)
    requires after == ScanFrom(sorted, |cs|, 0)
    ensures Defragged(was, after, |cs|)
    ensures DefragSafe(cs) ==> Represents(after, Coalesce(cs)) && after[N..] == was[N..]
  {
    hide PermutesSlice, Sorted, DefragFits, ScanFrom, Coalesce, Represents;
    assert sorted[0..|cs|] == sorted[..|cs|];
    assert UsedSlotsSorted(was, sorted, |cs|);
    if DefragSafe(cs) {
      DefragCorrect(was, after, cs);
    }
  }

  lemma NothingToDefrag(was: seq<Word>, cs: seq<Chunk>)
    requires Represents(was, cs) && cs == []
    ensures Represents(was, Coalesce(cs))
  {
  }

  const RAM_START: nat := 0x2000_0000

  /** An `unsigned int`. */
  function Unsigned(n: int): nat { n % 0x1_0000_0000 }

  lemma UnsignedSum(a: int, b: int)
    ensures Unsigned(Unsigned(a) + b) == Unsigned(a + b)
  {
    var q := a / 0x1_0000_0000;
    var r, p := Unsigned(a) + b, (Unsigned(a) + b) / 0x1_0000_0000;
    assert a + b == 0x1_0000_0000 * (q + p) + Unsigned(r);
  }

  /** The unsigned 32-bit difference of an address and the start of the memory. */
  function OffsetFrom(address: nat, start: nat): nat { (address - start) % 0x1_0000_0000 }

  lemma OffsetZero(address: nat, start: nat)
    requires start < 0x1_0000_0000
    ensures OffsetFrom(address, start) == 0 <==> address % 0x1_0000_0000 == start
  {
    var q, r := address / 0x1_0000_0000, address % 0x1_0000_0000;
    assert address - start == 0x1_0000_0000 * q + (r - start);
  }

  /** What deallocate finds in slot `index`. */
  lemma SlotOffset(was: seq<Word>, cs: seq<Chunk>, index: nat, offset: nat)
    requires Represents(was, cs) && index < NUM_OF_SLOTS
    requires forall k :: 0 <= k < index && k < |cs| ==> Offset(cs, k) != offset
    requires index > 0 ==> cs != [] || offset != 0
    ensures index < |was| && (index < |cs| ==> OffsetOf(was[index]) == Offset(cs, index))
    ensures index >= |cs| ==> OffsetOf(was[index]) == 0
    ensures OffsetOf(was[index]) == offset && index < |cs| ==>
      && SlotAt(cs, offset, 0) == index
      && Freed(cs, offset) == cs[index := cs[index].(live := false)]
      && Represents(was[index := ClearOccupied(was[index])], cs[index := cs[index].(live := false)])
    ensures OffsetOf(was[index]) == offset && index >= |cs| ==>
      && cs == [] && offset == 0 && SlotAt(cs, offset, 0) == |cs| && Freed(cs, offset) == cs
      && was[index := ClearOccupied(was[index])] == was
  {
    hide Pack, IsOccupied, SizeOf, OffsetOf, ClearOccupied;
    ClearOccupiedFields(was[index]);
    if index < |cs| {
      EntryFields(was, cs);
      FreeRepresents(was, cs, index);
    } else {
      VirginFields();
      PackFields(0, 0x7FFF, false);
      ViewsAgree(VIRGIN);
      assert cs != [] ==> Offset(cs, 0) == 0;
    }
  }

  lemma NotFound(was: seq<Word>, cs: seq<Chunk>, offset: nat)
    requires Represents(was, cs)
    requires forall k :: 0 <= k < NUM_OF_SLOTS && k < |cs| ==> Offset(cs, k) != offset
    ensures SlotAt(cs, offset, 0) == |cs| && Freed(cs, offset) == cs
  {
  }

  lemma LiveBytesPrefix(cs: seq<Chunk>, k: nat)
    requires k <= |cs|
    ensures LiveBytes(cs[..0]) == 0
    ensures k < |cs| ==> LiveBytes(cs[..k + 1]) == LiveBytes(cs[..k]) + if cs[k].live then cs[k].size else 0
  {
    if k < |cs| {
      assert cs[..k + 1][..k] == cs[..k];
    }
  }

  lemma SlotBytes(was: seq<Word>, cs: seq<Chunk>, index: nat)
    requires Represents(was, cs) && index < NUM_OF_SLOTS
    ensures index < |cs| ==>
      LiveBytes(cs[..index + 1]) == LiveBytes(cs[..index]) + if IsOccupied(was[index]) then SizeOf(was[index]) else 0
    ensures index >= |cs| ==> !IsOccupied(was[index])
  {
    hide Pack, IsOccupied, SizeOf, OffsetOf, LiveBytes;
    VirginFields();
    EntryFields(was, cs);
    if index < |cs| {
      LiveBytesPrefix(cs, index);
    }
  }

  /** NULL is no block: its offset needs more than 16 bits. */
  lemma NullOffset(cs: seq<Chunk>, start: nat)
    requires Tiled(cs) && 0 < start && start + 0x2_0000 <= 0x1_0000_0000
    ensures SlotAt(cs, OffsetFrom(NULL, start), 0) == |cs| && Freed(cs, OffsetFrom(NULL, start)) == cs
  {
    hide Offset;
    NullFrom(start);
  }

  lemma NullFrom(start: nat)
    requires 0 < start && start + 0x2_0000 <= 0x1_0000_0000
    ensures OffsetFrom(NULL, start) == 0x1_0000_0000 - start >= 0x2_0000
  {
  }

  lemma SizeSumStart(mem: seq<Word>, b: nat)
    requires b <= |mem|
    ensures SizeSum(mem, b, b) == 0
  {
  }

  lemma SizeSumNext(mem: seq<Word>, b: nat, k: nat)
    requires b <= k < |mem|
    ensures SizeSum(mem, b, k + 1) == SizeSum(mem, b, k) + SizeOf(mem[k])
  {
  }

  lemma MergedWordIs(mem: seq<Word>, b: nat, e: nat)
    requires b < e <= N <= |mem|
    ensures Or(And(mem[b], 0xFFFF_0000), Shl(SizeSum(mem, b, e), 1)) == MergedWord(mem, b, e)
    ensures And(mem[b], 0xFFFF_0000) < 0x1_0000_0000
  {
    hide And, Shl, SizeOf;
    RewriteFields(mem[b], SizeSum(mem, b, e), 0);
    assert Or(Shl(SizeSum(mem, b, e), 1), 0) == Shl(SizeSum(mem, b, e), 1);
  }

  lemma MergedIs(was: seq<Word>, after: seq<Word>, n: nat, b: nat, e: nat)
    requires Room(was, n) && b < e <= n && |after| == |was|
    requires after[b] == MergedWord(was, b, e)
    requires forall k {:trigger after[k]} :: 0 <= k < b || n <= k < |was| ==> after[k] == was[k]
    requires forall k {:trigger after[k]} :: b < k < n ==> after[k] == was[k + (e - b - 1)]
    ensures after == Merged(was, n, b, e)
  {
    hide MergedWord;
  }

  lemma UsedSlots(was: seq<Word>, cs: seq<Chunk>)
    requires Represents(was, cs)
    ensures forall i :: 0 <= i < |cs| ==> was[i] != VIRGIN
    ensures |cs| < NUM_OF_SLOTS ==> was[|cs|] == VIRGIN
  {
    EntryFields(was, cs);
  }

  lemma BadSize(cs: seq<Chunk>, size: nat)
    requires size == 0 || size > 32768
    ensures Decide(cs, size) == Refused && Allocated(cs, Refused) == cs
  {
  }

  lemma AlignedGrant(was: seq<Word>, cs: seq<Chunk>, size: nat, start: nat)
    requires Represents(was, cs) && start % 8 == 0
    ensures !Decide(cs, size).Refused? ==>
      (start + 4 * NUM_OF_SLOTS + Granted(cs, Decide(cs, size)) % 0x1_0000) % 8 == 0
  {
    hide Offset, FirstFit, Pack, RoundUp4;
    if !Decide(cs, size).Refused? {
      var slot := if Decide(cs, size).Reuse? then Decide(cs, size).slot else |cs|;
      OffsetAligned(cs, slot);
      AlignedSum(start, Offset(cs, slot));
    }
  }

  lemma AlignedSum(start: nat, offset: nat)
    requires start % 8 == 0 && offset % 8 == 0
    ensures (start + 4 * NUM_OF_SLOTS + offset % 0x1_0000) % 8 == 0
  {
    var k := offset / 8;
    assert offset == 8 * k;
    assert 8 * k % 0x1_0000 == 8 * (k % 0x2000);
    assert start == 8 * (start / 8);
  }

  lemma SizeInField(offset: nat, size: nat)
    requires offset < 0x1_0000 && size < 0x8000
    ensures FieldSize(Pack(offset, size, false)) == size
  {
    PackFields(offset, size, false);
    ViewsAgree(Pack(offset, size, false));
  }

  /** What the loop of allocate knows before slot `index`. */
  ghost predicate Scanning(cs: seq<Chunk>, wanted: nat, index: nat, next: nat) {
    && (index <= |cs| ==> next == Offset(cs, index))
    && (forall k :: 0 <= k < index && k < |cs| ==> cs[k].live || cs[k].size < wanted)
    && (index > |cs| ==> wanted > 0x7FFF)
  }

  lemma ScanningStart(cs: seq<Chunk>, wanted: nat)
    ensures Scanning(cs, wanted, 0, 0)
  {
  }

  lemma NothingFits(was: seq<Word>, cs: seq<Chunk>, size: nat, wanted: nat, next: nat)
    requires Represents(was, cs) && 1 <= size <= 32768 && wanted == RoundUp4(size)
    requires Scanning(cs, wanted, NUM_OF_SLOTS, next)
    ensures Decide(cs, size) == Refused && Allocated(cs, Refused) == cs
  {
  }

  /** The scan of allocate at a slot that is in use ... */
  lemma ScanCarved(was: seq<Word>, cs: seq<Chunk>, size: nat, wanted: nat, index: nat, next: nat)
    requires Represents(was, cs) && index < |cs| && Scanning(cs, wanted, index, next)
    requires 1 <= size <= 32768 && wanted == RoundUp4(size)
    ensures FieldOccupied(was[index]) == 1 <==> cs[index].live
    ensures FieldSize(was[index]) == cs[index].size != 0x7FFF
    ensures cs[index].live || cs[index].size < wanted
      ==> Scanning(cs, wanted, index + 1, next + cs[index].size)
    ensures !cs[index].live && cs[index].size >= wanted ==>
      && !IsOccupied(was[index])
      && Decide(cs, size) == Reuse(index)
      && Granted(cs, Reuse(index)) == Offset(cs, index) < 0x1_0000
      && Allocated(cs, Reuse(index)) == cs[index := cs[index].(live := true)]
      && OffsetOf(Pack(OffsetOf(was[index]), SizeOf(was[index]), true)) == Offset(cs, index)
      && Represents(was[index := Pack(OffsetOf(was[index]), SizeOf(was[index]), true)],
                    cs[index := cs[index].(live := true)])
  {
    hide Pack, IsOccupied, SizeOf, OffsetOf, FieldSize, FieldOccupied, FieldOffset, Represents, Scanning,
      Decide, Offset;
    TiledSlot(was, cs, index);
    ViewsAgree(was[index]);
    EntryFields(was, cs);
    PackFields(OffsetOf(was[index]), SizeOf(was[index]), true);
    ReuseRepresents(was, cs, index);
    if cs[index].live || cs[index].size < wanted {
      ScanningNext(cs, wanted, index, next);
    }
    ReuseDecision(cs, size, wanted, index, next);
  }

  lemma ScanningNext(cs: seq<Chunk>, wanted: nat, index: nat, next: nat)
    requires index < |cs| && Scanning(cs, wanted, index, next)
    requires cs[index].live || cs[index].size < wanted
    ensures Scanning(cs, wanted, index + 1, next + cs[index].size)
  {
    assert Offset(cs, index + 1) == Offset(cs, index) + cs[index].size;
  }

  lemma TiledSlot(was: seq<Word>, cs: seq<Chunk>, index: nat)
    requires Represents(was, cs) && index < |cs|
    ensures index < |was| && cs[index].size != 0x7FFF && Offset(cs, index) < 0x1_0000
  {
    assert ProperSize(cs[index].size);
  }

  lemma ReuseDecision(cs: seq<Chunk>, size: nat, wanted: nat, index: nat, next: nat)
    requires index < |cs| && Scanning(cs, wanted, index, next)
    requires 1 <= size <= 32768 && wanted == RoundUp4(size)
    ensures !cs[index].live && cs[index].size >= wanted ==> Decide(cs, size) == Reuse(index)
  {
  }

  /** ... and at one that never was. */
  lemma ScanVirgin(was: seq<Word>, cs: seq<Chunk>, size: nat, wanted: nat, index: nat, next: nat)
    requires Represents(was, cs) && |cs| <= index < NUM_OF_SLOTS && Scanning(cs, wanted, index, next)
    requires 1 <= size <= 32768 && wanted == RoundUp4(size)
    ensures was[index] == VIRGIN && FieldOccupied(VIRGIN) != 1 && FieldSize(VIRGIN) == 0x7FFF
    ensures wanted > 0x7FFF ==> Scanning(cs, wanted, index + 1, next + 0x7FFF)
    ensures wanted <= 0x7FFF ==>
      && index == |cs| && next == Total(cs)
      && Decide(cs, size) == Carve(FreshSize(wanted))
      && Granted(cs, Carve(FreshSize(wanted))) == Total(cs)
      && Allocated(cs, Carve(FreshSize(wanted))) == cs + [Chunk(true, FreshSize(wanted))]
      && FieldOffset(Pack(Total(cs) % 0x1_0000, FreshSize(wanted), true)) == Total(cs) % 0x1_0000
  {
    hide Pack, IsOccupied, SizeOf, OffsetOf, FieldSize, FieldOccupied, FieldOffset;
    VirginFields();
    ViewsAgree(VIRGIN);
    var w := Pack(Total(cs) % 0x1_0000, FreshSize(wanted), true);
    ViewsAgree(w);
    PackFields(Total(cs) % 0x1_0000, FreshSize(wanted), true);
  }

  lemma CarveOutcome(was: seq<Word>, cs: seq<Chunk>, size: nat)
    requires Represents(was, cs) && Decide(cs, size).Carve?
    ensures |cs| < NUM_OF_SLOTS
    ensures size <= 32760 && Total(cs) < 0x1_0000 ==>
      Represents(was[|cs| := Pack(Total(cs) % 0x1_0000, Decide(cs, size).size, true)],
                 cs + [Chunk(true, Decide(cs, size).size)])
    ensures size > 32760 || Total(cs) >= 0x1_0000 ==>
      Untiled(was[|cs| := Pack(Total(cs) % 0x1_0000, Decide(cs, size).size, true)])
  {
    hide Pack, Represents;
    var newSize := Decide(cs, size).size;
    FreshProper(cs, size);
    FreshSizeWraps(cs, size);
    if size <= 32760 && Total(cs) < 0x1_0000 {
      CarveRepresents(was, cs, newSize);
    } else {
      CarveBreaks(was, cs, newSize);
    }
  }
}
