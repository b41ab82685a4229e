/** The 32-bit slot word of the allocator: `offset[31..16] | size[15..1] | occupied[0]`.

    The kernel reads and writes the same word in two ways. `deallocate` and `defrag` use masks
    and shifts, `allocate` uses the bit-fields of a C union. Both views are modelled over the
    natural numbers; `And`, `Or`, `Shl` and `Shr` are the bitwise operators, defined bit by
    bit. The lemmas show that the two views agree. */
module Words {

  type Word = w: nat | w < 0x1_0000_0000

  // ---------- bitwise operators ----------

  function And(a: nat, b: nat): (r: nat)
    ensures r <= a
    decreases a
  {
    if a == 0 || b == 0 then 0
    else (if a % 2 == 1 && b % 2 == 1 then 1 else 0) + 2 * And(a / 2, b / 2)
  }

  function Or(a: nat, b: nat): nat
    decreases a + b
  {
    if a == 0 then b
    else if b == 0 then a
    else (if a % 2 == 1 || b % 2 == 1 then 1 else 0) + 2 * Or(a / 2, b / 2)
  }

  function Shl(w: nat, k: nat): nat {
    if k == 0 then w else 2 * Shl(w, k - 1)
  }

  function Shr(w: nat, k: nat): nat {
    if k == 0 then w else Shr(w / 2, k - 1)
  }

  function Ones(k: nat): nat {
    if k == 0 then 0 else 2 * Ones(k - 1) + 1
  }

  /** Masking with k ones keeps the k low bits. */
  lemma {:induction false} AndOnes(w: nat, k: nat)
    ensures And(w, Ones(k)) == w - Shl(Shr(w, k), k)
  {
    if k != 0 {
      AndOnes(w / 2, k - 1);
    }
  }

  lemma {:induction false} AndShl(w: nat, mask: nat, k: nat)
    ensures And(w, Shl(mask, k)) == Shl(And(Shr(w, k), mask), k)
  {
    if k != 0 {
      AndShl(w / 2, mask, k - 1);
    }
  }

  /** OR-ing a number with a multiple of 2^k leaves the k low bits alone. */
  lemma {:induction false} OrShl(a: nat, b: nat, low: nat, k: nat)
    requires low <= Ones(k)
    ensures Or(Shl(a, k), Shl(b, k) + low) == Shl(Or(a, b), k) + low
  {
    if k != 0 {
      OrShl(a, b, low / 2, k - 1);
    }
  }

  lemma {:induction false} OrBounds(a: nat, b: nat, k: nat)
    requires a <= Ones(k) && b <= Ones(k)
    ensures a <= Or(a, b) <= Ones(k)
  {
    if k != 0 {
      OrBounds(a / 2, b / 2, k - 1);
    }
  }

  lemma Shift4(w: nat, k: nat)
    requires k >= 4
    ensures Shl(w, k) == 16 * Shl(w, k - 4) && Shr(w, k) == Shr(w / 16, k - 4)
  {
    assert Shl(w, k) == 2 * Shl(w, k - 1) == 4 * Shl(w, k - 2) == 8 * Shl(w, k - 3);
    assert Shr(w, k) == Shr(w / 2, k - 1) == Shr(w / 4, k - 2) == Shr(w / 8, k - 3);
  }

  lemma Shift8(w: nat, k: nat)
    requires k >= 8
    ensures Shl(w, k) == 256 * Shl(w, k - 8) && Shr(w, k) == Shr(w / 256, k - 8)
  {
    Shift4(w, k); Shift4(w, k - 4); Shift4(w / 16, k - 4);
  }

  lemma Shift16(w: nat)
    ensures Shl(w, 16) == 0x1_0000 * w && Shr(w, 16) == w / 0x1_0000
  {
    Shift8(w, 16); Shift8(w, 8); Shift8(w / 256, 8);
  }

  lemma Literals()
    ensures Ones(1) == 1 && Ones(15) == 0x7FFF && Ones(16) == 0xFFFF
    ensures Shl(0x7FFF, 1) == 0xFFFE && Shl(0xFFFF, 16) == 0xFFFF_0000
  {
    assert Ones(5) == 31;
    assert Ones(10) == 1023;
    Shift16(0xFFFF);
  }

  /** The masks of memory.c, as arithmetic. */
  lemma Masks(w: Word)
    ensures And(w, 1) == w % 2
    ensures Shr(And(w, 0xFFFE), 1) == w / 2 % 0x8000
    ensures And(w, 0xFFFF_0000) == w - w % 0x1_0000 == Shl(w / 0x1_0000, 16)
  {
    hide And, Or, Shl, Shr, Ones;
    MaskOccupied(w);
    MaskSize(w);
    MaskOffset(w);
  }

  lemma MaskOccupied(w: Word)
    ensures And(w, 1) == w % 2
  {
    Literals();
    AndOnes(w, 1);
    assert Shl(Shr(w, 1), 1) == 2 * (w / 2);
  }

  lemma MaskSize(w: Word)
    ensures Shr(And(w, 0xFFFE), 1) == w / 2 % 0x8000
  {
    Literals();
    var h := w / 2;
    AndOnes(h, 15);
    assert Shl(Shr(h, 15), 15) == 0x8000 * (h / 0x8000) by {
      Shift16(w);
      Shift16(h / 0x8000);
      assert Shr(w, 16) == Shr(h, 15);
      assert w / 0x1_0000 == h / 0x8000;
    }
    AndShl(w, 0x7FFF, 1);
    assert And(w, 0xFFFE) == 2 * And(h, 0x7FFF);
  }

  lemma MaskOffset(w: Word)
    ensures And(w, 0xFFFF_0000) == w - w % 0x1_0000 == Shl(w / 0x1_0000, 16)
  {
    hide And, Shl, Shr, Ones;
    Literals();
    AndShl(w, 0xFFFF, 16);
    Shift16(w);
    var top := w / 0x1_0000;
    AndOnes(top, 16);
    Shift16(top);
    Shift16(top / 0x1_0000);
    Shift16(0);
    Shift16(And(top, 0xFFFF));
  }

  // ---------- the mask/shift view: deallocate, defrag ----------

  predicate IsOccupied(w: Word) { And(w, 1) == 1 }

  function SizeOf(w: Word): (size: nat)
    ensures size < 0x8000
  {
    Masks(w);
    Shr(And(w, 0xFFFE), 1)
  }

  function OffsetOf(w: Word): (offset: nat)
    ensures offset < 0x1_0000
  {
    Shift16(w);
    Shr(w, 16)
  }

  // ---------- the bit-field view: allocate ----------

  function FieldOccupied(w: Word): nat { w % 2 }

  function FieldSize(w: Word): nat { w / 2 % 0x8000 }

  function FieldOffset(w: Word): nat { w / 0x1_0000 % 0x1_0000 }

  // A store into a bit-field keeps the low bits that fit and leaves the other fields alone.
  function WithOccupied(w: Word, occupied: nat): Word { w - w % 2 + occupied % 2 }

  function WithSize(w: Word, size: nat): Word {
    w - 2 * (w / 2 % 0x8000) + 2 * (size % 0x8000)
  }

  function WithOffset(w: Word, offset: nat): Word {
    w % 0x1_0000 + 0x1_0000 * (offset % 0x1_0000)
  }

  /** The word whose fields are the three given ones. */
  function Pack(offset: nat, size: nat, occupied: bool): Word
    requires offset < 0x1_0000 && size < 0x8000
  {
    0x1_0000 * offset + 2 * size + if occupied then 1 else 0
  }

  /** Both views read the same three fields, and a word is determined by them. */
  lemma ViewsAgree(w: Word)
    ensures IsOccupied(w) <==> FieldOccupied(w) == 1
    ensures SizeOf(w) == FieldSize(w) && OffsetOf(w) == FieldOffset(w)
    ensures w == Pack(OffsetOf(w), SizeOf(w), IsOccupied(w))
  {
    Masks(w);
    Shift16(w);
    Recompose(w);
  }

  lemma Recompose(w: Word)
    ensures w == 0x1_0000 * (w / 0x1_0000) + 2 * (w / 2 % 0x8000) + w % 2
  {
    assert w / 2 / 0x8000 == w / 0x1_0000;
  }

  lemma PackFields(offset: nat, size: nat, occupied: bool)
    requires offset < 0x1_0000 && size < 0x8000
    ensures OffsetOf(Pack(offset, size, occupied)) == offset
    ensures SizeOf(Pack(offset, size, occupied)) == size
    ensures IsOccupied(Pack(offset, size, occupied)) == occupied
  {
    var w := Pack(offset, size, occupied);
    ViewsAgree(w);
    assert FieldSize(w) == size && FieldOffset(w) == offset by {
      assert w / 2 == 0x8000 * offset + size;
    }
  }

  /** The slot that was never carved. */
  const VIRGIN: Word := 0xFFFE

  lemma VirginFields()
    ensures SizeOf(VIRGIN) == 0x7FFF && OffsetOf(VIRGIN) == 0 && !IsOccupied(VIRGIN)
  {
    PackFields(0, 0x7FFF, false);
  }

  // ---------- the compound updates of memory.c ----------

  /** `entry & ~1` */
  function ClearOccupied(w: Word): Word { And(w, 0xFFFF_FFFE) }

  /** `entry &= 0xFFFF0000; entry |= (size << 1) | flag` */
  function Rewrite(w: Word, size: nat, flag: nat): nat {
    Or(And(w, 0xFFFF_0000), Or(Shl(size, 1), flag))
  }

  lemma ClearOccupiedFields(w: Word)
    ensures ClearOccupied(w) == Pack(OffsetOf(w), SizeOf(w), false)
  {
    hide IsOccupied, SizeOf, OffsetOf;
    ViewsAgree(w);
    AllButLast(w);
  }

  lemma AllButLast(w: Word)
    ensures ClearOccupied(w) == w - w % 2
  {
    hide And, Shr, Ones;
    var h: nat := w / 2;
    AndShl(w, 0x7FFF_FFFF, 1);
    ShiftOne(w);
    Ones31();
    AndOnes(h, 31);
    ShrSmall(h, 31);
    ShlZero(31);
    assert Shl(0x7FFF_FFFF, 1) == 0xFFFF_FFFE;
    assert Shl(h, 1) == 2 * h;
  }

  lemma ShiftOne(w: nat)
    ensures Shr(w, 1) == w / 2
  {
  }

  lemma Ones31()
    ensures Ones(31) == 0x7FFF_FFFF
  {
    assert Ones(10) == 1023;
    assert Ones(20) == 0xF_FFFF;
  }

  lemma {:induction false} ShrSmall(w: nat, k: nat)
    requires w <= Ones(k)
    ensures Shr(w, k) == 0
  {
    if k != 0 { ShrSmall(w / 2, k - 1); }
  }

  lemma {:induction false} ShlZero(k: nat)
    ensures Shl(0, k) == 0
  {
    if k != 0 { ShlZero(k - 1); }
  }

  lemma OrFlag(size: nat, flag: nat)
    requires flag <= 1
    ensures Or(Shl(size, 1), flag) == 2 * size + flag
  {
    assert Or(size, 0) == size;
    OrShl(size, 0, flag, 1);
  }

  lemma SplitLow(size: nat, flag: nat)
    requires flag <= 1
    ensures (2 * size + flag) % 0x1_0000 == 2 * (size % 0x8000) + flag
    ensures (2 * size + flag) / 0x1_0000 == size / 0x8000
  {
  }

  /** The rewritten word as one OR of two disjoint parts. */
  lemma RewriteSum(w: Word, size: nat, flag: nat)
    requires size < 0x80_0000 && flag <= 1
    ensures var low := 2 * size + flag;
            (Rewrite(w, size, flag)
              == 0x1_0000 * Or(w / 0x1_0000, low / 0x1_0000) + low % 0x1_0000)
  {
    hide And, Or, Shr, Ones;
    Masks(w);
    OrFlag(size, flag);
    var low := 2 * size + flag;
    var top, carry := w / 0x1_0000, low / 0x1_0000;
    assert low % 0x1_0000 <= Ones(16) by { Literals(); }
    OrShl(top, carry, low % 0x1_0000, 16);
    Shift16(carry);
    Shift16(Or(top, carry));
  }

  /** What the masked rewrite leaves behind, also when the size needs more than its 15 bits:
      the excess is OR-ed into the offset. */
  lemma RewriteFields(w: Word, size: nat, flag: nat)
    requires size < 0x80_0000 && flag <= 1
    ensures Rewrite(w, size, flag) < 0x1_0000_0000
    ensures SizeOf(Rewrite(w, size, flag)) == size % 0x8000
    ensures OffsetOf(Rewrite(w, size, flag)) == Or(OffsetOf(w), size / 0x8000) >= OffsetOf(w)
    ensures size < 0x8000 ==> Rewrite(w, size, flag) == Pack(OffsetOf(w), size, flag == 1)
  {
    RewriteSum(w, size, flag);
    SplitLow(size, flag);
    var top := Or(w / 0x1_0000, size / 0x8000);
    assert OffsetOf(w) == w / 0x1_0000 <= top < 0x1_0000 by {
      Literals();
      OrBounds(w / 0x1_0000, size / 0x8000, 16);
      Shift16(w);
    }
    PackFields(top, size % 0x8000, flag == 1);
    assert Rewrite(w, size, flag) == Pack(top, size % 0x8000, flag == 1);
    assert size < 0x8000 ==> top == w / 0x1_0000;
  }
}
