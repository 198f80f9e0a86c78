// Machine integers, optional values and the bit masks of src/mem_block.c.
module Machine {
  // Registers and memory words are 32 bits wide.  Arithmetic on this type is
  // checked, so every address the allocator computes is proved not to wrap.
  newtype uint32 = x: int | 0 <= x < 0x1_0000_0000

  // FIFO pointers are 8 bits wide (include/fifo.h).
  newtype uint8 = x: int | 0 <= x < 256

  // A pointer that may be NULL.
  datatype Option<T> = None | Some(value: T)
}

module Bits {
  // Bitwise conjunction and disjunction, bit by bit from the low end.
  function And(x: nat, y: nat): (r: nat)
    ensures r <= x && r <= y
  {
    if x == 0 || y == 0 then 0 else (if x % 2 == 1 && y % 2 == 1 then 1 else 0) + 2 * And(x / 2, y / 2)
  }

  function Or(x: nat, y: nat): nat
    decreases x + y
  {
    if x == 0 then y else if y == 0 then x
    else (if x % 2 == 1 || y % 2 == 1 then 1 else 0) + 2 * Or(x / 2, y / 2)
  }

  function Pow2(k: nat): (p: nat)
    ensures p >= 1
  {
    if k == 0 then 1 else 2 * Pow2(k - 1)
  }

  lemma Pow2Byte(k: nat)
    ensures Pow2(k + 8) == 256 * Pow2(k)
  {
    assert Pow2(k + 1) == 2 * Pow2(k) && Pow2(k + 2) == 2 * Pow2(k + 1);
    assert Pow2(k + 3) == 2 * Pow2(k + 2) && Pow2(k + 4) == 2 * Pow2(k + 3);
    assert Pow2(k + 5) == 2 * Pow2(k + 4) && Pow2(k + 6) == 2 * Pow2(k + 5);
    assert Pow2(k + 7) == 2 * Pow2(k + 6) && Pow2(k + 8) == 2 * Pow2(k + 7);
  }

  lemma Pow2Values()
    ensures Pow2(29) == 0x2000_0000 && Pow2(31) == 0x8000_0000
  {
    assert Pow2(5) == 32;
    Pow2Byte(5);
    Pow2Byte(13);
    Pow2Byte(21);
  }

  // Masking with k low ones keeps a number that fits in k bits.
  lemma {:induction false} AndOnes(x: nat, k: nat)
    requires x < Pow2(k)
    ensures And(x, Pow2(k) - 1) == x
  {
    if k > 0 && x > 0 {
      assert (Pow2(k) - 1) / 2 == Pow2(k - 1) - 1;
      AndOnes(x / 2, k - 1);
    }
  }

  lemma AndDropsThree(x: nat, y: nat)
    ensures And(x, 8 * y) == 8 * And(x / 8, y)
  {
    hide And;
    Halves(x);
    AndDouble(x, 4 * y);
    AndDouble(x / 2, 2 * y);
    AndDouble(x / 2 / 2, y);
    assert 2 * (4 * y) == 8 * y && 2 * (2 * y) == 4 * y;
  }

  lemma Halves(x: nat)
    ensures x / 2 / 2 / 2 == x / 8
  {
  }

  lemma AndDouble(x: nat, y: nat)
    ensures And(x, 2 * y) == 2 * And(x / 2, y)
  {
    if x > 0 && y > 0 {
      assert (2 * y) / 2 == y && (2 * y) % 2 == 0;
    }
  }

  lemma AndOne(x: nat)
    ensures And(x, 1) == x % 2
  {
    if x > 0 {
      assert And(x / 2, 0) == 0;
    }
  }

  lemma AndSeven(x: nat)
    ensures And(x, 7) == x % 8
  {
    AndStep(x, 3);
    AndStep(x / 2, 1);
    AndOne(x / 2 / 2);
    hide And;
    LowThree(x);
  }

  // One bit at a time.
  lemma AndStep(x: nat, y: nat)
    ensures And(x, 2 * y + 1) == x % 2 + 2 * And(x / 2, y)
  {
    assert (2 * y + 1) % 2 == 1 && (2 * y + 1) / 2 == y;
  }

  lemma LowThree(x: nat)
    ensures x % 8 == x % 2 + 2 * (x / 2 % 2) + 4 * (x / 2 / 2 % 2)
  {
  }

  lemma OrDisjoint(low: nat, y: nat)
    requires low < 8 && y % 8 == 0
    ensures Or(low, y) == low + y
  {
    var t := y / 8;
    assert y / 2 == 4 * t && y / 2 / 2 == 2 * t && y / 2 / 2 / 2 == t;
    assert Or(low / 2 / 2 / 2, t) == t;
    assert Or(low / 2 / 2, 2 * t) == low / 4 + 2 * t;
    assert Or(low / 2, 4 * t) == low / 2 + 4 * t;
  }
}

// A boundary tag is one word: the block size in the high 29 bits, the
// allocated bit in bit 0, and two reserved bits that may hold anything.
module BoundaryTag {
  import opened Bits

  predicate IsWord(w: int) { 0 <= w < 0x1_0000_0000 }

  // The masks as the program writes them.
  function MaskedSize(w: nat): nat { And(w, 0xFFFF_FFF8) }

  function MaskedUsed(w: nat): nat { And(w, 1) }

  function StoreSize(w: nat, size: nat): nat { Or(And(w, 7), size) }

  function StoreUsed(w: nat, bit: nat): nat { Or(And(w, 0xFFFF_FFFE), And(bit, 1)) }

  // What the masks compute.
  function SizeOf(w: int): int { w - w % 8 }

  function UsedBit(w: int): int { w % 2 }

  function WithSize(w: int, size: int): int { w % 8 + size }

  function WithUsed(w: int, bit: int): int { w - w % 2 + bit }

  lemma MaskedSizeIs(w: nat)
    requires IsWord(w)
    ensures MaskedSize(w) == SizeOf(w)
  {
    Pow2Values();
    AndDropsThree(w, 0x1FFF_FFFF);
    AndOnes(w / 8, 29);
  }

  lemma MaskedUsedIs(w: nat)
    ensures MaskedUsed(w) == UsedBit(w)
  {
    AndOne(w);
  }

  lemma StoreSizeIs(w: nat, size: nat)
    requires size % 8 == 0
    ensures StoreSize(w, size) == WithSize(w, size)
  {
    AndSeven(w);
    OrDisjoint(w % 8, size);
  }

  lemma StoreUsedIs(w: nat, bit: nat)
    requires IsWord(w) && bit <= 1
    ensures StoreUsed(w, bit) == WithUsed(w, bit)
  {
    Pow2Values();
    AndDouble(w, 0x7FFF_FFFF);
    AndOnes(w / 2, 31);
    AndOne(bit);
    hide And, Or, Pow2;
    OrEvenBit(w - w % 2, bit);
  }

  lemma OrEvenBit(x: nat, bit: nat)
    requires x % 2 == 0 && bit <= 1
    ensures Or(x, bit) == x + bit
  {
    if x > 0 && bit > 0 {
      assert Or(x / 2, 0) == x / 2;
    }
  }

  // Writing a size keeps the three low bits, writing the allocated bit keeps
  // every other bit, and both written values read back.
  lemma SizeFieldReadsBack(w: nat, size: nat)
    requires IsWord(w) && IsWord(size) && size % 8 == 0
    ensures IsWord(StoreSize(w, size)) && StoreSize(w, size) % 8 == w % 8
    ensures MaskedSize(StoreSize(w, size)) == size
    ensures MaskedUsed(StoreSize(w, size)) == MaskedUsed(w)
  {
    StoreSizeIs(w, size);
    var t := WithSize(w, size);
    WithSizeFields(w, size);
    MaskedSizeIs(t);
    MaskedUsedIs(w);
    MaskedUsedIs(t);
  }

  lemma UsedFieldReadsBack(w: nat, bit: nat)
    requires IsWord(w) && bit <= 1
    ensures IsWord(StoreUsed(w, bit)) && StoreUsed(w, bit) / 2 == w / 2
    ensures MaskedUsed(StoreUsed(w, bit)) == bit
    ensures MaskedSize(StoreUsed(w, bit)) == MaskedSize(w)
  {
    StoreUsedIs(w, bit);
    var t := WithUsed(w, bit);
    WithUsedFields(w, bit);
    MaskedUsedIs(t);
    MaskedSizeIs(w);
    MaskedSizeIs(t);
  }

  lemma WithUsedFields(w: nat, bit: nat)
    requires IsWord(w) && bit <= 1
    ensures IsWord(WithUsed(w, bit)) && WithUsed(w, bit) / 2 == w / 2
    ensures UsedBit(WithUsed(w, bit)) == bit && SizeOf(WithUsed(w, bit)) == SizeOf(w)
  {
    var h := w / 2;
    assert WithUsed(w, bit) == 2 * h + bit && w == 2 * h + w % 2;
    LowBits(h, bit);
    LowBits(h, w % 2);
  }

  lemma LowBits(h: nat, bit: nat)
    requires bit <= 1
    ensures (2 * h + bit) / 2 == h && (2 * h + bit) % 2 == bit && (2 * h + bit) % 8 == 2 * (h % 4) + bit
  {
    HalfOfPair(h, bit);
    EighthOfPair(h / 4, h % 4, bit);
    assert h == 4 * (h / 4) + h % 4;
  }

  lemma HalfOfPair(h: nat, bit: nat)
    requires bit <= 1
    ensures (2 * h + bit) / 2 == h && (2 * h + bit) % 2 == bit
  {
  }

  lemma EighthOfPair(q: nat, r: nat, bit: nat)
    requires r < 4 && bit <= 1
    ensures (2 * (4 * q + r) + bit) % 8 == 2 * r + bit
  {
    assert 2 * (4 * q + r) + bit == 8 * q + (2 * r + bit);
  }

  lemma WithSizeFields(w: nat, size: nat)
    requires IsWord(w) && IsWord(size) && size % 8 == 0
    ensures IsWord(WithSize(w, size)) && WithSize(w, size) % 8 == w % 8
    ensures UsedBit(WithSize(w, size)) == UsedBit(w) && SizeOf(WithSize(w, size)) == size
  {
    var low, k := w % 8, size / 8;
    assert WithSize(w, size) == low + 8 * k && w == low + 8 * (w / 8);
    assert (low + 8 * k) % 8 == low;
    SameParity(low, 4 * k, 4 * (w / 8));
    assert k <= 0x1FFF_FFFF;
  }

  lemma SameParity(low: nat, x: nat, y: nat)
    ensures (low + 2 * x) % 2 == (low + 2 * y) % 2
  {
    assert (low + 2 * x) % 2 == low % 2;
  }
}
