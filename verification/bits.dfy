/**
 * Single-bit operations on 32-bit register words, as the GIC accessors and
 * the timer control macros use them: `(w >> b) & 1`, `w | (1 << b)` and
 * `w & ~(1 << b)`.  Interrupt IDs are unsigned, so `id >> 5` and `id & 31`
 * are written `id / 32` and `id % 32`.
 */
module Bits {

  const TWO_32: nat := 0x1_0000_0000
  const TWO_64: nat := 0x1_0000_0000_0000_0000

  /** Value of bit `k` of `w`, as 0 or 1. */
  function Bit(w: bv32, k: bv32): (r: bv32)
    requires k < 32
    ensures r == 0 || r == 1
  {
    (w >> k) & 1
  }

  /** The one-hot word `1 << b`. */
  function OneHot(b: bv32): (r: bv32)
    requires b < 32
    ensures Bit(r, b) == 1
  {
    1 << b
  }

  function SetBit(w: bv32, b: bv32): (r: bv32)
    requires b < 32
    ensures Bit(r, b) == 1
  {
    w | OneHot(b)
  }

  function ClrBit(w: bv32, b: bv32): (r: bv32)
    requires b < 32
    ensures Bit(r, b) == 0
  {
    w & !OneHot(b)
  }

  /** The bit number an interrupt ID occupies inside its 32-bit register word. */
  function BitNum(id: nat): (b: bv32)
    ensures b < 32
    ensures b as nat == id % 32
  {
    (id % 32) as bv5 as bv32
  }

  /** Only the low five bits of an ID select its bit. */
  lemma BitNumMod(id: nat)
    ensures BitNum(id % 32) == BitNum(id)
  {
  }

  lemma OneHotOther(b: bv32, k: bv32)
    requires b < 32 && k < 32 && k != b
    ensures Bit(OneHot(b), k) == 0
  {
  }

  lemma SetBitOther(w: bv32, b: bv32, k: bv32)
    requires b < 32 && k < 32 && k != b
    ensures Bit(SetBit(w, b), k) == Bit(w, k)
  {
  }

  lemma ClrBitOther(w: bv32, b: bv32, k: bv32)
    requires b < 32 && k < 32 && k != b
    ensures Bit(ClrBit(w, b), k) == Bit(w, k)
  {
  }

  /** SetBit and ClrBit change bit `b` and none of the other 31 bits. */
  lemma SetClrFrame(w: bv32, b: bv32)
    requires b < 32
    ensures forall k: bv32 :: k < 32 && k != b ==> Bit(SetBit(w, b), k) == Bit(w, k)
    ensures forall k: bv32 :: k < 32 && k != b ==> Bit(ClrBit(w, b), k) == Bit(w, k)
    ensures forall k: bv32 :: k < 32 && k != b ==> Bit(OneHot(b), k) == 0
  {
    forall k: bv32 | k < 32 && k != b
      ensures Bit(SetBit(w, b), k) == Bit(w, k) && Bit(ClrBit(w, b), k) == Bit(w, k)
      ensures Bit(OneHot(b), k) == 0
    {
      SetBitOther(w, b, k);
      ClrBitOther(w, b, k);
      OneHotOther(b, k);
    }
  }

  /** `w & (1 << b)` is non-zero exactly when bit `b` of `w` is set. */
  lemma MaskTest(w: bv32, b: bv32)
    requires b < 32
    ensures (w & OneHot(b) != 0) <==> Bit(w, b) == 1
  {
  }

  /** Setting or clearing the same bit twice is the same as doing it once. */
  lemma SetClrIdempotent(w: bv32, b: bv32)
    requires b < 32
    ensures SetBit(SetBit(w, b), b) == SetBit(w, b)
    ensures ClrBit(ClrBit(w, b), b) == ClrBit(w, b)
  {
  }

  /** Clearing a set bit and setting it again restores the word. */
  lemma SetAfterClr(w: bv32, b: bv32)
    requires b < 32 && Bit(w, b) == 1
    ensures SetBit(ClrBit(w, b), b) == w
  {
  }

  /** The last of a set and a clear of the same bit decides the word. */
  lemma SetClrOverride(w: bv32, b: bv32)
    requires b < 32
    ensures SetBit(ClrBit(w, b), b) == SetBit(w, b)
    ensures ClrBit(SetBit(w, b), b) == ClrBit(w, b)
  {
  }

  /** Setting a bit that is already set, or clearing one already clear, changes nothing. */
  lemma SetClrNoop(w: bv32, b: bv32)
    requires b < 32
    ensures Bit(w, b) == 1 ==> SetBit(w, b) == w
    ensures Bit(w, b) == 0 ==> ClrBit(w, b) == w
  {
  }
}
