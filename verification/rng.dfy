/**
 * The buffered hardware random-byte source: one 32-bit word read from the
 * Turing random-number register serves four calls, one byte each, through
 * a cursor that wraps from 4 back to 0.  The word's bytes are taken in
 * little-endian order, as the union of a word and a byte array lays them
 * out on the platform.  The value the register would return is an input of
 * each call; a ghost counter records how many times it is actually read.
 */
module Rng {

  const RNG_WORD_BYTES: nat := 4

  /** Byte `k` of `w` in memory order (little-endian). */
  function ByteOf(w: bv32, k: nat): (b: bv8)
    requires k < RNG_WORD_BYTES
  {
    var shifted := if k == 0 then w else if k == 1 then w >> 8 else if k == 2 then w >> 16 else w >> 24;
    (shifted & 0xFF) as bv8
  }

  /** The four bytes of a word put back together give the word. */
  lemma BytesMakeWord(w: bv32)
    ensures (ByteOf(w, 0) as bv32) | (ByteOf(w, 1) as bv32 << 8) | (ByteOf(w, 2) as bv32 << 16)
      | (ByteOf(w, 3) as bv32 << 24) == w
  {
  }

  /** The driver state between calls: the cursor and the buffered word. */
  datatype RngState = RngState(pos: nat, word: bv32)

  predicate ValidState(s: RngState)
  {
    s.pos < RNG_WORD_BYTES
  }

  /**
   * One call of hw_get_random_byte: at cursor 0 the buffer is refilled from
   * the hardware word `hw`; the byte under the cursor is returned and the
   * cursor advances, wrapping to 0 after the last byte.
   */
  function Step(s: RngState, hw: bv32): (r: (RngState, bv8))
    requires ValidState(s)
    ensures ValidState(r.0)
    ensures r.0.pos == (s.pos + 1) % RNG_WORD_BYTES
    ensures r.0.word == (if s.pos == 0 then hw else s.word)
    ensures r.1 == ByteOf(r.0.word, s.pos)
  {
    var w := if s.pos == 0 then hw else s.word;
    var b := ByteOf(w, s.pos);
    var p := if s.pos + 1 == RNG_WORD_BYTES then 0 else s.pos + 1;
    (RngState(p, w), b)
  }

  /** Whether a call in state `s` reads the hardware register. */
  predicate ReadsHardware(s: RngState)
  {
    s.pos == 0
  }

  /**
   * Four calls from cursor 0 return the four bytes of the first word in
   * order, end at cursor 0 again, and only the first of them reads the
   * hardware: the words offered to the other three are ignored.
   */
  lemma FourCallsOneWord(s: RngState, h0: bv32, h1: bv32, h2: bv32, h3: bv32)
    requires ValidState(s) && s.pos == 0
    ensures var (s1, b0) := Step(s, h0);
      var (s2, b1) := Step(s1, h1);
      var (s3, b2) := Step(s2, h2);
      var (s4, b3) := Step(s3, h3);
      [b0, b1, b2, b3] == [ByteOf(h0, 0), ByteOf(h0, 1), ByteOf(h0, 2), ByteOf(h0, 3)]
      && s4 == RngState(0, h0)
      && ReadsHardware(s) && !ReadsHardware(s1) && !ReadsHardware(s2) && !ReadsHardware(s3)
  {
  }

  class RngDriver {
    var pos: nat
    /** rng.random, the buffered word. */
    var random: bv32
    /** How many times the hardware register has been read. */
    ghost var hwReads: nat

    function State(): RngState
      reads this
    {
      RngState(pos, random)
    }

    predicate Valid()
      reads this
    {
      ValidState(State())
    }

    constructor ()
      ensures Valid() && pos == 0 && hwReads == 0
    {
      pos := 0;
      random := 0;
      hwReads := 0;
    }

    /** hw_get_random_byte; `hw` is what turing_get_random would return now. */
    method GetRandomByte(hw: bv32) returns (b: bv8)
      requires Valid()
      modifies this
      ensures Valid()
      ensures (State(), b) == Step(old(State()), hw)
      ensures hwReads == old(hwReads) + (if ReadsHardware(old(State())) then 1 else 0)
    {
      if pos == 0 {
        random := hw;
        hwReads := hwReads + 1;
      }
      b := ByteOf(random, pos);
      pos := pos + 1;
      if pos == RNG_WORD_BYTES {
        pos := 0;
      }
    }
  }
}
