/**
 * Bit-range primitives on 32-bit unsigned words (src/util.rs).
 *
 * A Rust `u32` is modelled as `bv32`, so `&`, `|`, `<<`, `>>` and the
 * wrapping `-` are Dafny's own bit-vector operators. Bit ranges are
 * inclusive, `start..=end`, and every primitive rests on the caller's
 * promise `start <= end <= 31`, which here is a `requires`.
 *
 * The three primitives are stated bit by bit (`BitSet`): inside the range,
 * outside it below `start` and outside it above `end`. Each region has its
 * own small lemma and one lemma per primitive puts the regions together.
 */
module Util {

  /** The all-ones word, Rust's `u32::MAX`. */
  const U32Max: bv32 := 0xFFFF_FFFF

  /** Bit `i` of `x` (bit 0 is the least significant one). */
  predicate BitSet(x: bv32, i: bv32)
    requires i < 32
  {
    (x >> i) & 1 == 1
  }

  /**
   * `2u32.pow(k)`, by repeated doubling. `2u32.pow(32)` overflows a `u32`,
   * which is why every primitive below special-cases the full width.
   */
  function Pow2(k: bv32): (p: bv32)
    requires k < 32
    ensures p == 1 << k
  {
    if k == 0 then 1 else 2 * Pow2(k - 1)
  }

  /**
   * `get_digits`: bits `start..=end` of `number`, moved down to bit 0.
   * At the full width (`0..=31`) it is `number` itself; below it the
   * result fits in `end - start + 1` bits (`GetDigitsFits`).
   */
  function GetDigits(number: bv32, start: bv32, end: bv32): (r: bv32)
    requires start <= end < 32
    ensures end - start == 31 ==> r == number
  {
    var mask := if end - start + 1 < 32 then (Pow2(end - start + 1) - 1) << start else U32Max;
    (number & mask) >> start
  }

  /**
   * `set_one_digits`: `number` with bits `start..=end` forced to 1.
   * At the full width the result is `u32::MAX`.
   */
  function SetOneDigits(number: bv32, start: bv32, end: bv32): (r: bv32)
    requires start <= end < 32
    ensures end - start == 31 ==> r == U32Max
  {
    if end - start + 1 < 32 then ((Pow2(end - start + 1) - 1) << start) | number else U32Max
  }

  /**
   * `set_zero_digits`: `number` with bits `start..=end` forced to 0.
   * Rust's `-` binds tighter than `&`, so the source computes
   * `(u32::MAX - mask) & number`. At the full width the result is 0.
   */
  function SetZeroDigits(number: bv32, start: bv32, end: bv32): (r: bv32)
    requires start <= end < 32
    ensures end - start == 31 ==> r == 0
  {
    if end - start + 1 < 32 then (U32Max - ((Pow2(end - start + 1) - 1) << start)) & number else 0
  }

  // ---------------------------------------------------------------------
  // get_digits

  /** Below the full width the result fits in `end - start + 1` bits. */
  lemma GetDigitsFits(number: bv32, start: bv32, end: bv32)
    requires start <= end < 32 && end - start < 31
    ensures GetDigits(number, start, end) < Pow2(end - start + 1)
  {
  }

  /** The full-width call returns its argument unchanged. */
  lemma GetDigitsFullWidth(number: bv32)
    ensures GetDigits(number, 0, 31) == number
  {
  }

  /** Below the full width, `get_digits` is "shift down, then keep the low `width` bits". */
  lemma GetDigitsShiftThenMask(number: bv32, start: bv32, end: bv32)
    requires start <= end < 32 && end - start < 31
    ensures GetDigits(number, start, end) == (number >> start) & (Pow2(end - start + 1) - 1)
  {
  }

  lemma MaskedShiftBit(number: bv32, start: bv32, end: bv32, i: bv32)
    requires start <= end < 32 && end - start < 31 && i <= end - start
    ensures BitSet((number >> start) & (Pow2(end - start + 1) - 1), i) == BitSet(number, start + i)
  {
  }

  lemma GetDigitsBitInRangePart(number: bv32, start: bv32, end: bv32, i: bv32)
    requires start <= end < 32 && end - start < 31 && i <= end - start
    ensures BitSet(GetDigits(number, start, end), i) == BitSet(number, start + i)
  {
    GetDigitsShiftThenMask(number, start, end);
    MaskedShiftBit(number, start, end, i);
  }

  lemma GetDigitsBitFull(number: bv32, start: bv32, end: bv32, i: bv32)
    requires start <= end < 32 && end - start == 31 && i < 32
    ensures BitSet(GetDigits(number, start, end), i) == BitSet(number, start + i)
  {
    assert start == 0 && end == 31;
    GetDigitsFullWidth(number);
  }

  lemma GetDigitsBitAbove(number: bv32, start: bv32, end: bv32, i: bv32)
    requires start <= end < 32 && end - start < i < 32
    ensures !BitSet(GetDigits(number, start, end), i)
  {
  }

  /**
   * `get_digits` keeps exactly the bits of the range, right-aligned: bit
   * `i` of the result is bit `start + i` of `number` while `i` is inside
   * the range width, and 0 above it.
   */
  lemma GetDigitsBit(number: bv32, start: bv32, end: bv32, i: bv32)
    requires start <= end < 32 && i < 32
    ensures BitSet(GetDigits(number, start, end), i)
            <==> i <= end - start && BitSet(number, start + i)
  {
    if end - start < i {
      GetDigitsBitAbove(number, start, end, i);
    } else if end - start < 31 {
      GetDigitsBitInRangePart(number, start, end, i);
    } else {
      GetDigitsBitFull(number, start, end, i);
    }
  }

  // ---------------------------------------------------------------------
  // set_one_digits

  lemma SetOneDigitsBitInRange(number: bv32, start: bv32, end: bv32, i: bv32)
    requires start <= i <= end < 32
    ensures BitSet(SetOneDigits(number, start, end), i)
  {
  }

  lemma SetOneDigitsBitBelow(number: bv32, start: bv32, end: bv32, i: bv32)
    requires start <= end < 32 && i < start
    ensures BitSet(SetOneDigits(number, start, end), i) == BitSet(number, i)
  {
  }

  lemma SetOneDigitsBitAbove(number: bv32, start: bv32, end: bv32, i: bv32)
    requires start <= end < i < 32
    ensures BitSet(SetOneDigits(number, start, end), i) == BitSet(number, i)
  {
  }

  /** Every bit of the range becomes 1 and every bit outside it is kept. */
  lemma SetOneDigitsBit(number: bv32, start: bv32, end: bv32, i: bv32)
    requires start <= end < 32 && i < 32
    ensures BitSet(SetOneDigits(number, start, end), i)
            <==> (start <= i <= end || BitSet(number, i))
  {
    if i < start {
      SetOneDigitsBitBelow(number, start, end, i);
    } else if i <= end {
      SetOneDigitsBitInRange(number, start, end, i);
    } else {
      SetOneDigitsBitAbove(number, start, end, i);
    }
  }

  // ---------------------------------------------------------------------
  // set_zero_digits

  /** Subtracting from `u32::MAX` never borrows: it flips every bit. */
  lemma SubtractFromMaxIsNot(a: bv32)
    ensures U32Max - a == !a
  {
  }

  lemma SetZeroDigitsBitInRange(number: bv32, start: bv32, end: bv32, i: bv32)
    requires start <= i <= end < 32
    ensures !BitSet(SetZeroDigits(number, start, end), i)
  {
  }

  lemma SetZeroDigitsBitBelow(number: bv32, start: bv32, end: bv32, i: bv32)
    requires start <= end < 32 && i < start
    ensures BitSet(SetZeroDigits(number, start, end), i) == BitSet(number, i)
  {
  }

  lemma SetZeroDigitsBitAbove(number: bv32, start: bv32, end: bv32, i: bv32)
    requires start <= end < i < 32
    ensures BitSet(SetZeroDigits(number, start, end), i) == BitSet(number, i)
  {
    SubtractFromMaxIsNot((Pow2(end - start + 1) - 1) << start);
  }

  /** Every bit of the range becomes 0 and every bit outside it is kept. */
  lemma SetZeroDigitsBit(number: bv32, start: bv32, end: bv32, i: bv32)
    requires start <= end < 32 && i < 32
    ensures BitSet(SetZeroDigits(number, start, end), i)
            <==> (!(start <= i <= end) && BitSet(number, i))
  {
    if i < start {
      SetZeroDigitsBitBelow(number, start, end, i);
    } else if i <= end {
      SetZeroDigitsBitInRange(number, start, end, i);
    } else {
      SetZeroDigitsBitAbove(number, start, end, i);
    }
  }

  // ---------------------------------------------------------------------
  // Whole-word consequences

  /** Filling with ones twice is filling once. */
  lemma SetOneDigitsIdempotent(number: bv32, start: bv32, end: bv32)
    requires start <= end < 32
    ensures SetOneDigits(SetOneDigits(number, start, end), start, end)
            == SetOneDigits(number, start, end)
  {
  }

  /** Filling with zeros twice is filling once. */
  lemma SetZeroDigitsIdempotent(number: bv32, start: bv32, end: bv32)
    requires start <= end < 32
    ensures SetZeroDigits(SetZeroDigits(number, start, end), start, end)
            == SetZeroDigits(number, start, end)
  {
  }

  /** Reading back a range filled with ones gives `2^width - 1`. */
  lemma GetDigitsOfSetOne(number: bv32, start: bv32, end: bv32)
    requires start <= end < 32
    ensures end - start < 31 ==>
              GetDigits(SetOneDigits(number, start, end), start, end) == Pow2(end - start + 1) - 1
    ensures end - start == 31 ==> GetDigits(SetOneDigits(number, start, end), start, end) == U32Max
  {
  }

  /** Reading back a range filled with zeros gives 0. */
  lemma GetDigitsOfSetZero(number: bv32, start: bv32, end: bv32)
    requires start <= end < 32
    ensures GetDigits(SetZeroDigits(number, start, end), start, end) == 0
  {
  }

  /** The examples of the `set_one_digits` documentation comment. */
  lemma SetOneDigitsExamples()
    ensures SetOneDigits(0, 0, 31) == U32Max
    ensures SetOneDigits(20, 0, 31) == U32Max
    ensures SetOneDigits(0x000F_1EF7, 0, 15) == 0x000F_FFFF
    ensures SetOneDigits(0x000F_1EF7, 20, 23) == 0x00FF_1EF7
  {
  }

  /** The examples of the `set_zero_digits` documentation comment. */
  lemma SetZeroDigitsExamples()
    ensures SetZeroDigits(20, 0, 31) == 0
    ensures SetZeroDigits(0x000F_1EF7, 0, 15) == 0x000F_0000
    ensures SetZeroDigits(0x000F_1EF7, 16, 19) == 0x0000_1EF7
  {
  }
}
