# RISC-V R-type instruction codec, modelled in Dafny

This project models the bit-level instruction codec of a small RISC-V
emulator written in Rust. It has two layers.

- `util.dfy`, module `Util`, models the bit-range primitives of
  `src/util.rs`:
  - `get_digits` reads an inclusive bit range of a `u32`, right-aligned.
  - `set_one_digits` forces an inclusive bit range to ones.
  - `set_zero_digits` forces an inclusive bit range to zeros.
  - Each of the three special-cases the full 32-bit width.
  - The callers' promise `start <= end <= 31` is a `requires`.
- `instructions.dfy`, module `Instructions`, models the R-type word of
  `src/instructions.rs`:
  - `RType` wraps a 32-bit word with the layout
    `|funct7|rs2|rs1|funct3|rd|opcode|` (widths 7, 5, 5, 3, 5 and 7).
  - It has six field accessors.
  - The packing constructor `RType::new` is modelled as written.
  - `RTypeDebug` is the record of the six fields narrowed to `u8`.

Rust's `u32` is `bv32` and `u8` is `bv8`. The Rust operators `&`, `|`, `<<`,
`>>` and the wrapping `-` map onto Dafny's bit-vector operators. Rust's
operator precedence is kept by explicit parentheses: `-` binds tighter than
`&` in Rust, while in Dafny `&` and `|` bind tighter than `-` and `<<`.

`From<u32> for RType` and `Deref for RType` are the identity on the wrapped
word. In the model they are the datatype constructor `RType(w)` and its
field `word`, so `RType(w).word == w` holds by construction.

## Model

| member | source | states |
|---|---|---|
| Util.Pow2 | src/util.rs:13 | `2u32.pow(k)` is the single bit `1 << k` for every `k < 32` |
| Util.GetDigits | src/util.rs:10-18 | at the full width `0..=31` the `u32::MAX` mask branch returns `number` unchanged |
| Util.GetDigitsFits | src/util.rs:12-17 | below the full width the result is strictly below `2^(end-start+1)` |
| Util.GetDigitsFullWidth | src/util.rs:14-17 | `get_digits(n, 0, 31) == n` |
| Util.GetDigitsShiftThenMask | src/util.rs:10-18 | below the full width, masking in place and then shifting down equals shifting down and keeping the low `end-start+1` bits, i.e. `(n >> start) mod 2^(end-start+1)` |
| Util.MaskedShiftBit | src/util.rs:17 | inside the width, bit `i` of `(n >> start) & (2^w - 1)` is bit `start + i` of `n` |
| Util.GetDigitsBitInRangePart | src/util.rs:12-13 | below the full width, bit `i` of the result is bit `start + i` of `number` for every `i` within the width |
| Util.GetDigitsBitFull | src/util.rs:14-15 | at the full width, bit `i` of the result is bit `i` of `number` |
| Util.GetDigitsBitAbove | src/util.rs:12-17 | every result bit above the range width is 0 |
| Util.GetDigitsBit | src/util.rs:10-18 | bit `i` of the result is set if and only if `i <= end - start` and bit `start + i` of `number` is set |
| Util.SetOneDigits | src/util.rs:37-43 | the full-width call `(0, 31)` yields `u32::MAX` |
| Util.SetOneDigitsBitInRange | src/util.rs:39 | every bit of `start..=end` is 1 afterwards |
| Util.SetOneDigitsBitBelow | src/util.rs:39 | every bit below `start` is kept |
| Util.SetOneDigitsBitAbove | src/util.rs:39 | every bit above `end` is kept |
| Util.SetOneDigitsBit | src/util.rs:37-43 | bit `i` is set afterwards if and only if `i` is in `start..=end` or bit `i` of `number` was set |
| Util.SetZeroDigits | src/util.rs:58-64 | the full-width call `(0, 31)` yields 0 |
| Util.SubtractFromMaxIsNot | src/util.rs:60 | `u32::MAX - m` never borrows and equals the bitwise complement of `m` |
| Util.SetZeroDigitsBitInRange | src/util.rs:60 | every bit of `start..=end` is 0 afterwards |
| Util.SetZeroDigitsBitBelow | src/util.rs:60 | every bit below `start` is kept |
| Util.SetZeroDigitsBitAbove | src/util.rs:60 | every bit above `end` is kept |
| Util.SetZeroDigitsBit | src/util.rs:58-64 | bit `i` is set afterwards if and only if `i` is outside `start..=end` and bit `i` of `number` was set |
| Util.SetOneDigitsIdempotent | src/util.rs:37-43 | filling a range with ones twice equals filling it once |
| Util.SetZeroDigitsIdempotent | src/util.rs:58-64 | filling a range with zeros twice equals filling it once |
| Util.GetDigitsOfSetOne | src/util.rs:10-43 | reading back a range filled with ones gives `2^(end-start+1) - 1`, or `u32::MAX` at the full width |
| Util.GetDigitsOfSetZero | src/util.rs:10-64 | reading back a range filled with zeros gives 0 |
| Util.SetOneDigitsExamples | src/util.rs:30-34 | the four documented `set_one_digits` examples hold |
| Util.SetZeroDigitsExamples | src/util.rs:53-55 | the three documented `set_zero_digits` examples hold |
| Instructions.FieldWidthsFillWord | src/instructions.rs:79-84 | the widths 7+5+5+3+5+7 sum to `INSTRUCTION_LEN` = 32, and the fields below funct7 take 25 bits |
| Instructions.RType.Opcode | src/instructions.rs:152-154 | `get_opcode` is bits 0..=6: the word mod 2^7, below 128 |
| Instructions.RType.Rd | src/instructions.rs:144-150 | `get_rd` is bits 7..=11: `(word >> 7) mod 2^5`, below 32 |
| Instructions.RType.Funct3 | src/instructions.rs:136-142 | `get_funct3` is bits 12..=14: `(word >> 12) mod 2^3`, below 8 |
| Instructions.RType.Rs1 | src/instructions.rs:128-134 | `get_rs1` is bits 15..=19: `(word >> 15) mod 2^5`, below 32 |
| Instructions.RType.Rs2 | src/instructions.rs:120-126 | `get_rs2` is bits 20..=24: `(word >> 20) mod 2^5`, below 32 |
| Instructions.RType.Func7 | src/instructions.rs:106-118 | `get_func7` is bits 25..=31: `(word >> 25) mod 2^7`, below 128 |
| Instructions.FieldsPartitionWord | src/instructions.rs:105-154 | every word equals `opcode + rd*2^7 + funct3*2^12 + rs1*2^15 + rs2*2^20 + func7*2^25` over its own accessors |
| Instructions.FieldsDetermineWord | src/instructions.rs:105-154 | two words with the same six fields are the same word |
| Instructions.RType.New | src/instructions.rs:86-103 | as written: opcode is `opcode & 0x7F` and rd is `rd & 0x1F`, while funct3 is `rd & 7`, rs1 and rs2 are `rd & 31` and funct7 is `rd & 127`; the result is the intended packing of `(rd, rd, rd, rd, rd, opcode)` |
| Instructions.RType.Pack | src/instructions.rs:86-103 | the intended packing: each accessor reads back its own argument cut to the field width |
| Instructions.PackOfFields | src/instructions.rs:86-154 | packing the six fields of any word gives that word back |
| Instructions.PackEqualFieldsAgree | src/instructions.rs:86-103 | equal packings have arguments that agree on each field's bits |
| Instructions.FieldsAgreePackEqual | src/instructions.rs:86-103 | arguments that agree on each field's bits give equal packings |
| Instructions.PackEqualIff | src/instructions.rs:86-103 | two packings are equal if and only if their arguments agree on each field's bits, which shows that `RType::new` is right only when `func7`, `rs2`, `rs1` and `funct3` match `rd` on their field bits |
| Instructions.PackFieldsDisjoint | src/instructions.rs:11 | each full slot lands exactly in the bits of its own field of the layout |
| Instructions.NewRoundTripCounterexample | src/instructions.rs:93-102 | `new(0, 0, 0, 0, 1, 0x33)` yields funct3, rs1, rs2 and funct7 equal to 1, not the 0 that was passed |
| Instructions.RTypeDebug.From | src/instructions.rs:49-60 | each `as u8` cast keeps the whole field: widened back, every `RTypeDebug` field equals its accessor |
| Instructions.DecodeAddExamples | src/main.rs:4 | the demo word decodes to `funct7=0, rs2=7, rs1=9, funct3=0, rd=19, opcode=0x33`, and the word `0x01738633` to `0, 23, 7, 0, 12, 0x33` |

## Left out

- Util.GetDigitsShiftThenMask: the general "shift down, then mod `2^(end-start+1)`" is stated as "shift down, then mask with `2^(end-start+1) - 1`", because the solver cannot decide a 32-bit division with a symbolic divisor within the resource limit. The six accessors state the literal `mod` form for their fixed widths.
- Behaviour outside the callers' promise `start <= end <= 31` is left out. There the Rust subtraction `end - start` underflows and panics. The model makes the promise a `requires`.
- `DerefMut for RType` is left out. Mutable access to the wrapped word adds no behaviour beyond the field `word`.
- The `Instructions` enum, with its single variant `R(RType)`, is left out. It has no operations of its own.
- The serde derives and the JSON serialisation of `RTypeDebug` are left out, because they are calls into an external library. `RTypeDebug` is a plain record with its `From` projection.
- The demo program is left out as I/O (it prints JSON). `src/main.rs` is not part of this model beyond the word it decodes.
- The memory array and the module list of `src/lib.rs` are not part of this model.
- The `parser` and `registers` modules are not part of this model. Their sources are not available.
- There is no I-type codec or sign-extension decoder in the source, so none is modelled.

## Findings

| source | as written | input that shows it | evidently intended | confidence | as-written member | corrected member |
|---|---|---|---|---|---|---|
| src/instructions.rs:93-102 | `RType::new` fills the funct3, rs1, rs2 and funct7 slots from `rd & 0x07`, `rd & 0x1F`, `rd & 0x1F` and `rd & 0x7F`; its `funct3`, `rs1`, `rs2` and `func7` arguments are never read | `new(0, 0, 0, 0, 1, 0x33)` gives funct3 = rs1 = rs2 = funct7 = 1 | each slot is filled from its own argument, so every accessor reads back its argument cut to the field width | not executed | Instructions.NewRoundTripCounterexample | Instructions.RType.Pack |
