/**
 * The R-type instruction word (src/instructions.rs).
 *
 * The layout, from bit 31 down to bit 0, is `|funct7|rs2|rs1|funct3|rd|opcode|`
 * with widths 7, 5, 5, 3, 5 and 7: the R-type format of section 2.2,
 * "Base Instruction Formats", of the RISC-V Unprivileged ISA (Volume I).
 * Every field is unsigned. The constructor arguments are Rust `u8`s,
 * modelled as `bv8`.
 */
module Instructions {
  import opened Util

  /** `INSTRUCTION_LEN`: an instruction word is 32 bits wide. */
  const InstructionLen: bv32 := 32

  /** Field widths of the R-type layout (`RType::FUNC7T_LEN` .. `RType::OPCODE_LEN`). */
  const Func7Len: bv32 := 7
  const Rs2Len: bv32 := 5
  const Rs1Len: bv32 := 5
  const Funct3Len: bv32 := 3
  const RdLen: bv32 := 5
  const OpcodeLen: bv32 := 7

  /** The six field widths fill the instruction word exactly. */
  lemma FieldWidthsFillWord()
    ensures Func7Len + Rs2Len + Rs1Len + Funct3Len + RdLen + OpcodeLen == InstructionLen
    ensures OpcodeLen + RdLen + Funct3Len + Rs1Len + Rs2Len == 25
  {
  }

  /**
   * `RType(pub u32)`. `From<u32>` is the constructor `RType(w)` and `Deref`
   * is the field `word`: both are the identity on the wrapped word.
   * Each accessor reads its field with `get_digits`, at the offset that is
   * the sum of the widths of the fields below it.
   */
  datatype RType = RType(word: bv32) {

    /** `get_opcode`: bits 0..=6. */
    function Opcode(): (f: bv32)
      ensures f == word % 0x80
      ensures f < 0x80
    {
      GetDigits(word, 0, OpcodeLen - 1)
    }

    /** `get_rd`: bits 7..=11. */
    function Rd(): (f: bv32)
      ensures f == (word >> 7) % 0x20
      ensures f < 0x20
    {
      GetDigits(word, OpcodeLen, OpcodeLen + RdLen - 1)
    }

    /** `get_funct3`: bits 12..=14. */
    function Funct3(): (f: bv32)
      ensures f == (word >> 12) % 0x08
      ensures f < 0x08
    {
      GetDigits(word, OpcodeLen + RdLen, OpcodeLen + RdLen + Funct3Len - 1)
    }

    /** `get_rs1`: bits 15..=19. */
    function Rs1(): (f: bv32)
      ensures f == (word >> 15) % 0x20
      ensures f < 0x20
    {
      GetDigits(word, OpcodeLen + RdLen + Funct3Len, OpcodeLen + RdLen + Funct3Len + Rs1Len - 1)
    }

    /** `get_rs2`: bits 20..=24. */
    function Rs2(): (f: bv32)
      ensures f == (word >> 20) % 0x20
      ensures f < 0x20
    {
      GetDigits(word, OpcodeLen + RdLen + Funct3Len + Rs1Len,
                OpcodeLen + RdLen + Funct3Len + Rs1Len + Rs2Len - 1)
    }

    /** `get_func7`: bits 25..=31. */
    function Func7(): (f: bv32)
      ensures f == (word >> 25) % 0x80
      ensures f < 0x80
    {
      GetDigits(word, OpcodeLen + RdLen + Funct3Len + Rs1Len + Rs2Len,
                OpcodeLen + RdLen + Funct3Len + Rs1Len + Rs2Len + Func7Len - 1)
    }

    /**
     * `value` cut to its low `width` bits and moved up to bit `offset`: one
     * slot of an R-type word.
     */
    static function Place(value: bv8, width: bv32, offset: bv32): bv32
      requires 0 < width <= 8 && offset <= 32 - width
    {
      ((value as bv32) & (Pow2(width) - 1)) << offset
    }

    /**
     * The packing `RType::new` is meant to perform: every argument cut to
     * its field width and placed in its own slot.
     */
    static function Pack(func7: bv8, rs2: bv8, rs1: bv8, funct3: bv8, rd: bv8, opcode: bv8): (r: RType)
      ensures r.Opcode() == (opcode & 0x7F) as bv32
      ensures r.Rd() == (rd & 0x1F) as bv32
      ensures r.Funct3() == (funct3 & 0x07) as bv32
      ensures r.Rs1() == (rs1 & 0x1F) as bv32
      ensures r.Rs2() == (rs2 & 0x1F) as bv32
      ensures r.Func7() == (func7 & 0x7F) as bv32
    {
      RType(Place(opcode, OpcodeLen, 0)
            | Place(rd, RdLen, OpcodeLen)
            | Place(funct3, Funct3Len, OpcodeLen + RdLen)
            | Place(rs1, Rs1Len, OpcodeLen + RdLen + Funct3Len)
            | Place(rs2, Rs2Len, OpcodeLen + RdLen + Funct3Len + Rs1Len)
            | Place(func7, Func7Len, OpcodeLen + RdLen + Funct3Len + Rs1Len + Rs2Len))
    }

    /**
     * `RType::new` as written: it ORs six slots into a zeroed word, but
     * only the opcode slot and the rd slot come from their own arguments;
     * the funct3, rs1, rs2 and funct7 slots are all filled from `rd`, and
     * the arguments `func7`, `rs2`, `rs1` and `funct3` are never read.
     */
    static method New(func7: bv8, rs2: bv8, rs1: bv8, funct3: bv8, rd: bv8, opcode: bv8) returns (r: RType)
      ensures r == Pack(rd, rd, rd, rd, rd, opcode)
      ensures r.Opcode() == (opcode & 0x7F) as bv32
      ensures r.Rd() == (rd & 0x1F) as bv32
      ensures r.Funct3() == (rd & 0x07) as bv32
      ensures r.Rs1() == (rd & 0x1F) as bv32
      ensures r.Rs2() == (rd & 0x1F) as bv32
      ensures r.Func7() == (rd & 0x7F) as bv32
    {
      var instruction: bv32 := 0;
      // set opcode
      instruction := instruction | (opcode & 0x7F) as bv32;
      // set rd
      instruction := instruction | (((rd & 0x1F) as bv32) << OpcodeLen);
      // set funct3
      instruction := instruction | (((rd & 0x07) as bv32) << (OpcodeLen + RdLen));
      // set rs1
      instruction := instruction | (((rd & 0x1F) as bv32) << (OpcodeLen + RdLen + Funct3Len));
      // set rs2
      instruction := instruction
                     | (((rd & 0x1F) as bv32) << (OpcodeLen + RdLen + Funct3Len + Rs1Len));
      // set funct7
      instruction := instruction
                     | (((rd & 0x7F) as bv32) << (OpcodeLen + RdLen + Funct3Len + Rs1Len + Rs2Len));
      r := RType(instruction);
    }
  }

  /**
   * The six fields partition the word: every word is the sum of its
   * fields, each scaled by two to the power of its offset. Every field is
   * below two to the power of its width, so the sum never wraps.
   */
  lemma FieldsPartitionWord(w: bv32)
    ensures var r := RType(w);
            w == r.Opcode() + r.Rd() * 0x80 + r.Funct3() * 0x1000 + r.Rs1() * 0x8000
                 + r.Rs2() * 0x10_0000 + r.Func7() * 0x200_0000
  {
  }

  /** A word is determined by its six fields. */
  lemma FieldsDetermineWord(p: RType, q: RType)
    requires p.Func7() == q.Func7() && p.Rs2() == q.Rs2() && p.Rs1() == q.Rs1()
    requires p.Funct3() == q.Funct3() && p.Rd() == q.Rd() && p.Opcode() == q.Opcode()
    ensures p == q
  {
    FieldsPartitionWord(p.word);
    FieldsPartitionWord(q.word);
  }

  /** Packing the fields of any word gives that word back. */
  lemma PackOfFields(w: bv32)
    ensures var r := RType(w);
            RType.Pack(r.Func7() as bv8, r.Rs2() as bv8, r.Rs1() as bv8,
                       r.Funct3() as bv8, r.Rd() as bv8, r.Opcode() as bv8) == r
  {
  }

  /** Equal packings have arguments that agree on every field's bits. */
  lemma PackEqualFieldsAgree(f7: bv8, s2: bv8, s1: bv8, f3: bv8, d: bv8, op: bv8,
                             g7: bv8, t2: bv8, t1: bv8, g3: bv8, e: bv8, oq: bv8)
    requires RType.Pack(f7, s2, s1, f3, d, op) == RType.Pack(g7, t2, t1, g3, e, oq)
    ensures f7 & 0x7F == g7 & 0x7F && s2 & 0x1F == t2 & 0x1F && s1 & 0x1F == t1 & 0x1F
            && f3 & 0x07 == g3 & 0x07 && d & 0x1F == e & 0x1F && op & 0x7F == oq & 0x7F
  {
    var p, q := RType.Pack(f7, s2, s1, f3, d, op), RType.Pack(g7, t2, t1, g3, e, oq);
    assert p.Func7() == q.Func7() && p.Rs2() == q.Rs2() && p.Rs1() == q.Rs1();
    assert p.Funct3() == q.Funct3() && p.Rd() == q.Rd() && p.Opcode() == q.Opcode();
  }

  /** Arguments that agree on every field's bits give equal packings. */
  lemma FieldsAgreePackEqual(f7: bv8, s2: bv8, s1: bv8, f3: bv8, d: bv8, op: bv8,
                             g7: bv8, t2: bv8, t1: bv8, g3: bv8, e: bv8, oq: bv8)
    requires f7 & 0x7F == g7 & 0x7F && s2 & 0x1F == t2 & 0x1F && s1 & 0x1F == t1 & 0x1F
             && f3 & 0x07 == g3 & 0x07 && d & 0x1F == e & 0x1F && op & 0x7F == oq & 0x7F
    ensures RType.Pack(f7, s2, s1, f3, d, op) == RType.Pack(g7, t2, t1, g3, e, oq)
  {
    FieldsDetermineWord(RType.Pack(f7, s2, s1, f3, d, op), RType.Pack(g7, t2, t1, g3, e, oq));
  }

  /**
   * Two packings agree exactly when their arguments agree on the bits each
   * field keeps. With `New`'s postcondition this says when `RType::new`
   * builds the intended word: only when `func7`, `rs2`, `rs1` and `funct3`
   * agree with `rd` on the bits of their own field.
   */
  lemma PackEqualIff(f7: bv8, s2: bv8, s1: bv8, f3: bv8, d: bv8, op: bv8,
                     g7: bv8, t2: bv8, t1: bv8, g3: bv8, e: bv8, oq: bv8)
    ensures RType.Pack(f7, s2, s1, f3, d, op) == RType.Pack(g7, t2, t1, g3, e, oq)
            <==> (f7 & 0x7F == g7 & 0x7F && s2 & 0x1F == t2 & 0x1F && s1 & 0x1F == t1 & 0x1F
                  && f3 & 0x07 == g3 & 0x07 && d & 0x1F == e & 0x1F && op & 0x7F == oq & 0x7F)
  {
    var p, q := RType.Pack(f7, s2, s1, f3, d, op), RType.Pack(g7, t2, t1, g3, e, oq);
    if p == q {
      PackEqualFieldsAgree(f7, s2, s1, f3, d, op, g7, t2, t1, g3, e, oq);
    } else if f7 & 0x7F == g7 & 0x7F && s2 & 0x1F == t2 & 0x1F && s1 & 0x1F == t1 & 0x1F
              && f3 & 0x07 == g3 & 0x07 && d & 0x1F == e & 0x1F && op & 0x7F == oq & 0x7F {
      FieldsAgreePackEqual(f7, s2, s1, f3, d, op, g7, t2, t1, g3, e, oq);
    }
  }

  /** Each slot of a packed word lies inside its own field and nowhere else. */
  lemma PackFieldsDisjoint()
    ensures RType.Pack(0x7F, 0, 0, 0, 0, 0).word == 0xFE00_0000
    ensures RType.Pack(0, 0x1F, 0, 0, 0, 0).word == 0x01F0_0000
    ensures RType.Pack(0, 0, 0x1F, 0, 0, 0).word == 0x000F_8000
    ensures RType.Pack(0, 0, 0, 0x07, 0, 0).word == 0x0000_7000
    ensures RType.Pack(0, 0, 0, 0, 0x1F, 0).word == 0x0000_0F80
    ensures RType.Pack(0, 0, 0, 0, 0, 0x7F).word == 0x0000_007F
  {
  }

  /**
   * The round trip that `RType::new` misses: with every argument but `rd`
   * and `opcode` zero, the funct3, rs1, rs2 and funct7 fields it produces
   * are not zero.
   */
  method NewRoundTripCounterexample() returns (r: RType)
    ensures r.Opcode() == 0x33 && r.Rd() == 1
    ensures r.Funct3() == 1 && r.Rs1() == 1 && r.Rs2() == 1 && r.Func7() == 1
  {
    r := RType.New(0, 0, 0, 0, 1, 0x33);
  }

  /**
   * `RTypeDebug`: the six fields narrowed to `u8`. Serialisation is not
   * part of this model.
   */
  datatype RTypeDebug = RTypeDebug(funct7: bv8, rs2: bv8, rs1: bv8, funct3: bv8, rd: bv8, opcode: bv8) {

    /** Rust's `as u8`: keep the low eight bits. */
    static function AsU8(x: bv32): bv8
    {
      (x & 0xFF) as bv8
    }

    /**
     * `From<RType> for RTypeDebug`: each accessor cast to `u8`. No field is
     * wider than seven bits, so every cast keeps the whole field.
     */
    static function From(rtype: RType): (d: RTypeDebug)
      ensures d.funct7 as bv32 == rtype.Func7()
      ensures d.rs2 as bv32 == rtype.Rs2()
      ensures d.rs1 as bv32 == rtype.Rs1()
      ensures d.funct3 as bv32 == rtype.Funct3()
      ensures d.rd as bv32 == rtype.Rd()
      ensures d.opcode as bv32 == rtype.Opcode()
    {
      RTypeDebug(AsU8(rtype.Func7()), AsU8(rtype.Rs2()), AsU8(rtype.Rs1()),
                 AsU8(rtype.Funct3()), AsU8(rtype.Rd()), AsU8(rtype.Opcode()))
    }
  }

  /**
   * Decoding two fixed words: the demo word `0000000_00111_01001_000_10011_0110011`
   * (`add x19, x9, x7`) and `0000000_10111_00111_000_01100_0110011`
   * (`add x12, x7, x23`).
   */
  lemma DecodeAddExamples()
    ensures RTypeDebug.From(RType(0x0074_89B3)) == RTypeDebug(0, 7, 9, 0, 19, 0x33)
    ensures RTypeDebug.From(RType(0x0173_8633)) == RTypeDebug(0, 23, 7, 0, 12, 0x33)
  {
  }
}
