/**
 * The instruction-level arithmetic of `Cpu::step` (src/cpu.rs): the fields of
 * an RV32IMA instruction word, its immediates, and the values that the
 * integer, multiply/divide, branch, atomic and load-extension cases compute.
 * Everything here is a pure function of instruction and register values; the
 * hart in cpu.dfy threads them through its state.
 */
module Isa {
  import opened Arch
  import opened Bits

  // Major opcodes, bits 6:0 of the instruction.
  const OP_LOAD: bv32 := 0x03
  const OP_MISC_MEM: bv32 := 0x0f
  const OP_IMM: bv32 := 0x13
  const OP_AUIPC: bv32 := 0x17
  const OP_STORE: bv32 := 0x23
  const OP_AMO: bv32 := 0x2f
  const OP_OP: bv32 := 0x33
  const OP_LUI: bv32 := 0x37
  const OP_BRANCH: bv32 := 0x63
  const OP_JALR: bv32 := 0x67
  const OP_JAL: bv32 := 0x6f
  const OP_SYSTEM: bv32 := 0x73

  // The instruction words the SYSTEM and MISC-MEM groups match exactly.
  const INST_ECALL: bv32 := 0x0000_0073
  const INST_EBREAK: bv32 := 0x0010_0073
  const INST_WFI: bv32 := 0x1050_0073
  const INST_SRET: bv32 := 0x1020_0073
  const INST_MRET: bv32 := 0x3020_0073
  const INST_FENCE_TSO: bv32 := 0x8330_000f

  function Opcode(inst: bv32): bv32 { inst & 0x7f }
  function Rd(inst: bv32): (r: bv32) ensures r < 32 { (inst >> 7) & 0x1f }
  function Rs1(inst: bv32): (r: bv32) ensures r < 32 { (inst >> 15) & 0x1f }
  function Rs2(inst: bv32): (r: bv32) ensures r < 32 { (inst >> 20) & 0x1f }
  function Funct3(inst: bv32): (r: bv32) ensures r < 8 { (inst >> 12) & 0x7 }
  function Funct7(inst: bv32): bv32 { inst >> 25 }
  /** Bits 31:27, which select the atomic operation. */
  function Funct5(inst: bv32): bv32 { inst >> 27 }
  /** Bits 31:20, the CSR number of a SYSTEM instruction. */
  function CsrNumber(inst: bv32): bv32 { inst >> 20 }

  /** The `unimplemented!` macro of src/cpu.rs returns this trap (it does not
      panic by itself; the trap handler does). */
  function Unimplemented<T>(): Outcome<T>
  {
    Fail(UnimplementedInstruction)
  }

  // ---------------------------------------------------------------------
  // Immediates, decoded as the source decodes them.

  /** I-type: bits 31:20, sign-extended. */
  function ImmI(inst: bv32): bv32 { Sra(inst, 20) }

  /** S-type: bits 31:25 and 11:7, sign-extended from 12 bits. */
  function ImmS(inst: bv32): bv32
  {
    SignExtend(((inst >> 20) & 0xfe0) | ((inst >> 7) & 0x1f), 12)
  }

  /** B-type: the branch offset, a multiple of two, sign-extended from 13 bits. */
  function ImmB(inst: bv32): bv32
  {
    SignExtend(BField(inst), 13)
  }

  function BField(inst: bv32): bv32
  {
    ((inst >> 19) & 0x1000) | ((inst << 4) & 0x800) | ((inst >> 20) & 0x7e0) | ((inst >> 7) & 0x1e)
  }

  /** J-type: the jump offset, a multiple of two, sign-extended from 21 bits. */
  function ImmJ(inst: bv32): bv32
  {
    SignExtend(JField(inst), 21)
  }

  function JField(inst: bv32): bv32
  {
    ((inst >> 11) & 0x10_0000) | ((inst >> 20) & 0x7fe) | ((inst >> 9) & 0x800) | (inst & 0xf_f000)
  }

  /** U-type (LUI, AUIPC): the upper 20 bits in place. */
  function ImmU(inst: bv32): bv32 { inst & 0xffff_f000 }

  // The assembler's side: where the RISC-V base ISA places each immediate bit
  // (figure "Types of immediate produced by RISC-V instructions" of the
  // unprivileged specification). `rest` supplies the non-immediate fields.

  function EncodeI(imm: bv32, rest: bv32): bv32
  {
    ((imm & 0xfff) << 20) | (rest & 0xf_ffff)
  }

  function EncodeS(imm: bv32, rest: bv32): bv32
  {
    ((imm & 0xfe0) << 20) | ((imm & 0x1f) << 7) | (rest & 0x1ff_f07f)
  }

  function EncodeB(imm: bv32, rest: bv32): bv32
  {
    ((imm & 0x1000) << 19) | ((imm & 0x7e0) << 20) | ((imm & 0x1e) << 7) | ((imm & 0x800) >> 4)
      | (rest & 0x1ff_f07f)
  }

  function EncodeJ(imm: bv32, rest: bv32): bv32
  {
    ((imm & 0x10_0000) << 11) | ((imm & 0x7fe) << 20) | ((imm & 0x800) << 9) | (imm & 0xf_f000)
      | (rest & 0xfff)
  }

  /** Decoding undoes the standard encoding: each decoder recovers the
      immediate, sign-extended from its width, whatever the other fields hold. */
  lemma ImmIRoundTrip(imm: bv32, rest: bv32)
    ensures ImmI(EncodeI(imm, rest)) == SignExtend(imm, 12)
  {
  }

  lemma ImmSRoundTrip(imm: bv32, rest: bv32)
    ensures ImmS(EncodeS(imm, rest)) == SignExtend(imm, 12)
  {
  }

  /** The branch and jump decoders drop bit 0 of the offset. */
  lemma ImmBRoundTrip(imm: bv32, rest: bv32)
    ensures ImmB(EncodeB(imm, rest)) == SignExtend(imm & 0x1ffe, 13)
  {
    assert BField(EncodeB(imm, rest)) == imm & 0x1ffe;
  }

  lemma ImmJRoundTrip(imm: bv32, rest: bv32)
    ensures ImmJ(EncodeJ(imm, rest)) == SignExtend(imm & 0x1f_fffe, 21)
  {
    assert JField(EncodeJ(imm, rest)) == imm & 0x1f_fffe;
  }

  /** Branch and jump offsets are always even, so a taken branch or a jump
      moves between 2-byte aligned addresses. */
  lemma ImmBEven(inst: bv32)
    ensures ImmB(inst) & 1 == 0
  {
    SignExtend13(BField(inst));
    EvenExtended(BField(inst), 0xFFFF_E000, 0x1FFF);
  }

  lemma ImmJEven(inst: bv32)
    ensures ImmJ(inst) & 1 == 0
  {
    SignExtend21(JField(inst));
    EvenExtended(JField(inst), 0xFFE0_0000, 0x1F_FFFF);
  }

  lemma EvenExtended(v: bv32, high: bv32, low: bv32)
    requires v & 1 == 0 && high & 1 == 0
    ensures (v | high) & 1 == 0 && (v & low) & 1 == 0
  {
  }

  // ---------------------------------------------------------------------
  // Register-immediate and register-register operations.

  /** The OP-IMM group, selected by funct3. SLLI with any bit of funct7 set is
      illegal; SRLI and SRAI with a funct7 other than 0 or 0x20 are
      unimplemented. SLTI and SLTIU compare against the sign-extended immediate. */
  function OpImm(inst: bv32, x: bv32): Outcome<bv32>
  {
    var f := Funct3(inst);
    var imm := ImmI(inst);
    var shamt := (inst >> 20) & 0x1f;
    if f == 0 then Ok(x + imm)
    else if f == 1 then
      if (inst >> 20) >> 5 != 0 then Illegal() else Ok(x << shamt)
    else if f == 2 then Ok(if ToSigned(imm) > ToSigned(x) then 1 else 0)
    else if f == 3 then Ok(if Nat32(imm) > Nat32(x) then 1 else 0)
    else if f == 4 then Ok(x ^ imm)
    else if f == 5 then
      if Funct7(inst) == 0 then Ok(x >> shamt)
      else if Funct7(inst) == 0x20 then Ok(Sra(x, shamt))
      else Unimplemented()
    else if f == 6 then Ok(x | imm)
    else Ok(x & imm)
  }

  /** The OP group, selected by funct3 and funct7: the base integer operations
      (funct7 0 and 0x20) and the M extension (funct7 1). Register shift
      amounts are the low five bits of rs2. */
  function Op(inst: bv32, x: bv32, y: bv32): Outcome<bv32>
  {
    var f := Funct3(inst);
    var g := Funct7(inst);
    if g == 1 then Ok(MulDiv(f, x, y))
    else if g == 0 then Ok(BaseOp(f, x, y))
    else if g == 0x20 && f == 0 then Ok(x - y)
    else if g == 0x20 && f == 5 then Ok(Sra(x, y & 0x1f))
    else Unimplemented()
  }

  /** ADD, SLL, SLT, SLTU, XOR, SRL, OR, AND by funct3 (funct7 0). */
  function BaseOp(f: bv32, x: bv32, y: bv32): bv32
    requires f < 8
  {
    if f == 0 then x + y
    else if f == 1 then x << (y & 0x1f)
    else if f == 2 then (if SignedLt(x, y) then 1 else 0)
    else if f == 3 then (if UnsignedLt(x, y) then 1 else 0)
    else if f == 4 then x ^ y
    else if f == 5 then x >> (y & 0x1f)
    else if f == 6 then x | y
    else x & y
  }

  /** MUL, MULH, MULHSU, MULHU, DIV, DIVU, REM, REMU by funct3. */
  function MulDiv(f: bv32, x: bv32, y: bv32): bv32
    requires f < 8
  {
    if f == 0 then Mul(x, y)
    else if f == 1 then Mulh(x, y)
    else if f == 2 then Mulhsu(x, y)
    else if f == 3 then Mulhu(x, y)
    else if f == 4 then Div(x, y)
    else if f == 5 then Divu(x, y)
    else if f == 6 then Rem(x, y)
    else Remu(x, y)
  }

  /** The register-immediate operations are the register-register ones
      (funct7 0) with the sign-extended immediate as second operand. SLTI and
      SLTIU, written "immediate greater than rs1", are SLT and SLTU. */
  lemma ImmediateForm(inst: bv32, x: bv32)
    requires Funct3(inst) == 0 || Funct3(inst) == 4 || Funct3(inst) == 6 || Funct3(inst) == 7
    ensures OpImm(inst, x) == Ok(BaseOp(Funct3(inst), x, ImmI(inst)))
  {
  }

  lemma SetLessImmediate(inst: bv32, x: bv32)
    requires Funct3(inst) == 2
    ensures OpImm(inst, x) == Ok(BaseOp(2, x, ImmI(inst)))
  {
    SltiAsWritten(inst, x);
    SltFlip(x, ImmI(inst));
  }

  lemma SetLessImmediateUnsigned(inst: bv32, x: bv32)
    requires Funct3(inst) == 3
    ensures OpImm(inst, x) == Ok(BaseOp(3, x, ImmI(inst)))
  {
    SltiuAsWritten(inst, x);
    SltuFlip(x, ImmI(inst));
  }

  lemma SltiAsWritten(inst: bv32, x: bv32)
    requires Funct3(inst) == 2
    ensures OpImm(inst, x) == Ok(if ToSigned(ImmI(inst)) > ToSigned(x) then 1 else 0)
  {
    var imm := ImmI(inst);
    assert OpImm(inst, x) == Ok(if ToSigned(imm) > ToSigned(x) then 1 else 0);
  }

  lemma SltiuAsWritten(inst: bv32, x: bv32)
    requires Funct3(inst) == 3
    ensures OpImm(inst, x) == Ok(if Nat32(ImmI(inst)) > Nat32(x) then 1 else 0)
  {
    var imm := ImmI(inst);
    assert OpImm(inst, x) == Ok(if Nat32(imm) > Nat32(x) then 1 else 0);
  }

  lemma SltFlip(x: bv32, imm: bv32)
    ensures (if ToSigned(imm) > ToSigned(x) then 1 else 0) == BaseOp(2, x, imm)
  {
  }

  lemma SltuFlip(x: bv32, imm: bv32)
    ensures (if Nat32(imm) > Nat32(x) then 1 else 0) == BaseOp(3, x, imm)
  {
  }

  /** The OP-IMM shifts take their amount from the rs2 field and are told
      apart by funct7 just as the register shifts are, except SLLI with
      funct7 0x20, which is illegal here and unimplemented as a register
      shift. */
  lemma ShiftImmediateForm(inst: bv32, x: bv32)
    requires Funct3(inst) == 1 || Funct3(inst) == 5
    requires Funct7(inst) == 0 || (Funct7(inst) == 0x20 && Funct3(inst) == 5)
    ensures OpImm(inst, x) == Op(inst, x, Rs2(inst))
  {
    if Funct3(inst) == 1 {
      assert (inst >> 20) >> 5 == 0;
    }
    assert (inst >> 20) & 0x1f == Rs2(inst) & 0x1f;
  }

  /** SLT and SLTU set rd to 1 exactly when BLT and BLTU would branch, and to
      0 otherwise. */
  lemma SetLessMatchesBranch(x: bv32, y: bv32)
    ensures BaseOp(2, x, y) == if BranchTaken(4, x, y) == Ok(true) then 1 else 0
    ensures BaseOp(3, x, y) == if BranchTaken(6, x, y) == Ok(true) then 1 else 0
  {
  }

  // ---------------------------------------------------------------------
  // Branches.

  /** Whether a BRANCH instruction with funct3 `f` is taken, with the
      comparisons as the source writes them: BLT as "rs2 greater than rs1
      (signed)", BLTU as "rs2 greater than rs1". funct3 2 and 3 are
      unimplemented. */
  function BranchTaken(f: bv32, x: bv32, y: bv32): Outcome<bool>
  {
    if f == 0 then Ok(x == y)
    else if f == 1 then Ok(x != y)
    else if f == 4 then Ok(ToSigned(y) > ToSigned(x))
    else if f == 5 then Ok(ToSigned(x) >= ToSigned(y))
    else if f == 6 then Ok(Nat32(y) > Nat32(x))
    else if f == 7 then Ok(Nat32(x) >= Nat32(y))
    else Unimplemented()
  }

  /** The six branches are three conditions and their negations: BNE, BGE
      and BGEU branch exactly when BEQ, BLT and BLTU do not, and BLT and BLTU,
      written "rs2 greater than rs1", are "rs1 less than rs2", signed and
      unsigned. */
  lemma BranchEqual(x: bv32, y: bv32)
    ensures BranchTaken(0, x, y) == Ok(x == y)
    ensures BranchTaken(1, x, y) == Ok(x != y)
  {
  }

  lemma BranchSigned(x: bv32, y: bv32)
    ensures BranchTaken(4, x, y) == Ok(SignedLt(x, y))
    ensures BranchTaken(5, x, y) == Ok(!SignedLt(x, y))
  {
  }

  lemma BranchUnsigned(x: bv32, y: bv32)
    ensures BranchTaken(6, x, y) == Ok(UnsignedLt(x, y))
    ensures BranchTaken(7, x, y) == Ok(!UnsignedLt(x, y))
  {
  }

  lemma BranchUnimplemented(f: bv32, x: bv32, y: bv32)
    requires f < 8
    ensures BranchTaken(f, x, y).Fail? <==> f == 2 || f == 3
    ensures BranchTaken(f, x, y).Fail? ==> BranchTaken(f, x, y).trap == UnimplementedInstruction
  {
  }

  // ---------------------------------------------------------------------
  // Atomic memory operations (the A extension, word size only).

  const AMO_ADD: bv32 := 0x00
  const AMO_SWAP: bv32 := 0x01
  const AMO_LR: bv32 := 0x02
  const AMO_SC: bv32 := 0x03
  const AMO_XOR: bv32 := 0x04
  const AMO_OR: bv32 := 0x08
  const AMO_AND: bv32 := 0x0c
  const AMO_MIN: bv32 := 0x10
  const AMO_MAX: bv32 := 0x14
  const AMO_MINU: bv32 := 0x18
  const AMO_MAXU: bv32 := 0x1c

  /** LR.W and SC.W: funct3 2 and the operation in bits 31:27. */
  predicate IsLr(inst: bv32) { Funct3(inst) == 2 && Funct5(inst) == AMO_LR }
  predicate IsSc(inst: bv32) { Funct3(inst) == 2 && Funct5(inst) == AMO_SC }

  /** The value a read-modify-write AMO stores, from the word read and rs2. */
  function AmoValue(inst: bv32, original: bv32, y: bv32): Outcome<bv32>
  {
    var op := Funct5(inst);
    if Funct3(inst) != 2 then Unimplemented()
    else if op == AMO_ADD then Ok(original + y)
    else if op == AMO_SWAP then Ok(y)
    else if op == AMO_XOR then Ok(original ^ y)
    else if op == AMO_OR then Ok(original | y)
    else if op == AMO_AND then Ok(original & y)
    else if op == AMO_MIN then Ok(MinSigned(original, y))
    else if op == AMO_MAX then Ok(MaxSigned(original, y))
    else if op == AMO_MINU then Ok(MinUnsigned(original, y))
    else if op == AMO_MAXU then Ok(MaxUnsigned(original, y))
    else Unimplemented()
  }

  // Rust's `min` and `max` on `i32` and `u32`: one of the two operands, the
  // least or the greatest of them (on a tie `min` keeps the first and `max`
  // the second, which for integers are the same value).

  function MinSigned(a: bv32, b: bv32): (r: bv32)
    ensures r == a || r == b
    ensures !SignedLt(a, r) && !SignedLt(b, r)
  {
    if ToSigned(a) <= ToSigned(b) then a else b
  }

  function MaxSigned(a: bv32, b: bv32): (r: bv32)
    ensures r == a || r == b
    ensures !SignedLt(r, a) && !SignedLt(r, b)
  {
    if ToSigned(a) > ToSigned(b) then a else b
  }

  function MinUnsigned(a: bv32, b: bv32): (r: bv32)
    ensures r == a || r == b
    ensures !UnsignedLt(a, r) && !UnsignedLt(b, r)
  {
    if Nat32(a) <= Nat32(b) then a else b
  }

  function MaxUnsigned(a: bv32, b: bv32): (r: bv32)
    ensures r == a || r == b
    ensures !UnsignedLt(r, a) && !UnsignedLt(r, b)
  {
    if Nat32(a) > Nat32(b) then a else b
  }

  predicate AmoOperation(op: bv32)
  {
    op == AMO_ADD || op == AMO_SWAP || op == AMO_XOR || op == AMO_OR || op == AMO_AND
      || op == AMO_MIN || op == AMO_MAX || op == AMO_MINU || op == AMO_MAXU
  }

  /** The operations with no AMO encoding, and every funct3 other than 2, are
      unimplemented. LR and SC never reach this function. */
  lemma AmoDefined(inst: bv32, original: bv32, y: bv32)
    ensures AmoValue(inst, original, y).Ok? <==> Funct3(inst) == 2 && AmoOperation(Funct5(inst))
  {
  }

  // ---------------------------------------------------------------------
  // Loads.

  /** The bytes a LOAD reads, by funct3 (LB, LH, LW, LBU, LHU), or None for
      the encodings that are unimplemented. */
  function LoadSize(inst: bv32): Option<nat>
  {
    var f := Funct3(inst);
    if f == 0 || f == 4 then Some(1)
    else if f == 1 || f == 5 then Some(2)
    else if f == 2 then Some(4)
    else None
  }

  /** The value written to rd from the zero-extended value read: LB and LH
      sign-extend it, the others keep it. */
  function LoadExtend(inst: bv32, v: bv32): bv32
  {
    var f := Funct3(inst);
    if f == 0 then SignExtend(v, 8)
    else if f == 1 then SignExtend(v, 16)
    else v
  }

  /** LB and LH give rd the two's-complement value of the byte or half-word
      read; LW, LBU and LHU its unsigned value. */
  lemma LoadByteSigned(inst: bv32, v: bv32)
    requires Funct3(inst) == 0 && v < 0x100
    ensures LoadExtend(inst, v) == if v < 0x80 then v else v | 0xFFFF_FF00
    ensures ToSigned(LoadExtend(inst, v)) == if v < 0x80 then Nat32(v) else Nat32(v) - 0x100
  {
    SignExtend8(v);
    if v >= 0x80 {
      HighOnes8(v);
    }
  }

  lemma LoadHalfSigned(inst: bv32, v: bv32)
    requires Funct3(inst) == 1 && v < 0x1_0000
    ensures LoadExtend(inst, v) == if v < 0x8000 then v else v | 0xFFFF_0000
    ensures ToSigned(LoadExtend(inst, v)) == if v < 0x8000 then Nat32(v) else Nat32(v) - 0x1_0000
  {
    SignExtend16(v);
    if v >= 0x8000 {
      HighOnes16(v);
    }
  }

  lemma LoadUnsigned(inst: bv32, v: bv32)
    requires Funct3(inst) == 2 || Funct3(inst) == 4 || Funct3(inst) == 5
    ensures LoadExtend(inst, v) == v
  {
  }

  lemma HighOnes8(v: bv32)
    requires v < 0x100
    ensures Nat32(v | 0xFFFF_FF00) == Nat32(v) + 0xFFFF_FF00
  {
    assert v | 0xFFFF_FF00 == v + 0xFFFF_FF00;
  }

  lemma HighOnes16(v: bv32)
    requires v < 0x1_0000
    ensures Nat32(v | 0xFFFF_0000) == Nat32(v) + 0xFFFF_0000
  {
    assert v | 0xFFFF_0000 == v + 0xFFFF_0000;
  }

  // The M extension. The source widens to 64 bits, multiplies or divides,
  // and truncates back; the model does the same on integers. Products and
  // quotients go through the named functions Product, NatQuot and NatRem so
  // that each fact about them is proved once, on integers.

  const TWO64: int := 0x1_0000_0000_0000_0000

  function Product(a: int, b: int): int { a * b }

  function NatQuot(a: nat, b: nat): nat
    requires b != 0
  {
    a / b
  }

  function NatRem(a: nat, b: nat): nat
    requires b != 0
  {
    a % b
  }

  /** `wrapping_mul` of two words. */
  function Mul(x: bv32, y: bv32): bv32
  {
    Wrap32(Product(Nat32(x), Nat32(y)))
  }

  /** The `i64` product of the sign-extended operands, shifted right by 32
      (an arithmetic shift, so rounding toward minus infinity). */
  function Mulh(x: bv32, y: bv32): bv32
  {
    Wrap32(Product(ToSigned(x), ToSigned(y)) / TWO32)
  }

  /** rs1 sign-extended to 64 bits and reinterpreted as `u64`, times rs2 as
      `u64` with `wrapping_mul`, shifted right logically by 32. */
  function Mulhsu(x: bv32, y: bv32): bv32
  {
    Wrap32((Product(ToSigned(x) % TWO64, Nat32(y)) % TWO64) / TWO32)
  }

  /** The `u64` product (`wrapping_mul`) shifted right by 32. */
  function Mulhu(x: bv32, y: bv32): bv32
  {
    Wrap32((Product(Nat32(x), Nat32(y)) % TWO64) / TWO32)
  }

  /** DIV: the overflowing quotient -2^31 / -1 is the dividend, division by
      zero gives all ones, otherwise the quotient rounds toward zero. */
  function Div(x: bv32, y: bv32): bv32
  {
    if x == 0x8000_0000 && y == 0xffff_ffff then x
    else if y == 0 then 0xffff_ffff
    else Wrap32(TruncDiv(ToSigned(x), ToSigned(y)))
  }

  /** REM: zero on overflow, the dividend on division by zero, otherwise the
      remainder whose sign follows the dividend. */
  function Rem(x: bv32, y: bv32): bv32
  {
    if x == 0x8000_0000 && y == 0xffff_ffff then 0
    else if y == 0 then x
    else Wrap32(TruncRem(ToSigned(x), ToSigned(y)))
  }

  /** DIVU: all ones on division by zero. */
  function Divu(x: bv32, y: bv32): bv32
  {
    if y == 0 then 0xffff_ffff else Wrap32(NatQuot(Nat32(x), Nat32(y)))
  }

  /** REMU: the dividend on division by zero. */
  function Remu(x: bv32, y: bv32): bv32
  {
    if y == 0 then x else Wrap32(NatRem(Nat32(x), Nat32(y)))
  }

  /** The multiply instructions as the M extension defines them: MUL is the
      low word of the 64-bit product, and MULHU, MULH and MULHSU its high word
      for unsigned, signed and signed-by-unsigned operands, so that high and
      low word together are the exact product. */
  lemma MulhuSplits(x: bv32, y: bv32)
    ensures Product(Nat32(x), Nat32(y)) == Nat32(Mulhu(x, y)) * TWO32 + Nat32(Mul(x, y))
  {
    var p := Product(Nat32(x), Nat32(y));
    UnsignedProduct(Nat32(x), Nat32(y));
    MulhuValue(x, y);
    LowWord(p);
    assert Nat32(Mul(x, y)) == p % TWO32;
  }

  lemma MulhSplits(x: bv32, y: bv32)
    ensures Product(ToSigned(x), ToSigned(y)) == ToSigned(Mulh(x, y)) * TWO32 + Nat32(Mul(x, y))
  {
    var p := Product(ToSigned(x), ToSigned(y));
    MulhValue(x, y);
    MulSignedLow(x, y, ToSigned(x), ToSigned(y));
    LowWord(p);
  }

  lemma MulhsuSplits(x: bv32, y: bv32)
    ensures Product(ToSigned(x), Nat32(y)) == ToSigned(Mulhsu(x, y)) * TWO32 + Nat32(Mul(x, y))
  {
    var p := Product(ToSigned(x), Nat32(y));
    MulhsuValue(x, y);
    MulSignedLow(x, y, ToSigned(x), Nat32(y));
    LowWord(p);
  }

  /** Unsigned division as the M extension defines it: quotient and
      remainder reassemble the dividend with a remainder below the divisor;
      dividing by zero gives all ones and leaves the dividend as remainder. */
  lemma DivuRemu(x: bv32, y: bv32)
    ensures y == 0 ==> Divu(x, y) == 0xffff_ffff && Remu(x, y) == x
    ensures y != 0 ==> Nat32(x) == Product(Nat32(y), Nat32(Divu(x, y))) + Nat32(Remu(x, y))
    ensures y != 0 ==> Nat32(Remu(x, y)) < Nat32(y)
  {
    if y != 0 {
      DivuValue(x, y);
      RemuValue(x, y);
      NatQuotRem(Nat32(x), Nat32(y));
    }
  }

  /** Signed division as the M extension defines it: apart from division by
      zero (quotient -1, remainder the dividend) and the one overflowing case
      (quotient the dividend, remainder zero), quotient and remainder
      reassemble the dividend, the quotient rounds toward zero, and the
      remainder is smaller than the divisor and has the dividend's sign. */
  lemma DivRem(x: bv32, y: bv32)
    ensures y == 0 ==> Div(x, y) == 0xffff_ffff && Rem(x, y) == x
    ensures x == 0x8000_0000 && y == 0xffff_ffff ==> Div(x, y) == x && Rem(x, y) == 0
    ensures y != 0 && !(x == 0x8000_0000 && y == 0xffff_ffff) ==>
      && ToSigned(x) == Product(ToSigned(y), ToSigned(Div(x, y))) + ToSigned(Rem(x, y))
      && ToSigned(Div(x, y)) == TruncDiv(ToSigned(x), ToSigned(y))
      && Abs(ToSigned(Rem(x, y))) < Abs(ToSigned(y))
      && (ToSigned(x) >= 0 ==> ToSigned(Rem(x, y)) >= 0)
      && (ToSigned(x) <= 0 ==> ToSigned(Rem(x, y)) <= 0)
  {
    if y != 0 && !(x == 0x8000_0000 && y == 0xffff_ffff) {
      DivValue(x, y);
      RemValue(x, y);
      TruncDivRem(ToSigned(x), ToSigned(y));
    }
  }

  // Each conversion between words and integers is proved in a lemma of its
  // own; combining several in one proof is far more expensive for the solver.

  lemma DivValue(x: bv32, y: bv32)
    requires y != 0 && !(x == 0x8000_0000 && y == 0xffff_ffff)
    ensures ToSigned(y) != 0
    ensures ToSigned(Div(x, y)) == TruncDiv(ToSigned(x), ToSigned(y))
  {
    SignedOperands(x, y);
    QuotientFits(ToSigned(x), ToSigned(y));
    WrapSigned(TruncDiv(ToSigned(x), ToSigned(y)));
  }

  lemma RemValue(x: bv32, y: bv32)
    requires y != 0 && !(x == 0x8000_0000 && y == 0xffff_ffff)
    ensures ToSigned(y) != 0
    ensures ToSigned(Rem(x, y)) == TruncRem(ToSigned(x), ToSigned(y))
  {
    SignedOperands(x, y);
    QuotientFits(ToSigned(x), ToSigned(y));
    WrapSigned(TruncRem(ToSigned(x), ToSigned(y)));
  }

  lemma SignedOperands(x: bv32, y: bv32)
    requires y != 0 && !(x == 0x8000_0000 && y == 0xffff_ffff)
    ensures -0x8000_0000 <= ToSigned(x) < 0x8000_0000 && -0x8000_0000 <= ToSigned(y) < 0x8000_0000
    ensures ToSigned(y) != 0 && !(ToSigned(x) == -0x8000_0000 && ToSigned(y) == -1)
  {
    SignedRange(x);
    SignedRange(y);
    SignedSpecial(x);
    SignedSpecial(y);
  }

  lemma DivuValue(x: bv32, y: bv32)
    requires y != 0
    ensures Nat32(y) != 0 && Nat32(Divu(x, y)) == NatQuot(Nat32(x), Nat32(y))
  {
    NatPositive(y);
    NatQuotRem(Nat32(x), Nat32(y));
    WrapNat(NatQuot(Nat32(x), Nat32(y)));
  }

  lemma RemuValue(x: bv32, y: bv32)
    requires y != 0
    ensures Nat32(y) != 0 && Nat32(Remu(x, y)) == NatRem(Nat32(x), Nat32(y))
  {
    NatPositive(y);
    NatQuotRem(Nat32(x), Nat32(y));
    WrapNat(NatRem(Nat32(x), Nat32(y)));
  }

  lemma MulhuValue(x: bv32, y: bv32)
    ensures Nat32(Mulhu(x, y)) == Product(Nat32(x), Nat32(y)) / TWO32
  {
    var p := Product(Nat32(x), Nat32(y));
    UnsignedProduct(Nat32(x), Nat32(y));
    assert p % TWO64 == p;
    WrapNat(p / TWO32);
  }

  lemma MulhValue(x: bv32, y: bv32)
    ensures ToSigned(Mulh(x, y)) == Product(ToSigned(x), ToSigned(y)) / TWO32
  {
    SignedRange(x);
    SignedRange(y);
    SignedProduct(ToSigned(x), ToSigned(y));
    WrapSigned(Product(ToSigned(x), ToSigned(y)) / TWO32);
  }

  lemma MulhsuValue(x: bv32, y: bv32)
    ensures ToSigned(Mulhsu(x, y)) == Product(ToSigned(x), Nat32(y)) / TWO32
  {
    SignedRange(x);
    MixedProduct(ToSigned(x), Nat32(y));
    MixedWide(ToSigned(x), Nat32(y));
    HighWordOf64(Product(ToSigned(x), Nat32(y)));
    WrapSigned(Product(ToSigned(x), Nat32(y)) / TWO32);
  }

  /** Reading the signed factor as a 64-bit unsigned value changes the
      wrapped product by nothing. */
  lemma MixedWide(a: int, b: int)
    requires -0x8000_0000 <= a < 0x8000_0000
    ensures Product(a % TWO64, b) % TWO64 == Product(a, b) % TWO64
  {
    var k := if a >= 0 then 0 else 1;
    assert a % TWO64 == a + k * TWO64;
    assert Product(a + k * TWO64, b) == Product(a, b) + (k * b) * TWO64;
    Mod64Multiple(Product(a, b), k * b);
  }

  lemma Mod64Multiple(p: int, m: int)
    ensures (p + m * TWO64) % TWO64 == p % TWO64
  {
  }

  /** Reading a signed 64-bit value as unsigned does not change its high word
      modulo 2^32. */
  lemma HighWordOf64(p: int)
    requires -0x8000_0000 * TWO32 <= p < 0x8000_0000 * TWO32
    ensures Wrap32((p % TWO64) / TWO32) == Wrap32(p / TWO32)
  {
    if p < 0 {
      HighWordShift(p);
      WrapAbove((p % TWO64) / TWO32, p / TWO32);
    } else {
      WrapSame(p % TWO64, p);
    }
  }

  lemma WrapSame(p: int, q: int)
    requires p == q
    ensures Wrap32(p / TWO32) == Wrap32(q / TWO32)
  {
  }

  lemma WrapAbove(u: int, v: int)
    requires u == v + TWO32
    ensures Wrap32(u) == Wrap32(v)
  {
    WrapShift(v);
  }

  lemma HighWordShift(p: int)
    requires -0x8000_0000 * TWO32 <= p < 0
    ensures (p % TWO64) / TWO32 == p / TWO32 + TWO32
  {
    assert p % TWO64 == p + TWO64;
    var q, r := p / TWO32, p % TWO32;
    assert p + TWO64 == (q + TWO32) * TWO32 + r;
  }

  /** The low word of a product does not depend on whether the operands are
      read as signed or unsigned. */
  lemma MulSignedLow(x: bv32, y: bv32, a: int, b: int)
    requires a == Nat32(x) || a == Nat32(x) - TWO32
    requires b == Nat32(y) || b == Nat32(y) - TWO32
    ensures Nat32(Mul(x, y)) == Product(a, b) % TWO32
  {
    var k := if a == Nat32(x) then 0 else 1;
    var l := if b == Nat32(y) then 0 else 1;
    ProductCongruent(Nat32(x), Nat32(y), k, l);
    LowWord(Product(Nat32(x), Nat32(y)));
  }

  /** A word's signed reading differs from its unsigned one by 0 or 2^32. */
  lemma SignedIsNat(x: bv32)
    ensures ToSigned(x) == Nat32(x) || ToSigned(x) == Nat32(x) - TWO32
  {
  }

  /** Wrap32 keeps the value modulo 2^32, and an integer splits into its
      high part and its low word. */
  lemma LowWord(p: int)
    ensures Nat32(Wrap32(p)) == p % TWO32
    ensures p == (p / TWO32) * TWO32 + p % TWO32
  {
    assert Wrap32(p) == Wrap32(p % TWO32);
    WrapNat(p % TWO32);
  }

  lemma NatQuotRem(a: nat, b: nat)
    requires b != 0 && a < TWO32
    ensures a == Product(b, NatQuot(a, b)) + NatRem(a, b)
    ensures NatRem(a, b) < b && NatQuot(a, b) < TWO32
  {
    DivideLess(a, b);
  }

  lemma MulLe(a: nat, b: nat, c: nat)
    requires b <= c
    ensures a * b <= a * c
  {
    MulNonneg(a, c - b);
    assert a * c == a * b + a * (c - b);
  }

  lemma UnsignedProduct(a: nat, b: nat)
    requires a < TWO32 && b < TWO32
    ensures 0 <= Product(a, b) < TWO64
  {
    MulLe(a, b, TWO32 - 1);
    MulLe(TWO32 - 1, a, TWO32 - 1);
    assert a * (TWO32 - 1) == (TWO32 - 1) * a;
    assert (TWO32 - 1) * (TWO32 - 1) < TWO64;
  }

  lemma SignedProduct(a: int, b: int)
    requires -0x8000_0000 <= a < 0x8000_0000 && -0x8000_0000 <= b < 0x8000_0000
    ensures -0x4000_0000_0000_0000 <= Product(a, b) <= 0x4000_0000_0000_0000
  {
    var A, B := Abs(a), Abs(b);
    MulLe(A, B, 0x8000_0000);
    MulLe(0x8000_0000, A, 0x8000_0000);
    assert A * 0x8000_0000 == 0x8000_0000 * A;
    AbsProduct(a, b);
  }

  lemma MixedProduct(a: int, b: nat)
    requires -0x8000_0000 <= a < 0x8000_0000 && b < TWO32
    ensures -0x8000_0000 * TWO32 <= Product(a, b) < 0x8000_0000 * TWO32
  {
    var A := Abs(a);
    MulLe(A, b, TWO32 - 1);
    MulLe(TWO32 - 1, A, 0x8000_0000);
    assert A * (TWO32 - 1) == (TWO32 - 1) * A;
    AbsProduct(a, b);
  }

  lemma AbsProduct(a: int, b: int)
    ensures Abs(a * b) == Abs(a) * Abs(b)
  {
    if a < 0 && b < 0 {
      assert a * b == (-a) * (-b);
    } else if a < 0 {
      assert a * b == -((-a) * b);
      MulNonneg(-a, b);
    } else if b < 0 {
      assert a * b == -(a * (-b));
      MulNonneg(a, -b);
    } else {
      MulNonneg(a, b);
    }
  }

  /** Moving either factor by a multiple of 2^32 keeps the product's low word. */
  lemma ProductCongruent(a: int, b: int, k: int, l: int)
    ensures Product(a - k * TWO32, b - l * TWO32) % TWO32 == Product(a, b) % TWO32
  {
    var m := k * b + l * a - k * l * TWO32;
    assert (a - k * TWO32) * (b - l * TWO32) == a * b - m * TWO32;
    ModMultiple(a * b, -m);
  }

  lemma ModMultiple(p: int, m: int)
    ensures (p + m * TWO32) % TWO32 == p % TWO32
  {
  }

  // Facts about the conversions between words and integers.

  lemma RawWrap(q: int)
    requires 0 <= q < TWO32
    ensures ((q % TWO32) as bv32) as int == q
  {
  }

  lemma WrapNat(q: int)
    requires 0 <= q < TWO32
    ensures Nat32(Wrap32(q)) == q
  {
    RawWrap(q);
  }

  lemma HighBit(x: bv32)
    ensures x < 0x8000_0000 <==> Nat32(x) < 0x8000_0000
  {
  }

  lemma WrapShift(q: int)
    ensures Wrap32(q) == Wrap32(q + TWO32)
  {
    assert q % TWO32 == (q + TWO32) % TWO32;
  }

  lemma WrapSigned(q: int)
    requires -0x8000_0000 <= q < 0x8000_0000
    ensures ToSigned(Wrap32(q)) == q
  {
    var w := Wrap32(q);
    if q >= 0 {
      WrapNat(q);
      HighBit(w);
    } else {
      WrapShift(q);
      WrapNat(q + TWO32);
      HighBit(w);
      assert Nat32(w) == q + TWO32;
    }
  }

  lemma SignedRange(x: bv32)
    ensures -0x8000_0000 <= ToSigned(x) < 0x8000_0000
  {
  }

  lemma NatPositive(x: bv32)
    requires x != 0
    ensures Nat32(x) >= 1
  {
  }

  lemma NatIsMin(x: bv32)
    requires Nat32(x) == 0x8000_0000
    ensures x == 0x8000_0000
  {
  }

  lemma NatIsAllOnes(x: bv32)
    requires Nat32(x) == 0xffff_ffff
    ensures x == 0xffff_ffff
  {
  }

  lemma NatIsZero(x: bv32)
    requires Nat32(x) == 0
    ensures x == 0
  {
  }

  /** The three signed values the division cases single out come from exactly
      one word each. */
  lemma SignedSpecial(x: bv32)
    ensures ToSigned(x) == -0x8000_0000 ==> x == 0x8000_0000
    ensures ToSigned(x) == -1 ==> x == 0xffff_ffff
    ensures ToSigned(x) == 0 ==> x == 0
  {
    if ToSigned(x) == -0x8000_0000 {
      NatIsMin(x);
    } else if ToSigned(x) == -1 {
      NatIsAllOnes(x);
    } else if ToSigned(x) == 0 {
      NatIsZero(x);
    }
  }

  /** A truncated 32-bit quotient fits in 32 bits unless it is -2^31 / -1,
      and a remainder always does. */
  lemma QuotientFits(a: int, b: int)
    requires -0x8000_0000 <= a < 0x8000_0000 && -0x8000_0000 <= b < 0x8000_0000 && b != 0
    requires !(a == -0x8000_0000 && b == -1)
    ensures -0x8000_0000 <= TruncDiv(a, b) < 0x8000_0000
    ensures -0x8000_0000 <= TruncRem(a, b) < 0x8000_0000
  {
    var A, B := Abs(a), Abs(b);
    var m := A / B;
    DivideLess(A, B);
    if B >= 2 {
      DivideMore(A, B);
      assert m <= 0x4000_0000;
    } else if m == 0x8000_0000 {
      assert a == -0x8000_0000 && b == 1;
    }
    RemainderBound(a, b);
  }

  lemma RemainderBound(a: int, b: int)
    requires -0x8000_0000 <= b < 0x8000_0000 && b != 0
    ensures -0x8000_0000 < TruncRem(a, b) < 0x8000_0000
  {
    TruncDivRem(a, b);
  }

  lemma MulNonneg(x: nat, y: nat)
    ensures x * y >= 0
  {
  }

  lemma DivideLess(A: nat, B: nat)
    requires B >= 1
    ensures A / B <= A
  {
    var q, r := A / B, A % B;
    assert A == B * q + r && 0 <= r < B;
    MulNonneg(q, B - 1);
    assert B * q == q + q * (B - 1);
  }

  lemma DivideMore(A: nat, B: nat)
    requires B >= 2
    ensures A / B <= A / 2
  {
    var q, r := A / B, A % B;
    assert A == B * q + r && 0 <= r < B;
    MulNonneg(q, B - 2);
    assert B * q == 2 * q + q * (B - 2);
  }
}
