/**
 * The RV32IMA hart of src/cpu.rs: the register file, the state `Cpu::step`
 * changes, and one specification function per part of `step` (fetch,
 * memory access through the MMU, each opcode group), then the trap dispatch
 * of `handle_trap`. The `Registers` and `Cpu` classes at the end update that
 * state in place, one method per operation of `Cpu`, each proved to leave
 * the state its specification function gives. The bus is passed to them as
 * a `BusState` value and handed back updated.
 *
 * The operations the hart calls but src/csr.rs and src/bus.rs do not define
 * (`is_svadu_enabled`, `handle_sret`, `Csr::handle_trap`, `resolve_pending`,
 * `Bus::prepare_interrupt`) are parameters, collected in `Hooks`.
 *
 * CSRRS/CSRRC and friends follow the Zicsr rule for skipping the write
 * (`CsrModifySpec`); `CsrModifyAsWritten` keeps the condition as src/cpu.rs
 * writes it, and `CsrSetOfReadOnlyWithZeroValue` shows where the two part.
 */
module Hart {
  import opened Arch
  import opened Bits
  import opened Isa
  import opened CsrFile
  import opened Mmio
  import opened SystemBus
  import Sv32
  import Tlb

  /** Where the device tree is placed; a1 (x11) holds it at reset. */
  const DTB_ADDR: bv32 := 0x8010_0000

  // ---------------------------------------------------------------------
  // The register file.

  type RegIndex = i: nat | i < 32

  /** Thirty-two registers; x0 reads zero because nothing ever stores into it. */
  type RegFile = s: seq<bv32> | |s| == 32 && s[0] == 0 witness seq(32, _ => 0)

  /** `Registers::default`: all zero but a1 (x11), which points at the
      device tree. */
  const DefaultRegs: RegFile := seq(32, i => if i == 11 then DTB_ADDR else 0)

  /** `Registers::read`. */
  function ReadReg(regs: RegFile, i: RegIndex): bv32
  {
    regs[i]
  }

  /** `Registers::write`: a write to x0 is dropped. */
  function WriteReg(regs: RegFile, i: RegIndex, v: bv32): RegFile
  {
    if i == 0 then regs else regs[i := v]
  }

  /** x0 reads zero whatever was written to it; any other register reads back
      the last value written to it, and a write leaves the other registers
      alone. */
  lemma ReadAfterWrite(regs: RegFile, i: RegIndex, j: RegIndex, v: bv32)
    ensures ReadReg(regs, 0) == 0
    ensures ReadReg(WriteReg(regs, i, v), j) == if j == i && i != 0 then v else ReadReg(regs, j)
  {
  }

  // ---------------------------------------------------------------------
  // The hart's state.

  /** The fields of `Cpu`: privilege, registers, pc, the instruction being
      executed, the CSRs, the TLB, the LR reservation and the address a
      misaligned jump or a page fault recorded for the trap value. */
  datatype CpuState = CpuState(prv: Priv, regs: RegFile, pc: bv32, inst: bv32, csr: Csr,
                               tlb: Tlb.Entries, reserved: Option<bv32>, fault: Option<bv32>)

  /** `Cpu::default`. */
  const Reset: CpuState := CpuState(Machine, DefaultRegs, 0, 0, Default, Tlb.Empty, None, None)

  /** The operations the hart calls that src/csr.rs and src/bus.rs do not
      define. */
  datatype Hooks = Hooks(
    svadu: Csr -> bool,                                     // `is_svadu_enabled`
    sret: Csr -> Outcome<(bv32, Csr)>,                      // `handle_sret`: SPP and the new CSRs
    enter: (Csr, Priv, Trap, bv32, bv32) -> (bv32, Priv, Csr), // `Csr::handle_trap`: pc, privilege, CSRs
    pending: (Csr, Priv) -> Option<Trap>,                   // `resolve_pending`
    prepare: BusState -> ValidBus)                          // `Bus::prepare_interrupt`

  /** An operation's outcome with the hart and bus states it leaves. On a
      trap the states hold whatever the operation changed before it; on a
      panic they are not meaningful. */
  datatype Ret<+T> = Ret(out: Outcome<T>, cpu: CpuState, bus: BusState)

  /** A failed step, its states kept, with its value type changed. */
  function Abort<T, U>(t: Ret<T>): Ret<U>
    requires !t.out.Ok?
  {
    Ret(t.out.PropagateFailure(), t.cpu, t.bus)
  }

  function Rs1Value(s: CpuState): bv32 { ReadReg(s.regs, Rs1(s.inst) as nat) }
  function Rs2Value(s: CpuState): bv32 { ReadReg(s.regs, Rs2(s.inst) as nat) }

  /** The destination register of the current instruction written. */
  function SetRd(s: CpuState, v: bv32): CpuState
  {
    s.(regs := WriteReg(s.regs, Rd(s.inst) as nat, v))
  }

  /** The effective address of a load or JALR: rs1 plus the I-type
      immediate, wrapping. */
  function LoadAddress(s: CpuState): bv32 { Rs1Value(s) + ImmI(s.inst) }

  /** The effective address of a store: rs1 plus the S-type immediate. */
  function StoreAddress(s: CpuState): bv32 { Rs1Value(s) + ImmS(s.inst) }

  /** The return address a linking jump writes: pc + 4. */
  function LinkValue(s: CpuState): bv32 { s.pc + 4 }

  /** The target of a taken branch: pc plus the B-type immediate. */
  function BranchTarget(s: CpuState): bv32 { s.pc + ImmB(s.inst) }

  /** The target of JAL: pc plus the J-type immediate. */
  function JalTarget(s: CpuState): bv32 { s.pc + ImmJ(s.inst) }

  /** The target of JALR: rs1 plus the I-type immediate with bit 0 cleared. */
  function JalrTarget(s: CpuState): bv32 { ClearBitZero(ImmI(s.inst) + Rs1Value(s)) }

  /** The value AUIPC writes: pc plus the U-type immediate. */
  function AuipcValue(s: CpuState): bv32 { s.pc + ImmU(s.inst) }

  /** `x % 4 == 0`: a word-aligned address, judged by its two low bits. */
  predicate Aligned4(x: bv32)
  {
    x & 3 == 0
  }

  lemma Aligned4Remainder(x: bv32)
    ensures Aligned4(x) <==> x % 4 == 0
  {
  }

  // ---------------------------------------------------------------------
  // Memory access.

  /** `translate_va`, on the hart's fields. */
  function TranslateSpec(s: CpuState, b: BusState, h: Hooks, va: bv32, a: AccessType): (t: Ret<bv32>)
    requires b.Valid()
    ensures t.bus.Valid()
  {
    var x := Sv32.Translate(s.csr, s.prv, s.tlb, s.fault, b, va, a, h.svadu(s.csr));
    Ret(x.out, s.(tlb := x.tlb, fault := x.fault), x.bus)
  }

  /** A bus read of the physical address `pa`, outside the walk. */
  function BusRead(s: CpuState, b: BusState, pa: bv32, w: Width, a: AccessType): (t: Ret<bv32>)
    requires b.Valid()
    ensures t.bus.Valid()
  {
    match ReadSpec(b, s.csr, pa, w, CpuContext(false, a))
    case Ok(vb) => Ret(Ok(vb.0), s, vb.1)
    case Fail(e) => Ret(Fail(e), s, b)
    case Panic => Ret(Panic, s, b)
  }

  /** `read_memory`: translate for a load, then read. */
  function ReadMemorySpec(s: CpuState, b: BusState, h: Hooks, va: bv32, w: Width): (t: Ret<bv32>)
    requires b.Valid()
    ensures t.bus.Valid()
  {
    var t := TranslateSpec(s, b, h, va, AccessType.Read);
    if !t.out.Ok? then t
    else BusRead(t.cpu, t.bus, t.out.value, w, AccessType.Read)
  }

  /** `write_memory`: translate for a store, then write; a CLINT or PLIC
      write may change the CSRs. */
  function WriteMemorySpec(s: CpuState, b: BusState, h: Hooks, va: bv32, w: Width, value: bv32)
    : (t: Ret<()>)
    requires b.Valid()
    ensures t.bus.Valid()
  {
    var t := TranslateSpec(s, b, h, va, AccessType.Write);
    if !t.out.Ok? then Abort(t)
    else
      match WriteSpec(t.bus, t.cpu.csr, t.out.value, w, value, CpuContext(false, AccessType.Write))
      case Ok(bc) => Ret(Ok(()), t.cpu.(csr := bc.1), bc.0)
      case Fail(e) => Ret(Fail(e), t.cpu, t.bus)
      case Panic => Ret(Panic, t.cpu, t.bus)
  }

  /** `fetch`: translate the pc for a fetch; a physical address that is not
      word aligned fails without recording a fault address. */
  function FetchSpec(s: CpuState, b: BusState, h: Hooks): (t: Ret<bv32>)
    requires b.Valid()
    ensures t.bus.Valid()
  {
    var t := TranslateSpec(s, b, h, s.pc, Fetch);
    if !t.out.Ok? then t
    else if !Aligned4(t.out.value) then Ret(Fail(InstructionAddressMisaligned), t.cpu, t.bus)
    else BusRead(t.cpu, t.bus, t.out.value, W32, Fetch)
  }

  // ---------------------------------------------------------------------
  // The opcode groups of `step`. Each returns whether the instruction set
  // the pc itself (`is_jump`).

  /** The width of a LOAD by funct3, None where the source is unimplemented. */
  function LoadWidth(inst: bv32): (w: Option<Width>)
    ensures w.Some? <==> LoadSize(inst).Some?
    ensures w.Some? ==> Bytes(w.value) == LoadSize(inst).value
  {
    match LoadSize(inst)
    case None => None
    case Some(n) => Some(if n == 1 then W8 else if n == 2 then W16 else W32)
  }

  /** LB, LH, LW, LBU, LHU: read at rs1 + imm, extend, write rd. */
  function LoadSpec(s: CpuState, b: BusState, h: Hooks): (t: Ret<bool>)
    requires b.Valid()
    ensures t.bus.Valid()
  {
    var addr := LoadAddress(s);
    match LoadWidth(s.inst)
    case None => Ret(Unimplemented(), s, b)
    case Some(w) =>
      var t := ReadMemorySpec(s, b, h, addr, w);
      if !t.out.Ok? then Abort(t)
      else Ret(Ok(false), SetRd(t.cpu, LoadExtend(s.inst, t.out.value)), t.bus)
  }

  /** FENCE and FENCE.I do nothing on one hart; FENCE.TSO is illegal. */
  function MiscMemSpec(s: CpuState, b: BusState): (t: Ret<bool>)
    ensures t.bus == b
  {
    var f := Funct3(s.inst);
    if f == 0 then
      if s.inst == INST_FENCE_TSO then Ret(Illegal(), s, b) else Ret(Ok(false), s, b)
    else if f == 1 then Ret(Ok(false), s, b)
    else Ret(Unimplemented(), s, b)
  }

  /** A register-to-register result written to rd, or the operation's trap. */
  function Compute(s: CpuState, b: BusState, v: Outcome<bv32>): (t: Ret<bool>)
    ensures t.bus == b
  {
    if !v.Ok? then Ret(v.PropagateFailure(), s, b) else Ret(Ok(false), SetRd(s, v.value), b)
  }

  /** The width and stored value of a STORE by funct3: SB and SH keep the low
      8 and 16 bits of rs2. */
  function StoreWidth(f: bv32): Width
    requires f <= 2
  {
    if f == 0 then W8 else if f == 1 then W16 else W32
  }

  function StoreValue(f: bv32, x: bv32): bv32
    requires f <= 2
  {
    if f == 0 then x & 0xff else if f == 1 then x & 0xffff else x
  }

  /** SB, SH, SW at rs1 + imm. */
  function StoreSpec(s: CpuState, b: BusState, h: Hooks): (t: Ret<bool>)
    requires b.Valid()
    ensures t.bus.Valid()
  {
    var addr := StoreAddress(s);
    var f := Funct3(s.inst);
    if f > 2 then Ret(Unimplemented(), s, b)
    else
      var t := WriteMemorySpec(s, b, h, addr, StoreWidth(f), StoreValue(f, Rs2Value(s)));
      if !t.out.Ok? then Abort(t) else Ret(Ok(false), t.cpu, t.bus)
  }

  /** The A extension at the address in rs1: LR.W reads and reserves; SC.W
      stores only under a matching reservation and always drops it; the
      other AMOs read the word, give it to rd, then store the operation's
      result. A misaligned address fails before any access. */
  function AmoSpec(s: CpuState, b: BusState, h: Hooks): (t: Ret<bool>)
    requires b.Valid()
    ensures t.bus.Valid()
  {
    var addr := Rs1Value(s);
    if !Aligned4(addr) then Ret(Fail(StoreOrAMOAddressMisaligned), s, b)
    else if IsLr(s.inst) then LrSpec(s, b, h, addr)
    else if IsSc(s.inst) then ScSpec(s, b, h, addr)
    else RmwSpec(s, b, h, addr)
  }

  /** LR.W: read the word into rd and reserve its address. */
  function LrSpec(s: CpuState, b: BusState, h: Hooks, addr: bv32): (t: Ret<bool>)
    requires b.Valid()
    ensures t.bus.Valid()
  {
    var t := ReadMemorySpec(s, b, h, addr, W32);
    if !t.out.Ok? then Abort(t)
    else Ret(Ok(false), SetRd(t.cpu, t.out.value).(reserved := Some(addr)), t.bus)
  }

  /** SC.W: store rs2 only under a reservation of `addr`; rd gets 0 after a
      store and 1 without one; the reservation is dropped either way. */
  function ScSpec(s: CpuState, b: BusState, h: Hooks, addr: bv32): (t: Ret<bool>)
    requires b.Valid()
    ensures t.bus.Valid()
  {
    if s.reserved == Some(addr) then
      var t := WriteMemorySpec(s, b, h, addr, W32, Rs2Value(s));
      if !t.out.Ok? then Abort(t)
      else Ret(Ok(false), SetRd(t.cpu, 0).(reserved := None), t.bus)
    else Ret(Ok(false), SetRd(s, 1).(reserved := None), b)
  }

  /** AMOSWAP, AMOADD and the other read-modify-write AMOs: read the word,
      give it to rd, then store the operation applied to it and rs2. */
  function RmwSpec(s: CpuState, b: BusState, h: Hooks, addr: bv32): (t: Ret<bool>)
    requires b.Valid()
    ensures t.bus.Valid()
  {
    var t := ReadMemorySpec(s, b, h, addr, W32);
    if !t.out.Ok? then Abort(t)
    else
      var value := AmoValue(s.inst, t.out.value, Rs2Value(s));
      if !value.Ok? then Ret(value.PropagateFailure(), t.cpu, t.bus)
      else
        var u := WriteMemorySpec(SetRd(t.cpu, t.out.value), t.bus, h, addr, W32, value.value);
        if !u.out.Ok? then Abort(u) else Ret(Ok(false), u.cpu, u.bus)
  }

  /** `check_misaligned_addr` and the jump: a target that is not word
      aligned fails and records the target; otherwise the pc moves and, for
      JAL and JALR, rd gets the address of the next instruction. */
  function JumpSpec(s: CpuState, b: BusState, next: bv32, link: bool): (t: Ret<bool>)
    ensures t.bus == b
  {
    if !Aligned4(next) then Ret(Fail(InstructionAddressMisaligned), s.(fault := Some(next)), b)
    else
      var moved := s.(pc := next);
      Ret(Ok(true), if link then SetRd(moved, LinkValue(s)) else moved, b)
  }

  /** Conditional branches: not taken is an ordinary instruction. */
  function BranchSpec(s: CpuState, b: BusState): (t: Ret<bool>)
    ensures t.bus == b
  {
    var taken := BranchTaken(Funct3(s.inst), Rs1Value(s), Rs2Value(s));
    if !taken.Ok? then Ret(taken.PropagateFailure(), s, b)
    else if !taken.value then Ret(Ok(false), s, b)
    else JumpSpec(s, b, BranchTarget(s), false)
  }

  /** JALR: the target is rs1 + imm with bit 0 cleared; funct3 other than 0
      is unimplemented. */
  function JalrSpec(s: CpuState, b: BusState): (t: Ret<bool>)
    ensures t.bus == b
  {
    if Funct3(s.inst) != 0 then Ret(Unimplemented(), s, b)
    else JumpSpec(s, b, JalrTarget(s), true)
  }

  /** `& 0xffff_fffe`: bit 0 cleared. */
  function ClearBitZero(x: bv32): bv32
  {
    x & 0xffff_fffe
  }

  /** The operand of a CSR instruction: rs1's value for the register forms,
      the 5-bit rs1 field for the immediate forms (funct3 bit 2). */
  function CsrOperand(s: CpuState): bv32
  {
    if Funct3(s.inst) & 4 == 0 then Rs1Value(s) else Rs1(s.inst)
  }

  /** The write-back shared by the CSR instructions: write `n` to the CSR,
      then give rd the value read before. */
  function CsrWriteBack(s: CpuState, b: BusState, prior: bv32, n: bv32): (t: Ret<bool>)
    ensures t.bus == b
  {
    var c := CsrFile.Write(s.csr, CsrNumber(s.inst), n, s.prv);
    if !c.Ok? then Ret(c.PropagateFailure(), s, b)
    else Ret(Ok(false), SetRd(s.(csr := c.value), prior), b)
  }

  /** CSRRW and CSRRWI: the old value is read only when rd is not x0; the
      operand is written; rd gets the old value. */
  function CsrSwapSpec(s: CpuState, b: BusState): (t: Ret<bool>)
    ensures t.bus == b
  {
    var prior := if Rd(s.inst) != 0 then CsrFile.Read(s.csr, CsrNumber(s.inst), s.prv) else Ok(0);
    if !prior.Ok? then Ret(prior.PropagateFailure(), s, b)
    else CsrWriteBack(s, b, prior.value, CsrOperand(s))
  }

  /** The value CSRRS/CSRRSI (funct3 bit 0 clear) and CSRRC/CSRRCI (bit 0
      set) write: the old value with the operand's bits set or cleared. */
  function Modified(f: bv32, prior: bv32, operand: bv32): bv32
  {
    if f & 1 == 0 then prior | operand else prior & !operand
  }

  /** CSRRS, CSRRC, CSRRSI and CSRRCI: read, then set or clear the operand's
      bits unless `skip`, then give rd the old value. */
  function CsrModify(s: CpuState, b: BusState, skip: bool): (t: Ret<bool>)
    ensures t.bus == b
  {
    var prior := CsrFile.Read(s.csr, CsrNumber(s.inst), s.prv);
    if !prior.Ok? then Ret(prior.PropagateFailure(), s, b)
    else if skip then Ret(Ok(false), SetRd(s, prior.value), b)
    else CsrWriteBack(s, b, prior.value, Modified(Funct3(s.inst), prior.value, CsrOperand(s)))
  }

  /** As src/cpu.rs:756-808 writes it, the write is skipped when the operand
      VALUE is zero, so CSRRS/CSRRC with a nonzero rs1 that happens to hold
      zero never attempt the write (for CSRRSI/CSRRCI value and field are
      the same). */
  function CsrModifyAsWritten(s: CpuState, b: BusState): Ret<bool>
  {
    CsrModify(s, b, CsrOperand(s) == 0)
  }

  /** As the Zicsr chapter intends, the write is skipped when the rs1 FIELD
      is zero (x0, or a zero immediate). */
  function CsrModifySpec(s: CpuState, b: BusState): Ret<bool>
  {
    CsrModify(s, b, Rs1(s.inst) == 0)
  }

  /** The environment-call cause of each privilege. */
  function EcallCause(p: Priv): Trap
  {
    match p
    case User => EnvCallFromUser
    case Supervisor => EnvCallFromSupervisor
    case Machine => EnvCallFromMachine
  }

  /** Leaving a trap handler: the privilege decoded from the previous-mode
      field (a reserved value panics) and the pc from `epc`. */
  function Return(s: CpuState, b: BusState, popped: Outcome<(bv32, Csr)>, sepc: bool): (t: Ret<bool>)
    ensures t.bus == b
  {
    match popped
    case Ok(pc) =>
      var t := s.(csr := pc.1);
      (match PrivFrom(pc.0)
       case Ok(p) => Ret(Ok(true), t.(prv := p, pc := if sepc then pc.1.sepc else pc.1.mepc), b)
       case _ => Ret(Panic, t, b))
    case Fail(e) => Ret(Fail(e), s, b)
    case Panic => Ret(Panic, s, b)
  }

  /** funct3 0 and 4 of SYSTEM: SFENCE.VMA, ECALL, EBREAK, WFI, SRET, MRET. */
  function PrivilegedSpec(s: CpuState, b: BusState, h: Hooks): (t: Ret<bool>)
    ensures t.bus == b
  {
    if Funct7(s.inst) == 0x09 then
      if IsTvm(s.csr) && s.prv == Supervisor then Ret(Illegal(), s, b)
      else Ret(Ok(false), s.(tlb := Tlb.Empty), b)
    else if s.inst == INST_ECALL then Ret(Fail(EcallCause(s.prv)), s, b)
    else if s.inst == INST_EBREAK then Ret(Fail(BreakPoint), s, b)
    else if s.inst == INST_WFI then
      if IsTw(s.csr) || IsTvm(s.csr) then Ret(Illegal(), s, b) else Ret(Ok(false), s, b)
    else if s.inst == INST_SRET then
      if s.prv == User || IsTsr(s.csr) then Ret(Illegal(), s, b)
      else Return(s, b, h.sret(s.csr), true)
    else if s.inst == INST_MRET then
      if s.prv != Machine then Ret(Illegal(), s, b)
      else Return(s, b, HandleMret(s.csr), false)
    else Ret(Unimplemented(), s, b)
  }

  /** The SYSTEM opcode by funct3. */
  function SystemSpec(s: CpuState, b: BusState, h: Hooks): (t: Ret<bool>)
    ensures t.bus == b
  {
    var f := Funct3(s.inst);
    if f == 1 || f == 5 then CsrSwapSpec(s, b)
    else if f == 2 || f == 3 || f == 6 || f == 7 then CsrModifySpec(s, b)
    else PrivilegedSpec(s, b, h)
  }

  /** The body of `step` after the fetch: dispatch on the opcode. */
  function ExecuteSpec(s: CpuState, b: BusState, h: Hooks): (t: Ret<bool>)
    requires b.Valid()
    ensures t.bus.Valid()
  {
    var op := Opcode(s.inst);
    if op == OP_LOAD then LoadSpec(s, b, h)
    else if op == OP_MISC_MEM then MiscMemSpec(s, b)
    else if op == OP_IMM then Compute(s, b, OpImm(s.inst, Rs1Value(s)))
    else if op == OP_AUIPC then Compute(s, b, Ok(AuipcValue(s)))
    else if op == OP_STORE then StoreSpec(s, b, h)
    else if op == OP_OP then Compute(s, b, Op(s.inst, Rs1Value(s), Rs2Value(s)))
    else if op == OP_AMO then AmoSpec(s, b, h)
    else if op == OP_LUI then Compute(s, b, Ok(ImmU(s.inst)))
    else if op == OP_BRANCH then BranchSpec(s, b)
    else if op == OP_JALR then JalrSpec(s, b)
    else if op == OP_JAL then JumpSpec(s, b, JalTarget(s), true)
    else if op == OP_SYSTEM then SystemSpec(s, b, h)
    else Ret(Unimplemented(), s, b)
  }

  /** `step`: fetch, keep the instruction, refuse the all-zero word, execute. */
  function StepSpec(s: CpuState, b: BusState, h: Hooks): (t: Ret<bool>)
    requires b.Valid()
    ensures t.bus.Valid()
  {
    var t := FetchSpec(s, b, h);
    if !t.out.Ok? then Abort(t)
    else
      var fetched := t.cpu.(inst := t.out.value);
      if fetched.inst == 0 then Ret(Illegal(), fetched, t.bus)
      else ExecuteSpec(fetched, t.bus, h)
  }

  // ---------------------------------------------------------------------
  // Trap entry.

  predicate RecordsAddress(e: Trap)
  {
    e == InstructionAddressMisaligned || e == LoadPageFault || e == StoreOrAMOPageFault
      || e == InstructionPageFault
  }

  /** Enter the handler with trap value `tval`: the CSR side picks the new
      pc and privilege. */
  function Enter(s: CpuState, h: Hooks, e: Trap, tval: bv32): CpuState
  {
    var r := h.enter(s.csr, s.prv, e, s.pc, tval);
    s.(pc := r.0, prv := r.1, csr := r.2)
  }

  /** `handle_trap`: the debugging traps abort; a misaligned jump or a page
      fault takes the recorded address (none recorded panics) and clears
      it; an illegal instruction passes the instruction word; a supervisor
      external interrupt first prepares the bus; every other trap passes 0. */
  function HandleTrapSpec(s: CpuState, b: BusState, h: Hooks, e: Trap): (t: Ret<()>)
    ensures b.Valid() ==> t.bus.Valid()
  {
    if e == UnimplementedCSR || e == UnimplementedInstruction then Ret(Panic, s, b)
    else if RecordsAddress(e) then
      match s.fault
      case None => Ret(Panic, s, b)
      case Some(a) => Ret(Ok(()), Enter(s.(fault := None), h, e, a), b)
    else if e == IlligalInstruction then Ret(Ok(()), Enter(s, h, e, s.inst), b)
    else if e == SupervisorExternalInterrupt then Ret(Ok(()), Enter(s, h, e, 0), h.prepare(b))
    else Ret(Ok(()), Enter(s, h, e, 0), b)
  }

  // ---------------------------------------------------------------------
  // Properties of the instruction engine.

  /** An atomic instruction whose address is not word aligned fails before
      touching memory: nothing changes. */
  lemma AmoMisalignedNoAccess(s: CpuState, b: BusState, h: Hooks)
    requires b.Valid() && !Aligned4(Rs1Value(s))
    ensures AmoSpec(s, b, h) == Ret(Fail(StoreOrAMOAddressMisaligned), s, b)
  {
  }

  /** SC.W without a reservation of its own address gives rd 1, drops any
      reservation and touches nothing else. */
  lemma ScWithoutReservation(s: CpuState, b: BusState, h: Hooks)
    requires b.Valid() && IsSc(s.inst) && Aligned4(Rs1Value(s))
    requires s.reserved != Some(Rs1Value(s))
    ensures AmoSpec(s, b, h) == Ret(Ok(false), s.(regs := WriteReg(s.regs, Rd(s.inst) as nat, 1), reserved := None), b)
  {
    assert !IsLr(s.inst);
  }

  /** SC.W under a reservation of its own address stores rs2 as a word
      write; when that succeeds rd gets 0, the bus is as the store left it
      and the reservation is gone. */
  lemma ScWithReservation(s: CpuState, b: BusState, h: Hooks)
    requires b.Valid() && IsSc(s.inst) && Aligned4(Rs1Value(s))
    requires s.reserved == Some(Rs1Value(s))
    requires AmoSpec(s, b, h).out.Ok?
    ensures var t := AmoSpec(s, b, h);
      var w := WriteMemorySpec(s, b, h, Rs1Value(s), W32, Rs2Value(s));
      w.out.Ok? && t.bus == w.bus && t.cpu.reserved == None &&
      t.cpu.regs == WriteReg(s.regs, Rd(s.inst) as nat, 0)
  {
    assert !IsLr(s.inst);
    assert AmoSpec(s, b, h) == ScSpec(s, b, h, Rs1Value(s));
  }

  /** LR.W reads the word into rd and reserves its address. */
  lemma LrReserves(s: CpuState, b: BusState, h: Hooks)
    requires b.Valid() && IsLr(s.inst) && Aligned4(Rs1Value(s))
    requires AmoSpec(s, b, h).out.Ok?
    ensures var r := ReadMemorySpec(s, b, h, Rs1Value(s), W32);
      var t := AmoSpec(s, b, h);
      r.out.Ok? && t.cpu.reserved == Some(Rs1Value(s)) &&
      t.cpu.regs == WriteReg(s.regs, Rd(s.inst) as nat, r.out.value) && t.bus == r.bus
  {
    assert AmoSpec(s, b, h) == LrSpec(s, b, h, Rs1Value(s));
  }

  /** With paging off a load is a bus read of the virtual address itself. */
  lemma ReadMemoryBare(s: CpuState, b: BusState, h: Hooks, va: bv32, w: Width)
    requires b.Valid() && !IsPagingEnabled(s.csr)
    ensures ReadMemorySpec(s, b, h, va, w) == BusRead(s, b, va, w, AccessType.Read)
  {
    Sv32.TranslateBare(s.csr, s.prv, s.tlb, s.fault, b, va, AccessType.Read, h.svadu(s.csr));
  }

  /** With paging off, a successful store to RAM leaves the hart as it was,
      and a load of the same width at the same address then reads back the
      stored value narrowed to the width. */
  lemma WriteThenRead(s: CpuState, b: BusState, h: Hooks, va: bv32, w: Width, value: bv32)
    requires b.Valid() && !IsPagingEnabled(s.csr) && InMemory(va)
    requires WriteMemorySpec(s, b, h, va, w, value).out.Ok?
    ensures var t := WriteMemorySpec(s, b, h, va, w, value);
      t.cpu == s && ReadMemorySpec(t.cpu, t.bus, h, va, w).out == Ok(Narrow(w, value))
  {
    var ctx := CpuContext(false, AccessType.Write);
    Sv32.TranslateBare(s.csr, s.prv, s.tlb, s.fault, b, va, AccessType.Write, h.svadu(s.csr));
    MemoryRoundTrip(b, s.csr, va, w, value, ctx);
    var t := WriteMemorySpec(s, b, h, va, w, value);
    assert t.cpu == s && t.bus == WriteSpec(b, s.csr, va, w, value, ctx).value.0;
    ReadMemoryBare(t.cpu, t.bus, h, va, w);
    MemoryReadAnyContext(t.bus, s.csr, va, w, ctx, CpuContext(false, AccessType.Read));
  }

  /** A RAM read does not depend on what the access is for. */
  lemma MemoryReadAnyContext(b: BusState, csr: Csr, addr: bv32, w: Width, c1: CpuContext, c2: CpuContext)
    requires b.Valid() && InMemory(addr)
    ensures ReadSpec(b, csr, addr, w, c1) == ReadSpec(b, csr, addr, w, c2)
  {
  }

  /** With paging off, a read-modify-write AMO on RAM gives rd the word that
      was there, and the word then reads back as the operation applied to it
      and rs2. */
  lemma AmoUpdatesWord(s: CpuState, b: BusState, h: Hooks)
    requires b.Valid() && !IsLr(s.inst) && !IsSc(s.inst)
    requires !IsPagingEnabled(s.csr) && Aligned4(Rs1Value(s)) && InMemory(Rs1Value(s))
    requires AmoSpec(s, b, h).out.Ok?
    ensures var addr := Rs1Value(s);
      var original := ReadSpec(b, s.csr, addr, W32, CpuContext(false, AccessType.Read));
      var t := AmoSpec(s, b, h);
      original.Ok? && AmoValue(s.inst, original.value.0, Rs2Value(s)).Ok? &&
      t.cpu.regs == WriteReg(s.regs, Rd(s.inst) as nat, original.value.0) &&
      ReadMemorySpec(t.cpu, t.bus, h, addr, W32).out == Ok(AmoValue(s.inst, original.value.0, Rs2Value(s)).value)
  {
    var addr := Rs1Value(s);
    assert AmoSpec(s, b, h) == RmwSpec(s, b, h, addr);
    RmwUpdatesWord(s, b, h, addr);
  }

  /** The read-modify-write part of AmoUpdatesWord, at a given address. */
  lemma RmwUpdatesWord(s: CpuState, b: BusState, h: Hooks, addr: bv32)
    requires b.Valid() && !IsPagingEnabled(s.csr) && InMemory(addr)
    requires RmwSpec(s, b, h, addr).out.Ok?
    ensures var original := ReadSpec(b, s.csr, addr, W32, CpuContext(false, AccessType.Read));
      var t := RmwSpec(s, b, h, addr);
      original.Ok? && AmoValue(s.inst, original.value.0, Rs2Value(s)).Ok? &&
      t.cpu.regs == WriteReg(s.regs, Rd(s.inst) as nat, original.value.0) &&
      ReadMemorySpec(t.cpu, t.bus, h, addr, W32).out == Ok(AmoValue(s.inst, original.value.0, Rs2Value(s)).value)
  {
    ReadMemoryBare(s, b, h, addr, W32);
    var r := ReadMemorySpec(s, b, h, addr, W32);
    var v := AmoValue(s.inst, r.out.value, Rs2Value(s)).value;
    var s1 := SetRd(r.cpu, r.out.value);
    WriteThenRead(s1, r.bus, h, addr, W32, v);
  }

  /** With paging off, a store to RAM followed by a load of the same width
      at the same address reads back the low 8, 16 or 32 bits of rs2. */
  lemma StoreThenLoad(s: CpuState, b: BusState, h: Hooks)
    requires b.Valid() && Funct3(s.inst) <= 2
    requires !IsPagingEnabled(s.csr) && InMemory(StoreAddress(s))
    requires StoreSpec(s, b, h).out.Ok?
    ensures var f := Funct3(s.inst);
      var t := StoreSpec(s, b, h);
      t.cpu == s &&
      ReadMemorySpec(t.cpu, t.bus, h, StoreAddress(s), StoreWidth(f)).out == Ok(StoreValue(f, Rs2Value(s)))
  {
    var f := Funct3(s.inst);
    WriteThenRead(s, b, h, StoreAddress(s), StoreWidth(f), StoreValue(f, Rs2Value(s)));
    NarrowStoreValue(f, Rs2Value(s));
  }

  /** The value a store of funct3 `f` writes is already narrow. */
  lemma NarrowStoreValue(f: bv32, x: bv32)
    requires f <= 2
    ensures Narrow(StoreWidth(f), StoreValue(f, x)) == StoreValue(f, x)
  {
  }

  /** A jump (JAL, JALR, a taken branch): a target that is not word aligned
      fails, records the target and changes neither the pc nor rd; an
      aligned one moves the pc there and, for JAL and JALR, links rd to the
      next instruction. */
  lemma JumpEffect(s: CpuState, b: BusState, next: bv32, link: bool)
    ensures var t := JumpSpec(s, b, next, link);
      t.bus == b &&
      (!Aligned4(next) ==> t.out == Fail(InstructionAddressMisaligned) && t.cpu == s.(fault := Some(next))) &&
      (Aligned4(next) ==>
         t.out == Ok(true) && t.cpu.pc == next &&
         t.cpu.regs == (if link then WriteReg(s.regs, Rd(s.inst) as nat, LinkValue(s)) else s.regs) &&
         t.cpu == s.(pc := next, regs := t.cpu.regs))
  {
  }

  /** JALR with a funct3 other than 0 is unimplemented and changes nothing. */
  lemma JalrUnimplemented(s: CpuState, b: BusState)
    requires Funct3(s.inst) != 0
    ensures JalrSpec(s, b) == Ret(Unimplemented(), s, b)
  {
  }

  /** JALR is a linking jump to rs1 + imm with bit 0 cleared. */
  lemma JalrLinks(s: CpuState, b: BusState)
    requires Funct3(s.inst) == 0
    ensures JalrSpec(s, b) == JumpSpec(s, b, JalrTarget(s), true)
  {
  }

  /** Clearing bit 0 leaves an even address: a sum one past a word boundary
      lands on that boundary, and a sum with bit 1 set stays misaligned. */
  lemma ClearBitZeroAlignment(x: bv32)
    ensures ClearBitZero(x) & 1 == 0
    ensures x & 3 == 1 ==> ClearBitZero(x) == x - 1 && Aligned4(ClearBitZero(x))
    ensures x & 2 != 0 ==> !Aligned4(ClearBitZero(x))
    ensures x & 2 == 0 ==> Aligned4(ClearBitZero(x))
  {
  }

  /** A branch not taken is an ordinary instruction that changes nothing. */
  lemma BranchNotTaken(s: CpuState, b: BusState)
    requires BranchTaken(Funct3(s.inst), Rs1Value(s), Rs2Value(s)) == Ok(false)
    ensures BranchSpec(s, b) == Ret(Ok(false), s, b)
  {
  }

  /** A taken branch is a jump without a link to pc + imm. */
  lemma BranchJumps(s: CpuState, b: BusState)
    requires BranchTaken(Funct3(s.inst), Rs1Value(s), Rs2Value(s)) == Ok(true)
    ensures BranchSpec(s, b) == JumpSpec(s, b, BranchTarget(s), false)
  {
  }

  /** funct3 2 and 3 are no branch: unimplemented, nothing changes. */
  lemma BranchUnimplemented(s: CpuState, b: BusState)
    requires Funct3(s.inst) == 2 || Funct3(s.inst) == 3
    ensures BranchSpec(s, b) == Ret(Unimplemented(), s, b)
  {
  }

  /** SYSTEM by funct3: CSRRW/CSRRWI, the four read-and-modify forms, and
      the privileged instructions under funct3 0 and 4. */
  lemma SystemDispatch(s: CpuState, b: BusState, h: Hooks)
    ensures var f := Funct3(s.inst);
      var t := SystemSpec(s, b, h);
      ((f == 1 || f == 5) ==> t == CsrSwapSpec(s, b)) &&
      ((f == 2 || f == 3 || f == 6 || f == 7) ==> t == CsrModifySpec(s, b)) &&
      ((f == 0 || f == 4) ==> t == PrivilegedSpec(s, b, h))
  {
  }

  predicate IsCsrInstruction(inst: bv32)
  {
    Opcode(inst) == OP_SYSTEM && Funct3(inst) != 0 && Funct3(inst) != 4
  }

  /** A CSR instruction whose read or write fails changes nothing, rd
      included. */
  lemma CsrFailureKeepsState(s: CpuState, b: BusState, h: Hooks)
    requires b.Valid() && IsCsrInstruction(s.inst)
    requires !SystemSpec(s, b, h).out.Ok?
    ensures SystemSpec(s, b, h).cpu == s && SystemSpec(s, b, h).bus == b
  {
  }

  /** CSRRW and CSRRWI with rd = x0 never read the CSR: they succeed exactly
      when the write does. */
  lemma CsrSwapSkipsRead(s: CpuState, b: BusState, h: Hooks)
    requires b.Valid() && Opcode(s.inst) == OP_SYSTEM && (Funct3(s.inst) == 1 || Funct3(s.inst) == 5)
    requires Rd(s.inst) == 0
    ensures var c := CsrFile.Write(s.csr, CsrNumber(s.inst), CsrOperand(s), s.prv);
      var t := SystemSpec(s, b, h);
      (t.out.Ok? <==> c.Ok?) && (c.Ok? ==> t.cpu == s.(csr := c.value))
  {
  }

  /** CSRRS, CSRRC, CSRRSI and CSRRCI with a zero rs1 field only read: the
      CSRs stay as they are and rd gets the value read. */
  lemma CsrModifyOnlyReads(s: CpuState, b: BusState)
    requires Rs1(s.inst) == 0
    requires CsrModifySpec(s, b).out.Ok?
    ensures var v := CsrFile.Read(s.csr, CsrNumber(s.inst), s.prv);
      var t := CsrModifySpec(s, b);
      v.Ok? && t.bus == b && t.cpu == SetRd(s, v.value)
  {
  }

  /** A write-back that succeeds stores the written CSR file, and rd gets
      the old value; one that fails changes nothing. */
  lemma WriteBackEffect(s: CpuState, b: BusState, prior: bv32, n: bv32)
    ensures var c := CsrFile.Write(s.csr, CsrNumber(s.inst), n, s.prv);
      var t := CsrWriteBack(s, b, prior, n);
      (t.out.Ok? <==> c.Ok?) &&
      (c.Ok? ==> t.cpu == SetRd(s.(csr := c.value), prior)) &&
      (!c.Ok? ==> t.cpu == s)
  {
  }

  /** With a nonzero rs1 field they write the old value with the operand's
      bits set (funct3 bit 0 clear) or cleared (funct3 bit 0 set), and rd
      gets the old value. */
  lemma CsrModifyWrites(s: CpuState, b: BusState)
    requires Rs1(s.inst) != 0
    requires CsrModifySpec(s, b).out.Ok?
    ensures var v := CsrFile.Read(s.csr, CsrNumber(s.inst), s.prv);
      var t := CsrModifySpec(s, b);
      v.Ok? && t.bus == b &&
      CsrFile.Write(s.csr, CsrNumber(s.inst), Modified(Funct3(s.inst), v.value, CsrOperand(s)), s.prv) == Ok(t.cpu.csr) &&
      t.cpu == SetRd(s.(csr := t.cpu.csr), v.value)
  {
    var v := CsrFile.Read(s.csr, CsrNumber(s.inst), s.prv);
    WriteBackEffect(s, b, v.value, Modified(Funct3(s.inst), v.value, CsrOperand(s)));
  }

  /** CSRRS x1, mhartid, x5 (0xf142a0f3) in machine mode with x5 = 0: as
      written the write is skipped and the instruction succeeds; with the
      rs1 field nonzero the write of the read-only mhartid is attempted and
      the instruction is illegal. */
  lemma CsrSetOfReadOnlyWithZeroValue()
    ensures var s := Reset.(inst := 0xf142_a0f3);
      Rs1(s.inst) == 5 && Rs1Value(s) == 0 && CsrNumber(s.inst) == MHARTID &&
      CsrModifyAsWritten(s, Initial).out == Ok(false) &&
      CsrModifySpec(s, Initial).out == Illegal()
  {
  }

  /** MRET outside machine mode, SRET in user mode or under TSR, and
      SFENCE.VMA in supervisor mode under TVM are illegal and change
      nothing. */
  lemma PrivilegedIllegal(s: CpuState, b: BusState, h: Hooks)
    requires b.Valid()
    requires (s.inst == INST_MRET && s.prv != Machine)
          || (s.inst == INST_SRET && (s.prv == User || IsTsr(s.csr)))
          || (Opcode(s.inst) == OP_SYSTEM && Funct3(s.inst) == 0 && Funct7(s.inst) == 0x09 &&
              IsTvm(s.csr) && s.prv == Supervisor)
    ensures SystemSpec(s, b, h) == Ret(Illegal(), s, b)
  {
  }

  /** SFENCE.VMA, when allowed, empties the TLB and changes nothing else. */
  lemma SfenceEmptiesTlb(s: CpuState, b: BusState, h: Hooks)
    requires b.Valid() && Opcode(s.inst) == OP_SYSTEM && Funct3(s.inst) == 0 && Funct7(s.inst) == 0x09
    requires !(IsTvm(s.csr) && s.prv == Supervisor)
    ensures SystemSpec(s, b, h) == Ret(Ok(false), s.(tlb := Tlb.Empty), b)
  {
  }

  /** ECALL raises the environment call of the current privilege, whose
      code is 8 plus the privilege's encoding. */
  lemma EcallCauseOfPrivilege(s: CpuState, b: BusState, h: Hooks)
    requires b.Valid() && s.inst == INST_ECALL
    ensures SystemSpec(s, b, h) == Ret(Fail(EcallCause(s.prv)), s, b)
    ensures Code(EcallCause(s.prv)) == 8 + Level(s.prv)
  {
  }

  /** MRET in machine mode is illegal while mstatus.TSR is set (the CSR
      side refuses it, as src/csr.rs does); otherwise it returns to the
      privilege in MPP (a reserved MPP panics) at mepc, with the stack
      popped. */
  lemma MretReturns(s: CpuState, b: BusState, h: Hooks)
    requires s.inst == INST_MRET && s.prv == Machine
    ensures IsTsr(s.csr) ==> PrivilegedSpec(s, b, h) == Ret(Illegal(), s, b)
    ensures !IsTsr(s.csr) ==>
      var t := PrivilegedSpec(s, b, h);
      var popped := HandleMret(s.csr).value.1;
      t.bus == b &&
      (MstatusMpp(s.csr) == 2 ==> t.out.Panic?) &&
      (MstatusMpp(s.csr) != 2 ==>
         t.out == Ok(true) && PrivFrom(MstatusMpp(s.csr)) == Ok(t.cpu.prv) &&
         t.cpu == s.(csr := popped, prv := t.cpu.prv, pc := popped.mepc))
  {
    if !IsTsr(s.csr) {
      HandleMretEffect(s.csr);
    }
  }

  /** A fetched all-zero word is illegal, and the word is kept as the
      instruction (the trap value of an illegal instruction). */
  lemma ZeroWordIllegal(s: CpuState, b: BusState, h: Hooks)
    requires b.Valid() && FetchSpec(s, b, h).out == Ok(0)
    ensures var f := FetchSpec(s, b, h);
      StepSpec(s, b, h) == Ret(Illegal(), f.cpu.(inst := 0), f.bus)
  {
  }

  /** A failed fetch leaves the instruction register as it was. */
  lemma FailedFetchKeepsInstruction(s: CpuState, b: BusState, h: Hooks)
    requires b.Valid() && !FetchSpec(s, b, h).out.Ok?
    ensures StepSpec(s, b, h).cpu.inst == s.inst
  {
  }

  /** The debugging traps abort; a misaligned jump or page fault hands the
      recorded address to the handler and clears it (none recorded panics);
      an illegal instruction hands over the instruction word; every other
      trap hands over 0. Only a supervisor external interrupt touches the
      bus. */
  lemma TrapValue(s: CpuState, b: BusState, h: Hooks, e: Trap)
    ensures (e == UnimplementedCSR || e == UnimplementedInstruction) ==> HandleTrapSpec(s, b, h, e).out == Panic
    ensures RecordsAddress(e) ==>
      (s.fault.None? ==> HandleTrapSpec(s, b, h, e).out == Panic) &&
      (s.fault.Some? ==> HandleTrapSpec(s, b, h, e) == Ret(Ok(()), Enter(s.(fault := None), h, e, s.fault.value), b))
    ensures e == IlligalInstruction ==> HandleTrapSpec(s, b, h, e) == Ret(Ok(()), Enter(s, h, e, s.inst), b)
    ensures e == EnvCallFromUser || e == BreakPoint ==> HandleTrapSpec(s, b, h, e) == Ret(Ok(()), Enter(s, h, e, 0), b)
    ensures e == SupervisorExternalInterrupt ==>
      HandleTrapSpec(s, b, h, e) == Ret(Ok(()), Enter(s, h, e, 0), h.prepare(b))
    ensures e != SupervisorExternalInterrupt ==> HandleTrapSpec(s, b, h, e).bus == b
  {
  }

  /** A jump to a misaligned target, then its trap: the handler receives
      the target as the trap value, at the jump's own pc, and the recorded
      address is consumed. */
  lemma MisalignedJumpTrapValue(s: CpuState, b: BusState, next: bv32, link: bool, h: Hooks)
    requires !Aligned4(next)
    ensures var t := JumpSpec(s, b, next, link);
      t.out.Fail? &&
      HandleTrapSpec(t.cpu, b, h, t.out.trap) == Ret(Ok(()), Enter(s.(fault := None), h, InstructionAddressMisaligned, next), b)
  {
    var t := JumpSpec(s, b, next, link);
    assert t.cpu == s.(fault := Some(next));
    assert t.cpu.(fault := None) == s.(fault := None);
  }

  // ---------------------------------------------------------------------
  // The hart as the source keeps it: objects updated in place.

  /** `Registers`: thirty-two words in a fixed array. */
  class Registers {
    const regs: array<bv32>

    ghost predicate Valid()
      reads this, regs
    {
      regs.Length == 32 && regs[0] == 0
    }

    function Contents(): RegFile
      requires Valid()
      reads this, regs
    {
      regs[..]
    }

    /** `Registers::default`. */
    constructor ()
      ensures Valid() && Contents() == DefaultRegs && fresh(regs)
    {
      regs := new bv32[32](i => if i == 11 then DTB_ADDR else 0);
      new;
      assert regs[..] == DefaultRegs;
    }

    /** `Registers::init`: back to the default contents. */
    method Init()
      requires Valid()
      modifies regs
      ensures Valid() && Contents() == DefaultRegs
    {
      forall i | 0 <= i < 32 {
        regs[i] := if i == 11 then DTB_ADDR else 0;
      }
      assert regs[..] == DefaultRegs;
    }

    /** `Registers::read`. */
    function Read(i: RegIndex): (r: bv32)
      requires Valid()
      reads this, regs
      ensures r == ReadReg(Contents(), i)
    {
      regs[i]
    }

    /** `Registers::write`: x0 keeps reading zero; any other register reads
        back the value and the rest are unchanged. */
    method Write(i: RegIndex, v: bv32)
      requires Valid()
      modifies regs
      ensures Valid() && Contents() == WriteReg(old(Contents()), i, v)
    {
      if i != 0 {
        regs[i] := v;
      }
    }
  }

  /** `Cpu`: the fields of `CpuState`, with the registers and the TLB as
      objects of their own. */
  class Cpu {
    var prv: Priv
    const regs: Registers
    var pc: bv32
    var inst: bv32
    var csr: Csr
    const tlb: Tlb.Tlb
    var reserved: Option<bv32>
    var fault: Option<bv32>

    ghost predicate Valid()
      reads this, regs, regs.regs, tlb
    {
      regs.Valid() && tlb.Valid()
    }

    /** The hart's state as a value. */
    function State(): CpuState
      requires Valid()
      reads this, regs, regs.regs, tlb, tlb.entries
    {
      CpuState(prv, regs.Contents(), pc, inst, csr, tlb.Contents(), reserved, fault)
    }

    /** An operation ended in `r` with the bus in state `bus`, as `t` says;
        after a panic only the outcome is meaningful. */
    ghost predicate Left<T>(r: Outcome<T>, bus: BusState, t: Ret<T>)
      requires Valid()
      reads this, regs, regs.regs, tlb, tlb.entries
    {
      r == t.out && (!r.Panic? ==> State() == t.cpu && bus == t.bus)
    }

    /** `Cpu::default`. */
    constructor ()
      ensures Valid() && State() == Reset
      ensures fresh(regs) && fresh(regs.regs) && fresh(tlb) && fresh(tlb.entries)
    {
      prv := Machine;
      regs := new Registers();
      pc := 0;
      inst := 0;
      csr := Default;
      tlb := new Tlb.Tlb();
      reserved := None;
      fault := None;
    }

    /** `translate_va`: the identity with paging off or at an effective
        privilege of Machine; then the TLB; then the two-level walk, which
        registers the leaf it finds or records `va` and page-faults. */
    method TranslateVa(va: bv32, a: AccessType, bus: BusState, h: Hooks) returns (r: Outcome<bv32>, after: BusState)
      requires Valid() && bus.Valid()
      modifies this, tlb.entries
      ensures Valid() && after.Valid()
      ensures Left(r, after, TranslateSpec(old(State()), bus, h, va, a))
    {
      ghost var s := State();
      if !IsPagingEnabled(csr) {
        Sv32.TranslateBare(csr, prv, s.tlb, fault, bus, va, a, h.svadu(csr));
        return Ok(va), bus;
      }
      var effective := Sv32.EffectivePriv(csr, prv, a);
      if !effective.Ok? {
        return Panic, bus;
      }
      var p := effective.value;
      if p == Machine {
        Sv32.TranslateMachine(csr, prv, s.tlb, fault, bus, va, a, h.svadu(csr));
        return Ok(va), bus;
      }
      var cached := tlb.LookupPpn(va, p);
      if cached.Some? {
        Sv32.TranslateCached(csr, prv, s.tlb, fault, bus, va, a, h.svadu(csr), p, cached.value);
        return Ok(Sv32.PhysicalAddress(cached.value.ppn, va)), bus;
      }
      Sv32.TranslateMiss(csr, prv, s.tlb, fault, bus, va, a, h.svadu(csr), p);
      r, after := WalkAndConclude(va, a, p, bus, h);
    }

    /** `translate_va` after a TLB miss: the walk, then either the page fault
        with `va` recorded, or the leaf's page registered in the TLB and the
        physical address. */
    method WalkAndConclude(va: bv32, a: AccessType, p: Priv, bus: BusState, h: Hooks)
      returns (r: Outcome<bv32>, after: BusState)
      requires Valid() && bus.Valid()
      modifies this, tlb.entries
      ensures Valid() && after.Valid()
      ensures Concluded(r, after, Sv32.Conclude(Sv32.WalkFrom(bus, old(csr), va, a, p, h.svadu(old(csr)),
                                                              Sv32.RootTable(old(csr)), Sv32.LEVELS),
                                                old(tlb.Contents()), old(fault), bus, va, a, p),
                        old(State()))
    {
      var last;
      last, after := WalkTable(csr, h.svadu(csr), va, a, p, bus);
      match last {
        case Ok(None) =>
          fault := Some(va);
          r := Fail(Sv32.PageFault(a));
        case Ok(Some(leaf)) =>
          var ppn := Sv32.LeafPpn(leaf.1, leaf.0, va);
          tlb.RegisterEntry(Tlb.NewEntry(va, ppn, p));
          r := Ok(Sv32.PhysicalAddress(ppn, va));
        case Fail(e) =>
          r := Fail(e);
        case Panic =>
          r := Panic;
      }
    }

    /** The translation `x` ended in `r`; unless it panicked, the hart is `s`
        with the TLB and the fault address `x` gives, and the bus is `x`'s. */
    ghost predicate Concluded(r: Outcome<bv32>, after: BusState, x: Sv32.Translation, s: CpuState)
      requires Valid()
      reads this, regs, regs.regs, tlb, tlb.entries
    {
      r == x.out && (!r.Panic? ==> State() == s.(tlb := x.tlb, fault := x.fault) && after == x.bus)
    }

    /** The destination register of the current instruction written. */
    method WriteRd(v: bv32)
      requires Valid()
      modifies regs.regs
      ensures Valid() && State() == SetRd(old(State()), v)
    {
      regs.Write(Rd(inst) as nat, v);
    }

    /** `read_memory`: translate for a load, then read the bus. */
    method ReadMemory(va: bv32, w: Width, bus: BusState, h: Hooks) returns (r: Outcome<bv32>, after: BusState)
      requires Valid() && bus.Valid()
      modifies this, tlb.entries
      ensures Valid() && after.Valid()
      ensures Left(r, after, ReadMemorySpec(old(State()), bus, h, va, w))
    {
      var pa;
      pa, after := TranslateVa(va, AccessType.Read, bus, h);
      if pa.Ok? {
        var v := ReadSpec(after, csr, pa.value, w, CpuContext(false, AccessType.Read));
        if v.Ok? {
          r, after := Ok(v.value.0), v.value.1;
        } else {
          r := v.PropagateFailure();
        }
      } else {
        r := pa;
      }
    }

    /** `write_memory`: translate for a store, then write the bus; a CLINT or
        PLIC write hands back new CSRs. */
    method WriteMemory(va: bv32, w: Width, value: bv32, bus: BusState, h: Hooks)
      returns (r: Outcome<()>, after: BusState)
      requires Valid() && bus.Valid()
      modifies this, tlb.entries
      ensures Valid() && after.Valid()
      ensures Left(r, after, WriteMemorySpec(old(State()), bus, h, va, w, value))
    {
      var pa;
      pa, after := TranslateVa(va, AccessType.Write, bus, h);
      if pa.Ok? {
        var v := WriteSpec(after, csr, pa.value, w, value, CpuContext(false, AccessType.Write));
        if v.Ok? {
          r, after, csr := Ok(()), v.value.0, v.value.1;
        } else {
          r := v.PropagateFailure();
        }
      } else {
        r := pa.PropagateFailure();
      }
    }

    /** `fetch`: the word at the translated pc. */
    method Fetch(bus: BusState, h: Hooks) returns (r: Outcome<bv32>, after: BusState)
      requires Valid() && bus.Valid()
      modifies this, tlb.entries
      ensures Valid() && after.Valid()
      ensures Left(r, after, FetchSpec(old(State()), bus, h))
    {
      var pa;
      pa, after := TranslateVa(pc, AccessType.Fetch, bus, h);
      if !pa.Ok? {
        r := pa;
      } else if !Aligned4(pa.value) {
        r := Fail(InstructionAddressMisaligned);
      } else {
        var v := ReadSpec(after, csr, pa.value, W32, CpuContext(false, AccessType.Fetch));
        if v.Ok? {
          r, after := Ok(v.value.0), v.value.1;
        } else {
          r := v.PropagateFailure();
        }
      }
    }

    /** `Cpu::step`: fetch, keep the word as the instruction, refuse the
        all-zero word, execute. */
    method Step(bus: BusState, h: Hooks) returns (r: Outcome<bool>, after: BusState)
      requires Valid() && bus.Valid()
      modifies this, regs.regs, tlb.entries
      ensures Valid() && after.Valid()
      ensures Left(r, after, StepSpec(old(State()), bus, h))
    {
      var word;
      word, after := Fetch(bus, h);
      if !word.Ok? {
        r := word.PropagateFailure();
      } else {
        inst := word.value;
        if inst == 0 {
          r := Illegal();
        } else {
          r, after := Execute(after, h);
        }
      }
    }

    /** The opcode dispatch of `step`. */
    method Execute(bus: BusState, h: Hooks) returns (r: Outcome<bool>, after: BusState)
      requires Valid() && bus.Valid()
      modifies this, regs.regs, tlb.entries
      ensures Valid() && after.Valid()
      ensures Left(r, after, ExecuteSpec(old(State()), bus, h))
    {
      var s := State();
      var op := Opcode(s.inst);
      after := bus;
      if op == OP_LOAD {
        r, after := Load(bus, h);
      } else if op == OP_MISC_MEM {
        r := MiscMem(bus);
      } else if op == OP_IMM {
        r := WriteResult(OpImm(s.inst, Rs1Value(s)), bus);
      } else if op == OP_AUIPC {
        r := WriteResult(Ok(AuipcValue(s)), bus);
      } else if op == OP_STORE {
        r, after := Store(bus, h);
      } else if op == OP_OP {
        r := WriteResult(Op(s.inst, Rs1Value(s), Rs2Value(s)), bus);
      } else if op == OP_AMO {
        r, after := Amo(bus, h);
      } else if op == OP_LUI {
        r := WriteResult(Ok(ImmU(s.inst)), bus);
      } else if op == OP_BRANCH {
        r := Branch(bus);
      } else if op == OP_JALR {
        r := Jalr(bus);
      } else if op == OP_JAL {
        r := Jump(JalTarget(s), true, bus);
      } else if op == OP_SYSTEM {
        r := System(bus, h);
      } else {
        r := Unimplemented();
      }
    }

    /** LB, LH, LW, LBU, LHU. */
    method Load(bus: BusState, h: Hooks) returns (r: Outcome<bool>, after: BusState)
      requires Valid() && bus.Valid()
      modifies this, regs.regs, tlb.entries
      ensures Valid() && after.Valid()
      ensures Left(r, after, LoadSpec(old(State()), bus, h))
    {
      var s := State();
      var w := LoadWidth(s.inst);
      after := bus;
      if w.None? {
        r := Unimplemented();
      } else {
        var v;
        v, after := ReadMemory(LoadAddress(s), w.value, bus, h);
        if v.Ok? {
          WriteRd(LoadExtend(s.inst, v.value));
          r := Ok(false);
        } else {
          r := v.PropagateFailure();
        }
      }
    }

    /** FENCE, FENCE.I and FENCE.TSO. */
    method MiscMem(bus: BusState) returns (r: Outcome<bool>)
      requires Valid()
      ensures Left(r, bus, MiscMemSpec(State(), bus))
    {
      var f := Funct3(inst);
      if f == 0 {
        r := if inst == INST_FENCE_TSO then Illegal() else Ok(false);
      } else if f == 1 {
        r := Ok(false);
      } else {
        r := Unimplemented();
      }
    }

    /** A computed value written to rd, or the operation's trap. */
    method WriteResult(v: Outcome<bv32>, bus: BusState) returns (r: Outcome<bool>)
      requires Valid()
      modifies regs.regs
      ensures Valid()
      ensures Left(r, bus, Compute(old(State()), bus, v))
    {
      if v.Ok? {
        WriteRd(v.value);
        r := Ok(false);
      } else {
        r := v.PropagateFailure();
      }
    }

    /** SB, SH, SW. */
    method Store(bus: BusState, h: Hooks) returns (r: Outcome<bool>, after: BusState)
      requires Valid() && bus.Valid()
      modifies this, tlb.entries
      ensures Valid() && after.Valid()
      ensures Left(r, after, StoreSpec(old(State()), bus, h))
    {
      var s := State();
      var f := Funct3(s.inst);
      after := bus;
      if f > 2 {
        r := Unimplemented();
      } else {
        var done;
        done, after := WriteMemory(StoreAddress(s), StoreWidth(f), StoreValue(f, Rs2Value(s)), bus, h);
        r := if done.Ok? then Ok(false) else done.PropagateFailure();
      }
    }

    /** The A extension: the alignment check, then LR.W, SC.W or a
        read-modify-write. */
    method Amo(bus: BusState, h: Hooks) returns (r: Outcome<bool>, after: BusState)
      requires Valid() && bus.Valid()
      modifies this, regs.regs, tlb.entries
      ensures Valid() && after.Valid()
      ensures Left(r, after, AmoSpec(old(State()), bus, h))
    {
      var s := State();
      var addr := Rs1Value(s);
      after := bus;
      if !Aligned4(addr) {
        r := Fail(StoreOrAMOAddressMisaligned);
      } else if IsLr(s.inst) {
        r, after := LoadReserved(addr, bus, h);
      } else if IsSc(s.inst) {
        r, after := StoreConditional(addr, bus, h);
      } else {
        r, after := ReadModifyWrite(addr, bus, h);
      }
    }

    /** LR.W. */
    method LoadReserved(addr: bv32, bus: BusState, h: Hooks) returns (r: Outcome<bool>, after: BusState)
      requires Valid() && bus.Valid()
      modifies this, regs.regs, tlb.entries
      ensures Valid() && after.Valid()
      ensures Left(r, after, LrSpec(old(State()), bus, h, addr))
    {
      var v;
      v, after := ReadMemory(addr, W32, bus, h);
      if v.Ok? {
        WriteRd(v.value);
        reserved := Some(addr);
        r := Ok(false);
      } else {
        r := v.PropagateFailure();
      }
    }

    /** SC.W. */
    method StoreConditional(addr: bv32, bus: BusState, h: Hooks) returns (r: Outcome<bool>, after: BusState)
      requires Valid() && bus.Valid()
      modifies this, regs.regs, tlb.entries
      ensures Valid() && after.Valid()
      ensures Left(r, after, ScSpec(old(State()), bus, h, addr))
    {
      var s := State();
      if s.reserved == Some(addr) {
        var done;
        done, after := WriteMemory(addr, W32, Rs2Value(s), bus, h);
        if done.Ok? {
          WriteRd(0);
          reserved := None;
          r := Ok(false);
        } else {
          r := done.PropagateFailure();
        }
      } else {
        WriteRd(1);
        reserved := None;
        r, after := Ok(false), bus;
      }
    }

    /** AMOSWAP, AMOADD and the other read-modify-write AMOs. */
    method ReadModifyWrite(addr: bv32, bus: BusState, h: Hooks) returns (r: Outcome<bool>, after: BusState)
      requires Valid() && bus.Valid()
      modifies this, regs.regs, tlb.entries
      ensures Valid() && after.Valid()
      ensures Left(r, after, RmwSpec(old(State()), bus, h, addr))
    {
      var s := State();
      var v;
      v, after := ReadMemory(addr, W32, bus, h);
      if !v.Ok? {
        r := v.PropagateFailure();
      } else {
        var value := AmoValue(s.inst, v.value, Rs2Value(s));
        if !value.Ok? {
          r := value.PropagateFailure();
        } else {
          WriteRd(v.value);
          var done;
          done, after := WriteMemory(addr, W32, value.value, after, h);
          r := if done.Ok? then Ok(false) else done.PropagateFailure();
        }
      }
    }

    /** `check_misaligned_addr` and the jump. */
    method Jump(next: bv32, link: bool, bus: BusState) returns (r: Outcome<bool>)
      requires Valid()
      modifies this, regs.regs
      ensures Valid()
      ensures Left(r, bus, JumpSpec(old(State()), bus, next, link))
    {
      if !Aligned4(next) {
        fault := Some(next);
        r := Fail(InstructionAddressMisaligned);
      } else {
        var s := State();
        pc := next;
        if link {
          WriteRd(LinkValue(s));
        }
        r := Ok(true);
      }
    }

    /** BEQ, BNE, BLT, BGE, BLTU, BGEU. */
    method Branch(bus: BusState) returns (r: Outcome<bool>)
      requires Valid()
      modifies this, regs.regs
      ensures Valid()
      ensures Left(r, bus, BranchSpec(old(State()), bus))
    {
      var s := State();
      var taken := BranchTaken(Funct3(s.inst), Rs1Value(s), Rs2Value(s));
      if !taken.Ok? {
        r := taken.PropagateFailure();
      } else if !taken.value {
        r := Ok(false);
      } else {
        r := Jump(BranchTarget(s), false, bus);
      }
    }

    /** JALR. */
    method Jalr(bus: BusState) returns (r: Outcome<bool>)
      requires Valid()
      modifies this, regs.regs
      ensures Valid()
      ensures Left(r, bus, JalrSpec(old(State()), bus))
    {
      var s := State();
      if Funct3(s.inst) != 0 {
        r := Unimplemented();
      } else {
        r := Jump(JalrTarget(s), true, bus);
      }
    }

    /** The SYSTEM opcode by funct3. */
    method System(bus: BusState, h: Hooks) returns (r: Outcome<bool>)
      requires Valid()
      modifies this, regs.regs, tlb.entries
      ensures Valid()
      ensures Left(r, bus, SystemSpec(old(State()), bus, h))
    {
      var f := Funct3(inst);
      if f == 1 || f == 5 {
        r := SwapCsr(bus);
      } else if f == 2 || f == 3 || f == 6 || f == 7 {
        r := ModifyCsr(Rs1(inst) == 0, bus);
      } else {
        r := Privileged(bus, h);
      }
    }

    /** Write `n` to the instruction's CSR, then give rd the value read before. */
    method WriteCsr(prior: bv32, n: bv32, bus: BusState) returns (r: Outcome<bool>)
      requires Valid()
      modifies this, regs.regs
      ensures Valid()
      ensures Left(r, bus, CsrWriteBack(old(State()), bus, prior, n))
    {
      var c := CsrFile.Write(csr, CsrNumber(inst), n, prv);
      if c.Ok? {
        csr := c.value;
        WriteRd(prior);
        r := Ok(false);
      } else {
        r := c.PropagateFailure();
      }
    }

    /** CSRRW and CSRRWI. */
    method SwapCsr(bus: BusState) returns (r: Outcome<bool>)
      requires Valid()
      modifies this, regs.regs
      ensures Valid()
      ensures Left(r, bus, CsrSwapSpec(old(State()), bus))
    {
      var prior := if Rd(inst) != 0 then CsrFile.Read(csr, CsrNumber(inst), prv) else Ok(0);
      if prior.Ok? {
        r := WriteCsr(prior.value, CsrOperand(State()), bus);
      } else {
        r := prior.PropagateFailure();
      }
    }

    /** CSRRS, CSRRC, CSRRSI and CSRRCI, the write skipped when `skip`. */
    method ModifyCsr(skip: bool, bus: BusState) returns (r: Outcome<bool>)
      requires Valid()
      modifies this, regs.regs
      ensures Valid()
      ensures Left(r, bus, CsrModify(old(State()), bus, skip))
    {
      var prior := CsrFile.Read(csr, CsrNumber(inst), prv);
      if !prior.Ok? {
        r := prior.PropagateFailure();
      } else if skip {
        WriteRd(prior.value);
        r := Ok(false);
      } else {
        var s := State();
        r := WriteCsr(prior.value, Modified(Funct3(s.inst), prior.value, CsrOperand(s)), bus);
      }
    }

    /** SFENCE.VMA, ECALL, EBREAK, WFI, SRET and MRET. */
    method Privileged(bus: BusState, h: Hooks) returns (r: Outcome<bool>)
      requires Valid()
      modifies this, tlb.entries
      ensures Valid()
      ensures Left(r, bus, PrivilegedSpec(old(State()), bus, h))
    {
      if Funct7(inst) == 0x09 {
        if IsTvm(csr) && prv == Supervisor {
          r := Illegal();
        } else {
          tlb.Clear();
          r := Ok(false);
        }
      } else if inst == INST_ECALL {
        r := Fail(EcallCause(prv));
      } else if inst == INST_EBREAK {
        r := Fail(BreakPoint);
      } else if inst == INST_WFI {
        r := if IsTw(csr) || IsTvm(csr) then Illegal() else Ok(false);
      } else if inst == INST_SRET {
        if prv == User || IsTsr(csr) {
          r := Illegal();
        } else {
          r := ReturnFrom(h.sret(csr), true, bus);
        }
      } else if inst == INST_MRET {
        if prv != Machine {
          r := Illegal();
        } else {
          r := ReturnFrom(HandleMret(csr), false, bus);
        }
      } else {
        r := Unimplemented();
      }
    }

    /** Leave a trap handler with the CSRs `popped` gives back. */
    method ReturnFrom(popped: Outcome<(bv32, Csr)>, sepc: bool, bus: BusState) returns (r: Outcome<bool>)
      requires Valid()
      modifies this
      ensures Valid()
      ensures Left(r, bus, Return(old(State()), bus, popped, sepc))
    {
      match popped {
        case Ok(v) =>
          csr := v.1;
          var p := PrivFrom(v.0);
          if p.Ok? {
            prv := p.value;
            pc := if sepc then v.1.sepc else v.1.mepc;
            r := Ok(true);
          } else {
            r := Panic;
          }
        case Fail(e) =>
          r := Fail(e);
        case Panic =>
          r := Panic;
      }
    }

    /** `handle_trap`. */
    method HandleTrap(e: Trap, bus: BusState, h: Hooks) returns (r: Outcome<()>, after: BusState)
      requires Valid()
      modifies this
      ensures Valid() && (bus.Valid() ==> after.Valid())
      ensures Left(r, after, HandleTrapSpec(old(State()), bus, h, e))
    {
      var s := State();
      after := bus;
      if e == UnimplementedCSR || e == UnimplementedInstruction {
        r := Panic;
      } else if RecordsAddress(e) {
        if fault.None? {
          r := Panic;
        } else {
          var a := fault.value;
          fault := None;
          EnterHandler(e, a, h);
          r := Ok(());
        }
      } else if e == IlligalInstruction {
        EnterHandler(e, s.inst, h);
        r := Ok(());
      } else {
        if e == SupervisorExternalInterrupt {
          after := h.prepare(bus);
        }
        EnterHandler(e, 0, h);
        r := Ok(());
      }
    }

    /** `Csr::handle_trap`'s pc and privilege taken over by the hart. */
    method EnterHandler(e: Trap, tval: bv32, h: Hooks)
      requires Valid()
      modifies this
      ensures Valid() && State() == Enter(old(State()), h, e, tval)
    {
      var next := h.enter(csr, prv, e, pc, tval);
      pc, prv, csr := next.0, next.1, next.2;
    }

    /** `progress_pc`: on to the next word, wrapping. */
    method ProgressPc()
      requires Valid()
      modifies this
      ensures Valid() && State() == old(State()).(pc := old(pc) + 4)
    {
      pc := pc + 4;
    }
  }

  /** The walk's loop over the levels, from the root table down: the leaf
      found (`last = Some(i)`), None where `fault!()` is raised, or the
      PTE read's own failure, with the bus as the PTE reads left it. Each
      pass reads and examines one PTE (`Sv32.LevelAt`). */
  method WalkTable(c: Csr, svadu: bool, va: bv32, a: AccessType, p: Priv, bus: BusState)
    returns (last: Outcome<Option<(nat, bv32)>>, after: BusState)
    requires bus.Valid()
    ensures after.Valid()
    ensures Walked(last, after, Sv32.WalkFrom(bus, c, va, a, p, svadu, Sv32.RootTable(c), Sv32.LEVELS))
  {
    ghost var walk := Sv32.WalkFrom(bus, c, va, a, p, svadu, Sv32.RootTable(c), Sv32.LEVELS);
    var table := Sv32.RootTable(c);
    var levels: nat := Sv32.LEVELS;  // the source's `i` is `levels - 1`
    var done := false;
    after, last := bus, Ok(None);
    while levels > 0 && !done
      invariant after.Valid()
      invariant !done ==> last == Ok(None) && Sv32.WalkFrom(after, c, va, a, p, svadu, table, levels) == walk
      invariant done ==> Walked(last, after, walk)
      decreases levels
    {
      done, last, table, after := WalkPass(c, svadu, va, a, p, table, levels, after);
      levels := levels - 1;
    }
  }

  /** One pass of the walk's loop: read and examine the PTE at `levels - 1`
      (`Sv32.LevelAt`), then stop with the report or go on to the next table. */
  method WalkPass(c: Csr, svadu: bool, va: bv32, a: AccessType, p: Priv, table: bv32, levels: nat, bus: BusState)
    returns (done: bool, last: Outcome<Option<(nat, bv32)>>, next: bv32, after: BusState)
    requires bus.Valid() && levels > 0
    ensures after.Valid()
    ensures !done ==> last == Ok(None)
    ensures !done ==>
      Sv32.WalkFrom(after, c, va, a, p, svadu, next, levels - 1) == Sv32.WalkFrom(bus, c, va, a, p, svadu, table, levels)
    ensures done ==> Walked(last, after, Sv32.WalkFrom(bus, c, va, a, p, svadu, table, levels))
  {
    var pass := Sv32.LevelAt(bus, c, va, a, p, svadu, table, levels - 1);
    if pass.Stop? {
      done := true;
      var report := Report(pass.w, bus);
      last, next, after := report.0, table, report.1;
    } else {
      done, last, next, after := false, Ok(None), pass.table, pass.bus;
    }
  }

  /** `last` reports the walk `w`, and `after` is the bus `w` left. */
  ghost predicate Walked(last: Outcome<Option<(nat, bv32)>>, after: BusState, w: Sv32.Walk)
  {
    match w
    case Found(level, pte, b) => last == Ok(Some((level, pte))) && after == b
    case Rejected(b) => last == Ok(None) && after == b
    case BusFault(e, b) => last == Fail(e) && after == b
    case Halted => last == Panic
  }

  /** How the loop leaves a walk that ended as `w`, the bus being `b` when
      it ended in a panic: its `last` and the bus. */
  function Report(w: Sv32.Walk, b: BusState): (r: (Outcome<Option<(nat, bv32)>>, BusState))
    ensures Walked(r.0, r.1, w)
  {
    match w
    case Found(level, pte, b') => (Ok(Some((level, pte))), b')
    case Rejected(b') => (Ok(None), b')
    case BusFault(e, b') => (Fail(e), b')
    case Halted => (Panic, b)
  }
}
