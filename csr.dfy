/**
 * The control and status registers of the hart (src/csr.rs): which CSR numbers
 * exist, who may read or write them, the masks applied on write, the counter
 * enable rules for `cycle`, and the CSR half of `mret`.
 *
 * A few accessors that src/csr.rs uses but does not define (the satp and mstatus
 * field tests, the mip bit setters, the timer-compare setters, the counters that
 * advance each step and `sepc`) are supplied here with the bit
 * positions of the RISC-V privileged architecture.
 */
module CsrFile {
  import opened Arch

  // CSR numbers.
  const MHARTID: bv32 := 0xf14
  const MSTATUS: bv32 := 0x300
  const MISA: bv32 := 0x301
  const MIE: bv32 := 0x304
  const MTVEC: bv32 := 0x305
  const MCOUNTEREN: bv32 := 0x306
  const MSCRATCH: bv32 := 0x340
  const MEPC: bv32 := 0x341
  const MCAUSE: bv32 := 0x342
  const MTVAL: bv32 := 0x343
  const MIP: bv32 := 0x344
  const SATP: bv32 := 0x180
  const SCOUNTEREN: bv32 := 0x106
  const CYCLE: bv32 := 0xC00
  const TIME: bv32 := 0xC01

  /** misa: MXL = 1 (32-bit, bit 30) with the A, I, M, S and U extensions (bits 0, 8, 12, 18, 20). */
  const MISA_SUPPORTED_VALUE: bv32 := 0x4014_1101

  /** The interrupt-enable bits mie keeps: SSIP, MSIP, STIP, MTIP, SEIP, MEIP. */
  const MIE_SUPPORTED: bv32 := 0xAAA

  // mstatus fields.
  const MSTATUS_SIE: bv32 := 0x2
  const MSTATUS_MIE_POS: bv32 := 3
  const MSTATUS_MIE: bv32 := 0x8
  const MSTATUS_SPIE: bv32 := 0x20
  const MSTATUS_MPIE_POS: bv32 := 7
  const MSTATUS_MPIE: bv32 := 0x80
  const MSTATUS_SPP: bv32 := 0x100
  const MSTATUS_MPP_POS: bv32 := 11
  const MSTATUS_MPP: bv32 := 0x1800
  const MSTATUS_MPRV: bv32 := 0x2_0000
  const MSTATUS_SUM: bv32 := 0x4_0000
  const MSTATUS_MXR: bv32 := 0x8_0000
  const MSTATUS_TVM: bv32 := 0x10_0000
  const MSTATUS_TW: bv32 := 0x20_0000
  const MSTATUS_TSR: bv32 := 0x40_0000

  /** The mstatus bits software may set; any other bit makes the write unimplemented. */
  const MSTATUS_SUPPORTED: bv32 := 0x19AA // SIE | MIE | SPIE | MPIE | SPP | MPP

  const COUNTEREN_CY: bv32 := 1
  const COUNTEREN_TM: bv32 := 0x2
  const MCOUNTEREN_SUPPORTED: bv32 := 0x3 // CY | TM

  /** Where each register sits in the register file. */
  const R_MSTATUS: nat := 0
  const R_MIE: nat := 1
  const R_MIP: nat := 2
  const R_SATP: nat := 3
  const R_MTVEC: nat := 4
  const R_MEPC: nat := 5
  const R_MCAUSE: nat := 6
  const R_MTVAL: nat := 7
  const R_MCYCLE: nat := 8
  const R_INSTRET: nat := 9
  const R_MCOUNTEREN: nat := 10
  const R_SCOUNTEREN: nat := 11
  const R_TIMERL: nat := 12
  const R_TIMERH: nat := 13
  const R_TIMERMATCHL: nat := 14
  const R_TIMERMATCHH: nat := 15
  const R_MSCRATCH: nat := 16
  const R_SEPC: nat := 17

  /** Eighteen 32-bit registers, indexed by the `R_` constants above. */
  type Words = w: seq<bv32> | |w| == 18 witness [0, 0, 0, 0, 0, 0, 0, 0, 0, 0, 0, 0, 0, 0, 0, 0, 0, 0]

  /** The register file as a value; each register is reachable under its own
      name. Two registers are not in src/csr.rs: `sepc` is read by `sret`,
      and `instret` is the retired-instruction counter the simulator
      advances. */
  datatype Csr = Csr(words: Words)
  {
    const mstatus: bv32 := words[R_MSTATUS]
    const mie: bv32 := words[R_MIE]
    const mip: bv32 := words[R_MIP]
    const satp: bv32 := words[R_SATP]
    const mtvec: bv32 := words[R_MTVEC]
    const mepc: bv32 := words[R_MEPC]
    const mcause: bv32 := words[R_MCAUSE]
    const mtval: bv32 := words[R_MTVAL]
    const mcycle: bv32 := words[R_MCYCLE]
    const instret: bv32 := words[R_INSTRET]
    const mcounteren: bv32 := words[R_MCOUNTEREN]
    const scounteren: bv32 := words[R_SCOUNTEREN]
    const timerl: bv32 := words[R_TIMERL]
    const timerh: bv32 := words[R_TIMERH]
    const timermatchl: bv32 := words[R_TIMERMATCHL]
    const timermatchh: bv32 := words[R_TIMERMATCHH]
    const mscratch: bv32 := words[R_MSCRATCH]
    const sepc: bv32 := words[R_SEPC]
  }

  /** `Csr::default()`: every register zero. */
  const Default: Csr := Csr([0, 0, 0, 0, 0, 0, 0, 0, 0, 0, 0, 0, 0, 0, 0, 0, 0, 0])

  /** The CSR numbers `Csr::read` answers. */
  predicate Readable(csr: bv32)
  {
    csr in {MHARTID, MISA, MSTATUS, MCAUSE, MTVEC, MIE, MEPC, MSCRATCH, MCOUNTEREN, SATP, SCOUNTEREN, CYCLE}
  }

  /** `check_csr_access`: bits 11:10 of the number give read-only (0b11) and bits
      9:8 the lowest privilege allowed; 0b10 there is a hypervisor CSR. */
  function CheckCsrAccess(csr: bv32, prv: Priv, isWrite: bool): Outcome<()>
  {
    var access := (csr >> 10) & 0x3;
    var reqPrv := (csr >> 8) & 0x3;
    if isWrite && access == 0x3 then Illegal()
    else if reqPrv == 0x2 then Illegal()
    else if reqPrv > Level(prv) then Illegal()
    else Ok(())
  }

  /** A CSR open to one privilege level is open to every higher one, and
      machine mode reaches every non-hypervisor CSR it does not write read-only. */
  lemma CheckCsrAccessMonotone(csr: bv32, isWrite: bool)
    ensures CheckCsrAccess(csr, User, isWrite).Ok? ==> CheckCsrAccess(csr, Supervisor, isWrite).Ok?
    ensures CheckCsrAccess(csr, Supervisor, isWrite).Ok? ==> CheckCsrAccess(csr, Machine, isWrite).Ok?
    ensures CheckCsrAccess(csr, Machine, isWrite).Ok? <==>
      ((csr >> 8) & 0x3 != 0x2 && !(isWrite && (csr >> 10) & 0x3 == 0x3))
    ensures !CheckCsrAccess(csr, Machine, isWrite).Ok? ==> CheckCsrAccess(csr, Machine, isWrite) == Illegal()
  {
  }

  /** `chceck_cycle_access`: supervisor needs mcounteren.CY, user needs both
      mcounteren.CY and scounteren.CY. */
  function CheckCycleAccess(s: Csr, prv: Priv): Outcome<()>
  {
    match prv
    case Machine => Ok(())
    case Supervisor => if s.mcounteren & COUNTEREN_CY != 0 then Ok(()) else Illegal()
    case User =>
      if s.mcounteren & COUNTEREN_CY != 0 && s.scounteren & COUNTEREN_CY != 0 then Ok(()) else Illegal()
  }

  lemma CycleAccessMonotone(s: Csr)
    ensures CheckCycleAccess(s, User).Ok? ==> CheckCycleAccess(s, Supervisor).Ok?
    ensures CheckCycleAccess(s, Supervisor).Ok? ==> CheckCycleAccess(s, Machine).Ok?
    ensures CheckCycleAccess(s, Machine).Ok?
    ensures s.mcounteren & COUNTEREN_CY == 0 ==> CheckCycleAccess(s, Supervisor) == Illegal()
  {
  }

  /** `Csr::read`. mip, mtval and time are not readable and end as unimplemented. */
  function Read(s: Csr, csr: bv32, prv: Priv): Outcome<bv32>
  {
    var _ :- CheckCsrAccess(csr, prv, false);
    ReadChecked(s, csr, prv)
  }

  /** `Csr::read` once the access check has passed. */
  function ReadChecked(s: Csr, csr: bv32, prv: Priv): Outcome<bv32>
  {
    if csr == MHARTID then Ok(0)
    else if csr == MISA then Ok(MISA_SUPPORTED_VALUE)
    else if csr == MSTATUS then Ok(s.mstatus)
    else if csr == MCAUSE then Ok(s.mcause)
    else if csr == MTVEC then Ok(s.mtvec)
    else if csr == MIE then Ok(s.mie)
    else if csr == MEPC then Ok(s.mepc)
    else if csr == MSCRATCH then Ok(s.mscratch)
    else if csr == MCOUNTEREN then Ok(s.mcounteren)
    else if csr == SATP then Ok(s.satp)
    else if csr == SCOUNTEREN then Ok(s.scounteren)
    else if csr == CYCLE then
      var _ :- CheckCycleAccess(s, prv);
      Ok(s.mcycle)
    else if csr == 0x3b0 || csr == 0x302 || csr == 0x7a5 || csr == 0x744 then Illegal()
    else Fail(UnimplementedCSR)
  }

  /** Once the access check passes, mhartid reads 0 and misa reads MXL = 1
      with A, I, M, S and U; the four numbers the hart probes are illegal and
      every other number the read does not know is unimplemented. */
  lemma ReadFixed(s: Csr, csr: bv32, prv: Priv)
    ensures prv == Machine ==> Read(s, MHARTID, prv) == Ok(0)
    ensures prv == Machine ==> Read(s, MISA, prv) == Ok(MISA_SUPPORTED_VALUE)
    ensures MISA_SUPPORTED_VALUE == (1 << 30) | (1 << 0) | (1 << 8) | (1 << 12) | (1 << 18) | (1 << 20)
    ensures CheckCsrAccess(csr, prv, false).Ok? && csr in {0x3b0, 0x302, 0x7a5, 0x744} ==>
      Read(s, csr, prv) == Illegal()
    ensures CheckCsrAccess(csr, prv, false).Ok? && !Readable(csr) && csr !in {0x3b0, 0x302, 0x7a5, 0x744} ==>
      Read(s, csr, prv) == Fail(UnimplementedCSR)
  {
  }

  /** `Csr::write` as a function of the old registers. A failed write changes
      nothing; a nonzero satp (only Bare translation is supported) panics. */
  function Write(s: Csr, csr: bv32, value: bv32, prv: Priv): Outcome<Csr>
  {
    var _ :- CheckCsrAccess(csr, prv, true);
    if csr == MSTATUS then
      if value & !MSTATUS_SUPPORTED != 0 then Fail(UnimplementedCSR)
      else Ok(s.(words := s.words[R_MSTATUS := value & MSTATUS_SUPPORTED]))
    else if csr == MTVEC then Ok(s.(words := s.words[R_MTVEC := 0xffff_fffd & value]))
    else if csr == MIE then Ok(s.(words := s.words[R_MIE := value & MIE_SUPPORTED]))
    else if csr == MEPC then Ok(s.(words := s.words[R_MEPC := value & !0x3]))
    else if csr == MSCRATCH then Ok(s.(words := s.words[R_MSCRATCH := value]))
    else if csr == MCOUNTEREN then
      if value & !MCOUNTEREN_SUPPORTED != 0 then Fail(UnimplementedCSR)
      else Ok(s.(words := s.words[R_MCOUNTEREN := value & MCOUNTEREN_SUPPORTED]))
    else if csr == SATP then
      if value != 0 then Panic else Ok(s.(words := s.words[R_SATP := value]))
    else if csr == SCOUNTEREN then
      if value & !MCOUNTEREN_SUPPORTED != 0 then Fail(UnimplementedCSR)
      else Ok(s.(words := s.words[R_SCOUNTEREN := value & MCOUNTEREN_SUPPORTED]))
    else if csr == 0x3b0 || csr == 0x302 || csr == 0x7a5 || csr == 0x744 then Illegal()
    else Fail(UnimplementedCSR)
  }

  /** The register-file invariant the write masks keep: mstatus, mie and the
      counter enables hold only supported bits, mepc is word aligned, mtvec has
      bit 1 clear and satp stays Bare. */
  predicate Wf(s: Csr)
  {
    && s.mstatus & !MSTATUS_SUPPORTED == 0
    && s.mie & !MIE_SUPPORTED == 0
    && s.mepc & 0x3 == 0
    && s.mtvec & 0x2 == 0
    && s.mcounteren & !MCOUNTEREN_SUPPORTED == 0
    && s.scounteren & !MCOUNTEREN_SUPPORTED == 0
    && s.satp == 0
  }

  lemma DefaultWf()
    ensures Wf(Default)
  {
  }

  /** What a successful write stores: the value through the register's mask. */
  function Stored(csr: bv32, value: bv32): bv32
  {
    if csr == MSTATUS then value & MSTATUS_SUPPORTED
    else if csr == MTVEC then 0xffff_fffd & value
    else if csr == MIE then value & MIE_SUPPORTED
    else if csr == MEPC then value & !0x3
    else if csr == MCOUNTEREN || csr == SCOUNTEREN then value & MCOUNTEREN_SUPPORTED
    else value
  }

  /** The register file after a successful write: the named register holds the
      stored value and nothing else changes. */
  function Written(s: Csr, csr: bv32, value: bv32): Csr
  {
    var v := Stored(csr, value);
    if csr == MSTATUS then s.(words := s.words[R_MSTATUS := v])
    else if csr == MTVEC then s.(words := s.words[R_MTVEC := v])
    else if csr == MIE then s.(words := s.words[R_MIE := v])
    else if csr == MEPC then s.(words := s.words[R_MEPC := v])
    else if csr == MSCRATCH then s.(words := s.words[R_MSCRATCH := v])
    else if csr == MCOUNTEREN then s.(words := s.words[R_MCOUNTEREN := v])
    else if csr == SATP then s.(words := s.words[R_SATP := v])
    else if csr == SCOUNTEREN then s.(words := s.words[R_SCOUNTEREN := v])
    else s
  }

  /** A write succeeds exactly for a writable, permitted, implemented CSR whose
      value passes that register's check, and then stores the masked value in
      that register alone. */
  lemma WriteSucceeds(s: Csr, csr: bv32, value: bv32, prv: Priv)
    ensures Write(s, csr, value, prv).Ok? <==>
      && CheckCsrAccess(csr, prv, true).Ok?
      && csr in {MSTATUS, MTVEC, MIE, MEPC, MSCRATCH, MCOUNTEREN, SATP, SCOUNTEREN}
      && (csr == MSTATUS ==> value & !MSTATUS_SUPPORTED == 0)
      && (csr == MCOUNTEREN || csr == SCOUNTEREN ==> value & !MCOUNTEREN_SUPPORTED == 0)
      && (csr == SATP ==> value == 0)
    ensures Write(s, csr, value, prv).Ok? ==> Write(s, csr, value, prv).value == Written(s, csr, value)
  {
    if CheckCsrAccess(csr, prv, true).Ok? {
      if csr == MSTATUS {
      } else if csr == MTVEC {
      } else if csr == MIE {
      } else if csr == MEPC {
      } else if csr == MSCRATCH {
      } else if csr == MCOUNTEREN {
      } else if csr == SATP {
      } else if csr == SCOUNTEREN {
      } else {
        assert !Write(s, csr, value, prv).Ok?;
      }
    }
  }

  /** Every successful write keeps the invariant. */
  lemma WritePreservesWf(s: Csr, csr: bv32, value: bv32, prv: Priv)
    requires Wf(s)
    requires Write(s, csr, value, prv).Ok?
    ensures Wf(Write(s, csr, value, prv).value)
  {
    WriteSucceeds(s, csr, value, prv);
    WrittenWf(s, csr, value);
  }

  lemma WrittenWf(s: Csr, csr: bv32, value: bv32)
    requires Wf(s)
    requires csr == MSTATUS ==> value & !MSTATUS_SUPPORTED == 0
    requires csr == MCOUNTEREN || csr == SCOUNTEREN ==> value & !MCOUNTEREN_SUPPORTED == 0
    requires csr == SATP ==> value == 0
    ensures Wf(Written(s, csr, value))
  {
    var r := Written(s, csr, value);
    if csr == MSTATUS {
      MaskKeepsOnly(value, MSTATUS_SUPPORTED);
      assert r == s.(words := s.words[R_MSTATUS := value & MSTATUS_SUPPORTED]);
    } else if csr == MTVEC {
      assert r == s.(words := s.words[R_MTVEC := 0xffff_fffd & value]);
      assert (0xffff_fffd & value) & 0x2 == 0;
    } else if csr == MIE {
      MaskKeepsOnly(value, MIE_SUPPORTED);
      assert r == s.(words := s.words[R_MIE := value & MIE_SUPPORTED]);
    } else if csr == MEPC {
      assert r == s.(words := s.words[R_MEPC := value & !0x3]);
      assert (value & !0x3) & 0x3 == 0;
    } else if csr == MSCRATCH {
      assert r == s.(words := s.words[R_MSCRATCH := value]);
    } else if csr == MCOUNTEREN {
      MaskKeepsOnly(value, MCOUNTEREN_SUPPORTED);
      assert r == s.(words := s.words[R_MCOUNTEREN := value & MCOUNTEREN_SUPPORTED]);
    } else if csr == SATP {
      assert r == s.(words := s.words[R_SATP := value]);
    } else if csr == SCOUNTEREN {
      MaskKeepsOnly(value, MCOUNTEREN_SUPPORTED);
      assert r == s.(words := s.words[R_SCOUNTEREN := value & MCOUNTEREN_SUPPORTED]);
    } else {
      assert r == s;
    }
  }

  lemma MaskKeepsOnly(v: bv32, m: bv32)
    ensures (v & m) & !m == 0
  {
  }

  /** Reading back a register just written yields the stored value. */
  lemma ReadAfterWrite(s: Csr, csr: bv32, value: bv32, prv: Priv)
    requires Write(s, csr, value, prv).Ok?
    ensures Read(Write(s, csr, value, prv).value, csr, prv) == Ok(Stored(csr, value))
  {
    WriteSucceeds(s, csr, value, prv);
    assert CheckCsrAccess(csr, prv, false) == Ok(());
    ReadWritten(s, csr, value, prv);
  }

  lemma ReadWritten(s: Csr, csr: bv32, value: bv32, prv: Priv)
    requires csr in {MSTATUS, MTVEC, MIE, MEPC, MSCRATCH, MCOUNTEREN, SATP, SCOUNTEREN}
    ensures ReadChecked(Written(s, csr, value), csr, prv) == Ok(Stored(csr, value))
  {
    var r := Written(s, csr, value);
    if csr == MSTATUS {
      assert r.mstatus == Stored(csr, value);
    } else if csr == MTVEC {
      assert r.mtvec == Stored(csr, value);
    } else if csr == MIE {
      assert r.mie == Stored(csr, value);
    } else if csr == MEPC {
      assert r.mepc == Stored(csr, value);
    } else if csr == MSCRATCH {
      assert r.mscratch == Stored(csr, value);
    } else if csr == MCOUNTEREN {
      assert r.mcounteren == Stored(csr, value);
    } else if csr == SATP {
      assert r.satp == Stored(csr, value);
    } else {
      assert r.scounteren == Stored(csr, value);
    }
  }

  /** With the invariant in force, paging is off and the mstatus controls that
      the hart consults (MPRV, SUM, TVM, TW, TSR) are clear. */
  lemma WfControlsClear(s: Csr)
    requires Wf(s)
    ensures !IsPagingEnabled(s)
    ensures !IsMprv(s) && !IsSum(s) && !IsTvm(s) && !IsTw(s) && !IsTsr(s)
  {
  }

  /** `handle_mret`, CSR half: refuse when TSR is set, otherwise return the old
      MPP and pop the stack (MIE := MPIE, MPIE := 1, MPP := User). */
  function HandleMret(s: Csr): Outcome<(bv32, Csr)>
  {
    if s.mstatus & MSTATUS_TSR != 0 then Illegal()
    else
      var mpp := (s.mstatus & MSTATUS_MPP) >> MSTATUS_MPP_POS;
      var mpie := (s.mstatus & MSTATUS_MPIE) >> MSTATUS_MPIE_POS;
      Ok((mpp, s.(words := s.words[R_MSTATUS := (s.mstatus & !(MSTATUS_MIE | MSTATUS_MPIE | MSTATUS_MPP))
                             | (mpie << MSTATUS_MIE_POS)
                             | (1 << MSTATUS_MPIE_POS)
                             | (Level(User) << MSTATUS_MPP_POS)])))
  }

  /** mret returns the previous privilege, copies MPIE into MIE, sets MPIE,
      resets MPP to user, and leaves every other mstatus bit and register as it was. */
  lemma HandleMretEffect(s: Csr)
    requires s.mstatus & MSTATUS_TSR == 0
    ensures HandleMret(s).Ok?
    ensures HandleMret(s).value.0 == MstatusMpp(s) && HandleMret(s).value.0 <= 3
    ensures MstatusMpp(HandleMret(s).value.1) == 0
    ensures (HandleMret(s).value.1.mstatus & MSTATUS_MIE != 0) == (s.mstatus & MSTATUS_MPIE != 0)
    ensures HandleMret(s).value.1.mstatus & MSTATUS_MPIE != 0
    ensures HandleMret(s).value.1.mstatus & !(MSTATUS_MIE | MSTATUS_MPIE | MSTATUS_MPP)
         == s.mstatus & !(MSTATUS_MIE | MSTATUS_MPIE | MSTATUS_MPP)
    ensures HandleMret(s).value.1 == s.(words := s.words[R_MSTATUS := HandleMret(s).value.1.mstatus])
  {
  }

  // Accessors used by the hart and the devices that src/csr.rs does not define.

  /** satp.MODE (bit 31) selects Sv32. */
  predicate IsPagingEnabled(s: Csr)
  {
    s.satp >> 31 == 1
  }

  /** satp.PPN: the root page table's page number. */
  function SatpPpn(s: Csr): bv32
  {
    s.satp & 0x3f_ffff
  }

  predicate IsMprv(s: Csr) { s.mstatus & MSTATUS_MPRV != 0 }
  predicate IsSum(s: Csr) { s.mstatus & MSTATUS_SUM != 0 }
  predicate IsTvm(s: Csr) { s.mstatus & MSTATUS_TVM != 0 }
  predicate IsTw(s: Csr) { s.mstatus & MSTATUS_TW != 0 }
  predicate IsTsr(s: Csr) { s.mstatus & MSTATUS_TSR != 0 }

  function MstatusMpp(s: Csr): bv32
  {
    (s.mstatus & MSTATUS_MPP) >> MSTATUS_MPP_POS
  }

  /** mip.MSIP (bit 3), the machine software interrupt the CLINT exposes. */
  function MipMsip(s: Csr): bv32
  {
    (s.mip >> 3) & 1
  }

  function WithMipBit(s: Csr, pos: bv32, v: bv32): Csr
    requires pos < 32
  {
    s.(words := s.words[R_MIP := (s.mip & !(1 << pos)) | ((v & 1) << pos)])
  }

  /** Setting an mip bit changes that bit alone. */
  lemma WithMipBitEffect(s: Csr, pos: bv32, v: bv32)
    requires pos < 32
    ensures (WithMipBit(s, pos, v).mip >> pos) & 1 == v & 1
    ensures WithMipBit(s, pos, v).mip & !(1 << pos) == s.mip & !(1 << pos)
    ensures WithMipBit(s, pos, v) == s.(words := s.words[R_MIP := WithMipBit(s, pos, v).mip])
  {
  }

  const MIP_MSIP_POS: bv32 := 3
  const MIP_SEIP_POS: bv32 := 9
  const MIP_MEIP_POS: bv32 := 11

  /** `progress_time`: the 64-bit time counter split over timerh:timerl, advanced by one. */
  function ProgressTime(s: Csr): Csr
  {
    if s.timerl == 0xffff_ffff then s.(words := s.words[R_TIMERL := 0][R_TIMERH := s.timerh + 1])
    else s.(words := s.words[R_TIMERL := s.timerl + 1])
  }

  /** `set_mtimecmp` and `set_mtimecmph`: the CLINT's timer-compare halves. */
  function SetMtimecmp(s: Csr, v: bv32): Csr { s.(words := s.words[R_TIMERMATCHL := v]) }
  function SetMtimecmph(s: Csr, v: bv32): Csr { s.(words := s.words[R_TIMERMATCHH := v]) }

  /** `progress_cycle` and `progress_instret`: one tick each, wrapping at 32 bits. */
  function ProgressCycle(s: Csr): Csr { s.(words := s.words[R_MCYCLE := s.mcycle + 1]) }
  function ProgressInstret(s: Csr): Csr { s.(words := s.words[R_INSTRET := s.instret + 1]) }

  /** The 64-bit time counter held in timerh:timerl. */
  function Time(s: Csr): bv64
  {
    (s.timerh as bv64 << 32) | s.timerl as bv64
  }

  /** `progress_time` advances the 64-bit counter by one, the low half
      carrying into the high half and the whole wrapping at 2^64, and leaves
      the cycle and instret counters alone. */
  lemma ProgressTimeAdvances(s: Csr)
    ensures Time(ProgressTime(s)) == Time(s) + 1
    ensures ProgressTime(s).mcycle == s.mcycle && ProgressTime(s).instret == s.instret
  {
  }

  /** `progress_cycle` and `progress_instret` advance their own counter by
      one, wrapping at 2^32, and leave the other counter and both halves of
      the time counter alone. */
  lemma ProgressTicks(s: Csr)
    ensures ProgressCycle(s).mcycle == s.mcycle + 1 && ProgressCycle(s).instret == s.instret
    ensures ProgressCycle(s).timerh == s.timerh && ProgressCycle(s).timerl == s.timerl
    ensures ProgressInstret(s).instret == s.instret + 1 && ProgressInstret(s).mcycle == s.mcycle
    ensures ProgressInstret(s).timerh == s.timerh && ProgressInstret(s).timerl == s.timerl
  {
  }

  /** Reading the cycle CSR yields the counter `progress_cycle` advances,
      wherever the counter enables let the privilege read it (and is illegal
      elsewhere); the time CSR cannot be read at all. */
  lemma CycleReadsCounter(s: Csr, prv: Priv)
    ensures Read(ProgressCycle(s), CYCLE, prv)
         == if CheckCycleAccess(s, prv).Ok? then Ok(s.mcycle + 1) else Illegal()
    ensures Read(s, TIME, prv) == Fail(UnimplementedCSR)
  {
  }

  /** A CSR number the access check refuses is neither read nor written:
      both end as an illegal instruction and no new registers are produced. */
  lemma AccessDenied(s: Csr, csr: bv32, value: bv32, prv: Priv)
    ensures !CheckCsrAccess(csr, prv, false).Ok? ==> Read(s, csr, prv) == Illegal()
    ensures !CheckCsrAccess(csr, prv, true).Ok? ==> Write(s, csr, value, prv) == Illegal()
  {
  }
}
