/**
 * Sv32 address translation after `Cpu::translate_va` (src/cpu.rs): the
 * effective privilege (MPRV), the TLB shortcut, the two-level page-table
 * walk through the bus, the checks on each PTE and the physical address of a
 * leaf, following section 4.3.2 of the RISC-V privileged architecture.
 *
 * One check departs from the source: the walk uses the U-bit rule of section
 * 4.3.1 (`UserFault`), under which supervisor mode never executes from a user
 * page. The rule as src/cpu.rs writes it is `UserFaultAsWritten`, and
 * `SupervisorFetchFromUserPage` shows a PTE the two treat differently. While
 * a nonzero satp write panics (src/csr.rs), paging is never on and the two
 * cannot be told apart in a run.
 *
 * The functions here are the specification of the walk; the hart's
 * `TranslateVa` method (cpu.dfy) runs the same walk as a loop and is proved
 * equal to `Translate`.
 */
module Sv32 {
  import opened Arch
  import opened CsrFile
  import opened Mmio
  import opened SystemBus
  import Tlb

  // PTE bits (src/cpu.rs:11-17).
  const PTE_V: bv32 := 0x01
  const PTE_R: bv32 := 0x02
  const PTE_W: bv32 := 0x04
  const PTE_X: bv32 := 0x08
  const PTE_U: bv32 := 0x10
  const PTE_A: bv32 := 0x40
  const PTE_D: bv32 := 0x80
  // PTESIZE (4) and PAGESIZE (4096) appear as literals below, so that the
  // products are shifts to the solver.

  /** The fault every failed check raises: the page fault of the access kind. */
  function PageFault(a: AccessType): (t: Trap)
    ensures IntoTrap(a, true) == Ok(t)
  {
    match a
    case Fetch => InstructionPageFault
    case Read => LoadPageFault
    case Write => StoreOrAMOPageFault
  }

  /** The privilege the access is checked with: MPP when MPRV is set and the
      access is a load or a store, the current privilege otherwise. A reserved
      MPP value panics in `Priv::from`. */
  function EffectivePriv(csr: Csr, prv: Priv, a: AccessType): Outcome<Priv>
  {
    if IsMprv(csr) && (a == Read || a == Write) then PrivFrom(MstatusMpp(csr)) else Ok(prv)
  }

  /** The PTE's R, W or X bit equals the access kind's discriminant. */
  predicate Grants(pte: bv32, a: AccessType)
  {
    var kind := AccessBits(a);
    pte & PTE_R == kind || pte & PTE_W == kind || pte & PTE_X == kind
  }

  /** Comparing the three bits with the discriminant is testing the one bit
      the access needs: R for a load, W for a store, X for a fetch. */
  lemma GrantsBit(pte: bv32, a: AccessType)
    ensures Grants(pte, a) <==> pte & AccessBits(a) != 0
  {
  }

  /** The discriminant of each access kind is that kind's permission bit
      of a PTE: R for a load, W for a store, X for a fetch. */
  lemma AccessBitsArePteBits()
    ensures AccessBits(Read) == PTE_R && AccessBits(Write) == PTE_W && AccessBits(Fetch) == PTE_X
  {
  }

  /** R or X set: the PTE is a leaf rather than a link to the next level. */
  predicate IsLeaf(pte: bv32)
  {
    pte & PTE_R != 0 || pte & PTE_X != 0
  }

  /** V clear, or W set without R: a reserved encoding. */
  predicate IsInvalid(pte: bv32)
  {
    pte & PTE_V == 0 || (pte & PTE_R == 0 && pte & PTE_W != 0)
  }

  /** A level-1 leaf (a 4 MiB megapage) whose PPN[0] is not zero. */
  predicate IsMisalignedSuperpage(pte: bv32, level: nat)
  {
    level > 0 && pte & (0x3ff << 10) != 0
  }

  /** A = 0, or a store to a page with D = 0: the PTE would need updating. */
  predicate NeedsUpdate(pte: bv32, a: AccessType)
  {
    pte & PTE_A == 0 || (a == Write && pte & PTE_D == 0)
  }

  /** The U-bit check as src/cpu.rs writes it: a user access to a supervisor
      page, or a supervisor access to a user page that has R or W set while
      SUM is clear. */
  predicate UserFaultAsWritten(pte: bv32, a: AccessType, p: Priv, sum: bool)
  {
    (pte & PTE_U == 0 && p == User)
      || (pte & PTE_U != 0 && p == Supervisor && (pte & PTE_R != 0 || pte & PTE_W != 0) && !sum)
  }

  /** The U-bit check of section 4.3.1 of the privileged architecture:
      supervisor mode may read and write user pages only with SUM set, and
      never executes from them. */
  predicate UserFault(pte: bv32, a: AccessType, p: Priv, sum: bool)
  {
    (pte & PTE_U == 0 && p == User)
      || (pte & PTE_U != 0 && p == Supervisor && (a == Fetch || !sum))
  }

  /** What one PTE tells the walk. */
  datatype Probe = Reject | Todo | Leaf | Next

  /** One iteration of the walk's loop, given the outcome of the U-bit check:
      reject the PTE (`fault!()`), reach `todo!()` (hardware A/D update without
      Svadu), stop at a usable leaf, or descend. A leaf that does not grant the
      access is not rejected here: the loop carries on with its PPN as the
      next table. */
  function Classify(pte: bv32, level: nat, a: AccessType, userFault: bool, svadu: bool): Probe
  {
    if IsInvalid(pte) then Reject
    else if IsLeaf(pte) && Grants(pte, a) then
      if IsMisalignedSuperpage(pte, level) then Reject
      else if userFault then Reject
      else if NeedsUpdate(pte, a) then (if svadu then Reject else Todo)
      else Leaf
    else Next
  }

  /** The PTE checks as written in src/cpu.rs. */
  function ExamineAsWritten(pte: bv32, level: nat, a: AccessType, p: Priv, sum: bool, svadu: bool): Probe
  {
    Classify(pte, level, a, UserFaultAsWritten(pte, a, p, sum), svadu)
  }

  /** The PTE checks with the corrected U-bit rule; the walk uses these. */
  function Examine(pte: bv32, level: nat, a: AccessType, p: Priv, sum: bool, svadu: bool): Probe
  {
    Classify(pte, level, a, UserFault(pte, a, p, sum), svadu)
  }

  /** A PTE is rejected exactly when it is invalid, or it is a leaf granting
      the access that is a misaligned megapage, fails the U-bit check, or
      needs an A/D update while Svadu is on. */
  lemma ExamineRejects(pte: bv32, level: nat, a: AccessType, p: Priv, sum: bool, svadu: bool)
    ensures Examine(pte, level, a, p, sum, svadu) == Reject <==>
      IsInvalid(pte)
      || (IsLeaf(pte) && Grants(pte, a)
          && (IsMisalignedSuperpage(pte, level) || UserFault(pte, a, p, sum) || (svadu && NeedsUpdate(pte, a))))
  {
  }

  /** A PTE is the leaf of the walk exactly when it is valid, grants the
      access, is aligned, passes the U-bit check and needs no A/D update. */
  lemma ExamineLeaf(pte: bv32, level: nat, a: AccessType, p: Priv, sum: bool, svadu: bool)
    ensures Examine(pte, level, a, p, sum, svadu) == Leaf <==>
      !IsInvalid(pte) && IsLeaf(pte) && pte & AccessBits(a) != 0
      && !IsMisalignedSuperpage(pte, level) && !UserFault(pte, a, p, sum) && !NeedsUpdate(pte, a)
  {
    GrantsBit(pte, a);
  }

  /** The source's U-bit check agrees with the corrected one on every load and
      store the PTE grants. */
  lemma UserFaultAgreesOnData(pte: bv32, a: AccessType, p: Priv, sum: bool)
    requires a != Fetch && Grants(pte, a)
    ensures UserFaultAsWritten(pte, a, p, sum) == UserFault(pte, a, p, sum)
  {
  }

  /** An execute-only user page (V, X, U, A, D set) passes the source's check
      for a supervisor fetch with SUM clear, so supervisor mode executes user
      code; the corrected check rejects it. */
  lemma SupervisorFetchFromUserPage()
    ensures ExamineAsWritten(0xd9, 0, Fetch, Supervisor, false, false) == Leaf
    ensures Examine(0xd9, 0, Fetch, Supervisor, false, false) == Reject
  {
  }

  /** Index of the PTE for `va` in the table of `level` (VPN[1] or VPN[0]). */
  function VpnIndex(va: bv32, level: nat): (r: bv32)
    ensures r <= 0x3ff
  {
    ((va >> 12) >> (if level == 1 then 10 else 0)) & 0x3ff
  }

  /** The physical address of the PTE: the table plus the index times the
      PTE size of 4 (wrapping, as u32 arithmetic in a release build; the
      product is written as the equal shift by 2). */
  function PteAddress(table: bv32, va: bv32, level: nat): bv32
  {
    table + (VpnIndex(va, level) << 2)
  }

  /** The table a non-leaf PTE points to: its PPN times the page size of
      4096 (a wrapping product, written as the equal shift by 12). */
  function NextTable(pte: bv32): bv32
  {
    (pte >> 10) << 12
  }

  /** The root table: satp.PPN times the page size. */
  function RootTable(csr: Csr): bv32
  {
    SatpPpn(csr) << 12
  }

  /** The physical page base of a leaf: PPN[1] alone, with VPN[0] of the
      address, for a megapage; the PTE's whole PPN otherwise. */
  function LeafPpn(pte: bv32, level: nat, va: bv32): bv32
  {
    if level == 1 then ((pte << 2) & 0xffc0_0000) | (va & 0x3f_f000)
    else (pte << 2) & 0xffff_f000
  }

  /** A leaf's page base has a zero page offset. */
  lemma LeafOffset(pte: bv32, level: nat, va: bv32)
    ensures LeafPpn(pte, level, va) & 0xfff == 0
  {
  }

  /** A 4 KiB leaf maps the address to PPN * 4096 plus its page offset. */
  lemma LeafPage(pte: bv32, va: bv32)
    ensures PhysicalAddress(LeafPpn(pte, 0, va), va) == ((pte >> 10) << 12) | (va & 0xfff)
  {
  }

  /** A megapage maps the address to PPN[1] * 4 MiB plus the low 22 bits of
      the address. */
  lemma LeafMegapage(pte: bv32, va: bv32)
    ensures PhysicalAddress(LeafPpn(pte, 1, va), va) == ((pte >> 20) << 22) | (va & 0x3f_ffff)
  {
  }

  /** A physical page base joined with the page offset of `va`. */
  function PhysicalAddress(ppn: bv32, va: bv32): bv32
  {
    ppn | (va & 0xfff)
  }

  /** Where the walk ends. */
  datatype Walk =
    | Found(level: nat, pte: bv32, bus: BusState)  // a usable leaf (`last = Some(i)`)
    | Rejected(bus: BusState)                      // `fault!()`, in the loop or after it
    | BusFault(trap: Trap, bus: BusState)          // the PTE read failed (`?`)
    | Halted                                       // a panic

  /** Sv32 has two levels of tables; the walk's loop counts `i` from 1 down
      to 0. */
  const LEVELS: nat := 2

  /** What one pass of the walk's loop decides: the walk ends here as `w`,
      or it goes on at the next-level table `table`, on the bus as the PTE
      read left it. */
  datatype Level =
    | Stop(w: Walk)
    | Descend(table: bv32, bus: BusState)

  /** One pass of the loop at level `level`: read the PTE of `va` in `table`
      as a walk read and examine it. */
  function LevelAt(b: BusState, csr: Csr, va: bv32, a: AccessType, p: Priv, svadu: bool,
                   table: bv32, level: nat): (l: Level)
    requires b.Valid()
    ensures l.Descend? ==> l.bus.Valid()
    ensures l.Stop? && l.w.Found? ==> l.w.level == level && l.w.bus.Valid()
    ensures l.Stop? && l.w.Found? ==> Examine(l.w.pte, level, a, p, IsSum(csr), svadu) == Leaf
    ensures l.Stop? && (l.w.Rejected? || l.w.BusFault?) ==> l.w.bus.Valid()
  {
    match ReadSpec(b, csr, PteAddress(table, va, level), W32, CpuContext(true, Read))
    case Ok(read) =>
      (match Examine(read.0, level, a, p, IsSum(csr), svadu)
       case Reject => Stop(Rejected(read.1))
       case Todo => Stop(Halted)
       case Leaf => Stop(Found(level, read.0, read.1))
       case Next => Descend(NextTable(read.0), read.1))
    case Fail(e) => Stop(BusFault(e, b))
    case Panic => Stop(Halted)
  }

  /** The loop of the walk with `levels` levels still to examine, the next
      one reading the table at `table`. Every PTE read goes through the bus
      as a walk read and may change device state. */
  function WalkFrom(b: BusState, csr: Csr, va: bv32, a: AccessType, p: Priv, svadu: bool,
                    table: bv32, levels: nat): (w: Walk)
    requires b.Valid()
    ensures w.Found? ==> w.level < levels && w.bus.Valid()
    ensures w.Found? ==> Examine(w.pte, w.level, a, p, IsSum(csr), svadu) == Leaf
    ensures w.Rejected? || w.BusFault? ==> w.bus.Valid()
    decreases levels
  {
    if levels == 0 then Rejected(b)
    else
      match LevelAt(b, csr, va, a, p, svadu, table, levels - 1)
      case Stop(w) => w
      case Descend(next, after) => WalkFrom(after, csr, va, a, p, svadu, next, levels - 1)
  }

  /** What a translation produces besides its outcome: the TLB, the recorded
      fault address and the bus. */
  datatype Translation = Translation(out: Outcome<bv32>, tlb: Tlb.Entries, fault: Option<bv32>, bus: BusState)

  /** `translate_va`. */
  function Translate(csr: Csr, prv: Priv, tlb: Tlb.Entries, fault: Option<bv32>, b: BusState,
                     va: bv32, a: AccessType, svadu: bool): (t: Translation)
    requires b.Valid()
    ensures t.bus.Valid()
  {
    if !IsPagingEnabled(csr) then Translation(Ok(va), tlb, fault, b)
    else
      match EffectivePriv(csr, prv, a)
      case Ok(p) =>
        if p == Machine then Translation(Ok(va), tlb, fault, b)
        else
          (match Tlb.Lookup(tlb, va, p)
           case Some(e) => Translation(Ok(PhysicalAddress(e.ppn, va)), tlb, fault, b)
           case None => Conclude(WalkFrom(b, csr, va, a, p, svadu, RootTable(csr), LEVELS), tlb, fault, b, va, a, p))
      case _ => Translation(Panic, tlb, fault, b)
  }

  /** The end of `translate_va` once the walk is over: register the leaf and
      form the physical address, or raise the page fault and record `va`. */
  function Conclude(w: Walk, tlb: Tlb.Entries, fault: Option<bv32>, b: BusState,
                    va: bv32, a: AccessType, p: Priv): Translation
  {
    match w
    case Found(level, pte, b') =>
      var ppn := LeafPpn(pte, level, va);
      Translation(Ok(PhysicalAddress(ppn, va)), Tlb.Register(tlb, Tlb.NewEntry(va, ppn, p)), fault, b')
    case Rejected(b') => Translation(Fail(PageFault(a)), tlb, Some(va), b')
    case BusFault(e, b') => Translation(Fail(e), tlb, fault, b')
    case Halted => Translation(Panic, tlb, fault, b)
  }

  /** With paging off the virtual address is the physical one and nothing
      changes. */
  lemma TranslateBare(csr: Csr, prv: Priv, tlb: Tlb.Entries, fault: Option<bv32>, b: BusState,
                      va: bv32, a: AccessType, svadu: bool)
    requires b.Valid() && !IsPagingEnabled(csr)
    ensures Translate(csr, prv, tlb, fault, b, va, a, svadu) == Translation(Ok(va), tlb, fault, b)
  {
  }

  /** Machine mode as the effective privilege also translates to the identity;
      a load or store with MPRV set is checked with MPP instead of the
      current privilege. */
  lemma TranslateMachine(csr: Csr, prv: Priv, tlb: Tlb.Entries, fault: Option<bv32>, b: BusState,
                         va: bv32, a: AccessType, svadu: bool)
    requires b.Valid() && EffectivePriv(csr, prv, a) == Ok(Machine)
    ensures Translate(csr, prv, tlb, fault, b, va, a, svadu) == Translation(Ok(va), tlb, fault, b)
    ensures IsMprv(csr) && a != Fetch ==> MstatusMpp(csr) == 3
    ensures !(IsMprv(csr) && a != Fetch) ==> prv == Machine
  {
  }

  /** A TLB hit for the effective privilege gives the cached page with the
      address's offset, with no walk and no change. */
  lemma TranslateCached(csr: Csr, prv: Priv, tlb: Tlb.Entries, fault: Option<bv32>, b: BusState,
                        va: bv32, a: AccessType, svadu: bool, p: Priv, e: Tlb.TlbEntry)
    requires b.Valid() && IsPagingEnabled(csr) && EffectivePriv(csr, prv, a) == Ok(p) && p != Machine
    requires Tlb.Lookup(tlb, va, p) == Some(e)
    ensures Translate(csr, prv, tlb, fault, b, va, a, svadu) == Translation(Ok(PhysicalAddress(e.ppn, va)), tlb, fault, b)
  {
  }

  /** A TLB miss for the effective privilege walks the page table from the
      root that satp names. */
  lemma TranslateMiss(csr: Csr, prv: Priv, tlb: Tlb.Entries, fault: Option<bv32>, b: BusState,
                      va: bv32, a: AccessType, svadu: bool, p: Priv)
    requires b.Valid() && IsPagingEnabled(csr) && EffectivePriv(csr, prv, a) == Ok(p) && p != Machine
    requires Tlb.Lookup(tlb, va, p).None?
    ensures Translate(csr, prv, tlb, fault, b, va, a, svadu)
      == Conclude(WalkFrom(b, csr, va, a, p, svadu, RootTable(csr), LEVELS), tlb, fault, b, va, a, p)
  {
  }

  /** A failed check or a walk without a leaf raises the page fault of the
      access kind, records the address in `fault_addr` and caches nothing. */
  lemma TranslateRejects(csr: Csr, prv: Priv, tlb: Tlb.Entries, fault: Option<bv32>, b: BusState,
                         va: bv32, a: AccessType, svadu: bool, p: Priv)
    requires b.Valid() && IsPagingEnabled(csr) && EffectivePriv(csr, prv, a) == Ok(p) && p != Machine
    requires Tlb.Lookup(tlb, va, p).None?
    requires WalkFrom(b, csr, va, a, p, svadu, RootTable(csr), LEVELS).Rejected?
    ensures var t := Translate(csr, prv, tlb, fault, b, va, a, svadu);
      t.out == Fail(PageFault(a)) && t.fault == Some(va) && t.tlb == tlb
      && t.out.trap in {InstructionPageFault, LoadPageFault, StoreOrAMOPageFault}
  {
    TranslateMiss(csr, prv, tlb, fault, b, va, a, svadu, p);
  }

  /** A failed PTE read is returned as it is, without recording a fault
      address. */
  lemma TranslateBusFault(csr: Csr, prv: Priv, tlb: Tlb.Entries, fault: Option<bv32>, b: BusState,
                          va: bv32, a: AccessType, svadu: bool, p: Priv)
    requires b.Valid() && IsPagingEnabled(csr) && EffectivePriv(csr, prv, a) == Ok(p) && p != Machine
    requires Tlb.Lookup(tlb, va, p).None?
    requires WalkFrom(b, csr, va, a, p, svadu, RootTable(csr), LEVELS).BusFault?
    ensures var t := Translate(csr, prv, tlb, fault, b, va, a, svadu);
      t.out == Fail(WalkFrom(b, csr, va, a, p, svadu, RootTable(csr), LEVELS).trap) && t.fault == fault && t.tlb == tlb
  {
    TranslateMiss(csr, prv, tlb, fault, b, va, a, svadu, p);
  }

  /** A walk that reaches a leaf yields the leaf's page with the address's
      offset and registers that page in the TLB under the effective privilege. */
  lemma TranslateWalks(csr: Csr, prv: Priv, tlb: Tlb.Entries, fault: Option<bv32>, b: BusState,
                       va: bv32, a: AccessType, svadu: bool, p: Priv)
    requires b.Valid() && IsPagingEnabled(csr) && EffectivePriv(csr, prv, a) == Ok(p) && p != Machine
    requires Tlb.Lookup(tlb, va, p).None?
    requires WalkFrom(b, csr, va, a, p, svadu, RootTable(csr), LEVELS).Found?
    ensures var w := WalkFrom(b, csr, va, a, p, svadu, RootTable(csr), LEVELS);
      var t := Translate(csr, prv, tlb, fault, b, va, a, svadu);
      t.out == Ok(PhysicalAddress(LeafPpn(w.pte, w.level, va), va))
      && t.tlb == Tlb.Register(tlb, Tlb.NewEntry(va, LeafPpn(w.pte, w.level, va), p))
      && t.fault == fault && t.bus == w.bus
      && Examine(w.pte, w.level, a, p, IsSum(csr), svadu) == Leaf
  {
    TranslateMiss(csr, prv, tlb, fault, b, va, a, svadu, p);
  }

  /** The page a walk registers (`TranslateWalks`) serves every address on
      that page, for any access checked at the same privilege, from the TLB
      alone: the same page base with the new address's offset, without a bus
      access and without changing anything. */
  lemma TranslateThenCached(csr: Csr, prv: Priv, tlb: Tlb.Entries, va: bv32, ppn: bv32, p: Priv,
                            va2: bv32, a2: AccessType, fault: Option<bv32>, b: BusState, svadu: bool)
    requires b.Valid() && IsPagingEnabled(csr) && p != Machine && EffectivePriv(csr, prv, a2) == Ok(p)
    requires va2 >> 12 == va >> 12
    ensures Translate(csr, prv, Tlb.Register(tlb, Tlb.NewEntry(va, ppn, p)), fault, b, va2, a2, svadu)
      == Translation(Ok(PhysicalAddress(ppn, va2)), Tlb.Register(tlb, Tlb.NewEntry(va, ppn, p)), fault, b)
  {
    Tlb.LookupAfterRegister(tlb, va, va2, ppn, p);
    TranslateCached(csr, prv, Tlb.Register(tlb, Tlb.NewEntry(va, ppn, p)), fault, b, va2, a2, svadu, p,
                    Tlb.NewEntry(va, ppn, p));
  }

  /** A translation that missed the TLB and succeeded found a leaf. */
  lemma WalkSucceeded(csr: Csr, prv: Priv, tlb: Tlb.Entries, fault: Option<bv32>, b: BusState,
                      va: bv32, a: AccessType, svadu: bool, p: Priv)
    requires b.Valid() && IsPagingEnabled(csr) && EffectivePriv(csr, prv, a) == Ok(p) && p != Machine
    requires Tlb.Lookup(tlb, va, p).None?
    requires Translate(csr, prv, tlb, fault, b, va, a, svadu).out.Ok?
    ensures WalkFrom(b, csr, va, a, p, svadu, RootTable(csr), LEVELS).Found?
  {
  }
}
