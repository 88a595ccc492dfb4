/**
 * The architectural vocabulary shared by the whole simulator: traps and their
 * cause codes, privilege levels, memory access kinds and interrupt sources
 * (src/lib.rs).
 */
module Arch {

  /**
   * What an operation of the simulator ends in: a value, a trap that the hart
   * delivers to the guest (Rust's `Err(Trap)`), or an abort of the whole
   * process (a Rust panic: `unimplemented!`, `unreachable!`, `todo!`, an
   * out-of-bounds index, `unwrap` of `None`).
   */
  datatype Outcome<+T> = Ok(value: T) | Fail(trap: Trap) | Panic
  {
    predicate IsFailure()
    {
      !Ok?
    }

    function PropagateFailure<U>(): Outcome<U>
      requires !Ok?
    {
      if Fail? then Fail(trap) else Panic
    }

    function Extract(): T
      requires Ok?
    {
      value
    }
  }

  datatype Option<+T> = None | Some(value: T)

  /** The outcome with its value dropped (`.map(|_| ())`). */
  function Discard<T>(o: Outcome<T>): Outcome<()>
  {
    match o
    case Ok(_) => Ok(())
    case Fail(t) => Fail(t)
    case Panic => Panic
  }

  /** The outcome keeping only the first component of a pair. */
  function First<A, B>(o: Outcome<(A, B)>): Outcome<A>
  {
    match o
    case Ok(p) => Ok(p.0)
    case Fail(t) => Fail(t)
    case Panic => Panic
  }

  /** The outcome keeping only the second component of a pair. */
  function Second<A, B>(o: Outcome<(A, B)>): Outcome<B>
  {
    match o
    case Ok(p) => Ok(p.1)
    case Fail(t) => Fail(t)
    case Panic => Panic
  }

  /** The `illegal!` macro: an illegal-instruction trap. */
  function Illegal<T>(): Outcome<T>
  {
    Fail(IlligalInstruction)
  }

  /** Exceptions and interrupts; the constructor names follow the source. */
  datatype Trap =
    | InstructionAddressMisaligned
    | IlligalInstruction
    | BreakPoint
    | LoadAddressMisaligned
    | LoadAccessFault
    | StoreOrAMOAddressMisaligned
    | StoreOrAMOAccessFault
    | EnvCallFromUser
    | EnvCallFromSupervisor
    | EnvCallFromMachine
    | InstructionPageFault
    | LoadPageFault
    | StoreOrAMOPageFault
    | SupervisorSoftwareInterrupt
    | SupervisorTimerInterrupt
    | SupervisorExternalInterrupt
    | UnimplementedInstruction
    | UnimplementedCSR

  /** The enum discriminant (`trap as u32`). The two debugging variants follow
      SupervisorExternalInterrupt without an explicit value, so they are
      numbered 0x8000000A and 0x8000000B. */
  function Code(t: Trap): bv32
  {
    match t
    case InstructionAddressMisaligned => 0
    case IlligalInstruction => 2
    case BreakPoint => 3
    case LoadAddressMisaligned => 4
    case LoadAccessFault => 5
    case StoreOrAMOAddressMisaligned => 6
    case StoreOrAMOAccessFault => 7
    case EnvCallFromUser => 8
    case EnvCallFromSupervisor => 9
    case EnvCallFromMachine => 11
    case InstructionPageFault => 12
    case LoadPageFault => 13
    case StoreOrAMOPageFault => 15
    case SupervisorSoftwareInterrupt => 0x8000_0001
    case SupervisorTimerInterrupt => 0x8000_0005
    case SupervisorExternalInterrupt => 0x8000_0009
    case UnimplementedInstruction => 0x8000_000A
    case UnimplementedCSR => 0x8000_000B
  }

  /** `is_interrupt`: the top bit of the code. */
  predicate IsInterrupt(t: Trap)
  {
    Code(t) >> 31 == 1
  }

  /** `cause`: the code without its top bit. */
  function Cause(t: Trap): bv32
  {
    Code(t) & !(1 << 31)
  }

  /** Distinct traps have distinct codes. */
  lemma CodeInjective(a: Trap, b: Trap)
    ensures Code(a) == Code(b) ==> a == b
  {
  }

  /** Exactly the three supervisor interrupts count as interrupts, and, because of
      their implicit numbering, so do the two debugging variants. */
  lemma InterruptsAre(t: Trap)
    ensures IsInterrupt(t) <==>
      t in {SupervisorSoftwareInterrupt, SupervisorTimerInterrupt, SupervisorExternalInterrupt,
            UnimplementedInstruction, UnimplementedCSR}
  {
  }

  /** The cause of an exception is its code; an interrupt's cause is its
      interrupt number (1, 5 or 9 for the supervisor interrupts). */
  lemma CauseOfTrap(t: Trap)
    ensures !IsInterrupt(t) ==> Cause(t) == Code(t) && Cause(t) < 16
    ensures IsInterrupt(t) ==> Code(t) == Cause(t) | 0x8000_0000
    ensures t == SupervisorSoftwareInterrupt ==> Cause(t) == 1
    ensures t == SupervisorTimerInterrupt ==> Cause(t) == 5
    ensures t == SupervisorExternalInterrupt ==> Cause(t) == 9
  {
  }

  /** Privilege levels. */
  datatype Priv = User | Supervisor | Machine

  /** The encoding of a privilege level (`prv as u32`). */
  function Level(p: Priv): bv32
  {
    match p
    case User => 0
    case Supervisor => 1
    case Machine => 3
  }

  /** `Priv::default()`. */
  const DefaultPriv: Priv := Machine

  /** `Priv::from(u32)`: the reserved encoding 2 and anything above 3 panic. */
  function PrivFrom(v: bv32): Outcome<Priv>
  {
    if v == 0 then Ok(User)
    else if v == 1 then Ok(Supervisor)
    else if v == 3 then Ok(Machine)
    else Panic
  }

  /** Decoding a level's encoding gives the level back, and only the three
      encodings decode. */
  lemma PrivRoundTrip(p: Priv, v: bv32)
    ensures PrivFrom(Level(p)) == Ok(p)
    ensures PrivFrom(v).Ok? <==> v == 0 || v == 1 || v == 3
    ensures PrivFrom(v).Ok? ==> Level(PrivFrom(v).value) == v
  {
  }

  /** What a memory access is for. */
  datatype AccessType = Read | Write | Fetch

  /** The discriminants 1 << 1, 1 << 2 and 1 << 3, which the page-table walk
      compares against the R, W and X bits of a PTE. */
  function AccessBits(a: AccessType): bv32
  {
    match a
    case Read => 2
    case Write => 4
    case Fetch => 8
  }

  /** `into_trap`: the fault an access raises, a page fault while walking the
      page table and an access fault otherwise; a failed fetch outside the walk
      is left `todo!()` in the source. */
  function IntoTrap(a: AccessType, isWalk: bool): Outcome<Trap>
  {
    if isWalk then
      match a
      case Fetch => Ok(InstructionPageFault)
      case Read => Ok(LoadPageFault)
      case Write => Ok(StoreOrAMOPageFault)
    else
      match a
      case Fetch => Panic
      case Read => Ok(LoadAccessFault)
      case Write => Ok(StoreOrAMOAccessFault)
  }

  /** Walk faults are the page fault of the access kind; other faults are the
      access fault of a load or store; the three page faults are distinct. */
  lemma IntoTrapKinds(a: AccessType, b: AccessType)
    ensures IntoTrap(a, true).Ok?
    ensures IntoTrap(a, true).value in {InstructionPageFault, LoadPageFault, StoreOrAMOPageFault}
    ensures a != b ==> IntoTrap(a, true) != IntoTrap(b, true)
    ensures IntoTrap(a, false).Ok? <==> a != Fetch
    ensures a != Fetch ==> IntoTrap(a, false).value in {LoadAccessFault, StoreOrAMOAccessFault}
  {
  }

  /** Platform interrupt sources. */
  datatype IRQ = NoIrq | VirtioNet | VirtioGpu | Uart

  function IrqNumber(irq: IRQ): nat
  {
    match irq
    case NoIrq => 0
    case VirtioNet => 1
    case VirtioGpu => 2
    case Uart => 0xa
  }

  /** `irq as u32`: the source number as a 32-bit word. */
  function IrqWord(irq: IRQ): (r: bv32)
    ensures r as nat == IrqNumber(irq)
  {
    match irq
    case NoIrq => 0
    case VirtioNet => 1
    case VirtioGpu => 2
    case Uart => 0xa
  }

  /** `IRQ::from(usize)`: any other number panics. */
  function IrqFrom(n: int): Outcome<IRQ>
  {
    if n == 0 then Ok(NoIrq)
    else if n == 1 then Ok(VirtioNet)
    else if n == 2 then Ok(VirtioGpu)
    else if n == 0xa then Ok(Uart)
    else Panic
  }

  lemma IrqRoundTrip(irq: IRQ, n: int)
    ensures IrqFrom(IrqNumber(irq)) == Ok(irq)
    ensures IrqFrom(n).Ok? <==> n in {0, 1, 2, 0xa}
  {
  }
}
