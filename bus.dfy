/**
 * The physical address map of src/bus.rs. Four disjoint windows route an
 * access to the CLINT, the UART, the PLIC or RAM; the device is handed the
 * offset from its window's base, and an address outside every window raises
 * the access's own fault (`CpuContext::make_trap`).
 *
 * The bus owns RAM, the UART and the PLIC; the CLINT has no state of its own
 * and works on the hart's CSRs, which every access carries beside the
 * context and gets back changed. The state of the three owned parts is the
 * value `BusState`; `Bus` holds the three objects and its accesses are proved
 * equal to the functions on `BusState`.
 *
 * The devices of this snapshot do not all implement the `MmioOps` accessors
 * the routing calls: an access of width N is joined to the device's own
 * `read`/`write` of N bytes (UART and PLIC), to `Memory::read::<N>` and
 * `write::<N>` decoded or encoded little-endian (RAM), and to the CLINT's
 * 32-bit accessors, whose byte-vector fallbacks are unreachable.
 */
module SystemBus {
  import opened Arch
  import opened Bits
  import opened Mmio
  import opened CsrFile
  import Clint
  import Ram
  import U = UartDevice
  import P = PlicDevice

  const CLINT_BASE: bv32 := 0x200_0000
  const CLINT_END: bv32 := CLINT_BASE + 0x1_0000
  const PLIC_BASE: bv32 := 0xc00_0000
  const PLIC_END: bv32 := PLIC_BASE + 0x400_0000
  const UART_BASE: bv32 := 0x1000_0000
  const UART_END: bv32 := UART_BASE + 0x100
  const MEMORY_BASE: bv32 := 0x8000_0000
  const MEMORY_END: bv32 := 0x9000_0000

  predicate InClint(addr: bv32) { CLINT_BASE <= addr < CLINT_END }
  predicate InUart(addr: bv32) { UART_BASE <= addr < UART_END }
  predicate InPlic(addr: bv32) { PLIC_BASE <= addr < PLIC_END }
  predicate InMemory(addr: bv32) { MEMORY_BASE <= addr < MEMORY_END }

  /** The width of an access: `read_u8`/`write_u8`, `_u16` or `_u32`. */
  datatype Width = W8 | W16 | W32

  function Bytes(w: Width): nat
  {
    match w
    case W8 => 1
    case W16 => 2
    case W32 => 4
  }

  /** The same count as the `size` argument the devices take. */
  function Size(w: Width): (r: bv32)
    ensures Nat32(r) == Bytes(w)
  {
    match w
    case W8 => 1
    case W16 => 2
    case W32 => 4
  }

  /** `value as u8` or `as u16`: the part of a 32-bit value an access of this
      width carries. */
  function Narrow(w: Width, v: bv32): bv32
  {
    match w
    case W8 => v & 0xff
    case W16 => v & 0xffff
    case W32 => v
  }

  /** `to_le_bytes` of the value narrowed to the width. */
  function Encode(w: Width, v: bv32): (r: seq<bv8>)
    ensures |r| == Bytes(w)
  {
    match w
    case W8 => [Low8(v)]
    case W16 => U16Le((v & 0xffff) as bv16)
    case W32 => U32Le(v)
  }

  /** `from_le_bytes` of exactly as many bytes as the width, widened to 32
      bits as the hart uses it. */
  function Decode(w: Width, b: seq<bv8>): bv32
    requires |b| == Bytes(w)
  {
    match w
    case W8 => Widen8(FromLe8(b).value)
    case W16 => Widen16(FromLe16(b).value)
    case W32 => FromLe32(b).value
  }

  /** Decoding what was encoded gives back the narrowed value. */
  lemma DecodeEncode(w: Width, v: bv32)
    ensures Decode(w, Encode(w, v)) == Narrow(w, v)
  {
    match w
    case W8 =>
    case W16 =>
      var h := (v & 0xffff) as bv16;
      LeRoundTrip16(h, U16Le(h));
      assert Widen16(h) == v & 0xffff;
    case W32 =>
      LeRoundTrip32(v, U32Le(v));
  }

  /** Where an address goes: a device and the offset within its window. */
  datatype Target =
    | AtClint(offset: bv32)
    | AtUart(offset: bv32)
    | AtPlic(offset: bv32)
    | AtMemory(offset: bv32)
    | Unmapped

  /** The `match addr` of the `read!` and `write!` macros: the device whose
      window holds the address, at its distance from the window's base. */
  function Route(addr: bv32): Target
  {
    if InClint(addr) then AtClint(addr - CLINT_BASE)
    else if InUart(addr) then AtUart(addr - UART_BASE)
    else if InPlic(addr) then AtPlic(addr - PLIC_BASE)
    else if InMemory(addr) then AtMemory(addr - MEMORY_BASE)
    else Unmapped
  }

  /** Every mapped address reaches exactly the device whose window holds it,
      at an offset inside that window; the rest is unmapped. */
  lemma RouteWindows(addr: bv32)
    ensures Route(addr).AtClint? <==> InClint(addr)
    ensures Route(addr).AtUart? <==> InUart(addr)
    ensures Route(addr).AtPlic? <==> InPlic(addr)
    ensures Route(addr).AtMemory? <==> InMemory(addr)
    ensures Route(addr).Unmapped? <==> !InClint(addr) && !InUart(addr) && !InPlic(addr) && !InMemory(addr)
    ensures Route(addr).AtClint? ==> Route(addr).offset < 0x1_0000
    ensures Route(addr).AtUart? ==> Route(addr).offset < 0x100
    ensures Route(addr).AtPlic? ==> Route(addr).offset < 0x400_0000
    ensures Route(addr).AtMemory? ==> Route(addr).offset < 0x1000_0000
  {
  }

  /** The four windows are pairwise disjoint, so whichever arm of the match
      takes an address, no other window holds it. */
  lemma WindowsDisjoint(addr: bv32)
    ensures !(InClint(addr) && InUart(addr)) && !(InClint(addr) && InPlic(addr))
    ensures !(InClint(addr) && InMemory(addr)) && !(InUart(addr) && InPlic(addr))
    ensures !(InUart(addr) && InMemory(addr)) && !(InPlic(addr) && InMemory(addr))
  {
  }

  /** The state of what the bus owns: RAM's bytes and base, the UART and the PLIC. */
  datatype BusState = BusState(mem: seq<bv8>, memBase: bv32, uart: U.UartState, plic: P.PlicState)
  {
    predicate Valid()
    {
      plic.Valid()
    }
  }

  /** `Bus::default`. */
  const Initial: BusState := BusState([], 0, U.Initial, P.Initial)

  /** A bus state whose PLIC registers have their fixed sizes. */
  type ValidBus = b: BusState | b.Valid() witness Initial

  /** The CLINT's part of a read: only `read_u32` is its own; the byte-vector
      `read` behind the narrower accessors is unreachable!(). */
  function ClintRead(b: BusState, csr: Csr, off: bv32, w: Width, ctx: CpuContext)
    : Outcome<(bv32, BusState)>
  {
    if w == W32 then
      var v :- Clint.ReadU32(csr, off, ctx);
      Ok((v, b))
    else Panic
  }

  /** The UART's part: its `read` of `Bytes(w)` bytes, with the new UART state. */
  function UartRead(b: BusState, off: bv32, w: Width): Outcome<(bv32, BusState)>
  {
    var p :- U.ReadSpec(b.uart, off, Size(w));
    Ok((p.0.value, b.(uart := p.1)))
  }

  /** The PLIC's part: its `read` of `Bytes(w)` bytes, with the new PLIC state. */
  function PlicRead(b: BusState, off: bv32, w: Width): (r: Outcome<(bv32, BusState)>)
    requires b.Valid()
    ensures r.Ok? ==> r.value.1.Valid()
  {
    var p :- P.ReadSpec(b.plic, Nat32(off), Size(w));
    Ok((p.0, b.(plic := p.1)))
  }

  /** RAM's part: `Memory::read::<N>` of the offset, decoded little-endian. */
  function MemoryRead(b: BusState, off: bv32, w: Width): Outcome<(bv32, BusState)>
  {
    match Ram.Read(b.mem, Nat32(b.memBase), Nat32(off), Bytes(w))
    case Ok(bytes) => Ok((Decode(w, bytes), b))
    case Fail(e) => Fail(e)
    case Panic => Panic
  }

  /** One access of width `w` at the device `t` selects: the value and the new
      state. */
  function DeviceRead(b: BusState, csr: Csr, t: Target, w: Width, ctx: CpuContext)
    : (r: Outcome<(bv32, BusState)>)
    requires b.Valid()
    ensures r.Ok? ==> r.value.1.Valid()
  {
    match t
    case AtClint(off) => ClintRead(b, csr, off, w, ctx)
    case AtUart(off) => UartRead(b, off, w)
    case AtPlic(off) => PlicRead(b, off, w)
    case AtMemory(off) => MemoryRead(b, off, w)
    case Unmapped => Raise(ctx)
  }

  /** `Bus::read_u8`, `read_u16` and `read_u32`. */
  function ReadSpec(b: BusState, csr: Csr, addr: bv32, w: Width, ctx: CpuContext)
    : (r: Outcome<(bv32, BusState)>)
    requires b.Valid()
    ensures r.Ok? ==> r.value.1.Valid()
  {
    DeviceRead(b, csr, Route(addr), w, ctx)
  }

  /** The CLINT's part of a write: `write_u32` on the CSRs; the narrower
      accessors reach the unreachable!() byte-vector `write`. */
  function ClintWrite(b: BusState, csr: Csr, off: bv32, w: Width, value: bv32, ctx: CpuContext)
    : Outcome<(BusState, Csr)>
  {
    if w == W32 then
      var c :- Clint.WriteU32(csr, off, value, ctx);
      Ok((b, c))
    else Panic
  }

  /** The UART's part: its `write` of the narrowed value. */
  function UartWrite(b: BusState, csr: Csr, off: bv32, w: Width, value: bv32): Outcome<(BusState, Csr)>
  {
    var p :- U.WriteSpec(b.uart, off, Size(w), Narrow(w, value));
    Ok((b.(uart := p.1), csr))
  }

  /** The PLIC's part: its `write` of the narrowed value, which may complete
      an interrupt and so change the CSRs. */
  function PlicWrite(b: BusState, csr: Csr, off: bv32, w: Width, value: bv32): (r: Outcome<(BusState, Csr)>)
    requires b.Valid()
    ensures r.Ok? ==> r.value.0.Valid()
  {
    var p :- P.WriteSpec(b.plic, Nat32(off), Size(w), Narrow(w, value), csr);
    Ok((b.(plic := p.0), p.1))
  }

  /** RAM's part: `Memory::write::<N>` of the little-endian bytes. */
  function MemoryWrite(b: BusState, csr: Csr, off: bv32, w: Width, value: bv32): Outcome<(BusState, Csr)>
  {
    var m :- Ram.WriteOf(b.mem, Nat32(b.memBase), Nat32(off), Encode(w, value));
    Ok((b.(mem := m), csr))
  }

  /** One write of width `w` at the device `t` selects: the new state and CSRs. */
  function DeviceWrite(b: BusState, csr: Csr, t: Target, w: Width, value: bv32, ctx: CpuContext)
    : (r: Outcome<(BusState, Csr)>)
    requires b.Valid()
    ensures r.Ok? ==> r.value.0.Valid()
  {
    match t
    case AtClint(off) => ClintWrite(b, csr, off, w, value, ctx)
    case AtUart(off) => UartWrite(b, csr, off, w, value)
    case AtPlic(off) => PlicWrite(b, csr, off, w, value)
    case AtMemory(off) => MemoryWrite(b, csr, off, w, value)
    case Unmapped => Raise(ctx)
  }

  /** `Bus::write_u8`, `write_u16` and `write_u32`. */
  function WriteSpec(b: BusState, csr: Csr, addr: bv32, w: Width, value: bv32, ctx: CpuContext)
    : (r: Outcome<(BusState, Csr)>)
    requires b.Valid()
    ensures r.Ok? ==> r.value.0.Valid()
  {
    DeviceWrite(b, csr, Route(addr), w, value, ctx)
  }

  /** An address outside every window fails with the access's fault, the
      page fault of its kind during a walk and the access fault otherwise,
      and no device is reached. */
  lemma UnmappedFaults(b: BusState, csr: Csr, addr: bv32, w: Width, value: bv32, ctx: CpuContext)
    requires b.Valid()
    requires !InClint(addr) && !InUart(addr) && !InPlic(addr) && !InMemory(addr)
    ensures ReadSpec(b, csr, addr, w, ctx) == Raise(ctx)
    ensures WriteSpec(b, csr, addr, w, value, ctx) == Raise(ctx)
    ensures ctx.isWalk ==> ReadSpec(b, csr, addr, w, ctx) == Fail(IntoTrap(ctx.accessType, true).value)
    ensures !ctx.isWalk && ctx.accessType == Read ==> ReadSpec(b, csr, addr, w, ctx) == Fail(LoadAccessFault)
    ensures !ctx.isWalk && ctx.accessType == Write ==>
      WriteSpec(b, csr, addr, w, value, ctx) == Fail(StoreOrAMOAccessFault)
  {
    RaiseKinds<(bv32, BusState)>(ctx);
    RaiseKinds<(BusState, Csr)>(ctx);
  }

  /** A RAM write followed by a read of the same width at the same address
      gives back the value written, narrowed to the width, and changes
      nothing but the bytes. */
  lemma MemoryRoundTrip(b: BusState, csr: Csr, addr: bv32, w: Width, value: bv32, ctx: CpuContext)
    requires b.Valid() && InMemory(addr)
    requires WriteSpec(b, csr, addr, w, value, ctx).Ok?
    ensures WriteSpec(b, csr, addr, w, value, ctx).value ==
      (b.(mem := WriteSpec(b, csr, addr, w, value, ctx).value.0.mem), csr)
    ensures ReadSpec(WriteSpec(b, csr, addr, w, value, ctx).value.0, csr, addr, w, ctx) ==
      Ok((Narrow(w, value), WriteSpec(b, csr, addr, w, value, ctx).value.0))
  {
    var off := Route(addr).offset;
    var buf := Encode(w, value);
    var m := Ram.WriteOf(b.mem, Nat32(b.memBase), Nat32(off), buf).value;
    var after := b.(mem := m);
    assert WriteSpec(b, csr, addr, w, value, ctx).value == (after, csr);
    Ram.WriteThenRead(b.mem, Nat32(b.memBase), Nat32(off), buf);
    DecodeEncode(w, value);
    assert ReadSpec(after, csr, addr, w, ctx) == Ok((Decode(w, buf), after));
  }

  /** A RAM read never changes the state, and a RAM access faults exactly
      when RAM's own bounds check refuses the offset, with the load or store
      access fault. */
  lemma MemoryAccessFaults(b: BusState, csr: Csr, off: bv32, w: Width, value: bv32)
    ensures MemoryRead(b, off, w).Ok? ==> MemoryRead(b, off, w).value.1 == b
    ensures MemoryRead(b, off, w).Fail? <==> Ram.IsInvalidRange(Nat32(b.memBase), Nat32(off), Bytes(w))
    ensures MemoryRead(b, off, w).Fail? ==> MemoryRead(b, off, w).trap == LoadAccessFault
    ensures MemoryWrite(b, csr, off, w, value).Fail? <==>
      Ram.IsInvalidRange(Nat32(b.memBase), Nat32(off), Bytes(w))
    ensures MemoryWrite(b, csr, off, w, value).Fail? ==>
      MemoryWrite(b, csr, off, w, value).trap == StoreOrAMOAccessFault
  {
    Ram.ReadOutcome(b.mem, Nat32(b.memBase), Nat32(off), Bytes(w));
    Ram.WriteOutcome(b.mem, Nat32(b.memBase), Nat32(off), Encode(w, value));
  }

  /** The CLINT answers only 32-bit accesses; its registers are the hart's
      CSRs, so a CLINT write changes the CSRs and not the bus. */
  lemma ClintWordOnly(b: BusState, csr: Csr, addr: bv32, w: Width, value: bv32, ctx: CpuContext)
    requires b.Valid() && InClint(addr)
    ensures w != W32 ==> ReadSpec(b, csr, addr, w, ctx) == Panic
    ensures w != W32 ==> WriteSpec(b, csr, addr, w, value, ctx) == Panic
    ensures ReadSpec(b, csr, addr, W32, ctx) ==
      (match Clint.ReadU32(csr, addr - CLINT_BASE, ctx)
       case Ok(v) => Ok((v, b))
       case Fail(e) => Fail(e)
       case Panic => Panic)
    ensures WriteSpec(b, csr, addr, W32, value, ctx).Ok? ==>
      WriteSpec(b, csr, addr, W32, value, ctx).value ==
        (b, Clint.WriteU32(csr, addr - CLINT_BASE, value, ctx).value)
  {
  }

  /** The bus: RAM, the UART and the PLIC, each updated in place. */
  class Bus {
    const memory: Ram.Memory
    const uart: U.Uart
    const plic: P.Plic

    function State(): BusState
      reads this, memory, uart, plic
    {
      BusState(memory.bytes, memory.baseAddress, uart.State(), plic.State())
    }

    predicate Valid()
      reads this, plic
    {
      plic.Valid()
    }

    /** `Bus::default`. */
    constructor ()
      ensures Valid() && State() == Initial
      ensures fresh(memory) && fresh(uart) && fresh(plic)
    {
      memory := new Ram.Memory();
      uart := new U.Uart();
      plic := new P.Plic();
    }

    /** The `read!` instances: route, then read the device. */
    method Read(addr: bv32, w: Width, csr: Csr, ctx: CpuContext) returns (r: Outcome<bv32>)
      requires Valid()
      modifies uart, plic
      ensures Valid()
      ensures r == First(ReadSpec(old(State()), csr, addr, w, ctx))
      ensures r.Ok? ==> State() == ReadSpec(old(State()), csr, addr, w, ctx).value.1
      ensures r.Fail? ==> State() == old(State())
    {
      r := ReadAt(Route(addr), w, csr, ctx);
    }

    method ReadAt(t: Target, w: Width, csr: Csr, ctx: CpuContext) returns (r: Outcome<bv32>)
      requires Valid()
      modifies uart, plic
      ensures Valid()
      ensures r == First(DeviceRead(old(State()), csr, t, w, ctx))
      ensures r.Ok? ==> State() == DeviceRead(old(State()), csr, t, w, ctx).value.1
      ensures r.Fail? ==> State() == old(State())
    {
      match t
      case AtClint(off) =>
        r := First(ClintRead(State(), csr, off, w, ctx));
      case AtUart(off) =>
        r := ReadUart(off, w);
      case AtPlic(off) =>
        r := ReadPlic(off, w);
      case AtMemory(off) =>
        r := First(MemoryRead(State(), off, w));
      case Unmapped =>
        r := Raise(ctx);
    }

    method ReadUart(off: bv32, w: Width) returns (r: Outcome<bv32>)
      modifies uart
      ensures r == First(UartRead(old(State()), off, w))
      ensures r.Ok? ==> State() == UartRead(old(State()), off, w).value.1
      ensures !r.Ok? ==> State() == old(State())
    {
      var resp := uart.Read(off, Size(w));
      match resp {
        case Ok(v) => r := Ok(v.value);
        case Fail(e) => r := Fail(e);
        case Panic => r := Panic;
      }
    }

    method ReadPlic(off: bv32, w: Width) returns (r: Outcome<bv32>)
      requires Valid()
      modifies plic
      ensures Valid()
      ensures r == First(PlicRead(old(State()), off, w))
      ensures r.Ok? ==> State() == PlicRead(old(State()), off, w).value.1
      ensures r.Fail? ==> State() == old(State())
    {
      r := plic.Read(Nat32(off), Size(w));
    }

    /** The `write!` instances: route, then write the device; the CSRs come
        back changed when the CLINT or a PLIC completion wrote them. */
    method Write(addr: bv32, w: Width, value: bv32, csr: Csr, ctx: CpuContext) returns (r: Outcome<Csr>)
      requires Valid()
      modifies memory, uart, plic
      ensures Valid()
      ensures r == Second(WriteSpec(old(State()), csr, addr, w, value, ctx))
      ensures r.Ok? ==> State() == WriteSpec(old(State()), csr, addr, w, value, ctx).value.0
      ensures r.Fail? ==> State() == old(State())
    {
      r := WriteAt(Route(addr), w, value, csr, ctx);
    }

    method WriteAt(t: Target, w: Width, value: bv32, csr: Csr, ctx: CpuContext) returns (r: Outcome<Csr>)
      requires Valid()
      modifies memory, uart, plic
      ensures Valid()
      ensures r == Second(DeviceWrite(old(State()), csr, t, w, value, ctx))
      ensures r.Ok? ==> State() == DeviceWrite(old(State()), csr, t, w, value, ctx).value.0
      ensures r.Fail? ==> State() == old(State())
    {
      match t
      case AtClint(off) =>
        r := Second(ClintWrite(State(), csr, off, w, value, ctx));
      case AtUart(off) =>
        r := WriteUart(csr, off, w, value);
      case AtPlic(off) =>
        r := WritePlic(csr, off, w, value);
      case AtMemory(off) =>
        r := WriteMemory(csr, off, w, value);
      case Unmapped =>
        r := Raise(ctx);
    }

    method WriteUart(csr: Csr, off: bv32, w: Width, value: bv32) returns (r: Outcome<Csr>)
      modifies uart
      ensures r == Second(UartWrite(old(State()), csr, off, w, value))
      ensures r.Ok? ==> State() == UartWrite(old(State()), csr, off, w, value).value.0
      ensures !r.Ok? ==> State() == old(State())
    {
      var resp := uart.Write(off, Size(w), Narrow(w, value));
      match resp {
        case Ok(_) => r := Ok(csr);
        case Fail(e) => r := Fail(e);
        case Panic => r := Panic;
      }
    }

    method WritePlic(csr: Csr, off: bv32, w: Width, value: bv32) returns (r: Outcome<Csr>)
      requires Valid()
      modifies plic
      ensures Valid()
      ensures r == Second(PlicWrite(old(State()), csr, off, w, value))
      ensures r.Ok? ==> State() == PlicWrite(old(State()), csr, off, w, value).value.0
      ensures r.Fail? ==> State() == old(State())
    {
      r := plic.Write(Nat32(off), Size(w), Narrow(w, value), csr);
    }

    method WriteMemory(csr: Csr, off: bv32, w: Width, value: bv32) returns (r: Outcome<Csr>)
      modifies memory
      ensures r == Second(MemoryWrite(old(State()), csr, off, w, value))
      ensures r.Ok? ==> State() == MemoryWrite(old(State()), csr, off, w, value).value.0
      ensures r.Fail? ==> State() == old(State())
    {
      var done := memory.Write(off, Encode(w, value));
      match done {
        case Ok(_) => r := Ok(csr);
        case Fail(e) => r := Fail(e);
        case Panic => r := Panic;
      }
    }

    /** The tick this model gives the bus: one character offered to the
        UART's receive buffer and at most one delivered to its RBR. */
    method Tick(received: Option<char>) returns (moved: bool)
      modifies uart
      ensures (moved, uart.State()) == U.Tick(old(uart.State()), received)
      ensures memory.bytes == old(memory.bytes) && memory.baseAddress == old(memory.baseAddress)
      ensures plic.State() == old(plic.State())
    {
      moved := uart.TickOnce(received);
    }
  }
}
