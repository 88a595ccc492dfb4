# tiny-rv32ima-sim in Dafny

A model of the core of tiny-rv32ima-sim, a RISC-V RV32IMA system simulator
written in Rust. It covers one hart with machine, supervisor and user modes,
its CSR file, Sv32 address translation with a TLB, and the physical bus. The
bus routes accesses to RAM, the CLINT, the PLIC and a 16550-style UART. The
model also covers the virtio MMIO transport with its network and GPU devices,
the ELF-32 loader, and the simulator's per-step driver.

The project's files, one module per source file:

| file | module | models |
|---|---|---|
| arch.dfy | `Arch` | src/lib.rs: privilege levels, traps, access types, IRQ numbers |
| bits.dfy, masks.dfy | `Bits`, `Masks` | sign extension, little-endian fields, 16-bit ring arithmetic, bit masks |
| alu.dfy | `Isa` | instruction fields and immediates, the ALU, branches, loads, AMOs and the M extension of src/cpu.rs |
| csr.dfy | `CsrFile` | src/csr.rs: CSR reads and writes, their access checks, `handle_mret`, the counters |
| elf.dfy | `Elf` | src/elf.rs: the ELF-32 header and program-header layouts and their decoding |
| memory.dfy | `Ram` | src/memory.rs: RAM, its bounds-checked accesses, the flat and ELF loaders |
| mmio.dfy | `Mmio` | the device interface shared by the bus and the virtio devices |
| clint.dfy | `Clint` | src/bus/clint.rs |
| plic.dfy | `PlicDevice` | src/bus/plic.rs |
| uart.dfy | `UartDevice` | src/bus/uart.rs |
| bus.dfy | `SystemBus` | src/bus.rs: the address map and access routing |
| tlb.dfy | `Tlb` | src/tlb.rs |
| mmu.dfy | `Sv32` | the page-table walk of `Cpu::translate_va` |
| cpu.dfy | `Hart` | src/cpu.rs: registers, `step`, `fetch`, `translate_va`, `handle_trap` |
| virtio_mmio.dfy | `VirtioTransport` | src/bus/virtio_mmio.rs: the transport registers and the queue rings in guest RAM |
| virtio_net.dfy | `VirtioNetDevice` | src/bus/virtio_net.rs |
| virtio_gpu.dfy | `VirtioGpuDevice` | src/bus/virtio_gpu.rs |
| simulator.dfy | `Simulator` | one pass of the run loop of src/simulator.rs |

How the model is built:
- **Outcomes.** An operation that can go wrong returns an `Outcome`:
  - `Ok` for success;
  - `Fail(trap)` for a RISC-V trap the hart handles;
  - `Panic` where the Rust code panics (`panic!`, `unimplemented!`, `todo!`, `unreachable!`, an `unwrap` of `None`, an index out of bounds).
- **Stateful parts are classes.** The hart, the register file, the TLB, RAM, the bus and every device are classes with the source's fields. Each method is proved to leave the state that a pure function of the old state gives (`ensures State() == XSpec(old(State()), ...)`). The properties are lemmas about those functions.
- **Values stay values.** The CSR file (`Csr`) and instruction decoding are values and pure functions.
- **Fixed-width arithmetic** is bit-vector arithmetic. `usize` arithmetic on the host side is unbounded.

## Model

| member | source | states |
|---|---|---|
| Arch.CodeInjective | src/lib.rs:78-99 | no two trap variants share a discriminant |
| Arch.InterruptsAre | src/lib.rs:93-99 | `is_interrupt` holds exactly for the three supervisor interrupts and, through their implicit numbering after (1 << 31) + 9, the two debugging variants (also lines 102-108) |
| Arch.CauseOfTrap | src/lib.rs:110-112 | `cause` is the code itself for an exception and the code without bit 31 for an interrupt (1, 5, 9 for the supervisor interrupts) |
| Arch.PrivRoundTrip | src/lib.rs:53-75 | `Priv::from` maps 0, 1, 3 to User, Supervisor, Machine, inverts `prv as u32`, and every other value is unreachable (a panic) |
| Arch.IntoTrapKinds | src/lib.rs:35-50 | a walk fault is the page fault of the access kind, the three being distinct; outside the walk loads and stores give their access faults and a fetch hits `todo!()` |
| Arch.IrqWord | src/lib.rs:115-121 | `irq as u32` is the source number 0, 1, 2 or 0xa |
| Arch.IrqRoundTrip | src/lib.rs:123-133 | `IRQ::from` inverts the discriminant and panics on any other number |
| Sv32.AccessBitsArePteBits | src/lib.rs:13-17 | the `AccessType` discriminants are exactly the PTE R, W and X bit masks of src/cpu.rs:12-14 |
| Tlb.NewEntry | src/tlb.rs:52-58 | `TlbEntry::new` stores ppn and privilege and sets vpn = va >> 12, a 20-bit number |
| Tlb.Slot | src/tlb.rs:26-31 | the slot `vpn & 0xfff` lies inside the 4096-entry table |
| Tlb.LookupIff | src/tlb.rs:33-44 | a lookup returns an entry exactly when the page's slot holds an entry whose vpn is va >> 12 and whose privilege is the requested one |
| Tlb.RegisterSlots | src/tlb.rs:26-31 | `register_entry` overwrites the page's slot and leaves every other slot unchanged |
| Tlb.LookupAfterRegister | src/tlb.rs:26-58 | after registering `TlbEntry::new(va, ppn, p)`, a lookup of any address on the same page at privilege p returns ppn |
| Tlb.LookupAfterRegisterElsewhere | src/tlb.rs:26-44 | registering does not change a lookup that lands in another slot |
| Tlb.LookupEmpty | src/tlb.rs:17-23 | the empty table finds nothing (also lines 46-48) |
| Tlb.Tlb.constructor | src/tlb.rs:17-23 | `Tlb::default` holds no entry |
| Tlb.Tlb.RegisterEntry | src/tlb.rs:26-31 | the array's contents become the registered table, in place |
| Tlb.Tlb.LookupPpn | src/tlb.rs:33-44 | the lookup on the array agrees with the lookup on its contents and returns only an entry for that page and privilege |
| Tlb.Tlb.Clear | src/tlb.rs:46-48 | after `clear` every slot is empty, so every lookup fails |
| Elf.ParseFields | src/elf.rs:11-28 | reading a packed run of little-endian fields yields fields of exactly the layout's widths (also lines 36-47) |
| Elf.EncodeFields | src/elf.rs:11-28 | writing a run of fields takes exactly the layout's byte size (also lines 36-47) |
| Elf.FieldsRoundTrip | src/elf.rs:11-28 | reading back a written run of fields gives the same fields (also lines 36-47) |
| Elf.BytesRoundTrip | src/elf.rs:11-28 | writing back what was read gives the same bytes: the packed layout covers its bytes exactly once (also lines 36-47) |
| Elf.ParseEhdr | src/elf.rs:11-28 | the header read from 52 bytes keeps the 16 identification bytes as they are |
| Elf.EncodeEhdr | src/elf.rs:11-28 | the packed header is 52 bytes |
| Elf.EncodePhdr | src/elf.rs:36-47 | the packed program header is 32 bytes, eight u32 fields |
| Elf.EhdrRoundTrip | src/elf.rs:11-28 | decoding an encoded header gives it back, fields in the order of the ELF header |
| Elf.EhdrBytesRoundTrip | src/elf.rs:11-28 | encoding a decoded header gives back its 52 bytes |
| Elf.PhdrRoundTrip | src/elf.rs:36-47 | decoding an encoded program header gives it back |
| Elf.PhdrBytesRoundTrip | src/elf.rs:36-47 | encoding a decoded program header gives back its 32 bytes |
| Elf.IsValidReadsIdentOnly | src/elf.rs:31-33 | `is_valid` depends on the first five identification bytes only, not on data encoding, e_machine or any other field |
| Elf.IsValidBytes | src/elf.rs:6-7 | a header read from bytes is valid exactly when they start 7f 'E' 'L' 'F' followed by class 1 (ELFCLASS32) (also lines 30-33) |
| Bits.SraFill | src/cpu.rs:470 | `(x as i32) >> s` equals the logical shift on a non-negative word and fills the vacated high bits with ones on a negative one (also line 588) |
| Bits.SignExtend8 | src/cpu.rs:398 | LB's `((v << 24) as i32) >> 24` keeps the low byte and copies bit 7 into every higher bit |
| Bits.SignExtend12 | src/cpu.rs:390 | the I- and S-immediate shift pair keeps the 12-bit field and copies its bit 11 upward (also lines 437, 490) |
| Bits.SignExtend13 | src/cpu.rs:679-683 | the branch-offset shift pair keeps the 13-bit field and copies its bit 12 upward |
| Bits.SignExtend16 | src/cpu.rs:403 | LH's shift pair keeps the low half-word and copies bit 15 upward |
| Bits.SignExtend21 | src/cpu.rs:726-731 | the jump-offset shift pair keeps the 21-bit field and copies its bit 20 upward |
| Bits.TruncDivRem | src/cpu.rs:567 | Rust's `i32 /` and `%` round toward zero: quotient and remainder reassemble the dividend, the remainder is smaller than the divisor and has the dividend's sign (also line 601) |
| Bits.U16Le | src/bus.rs:64-66 | `to_le_bytes` of a u16 is two bytes |
| Bits.U32Le | src/bus.rs:68-70 | `to_le_bytes` of a u32 is four bytes |
| Bits.Le16RoundTrip | src/bus.rs:48-52 | little-endian decoding inverts `to_le_bytes` on u16 and the other way round (also lines 64-66) |
| Bits.Le32RoundTrip | src/bus.rs:54-58 | little-endian decoding inverts `to_le_bytes` on u32 and the other way round (also lines 68-70) |
| Mmio.Raise | src/bus.rs:31-36 | `Err(ctx.make_trap())` is never Ok; it is the trap `into_trap(is_walk)` picks, or a panic where that is `todo!()` |
| Mmio.RaiseKinds | src/bus.rs:31-36 | an unmapped access during a walk raises the page fault of its kind; outside a walk a load or store raises its access fault and a fetch panics (also src/lib.rs:35-50) |
| Mmio.FromLe8 | src/bus.rs:42-46 | the `try_into().unwrap()` of `read_u8` succeeds exactly on a one-byte vector and panics otherwise |
| Mmio.FromLe16 | src/bus.rs:48-52 | the conversion of `read_u16` succeeds exactly on a two-byte vector and panics otherwise |
| Mmio.FromLe32 | src/bus.rs:54-58 | the conversion of `read_u32` succeeds exactly on a four-byte vector and panics otherwise |
| Mmio.LeRoundTrip16 | src/bus.rs:48-52 | `write_u16` followed by `read_u16` of the same bytes gives the value back, and re-encoding a decoded vector gives it back (also lines 64-66) |
| Mmio.LeRoundTrip32 | src/bus.rs:54-58 | the same round trip for u32 (also lines 68-70) |
| Isa.ImmIRoundTrip | src/cpu.rs:390 | the I-immediate decoder recovers the 12-bit immediate, sign-extended, whatever the other fields hold (also lines 437, 712) |
| Isa.ImmSRoundTrip | src/cpu.rs:489-490 | the S-immediate decoder recovers the split 12-bit store offset, sign-extended |
| Isa.ImmBRoundTrip | src/cpu.rs:679-683 | the B-immediate decoder recovers the 13-bit branch offset with bit 0 dropped, sign-extended |
| Isa.ImmJRoundTrip | src/cpu.rs:726-731 | the J-immediate decoder recovers the 21-bit jump offset with bit 0 dropped, sign-extended |
| Isa.ImmBEven | src/cpu.rs:679-683 | every branch offset is even |
| Isa.ImmJEven | src/cpu.rs:726-731 | every JAL offset is even |
| Isa.ImmediateForm | src/cpu.rs:433-486 | ADDI, XORI, ORI and ANDI are ADD, XOR, OR and AND with the sign-extended immediate |
| Isa.SetLessImmediate | src/cpu.rs:449-453 | SLTI, written "immediate greater than rs1", is SLT against the sign-extended immediate |
| Isa.SetLessImmediateUnsigned | src/cpu.rs:454-458 | SLTIU, written the same way, is SLTU against the sign-extended immediate |
| Isa.ShiftImmediateForm | src/cpu.rs:440-447 | the immediate shifts use the low five bits of the shamt field as the register shifts use the low five bits of rs2; SLLI with any bit above bit 4 set is illegal (also lines 464-473, 523, 572, 587-589) |
| Isa.SetLessMatchesBranch | src/cpu.rs:531-548 | SLT and SLTU give 1 exactly when BLT and BLTU would branch (also lines 684-690) |
| Isa.BranchEqual | src/cpu.rs:685-686 | BEQ and BNE branch on equality and inequality |
| Isa.BranchSigned | src/cpu.rs:687-688 | BLT, written "rs2 greater than rs1", branches when rs1 < rs2 signed, and BGE exactly when BLT does not |
| Isa.BranchUnsigned | src/cpu.rs:689-690 | BLTU and BGEU are the same pair unsigned |
| Isa.BranchUnimplemented | src/cpu.rs:684-692 | funct3 2 and 3 are the only unimplemented branch encodings |
| Isa.MinSigned | src/cpu.rs:665 | AMOMIN.W stores one of its operands, the signed least |
| Isa.MaxSigned | src/cpu.rs:666 | AMOMAX.W stores one of its operands, the signed greatest |
| Isa.MinUnsigned | src/cpu.rs:667 | AMOMINU.W stores one of its operands, the unsigned least |
| Isa.MaxUnsigned | src/cpu.rs:668 | AMOMAXU.W stores one of its operands, the unsigned greatest |
| Isa.AmoDefined | src/cpu.rs:656-670 | a read-modify-write AMO is defined exactly for funct3 2 and the nine operation codes; anything else is unimplemented |
| Isa.LoadByteSigned | src/cpu.rs:395-399 | LB gives the byte's two's-complement value |
| Isa.LoadHalfSigned | src/cpu.rs:400-404 | LH gives the half-word's two's-complement value |
| Isa.LoadUnsigned | src/cpu.rs:405-416 | LW, LBU and LHU keep the value read, zero-extended |
| Isa.MulhuSplits | src/cpu.rs:521 | MULHU and MUL are the high and low words of the exact unsigned product (also lines 549-555) |
| Isa.MulhSplits | src/cpu.rs:521 | MULH and MUL are the high and low words of the exact signed product (also lines 524-530) |
| Isa.MulhsuSplits | src/cpu.rs:521 | MULHSU and MUL are the high and low words of the exact signed-by-unsigned product (also lines 541-547) |
| Isa.DivuRemu | src/cpu.rs:573-586 | DIVU by 0 gives u32::MAX and REMU by 0 the dividend; otherwise quotient and remainder reassemble the dividend with a remainder below the divisor (also lines 607-620) |
| Isa.DivRem | src/cpu.rs:557-571 | DIV by 0 gives all ones and REM the dividend; INT_MIN / -1 gives INT_MIN and remainder 0; otherwise the quotient rounds toward zero and the remainder, smaller than the divisor, has the dividend's sign (also lines 591-605) |
| Ram.Zeros | src/memory.rs:16-18 | `fill(0)` leaves every byte zero and the length as it was |
| Ram.Overwrite | src/memory.rs:31-36 | `copy_from_slice` into `array[off..off + len]` puts the buffer there and changes no other byte (also line 138) |
| Ram.RawRead | src/memory.rs:20-28 | `raw_read` returns the SIZE bytes at `address - base` and panics exactly when they are not all backed by the vector |
| Ram.RawWriteOf | src/memory.rs:30-36 | `raw_write` replaces the bytes at `address - base` and panics exactly when they are not all backed |
| Ram.ReadOutcome | src/memory.rs:38-55 | a read fails exactly when the range is invalid (address below base, or end beyond base + MEMORY_SIZE), and then with LoadAccessFault; otherwise it returns the bytes |
| Ram.WriteOutcome | src/memory.rs:38-43 | a write fails exactly when the range is invalid, and then with StoreOrAMOAccessFault (also lines 57-67) |
| Ram.ReadForTranslationOutcome | src/memory.rs:69-82 | a translation read fails exactly on an invalid range, with the access kind's own trap |
| Ram.WriteThenRead | src/memory.rs:21-36 | a write followed by a read of the same size at the same address returns the written bytes (also lines 46-67) |
| Ram.WriteKeepsOthers | src/memory.rs:30-36 | a write changes no byte outside [address, address + SIZE) (also lines 57-67) |
| Ram.Place | src/memory.rs:132-141 | placing a segment keeps the vector's length and panics where a slice would be out of bounds or reversed |
| Ram.PlaceContents | src/memory.rs:132-141 | a placed segment holds p_filesz bytes from p_offset, then zeros up to p_memsz, and every other byte as before |
| Ram.LoadSegment | src/memory.rs:128-141 | a header that is not PT_LOAD changes nothing; a PT_LOAD one is placed at `p_paddr - base` |
| Ram.LoadHeader | src/memory.rs:123-127 | header i is read at `phoff + i * phentsize`, and one that does not fit in the image panics |
| Ram.LoadSegments | src/memory.rs:123-142 | loading the headers in order keeps the vector's length |
| Ram.LoadElf | src/memory.rs:110-145 | `load_elf_binary` never returns an error: it loads or panics |
| Ram.LoadElfResult | src/memory.rs:110-116 | an image whose header is not valid ELF32 panics; a completed load returns e_entry and keeps the vector's length (also line 144) |
| Ram.LoadElfNoSegments | src/memory.rs:118-144 | a valid image with no program headers returns e_entry and changes no byte |
| Ram.Memory.constructor | src/memory.rs:9-13 | `Memory::default` has no bytes and base 0 |
| Ram.Memory.Init | src/memory.rs:16-18 | `init` zero-fills the whole vector in place |
| Ram.Memory.RawWrite | src/memory.rs:30-36 | the vector becomes the `raw_write` of the old one, or the call panics |
| Ram.Memory.Write | src/memory.rs:57-67 | the vector becomes the `write` of the old one; a failed write leaves it unchanged |
| Ram.Memory.LoadFlatBinary | src/memory.rs:100-106 | an image larger than MEMORY_SIZE panics; otherwise it is written raw at the address |
| Ram.Memory.LoadElfBinary | src/memory.rs:110-145 | the loop over the program headers leaves the bytes `LoadElf` computes and returns e_entry |
| SystemBus.Size | src/bus.rs:42-58 | the size passed to a device is 1, 2 or 4, the width of the accessor |
| SystemBus.Encode | src/bus.rs:60-70 | `value.to_le_bytes()` of the narrowed value has exactly as many bytes as the width |
| SystemBus.DecodeEncode | src/bus.rs:42-70 | decoding the bytes a write encoded gives back the value narrowed to the width |
| SystemBus.RouteWindows | src/bus.rs:12-22 | an address reaches CLINT, UART, PLIC or RAM exactly when it lies in [0x2000000, 0x2010000), [0x10000000, 0x10000100), [0xc000000, 0x10000000) or [0x80000000, 0x90000000), at offset `addr - base` inside the window; any other address is unmapped (also lines 97-129) |
| SystemBus.WindowsDisjoint | src/bus.rs:12-22 | the four windows are pairwise disjoint |
| SystemBus.DeviceRead | src/bus.rs:99-110 | a device read keeps the bus state well-formed |
| SystemBus.ReadSpec | src/bus.rs:97-112 | `read_u8/u16/u32` route by address and keep the bus state well-formed (also lines 131-134) |
| SystemBus.DeviceWrite | src/bus.rs:116-127 | a device write keeps the bus state well-formed |
| SystemBus.WriteSpec | src/bus.rs:114-129 | `write_u8/u16/u32` route by address and keep the bus state well-formed (also lines 136-138) |
| SystemBus.UnmappedFaults | src/bus.rs:31-36 | an address in no window returns `ctx.make_trap()` for both reads and writes, the page fault of the access kind during a walk and the load or store access fault otherwise, and reaches no device (also lines 108, 125) |
| SystemBus.MemoryRoundTrip | src/bus.rs:104 | a RAM write followed by a read of the same width at the same address returns the narrowed value and changes nothing but RAM's bytes (also line 121; src/memory.rs:46-67) |
| SystemBus.MemoryAccessFaults | src/bus.rs:104 | a RAM read changes nothing; a RAM access faults exactly when RAM's bounds check refuses it, with LoadAccessFault or StoreOrAMOAccessFault (also line 121; src/memory.rs:38-67) |
| SystemBus.ClintWordOnly | src/bus.rs:101 | 8- and 16-bit CLINT accesses reach the unreachable byte-vector paths; 32-bit ones are the CLINT's own accessors, and a CLINT write changes the CSRs and not the bus (also line 118; src/bus/clint.rs:6-23) |
| SystemBus.Bus.constructor | src/bus.rs:81-95 | `Bus::default` holds default RAM, UART and PLIC |
| SystemBus.Bus.Read | src/bus.rs:97-112 | the routed read on the objects returns what `ReadSpec` does and leaves the state it gives; a failed read changes nothing |
| SystemBus.Bus.ReadAt | src/bus.rs:100-109 | the per-device dispatch of a read, in place |
| SystemBus.Bus.ReadUart | src/bus.rs:102 | the UART read through the UART object |
| SystemBus.Bus.ReadPlic | src/bus.rs:103 | the PLIC read through the PLIC object |
| SystemBus.Bus.Write | src/bus.rs:114-129 | the routed write on the objects returns the CSRs and leaves the state `WriteSpec` gives; a failed write changes nothing |
| SystemBus.Bus.WriteAt | src/bus.rs:117-126 | the per-device dispatch of a write, in place |
| SystemBus.Bus.WriteUart | src/bus.rs:119 | the UART write through the UART object |
| SystemBus.Bus.WritePlic | src/bus.rs:120 | the PLIC write through the PLIC object |
| SystemBus.Bus.WriteMemory | src/bus.rs:121 | the RAM write through the memory object |
| SystemBus.Bus.Tick | src/bus/uart.rs:191-210 | the bus tick moves at most one character into the UART, by the FIFO `Tick`, and leaves RAM and the PLIC unchanged |
| Clint.ReadU32 | src/bus/clint.rs:17-23 | offset 0 reads mip.MSIP, a value of at most 1; any other offset returns `ctx.make_trap()` |
| Clint.WriteU32Effect | src/bus/clint.rs:25-50 | a write at 0 sets MSIP to `value & 1` and no other mip bit; 0x4000 and 0x4004 set mtimecmp and mtimecmph; any other offset traps and changes no CSR |
| Clint.MsipRoundTrip | src/bus/clint.rs:18-20 | writing MSIP and reading it back gives bit 0 of the value written (also lines 33-37) |
| CsrFile.CheckCsrAccessMonotone | src/csr.rs:195-213 | a CSR open to a privilege is open to every higher one; machine mode is refused exactly a hypervisor number (bits 9:8 = 10) or a write to a read-only one (bits 11:10 = 11), and then with illegal-instruction |
| CsrFile.AccessDenied | src/csr.rs:105-106 | a refused read or write ends as illegal-instruction before any register is read or changed (also lines 135-136, 195-213) |
| CsrFile.CycleAccessMonotone | src/csr.rs:215-234 | cycle is readable in M-mode always, in S-mode only with mcounteren.CY and in U-mode only when S-mode may also read it |
| CsrFile.ReadFixed | src/csr.rs:26-34 | mhartid reads 0, misa reads MXL=1 with A, I, M, S and U; 0x3b0, 0x302, 0x7a5 and 0x744 are illegal and any other unknown number is UnimplementedCSR (also lines 104-132) |
| CsrFile.CycleReadsCounter | src/csr.rs:123-127 | reading cycle returns the counter `progress_cycle` advances where the enables allow it and is illegal elsewhere; time is not readable (also lines 215-234) |
| CsrFile.WriteSucceeds | src/csr.rs:134-190 | a write succeeds exactly for a permitted writable CSR among mstatus, mtvec, mie, mepc, mscratch, mcounteren, satp, scounteren whose value passes that register's check (mstatus only supported bits, counter enables only CY and TM, satp only 0), and then stores the masked value in that register alone |
| CsrFile.WritePreservesWf | src/csr.rs:139-183 | every successful write keeps mstatus, mie and the counter enables within their supported bits, mepc word-aligned, mtvec bit 1 clear and satp Bare |
| CsrFile.DefaultWf | src/csr.rs:80-101 | the default register file satisfies that invariant |
| CsrFile.ReadAfterWrite | src/csr.rs:104-190 | reading back a register just written gives the masked value stored (`value & 0xfffffffd` for mtvec, `value & MIE_SUPPORTED` for mie, low two bits cleared for mepc) |
| CsrFile.WfControlsClear | src/csr.rs:65-66 | under that invariant paging is off and MPRV, SUM, TVM, TW and TSR are clear, since mstatus writes refuse those bits and satp refuses nonzero values (also lines 139-146, 168-174) |
| CsrFile.HandleMretEffect | src/csr.rs:236-253 | without TSR, `handle_mret` returns the old MPP, sets MIE to the old MPIE, sets MPIE, resets MPP to User and changes no other bit or register |
| CsrFile.WithMipBitEffect | src/bus/clint.rs:36 | setting an mip bit changes that bit alone |
| CsrFile.ProgressTimeAdvances | src/simulator.rs:226-227 | `progress_time` advances the 64-bit time counter timerh:timerl by one and leaves cycle and instret alone |
| CsrFile.ProgressTicks | src/simulator.rs:217-227 | `progress_cycle` and `progress_instret` advance their own counter by one, wrapping, and leave the other counter and the time counter alone |
| Sv32.PageFault | src/cpu.rs:183-192 | the fault every failed check raises is the page fault `into_trap(true)` gives for the access kind |
| Sv32.GrantsBit | src/cpu.rs:226-228 | comparing R, W and X with the access kind's discriminant grants the access exactly when the PTE has the one bit that kind needs |
| Sv32.ExamineRejects | src/cpu.rs:218-220 | a PTE is rejected exactly when it is invalid or reserved, or it is a granting leaf that is a misaligned megapage, fails the U-bit check, or needs an A/D update while Svadu is on (also lines 226-262) |
| Sv32.ExamineLeaf | src/cpu.rs:222-266 | a PTE ends the walk as its leaf exactly when it is valid, grants the access, is aligned, passes the U-bit check and needs no A/D update |
| Sv32.UserFaultAgreesOnData | src/cpu.rs:236-247 | the U-bit check as written and the privileged architecture's check agree on every load and store the PTE grants |
| Sv32.SupervisorFetchFromUserPage | src/cpu.rs:236-247 | as written, a supervisor fetch from a valid, accessed, execute-only user page is accepted as a leaf; the corrected check rejects it |
| Sv32.VpnIndex | src/cpu.rs:200 | the index into the table of either level is at most 0x3ff |
| Sv32.LeafOffset | src/cpu.rs:273-277 | the page base a leaf yields has a zero page offset |
| Sv32.LeafPage | src/cpu.rs:276-280 | a 4 KiB leaf maps the address to PPN times 4096 plus the page offset |
| Sv32.LeafMegapage | src/cpu.rs:274-280 | a megapage maps the address to PPN[1] times 4 MiB plus the low 22 bits of the address |
| Sv32.LevelAt | src/cpu.rs:199-269 | one pass of the loop: a leaf it stops at is at this level and passes every check; the bus it leaves is valid |
| Sv32.WalkFrom | src/cpu.rs:197-270 | the walk's loop from level 1 to 0: a leaf it finds is at a level it examined and passes every check; the bus it leaves is valid |
| Sv32.Translate | src/cpu.rs:159-290 | translating leaves the bus valid |
| Sv32.TranslateBare | src/cpu.rs:160-162 | with paging off the address translates to itself and nothing changes |
| Sv32.TranslateMachine | src/cpu.rs:166-175 | machine mode as the effective privilege translates to the identity; it is MPP = 3 under MPRV for a load or store and the current privilege otherwise |
| Sv32.TranslateCached | src/cpu.rs:179-181 | a TLB hit for the effective privilege yields the cached page with the offset, with no bus access and no change |
| Sv32.TranslateMiss | src/cpu.rs:179-199 | a TLB miss walks the page table from the root satp names |
| Sv32.TranslateRejects | src/cpu.rs:183-192 | a rejected walk raises the access kind's page fault, records the address as the fault address and caches nothing (also lines 287-289) |
| Sv32.TranslateBusFault | src/cpu.rs:203-211 | a failed PTE read is returned as it is, without recording a fault address or caching |
| Sv32.TranslateWalks | src/cpu.rs:272-286 | a walk that finds a leaf yields the leaf's page with the offset and registers that page in the TLB under the effective privilege |
| Sv32.TranslateThenCached | src/cpu.rs:179-181 | after a walk registers a page, any address on that page translates from the TLB alone at the same privilege (also lines 280-284) |
| Sv32.WalkSucceeded | src/cpu.rs:272-289 | a translation that missed the TLB and succeeded found a leaf in the walk |
| Hart.ReadAfterWrite | src/cpu.rs:36-45 | x0 reads zero whatever was written; any other register reads back the last value written to it and a write leaves the other registers alone (also lines 62-77) |
| Hart.Registers.constructor | src/cpu.rs:36-45 | a fresh register file is zero but for a1 (x11), which holds the device tree address 0x8010_0000 |
| Hart.Registers.Init | src/cpu.rs:57-59 | init puts the register file back to its default contents |
| Hart.Registers.Read | src/cpu.rs:61-66 | reading register i gives entry i of the contents |
| Hart.Registers.Write | src/cpu.rs:68-77 | the new contents are the old with register i set, x0 excepted, and x0 still reads zero |
| Hart.Cpu.constructor | src/cpu.rs:126-144 | a new hart is in machine mode at pc 0 with the default registers and CSRs, an empty TLB, no reservation and no fault address |
| Hart.Aligned4Remainder | src/cpu.rs:629 | testing the two low bits is the source's `% 4 == 0` (also lines 896, 961) |
| Hart.LoadWidth | src/cpu.rs:391-419 | a load has a width exactly for the funct3 values the source implements, and that width is the byte count LB/LH/LW/LBU/LHU read |
| Hart.Cpu.TranslateVa | src/cpu.rs:159-290 | the in-place translation leaves the outcome, TLB, fault address and bus that `Sv32.Translate` gives; other fields are unchanged |
| Hart.Cpu.WalkAndConclude | src/cpu.rs:194-289 | after a TLB miss, the walk and its conclusion leave exactly what `Sv32.Conclude` of `Sv32.WalkFrom` from the root table gives |
| Hart.WalkTable | src/cpu.rs:197-270 | the loop over both levels reports the leaf (`last`) and the bus exactly as `Sv32.WalkFrom` does |
| Hart.WalkPass | src/cpu.rs:199-269 | one pass of the loop either ends the walk as `Sv32.WalkFrom` does, or goes on to the next table `Sv32.LevelAt` names |
| Hart.Report | src/cpu.rs:199-270 | the loop's `last` and bus are those the walk ended with |
| Hart.Cpu.ReadMemory | src/cpu.rs:292-318 | a load translates for a read and reads the physical address; outcome, hart and bus are those `ReadMemorySpec` gives |
| Hart.Cpu.WriteMemory | src/cpu.rs:320-347 | a store translates for a write and writes the physical address, taking back the CSRs a CLINT or PLIC write changes; as `WriteMemorySpec` gives |
| Hart.Cpu.Fetch | src/cpu.rs:893-912 | the fetch translates the pc, fails with a misaligned fetch on a physical address that is not word aligned, and otherwise reads the word; as `FetchSpec` gives |
| Hart.Cpu.Step | src/cpu.rs:364-386 | one step fetches, keeps the word as the instruction, makes the all-zero word illegal and executes; outcome, hart and bus are those `StepSpec` gives (also line 888) |
| Hart.Cpu.Execute | src/cpu.rs:387-886 | the opcode dispatch leaves what `ExecuteSpec` gives; an unknown opcode is unimplemented |
| Hart.Cpu.Load | src/cpu.rs:389-421 | LB, LH, LW, LBU and LHU read at rs1 plus the immediate and write rd sign- or zero-extended; as `LoadSpec` gives |
| Hart.Cpu.MiscMem | src/cpu.rs:422-432 | FENCE and FENCE.I do nothing, FENCE.TSO is illegal, other funct3 values are unimplemented; as `MiscMemSpec` gives |
| Hart.Cpu.WriteResult | src/cpu.rs:433-487 | OP-IMM, AUIPC, OP and LUI write their computed value to rd, or leave everything as it was on the operation's trap (also lines 516-623, 677) |
| Hart.Cpu.Store | src/cpu.rs:488-515 | SB, SH and SW store the low 8, 16 or 32 bits of rs2 at rs1 plus the immediate; as `StoreSpec` gives |
| Hart.Cpu.Amo | src/cpu.rs:624-676 | an atomic at a misaligned rs1 fails before any access; otherwise LR.W, SC.W or the read-modify-write, as `AmoSpec` gives |
| Hart.Cpu.LoadReserved | src/cpu.rs:637-642 | LR.W reads the word into rd and reserves its address, as `LrSpec` gives |
| Hart.Cpu.StoreConditional | src/cpu.rs:643-655 | SC.W stores only under a reservation of its address, rd gets 0 after the store and 1 without one, and the reservation is dropped unless the store failed; as `ScSpec` gives |
| Hart.Cpu.ReadModifyWrite | src/cpu.rs:656-674 | the AMO reads the word, gives it to rd, then stores the operation applied to it and rs2, as `RmwSpec` gives |
| Hart.Cpu.Jump | src/cpu.rs:716-741 | a misaligned target fails and is recorded as the fault address; otherwise the pc moves and JAL/JALR link rd; as `JumpSpec` gives (also lines 960-968) |
| Hart.Cpu.Branch | src/cpu.rs:678-702 | a branch jumps to pc plus the immediate when its condition holds and does nothing otherwise, as `BranchSpec` gives |
| Hart.Cpu.Jalr | src/cpu.rs:703-723 | JALR jumps to rs1 plus the immediate with bit 0 cleared and links rd, as `JalrSpec` gives |
| Hart.Cpu.System | src/cpu.rs:742-886 | the SYSTEM opcode dispatches by funct3 as `SystemSpec` gives |
| Hart.Cpu.WriteCsr | src/cpu.rs:752-754 | the CSR is written and rd gets the value read before; a refused write changes nothing (also lines 762-765) |
| Hart.Cpu.SwapCsr | src/cpu.rs:748-755 | CSRRW and CSRRWI read the CSR only when rd is not x0, write the operand and give rd the old value, as `CsrSwapSpec` gives (also lines 778-786) |
| Hart.Cpu.ModifyCsr | src/cpu.rs:756-777 | CSRRS, CSRRC, CSRRSI and CSRRCI read, then set or clear the operand's bits unless the write is skipped, and give rd the old value (also lines 787-808) |
| Hart.Cpu.Privileged | src/cpu.rs:809-884 | SFENCE.VMA, ECALL, EBREAK, WFI, SRET and MRET leave what `PrivilegedSpec` gives |
| Hart.Cpu.ReturnFrom | src/cpu.rs:856-880 | SRET and MRET take the privilege from the popped previous-mode field (a reserved value panics) and the pc from sepc or mepc (also lines 980-983) |
| Hart.Cpu.HandleTrap | src/cpu.rs:916-946 | trap entry leaves what `HandleTrapSpec` gives |
| Hart.Cpu.EnterHandler | src/cpu.rs:934-938 | the hart takes over the pc and privilege the CSR side of trap entry picks (also lines 980-983) |
| Hart.Cpu.ProgressPc | src/cpu.rs:985-988 | the pc moves on by 4, wrapping at 2^32, and nothing else changes |
| Hart.AmoMisalignedNoAccess | src/cpu.rs:627-632 | an atomic at an address that is not word aligned raises the store/AMO misaligned trap and changes nothing |
| Hart.ScWithoutReservation | src/cpu.rs:643-655 | SC.W without a reservation of its own address gives rd 1, drops any reservation and touches nothing else |
| Hart.ScWithReservation | src/cpu.rs:643-655 | SC.W under a reservation of its address performs the word store; on success rd gets 0, the bus is as the store left it and the reservation is gone |
| Hart.LrReserves | src/cpu.rs:637-642 | LR.W gives rd the word a load at rs1 reads, leaves the bus as that load did and reserves the address |
| Hart.ReadMemoryBare | src/cpu.rs:160-162 | with paging off a load reads the virtual address itself (also lines 292-318) |
| Hart.WriteThenRead | src/cpu.rs:292-347 | with paging off, a successful store to RAM leaves the hart as it was and a load of the same width then reads the stored value narrowed to that width |
| Hart.MemoryReadAnyContext | src/cpu.rs:203-211 | a RAM read gives the same result whatever the access is for (also lines 292-318) |
| Hart.AmoUpdatesWord | src/cpu.rs:656-674 | with paging off, a read-modify-write AMO on RAM gives rd the old word and the word then reads back as the operation applied to it and rs2 |
| Hart.RmwUpdatesWord | src/cpu.rs:656-674 | the same at a given word-aligned address |
| Hart.StoreThenLoad | src/cpu.rs:389-421 | with paging off, a store to RAM followed by a load of the same width at the same address reads back the low 8, 16 or 32 bits of rs2 (also lines 488-515) |
| Hart.NarrowStoreValue | src/cpu.rs:496-511 | the value SB or SH stores already fits its width |
| Hart.JumpEffect | src/cpu.rs:716-741 | a misaligned target fails, records the target and leaves pc and rd alone; an aligned one moves the pc there and links rd to pc + 4 for JAL and JALR (also lines 960-968) |
| Hart.JalrUnimplemented | src/cpu.rs:703-723 | JALR with funct3 other than 0 is unimplemented and changes nothing |
| Hart.JalrLinks | src/cpu.rs:703-723 | JALR is a linking jump to rs1 plus the immediate with bit 0 cleared |
| Hart.ClearBitZeroAlignment | src/cpu.rs:708-716 | clearing bit 0 gives an even target, which is word aligned exactly when bit 1 of the sum is clear |
| Hart.BranchNotTaken | src/cpu.rs:678-702 | a branch not taken changes nothing |
| Hart.BranchJumps | src/cpu.rs:678-702 | a taken branch is a jump without a link to pc plus the immediate |
| Hart.BranchUnimplemented | src/cpu.rs:684-692 | funct3 2 and 3 are no branch: unimplemented, nothing changes |
| Hart.SystemDispatch | src/cpu.rs:747-810 | funct3 1 and 5 are CSRRW/CSRRWI, 2, 3, 6 and 7 the set/clear forms, 0 and 4 the privileged instructions |
| Hart.CsrFailureKeepsState | src/cpu.rs:748-808 | a CSR instruction whose read or write fails changes nothing, rd included |
| Hart.CsrSwapSkipsRead | src/cpu.rs:748-755 | CSRRW and CSRRWI with rd = x0 never read the CSR and succeed exactly when the write does (also lines 778-786) |
| Hart.CsrModifyOnlyReads | src/cpu.rs:756-808 | the set/clear forms with a zero rs1 field only read: the CSRs stay and rd gets the value read |
| Hart.WriteBackEffect | src/cpu.rs:752-754 | a successful CSR write stores the new CSR file and gives rd the old value; a refused one changes nothing |
| Hart.CsrModifyWrites | src/cpu.rs:756-808 | with a nonzero rs1 field they write the old value with the operand's bits set or cleared and give rd the old value |
| Hart.CsrSetOfReadOnlyWithZeroValue | src/cpu.rs:756-766 | CSRRS x1, mhartid, x5 with x5 = 0 in machine mode succeeds as written but is illegal under the Zicsr rule |
| Hart.PrivilegedIllegal | src/cpu.rs:814-822 | MRET outside machine mode, SRET in user mode or under TSR and SFENCE.VMA in supervisor mode under TVM are illegal and change nothing (also lines 856-880) |
| Hart.SfenceEmptiesTlb | src/cpu.rs:814-822 | an allowed SFENCE.VMA empties the TLB and changes nothing else |
| Hart.EcallCauseOfPrivilege | src/cpu.rs:824-835 | ECALL raises the environment call of the current privilege, whose cause code is 8 plus the privilege's encoding |
| Hart.MretReturns | src/cpu.rs:868-880 | MRET in machine mode is illegal under TSR; otherwise it returns to the privilege in MPP at mepc with the stack popped, and a reserved MPP panics (also src/csr.rs:238-253) |
| Hart.ZeroWordIllegal | src/cpu.rs:374-378 | a fetched all-zero word is illegal and is kept as the instruction |
| Hart.FailedFetchKeepsInstruction | src/cpu.rs:374 | a failed fetch leaves the instruction register as it was |
| Hart.TrapValue | src/cpu.rs:916-946 | the unimplemented traps panic; a misaligned jump or page fault passes the recorded address and clears it, and panics with none recorded; an illegal instruction passes the instruction word; others pass 0; only a supervisor external interrupt touches the bus |
| Hart.MisalignedJumpTrapValue | src/cpu.rs:916-930 | a misaligned jump's trap hands the handler the jump target as trap value, at the jump's own pc, and consumes the recorded address (also lines 960-968) |
| PlicDevice.BitOfIrq | src/bus/plic.rs:147-149 | the pending mask of each device source is bit 0, 1, 2 or 10 of the word |
| PlicDevice.PendingBits | src/bus/plic.rs:145-161 | setting or clearing a source's pending bit decides that source, keeps every other source's bit and touches no other register |
| PlicDevice.ScanAsWrittenPicksLast | src/bus/plic.rs:166-197 | with sources 1 and 2 pending and enabled for context 0 at priorities 7 and 3, the search as written delivers source 2 and the intended one source 1 |
| PlicDevice.StepKeepsBest | src/bus/plic.rs:183-193 | one context of one source visited keeps the accumulators the best candidate so far |
| PlicDevice.ScanIsBest | src/bus/plic.rs:166-197 | the intended search over sources 0..n ends with the best candidate among them |
| PlicDevice.SourceKeepsBest | src/bus/plic.rs:171-194 | visiting both contexts of a source keeps the accumulators the best so far |
| PlicDevice.ScanUnfold | src/bus/plic.rs:171-194 | a successful search over sources 0..n is the search over 0..n-1 followed by the two contexts of source n-1 |
| PlicDevice.BestNext | src/bus/plic.rs:171-194 | having visited both contexts of source n-1 is having reached source n |
| PlicDevice.ScanFindsHighest | src/bus/plic.rs:166-197 | the intended search finds nothing when no source is pending, enabled and above its context's threshold; otherwise it finds such a candidate, its context and its priority, and no candidate has a higher priority |
| PlicDevice.FoundIsSource | src/bus/plic.rs:186-191 | a step takes a candidate of higher priority, recording its source number and context, and otherwise keeps the accumulators |
| PlicDevice.ScanCtxFull | src/bus/plic.rs:183-194 | the search after both contexts of source n is the search over sources 0..n+1 |
| PlicDevice.ScanPanicPersists | src/bus/plic.rs:171-194 | a panic part-way through the search (a source number with no device) is the search's outcome |
| PlicDevice.RaiseResult | src/bus/plic.rs:199-219 | with no candidate nothing is raised and nothing changes; a raised source is recorded with its context, and context 0 interrupts machine mode, context 1 supervisor mode |
| PlicDevice.ClaimResult | src/bus/plic.rs:60-71 | a claim reads 0 with nothing delivered; otherwise it reads the delivered source's number and clears its pending bit, keeping it delivered (also lines 221-228) |
| PlicDevice.CompleteResult | src/bus/plic.rs:114-131 | completing the delivered source ends the delivery and clears mip.MEIP (context 0) or mip.SEIP (context 1); completing any other number changes nothing |
| PlicDevice.RegisterAccess | src/bus/plic.rs:41-52 | priority, enable and threshold writes store the value in the slot the offset names and change nothing else; enable and threshold reads return that slot (also lines 88-104, 133-135) |
| PlicDevice.OutOfRangePanics | src/bus/plic.rs:35-141 | a priority past source 31, an enable word past the first, a context past 1 and a priority read all panic |
| PlicDevice.OnlyWordAccess | src/bus/plic.rs:36-38 | every access of a size other than 4 panics (also lines 83-85) |
| PlicDevice.Plic.constructor | src/bus/plic.rs:22-31 | a new controller has every register zero and nothing delivered |
| PlicDevice.Plic.SetPendingIrq | src/bus/plic.rs:145-152 | sets the source's pending bit in place, as `SetPending` gives |
| PlicDevice.Plic.UnsetPendingIrq | src/bus/plic.rs:154-161 | clears the source's pending bit in place, as `UnsetPending` gives |
| PlicDevice.Plic.FindInterruptActive | src/bus/plic.rs:166-197 | the nested loop over sources and contexts returns exactly what the intended search `Scan` gives |
| PlicDevice.Plic.RaiseInterrupt | src/bus/plic.rs:199-219 | records the found source and context in place and returns the privilege to interrupt, as `Raise` of the search gives |
| PlicDevice.Plic.LowerInterrupt | src/bus/plic.rs:221-228 | returns the delivered source and clears its pending bit in place, panicking with nothing delivered, as `Lower` gives |
| PlicDevice.Plic.Read | src/bus/plic.rs:35-79 | returns the value and leaves the state `ReadSpec` gives |
| PlicDevice.Plic.Write | src/bus/plic.rs:82-141 | returns the CSRs and leaves the state `WriteSpec` gives |
| UartDevice.DlabIsBit7 | src/bus/uart.rs:267-270 | `lcr >> 7 == 1` is testing bit 7 of LCR |
| UartDevice.ToggledIff | src/bus/uart.rs:154-157 | the IER write counts ETBEI as changed exactly when the old and new values disagree on that bit |
| UartDevice.DrBit | src/bus/uart.rs:65 | setting DR sets it, clearing DR clears it, and the LSR value a lowered interrupt leaves has DR clear (also lines 275, 290) |
| UartDevice.IirIds | src/bus/uart.rs:13-16 | the transmitter identification matches the IIR_ID test, the received-data and no-interrupt ones do not (also line 89) |
| UartDevice.RaiseInt | src/bus/uart.rs:279-284 | raising sets the interrupting flag, clears the taken flag and stores the identification, and changes nothing else |
| UartDevice.LowerInt | src/bus/uart.rs:286-291 | lowering clears the interrupting flag, sets IIR to no-interrupt and LSR to THRE and TEMT, and changes nothing else |
| UartDevice.PushCharEffect | src/bus/uart.rs:272-277 | push_char stores the character's low byte in RBR, sets DR and raises a received-data interrupt, after which the device is not ready for another; nothing else changes |
| UartDevice.ByteAccessOnly | src/bus/uart.rs:49-53 | only one-byte accesses are implemented, nothing fails, and only the low eight bits of the offset select the register (also lines 115-120) |
| UartDevice.ResponseReportsInterrupt | src/bus/uart.rs:101-104 | every access reports whether the device is interrupting after it (also lines 173-176) |
| UartDevice.DivisorLatch | src/bus/uart.rs:56-82 | with DLAB set, offsets 0 and 1 read and write DLL and DLM and nothing else changes; with it clear offset 1 reads IER (also lines 123-152) |
| UartDevice.ReadRbr | src/bus/uart.rs:60-72 | reading RBR returns the held byte, leaves RBR zero and DR clear and lowers a raised interrupt; a quiet device keeps IIR |
| UartDevice.ReadIir | src/bus/uart.rs:83-95 | reading IIR returns it and lowers the interrupt exactly when it was taken and identifies the transmitter |
| UartDevice.WriteThr | src/bus/uart.rs:127-146 | a THR write sends the low byte and raises a transmitter interrupt exactly when ETBEI is enabled |
| UartDevice.WriteIer | src/bus/uart.rs:152-164 | an IER write stores the value; turning ETBEI on raises a transmitter interrupt, turning it off lowers the interrupt, leaving it changes nothing else |
| UartDevice.WriteOthers | src/bus/uart.rs:166-170 | offset 3 writes LCR; offsets 2, 4 and above 5 ignore writes |
| UartDevice.TickDelivers | src/bus/uart.rs:191-208 | a tick delivers a character exactly when the buffer, with the host's character added, is non-empty and the device is ready; it delivers the oldest and keeps the rest in order; otherwise it only buffers |
| UartDevice.TickAsWrittenReverses | src/bus/uart.rs:196-200 | with "ab" buffered, the tick as written moves 'b' into RBR first, the arrival-order tick 'a' |
| UartDevice.TickKeepsCharacters | src/bus/uart.rs:191-208 | no character is lost: the buffered ones plus the host's are the ones still buffered plus the one delivered |
| UartDevice.Uart.constructor | src/bus/uart.rs:229-247 | a new port has LSR THRE and TEMT, IIR no-interrupt, every other register zero and empty buffers |
| UartDevice.Uart.Irq | src/bus/uart.rs:179-182 | the port interrupts as PLIC source 10 |
| UartDevice.Uart.TakeInterrupt | src/bus/uart.rs:184-187 | only the taken flag is set |
| UartDevice.Uart.RaiseInterrupt | src/bus/uart.rs:279-284 | the state becomes `RaiseInt` of the old one |
| UartDevice.Uart.LowerInterrupt | src/bus/uart.rs:286-291 | the state becomes `LowerInt` of the old one |
| UartDevice.Uart.PushCharIn | src/bus/uart.rs:272-277 | the state becomes `PushChar` of the old one |
| UartDevice.Uart.Read | src/bus/uart.rs:43-105 | the response and new state are those `ReadSpec` gives; a panic changes nothing |
| UartDevice.Uart.ReadReceiver | src/bus/uart.rs:60-72 | the RBR read returns and leaves what `ReadRegister` at offset 0 gives |
| UartDevice.Uart.ReadInterruptId | src/bus/uart.rs:83-95 | the IIR read returns and leaves what `ReadRegister` at offset 2 gives |
| UartDevice.Uart.Write | src/bus/uart.rs:108-177 | the response and new state are those `WriteSpec` gives; a panic changes nothing |
| UartDevice.Uart.WriteTransmitter | src/bus/uart.rs:127-146 | the THR write leaves what `WriteState` at offset 0 gives |
| UartDevice.Uart.WriteInterruptEnable | src/bus/uart.rs:152-164 | the IER write leaves what `WriteState` at offset 1 gives |
| UartDevice.Uart.TickOnce | src/bus/uart.rs:191-208 | the tick returns and leaves what the arrival-order `Tick` gives |
| UartDevice.TickAsWrittenDeliversLast | src/bus/uart.rs:191-208 | as written, a tick moves a character exactly when the buffer, with the host's character added, is non-empty and the device is ready, and it delivers the last one pushed into RBR; otherwise only the host's character is buffered |
| VirtioTransport.DeviceId | src/bus/virtio_mmio.rs:19-23 | the device ID register reads 1 exactly for a network device and 16 exactly for a GPU |
| VirtioTransport.New | src/bus/virtio_mmio.rs:79-108 | a new transport has status 0 and one slot per queue in each per-queue vector, every queue not ready, of size 0 and at address 0 |
| VirtioTransport.ReadRegisters | src/bus/virtio_mmio.rs:111-140 | magic, version, device ID, the selected feature word, the maximum queue size, the selected queue's ready flag and the status read as stored; any other size or an offset with no register panics; no read reports an interrupt |
| VirtioTransport.DriverFeatures | src/bus/virtio_mmio.rs:150-156 | a driver-features word that differs from the device's sets FAILED and records nothing; an equal one is recorded |
| VirtioTransport.QueueRegisters | src/bus/virtio_mmio.rs:158-205 | the queue registers change only the selected queue's slot: size, ready (0 or 1 only, anything else panics) and the low words of the three ring addresses; the high words accept only 0 |
| VirtioTransport.StatusWrite | src/bus/virtio_mmio.rs:181-184 | only status values 1, 3, 0xb and 0xf are stored; any other panics |
| VirtioTransport.WriteKeepsValid | src/bus/virtio_mmio.rs:143-214 | a write keeps one slot per queue in every vector and either succeeds or panics, never trapping |
| VirtioTransport.IsReady | src/bus/virtio_mmio.rs:270-272 | the ready flag is available exactly for a queue the transport has |
| VirtioTransport.DescAddr | src/bus/virtio_mmio.rs:220-222 | the descriptor table address is available exactly for a queue the transport has |
| VirtioTransport.DriverAddr | src/bus/virtio_mmio.rs:224-226 | the driver ring address is available exactly for a queue the transport has |
| VirtioTransport.DeviceAddr | src/bus/virtio_mmio.rs:228-230 | the device ring address is available exactly for a queue the transport has |
| VirtioTransport.QueueSetup | src/bus/virtio_mmio.rs:158-205 | selecting queue q, writing its three ring addresses and then QueueReady 1 makes q ready with exactly those addresses and leaves every other queue as it was |
| VirtioTransport.SetupSteps | src/bus/virtio_mmio.rs:158-205 | the five writes of a queue set-up leave the selector, the three addresses and the ready flag of q set and nothing else changed |
| VirtioTransport.FailedBit | src/bus/virtio_mmio.rs:216-218 | set_failed sets status bit 7 and keeps every other status bit that was set |
| VirtioTransport.KeepsBits | src/bus/virtio_mmio.rs:217 | or-ing bits into the status keeps any bit that was set |
| VirtioTransport.DescFlags | src/bus/virtio_mmio.rs:275-287 | NEXT, WRITE and INDIRECT are flag bits 0, 1 and 2 |
| VirtioTransport.DescOffsetsDisjoint | src/bus/virtio_mmio.rs:289-291 | descriptors of a table, 16 bytes each, do not overlap |
| VirtioTransport.ViewOfOverwrite | src/bus/virtio_mmio.rs:249-260 | bytes written inside a view of guest memory are seen through that view |
| VirtioTransport.UsedElemRoundTrip | src/bus/virtio_mmio.rs:63-76 | a used element reads back as written |
| VirtioTransport.SetUsedElemView | src/bus/virtio_mmio.rs:63-76 | after writing a used element the device view is in RAM and holds that element's id and len |
| VirtioTransport.SetUsedElemWrites | src/bus/virtio_mmio.rs:249-260 | where writing a used element succeeds the view lies in RAM and the element's bytes are written at its offset 4 + 8k |
| VirtioTransport.ElemReadsBack | src/bus/virtio_mmio.rs:71-76 | an element written at an offset of a view reads back id then len from it |
| VirtioTransport.DeviceIdxRoundTrip | src/bus/virtio_mmio.rs:63-69 | the used index reads back as written |
| VirtioTransport.SetDeviceIdxWrites | src/bus/virtio_mmio.rs:249-260 | where writing the used index succeeds the view lies in RAM and the index's bytes are written at its byte 2 |
| VirtioTransport.DeviceIdxReads | src/bus/virtio_mmio.rs:63-69 | a device view in RAM yields its index from bytes 2 and 3 |
| VirtioTransport.IdxReadsBack | src/bus/virtio_mmio.rs:63-69 | an index written at byte 2 of a view reads back from it |
| VirtioTransport.ViewOutsideOverwrite | src/bus/virtio_mmio.rs:249-260 | a write inside a view leaves the view's other bytes as they were |
| VirtioTransport.SetUsedElemKeepsIdx | src/bus/virtio_mmio.rs:63-76 | writing a used element leaves the used index alone |
| VirtioTransport.IdxOutsideElem | src/bus/virtio_mmio.rs:63-76 | bytes written at or after byte 4 of a view leave its index alone |
| VirtioTransport.SetDeviceIdxKeepsElem | src/bus/virtio_mmio.rs:63-76 | writing the used index leaves every used element alone |
| VirtioTransport.ElemOutsideIdx | src/bus/virtio_mmio.rs:63-76 | the index bytes of a view lie outside every used element |
| VirtioTransport.UsedElemReads | src/bus/virtio_mmio.rs:63-76 | a device view in RAM yields used element k from bytes 4 + 8k onwards |
| VirtioTransport.PushUsedIdx | src/bus/virtio_mmio.rs:63-69 | after a buffer is returned the used index is one higher, wrapping at 2^16 |
| VirtioTransport.PushUsedView | src/bus/virtio_mmio.rs:249-260 | a buffer can be returned only when the whole device view lies in RAM |
| VirtioTransport.SetUsedElemElsewhere | src/bus/virtio_mmio.rs:249-260 | writing a used element changes no byte outside the device view |
| VirtioTransport.SetDeviceIdxElsewhere | src/bus/virtio_mmio.rs:249-260 | writing the used index changes no byte outside the device view |
| VirtioTransport.PushUsedElsewhere | src/bus/virtio_mmio.rs:249-260 | returning a buffer changes no byte outside the device view |
| VirtioTransport.PushUsedElem | src/bus/virtio_mmio.rs:63-76 | after a buffer is returned its element reads back |
| VirtioTransport.VirtioMmio.constructor | src/bus/virtio_mmio.rs:79-108 | the new register file is the state `New` gives |
| VirtioTransport.VirtioMmio.Read | src/bus/virtio_mmio.rs:111-140 | a read returns what `ReadSpec` gives and changes nothing |
| VirtioTransport.VirtioMmio.SetFailedBit | src/bus/virtio_mmio.rs:216-218 | the state becomes `SetFailed` of the old one |
| VirtioTransport.VirtioMmio.Write | src/bus/virtio_mmio.rs:143-214 | a write succeeds exactly when `WriteSpec` does, reports no interrupt and leaves the state it gives |
| VirtioTransport.VirtioMmio.WriteControlRegister | src/bus/virtio_mmio.rs:149-157 | the selector, acknowledgement, status, high address word and shared-memory selector arms succeed and leave the state as `WriteControl` gives (also lines 176-184, 184-206) |
| VirtioTransport.VirtioMmio.WriteSelectorRegister | src/bus/virtio_mmio.rs:149 | the selector arms leave the state `WriteSelector` gives (also lines 157, 158) |
| VirtioTransport.VirtioMmio.WriteQueueRegister | src/bus/virtio_mmio.rs:159-175 | the queue size and ready arms change only the selected queue's slot, as `WriteQueue` gives |
| VirtioTransport.VirtioMmio.WriteAddressRegister | src/bus/virtio_mmio.rs:185 | the low address arms store the value in the selected queue's slot, as `WriteAddress` gives (also lines 192, 199) |
| VirtioTransport.VirtioMmio.WriteDriverFeaturesRegister | src/bus/virtio_mmio.rs:150-156 | the driver-features arm leaves the state `WriteDriverFeatures` gives |
| VirtioNetDevice.InitialRegs | src/bus/virtio_net.rs:170-181 | a new network device has two queues, neither ready, status 0 and the network device type |
| VirtioNetDevice.Header | src/bus/virtio_net.rs:33-43 | the packet header is 12 bytes |
| VirtioNetDevice.HeaderLayout | src/bus/virtio_net.rs:117-118 | the header written before a received packet has `num_buffers` at byte 10 and zeros before it |
| VirtioNetDevice.ConfigRead | src/bus/virtio_net.rs:47-68 | offsets below 0x100 read the transport; the configuration space holds the MAC address 02:00:00:01:02:03 one byte at a time, and a wider access or a byte past it panics |
| VirtioNetDevice.FillBuffer | src/bus/virtio_net.rs:140-151 | a packet is written exactly when it and its header fit the descriptor's length and the buffer lies in RAM, and then the buffer holds the header followed by the packet |
| VirtioNetDevice.DeliverSteps | src/bus/virtio_net.rs:140-157 | a delivery fills the buffer, then returns it on the used ring, and advances the last index by one (wrapping) |
| VirtioNetDevice.DeliverEffect | src/bus/virtio_net.rs:153-154 | after a delivery the used element of the slot holds the descriptor and the packet's length with its header, and the RAM keeps its size |
| VirtioNetDevice.DeliverPacket | src/bus/virtio_net.rs:150-151 | when the buffer lies outside the used ring, it holds the header and the packet after a delivery |
| VirtioNetDevice.FillBufferKeepsIdx | src/bus/virtio_net.rs:150-151 | filling a buffer outside the used ring leaves the used index alone |
| VirtioNetDevice.DeliverUsed | src/bus/virtio_net.rs:156 | when the buffer lies outside the used ring, a delivery raises the used index by one (wrapping) |
| VirtioNetDevice.TickIdle | src/bus/virtio_net.rs:109-112 | without a ready receive queue or a waiting packet a tick changes nothing and raises no interrupt |
| VirtioNetDevice.TickTakes | src/bus/virtio_net.rs:114-165 | a tick with a ready queue and a waiting packet takes that packet; it interrupts exactly when the driver has offered a buffer not yet used, and then advances the last index by one; otherwise RAM and indexes stay as they were |
| VirtioNetDevice.NotifyBatch | src/bus/virtio_net.rs:192-214 | a transmit batch covers the driver's new slots, read through the queue's registered ring addresses |
| VirtioNetDevice.TransmitSlotPushes | src/bus/virtio_net.rs:240-242 | a transmitted slot's memory is the used ring with that slot's descriptor pushed with length 0 |
| VirtioNetDevice.TransmitSlotEffect | src/bus/virtio_net.rs:216-242 | a transmitted slot sends the buffer's bytes after the header, and the used element of the slot holds the descriptor and length 0 |
| VirtioNetDevice.TransmitSlotUsed | src/bus/virtio_net.rs:242 | one transmitted slot raises the used index by one (wrapping) |
| VirtioNetDevice.TransmitFromSent | src/bus/virtio_net.rs:216-243 | a transmit batch sends one packet per slot, after those sent before, and keeps the RAM's size |
| VirtioNetDevice.TransmitFromUsed | src/bus/virtio_net.rs:216-243 | a transmit batch raises the used index by the number of slots (wrapping) |
| VirtioNetDevice.NotifyRecv | src/bus/virtio_net.rs:200-203 | a notify on the receive queue changes nothing and raises no interrupt |
| VirtioNetDevice.NotifyOther | src/bus/virtio_net.rs:249 | a notify naming a queue the device does not have never succeeds |
| VirtioNetDevice.NotifyBatchTransmit | src/bus/virtio_net.rs:204-214 | a transmit notify has nothing to send exactly when the driver index equals the last one seen, and otherwise reads its batch through the queue's registered areas |
| VirtioNetDevice.NotifyTransmit | src/bus/virtio_net.rs:204-247 | a transmit notify interrupts exactly when there were new slots, sends one packet per slot after those sent before, and records the driver index as the last one seen |
| VirtioNetDevice.NotifyTransmitUsed | src/bus/virtio_net.rs:242-245 | a transmit notify raises the used index by the number of slots sent (wrapping) |
| VirtioNetDevice.Fresh | src/bus/virtio_net.rs:183-188 | a reset makes a fresh transport and zero last indexes and keeps the channels |
| VirtioNetDevice.ResetOnStatusZero | src/bus/virtio_net.rs:87-90 | writing 0 to the status register resets the device, leaves RAM alone and raises no interrupt |
| VirtioNetDevice.TransportWrite | src/bus/virtio_net.rs:94-96 | a write to any other transport register succeeds exactly when the transport's write does and leaves the device's own state and RAM alone |
| VirtioNetDevice.VirtioNet.constructor | src/bus/virtio_net.rs:170-181 | the new device is `Fresh` with the given input channel and nothing sent |
| VirtioNetDevice.VirtioNet.Reset | src/bus/virtio_net.rs:183-188 | the device becomes `Fresh` of its old channels |
| VirtioNetDevice.VirtioNet.Read | src/bus/virtio_net.rs:47-68 | a read returns what `NetRead` gives and changes nothing |
| VirtioNetDevice.VirtioNet.Write | src/bus/virtio_net.rs:71-103 | a write answers as `NetWrite` of the old device and RAM, and on success leaves the device and RAM it gives |
| VirtioNetDevice.VirtioNet.HandleNotify | src/bus/virtio_net.rs:192-253 | a notify answers as `NotifySpec` and on success leaves the device and RAM it gives |
| VirtioNetDevice.VirtioNet.TransmitBatch | src/bus/virtio_net.rs:216-243 | the transmit loop answers as `TransmitFrom` and on success leaves the packets sent and the RAM it gives |
| VirtioNetDevice.VirtioNet.Tick | src/bus/virtio_net.rs:109-166 | a tick answers as `TickSpec` and on success leaves the device and RAM it gives |
| VirtioGpuDevice.InitialRegs | src/bus/virtio_gpu.rs:281-291 | a new GPU has two queues, neither ready, status 0 and the GPU device type |
| VirtioGpuDevice.SupportedRectSize | src/bus/virtio_gpu.rs:573-577 | the supported 800×600 rectangle holds 1,920,000 bytes, exactly 480,000 four-byte pixels |
| VirtioGpuDevice.PixelChannels | src/bus/virtio_gpu.rs:270-276 | a pixel word keeps blue, green and red in bytes 0, 1 and 2 and has a zero top byte |
| VirtioGpuDevice.Pixels | src/bus/virtio_gpu.rs:268-277 | one pixel per whole four-byte chunk; a trailing partial chunk is dropped |
| VirtioGpuDevice.PixelsAt | src/bus/virtio_gpu.rs:268-277 | pixel i comes from bytes 4i, 4i+1 and 4i+2 as blue, green and red; the fourth byte is ignored |
| VirtioGpuDevice.FormatArray | src/bus/virtio_gpu.rs:263-278 | only format 2 converts, into one pixel per four bytes; any other format is unimplemented |
| VirtioGpuDevice.CtrlTypeFrom | src/bus/virtio_gpu.rs:543-560 | the corrected decoding never fails silently: a code is decoded or panics |
| VirtioGpuDevice.CtrlTypeRoundTrip | src/bus/virtio_gpu.rs:64-74 | every control type decodes from its own code, and whatever decodes has the code it came from |
| VirtioGpuDevice.CtrlTypeFromAsWrittenMisreads | src/bus/virtio_gpu.rs:553 | as written, code 0x1101 (RespOkDisplayInfo) decodes as CmdGetDisplayInfo; every other code decodes as in the corrected version |
| VirtioGpuDevice.CtrlHeader | src/bus/virtio_gpu.rs:579-590 | a control header is 24 bytes |
| VirtioGpuDevice.CtrlHeaderLayout | src/bus/virtio_gpu.rs:579-590 | a header carries its type's code in its first word and zeros after it |
| VirtioGpuDevice.RectRoundTrip | src/bus/virtio_gpu.rs:87-94 | a rectangle's 16 bytes decode back to it |
| VirtioGpuDevice.DisplayInfoResponse | src/bus/virtio_gpu.rs:605-620 | the display-info response is 408 bytes |
| VirtioGpuDevice.DisplayInfoLayout | src/bus/virtio_gpu.rs:605-620 | the display-info response announces RespOkDisplayInfo, the one enabled 800×600 mode, and zeros for every other mode |
| VirtioGpuDevice.WriteOkNodata | src/bus/virtio_gpu.rs:245-259 | the no-data response is written exactly when the descriptor holds 24 bytes and lies in RAM; a shorter descriptor is unimplemented |
| VirtioGpuDevice.OkNodataReadsBack | src/bus/virtio_gpu.rs:245-259 | after a no-data response the descriptor's first 24 bytes read as a RespOkNodata header |
| VirtioGpuDevice.PushEntriesAppends | src/bus/virtio_gpu.rs:404-411 | attaching appends exactly one entry per iteration after the ones the resource had and keeps its format and size |
| VirtioGpuDevice.PushEntriesRead | src/bus/virtio_gpu.rs:404-411 | the appended entries are the ones read from the array, in order |
| VirtioGpuDevice.CopyEntries | src/bus/virtio_gpu.rs:463-478 | the copy keeps the buffer's length and never copies past its end |
| VirtioGpuDevice.CopyEntriesOk | src/bus/virtio_gpu.rs:465-467 | the copy succeeds exactly when every backing entry lies in RAM |
| VirtioGpuDevice.CopyEntriesGathers | src/bus/virtio_gpu.rs:465-478 | a copy fills the buffer from the copied count on with the entries' bytes in order, as many as fit, and leaves the rest alone |
| VirtioGpuDevice.GetDisplayInfo | src/bus/virtio_gpu.rs:340-359 | a display-info request changes no device state |
| VirtioGpuDevice.ResourceCreate2D | src/bus/virtio_gpu.rs:360-381 | creating a resource keeps the last indexes and sends nothing |
| VirtioGpuDevice.AttachBacking | src/bus/virtio_gpu.rs:382-414 | attaching backing keeps the last indexes and sends nothing |
| VirtioGpuDevice.AttachTo | src/bus/virtio_gpu.rs:399-413 | attaching changes only the resources |
| VirtioGpuDevice.SetScanout | src/bus/virtio_gpu.rs:415-442 | setting a scanout keeps the resources and the last indexes and sends at most one message |
| VirtioGpuDevice.TransferToHost2D | src/bus/virtio_gpu.rs:443-492 | a transfer keeps the resources and the last indexes and sends at most one message |
| VirtioGpuDevice.TransferFrom | src/bus/virtio_gpu.rs:457-491 | after the command is read, a transfer sends exactly one message after those sent before and changes nothing else |
| VirtioGpuDevice.ResourceFlush | src/bus/virtio_gpu.rs:493-517 | a flush keeps the resources and the last indexes and sends at most one message |
| VirtioGpuDevice.Dispatch | src/bus/virtio_gpu.rs:339-519 | any command keeps the last indexes and sends at most one message |
| VirtioGpuDevice.CommandSpec | src/bus/virtio_gpu.rs:320-337 | a command read from its chained descriptors keeps the last indexes and sends at most one message |
| VirtioGpuDevice.DisplayInfoWrites | src/bus/virtio_gpu.rs:340-359 | a display-info request writes the 408-byte response and reports that length; a shorter response descriptor is unimplemented |
| VirtioGpuDevice.CreateInserts | src/bus/virtio_gpu.rs:360-381 | a format other than 2 is unimplemented; a created resource is inserted under its id with its format and size and no entries, and a no-data response is written |
| VirtioGpuDevice.AttachAppends | src/bus/virtio_gpu.rs:382-414 | attaching appends the entries read to the named resource, keeps every other resource, the scanouts and the messages, and answers with a no-data response |
| VirtioGpuDevice.ReplaceResource | src/bus/virtio_gpu.rs:399-410 | updating one resource keeps the ids and every other resource |
| VirtioGpuDevice.AttachUnknown | src/bus/virtio_gpu.rs:399-402 | backing cannot be attached to a resource never created |
| VirtioGpuDevice.ScanoutBinds | src/bus/virtio_gpu.rs:415-442 | resource 0 sends a disable message; any other resource binds the rectangle and resource to the scanout, and an index past the one scanout panics |
| VirtioGpuDevice.FlushSends | src/bus/virtio_gpu.rs:493-517 | a flush of the supported rectangle sends one flush message naming the resource; any other rectangle is unimplemented |
| VirtioGpuDevice.FrameHolds | src/bus/virtio_gpu.rs:457-478 | the frame holds the backing bytes gathered in order, cut at its size, followed by zeros |
| VirtioGpuDevice.TransferSends | src/bus/virtio_gpu.rs:443-492 | a transfer of the supported rectangle sends one copy message with the frame's pixels after the ones before, writes a no-data response, and changes nothing else |
| VirtioGpuDevice.NotifySlot | src/bus/virtio_gpu.rs:320-523 | one slot keeps the last indexes and sends at most one message |
| VirtioGpuDevice.NotifyFrom | src/bus/virtio_gpu.rs:319-524 | a batch of slots keeps the last indexes |
| VirtioGpuDevice.NotifyBatch | src/bus/virtio_gpu.rs:299-317 | a batch exists only for the control queue and starts at the last index seen |
| VirtioGpuDevice.NotifySlotUsed | src/bus/virtio_gpu.rs:521-523 | after a slot the used element holds the command's descriptor and the response length, and the used index is one higher (wrapping) |
| VirtioGpuDevice.NotifyFromSent | src/bus/virtio_gpu.rs:319-524 | a batch sends at most one message per slot, after those sent before |
| VirtioGpuDevice.NotifyOther | src/bus/virtio_gpu.rs:300-302 | a notify on any queue but the control queue is unimplemented |
| VirtioGpuDevice.NotifyIdle | src/bus/virtio_gpu.rs:304-310 | a notify whose driver index is still the last one seen changes nothing and raises no interrupt |
| VirtioGpuDevice.NotifyBatchControl | src/bus/virtio_gpu.rs:304-317 | a control notify has nothing to do exactly when the driver index equals the last one seen, and otherwise reads its batch through the queue's registered areas |
| VirtioGpuDevice.NotifyProcesses | src/bus/virtio_gpu.rs:299-529 | a control notify interrupts exactly when there were new slots, records the driver index as the last one seen, and sends at most one message per slot after those sent before |
| VirtioGpuDevice.Fresh | src/bus/virtio_gpu.rs:281-297 | a reset makes a fresh transport, zero last indexes, no resources and one empty scanout, and keeps the channel |
| VirtioGpuDevice.ConfigRead | src/bus/virtio_gpu.rs:166-200 | only four-byte reads are implemented; the configuration space reads one scanout and no capability sets, and any other configuration offset panics |
| VirtioGpuDevice.TransportRead | src/bus/virtio_gpu.rs:181-184 | below the configuration space, outside the shared-memory registers, the transport answers |
| VirtioGpuDevice.ShmRead | src/bus/virtio_gpu.rs:177-180 | the two shared-memory regions are 2 MiB each at 0x1001_0000 and 0x1003_0000, with zero high words; a selector past them panics |
| VirtioGpuDevice.ResetOnStatusZero | src/bus/virtio_gpu.rs:222-225 | writing 0 to the status register resets the device, leaves RAM alone and raises no interrupt |
| VirtioGpuDevice.TransportWrite | src/bus/virtio_gpu.rs:209-232 | only four-byte writes are implemented; a write to any other transport register succeeds exactly when the transport's write does and leaves the device's own state and RAM alone |
| VirtioGpuDevice.VirtioGpu.constructor | src/bus/virtio_gpu.rs:281-291 | the new device is `Fresh` with nothing sent |
| VirtioGpuDevice.VirtioGpu.Reset | src/bus/virtio_gpu.rs:293-297 | the device becomes `Fresh` of its old channel |
| VirtioGpuDevice.VirtioGpu.Read | src/bus/virtio_gpu.rs:166-200 | a read returns what `GpuRead` gives and changes nothing |
| VirtioGpuDevice.VirtioGpu.Write | src/bus/virtio_gpu.rs:202-238 | a write answers as `GpuWrite` of the old device and RAM, and on success leaves the device and RAM it gives |
| VirtioGpuDevice.VirtioGpu.HandleNotify | src/bus/virtio_gpu.rs:299-529 | a notify answers as `NotifySpec` and on success leaves the device and RAM it gives |
| VirtioGpuDevice.VirtioGpu.ProcessBatch | src/bus/virtio_gpu.rs:319-524 | the slot loop answers as `NotifyFrom` and on success leaves the device and RAM it gives |
| VirtioGpuDevice.VirtioGpu.Command | src/bus/virtio_gpu.rs:320-519 | one command returns the length `CommandSpec` reports and leaves the device and RAM it gives |
| VirtioGpuDevice.VirtioGpu.DispatchCommand | src/bus/virtio_gpu.rs:339-519 | the dispatch returns the length `Dispatch` reports and leaves the device and RAM it gives |
| VirtioGpuDevice.VirtioGpu.AttachBackingCommand | src/bus/virtio_gpu.rs:382-414 | the attach command returns what `AttachBacking` reports and leaves the state it gives |
| VirtioGpuDevice.VirtioGpu.AttachEntries | src/bus/virtio_gpu.rs:399-413 | the attach loop returns what `AttachTo` reports and leaves the state it gives |
| VirtioGpuDevice.VirtioGpu.TransferCommand | src/bus/virtio_gpu.rs:443-492 | the transfer command returns what `TransferToHost2D` reports and leaves the state it gives |
| VirtioGpuDevice.VirtioGpu.TransferFrame | src/bus/virtio_gpu.rs:457-491 | the transfer loop returns what `TransferFrom` reports and leaves the state it gives |
| VirtioGpuDevice.CopyBacking | src/bus/virtio_gpu.rs:457-478 | the copy into a zeroed frame returns the frame `CopyEntries` gives |
| VirtioGpuDevice.CopyInto | src/bus/virtio_gpu.rs:475-476 | the array afterwards is the old one with the part placed at the offset |
| Simulator.InterruptBeforeStep | src/simulator.rs:178-185 | the devices tick first; a pending local interrupt is handed to the trap handler before the instruction, which then runs at the handler's pc, privilege and CSRs; with none pending it sees the ticked state |
| Simulator.RetiresExactlyOnOk | src/simulator.rs:185-196 | an instruction retires exactly when `step` returns Ok: instret advances by one and the pc by four unless it jumped; a trap hands over to the trap handler instead; a panic halts the simulator |
| Simulator.RetireEffect | src/simulator.rs:189-195 | retiring advances instret by one and, unless the instruction jumped, the pc by four, and changes nothing else |
| Simulator.ClockAdvancesEveryStep | src/simulator.rs:198-199 | every pass that does not panic advances the cycle counter and the 64-bit time counter by one, whatever the instruction did, and changes nothing else |
| Simulator.Simulator.constructor | src/simulator.rs:49-56 | a new simulator holds a hart at reset and the default bus |
| Simulator.Simulator.SetEntryPoint | src/simulator.rs:143-146 | execution starts at the entry point; nothing else changes |
| Simulator.Simulator.Step | src/simulator.rs:178-200 | one pass of the run loop leaves the hart and bus `SimStep` gives, and halts exactly where it panics |
| Simulator.Simulator.Execute | src/simulator.rs:179-196 | the pass up to the counters leaves the state `Executed` gives |
| Simulator.Simulator.Resolve | src/simulator.rs:185-196 | the instruction and its trap or retirement leave the state `Resolved` gives |
| Simulator.Simulator.RetireInstruction | src/simulator.rs:189-195 | the hart becomes `Retire` of the old one and the bus is unchanged |
| Simulator.Simulator.TakeInterrupt | src/simulator.rs:181-183 | a pending local interrupt is handed to the trap handler; with none, nothing changes |

## Left out

- `Hart.Cpu.Step` and the other hart methods take the bus as a `BusState` value and return it updated, instead of holding a `&mut Bus`. Aliasing between the hart and the bus objects is therefore not modelled.
- `Hart.Hooks`: `is_svadu_enabled`, `handle_sret`, `Csr::handle_trap`, `resolve_pending` and `Bus::prepare_interrupt` are not defined in the csr.rs and bus.rs of this snapshot. They are parameters of the hart model, so `handle_trap` on a supervisor external interrupt calls `prepare_external_interrupt` (src/cpu.rs:931-934, 948-951) through the `prepare` parameter.
- `Simulator.Tick`: `Bus::tick` is not defined in src/bus.rs. The simulator takes it as a parameter that may change the bus and the CSRs.
- `SystemBus.Bus.Tick` gives the bus one tick of its own: one character offered to the UART.
- The bus of src/bus.rs routes only the CLINT, PLIC, UART and RAM. src/simulator.rs builds a bus with the virtio devices as `BusDevice`s; that bus is not part of this model. The virtio devices are modelled on their own, each given the RAM it reads and writes.
- `CsrFile.Csr` is a datatype value held in a field of the hart, not an object. `CsrFile.Write` and `CsrFile.HandleMret` are pure functions returning the new register file, not in-place updates.
- Fixed-width arithmetic wraps, as in a release build; a debug build panics on overflow instead. This covers:
  - `pc + 4` (src/cpu.rs:720, 738, 985-988);
  - the PTE address and `satp.ppn * PAGESIZE` in `translate_va`;
  - `p_paddr - base` in the ELF loader (src/memory.rs:135).
- Several CSR accessors the hart calls are not defined in src/csr.rs, and the model supplies them with the RISC-V bit positions. These are `IsPagingEnabled`, `SatpPpn`, `IsMprv`, `IsSum`, `IsTvm`, `IsTw`, `IsTsr`, `WithMipBit`, `ProgressCycle`, `ProgressInstret`, `ProgressTime` and `SetMtimecmp`.
- mstatus.MXR is not read by the walk, as in the source.
- `raw_ptr`, `raw_mut_ptr` and `view_as` are not defined in src/memory.rs. The virtio devices' reads and writes of guest RAM are modelled as bounds-checked byte ranges decoded and encoded little-endian. An access outside RAM panics. The pointer casts (`transmute`) of the source are not modelled.
- `Ram.Memory`: the bus hands RAM the offset `addr - 0x8000_0000`, and `Memory::read`/`write` compare it against RAM's own base again (src/memory.rs:38-67). The model keeps both steps as written.
- Logging (`eprintln!`), `Display` and the wasm entry points are not modelled.
- Host channels (`Sender`/`Receiver`) are not modelled as channels:
  - packets and characters received from the host are a sequence consumed in order;
  - those sent are a sequence appended to;
  - a `send(..).unwrap()` or `try_recv` failure is not modelled.
- Host-device threads, src/lib.rs set-up and the device construction of src/simulator.rs:58-176 are not modelled.
- `Hart.StepSpec`, `Hart.ExecuteSpec`, `Hart.HandleTrapSpec` and the other `...Spec` functions of cpu.dfy state in their own `ensures` only that the bus stays well formed. Their behaviour is stated by the lemmas in the Model table and by the `Hart.Cpu` methods proved equal to them.
- `PlicDevice.SetPending`, `UnsetPending`, `Raise`, `Lower`, `Claim`, `ContextRead`, `ReadSpec`, `PriorityWrite`, `EnableWrite`, `Complete`, `ContextWrite` and `WriteSpec`, and `SystemBus.PlicRead` and `PlicWrite`, state in their own `ensures` only that the register vectors keep their sizes. Their behaviour is stated by `RaiseResult`, `ClaimResult`, `CompleteResult`, `RegisterAccess`, `OutOfRangePanics` and the `Plic` methods.
- `VirtioTransport.SetDeviceIdx`, `SetUsedElem` and `PushUsed` state in their own `ensures` only that RAM keeps its size. What they write and leave alone is stated by the lemmas beside them (`SetUsedElemWrites`, `PushUsedIdx`, `PushUsedElem`, `PushUsedElsewhere` and the rest).
- On the main path the model uses the corrected half of each Findings row: `CsrModifySpec`, `Examine`/`UserFault`, `Scan`, `Tick` and `CtrlTypeFrom`. The source's own behaviour is kept beside each one, as the as-written member named in that row.

## Findings

| source | as written | input that shows it | evidently intended | confidence | as-written member | corrected member |
|---|---|---|---|---|---|---|
| src/bus/virtio_gpu.rs:553 | control code 0x1101 decodes as `CmdGetDisplayInfo` | a command whose header type is 0x1101 (`RespOkDisplayInfo`) is answered with a display-info response | 0x1101 decodes as `RespOkDisplayInfo`, the discriminant the enum gives it (src/bus/virtio_gpu.rs:64-74), which the device then rejects as a response type | not executed | VirtioGpuDevice.CtrlTypeFromAsWritten, VirtioGpuDevice.CtrlTypeFromAsWrittenMisreads | VirtioGpuDevice.CtrlTypeFrom, VirtioGpuDevice.CtrlTypeRoundTrip |
| src/bus/plic.rs:166-197 | `find_interrupt_active` keeps the LAST enabled pending source above its threshold; `max_priority` is assigned but never compared | sources 1 and 2 pending and enabled for context 0 with priorities 7 and 3: source 2 (priority 3) is delivered | the candidate with the highest priority is delivered | not executed | PlicDevice.ScanAsWritten, PlicDevice.ScanAsWrittenPicksLast | PlicDevice.Scan, PlicDevice.ScanFindsHighest |
| src/cpu.rs:236-247 | the U-bit check lets supervisor mode fetch from a user page: it tests only R/W pages against SUM | an execute-only user PTE 0xd9 (V, X, U, A, D), fetched in supervisor mode with SUM clear, is accepted as a leaf | supervisor mode never executes from a user page (section 4.3.1 of the RISC-V privileged architecture) | not executed; while a nonzero satp write panics (src/csr.rs:168-173) paging stays off and the two rules cannot be told apart in a run | Sv32.UserFaultAsWritten, Sv32.SupervisorFetchFromUserPage | Sv32.UserFault, Sv32.ExamineRejects |
| src/cpu.rs:756-808 | CSRRS and CSRRC skip the CSR write when the VALUE of rs1 is zero | CSRRS x1, mhartid, x5 (0xf142a0f3) in machine mode with x5 = 0 succeeds | the write is skipped only when the rs1 FIELD is x0, so this write of read-only mhartid is illegal (the Zicsr chapter of the RISC-V unprivileged ISA) | not executed | Hart.CsrModifyAsWritten, Hart.CsrSetOfReadOnlyWithZeroValue | Hart.CsrModifySpec, Hart.CsrModifyOnlyReads |
| src/bus/uart.rs:191-208 | `tick` delivers the buffered character pushed LAST (`Vec::pop`) | with "ab" buffered and the device ready, RBR receives 'b' first | characters reach the guest in the order they arrived | not executed | UartDevice.TickAsWritten, UartDevice.TickAsWrittenReverses | UartDevice.Tick, UartDevice.TickDelivers |
