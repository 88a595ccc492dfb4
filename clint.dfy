/**
 * The core-local interruptor (src/bus/clint.rs). It has no state of its own:
 * its registers are views of the hart's CSRs (mip.MSIP and the timer-compare
 * halves), so each access is a function of the CSR value, and a write returns
 * the new CSR value. Only 32-bit accesses exist; the generic byte-vector paths
 * are unreachable.
 */
module Clint {
  import opened Arch
  import opened CsrFile
  import opened Mmio

  const MSIP_OFFSET: bv32 := 0
  const MTIMECMP_OFFSET: bv32 := 0x4000
  const MTIMECMPH_OFFSET: bv32 := 0x4004

  /** `MmioOps::read` and `write` for the CLINT: `unreachable!()`. */
  function Read(offset: bv32, size: bv32, ctx: CpuContext): Outcome<seq<bv8>>
  {
    Panic
  }

  function Write(offset: bv32, bytes: seq<bv8>, ctx: CpuContext): Outcome<()>
  {
    Panic
  }

  /** `read_u32`: offset 0 is mip.MSIP; anything else is the access's fault. */
  function ReadU32(s: Csr, offset: bv32, ctx: CpuContext): (r: Outcome<bv32>)
    ensures offset == MSIP_OFFSET ==> r == Ok((s.mip >> 3) & 1)
    ensures offset != MSIP_OFFSET ==> !r.Ok? && r == Raise(ctx)
    ensures r.Ok? ==> r.value <= 1
  {
    if offset == MSIP_OFFSET then Ok(MipMsip(s)) else Raise(ctx)
  }

  /** `write_u32`: MSIP takes bit 0 of the value, the two timer-compare
      registers take the whole value; anything else is the access's fault. */
  function WriteU32(s: Csr, offset: bv32, value: bv32, ctx: CpuContext): Outcome<Csr>
  {
    if offset == MSIP_OFFSET then Ok(WithMipBit(s, MIP_MSIP_POS, value & 1))
    else if offset == MTIMECMP_OFFSET then Ok(SetMtimecmp(s, value))
    else if offset == MTIMECMPH_OFFSET then Ok(SetMtimecmph(s, value))
    else Raise(ctx)
  }

  /** Each register write changes its own CSR field and nothing else; a write
      elsewhere fails without a new CSR value. */
  lemma WriteU32Effect(s: Csr, offset: bv32, value: bv32, ctx: CpuContext)
    ensures offset == MSIP_OFFSET ==>
      WriteU32(s, offset, value, ctx).Ok? &&
      MipMsip(WriteU32(s, offset, value, ctx).value) == value & 1 &&
      WriteU32(s, offset, value, ctx).value.mip & !8 == s.mip & !8 &&
      WriteU32(s, offset, value, ctx).value == s.(words := s.words[R_MIP := WriteU32(s, offset, value, ctx).value.mip])
    ensures offset == MTIMECMP_OFFSET ==> WriteU32(s, offset, value, ctx) == Ok(s.(words := s.words[R_TIMERMATCHL := value]))
    ensures offset == MTIMECMPH_OFFSET ==> WriteU32(s, offset, value, ctx) == Ok(s.(words := s.words[R_TIMERMATCHH := value]))
    ensures offset !in {MSIP_OFFSET, MTIMECMP_OFFSET, MTIMECMPH_OFFSET} ==>
      WriteU32(s, offset, value, ctx) == Raise(ctx)
  {
    if offset == MSIP_OFFSET {
      WithMipBitEffect(s, MIP_MSIP_POS, value & 1);
    }
  }

  /** Writing MSIP and reading it back gives bit 0 of the value written. */
  lemma MsipRoundTrip(s: Csr, value: bv32, ctx: CpuContext)
    ensures ReadU32(WriteU32(s, MSIP_OFFSET, value, ctx).value, MSIP_OFFSET, ctx) == Ok(value & 1)
  {
    WithMipBitEffect(s, MIP_MSIP_POS, value & 1);
  }
}
