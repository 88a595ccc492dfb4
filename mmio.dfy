/**
 * What src/bus.rs gives every device: the access context (`CpuContext`), the
 * fault an unmapped access raises (`make_trap`), and the little-endian
 * conversions of the `MmioOps` helpers between a device's byte vector and a
 * value.
 */
module Mmio {
  import opened Arch
  import opened Bits

  /** `CpuContext` without its `&mut Csr`, which the model passes and returns
      as a value. */
  datatype CpuContext = CpuContext(isWalk: bool, accessType: AccessType)

  /** `ExternalDeviceResponse`: what a UART or virtio register access returns
      beside its value, whether the device is now asking for an interrupt.
      (The struct is declared in a version of src/bus.rs that is not part of
      this model; the devices fill in both fields.) */
  datatype DeviceResponse<T> = DeviceResponse(value: T, isInterrupting: bool)

  /** `CpuContext::make_trap`. */
  function MakeTrap(ctx: CpuContext): Outcome<Trap>
  {
    IntoTrap(ctx.accessType, ctx.isWalk)
  }

  /** `Err(ctx.make_trap())`: the access's fault, or the panic of a fetch
      fault outside a page walk. */
  function Raise<T>(ctx: CpuContext): (r: Outcome<T>)
    ensures r.Fail? <==> MakeTrap(ctx).Ok?
    ensures r.Fail? ==> r.trap == MakeTrap(ctx).value
    ensures !r.Ok?
  {
    match MakeTrap(ctx)
    case Ok(t) => Fail(t)
    case _ => Panic
  }

  /** A raised fault during a walk is the access's page fault; outside a walk
      it is the load or store access fault, and a fetch panics. */
  lemma RaiseKinds<T>(ctx: CpuContext)
    ensures ctx.isWalk && ctx.accessType == Read ==> Raise<T>(ctx) == Fail(LoadPageFault)
    ensures ctx.isWalk && ctx.accessType == Write ==> Raise<T>(ctx) == Fail(StoreOrAMOPageFault)
    ensures ctx.isWalk && ctx.accessType == Fetch ==> Raise<T>(ctx) == Fail(InstructionPageFault)
    ensures !ctx.isWalk && ctx.accessType == Read ==> Raise<T>(ctx) == Fail(LoadAccessFault)
    ensures !ctx.isWalk && ctx.accessType == Write ==> Raise<T>(ctx) == Fail(StoreOrAMOAccessFault)
    ensures !ctx.isWalk && ctx.accessType == Fetch ==> Raise<T>(ctx) == Panic
  {
  }

  /** `u8/u16/u32::from_le_bytes(value.try_into().unwrap())`: a vector of the
      wrong length panics. */
  function FromLe8(v: seq<bv8>): (r: Outcome<bv8>)
    ensures r.Ok? <==> |v| == 1
    ensures !r.Fail?
  {
    if |v| == 1 then Ok(v[0]) else Panic
  }

  function FromLe16(v: seq<bv8>): (r: Outcome<bv16>)
    ensures r.Ok? <==> |v| == 2
    ensures !r.Fail?
  {
    if |v| == 2 then Ok(Le16At(v, 0)) else Panic
  }

  function FromLe32(v: seq<bv8>): (r: Outcome<bv32>)
    ensures r.Ok? <==> |v| == 4
    ensures !r.Fail?
  {
    if |v| == 4 then Ok(Le32At(v, 0)) else Panic
  }

  /** Decoding what `to_le_bytes` wrote gives the value back, and encoding a
      decoded vector gives the vector back. */
  lemma LeRoundTrip16(x: bv16, v: seq<bv8>)
    ensures FromLe16(U16Le(x)) == Ok(x)
    ensures |v| == 2 ==> U16Le(FromLe16(v).value) == v
  {
    if |v| == 2 {
      Le16RoundTrip(x, v);
    } else {
      Le16RoundTrip(x, U16Le(x));
    }
  }

  lemma LeRoundTrip32(x: bv32, v: seq<bv8>)
    ensures FromLe32(U32Le(x)) == Ok(x)
    ensures |v| == 4 ==> U32Le(FromLe32(v).value) == v
  {
    if |v| == 4 {
      Le32RoundTrip(x, v);
    } else {
      Le32RoundTrip(x, U32Le(x));
    }
  }
}
