/**
 * The virtio-over-MMIO transport (src/bus/virtio_mmio.rs) after section 4.2.2
 * of VIRTIO 1.1: the register file a driver uses to negotiate features, set
 * the device status and describe each queue, and the views of a split
 * virtqueue (section 2.6 of VIRTIO 1.1) in guest memory.
 *
 * The register file is the class `VirtioMmio`, whose `Write` is proved equal
 * to `WriteSpec` on the abstract state `VirtioState`. Queue addresses are kept
 * as numbers (the source widens the 32-bit low word into a `u64`). The views
 * of guest memory decode and encode little-endian bytes of the RAM byte
 * sequence: a view whose bytes are not all inside the RAM vector panics, as
 * a slice out of bounds does.
 */
module VirtioTransport {
  import opened Arch
  import opened Bits
  import opened Masks
  import opened Mmio
  import Ram

  const MAGIC_VALUE: bv32 := 0x74726976
  const VERSION: bv32 := 2

  const VIRTIO_REG_QUEUE_READY: bv32 := 0x44
  const VIRTIO_REG_NOTIFY: bv32 := 0x50
  const VIRTIO_REG_STATUS: bv32 := 0x70
  const VIRTIO_REG_CONFIG: bv32 := 0x100

  /** Status bit 7, FAILED. */
  const STATUS_FAILED: bv32 := 0x80

  /** Byte sizes of the ring structures: a descriptor, the driver ring's
      header and entry, the device ring's header and element. */
  const VIRTIO_QUEUE_DESC_SIZE: nat := 16
  const VIRTIO_QUEUE_DRIVER_BASE_SIZE: nat := 4
  const VIRTIO_QUEUE_DRIVER_RING_SIZE: nat := 2
  const VIRTIO_QUEUE_DEVICE_BASE_SIZE: nat := 4
  const VIRTIO_QUEUE_DEVICE_ELEM_SIZE: nat := 8

  datatype VirtioType = Network | Gpu

  /** The device ID register value. */
  function DeviceId(t: VirtioType): (r: bv32)
    ensures r == 1 <==> t == Network
    ensures r == 16 <==> t == Gpu
  {
    match t
    case Network => 1
    case Gpu => 16
  }

  /** The transport's registers. Selectors are unbounded numbers: the source
      stores them as `usize` and indexing with an out-of-range one panics. */
  datatype VirtioState = VirtioState(
    deviceType: VirtioType,
    status: bv32,
    featuresSel: nat,
    featuresSupported: seq<bv32>,
    driverFeaturesSel: nat,
    driverFeatures: seq<bv32>,
    queueSel: nat,
    queueSizeMax: bv32,
    queueSizes: seq<bv32>,
    readies: seq<bool>,
    descAddrs: seq<nat>,
    driverAddrs: seq<nat>,
    deviceAddrs: seq<nat>,
    shmSel: bv32)
  {
    /** Four feature words each way, and one slot per queue in every
        per-queue vector. */
    predicate Valid()
    {
      |featuresSupported| == 4 && |driverFeatures| == 4 &&
      |readies| == |queueSizes| && |descAddrs| == |queueSizes| &&
      |driverAddrs| == |queueSizes| && |deviceAddrs| == |queueSizes|
    }

    function QueueNum(): nat { |queueSizes| }
  }

  /** `VirtioMmio::new`. */
  function New(t: VirtioType, features: seq<bv32>, queueNum: nat, queueSizeMax: bv32): (r: VirtioState)
    requires |features| == 4
    ensures r.Valid() && r.QueueNum() == queueNum && r.status == 0
    ensures forall q :: 0 <= q < queueNum ==>
      !r.readies[q] && r.queueSizes[q] == 0 && r.descAddrs[q] == 0 &&
      r.driverAddrs[q] == 0 && r.deviceAddrs[q] == 0
  {
    VirtioState(t, 0, 0, features, 0, [0, 0, 0, 0], 0, queueSizeMax,
      seq(queueNum, _ => 0), seq(queueNum, _ => false),
      seq(queueNum, _ => 0), seq(queueNum, _ => 0), seq(queueNum, _ => 0), 0)
  }

  /** `set_failed`: status bit 7 set, the other bits kept. */
  function SetFailed(st: VirtioState): VirtioState
  {
    st.(status := SetBits(st.status, STATUS_FAILED))
  }

  /** The value `VirtioMmio::read` returns for a 4-byte access. */
  function ReadValue(st: VirtioState, offset: bv32): Outcome<bv32>
  {
    if offset == 0 then Ok(MAGIC_VALUE)
    else if offset == 0x4 then Ok(VERSION)
    else if offset == 0x8 then Ok(DeviceId(st.deviceType))
    else if offset == 0x10 then
      if st.featuresSel < |st.featuresSupported| then Ok(st.featuresSupported[st.featuresSel]) else Panic
    else if offset == 0xc then Ok(0)
    else if offset == 0x34 then Ok(st.queueSizeMax)
    else if offset == VIRTIO_REG_QUEUE_READY then
      if st.queueSel < |st.readies| then Ok(if st.readies[st.queueSel] then 1 else 0) else Panic
    else if offset == 0x60 then Ok(1)
    else if offset == VIRTIO_REG_STATUS then Ok(st.status)
    else if offset == 0xfc then Ok(0)
    else Panic
  }

  /** `VirtioMmio::read`: only 4-byte accesses; the transport never reports
      an interrupt. */
  function ReadSpec(st: VirtioState, offset: bv32, size: bv32): Outcome<DeviceResponse<bv32>>
  {
    if size != 4 then Panic
    else
      var v :- ReadValue(st, offset);
      Ok(DeviceResponse(v, false))
  }

  /** The fixed registers and the selected-queue registers read as the
      transport promises; an access of another size, and an offset with no
      register, panic. */
  lemma ReadRegisters(st: VirtioState, offset: bv32, size: bv32)
    requires st.Valid()
    ensures size != 4 ==> ReadSpec(st, offset, size) == Panic
    ensures ReadSpec(st, 0, 4) == Ok(DeviceResponse(0x74726976, false))
    ensures ReadSpec(st, 4, 4) == Ok(DeviceResponse(2, false))
    ensures ReadSpec(st, 8, 4) == Ok(DeviceResponse(DeviceId(st.deviceType), false))
    ensures st.featuresSel < 4 ==> ReadSpec(st, 0x10, 4) == Ok(DeviceResponse(st.featuresSupported[st.featuresSel], false))
    ensures ReadSpec(st, 0x34, 4) == Ok(DeviceResponse(st.queueSizeMax, false))
    ensures st.queueSel < st.QueueNum() ==>
      ReadSpec(st, 0x44, 4) == Ok(DeviceResponse(if st.readies[st.queueSel] then 1 else 0, false))
    ensures ReadSpec(st, 0x70, 4) == Ok(DeviceResponse(st.status, false))
    ensures offset !in {0, 4, 8, 0xc, 0x10, 0x34, 0x44, 0x60, 0x70, 0xfc} ==> ReadSpec(st, offset, 4) == Panic
    ensures ReadSpec(st, offset, size).Ok? ==> !ReadSpec(st, offset, size).value.isInterrupting
  {
  }

  /** The status values a driver may write: ACKNOWLEDGE, then DRIVER, then
      FEATURES_OK, then DRIVER_OK. */
  predicate AcceptedStatus(v: bv32) { v == 1 || v == 3 || v == 0xb || v == 0xf }

  /** The registers that change the selected queue's slot. */
  predicate IsQueueRegister(offset: bv32)
  {
    offset == 0x38 || offset == VIRTIO_REG_QUEUE_READY || offset == 0x80 || offset == 0x90 || offset == 0xa0
  }

  /** A write to a register of the selected queue; an out-of-range selector
      panics. */
  function WriteQueue(st: VirtioState, offset: bv32, value: bv32): Outcome<VirtioState>
    requires IsQueueRegister(offset)
  {
    var q := st.queueSel;
    if offset == 0x38 then
      if q < |st.queueSizes| then Ok(st.(queueSizes := st.queueSizes[q := value])) else Panic
    else if offset == VIRTIO_REG_QUEUE_READY then
      if (value == 0 || value == 1) && q < |st.readies| then Ok(st.(readies := st.readies[q := value == 1]))
      else Panic
    else WriteAddress(st, offset, value)
  }

  /** The low words of the selected queue's three ring addresses. */
  function WriteAddress(st: VirtioState, offset: bv32, value: bv32): Outcome<VirtioState>
  {
    var q := st.queueSel;
    if offset == 0x80 then
      if q < |st.descAddrs| then Ok(st.(descAddrs := st.descAddrs[q := Nat32(value)])) else Panic
    else if offset == 0x90 then
      if q < |st.driverAddrs| then Ok(st.(driverAddrs := st.driverAddrs[q := Nat32(value)])) else Panic
    else
      if q < |st.deviceAddrs| then Ok(st.(deviceAddrs := st.deviceAddrs[q := Nat32(value)])) else Panic
  }

  /** A driver-features write: a word the device does not offer sets
      FAILED. */
  function WriteDriverFeatures(st: VirtioState, value: bv32): Outcome<VirtioState>
  {
    var sel := st.driverFeaturesSel;
    if sel >= |st.featuresSupported| then Panic
    else if value != st.featuresSupported[sel] then Ok(SetFailed(st))
    else if sel >= |st.driverFeatures| then Panic
    else Ok(st.(driverFeatures := st.driverFeatures[sel := value]))
  }

  /** The three selector registers: device features, driver features and
      queue. */
  predicate IsSelector(offset: bv32) { offset == 0x14 || offset == 0x24 || offset == 0x30 }

  function WriteSelector(st: VirtioState, offset: bv32, value: bv32): VirtioState
    requires IsSelector(offset)
  {
    if offset == 0x14 then st.(featuresSel := Nat32(value))
    else if offset == 0x24 then st.(driverFeaturesSel := Nat32(value))
    else st.(queueSel := Nat32(value))
  }

  /** The other registers `VirtioMmio::write` accepts: the selectors, the
      interrupt acknowledgement, the status, the high address words and the
      shared-memory selector; any other offset panics. */
  function WriteControl(st: VirtioState, offset: bv32, value: bv32): Outcome<VirtioState>
  {
    if IsSelector(offset) then Ok(WriteSelector(st, offset, value))
    else if offset == 0x64 then
      if value != 1 then Panic else Ok(st)
    else if offset == VIRTIO_REG_STATUS then
      if AcceptedStatus(value) then Ok(st.(status := value)) else Panic
    else if offset == 0x84 || offset == 0x94 || offset == 0xa4 then
      if value != 0 then Panic else Ok(st)
    else if offset == 0xac then Ok(st.(shmSel := value))
    else Panic
  }

  /** `VirtioMmio::write` on the state: only 4-byte accesses; the new state,
      or a panic for a rejected value, an unknown offset or an out-of-range
      selector. */
  function WriteSpec(st: VirtioState, offset: bv32, size: bv32, value: bv32): Outcome<VirtioState>
  {
    if size != 4 then Panic
    else if IsQueueRegister(offset) then WriteQueue(st, offset, value)
    else if offset == 0x20 then WriteDriverFeatures(st, value)
    else WriteControl(st, offset, value)
  }

  /** Feature negotiation: a driver-features word that differs from the
      device's word sets FAILED and records nothing; an equal one is
      recorded. */
  lemma DriverFeatures(st: VirtioState, value: bv32)
    requires st.Valid() && st.driverFeaturesSel < 4
    ensures value != st.featuresSupported[st.driverFeaturesSel] ==>
      WriteSpec(st, 0x20, 4, value) == Ok(st.(status := SetBits(st.status, STATUS_FAILED)))
    ensures value == st.featuresSupported[st.driverFeaturesSel] ==>
      WriteSpec(st, 0x20, 4, value) == Ok(st.(driverFeatures := st.driverFeatures[st.driverFeaturesSel := value]))
  {
  }

  /** The queue registers change only the selected queue's slot: size,
      ready (0 or 1 only), and the low words of the three ring addresses;
      the high words accept only 0 and change nothing. */
  lemma QueueRegisters(st: VirtioState, value: bv32)
    requires st.Valid() && st.queueSel < st.QueueNum()
    ensures WriteSpec(st, 0x38, 4, value) == Ok(st.(queueSizes := st.queueSizes[st.queueSel := value]))
    ensures value == 0 || value == 1 ==>
      WriteSpec(st, 0x44, 4, value) == Ok(st.(readies := st.readies[st.queueSel := value == 1]))
    ensures value != 0 && value != 1 ==> WriteSpec(st, 0x44, 4, value) == Panic
    ensures WriteSpec(st, 0x80, 4, value) == Ok(st.(descAddrs := st.descAddrs[st.queueSel := Nat32(value)]))
    ensures WriteSpec(st, 0x90, 4, value) == Ok(st.(driverAddrs := st.driverAddrs[st.queueSel := Nat32(value)]))
    ensures WriteSpec(st, 0xa0, 4, value) == Ok(st.(deviceAddrs := st.deviceAddrs[st.queueSel := Nat32(value)]))
    ensures value == 0 ==>
      WriteSpec(st, 0x84, 4, value) == Ok(st) && WriteSpec(st, 0x94, 4, value) == Ok(st) &&
      WriteSpec(st, 0xa4, 4, value) == Ok(st)
    ensures value != 0 ==>
      WriteSpec(st, 0x84, 4, value) == Panic && WriteSpec(st, 0x94, 4, value) == Panic &&
      WriteSpec(st, 0xa4, 4, value) == Panic
  {
  }

  /** Only the four status values of the initialisation sequence are
      accepted, every other value panics. */
  lemma StatusWrite(st: VirtioState, value: bv32)
    ensures AcceptedStatus(value) ==> WriteSpec(st, 0x70, 4, value) == Ok(st.(status := value))
    ensures !AcceptedStatus(value) ==> WriteSpec(st, 0x70, 4, value) == Panic
  {
  }

  /** A write never breaks `Valid` and never raises a trap: it either
      succeeds or panics. */
  lemma WriteKeepsValid(st: VirtioState, offset: bv32, size: bv32, value: bv32)
    requires st.Valid()
    ensures WriteSpec(st, offset, size, value).Ok? ==> WriteSpec(st, offset, size, value).value.Valid()
    ensures !WriteSpec(st, offset, size, value).Fail?
  {
    if size == 4 && IsQueueRegister(offset) {
      assert WriteSpec(st, offset, size, value) == WriteQueue(st, offset, value);
    } else if size == 4 && offset == 0x20 {
      assert WriteSpec(st, offset, size, value) == WriteDriverFeatures(st, value);
    }
  }

  /** `is_ready`, `desc_addr`, `driver_addr`, `device_addr`: the selected
      slot of a per-queue vector; an index past the queues panics. */
  function IsReady(st: VirtioState, q: nat): (r: Outcome<bool>)
    ensures r.Ok? <==> q < |st.readies|
  {
    if q < |st.readies| then Ok(st.readies[q]) else Panic
  }

  function DescAddr(st: VirtioState, q: nat): (r: Outcome<nat>)
    ensures r.Ok? <==> q < |st.descAddrs|
  {
    if q < |st.descAddrs| then Ok(st.descAddrs[q]) else Panic
  }

  function DriverAddr(st: VirtioState, q: nat): (r: Outcome<nat>)
    ensures r.Ok? <==> q < |st.driverAddrs|
  {
    if q < |st.driverAddrs| then Ok(st.driverAddrs[q]) else Panic
  }

  function DeviceAddr(st: VirtioState, q: nat): (r: Outcome<nat>)
    ensures r.Ok? <==> q < |st.deviceAddrs|
  {
    if q < |st.deviceAddrs| then Ok(st.deviceAddrs[q]) else Panic
  }

  /** A sequence of 4-byte register writes, stopping at the first panic. */
  function Writes(st: VirtioState, ws: seq<(bv32, bv32)>): Outcome<VirtioState>
    decreases |ws|
  {
    if ws == [] then Ok(st)
    else
      var next :- WriteSpec(st, ws[0].0, 4, ws[0].1);
      Writes(next, ws[1..])
  }

  /** The five writes of a queue set-up: select `q`, the three ring
      addresses, then QueueReady. */
  function SetupWrites(q: bv32, desc: bv32, drv: bv32, dev: bv32): seq<(bv32, bv32)>
  {
    [(0x30, q), (0x80, desc), (0x90, drv), (0xa0, dev), (0x44, 1)]
  }

  /** The driver's queue set-up: selecting queue `q`, writing the low words
      of its three ring addresses and then 1 to QueueReady makes that queue
      ready with exactly those addresses, and leaves every other queue as it
      was. */
  lemma QueueSetup(st: VirtioState, q: bv32, desc: bv32, drv: bv32, dev: bv32)
    requires st.Valid() && Nat32(q) < st.QueueNum()
    ensures var r := Writes(st, SetupWrites(q, desc, drv, dev));
      r.Ok? && r.value.Valid() && r.value.QueueNum() == st.QueueNum() &&
      IsReady(r.value, Nat32(q)) == Ok(true) && DescAddr(r.value, Nat32(q)) == Ok(Nat32(desc)) &&
      DriverAddr(r.value, Nat32(q)) == Ok(Nat32(drv)) && DeviceAddr(r.value, Nat32(q)) == Ok(Nat32(dev)) &&
      (forall p :: 0 <= p < st.QueueNum() && p != Nat32(q) ==>
        r.value.readies[p] == st.readies[p] && r.value.descAddrs[p] == st.descAddrs[p] &&
        r.value.driverAddrs[p] == st.driverAddrs[p] && r.value.deviceAddrs[p] == st.deviceAddrs[p])
  {
    var i := Nat32(q);
    var s5 := st.(queueSel := i,
      descAddrs := st.descAddrs[i := Nat32(desc)],
      driverAddrs := st.driverAddrs[i := Nat32(drv)],
      deviceAddrs := st.deviceAddrs[i := Nat32(dev)],
      readies := st.readies[i := true]);
    SetupSteps(st, q, desc, drv, dev);
    assert Writes(st, SetupWrites(q, desc, drv, dev)) == Ok(s5);
  }

  /** The five writes one at a time. */
  lemma SetupSteps(st: VirtioState, q: bv32, desc: bv32, drv: bv32, dev: bv32)
    requires st.Valid() && Nat32(q) < st.QueueNum()
    ensures var i := Nat32(q);
      Writes(st, SetupWrites(q, desc, drv, dev)) == Ok(st.(queueSel := i,
        descAddrs := st.descAddrs[i := Nat32(desc)],
        driverAddrs := st.driverAddrs[i := Nat32(drv)],
        deviceAddrs := st.deviceAddrs[i := Nat32(dev)],
        readies := st.readies[i := true]))
  {
    var i := Nat32(q);
    var ws := SetupWrites(q, desc, drv, dev);
    var s1 := st.(queueSel := i);
    var s2 := s1.(descAddrs := s1.descAddrs[i := Nat32(desc)]);
    var s3 := s2.(driverAddrs := s2.driverAddrs[i := Nat32(drv)]);
    var s4 := s3.(deviceAddrs := s3.deviceAddrs[i := Nat32(dev)]);
    var s5 := s4.(readies := s4.readies[i := true]);
    assert Writes(s4, ws[4..]) == Ok(s5) by {
      assert WriteSpec(s4, 0x44, 4, 1) == Ok(s5);
      assert ws[4..][1..] == [];
    }
    assert Writes(s3, ws[3..]) == Ok(s5) by {
      assert WriteSpec(s3, 0xa0, 4, dev) == Ok(s4);
      assert ws[3..][1..] == ws[4..];
    }
    assert Writes(s2, ws[2..]) == Ok(s5) by {
      assert WriteSpec(s2, 0x90, 4, drv) == Ok(s3);
      assert ws[2..][1..] == ws[3..];
    }
    assert Writes(s1, ws[1..]) == Ok(s5) by {
      assert WriteSpec(s1, 0x80, 4, desc) == Ok(s2);
      assert ws[1..][1..] == ws[2..];
    }
    assert WriteSpec(st, 0x30, 4, q) == Ok(s1);
  }

  /** `set_failed` sets FAILED and keeps every other status bit. */
  lemma FailedBit(st: VirtioState)
    ensures AnyBit(SetFailed(st).status, STATUS_FAILED)
    ensures forall b: bv32 :: ClearBits(b, STATUS_FAILED) == b && AnyBit(st.status, b) ==> AnyBit(SetFailed(st).status, b)
  {
    OwnBit(st.status, STATUS_FAILED);
    forall b: bv32 | ClearBits(b, STATUS_FAILED) == b && AnyBit(st.status, b)
      ensures AnyBit(SetFailed(st).status, b)
    {
      KeepsBits(st.status, STATUS_FAILED, b);
    }
  }

  /** Setting bits keeps any bit that was already set. */
  lemma KeepsBits(w: bv32, s: bv32, b: bv32)
    requires AnyBit(w, b)
    ensures AnyBit(SetBits(w, s), b)
  {
  }

  // The split virtqueue in guest memory.

  /** `VirtQueueDesc`: a buffer's guest address and length, its flags and
      the index of the next descriptor of a chain. */
  datatype VirtQueueDesc = VirtQueueDesc(addr: nat, len: bv32, flags: bv16, next: bv16)
  {
    predicate IsNext() { flags & 1 != 0 }
    predicate IsWriteOnly() { flags & 2 != 0 }
    predicate IsIndirect() { flags & 4 != 0 }
  }

  /** The three flags are bits 0, 1 and 2 (NEXT, WRITE, INDIRECT). */
  lemma DescFlags(d: VirtQueueDesc)
    ensures d.flags == 1 ==> d.IsNext() && !d.IsWriteOnly() && !d.IsIndirect()
    ensures d.flags == 2 ==> !d.IsNext() && d.IsWriteOnly() && !d.IsIndirect()
    ensures d.flags == 4 ==> !d.IsNext() && !d.IsWriteOnly() && d.IsIndirect()
    ensures d.flags == 0 ==> !d.IsNext() && !d.IsWriteOnly() && !d.IsIndirect()
  {
  }

  /** `calc_desc_offset`: descriptors are 16 bytes each. */
  function CalcDescOffset(descIdx: nat): nat
  {
    VIRTIO_QUEUE_DESC_SIZE * descIdx
  }

  /** Consecutive descriptors are adjacent and do not overlap. */
  lemma DescOffsetsDisjoint(i: nat, j: nat)
    requires i < j
    ensures CalcDescOffset(i) + VIRTIO_QUEUE_DESC_SIZE <= CalcDescOffset(j)
  {
  }

  /** `desc`: the descriptor `descIdx` of the table at `descBase`. */
  function DescAt(mem: seq<bv8>, base: nat, descBase: nat, descIdx: bv16): Outcome<VirtQueueDesc>
  {
    var b :- Ram.RawRead(mem, base, descBase + CalcDescOffset(Nat16(descIdx)), VIRTIO_QUEUE_DESC_SIZE);
    Ok(VirtQueueDesc(Le64At(b, 0), Le32At(b, 8), Le16At(b, 12), Le16At(b, 14)))
  }

  /** The size of the driver (available) ring view and of the device (used)
      ring view of a queue of `l` entries. */
  function DriverViewSize(l: nat): nat { VIRTIO_QUEUE_DRIVER_BASE_SIZE + VIRTIO_QUEUE_DRIVER_RING_SIZE * l }
  function DeviceViewSize(l: nat): nat { VIRTIO_QUEUE_DEVICE_BASE_SIZE + VIRTIO_QUEUE_DEVICE_ELEM_SIZE * l }

  /** `driver::<L>(..).idx`: the driver's index; the whole view must be in
      RAM. */
  function DriverIdx(mem: seq<bv8>, base: nat, addr: nat, l: nat): Outcome<bv16>
  {
    var b :- Ram.RawRead(mem, base, addr, DriverViewSize(l));
    Ok(Le16At(b, 2))
  }

  /** `driver::<L>(..).ring[k]`. */
  function DriverRing(mem: seq<bv8>, base: nat, addr: nat, l: nat, k: nat): Outcome<bv16>
    requires k < l
  {
    var b :- Ram.RawRead(mem, base, addr, DriverViewSize(l));
    Ok(Le16At(b, VIRTIO_QUEUE_DRIVER_BASE_SIZE + VIRTIO_QUEUE_DRIVER_RING_SIZE * k))
  }

  /** `device::<L>(..).idx`. */
  function DeviceIdx(mem: seq<bv8>, base: nat, addr: nat, l: nat): Outcome<bv16>
  {
    var b :- Ram.RawRead(mem, base, addr, DeviceViewSize(l));
    Ok(Le16At(b, 2))
  }

  /** `device::<L>(..).elems[k]`: the used element's id and len. */
  function UsedElem(mem: seq<bv8>, base: nat, addr: nat, l: nat, k: nat): Outcome<(bv32, bv32)>
    requires k < l
  {
    var b :- Ram.RawRead(mem, base, addr, DeviceViewSize(l));
    var at := VIRTIO_QUEUE_DEVICE_BASE_SIZE + VIRTIO_QUEUE_DEVICE_ELEM_SIZE * k;
    Ok((Le32At(b, at), Le32At(b, at + 4)))
  }

  /** Writing `device::<L>(..).idx`. */
  function SetDeviceIdx(mem: seq<bv8>, base: nat, addr: nat, l: nat, idx: bv16): (r: Outcome<seq<bv8>>)
    ensures r.Ok? ==> |r.value| == |mem|
  {
    var _ :- Ram.RawRead(mem, base, addr, DeviceViewSize(l));
    Ram.RawWriteOf(mem, base, addr + 2, U16Le(idx))
  }

  /** Writing `device::<L>(..).elems[k]` (id, then len). */
  function SetUsedElem(mem: seq<bv8>, base: nat, addr: nat, l: nat, k: nat, id: bv32, len: bv32)
    : (r: Outcome<seq<bv8>>)
    requires k < l
    ensures r.Ok? ==> |r.value| == |mem|
  {
    var _ :- Ram.RawRead(mem, base, addr, DeviceViewSize(l));
    Ram.RawWriteOf(mem, base,
      addr + VIRTIO_QUEUE_DEVICE_BASE_SIZE + VIRTIO_QUEUE_DEVICE_ELEM_SIZE * k, U32Le(id) + U32Le(len))
  }

  /** Bytes written at `p` inside a view of `n` bytes at `off` are seen
      through that view at `p`. */
  lemma ViewOfOverwrite(mem: seq<bv8>, off: nat, n: nat, p: nat, w: seq<bv8>, j: nat)
    requires off + n <= |mem| && p + |w| <= n && j < |w|
    ensures Ram.Overwrite(mem, off + p, w)[off..off + n][p + j] == w[j]
  {
    var m := Ram.Overwrite(mem, off + p, w);
    assert m[off..off + n][p + j] == m[off + p + j];
  }

  /** A used element reads back as written, and the device index too. */
  lemma UsedElemRoundTrip(mem: seq<bv8>, base: nat, addr: nat, l: nat, k: nat, id: bv32, len: bv32)
    requires k < l && SetUsedElem(mem, base, addr, l, k, id, len).Ok?
    ensures UsedElem(SetUsedElem(mem, base, addr, l, k, id, len).value, base, addr, l, k) == Ok((id, len))
  {
    SetUsedElemView(mem, base, addr, l, k, id, len);
    UsedElemReads(SetUsedElem(mem, base, addr, l, k, id, len).value, base, addr, l, k);
  }

  /** After `SetUsedElem` the view holds the element written. */
  lemma SetUsedElemView(mem: seq<bv8>, base: nat, addr: nat, l: nat, k: nat, id: bv32, len: bv32)
    requires k < l && SetUsedElem(mem, base, addr, l, k, id, len).Ok?
    ensures var m := SetUsedElem(mem, base, addr, l, k, id, len).value;
      var at := VIRTIO_QUEUE_DEVICE_BASE_SIZE + VIRTIO_QUEUE_DEVICE_ELEM_SIZE * k;
      base <= addr && addr - base + DeviceViewSize(l) <= |m| &&
      var b := m[addr - base..addr - base + DeviceViewSize(l)];
      Le32At(b, at) == id && Le32At(b, at + 4) == len
  {
    SetUsedElemWrites(mem, base, addr, l, k, id, len);
    ElemReadsBack(mem, addr - base, DeviceViewSize(l), VIRTIO_QUEUE_DEVICE_BASE_SIZE + VIRTIO_QUEUE_DEVICE_ELEM_SIZE * k, id, len);
  }

  /** Where `SetUsedElem` succeeds the view is in RAM and the element's
      bytes are written at its offset in the view. */
  lemma SetUsedElemWrites(mem: seq<bv8>, base: nat, addr: nat, l: nat, k: nat, id: bv32, len: bv32)
    requires k < l && SetUsedElem(mem, base, addr, l, k, id, len).Ok?
    ensures base <= addr && addr - base + DeviceViewSize(l) <= |mem|
    ensures var at := VIRTIO_QUEUE_DEVICE_BASE_SIZE + VIRTIO_QUEUE_DEVICE_ELEM_SIZE * k;
      SetUsedElem(mem, base, addr, l, k, id, len).value == Ram.Overwrite(mem, (addr - base) + at, U32Le(id) + U32Le(len))
  {
    assert Ram.RawRead(mem, base, addr, DeviceViewSize(l)).Ok?;
  }

  /** An element written at `at` of a view reads back from the view. */
  lemma ElemReadsBack(mem: seq<bv8>, off: nat, n: nat, at: nat, id: bv32, len: bv32)
    requires off + n <= |mem| && at + 8 <= n
    ensures var b := Ram.Overwrite(mem, off + at, U32Le(id) + U32Le(len))[off..off + n];
      Le32At(b, at) == id && Le32At(b, at + 4) == len
  {
    var w := U32Le(id) + U32Le(len);
    var b := Ram.Overwrite(mem, off + at, w)[off..off + n];
    ViewOfOverwrite(mem, off, n, at, w, 0);
    ViewOfOverwrite(mem, off, n, at, w, 1);
    ViewOfOverwrite(mem, off, n, at, w, 2);
    ViewOfOverwrite(mem, off, n, at, w, 3);
    ViewOfOverwrite(mem, off, n, at, w, 4);
    ViewOfOverwrite(mem, off, n, at, w, 5);
    ViewOfOverwrite(mem, off, n, at, w, 6);
    ViewOfOverwrite(mem, off, n, at, w, 7);
    Le32AtBytes(id, b, at);
    Le32AtBytes(len, b, at + 4);
  }

  lemma DeviceIdxRoundTrip(mem: seq<bv8>, base: nat, addr: nat, l: nat, idx: bv16)
    requires SetDeviceIdx(mem, base, addr, l, idx).Ok?
    ensures DeviceIdx(SetDeviceIdx(mem, base, addr, l, idx).value, base, addr, l) == Ok(idx)
  {
    SetDeviceIdxWrites(mem, base, addr, l, idx);
    var m := SetDeviceIdx(mem, base, addr, l, idx).value;
    IdxReadsBack(mem, addr - base, DeviceViewSize(l), idx);
    DeviceIdxReads(m, base, addr, l);
  }

  /** Where `SetDeviceIdx` succeeds the view is in RAM and the index bytes
      are written at its byte 2. */
  lemma SetDeviceIdxWrites(mem: seq<bv8>, base: nat, addr: nat, l: nat, idx: bv16)
    requires SetDeviceIdx(mem, base, addr, l, idx).Ok?
    ensures base <= addr && addr - base + DeviceViewSize(l) <= |mem|
    ensures SetDeviceIdx(mem, base, addr, l, idx).value == Ram.Overwrite(mem, addr - base + 2, U16Le(idx))
  {
    assert Ram.RawRead(mem, base, addr, DeviceViewSize(l)).Ok?;
  }

  /** A view in RAM yields its index from byte 2. */
  lemma DeviceIdxReads(m: seq<bv8>, base: nat, addr: nat, l: nat)
    requires base <= addr && addr - base + DeviceViewSize(l) <= |m|
    ensures DeviceIdx(m, base, addr, l) == Ok(Le16At(m[addr - base..addr - base + DeviceViewSize(l)], 2))
  {
  }

  /** An index written at byte 2 of a view reads back from the view. */
  lemma IdxReadsBack(mem: seq<bv8>, off: nat, n: nat, idx: bv16)
    requires off + n <= |mem| && 4 <= n
    ensures Le16At(Ram.Overwrite(mem, off + 2, U16Le(idx))[off..off + n], 2) == idx
  {
    var b := Ram.Overwrite(mem, off + 2, U16Le(idx))[off..off + n];
    assert b[2] == Byte16(idx, 0) && b[3] == Byte16(idx, 1) by {
      ViewOfOverwrite(mem, off, n, 2, U16Le(idx), 0);
      ViewOfOverwrite(mem, off, n, 2, U16Le(idx), 1);
    }
    Le16AtBytes(idx, b, 2);
  }

  /** Bytes written at `p` leave a byte of the view outside `[p, p + |w|)`
      as it was. */
  lemma ViewOutsideOverwrite(mem: seq<bv8>, off: nat, n: nat, p: nat, w: seq<bv8>, j: nat)
    requires off + n <= |mem| && off + p + |w| <= |mem| && j < n && !(p <= j < p + |w|)
    ensures Ram.Overwrite(mem, off + p, w)[off..off + n][j] == mem[off..off + n][j]
  {
    var m := Ram.Overwrite(mem, off + p, w);
    assert m[off..off + n][j] == m[off + j];
  }

  /** Writing a used element leaves the device index alone. */
  lemma SetUsedElemKeepsIdx(mem: seq<bv8>, base: nat, addr: nat, l: nat, k: nat, id: bv32, len: bv32)
    requires k < l && SetUsedElem(mem, base, addr, l, k, id, len).Ok?
    ensures DeviceIdx(SetUsedElem(mem, base, addr, l, k, id, len).value, base, addr, l) ==
      DeviceIdx(mem, base, addr, l)
  {
    SetUsedElemWrites(mem, base, addr, l, k, id, len);
    var m := SetUsedElem(mem, base, addr, l, k, id, len).value;
    var at := VIRTIO_QUEUE_DEVICE_BASE_SIZE + VIRTIO_QUEUE_DEVICE_ELEM_SIZE * k;
    IdxOutsideElem(mem, addr - base, DeviceViewSize(l), at, U32Le(id) + U32Le(len));
    DeviceIdxReads(m, base, addr, l);
    DeviceIdxReads(mem, base, addr, l);
  }

  /** Bytes written at or after byte 4 of a view leave its index alone. */
  lemma IdxOutsideElem(mem: seq<bv8>, off: nat, n: nat, at: nat, w: seq<bv8>)
    requires off + n <= |mem| && 4 <= at && at + |w| <= n
    ensures Le16At(Ram.Overwrite(mem, off + at, w)[off..off + n], 2) == Le16At(mem[off..off + n], 2)
  {
    ViewOutsideOverwrite(mem, off, n, at, w, 2);
    ViewOutsideOverwrite(mem, off, n, at, w, 3);
  }

  /** Writing the device index leaves every used element alone. */
  lemma SetDeviceIdxKeepsElem(mem: seq<bv8>, base: nat, addr: nat, l: nat, idx: bv16, k: nat)
    requires k < l && SetDeviceIdx(mem, base, addr, l, idx).Ok?
    ensures UsedElem(SetDeviceIdx(mem, base, addr, l, idx).value, base, addr, l, k) ==
      UsedElem(mem, base, addr, l, k)
  {
    SetDeviceIdxWrites(mem, base, addr, l, idx);
    var m := SetDeviceIdx(mem, base, addr, l, idx).value;
    var at := VIRTIO_QUEUE_DEVICE_BASE_SIZE + VIRTIO_QUEUE_DEVICE_ELEM_SIZE * k;
    ElemOutsideIdx(mem, addr - base, DeviceViewSize(l), idx, at);
    UsedElemReads(m, base, addr, l, k);
    UsedElemReads(mem, base, addr, l, k);
  }

  /** The index bytes (2 and 3) of a view lie outside every used element. */
  lemma ElemOutsideIdx(mem: seq<bv8>, off: nat, n: nat, idx: bv16, at: nat)
    requires off + n <= |mem| && 4 <= at && at + 8 <= n
    ensures var b := Ram.Overwrite(mem, off + 2, U16Le(idx))[off..off + n];
      var b0 := mem[off..off + n];
      Le32At(b, at) == Le32At(b0, at) && Le32At(b, at + 4) == Le32At(b0, at + 4)
  {
    ViewOutsideOverwrite(mem, off, n, 2, U16Le(idx), at);
    ViewOutsideOverwrite(mem, off, n, 2, U16Le(idx), at + 1);
    ViewOutsideOverwrite(mem, off, n, 2, U16Le(idx), at + 2);
    ViewOutsideOverwrite(mem, off, n, 2, U16Le(idx), at + 3);
    ViewOutsideOverwrite(mem, off, n, 2, U16Le(idx), at + 4);
    ViewOutsideOverwrite(mem, off, n, 2, U16Le(idx), at + 5);
    ViewOutsideOverwrite(mem, off, n, 2, U16Le(idx), at + 6);
    ViewOutsideOverwrite(mem, off, n, 2, U16Le(idx), at + 7);
  }

  /** A view in RAM yields used element `k` from its bytes. */
  lemma UsedElemReads(m: seq<bv8>, base: nat, addr: nat, l: nat, k: nat)
    requires k < l && base <= addr && addr - base + DeviceViewSize(l) <= |m|
    ensures var at := VIRTIO_QUEUE_DEVICE_BASE_SIZE + VIRTIO_QUEUE_DEVICE_ELEM_SIZE * k;
      var b := m[addr - base..addr - base + DeviceViewSize(l)];
      UsedElem(m, base, addr, l, k) == Ok((Le32At(b, at), Le32At(b, at + 4)))
  {
  }

  /** A buffer returned to the driver: used element `k` set to (`id`,
      `len`), then the used index read back and advanced by one (wrapping). */
  function PushUsed(mem: seq<bv8>, base: nat, addr: nat, l: nat, k: nat, id: bv32, len: bv32)
    : (r: Outcome<seq<bv8>>)
    requires k < l
    ensures r.Ok? ==> |r.value| == |mem|
  {
    var m1 :- SetUsedElem(mem, base, addr, l, k, id, len);
    match DeviceIdx(m1, base, addr, l)
    case Ok(idx) => SetDeviceIdx(m1, base, addr, l, idx + 1)
    case _ => Panic
  }

  /** After a push the used index is one higher. */
  lemma PushUsedIdx(mem: seq<bv8>, base: nat, addr: nat, l: nat, k: nat, id: bv32, len: bv32,
                    m: seq<bv8>, idx: bv16)
    requires k < l && PushUsed(mem, base, addr, l, k, id, len) == Ok(m)
    requires DeviceIdx(mem, base, addr, l) == Ok(idx)
    ensures DeviceIdx(m, base, addr, l) == Ok(idx + 1)
  {
    var m1 := SetUsedElem(mem, base, addr, l, k, id, len).value;
    assert DeviceIdx(m1, base, addr, l) == Ok(idx) by {
      SetUsedElemKeepsIdx(mem, base, addr, l, k, id, len);
    }
    assert m == SetDeviceIdx(m1, base, addr, l, idx + 1).value;
    DeviceIdxRoundTrip(m1, base, addr, l, idx + 1);
  }

  /** A push needs the whole device view inside the RAM. */
  lemma PushUsedView(mem: seq<bv8>, base: nat, addr: nat, l: nat, k: nat, id: bv32, len: bv32)
    requires k < l && PushUsed(mem, base, addr, l, k, id, len).Ok?
    ensures DeviceIdx(mem, base, addr, l).Ok?
  {
    assert SetUsedElem(mem, base, addr, l, k, id, len).Ok?;
  }

  /** A range outside the device view: before it or after it. */
  predicate OutsideDeviceView(base: nat, addr: nat, l: nat, q: nat, n: nat)
  {
    q + n <= addr - base || addr - base + DeviceViewSize(l) <= q
  }

  /** Writing a used element or the device index changes no byte outside
      the device view. */
  lemma SetUsedElemElsewhere(mem: seq<bv8>, base: nat, addr: nat, l: nat, k: nat, id: bv32, len: bv32,
                             m: seq<bv8>, q: nat, n: nat)
    requires k < l && SetUsedElem(mem, base, addr, l, k, id, len) == Ok(m)
    requires q + n <= |mem| && OutsideDeviceView(base, addr, l, q, n)
    ensures m[q..q + n] == mem[q..q + n]
  {
    var off := addr - base;
    var at := VIRTIO_QUEUE_DEVICE_BASE_SIZE + VIRTIO_QUEUE_DEVICE_ELEM_SIZE * k;
    var w := U32Le(id) + U32Le(len);
    assert m == Ram.Overwrite(mem, off + at, w) && base <= addr && off + DeviceViewSize(l) <= |mem| by {
      assert Ram.RawRead(mem, base, addr, DeviceViewSize(l)).Ok?;
    }
    assert at + |w| <= DeviceViewSize(l);
    Ram.OverwriteElsewhere(mem, off + at, w, q, n);
  }

  lemma SetDeviceIdxElsewhere(mem: seq<bv8>, base: nat, addr: nat, l: nat, idx: bv16,
                              m: seq<bv8>, q: nat, n: nat)
    requires SetDeviceIdx(mem, base, addr, l, idx) == Ok(m)
    requires q + n <= |mem| && OutsideDeviceView(base, addr, l, q, n)
    ensures m[q..q + n] == mem[q..q + n]
  {
    var off := addr - base;
    assert m == Ram.Overwrite(mem, off + 2, U16Le(idx)) && base <= addr && off + DeviceViewSize(l) <= |mem| by {
      assert Ram.RawRead(mem, base, addr, DeviceViewSize(l)).Ok?;
    }
    Ram.OverwriteElsewhere(mem, off + 2, U16Le(idx), q, n);
  }

  /** A push changes no byte outside the device view. */
  lemma PushUsedElsewhere(mem: seq<bv8>, base: nat, addr: nat, l: nat, k: nat, id: bv32, len: bv32,
                          m: seq<bv8>, q: nat, n: nat)
    requires k < l && PushUsed(mem, base, addr, l, k, id, len) == Ok(m)
    requires q + n <= |mem| && OutsideDeviceView(base, addr, l, q, n)
    ensures m[q..q + n] == mem[q..q + n]
  {
    var m1 := SetUsedElem(mem, base, addr, l, k, id, len).value;
    SetUsedElemElsewhere(mem, base, addr, l, k, id, len, m1, q, n);
    var idx := DeviceIdx(m1, base, addr, l).value;
    SetDeviceIdxElsewhere(m1, base, addr, l, idx + 1, m, q, n);
  }

  /** After a push the pushed element reads back. */
  lemma PushUsedElem(mem: seq<bv8>, base: nat, addr: nat, l: nat, k: nat, id: bv32, len: bv32)
    requires k < l && PushUsed(mem, base, addr, l, k, id, len).Ok?
    ensures UsedElem(PushUsed(mem, base, addr, l, k, id, len).value, base, addr, l, k) == Ok((id, len))
  {
    var m1 := SetUsedElem(mem, base, addr, l, k, id, len).value;
    var idx := DeviceIdx(m1, base, addr, l).value;
    UsedElemRoundTrip(mem, base, addr, l, k, id, len);
    SetDeviceIdxKeepsElem(m1, base, addr, l, idx + 1, k);
  }

  /** The transport's registers (`VirtioMmio`). */
  class VirtioMmio {
    var deviceType: VirtioType
    var status: bv32
    var featuresSel: nat
    var featuresSupported: seq<bv32>
    var driverFeaturesSel: nat
    var driverFeatures: seq<bv32>
    var queueSel: nat
    var queueSizeMax: bv32
    var queueSizes: seq<bv32>
    var readies: seq<bool>
    var descAddrs: seq<nat>
    var driverAddrs: seq<nat>
    var deviceAddrs: seq<nat>
    var shmSel: bv32

    function State(): VirtioState
      reads this
    {
      VirtioState(deviceType, status, featuresSel, featuresSupported, driverFeaturesSel,
        driverFeatures, queueSel, queueSizeMax, queueSizes, readies, descAddrs,
        driverAddrs, deviceAddrs, shmSel)
    }

    /** `VirtioMmio::new`. */
    constructor (t: VirtioType, features: seq<bv32>, queueNum: nat, sizeMax: bv32)
      requires |features| == 4
      ensures State() == New(t, features, queueNum, sizeMax)
    {
      deviceType := t;
      status := 0;
      featuresSel := 0;
      featuresSupported := features;
      driverFeaturesSel := 0;
      driverFeatures := [0, 0, 0, 0];
      queueSel := 0;
      queueSizeMax := sizeMax;
      queueSizes := seq(queueNum, _ => 0);
      readies := seq(queueNum, _ => false);
      descAddrs := seq(queueNum, _ => 0);
      driverAddrs := seq(queueNum, _ => 0);
      deviceAddrs := seq(queueNum, _ => 0);
      shmSel := 0;
    }

    /** `VirtioMmio::read`. */
    method Read(offset: bv32, size: bv32) returns (r: Outcome<DeviceResponse<bv32>>)
      ensures r == ReadSpec(State(), offset, size)
    {
      r := ReadSpec(State(), offset, size);
    }

    /** `set_failed`. */
    method SetFailedBit()
      modifies this
      ensures State() == SetFailed(old(State()))
    {
      status := SetBits(status, STATUS_FAILED);
    }

    /** `VirtioMmio::write`. */
    method Write(offset: bv32, size: bv32, value: bv32) returns (r: Outcome<DeviceResponse<()>>)
      modifies this
      ensures r == (var w := WriteSpec(old(State()), offset, size, value);
                    if w.Ok? then Ok(DeviceResponse((), false)) else Panic)
      ensures r.Ok? ==> State() == WriteSpec(old(State()), offset, size, value).value
    {
      if size != 4 {
        return Panic;
      }
      var ok;
      if IsQueueRegister(offset) {
        ok := WriteQueueRegister(offset, value);
      } else if offset == 0x20 {
        ok := WriteDriverFeaturesRegister(value);
      } else {
        ok := WriteControlRegister(offset, value);
      }
      r := if ok then Ok(DeviceResponse((), false)) else Panic;
    }

    /** The remaining arms of `VirtioMmio::write`. */
    method WriteControlRegister(offset: bv32, value: bv32) returns (ok: bool)
      modifies this
      ensures ok == WriteControl(old(State()), offset, value).Ok?
      ensures ok ==> State() == WriteControl(old(State()), offset, value).value
    {
      ok := true;
      if IsSelector(offset) {
        WriteSelectorRegister(offset, value);
      } else if offset == 0x64 {
        ok := value == 1;
      } else if offset == VIRTIO_REG_STATUS {
        ok := AcceptedStatus(value);
        if ok {
          status := value;
        }
      } else if offset == 0x84 || offset == 0x94 || offset == 0xa4 {
        ok := value == 0;
      } else if offset == 0xac {
        shmSel := value;
      } else {
        ok := false;
      }
    }

    /** The selector arms of `VirtioMmio::write`. */
    method WriteSelectorRegister(offset: bv32, value: bv32)
      requires IsSelector(offset)
      modifies this
      ensures State() == WriteSelector(old(State()), offset, value)
    {
      if offset == 0x14 {
        featuresSel := Nat32(value);
      } else if offset == 0x24 {
        driverFeaturesSel := Nat32(value);
      } else {
        queueSel := Nat32(value);
      }
    }

    /** The queue-indexed arms of `VirtioMmio::write`: only the selected
        queue's slot changes. */
    method WriteQueueRegister(offset: bv32, value: bv32) returns (ok: bool)
      requires IsQueueRegister(offset)
      modifies this
      ensures ok == WriteQueue(old(State()), offset, value).Ok?
      ensures ok ==> State() == WriteQueue(old(State()), offset, value).value
    {
      ok := true;
      if offset == 0x38 {
        if queueSel >= |queueSizes| {
          return false;
        }
        queueSizes := queueSizes[queueSel := value];
      } else if offset == VIRTIO_REG_QUEUE_READY {
        if !(value == 0 || value == 1) || queueSel >= |readies| {
          return false;
        }
        readies := readies[queueSel := value == 1];
      } else {
        ok := WriteAddressRegister(offset, value);
      }
    }

    /** The ring-address arms of `VirtioMmio::write`. */
    method WriteAddressRegister(offset: bv32, value: bv32) returns (ok: bool)
      modifies this
      ensures ok == WriteAddress(old(State()), offset, value).Ok?
      ensures ok ==> State() == WriteAddress(old(State()), offset, value).value
    {
      if offset == 0x80 {
        if queueSel >= |descAddrs| {
          return false;
        }
        descAddrs := descAddrs[queueSel := Nat32(value)];
      } else if offset == 0x90 {
        if queueSel >= |driverAddrs| {
          return false;
        }
        driverAddrs := driverAddrs[queueSel := Nat32(value)];
      } else {
        if queueSel >= |deviceAddrs| {
          return false;
        }
        deviceAddrs := deviceAddrs[queueSel := Nat32(value)];
      }
      return true;
    }

    /** The driver-features arm of `VirtioMmio::write`. */
    method WriteDriverFeaturesRegister(value: bv32) returns (ok: bool)
      modifies this
      ensures ok == WriteDriverFeatures(old(State()), value).Ok?
      ensures ok ==> State() == WriteDriverFeatures(old(State()), value).value
    {
      if driverFeaturesSel >= |featuresSupported| {
        return false;
      }
      if value != featuresSupported[driverFeaturesSel] {
        SetFailedBit();
        return true;
      }
      if driverFeaturesSel >= |driverFeatures| {
        return false;
      }
      driverFeatures := driverFeatures[driverFeaturesSel := value];
      return true;
    }
  }
}
