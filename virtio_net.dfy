/**
 * The virtio network device (src/bus/virtio_net.rs): the transport's
 * registers, a six-byte MAC address in the configuration space, a receive
 * queue (0) that the periodic tick fills from the host, and a transmit queue
 * (1) that a notify drains to the host.
 *
 * The host's two channels are sequences: `incoming` holds the packets
 * waiting in the receive channel (`try_recv` takes the first one), `sent` the
 * packets the device has put on the output channel, oldest first. Guest
 * memory is the RAM byte sequence and its base address; every view into it
 * is bounds-checked and panics when it leaves the RAM.
 */
module VirtioNetDevice {
  import opened Arch
  import opened Bits
  import opened Mmio
  import opened VirtioTransport
  import Ram

  const VIRTIO_NET_HEADER_SIZE: nat := 12
  const VIRTIO_NET_RECV_IDX: nat := 0
  const VIRTIO_NET_TRANS_IDX: nat := 1

  /** Feature words: MAC (bit 5) in word 0 and VIRTIO_F_VERSION_1 (bit 32). */
  const FEATURES: seq<bv32> := [0x20, 1, 0, 0]
  const MAC_ADDRESS: seq<bv8> := [2, 0, 0, 1, 2, 3]
  const MAX_QUEUE_SIZE: nat := 256

  /** The transport of a freshly built network device: two queues of at
      most 256 entries. */
  function InitialRegs(): (r: VirtioState)
    ensures r.Valid() && r.QueueNum() == 2 && r.status == 0 && r.deviceType == Network
    ensures !r.readies[VIRTIO_NET_RECV_IDX] && !r.readies[VIRTIO_NET_TRANS_IDX]
  {
    New(Network, FEATURES, 2, 256)
  }

  /** `VirtioNetHeader` in its in-memory layout (seven little-endian fields,
      12 bytes), every field 0 except `num_buffers`, the last one. */
  function Header(numBuffers: bv16): (r: seq<bv8>)
    ensures |r| == VIRTIO_NET_HEADER_SIZE
  {
    [0, 0, 0, 0, 0, 0, 0, 0, 0, 0] + U16Le(numBuffers)
  }

  /** The header decodes back: `num_buffers` at byte 10, zeros before it. */
  lemma HeaderLayout(n: bv16)
    ensures Le16At(Header(n), 10) == n
    ensures forall k :: 0 <= k < 10 ==> Header(n)[k] == 0
  {
    Le16AtBytes(n, Header(n), 10);
  }

  /** The device's own state beside the transport: the last ring index it
      consumed per queue, and the two host channels. */
  datatype NetState = NetState(lastIdxes: seq<bv16>, incoming: seq<seq<bv8>>, sent: seq<seq<bv8>>)

  /** The outcome of a tick or a notify: whether it raises the interrupt,
      the device's new state and the new RAM bytes. */
  datatype NetStep = NetStep(interrupt: bool, dev: NetState, mem: seq<bv8>)

  /** The interrupt flag of a step, or its failure. */
  function Flag(o: Outcome<NetStep>): (r: Outcome<bool>)
    ensures r.Ok? <==> o.Ok?
    ensures r.Ok? ==> r.value == o.value.interrupt
    ensures o.Panic? ==> r.Panic?
  {
    match o
    case Ok(s) => Ok(s.interrupt)
    case Fail(t) => Fail(t)
    case Panic => Panic
  }

  /** `read`: below the configuration space the transport answers; above it
      only single bytes, and only the six MAC bytes exist. */
  function NetRead(regs: VirtioState, offset: bv32, size: bv32): Outcome<DeviceResponse<bv32>>
  {
    if offset < VIRTIO_REG_CONFIG then VirtioTransport.ReadSpec(regs, offset, size)
    else if size != 1 then Panic
    else
      var k := Nat32(offset - VIRTIO_REG_CONFIG);
      if k < |MAC_ADDRESS| then Ok(DeviceResponse(Widen8(MAC_ADDRESS[k]), false)) else Panic
  }

  /** The configuration space holds the MAC address 02:00:00:01:02:03, one
      byte at a time; a wider access or a byte past the MAC panics. */
  lemma ConfigRead(regs: VirtioState, offset: bv32, size: bv32)
    ensures offset < 0x100 ==> NetRead(regs, offset, size) == VirtioTransport.ReadSpec(regs, offset, size)
    ensures offset >= 0x100 && size != 1 ==> NetRead(regs, offset, size) == Panic
    ensures offset >= 0x106 ==> NetRead(regs, offset, size) == Panic
    ensures NetRead(regs, 0x100, 1) == Ok(DeviceResponse(2, false))
    ensures NetRead(regs, 0x101, 1) == Ok(DeviceResponse(0, false))
    ensures NetRead(regs, 0x102, 1) == Ok(DeviceResponse(0, false))
    ensures NetRead(regs, 0x103, 1) == Ok(DeviceResponse(1, false))
    ensures NetRead(regs, 0x104, 1) == Ok(DeviceResponse(2, false))
    ensures NetRead(regs, 0x105, 1) == Ok(DeviceResponse(3, false))
  {
    assert Nat32(0) == 0 && Nat32(1) == 1 && Nat32(2) == 2;
    assert Nat32(3) == 3 && Nat32(4) == 4 && Nat32(5) == 5;
    assert Widen8(2) == 2 && Widen8(0) == 0 && Widen8(1) == 1 && Widen8(3) == 3;
    if offset >= 0x106 {
      assert Nat32(offset - VIRTIO_REG_CONFIG) >= 6;
    }
  }

  // Receive: `tick`.

  /** The delivery of packet `v` once a receive buffer is available: the
      descriptor the driver ring names at `last mod 256` gets the header
      (num_buffers 1) and the packet, the used element at the same slot gets
      the descriptor and the written length, and the used index and
      `last` advance by one (wrapping). A packet longer than the buffer
      panics. */
  function Deliver(regs: VirtioState, last: bv16, v: seq<bv8>, mem: seq<bv8>, base: nat,
                   drvAddr: nat, devAddr: nat): Outcome<(bv16, seq<bv8>)>
  {
    var descBase :- DescAddr(regs, VIRTIO_NET_RECV_IDX);
    var slot := Nat16(last) % MAX_QUEUE_SIZE;
    var descIdx :- DriverRing(mem, base, drvAddr, MAX_QUEUE_SIZE, slot);
    var desc :- DescAt(mem, base, descBase, descIdx);
    var m1 :- FillBuffer(mem, base, desc, v);
    var m2 :- PushUsed(m1, base, devAddr, MAX_QUEUE_SIZE, slot, Widen16(descIdx),
                       Wrap32(|v| + VIRTIO_NET_HEADER_SIZE));
    Ok((last + 1, m2))
  }

  /** The receive buffer `desc` filled with the header and packet `v`: the
      packet must fit the buffer, and the whole buffer must lie in RAM. */
  function FillBuffer(mem: seq<bv8>, base: nat, desc: VirtQueueDesc, v: seq<bv8>): (r: Outcome<seq<bv8>>)
    ensures r.Ok? <==> (|v| + VIRTIO_NET_HEADER_SIZE <= Nat32(desc.len) &&
      Ram.RawRead(mem, base, desc.addr, Nat32(desc.len)).Ok?)
    ensures r.Ok? ==> base <= desc.addr && desc.addr - base + |v| + VIRTIO_NET_HEADER_SIZE <= |mem|
    ensures r.Ok? ==> r.value == Ram.Overwrite(mem, desc.addr - base, Header(1) + v)
  {
    if |v| + VIRTIO_NET_HEADER_SIZE > Nat32(desc.len) then Panic
    else
      var _ :- Ram.RawRead(mem, base, desc.addr, Nat32(desc.len));
      Ok(Ram.Overwrite(mem, desc.addr - base, Header(1) + v))
  }

  /** `tick`: nothing happens while the receive queue is not ready or no
      packet waits; otherwise the first packet is taken from the channel,
      both ring views are checked, and the packet is delivered, or dropped
      when the driver has made no buffer available. */
  function TickSpec(regs: VirtioState, ns: NetState, mem: seq<bv8>, base: nat): Outcome<NetStep>
  {
    var ready :- IsReady(regs, VIRTIO_NET_RECV_IDX);
    if !ready || ns.incoming == [] then Ok(NetStep(false, ns, mem))
    else
      var v := ns.incoming[0];
      var taken := ns.(incoming := ns.incoming[1..]);
      var drvAddr :- DriverAddr(regs, VIRTIO_NET_RECV_IDX);
      var avail :- DriverIdx(mem, base, drvAddr, MAX_QUEUE_SIZE);
      var devAddr :- DeviceAddr(regs, VIRTIO_NET_RECV_IDX);
      var used :- DeviceIdx(mem, base, devAddr, MAX_QUEUE_SIZE);
      if |ns.lastIdxes| <= VIRTIO_NET_RECV_IDX then Panic
      else if avail == ns.lastIdxes[VIRTIO_NET_RECV_IDX] then Ok(NetStep(false, taken, mem))
      else
        var d :- Deliver(regs, ns.lastIdxes[VIRTIO_NET_RECV_IDX], v, mem, base, drvAddr, devAddr);
        Ok(NetStep(true, taken.(lastIdxes := ns.lastIdxes[VIRTIO_NET_RECV_IDX := d.0]), d.1))
  }

  /** The two writes of a delivery: the buffer is filled, then the used
      element is pushed; `last` advances by one (wrapping). */
  lemma DeliverSteps(regs: VirtioState, last: bv16, v: seq<bv8>, mem: seq<bv8>, base: nat,
                     drvAddr: nat, devAddr: nat, d: (bv16, seq<bv8>), descIdx: bv16, desc: VirtQueueDesc)
    requires Deliver(regs, last, v, mem, base, drvAddr, devAddr) == Ok(d)
    requires DriverRing(mem, base, drvAddr, MAX_QUEUE_SIZE, Nat16(last) % MAX_QUEUE_SIZE) == Ok(descIdx)
    requires DescAt(mem, base, DescAddr(regs, VIRTIO_NET_RECV_IDX).value, descIdx) == Ok(desc)
    ensures d.0 == last + 1 && FillBuffer(mem, base, desc, v).Ok?
    ensures PushUsed(FillBuffer(mem, base, desc, v).value, base, devAddr, MAX_QUEUE_SIZE,
      Nat16(last) % MAX_QUEUE_SIZE, Widen16(descIdx), Wrap32(|v| + VIRTIO_NET_HEADER_SIZE)) == Ok(d.1)
  {
  }

  /** A delivery fills the used element of the slot with the descriptor
      and the written length (header included), and keeps the RAM's size. */
  lemma DeliverEffect(regs: VirtioState, last: bv16, v: seq<bv8>, mem: seq<bv8>, base: nat,
                      drvAddr: nat, devAddr: nat, d: (bv16, seq<bv8>), descIdx: bv16, desc: VirtQueueDesc)
    requires Deliver(regs, last, v, mem, base, drvAddr, devAddr) == Ok(d)
    requires DriverRing(mem, base, drvAddr, MAX_QUEUE_SIZE, Nat16(last) % MAX_QUEUE_SIZE) == Ok(descIdx)
    requires DescAt(mem, base, DescAddr(regs, VIRTIO_NET_RECV_IDX).value, descIdx) == Ok(desc)
    ensures d.0 == last + 1 && |d.1| == |mem|
    ensures UsedElem(d.1, base, devAddr, MAX_QUEUE_SIZE, Nat16(last) % MAX_QUEUE_SIZE) ==
      Ok((Widen16(descIdx), Wrap32(|v| + VIRTIO_NET_HEADER_SIZE)))
  {
    DeliverSteps(regs, last, v, mem, base, drvAddr, devAddr, d, descIdx, desc);
    var m1 := FillBuffer(mem, base, desc, v).value;
    PushUsedElem(m1, base, devAddr, MAX_QUEUE_SIZE, Nat16(last) % MAX_QUEUE_SIZE, Widen16(descIdx),
                 Wrap32(|v| + VIRTIO_NET_HEADER_SIZE));
  }

  /** When the receive buffer lies outside the used ring, the buffer holds
      the header and the packet after a delivery. */
  lemma DeliverPacket(regs: VirtioState, last: bv16, v: seq<bv8>, mem: seq<bv8>, base: nat,
                      drvAddr: nat, devAddr: nat, d: (bv16, seq<bv8>), descIdx: bv16, desc: VirtQueueDesc)
    requires Deliver(regs, last, v, mem, base, drvAddr, devAddr) == Ok(d)
    requires DriverRing(mem, base, drvAddr, MAX_QUEUE_SIZE, Nat16(last) % MAX_QUEUE_SIZE) == Ok(descIdx)
    requires DescAt(mem, base, DescAddr(regs, VIRTIO_NET_RECV_IDX).value, descIdx) == Ok(desc)
    requires OutsideDeviceView(base, devAddr, MAX_QUEUE_SIZE, desc.addr - base, |v| + VIRTIO_NET_HEADER_SIZE)
    ensures base <= desc.addr && desc.addr - base + |v| + VIRTIO_NET_HEADER_SIZE <= |d.1|
    ensures d.1[desc.addr - base..desc.addr - base + |v| + VIRTIO_NET_HEADER_SIZE] == Header(1) + v
  {
    DeliverSteps(regs, last, v, mem, base, drvAddr, devAddr, d, descIdx, desc);
    var off := desc.addr - base;
    var w := Header(1) + v;
    var m1 := FillBuffer(mem, base, desc, v).value;
    var n := |v| + VIRTIO_NET_HEADER_SIZE;
    assert |w| == n;
    assert m1[off..off + n] == w by {
      Ram.OverwriteRange(mem, off, w);
    }
    PushUsedElsewhere(m1, base, devAddr, MAX_QUEUE_SIZE, Nat16(last) % MAX_QUEUE_SIZE, Widen16(descIdx),
                      Wrap32(n), d.1, off, n);
  }

  /** Filling a buffer outside the used ring leaves the used index alone. */
  lemma FillBufferKeepsIdx(mem: seq<bv8>, base: nat, desc: VirtQueueDesc, v: seq<bv8>, m1: seq<bv8>,
                           devAddr: nat)
    requires FillBuffer(mem, base, desc, v) == Ok(m1)
    requires OutsideDeviceView(base, devAddr, MAX_QUEUE_SIZE, desc.addr - base, |v| + VIRTIO_NET_HEADER_SIZE)
    ensures DeviceIdx(m1, base, devAddr, MAX_QUEUE_SIZE) == DeviceIdx(mem, base, devAddr, MAX_QUEUE_SIZE)
  {
    var n := DeviceViewSize(MAX_QUEUE_SIZE);
    if Ram.RawRead(mem, base, devAddr, n).Ok? {
      Ram.OverwriteElsewhere(mem, desc.addr - base, Header(1) + v, devAddr - base, n);
      assert Ram.RawRead(m1, base, devAddr, n) == Ram.RawRead(mem, base, devAddr, n);
    } else {
      assert Ram.RawRead(m1, base, devAddr, n) == Ram.RawRead(mem, base, devAddr, n);
    }
  }

  /** When the receive buffer lies outside the used ring, a delivery raises
      the used index by one (wrapping). */
  lemma DeliverUsed(regs: VirtioState, last: bv16, v: seq<bv8>, mem: seq<bv8>, base: nat,
                    drvAddr: nat, devAddr: nat, d: (bv16, seq<bv8>), descIdx: bv16, desc: VirtQueueDesc,
                    idx: bv16)
    requires Deliver(regs, last, v, mem, base, drvAddr, devAddr) == Ok(d)
    requires DriverRing(mem, base, drvAddr, MAX_QUEUE_SIZE, Nat16(last) % MAX_QUEUE_SIZE) == Ok(descIdx)
    requires DescAt(mem, base, DescAddr(regs, VIRTIO_NET_RECV_IDX).value, descIdx) == Ok(desc)
    requires OutsideDeviceView(base, devAddr, MAX_QUEUE_SIZE, desc.addr - base, |v| + VIRTIO_NET_HEADER_SIZE)
    requires DeviceIdx(mem, base, devAddr, MAX_QUEUE_SIZE) == Ok(idx)
    ensures DeviceIdx(d.1, base, devAddr, MAX_QUEUE_SIZE) == Ok(idx + 1)
  {
    DeliverSteps(regs, last, v, mem, base, drvAddr, devAddr, d, descIdx, desc);
    var m1 := FillBuffer(mem, base, desc, v).value;
    FillBufferKeepsIdx(mem, base, desc, v, m1, devAddr);
    PushUsedIdx(m1, base, devAddr, MAX_QUEUE_SIZE, Nat16(last) % MAX_QUEUE_SIZE, Widen16(descIdx),
                Wrap32(|v| + VIRTIO_NET_HEADER_SIZE), d.1, idx);
  }

  /** Without a ready receive queue or a waiting packet a tick changes
      nothing and raises no interrupt. */
  lemma TickIdle(regs: VirtioState, ns: NetState, mem: seq<bv8>, base: nat)
    requires IsReady(regs, VIRTIO_NET_RECV_IDX) == Ok(false) ||
             (IsReady(regs, VIRTIO_NET_RECV_IDX).Ok? && ns.incoming == [])
    ensures TickSpec(regs, ns, mem, base) == Ok(NetStep(false, ns, mem))
  {
  }

  /** A tick with a waiting packet takes it off the channel whatever
      follows; it interrupts exactly when the driver has a buffer available,
      and then `last` advances by one; otherwise the packet is dropped and
      the RAM and `last` stay as they were. */
  lemma TickTakes(regs: VirtioState, ns: NetState, mem: seq<bv8>, base: nat, st: NetStep,
                  drvAddr: nat, avail: bv16)
    requires IsReady(regs, VIRTIO_NET_RECV_IDX) == Ok(true) && ns.incoming != []
    requires TickSpec(regs, ns, mem, base) == Ok(st)
    requires DriverAddr(regs, VIRTIO_NET_RECV_IDX) == Ok(drvAddr)
    requires DriverIdx(mem, base, drvAddr, MAX_QUEUE_SIZE) == Ok(avail)
    ensures |ns.lastIdxes| > VIRTIO_NET_RECV_IDX
    ensures st.dev.incoming == ns.incoming[1..] && st.dev.sent == ns.sent
    ensures st.interrupt <==> avail != ns.lastIdxes[VIRTIO_NET_RECV_IDX]
    ensures !st.interrupt ==> st.mem == mem && st.dev.lastIdxes == ns.lastIdxes
    ensures st.interrupt ==> |st.mem| == |mem|
    ensures st.interrupt ==> st.dev.lastIdxes == ns.lastIdxes[VIRTIO_NET_RECV_IDX := ns.lastIdxes[VIRTIO_NET_RECV_IDX] + 1]
  {
    var last := ns.lastIdxes[VIRTIO_NET_RECV_IDX];
    if avail != last {
      var devAddr := DeviceAddr(regs, VIRTIO_NET_RECV_IDX).value;
      var d := Deliver(regs, last, ns.incoming[0], mem, base, drvAddr, devAddr).value;
      var descIdx := DriverRing(mem, base, drvAddr, MAX_QUEUE_SIZE, Nat16(last) % MAX_QUEUE_SIZE).value;
      var desc := DescAt(mem, base, DescAddr(regs, VIRTIO_NET_RECV_IDX).value, descIdx).value;
      DeliverEffect(regs, last, ns.incoming[0], mem, base, drvAddr, devAddr, d, descIdx, desc);
    }
  }

  // Transmit: `handle_notify`.

  /** Ring slot `cur` (`last + i`, wrapping) of a transmit batch: the
      descriptor the driver ring names at `cur mod 256` is read whole (a
      chained one is unimplemented), everything after its 12-byte header is
      the packet, and the used element at the same slot gets the descriptor
      with length 0; the used index advances by one (wrapping). */
  function TransmitSlot(mem: seq<bv8>, base: nat, drvAddr: nat, devAddr: nat, descBase: nat,
                        cur: bv16): Outcome<(seq<bv8>, seq<bv8>)>
  {
    var slot := Nat16(cur) % MAX_QUEUE_SIZE;
    var descIdx :- DriverRing(mem, base, drvAddr, MAX_QUEUE_SIZE, slot);
    var desc :- DescAt(mem, base, descBase, descIdx);
    if desc.IsNext() then Panic
    else
      var data :- Ram.RawRead(mem, base, desc.addr, Nat32(desc.len));
      if |data| < VIRTIO_NET_HEADER_SIZE then Panic
      else
        var m :- PushUsed(mem, base, devAddr, MAX_QUEUE_SIZE, slot, Widen16(descIdx), 0);
        Ok((data[VIRTIO_NET_HEADER_SIZE..], m))
  }

  /** The `remaining` slots of a transmit batch from ring index `cur` on,
      each packet appended to `out`: the packets sent and the final memory. */
  function TransmitFrom(mem: seq<bv8>, base: nat, drvAddr: nat, devAddr: nat, descBase: nat,
                        cur: bv16, remaining: bv16, out: seq<seq<bv8>>): Outcome<(seq<seq<bv8>>, seq<bv8>)>
    decreases remaining
  {
    if remaining == 0 then Ok((out, mem))
    else
      var s :- TransmitSlot(mem, base, drvAddr, devAddr, descBase, cur);
      TransmitFrom(s.1, base, drvAddr, devAddr, descBase, cur + 1, remaining - 1, out + [s.0])
  }

  /** The slots a transmit notify sends: ring indexes from `last` up to
      the driver's `avail`, through the queue's three areas. */
  datatype Batch = Batch(drvAddr: nat, devAddr: nat, descBase: nat, last: bv16, avail: bv16)

  /** The checks of `handle_notify(q)`: both ring views of queue `q` must
      lie in RAM; a notify on the receive queue, or on the transmit queue
      with no new slot, has nothing to send; any other queue panics. */
  function NotifyBatch(regs: VirtioState, ns: NetState, mem: seq<bv8>, base: nat, q: bv32)
    : (r: Outcome<Option<Batch>>)
    ensures r.Ok? && r.value.Some? ==>
      Nat32(q) == VIRTIO_NET_TRANS_IDX < |ns.lastIdxes| && r.value.value.last == ns.lastIdxes[VIRTIO_NET_TRANS_IDX]
  {
    var qi := Nat32(q);
    var drvAddr :- DriverAddr(regs, qi);
    var avail :- DriverIdx(mem, base, drvAddr, MAX_QUEUE_SIZE);
    var devAddr :- DeviceAddr(regs, qi);
    var used :- DeviceIdx(mem, base, devAddr, MAX_QUEUE_SIZE);
    if qi >= |ns.lastIdxes| then Panic
    else if qi == VIRTIO_NET_RECV_IDX then Ok(None)
    else if qi != VIRTIO_NET_TRANS_IDX then Panic
    else if avail == ns.lastIdxes[qi] then Ok(None)
    else
      var descBase :- DescAddr(regs, qi);
      Ok(Some(Batch(drvAddr, devAddr, descBase, ns.lastIdxes[qi], avail)))
  }

  /** `handle_notify(q)`: every slot of the batch is sent, and `last`
      becomes the driver's index. */
  function NotifySpec(regs: VirtioState, ns: NetState, mem: seq<bv8>, base: nat, q: bv32): Outcome<NetStep>
  {
    var batch :- NotifyBatch(regs, ns, mem, base, q);
    match batch
    case None => Ok(NetStep(false, ns, mem))
    case Some(b) =>
      var t :- TransmitFrom(mem, base, b.drvAddr, b.devAddr, b.descBase, b.last, Distance16(b.avail, b.last), ns.sent);
      Ok(NetStep(true, ns.(lastIdxes := ns.lastIdxes[VIRTIO_NET_TRANS_IDX := b.avail], sent := t.0), t.1))
  }

  /** A transmitted slot's memory is the used ring with the slot's
      descriptor pushed. */
  lemma TransmitSlotPushes(mem: seq<bv8>, base: nat, drvAddr: nat, devAddr: nat, descBase: nat, cur: bv16,
                           s: (seq<bv8>, seq<bv8>))
    requires TransmitSlot(mem, base, drvAddr, devAddr, descBase, cur) == Ok(s)
    ensures var slot := Nat16(cur) % MAX_QUEUE_SIZE;
      DriverRing(mem, base, drvAddr, MAX_QUEUE_SIZE, slot).Ok? &&
      PushUsed(mem, base, devAddr, MAX_QUEUE_SIZE, slot,
               Widen16(DriverRing(mem, base, drvAddr, MAX_QUEUE_SIZE, slot).value), 0) == Ok(s.1)
  {
  }

  /** One transmitted slot: the used element of the slot holds the
      descriptor with length 0 and the used index is one higher; the RAM
      keeps its size. */
  lemma TransmitSlotEffect(mem: seq<bv8>, base: nat, drvAddr: nat, devAddr: nat, descBase: nat, cur: bv16,
                           s: (seq<bv8>, seq<bv8>))
    requires TransmitSlot(mem, base, drvAddr, devAddr, descBase, cur) == Ok(s)
    ensures var slot := Nat16(cur) % MAX_QUEUE_SIZE;
      |s.1| == |mem| && DriverRing(mem, base, drvAddr, MAX_QUEUE_SIZE, slot).Ok? &&
      UsedElem(s.1, base, devAddr, MAX_QUEUE_SIZE, slot) ==
        Ok((Widen16(DriverRing(mem, base, drvAddr, MAX_QUEUE_SIZE, slot).value), 0))
  {
    var slot := Nat16(cur) % MAX_QUEUE_SIZE;
    TransmitSlotPushes(mem, base, drvAddr, devAddr, descBase, cur, s);
    var descIdx := DriverRing(mem, base, drvAddr, MAX_QUEUE_SIZE, slot).value;
    PushUsedElem(mem, base, devAddr, MAX_QUEUE_SIZE, slot, Widen16(descIdx), 0);
  }

  /** One transmitted slot raises the used index by one (wrapping). */
  lemma TransmitSlotUsed(mem: seq<bv8>, base: nat, drvAddr: nat, devAddr: nat, descBase: nat, cur: bv16,
                         s: (seq<bv8>, seq<bv8>), idx: bv16)
    requires TransmitSlot(mem, base, drvAddr, devAddr, descBase, cur) == Ok(s)
    requires DeviceIdx(mem, base, devAddr, MAX_QUEUE_SIZE) == Ok(idx)
    ensures DeviceIdx(s.1, base, devAddr, MAX_QUEUE_SIZE) == Ok(idx + 1)
  {
    var slot := Nat16(cur) % MAX_QUEUE_SIZE;
    TransmitSlotPushes(mem, base, drvAddr, devAddr, descBase, cur, s);
    var descIdx := DriverRing(mem, base, drvAddr, MAX_QUEUE_SIZE, slot).value;
    PushUsedIdx(mem, base, devAddr, MAX_QUEUE_SIZE, slot, Widen16(descIdx), 0, s.1, idx);
  }

  /** A transmit batch sends one packet per slot, after the ones sent
      before, and keeps the RAM's size. */
  lemma {:induction false} TransmitFromSent(mem: seq<bv8>, base: nat, drvAddr: nat, devAddr: nat,
                                            descBase: nat, cur: bv16, remaining: bv16, out: seq<seq<bv8>>,
                                            t: (seq<seq<bv8>>, seq<bv8>))
    requires TransmitFrom(mem, base, drvAddr, devAddr, descBase, cur, remaining, out) == Ok(t)
    ensures |t.0| == |out| + Steps(remaining) && t.0[..|out|] == out && |t.1| == |mem|
    decreases remaining
  {
    if remaining != 0 {
      var s := TransmitSlot(mem, base, drvAddr, devAddr, descBase, cur).value;
      TransmitSlotEffect(mem, base, drvAddr, devAddr, descBase, cur, s);
      TransmitFromSent(s.1, base, drvAddr, devAddr, descBase, cur + 1, remaining - 1, out + [s.0], t);
      assert t.0[..|out|] == (out + [s.0])[..|out|];
    }
  }

  /** A transmit batch raises the used index by the number of slots
      (wrapping). */
  lemma {:induction false} TransmitFromUsed(mem: seq<bv8>, base: nat, drvAddr: nat, devAddr: nat,
                                            descBase: nat, cur: bv16, remaining: bv16, out: seq<seq<bv8>>,
                                            t: (seq<seq<bv8>>, seq<bv8>), idx: bv16)
    requires TransmitFrom(mem, base, drvAddr, devAddr, descBase, cur, remaining, out) == Ok(t)
    requires DeviceIdx(mem, base, devAddr, MAX_QUEUE_SIZE) == Ok(idx)
    ensures DeviceIdx(t.1, base, devAddr, MAX_QUEUE_SIZE) == Ok(Advance16(idx, remaining))
    decreases remaining
  {
    if remaining != 0 {
      var s := TransmitSlot(mem, base, drvAddr, devAddr, descBase, cur).value;
      TransmitSlotUsed(mem, base, drvAddr, devAddr, descBase, cur, s, idx);
      TransmitFromUsed(s.1, base, drvAddr, devAddr, descBase, cur + 1, remaining - 1, out + [s.0], t, idx + 1);
      AdvanceStep16(idx, remaining);
    }
  }

  /** A notify on the receive queue changes nothing and raises no
      interrupt. */
  lemma NotifyRecv(regs: VirtioState, ns: NetState, mem: seq<bv8>, base: nat, st: NetStep)
    requires NotifySpec(regs, ns, mem, base, 0) == Ok(st)
    ensures st == NetStep(false, ns, mem)
  {
    assert Nat32(0) == VIRTIO_NET_RECV_IDX;
  }

  /** A notify naming a queue past the two the device has never succeeds. */
  lemma NotifyOther(regs: VirtioState, ns: NetState, mem: seq<bv8>, base: nat, q: bv32)
    requires Nat32(q) > VIRTIO_NET_TRANS_IDX
    ensures !NotifySpec(regs, ns, mem, base, q).Ok?
  {
  }

  /** What a notify on the transmit queue sends: nothing exactly when the
      driver's index is still `last`, otherwise the slots from `last` up to
      it, through the queue's registered areas. */
  lemma NotifyBatchTransmit(regs: VirtioState, ns: NetState, mem: seq<bv8>, base: nat, b: Option<Batch>,
                            drvAddr: nat, avail: bv16, devAddr: nat)
    requires NotifyBatch(regs, ns, mem, base, 1) == Ok(b)
    requires DriverAddr(regs, VIRTIO_NET_TRANS_IDX) == Ok(drvAddr)
    requires DriverIdx(mem, base, drvAddr, MAX_QUEUE_SIZE) == Ok(avail)
    requires DeviceAddr(regs, VIRTIO_NET_TRANS_IDX) == Ok(devAddr)
    ensures |ns.lastIdxes| > VIRTIO_NET_TRANS_IDX
    ensures b.None? <==> avail == ns.lastIdxes[VIRTIO_NET_TRANS_IDX]
    ensures b.Some? ==> b.value.drvAddr == drvAddr && b.value.devAddr == devAddr && b.value.avail == avail
    ensures b.Some? ==> DescAddr(regs, VIRTIO_NET_TRANS_IDX) == Ok(b.value.descBase)
  {
    assert Nat32(1) == VIRTIO_NET_TRANS_IDX;
  }

  /** A notify on the transmit queue sends one packet per slot from `last`
      up to the driver's index, appended to the ones sent before, and moves
      `last` to that index; it interrupts exactly when there was a slot to
      send. The receive channel and the RAM's size are untouched. */
  lemma NotifyTransmit(regs: VirtioState, ns: NetState, mem: seq<bv8>, base: nat, st: NetStep,
                       drvAddr: nat, avail: bv16, devAddr: nat)
    requires NotifySpec(regs, ns, mem, base, 1) == Ok(st)
    requires DriverAddr(regs, VIRTIO_NET_TRANS_IDX) == Ok(drvAddr)
    requires DriverIdx(mem, base, drvAddr, MAX_QUEUE_SIZE) == Ok(avail)
    requires DeviceAddr(regs, VIRTIO_NET_TRANS_IDX) == Ok(devAddr)
    ensures |ns.lastIdxes| > VIRTIO_NET_TRANS_IDX
    ensures st.interrupt <==> avail != ns.lastIdxes[VIRTIO_NET_TRANS_IDX]
    ensures st.dev.lastIdxes == ns.lastIdxes[VIRTIO_NET_TRANS_IDX := avail] && st.dev.incoming == ns.incoming
    ensures |st.dev.sent| == |ns.sent| + Steps(Distance16(avail, ns.lastIdxes[VIRTIO_NET_TRANS_IDX]))
    ensures st.dev.sent[..|ns.sent|] == ns.sent && |st.mem| == |mem|
  {
    var b := NotifyBatch(regs, ns, mem, base, 1).value;
    NotifyBatchTransmit(regs, ns, mem, base, b, drvAddr, avail, devAddr);
    var last := ns.lastIdxes[VIRTIO_NET_TRANS_IDX];
    if b.None? {
      assert ns.lastIdxes[VIRTIO_NET_TRANS_IDX := avail] == ns.lastIdxes;
      assert Distance16(avail, last) == 0;
    } else {
      TransmitFromSent(mem, base, drvAddr, devAddr, b.value.descBase, last, Distance16(avail, last), ns.sent,
                       (st.dev.sent, st.mem));
    }
  }

  /** A notify on the transmit queue raises the used index by as many
      slots as it moves `last`: the distance between the two indexes is
      kept (wrapping). */
  lemma NotifyTransmitUsed(regs: VirtioState, ns: NetState, mem: seq<bv8>, base: nat, st: NetStep,
                           drvAddr: nat, avail: bv16, devAddr: nat, used: bv16)
    requires NotifySpec(regs, ns, mem, base, 1) == Ok(st)
    requires DriverAddr(regs, VIRTIO_NET_TRANS_IDX) == Ok(drvAddr)
    requires DriverIdx(mem, base, drvAddr, MAX_QUEUE_SIZE) == Ok(avail)
    requires DeviceAddr(regs, VIRTIO_NET_TRANS_IDX) == Ok(devAddr)
    requires DeviceIdx(mem, base, devAddr, MAX_QUEUE_SIZE) == Ok(used)
    ensures |ns.lastIdxes| > VIRTIO_NET_TRANS_IDX
    ensures DeviceIdx(st.mem, base, devAddr, MAX_QUEUE_SIZE) ==
      Ok(Advance16(used, Distance16(avail, ns.lastIdxes[VIRTIO_NET_TRANS_IDX])))
  {
    var b := NotifyBatch(regs, ns, mem, base, 1).value;
    NotifyBatchTransmit(regs, ns, mem, base, b, drvAddr, avail, devAddr);
    var last := ns.lastIdxes[VIRTIO_NET_TRANS_IDX];
    if b.None? {
      assert Advance16(used, Distance16(avail, last)) == used;
    } else {
      TransmitFromUsed(mem, base, drvAddr, devAddr, b.value.descBase, last, Distance16(avail, last), ns.sent,
                       (st.dev.sent, st.mem), used);
    }
  }

  /** The device's registers and own state together. */
  datatype NetDevice = NetDevice(regs: VirtioState, own: NetState)

  /** The initial device (`VirtioNet::new`), and what a reset makes of a
      device: a fresh transport and last indexes, the channels kept. */
  function Fresh(own: NetState): (r: NetDevice)
    ensures r.regs == InitialRegs() && r.own.lastIdxes == [0, 0]
    ensures r.own.incoming == own.incoming && r.own.sent == own.sent
  {
    NetDevice(InitialRegs(), own.(lastIdxes := [0, 0]))
  }

  /** `write`: a notify (0x50) runs `handle_notify` with the written queue
      index and reports its interrupt; a status write of 0 resets the
      device; anything else goes to the transport and raises nothing. The
      result is the interrupt flag, the new device and the new RAM. */
  function NetWrite(d: NetDevice, mem: seq<bv8>, base: nat, offset: bv32, size: bv32, value: bv32)
    : Outcome<(bool, NetDevice, seq<bv8>)>
  {
    if offset == VIRTIO_REG_NOTIFY then
      var s :- NotifySpec(d.regs, d.own, mem, base, value);
      Ok((s.interrupt, NetDevice(d.regs, s.dev), s.mem))
    else if offset == VIRTIO_REG_STATUS && value == 0 then
      Ok((false, Fresh(d.own), mem))
    else
      var regs :- VirtioTransport.WriteSpec(d.regs, offset, size, value);
      Ok((false, NetDevice(regs, d.own), mem))
  }

  /** The response `write` gives for an outcome of `NetWrite`. */
  function Respond(o: Outcome<(bool, NetDevice, seq<bv8>)>): (r: Outcome<DeviceResponse<()>>)
    ensures r.Ok? <==> o.Ok?
    ensures r.Ok? ==> r.value.isInterrupting == o.value.0
    ensures o.Panic? ==> r.Panic?
  {
    match o
    case Ok(w) => Ok(DeviceResponse((), w.0))
    case Fail(t) => Fail(t)
    case Panic => Panic
  }

  /** A status write of 0 resets the device whatever its state: every
      queue not ready, status 0, last indexes 0; the channels and the RAM
      are kept and no interrupt is raised. */
  lemma ResetOnStatusZero(d: NetDevice, mem: seq<bv8>, base: nat, size: bv32)
    ensures NetWrite(d, mem, base, VIRTIO_REG_STATUS, size, 0) == Ok((false, Fresh(d.own), mem))
    ensures var f := Fresh(d.own);
      f.regs.status == 0 && !f.regs.readies[VIRTIO_NET_RECV_IDX] && !f.regs.readies[VIRTIO_NET_TRANS_IDX] &&
      f.own.lastIdxes == [0, 0] && f.own.incoming == d.own.incoming && f.own.sent == d.own.sent
  {
  }

  /** A write to any other transport register leaves the device's own
      state and the RAM alone and raises nothing. */
  lemma TransportWrite(d: NetDevice, mem: seq<bv8>, base: nat, offset: bv32, size: bv32, value: bv32)
    requires offset != VIRTIO_REG_NOTIFY && !(offset == VIRTIO_REG_STATUS && value == 0)
    ensures NetWrite(d, mem, base, offset, size, value).Ok? <==>
      VirtioTransport.WriteSpec(d.regs, offset, size, value).Ok?
    ensures NetWrite(d, mem, base, offset, size, value).Ok? ==>
      NetWrite(d, mem, base, offset, size, value).value ==
        (false, NetDevice(VirtioTransport.WriteSpec(d.regs, offset, size, value).value, d.own), mem)
  {
  }

  /** `VirtioNet`: the transport, the last ring index consumed per queue,
      and the host channels. */
  class VirtioNet {
    var virtio: VirtioMmio
    var lastIdxes: seq<bv16>
    var incoming: seq<seq<bv8>>
    var sent: seq<seq<bv8>>

    function Own(): NetState
      reads this
    {
      NetState(lastIdxes, incoming, sent)
    }

    function Device(): NetDevice
      reads this, virtio
    {
      NetDevice(virtio.State(), Own())
    }

    /** `VirtioNet::new`: packets from `input` will be received; nothing has
        been sent. */
    constructor (input: seq<seq<bv8>>)
      ensures fresh(virtio) && Device() == Fresh(NetState([], input, []))
    {
      virtio := new VirtioMmio(Network, FEATURES, 2, 256);
      lastIdxes := [0, 0];
      incoming := input;
      sent := [];
    }

    /** `irq`. */
    function Irq(): (r: IRQ)
    {
      IRQ.VirtioNet
    }

    /** `reset`: `*self = Self::new(..)` with the same channels. */
    method Reset()
      modifies this
      ensures fresh(virtio) && Device() == Fresh(old(Own()))
    {
      virtio := new VirtioMmio(Network, FEATURES, 2, 256);
      lastIdxes := [0, 0];
    }

    /** `read`. */
    method Read(offset: bv32, size: bv32) returns (r: Outcome<DeviceResponse<bv32>>)
      ensures r == NetRead(virtio.State(), offset, size)
    {
      if offset < VIRTIO_REG_CONFIG {
        r := virtio.Read(offset, size);
      } else if size != 1 {
        r := Panic;
      } else {
        var k := Nat32(offset - VIRTIO_REG_CONFIG);
        r := if k < |MAC_ADDRESS| then Ok(DeviceResponse(Widen8(MAC_ADDRESS[k]), false)) else Panic;
      }
    }

    /** `write`. */
    method Write(offset: bv32, size: bv32, value: bv32, memory: Ram.Memory) returns (r: Outcome<DeviceResponse<()>>)
      modifies this, virtio, memory
      ensures memory.baseAddress == old(memory.baseAddress)
      ensures r == Respond(NetWrite(old(Device()), old(memory.bytes), Nat32(memory.baseAddress),
                                    offset, size, value))
      ensures r.Ok? ==>
        var w := NetWrite(old(Device()), old(memory.bytes), Nat32(memory.baseAddress), offset, size, value).value;
        Device() == w.1 && memory.bytes == w.2
    {
      if offset == VIRTIO_REG_NOTIFY {
        var flag := HandleNotify(value, memory);
        r := match flag
          case Ok(b) => Ok(DeviceResponse((), b))
          case Fail(t) => Fail(t)
          case Panic => Panic;
      } else if offset == VIRTIO_REG_STATUS && value == 0 {
        Reset();
        r := Ok(DeviceResponse((), false));
      } else {
        r := virtio.Write(offset, size, value);
      }
    }

    /** `handle_notify`: the slots of the transmit batch are sent one by
        one; `cur` is `last_idx.wrapping_add(i)` and `remaining` is
        `diff - i`. */
    method HandleNotify(q: bv32, memory: Ram.Memory) returns (r: Outcome<bool>)
      modifies this, memory
      ensures virtio == old(virtio) && memory.baseAddress == old(memory.baseAddress)
      ensures r == Flag(NotifySpec(virtio.State(), old(Own()), old(memory.bytes), Nat32(memory.baseAddress), q))
      ensures r.Ok? ==>
        var s := NotifySpec(virtio.State(), old(Own()), old(memory.bytes), Nat32(memory.baseAddress), q).value;
        Own() == s.dev && memory.bytes == s.mem
    {
      var base := Nat32(memory.baseAddress);
      var batch :- NotifyBatch(virtio.State(), Own(), memory.bytes, base, q);
      match batch {
        case None =>
          r := Ok(false);
        case Some(b) =>
          var _ :- TransmitBatch(memory, base, b.drvAddr, b.devAddr, b.descBase, b.last, Distance16(b.avail, b.last));
          lastIdxes := lastIdxes[VIRTIO_NET_TRANS_IDX := b.avail];
          r := Ok(true);
      }
    }

    /** The loop of `handle_notify`: `count` slots from ring index `last`
        on are sent one by one; `cur` is `last_idx.wrapping_add(i)` and
        `remaining` is `diff - i`. */
    method TransmitBatch(memory: Ram.Memory, base: nat, drvAddr: nat, devAddr: nat, descBase: nat,
                         last: bv16, count: bv16) returns (r: Outcome<()>)
      modifies this`sent, memory`bytes
      ensures r == Discard(TransmitFrom(old(memory.bytes), base, drvAddr, devAddr, descBase, last, count, old(sent)))
      ensures r.Ok? ==>
        (sent, memory.bytes) == TransmitFrom(old(memory.bytes), base, drvAddr, devAddr, descBase, last, count, old(sent)).value
    {
      ghost var goal := TransmitFrom(memory.bytes, base, drvAddr, devAddr, descBase, last, count, sent);
      var cur, remaining := last, count;
      while remaining != 0
        invariant goal == TransmitFrom(memory.bytes, base, drvAddr, devAddr, descBase, cur, remaining, sent)
        decreases remaining
      {
        var s :- TransmitSlot(memory.bytes, base, drvAddr, devAddr, descBase, cur);
        sent := sent + [s.0];
        memory.bytes := s.1;
        cur, remaining := cur + 1, remaining - 1;
      }
      r := Ok(());
    }

    /** `tick`. */
    method Tick(memory: Ram.Memory) returns (r: Outcome<bool>)
      modifies this, memory
      ensures virtio == old(virtio) && memory.baseAddress == old(memory.baseAddress)
      ensures r == Flag(TickSpec(virtio.State(), old(Own()), old(memory.bytes), Nat32(memory.baseAddress)))
      ensures r.Ok? ==>
        var s := TickSpec(virtio.State(), old(Own()), old(memory.bytes), Nat32(memory.baseAddress)).value;
        Own() == s.dev && memory.bytes == s.mem
    {
      var regs := virtio.State();
      var base := Nat32(memory.baseAddress);
      var ready :- IsReady(regs, VIRTIO_NET_RECV_IDX);
      if !ready || incoming == [] {
        return Ok(false);
      }
      var v := incoming[0];
      incoming := incoming[1..];
      var drvAddr :- DriverAddr(regs, VIRTIO_NET_RECV_IDX);
      var avail :- DriverIdx(memory.bytes, base, drvAddr, MAX_QUEUE_SIZE);
      var devAddr :- DeviceAddr(regs, VIRTIO_NET_RECV_IDX);
      var used :- DeviceIdx(memory.bytes, base, devAddr, MAX_QUEUE_SIZE);
      if |lastIdxes| <= VIRTIO_NET_RECV_IDX {
        return Panic;
      }
      if avail == lastIdxes[VIRTIO_NET_RECV_IDX] {
        return Ok(false);
      }
      var d :- Deliver(regs, lastIdxes[VIRTIO_NET_RECV_IDX], v, memory.bytes, base, drvAddr, devAddr);
      lastIdxes := lastIdxes[VIRTIO_NET_RECV_IDX := d.0];
      memory.bytes := d.1;
      r := Ok(true);
    }
  }
}
