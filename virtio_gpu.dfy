/**
 * The virtio GPU device (src/bus/virtio_gpu.rs): the transport's registers,
 * a small configuration space, and a control queue (0) whose commands create
 * 2D resources, attach guest memory to them, bind them to the one scanout,
 * and copy or flush them to the host.
 *
 * The host's output channel is a sequence of the messages sent, oldest
 * first. Guest memory is the RAM byte sequence and its base address; every
 * view into it is bounds-checked and panics when it leaves the RAM. The
 * command structures are decoded little-endian from the bytes at the
 * command descriptor.
 *
 * One step departs from the source. Its conversion of a control type
 * (src/bus/virtio_gpu.rs:543-560) maps 0x1101, the code of
 * RESP_OK_DISPLAY_INFO, to CMD_GET_DISPLAY_INFO. That conversion is
 * `CtrlTypeFromAsWritten`, and `CtrlTypeFromAsWrittenMisreads` shows the
 * one code where it differs. The command decoder uses `CtrlTypeFrom`, which
 * is the inverse of `CtrlCode` (`CtrlTypeRoundTrip`).
 */
module VirtioGpuDevice {
  import opened Arch
  import opened Bits
  import opened Mmio
  import opened VirtioTransport
  import Ram

  const VIRTIO_GPU_HEADER_SIZE: nat := 24
  const VIRTIO_GPU_RESP_DISPLAY_INFO_SIZE: nat := 408
  const VIRTIO_GPU_MEM_ENTRY_SIZE: nat := 16
  const VIRTIO_GPU_CONTROL_IDX: nat := 0

  /** Feature words: only VIRTIO_F_VERSION_1 (bit 32). */
  const FEATURES: seq<bv32> := [0, 1, 0, 0]
  const MAX_QUEUE_SIZE: nat := 256
  const SHM_LENS: seq<bv64> := [0x20_0000, 0x20_0000]
  const SHM_BASES: seq<bv64> := [0x1001_0000, 0x1003_0000]
  const MAX_SCANOUTS: bv32 := 1
  const MAX_CAPSETS: bv32 := 0

  /** Bytes per pixel of the one supported format (B8G8R8X8). */
  const SUPPORTED_SLIDE_SIZE: nat := 4

  /** The transport of a freshly built GPU: two queues of at most 256
      entries. */
  function InitialRegs(): (r: VirtioState)
    ensures r.Valid() && r.QueueNum() == 2 && r.status == 0 && r.deviceType == Gpu
    ensures !r.readies[VIRTIO_GPU_CONTROL_IDX] && !r.readies[1]
  {
    New(Gpu, FEATURES, 2, 256)
  }

  // Rectangles and pixels.

  datatype Rect = Rect(x: bv32, y: bv32, width: bv32, height: bv32)

  const SUPPORTED_RECT: Rect := Rect(0, 0, 800, 600)

  /** `VirtioGpuRect::size`: width · height · 4 bytes, computed in `u32`
      (wrapping). */
  function RectSize(r: Rect): nat
  {
    Nat32(r.width * r.height * 4)
  }

  /** The supported 800×600 rectangle holds 1,920,000 bytes, so its pixels
      fill exactly 480,000 words. */
  lemma SupportedRectSize()
    ensures RectSize(SUPPORTED_RECT) == 1920000
    ensures RectSize(SUPPORTED_RECT) / SUPPORTED_SLIDE_SIZE == 800 * 600
  {
    assert SUPPORTED_RECT.width * SUPPORTED_RECT.height * 4 == 1920000;
  }

  /** One B8G8R8X8 pixel as the host's 0RGB word. */
  function Pixel(b: bv8, g: bv8, r: bv8): bv32
  {
    (Widen8(r) << 16) | (Widen8(g) << 8) | Widen8(b)
  }

  /** The three colour bytes come back out of the word, and its top byte is
      zero. */
  lemma PixelChannels(b: bv8, g: bv8, r: bv8)
    ensures Low8(Pixel(b, g, r)) == b
    ensures Low8(Pixel(b, g, r) >> 8) == g
    ensures Low8(Pixel(b, g, r) >> 16) == r
    ensures Pixel(b, g, r) >> 24 == 0
  {
  }

  /** `chunks_exact(4)` mapped to pixels: a trailing partial chunk is
      dropped. */
  function Pixels(a: seq<bv8>): (r: seq<bv32>)
    ensures |r| == |a| / SUPPORTED_SLIDE_SIZE
    decreases |a|
  {
    if |a| < 4 then [] else [Pixel(a[0], a[1], a[2])] + Pixels(a[4..])
  }

  /** Pixel `i` comes from bytes 4i (blue), 4i+1 (green) and 4i+2 (red); the
      fourth byte of each chunk is ignored. */
  lemma {:induction false} PixelsAt(a: seq<bv8>, i: nat)
    requires i < |a| / 4
    ensures Pixels(a)[i] == Pixel(a[4 * i], a[4 * i + 1], a[4 * i + 2])
    decreases i
  {
    if i > 0 {
      PixelsAt(a[4..], i - 1);
      assert a[4..][4 * (i - 1)] == a[4 * i];
    }
  }

  /** `format_array`: only format 2 (B8G8R8X8) is implemented. */
  function FormatArray(format: bv32, a: seq<bv8>): (r: Outcome<seq<bv32>>)
    ensures r.Ok? <==> format == 2
    ensures !r.Fail?
    ensures r.Ok? ==> |r.value| == |a| / SUPPORTED_SLIDE_SIZE
  {
    if format != 2 then Panic else Ok(Pixels(a))
  }

  // Control types.

  datatype CtrlType =
    | CmdGetDisplayInfo
    | CmdResourceCreate2D
    | CmdSetScanout
    | CmdResourceFlush
    | CmdTransferToHost2D
    | CmdResourceAttachBacking
    | RespOkNodata
    | RespOkDisplayInfo

  /** The discriminants of `VirtioGpuCtrlType`. */
  function CtrlCode(t: CtrlType): bv32
  {
    match t
    case CmdGetDisplayInfo => 0x100
    case CmdResourceCreate2D => 0x101
    case CmdSetScanout => 0x103
    case CmdResourceFlush => 0x104
    case CmdTransferToHost2D => 0x105
    case CmdResourceAttachBacking => 0x106
    case RespOkNodata => 0x1100
    case RespOkDisplayInfo => 0x1101
  }

  /** `VirtioGpuCtrlType::from` as written: 0x1101 decodes to
      CmdGetDisplayInfo; any code with no arm panics. */
  function CtrlTypeFromAsWritten(v: bv32): Outcome<CtrlType>
  {
    if v == 0x100 then Ok(CmdGetDisplayInfo)
    else if v == 0x101 then Ok(CmdResourceCreate2D)
    else if v == 0x103 then Ok(CmdSetScanout)
    else if v == 0x104 then Ok(CmdResourceFlush)
    else if v == 0x105 then Ok(CmdTransferToHost2D)
    else if v == 0x106 then Ok(CmdResourceAttachBacking)
    else if v == 0x1100 then Ok(RespOkNodata)
    else if v == 0x1101 then Ok(CmdGetDisplayInfo)
    else Panic
  }

  /** The decoding the enum's discriminants call for: 0x1101 is
      RespOkDisplayInfo. */
  function CtrlTypeFrom(v: bv32): (r: Outcome<CtrlType>)
    ensures !r.Fail?
  {
    if v == 0x100 then Ok(CmdGetDisplayInfo)
    else if v == 0x101 then Ok(CmdResourceCreate2D)
    else if v == 0x103 then Ok(CmdSetScanout)
    else if v == 0x104 then Ok(CmdResourceFlush)
    else if v == 0x105 then Ok(CmdTransferToHost2D)
    else if v == 0x106 then Ok(CmdResourceAttachBacking)
    else if v == 0x1100 then Ok(RespOkNodata)
    else if v == 0x1101 then Ok(RespOkDisplayInfo)
    else Panic
  }

  /** The corrected decoding inverts the discriminants: every type decodes
      from its own code, and whatever decodes has the code it came from. */
  lemma CtrlTypeRoundTrip(t: CtrlType, v: bv32)
    ensures CtrlTypeFrom(CtrlCode(t)) == Ok(t)
    ensures CtrlTypeFrom(v).Ok? ==> CtrlCode(CtrlTypeFrom(v).value) == v
  {
    match t
    case CmdGetDisplayInfo =>
    case CmdResourceCreate2D =>
    case CmdSetScanout =>
    case CmdResourceFlush =>
    case CmdTransferToHost2D =>
    case CmdResourceAttachBacking =>
    case RespOkNodata =>
    case RespOkDisplayInfo =>
  }

  /** The decoding as written misreads the display-info response code as the
      get-display-info command, and agrees with the corrected one on every
      other code. */
  lemma CtrlTypeFromAsWrittenMisreads(v: bv32)
    ensures CtrlTypeFromAsWritten(CtrlCode(RespOkDisplayInfo)) == Ok(CmdGetDisplayInfo)
    ensures CtrlTypeFromAsWritten(CtrlCode(RespOkDisplayInfo)) != CtrlTypeFrom(CtrlCode(RespOkDisplayInfo))
    ensures v != 0x1101 ==> CtrlTypeFromAsWritten(v) == CtrlTypeFrom(v)
  {
  }

  // Responses.

  /** `VirtioGpuCtrlHeader::new(t)` in its in-memory layout: the type, then
      flags, fence id, context id, ring index and padding, all zero. */
  function CtrlHeader(t: CtrlType): (r: seq<bv8>)
    ensures |r| == VIRTIO_GPU_HEADER_SIZE
  {
    U32Le(CtrlCode(t)) + Ram.Zeros(20)
  }

  function RectBytes(r: Rect): (b: seq<bv8>)
    ensures |b| == 16
  {
    U32Le(r.x) + U32Le(r.y) + U32Le(r.width) + U32Le(r.height)
  }

  /** The rectangle whose 16 bytes start at `k`. */
  function RectAt(b: seq<bv8>, k: nat): Rect
    requires k + 16 <= |b|
  {
    Rect(Le32At(b, k), Le32At(b, k + 4), Le32At(b, k + 8), Le32At(b, k + 12))
  }

  /** A rectangle's bytes decode back to it. */
  lemma RectRoundTrip(r: Rect, b: seq<bv8>, k: nat)
    requires k + 16 <= |b| && b[k..k + 16] == RectBytes(r)
    ensures RectAt(b, k) == r
  {
    var w := RectBytes(r);
    assert b[k] == w[0] && b[k + 1] == w[1] && b[k + 2] == w[2] && b[k + 3] == w[3];
    assert b[k + 4] == w[4] && b[k + 5] == w[5] && b[k + 6] == w[6] && b[k + 7] == w[7];
    assert b[k + 8] == w[8] && b[k + 9] == w[9] && b[k + 10] == w[10] && b[k + 11] == w[11];
    assert b[k + 12] == w[12] && b[k + 13] == w[13] && b[k + 14] == w[14] && b[k + 15] == w[15];
    Le32AtBytes(r.x, b, k);
    Le32AtBytes(r.y, b, k + 4);
    Le32AtBytes(r.width, b, k + 8);
    Le32AtBytes(r.height, b, k + 12);
  }

  /** `VirtioGpuRespDisplayInfo::as_response()` in its in-memory layout: the
      display-info header, then sixteen 24-byte modes of which only the
      first is set (the 800×600 rectangle, enabled, no flags). */
  function DisplayInfoResponse(): (r: seq<bv8>)
    ensures |r| == VIRTIO_GPU_RESP_DISPLAY_INFO_SIZE
  {
    CtrlHeader(RespOkDisplayInfo) + RectBytes(SUPPORTED_RECT) + U32Le(1) + U32Le(0) + Ram.Zeros(15 * 24)
  }

  /** The display-info response announces its type, the one enabled
      800×600 mode, and no other mode. */
  lemma DisplayInfoLayout()
    ensures Le32At(DisplayInfoResponse(), 0) == 0x1101
    ensures RectAt(DisplayInfoResponse(), 24) == SUPPORTED_RECT
    ensures Le32At(DisplayInfoResponse(), 40) == 1
    ensures forall k :: 48 <= k < VIRTIO_GPU_RESP_DISPLAY_INFO_SIZE ==> DisplayInfoResponse()[k] == 0
  {
    var r := DisplayInfoResponse();
    Le32AtBytes(0x1101, r, 0);
    RectRoundTrip(SUPPORTED_RECT, r, 24);
    Le32AtBytes(1, r, 40);
  }

  /** `write_ok_nodata_response`: the 24-byte RespOkNodata header into the
      descriptor `dst`; a descriptor shorter than the header is
      unimplemented. */
  function WriteOkNodata(mem: seq<bv8>, base: nat, dst: VirtQueueDesc): (r: Outcome<seq<bv8>>)
    ensures r.Ok? <==> (VIRTIO_GPU_HEADER_SIZE <= Nat32(dst.len) &&
      base <= dst.addr && dst.addr - base + VIRTIO_GPU_HEADER_SIZE <= |mem|)
    ensures !r.Fail?
    ensures r.Ok? ==> r.value == Ram.Overwrite(mem, dst.addr - base, CtrlHeader(RespOkNodata))
  {
    if VIRTIO_GPU_HEADER_SIZE > Nat32(dst.len) then Panic
    else Ram.RawWriteOf(mem, base, dst.addr, CtrlHeader(RespOkNodata))
  }

  /** After a no-data response the descriptor's first bytes read as a
      RespOkNodata header. */
  lemma OkNodataReadsBack(mem: seq<bv8>, base: nat, dst: VirtQueueDesc, m: seq<bv8>)
    requires WriteOkNodata(mem, base, dst) == Ok(m)
    ensures Ram.RawRead(m, base, dst.addr, VIRTIO_GPU_HEADER_SIZE) == Ok(CtrlHeader(RespOkNodata))
  {
    Ram.OverwriteRange(mem, dst.addr - base, CtrlHeader(RespOkNodata));
  }

  /** A header announces its type in its first word and is zero after it. */
  lemma CtrlHeaderLayout(t: CtrlType)
    ensures Le32At(CtrlHeader(t), 0) == CtrlCode(t)
    ensures forall k :: 4 <= k < VIRTIO_GPU_HEADER_SIZE ==> CtrlHeader(t)[k] == 0
  {
    Le32AtBytes(CtrlCode(t), CtrlHeader(t), 0);
  }

  // Device state.

  /** `VirtioGpuMemEntry`: a guest address (`u64`) and a length (`u32`,
      widened where it is decoded). */
  datatype MemEntry = MemEntry(addr: nat, length: nat)

  /** `GpuResouce`: a 2D resource and the guest memory backing it, in the
      order it was attached. */
  datatype Resource = Resource(format: bv32, width: bv32, height: bv32, entries: seq<MemEntry>)

  /** `GpuScanout`: the rectangle shown and the resource bound to it. */
  datatype Scanout = Scanout(r: Rect, resourceId: bv32)

  datatype GpuOperation = Copy | Disable | Flush

  /** `GpuMessage`: what the device puts on the host channel. */
  datatype GpuMessage = GpuMessage(operation: GpuOperation, resourceId: bv32, rect: Rect, buffer: seq<bv32>)

  /** The device's own state beside the transport: the last ring index
      consumed per queue, the resources by id, the scanouts, and the
      messages sent to the host. */
  datatype GpuState = GpuState(lastIdxes: seq<bv16>, resources: map<nat, Resource>, scanouts: seq<Scanout>,
                               sent: seq<GpuMessage>)

  /** A handled command: the length written back to the driver, the new
      state and the new RAM. */
  datatype Handled = Handled(len: bv32, dev: GpuState, mem: seq<bv8>)

  /** `view_as::<T>(addr, len)`: the `len` bytes the descriptor describes
      must lie in RAM, and `size` bytes of the structure are decoded from
      `addr`. */
  function View(mem: seq<bv8>, base: nat, addr: nat, len: nat, size: nat): (r: Outcome<seq<bv8>>)
    ensures r.Ok? ==> |r.value| == size
    ensures !r.Fail?
  {
    var _ :- Ram.RawRead(mem, base, addr, len);
    Ram.RawRead(mem, base, addr, size)
  }

  /** A response descriptor of a two-descriptor command: the last of the
      chain, and device-writable. */
  predicate SingleResponse(d: VirtQueueDesc)
  {
    !d.IsNext() && d.IsWriteOnly()
  }

  /** `VirtioGpuMemEntry` at `addr` (the view is `len` bytes long). */
  function EntryAt(mem: seq<bv8>, base: nat, addr: nat, len: nat): Outcome<MemEntry>
  {
    var b :- View(mem, base, addr, len, VIRTIO_GPU_MEM_ENTRY_SIZE);
    Ok(MemEntry(Le64At(b, 0), Nat32(Le32At(b, 8))))
  }

  /** The loop of `CmdResourceAttachBacking`: entries `i` to `n - 1` of the
      array at `addr` pushed onto the resource one by one. */
  function PushEntries(res: Resource, mem: seq<bv8>, base: nat, addr: nat, len: nat, i: nat, n: nat)
    : Outcome<Resource>
    decreases n - i
  {
    if i >= n then Ok(res)
    else
      var e :- EntryAt(mem, base, EntryAddr(addr, i), len);
      PushEntries(res.(entries := res.entries + [e]), mem, base, addr, len, i + 1, n)
  }

  /** Where entry `j` of the array at `addr` lies. */
  function EntryAddr(addr: nat, j: nat): nat
  {
    addr + j * VIRTIO_GPU_MEM_ENTRY_SIZE
  }

  /** Attaching appends exactly `n - i` entries after the ones the resource
      had, and keeps its format and size. */
  lemma {:induction false} PushEntriesAppends(res: Resource, mem: seq<bv8>, base: nat, addr: nat, len: nat,
                                              i: nat, n: nat, out: Resource)
    requires i <= n && PushEntries(res, mem, base, addr, len, i, n) == Ok(out)
    ensures |out.entries| == |res.entries| + (n - i) && out.entries[..|res.entries|] == res.entries
    ensures out.format == res.format && out.width == res.width && out.height == res.height
    decreases n - i
  {
    if i < n {
      var e := EntryAt(mem, base, EntryAddr(addr, i), len).value;
      var next := res.(entries := res.entries + [e]);
      PushEntriesAppends(next, mem, base, addr, len, i + 1, n, out);
      assert out.entries[..|res.entries|] == next.entries[..|res.entries|];
    }
  }

  /** The entries appended are the ones read from the array, in order:
      appended entry `k` is entry `i + k` of the array. */
  lemma {:induction false} PushEntriesRead(res: Resource, mem: seq<bv8>, base: nat, addr: nat, len: nat,
                                           i: nat, n: nat, out: Resource)
    requires i <= n && PushEntries(res, mem, base, addr, len, i, n) == Ok(out)
    ensures |out.entries| == |res.entries| + (n - i)
    ensures forall k :: |res.entries| <= k < |out.entries| ==>
      EntryAt(mem, base, EntryAddr(addr, i + (k - |res.entries|)), len) == Ok(out.entries[k])
    decreases n - i
  {
    PushEntriesAppends(res, mem, base, addr, len, i, n, out);
    if i < n {
      var e := EntryAt(mem, base, EntryAddr(addr, i), len).value;
      var next := res.(entries := res.entries + [e]);
      PushEntriesRead(next, mem, base, addr, len, i + 1, n, out);
      PushEntriesAppends(next, mem, base, addr, len, i + 1, n, out);
      forall k | |res.entries| <= k < |out.entries|
        ensures EntryAt(mem, base, EntryAddr(addr, i + (k - |res.entries|)), len) == Ok(out.entries[k])
      {
        if k == |res.entries| {
          assert out.entries[k] == out.entries[..|next.entries|][k] == e;
        } else {
          assert (i + 1) + (k - |next.entries|) == i + (k - |res.entries|);
        }
      }
    }
  }

  /** The loop of `CmdTransferToHost2D`: each backing entry's bytes are read
      (the whole entry must lie in RAM) and copied after the `copied` bytes
      already in `buf`, cut short where the buffer ends. */
  function CopyEntries(mem: seq<bv8>, base: nat, entries: seq<MemEntry>, buf: seq<bv8>, copied: nat)
    : (r: Outcome<(seq<bv8>, nat)>)
    requires copied <= |buf|
    ensures r.Ok? ==> |r.value.0| == |buf| && copied <= r.value.1 <= |buf|
    ensures !r.Fail?
    decreases |entries|
  {
    if entries == [] then Ok((buf, copied))
    else
      var bytes :- Ram.RawRead(mem, base, entries[0].addr, entries[0].length);
      var actual := if copied + |bytes| > |buf| then |buf| - copied else |bytes|;
      CopyEntries(mem, base, entries[1..], Splice(buf, copied, bytes[..actual]), copied + actual)
  }

  /** `buf[at..at + |part|].copy_from_slice(part)`. */
  function Splice(buf: seq<bv8>, at: nat, part: seq<bv8>): (r: seq<bv8>)
    requires at + |part| <= |buf|
    ensures |r| == |buf|
  {
    buf[..at] + part + buf[at + |part|..]
  }

  /** The guest bytes the entries describe, one after the other. */
  function Gather(mem: seq<bv8>, base: nat, entries: seq<MemEntry>): Outcome<seq<bv8>>
    decreases |entries|
  {
    if entries == [] then Ok([])
    else
      var bytes :- Ram.RawRead(mem, base, entries[0].addr, entries[0].length);
      var rest :- Gather(mem, base, entries[1..]);
      Ok(bytes + rest)
  }

  function Min(a: nat, b: nat): nat { if a <= b then a else b }

  /** The copy succeeds exactly when every entry lies in RAM. */
  lemma {:induction false} CopyEntriesOk(mem: seq<bv8>, base: nat, entries: seq<MemEntry>, buf: seq<bv8>,
                                         copied: nat)
    requires copied <= |buf|
    ensures CopyEntries(mem, base, entries, buf, copied).Ok? <==> Gather(mem, base, entries).Ok?
    decreases |entries|
  {
    if entries != [] {
      var r := Ram.RawRead(mem, base, entries[0].addr, entries[0].length);
      if r.Ok? {
        var actual := if copied + |r.value| > |buf| then |buf| - copied else |r.value|;
        CopyEntriesOk(mem, base, entries[1..], Splice(buf, copied, r.value[..actual]), copied + actual);
      }
    }
  }

  /** A successful copy fills the buffer from `copied` on with the gathered
      bytes, as many as fit, and leaves the rest of the buffer alone. */
  lemma {:induction false} CopyEntriesGathers(mem: seq<bv8>, base: nat, entries: seq<MemEntry>, buf: seq<bv8>,
                                              copied: nat, c: (seq<bv8>, nat), g: seq<bv8>)
    requires copied <= |buf|
    requires CopyEntries(mem, base, entries, buf, copied) == Ok(c) && Gather(mem, base, entries) == Ok(g)
    ensures c.1 == Min(copied + |g|, |buf|) && Filled(buf, c.0, copied, c.1, g)
    decreases |entries|
  {
    if entries != [] {
      var bytes, actual, next, rest := CopyUnfold(mem, base, entries, buf, copied, c, g);
      CopyEntriesGathers(mem, base, entries[1..], next, copied + actual, c, rest);
      CopyStep(buf, copied, bytes, rest, actual, next, c.0, c.1);
    }
  }

  /** The first entry of a successful copy, and what the rest of the
      entries copy and gather. */
  lemma CopyUnfold(mem: seq<bv8>, base: nat, entries: seq<MemEntry>, buf: seq<bv8>, copied: nat,
                   c: (seq<bv8>, nat), g: seq<bv8>)
    returns (bytes: seq<bv8>, actual: nat, next: seq<bv8>, rest: seq<bv8>)
    requires copied <= |buf| && entries != []
    requires CopyEntries(mem, base, entries, buf, copied) == Ok(c) && Gather(mem, base, entries) == Ok(g)
    ensures actual == if copied + |bytes| > |buf| then |buf| - copied else |bytes|
    ensures copied + actual <= |buf| && next == Splice(buf, copied, bytes[..actual])
    ensures CopyEntries(mem, base, entries[1..], next, copied + actual) == Ok(c)
    ensures Gather(mem, base, entries[1..]) == Ok(rest) && g == bytes + rest
  {
    bytes := GatherFirst(mem, base, entries, g);
    actual := if copied + |bytes| > |buf| then |buf| - copied else |bytes|;
    next := Splice(buf, copied, bytes[..actual]);
    CopyFirst(mem, base, entries, buf, copied, bytes);
    rest := GatherUnfold(mem, base, entries, g, bytes);
  }

  /** Where the entries gather, the first entry's bytes are in RAM. */
  lemma GatherFirst(mem: seq<bv8>, base: nat, entries: seq<MemEntry>, g: seq<bv8>) returns (bytes: seq<bv8>)
    requires entries != [] && Gather(mem, base, entries) == Ok(g)
    ensures Ram.RawRead(mem, base, entries[0].addr, entries[0].length) == Ok(bytes)
  {
    bytes := Ram.RawRead(mem, base, entries[0].addr, entries[0].length).value;
  }

  /** A copy whose first entry is in RAM copies it, then the rest. */
  lemma CopyFirst(mem: seq<bv8>, base: nat, entries: seq<MemEntry>, buf: seq<bv8>, copied: nat, bytes: seq<bv8>)
    requires copied <= |buf| && entries != []
    requires Ram.RawRead(mem, base, entries[0].addr, entries[0].length) == Ok(bytes)
    ensures var actual := if copied + |bytes| > |buf| then |buf| - copied else |bytes|;
      CopyEntries(mem, base, entries, buf, copied) ==
        CopyEntries(mem, base, entries[1..], Splice(buf, copied, bytes[..actual]), copied + actual)
  {
  }

  /** The first entry's bytes begin what the entries gather. */
  lemma GatherUnfold(mem: seq<bv8>, base: nat, entries: seq<MemEntry>, g: seq<bv8>, bytes: seq<bv8>)
    returns (rest: seq<bv8>)
    requires entries != [] && Gather(mem, base, entries) == Ok(g)
    requires Ram.RawRead(mem, base, entries[0].addr, entries[0].length) == Ok(bytes)
    ensures Gather(mem, base, entries[1..]) == Ok(rest) && g == bytes + rest
  {
    rest := Gather(mem, base, entries[1..]).value;
  }

  /** `after` is `before` with the range [`from`, `to`) holding the first
      bytes of `g`. */
  predicate Filled(before: seq<bv8>, after: seq<bv8>, from: nat, to: nat, g: seq<bv8>)
  {
    from <= to <= |before| && to - from <= |g| && |after| == |before| &&
    after[from..to] == g[..to - from] && after[..from] == before[..from] && after[to..] == before[to..]
  }

  /** One entry of the copy: the bytes placed now and the ones the rest of
      the entries place after them make up the gathered prefix. */
  lemma CopyStep(buf: seq<bv8>, copied: nat, bytes: seq<bv8>, rest: seq<bv8>, actual: nat,
                 next: seq<bv8>, a: seq<bv8>, c: nat)
    requires copied <= |buf|
    requires actual == if copied + |bytes| > |buf| then |buf| - copied else |bytes|
    requires next == Splice(buf, copied, bytes[..actual])
    requires c == Min(copied + actual + |rest|, |next|) && Filled(next, a, copied + actual, c, rest)
    ensures c == Min(copied + |bytes + rest|, |buf|) && Filled(buf, a, copied, c, bytes + rest)
  {
    var g := bytes + rest;
    assert actual < |bytes| ==> copied + actual == |buf|;
    forall k | copied <= k < c
      ensures a[k] == g[k - copied]
    {
      if k < copied + actual {
        assert a[k] == next[k];
      } else {
        assert a[k] == rest[k - (copied + actual)];
      }
    }
    assert a[copied..c] == g[..c - copied];
    forall k | 0 <= k < copied
      ensures a[k] == buf[k]
    {
      assert a[k] == next[k];
    }
    assert a[..copied] == buf[..copied];
    forall k | c <= k < |a|
      ensures a[k] == buf[k]
    {
      assert a[k] == next[k];
    }
    assert a[c..] == buf[c..];
  }

  // Commands of the control queue.

  /** The host channel after a command: what was sent before, and at most
      one message more. */
  predicate SendsAtMostOne(before: seq<GpuMessage>, after: seq<GpuMessage>)
  {
    |before| <= |after| <= |before| + 1 && after[..|before|] == before
  }

  /** `CmdGetDisplayInfo`: the 408-byte display-info response into the
      response descriptor. */
  function GetDisplayInfo(st: GpuState, mem: seq<bv8>, base: nat, second: VirtQueueDesc): (r: Outcome<Handled>)
    ensures r.Ok? ==> r.value.dev == st
  {
    if !SingleResponse(second) then Panic
    else if VIRTIO_GPU_RESP_DISPLAY_INFO_SIZE > Nat32(second.len) then Panic
    else
      var m :- Ram.RawWriteOf(mem, base, second.addr, DisplayInfoResponse());
      Ok(Handled(408, st, m))
  }

  /** `CmdResourceCreate2D`: the resource named in the command, with the
      command's format and size and no backing, replaces any resource of the
      same id; a format other than 2 is unimplemented. */
  function ResourceCreate2D(st: GpuState, mem: seq<bv8>, base: nat, cmd: VirtQueueDesc, second: VirtQueueDesc)
    : (r: Outcome<Handled>)
    ensures r.Ok? ==> r.value.dev.lastIdxes == st.lastIdxes
    ensures r.Ok? ==> SendsAtMostOne(st.sent, r.value.dev.sent)
  {
    if !SingleResponse(second) then Panic
    else
      var b :- View(mem, base, cmd.addr, Nat32(cmd.len), 40);
      var id, format := Nat32(Le32At(b, 24)), Le32At(b, 28);
      if format != 2 then Panic
      else
        var m :- WriteOkNodata(mem, base, second);
        Ok(Handled(24, st.(resources := st.resources[id := Resource(format, Le32At(b, 32), Le32At(b, 36), [])]), m))
  }

  /** `CmdResourceAttachBacking`: the command names a resource and a count;
      the second descriptor holds that many memory entries, which are
      appended to the resource; the third takes the response. An unknown
      resource panics. */
  function AttachBacking(st: GpuState, mem: seq<bv8>, base: nat, descBase: nat, cmd: VirtQueueDesc,
                         second: VirtQueueDesc): (r: Outcome<Handled>)
    ensures r.Ok? ==> r.value.dev.lastIdxes == st.lastIdxes
    ensures r.Ok? ==> SendsAtMostOne(st.sent, r.value.dev.sent)
  {
    if !second.IsNext() then Panic
    else
      var third :- DescAt(mem, base, descBase, second.next);
      if !SingleResponse(third) then Panic
      else
        var b :- View(mem, base, cmd.addr, Nat32(cmd.len), 32);
        AttachTo(st, mem, base, second, third, Nat32(Le32At(b, 24)), Nat32(Le32At(b, 28)))
  }

  /** The rest of `CmdResourceAttachBacking` once the command is read:
      resource `id` gets `n` entries from the second descriptor, and the
      third takes the response. */
  function AttachTo(st: GpuState, mem: seq<bv8>, base: nat, second: VirtQueueDesc, third: VirtQueueDesc,
                    id: nat, n: nat): (r: Outcome<Handled>)
    ensures r.Ok? ==> r.value.dev == st.(resources := r.value.dev.resources)
  {
    if id !in st.resources then Panic
    else
      var res :- PushEntries(st.resources[id], mem, base, second.addr, Nat32(second.len), 0, n);
      var m :- WriteOkNodata(mem, base, third);
      Ok(Handled(24, st.(resources := st.resources[id := res]), m))
  }

  /** `CmdSetScanout`: resource 0 asks the host to disable the display;
      any other resource is bound to the scanout with the command's
      rectangle. A scanout id past MAX_SCANOUTS is unimplemented, and one
      equal to it is past the one-element array. */
  function SetScanout(st: GpuState, mem: seq<bv8>, base: nat, cmd: VirtQueueDesc, second: VirtQueueDesc)
    : (r: Outcome<Handled>)
    ensures r.Ok? ==> r.value.dev.lastIdxes == st.lastIdxes && r.value.dev.resources == st.resources
    ensures r.Ok? ==> SendsAtMostOne(st.sent, r.value.dev.sent)
  {
    if !SingleResponse(second) then Panic
    else
      var b :- View(mem, base, cmd.addr, Nat32(cmd.len), 48);
      var rect, scanoutId, id := RectAt(b, 24), Le32At(b, 40), Le32At(b, 44);
      if id == 0 then
        var m :- WriteOkNodata(mem, base, second);
        Ok(Handled(24, st.(sent := st.sent + [GpuMessage(Disable, 0, Rect(0, 0, 0, 0), [])]), m))
      else if scanoutId > MAX_SCANOUTS || Nat32(scanoutId) >= |st.scanouts| then Panic
      else
        var m :- WriteOkNodata(mem, base, second);
        Ok(Handled(24, st.(scanouts := st.scanouts[Nat32(scanoutId) := Scanout(rect, id)]), m))
  }

  /** `CmdTransferToHost2D`: for the supported rectangle only, the
      resource's backing is copied into a zeroed 800×600×4 buffer, converted
      to pixels and sent to the host. An unknown resource panics. */
  function TransferToHost2D(st: GpuState, mem: seq<bv8>, base: nat, cmd: VirtQueueDesc, second: VirtQueueDesc)
    : (r: Outcome<Handled>)
    ensures r.Ok? ==> r.value.dev.lastIdxes == st.lastIdxes && r.value.dev.resources == st.resources
    ensures r.Ok? ==> SendsAtMostOne(st.sent, r.value.dev.sent)
  {
    if !SingleResponse(second) then Panic
    else
      var b :- View(mem, base, cmd.addr, Nat32(cmd.len), 56);
      TransferFrom(st, mem, base, second, RectAt(b, 24), Le32At(b, 48))
  }

  /** The rest of `CmdTransferToHost2D` once the command is read. */
  function TransferFrom(st: GpuState, mem: seq<bv8>, base: nat, second: VirtQueueDesc, rect: Rect, id: bv32)
    : (r: Outcome<Handled>)
    ensures r.Ok? ==> |r.value.dev.sent| == |st.sent| + 1 && r.value.dev.sent[..|st.sent|] == st.sent
    ensures r.Ok? ==> r.value.dev == st.(sent := r.value.dev.sent)
  {
    if rect != SUPPORTED_RECT || Nat32(id) !in st.resources then Panic
    else
      var res := st.resources[Nat32(id)];
      var c :- CopyEntries(mem, base, res.entries, Ram.Zeros(RectSize(SUPPORTED_RECT)), 0);
      var buffer :- FormatArray(res.format, c.0);
      var m :- WriteOkNodata(mem, base, second);
      Ok(Handled(24, st.(sent := st.sent + [GpuMessage(Copy, id, rect, buffer)]), m))
  }

  /** `CmdResourceFlush`: for the supported rectangle only, the host is
      asked to flush the resource. */
  function ResourceFlush(st: GpuState, mem: seq<bv8>, base: nat, cmd: VirtQueueDesc, second: VirtQueueDesc)
    : (r: Outcome<Handled>)
    ensures r.Ok? ==> r.value.dev.lastIdxes == st.lastIdxes && r.value.dev.resources == st.resources
    ensures r.Ok? ==> SendsAtMostOne(st.sent, r.value.dev.sent)
  {
    if !SingleResponse(second) then Panic
    else
      var b :- View(mem, base, cmd.addr, Nat32(cmd.len), 48);
      var rect, id := RectAt(b, 24), Le32At(b, 40);
      if rect != SUPPORTED_RECT then Panic
      else
        var m :- WriteOkNodata(mem, base, second);
        Ok(Handled(24, st.(sent := st.sent + [GpuMessage(Flush, id, rect, [])]), m))
  }

  /** The command of type `t`; a response type is unimplemented. */
  function Dispatch(t: CtrlType, st: GpuState, mem: seq<bv8>, base: nat, descBase: nat, cmd: VirtQueueDesc,
                    second: VirtQueueDesc): (r: Outcome<Handled>)
    ensures r.Ok? ==> r.value.dev.lastIdxes == st.lastIdxes
    ensures r.Ok? ==> SendsAtMostOne(st.sent, r.value.dev.sent)
  {
    match t
    case CmdGetDisplayInfo => GetDisplayInfo(st, mem, base, second)
    case CmdResourceCreate2D => ResourceCreate2D(st, mem, base, cmd, second)
    case CmdResourceAttachBacking => AttachBacking(st, mem, base, descBase, cmd, second)
    case CmdSetScanout => SetScanout(st, mem, base, cmd, second)
    case CmdTransferToHost2D => TransferToHost2D(st, mem, base, cmd, second)
    case CmdResourceFlush => ResourceFlush(st, mem, base, cmd, second)
    case _ => Panic
  }

  /** One command of the control queue: descriptor `cmdIdx` holds the
      command and must chain to a second descriptor; the command's type is
      read from its header. */
  function CommandSpec(st: GpuState, mem: seq<bv8>, base: nat, descBase: nat, cmdIdx: bv16)
    : (r: Outcome<Handled>)
    ensures r.Ok? ==> r.value.dev.lastIdxes == st.lastIdxes
    ensures r.Ok? ==> SendsAtMostOne(st.sent, r.value.dev.sent)
  {
    var cmd :- DescAt(mem, base, descBase, cmdIdx);
    if !cmd.IsNext() then Panic
    else
      var second :- DescAt(mem, base, descBase, cmd.next);
      var hdr :- View(mem, base, cmd.addr, Nat32(cmd.len), 4);
      var t :- CtrlTypeFrom(Le32At(hdr, 0));
      Dispatch(t, st, mem, base, descBase, cmd, second)
  }

  /** A display-info request writes the 408-byte response and reports its
      length; a response descriptor shorter than that is unimplemented. */
  lemma DisplayInfoWrites(st: GpuState, mem: seq<bv8>, base: nat, second: VirtQueueDesc)
    ensures SingleResponse(second) && Nat32(second.len) < VIRTIO_GPU_RESP_DISPLAY_INFO_SIZE ==>
      GetDisplayInfo(st, mem, base, second) == Panic
    ensures GetDisplayInfo(st, mem, base, second).Ok? ==>
      var h := GetDisplayInfo(st, mem, base, second).value;
      h.len == 408 && h.dev == st &&
      Ram.RawRead(h.mem, base, second.addr, VIRTIO_GPU_RESP_DISPLAY_INFO_SIZE) == Ok(DisplayInfoResponse())
  {
    if GetDisplayInfo(st, mem, base, second).Ok? {
      Ram.OverwriteRange(mem, second.addr - base, DisplayInfoResponse());
    }
  }

  /** Creating a resource needs format 2; it then maps the command's id to
      a resource with the command's format and size and no backing, leaves
      every other id, the scanouts and the channel alone, and answers with a
      no-data response. */
  lemma CreateInserts(st: GpuState, mem: seq<bv8>, base: nat, cmd: VirtQueueDesc, second: VirtQueueDesc,
                      b: seq<bv8>)
    requires View(mem, base, cmd.addr, Nat32(cmd.len), 40) == Ok(b)
    ensures SingleResponse(second) && Le32At(b, 28) != 2 ==> ResourceCreate2D(st, mem, base, cmd, second) == Panic
    ensures ResourceCreate2D(st, mem, base, cmd, second).Ok? ==>
      var h := ResourceCreate2D(st, mem, base, cmd, second).value;
      Le32At(b, 28) == 2 && h.len == 24 && WriteOkNodata(mem, base, second) == Ok(h.mem) &&
      h.dev == st.(resources := st.resources[Nat32(Le32At(b, 24)) := Resource(2, Le32At(b, 32), Le32At(b, 36), [])])
  {
  }

  /** The named values of a successful attach. */
  lemma AttachUnfold(st: GpuState, mem: seq<bv8>, base: nat, descBase: nat, cmd: VirtQueueDesc,
                     second: VirtQueueDesc, h: Handled) returns (b: seq<bv8>, res: Resource)
    requires AttachBacking(st, mem, base, descBase, cmd, second) == Ok(h)
    ensures View(mem, base, cmd.addr, Nat32(cmd.len), 32) == Ok(b) && Nat32(Le32At(b, 24)) in st.resources
    ensures var before := st.resources[Nat32(Le32At(b, 24))];
      |res.entries| == |before.entries| + Nat32(Le32At(b, 28)) &&
      res.entries[..|before.entries|] == before.entries && res.format == before.format
    ensures forall k :: |st.resources[Nat32(Le32At(b, 24))].entries| <= k < |res.entries| ==>
      EntryAt(mem, base, EntryAddr(second.addr, k - |st.resources[Nat32(Le32At(b, 24))].entries|), Nat32(second.len))
        == Ok(res.entries[k])
    ensures h.len == 24 && h.dev == st.(resources := st.resources[Nat32(Le32At(b, 24)) := res])
  {
    b := View(mem, base, cmd.addr, Nat32(cmd.len), 32).value;
    var n := Nat32(Le32At(b, 28));
    res := PushEntries(st.resources[Nat32(Le32At(b, 24))], mem, base, second.addr, Nat32(second.len), 0, n).value;
    PushEntriesAppends(st.resources[Nat32(Le32At(b, 24))], mem, base, second.addr, Nat32(second.len), 0, n, res);
    PushEntriesRead(st.resources[Nat32(Le32At(b, 24))], mem, base, second.addr, Nat32(second.len), 0, n, res);
  }

  /** Attaching backing needs an existing resource; it appends the
      command's count of entries to it, keeps every other resource, and
      answers with a no-data response in the third descriptor. */
  lemma AttachAppends(st: GpuState, mem: seq<bv8>, base: nat, descBase: nat, cmd: VirtQueueDesc,
                      second: VirtQueueDesc, h: Handled) returns (b: seq<bv8>)
    requires AttachBacking(st, mem, base, descBase, cmd, second) == Ok(h)
    ensures View(mem, base, cmd.addr, Nat32(cmd.len), 32) == Ok(b)
    ensures Nat32(Le32At(b, 24)) in st.resources && h.dev.resources.Keys == st.resources.Keys && h.len == 24
    ensures forall k :: k in st.resources && k != Nat32(Le32At(b, 24)) ==> h.dev.resources[k] == st.resources[k]
    ensures var before, after := st.resources[Nat32(Le32At(b, 24))], h.dev.resources[Nat32(Le32At(b, 24))];
      |after.entries| == |before.entries| + Nat32(Le32At(b, 28)) &&
      after.entries[..|before.entries|] == before.entries && after.format == before.format
    ensures var before, after := st.resources[Nat32(Le32At(b, 24))], h.dev.resources[Nat32(Le32At(b, 24))];
      forall k :: |before.entries| <= k < |after.entries| ==>
        EntryAt(mem, base, EntryAddr(second.addr, k - |before.entries|), Nat32(second.len)) == Ok(after.entries[k])
    ensures h.dev.scanouts == st.scanouts && h.dev.sent == st.sent
  {
    var res;
    b, res := AttachUnfold(st, mem, base, descBase, cmd, second, h);
    ReplaceResource(st, Nat32(Le32At(b, 24)), res, h.dev);
  }

  /** Replacing one resource keeps the ids and every other resource. */
  lemma ReplaceResource(st: GpuState, id: nat, res: Resource, dev: GpuState)
    requires id in st.resources && dev == st.(resources := st.resources[id := res])
    ensures dev.resources.Keys == st.resources.Keys && dev.resources[id] == res
    ensures forall k :: k in st.resources && k != id ==> dev.resources[k] == st.resources[k]
    ensures dev.scanouts == st.scanouts && dev.sent == st.sent
  {
    var m := st.resources[id := res];
    assert dev.resources == m;
    forall k | k in st.resources && k != id
      ensures m[k] == st.resources[k]
    {
    }
  }

  /** Backing cannot be attached to a resource that was never created. */
  lemma AttachUnknown(st: GpuState, mem: seq<bv8>, base: nat, descBase: nat, cmd: VirtQueueDesc,
                      second: VirtQueueDesc, b: seq<bv8>)
    requires View(mem, base, cmd.addr, Nat32(cmd.len), 32) == Ok(b) && Nat32(Le32At(b, 24)) !in st.resources
    ensures !AttachBacking(st, mem, base, descBase, cmd, second).Ok?
  {
  }

  /** Resource 0 disables the display through the channel; any other
      resource is bound to the named scanout with the command's
      rectangle. */
  lemma ScanoutBinds(st: GpuState, mem: seq<bv8>, base: nat, cmd: VirtQueueDesc, second: VirtQueueDesc,
                     b: seq<bv8>, h: Handled)
    requires SetScanout(st, mem, base, cmd, second) == Ok(h)
    requires View(mem, base, cmd.addr, Nat32(cmd.len), 48) == Ok(b)
    ensures h.len == 24 && WriteOkNodata(mem, base, second) == Ok(h.mem)
    ensures Le32At(b, 44) == 0 ==>
      h.dev == st.(sent := st.sent + [GpuMessage(Disable, 0, Rect(0, 0, 0, 0), [])])
    ensures Le32At(b, 44) != 0 ==> (Nat32(Le32At(b, 40)) < |st.scanouts| &&
      h.dev == st.(scanouts := st.scanouts[Nat32(Le32At(b, 40)) := Scanout(RectAt(b, 24), Le32At(b, 44))]))
  {
  }

  /** A flush of the supported rectangle sends one flush message naming the
      resource; any other rectangle is unimplemented. */
  lemma FlushSends(st: GpuState, mem: seq<bv8>, base: nat, cmd: VirtQueueDesc, second: VirtQueueDesc,
                   b: seq<bv8>)
    requires View(mem, base, cmd.addr, Nat32(cmd.len), 48) == Ok(b)
    ensures SingleResponse(second) && RectAt(b, 24) != SUPPORTED_RECT ==>
      ResourceFlush(st, mem, base, cmd, second) == Panic
    ensures ResourceFlush(st, mem, base, cmd, second).Ok? ==>
      var h := ResourceFlush(st, mem, base, cmd, second).value;
      h.len == 24 && WriteOkNodata(mem, base, second) == Ok(h.mem) &&
      h.dev == st.(sent := st.sent + [GpuMessage(Flush, Le32At(b, 40), SUPPORTED_RECT, [])])
  {
  }

  /** The named values of a successful transfer. */
  lemma TransferUnfold(st: GpuState, mem: seq<bv8>, base: nat, cmd: VirtQueueDesc, second: VirtQueueDesc,
                       h: Handled) returns (b: seq<bv8>, c: (seq<bv8>, nat))
    requires TransferToHost2D(st, mem, base, cmd, second) == Ok(h)
    ensures View(mem, base, cmd.addr, Nat32(cmd.len), 56) == Ok(b)
    ensures RectAt(b, 24) == SUPPORTED_RECT && Nat32(Le32At(b, 48)) in st.resources
    ensures CopyEntries(mem, base, st.resources[Nat32(Le32At(b, 48))].entries, Ram.Zeros(RectSize(SUPPORTED_RECT)), 0) == Ok(c)
    ensures h.len == 24 && WriteOkNodata(mem, base, second) == Ok(h.mem)
    ensures h.dev == st.(sent := st.sent + [GpuMessage(Copy, Le32At(b, 48), SUPPORTED_RECT, Pixels(c.0))])
  {
    b := View(mem, base, cmd.addr, Nat32(cmd.len), 56).value;
    c := CopyEntries(mem, base, st.resources[Nat32(Le32At(b, 48))].entries, Ram.Zeros(RectSize(SUPPORTED_RECT)), 0).value;
  }

  /** The copy into the zeroed frame holds the gathered backing bytes, cut
      at the frame's size, followed by zeros. */
  lemma FrameHolds(mem: seq<bv8>, base: nat, entries: seq<MemEntry>, c: (seq<bv8>, nat), g: seq<bv8>)
    requires CopyEntries(mem, base, entries, Ram.Zeros(RectSize(SUPPORTED_RECT)), 0) == Ok(c)
    requires Gather(mem, base, entries) == Ok(g)
    ensures |c.0| == 1920000
    ensures c.0[..Min(|g|, 1920000)] == g[..Min(|g|, 1920000)]
    ensures forall k :: Min(|g|, 1920000) <= k < |c.0| ==> c.0[k] == 0
  {
    SupportedRectSize();
    var z := Ram.Zeros(RectSize(SUPPORTED_RECT));
    CopyEntriesGathers(mem, base, entries, z, 0, c, g);
    var n := Min(|g|, 1920000);
    assert c.0[0..c.1] == g[..c.1 - 0];
    forall k | n <= k < |c.0|
      ensures c.0[k] == 0
    {
      assert c.0[c.1..][k - c.1] == z[c.1..][k - c.1];
    }
  }

  /** A transfer of the supported rectangle sends one copy message naming
      the resource, whose 480,000 pixels are those of a buffer holding the
      resource's backing bytes in order, cut at 1,920,000 bytes, and zeros
      after them. Nothing else changes but the response. */
  lemma TransferSends(st: GpuState, mem: seq<bv8>, base: nat, cmd: VirtQueueDesc, second: VirtQueueDesc,
                      b: seq<bv8>, h: Handled, g: seq<bv8>)
    requires TransferToHost2D(st, mem, base, cmd, second) == Ok(h)
    requires View(mem, base, cmd.addr, Nat32(cmd.len), 56) == Ok(b)
    requires Nat32(Le32At(b, 48)) in st.resources && Gather(mem, base, st.resources[Nat32(Le32At(b, 48))].entries) == Ok(g)
    ensures RectAt(b, 24) == SUPPORTED_RECT && h.len == 24 && WriteOkNodata(mem, base, second) == Ok(h.mem)
    ensures h.dev.resources == st.resources && h.dev.scanouts == st.scanouts
    ensures |h.dev.sent| == |st.sent| + 1 && h.dev.sent[..|st.sent|] == st.sent
    ensures var msg := h.dev.sent[|st.sent|];
      msg.operation == Copy && msg.resourceId == Le32At(b, 48) && msg.rect == SUPPORTED_RECT &&
      |msg.buffer| == 800 * 600
    ensures exists a: seq<bv8> {:trigger Pixels(a)} ::
      (|a| == 1920000 && h.dev.sent[|st.sent|].buffer == Pixels(a) &&
       a[..Min(|g|, 1920000)] == g[..Min(|g|, 1920000)] && forall k :: Min(|g|, 1920000) <= k < |a| ==> a[k] == 0)
  {
    var b', c := TransferUnfold(st, mem, base, cmd, second, h);
    FrameHolds(mem, base, st.resources[Nat32(Le32At(b, 48))].entries, c, g);
    assert h.dev.sent[|st.sent|].buffer == Pixels(c.0);
  }

  // The control queue: `handle_notify`.

  /** The outcome of a notify: whether it raises the interrupt, the
      device's new state and the new RAM bytes. */
  datatype GpuStep = GpuStep(interrupt: bool, dev: GpuState, mem: seq<bv8>)

  /** The interrupt flag of a step, or its failure. */
  function Flag(o: Outcome<GpuStep>): (r: Outcome<bool>)
    ensures r.Ok? <==> o.Ok?
    ensures r.Ok? ==> r.value == o.value.interrupt
    ensures o.Panic? ==> r.Panic?
  {
    match o
    case Ok(s) => Ok(s.interrupt)
    case Fail(t) => Fail(t)
    case Panic => Panic
  }

  /** Ring slot `cur` (`last + i`, wrapping) of a notify: the command the
      driver ring names at `cur mod 256` is handled, then the used element
      at the same slot gets the command's descriptor index and the length
      written back, and the used index advances by one (wrapping). */
  function NotifySlot(st: GpuState, mem: seq<bv8>, base: nat, drvAddr: nat, devAddr: nat, descBase: nat,
                      cur: bv16): (r: Outcome<(GpuState, seq<bv8>)>)
    ensures r.Ok? ==> r.value.0.lastIdxes == st.lastIdxes && SendsAtMostOne(st.sent, r.value.0.sent)
  {
    var slot := Nat16(cur) % MAX_QUEUE_SIZE;
    var cmdIdx :- DriverRing(mem, base, drvAddr, MAX_QUEUE_SIZE, slot);
    var h :- CommandSpec(st, mem, base, descBase, cmdIdx);
    var m :- PushUsed(h.mem, base, devAddr, MAX_QUEUE_SIZE, slot, Widen16(cmdIdx), h.len);
    Ok((h.dev, m))
  }

  /** The `remaining` slots of a notify from ring index `cur` on: the
      device state and memory after them. */
  function NotifyFrom(st: GpuState, mem: seq<bv8>, base: nat, drvAddr: nat, devAddr: nat, descBase: nat,
                      cur: bv16, remaining: bv16): (r: Outcome<(GpuState, seq<bv8>)>)
    ensures r.Ok? ==> r.value.0.lastIdxes == st.lastIdxes
    decreases remaining
  {
    if remaining == 0 then Ok((st, mem))
    else
      var s :- NotifySlot(st, mem, base, drvAddr, devAddr, descBase, cur);
      NotifyFrom(s.0, s.1, base, drvAddr, devAddr, descBase, cur + 1, remaining - 1)
  }

  /** The slots a notify handles: ring indexes from `last` up to the
      driver's `avail`, through the queue's three areas. */
  datatype Batch = Batch(drvAddr: nat, devAddr: nat, descBase: nat, last: bv16, avail: bv16)

  /** The checks of `handle_notify(q)`: only the control queue is
      implemented; its driver view must lie in RAM, and when the driver's
      index is still `last` there is nothing to do; otherwise the device
      view must lie in RAM too. */
  function NotifyBatch(regs: VirtioState, st: GpuState, mem: seq<bv8>, base: nat, q: bv32)
    : (r: Outcome<Option<Batch>>)
    ensures r.Ok? ==> Nat32(q) == VIRTIO_GPU_CONTROL_IDX < |st.lastIdxes|
    ensures r.Ok? && r.value.Some? ==> r.value.value.last == st.lastIdxes[VIRTIO_GPU_CONTROL_IDX]
  {
    var qi := Nat32(q);
    if qi != VIRTIO_GPU_CONTROL_IDX || qi >= |st.lastIdxes| then Panic
    else
      var last := st.lastIdxes[qi];
      var drvAddr :- DriverAddr(regs, qi);
      var avail :- DriverIdx(mem, base, drvAddr, MAX_QUEUE_SIZE);
      if avail == last then Ok(None)
      else
        var devAddr :- DeviceAddr(regs, qi);
        var used :- DeviceIdx(mem, base, devAddr, MAX_QUEUE_SIZE);
        var descBase :- DescAddr(regs, qi);
        Ok(Some(Batch(drvAddr, devAddr, descBase, last, avail)))
  }

  /** `handle_notify(q)`: every slot of the batch is handled in ring order,
      and `last` becomes the driver's index read before the first. */
  function NotifySpec(regs: VirtioState, st: GpuState, mem: seq<bv8>, base: nat, q: bv32): Outcome<GpuStep>
  {
    var batch :- NotifyBatch(regs, st, mem, base, q);
    match batch
    case None => Ok(GpuStep(false, st, mem))
    case Some(b) =>
      var t :- NotifyFrom(st, mem, base, b.drvAddr, b.devAddr, b.descBase, b.last, Distance16(b.avail, b.last));
      Ok(GpuStep(true, t.0.(lastIdxes := t.0.lastIdxes[VIRTIO_GPU_CONTROL_IDX := b.avail]), t.1))
  }

  /** One handled slot: its used element holds the command's descriptor
      index and the length the command reported, and the used index is one
      higher than it was after the command's own writes. */
  lemma NotifySlotUsed(st: GpuState, mem: seq<bv8>, base: nat, drvAddr: nat, devAddr: nat, descBase: nat,
                       cur: bv16, s: (GpuState, seq<bv8>), cmdIdx: bv16, h: Handled, idx: bv16)
    requires NotifySlot(st, mem, base, drvAddr, devAddr, descBase, cur) == Ok(s)
    requires DriverRing(mem, base, drvAddr, MAX_QUEUE_SIZE, Nat16(cur) % MAX_QUEUE_SIZE) == Ok(cmdIdx)
    requires CommandSpec(st, mem, base, descBase, cmdIdx) == Ok(h)
    requires DeviceIdx(h.mem, base, devAddr, MAX_QUEUE_SIZE) == Ok(idx)
    ensures s.0 == h.dev && |s.1| == |h.mem|
    ensures UsedElem(s.1, base, devAddr, MAX_QUEUE_SIZE, Nat16(cur) % MAX_QUEUE_SIZE) == Ok((Widen16(cmdIdx), h.len))
    ensures DeviceIdx(s.1, base, devAddr, MAX_QUEUE_SIZE) == Ok(idx + 1)
  {
    var slot := Nat16(cur) % MAX_QUEUE_SIZE;
    assert PushUsed(h.mem, base, devAddr, MAX_QUEUE_SIZE, slot, Widen16(cmdIdx), h.len) == Ok(s.1);
    PushUsedElem(h.mem, base, devAddr, MAX_QUEUE_SIZE, slot, Widen16(cmdIdx), h.len);
    PushUsedIdx(h.mem, base, devAddr, MAX_QUEUE_SIZE, slot, Widen16(cmdIdx), h.len, s.1, idx);
  }

  /** A batch sends at most one message per slot to the host, after the
      ones sent before. */
  lemma {:induction false} NotifyFromSent(st: GpuState, mem: seq<bv8>, base: nat, drvAddr: nat, devAddr: nat,
                                          descBase: nat, cur: bv16, remaining: bv16, t: (GpuState, seq<bv8>))
    requires NotifyFrom(st, mem, base, drvAddr, devAddr, descBase, cur, remaining) == Ok(t)
    ensures |st.sent| <= |t.0.sent| <= |st.sent| + Steps(remaining) && t.0.sent[..|st.sent|] == st.sent
    decreases remaining
  {
    if remaining != 0 {
      var s := NotifySlot(st, mem, base, drvAddr, devAddr, descBase, cur).value;
      NotifyFromSent(s.0, s.1, base, drvAddr, devAddr, descBase, cur + 1, remaining - 1, t);
      assert t.0.sent[..|st.sent|] == t.0.sent[..|s.0.sent|][..|st.sent|];
    }
  }

  /** A notify on any queue but the control queue is unimplemented. */
  lemma NotifyOther(regs: VirtioState, st: GpuState, mem: seq<bv8>, base: nat, q: bv32)
    requires q != 0
    ensures NotifySpec(regs, st, mem, base, q) == Panic
  {
  }

  /** A notify whose driver index is still `last` changes nothing and
      raises no interrupt. */
  lemma NotifyIdle(regs: VirtioState, st: GpuState, mem: seq<bv8>, base: nat, drvAddr: nat)
    requires |st.lastIdxes| > VIRTIO_GPU_CONTROL_IDX
    requires DriverAddr(regs, VIRTIO_GPU_CONTROL_IDX) == Ok(drvAddr)
    requires DriverIdx(mem, base, drvAddr, MAX_QUEUE_SIZE) == Ok(st.lastIdxes[VIRTIO_GPU_CONTROL_IDX])
    ensures NotifySpec(regs, st, mem, base, 0) == Ok(GpuStep(false, st, mem))
  {
    assert Nat32(0) == VIRTIO_GPU_CONTROL_IDX;
  }

  /** What a notify on the control queue handles: nothing exactly when the
      driver's index is still `last`, otherwise the slots from `last` up to
      it, through the queue's registered areas. */
  lemma NotifyBatchControl(regs: VirtioState, st: GpuState, mem: seq<bv8>, base: nat, b: Option<Batch>,
                           drvAddr: nat, avail: bv16)
    requires NotifyBatch(regs, st, mem, base, 0) == Ok(b)
    requires DriverAddr(regs, VIRTIO_GPU_CONTROL_IDX) == Ok(drvAddr)
    requires DriverIdx(mem, base, drvAddr, MAX_QUEUE_SIZE) == Ok(avail)
    ensures |st.lastIdxes| > VIRTIO_GPU_CONTROL_IDX
    ensures b.None? <==> avail == st.lastIdxes[VIRTIO_GPU_CONTROL_IDX]
    ensures b.Some? ==> b.value.drvAddr == drvAddr && b.value.avail == avail
    ensures b.Some? ==> DeviceAddr(regs, VIRTIO_GPU_CONTROL_IDX) == Ok(b.value.devAddr)
    ensures b.Some? ==> DescAddr(regs, VIRTIO_GPU_CONTROL_IDX) == Ok(b.value.descBase)
  {
    assert Nat32(0) == VIRTIO_GPU_CONTROL_IDX;
  }

  /** A notify on the control queue handles every slot from `last` up to
      the driver's index and moves `last` there; it interrupts exactly
      when there was a slot to handle, and sends at most one message per
      slot, after the ones sent before. */
  lemma NotifyProcesses(regs: VirtioState, st: GpuState, mem: seq<bv8>, base: nat, s: GpuStep,
                        drvAddr: nat, avail: bv16)
    requires NotifySpec(regs, st, mem, base, 0) == Ok(s)
    requires DriverAddr(regs, VIRTIO_GPU_CONTROL_IDX) == Ok(drvAddr)
    requires DriverIdx(mem, base, drvAddr, MAX_QUEUE_SIZE) == Ok(avail)
    ensures |st.lastIdxes| > VIRTIO_GPU_CONTROL_IDX
    ensures s.interrupt <==> avail != st.lastIdxes[VIRTIO_GPU_CONTROL_IDX]
    ensures s.dev.lastIdxes == st.lastIdxes[VIRTIO_GPU_CONTROL_IDX := avail]
    ensures |st.sent| <= |s.dev.sent| <= |st.sent| + Steps(Distance16(avail, st.lastIdxes[VIRTIO_GPU_CONTROL_IDX]))
    ensures s.dev.sent[..|st.sent|] == st.sent
  {
    var b := NotifyBatch(regs, st, mem, base, 0).value;
    NotifyBatchControl(regs, st, mem, base, b, drvAddr, avail);
    var last := st.lastIdxes[VIRTIO_GPU_CONTROL_IDX];
    if b.None? {
      assert st.lastIdxes[VIRTIO_GPU_CONTROL_IDX := avail] == st.lastIdxes;
    } else {
      var t := NotifyFrom(st, mem, base, drvAddr, b.value.devAddr, b.value.descBase, last, Distance16(avail, last)).value;
      NotifyFromSent(st, mem, base, drvAddr, b.value.devAddr, b.value.descBase, last, Distance16(avail, last), t);
    }
  }

  // The device: registers, reset, read and write.

  /** The device's registers and own state together. */
  datatype GpuDevice = GpuDevice(regs: VirtioState, own: GpuState)

  /** The initial device (`VirtioGpu::new`), and what a reset makes of a
      device: a fresh transport, last indexes 0, no resources, one unbound
      scanout; the channel is kept. */
  function Fresh(own: GpuState): (r: GpuDevice)
    ensures r.regs == InitialRegs() && r.own.lastIdxes == [0, 0] && r.own.resources == map[]
    ensures r.own.scanouts == [Scanout(Rect(0, 0, 0, 0), 0)] && r.own.sent == own.sent
  {
    GpuDevice(InitialRegs(), GpuState([0, 0], map[], [Scanout(Rect(0, 0, 0, 0), 0)], own.sent))
  }

  /** The low and high words of a 64-bit constant (`as u32`, `>> 32`). */
  function Low32(v: bv64): bv32 { (v & 0xffff_ffff) as bv32 }
  function High32(v: bv64): bv32 { (v >> 32) as bv32 }

  /** `read`: only 4-byte accesses; 0xb0 to 0xbc give the selected shared
      memory region's length and base (a selector past the two regions
      panics); below the configuration space the transport answers; in it
      only the scanout count (8) and the capability-set count (0xc)
      exist. */
  function GpuRead(regs: VirtioState, offset: bv32, size: bv32): Outcome<DeviceResponse<bv32>>
  {
    if size != 4 then Panic
    else if offset == 0xb0 || offset == 0xb4 || offset == 0xb8 || offset == 0xbc then
      var sel := Nat32(regs.shmSel);
      if sel >= |SHM_LENS| then Panic
      else
        var v := if offset == 0xb0 then Low32(SHM_LENS[sel])
                 else if offset == 0xb4 then High32(SHM_LENS[sel])
                 else if offset == 0xb8 then Low32(SHM_BASES[sel])
                 else High32(SHM_BASES[sel]);
        Ok(DeviceResponse(v, false))
    else if offset < VIRTIO_REG_CONFIG then VirtioTransport.ReadSpec(regs, offset, size)
    else if offset - VIRTIO_REG_CONFIG == 8 then Ok(DeviceResponse(MAX_SCANOUTS, false))
    else if offset - VIRTIO_REG_CONFIG == 0xc then Ok(DeviceResponse(MAX_CAPSETS, false))
    else Panic
  }

  /** The configuration space holds one scanout and no capability sets;
      every other configuration offset, and every access other than 4
      bytes, panics. */
  lemma ConfigRead(regs: VirtioState, offset: bv32, size: bv32)
    ensures size != 4 ==> GpuRead(regs, offset, size) == Panic
    ensures GpuRead(regs, 0x108, 4) == Ok(DeviceResponse(1, false))
    ensures GpuRead(regs, 0x10c, 4) == Ok(DeviceResponse(0, false))
    ensures offset >= 0x100 && offset != 0x108 && offset != 0x10c ==> GpuRead(regs, offset, size) == Panic
  {
  }

  /** Below the configuration space, outside the shared memory registers,
      the transport answers. */
  lemma TransportRead(regs: VirtioState, offset: bv32)
    requires offset < 0x100 && offset != 0xb0 && offset != 0xb4 && offset != 0xb8 && offset != 0xbc
    ensures GpuRead(regs, offset, 4) == VirtioTransport.ReadSpec(regs, offset, 4)
  {
  }

  /** The two shared memory regions are 2 MiB each, at 0x1001_0000 and
      0x1003_0000, both below 4 GiB; a selector past them panics. */
  lemma ShmRead(regs: VirtioState)
    ensures regs.shmSel == 0 ==>
      (GpuRead(regs, 0xb0, 4) == Ok(DeviceResponse(0x20_0000, false)) &&
       GpuRead(regs, 0xb8, 4) == Ok(DeviceResponse(0x1001_0000, false)))
    ensures regs.shmSel == 1 ==>
      (GpuRead(regs, 0xb0, 4) == Ok(DeviceResponse(0x20_0000, false)) &&
       GpuRead(regs, 0xb8, 4) == Ok(DeviceResponse(0x1003_0000, false)))
    ensures regs.shmSel < 2 ==>
      (GpuRead(regs, 0xb4, 4) == Ok(DeviceResponse(0, false)) && GpuRead(regs, 0xbc, 4) == Ok(DeviceResponse(0, false)))
    ensures regs.shmSel >= 2 ==> GpuRead(regs, 0xb0, 4) == Panic
  {
    assert Nat32(0) == 0 && Nat32(1) == 1;
    if regs.shmSel >= 2 {
      assert Nat32(regs.shmSel) >= 2;
    }
  }

  /** `write`: only 4-byte accesses; a notify (0x50) runs `handle_notify`
      with the written queue index and reports its interrupt; a status
      write of 0 resets the device; anything else goes to the transport and
      raises nothing. The result is the interrupt flag, the new device and
      the new RAM. */
  function GpuWrite(d: GpuDevice, mem: seq<bv8>, base: nat, offset: bv32, size: bv32, value: bv32)
    : Outcome<(bool, GpuDevice, seq<bv8>)>
  {
    if size != 4 then Panic
    else if offset == VIRTIO_REG_NOTIFY then
      var s :- NotifySpec(d.regs, d.own, mem, base, value);
      Ok((s.interrupt, GpuDevice(d.regs, s.dev), s.mem))
    else if offset == VIRTIO_REG_STATUS && value == 0 then
      Ok((false, Fresh(d.own), mem))
    else
      var regs :- VirtioTransport.WriteSpec(d.regs, offset, size, value);
      Ok((false, GpuDevice(regs, d.own), mem))
  }

  /** The response `write` gives for an outcome of `GpuWrite`. */
  function Respond(o: Outcome<(bool, GpuDevice, seq<bv8>)>): (r: Outcome<DeviceResponse<()>>)
    ensures r.Ok? <==> o.Ok?
    ensures r.Ok? ==> r.value.isInterrupting == o.value.0
    ensures o.Panic? ==> r.Panic?
  {
    match o
    case Ok(w) => Ok(DeviceResponse((), w.0))
    case Fail(t) => Fail(t)
    case Panic => Panic
  }

  /** A status write of 0 resets the device whatever its state: the control
      queue not ready, status 0, last indexes 0, no resources and an
      unbound scanout; the channel and the RAM are kept and no interrupt is
      raised. */
  lemma ResetOnStatusZero(d: GpuDevice, mem: seq<bv8>, base: nat)
    ensures GpuWrite(d, mem, base, VIRTIO_REG_STATUS, 4, 0) == Ok((false, Fresh(d.own), mem))
    ensures var f := Fresh(d.own);
      f.regs.status == 0 && !f.regs.readies[VIRTIO_GPU_CONTROL_IDX] && f.own.lastIdxes == [0, 0] &&
      f.own.resources == map[] && f.own.sent == d.own.sent
  {
  }

  /** A write to any other transport register leaves the device's own
      state and the RAM alone and raises nothing; a write of another size
      panics. */
  lemma TransportWrite(d: GpuDevice, mem: seq<bv8>, base: nat, offset: bv32, size: bv32, value: bv32)
    requires offset != VIRTIO_REG_NOTIFY && !(offset == VIRTIO_REG_STATUS && value == 0)
    ensures size != 4 ==> GpuWrite(d, mem, base, offset, size, value) == Panic
    ensures size == 4 ==> (GpuWrite(d, mem, base, offset, size, value).Ok? <==>
      VirtioTransport.WriteSpec(d.regs, offset, size, value).Ok?)
    ensures GpuWrite(d, mem, base, offset, size, value).Ok? ==>
      GpuWrite(d, mem, base, offset, size, value).value ==
        (false, GpuDevice(VirtioTransport.WriteSpec(d.regs, offset, size, value).value, d.own), mem)
  {
  }

  /** The length a handled command reports, or its failure. */
  function Written(o: Outcome<Handled>): (r: Outcome<bv32>)
    ensures r.Ok? <==> o.Ok?
    ensures r.Ok? ==> r.value == o.value.len
    ensures o.Panic? ==> r.Panic?
  {
    match o
    case Ok(h) => Ok(h.len)
    case Fail(t) => Fail(t)
    case Panic => Panic
  }

  /** `VirtioGpu`: the transport, the last ring index consumed per queue,
      the resources by id, the scanouts, and the host channel. */
  class VirtioGpu {
    var virtio: VirtioMmio
    var lastIdxes: seq<bv16>
    var resources: map<nat, Resource>
    var scanouts: seq<Scanout>
    var sent: seq<GpuMessage>

    function Own(): GpuState
      reads this
    {
      GpuState(lastIdxes, resources, scanouts, sent)
    }

    function Device(): GpuDevice
      reads this, virtio
    {
      GpuDevice(virtio.State(), Own())
    }

    /** `VirtioGpu::new`: nothing has been sent. */
    constructor ()
      ensures fresh(virtio) && Device() == Fresh(GpuState([], map[], [], []))
    {
      virtio := new VirtioMmio(Gpu, FEATURES, 2, 256);
      lastIdxes := [0, 0];
      resources := map[];
      scanouts := [Scanout(Rect(0, 0, 0, 0), 0)];
      sent := [];
    }

    /** `irq`. */
    function Irq(): (r: IRQ)
    {
      IRQ.VirtioGpu
    }

    /** `reset`: `*self = Self::new(..)` with the same channel. */
    method Reset()
      modifies this
      ensures fresh(virtio) && Device() == Fresh(old(Own()))
    {
      virtio := new VirtioMmio(Gpu, FEATURES, 2, 256);
      lastIdxes := [0, 0];
      resources := map[];
      scanouts := [Scanout(Rect(0, 0, 0, 0), 0)];
    }

    /** `read`. */
    method Read(offset: bv32, size: bv32) returns (r: Outcome<DeviceResponse<bv32>>)
      ensures r == GpuRead(virtio.State(), offset, size)
    {
      if size != 4 {
        return Panic;
      }
      if offset == 0xb0 || offset == 0xb4 || offset == 0xb8 || offset == 0xbc {
        var sel := Nat32(virtio.shmSel);
        if sel >= |SHM_LENS| {
          return Panic;
        }
        var v := if offset == 0xb0 then Low32(SHM_LENS[sel])
                 else if offset == 0xb4 then High32(SHM_LENS[sel])
                 else if offset == 0xb8 then Low32(SHM_BASES[sel])
                 else High32(SHM_BASES[sel]);
        r := Ok(DeviceResponse(v, false));
      } else if offset < VIRTIO_REG_CONFIG {
        r := virtio.Read(offset, size);
      } else if offset - VIRTIO_REG_CONFIG == 8 {
        r := Ok(DeviceResponse(MAX_SCANOUTS, false));
      } else if offset - VIRTIO_REG_CONFIG == 0xc {
        r := Ok(DeviceResponse(MAX_CAPSETS, false));
      } else {
        r := Panic;
      }
    }

    /** `write`. */
    method Write(offset: bv32, size: bv32, value: bv32, memory: Ram.Memory) returns (r: Outcome<DeviceResponse<()>>)
      modifies this, virtio, memory
      ensures memory.baseAddress == old(memory.baseAddress)
      ensures r == Respond(GpuWrite(old(Device()), old(memory.bytes), Nat32(memory.baseAddress),
                                    offset, size, value))
      ensures r.Ok? ==>
        var w := GpuWrite(old(Device()), old(memory.bytes), Nat32(memory.baseAddress), offset, size, value).value;
        Device() == w.1 && memory.bytes == w.2
    {
      if size != 4 {
        r := Panic;
      } else if offset == VIRTIO_REG_NOTIFY {
        var flag := HandleNotify(value, memory);
        r := match flag
          case Ok(b) => Ok(DeviceResponse((), b))
          case Fail(t) => Fail(t)
          case Panic => Panic;
      } else if offset == VIRTIO_REG_STATUS && value == 0 {
        Reset();
        r := Ok(DeviceResponse((), false));
      } else {
        r := virtio.Write(offset, size, value);
      }
    }

    /** `handle_notify`: the checks, then the batch of slots, then `last`
        becomes the driver's index read at the start. */
    method HandleNotify(q: bv32, memory: Ram.Memory) returns (r: Outcome<bool>)
      modifies this, memory
      ensures virtio == old(virtio) && memory.baseAddress == old(memory.baseAddress)
      ensures r == Flag(NotifySpec(virtio.State(), old(Own()), old(memory.bytes), Nat32(memory.baseAddress), q))
      ensures r.Ok? ==>
        var s := NotifySpec(virtio.State(), old(Own()), old(memory.bytes), Nat32(memory.baseAddress), q).value;
        Own() == s.dev && memory.bytes == s.mem
    {
      var base := Nat32(memory.baseAddress);
      ghost var st0, m0 := Own(), memory.bytes;
      var batch :- NotifyBatch(virtio.State(), Own(), memory.bytes, base, q);
      match batch {
        case None =>
          r := Ok(false);
        case Some(b) =>
          ghost var t := NotifyFrom(st0, m0, base, b.drvAddr, b.devAddr, b.descBase, b.last, Distance16(b.avail, b.last));
          var _ :- ProcessBatch(memory, base, b.drvAddr, b.devAddr, b.descBase, b.last, Distance16(b.avail, b.last));
          assert t.Ok? && Own() == t.value.0 && memory.bytes == t.value.1;
          lastIdxes := lastIdxes[VIRTIO_GPU_CONTROL_IDX := b.avail];
          assert NotifySpec(virtio.State(), st0, m0, base, q) ==
            Ok(GpuStep(true, t.value.0.(lastIdxes := t.value.0.lastIdxes[VIRTIO_GPU_CONTROL_IDX := b.avail]), t.value.1));
          r := Ok(true);
      }
    }

    /** The loop of `handle_notify`: `count` slots from ring index `last`
        on, each command handled and then returned through the used ring;
        `cur` is `last_idx.wrapping_add(i)` and `remaining` is `diff - i`. */
    method ProcessBatch(memory: Ram.Memory, base: nat, drvAddr: nat, devAddr: nat, descBase: nat,
                        last: bv16, count: bv16) returns (r: Outcome<()>)
      modifies this`resources, this`scanouts, this`sent, memory`bytes
      ensures r == Discard(NotifyFrom(old(Own()), old(memory.bytes), base, drvAddr, devAddr, descBase, last, count))
      ensures r.Ok? ==>
        (Own(), memory.bytes) == NotifyFrom(old(Own()), old(memory.bytes), base, drvAddr, devAddr, descBase, last, count).value
    {
      ghost var goal := NotifyFrom(Own(), memory.bytes, base, drvAddr, devAddr, descBase, last, count);
      var cur, remaining := last, count;
      while remaining != 0
        invariant goal == NotifyFrom(Own(), memory.bytes, base, drvAddr, devAddr, descBase, cur, remaining)
        decreases remaining
      {
        ghost var st0, m0 := Own(), memory.bytes;
        var slot := Nat16(cur) % MAX_QUEUE_SIZE;
        var cmdIdx :- DriverRing(memory.bytes, base, drvAddr, MAX_QUEUE_SIZE, slot);
        var len :- Command(memory, base, descBase, cmdIdx);
        var m :- PushUsed(memory.bytes, base, devAddr, MAX_QUEUE_SIZE, slot, Widen16(cmdIdx), len);
        memory.bytes := m;
        assert NotifySlot(st0, m0, base, drvAddr, devAddr, descBase, cur) == Ok((Own(), m));
        cur, remaining := cur + 1, remaining - 1;
      }
      r := Ok(());
    }

    /** One command: the chained descriptors are read and the command's
        type decides the handler; the length written back is returned. */
    method Command(memory: Ram.Memory, base: nat, descBase: nat, cmdIdx: bv16) returns (r: Outcome<bv32>)
      modifies this`resources, this`scanouts, this`sent, memory`bytes
      ensures r == Written(CommandSpec(old(Own()), old(memory.bytes), base, descBase, cmdIdx))
      ensures r.Ok? ==>
        var h := CommandSpec(old(Own()), old(memory.bytes), base, descBase, cmdIdx).value;
        Own() == h.dev && memory.bytes == h.mem
    {
      var cmd :- DescAt(memory.bytes, base, descBase, cmdIdx);
      if !cmd.IsNext() {
        return Panic;
      }
      var second :- DescAt(memory.bytes, base, descBase, cmd.next);
      var hdr :- View(memory.bytes, base, cmd.addr, Nat32(cmd.len), 4);
      var t :- CtrlTypeFrom(Le32At(hdr, 0));
      r := DispatchCommand(t, memory, base, descBase, cmd, second);
    }

    /** The `match` on the command's type. */
    method DispatchCommand(t: CtrlType, memory: Ram.Memory, base: nat, descBase: nat, cmd: VirtQueueDesc,
                           second: VirtQueueDesc) returns (r: Outcome<bv32>)
      modifies this`resources, this`scanouts, this`sent, memory`bytes
      ensures r == Written(Dispatch(t, old(Own()), old(memory.bytes), base, descBase, cmd, second))
      ensures r.Ok? ==>
        var h := Dispatch(t, old(Own()), old(memory.bytes), base, descBase, cmd, second).value;
        Own() == h.dev && memory.bytes == h.mem
    {
      match t {
        case CmdResourceAttachBacking =>
          r := AttachBackingCommand(memory, base, descBase, cmd, second);
        case CmdTransferToHost2D =>
          r := TransferCommand(memory, base, cmd, second);
        case RespOkNodata | RespOkDisplayInfo =>
          r := Panic;
        case CmdGetDisplayInfo | CmdResourceCreate2D | CmdSetScanout | CmdResourceFlush =>
          var h :- Dispatch(t, Own(), memory.bytes, base, descBase, cmd, second);
          resources, scanouts, sent := h.dev.resources, h.dev.scanouts, h.dev.sent;
          memory.bytes := h.mem;
          r := Ok(h.len);
      }
    }

    /** `CmdResourceAttachBacking`: the descriptor checks and the command. */
    method AttachBackingCommand(memory: Ram.Memory, base: nat, descBase: nat, cmd: VirtQueueDesc,
                                second: VirtQueueDesc) returns (r: Outcome<bv32>)
      modifies this`resources, memory`bytes
      ensures r == Written(AttachBacking(old(Own()), old(memory.bytes), base, descBase, cmd, second))
      ensures r.Ok? ==>
        var h := AttachBacking(old(Own()), old(memory.bytes), base, descBase, cmd, second).value;
        Own() == h.dev && memory.bytes == h.mem
    {
      if !second.IsNext() {
        return Panic;
      }
      var third :- DescAt(memory.bytes, base, descBase, second.next);
      if !SingleResponse(third) {
        return Panic;
      }
      var b :- View(memory.bytes, base, cmd.addr, Nat32(cmd.len), 32);
      r := AttachEntries(memory, base, second, third, Nat32(Le32At(b, 24)), Nat32(Le32At(b, 28)));
    }

    /** The loop of `CmdResourceAttachBacking`: `n` entries pushed onto
        resource `id`, then the response. */
    method AttachEntries(memory: Ram.Memory, base: nat, second: VirtQueueDesc, third: VirtQueueDesc,
                         id: nat, n: nat) returns (r: Outcome<bv32>)
      modifies this`resources, memory`bytes
      ensures r == Written(AttachTo(old(Own()), old(memory.bytes), base, second, third, id, n))
      ensures r.Ok? ==>
        var h := AttachTo(old(Own()), old(memory.bytes), base, second, third, id, n).value;
        Own() == h.dev && memory.bytes == h.mem
    {
      if id !in resources {
        return Panic;
      }
      ghost var goal := PushEntries(resources[id], memory.bytes, base, second.addr, Nat32(second.len), 0, n);
      var res := resources[id];
      var i := 0;
      while i < n
        invariant i <= n
        invariant goal == PushEntries(res, memory.bytes, base, second.addr, Nat32(second.len), i, n)
        decreases n - i
      {
        var e :- EntryAt(memory.bytes, base, EntryAddr(second.addr, i), Nat32(second.len));
        res := res.(entries := res.entries + [e]);
        i := i + 1;
      }
      var m :- WriteOkNodata(memory.bytes, base, third);
      resources := resources[id := res];
      memory.bytes := m;
      r := Ok(24);
    }

    /** `CmdTransferToHost2D`: the descriptor check and the command. */
    method TransferCommand(memory: Ram.Memory, base: nat, cmd: VirtQueueDesc, second: VirtQueueDesc)
      returns (r: Outcome<bv32>)
      modifies this`sent, memory`bytes
      ensures r == Written(TransferToHost2D(old(Own()), old(memory.bytes), base, cmd, second))
      ensures r.Ok? ==>
        var h := TransferToHost2D(old(Own()), old(memory.bytes), base, cmd, second).value;
        Own() == h.dev && memory.bytes == h.mem
    {
      if !SingleResponse(second) {
        return Panic;
      }
      var b :- View(memory.bytes, base, cmd.addr, Nat32(cmd.len), 56);
      r := TransferFrame(memory, base, second, RectAt(b, 24), Le32At(b, 48));
    }

    /** The loop of `CmdTransferToHost2D`: the backing entries copied into
        a zeroed frame buffer, which is sent as pixels. */
    method TransferFrame(memory: Ram.Memory, base: nat, second: VirtQueueDesc, rect: Rect, id: bv32)
      returns (r: Outcome<bv32>)
      modifies this`sent, memory`bytes
      ensures r == Written(TransferFrom(old(Own()), old(memory.bytes), base, second, rect, id))
      ensures r.Ok? ==>
        var h := TransferFrom(old(Own()), old(memory.bytes), base, second, rect, id).value;
        Own() == h.dev && memory.bytes == h.mem
    {
      if rect != SUPPORTED_RECT || Nat32(id) !in resources {
        return Panic;
      }
      var res := resources[Nat32(id)];
      var frame :- CopyBacking(memory, base, res.entries);
      var buffer :- FormatArray(res.format, frame);
      var m :- WriteOkNodata(memory.bytes, base, second);
      sent := sent + [GpuMessage(Copy, id, rect, buffer)];
      memory.bytes := m;
      r := Ok(24);
    }
  }

  /** The copy loop of `CmdTransferToHost2D`: each entry's bytes are
      copied after the ones before into a zeroed 800×600×4 buffer, cut
      short where the buffer ends. */
  method CopyBacking(memory: Ram.Memory, base: nat, entries: seq<MemEntry>) returns (r: Outcome<seq<bv8>>)
    ensures r == First(CopyEntries(memory.bytes, base, entries, Ram.Zeros(RectSize(SUPPORTED_RECT)), 0))
  {
    var size := RectSize(SUPPORTED_RECT);
    var buf := new bv8[size](_ => 0);
    assert buf[..] == Ram.Zeros(size);
    ghost var goal := CopyEntries(memory.bytes, base, entries, buf[..], 0);
    var copied, k := 0, 0;
    while k < |entries|
      invariant k <= |entries| && copied <= size == buf.Length
      invariant goal == CopyEntries(memory.bytes, base, entries[k..], buf[..], copied)
      decreases |entries| - k
    {
      var entry := entries[k];
      var bytes :- Ram.RawRead(memory.bytes, base, entry.addr, entry.length);
      var actual := if copied + |bytes| > size then size - copied else |bytes|;
      assert entries[k..][1..] == entries[k + 1..];
      CopyInto(buf, copied, bytes[..actual]);
      copied, k := copied + actual, k + 1;
    }
    r := Ok(buf[..]);
  }

  /** `buf[at..at + |part|].copy_from_slice(part)`. */
  method CopyInto(buf: array<bv8>, at: nat, part: seq<bv8>)
    requires at + |part| <= buf.Length
    modifies buf
    ensures buf[..] == Splice(old(buf[..]), at, part)
  {
    var j := 0;
    while j < |part|
      invariant j <= |part|
      invariant forall i :: 0 <= i < buf.Length ==>
        buf[i] == if at <= i < at + j then part[i - at] else old(buf[i])
    {
      buf[at + j] := part[j];
      j := j + 1;
    }
    assert buf[..] == Splice(old(buf[..]), at, part) by {
      var want := Splice(old(buf[..]), at, part);
      forall i | 0 <= i < buf.Length
        ensures buf[..][i] == want[i]
      {
        if i < at {
        } else if i < at + |part| {
          assert want[i] == (old(buf[..])[..at] + part)[i];
        } else {
          assert want[i] == old(buf[..])[at + |part|..][i - at - |part|];
        }
      }
    }
  }
}
