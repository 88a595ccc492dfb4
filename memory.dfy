/**
 * Guest RAM (src/memory.rs): a byte vector placed at a base address, with
 * bounds-checked reads and writes, and the two program loaders (a flat image
 * copied to an address, and an ELF-32 image whose PT_LOAD segments are copied
 * and zero-filled).
 *
 * Reads are pure functions of the bytes and the base; the operations that
 * change the bytes are methods of `Memory` proved equal to a pure function of
 * the old bytes. Host `usize` arithmetic is unbounded here; the one `u32`
 * subtraction in the ELF loader wraps.
 */
module Ram {
  import opened Arch
  import opened Bits
  import opened Elf

  /** `MEMORY_SIZE`: 128 MiB. */
  const MEMORY_SIZE: nat := 1024 * 1024 * 128

  /** `n` zero bytes. */
  function Zeros(n: nat): (z: seq<bv8>)
    ensures |z| == n && forall k :: 0 <= k < n ==> z[k] == 0
  {
    seq(n, _ => 0)
  }

  /** `mem` with the bytes from `off` on replaced by `buf`. */
  function Overwrite(mem: seq<bv8>, off: nat, buf: seq<bv8>): (r: seq<bv8>)
    requires off + |buf| <= |mem|
    ensures |r| == |mem|
    ensures forall k :: 0 <= k < |buf| ==> r[off + k] == buf[k]
    ensures forall k :: 0 <= k < |mem| && !(off <= k < off + |buf|) ==> r[k] == mem[k]
  {
    mem[..off] + buf + mem[off + |buf|..]
  }

  /** Bytes written with an overwrite read back in place, and a range the
      overwrite does not touch keeps its bytes. */
  lemma OverwriteRange(mem: seq<bv8>, off: nat, buf: seq<bv8>)
    requires off + |buf| <= |mem|
    ensures Overwrite(mem, off, buf)[off..off + |buf|] == buf
  {
    var m := Overwrite(mem, off, buf);
    forall j | 0 <= j < |buf|
      ensures m[off..off + |buf|][j] == buf[j]
    {
      assert m[off..off + |buf|][j] == m[off + j];
    }
  }

  lemma OverwriteElsewhere(mem: seq<bv8>, off: nat, buf: seq<bv8>, q: nat, n: nat)
    requires off + |buf| <= |mem| && q + n <= |mem|
    requires q + n <= off || off + |buf| <= q
    ensures Overwrite(mem, off, buf)[q..q + n] == mem[q..q + n]
  {
    var m := Overwrite(mem, off, buf);
    var now, before := m[q..q + n], mem[q..q + n];
    forall j | 0 <= j < n
      ensures now[j] == before[j]
    {
      assert now[j] == m[q + j] && before[j] == mem[q + j];
    }
  }

  /** `is_invalid_range`: the access leaves [base, base + MEMORY_SIZE). */
  predicate IsInvalidRange(base: nat, address: nat, size: nat)
  {
    address + size > base + MEMORY_SIZE || address < base
  }

  /** `raw_read`: `size` bytes at `address - base`; the subtraction or the
      slice bound panics when the address is not backed by the vector. */
  function RawRead(mem: seq<bv8>, base: nat, address: nat, size: nat): (r: Outcome<seq<bv8>>)
    ensures r.Ok? <==> base <= address && address - base + size <= |mem|
    ensures r.Ok? ==> r.value == mem[address - base..address - base + size]
    ensures !r.Fail?
  {
    if address < base then Panic
    else
      var off := address - base;
      if off + size > |mem| then Panic else Ok(mem[off..off + size])
  }

  /** `raw_write` on the bytes: the new vector, or a panic when the bytes at
      `address - base` are not all backed. */
  function RawWriteOf(mem: seq<bv8>, base: nat, address: nat, buf: seq<bv8>): (r: Outcome<seq<bv8>>)
    ensures r.Ok? <==> base <= address && address - base + |buf| <= |mem|
    ensures r.Ok? ==> r.value == Overwrite(mem, address - base, buf)
    ensures !r.Fail?
  {
    if address < base then Panic
    else
      var off := address - base;
      if off + |buf| > |mem| then Panic else Ok(Overwrite(mem, off, buf))
  }

  /** `read::<SIZE>` (`into_addr` widens the address): a load access fault
      outside the RAM window. */
  function Read(mem: seq<bv8>, base: nat, address: nat, size: nat): Outcome<seq<bv8>>
  {
    if IsInvalidRange(base, address, size) then Fail(LoadAccessFault)
    else RawRead(mem, base, address, size)
  }

  /** `write::<SIZE>`: a store access fault outside the RAM window. */
  function WriteOf(mem: seq<bv8>, base: nat, address: nat, buf: seq<bv8>): Outcome<seq<bv8>>
  {
    if IsInvalidRange(base, address, |buf|) then Fail(StoreOrAMOAccessFault)
    else RawWriteOf(mem, base, address, buf)
  }

  /** `read_for_translation::<SIZE>`: like `read`, but the fault outside the
      window is the one given for the access (the conversion from the access
      kind to a trap is not part of this model). */
  function ReadForTranslation(mem: seq<bv8>, base: nat, address: nat, size: nat, fault: Trap)
    : Outcome<seq<bv8>>
  {
    if IsInvalidRange(base, address, size) then Fail(fault)
    else RawRead(mem, base, address, size)
  }

  /** A read fails exactly outside the window, and then with a load access
      fault; inside the window of a full-size vector it yields the bytes. */
  lemma ReadOutcome(mem: seq<bv8>, base: nat, address: nat, size: nat)
    ensures Read(mem, base, address, size).Fail? <==> IsInvalidRange(base, address, size)
    ensures Read(mem, base, address, size).Fail? ==>
      Read(mem, base, address, size).trap == LoadAccessFault
    ensures !IsInvalidRange(base, address, size) && |mem| == MEMORY_SIZE ==>
      Read(mem, base, address, size) == Ok(mem[address - base..address - base + size])
  {
  }

  /** A write fails exactly outside the window, with a store access fault and
      no new bytes. */
  lemma WriteOutcome(mem: seq<bv8>, base: nat, address: nat, buf: seq<bv8>)
    ensures WriteOf(mem, base, address, buf).Fail? <==> IsInvalidRange(base, address, |buf|)
    ensures WriteOf(mem, base, address, buf).Fail? ==>
      WriteOf(mem, base, address, buf).trap == StoreOrAMOAccessFault
    ensures !IsInvalidRange(base, address, |buf|) && |mem| == MEMORY_SIZE ==>
      WriteOf(mem, base, address, buf).Ok?
  {
  }

  /** A translation read outside the window fails with the access's own fault. */
  lemma ReadForTranslationOutcome(mem: seq<bv8>, base: nat, address: nat, size: nat, fault: Trap)
    ensures ReadForTranslation(mem, base, address, size, fault).Fail? <==>
      IsInvalidRange(base, address, size)
    ensures ReadForTranslation(mem, base, address, size, fault).Fail? ==>
      ReadForTranslation(mem, base, address, size, fault).trap == fault
  {
  }

  /** A write followed by a read of the same size at the same address returns
      the written bytes. */
  lemma WriteThenRead(mem: seq<bv8>, base: nat, address: nat, buf: seq<bv8>)
    requires WriteOf(mem, base, address, buf).Ok?
    ensures Read(WriteOf(mem, base, address, buf).value, base, address, |buf|) == Ok(buf)
  {
    var off := address - base;
    var m := WriteOf(mem, base, address, buf).value;
    assert m == Overwrite(mem, off, buf);
    assert m[off..off + |buf|] == buf;
  }

  /** A write changes no byte outside [address, address + size). */
  lemma WriteKeepsOthers(mem: seq<bv8>, base: nat, address: nat, buf: seq<bv8>, a: nat)
    requires WriteOf(mem, base, address, buf).Ok?
    requires base <= a < base + |mem|
    requires !(address <= a < address + |buf|)
    ensures WriteOf(mem, base, address, buf).value[a - base] == mem[a - base]
  {
  }

  /** `fileSize` bytes of the image from `fileOff` copied to `memAddr`, then
      zeros up to `memSize` bytes from `memAddr`; a slice that is out of bounds
      or reversed panics. */
  function Place(mem: seq<bv8>, image: seq<bv8>, fileOff: nat, fileSize: nat, memAddr: nat,
                 memSize: nat): (r: Outcome<seq<bv8>>)
    ensures !r.Fail?
    ensures r.Ok? ==> |r.value| == |mem|
  {
    var fileEnd := fileOff + fileSize;
    var memEnd := memAddr + fileSize;
    var bssEnd := memAddr + memSize;
    if fileEnd > |image| || memEnd > |mem| || bssEnd < memEnd || bssEnd > |mem| then Panic
    else Ok(Overwrite(Overwrite(mem, memAddr, image[fileOff..fileEnd]), memEnd, Zeros(bssEnd - memEnd)))
  }

  /** What a placed segment holds: the file bytes, then zeros, and every other
      byte as before. */
  lemma PlaceContents(mem: seq<bv8>, image: seq<bv8>, fileOff: nat, fileSize: nat, memAddr: nat,
                      memSize: nat, k: nat)
    requires Place(mem, image, fileOff, fileSize, memAddr, memSize).Ok?
    requires k < |mem|
    ensures var m := Place(mem, image, fileOff, fileSize, memAddr, memSize).value;
      (memAddr <= k < memAddr + fileSize ==> m[k] == image[fileOff + (k - memAddr)]) &&
      (memAddr + fileSize <= k < memAddr + memSize ==> m[k] == 0) &&
      (!(memAddr <= k < memAddr + memSize) ==> m[k] == mem[k])
  {
    var file := image[fileOff..fileOff + fileSize];
    var m1 := Overwrite(mem, memAddr, file);
    if memAddr <= k < memAddr + fileSize {
      assert m1[memAddr + (k - memAddr)] == file[k - memAddr];
    }
  }

  /** The bytes loaded for one program header: a PT_LOAD segment is placed at
      `p_paddr - base` (a wrapping 32-bit subtraction); other headers change
      nothing. */
  function LoadSegment(mem: seq<bv8>, base: bv32, image: seq<bv8>, p: Phdr): (r: Outcome<seq<bv8>>)
    ensures !r.Fail?
    ensures r.Ok? ==> |r.value| == |mem|
    ensures !IsLoadSeg(p) ==> r == Ok(mem)
  {
    if !IsLoadSeg(p) then Ok(mem)
    else Place(mem, image, p.offset as nat, p.filesz as nat, (p.paddr - base) as nat, p.memsz as nat)
  }

  /** The byte offset of program header `i`. */
  function PhdrOffset(h: Ehdr, i: nat): nat
  {
    h.phoff as nat + i * h.phentsize as nat
  }

  /** Program header `i`, read from the image and loaded; a header that does
      not fit in the image panics. */
  function LoadHeader(mem: seq<bv8>, base: bv32, image: seq<bv8>, h: Ehdr, i: nat): (r: Outcome<seq<bv8>>)
    ensures !r.Fail?
    ensures r.Ok? ==> |r.value| == |mem|
  {
    var off := PhdrOffset(h, i);
    if off + PHDR_SIZE > |image| then Panic
    else LoadSegment(mem, base, image, ParsePhdr(image[off..off + PHDR_SIZE]))
  }

  /** The program headers from the `i`-th on, loaded in order. */
  function LoadSegments(mem: seq<bv8>, base: bv32, image: seq<bv8>, h: Ehdr, i: nat): (r: Outcome<seq<bv8>>)
    requires i <= h.phnum as nat
    ensures !r.Fail?
    ensures r.Ok? ==> |r.value| == |mem|
    decreases h.phnum as nat - i
  {
    if i == h.phnum as nat then Ok(mem)
    else
      var m :- LoadHeader(mem, base, image, h, i);
      LoadSegments(m, base, image, h, i + 1)
  }

  /** `load_elf_binary` on the bytes: the entry point and the loaded bytes. */
  function LoadElf(mem: seq<bv8>, base: bv32, image: seq<bv8>): (r: Outcome<(bv32, seq<bv8>)>)
    ensures !r.Fail?
  {
    if |image| < EHDR_SIZE then Panic
    else
      var h := ParseEhdr(image[..EHDR_SIZE]);
      if !IsValid(h) then Panic
      else
        var m :- LoadSegments(mem, base, image, h, 0);
        Ok((h.entry, m))
  }

  /** An image whose header is not valid ELF32 panics; a load that completes
      returns `e_entry` and leaves the vector's length unchanged. */
  lemma LoadElfResult(mem: seq<bv8>, base: bv32, image: seq<bv8>)
    requires |image| >= EHDR_SIZE
    ensures !IsValid(ParseEhdr(image[..EHDR_SIZE])) ==> LoadElf(mem, base, image) == Panic
    ensures LoadElf(mem, base, image).Ok? ==>
      LoadElf(mem, base, image).value.0 == ParseEhdr(image[..EHDR_SIZE]).entry &&
      |LoadElf(mem, base, image).value.1| == |mem|
  {
  }

  /** An image with no program headers loads nothing. */
  lemma LoadElfNoSegments(mem: seq<bv8>, base: bv32, image: seq<bv8>)
    requires |image| >= EHDR_SIZE
    requires IsValid(ParseEhdr(image[..EHDR_SIZE])) && ParseEhdr(image[..EHDR_SIZE]).phnum == 0
    ensures LoadElf(mem, base, image) == Ok((ParseEhdr(image[..EHDR_SIZE]).entry, mem))
  {
  }

  /** `Memory`: the byte vector (`array`) and where it sits in the physical
      address space. */
  class Memory {
    var bytes: seq<bv8>
    var baseAddress: bv32

    /** `Memory::default`: no bytes, based at 0. */
    constructor ()
      ensures bytes == [] && baseAddress == 0
    {
      bytes := [];
      baseAddress := 0;
    }

    /** `init`: every byte zero. */
    method Init()
      modifies this
      ensures bytes == Zeros(|old(bytes)|) && baseAddress == old(baseAddress)
    {
      bytes := Zeros(|bytes|);
    }

    /** `raw_write`. */
    method RawWrite(address: nat, buf: seq<bv8>) returns (r: Outcome<()>)
      modifies this
      ensures baseAddress == old(baseAddress)
      ensures r == Discard(RawWriteOf(old(bytes), baseAddress as nat, address, buf))
      ensures r.Ok? ==> bytes == RawWriteOf(old(bytes), baseAddress as nat, address, buf).value
    {
      var w := RawWriteOf(bytes, baseAddress as nat, address, buf);
      if w.Ok? {
        bytes := w.value;
      }
      r := Discard(w);
    }

    /** `write::<SIZE>`. */
    method Write(address: bv32, buf: seq<bv8>) returns (r: Outcome<()>)
      modifies this
      ensures baseAddress == old(baseAddress)
      ensures r == Discard(WriteOf(old(bytes), baseAddress as nat, address as nat, buf))
      ensures r.Ok? ==> bytes == WriteOf(old(bytes), baseAddress as nat, address as nat, buf).value
      ensures r.Fail? ==> bytes == old(bytes)
    {
      var w := WriteOf(bytes, baseAddress as nat, address as nat, buf);
      if w.Ok? {
        bytes := w.value;
      }
      r := Discard(w);
    }

    /** `load_flat_binary`: an image larger than the RAM panics; otherwise it
        is written raw at `address`. */
    method LoadFlatBinary(buf: seq<bv8>, address: nat) returns (r: Outcome<()>)
      modifies this
      ensures baseAddress == old(baseAddress)
      ensures |buf| > MEMORY_SIZE ==> r == Panic && bytes == old(bytes)
      ensures |buf| <= MEMORY_SIZE ==> r == Discard(RawWriteOf(old(bytes), baseAddress as nat, address, buf))
      ensures r.Ok? ==> bytes == RawWriteOf(old(bytes), baseAddress as nat, address, buf).value
    {
      if |buf| > MEMORY_SIZE {
        return Panic;
      }
      r := RawWrite(address, buf);
    }

    /** `load_elf_binary`: check the header, then load the program headers one
        by one; returns the entry point. */
    method LoadElfBinary(image: seq<bv8>) returns (r: Outcome<bv32>)
      modifies this
      ensures baseAddress == old(baseAddress)
      ensures r == First(LoadElf(old(bytes), baseAddress, image))
      ensures r.Ok? ==> bytes == LoadElf(old(bytes), baseAddress, image).value.1
    {
      if |image| < EHDR_SIZE {
        return Panic;
      }
      var ehdr := ParseEhdr(image[..EHDR_SIZE]);
      if !IsValid(ehdr) {
        return Panic;
      }
      var phnum := ehdr.phnum as nat;
      ghost var mem0 := bytes;
      for i := 0 to phnum
        invariant baseAddress == old(baseAddress)
        invariant LoadSegments(mem0, baseAddress, image, ehdr, 0) ==
          LoadSegments(bytes, baseAddress, image, ehdr, i)
      {
        var loaded := LoadHeader(bytes, baseAddress, image, ehdr, i);
        if loaded.Panic? {
          return Panic;
        }
        bytes := loaded.value;
      }
      r := Ok(ehdr.entry);
    }
  }
}
