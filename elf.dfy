/**
 * The two ELF-32 records the loader reads (src/elf.rs): the file header and a
 * program header, both packed little-endian records, and the two predicates
 * over them. The records are decoded from, and encoded to, their exact byte
 * layouts (Tool Interface Standard ELF v1.2, Book I, "ELF Header" and
 * "Program Header").
 */
module Elf {
  import opened Bits

  const EI_NIDENT: nat := 16
  const ELF_MAGIC: seq<bv8> := [0x7f, 0x45, 0x4c, 0x46]  // 0x7f 'E' 'L' 'F'
  const PT_LOAD: bv32 := 1
  const EHDR_SIZE: nat := 52
  const PHDR_SIZE: nat := 32

  /** `Elf32Ehdr`. */
  datatype Ehdr = Ehdr(
    ident: seq<bv8>,
    etype: bv16, machine: bv16, version: bv32, entry: bv32, phoff: bv32, shoff: bv32,
    flags: bv32, ehsize: bv16, phentsize: bv16, phnum: bv16, shentsize: bv16,
    shnum: bv16, shstrndx: bv16)
  {
    ghost predicate WellFormed()
    {
      |ident| == EI_NIDENT
    }
  }

  /** `Elf32Phdr`. */
  datatype Phdr = Phdr(
    ptype: bv32, offset: bv32, vaddr: bv32, paddr: bv32,
    filesz: bv32, memsz: bv32, pflags: bv32, align: bv32)

  /** `Elf32Ehdr::is_valid`: the magic number and the 32-bit class byte. */
  predicate IsValid(h: Ehdr)
    requires h.WellFormed()
  {
    h.ident[..4] == ELF_MAGIC && h.ident[4] == 1
  }

  /** `Elf32Phdr::is_load_seg`. */
  predicate IsLoadSeg(p: Phdr)
  {
    p.ptype == PT_LOAD
  }

  /** A packed record is a run of little-endian fields with no padding; its
      layout lists their widths in declaration order. */
  datatype Width = W16 | W32
  datatype Layout = End | Then(width: Width, rest: Layout)
  datatype Field = F16(v16: bv16) | F32(v32: bv32)
  datatype Fields = Nil | Cons(head: Field, tail: Fields)

  function Size(w: Width): nat
  {
    if w == W16 then 2 else 4
  }

  function LayoutSize(ws: Layout): nat
  {
    if ws.End? then 0 else Size(ws.width) + LayoutSize(ws.rest)
  }

  function WidthOf(f: Field): Width
  {
    if f.F16? then W16 else W32
  }

  /** The layout a run of fields is written in. */
  function WidthsOf(fs: Fields): Layout
  {
    if fs.Nil? then End else Then(WidthOf(fs.head), WidthsOf(fs.tail))
  }

  function EncodeField(f: Field): (b: seq<bv8>)
    ensures |b| == Size(WidthOf(f))
  {
    match f
    case F16(v) => U16Le(v)
    case F32(v) => U32Le(v)
  }

  function ParseField(w: Width, b: seq<bv8>): (f: Field)
    requires |b| == Size(w)
    ensures WidthOf(f) == w
  {
    if w == W16 then F16(Le16At(b, 0)) else F32(Le32At(b, 0))
  }

  /** The fields written one after the other. */
  function EncodeFields(fs: Fields): (b: seq<bv8>)
    ensures |b| == LayoutSize(WidthsOf(fs))
  {
    if fs.Nil? then [] else EncodeField(fs.head) + EncodeFields(fs.tail)
  }

  /** The fields of a layout read one after the other. */
  function ParseFields(ws: Layout, b: seq<bv8>): (fs: Fields)
    requires |b| == LayoutSize(ws)
    ensures WidthsOf(fs) == ws
  {
    if ws.End? then Nil
    else
      var n := Size(ws.width);
      Cons(ParseField(ws.width, b[..n]), ParseFields(ws.rest, b[n..]))
  }

  /** The value of a 16-bit field (zero for a field of the other width). */
  function Half(f: Field): bv16
  {
    if f.F16? then f.v16 else 0
  }

  /** The value of a 32-bit field (zero for a field of the other width). */
  function Word(f: Field): bv32
  {
    if f.F32? then f.v32 else 0
  }

  /** The first field of a run, and the run after it (both total). */
  function Hd(fs: Fields): Field
  {
    if fs.Cons? then fs.head else F32(0)
  }

  function Tl(fs: Fields): Fields
  {
    if fs.Cons? then fs.tail else Nil
  }

  /** One field read back from its own bytes. */
  lemma FieldRoundTrip(f: Field)
    ensures ParseField(WidthOf(f), EncodeField(f)) == f
  {
    match f
    case F16(v) => Le16RoundTrip(v, EncodeField(f));
    case F32(v) => Le32RoundTrip(v, EncodeField(f));
  }

  /** One field's bytes written back from what was read. */
  lemma FieldBytesRoundTrip(w: Width, b: seq<bv8>)
    requires |b| == Size(w)
    ensures EncodeField(ParseField(w, b)) == b
  {
    if w == W16 {
      Le16RoundTrip(0, b);
    } else {
      Le32RoundTrip(0, b);
    }
  }

  /** Reading back what was written yields the same fields. */
  lemma {:induction false} FieldsRoundTrip(fs: Fields)
    ensures ParseFields(WidthsOf(fs), EncodeFields(fs)) == fs
  {
    if fs.Cons? {
      var b := EncodeFields(fs);
      var e := EncodeField(fs.head);
      var n := |e|;
      assert b[..n] == e && b[n..] == EncodeFields(fs.tail);
      FieldRoundTrip(fs.head);
      FieldsRoundTrip(fs.tail);
    }
  }

  /** Writing what was read yields the same bytes: a layout covers its bytes
      exactly once. */
  lemma {:induction false} BytesRoundTrip(ws: Layout, b: seq<bv8>)
    requires |b| == LayoutSize(ws)
    ensures EncodeFields(ParseFields(ws, b)) == b
  {
    if ws.Then? {
      var n := Size(ws.width);
      FieldBytesRoundTrip(ws.width, b[..n]);
      BytesRoundTrip(ws.rest, b[n..]);
      assert b == b[..n] + b[n..];
    }
  }

  /** The widths of the header fields after the identification bytes. */
  const EHDR_LAYOUT: Layout :=
    Then(W16, Then(W16, Then(W32, Then(W32, Then(W32, Then(W32, Then(W32,
    Then(W16, Then(W16, Then(W16, Then(W16, Then(W16, Then(W16, End)))))))))))))

  /** The program header: eight words. */
  const PHDR_LAYOUT: Layout :=
    Then(W32, Then(W32, Then(W32, Then(W32, Then(W32, Then(W32, Then(W32,
    Then(W32, End))))))))

  /** The header's fields after the identification bytes, in order. */
  function EhdrFields(h: Ehdr): Fields
  {
    Cons(F16(h.etype), Cons(F16(h.machine), Cons(F32(h.version), Cons(F32(h.entry),
    Cons(F32(h.phoff), Cons(F32(h.shoff), Cons(F32(h.flags), Cons(F16(h.ehsize),
    Cons(F16(h.phentsize), Cons(F16(h.phnum), Cons(F16(h.shentsize), Cons(F16(h.shnum),
    Cons(F16(h.shstrndx), Nil)))))))))))))
  }

  /** The program header's fields, in order. */
  function PhdrFields(p: Phdr): Fields
  {
    Cons(F32(p.ptype), Cons(F32(p.offset), Cons(F32(p.vaddr), Cons(F32(p.paddr),
    Cons(F32(p.filesz), Cons(F32(p.memsz), Cons(F32(p.pflags), Cons(F32(p.align),
    Nil))))))))
  }

  /** The header assembled from its identification bytes and its fields. */
  function EhdrOf(ident: seq<bv8>, fs: Fields): Ehdr
  {
    var f1 := Tl(fs); var f2 := Tl(f1); var f3 := Tl(f2); var f4 := Tl(f3);
    var f5 := Tl(f4); var f6 := Tl(f5); var f7 := Tl(f6); var f8 := Tl(f7);
    var f9 := Tl(f8); var f10 := Tl(f9); var f11 := Tl(f10); var f12 := Tl(f11);
    Ehdr(ident, Half(Hd(fs)), Half(Hd(f1)), Word(Hd(f2)), Word(Hd(f3)), Word(Hd(f4)),
      Word(Hd(f5)), Word(Hd(f6)), Half(Hd(f7)), Half(Hd(f8)), Half(Hd(f9)),
      Half(Hd(f10)), Half(Hd(f11)), Half(Hd(f12)))
  }

  /** The program header assembled from its fields. */
  function PhdrOf(fs: Fields): Phdr
  {
    var f1 := Tl(fs); var f2 := Tl(f1); var f3 := Tl(f2); var f4 := Tl(f3);
    var f5 := Tl(f4); var f6 := Tl(f5); var f7 := Tl(f6);
    Phdr(Word(Hd(fs)), Word(Hd(f1)), Word(Hd(f2)), Word(Hd(f3)), Word(Hd(f4)),
      Word(Hd(f5)), Word(Hd(f6)), Word(Hd(f7)))
  }

  /** The header's fields are laid out as the header layout says. */
  lemma EhdrFieldsLayout(h: Ehdr)
    ensures WidthsOf(EhdrFields(h)) == EHDR_LAYOUT
  {
    var fs := EhdrFields(h);
    assert WidthsOf(fs.tail.tail.tail.tail.tail.tail.tail.tail.tail.tail.tail.tail) == EHDR_LAYOUT.rest.rest.rest.rest.rest.rest.rest.rest.rest.rest.rest.rest;
    assert WidthsOf(fs.tail.tail.tail.tail.tail.tail.tail.tail.tail.tail.tail) == EHDR_LAYOUT.rest.rest.rest.rest.rest.rest.rest.rest.rest.rest.rest;
    assert WidthsOf(fs.tail.tail.tail.tail.tail.tail.tail.tail.tail.tail) == EHDR_LAYOUT.rest.rest.rest.rest.rest.rest.rest.rest.rest.rest;
    assert WidthsOf(fs.tail.tail.tail.tail.tail.tail.tail.tail.tail) == EHDR_LAYOUT.rest.rest.rest.rest.rest.rest.rest.rest.rest;
    assert WidthsOf(fs.tail.tail.tail.tail.tail.tail.tail.tail) == EHDR_LAYOUT.rest.rest.rest.rest.rest.rest.rest.rest;
    assert WidthsOf(fs.tail.tail.tail.tail.tail.tail.tail) == EHDR_LAYOUT.rest.rest.rest.rest.rest.rest.rest;
    assert WidthsOf(fs.tail.tail.tail.tail.tail.tail) == EHDR_LAYOUT.rest.rest.rest.rest.rest.rest;
    assert WidthsOf(fs.tail.tail.tail.tail.tail) == EHDR_LAYOUT.rest.rest.rest.rest.rest;
    assert WidthsOf(fs.tail.tail.tail.tail) == EHDR_LAYOUT.rest.rest.rest.rest;
    assert WidthsOf(fs.tail.tail.tail) == EHDR_LAYOUT.rest.rest.rest;
    assert WidthsOf(fs.tail.tail) == EHDR_LAYOUT.rest.rest;
    assert WidthsOf(fs.tail) == EHDR_LAYOUT.rest;
    assert WidthsOf(fs) == EHDR_LAYOUT;
  }

  /** The program header's fields are laid out as its layout says. */
  lemma PhdrFieldsLayout(p: Phdr)
    ensures WidthsOf(PhdrFields(p)) == PHDR_LAYOUT
  {
    var fs := PhdrFields(p);
    assert WidthsOf(fs.tail.tail.tail.tail.tail.tail.tail) == PHDR_LAYOUT.rest.rest.rest.rest.rest.rest.rest;
    assert WidthsOf(fs.tail.tail.tail.tail.tail.tail) == PHDR_LAYOUT.rest.rest.rest.rest.rest.rest;
    assert WidthsOf(fs.tail.tail.tail.tail.tail) == PHDR_LAYOUT.rest.rest.rest.rest.rest;
    assert WidthsOf(fs.tail.tail.tail.tail) == PHDR_LAYOUT.rest.rest.rest.rest;
    assert WidthsOf(fs.tail.tail.tail) == PHDR_LAYOUT.rest.rest.rest;
    assert WidthsOf(fs.tail.tail) == PHDR_LAYOUT.rest.rest;
    assert WidthsOf(fs.tail) == PHDR_LAYOUT.rest;
    assert WidthsOf(fs) == PHDR_LAYOUT;
  }

  /** Fields read in the header layout are exactly those of the header they
      assemble. */
  lemma EhdrFieldsOf(ident: seq<bv8>, fs: Fields)
    requires WidthsOf(fs) == EHDR_LAYOUT
    ensures EhdrFields(EhdrOf(ident, fs)) == fs
  {
    assert WidthsOf(fs.tail) == EHDR_LAYOUT.rest;
    assert WidthsOf(fs.tail.tail) == EHDR_LAYOUT.rest.rest;
    assert WidthsOf(fs.tail.tail.tail) == EHDR_LAYOUT.rest.rest.rest;
    assert WidthsOf(fs.tail.tail.tail.tail) == EHDR_LAYOUT.rest.rest.rest.rest;
    assert WidthsOf(fs.tail.tail.tail.tail.tail) == EHDR_LAYOUT.rest.rest.rest.rest.rest;
    assert WidthsOf(fs.tail.tail.tail.tail.tail.tail) == EHDR_LAYOUT.rest.rest.rest.rest.rest.rest;
    assert WidthsOf(fs.tail.tail.tail.tail.tail.tail.tail) == EHDR_LAYOUT.rest.rest.rest.rest.rest.rest.rest;
    assert WidthsOf(fs.tail.tail.tail.tail.tail.tail.tail.tail) == EHDR_LAYOUT.rest.rest.rest.rest.rest.rest.rest.rest;
    assert WidthsOf(fs.tail.tail.tail.tail.tail.tail.tail.tail.tail) == EHDR_LAYOUT.rest.rest.rest.rest.rest.rest.rest.rest.rest;
    assert WidthsOf(fs.tail.tail.tail.tail.tail.tail.tail.tail.tail.tail) == EHDR_LAYOUT.rest.rest.rest.rest.rest.rest.rest.rest.rest.rest;
    assert WidthsOf(fs.tail.tail.tail.tail.tail.tail.tail.tail.tail.tail.tail) == EHDR_LAYOUT.rest.rest.rest.rest.rest.rest.rest.rest.rest.rest.rest;
    assert WidthsOf(fs.tail.tail.tail.tail.tail.tail.tail.tail.tail.tail.tail.tail) == EHDR_LAYOUT.rest.rest.rest.rest.rest.rest.rest.rest.rest.rest.rest.rest;
    assert WidthsOf(fs.tail.tail.tail.tail.tail.tail.tail.tail.tail.tail.tail.tail.tail) == EHDR_LAYOUT.rest.rest.rest.rest.rest.rest.rest.rest.rest.rest.rest.rest.rest;
  }

  /** Fields read in the program header layout are exactly those of the
      program header they assemble. */
  lemma PhdrFieldsOf(fs: Fields)
    requires WidthsOf(fs) == PHDR_LAYOUT
    ensures PhdrFields(PhdrOf(fs)) == fs
  {
    assert WidthsOf(fs.tail) == PHDR_LAYOUT.rest;
    assert WidthsOf(fs.tail.tail) == PHDR_LAYOUT.rest.rest;
    assert WidthsOf(fs.tail.tail.tail) == PHDR_LAYOUT.rest.rest.rest;
    assert WidthsOf(fs.tail.tail.tail.tail) == PHDR_LAYOUT.rest.rest.rest.rest;
    assert WidthsOf(fs.tail.tail.tail.tail.tail) == PHDR_LAYOUT.rest.rest.rest.rest.rest;
    assert WidthsOf(fs.tail.tail.tail.tail.tail.tail) == PHDR_LAYOUT.rest.rest.rest.rest.rest.rest;
    assert WidthsOf(fs.tail.tail.tail.tail.tail.tail.tail) == PHDR_LAYOUT.rest.rest.rest.rest.rest.rest.rest;
    assert WidthsOf(fs.tail.tail.tail.tail.tail.tail.tail.tail) == PHDR_LAYOUT.rest.rest.rest.rest.rest.rest.rest.rest;
  }

  /** The packed header read from its 52 bytes. */
  function ParseEhdr(b: seq<bv8>): (h: Ehdr)
    requires |b| == EHDR_SIZE
    ensures h.WellFormed() && h.ident == b[..EI_NIDENT]
  {
    EhdrOf(b[..EI_NIDENT], ParseFields(EHDR_LAYOUT, b[EI_NIDENT..]))
  }

  /** The packed header written as its 52 bytes. */
  function EncodeEhdr(h: Ehdr): (b: seq<bv8>)
    requires h.WellFormed()
    ensures |b| == EHDR_SIZE
  {
    EhdrFieldsLayout(h);
    h.ident + EncodeFields(EhdrFields(h))
  }

  /** The packed program header read from its 32 bytes. */
  function ParsePhdr(b: seq<bv8>): Phdr
    requires |b| == PHDR_SIZE
  {
    PhdrOf(ParseFields(PHDR_LAYOUT, b))
  }

  /** The packed program header written as its 32 bytes. */
  function EncodePhdr(p: Phdr): (b: seq<bv8>)
    ensures |b| == PHDR_SIZE
  {
    PhdrFieldsLayout(p);
    EncodeFields(PhdrFields(p))
  }

  /** Decoding an encoded header gives the header back. */
  lemma EhdrRoundTrip(h: Ehdr)
    requires h.WellFormed()
    ensures ParseEhdr(EncodeEhdr(h)) == h
  {
    var b := EncodeEhdr(h);
    assert b[..EI_NIDENT] == h.ident;
    assert b[EI_NIDENT..] == EncodeFields(EhdrFields(h));
    EhdrFieldsLayout(h);
    FieldsRoundTrip(EhdrFields(h));
  }

  /** Encoding a decoded header gives the 52 bytes back. */
  lemma EhdrBytesRoundTrip(b: seq<bv8>)
    requires |b| == EHDR_SIZE
    ensures EncodeEhdr(ParseEhdr(b)) == b
  {
    var fs := ParseFields(EHDR_LAYOUT, b[EI_NIDENT..]);
    BytesRoundTrip(EHDR_LAYOUT, b[EI_NIDENT..]);
    EhdrFieldsOf(b[..EI_NIDENT], fs);
    assert b == b[..EI_NIDENT] + b[EI_NIDENT..];
  }

  /** Decoding an encoded program header gives it back. */
  lemma PhdrRoundTrip(p: Phdr)
    ensures ParsePhdr(EncodePhdr(p)) == p
  {
    PhdrFieldsLayout(p);
    FieldsRoundTrip(PhdrFields(p));
  }

  /** Encoding a decoded program header gives the 32 bytes back. */
  lemma PhdrBytesRoundTrip(b: seq<bv8>)
    requires |b| == PHDR_SIZE
    ensures EncodePhdr(ParsePhdr(b)) == b
  {
    var fs := ParseFields(PHDR_LAYOUT, b);
    BytesRoundTrip(PHDR_LAYOUT, b);
    PhdrFieldsOf(fs);
  }

  /** Validity reads the first five identification bytes and nothing else. */
  lemma IsValidReadsIdentOnly(h: Ehdr, g: Ehdr)
    requires h.WellFormed() && g.WellFormed()
    requires h.ident[..5] == g.ident[..5]
    ensures IsValid(h) == IsValid(g)
  {
    assert h.ident[..4] == h.ident[..5][..4] && g.ident[..4] == g.ident[..5][..4];
  }

  /** A header read from bytes is valid exactly when the bytes start with the
      magic number followed by the 32-bit class. */
  lemma IsValidBytes(b: seq<bv8>)
    requires |b| == EHDR_SIZE
    ensures IsValid(ParseEhdr(b)) <==>
      b[0] == 0x7f && b[1] == 0x45 && b[2] == 0x4c && b[3] == 0x46 && b[4] == 1
  {
    var h := ParseEhdr(b);
    if b[0] == 0x7f && b[1] == 0x45 && b[2] == 0x4c && b[3] == 0x46 {
      assert h.ident[..4] == ELF_MAGIC;
    }
  }
}
