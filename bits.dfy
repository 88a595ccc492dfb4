/**
 * Fixed-width arithmetic shared by the hart and the devices: the two's-complement
 * reading of a 32-bit word, Rust's truncating signed division, arithmetic right
 * shift, and the little-endian byte layout every device and the RAM use.
 */
module Bits {
  const TWO32: int := 0x1_0000_0000

  /** `x as usize` for a 32-bit and a 16-bit word. Kept as named functions so
      that the conversion is unfolded only where a proof needs its value. */
  function Nat32(v: bv32): nat { v as nat }
  function Nat16(v: bv16): nat { v as nat }

  /** `x as u32` for a 16-bit word. */
  function Widen16(v: bv16): bv32 { v as bv32 }

  /** `a.wrapping_add(n)` on a 16-bit ring index. Named so that a proof can
      step the count without reasoning about the sum. */
  function Advance16(a: bv16, n: bv16): bv16 { a + n }

  /** `a.wrapping_sub(b)` on 16-bit ring indexes: how far `a` is ahead of
      `b`. */
  function Distance16(a: bv16, b: bv16): bv16 { a - b }

  /** Advancing once, then by one less, advances by the whole count. */
  lemma AdvanceStep16(a: bv16, n: bv16)
    requires n != 0
    ensures Advance16(a + 1, n - 1) == Advance16(a, n)
  {
  }

  /** The number a 16-bit counter stands for, counted down one by one: the
      number of rounds of a `for i in 0..n` loop. */
  function Steps(r: bv16): nat
    decreases r
  {
    if r == 0 then 0 else Steps(r - 1) + 1
  }

  /** `u8 as u32`, and `as u8` (or `& 0xFF`) of a 32-bit word. */
  function Widen8(v: bv8): bv32 { v as bv32 }
  function Low8(v: bv32): bv8 { (v & 0xff) as bv8 }

  /** `x as i32`: the two's-complement value of a 32-bit word. */
  function ToSigned(x: bv32): int
  {
    if x < 0x8000_0000 then x as int else x as int - 0x1_0000_0000
  }

  /** `as u32` applied to a wider integer: keep the low 32 bits. */
  function Wrap32(i: int): bv32
  {
    (i % TWO32) as bv32
  }

  /** `x < y` on `u32`, compared as numbers. */
  predicate UnsignedLt(x: bv32, y: bv32)
  {
    Nat32(x) < Nat32(y)
  }

  /** `(x as i32) < (y as i32)`. */
  predicate SignedLt(x: bv32, y: bv32)
  {
    ToSigned(x) < ToSigned(y)
  }

  /** `((x as i32) >> s) as u32`: arithmetic right shift, copying the sign bit in. */
  function Sra(x: bv32, s: bv32): bv32
    requires s < 32
  {
    if x < 0x8000_0000 then x >> s else !((!x) >> s)
  }

  /** A non-negative word shifts like `>>`; a negative one fills the vacated
      high bits with ones. */
  lemma SraFill(x: bv32, s: bv32)
    requires s < 32
    ensures x < 0x8000_0000 ==> Sra(x, s) == x >> s
    ensures x >= 0x8000_0000 ==> Sra(x, s) | (0xFFFF_FFFF >> s) == 0xFFFF_FFFF
  {
  }

  /** Sign extension of the low 8, 12, 13, 16 or 21 bits, written as the source
      writes it: shift the field to the top, then shift back arithmetically. */
  function SignExtend(v: bv32, width: bv32): bv32
    requires 0 < width <= 32
  {
    Sra(v << (32 - width), 32 - width)
  }

  /** The width-bit field keeps its bits and its top bit is copied upward. */
  lemma SignExtend8(v: bv32)
    ensures SignExtend(v, 8) == (if v & 0x80 != 0 then v | 0xFFFF_FF00 else v & 0xFF)
  {
    var t: bv32 := v << 24;
    var r: bv32 := if t < 0x8000_0000 then t >> 24 else !((!t) >> 24);
    assert SignExtend(v, 8) == r;
  }

  lemma SignExtend12(v: bv32)
    ensures SignExtend(v, 12) == (if v & 0x800 != 0 then v | 0xFFFF_F000 else v & 0xFFF)
  {
    var t: bv32 := v << 20;
    var r: bv32 := if t < 0x8000_0000 then t >> 20 else !((!t) >> 20);
    assert SignExtend(v, 12) == r;
  }

  lemma SignExtend13(v: bv32)
    ensures SignExtend(v, 13) == (if v & 0x1000 != 0 then v | 0xFFFF_E000 else v & 0x1FFF)
  {
    var t: bv32 := v << 19;
    var r: bv32 := if t < 0x8000_0000 then t >> 19 else !((!t) >> 19);
    assert SignExtend(v, 13) == r;
  }

  lemma SignExtend16(v: bv32)
    ensures SignExtend(v, 16) == (if v & 0x8000 != 0 then v | 0xFFFF_0000 else v & 0xFFFF)
  {
    var t: bv32 := v << 16;
    var r: bv32 := if t < 0x8000_0000 then t >> 16 else !((!t) >> 16);
    assert SignExtend(v, 16) == r;
  }

  lemma SignExtend21(v: bv32)
    ensures SignExtend(v, 21) == (if v & 0x10_0000 != 0 then v | 0xFFE0_0000 else v & 0x1F_FFFF)
  {
    var t: bv32 := v << 11;
    var r: bv32 := if t < 0x8000_0000 then t >> 11 else !((!t) >> 11);
    assert SignExtend(v, 21) == r;
  }

  /** Rust's `i32 / i32`: the quotient rounded toward zero. */
  function TruncDiv(a: int, b: int): (q: int)
    requires b != 0
  {
    if (a >= 0) == (b > 0) then Abs(a) / Abs(b) else -(Abs(a) / Abs(b))
  }

  /** Rust's `i32 % i32`: the remainder whose sign follows the dividend. */
  function TruncRem(a: int, b: int): (r: int)
    requires b != 0
  {
    a - b * TruncDiv(a, b)
  }

  function Abs(a: int): nat
  {
    if a < 0 then -a else a
  }

  /** Truncating division and its remainder reassemble the dividend, with a
      remainder smaller than the divisor and of the dividend's sign. */
  lemma TruncDivRem(a: int, b: int)
    requires b != 0
    ensures a == b * TruncDiv(a, b) + TruncRem(a, b)
    ensures Abs(TruncRem(a, b)) < Abs(b)
    ensures a >= 0 ==> TruncRem(a, b) >= 0
    ensures a <= 0 ==> TruncRem(a, b) <= 0
  {
    NatDivision(Abs(a), Abs(b));
    SignedParts(a, b, TruncDiv(a, b), Abs(a) / Abs(b), Abs(a) % Abs(b));
  }

  lemma NatDivision(A: nat, B: nat)
    requires B > 0
    ensures A == B * (A / B) + A % B && 0 <= A % B < B
  {
  }

  /** The remainder left by a quotient `t` that has the magnitude of the
      unsigned quotient `q` and the sign of the exact one. */
  lemma SignedParts(a: int, b: int, t: int, q: int, m: int)
    requires b != 0
    requires Abs(a) == Abs(b) * q + m && 0 <= m < Abs(b)
    requires t == if (a >= 0) == (b > 0) then q else -q
    ensures a - b * t == if a >= 0 then m else -m
  {
    var B := Abs(b);
    MulNeg(B, q);
    if a >= 0 && b > 0 {
      assert b * t == B * q;
    } else if a >= 0 {
      assert b * t == (-B) * (-q);
    } else if b > 0 {
      assert b * t == B * (-q);
    } else {
      assert b * t == (-B) * q;
    }
  }

  lemma MulNeg(x: int, y: int)
    ensures (-x) * y == -(x * y) && x * (-y) == -(x * y) && (-x) * (-y) == x * y
  {
  }

  /** Byte `j` of a little-endian 16- or 32-bit value (`to_le_bytes()[j]`). */
  function Byte16(v: bv16, j: nat): bv8
    requires j < 2
  {
    if j == 0 then (v & 0xff) as bv8 else (v >> 8) as bv8
  }

  function Byte32(v: bv32, j: nat): bv8
    requires j < 4
  {
    if j == 0 then (v & 0xff) as bv8
    else if j == 1 then ((v >> 8) & 0xff) as bv8
    else if j == 2 then ((v >> 16) & 0xff) as bv8
    else (v >> 24) as bv8
  }

  /** Little-endian decoding of the 2 or 4 bytes at offset `k`
      (`u16::from_le_bytes`, `u32::from_le_bytes`). */
  function Le16At(b: seq<bv8>, k: nat): bv16
    requires k + 2 <= |b|
  {
    (b[k] as bv16) | ((b[k + 1] as bv16) << 8)
  }

  function Le32At(b: seq<bv8>, k: nat): bv32
    requires k + 4 <= |b|
  {
    Join32(b[k], b[k + 1], b[k + 2], b[k + 3])
  }

  /** Four bytes, least significant first, as one word. */
  function Join32(x0: bv8, x1: bv8, x2: bv8, x3: bv8): bv32
  {
    (x0 as bv32) | ((x1 as bv32) << 8) | ((x2 as bv32) << 16) | ((x3 as bv32) << 24)
  }

  /** `u64::from_le_bytes` at offset `k`, as an unbounded number. */
  function Le64At(b: seq<bv8>, k: nat): nat
    requires k + 8 <= |b|
  {
    Le32At(b, k) as nat + Le32At(b, k + 4) as nat * TWO32
  }

  /** Little-endian encoding (`to_le_bytes`). */
  function U16Le(v: bv16): (r: seq<bv8>)
    ensures |r| == 2
  {
    [Byte16(v, 0), Byte16(v, 1)]
  }

  function U32Le(v: bv32): (r: seq<bv8>)
    ensures |r| == 4
  {
    [Byte32(v, 0), Byte32(v, 1), Byte32(v, 2), Byte32(v, 3)]
  }

  /** Joining a value's bytes gives the value back. */
  lemma Split16(v: bv16)
    ensures (Byte16(v, 0) as bv16) | ((Byte16(v, 1) as bv16) << 8) == v
  {
  }

  lemma Split32(v: bv32)
    ensures Join32(Byte32(v, 0), Byte32(v, 1), Byte32(v, 2), Byte32(v, 3)) == v
  {
  }

  /** The bytes of a joined value are the bytes it was joined from. */
  lemma Merge16(x0: bv8, x1: bv8)
    ensures Byte16((x0 as bv16) | ((x1 as bv16) << 8), 0) == x0
    ensures Byte16((x0 as bv16) | ((x1 as bv16) << 8), 1) == x1
  {
  }

  lemma Merge32(x0: bv8, x1: bv8, x2: bv8, x3: bv8)
    ensures Byte32(Join32(x0, x1, x2, x3), 0) == x0
    ensures Byte32(Join32(x0, x1, x2, x3), 1) == x1
    ensures Byte32(Join32(x0, x1, x2, x3), 2) == x2
    ensures Byte32(Join32(x0, x1, x2, x3), 3) == x3
  {
  }

  /** Bytes laid out as a value's encoding decode to that value. */
  lemma Le16AtBytes(v: bv16, b: seq<bv8>, k: nat)
    requires k + 2 <= |b| && b[k] == Byte16(v, 0) && b[k + 1] == Byte16(v, 1)
    ensures Le16At(b, k) == v
  {
    Split16(v);
  }

  lemma Le32AtBytes(v: bv32, b: seq<bv8>, k: nat)
    requires k + 4 <= |b|
    requires b[k] == Byte32(v, 0) && b[k + 1] == Byte32(v, 1)
    requires b[k + 2] == Byte32(v, 2) && b[k + 3] == Byte32(v, 3)
    ensures Le32At(b, k) == v
  {
    Split32(v);
  }

  /** Re-encoding a decoded value gives its bytes back. */
  lemma Byte16Le(b: seq<bv8>, k: nat, j: nat)
    requires k + 2 <= |b| && j < 2
    ensures Byte16(Le16At(b, k), j) == b[k + j]
  {
    Merge16(b[k], b[k + 1]);
    if j == 0 {
      assert Byte16(Le16At(b, k), 0) == b[k];
    } else {
      assert Byte16(Le16At(b, k), 1) == b[k + 1];
    }
  }

  lemma Byte32Le(b: seq<bv8>, k: nat, j: nat)
    requires k + 4 <= |b| && j < 4
    ensures Byte32(Le32At(b, k), j) == b[k + j]
  {
    Merge32(b[k], b[k + 1], b[k + 2], b[k + 3]);
    if j == 0 {
      assert Byte32(Le32At(b, k), 0) == b[k];
    } else if j == 1 {
      assert Byte32(Le32At(b, k), 1) == b[k + 1];
    } else if j == 2 {
      assert Byte32(Le32At(b, k), 2) == b[k + 2];
    } else {
      assert Byte32(Le32At(b, k), 3) == b[k + 3];
    }
  }

  /** Encoding then decoding at offset 0 is the identity, and so is decoding
      then encoding. */
  lemma Le16RoundTrip(v: bv16, b: seq<bv8>)
    requires |b| == 2
    ensures Le16At(U16Le(v), 0) == v
    ensures U16Le(Le16At(b, 0)) == b
  {
    Le16AtBytes(v, U16Le(v), 0);
    Byte16Le(b, 0, 0);
    Byte16Le(b, 0, 1);
  }

  lemma Le32RoundTrip(v: bv32, b: seq<bv8>)
    requires |b| == 4
    ensures Le32At(U32Le(v), 0) == v
    ensures U32Le(Le32At(b, 0)) == b
  {
    Le32AtBytes(v, U32Le(v), 0);
    Byte32Le(b, 0, 0);
    Byte32Le(b, 0, 1);
    Byte32Le(b, 0, 2);
    Byte32Le(b, 0, 3);
  }
}
