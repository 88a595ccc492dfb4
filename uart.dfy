/**
 * The 16550-style serial port (src/bus/uart.rs): byte registers at offsets
 * 0 to 5, the divisor latch behind LCR bit 7 (DLAB), one interrupt source
 * (received data or transmitter empty), and a buffer of characters that
 * arrived from the host and wait to be moved into RBR.
 *
 * Every operation is a method of `Uart` proved equal to a function of the
 * abstract state (`UartState`); the properties are lemmas about those
 * functions. The host terminal is not modelled: a byte written to THR is
 * appended to `output`, and the character `tick` may receive from the host
 * is a parameter.
 *
 * One step departs from the source. `tick` (src/bus/uart.rs:191-210) takes
 * from the host buffer with `Vec::pop`, that is the character that arrived
 * LAST. That rule is `TickAsWritten`, and `TickAsWrittenReverses` shows two
 * buffered characters delivered in reverse order. The rest of this model uses
 * `Tick`, which delivers the oldest character first, as a serial line does.
 */
module UartDevice {
  import opened Arch
  import opened Bits
  import opened Mmio

  const IER_ERBFI: bv8 := 0x1
  const IER_ETBEI: bv8 := 0x2
  /** The bit `is_ready_for_recieving` tests (the 16550's ELSI bit). */
  const IER_RX_READY: bv8 := 0x4

  const IIR_NIP: bv8 := 0x1
  const IIR_THRE: bv8 := 0x2
  const IIR_RDA: bv8 := 0x4
  const IIR_ID: bv8 := 0x6

  const LSR_THRE: bv8 := 0x20
  const LSR_TEMT: bv8 := 0x40
  const LSR_DR: bv8 := 0x1

  // Byte-register operations, kept behind names so that the proofs about
  // the register file reason about them through the small lemmas below.

  predicate Has(w: bv8, m: bv8) { w & m != 0 }
  function With(w: bv8, m: bv8): bv8 { w | m }
  function Without(w: bv8, m: bv8): bv8 { w & !m }

  /** `lcr >> 7 == 1`. */
  predicate DlabBit(lcr: bv8) { lcr >> 7 == 1 }

  /** `iir & IIR_ID == id`. */
  predicate IdIs(iir: bv8, id: bv8) { iir & IIR_ID == id }

  /** `(ier ^ value) & 0xf & IER_ETBEI != 0`. */
  predicate EtbeiToggled(ier: bv8, v: bv8) { ((ier ^ v) & 0xf) & IER_ETBEI != 0 }

  /** `c as u8`: the low byte of the character's scalar value. */
  function CharByte(c: char): bv8 { ((c as int) % 256) as bv8 }

  /** DLAB is bit 7 of LCR. */
  lemma DlabIsBit7(lcr: bv8)
    ensures DlabBit(lcr) <==> Has(lcr, 0x80)
  {
  }

  /** The IER write toggles ETBEI exactly when the old and new values
      disagree on that bit. */
  lemma ToggledIff(ier: bv8, v: bv8)
    ensures EtbeiToggled(ier, v) <==> (Has(ier, IER_ETBEI) != Has(v, IER_ETBEI))
  {
  }

  /** Setting and clearing DR, and the LSR value of a lowered interrupt. */
  lemma DrBit(w: bv8)
    ensures Has(With(w, LSR_DR), LSR_DR) && !Has(Without(w, LSR_DR), LSR_DR)
    ensures !Has(LSR_THRE | LSR_TEMT, LSR_DR)
  {
  }

  /** The interrupt identifications the device raises. */
  lemma IirIds()
    ensures IdIs(IIR_THRE, IIR_THRE) && !IdIs(IIR_RDA, IIR_THRE) && !IdIs(IIR_NIP, IIR_THRE)
  {
  }

  /** The registers, the two interrupt flags, the host input buffer and the
      bytes written to THR so far. */
  datatype UartState = UartState(
    lcr: bv8, dlm: bv8, dll: bv8, lsr: bv8, ier: bv8, rbr: bv8, iir: bv8,
    isInterrupting: bool, isTakenInterrupt: bool,
    inputBuf: seq<char>, output: seq<bv8>)

  /** `Uart::new`: transmitter empty, no interrupt pending. */
  const Initial: UartState :=
    UartState(0, 0, 0, LSR_TEMT | LSR_THRE, 0, 0, IIR_NIP, false, false, [], [])

  /** `is_dlab_enabled`. */
  predicate IsDlab(st: UartState) { DlabBit(st.lcr) }

  /** `is_ready_for_recieving`: no interrupt is identified and IER bit 2 is
      set. */
  predicate IsReadyForReceiving(st: UartState) { st.iir == IIR_NIP && Has(st.ier, IER_RX_READY) }

  /** `raise_interrupt`. */
  function RaiseInt(st: UartState, iir: bv8): (r: UartState)
    ensures r.isInterrupting && !r.isTakenInterrupt && r.iir == iir
    ensures r.(isInterrupting := st.isInterrupting, isTakenInterrupt := st.isTakenInterrupt,
               iir := st.iir) == st
  {
    st.(isInterrupting := true, isTakenInterrupt := false, iir := iir)
  }

  /** `lower_interrupt`. */
  function LowerInt(st: UartState): (r: UartState)
    ensures !r.isInterrupting && r.iir == IIR_NIP && r.lsr == LSR_THRE | LSR_TEMT
    ensures r.(isInterrupting := st.isInterrupting, iir := st.iir, lsr := st.lsr) == st
  {
    st.(isInterrupting := false, iir := IIR_NIP, lsr := LSR_THRE | LSR_TEMT)
  }

  /** `push_char`. */
  function PushChar(st: UartState, c: char): (r: UartState)
  {
    RaiseInt(st.(rbr := CharByte(c), lsr := With(st.lsr, LSR_DR)), IIR_RDA)
  }

  /** `push_char` stores the byte, sets DR and raises a received-data
      interrupt, after which the device is not ready for another character;
      the buffers and the other registers are unchanged. */
  lemma PushCharEffect(st: UartState, c: char)
    ensures PushChar(st, c).rbr == CharByte(c) && Has(PushChar(st, c).lsr, LSR_DR)
    ensures PushChar(st, c).isInterrupting && !PushChar(st, c).isTakenInterrupt
    ensures PushChar(st, c).iir == IIR_RDA && !IsReadyForReceiving(PushChar(st, c))
    ensures PushChar(st, c).(rbr := st.rbr, lsr := st.lsr, iir := st.iir,
      isInterrupting := st.isInterrupting, isTakenInterrupt := st.isTakenInterrupt) == st
  {
    DrBit(st.lsr);
  }

  /** `Uart::read` of the register at `off`: the byte read and the new
      state. */
  function ReadRegister(st: UartState, off: bv8): (bv8, UartState)
  {
    if off == 0 then
      if IsDlab(st) then (st.dll, st)
      else
        var cleared := st.(rbr := 0, lsr := Without(st.lsr, LSR_DR));
        (st.rbr, if st.isInterrupting then LowerInt(cleared) else cleared)
    else if off == 1 then (if IsDlab(st) then st.dlm else st.ier, st)
    else if off == 2 then
      (st.iir, if st.isTakenInterrupt && IdIs(st.iir, IIR_THRE) then LowerInt(st) else st)
    else if off == 3 then (st.lcr, st)
    else if off == 5 then (st.lsr, st)
    else (0, st)
  }

  /** `Uart::read`, with the new state. */
  function ReadSpec(st: UartState, offset: bv32, size: bv32): Outcome<(DeviceResponse<bv32>, UartState)>
  {
    if size != 1 then Panic
    else
      var (v, s) := ReadRegister(st, Low8(offset));
      Ok((DeviceResponse(Widen8(v), s.isInterrupting), s))
  }

  /** `Uart::write` of one byte register: the new state. */
  function WriteState(st: UartState, off: bv8, v: bv8): UartState
  {
    if off == 0 then
      if IsDlab(st) then st.(dll := v)
      else
        var sent := st.(output := st.output + [v]);
        if Has(st.ier, IER_ETBEI) then RaiseInt(sent, IIR_THRE) else sent
    else if off == 1 then
      if IsDlab(st) then st.(dlm := v)
      else
        var s := st.(ier := v);
        if !EtbeiToggled(st.ier, v) then s
        else if Has(v, IER_ETBEI) then RaiseInt(s, IIR_THRE)
        else LowerInt(s)
    else if off == 3 then st.(lcr := v)
    else st
  }

  /** `Uart::write`, with the new state. */
  function WriteSpec(st: UartState, offset: bv32, size: bv32, value: bv32)
    : Outcome<(DeviceResponse<()>, UartState)>
  {
    if size != 1 then Panic
    else
      var s := WriteState(st, Low8(offset), Low8(value));
      Ok((DeviceResponse((), s.isInterrupting), s))
  }

  /** Only one-byte accesses are implemented, and only the low eight bits of
      the offset select the register. */
  lemma ByteAccessOnly(st: UartState, offset: bv32, other: bv32, size: bv32, value: bv32)
    requires Low8(offset) == Low8(other)
    ensures ReadSpec(st, offset, size).Panic? <==> size != 1
    ensures WriteSpec(st, offset, size, value).Panic? <==> size != 1
    ensures !ReadSpec(st, offset, size).Fail? && !WriteSpec(st, offset, size, value).Fail?
    ensures ReadSpec(st, offset, size) == ReadSpec(st, other, size)
    ensures WriteSpec(st, offset, size, value) == WriteSpec(st, other, size, value)
  {
  }

  /** Every access reports whether the device is interrupting afterwards. */
  lemma ResponseReportsInterrupt(st: UartState, offset: bv32, value: bv32)
    ensures ReadSpec(st, offset, 1).value.0.isInterrupting == ReadSpec(st, offset, 1).value.1.isInterrupting
    ensures WriteSpec(st, offset, 1, value).value.0.isInterrupting
      == WriteSpec(st, offset, 1, value).value.1.isInterrupting
  {
  }

  /** With DLAB set, offsets 0 and 1 read and write DLL and DLM, and nothing
      else changes; with it clear, offset 1 reads IER. */
  lemma DivisorLatch(st: UartState, value: bv32)
    ensures IsDlab(st) ==> ReadSpec(st, 0, 1) == Ok((DeviceResponse(Widen8(st.dll), st.isInterrupting), st))
    ensures IsDlab(st) ==> ReadSpec(st, 1, 1) == Ok((DeviceResponse(Widen8(st.dlm), st.isInterrupting), st))
    ensures !IsDlab(st) ==> ReadSpec(st, 1, 1) == Ok((DeviceResponse(Widen8(st.ier), st.isInterrupting), st))
    ensures IsDlab(st) ==> WriteSpec(st, 0, 1, value).value.1 == st.(dll := Low8(value))
    ensures IsDlab(st) ==> WriteSpec(st, 1, 1, value).value.1 == st.(dlm := Low8(value))
    ensures IsDlab(st) <==> Has(st.lcr, 0x80)
  {
    DlabIsBit7(st.lcr);
    assert Low8(0) == 0 && Low8(1) == 1;
  }

  /** Reading RBR returns the held byte, then leaves RBR zero and DR clear,
      and lowers a raised interrupt; a quiet device keeps IIR. */
  lemma ReadRbr(st: UartState)
    requires !IsDlab(st)
    ensures ReadSpec(st, 0, 1).value.0.value == Widen8(st.rbr)
    ensures ReadSpec(st, 0, 1).value.1.rbr == 0
    ensures !Has(ReadSpec(st, 0, 1).value.1.lsr, LSR_DR)
    ensures !ReadSpec(st, 0, 1).value.1.isInterrupting
    ensures st.isInterrupting ==> ReadSpec(st, 0, 1).value.1 == LowerInt(st.(rbr := 0))
    ensures !st.isInterrupting ==> ReadSpec(st, 0, 1).value.1.iir == st.iir
  {
    DrBit(st.lsr);
    assert Low8(0) == 0;
  }

  /** Reading IIR returns it, and lowers the interrupt exactly when it was
      taken and identifies the transmitter. */
  lemma ReadIir(st: UartState)
    ensures ReadSpec(st, 2, 1).value.0.value == Widen8(st.iir)
    ensures st.isTakenInterrupt && IdIs(st.iir, IIR_THRE) ==> ReadSpec(st, 2, 1).value.1 == LowerInt(st)
    ensures !(st.isTakenInterrupt && IdIs(st.iir, IIR_THRE)) ==> ReadSpec(st, 2, 1).value.1 == st
  {
    assert Low8(2) == 2;
  }

  /** A THR write sends the byte, and raises a transmitter interrupt exactly
      when ETBEI is enabled. */
  lemma WriteThr(st: UartState, value: bv32)
    requires !IsDlab(st)
    ensures WriteSpec(st, 0, 1, value).value.1.output == st.output + [Low8(value)]
    ensures Has(st.ier, IER_ETBEI) ==>
      WriteSpec(st, 0, 1, value).value.1 == RaiseInt(st.(output := st.output + [Low8(value)]), IIR_THRE)
    ensures !Has(st.ier, IER_ETBEI) ==>
      WriteSpec(st, 0, 1, value).value.1 == st.(output := st.output + [Low8(value)])
  {
    assert Low8(0) == 0;
  }

  /** An IER write stores the value; turning ETBEI on raises a transmitter
      interrupt, turning it off lowers the interrupt, and leaving it as it was
      changes nothing else. */
  lemma WriteIer(st: UartState, value: bv32)
    requires !IsDlab(st)
    ensures WriteSpec(st, 1, 1, value).value.1.ier == Low8(value)
    ensures !Has(st.ier, IER_ETBEI) && Has(Low8(value), IER_ETBEI) ==>
      WriteSpec(st, 1, 1, value).value.1 == RaiseInt(st.(ier := Low8(value)), IIR_THRE)
    ensures Has(st.ier, IER_ETBEI) && !Has(Low8(value), IER_ETBEI) ==>
      WriteSpec(st, 1, 1, value).value.1 == LowerInt(st.(ier := Low8(value)))
    ensures Has(st.ier, IER_ETBEI) == Has(Low8(value), IER_ETBEI) ==>
      WriteSpec(st, 1, 1, value).value.1 == st.(ier := Low8(value))
  {
    assert Low8(1) == 1;
    ToggledIff(st.ier, Low8(value));
  }

  /** LCR is written at offset 3; offsets 2, 4 and above 5 ignore writes. */
  lemma WriteOthers(st: UartState, offset: bv32, value: bv32)
    requires Low8(offset) == 3 || Low8(offset) == 2 || Low8(offset) >= 4
    ensures Low8(offset) == 3 ==> WriteSpec(st, offset, 1, value).value.1 == st.(lcr := Low8(value))
    ensures Low8(offset) != 3 ==> WriteSpec(st, offset, 1, value).value.1 == st
  {
  }

  /** `tick` as written: after taking the host's character, if any, it moves
      the character pushed LAST into RBR. */
  function TickAsWritten(st: UartState, received: Option<char>): (bool, UartState)
  {
    var s := if received.Some? then st.(inputBuf := st.inputBuf + [received.value]) else st;
    if s.inputBuf != [] && IsReadyForReceiving(s) then
      (true, PushChar(s.(inputBuf := s.inputBuf[..|s.inputBuf| - 1]), s.inputBuf[|s.inputBuf| - 1]))
    else (false, s)
  }

  /** `tick` delivering the buffered characters in the order they arrived:
      the OLDEST one moves into RBR. */
  function Tick(st: UartState, received: Option<char>): (bool, UartState)
  {
    var s := if received.Some? then st.(inputBuf := st.inputBuf + [received.value]) else st;
    if s.inputBuf != [] && IsReadyForReceiving(s) then
      (true, PushChar(s.(inputBuf := s.inputBuf[1..]), s.inputBuf[0]))
    else (false, s)
  }

  /** A tick moves a character exactly when, after the host's character is
      buffered, the buffer is non-empty and the device is ready; it then
      delivers the oldest buffered character and keeps the rest in order.
      Otherwise only the received character is buffered. */
  lemma TickDelivers(st: UartState, received: Option<char>)
    ensures var buf := st.inputBuf + (if received.Some? then [received.value] else []);
      && (Tick(st, received).0 <==> buf != [] && IsReadyForReceiving(st))
      && (Tick(st, received).0 ==>
            Tick(st, received).1 == PushChar(st.(inputBuf := buf[1..]), buf[0])
            && Tick(st, received).1.rbr == CharByte(buf[0]))
      && (!Tick(st, received).0 ==> Tick(st, received).1 == st.(inputBuf := buf))
  {
    var buf := st.inputBuf + (if received.Some? then [received.value] else []);
    var s := if received.Some? then st.(inputBuf := st.inputBuf + [received.value]) else st;
    assert s == st.(inputBuf := buf);
    if buf != [] {
      PushCharEffect(s.(inputBuf := buf[1..]), buf[0]);
    }
  }

  /** `tick` as written moves a character under the same condition, but the
      one it delivers is the LAST one buffered (the host's character of this
      tick, when there is one); the others stay in order. */
  lemma TickAsWrittenDeliversLast(st: UartState, received: Option<char>)
    ensures var buf := st.inputBuf + (if received.Some? then [received.value] else []);
      && (TickAsWritten(st, received).0 <==> buf != [] && IsReadyForReceiving(st))
      && (TickAsWritten(st, received).0 ==>
            TickAsWritten(st, received).1 == PushChar(st.(inputBuf := buf[..|buf| - 1]), buf[|buf| - 1])
            && TickAsWritten(st, received).1.rbr == CharByte(buf[|buf| - 1]))
      && (!TickAsWritten(st, received).0 ==> TickAsWritten(st, received).1 == st.(inputBuf := buf))
  {
    var buf := st.inputBuf + (if received.Some? then [received.value] else []);
    var s := if received.Some? then st.(inputBuf := st.inputBuf + [received.value]) else st;
    assert s == st.(inputBuf := buf);
    if buf != [] {
      PushCharEffect(s.(inputBuf := buf[..|buf| - 1]), buf[|buf| - 1]);
    }
  }

  /** Two characters that wait in the buffer come out of `tick` as written in
      reverse order: with "ab" buffered, RBR receives 'b' first, while the
      arrival-order tick delivers 'a'. */
  lemma TickAsWrittenReverses()
    ensures var st := Initial.(ier := IER_RX_READY, inputBuf := ['a', 'b']);
      && TickAsWritten(st, None).1.rbr == CharByte('b')
      && TickAsWritten(st, None).1.inputBuf == ['a']
      && Tick(st, None).1.rbr == CharByte('a')
      && Tick(st, None).1.inputBuf == ['b']
  {
    var st := Initial.(ier := IER_RX_READY, inputBuf := ['a', 'b']);
    assert IsReadyForReceiving(st);
    assert st.inputBuf[1..] == ['b'] && st.inputBuf[..1] == ['a'];
  }

  /** The character the host sends is never lost: it is delivered or it
      stays in the buffer behind the older ones. */
  lemma TickKeepsCharacters(st: UartState, received: Option<char>)
    ensures var buf := st.inputBuf + (if received.Some? then [received.value] else []);
      multiset(buf) == multiset(Tick(st, received).1.inputBuf)
        + (if Tick(st, received).0 then multiset{buf[0]} else multiset{})
  {
    var buf := st.inputBuf + (if received.Some? then [received.value] else []);
    TickDelivers(st, received);
    if Tick(st, received).0 {
      PushCharEffect(st.(inputBuf := buf[1..]), buf[0]);
      assert Tick(st, received).1.inputBuf == buf[1..];
      assert buf == [buf[0]] + buf[1..];
    }
  }

  class Uart {
    var lcr: bv8
    var dlm: bv8
    var dll: bv8
    var lsr: bv8
    var ier: bv8
    var rbr: bv8
    var iir: bv8
    var isInterrupting: bool
    var isTakenInterrupt: bool
    var inputBuf: seq<char>
    /** What was written to THR, in order (the host terminal's view). */
    var output: seq<bv8>

    function State(): UartState
      reads this
    {
      UartState(lcr, dlm, dll, lsr, ier, rbr, iir, isInterrupting, isTakenInterrupt, inputBuf, output)
    }

    /** `Uart::new`. */
    constructor ()
      ensures State() == Initial
    {
      lcr := 0;
      dlm := 0;
      dll := 0;
      lsr := LSR_TEMT | LSR_THRE;
      ier := 0;
      rbr := 0;
      iir := IIR_NIP;
      isInterrupting := false;
      isTakenInterrupt := false;
      inputBuf := [];
      output := [];
    }

    /** `irq`. */
    function Irq(): (r: IRQ)
      ensures IrqNumber(r) == 0xa
    {
      IRQ.Uart
    }

    /** `take_interrupt`. */
    method TakeInterrupt()
      modifies this
      ensures State() == old(State()).(isTakenInterrupt := true)
    {
      isTakenInterrupt := true;
    }

    /** `raise_interrupt`. */
    method RaiseInterrupt(v: bv8)
      modifies this
      ensures State() == RaiseInt(old(State()), v)
    {
      isInterrupting := true;
      isTakenInterrupt := false;
      iir := v;
    }

    /** `lower_interrupt`. */
    method LowerInterrupt()
      modifies this
      ensures State() == LowerInt(old(State()))
    {
      isInterrupting := false;
      iir := IIR_NIP;
      lsr := LSR_THRE | LSR_TEMT;
    }

    /** `push_char`. */
    method PushCharIn(c: char)
      modifies this
      ensures State() == PushChar(old(State()), c)
    {
      rbr := CharByte(c);
      lsr := With(lsr, LSR_DR);
      RaiseInterrupt(IIR_RDA);
    }

    /** `Uart::read`. */
    method Read(offset: bv32, size: bv32) returns (r: Outcome<DeviceResponse<bv32>>)
      modifies this
      ensures r == First(ReadSpec(old(State()), offset, size))
      ensures r.Ok? ==> State() == ReadSpec(old(State()), offset, size).value.1
      ensures !r.Ok? ==> State() == old(State())
    {
      if size != 1 {
        return Panic;
      }
      ghost var st0 := State();
      var off := Low8(offset);
      var v: bv8 := 0;
      if off == 0 {
        if DlabBit(lcr) {
          v := dll;
        } else {
          v := ReadReceiver();
        }
      } else if off == 1 {
        v := if DlabBit(lcr) then dlm else ier;
      } else if off == 2 {
        v := ReadInterruptId();
      } else if off == 3 {
        v := lcr;
      } else if off == 5 {
        v := lsr;
      }
      assert (v, State()) == ReadRegister(st0, off);
      r := Ok(DeviceResponse(Widen8(v), isInterrupting));
    }

    /** Offset 0 of `Uart::read` with DLAB clear: RBR. */
    method ReadReceiver() returns (v: bv8)
      requires !DlabBit(lcr)
      modifies this
      ensures (v, State()) == ReadRegister(old(State()), 0)
    {
      v := rbr;
      rbr := 0;
      lsr := Without(lsr, LSR_DR);
      if isInterrupting {
        LowerInterrupt();
      }
    }

    /** Offset 2 of `Uart::read`: IIR. */
    method ReadInterruptId() returns (v: bv8)
      modifies this
      ensures (v, State()) == ReadRegister(old(State()), 2)
    {
      v := iir;
      if isTakenInterrupt && IdIs(iir, IIR_THRE) {
        LowerInterrupt();
      }
    }

    /** `Uart::write`. */
    method Write(offset: bv32, size: bv32, value: bv32) returns (r: Outcome<DeviceResponse<()>>)
      modifies this
      ensures r == First(WriteSpec(old(State()), offset, size, value))
      ensures r.Ok? ==> State() == WriteSpec(old(State()), offset, size, value).value.1
      ensures !r.Ok? ==> State() == old(State())
    {
      if size != 1 {
        return Panic;
      }
      ghost var st0 := State();
      var v := Low8(value);
      var off := Low8(offset);
      if off == 0 {
        if DlabBit(lcr) {
          dll := v;
        } else {
          WriteTransmitter(v);
        }
      } else if off == 1 {
        if DlabBit(lcr) {
          dlm := v;
        } else {
          WriteInterruptEnable(v);
        }
      } else if off == 3 {
        lcr := v;
      }
      assert State() == WriteState(st0, off, v);
      r := Ok(DeviceResponse((), isInterrupting));
    }

    /** Offset 0 of `Uart::write` with DLAB clear: THR. */
    method WriteTransmitter(v: bv8)
      requires !DlabBit(lcr)
      modifies this
      ensures State() == WriteState(old(State()), 0, v)
    {
      output := output + [v];
      if Has(ier, IER_ETBEI) {
        RaiseInterrupt(IIR_THRE);
      }
    }

    /** Offset 1 of `Uart::write` with DLAB clear: IER. */
    method WriteInterruptEnable(v: bv8)
      requires !DlabBit(lcr)
      modifies this
      ensures State() == WriteState(old(State()), 1, v)
    {
      var toggled := EtbeiToggled(ier, v);
      ier := v;
      if toggled {
        if Has(ier, IER_ETBEI) {
          RaiseInterrupt(IIR_THRE);
        } else {
          LowerInterrupt();
        }
      }
    }

    /** `tick`, taking the character the host sent since the last tick, if
        any, and delivering the buffered characters in arrival order. */
    method TickOnce(received: Option<char>) returns (moved: bool)
      modifies this
      ensures (moved, State()) == Tick(old(State()), received)
    {
      if received.Some? {
        inputBuf := inputBuf + [received.value];
      }
      if inputBuf != [] && iir == IIR_NIP && Has(ier, IER_RX_READY) {
        var c := inputBuf[0];
        inputBuf := inputBuf[1..];
        PushCharIn(c);
        return true;
      }
      return false;
    }
  }
}
