/**
 * One pass of the run loop of src/simulator.rs (`Simulator::run` and the
 * wasm `Simulator::step` do the same): tick the devices, take a pending
 * local interrupt, execute one instruction, then either enter the trap
 * handler or retire the instruction (instret, and the pc unless it jumped),
 * and finally advance the cycle and time counters.
 *
 * `Bus::tick` is not part of this model: it is a parameter that may change
 * the bus and the CSRs (the CLINT's timer and the PLIC's lines raise mip
 * bits there).
 */
module Simulator {
  import opened Arch
  import opened CsrFile
  import opened SystemBus
  import opened Hart

  /** `Bus::tick(prv, csr)`: the devices' new state and the CSRs they leave. */
  type Tick = (BusState, Priv, Csr) -> (ValidBus, Csr)

  /** `check_local_intrrupt_active`, then `handle_trap` for what it finds. */
  function Interrupt(s: CpuState, b: BusState, h: Hooks): (t: Ret<()>)
    ensures b.Valid() ==> t.bus.Valid()
  {
    match h.pending(s.csr, s.prv)
    case None => Ret(Ok(()), s, b)
    case Some(e) => HandleTrapSpec(s, b, h, e)
  }

  /** `progress_instret`, then `progress_pc` unless the instruction set the
      pc itself. */
  function Retire(s: CpuState, jump: bool): CpuState
  {
    s.(csr := ProgressInstret(s.csr), pc := if jump then s.pc else s.pc + 4)
  }

  /** `progress_cycle`, then `progress_time`. */
  function Clock(s: CpuState): CpuState
  {
    s.(csr := ProgressTime(ProgressCycle(s.csr)))
  }

  /** `cpu.step`, then `handle_trap` for its trap or the retirement of the
      instruction: the states left, None where something panicked. */
  function Resolved(s: CpuState, b: BusState, h: Hooks): Option<(CpuState, BusState)>
    requires b.Valid()
  {
    var t := StepSpec(s, b, h);
    match t.out
    case Panic => None
    case Fail(e) =>
      var u := HandleTrapSpec(t.cpu, t.bus, h, e);
      if u.out.Panic? then None else Some((u.cpu, u.bus))
    case Ok(jump) => Some((Retire(t.cpu, jump), t.bus))
  }

  /** The loop body up to the counters: tick, take a pending interrupt,
      then the instruction; None where something panicked. */
  function Executed(s: CpuState, b: BusState, h: Hooks, tick: Tick): Option<(CpuState, BusState)>
  {
    var ticked := tick(b, s.prv, s.csr);
    var i := Interrupt(s.(csr := ticked.1), ticked.0, h);
    if i.out.Panic? then None else Resolved(i.cpu, i.bus, h)
  }

  /** One pass of the run loop: the hart and bus states after it, None
      where the simulator panics. */
  function SimStep(s: CpuState, b: BusState, h: Hooks, tick: Tick): Option<(CpuState, BusState)>
  {
    match Executed(s, b, h, tick)
    case None => None
    case Some(m) => Some((Clock(m.0), m.1))
  }

  // ---------------------------------------------------------------------
  // Properties of one pass.

  /** The hart as the instruction meets it: ticked, and moved into the
      handler of a pending interrupt. */
  function Before(s: CpuState, b: BusState, h: Hooks, tick: Tick): Ret<()>
  {
    var ticked := tick(b, s.prv, s.csr);
    Interrupt(s.(csr := ticked.1), ticked.0, h)
  }

  /** A pending interrupt is taken before the instruction executes: the
      instruction is fetched at the handler's pc, with the handler's CSRs and
      privilege; with none pending the instruction sees the ticked state. */
  lemma InterruptBeforeStep(s: CpuState, b: BusState, h: Hooks, tick: Tick)
    ensures var ticked := tick(b, s.prv, s.csr);
      var c := s.(csr := ticked.1);
      match h.pending(ticked.1, s.prv)
      case None => Before(s, b, h, tick) == Ret(Ok(()), c, ticked.0)
      case Some(e) => Before(s, b, h, tick) == HandleTrapSpec(c, ticked.0, h, e)
  {
  }

  /** The instruction retires exactly when `step` returns Ok: then instret
      advances by one and the pc by four unless the instruction jumped; a
      trap instead hands over to `handle_trap`, whose state the counters are
      then applied to. */
  lemma RetiresExactlyOnOk(s: CpuState, b: BusState, h: Hooks, tick: Tick)
    requires !Before(s, b, h, tick).out.Panic?
    ensures var i := Before(s, b, h, tick);
      var t := StepSpec(i.cpu, i.bus, h);
      (t.out.Ok? ==>
         Executed(s, b, h, tick) == Some((Retire(t.cpu, t.out.value), t.bus)) &&
         Retire(t.cpu, t.out.value).csr.instret == t.cpu.csr.instret + 1 &&
         Retire(t.cpu, t.out.value).pc == (if t.out.value then t.cpu.pc else t.cpu.pc + 4)) &&
      (t.out.Fail? ==>
         var u := HandleTrapSpec(t.cpu, t.bus, h, t.out.trap);
         Executed(s, b, h, tick) == (if u.out.Panic? then None else Some((u.cpu, u.bus)))) &&
      (t.out.Panic? ==> Executed(s, b, h, tick) == None)
  {
    ProgressTicks(StepSpec(Before(s, b, h, tick).cpu, Before(s, b, h, tick).bus, h).cpu.csr);
  }

  /** Retiring advances instret and, for an instruction that did not jump,
      the pc by four; it changes nothing else but those two. */
  lemma RetireEffect(s: CpuState, jump: bool)
    ensures Retire(s, jump).csr.instret == s.csr.instret + 1
    ensures Retire(s, jump).csr.mcycle == s.csr.mcycle
    ensures Retire(s, jump).pc == if jump then s.pc else s.pc + 4
    ensures Retire(s, jump) == s.(csr := Retire(s, jump).csr, pc := Retire(s, jump).pc)
  {
    ProgressTicks(s.csr);
  }

  /** Every pass that does not panic advances the cycle counter by one and
      the 64-bit time counter by one, and leaves instret as the instruction
      or its trap left it. */
  lemma ClockAdvancesEveryStep(s: CpuState, b: BusState, h: Hooks, tick: Tick)
    ensures SimStep(s, b, h, tick).Some? <==> Executed(s, b, h, tick).Some?
    ensures Executed(s, b, h, tick).Some? ==>
      var m := Executed(s, b, h, tick).value.0;
      var r := SimStep(s, b, h, tick).value.0;
      r.csr.mcycle == m.csr.mcycle + 1 && Time(r.csr) == Time(m.csr) + 1 &&
      r.csr.instret == m.csr.instret && r == m.(csr := r.csr)
  {
    if Executed(s, b, h, tick).Some? {
      var m := Executed(s, b, h, tick).value.0;
      ProgressTicks(m.csr);
      ProgressTimeAdvances(ProgressCycle(m.csr));
    }
  }

  // ---------------------------------------------------------------------
  // The simulator as the source keeps it.

  /** `Simulator`: the hart object and the bus. */
  class Simulator {
    const cpu: Cpu
    var bus: BusState

    ghost predicate Valid()
      reads this, cpu, cpu.regs, cpu.regs.regs, cpu.tlb
    {
      cpu.Valid() && bus.Valid()
    }

    /** `Simulator::new`: a hart at reset and the default bus. */
    constructor ()
      ensures Valid() && cpu.State() == Reset && bus == Initial
      ensures fresh(cpu) && fresh(cpu.regs) && fresh(cpu.regs.regs) && fresh(cpu.tlb) && fresh(cpu.tlb.entries)
    {
      cpu := new Cpu();
      bus := Initial;
    }

    /** `set_entry_point`: execution starts at `entry`. */
    method SetEntryPoint(entry: bv32)
      requires Valid()
      modifies cpu
      ensures Valid() && cpu.State() == old(cpu.State()).(pc := entry) && bus == old(bus)
    {
      cpu.pc := entry;
    }

    /** One pass of the run loop; `halted` where the source panics. */
    method Step(h: Hooks, tick: Tick) returns (halted: bool)
      requires Valid()
      modifies this, cpu, cpu.regs.regs, cpu.tlb.entries
      ensures Valid()
      ensures var r := SimStep(old(cpu.State()), old(bus), h, tick);
        halted == r.None? && (!halted ==> (cpu.State(), bus) == r.value)
    {
      halted := Execute(h, tick);
      if !halted {
        cpu.csr := ProgressCycle(cpu.csr);
        cpu.csr := ProgressTime(cpu.csr);
      }
    }

    /** The pass up to the counters. */
    method Execute(h: Hooks, tick: Tick) returns (halted: bool)
      requires Valid()
      modifies this, cpu, cpu.regs.regs, cpu.tlb.entries
      ensures Valid()
      ensures var r := Executed(old(cpu.State()), old(bus), h, tick);
        halted == r.None? && (!halted ==> (cpu.State(), bus) == r.value)
    {
      var ticked := tick(bus, cpu.prv, cpu.csr);
      bus := ticked.0;
      cpu.csr := ticked.1;
      halted := TakeInterrupt(h);
      if !halted {
        halted := Resolve(h);
      }
    }

    /** `cpu.step`, then `handle_trap` on a trap, or `progress_instret` and
        (unless the instruction jumped) `progress_pc`. */
    method Resolve(h: Hooks) returns (halted: bool)
      requires Valid()
      modifies this, cpu, cpu.regs.regs, cpu.tlb.entries
      ensures Valid()
      ensures var r := Resolved(old(cpu.State()), old(bus), h);
        halted == r.None? && (!halted ==> (cpu.State(), bus) == r.value)
    {
      var r;
      r, bus := cpu.Step(bus, h);
      match r {
        case Panic =>
          halted := true;
        case Fail(e) =>
          var done;
          done, bus := cpu.HandleTrap(e, bus, h);
          halted := done.Panic?;
        case Ok(jump) =>
          halted := false;
          RetireInstruction(jump);
      }
    }

    /** `progress_instret` and, unless the instruction jumped, `progress_pc`. */
    method RetireInstruction(jump: bool)
      requires Valid()
      modifies cpu
      ensures Valid() && cpu.State() == Retire(old(cpu.State()), jump) && bus == old(bus)
    {
      cpu.csr := ProgressInstret(cpu.csr);
      if !jump {
        cpu.ProgressPc();
      }
    }

    /** `check_local_intrrupt_active` and, for what it finds, `handle_trap`. */
    method TakeInterrupt(h: Hooks) returns (halted: bool)
      requires Valid()
      modifies this, cpu
      ensures Valid()
      ensures var i := Interrupt(old(cpu.State()), old(bus), h);
        halted == i.out.Panic? && (!halted ==> cpu.State() == i.cpu && bus == i.bus)
    {
      var pending := h.pending(cpu.csr, cpu.prv);
      halted := false;
      if pending.Some? {
        var done;
        done, bus := cpu.HandleTrap(pending.value, bus, h);
        halted := done.Panic?;
      }
    }
  }
}
