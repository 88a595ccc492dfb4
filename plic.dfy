/**
 * The platform-level interrupt controller (src/bus/plic.rs): 32 sources and
 * two contexts (context 0 is the machine-mode hart context, context 1 the
 * supervisor one), after the RISC-V PLIC Specification 1.0.0: priorities at
 * offset 0, enable words at 0x2000 + 0x80 * context, threshold and
 * claim/complete at 0x200000 + 0x1000 * context.
 *
 * The fixed arrays of the source are sequences of fixed length; `Valid` says
 * which. Every operation is a method of `Plic` proved equal to a function of
 * the abstract state (`PlicState`), and the properties are lemmas about those
 * functions.
 *
 * One step departs from the source. Its search for the interrupt to deliver
 * (`find_interrupt_active`, src/bus/plic.rs:166-197) records `max_priority`
 * but never compares against it, so every enabled source above the threshold
 * overwrites the one found before and the highest-numbered wins. That search
 * is `ScanAsWritten`, and `ScanAsWrittenPicksLast` gives an input where it
 * passes over a higher priority. The rest of this model (`Plic.FindInterruptActive`,
 * the bus and the hart's external interrupts) uses `Scan`, which keeps the
 * highest priority as the PLIC specification intends.
 */
module PlicDevice {
  import opened Arch
  import opened CsrFile
  import opened Masks

  const PLIC_MAX_NUM: nat := 1024
  const PLIC_CONTEXT_MAX_NUM: nat := 15872
  const PLIC_NUM: nat := 32
  const PLIC_CONTEXT_NUM: nat := 2

  const PLIC_PRIORITY_BASE: nat := 0
  const PLIC_PRIORITY_END: nat := PLIC_PRIORITY_BASE + PLIC_MAX_NUM * 4
  const PLIC_ENABLE_BASE: nat := 0x2000
  const PLIC_ENABLE_UNIT: nat := 0x80
  const PLIC_ENABLE_END: nat := PLIC_ENABLE_BASE + PLIC_CONTEXT_MAX_NUM * PLIC_ENABLE_UNIT
  const PLIC_THRESHOLD_BASE: nat := 0x200000
  const PLIC_THRESHOLD_UNIT: nat := 0x1000
  const PLIC_CLAIM_END: nat := PLIC_THRESHOLD_BASE + PLIC_CONTEXT_MAX_NUM * PLIC_THRESHOLD_UNIT + 4

  /** The controller's registers and the interrupt it is delivering. */
  datatype PlicState = PlicState(
    priorities: seq<bv32>,
    pending: seq<bv32>,
    enables: seq<seq<bv32>>,
    thresholds: seq<bv32>,
    interruptingIrq: Option<IRQ>,
    interruptingCtx: Option<nat>)
  {
    /** The array lengths of the source: 32 priorities, one pending word, one
        enable word per context, one threshold per context. */
    predicate Valid()
    {
      |priorities| == PLIC_NUM && |pending| == PLIC_NUM / 32 &&
      |enables| == PLIC_CONTEXT_NUM && |enables[0]| == PLIC_NUM / 32 &&
      |enables[1]| == PLIC_NUM / 32 && |thresholds| == PLIC_CONTEXT_NUM
    }
  }

  /** `Plic::default`. */
  const Initial: PlicState :=
    PlicState(seq(PLIC_NUM, _ => 0), [0], [[0], [0]], [0, 0], None, None)

  /** The masks of the four source numbers. */
  lemma BitOfIrq(irq: IRQ)
    ensures BitOf(IrqNumber(irq)) == match irq
      case NoIrq => 0x1 case VirtioNet => 0x2 case VirtioGpu => 0x4 case Uart => 0x400
  {
    match irq
    case NoIrq =>
    case VirtioNet => assert BitOf(1) == 2;
    case VirtioGpu => assert BitOf(2) == 4;
    case Uart => assert BitOf(10) == 0x400;
  }

  /** Source `n`'s bit `n % 32` in word `n / 32` of the pending array. */
  predicate IsPending(st: PlicState, n: nat)
    requires st.Valid() && n < PLIC_NUM
  {
    AnyBit(st.pending[n / 32], BitOf(n % 32))
  }

  /** `set_pending` and `unset_pending`. */
  function SetPending(st: PlicState, irq: IRQ): (r: PlicState)
    requires st.Valid()
    ensures r.Valid()
  {
    var n := IrqNumber(irq);
    st.(pending := st.pending[n / 32 := SetBits(st.pending[n / 32], BitOf(n % 32))])
  }

  function UnsetPending(st: PlicState, irq: IRQ): (r: PlicState)
    requires st.Valid()
    ensures r.Valid()
  {
    var n := IrqNumber(irq);
    st.(pending := st.pending[n / 32 := ClearBits(st.pending[n / 32], BitOf(n % 32))])
  }

  /** Setting or clearing a source's pending bit decides that source, leaves
      every other source's pending bit as it was, and touches no other
      register. */
  lemma PendingBits(st: PlicState, irq: IRQ, m: nat)
    requires st.Valid() && m < PLIC_NUM
    ensures IsPending(SetPending(st, irq), IrqNumber(irq))
    ensures !IsPending(UnsetPending(st, irq), IrqNumber(irq))
    ensures m != IrqNumber(irq) ==> IsPending(SetPending(st, irq), m) == IsPending(st, m)
    ensures m != IrqNumber(irq) ==> IsPending(UnsetPending(st, irq), m) == IsPending(st, m)
    ensures SetPending(st, irq).(pending := st.pending) == st
    ensures UnsetPending(st, irq).(pending := st.pending) == st
  {
    var n := IrqNumber(irq);
    assert n / 32 == 0 && n % 32 == n && m / 32 == 0 && m % 32 == m;
    var w, b := st.pending[0], BitOf(n);
    BitOfIrq(irq);
    OwnBit(w, b);
    if m != n {
      DistinctBits(m, n);
      OtherBit(w, b, BitOf(m));
    }
  }

  /** Source `n` may interrupt context `c`: pending, enabled in `c`, and of a
      priority strictly above `c`'s threshold. */
  predicate Candidate(st: PlicState, n: nat, c: nat)
    requires st.Valid() && n < PLIC_NUM && c < PLIC_CONTEXT_NUM
  {
    IsPending(st, n) && AnyBit(st.enables[c][n / 32], BitOf(n % 32)) &&
    Above(st.priorities[n], st.thresholds[c])
  }

  /** No source below `n` is a candidate in any context. */
  predicate NoCandidateBelow(st: PlicState, n: nat)
    requires st.Valid() && n <= PLIC_NUM
  {
    forall m, c :: 0 <= m < n && 0 <= c < PLIC_CONTEXT_NUM ==> !Candidate(st, m, c)
  }

  /** The accumulators of `find_interrupt_active`: priority, source and
      context. */
  datatype Found = Found(priority: bv32, irq: IRQ, ctx: nat)

  const NothingFound: Found := Found(0, NoIrq, 0)

  /** One step of `find_interrupt_active` AS WRITTEN: every candidate
      overwrites the accumulators (`max_priority` is assigned but never
      compared); `irq.into()` panics on a source number that names no
      device. */
  function StepAsWritten(st: PlicState, n: nat, c: nat, acc: Found): Outcome<Found>
    requires st.Valid() && n < PLIC_NUM && c < PLIC_CONTEXT_NUM
  {
    if Candidate(st, n, c) then
      var irq :- IrqFrom(n);
      Ok(Found(st.priorities[n], irq, c))
    else Ok(acc)
  }

  /** `find_interrupt_active` as written, over sources `0..n`. */
  function ScanAsWritten(st: PlicState, n: nat): Outcome<Found>
    requires st.Valid() && n <= PLIC_NUM
  {
    if n == 0 then Ok(NothingFound)
    else
      var acc :- ScanAsWritten(st, n - 1);
      var a :- StepAsWritten(st, n - 1, 0, acc);
      StepAsWritten(st, n - 1, 1, a)
  }

  /** One step of the scan as intended: a candidate replaces the accumulators
      only when its priority exceeds the best one so far. */
  function Step(st: PlicState, n: nat, c: nat, acc: Found): Outcome<Found>
    requires st.Valid() && n < PLIC_NUM && c < PLIC_CONTEXT_NUM
  {
    if Candidate(st, n, c) && Above(st.priorities[n], acc.priority) then
      var irq :- IrqFrom(n);
      Ok(Found(st.priorities[n], irq, c))
    else Ok(acc)
  }

  /** The intended scan over sources `0..n`, both contexts of each source. */
  function Scan(st: PlicState, n: nat): Outcome<Found>
    requires st.Valid() && n <= PLIC_NUM
  {
    if n == 0 then Ok(NothingFound)
    else
      var acc :- Scan(st, n - 1);
      var a :- Step(st, n - 1, 0, acc);
      Step(st, n - 1, 1, a)
  }

  /** The intended scan part-way through source `n`: its contexts `0..c`
      visited. */
  function ScanCtx(st: PlicState, n: nat, c: nat): Outcome<Found>
    requires st.Valid() && n < PLIC_NUM && c <= PLIC_CONTEXT_NUM
  {
    if c == 0 then Scan(st, n)
    else
      var acc :- ScanCtx(st, n, c - 1);
      Step(st, n, c - 1, acc)
  }

  /** As written, sources 1 and 2 both pending and enabled for context 0
      with priorities 7 and 3 deliver source 2, the lower priority one; the
      intended scan delivers source 1. */
  lemma ScanAsWrittenPicksLast()
    ensures var st := Initial.(priorities := Initial.priorities[1 := 7][2 := 3],
                               pending := [0xffff_ffff], enables := [[0xffff_ffff], [0]]);
      st.Valid() && Candidate(st, 1, 0) && Candidate(st, 2, 0) &&
      Above(st.priorities[1], st.priorities[2]) &&
      ScanAsWritten(st, PLIC_NUM) == Ok(Found(3, VirtioGpu, 0)) &&
      Scan(st, PLIC_NUM) == Ok(Found(7, VirtioNet, 0))
  {
    var st := Initial.(priorities := Initial.priorities[1 := 7][2 := 3],
                       pending := [0xffff_ffff], enables := [[0xffff_ffff], [0]]);
    BitOfIrq(VirtioNet);
    BitOfIrq(VirtioGpu);
    assert st.priorities[0] == 0 && !Candidate(st, 0, 0) && !Candidate(st, 0, 1);
    assert StepAsWritten(st, 0, 0, NothingFound) == Ok(NothingFound);
    assert ScanAsWritten(st, 1) == Ok(NothingFound);
    assert Step(st, 0, 0, NothingFound) == Ok(NothingFound);
    assert Scan(st, 1) == Ok(NothingFound);
    assert ScanAsWritten(st, 2) == Ok(Found(7, VirtioNet, 0));
    assert Scan(st, 2) == Ok(Found(7, VirtioNet, 0));
    assert ScanAsWritten(st, 3) == Ok(Found(3, VirtioGpu, 0));
    assert Scan(st, 3) == Ok(Found(7, VirtioNet, 0));
    var n := 3;
    while n < PLIC_NUM
      invariant 3 <= n <= PLIC_NUM
      invariant ScanAsWritten(st, n) == Ok(Found(3, VirtioGpu, 0))
      invariant Scan(st, n) == Ok(Found(7, VirtioNet, 0))
    {
      assert st.priorities[n] == 0;
      n := n + 1;
    }
  }

  /** Step `(m, d)` of the scan (source `m`, context `d`) comes before the
      step `(n, c)`. */
  predicate Before(m: nat, d: nat, n: nat, c: nat)
  {
    m < n || (m == n && d < c)
  }

  /** The accumulators `f` are the best of the steps before `(n, c)`: no
      candidate visited has a priority above `f.priority`; a zero priority
      means nothing found; otherwise `f` is a visited candidate. */
  predicate Best(st: PlicState, n: nat, c: nat, f: Found)
    requires st.Valid()
  {
    (forall m, d {:trigger Candidate(st, m, d)} ::
       (0 <= m < PLIC_NUM && 0 <= d < PLIC_CONTEXT_NUM && Before(m, d, n, c) && Candidate(st, m, d)) ==>
         !Above(st.priorities[m], f.priority)) &&
    (f.priority == 0 ==> f == NothingFound) &&
    (f.priority != 0 ==>
       f.ctx < PLIC_CONTEXT_NUM && IrqNumber(f.irq) < PLIC_NUM &&
       Before(IrqNumber(f.irq), f.ctx, n, c) && Candidate(st, IrqNumber(f.irq), f.ctx) &&
       f.priority == st.priorities[IrqNumber(f.irq)])
  }

  /** One step of the intended scan keeps the accumulators the best so far:
      from context `c` of source `n` to the next one, `next`. */
  lemma StepKeepsBest(st: PlicState, n: nat, c: nat, next: nat, acc: Found, f: Found)
    requires st.Valid() && n < PLIC_NUM && c < PLIC_CONTEXT_NUM && next == c + 1
    requires Best(st, n, c, acc) && Step(st, n, c, acc) == Ok(f)
    ensures Best(st, n, next, f)
  {
    FoundIsSource(st, n, c, acc);
    if Candidate(st, n, c) {
      AboveZero(st.priorities[n], st.thresholds[c]);
      AboveZero(st.priorities[n], acc.priority);
    }
    if Candidate(st, n, c) && Above(st.priorities[n], acc.priority) {
      forall m, d | 0 <= m < PLIC_NUM && 0 <= d < PLIC_CONTEXT_NUM && Before(m, d, n, c + 1) &&
        Candidate(st, m, d)
        ensures !Above(st.priorities[m], f.priority)
      {
        if Before(m, d, n, c) {
          AboveTrans(st.priorities[m], acc.priority, st.priorities[n]);
        } else {
          AboveIrreflexive(st.priorities[n]);
        }
      }
    }
  }

  /** The intended scan over sources `0..n` ends with the best of them. */
  lemma {:induction false} ScanIsBest(st: PlicState, n: nat, f: Found)
    requires st.Valid() && n <= PLIC_NUM && Scan(st, n) == Ok(f)
    ensures Best(st, n, 0, f)
  {
    if n > 0 {
      var acc, a := ScanUnfold(st, n, f);
      ScanIsBest(st, n - 1, acc);
      SourceKeepsBest(st, n, acc, a, f);
    }
  }

  /** Visiting both contexts of source `n - 1` keeps the accumulators the
      best so far. */
  lemma SourceKeepsBest(st: PlicState, n: nat, acc: Found, a: Found, f: Found)
    requires st.Valid() && 0 < n <= PLIC_NUM && Best(st, n - 1, 0, acc)
    requires Step(st, n - 1, 0, acc) == Ok(a) && Step(st, n - 1, 1, a) == Ok(f)
    ensures Best(st, n, 0, f)
  {
    StepKeepsBest(st, n - 1, 0, 1, acc, a);
    StepKeepsBest(st, n - 1, 1, PLIC_CONTEXT_NUM, a, f);
    BestNext(st, n, f);
  }

  /** A scan over sources `0..n` that succeeds is the scan over `0..n - 1`
      followed by the two contexts of source `n - 1`. */
  lemma ScanUnfold(st: PlicState, n: nat, f: Found) returns (acc: Found, a: Found)
    requires st.Valid() && 0 < n <= PLIC_NUM && Scan(st, n) == Ok(f)
    ensures Scan(st, n - 1) == Ok(acc) && Step(st, n - 1, 0, acc) == Ok(a)
    ensures Step(st, n - 1, 1, a) == Ok(f)
  {
    acc := Scan(st, n - 1).value;
    a := Step(st, n - 1, 0, acc).value;
  }

  /** Both contexts of source `n - 1` visited is source `n` reached. */
  lemma BestNext(st: PlicState, n: nat, f: Found)
    requires st.Valid() && 0 < n && Best(st, n - 1, PLIC_CONTEXT_NUM, f)
    ensures Best(st, n, 0, f)
  {
    assert forall m, d :: 0 <= d < PLIC_CONTEXT_NUM ==>
      (Before(m, d, n, 0) <==> Before(m, d, n - 1, PLIC_CONTEXT_NUM));
  }

  /** What the intended scan finds over sources `0..n`: the initial
      accumulators when no source there is a candidate; otherwise a candidate
      there, and no candidate there has a higher priority. */
  lemma ScanFindsHighest(st: PlicState, n: nat)
    requires st.Valid() && n <= PLIC_NUM && Scan(st, n).Ok?
    ensures var f := Scan(st, n).value;
      forall m, c :: 0 <= m < n && 0 <= c < PLIC_CONTEXT_NUM && Candidate(st, m, c) ==>
        !Above(st.priorities[m], f.priority)
    ensures NoCandidateBelow(st, n) ==> Scan(st, n) == Ok(NothingFound)
    ensures var f := Scan(st, n).value;
      !NoCandidateBelow(st, n) ==>
        f.ctx < PLIC_CONTEXT_NUM && IrqNumber(f.irq) < n &&
        Candidate(st, IrqNumber(f.irq), f.ctx) && f.priority == st.priorities[IrqNumber(f.irq)]
  {
    var f := Scan(st, n).value;
    ScanIsBest(st, n, f);
    if !NoCandidateBelow(st, n) {
      var m, c :| 0 <= m < n && 0 <= c < PLIC_CONTEXT_NUM && Candidate(st, m, c);
      AboveZero(st.priorities[m], st.thresholds[c]);
      AboveZero(st.priorities[m], 0);
    }
  }

  /** A step takes a candidate of higher priority, recording its source,
      whose number the device conversion preserves, and its context; any
      other step keeps the accumulators. */
  lemma FoundIsSource(st: PlicState, n: nat, c: nat, acc: Found)
    requires st.Valid() && n < PLIC_NUM && c < PLIC_CONTEXT_NUM
    requires Step(st, n, c, acc).Ok?
    ensures var f := Step(st, n, c, acc).value;
      if Candidate(st, n, c) && Above(st.priorities[n], acc.priority) then
        f.priority == st.priorities[n] && f.ctx == c && IrqNumber(f.irq) == n
      else f == acc
  {
    if Candidate(st, n, c) && Above(st.priorities[n], acc.priority) {
      var irq := IrqFrom(n).value;
      IrqRoundTrip(irq, n);
      assert n == 0 || n == 1 || n == 2 || n == 0xa;
    }
  }

  /** The intended scan after both contexts of source `n` is the scan over
      sources `0..n + 1`. */
  lemma ScanCtxFull(st: PlicState, n: nat)
    requires st.Valid() && n < PLIC_NUM
    ensures ScanCtx(st, n, PLIC_CONTEXT_NUM) == Scan(st, n + 1)
  {
    assert ScanCtx(st, n, 0) == Scan(st, n);
    assert ScanCtx(st, n, 1) == (var acc :- Scan(st, n); Step(st, n, 0, acc));
  }

  /** A panic part-way through the scan is the scan's outcome. */
  lemma ScanPanicPersists(st: PlicState, n: nat, c: nat)
    requires st.Valid() && n < PLIC_NUM && c <= PLIC_CONTEXT_NUM && ScanCtx(st, n, c).Panic?
    ensures Scan(st, PLIC_NUM).Panic?
    decreases PLIC_NUM - n, PLIC_CONTEXT_NUM - c
  {
    if c < PLIC_CONTEXT_NUM {
      ScanPanicPersists(st, n, c + 1);
    } else {
      ScanCtxFull(st, n);
      if n + 1 < PLIC_NUM {
        ScanPanicPersists(st, n + 1, 0);
      }
    }
  }

  /** With no candidate nothing is raised and nothing changes; a raised source
      is recorded with its context, and context 0 interrupts machine mode,
      context 1 supervisor mode. */
  lemma RaiseResult(st: PlicState)
    requires st.Valid() && Scan(st, PLIC_NUM).Ok?
    ensures var f := Scan(st, PLIC_NUM).value;
      NoCandidateBelow(st, PLIC_NUM) ==> Raise(st, f) == Ok((None, st))
    ensures var f := Scan(st, PLIC_NUM).value;
      f.irq != NoIrq ==>
        Raise(st, f).Ok? && Raise(st, f).value.1.interruptingIrq == Some(f.irq) &&
        Raise(st, f).value.1.interruptingCtx == Some(f.ctx) &&
        Raise(st, f).value.0 == Some(if f.ctx == 0 then Machine else Supervisor)
  {
    ScanFindsHighest(st, PLIC_NUM);
  }

  /** `lower_interrupt`: the delivered source's pending bit cleared (the
      delivered source itself is kept); panics when nothing is delivered. */
  function Lower(st: PlicState): (r: Outcome<(IRQ, PlicState)>)
    requires st.Valid()
    ensures r.Ok? ==> r.value.1.Valid()
  {
    match st.interruptingIrq
    case None => Panic
    case Some(irq) => Ok((irq, UnsetPending(st, irq)))
  }

  /** `raise_interrupt` after the scan found `f`: no source leaves the state
      alone; otherwise the source and context are recorded and the
      privilege to interrupt is returned. */
  function Raise(st: PlicState, f: Found): (r: Outcome<(Option<Priv>, PlicState)>)
    requires st.Valid()
    ensures r.Ok? ==> r.value.1.Valid()
  {
    if f.irq == NoIrq then Ok((None, st))
    else
      var st' := st.(interruptingIrq := Some(f.irq), interruptingCtx := Some(f.ctx));
      if f.ctx == 0 then Ok((Some(Machine), st'))
      else if f.ctx == 1 then Ok((Some(Supervisor), st'))
      else Panic
  }

  /** The context and word an offset in the enable block name. */
  function EnableCtx(off: nat): nat
    requires off >= PLIC_ENABLE_BASE
  {
    (off - PLIC_ENABLE_BASE) / PLIC_ENABLE_UNIT
  }

  function EnableIdx(off: nat): nat
    requires off >= PLIC_ENABLE_BASE
  {
    ((off - PLIC_ENABLE_BASE) % PLIC_ENABLE_UNIT) / 4
  }

  /** The context an offset in the threshold/claim block names. */
  function ThresholdCtx(off: nat): nat
    requires off >= PLIC_THRESHOLD_BASE
  {
    (off - PLIC_THRESHOLD_BASE) / PLIC_THRESHOLD_UNIT
  }

  /** Bit 2 of an offset (`offset & 0x4`): set for a context's claim/complete
      register, clear for its threshold. */
  predicate ClaimBit(off: nat)
  {
    (off / 4) % 2 == 1
  }

  /** A read of the enable block: a context past 1 or a word past the
      context's array panics. */
  function EnableRead(st: PlicState, off: nat): Outcome<bv32>
    requires st.Valid() && off >= PLIC_ENABLE_BASE
  {
    var c := EnableCtx(off);
    var i := EnableIdx(off);
    if c > 1 || i >= |st.enables[c]| then Panic else Ok(st.enables[c][i])
  }

  /** A claim: 0 with nothing delivered, otherwise the delivered source's
      number, whose pending bit is then cleared. */
  function Claim(st: PlicState): (r: Outcome<(bv32, PlicState)>)
    requires st.Valid()
    ensures r.Ok? ==> r.value.1.Valid()
  {
    match st.interruptingIrq
    case None => Ok((0, st))
    case Some(irq) => Ok((IrqWord(irq), Lower(st).value.1))
  }

  /** A read of the threshold/claim block. */
  function ContextRead(st: PlicState, off: nat): (r: Outcome<(bv32, PlicState)>)
    requires st.Valid() && off >= PLIC_THRESHOLD_BASE
    ensures r.Ok? ==> r.value.1.Valid()
  {
    var c := ThresholdCtx(off);
    if c > 1 then Panic
    else if ClaimBit(off) then Claim(st)
    else Ok((st.thresholds[c], st))
  }

  /** `Plic::read`: the value read and the new state (a claim lowers the
      delivered source). Anything but a 4-byte access, and any offset outside
      the enable and threshold/claim blocks, panics. */
  function ReadSpec(st: PlicState, offset: nat, size: bv32): (r: Outcome<(bv32, PlicState)>)
    requires st.Valid()
    ensures r.Ok? ==> r.value.1.Valid()
  {
    if size != 4 then Panic
    else if PLIC_ENABLE_BASE <= offset < PLIC_ENABLE_END then
      var v :- EnableRead(st, offset);
      Ok((v, st))
    else if PLIC_THRESHOLD_BASE <= offset < PLIC_CLAIM_END then ContextRead(st, offset)
    else Panic
  }

  /** A write of the priority block: a source past the array panics. */
  function PriorityWrite(st: PlicState, off: nat, value: bv32): (r: Outcome<PlicState>)
    requires st.Valid() && off >= PLIC_PRIORITY_BASE
    ensures r.Ok? ==> r.value.Valid()
  {
    var i := (off - PLIC_PRIORITY_BASE) / 4;
    if i >= |st.priorities| then Panic else Ok(st.(priorities := st.priorities[i := value]))
  }

  /** A write of the enable block. */
  function EnableWrite(st: PlicState, off: nat, value: bv32): (r: Outcome<PlicState>)
    requires st.Valid() && off >= PLIC_ENABLE_BASE
    ensures r.Ok? ==> r.value.Valid()
  {
    var c := EnableCtx(off);
    var i := EnableIdx(off);
    if c > 1 || i >= |st.enables[c]| then Panic
    else Ok(st.(enables := st.enables[c := st.enables[c][i := value]]))
  }

  /** A completion write: the delivered source's number ends the delivery and
      clears the external-interrupt bit of its context; any other value
      changes nothing; with nothing delivered the write panics. */
  function Complete(st: PlicState, value: bv32, csr: Csr): (r: Outcome<(PlicState, Csr)>)
    requires st.Valid()
    ensures r.Ok? ==> r.value.0.Valid()
  {
    match st.interruptingIrq
    case None => Panic
    case Some(irq) =>
      if IrqWord(irq) != value then Ok((st, csr))
      else
        match st.interruptingCtx
        case None => Panic
        case Some(c) =>
          var st' := st.(interruptingIrq := None, interruptingCtx := None);
          if c == 0 then Ok((st', WithMipBit(csr, MIP_MEIP_POS, 0)))
          else if c == 1 then Ok((st', WithMipBit(csr, MIP_SEIP_POS, 0)))
          else Panic
  }

  /** A write of the threshold/claim block. */
  function ContextWrite(st: PlicState, off: nat, value: bv32, csr: Csr): (r: Outcome<(PlicState, Csr)>)
    requires st.Valid() && off >= PLIC_THRESHOLD_BASE
    ensures r.Ok? ==> r.value.0.Valid()
  {
    var c := ThresholdCtx(off);
    if c > 1 then Panic
    else if ClaimBit(off) then Complete(st, value, csr)
    else Ok((st.(thresholds := st.thresholds[c := value]), csr))
  }

  /** `Plic::write`: the new state and CSR value. Anything but a 4-byte
      access, an index past the source's arrays, and any offset outside the
      three blocks panics. */
  function WriteSpec(st: PlicState, offset: nat, size: bv32, value: bv32, csr: Csr)
    : (r: Outcome<(PlicState, Csr)>)
    requires st.Valid()
    ensures r.Ok? ==> r.value.0.Valid()
  {
    if size != 4 then Panic
    else if PLIC_PRIORITY_BASE <= offset < PLIC_PRIORITY_END then
      var st' :- PriorityWrite(st, offset, value);
      Ok((st', csr))
    else if PLIC_ENABLE_BASE <= offset < PLIC_ENABLE_END then
      var st' :- EnableWrite(st, offset, value);
      Ok((st', csr))
    else if PLIC_THRESHOLD_BASE <= offset < PLIC_CLAIM_END then ContextWrite(st, offset, value, csr)
    else Panic
  }

  /** A claim returns 0 when nothing is delivered; otherwise it returns the
      delivered source and clears its pending bit, keeping it delivered. */
  lemma ClaimResult(st: PlicState, c: nat)
    requires st.Valid() && c < PLIC_CONTEXT_NUM
    ensures var offset := PLIC_THRESHOLD_BASE + c * PLIC_THRESHOLD_UNIT + 4;
      (st.interruptingIrq.None? ==> ReadSpec(st, offset, 4) == Ok((0, st))) &&
      (st.interruptingIrq.Some? ==>
         var irq := st.interruptingIrq.value;
         ReadSpec(st, offset, 4) == Ok((IrqWord(irq), UnsetPending(st, irq))) &&
         !IsPending(UnsetPending(st, irq), IrqNumber(irq)) &&
         UnsetPending(st, irq).interruptingIrq == Some(irq))
  {
    var offset := PLIC_THRESHOLD_BASE + c * PLIC_THRESHOLD_UNIT + 4;
    assert ThresholdCtx(offset) == c && ClaimBit(offset);
    if st.interruptingIrq.Some? {
      PendingBits(st, st.interruptingIrq.value, 0);
    }
  }

  /** Completing the delivered source ends the delivery and clears mip.MEIP
      (context 0) or mip.SEIP (context 1); completing anything else changes
      nothing. */
  lemma CompleteResult(st: PlicState, c: nat, value: bv32, csr: Csr)
    requires st.Valid() && st.interruptingIrq.Some? && c < PLIC_CONTEXT_NUM
    requires st.interruptingCtx == Some(0) || st.interruptingCtx == Some(1)
    ensures var offset := PLIC_THRESHOLD_BASE + c * PLIC_THRESHOLD_UNIT + 4;
      var r := WriteSpec(st, offset, 4, value, csr);
      (IrqWord(st.interruptingIrq.value) != value ==> r == Ok((st, csr))) &&
      (IrqWord(st.interruptingIrq.value) == value ==>
         r.Ok? && r.value.0 == st.(interruptingIrq := None, interruptingCtx := None) &&
         r.value.1 == WithMipBit(csr, if st.interruptingCtx == Some(0) then MIP_MEIP_POS else MIP_SEIP_POS, 0))
  {
    var offset := PLIC_THRESHOLD_BASE + c * PLIC_THRESHOLD_UNIT + 4;
    assert ThresholdCtx(offset) == c && ClaimBit(offset);
  }

  /** Priority, enable and threshold writes store the value in the slot the
      offset names and change nothing else; enable and threshold reads return
      that slot. */
  lemma RegisterAccess(st: PlicState, value: bv32, csr: Csr, i: nat, c: nat)
    requires st.Valid() && i < PLIC_NUM && c < PLIC_CONTEXT_NUM
    ensures WriteSpec(st, 4 * i, 4, value, csr) ==
      Ok((st.(priorities := st.priorities[i := value]), csr))
    ensures WriteSpec(st, PLIC_ENABLE_BASE + c * PLIC_ENABLE_UNIT, 4, value, csr) ==
      Ok((st.(enables := st.enables[c := [value]]), csr))
    ensures WriteSpec(st, PLIC_THRESHOLD_BASE + c * PLIC_THRESHOLD_UNIT, 4, value, csr) ==
      Ok((st.(thresholds := st.thresholds[c := value]), csr))
    ensures ReadSpec(st, PLIC_ENABLE_BASE + c * PLIC_ENABLE_UNIT, 4) == Ok((st.enables[c][0], st))
    ensures ReadSpec(st, PLIC_THRESHOLD_BASE + c * PLIC_THRESHOLD_UNIT, 4) == Ok((st.thresholds[c], st))
  {
    var e := PLIC_ENABLE_BASE + c * PLIC_ENABLE_UNIT;
    assert EnableCtx(e) == c && EnableIdx(e) == 0;
    assert st.enables[c][0 := value] == [value];
    var t := PLIC_THRESHOLD_BASE + c * PLIC_THRESHOLD_UNIT;
    assert ThresholdCtx(t) == c && !ClaimBit(t);
  }

  /** A priority past source 31, an enable word past the first, a context
      past 1, and the unimplemented priority reads all panic. */
  lemma OutOfRangePanics(st: PlicState, value: bv32, csr: Csr, i: nat, w: nat, c: nat)
    requires st.Valid() && PLIC_NUM <= i < PLIC_MAX_NUM && 1 <= w < 32 && 2 <= c < PLIC_CONTEXT_MAX_NUM
    ensures WriteSpec(st, 4 * i, 4, value, csr) == Panic
    ensures WriteSpec(st, PLIC_ENABLE_BASE + 4 * w, 4, value, csr) == Panic
    ensures ReadSpec(st, PLIC_ENABLE_BASE + 4 * w, 4) == Panic
    ensures WriteSpec(st, PLIC_ENABLE_BASE + c * PLIC_ENABLE_UNIT, 4, value, csr) == Panic
    ensures WriteSpec(st, PLIC_THRESHOLD_BASE + c * PLIC_THRESHOLD_UNIT, 4, value, csr) == Panic
    ensures ReadSpec(st, 4 * i, 4) == Panic
  {
    assert EnableCtx(PLIC_ENABLE_BASE + 4 * w) == 0 && EnableIdx(PLIC_ENABLE_BASE + 4 * w) == w;
    assert EnableCtx(PLIC_ENABLE_BASE + c * PLIC_ENABLE_UNIT) == c;
    assert ThresholdCtx(PLIC_THRESHOLD_BASE + c * PLIC_THRESHOLD_UNIT) == c;
  }

  /** Only 4-byte accesses are implemented. */
  lemma OnlyWordAccess(st: PlicState, offset: nat, size: bv32, value: bv32, csr: Csr)
    requires st.Valid() && size != 4
    ensures ReadSpec(st, offset, size) == Panic
    ensures WriteSpec(st, offset, size, value, csr) == Panic
  {
  }

  /** `Plic`, with the source's array fields updated in place. */
  class Plic {
    var priorities: seq<bv32>
    var pending: seq<bv32>
    var enables: seq<seq<bv32>>
    var thresholds: seq<bv32>
    var interruptingIrq: Option<IRQ>
    var interruptingCtx: Option<nat>

    function State(): PlicState
      reads this
    {
      PlicState(priorities, pending, enables, thresholds, interruptingIrq, interruptingCtx)
    }

    predicate Valid()
      reads this
    {
      State().Valid()
    }

    /** `Plic::default`. */
    constructor ()
      ensures Valid() && State() == Initial
    {
      priorities := seq(PLIC_NUM, _ => 0);
      pending := [0];
      enables := [[0], [0]];
      thresholds := [0, 0];
      interruptingIrq := None;
      interruptingCtx := None;
    }

    /** `set_pending`. */
    method SetPendingIrq(irq: IRQ)
      requires Valid()
      modifies this
      ensures Valid() && State() == SetPending(old(State()), irq)
    {
      var n := IrqNumber(irq);
      var idx := n / 32;
      var bit := BitOf(n % 32);
      pending := pending[idx := SetBits(pending[idx], bit)];
    }

    /** `unset_pending`. */
    method UnsetPendingIrq(irq: IRQ)
      requires Valid()
      modifies this
      ensures Valid() && State() == UnsetPending(old(State()), irq)
    {
      var n := IrqNumber(irq);
      var idx := n / 32;
      var bit := BitOf(n % 32);
      pending := pending[idx := ClearBits(pending[idx], bit)];
    }

    /** `find_interrupt_active` with the priority comparison it evidently
        intends: the scan over sources and, for a pending one, over
        contexts. */
    method FindInterruptActive() returns (r: Outcome<Found>)
      requires Valid()
      ensures r == Scan(State(), PLIC_NUM)
    {
      var st := State();
      var maxPriority: bv32 := 0;
      var targetIrq := NoIrq;
      var targetCtx := 0;
      for n := 0 to PLIC_NUM
        invariant Scan(st, n) == Ok(Found(maxPriority, targetIrq, targetCtx))
      {
        if !IsPending(st, n) {
          ScanCtxFull(st, n);
          continue;
        }
        for c := 0 to PLIC_CONTEXT_NUM
          invariant ScanCtx(st, n, c) == Ok(Found(maxPriority, targetIrq, targetCtx))
        {
          // Enabled in context `c`, above its threshold, and above the best so far.
          if Candidate(st, n, c) && Above(st.priorities[n], maxPriority) {
            var irq := IrqFrom(n);
            if !irq.Ok? {
              ScanPanicPersists(st, n, c + 1);
              return Panic;
            }
            maxPriority := st.priorities[n];
            targetIrq := irq.value;
            targetCtx := c;
          }
        }
        ScanCtxFull(st, n);
      }
      r := Ok(Found(maxPriority, targetIrq, targetCtx));
    }

    /** `raise_interrupt`. */
    method RaiseInterrupt() returns (r: Outcome<Option<Priv>>)
      requires Valid()
      modifies this
      ensures Valid()
      ensures !Scan(old(State()), PLIC_NUM).Ok? ==> r == Panic
      ensures Scan(old(State()), PLIC_NUM).Ok? ==>
        var out := Raise(old(State()), Scan(old(State()), PLIC_NUM).value);
        r == First(out) && (out.Ok? ==> State() == out.value.1)
    {
      var found := FindInterruptActive();
      if !found.Ok? {
        return Panic;
      }
      var f := found.value;
      if f.irq == NoIrq {
        return Ok(None);
      }
      interruptingIrq := Some(f.irq);
      interruptingCtx := Some(f.ctx);
      if f.ctx == 0 {
        r := Ok(Some(Machine));
      } else if f.ctx == 1 {
        r := Ok(Some(Supervisor));
      } else {
        r := Panic;
      }
    }

    /** `lower_interrupt`. */
    method LowerInterrupt() returns (r: Outcome<IRQ>)
      requires Valid()
      modifies this
      ensures Valid()
      ensures r == First(Lower(old(State())))
      ensures r.Ok? ==> State() == Lower(old(State())).value.1
    {
      if interruptingIrq.None? {
        return Panic;
      }
      var irq := interruptingIrq.value;
      UnsetPendingIrq(irq);
      r := Ok(irq);
    }

    /** `Plic::read`. */
    method Read(offset: nat, size: bv32) returns (r: Outcome<bv32>)
      requires Valid()
      modifies this
      ensures Valid()
      ensures r == First(ReadSpec(old(State()), offset, size))
      ensures r.Ok? ==> State() == ReadSpec(old(State()), offset, size).value.1
    {
      if size != 4 {
        return Panic;
      }
      if PLIC_ENABLE_BASE <= offset < PLIC_ENABLE_END {
        var c := EnableCtx(offset);
        var idx := EnableIdx(offset);
        if c > 1 || idx >= |enables[c]| {
          return Panic;
        }
        return Ok(enables[c][idx]);
      } else if PLIC_THRESHOLD_BASE <= offset < PLIC_CLAIM_END {
        var c := ThresholdCtx(offset);
        if c > 1 {
          return Panic;
        }
        if ClaimBit(offset) {
          if interruptingIrq.None? {
            return Ok(0);
          }
          var irq := LowerInterrupt();
          return Ok(IrqWord(irq.value));
        }
        return Ok(thresholds[c]);
      }
      return Panic;
    }

    /** `Plic::write`. */
    method Write(offset: nat, size: bv32, value: bv32, csr: Csr) returns (r: Outcome<Csr>)
      requires Valid()
      modifies this
      ensures Valid()
      ensures r == Second(WriteSpec(old(State()), offset, size, value, csr))
      ensures r.Ok? ==> State() == WriteSpec(old(State()), offset, size, value, csr).value.0
    {
      if size != 4 {
        return Panic;
      }
      if PLIC_PRIORITY_BASE <= offset < PLIC_PRIORITY_END {
        var idx := (offset - PLIC_PRIORITY_BASE) / 4;
        if idx >= |priorities| {
          return Panic;
        }
        priorities := priorities[idx := value];
      } else if PLIC_ENABLE_BASE <= offset < PLIC_ENABLE_END {
        var c := EnableCtx(offset);
        var idx := EnableIdx(offset);
        if c > 1 || idx >= |enables[c]| {
          return Panic;
        }
        enables := enables[c := enables[c][idx := value]];
      } else if PLIC_THRESHOLD_BASE <= offset < PLIC_CLAIM_END {
        var c := ThresholdCtx(offset);
        if c > 1 {
          return Panic;
        }
        if ClaimBit(offset) {
          if interruptingIrq.None? {
            return Panic;
          }
          var irq := interruptingIrq.value;
          if IrqWord(irq) == value {
            if interruptingCtx.None? {
              return Panic;
            }
            var iCtx := interruptingCtx.value;
            interruptingCtx := None;
            interruptingIrq := None;
            if iCtx == 0 {
              return Ok(WithMipBit(csr, MIP_MEIP_POS, 0));
            } else if iCtx == 1 {
              return Ok(WithMipBit(csr, MIP_SEIP_POS, 0));
            } else {
              return Panic;
            }
          }
        } else {
          thresholds := thresholds[c := value];
        }
      } else {
        return Panic;
      }
      r := Ok(csr);
    }
  }
}
