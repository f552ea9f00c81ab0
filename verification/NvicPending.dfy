/** The interrupt controller's 128-bit pending and enabled sets: what is raised,
    held back, dispatched and enabled over whole runs. */
module NvicPending {
  import opened Bits

  type wide = x: int | 0 <= x < 0x1_0000_0000_0000_0000_0000_0000_0000_0000

  const IRQ_OFFSET: int := 16
  const SYSTICK: int := -1
  const SVCALL: int := -5

  const ISER_OFFSET: nat := 0x100
  const ICER_OFFSET: nat := 0x180
  const ENABLE_WORDS: nat := 4

  /** What happened to the controller, in order. Exceptions are bit numbers. */
  datatype Entry =
    | Raised(bit: nat)
    | Dispatched(bit: nat)
    | EnableSet(index: nat, value: word)
    | EnableCleared(index: nat, value: word)
    | SysTickFired(at: long, period: word)

  datatype History = Nothing | After(earlier: History, entry: Entry)

  datatype Controller = Controller(
    pending: wide,
    enabled: wide,
    inInterrupt: bool,
    systickPeriod: Option<word>,
    lastSystickTrigger: long,
    activeException: nat,
    history: History)

  function Reset(): Controller {
    Controller(0, 0, false, None, 0, 0, Nothing)
  }

  function Note(s: Controller, e: Entry): Controller {
    s.(history := After(s.history, e))
  }

  // ---- 128-bit words ----

  lemma {:induction false} WideBits(v: nat)
    ensures v < 0x1_0000_0000_0000_0000_0000_0000_0000_0000 <==> v < Pow2(128)
  {
    assert Pow2(8) == 0x100;
    assert Pow2(16) == 0x100 * Pow2(8);
    assert Pow2(24) == 0x100 * Pow2(16);
    assert Pow2(32) == 0x100 * Pow2(24);
    Pow2Adds(32, 32);
    Pow2Adds(64, 64);
  }

  lemma {:induction false} Pow2Adds(a: nat, b: nat)
    ensures Pow2(a + b) == Pow2(a) * Pow2(b)
    decreases b
  {
    if b != 0 {
      Pow2Adds(a, b - 1);
    }
  }

  /** A word all of whose bits lie below 128 fits. */
  function Wide(v: nat): (r: wide)
    requires forall j: nat :: Bit(v, j) ==> j < 128
    ensures r == v
  {
    FitsWidth(v, 128);
    WideBits(v);
    v
  }

  lemma {:induction false} WideHasLowBits(v: wide)
    ensures forall j: nat :: Bit(v, j) ==> j < 128
  {
    WideBits(v);
    HighBitsClear(v, 128);
  }

  lemma {:induction false} WordHasLowBits(v: word)
    ensures forall j: nat :: Bit(v, j) ==> j < 32
  {
    WordBits(v);
    HighBitsClear(v, 32);
  }

  // ---- Raising ----

  /** The exception an interrupt number pends: the shift count of a 128-bit word is
      taken modulo 128. */
  function ExceptionOf(irq: int): (bit: nat)
    requires -IRQ_OFFSET < irq
    ensures bit < 128 && (irq < 112 ==> bit == IRQ_OFFSET + irq)
  {
    (IRQ_OFFSET + irq) % 128
  }

  /** `pending |= 1 << (16 + irq)` */
  function SetPending(s: Controller, irq: int): Controller
    requires -IRQ_OFFSET < irq
  {
    WideHasLowBits(s.pending);
    Note(s.(pending := Wide(SetBit(s.pending, ExceptionOf(irq)))), Raised(ExceptionOf(irq)))
  }

  /** A write to the software trigger register. */
  function WriteStir(s: Controller, offset: word, value: word): Controller {
    if offset == 0 then SetPending(s, value % 0x200) else s
  }

  /** STIR pends the interrupt it names exactly when the number is below 112; its
      nine bits allow more, and those pend another exception, some of them
      architectural. Its other offsets are not written. */
  lemma {:induction false} StirPendsIff(s: Controller, value: word)
    ensures var (t, irq) := (WriteStir(s, 0, value), value % 0x200);
            && (forall j: nat :: Bit(t.pending, j) <==> Bit(s.pending, j) || j == ExceptionOf(irq))
            && (ExceptionOf(irq) == IRQ_OFFSET + irq <==> irq < 112)
            && (forall offset: word :: offset != 0 ==> WriteStir(s, offset, value) == s)
            && t.enabled == s.enabled && t.inInterrupt == s.inInterrupt
  {
    WideHasLowBits(s.pending);
  }

  /** For instance 123 pends SVCall, exception 11. */
  lemma {:induction false} StirMayPendSvcall(s: Controller)
    ensures Bit(WriteStir(s, 0, 123).pending, 11)
  {
    hide Bit, WriteStir;
    StirPendsIff(s, 123);
    assert ExceptionOf(123) == 11;
  }

  function MaybeSystick(s: Controller, now: long): Controller
    requires s.lastSystickTrigger <= now
  {
    match s.systickPeriod
    case Some(period) =>
      if now - s.lastSystickTrigger > period
      then SetPending(Note(s.(lastSystickTrigger := now), SysTickFired(now, period)), SYSTICK)
      else s
    case None => s
  }

  // ---- Dispatching ----

  /** Architectural exceptions, and the external ones that are enabled. The
      shift drops the enable bits that do not fit. */
  function DispatchMask(enabled: wide): nat {
    Or(0xffff, Low(Shl(enabled, 16), 128))
  }

  predicate Eligible(s: Controller, bit: nat) {
    Bit(s.pending, bit) && (bit < 16 || Bit(s.enabled, bit - 16))
  }

  function Dispatchable(s: Controller): nat {
    And(s.pending, DispatchMask(s.enabled))
  }

  lemma {:induction false} DispatchableIsEligible(s: Controller)
    ensures forall j: nat :: Bit(Dispatchable(s), j) <==> Eligible(s, j)
  {
    assert Pow2(8) == 256;
    assert Pow2(16) == 256 * Pow2(8);
    Ones(16, 0xffff);
    WideHasLowBits(s.pending);
  }

  function TakeNext(s: Controller): Controller {
    if Dispatchable(s) == 0 then s
    else
      var bit := TrailingZeros(Dispatchable(s));
      WideHasLowBits(s.pending);
      Note(s.(pending := Wide(ClearBit(s.pending, bit))), Dispatched(bit))
  }

  function NextIrq(s: Controller): Option<int> {
    if Dispatchable(s) == 0 then None else Some(TrailingZeros(Dispatchable(s)) - IRQ_OFFSET)
  }

  function Entered(s: Controller, irq: int): Controller
    requires irq >= -IRQ_OFFSET
  {
    s.(inInterrupt := true, activeException := IRQ_OFFSET + irq)
  }

  /** `masked`: PRIMASK or BASEPRI is set; `inItBlock`: ITSTATE is not zero. */
  predicate HeldBack(s: Controller, masked: bool, inItBlock: bool) {
    s.pending == 0 || s.inInterrupt || masked || inItBlock
  }

  function RunPending(s: Controller, now: long, masked: bool, inItBlock: bool): Controller
    requires s.lastSystickTrigger <= now
  {
    var t := MaybeSystick(s, now);
    if HeldBack(t, masked, inItBlock) || NextIrq(t).None? then t else Entered(TakeNext(t), NextIrq(t).value)
  }

  /** Exactly the lowest-numbered eligible exception is removed, and only when
      nothing holds dispatch back; otherwise nothing is removed. */
  lemma {:induction false} DispatchesLowestEligible(s: Controller, now: long, masked: bool, inItBlock: bool)
    requires s.lastSystickTrigger <= now
    ensures var (t, r) := (MaybeSystick(s, now), RunPending(s, now, masked, inItBlock));
            if t.inInterrupt || masked || inItBlock || (forall j: nat :: !Eligible(t, j)) then r == t
            else exists bit: nat :: Lowest(t, r, bit) && r.history == After(t.history, Dispatched(bit))
  {
    var t := MaybeSystick(s, now);
    DispatchableIsEligible(t);
    var d := Dispatchable(t);
    if d == 0 {
      assert forall j: nat :: !Bit(0, j);
    } else {
      var bit := TrailingZeros(d);
      assert Eligible(t, bit);
      assert t.pending != 0 by {
        assert Bit(t.pending, bit) && !Bit(0, bit);
      }
      if !t.inInterrupt && !masked && !inItBlock {
        assert Lowest(t, RunPending(s, now, masked, inItBlock), bit);
      }
    }
  }

  // ---- Entry without the queue, and return ----

  function SvCall(s: Controller): Controller {
    Entered(s, SVCALL)
  }

  function Returned(s: Controller): Controller {
    s.(inInterrupt := false, activeException := 0)
  }

  // ---- Enable registers ----

  function EnableWord(base: nat, offset: word): Option<nat> {
    if base <= offset < base + ENABLE_WORDS * 4 && (offset - base) % 4 == 0 then Some((offset - base) / 4) else None
  }

  /** A word value placed at its index, as the source's shift into a `u128`. */
  function Placed(value: word, index: nat): nat {
    Shl(value, 32 * index)
  }

  function WriteEnable(s: Controller, offset: word, value: word): Controller {
    match EnableWord(ISER_OFFSET, offset)
    case Some(index) =>
      WideHasLowBits(s.enabled);
      WordHasLowBits(value);
      Note(s.(enabled := Wide(Or(s.enabled, Placed(value, index)))), EnableSet(index, value))
    case None =>
      match EnableWord(ICER_OFFSET, offset)
      case Some(index) => Note(s.(enabled := AndNot(s.enabled, Placed(value, index))), EnableCleared(index, value))
      case None => s
  }

  function EnabledWord(enabled: wide, index: nat): (r: word) {
    WordBits(Low(Shr(enabled, 32 * index), 32));
    Low(Shr(enabled, 32 * index), 32)
  }

  // ---- Invariants over runs ----

  /** The latest of the raises and dispatches of `bit` was a raise. */
  predicate Outstanding(h: History, bit: nat) {
    match h
    case After(p, Raised(b)) => b == bit || Outstanding(p, bit)
    case After(p, Dispatched(b)) => b != bit && Outstanding(p, bit)
    case After(p, _) => Outstanding(p, bit)
    case Nothing => false
  }

  /** Whether a write to word `index` carries the bit of `irq`. */
  predicate Carries(index: nat, value: word, irq: nat) {
    32 * index <= irq && Bit(value, irq - 32 * index)
  }

  /** The latest write that carried the bit of `irq` went to ISER. */
  predicate LastSet(h: History, irq: nat) {
    match h
    case After(p, EnableSet(index, value)) => Carries(index, value, irq) || LastSet(p, irq)
    case After(p, EnableCleared(index, value)) => !Carries(index, value, irq) && LastSet(p, irq)
    case After(p, _) => LastSet(p, irq)
    case Nothing => false
  }

  function LastFire(h: History): nat {
    match h
    case After(p, SysTickFired(at, _)) => at
    case After(p, _) => LastFire(p)
    case Nothing => 0
  }

  /** Every SysTick raise came more than one period after the previous one. */
  ghost predicate Spaced(h: History) {
    match h
    case After(p, SysTickFired(at, period)) => Spaced(p) && at > LastFire(p) + period
    case After(p, _) => Spaced(p)
    case Nothing => true
  }

  ghost predicate ControllerInv(s: Controller) {
    && (forall bit: nat :: Bit(s.pending, bit) <==> Outstanding(s.history, bit))
    && (forall irq: nat :: Bit(s.enabled, irq) <==> LastSet(s.history, irq))
    && Spaced(s.history)
    && s.lastSystickTrigger == LastFire(s.history)
  }

  datatype Event =
    | Raise(irq: int)
    | SetSystickPeriod(period: Option<word>)
    | Boundary(now: long, masked: bool, inItBlock: bool) // run_pending_interrupts
    | EnableWrite(offset: word, value: word)
    | Svc
    | ExceptionReturn

  /** Numbers name an exception after the reset one and the clock does not run back. */
  predicate Possible(s: Controller, e: Event) {
    && (e.Raise? ==> -IRQ_OFFSET < e.irq)
    && (e.Boundary? ==> s.lastSystickTrigger <= e.now)
  }

  function Step(s: Controller, e: Event): Controller
    requires Possible(s, e)
  {
    match e
    case Raise(irq) => SetPending(s, irq)
    case SetSystickPeriod(period) => s.(systickPeriod := period)
    case Boundary(now, masked, inItBlock) => RunPending(s, now, masked, inItBlock)
    case EnableWrite(offset, value) => WriteEnable(s, offset, value)
    case Svc => SvCall(s)
    case ExceptionReturn => Returned(s)
  }

  lemma {:induction false} RaiseKeeps(s: Controller, irq: int)
    requires ControllerInv(s) && -IRQ_OFFSET < irq
    ensures ControllerInv(SetPending(s, irq))
  {
  }

  lemma {:induction false} SystickKeeps(s: Controller, now: long)
    requires ControllerInv(s) && s.lastSystickTrigger <= now
    ensures ControllerInv(MaybeSystick(s, now))
  {
    if s.systickPeriod.Some? && now - s.lastSystickTrigger > s.systickPeriod.value {
      var t := Note(s.(lastSystickTrigger := now), SysTickFired(now, s.systickPeriod.value));
      assert ControllerInv(t);
      RaiseKeeps(t, SYSTICK);
    }
  }

  lemma {:induction false} TakeKeeps(s: Controller)
    requires ControllerInv(s)
    ensures ControllerInv(TakeNext(s))
  {
  }

  lemma {:induction false} PlacedBits(value: word, index: nat)
    ensures forall irq: nat :: Bit(Placed(value, index), irq) <==> Carries(index, value, irq)
  {
  }

  lemma {:induction false} EnableKeeps(s: Controller, offset: word, value: word)
    requires ControllerInv(s)
    ensures ControllerInv(WriteEnable(s, offset, value))
  {
    hide EnableWord, Carries, Placed, Bit;
    var (iser, icer) := (EnableWord(ISER_OFFSET, offset), EnableWord(ICER_OFFSET, offset));
    if iser.Some? {
      PlacedBits(value, iser.value);
    } else if icer.Some? {
      PlacedBits(value, icer.value);
    }
  }

  lemma {:induction false} StepKeeps(s: Controller, e: Event)
    requires ControllerInv(s) && Possible(s, e)
    ensures ControllerInv(Step(s, e))
  {
    hide SetPending, MaybeSystick, TakeNext, WriteEnable;
    match e
    case Raise(irq) => RaiseKeeps(s, irq);
    case Boundary(now, _, _) =>
      SystickKeeps(s, now);
      TakeKeeps(MaybeSystick(s, now));
    case EnableWrite(offset, value) => EnableKeeps(s, offset, value);
    case _ =>
  }

  ghost predicate PossibleRun(events: seq<Event>)
    decreases |events|, 0
  {
    events != [] ==>
      PossibleRun(events[..|events| - 1]) && Possible(Run(events[..|events| - 1]), events[|events| - 1])
  }

  ghost function Run(events: seq<Event>): Controller
    requires PossibleRun(events)
    decreases |events|, 1
  {
    if events == [] then Reset() else Step(Run(events[..|events| - 1]), events[|events| - 1])
  }

  /** Over any run: an exception is pending exactly when it was raised after its
      last dispatch, an interrupt is enabled exactly when the last write that
      carried its bit went to ISER, and SysTick raises are more than one period
      apart. */
  lemma {:induction false} NothingLost(events: seq<Event>)
    requires PossibleRun(events)
    ensures ControllerInv(Run(events))
    decreases |events|
  {
    if events == [] {
      assert forall j: nat :: !Bit(0, j);
    } else {
      NothingLost(events[..|events| - 1]);
      StepKeeps(Run(events[..|events| - 1]), events[|events| - 1]);
    }
  }

  /** What firmware reads back from either enable bank. */
  lemma {:induction false} EnableReadback(s: Controller, index: nat)
    requires index < ENABLE_WORDS && ControllerInv(s)
    ensures forall j: nat :: Bit(EnabledWord(s.enabled, index), j) <==> j < 32 && LastSet(s.history, 32 * index + j)
  {
  }

  // ---- Everything read off the events ----

  /** The last period set. */
  ghost function PeriodAfter(events: seq<Event>): Option<word>
    decreases |events|
  {
    if events == [] then None
    else
      match events[|events| - 1]
      case SetSystickPeriod(period) => period
      case _ => PeriodAfter(events[..|events| - 1])
  }

  /** When SysTick last fired. */
  ghost function FiredAt(events: seq<Event>): int
    decreases |events|, 0
  {
    if events == [] then 0
    else if Fires(events) then events[|events| - 1].now
    else FiredAt(events[..|events| - 1])
  }

  /** The last event is a block boundary more than a period after that. */
  ghost predicate Fires(events: seq<Event>)
    requires events != []
    decreases |events| - 1, 1
  {
    var front, last := events[..|events| - 1], events[|events| - 1];
    last.Boundary? && PeriodAfter(front).Some? && last.now - FiredAt(front) > PeriodAfter(front).value
  }

  /** An interrupt is enabled when the last write that carried its bit went to 0x100 to
      0x10c, and not to 0x180 to 0x18c. */
  ghost predicate EnabledAfter(events: seq<Event>, irq: nat)
    decreases |events|
  {
    events != [] &&
    var front := events[..|events| - 1];
    match events[|events| - 1]
    case EnableWrite(offset, value) =>
      if irq < 128 && Bit(value, irq % 32) && offset == 0x100 + irq / 32 * 4 then true
      else if irq < 128 && Bit(value, irq % 32) && offset == 0x180 + irq / 32 * 4 then false
      else EnabledAfter(front, irq)
    case _ => EnabledAfter(front, irq)
  }

  /** A boundary may take exception `bit`: pending, or SysTick (15) just fired, and enabled
      unless it is one of the first sixteen. */
  ghost predicate MayTake(events: seq<Event>, bit: nat)
    requires events != []
    decreases |events| - 1, 3
  {
    var front := events[..|events| - 1];
    && (PendingAfter(front, bit) || (bit == 15 && Fires(events)))
    && (bit < 16 || EnabledAfter(front, bit - 16))
  }

  /** It takes the lowest, unless a handler is running, interrupts are masked, or the
      boundary lies inside an IT block. */
  ghost predicate Takes(events: seq<Event>, bit: nat)
    requires events != []
    decreases |events| - 1, 4
  {
    var (front, last) := (events[..|events| - 1], events[|events| - 1]);
    && last.Boundary? && !last.masked && !last.inItBlock && ActiveAfter(front).None?
    && MayTake(events, bit) && forall j: nat :: j < bit ==> !MayTake(events, j)
  }

  ghost predicate PendingAfter(events: seq<Event>, bit: nat)
    decreases |events|, 2
  {
    events != [] &&
    var front := events[..|events| - 1];
    match events[|events| - 1]
    case Raise(irq) => bit == (16 + irq) % 128 || PendingAfter(front, bit)
    case Boundary(_, _, _) => (PendingAfter(front, bit) || (bit == 15 && Fires(events))) && !Takes(events, bit)
    case _ => PendingAfter(front, bit)
  }

  /** The exception whose handler runs; SVC is number 11. */
  ghost function ActiveAfter(events: seq<Event>): Option<nat>
    decreases |events|, 2
  {
    if events == [] then None
    else
      var front := events[..|events| - 1];
      match events[|events| - 1]
      case Svc => Some(11)
      case ExceptionReturn => None
      case Boundary(_, _, _) =>
        if exists bit: nat :: Takes(events, bit) then Some(TakenBit(events)) else ActiveAfter(front)
      case _ => ActiveAfter(front)
  }

  ghost function TakenBit(events: seq<Event>): (bit: nat)
    requires events != [] && exists bit: nat :: Takes(events, bit)
    ensures Takes(events, bit)
    decreases |events| - 1, 5
  {
    var bit: nat :| Takes(events, bit);
    bit
  }

  ghost predicate AsRead(s: Controller, events: seq<Event>) {
    && (forall bit: nat :: Bit(s.pending, bit) <==> PendingAfter(events, bit))
    && (forall irq: nat :: Bit(s.enabled, irq) <==> EnabledAfter(events, irq))
    && s.systickPeriod == PeriodAfter(events) && s.lastSystickTrigger == FiredAt(events)
    && (s.inInterrupt <==> ActiveAfter(events).Some?)
    && s.activeException == if ActiveAfter(events).Some? then ActiveAfter(events).value else 0
  }

  lemma {:induction false} EnableAsRead(s: Controller, offset: word, value: word, irq: nat)
    ensures Bit(WriteEnable(s, offset, value).enabled, irq)
            <==> if irq < 128 && Bit(value, irq % 32) && offset == 0x100 + irq / 32 * 4 then true
                 else if irq < 128 && Bit(value, irq % 32) && offset == 0x180 + irq / 32 * 4 then false
                 else Bit(s.enabled, irq)
  {
    hide Placed, Bit;
    var (iser, icer) := (EnableWord(ISER_OFFSET, offset), EnableWord(ICER_OFFSET, offset));
    WordHasLowBits(value);
    if iser.Some? {
      PlacedBits(value, iser.value);
      CarriedBit(iser.value, value, irq);
    } else if icer.Some? {
      PlacedBits(value, icer.value);
      CarriedBit(icer.value, value, irq);
    }
  }

  lemma {:induction false} CarriedBit(index: nat, value: word, irq: nat)
    requires forall j: nat :: Bit(value, j) ==> j < 32
    ensures Carries(index, value, irq) <==> irq / 32 == index && Bit(value, irq % 32)
  {
    hide Bit;
    if Carries(index, value, irq) {
      assert irq - 32 * index < 32;
    }
  }

  /** After SysTick has had its turn. */
  lemma {:induction false} BoundaryFires(s: Controller, events: seq<Event>)
    requires events != [] && events[|events| - 1].Boundary? && AsRead(s, events[..|events| - 1])
    requires s.lastSystickTrigger <= events[|events| - 1].now
    ensures var t := MaybeSystick(s, events[|events| - 1].now);
            && t.lastSystickTrigger == FiredAt(events) && t.systickPeriod == s.systickPeriod && t.enabled == s.enabled
            && t.inInterrupt == s.inInterrupt && t.activeException == s.activeException
            && (forall j: nat :: Bit(t.pending, j) <==>
                  PendingAfter(events[..|events| - 1], j) || (j == 15 && Fires(events)))
            && (forall j: nat :: Eligible(t, j) <==> MayTake(events, j))
  {
    hide Bit, PendingAfter, EnabledAfter, ActiveAfter, PeriodAfter;
    var t := MaybeSystick(s, events[|events| - 1].now);
    forall j: nat
      ensures Eligible(t, j) <==> MayTake(events, j)
    {
      if j >= 16 {
        assert Bit(t.enabled, j - 16) <==> EnabledAfter(events[..|events| - 1], j - 16);
      }
    }
  }

  lemma {:induction false} BoundaryAsRead(s: Controller, events: seq<Event>)
    requires events != [] && events[|events| - 1].Boundary? && AsRead(s, events[..|events| - 1])
    requires s.lastSystickTrigger <= events[|events| - 1].now
    ensures AsRead(Step(s, events[|events| - 1]), events)
  {
    hide Bit, MaybeSystick, TakeNext, NextIrq, Fires, FiredAt, MayTake, EnabledAfter, PeriodAfter;
    var (now, masked, it) := (events[|events| - 1].now, events[|events| - 1].masked, events[|events| - 1].inItBlock);
    var t := MaybeSystick(s, now);
    BoundaryFires(s, events);
    DispatchesLowestEligible(s, now, masked, it);
    PeriodKept(events);
    var r := RunPending(s, now, masked, it);
    ClockKept(t, s, now, masked, it);
    if !t.inInterrupt && !masked && !it && exists j: nat :: Eligible(t, j) {
      BoundaryTakes(t, r, events);
    } else {
      assert forall bit: nat :: !Takes(events, bit);
      NothingTaken(t, events);
    }
  }

  lemma {:induction false} ClockKept(t: Controller, s: Controller, now: long, masked: bool, inItBlock: bool)
    requires s.lastSystickTrigger <= now && t == MaybeSystick(s, now)
    ensures var r := RunPending(s, now, masked, inItBlock);
            r.systickPeriod == t.systickPeriod && r.lastSystickTrigger == t.lastSystickTrigger
  {
    hide MaybeSystick, Dispatchable, ClearBit;
  }

  lemma {:induction false} NothingTaken(t: Controller, events: seq<Event>)
    requires events != [] && events[|events| - 1].Boundary? && forall bit: nat :: !Takes(events, bit)
    requires forall j: nat :: Bit(t.pending, j) <==>
               PendingAfter(events[..|events| - 1], j) || (j == 15 && Fires(events))
    ensures forall j: nat :: Bit(t.pending, j) <==> PendingAfter(events, j)
    ensures ActiveAfter(events) == ActiveAfter(events[..|events| - 1])
  {
    hide Bit, Fires, Takes;
  }

  /** The dispatched exception is the one the events name. */
  lemma {:induction false} BoundaryTakes(t: Controller, r: Controller, events: seq<Event>)
    requires events != [] && events[|events| - 1].Boundary?
    requires var last := events[|events| - 1];
             !last.masked && !last.inItBlock && ActiveAfter(events[..|events| - 1]).None?
    requires forall j: nat :: Bit(t.pending, j) <==>
               PendingAfter(events[..|events| - 1], j) || (j == 15 && Fires(events))
    requires forall j: nat :: Eligible(t, j) <==> MayTake(events, j)
    requires exists bit: nat :: Lowest(t, r, bit)
    ensures forall j: nat :: Bit(r.pending, j) <==> PendingAfter(events, j)
    ensures r.inInterrupt && ActiveAfter(events) == Some(r.activeException) && r.enabled == t.enabled
  {
    hide Bit, Fires, MayTake, Eligible;
    var bit: nat :| Lowest(t, r, bit);
    assert Eligible(t, bit) <==> MayTake(events, bit);
    assert Takes(events, bit);
    forall other: nat | Takes(events, other)
      ensures other == bit
    {
      assert MayTake(events, other) && MayTake(events, bit);
      assert Eligible(t, other);
    }
    forall j: nat
      ensures Bit(r.pending, j) <==> PendingAfter(events, j)
    {
      assert Takes(events, j) <==> j == bit;
    }
  }

  /** `bit` is the lowest eligible exception and `r` what dispatching it leaves. */
  ghost predicate Lowest(t: Controller, r: Controller, bit: nat) {
    && Eligible(t, bit) && (forall j: nat :: j < bit ==> !Eligible(t, j))
    && (forall j: nat :: Bit(r.pending, j) <==> Bit(t.pending, j) && j != bit)
    && r.inInterrupt && r.activeException == bit && r.enabled == t.enabled
  }

  lemma {:induction false} PeriodKept(events: seq<Event>)
    requires events != [] && events[|events| - 1].Boundary?
    ensures PeriodAfter(events) == PeriodAfter(events[..|events| - 1])
    ensures forall irq: nat :: EnabledAfter(events, irq) <==> EnabledAfter(events[..|events| - 1], irq)
  {
  }

  /** Over any run: what is pending, enabled and active, and when SysTick fires, follow from
      the events alone. */
  lemma {:induction false} FollowsEvents(events: seq<Event>)
    requires PossibleRun(events)
    ensures AsRead(Run(events), events)
    decreases |events|
  {
    hide Bit, SetPending, WriteEnable, RunPending;
    if events == [] {
      NothingSet();
    } else {
      var (front, last) := (events[..|events| - 1], events[|events| - 1]);
      FollowsEvents(front);
      var s := Run(front);
      match last {
        case Boundary(now, masked, it) => BoundaryAsRead(s, events);
        case Raise(irq) => RaiseAsRead(s, events);
        case EnableWrite(offset, value) => WriteAsRead(s, events);
        case _ => OtherAsRead(s, events);
      }
    }
  }

  lemma {:induction false} NothingSet()
    ensures AsRead(Reset(), [])
  {
    assert forall j: nat :: !Bit(0, j);
  }

  lemma {:induction false} RaiseAsRead(s: Controller, events: seq<Event>)
    requires events != [] && events[|events| - 1].Raise? && AsRead(s, events[..|events| - 1])
    requires -IRQ_OFFSET < events[|events| - 1].irq
    ensures AsRead(Step(s, events[|events| - 1]), events)
  {
    hide Bit;
    var (front, t) := (events[..|events| - 1], Step(s, events[|events| - 1]));
    forall bit: nat
      ensures Bit(t.pending, bit) <==> PendingAfter(events, bit)
    {
      assert Bit(s.pending, bit) <==> PendingAfter(front, bit);
    }
    NoFire(events);
    forall irq: nat
      ensures Bit(t.enabled, irq) <==> EnabledAfter(events, irq)
    {
      assert Bit(s.enabled, irq) <==> EnabledAfter(front, irq);
    }
  }

  lemma {:induction false} NoFire(events: seq<Event>)
    requires events != [] && !events[|events| - 1].Boundary?
    ensures FiredAt(events) == FiredAt(events[..|events| - 1])
    ensures !events[|events| - 1].Svc? && !events[|events| - 1].ExceptionReturn? ==>
              ActiveAfter(events) == ActiveAfter(events[..|events| - 1])
    ensures !events[|events| - 1].SetSystickPeriod? ==> PeriodAfter(events) == PeriodAfter(events[..|events| - 1])
  {
  }

  lemma {:induction false} WriteAsRead(s: Controller, events: seq<Event>)
    requires events != [] && events[|events| - 1].EnableWrite? && AsRead(s, events[..|events| - 1])
    ensures AsRead(Step(s, events[|events| - 1]), events)
  {
    var (offset, value) := (events[|events| - 1].offset, events[|events| - 1].value);
    WriteKeepsRest(s, offset, value);
    hide Bit, WriteEnable;
    NoFire(events);
    forall bit: nat
      ensures Bit(s.pending, bit) <==> PendingAfter(events, bit)
    {
      assert Bit(s.pending, bit) <==> PendingAfter(events[..|events| - 1], bit);
    }
    forall irq: nat
      ensures Bit(WriteEnable(s, offset, value).enabled, irq) <==> EnabledAfter(events, irq)
    {
      EnableAsRead(s, offset, value, irq);
    }
  }

  lemma {:induction false} WriteKeepsRest(s: Controller, offset: word, value: word)
    ensures var t := WriteEnable(s, offset, value); t == s.(enabled := t.enabled, history := t.history)
  {
  }

  lemma {:induction false} OtherAsRead(s: Controller, events: seq<Event>)
    requires events != [] && AsRead(s, events[..|events| - 1])
    requires var e := events[|events| - 1]; e.SetSystickPeriod? || e.Svc? || e.ExceptionReturn?
    ensures AsRead(Step(s, events[|events| - 1]), events)
  {
    hide Bit;
    var (front, t) := (events[..|events| - 1], Step(s, events[|events| - 1]));
    NoFire(events);
    forall j: nat
      ensures (Bit(t.pending, j) <==> PendingAfter(events, j)) && (Bit(t.enabled, j) <==> EnabledAfter(events, j))
    {
      assert Bit(s.pending, j) <==> PendingAfter(front, j);
      assert Bit(s.enabled, j) <==> EnabledAfter(front, j);
    }
  }
}
