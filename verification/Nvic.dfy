/** The interrupt controller object and the processor it acts on: loops that move
    frames, in-place updates of the pending and enabled words and of the priority
    bytes, each proved to do what `ExceptionFrames` and `NvicPending` specify. */
module Nvic {
  import opened Bits
  import opened ExceptionFrames
  import NvicPending

  /** Stacked from the highest address down. */
  const CONTEXT_REGS_EXTENDED: seq<nat> :=
    [FPSCR, S15, 22, 21, 20, 19, 18, 17, 16, 15, 14, 13, 12, 11, 10, 9, S0]
  const CONTEXT_REGS: seq<nat> := [XPSR, PC, LR, R12, R3, R2, R1, R0]

  const IPR_OFFSET: nat := 0x400
  const IPR_COUNT: nat := 240

  // ---- What the loops of frame pushing and popping rest on ----

  /** The `k`-th word to be stacked. */
  ghost function Stacking(c: Cpu, k: nat): word
    requires CanEnter(c) && k < FrameWords(Fpca(c))
  {
    Frame(c.regs, Fpca(c))[FrameWords(Fpca(c)) - 1 - k]
  }

  /** `k` words of the frame of `c` are stacked and `sp` is below them. */
  ghost predicate Stacked(c: Cpu, k: nat, sp: word, mem: Memory)
    requires CanEnter(c)
  {
    var (n, frame) := (FrameWords(Fpca(c)), Frame(c.regs, Fpca(c)));
    && k <= n && sp == StackPointer(c, Spsel(c)) - 4 * k
    && mem == StoreWords(c.mem, sp, frame[n - k..])
  }

  lemma {:induction false} StackingStarts(c: Cpu)
    requires CanEnter(c)
    ensures Stacked(c, 0, StackPointer(c, Spsel(c)), c.mem)
  {
  }

  lemma {:induction false} StackingNext(c: Cpu, k: nat, sp: word, mem: Memory)
    requires CanEnter(c) && k < FrameWords(Fpca(c)) && Stacked(c, k, sp, mem)
    ensures 4 <= sp && Mapped(mem, sp - 4, 4)
    ensures Stacked(c, k + 1, sp - 4, StoreWord(mem, sp - 4, Stacking(c, k)))
  {
    hide StoreWord, Spsel, Fpca;
    var frame, n := Frame(c.regs, Fpca(c)), FrameWords(Fpca(c));
    FrameSizes(c.regs, Fpca(c));
    StoreWordsFrame(c.mem, sp, frame[n - k..]);
    assert frame[n - k - 1..][1..] == frame[n - k..];
  }

  lemma {:induction false} StackingEnds(c: Cpu, sp: word, mem: Memory)
    requires CanEnter(c) && Stacked(c, FrameWords(Fpca(c)), sp, mem)
    ensures Pushed(c) == WithSp(c.(mem := mem), Spsel(c), sp)
  {
    hide StoreWords, Spsel, Fpca;
    assert Frame(c.regs, Fpca(c))[0..] == Frame(c.regs, Fpca(c));
  }

  /** The register lists name the frame from the top down; an extended frame
      starts with its reserved word. */
  lemma {:induction false} StackingOrder(c: Cpu)
    requires CanEnter(c)
    ensures var extra := if Fpca(c) then 18 else 0;
            forall i :: 0 <= i < |CONTEXT_REGS| ==> Stacking(c, extra + i) == c.regs[CONTEXT_REGS[i]]
    ensures Fpca(c) ==> Stacking(c, 0) == 0
    ensures Fpca(c) ==>
              forall i :: 0 <= i < |CONTEXT_REGS_EXTENDED| ==> Stacking(c, 1 + i) == c.regs[CONTEXT_REGS_EXTENDED[i]]
  {
    hide Fpca;
    assert forall i :: 0 <= i < |CONTEXT_REGS| ==> CONTEXT_REGS[i] == 7 - i;
    assert forall i :: 0 <= i < |CONTEXT_REGS_EXTENDED| ==> CONTEXT_REGS_EXTENDED[i] == 24 - i;
  }

  /** `k` words of the frame on a stack have been put back into registers. */
  ghost predicate Unstacked(c: Cpu, spsel: bool, fpca: bool, k: nat, sp: nat, regs: seq<word>)
    requires CanPop(c, spsel, fpca)
  {
    && k <= PoppedWords(fpca) && sp == StackPointer(c, spsel) + 4 * k
    && regs == LoadWords(c.mem, StackPointer(c, spsel), PoppedWords(fpca))[..k] + c.regs[k..]
  }

  lemma {:induction false} UnstackingStarts(c: Cpu, spsel: bool, fpca: bool)
    requires CanPop(c, spsel, fpca)
    ensures Unstacked(c, spsel, fpca, 0, StackPointer(c, spsel), c.regs)
  {
  }

  lemma {:induction false} LoadWordsAt(m: Memory, at: nat, n: nat, i: nat)
    requires i < n && Mapped(m, at, 4 * n)
    ensures LoadWords(m, at, n)[i] == LoadWord(m, at + 4 * i)
    decreases n
  {
    if i != 0 {
      LoadWordsAt(m, at + 4, n - 1, i - 1);
    }
  }

  lemma {:induction false} UnstackingNext(c: Cpu, spsel: bool, fpca: bool, k: nat, sp: nat, regs: seq<word>)
    requires CanPop(c, spsel, fpca) && k < PoppedWords(fpca) && Unstacked(c, spsel, fpca, k, sp, regs)
    ensures Mapped(c.mem, sp, 4) && sp + 4 < 0x1_0000_0000_0000_0000 && |regs| == REGISTERS
    ensures Unstacked(c, spsel, fpca, k + 1, sp + 4, regs[k := LoadWord(c.mem, sp)])
  {
    hide LoadWords, LoadWord;
    LoadWordsAt(c.mem, StackPointer(c, spsel), PoppedWords(fpca), k);
  }

  lemma {:induction false} UnstackingEnds(c: Cpu, spsel: bool, fpca: bool, sp: nat, regs: seq<word>)
    requires CanPop(c, spsel, fpca) && Unstacked(c, spsel, fpca, PoppedWords(fpca), sp, regs)
    ensures var end := if fpca then sp + 4 else sp;
            && end < 0x1_0000_0000_0000_0000
            && Popped(c, spsel, fpca) == WithSp(c.(regs := regs), spsel, end % 0x1_0000_0000)
  {
    hide LoadWords;
    var frame := LoadWords(c.mem, StackPointer(c, spsel), PoppedWords(fpca));
    assert regs == Restored(c.regs, frame, fpca);
  }

  class Processor {
    var regs: seq<word>
    var msp: word
    var psp: word
    var control: word
    var ipsr: int
    var mem: Memory
    var primask: word
    var basepri: word

    ghost function State(): Cpu
      reads this
    {
      Cpu(regs, msp, psp, control, ipsr, mem)
    }

    constructor (regs: seq<word>, msp: word, psp: word, mem: Memory)
      requires |regs| == REGISTERS
      ensures State() == Cpu(regs, msp, psp, 0, 0, mem) && ValidCpu(State())
      ensures primask == 0 && basepri == 0
    {
      this.regs, this.msp, this.psp, this.mem := regs, msp, psp, mem;
      control, ipsr, primask, basepri := 0, 0, 0, 0;
    }

    method PushWord(sp: word, v: word, ghost c: Cpu, ghost k: nat) returns (below: word)
      requires CanEnter(c) && k < FrameWords(Fpca(c)) && Stacked(c, k, sp, mem) && v == Stacking(c, k)
      modifies `mem
      ensures Stacked(c, k + 1, below, mem)
    {
      hide Stacked, CanEnter, Fpca, Stacking, StoreWord;
      StackingNext(c, k, sp, mem);
      below := sp - 4;
      mem := StoreWord(mem, below, v);
    }

    /** Pushes a frame on the current stack, highest word first. */
    method PushRegs(spsel: bool, fpca: bool)
      requires CanEnter(State()) && spsel == Spsel(State()) && fpca == Fpca(State())
      modifies this
      ensures State() == Pushed(old(State())) && unchanged(`primask, `basepri)
    {
      hide Stacked, Spsel, Fpca, Stacking, Pushed;
      ghost var c := State();
      StackingOrder(c);
      StackingStarts(c);
      var sp: word := if spsel then psp else msp;
      if fpca {
        sp := PushWord(sp, 0, c, 0);
        for i := 0 to |CONTEXT_REGS_EXTENDED|
          invariant Stacked(c, 1 + i, sp, mem)
          invariant unchanged(this`regs, this`msp, this`psp, this`control, this`ipsr, this`primask, this`basepri)
        {
          sp := PushWord(sp, regs[CONTEXT_REGS_EXTENDED[i]], c, 1 + i);
        }
      }
      for i := 0 to |CONTEXT_REGS|
        invariant Stacked(c, (if fpca then 18 else 0) + i, sp, mem)
        invariant unchanged(this`regs, this`msp, this`psp, this`control, this`ipsr, this`primask, this`basepri)
      {
        sp := PushWord(sp, regs[CONTEXT_REGS[i]], c, (if fpca then 18 else 0) + i);
      }
      StackingEnds(c, sp, mem);
      if spsel {
        psp := sp;
      } else {
        msp := sp;
      }
    }

    method PopWord(reg: nat, sp: long, ghost c: Cpu, ghost spsel: bool, ghost fpca: bool) returns (above: long)
      requires CanPop(c, spsel, fpca) && reg < PoppedWords(fpca)
      requires Unstacked(c, spsel, fpca, reg, sp, regs) && mem == c.mem
      modifies `regs
      ensures Unstacked(c, spsel, fpca, reg + 1, above, regs)
    {
      hide Unstacked, LoadWord;
      UnstackingNext(c, spsel, fpca, reg, sp, regs);
      regs := regs[reg := LoadWord(mem, sp)];
      above := sp + 4;
    }

    /** Pops a frame from the given stack, lowest word first. */
    method PopRegs(spsel: bool, fpca: bool)
      requires CanPop(State(), spsel, fpca)
      modifies this
      ensures State() == Popped(old(State()), spsel, fpca) && unchanged(`primask, `basepri)
    {
      hide LoadWords, LoadWord, Popped, Unstacked, CanPop;
      ghost var c := State();
      UnstackingStarts(c, spsel, fpca);
      var sp: long := if spsel then psp else msp;
      for i := 0 to |CONTEXT_REGS|
        invariant Unstacked(c, spsel, fpca, i, sp, regs)
        invariant unchanged(this`mem, this`msp, this`psp, this`control, this`ipsr, this`primask, this`basepri)
      {
        sp := PopWord(CONTEXT_REGS[|CONTEXT_REGS| - 1 - i], sp, c, spsel, fpca);
      }
      if fpca {
        for i := 0 to |CONTEXT_REGS_EXTENDED|
          invariant Unstacked(c, spsel, fpca, 8 + i, sp, regs)
          invariant unchanged(this`mem, this`msp, this`psp, this`control, this`ipsr, this`primask, this`basepri)
        {
          sp := PopWord(CONTEXT_REGS_EXTENDED[|CONTEXT_REGS_EXTENDED| - 1 - i], sp, c, spsel, fpca);
        }
      }
      UnstackingEnds(c, spsel, fpca, sp, regs);
      if fpca {
        sp := sp + 4;
      }
      if spsel {
        psp := sp % 0x1_0000_0000;
      } else {
        msp := sp % 0x1_0000_0000;
      }
    }
  }

  // ---- Registers ----

  function IprWordBase(offset: word): Option<nat> {
    if IPR_OFFSET <= offset < IPR_OFFSET + IPR_COUNT then Some(offset - IPR_OFFSET) else None
  }

  /** The value of a register word; only the enable banks and the priority bytes
      are storage. */
  function RegisterValue(s: NvicPending.Controller, priorities: seq<byte>, offset: word): word
    requires |priorities| == IPR_COUNT && offset % 4 == 0
  {
    match NvicPending.EnableWord(NvicPending.ISER_OFFSET, offset)
    case Some(index) => NvicPending.EnabledWord(s.enabled, index)
    case None =>
      match NvicPending.EnableWord(NvicPending.ICER_OFFSET, offset)
      case Some(index) => NvicPending.EnabledWord(s.enabled, index)
      case None => PriorityWord(priorities, offset)
  }

  function PriorityWord(priorities: seq<byte>, offset: word): word
    requires |priorities| == IPR_COUNT && offset % 4 == 0
  {
    match IprWordBase(offset)
    case Some(base) => LeWord(priorities[base], priorities[base + 1], priorities[base + 2], priorities[base + 3])
    case None => 0
  }

  function WithPriorityWord(priorities: seq<byte>, offset: word, value: word): (r: seq<byte>)
    requires |priorities| == IPR_COUNT && offset % 4 == 0
    ensures |r| == IPR_COUNT
  {
    match IprWordBase(offset)
    case Some(base) => priorities[..base] + LeBytes(value) + priorities[base + 4..]
    case None => priorities
  }

  lemma {:induction false} EnabledBits(enabled: NvicPending.wide, index: nat)
    ensures forall j: nat :: Bit(NvicPending.EnabledWord(enabled, index), j) <==> j < 32 && Bit(enabled, 32 * index + j)
  {
    hide Bit;
  }

  /** Firmware reads at 0x100 to 0x10c, and the same at 0x180 to 0x18c, which interrupts are
      enabled; `FollowsEvents` says which those are after any run. */
  lemma {:induction false} EnableRegistersRead(s: NvicPending.Controller, p: seq<byte>, bank: word, index: nat)
    requires |p| == 240 && (bank == 0x100 || bank == 0x180) && index < 4
    ensures ShowsEnabled(RegisterValue(s, p, bank + 4 * index), s.enabled, index)
  {
    hide Bit, NvicPending.EnabledWord;
    EnabledBits(s.enabled, index);
  }

  /** The 32 enable bits from number 32 * `index` on. */
  ghost predicate ShowsEnabled(v: word, enabled: NvicPending.wide, index: nat) {
    forall j: nat :: Bit(v, j) <==> j < 32 && Bit(enabled, 32 * index + j)
  }

  /** The priority bytes are read and written as words at 0x400 to 0x4ec. */
  lemma {:induction false} PriorityRegisters(s: NvicPending.Controller, p: seq<byte>, k: nat, value: word)
    requires |p| == IPR_COUNT && k < 60
    ensures |p| == 240
    ensures RegisterValue(s, p, 0x400 + 4 * k) == LeWord(p[4 * k], p[4 * k + 1], p[4 * k + 2], p[4 * k + 3])
    ensures WithPriorityWord(p, 0x400 + 4 * k, value) == p[..4 * k] + LeBytes(value) + p[4 * k + 4..]
    ensures NvicPending.WriteEnable(s, 0x400 + 4 * k, value) == s
  {
    hide LeWord, LeBytes;
  }

  /** Nothing else is there: other offsets read as zero and ignore writes. */
  lemma {:induction false} OtherRegisters(s: NvicPending.Controller, p: seq<byte>, offset: word, value: word)
    requires |p| == 240 && offset % 4 == 0
    requires !(0x100 <= offset < 0x110) && !(0x180 <= offset < 0x190) && !(0x400 <= offset < 0x4f0)
    ensures RegisterValue(s, p, offset) == 0
    ensures NvicPending.WriteEnable(s, offset, value) == s && WithPriorityWord(p, offset, value) == p
  {
  }

  // ---- Taking an exception ----

  /** An IT block is being executed when one of its state bits is set. */
  predicate InItBlock(xpsr: word)
    ensures InItBlock(xpsr) <==> exists j: nat :: ItBit(j) && Bit(xpsr, j)
  {
    ItStateBits();
    NonZero(And(xpsr, ITSTATE_MASK));
    And(xpsr, ITSTATE_MASK) != 0
  }

  lemma {:induction false} NonZero(v: nat)
    ensures v != 0 <==> exists j: nat :: Bit(v, j)
  {
    if v != 0 {
      NonZeroHasBit(v);
    }
  }

  /** The registers of a basic frame, from its lowest address up. */
  const FRAME_REGS: seq<nat> := [R0, R1, R2, R3, R12, LR, PC, XPSR]

  /** The stack in use and the size of a frame on it, as CONTROL says. */
  function FrameBottom(c: Cpu): int {
    (if Bit(c.control, 1) then c.psp else c.msp) - if Bit(c.control, 2) then 104 else 32
  }

  /** What taking exception `bit` does to the processor: PC from the table's entry for it,
      ITSTATE clear, EXC_RETURN in LR, and 32 or 104 bytes of registers stacked. */
  ghost predicate Took(c: Cpu, t: Cpu, vectorTable: word, bit: nat) {
    TookVector(c, t, vectorTable, bit) && TookRegisters(c, t, bit - 16) && TookFrame(c, t)
  }

  ghost predicate TookVector(c: Cpu, t: Cpu, vectorTable: word, bit: nat) {
    var entry := (vectorTable + 4 * bit) % 0x1_0000_0000;
    && ValidCpu(t) && Mapped(c.mem, entry, 4)
    && t.regs[PC] == LeWord(c.mem[entry], c.mem[entry + 1], c.mem[entry + 2], c.mem[entry + 3])
  }

  ghost predicate TookRegisters(c: Cpu, t: Cpu, irq: int) {
    && ValidCpu(c) && ValidCpu(t)
    && (forall j: nat :: Bit(t.regs[XPSR], j) <==> Bit(c.regs[XPSR], j) && !ItBit(j))
    && t.regs[LR] == 0xffff_ffe9 + (if Bit(c.control, 1) then 4 else 0) + (if Bit(c.control, 2) then 0 else 0x10)
    && (forall r :: 0 <= r < REGISTERS && r !in [PC, XPSR, LR] ==> t.regs[r] == c.regs[r])
    && t.ipsr == irq && t.control == c.control
    && (if Bit(c.control, 1) then t.psp == FrameBottom(c) && t.msp == c.msp
        else t.msp == FrameBottom(c) && t.psp == c.psp)
  }

  ghost predicate TookFrame(c: Cpu, t: Cpu) {
    var (bottom, size) := (FrameBottom(c), if Bit(c.control, 2) then 104 else 32);
    && ValidCpu(c) && 0 <= bottom && Mapped(t.mem, bottom, size)
    && (forall k :: 0 <= k < 8 ==> LoadWord(t.mem, bottom + 4 * k) == c.regs[FRAME_REGS[k]])
    && (size == 104 ==>
          && (forall k :: 0 <= k < 17 ==> LoadWord(t.mem, bottom + 32 + 4 * k) == c.regs[S0 + k])
          && LoadWord(t.mem, bottom + 100) == 0)
    && (forall a: nat :: a in c.mem && !(bottom <= a < bottom + size) ==> a in t.mem && t.mem[a] == c.mem[a])
  }

  function VectorAddress(vectorTable: word, irq: int): word {
    (vectorTable + 4 * (IRQ_OFFSET + irq)) % 0x1_0000_0000
  }

  lemma {:induction false} FrameWordAt(c: Cpu, vector: word, irq: int, k: nat)
    requires CanEnter(c) && k < FrameWords(Fpca(c))
    ensures |Frame(c.regs, Fpca(c))| == FrameWords(Fpca(c))
    ensures Mapped(Enter(c, vector, irq).mem, FrameAt(c) + 4 * k, 4)
    ensures LoadWord(Enter(c, vector, irq).mem, FrameAt(c) + 4 * k) == Frame(c.regs, Fpca(c))[k]
  {
    hide Enter, LoadWord, LoadWords, Frame, Spsel, Fpca;
    EntryFrame(c, vector, irq);
    FrameSizes(c.regs, Fpca(c));
    LoadWordsAt(Enter(c, vector, irq).mem, FrameAt(c), FrameWords(Fpca(c)), k);
  }

  lemma {:induction false} EntryRegisters(c: Cpu, vector: word, irq: int)
    requires CanEnter(c)
    ensures var t := Enter(c, vector, irq); TookRegisters(c, t, irq) && t.regs[PC] == vector
  {
    hide Bit, StoreWords, Frame, ItBit;
    ItStateBits();
  }

  lemma {:induction false} FrameIs(regs: seq<word>, fpca: bool, k: nat)
    requires |regs| == REGISTERS && k < FrameWords(fpca)
    ensures |Frame(regs, fpca)| == FrameWords(fpca)
    ensures Frame(regs, fpca)[k]
            == if k < 8 then regs[FRAME_REGS[k]] else if k < 25 then regs[S0 + (k - 8)] else 0
  {
    assert FRAME_REGS == [0, 1, 2, 3, 4, 5, 6, 7];
  }

  /** Word `k` of the stacked frame. */
  lemma {:induction false} StackedWord(c: Cpu, vector: word, irq: int, k: nat)
    requires CanEnter(c) && k < FrameWords(Fpca(c))
    ensures ValidCpu(c) && 0 <= FrameBottom(c) && Mapped(Enter(c, vector, irq).mem, FrameBottom(c) + 4 * k, 4)
    ensures LoadWord(Enter(c, vector, irq).mem, FrameBottom(c) + 4 * k)
            == if k < 8 then c.regs[FRAME_REGS[k]] else if k < 25 then c.regs[S0 + (k - 8)] else 0
  {
    hide Enter, Frame, LoadWord, FrameBottom, CanEnter;
    BottomIs(c);
    FrameWordAt(c, vector, irq, k);
    FrameIs(c.regs, Fpca(c), k);
  }

  lemma {:induction false} RestIsKept(c: Cpu, vector: word, irq: int)
    requires CanEnter(c)
    ensures var (t, bottom, size) := (Enter(c, vector, irq), FrameBottom(c), if Bit(c.control, 2) then 104 else 32);
            && 0 <= bottom && Mapped(t.mem, bottom, size)
            && (forall a: nat :: a in c.mem && !(bottom <= a < bottom + size) ==> a in t.mem && t.mem[a] == c.mem[a])
  {
    BottomIs(c);
    EntryFrame(c, vector, irq);
    hide Enter, Bit, FrameBottom, CanEnter, LoadWords, Frame;
  }

  lemma {:induction false} EntryStacks(c: Cpu, vector: word, irq: int)
    requires CanEnter(c)
    ensures TookFrame(c, Enter(c, vector, irq))
  {
    hide Enter, Bit, LoadWord, CanEnter, FrameBottom, Mapped, Fpca;
    var t := Enter(c, vector, irq);
    RestIsKept(c, vector, irq);
    BottomIs(c);
    forall k | 0 <= k < 8
      ensures Mapped(t.mem, FrameBottom(c) + 4 * k, 4)
              && LoadWord(t.mem, FrameBottom(c) + 4 * k) == c.regs[FRAME_REGS[k]]
    {
      StackedWord(c, vector, irq, k);
    }
    if Bit(c.control, 2) {
      forall k | 0 <= k < 17
        ensures Mapped(t.mem, FrameBottom(c) + 32 + 4 * k, 4)
                && LoadWord(t.mem, FrameBottom(c) + 32 + 4 * k) == c.regs[S0 + k]
      {
        StackedWord(c, vector, irq, 8 + k);
      }
      StackedWord(c, vector, irq, 25);
    }
  }

  lemma {:induction false} BottomIs(c: Cpu)
    requires CanEnter(c)
    ensures FrameAt(c) == FrameBottom(c) && ValidCpu(c) && Fpca(c) == Bit(c.control, 2)
    ensures SavedAt(Capture(c)) == FrameAt(c) && Capture(c).fpca == Fpca(c)
  {
    hide Bit;
  }

  /** Entry through the vector table is taking the exception. */
  lemma {:induction false} EntryTakes(c: Cpu, vectorTable: word, irq: int)
    requires -IRQ_OFFSET <= irq && CanEnter(c) && Mapped(c.mem, VectorAddress(vectorTable, irq), 4)
    ensures Took(c, Enter(c, LoadWord(c.mem, VectorAddress(vectorTable, irq)), irq), vectorTable, IRQ_OFFSET + irq)
  {
    hide Enter, TookRegisters, TookFrame, CanEnter;
    var vector := LoadWord(c.mem, VectorAddress(vectorTable, irq));
    EntryRegisters(c, vector, irq);
    EntryStacks(c, vector, irq);
    EntryIsValid(c, vector, irq);
  }

  lemma {:induction false} EntryIsValid(c: Cpu, vector: word, irq: int)
    requires CanEnter(c)
    ensures ValidCpu(Enter(c, vector, irq))
  {
    hide StoreWords, Frame, AndNot;
  }

  class Nvic {
    var systickPeriod: Option<word>
    var lastSystickTrigger: long
    var pending: NvicPending.wide
    var enabled: NvicPending.wide
    var inInterrupt: bool
    const priorities: array<byte>
    var activeExceptionNumber: nat
    ghost var history: NvicPending.History

    ghost predicate Valid() {
      priorities.Length == IPR_COUNT
    }

    ghost function State(): NvicPending.Controller
      reads this
    {
      NvicPending.Controller(pending, enabled, inInterrupt, systickPeriod, lastSystickTrigger, activeExceptionNumber,
                             history)
    }

    constructor ()
      ensures Valid() && fresh(priorities)
      ensures State() == NvicPending.Reset() && forall i :: 0 <= i < IPR_COUNT ==> priorities[i] == 0
    {
      systickPeriod, lastSystickTrigger, pending, enabled := None, 0, 0, 0;
      inInterrupt, activeExceptionNumber := false, 0;
      priorities := new byte[IPR_COUNT](_ => 0);
      history := NvicPending.Nothing;
    }

    method SetIntrPending(irq: int)
      requires -IRQ_OFFSET < irq
      modifies this
      ensures State() == NvicPending.SetPending(old(State()), irq)
    {
      NvicPending.WideHasLowBits(pending);
      var bit := (IRQ_OFFSET + irq) % 128;
      pending := NvicPending.Wide(SetBit(pending, bit));
      history := NvicPending.After(history, NvicPending.Raised(bit));
    }

    /** The software trigger register: nine bits of interrupt number. */
    method WriteStir(offset: word, value: word)
      modifies this
      ensures State() == NvicPending.WriteStir(old(State()), offset, value)
    {
      if offset == 0 {
        SetIntrPending(value % 0x200);
      }
    }

    method IsEnabled(irq: int) returns (r: bool)
      ensures r <==> 0 <= irq < 128 && Bit(enabled, irq)
    {
      r := 0 <= irq < 128 && Bit(enabled, irq);
    }

    method GetAndClearNextDispatchable() returns (irq: Option<int>)
      modifies this
      ensures irq == NvicPending.NextIrq(old(State()))
      ensures State() == NvicPending.TakeNext(old(State()))
    {
      hide NvicPending.DispatchMask, And, TrailingZeros, ClearBit, NvicPending.Wide;
      var dispatchable := And(pending, NvicPending.DispatchMask(enabled));
      if dispatchable == 0 {
        return None;
      }
      var bit := TrailingZeros(dispatchable);
      NvicPending.WideHasLowBits(pending);
      pending := NvicPending.Wide(ClearBit(pending, bit));
      history := NvicPending.After(history, NvicPending.Dispatched(bit));
      return Some(bit - IRQ_OFFSET);
    }

    method MaybeSetSystickIntrPending(now: long)
      requires lastSystickTrigger <= now
      modifies this
      ensures State() == NvicPending.MaybeSystick(old(State()), now)
    {
      if systickPeriod.Some? {
        var delta := now - lastSystickTrigger;
        if delta > systickPeriod.value {
          lastSystickTrigger := now;
          history := NvicPending.After(history, NvicPending.SysTickFired(now, systickPeriod.value));
          SetIntrPending(NvicPending.SYSTICK);
        }
      }
    }

    /** The exception this block boundary dispatches, if any. */
    ghost function Chosen(cpu: Processor, now: long): Option<int>
      requires lastSystickTrigger <= now && ValidCpu(cpu.State())
      reads this, cpu
    {
      var t := NvicPending.MaybeSystick(State(), now);
      if NvicPending.HeldBack(t, cpu.primask != 0 || cpu.basepri != 0, InItBlock(cpu.regs[XPSR])) then None
      else NvicPending.NextIrq(t)
    }

    /** Both the vector word and the stacked frame lie in mapped memory. */
    static ghost predicate CanTake(cpu: Cpu, vectorTable: word, irq: int) {
      && -IRQ_OFFSET <= irq
      && Mapped(cpu.mem, VectorAddress(vectorTable, irq), 4)
      && CanEnter(cpu)
    }

    method RunPendingInterrupts(cpu: Processor, now: long, vectorTable: word)
      requires lastSystickTrigger <= now && ValidCpu(cpu.State())
      requires Chosen(cpu, now).Some? ==> CanTake(cpu.State(), vectorTable, Chosen(cpu, now).value)
      modifies this, cpu
      ensures State() == NvicPending.RunPending(old(State()), now, old(cpu.primask != 0 || cpu.basepri != 0),
                                                old(InItBlock(cpu.regs[XPSR])))
      ensures cpu.State() == match old(Chosen(cpu, now))
                             case Some(irq) =>
                               Enter(old(cpu.State()), old(LoadWord(cpu.mem, VectorAddress(vectorTable, irq))), irq)
                             case None => old(cpu.State())
      ensures old(Chosen(cpu, now)).Some? ==>
                Took(old(cpu.State()), cpu.State(), vectorTable, IRQ_OFFSET + old(Chosen(cpu, now)).value)
    {
      hide Took, InItBlock, NvicPending.MaybeSystick, NvicPending.Dispatchable, And, CanEnter, Enter, LoadWord,
           ClearBit;
      MaybeSetSystickIntrPending(now);
      if pending == 0 || inInterrupt {
        return;
      }
      if cpu.primask != 0 || cpu.basepri != 0 {
        return;
      }
      if InItBlock(cpu.regs[XPSR]) {
        return;
      }
      var irq := GetAndClearNextDispatchable();
      if irq.Some? {
        RunInterrupt(cpu, vectorTable, irq.value);
      }
    }

    method ReadVectorAddr(cpu: Processor, vectorTable: word, irq: int) returns (vector: word)
      requires -IRQ_OFFSET <= irq && Mapped(cpu.mem, VectorAddress(vectorTable, irq), 4)
      ensures vector == LoadWord(cpu.mem, VectorAddress(vectorTable, irq))
    {
      vector := LoadWord(cpu.mem, VectorAddress(vectorTable, irq));
    }

    method RunInterrupt(cpu: Processor, vectorTable: word, irq: int)
      requires CanTake(cpu.State(), vectorTable, irq)
      modifies this, cpu
      ensures State() == NvicPending.Entered(old(State()), irq)
      ensures cpu.State() == Enter(old(cpu.State()), old(LoadWord(cpu.mem, VectorAddress(vectorTable, irq))), irq)
      ensures Took(old(cpu.State()), cpu.State(), vectorTable, IRQ_OFFSET + irq)
    {
      hide Took, LoadWord, StoreWords, AndNot, Bit, Frame, Mapped;
      EntryTakes(cpu.State(), vectorTable, irq);
      ghost var s := cpu.State();
      var vector := ReadVectorAddr(cpu, vectorTable, irq);
      var spsel := Bit(cpu.control, SPSEL);
      var fpca := Bit(cpu.control, FPCA);
      cpu.PushRegs(spsel, fpca);
      cpu.regs := cpu.regs[XPSR := AndNot(cpu.regs[XPSR], ITSTATE_MASK)];
      var lr: word := 0xffff_ffe9;
      if spsel {
        lr := lr + 4;
      }
      if !fpca {
        lr := lr + 0x10;
      }
      cpu.regs := cpu.regs[LR := lr];
      cpu.ipsr := irq;
      cpu.regs := cpu.regs[PC := vector];
      inInterrupt := true;
      activeExceptionNumber := IRQ_OFFSET + irq;
      assert cpu.regs == s.regs[XPSR := AndNot(s.regs[XPSR], ITSTATE_MASK)][LR := lr][PC := vector];
    }

    /** A synchronous trap, entered without the pending queue. */
    method EnterSvcall(cpu: Processor, vectorTable: word)
      requires CanTake(cpu.State(), vectorTable, SVCALL)
      modifies this, cpu
      ensures State() == NvicPending.SvCall(old(State()))
      ensures cpu.State() == Enter(old(cpu.State()), old(LoadWord(cpu.mem, VectorAddress(vectorTable, SVCALL))), SVCALL)
      ensures Took(old(cpu.State()), cpu.State(), vectorTable, 11)
    {
      RunInterrupt(cpu, vectorTable, SVCALL);
    }

    method ReturnFromInterrupt(cpu: Processor)
      requires CanReturn(cpu.State())
      modifies this, cpu
      ensures State() == NvicPending.Returned(old(State()))
      ensures cpu.State() == Return(old(cpu.State())) && Returned(old(cpu.State()), cpu.State())
    {
      hide Bit, Popped, FromFrame;
      ReturnIs(cpu.State());
      var lr := cpu.regs[LR];
      if lr >= 0xffff_ff00 {
        var spsel := Bit(lr, 2);
        var fpca := !Bit(lr, 4);
        cpu.PopRegs(spsel, fpca);
        var control: word := 0;
        if spsel {
          control := control + 2;
        }
        if fpca {
          control := control + 4;
        }
        cpu.control := control;
      } else {
        cpu.PopRegs(Bit(cpu.control, SPSEL), Bit(cpu.control, FPCA));
      }
      inInterrupt := false;
      activeExceptionNumber := 0;
    }

    method Read(offset: word) returns (value: word)
      requires Valid() && offset % 4 == 0
      ensures value == RegisterValue(State(), priorities[..], offset)
    {
      hide NvicPending.EnabledWord;
      var index := NvicPending.EnableWord(NvicPending.ISER_OFFSET, offset);
      if index.Some? {
        return NvicPending.EnabledWord(enabled, index.value);
      }
      index := NvicPending.EnableWord(NvicPending.ICER_OFFSET, offset);
      if index.Some? {
        return NvicPending.EnabledWord(enabled, index.value);
      }
      var base := IprWordBase(offset);
      if base.Some? {
        var at := base.value;
        return LeWord(priorities[at], priorities[at + 1], priorities[at + 2], priorities[at + 3]);
      }
      return 0;
    }

    method Write(offset: word, value: word)
      requires Valid() && offset % 4 == 0
      modifies this, priorities
      ensures Valid() && State() == NvicPending.WriteEnable(old(State()), offset, value)
      ensures priorities[..] == WithPriorityWord(old(priorities[..]), offset, value)
    {
      var index := NvicPending.EnableWord(NvicPending.ISER_OFFSET, offset);
      if index.Some? {
        NvicPending.WideHasLowBits(enabled);
        NvicPending.WordHasLowBits(value);
        enabled := NvicPending.Wide(Or(enabled, NvicPending.Placed(value, index.value)));
        history := NvicPending.After(history, NvicPending.EnableSet(index.value, value));
        return;
      }
      index := NvicPending.EnableWord(NvicPending.ICER_OFFSET, offset);
      if index.Some? {
        enabled := AndNot(enabled, NvicPending.Placed(value, index.value));
        history := NvicPending.After(history, NvicPending.EnableCleared(index.value, value));
        return;
      }
      var base := IprWordBase(offset);
      if base.Some? {
        ghost var was := priorities[..];
        var at, bytes := base.value, LeBytes(value);
        priorities[at], priorities[at + 1], priorities[at + 2], priorities[at + 3] :=
          bytes[0], bytes[1], bytes[2], bytes[3];
        assert priorities[..] == was[..at] + bytes + was[at + 4..];
      }
    }
  }
}
