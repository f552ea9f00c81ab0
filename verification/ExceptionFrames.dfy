/** Exception entry and return: the frames pushed on and popped from a thread's
    stack, and why any interleaving of preempted threads resumes correctly. */
module ExceptionFrames {
  import opened Bits

  /** Register numbers: the eight of a basic frame in ascending stack order, the
      seventeen an extended frame adds, then the ones exceptions never touch. */
  const R0: nat := 0
  const R1: nat := 1
  const R2: nat := 2
  const R3: nat := 3
  const R12: nat := 4
  const LR: nat := 5
  const PC: nat := 6
  const XPSR: nat := 7
  const S0: nat := 8
  const S15: nat := 23
  const FPSCR: nat := 24
  const REGISTERS: nat := 49 // with R4-R11 and S16-S31

  const SPSEL: nat := 1
  const FPCA: nat := 2
  const ITSTATE_MASK: word := 0x0600_fc00
  const IRQ_OFFSET: int := 16
  const SVCALL: int := -5

  type Memory = map<nat, byte>

  datatype Cpu = Cpu(regs: seq<word>, msp: word, psp: word, control: word, ipsr: int, mem: Memory)

  ghost predicate ValidCpu(c: Cpu) {
    |c.regs| == REGISTERS
  }

  function StackPointer(c: Cpu, spsel: bool): word {
    if spsel then c.psp else c.msp
  }

  /** The `SP` register names the bank that `spsel` selects. */
  function WithSp(c: Cpu, spsel: bool, sp: word): Cpu {
    if spsel then c.(psp := sp) else c.(msp := sp)
  }

  // ---- Words in memory ----

  ghost predicate Mapped(m: Memory, at: nat, bytes: nat) {
    forall a: nat :: at <= a < at + bytes ==> a in m
  }

  function StoreWord(m: Memory, at: nat, w: word): Memory {
    var b := LeBytes(w);
    m[at := b[0]][at + 1 := b[1]][at + 2 := b[2]][at + 3 := b[3]]
  }

  function LoadWord(m: Memory, at: nat): word
    requires Mapped(m, at, 4)
  {
    LeWord(m[at], m[at + 1], m[at + 2], m[at + 3])
  }

  /** Consecutive words, the first at the lowest address. */
  function StoreWords(m: Memory, at: nat, words: seq<word>): Memory
    decreases |words|
  {
    if words == [] then m else StoreWord(StoreWords(m, at + 4, words[1..]), at, words[0])
  }

  function LoadWords(m: Memory, at: nat, n: nat): (words: seq<word>)
    requires Mapped(m, at, 4 * n)
    ensures |words| == n
    decreases n
  {
    if n == 0 then [] else [LoadWord(m, at)] + LoadWords(m, at + 4, n - 1)
  }

  /** Storing words writes their bytes and nothing else. */
  lemma {:induction false} StoreWordsFrame(m: Memory, at: nat, words: seq<word>)
    ensures forall a: nat :: a in StoreWords(m, at, words) <==> a in m || at <= a < at + 4 * |words|
    ensures forall a: nat :: a in m && !(at <= a < at + 4 * |words|) ==> StoreWords(m, at, words)[a] == m[a]
    decreases |words|
  {
    if words != [] {
      StoreWordsFrame(m, at + 4, words[1..]);
    }
  }

  lemma {:induction false} LoadWordsAgree(m: Memory, m': Memory, at: nat, n: nat)
    requires Mapped(m, at, 4 * n) && Mapped(m', at, 4 * n)
    requires forall a: nat :: at <= a < at + 4 * n ==> m[a] == m'[a]
    ensures LoadWords(m, at, n) == LoadWords(m', at, n)
    decreases n
  {
    if n != 0 {
      LoadWordsAgree(m, m', at + 4, n - 1);
    }
  }

  lemma {:induction false} StoreWordFrame(m: Memory, at: nat, w: word)
    ensures Mapped(StoreWord(m, at, w), at, 4) && LoadWord(StoreWord(m, at, w), at) == w
    ensures forall a: nat :: a in m ==> a in StoreWord(m, at, w)
    ensures forall a: nat :: a in m && !(at <= a < at + 4) ==> StoreWord(m, at, w)[a] == m[a]
  {
  }

  lemma {:induction false} LoadStored(m: Memory, at: nat, words: seq<word>)
    ensures Mapped(StoreWords(m, at, words), at, 4 * |words|)
    ensures LoadWords(StoreWords(m, at, words), at, |words|) == words
    decreases |words|
  {
    hide StoreWord, LoadWord;
    StoreWordsFrame(m, at, words);
    if words != [] {
      var rest := StoreWords(m, at + 4, words[1..]);
      LoadStored(m, at + 4, words[1..]);
      StoreWordFrame(rest, at, words[0]);
      LoadWordsAgree(rest, StoreWord(rest, at, words[0]), at + 4, |words| - 1);
    }
  }

  // ---- Frames ----

  /** R0-R3, R12, LR, PC, xPSR; an extended frame adds S0-S15, FPSCR and one
      reserved word that keeps the stack 8-byte aligned. */
  function Frame(regs: seq<word>, fpca: bool): seq<word>
    requires |regs| == REGISTERS
  {
    regs[R0..XPSR + 1] + if fpca then regs[S0..FPSCR + 1] + [0] else []
  }

  function FrameWords(fpca: bool): nat {
    if fpca then 26 else 8
  }

  /** Frames are exactly 32 or 104 bytes. */
  lemma {:induction false} FrameSizes(regs: seq<word>, fpca: bool)
    requires |regs| == REGISTERS
    ensures |Frame(regs, fpca)| == FrameWords(fpca)
    ensures 4 * |Frame(regs, fpca)| == if fpca then 104 else 32
  {
  }

  /** The words a return reads: all but the reserved one. */
  function PoppedWords(fpca: bool): nat {
    if fpca then 25 else 8
  }

  /** The registers after popping a frame. */
  function Restored(regs: seq<word>, frame: seq<word>, fpca: bool): (r: seq<word>)
    requires |regs| == REGISTERS && |frame| == PoppedWords(fpca)
    ensures |r| == REGISTERS
  {
    frame[..8] + (if fpca then frame[8..] else regs[S0..FPSCR + 1]) + regs[FPSCR + 1..]
  }

  function ExcReturn(spsel: bool, fpca: bool): word {
    0xffff_ffe9 + (if spsel then 4 else 0) + if fpca then 0 else 0x10
  }

  predicate IsExcReturn(lr: word) {
    lr >= 0xffff_ff00
  }

  lemma {:induction false} ExcReturnDecodes(spsel: bool, fpca: bool)
    ensures IsExcReturn(ExcReturn(spsel, fpca))
    ensures Bit(ExcReturn(spsel, fpca), 2) == spsel
    ensures Bit(ExcReturn(spsel, fpca), 4) == !fpca
  {
    var v := ExcReturn(spsel, fpca);
    assert v / 2 / 2 % 2 == if spsel then 1 else 0;
    assert v / 2 / 2 / 2 / 2 % 2 == if fpca then 0 else 1;
    assert Bit(v, 2) == Bit(v / 2, 1) == Bit(v / 2 / 2, 0);
    assert Bit(v, 4) == Bit(v / 2, 3) == Bit(v / 2 / 2, 2) == Bit(v / 2 / 2 / 2, 1) == Bit(v / 2 / 2 / 2 / 2, 0);
  }

  // ---- Exception entry and return ----

  predicate Spsel(c: Cpu) {
    Bit(c.control, SPSEL)
  }

  predicate Fpca(c: Cpu) {
    Bit(c.control, FPCA)
  }

  /** The current stack has room for a frame: memory it can be written to. */
  ghost predicate CanEnter(c: Cpu) {
    && ValidCpu(c)
    && 4 * FrameWords(Fpca(c)) <= StackPointer(c, Spsel(c))
    && Mapped(c.mem, StackPointer(c, Spsel(c)) - 4 * FrameWords(Fpca(c)), 4 * FrameWords(Fpca(c)))
  }

  function FrameAt(c: Cpu): nat
    requires CanEnter(c)
  {
    StackPointer(c, Spsel(c)) - 4 * FrameWords(Fpca(c))
  }

  function Pushed(c: Cpu): Cpu
    requires CanEnter(c)
  {
    WithSp(c.(mem := StoreWords(c.mem, FrameAt(c), Frame(c.regs, Fpca(c)))), Spsel(c), FrameAt(c))
  }

  function Enter(c: Cpu, vector: word, irq: int): Cpu
    requires CanEnter(c)
  {
    var lr, xpsr := ExcReturn(Spsel(c), Fpca(c)), AndNot(c.regs[XPSR], ITSTATE_MASK);
    Pushed(c).(regs := c.regs[XPSR := xpsr][LR := lr][PC := vector], ipsr := irq)
  }

  ghost predicate CanPop(c: Cpu, spsel: bool, fpca: bool) {
    ValidCpu(c) && Mapped(c.mem, StackPointer(c, spsel), 4 * PoppedWords(fpca))
  }

  /** The stack pointer moves past the whole frame, in 32 bits. */
  function Popped(c: Cpu, spsel: bool, fpca: bool): Cpu
    requires CanPop(c, spsel, fpca)
  {
    var sp := StackPointer(c, spsel);
    WithSp(c.(regs := Restored(c.regs, LoadWords(c.mem, sp, PoppedWords(fpca)), fpca)), spsel,
           (sp + 4 * FrameWords(fpca)) % 0x1_0000_0000)
  }

  /** Which stack and frame a return uses: LR when it is an EXC_RETURN value,
      CONTROL otherwise. */
  function ReturnFrame(c: Cpu): (bool, bool)
    requires ValidCpu(c)
  {
    if IsExcReturn(c.regs[LR]) then (Bit(c.regs[LR], 2), !Bit(c.regs[LR], 4)) else (Spsel(c), Fpca(c))
  }

  function ControlOf(spsel: bool, fpca: bool): word {
    (if spsel then 2 else 0) + if fpca then 4 else 0
  }

  ghost predicate CanReturn(c: Cpu) {
    ValidCpu(c) && var (spsel, fpca) := ReturnFrame(c); CanPop(c, spsel, fpca)
  }

  function Return(c: Cpu): Cpu
    requires CanReturn(c)
  {
    var (spsel, fpca) := ReturnFrame(c);
    var t := Popped(c, spsel, fpca);
    if IsExcReturn(c.regs[LR]) then t.(control := ControlOf(spsel, fpca)) else t
  }

  lemma {:induction false} ControlBits(spsel: bool, fpca: bool)
    ensures Bit(ControlOf(spsel, fpca), SPSEL) == spsel && Bit(ControlOf(spsel, fpca), FPCA) == fpca
  {
    var v := ControlOf(spsel, fpca);
    assert Bit(v, 1) == Bit(v / 2, 0);
    if v / 2 != 0 {
      assert Bit(v, 2) == Bit(v / 2, 1) == Bit(v / 2 / 2, 0);
    }
  }

  ghost predicate OnlyStackBits(control: word) {
    forall j: nat :: Bit(control, j) ==> j == SPSEL || j == FPCA
  }

  lemma {:induction false} LoadedWord(m: Memory, at: nat, n: nat, k: nat)
    requires Mapped(m, at, 4 * n) && k < n
    ensures LoadWords(m, at, n)[k] == LoadWord(m, at + 4 * k)
    decreases n
  {
    hide LoadWord;
    if k != 0 {
      LoadedWord(m, at + 4, n - 1, k - 1);
    }
  }

  /** `t` is `c` after returning by a frame on the stack that `process` selects, at the
      stack pointer: its words are R0-R3, R12, LR, PC and xPSR, then S0-S15 and FPSCR if it
      is `extended`; every other register is kept, and the stack pointer moves past 32 or
      104 bytes. */
  ghost predicate FromFrame(c: Cpu, t: Cpu, process: bool, extended: bool) {
    var (sp, size) := (if process then c.psp else c.msp, if extended then 104 else 32);
    var end := (sp + size) % 0x1_0000_0000;
    && |c.regs| == 49 && |t.regs| == 49 && Mapped(c.mem, sp, if extended then 100 else 32)
    && (forall k :: 0 <= k < 8 ==> t.regs[k] == LoadWord(c.mem, sp + 4 * k))
    && (forall k :: 8 <= k < 25 ==> t.regs[k] == if extended then LoadWord(c.mem, sp + 4 * k) else c.regs[k])
    && (forall k :: 25 <= k < 49 ==> t.regs[k] == c.regs[k])
    && (if process then t.psp == end && t.msp == c.msp else t.msp == end && t.psp == c.psp)
    && t.mem == c.mem && t.ipsr == c.ipsr
  }

  /** A return goes by bits 2 and 4 of LR, and sets CONTROL from them, when LR is at least
      0xffffff00; otherwise it goes by bits 1 and 2 of CONTROL, and keeps it. */
  ghost predicate Returned(c: Cpu, t: Cpu) {
    && |c.regs| == 49
    && var lr := c.regs[5];
       if lr >= 0xffff_ff00 then
         && FromFrame(c, t, Bit(lr, 2), !Bit(lr, 4))
         && t.control == (if Bit(lr, 2) then 2 else 0) + (if Bit(lr, 4) then 0 else 4)
       else FromFrame(c, t, Bit(c.control, 1), Bit(c.control, 2)) && t.control == c.control
  }

  lemma {:induction false} RestoredIs(regs: seq<word>, frame: seq<word>, fpca: bool)
    requires |regs| == 49 && |frame| == PoppedWords(fpca)
    ensures var r := Restored(regs, frame, fpca);
            && (forall k :: 0 <= k < |frame| ==> r[k] == frame[k])
            && (forall k :: |frame| <= k < 49 ==> r[k] == regs[k])
  {
  }

  lemma {:induction false} MappedWord(m: Memory, at: nat, n: nat, k: nat)
    requires Mapped(m, at, 4 * n) && k < n
    ensures Mapped(m, at + 4 * k, 4)
  {
  }

  lemma {:induction false} PoppedIs(c: Cpu, spsel: bool, fpca: bool)
    requires CanPop(c, spsel, fpca)
    ensures FromFrame(c, Popped(c, spsel, fpca), spsel, fpca)
  {
    hide LoadWord, LoadWords, Restored, Mapped;
    var (sp, n) := (StackPointer(c, spsel), PoppedWords(fpca));
    var frame := LoadWords(c.mem, sp, n);
    RestoredIs(c.regs, frame, fpca);
    forall k | 0 <= k < n
      ensures Mapped(c.mem, sp + 4 * k, 4) && frame[k] == LoadWord(c.mem, sp + 4 * k)
    {
      MappedWord(c.mem, sp, n, k);
      LoadedWord(c.mem, sp, n, k);
    }
  }

  lemma {:induction false} ReturnIs(c: Cpu)
    requires CanReturn(c)
    ensures Returned(c, Return(c))
  {
    hide FromFrame, Popped, Bit;
    var (spsel, fpca) := ReturnFrame(c);
    PoppedIs(c, spsel, fpca);
    ControlIsKept(c, Popped(c, spsel, fpca), spsel, fpca);
  }

  lemma {:induction false} ControlIsKept(c: Cpu, t: Cpu, spsel: bool, fpca: bool)
    requires FromFrame(c, t, spsel, fpca)
    ensures forall control: word :: FromFrame(c, t.(control := control), spsel, fpca)
    ensures CanPop(c, spsel, fpca) ==> Popped(c, spsel, fpca).control == c.control
  {
    hide LoadWord;
  }

  /** The stack selection and the frame format survive entry and return; the
      whole CONTROL register does exactly when no other bit of it was set. */
  lemma {:induction false} ControlSurvivesIff(control: word)
    ensures var c := ControlOf(Bit(control, SPSEL), Bit(control, FPCA));
            && Bit(c, SPSEL) == Bit(control, SPSEL)
            && Bit(c, FPCA) == Bit(control, FPCA)
            && (c == control <==> OnlyStackBits(control))
  {
    var (spsel, fpca) := (Bit(control, SPSEL), Bit(control, FPCA));
    var c := ControlOf(spsel, fpca);
    ControlBits(spsel, fpca);
    assert Pow2(3) == 8;
    HighBitsClear(c, 3);
    assert !Bit(c, 0);
    if OnlyStackBits(control) {
      SameBits(c, control);
    }
  }

  lemma {:induction false} EntryThenReturn(c: Cpu, vector: word, irq: int)
    requires CanEnter(c)
    ensures CanReturn(Enter(c, vector, irq))
    ensures Return(Enter(c, vector, irq)).control == ControlOf(Spsel(c), Fpca(c))
  {
    hide Bit, StoreWords, LoadWords, Frame, Restored, ExcReturn, AndNot;
    var frame := Frame(c.regs, Fpca(c));
    ExcReturnDecodes(Spsel(c), Fpca(c));
    FrameSizes(c.regs, Fpca(c));
    StoreWordsFrame(c.mem, FrameAt(c), frame);
    assert Enter(c, vector, irq).mem == StoreWords(c.mem, FrameAt(c), frame);
    assert StackPointer(Enter(c, vector, irq), Spsel(c)) == FrameAt(c);
  }

  /** A thread that runs unprivileged does not do so any more after an interrupt. */
  lemma {:induction false} UnprivilegedIsLost(c: Cpu, vector: word, irq: int)
    requires CanEnter(c) && c.control == 3
    ensures CanReturn(Enter(c, vector, irq)) && Return(Enter(c, vector, irq)).control == 2
  {
    EntryThenReturn(c, vector, irq);
    assert Bit(3, SPSEL) && !Bit(3, FPCA) by {
      assert Bit(3, 1) == Bit(1, 0) && Bit(3, 2) == Bit(1, 1) == Bit(0, 0);
    }
  }

  /** ITSTATE lies in xPSR bits 10 to 15, 25 and 26. */
  predicate ItBit(j: nat) {
    10 <= j < 16 || j == 25 || j == 26
  }

  lemma {:induction false} ItStateBits()
    ensures forall j: nat :: Bit(ITSTATE_MASK, j) <==> ItBit(j)
  {
    assert Pow2(2) == 4 && Pow2(6) == 64 && Pow2(8) == 256;
    assert Pow2(9) == 2 * Pow2(8) && Pow2(10) == 2 * Pow2(9);
    Ones(2, 3);
    Ones(6, 0x3f);
    HighAndLow(0x600, 9, 3, 0);
    HighAndLow(0x600 * 64 + 0x3f, 6, 0x600, 0x3f);
    HighAndLow(ITSTATE_MASK, 10, 0x600 * 64 + 0x3f, 0);
    assert forall j: nat :: !Bit(0, j);
  }

  // ---- Context switching ----

  /** What a preempted thread must get back. */
  datatype Context = Context(regs: seq<word>, spsel: bool, fpca: bool, sp: word)

  function Capture(c: Cpu): Context {
    Context(c.regs, Spsel(c), Fpca(c), StackPointer(c, Spsel(c)))
  }

  function SavedAt(x: Context): int {
    x.sp - 4 * FrameWords(x.fpca)
  }

  /** Addresses of the frame of a preempted thread. */
  predicate InFrame(x: Context, a: nat) {
    SavedAt(x) <= a < x.sp
  }

  ghost predicate FrameIntact(m: Memory, x: Context) {
    && |x.regs| == REGISTERS
    && 0 <= SavedAt(x)
    && Mapped(m, SavedAt(x), 4 * FrameWords(x.fpca))
    && LoadWords(m, SavedAt(x), FrameWords(x.fpca)) == Frame(x.regs, x.fpca)
  }

  type Thread = nat

  /** A stack region per thread; distinct threads have disjoint ones. */
  type Stacks = map<Thread, (nat, nat)>

  ghost predicate DisjointStacks(stacks: Stacks) {
    forall t, u :: t in stacks && u in stacks && t != u ==>
      stacks[t].1 <= stacks[u].0 || stacks[u].1 <= stacks[t].0
  }

  /** The contexts suspended on each stack, the latest last. */
  datatype System = System(cpu: Cpu, suspended: map<Thread, seq<Context>>)

  function Nested(s: System, u: Thread): seq<Context> {
    if u in s.suspended then s.suspended[u] else []
  }

  datatype Step =
    | Execute                          // a thread or a handler runs
    | Preempt(thread: Thread, vector: word, irq: int)
    | Resume(thread: Thread)

  /** Addresses of the frames of what is suspended. */
  ghost predicate Protected(s: System, a: nat) {
    exists u, k: nat :: k < |Nested(s, u)| && InFrame(Nested(s, u)[k], a)
  }

  /** The running code may change registers and memory at will, except those. */
  ghost predicate Executes(s: System, t: System) {
    && t.suspended == s.suspended
    && ValidCpu(t.cpu)
    && (forall a: nat :: a in s.cpu.mem ==> a in t.cpu.mem)
    && (forall a: nat :: a in s.cpu.mem && Protected(s, a) ==> t.cpu.mem[a] == s.cpu.mem[a])
  }

  /** Where the next frame on a stack may begin: below what is suspended on it. */
  function Limit(stacks: Stacks, u: Thread, nested: seq<Context>): int
    requires u in stacks
  {
    if nested == [] then stacks[u].1 else SavedAt(nested[|nested| - 1])
  }

  /** An interrupt, or a trap of a thread or of a handler: its frame goes on the stack
      in use, whose owner may have been suspended on it before. */
  ghost predicate Preempts(stacks: Stacks, s: System, t: System, thread: Thread, vector: word, irq: int) {
    && thread in stacks
    && CanEnter(s.cpu)
    && stacks[thread].0 <= FrameAt(s.cpu)
    && StackPointer(s.cpu, Spsel(s.cpu)) <= Limit(stacks, thread, Nested(s, thread))
    && t.cpu == Enter(s.cpu, vector, irq)
    && t.suspended == s.suspended[thread := Nested(s, thread) + [Capture(s.cpu)]]
  }

  /** The handler returns with the EXC_RETURN value of the latest context on the stack in
      LR and that context's saved stack pointer in the bank it selects. */
  ghost predicate Resumes(s: System, t: System, thread: Thread) {
    && Nested(s, thread) != []
    && var (n, x) := (|Nested(s, thread)| - 1, Nested(s, thread)[|Nested(s, thread)| - 1]);
    && ValidCpu(s.cpu)
    && s.cpu.regs[LR] == ExcReturn(x.spsel, x.fpca)
    && StackPointer(s.cpu, x.spsel) == SavedAt(x)
    && CanReturn(s.cpu)
    && t.cpu == Return(s.cpu)
    && t.suspended == s.suspended[thread := Nested(s, thread)[..n]]
  }

  ghost predicate Next(stacks: Stacks, s: System, t: System, step: Step) {
    match step
    case Execute => Executes(s, t)
    case Preempt(thread, vector, irq) => Preempts(stacks, s, t, thread, vector, irq)
    case Resume(thread) => Resumes(s, t, thread)
  }

  /** The `k`-th context of a stack has its frame intact, below the one before it. */
  ghost predicate Held(stacks: Stacks, m: Memory, u: Thread, nested: seq<Context>, k: nat)
    requires k < |nested|
  {
    && u in stacks
    && FrameIntact(m, nested[k])
    && stacks[u].0 <= SavedAt(nested[k]) && nested[k].sp <= Limit(stacks, u, nested[..k])
  }

  ghost predicate Inv(stacks: Stacks, s: System) {
    && ValidCpu(s.cpu)
    && forall u, k: nat :: k < |Nested(s, u)| ==> Held(stacks, s.cpu.mem, u, Nested(s, u), k)
  }

  /** Frames of one stack lie one below the other, inside its region. */
  lemma {:induction false} Ordered(stacks: Stacks, s: System, u: Thread, i: nat, j: nat)
    requires Inv(stacks, s) && i <= j < |Nested(s, u)|
    ensures u in stacks && stacks[u].0 <= SavedAt(Nested(s, u)[j]) <= SavedAt(Nested(s, u)[i])
    ensures Nested(s, u)[i].sp <= stacks[u].1
    decreases i + j
  {
    hide FrameIntact;
    assert Held(stacks, s.cpu.mem, u, Nested(s, u), i) && Held(stacks, s.cpu.mem, u, Nested(s, u), j);
    if i < j {
      Ordered(stacks, s, u, i, j - 1);
    } else if i > 0 {
      Ordered(stacks, s, u, i - 1, i - 1);
    }
  }

  lemma {:induction false} IntactIfUnchanged(m: Memory, m': Memory, x: Context)
    requires FrameIntact(m, x)
    requires forall a: nat :: InFrame(x, a) ==> a in m' && m'[a] == m[a]
    ensures FrameIntact(m', x)
  {
    LoadWordsAgree(m, m', SavedAt(x), FrameWords(x.fpca));
  }

  lemma {:induction false} MappedFrame(m: Memory, x: Context, a: nat)
    requires FrameIntact(m, x) && InFrame(x, a)
    ensures a in m
  {
  }

  lemma {:induction false} ExecuteKeepsFrames(stacks: Stacks, s: System, t: System)
    requires Inv(stacks, s) && Executes(s, t)
    ensures Inv(stacks, t)
  {
    hide FrameIntact;
    forall u, k: nat | k < |Nested(t, u)|
      ensures Held(stacks, t.cpu.mem, u, Nested(t, u), k)
    {
      var x := Nested(s, u)[k];
      assert Held(stacks, s.cpu.mem, u, Nested(s, u), k);
      forall a: nat | InFrame(x, a)
        ensures a in s.cpu.mem && a in t.cpu.mem && t.cpu.mem[a] == s.cpu.mem[a]
      {
        MappedFrame(s.cpu.mem, x, a);
        assert Protected(s, a);
      }
      IntactIfUnchanged(s.cpu.mem, t.cpu.mem, x);
    }
  }

  /** Entry writes the frame below the interrupted stack pointer, and only it. */
  lemma {:induction false} EntryFrame(c: Cpu, vector: word, irq: int)
    requires CanEnter(c)
    ensures FrameIntact(Enter(c, vector, irq).mem, Capture(c))
    ensures ValidCpu(Enter(c, vector, irq))
    ensures forall a: nat :: a in c.mem ==> a in Enter(c, vector, irq).mem
    ensures forall a: nat :: a in c.mem && !InFrame(Capture(c), a) ==> Enter(c, vector, irq).mem[a] == c.mem[a]
  {
    hide StoreWords, LoadWords, AndNot, ExcReturn, Spsel, Fpca, Frame;
    var frame := Frame(c.regs, Fpca(c));
    FrameSizes(c.regs, Fpca(c));
    LoadStored(c.mem, FrameAt(c), frame);
    StoreWordsFrame(c.mem, FrameAt(c), frame);
    assert Enter(c, vector, irq).mem == StoreWords(c.mem, FrameAt(c), frame);
  }

  /** A new frame leaves every frame already there intact. */
  lemma {:induction false} PreemptKeepsOthers(stacks: Stacks, s: System, t: System, thread: Thread, vector: word,
                                              irq: int, u: Thread, k: nat)
    requires DisjointStacks(stacks) && Inv(stacks, s) && Preempts(stacks, s, t, thread, vector, irq)
    requires k < |Nested(s, u)|
    ensures FrameIntact(t.cpu.mem, Nested(s, u)[k])
  {
    hide Enter, FrameIntact;
    EntryFrame(s.cpu, vector, irq);
    var x := Nested(s, u)[k];
    assert Held(stacks, s.cpu.mem, u, Nested(s, u), k);
    Ordered(stacks, s, u, k, |Nested(s, u)| - 1);
    if Nested(s, thread) != [] {
      Ordered(stacks, s, thread, |Nested(s, thread)| - 1, |Nested(s, thread)| - 1);
    }
    forall a: nat | InFrame(x, a)
      ensures a in s.cpu.mem && a in t.cpu.mem && t.cpu.mem[a] == s.cpu.mem[a]
    {
      MappedFrame(s.cpu.mem, x, a);
    }
    IntactIfUnchanged(s.cpu.mem, t.cpu.mem, x);
  }

  lemma {:induction false} PreemptKeepsFrames(stacks: Stacks, s: System, t: System, thread: Thread, vector: word,
                                              irq: int)
    requires DisjointStacks(stacks) && Inv(stacks, s) && Preempts(stacks, s, t, thread, vector, irq)
    ensures Inv(stacks, t)
  {
    hide Enter, FrameIntact;
    EntryFrame(s.cpu, vector, irq);
    forall u, k: nat | k < |Nested(t, u)|
      ensures Held(stacks, t.cpu.mem, u, Nested(t, u), k)
    {
      if k < |Nested(s, u)| {
        PreemptKeepsOthers(stacks, s, t, thread, vector, irq, u, k);
        assert Held(stacks, s.cpu.mem, u, Nested(s, u), k);
        assert Nested(t, u)[..k] == Nested(s, u)[..k];
      } else {
        assert u == thread && Nested(t, u)[..k] == Nested(s, u);
      }
    }
  }

  lemma {:induction false} ReturnKeepsMemory(c: Cpu)
    requires CanReturn(c)
    ensures Return(c).mem == c.mem && ValidCpu(Return(c))
  {
  }

  lemma {:induction false} ResumeKeepsFrames(stacks: Stacks, s: System, t: System, thread: Thread)
    requires Inv(stacks, s) && Resumes(s, t, thread)
    ensures Inv(stacks, t)
  {
    hide Return, FrameIntact;
    ReturnKeepsMemory(s.cpu);
    forall u, k: nat | k < |Nested(t, u)|
      ensures Held(stacks, t.cpu.mem, u, Nested(t, u), k)
    {
      assert Held(stacks, s.cpu.mem, u, Nested(s, u), k);
      assert Nested(t, u)[..k] == Nested(s, u)[..k];
    }
  }

  lemma {:induction false} NextKeepsFrames(stacks: Stacks, s: System, t: System, step: Step)
    requires DisjointStacks(stacks) && Inv(stacks, s) && Next(stacks, s, t, step)
    ensures Inv(stacks, t)
  {
    match step
    case Execute => ExecuteKeepsFrames(stacks, s, t);
    case Preempt(thread, vector, irq) => PreemptKeepsFrames(stacks, s, t, thread, vector, irq);
    case Resume(thread) => ResumeKeepsFrames(stacks, s, t, thread);
  }

  /** The machine has what a context says: the frame's registers, the stack
      pointer, the stack selection and the frame format. */
  ghost predicate Runs(c: Cpu, x: Context) {
    && |c.regs| == REGISTERS && |x.regs| == REGISTERS
    && c.regs[R0..XPSR + 1] == x.regs[R0..XPSR + 1]
    && (x.fpca ==> c.regs[S0..FPSCR + 1] == x.regs[S0..FPSCR + 1])
    && StackPointer(c, x.spsel) == x.sp
    && Spsel(c) == x.spsel && Fpca(c) == x.fpca
  }

  lemma {:induction false} FrameRestores(regs: seq<word>, saved: seq<word>, fpca: bool)
    requires |regs| == REGISTERS && |saved| == REGISTERS
    ensures var r := Restored(regs, Frame(saved, fpca)[..PoppedWords(fpca)], fpca);
            && r[R0..XPSR + 1] == saved[R0..XPSR + 1]
            && r[S0..FPSCR + 1] == (if fpca then saved else regs)[S0..FPSCR + 1]
            && r[FPSCR + 1..] == regs[FPSCR + 1..]
  {
  }

  lemma {:induction false} LoadWordsPrefix(m: Memory, at: nat, n: nat, k: nat)
    requires Mapped(m, at, 4 * n) && k <= n
    ensures LoadWords(m, at, k) == LoadWords(m, at, n)[..k]
    decreases k
  {
    hide LoadWord;
    if k != 0 {
      LoadWordsPrefix(m, at + 4, n - 1, k - 1);
    }
  }

  lemma {:induction false} ReturnPops(c: Cpu, x: Context)
    requires ValidCpu(c) && c.regs[LR] == ExcReturn(x.spsel, x.fpca) && CanReturn(c)
    requires StackPointer(c, x.spsel) == SavedAt(x) && FrameIntact(c.mem, x)
    ensures Return(c).regs == Restored(c.regs, Frame(x.regs, x.fpca)[..PoppedWords(x.fpca)], x.fpca)
    ensures StackPointer(Return(c), x.spsel) == x.sp
    ensures Return(c).control == ControlOf(x.spsel, x.fpca)
  {
    hide ExcReturn, Bit, LoadWords, Restored, Frame;
    ExcReturnDecodes(x.spsel, x.fpca);
    LoadWordsPrefix(c.mem, SavedAt(x), FrameWords(x.fpca), PoppedWords(x.fpca));
  }

  lemma {:induction false} ResumeRestores(stacks: Stacks, s: System, t: System, thread: Thread)
    requires Inv(stacks, s) && Resumes(s, t, thread)
    ensures Runs(t.cpu, Nested(s, thread)[|Nested(s, thread)| - 1])
    ensures t.cpu.regs[FPSCR + 1..] == s.cpu.regs[FPSCR + 1..] && t.cpu.mem == s.cpu.mem
  {
    hide Return, ExcReturn, ControlOf, Restored, Frame, Bit, LoadWords;
    var n := |Nested(s, thread)| - 1;
    var x := Nested(s, thread)[n];
    assert Held(stacks, s.cpu.mem, thread, Nested(s, thread), n);
    ReturnPops(s.cpu, x);
    ReturnKeepsMemory(s.cpu);
    ControlBits(x.spsel, x.fpca);
    FrameRestores(s.cpu.regs, x.regs, x.fpca);
  }

  /** A run: consecutive states related by the steps. */
  ghost predicate IsRun(stacks: Stacks, states: seq<System>, steps: seq<Step>) {
    && |states| == |steps| + 1
    && ValidCpu(states[0].cpu) && states[0].suspended == map[]
    && forall i :: 0 <= i < |steps| ==> Next(stacks, states[i], states[i + 1], steps[i])
  }

  lemma {:induction false} RunKeepsFrames(stacks: Stacks, states: seq<System>, steps: seq<Step>, n: nat)
    requires DisjointStacks(stacks) && IsRun(stacks, states, steps) && n <= |steps|
    ensures Inv(stacks, states[n])
    decreases n
  {
    hide Next, Held;
    if n != 0 {
      RunKeepsFrames(stacks, states, steps, n - 1);
      assert Next(stacks, states[n - 1], states[n], steps[n - 1]);
      NextKeepsFrames(stacks, states[n - 1], states[n], steps[n - 1]);
    }
  }

  /** How often a stack has been preempted more than resumed in the first `n` steps. */
  function Depth(steps: seq<Step>, thread: Thread, n: nat): int
    requires n <= |steps|
  {
    if n == 0 then 0
    else
      match steps[n - 1]
      case Execute => Depth(steps, thread, n - 1)
      case Preempt(u, _, _) => Depth(steps, thread, n - 1) + if u == thread then 1 else 0
      case Resume(u) => Depth(steps, thread, n - 1) - if u == thread then 1 else 0
  }

  /** Steps push and pop one context. */
  lemma {:induction false} StepNests(stacks: Stacks, s: System, t: System, step: Step, u: Thread)
    requires Next(stacks, s, t, step)
    ensures match step
            case Execute => Nested(t, u) == Nested(s, u)
            case Preempt(thread, _, _) =>
              Nested(t, u) == Nested(s, u) + if u == thread then [Capture(s.cpu)] else []
            case Resume(thread) =>
              Nested(s, thread) != []
              && Nested(t, u) == Nested(s, u)[..|Nested(s, u)| - if u == thread then 1 else 0]
  {
    hide Enter, Return, CanEnter, CanReturn, Capture;
  }

  lemma {:induction false} DepthIs(stacks: Stacks, states: seq<System>, steps: seq<Step>, thread: Thread, n: nat)
    requires IsRun(stacks, states, steps) && n <= |steps|
    ensures |Nested(states[n], thread)| == Depth(steps, thread, n)
    decreases n
  {
    hide Next;
    if n != 0 {
      StepNests(stacks, states[n - 1], states[n], steps[n - 1], thread);
      DepthIs(stacks, states, steps, thread, n - 1);
    }
  }

  /** The resumption at `j` belongs to the preemption at `i`: the stack's depth stays
      above what it was in between, and comes back to it. */
  ghost predicate Matches(steps: seq<Step>, i: nat, j: nat, thread: Thread) {
    && i < j < |steps|
    && steps[i].Preempt? && steps[i].thread == thread && steps[j] == Resume(thread)
    && Depth(steps, thread, j + 1) == Depth(steps, thread, i)
    && forall k :: i < k <= j ==> Depth(steps, thread, k) > Depth(steps, thread, i)
  }

  /** Until it is resumed, a preempted context stays where it was put. */
  lemma {:induction false} ContextKept(stacks: Stacks, states: seq<System>, steps: seq<Step>, i: nat, j: nat,
                                       thread: Thread)
    requires IsRun(stacks, states, steps) && i < j <= |steps|
    requires steps[i].Preempt? && steps[i].thread == thread
    requires forall k :: i < k <= j ==> Depth(steps, thread, k) > Depth(steps, thread, i)
    ensures Nested(states[i], thread) + [Capture(states[i].cpu)] <= Nested(states[j], thread)
    decreases j
  {
    hide Next, Nested, Depth, Capture;
    StepNests(stacks, states[j - 1], states[j], steps[j - 1], thread);
    DepthIs(stacks, states, steps, thread, i);
    DepthIs(stacks, states, steps, thread, j);
    if j != i + 1 {
      ContextKept(stacks, states, steps, i, j - 1, thread);
    }
  }

  /** Context switching: with any number of threads on disjoint stacks, handlers nested
      on them to any depth and any interleaving, what was preempted at step `i` and is
      resumed at step `j` continues with the frame registers, stack pointer, stack
      selection and frame format it was preempted with. */
  lemma {:induction false} ContextSwitch(stacks: Stacks, states: seq<System>, steps: seq<Step>, i: nat, j: nat,
                                         thread: Thread)
    requires DisjointStacks(stacks) && IsRun(stacks, states, steps) && Matches(steps, i, j, thread)
    ensures Runs(states[j + 1].cpu, Capture(states[i].cpu))
  {
    hide Inv, Runs, Capture, Depth, Enter, Return, CanEnter, CanReturn;
    RunKeepsFrames(stacks, states, steps, j);
    ContextKept(stacks, states, steps, i, j, thread);
    DepthIs(stacks, states, steps, thread, i);
    DepthIs(stacks, states, steps, thread, j);
    DepthIs(stacks, states, steps, thread, j + 1);
    assert Next(stacks, states[j], states[j + 1], steps[j]);
    ResumeRestores(stacks, states[j], states[j + 1], thread);
  }
}
