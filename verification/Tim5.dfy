/** The free-running timer: a counter derived from the instruction clock, and its
    wrap-safe compare channel. */
module Tim5 {
  import opened Bits
  import Nvic
  import NvicPending

  const IRQ: int := 50
  const INSTRUCTIONS_PER_TICK: nat := 54
  const WRAP: nat := 0x1_0000_0000
  const HALF: nat := 0x8000_0000
  const CC1IE: nat := 1
  const CC1IF: nat := 1

  const CR1: word := 0x00
  const DIER: word := 0x0c
  const SR: word := 0x10
  const CNT: word := 0x24
  const CCR1: word := 0x34

  datatype Timer = Timer(cr1: word, dier: word, sr: word, ccr1: word, ccr1Armed: bool, cntOffset: word, heldCnt: word)

  function Reset(): Timer {
    Timer(0, 0, 0, 0, false, 0, 0)
  }

  function WrappingAdd(a: word, b: word): word {
    (a + b) % WRAP
  }

  function WrappingSub(a: word, b: word): word {
    (a - b) % WRAP
  }

  function TicksFromInstructions(now: long): word {
    now / INSTRUCTIONS_PER_TICK % WRAP
  }

  predicate Cen(cr1: word) {
    cr1 % 2 == 1
  }

  function Cnt(s: Timer, now: long): word {
    if Cen(s.cr1) then WrappingAdd(TicksFromInstructions(now), s.cntOffset) else s.heldCnt
  }

  function WriteCr1(s: Timer, value: word, now: long): Timer {
    if Cen(value) && !Cen(s.cr1) then s.(cr1 := value, cntOffset := WrappingSub(s.heldCnt, TicksFromInstructions(now)))
    else if !Cen(value) && Cen(s.cr1) then s.(cr1 := value, heldCnt := Cnt(s, now))
    else s.(cr1 := value)
  }

  function WriteCnt(s: Timer, value: word, now: long): Timer {
    if Cen(s.cr1) then s.(cntOffset := WrappingSub(value, TicksFromInstructions(now))) else s.(heldCnt := value)
  }

  /** The signed difference of counter and target is not negative. */
  predicate HasPassedCcr1(s: Timer, now: long) {
    WrappingSub(Cnt(s, now), s.ccr1) < HALF
  }

  function WriteRegister(s: Timer, offset: word, value: word, now: long): Timer {
    if offset == CR1 then WriteCr1(s, value, now)
    else if offset == DIER then s.(dier := value)
    else if offset == SR then s.(sr := And(s.sr, value))
    else if offset == CNT then WriteCnt(s, value, now)
    else if offset == CCR1 then s.(ccr1 := value, ccr1Armed := true)
    else s
  }

  function ReadRegister(s: Timer, offset: word, now: long): word {
    if offset == CR1 then s.cr1
    else if offset == DIER then s.dier
    else if offset == SR then s.sr
    else if offset == CNT then Cnt(s, now)
    else if offset == CCR1 then s.ccr1
    else 0
  }

  predicate Matched(s: Timer) {
    Bit(s.sr, CC1IF)
  }

  function Polled(s: Timer, now: long): Timer {
    if s.ccr1Armed && !Matched(s) && HasPassedCcr1(s, now) then s.(sr := SetFlag(s.sr, CC1IF)) else s
  }

  /** The interrupt is a level: pended at every poll while flag and enable are set. */
  predicate Interrupts(s: Timer) {
    Matched(s) && Bit(s.dier, CC1IE)
  }

  // ---- Runs ----

  datatype Event = Write(offset: word, value: word) | Poll

  /** Events with the instruction count at which they happened. */
  datatype History = Nothing | After(earlier: History, at: long, last: Event)

  function Step(s: Timer, now: long, e: Event): Timer {
    match e
    case Write(offset, value) => WriteRegister(s, offset, value, now)
    case Poll => Polled(s, now)
  }

  function Run(h: History): Timer {
    match h
    case Nothing => Reset()
    case After(before, now, e) => Step(Run(before), now, e)
  }

  function Time(h: History): long {
    match h
    case Nothing => 0
    case After(_, now, _) => now
  }

  /** The clock does not run backwards. */
  predicate Timed(h: History) {
    match h
    case Nothing => true
    case After(before, now, _) => Timed(before) && Time(before) <= now
  }

  // ---- The counter, read off the writes alone ----

  predicate Enabled(h: History) {
    match h
    case Nothing => false
    case After(before, _, Write(offset, value)) => if offset == 0x00 then value % 2 == 1 else Enabled(before)
    case After(before, _, Poll) => Enabled(before)
  }

  predicate WritesCnt(e: Event) {
    e.Write? && e.offset == 0x24
  }

  function LastWritten(h: History): word {
    match h
    case Nothing => 0
    case After(before, _, e) => if WritesCnt(e) then e.value else LastWritten(before)
  }

  /** Timer ticks, one per 54 instructions, that passed while enabled since the
      counter was last written. */
  function TicksEnabled(h: History, now: long): int {
    var sinceLast := if Enabled(h) then now / 54 - Time(h) / 54 else 0;
    match h
    case Nothing => 0
    case After(before, at, e) => if WritesCnt(e) then sinceLast else TicksEnabled(before, at) + sinceLast
  }

  lemma {:induction false} Wraps(a: int, b: int, k: int)
    requires a == b + k * WRAP
    ensures a % WRAP == b % WRAP
  {
    var q := b / WRAP;
    assert a == (q + k) * WRAP + b % WRAP;
  }

  /** Wrapping arithmetic is arithmetic on representatives. */
  lemma {:induction false} WrapSum(a: int, b: int)
    ensures (a % WRAP + b % WRAP) % WRAP == (a + b) % WRAP
    ensures (a % WRAP - b % WRAP) % WRAP == (a - b) % WRAP
  {
    Wraps(a % WRAP + b % WRAP, a + b, -(a / WRAP) - b / WRAP);
    Wraps(a % WRAP - b % WRAP, a - b, b / WRAP - a / WRAP);
  }

  /** What the offset of a running counter stands for. */
  ghost predicate Counts(s: Timer, enabled: bool, value: int, now: long) {
    && Cen(s.cr1) == enabled
    && if enabled then s.cntOffset == (value - now / INSTRUCTIONS_PER_TICK) % WRAP else s.heldCnt == value % WRAP
  }

  lemma {:induction false} CountsReads(s: Timer, enabled: bool, value: int, at: long, now: long)
    requires Counts(s, enabled, value, at)
    ensures Cnt(s, now)
            == (value + if enabled then now / INSTRUCTIONS_PER_TICK - at / INSTRUCTIONS_PER_TICK else 0) % WRAP
  {
    if enabled {
      WrapSum(now / INSTRUCTIONS_PER_TICK, value - at / INSTRUCTIONS_PER_TICK);
      assert s.cntOffset % WRAP == s.cntOffset;
    }
  }

  lemma {:induction false} CountsLater(s: Timer, enabled: bool, value: int, at: long, now: long)
    requires Counts(s, enabled, value, at)
    ensures Counts(s, enabled,
                   value + (if enabled then now / INSTRUCTIONS_PER_TICK - at / INSTRUCTIONS_PER_TICK else 0), now)
  {
  }

  lemma {:induction false} Restarts(value: int, now: long)
    ensures WrappingSub(value % WRAP, TicksFromInstructions(now)) == (value - now / INSTRUCTIONS_PER_TICK) % WRAP
  {
    WrapSum(value, now / INSTRUCTIONS_PER_TICK);
  }

  lemma {:induction false} StepCounts(s: Timer, enabled: bool, value: int, now: long, e: Event)
    requires Counts(s, enabled, value, now)
    ensures Counts(Step(s, now, e), if e.Write? && e.offset == CR1 then Cen(e.value) else enabled,
                   if WritesCnt(e) then e.value else value, now)
  {
    hide Bit;
    Restarts(value, now);
    CountsReads(s, enabled, value, now, now);
    if e.Write? {
      Restarts(e.value, now);
    }
  }

  lemma {:induction false} RunCounts(h: History)
    ensures Counts(Run(h), Enabled(h), LastWritten(h) + TicksEnabled(h, Time(h)), Time(h))
  {
    assert Counts(Reset(), false, 0, 0);
    hide Counts, Step;
    match h
    case Nothing =>
    case After(before, now, e) =>
      RunCounts(before);
      var s := Run(before);
      CountsLater(s, Enabled(before), LastWritten(before) + TicksEnabled(before, Time(before)), Time(before), now);
      TicksLater(before, now);
      StepCounts(s, Enabled(before), LastWritten(before) + TicksEnabled(before, now), now, e);
  }

  lemma {:induction false} TicksLater(h: History, now: long)
    ensures TicksEnabled(h, now) == TicksEnabled(h, Time(h))
              + if Enabled(h) then now / INSTRUCTIONS_PER_TICK - Time(h) / INSTRUCTIONS_PER_TICK else 0
  {
  }

  /** Over any run of enable, disable and counter writes, CNT is the last value
      written plus the ticks that passed while enabled since, modulo 2^32. */
  lemma {:induction false} CntCountsEnabledTicks(h: History, now: long)
    ensures Cnt(Run(h), now) == (LastWritten(h) + TicksEnabled(h, now)) % 0x1_0000_0000
    ensures ReadRegister(Run(h), 0x24, now) == (LastWritten(h) + TicksEnabled(h, now)) % 0x1_0000_0000
  {
    hide Counts, Cnt;
    RunCounts(h);
    CountsReads(Run(h), Enabled(h), LastWritten(h) + TicksEnabled(h, Time(h)), Time(h), now);
    TicksLater(h, now);
  }

  // ---- The compare channel ----

  /** `h` continues `start` without touching the counter or the target. */
  predicate Continues(start: History, h: History) {
    h == start
    || (h.After? && Continues(start, h.earlier)
        && !(h.last.Write? && (h.last.offset == 0x24 || h.last.offset == 0x34)))
  }

  /** The target was just written `d` ticks ahead of the counter; the flag of an
      earlier match may still be set. */
  ghost predicate ArmedAhead(start: History, d: nat) {
    && start.After? && start.last.Write? && start.last.offset == 0x34
    && start.last.value == (ReadRegister(Run(start), 0x24, start.at) + d) % 0x1_0000_0000
  }

  lemma {:induction false} ContinuesOn(start: History, mid: History, h: History)
    requires Continues(start, mid) && Continues(mid, h)
    ensures Continues(start, h)
  {
    if h != mid {
      ContinuesOn(start, mid, h.earlier);
    }
  }

  /** Enabled ticks between the arming and `now`. */
  function Elapsed(start: History, h: History, now: long): int {
    TicksEnabled(h, now) - TicksEnabled(start, Time(start))
  }

  lemma {:induction false} ArmedKept(start: History, h: History, d: nat)
    requires ArmedAhead(start, d) && Continues(start, h)
    ensures Run(h).ccr1Armed && Run(h).ccr1 == start.last.value && LastWritten(h) == LastWritten(start)
  {
    hide Cnt, And, Bit, HasPassedCcr1;
    if h != start {
      ArmedKept(start, h.earlier, d);
    }
  }

  lemma {:induction false} ElapsedGrows(start: History, h: History, now: long)
    requires Continues(start, h) && Timed(h) && Time(h) <= now
    ensures Timed(start) && Time(start) <= Time(h)
    ensures 0 <= Elapsed(start, h, Time(h)) <= Elapsed(start, h, now)
    ensures h != start ==> Elapsed(start, h.earlier, Time(h)) == Elapsed(start, h, Time(h))
  {
    TicksLater(h, now);
    if h != start {
      ElapsedGrows(start, h.earlier, Time(h));
    }
  }

  /** The target counts as passed in the half period that starts `d` ticks after
      the arming, and again every 2^32 ticks. */
  lemma {:induction false} PassedIff(start: History, h: History, d: nat, now: long)
    requires ArmedAhead(start, d) && Continues(start, h)
    ensures HasPassedCcr1(Run(h), now) <==> (Elapsed(start, h, now) - d) % 0x1_0000_0000 < 0x8000_0000
  {
    hide Cnt, TicksEnabled, LastWritten;
    ArmedKept(start, h, d);
    CntCountsEnabledTicks(h, now);
    CntCountsEnabledTicks(start, start.at);
    Distance(LastWritten(start), TicksEnabled(start, start.at), TicksEnabled(h, now), d);
  }

  /** How far a counter is from a target set relative to it, modulo the wrap. */
  lemma {:induction false} Distance(base: int, before: int, after: int, d: int)
    ensures ((base + after) % WRAP - ((base + before) % WRAP + d) % WRAP) % WRAP == (after - before - d) % WRAP
  {
    var start := (base + before) % WRAP;
    Wraps(start + d, base + before + d, -((base + before) / WRAP));
    WrapSum(base + after, base + before + d);
  }

  /** A clear flag is latched by a poll exactly in those half periods. */
  lemma {:induction false} LatchesIff(start: History, h: History, d: nat, now: long)
    requires ArmedAhead(start, d) && Continues(start, h) && !Matched(Run(h))
    ensures Matched(Polled(Run(h), now)) <==> (Elapsed(start, h, now) - d) % 0x1_0000_0000 < 0x8000_0000
  {
    hide Cnt, Bit, HasPassedCcr1, TicksEnabled;
    PassedIff(start, h, d, now);
    ArmedKept(start, h, d);
  }

  /** So a target may be armed up to 2^31 ticks ahead, and no further: it counts as
      passed at once exactly when it is the present or more than that ahead. */
  lemma {:induction false} PassedAtOnceIff(start: History, d: nat)
    requires ArmedAhead(start, d) && d < 0x1_0000_0000
    ensures HasPassedCcr1(Run(start), start.at) <==> d == 0 || d > 0x8000_0000
  {
    hide Cnt, HasPassedCcr1, TicksEnabled;
    PassedIff(start, start, d, start.at);
    if d != 0 {
      Wraps(0 - d, WRAP - d, -1);
    }
  }

  lemma {:induction false} NotYet(x: int, d: nat)
    requires 0 <= x < d <= HALF
    ensures (x - d) % WRAP >= HALF
  {
    Wraps(x - d, x - d + WRAP, -1);
  }

  /** From any point after the arming at which the flag is clear, a target armed 1 to
      2^31 ticks ahead is never matched before that many enabled ticks have passed,
      whatever else firmware does in the meantime. */
  lemma {:induction false} NeverEarly(start: History, mid: History, h: History, d: nat, now: long)
    requires ArmedAhead(start, d) && Continues(start, mid) && !Matched(Run(mid))
    requires Continues(mid, h) && Timed(h) && Time(h) <= now
    requires 1 <= d <= 0x8000_0000 && Elapsed(start, h, now) < d
    ensures !Matched(Run(h)) && !Matched(Polled(Run(h), now))
  {
    hide Cnt, And, HasPassedCcr1, TicksEnabled, Bit;
    ContinuesOn(start, mid, h);
    ElapsedGrows(start, h, now);
    NotYet(Elapsed(start, h, now), d);
    if h != mid {
      NeverEarly(start, mid, h.earlier, d, Time(h));
      StepMatch(Run(h.earlier), h.at, h.last);
    }
    LatchesIff(start, h, d, now);
  }

  lemma {:induction false} NothingSet()
    ensures !Bit(0, CC1IF)
  {
  }

  /** Arming with the flag still set is ordinary: a handler clears the flag, the next
      poll latches it again because the old target is still passed, and the new one
      is written then. */
  lemma {:induction false} ArmedWhileMatched()
    ensures exists start :: Timed(start) && ArmedAhead(start, 1000) && Matched(Run(start))
  {
    var running := After(After(Nothing, 0, Write(CR1, 1)), 0, Write(CCR1, 0));
    var latched := After(After(After(running, 54, Poll), 54, Write(SR, 0)), 108, Poll);
    var start := After(latched, 108, Write(CCR1, 1002));
    hide And, Bit, SetFlag;
    var s := Timer(1, 0, 0, 0, true, 0, 0);
    assert Run(running) == s;
    assert !Matched(s) by {
      NothingSet();
    }
    assert Polled(s, 54) == s.(sr := SetFlag(0, CC1IF)) && Polled(s, 108) == s.(sr := SetFlag(0, CC1IF));
    assert Run(latched) == s.(sr := SetFlag(0, CC1IF));
    assert Matched(Run(start));
    assert Timed(start) && ArmedAhead(start, 1000);
  }

  lemma {:induction false} StepMatch(s: Timer, now: long, e: Event)
    ensures Matched(Step(s, now, e)) ==> Matched(s) || (e == Poll && Matched(Polled(s, now)))
  {
    hide Bit;
  }

  /** The enabled ticks between the arming and the latest poll since. */
  function ElapsedAtPoll(start: History, h: History): int
    requires Continues(start, h)
  {
    if h == start then 0
    else if h.last == Poll then Elapsed(start, h, h.at)
    else ElapsedAtPoll(start, h.earlier)
  }

  /** The first poll at or after the target matches, if the poll before it (or the
      arming) was less than 2^31 enabled ticks earlier. */
  lemma {:induction false} MatchesAtFirstPoll(start: History, h: History, d: nat, now: long)
    requires ArmedAhead(start, d) && Continues(start, h) && Timed(h) && Time(h) <= now
    requires 1 <= d <= 0x8000_0000
    requires ElapsedAtPoll(start, h) < d <= Elapsed(start, h, now) < ElapsedAtPoll(start, h) + 0x8000_0000
    ensures Matched(Polled(Run(h), now))
  {
    hide Cnt, Bit, HasPassedCcr1, TicksEnabled;
    PassedIff(start, h, d, now);
    ArmedKept(start, h, d);
  }

  // ---- What firmware reads and is told ----

  /** The last value written at a register offset. */
  function LastAt(h: History, offset: word): word {
    match h
    case Nothing => 0
    case After(before, _, Write(o, value)) => if o == offset then value else LastAt(before, offset)
    case After(before, _, Poll) => LastAt(before, offset)
  }

  predicate TargetSet(h: History) {
    match h
    case Nothing => false
    case After(before, _, Write(o, _)) => o == 0x34 || TargetSet(before)
    case After(before, _, Poll) => TargetSet(before)
  }

  /** A poll has found the counter, as read, in the half period from a target that was
      set, since a write of SR last had bit 1 clear. */
  predicate Latched(h: History) {
    match h
    case Nothing => false
    case After(before, _, Write(o, value)) => Latched(before) && (o == 0x10 ==> Bit(value, 1))
    case After(before, now, Poll) =>
      || Latched(before)
      || (TargetSet(before)
          && (ReadRegister(Run(before), 0x24, now) - LastAt(before, 0x34)) % 0x1_0000_0000 < 0x8000_0000)
  }

  /** CR1, DIER and CCR1 read back what was last written; SR has the match flag in bit 1
      and nothing else; an interrupt is due exactly while that and DIER bit 1 are set; and
      no other offset but CNT's reads as anything. */
  lemma {:induction false} RegistersReadBack(h: History, now: long)
    ensures ReadRegister(Run(h), 0x00, now) == LastAt(h, 0x00)
    ensures ReadRegister(Run(h), 0x0c, now) == LastAt(h, 0x0c)
    ensures ReadRegister(Run(h), 0x34, now) == LastAt(h, 0x34)
    ensures forall j: nat :: Bit(ReadRegister(Run(h), 0x10, now), j) <==> j == 1 && Latched(h)
    ensures Interrupts(Run(h)) <==> Latched(h) && Bit(LastAt(h, 0x0c), 1)
    ensures forall offset: word :: offset !in {0x00, 0x0c, 0x10, 0x24, 0x34} ==> ReadRegister(Run(h), offset, now) == 0
  {
    hide Bit, Cnt, And, SetFlag;
    FieldsReadBack(h);
  }

  lemma {:induction false} FieldsReadBack(h: History)
    ensures var s := Run(h);
            && s.cr1 == LastAt(h, 0x00) && s.dier == LastAt(h, 0x0c) && s.ccr1 == LastAt(h, 0x34)
            && s.ccr1Armed == TargetSet(h) && (forall j: nat :: Bit(s.sr, j) <==> j == 1 && Latched(h))
  {
    hide Bit, Cnt, And, SetFlag;
    match h
    case Nothing => NothingElse();
    case After(before, now, e) => FieldsReadBack(before);
  }

  lemma {:induction false} NothingElse()
    ensures forall j: nat :: !Bit(0, j)
  {
  }

  // ---- The object ----

  class Tim5 {
    var cr1: word
    var dier: word
    var sr: word
    var ccr1: word
    var ccr1Armed: bool
    var cntOffset: word
    var heldCnt: word

    ghost function State(): Timer
      reads this
    {
      Timer(cr1, dier, sr, ccr1, ccr1Armed, cntOffset, heldCnt)
    }

    constructor ()
      ensures State() == Reset()
    {
      cr1, dier, sr, ccr1, ccr1Armed, cntOffset, heldCnt := 0, 0, 0, 0, false, 0, 0;
    }

    method ReadCnt(now: long) returns (value: word)
      ensures value == Cnt(State(), now)
    {
      if Cen(cr1) {
        return WrappingAdd(TicksFromInstructions(now), cntOffset);
      }
      return heldCnt;
    }

    method Read(offset: word, now: long) returns (value: word)
      ensures value == ReadRegister(State(), offset, now)
    {
      if offset == CR1 {
        return cr1;
      } else if offset == DIER {
        return dier;
      } else if offset == SR {
        return sr;
      } else if offset == CNT {
        value := ReadCnt(now);
      } else if offset == CCR1 {
        return ccr1;
      } else {
        return 0;
      }
    }

    method Write(offset: word, value: word, now: long)
      modifies this
      ensures State() == WriteRegister(old(State()), offset, value, now)
    {
      hide And, Bit;
      if offset == CR1 {
        WriteControl(value, now);
      } else if offset == DIER {
        dier := value;
      } else if offset == SR {
        sr := And(sr, value);
      } else if offset == CNT {
        WriteCounter(value, now);
      } else if offset == CCR1 {
        ccr1 := value;
        ccr1Armed := true;
      }
    }

    method WriteControl(value: word, now: long)
      modifies this
      ensures State() == WriteCr1(old(State()), value, now)
    {
      var wasEnabled, nowEnabled := Cen(cr1), Cen(value);
      if nowEnabled && !wasEnabled {
        cntOffset := WrappingSub(heldCnt, TicksFromInstructions(now));
      } else if !nowEnabled && wasEnabled {
        heldCnt := ReadCnt(now);
      }
      cr1 := value;
    }

    method WriteCounter(value: word, now: long)
      modifies this
      ensures State() == WriteCnt(old(State()), value, now)
    {
      if Cen(cr1) {
        cntOffset := WrappingSub(value, TicksFromInstructions(now));
      } else {
        heldCnt := value;
      }
    }

    method Poll(now: long, nvic: Nvic.Nvic)
      modifies this, nvic
      ensures State() == Polled(old(State()), now)
      ensures nvic.State() == if Interrupts(State()) then NvicPending.SetPending(old(nvic.State()), 50)
                              else old(nvic.State())
    {
      hide Bit, NvicPending.SetPending;
      var cnt := ReadCnt(now);
      if ccr1Armed && !Bit(sr, CC1IF) && WrappingSub(cnt, ccr1) < HALF {
        sr := SetFlag(sr, CC1IF);
      }
      if Bit(sr, CC1IF) && Bit(dier, CC1IE) {
        nvic.SetIntrPending(IRQ);
      }
    }
  }
}
