/** The internal flash controller: its key sequence and lock, sector erase over
    every alias, and the backing file that survives a restart. */
module Flash {
  import opened Bits
  import opened GuestMemory

  const ACR: word := 0x00
  const KEYR: word := 0x04
  const SR: word := 0x0c
  const CR: word := 0x10
  const OPTCR: word := 0x14

  const KEY1: word := 0x4567_0123
  const KEY2: word := 0xcdef_89ab
  const SER: nat := 1
  const STRT: nat := 16
  const LOCK: nat := 31
  const OPERR: nat := 1
  const OPTLOCK: nat := 0
  const ERASED: byte := 0xff
  const IO_CHUNK: nat := 64 * 1024
  const FLASH_SIZE: word := 0x20_0000

  /** `hasFile`: a backing file is configured. */
  datatype Persistence = Persistence(start: word, size: word, hasFile: bool)

  datatype Config = Config(start: word, size: word, aliases: seq<word>, persistent: Option<Persistence>)

  datatype Region = Region(start: word, size: word)

  // ---- Memory ----

  function Filled(m: Memory, at: nat, n: nat, v: byte): (r: Memory)
    ensures r.Keys == m.Keys
  {
    map a <- m :: if at <= a < at + n then v else m[a]
  }

  /** How far a chunked fill gets: up to the first chunk not wholly mapped. */
  function FillExtent(m: Memory, start: nat, size: nat, done: nat): (n: nat)
    requires done <= size
    ensures done <= n <= size
    ensures Mapped(m, start + done, n - done)
    ensures n == size <==> Mapped(m, start + done, size - done)
    decreases size - done
  {
    var count := if size - done < IO_CHUNK then size - done else IO_CHUNK;
    if done < size && Mapped(m, start + done, count) then FillExtent(m, start, size, done + count) else done
  }

  /** A fill works in chunks of 64 KiB: it gets through, or stops before the first chunk
      that is not wholly mapped. */
  lemma {:induction false} FillStopsAtChunk(m: Memory, start: nat, size: nat, done: nat)
    requires done <= size && done % 0x1_0000 == 0
    ensures var n := FillExtent(m, start, size, done);
            n == size || (n % 0x1_0000 == 0
                          && !Mapped(m, start + n, if size - n < 0x1_0000 then size - n else 0x1_0000))
    decreases size - done
  {
    hide Mapped;
    var count := if size - done < 0x1_0000 then size - done else 0x1_0000;
    if done < size && Mapped(m, start + done, count) && done + count < size {
      FillStopsAtChunk(m, start, size, done + count);
    }
  }

  // ---- Configuration ----

  predicate ValidConfig(c: Config) {
    && c.size == FLASH_SIZE
    && (c.persistent.Some? ==>
          && c.start + c.size < 0x1_0000_0000
          && c.persistent.value.start + c.persistent.value.size < 0x1_0000_0000
          && c.start <= c.persistent.value.start
          && c.persistent.value.start + c.persistent.value.size <= c.start + c.size)
  }

  /** Where the flash appears: its own address, then each alias. */
  function Bases(c: Config): seq<word> {
    [c.start] + c.aliases
  }

  /** An address inside the flash as seen from a base. The addition is one of 32-bit
      words: built without overflow checks it wraps. */
  function At(base: word, offset: nat): word {
    (base + offset) % 0x1_0000_0000
  }

  predicate Contains(c: Config, base: word, start: word, size: word) {
    var limit := if base + c.size < 0xffff_ffff then base + c.size else 0xffff_ffff;
    start + size < 0x1_0000_0000 && base <= start && start + size <= limit
  }

  predicate IsFlashMapping(c: Config, start: word, size: word) {
    exists i :: 0 <= i < |Bases(c)| && Contains(c, Bases(c)[i], start, size)
  }

  /** All of `start` to `start + size` lies in the 2 MiB from the base, below 0xffffffff. */
  predicate Inside(base: word, start: word, size: word) {
    base <= start && start + size <= base + 0x20_0000 && start + size <= 0xffff_ffff
  }

  /** A region counts as flash exactly when it lies inside the flash or an alias. */
  lemma {:induction false} MappingIff(c: Config, start: word, size: word)
    requires ValidConfig(c)
    ensures IsFlashMapping(c, start, size)
            <==> Inside(c.start, start, size) || exists i :: 0 <= i < |c.aliases| && Inside(c.aliases[i], start, size)
  {
    var bases := Bases(c);
    forall i | 0 <= i < |bases|
      ensures Contains(c, bases[i], start, size) <==> Inside(bases[i], start, size)
    {
    }
    assert bases[0] == c.start;
    assert forall i :: 0 <= i < |c.aliases| ==> bases[i + 1] == c.aliases[i];
  }

  /** The configurations accepted: 2 MiB, and a persistent range made of flash addresses
      only, with both ends below 2^32. */
  lemma {:induction false} ValidConfigIff(c: Config)
    ensures ValidConfig(c)
            <==> (c.size == 0x20_0000
                  && match c.persistent
                     case None => true
                     case Some(p) =>
                       && c.start + 0x20_0000 <= 0xffff_ffff
                       && c.start <= p.start && p.start + p.size <= c.start + 0x20_0000)
  {
  }

  // ---- Sectors ----

  /** The offset and size selected by a sector register value: two banks of four
      16 KiB, one 64 KiB and seven 128 KiB sectors. */
  function SectorRange(register: nat): Option<(nat, nat)> {
    if register <= 11 then Some(BankRange(register))
    else if 0x10 <= register <= 0x1b then
      var (offset, size) := BankRange(register - 0x10);
      Some((0x10_0000 + offset, size))
    else None
  }

  function BankRange(sector: nat): (nat, nat)
    requires sector <= 11
  {
    if sector <= 3 then (sector * 16 * 1024, 16 * 1024)
    else if sector == 4 then (64 * 1024, 64 * 1024)
    else (128 * 1024 + (sector - 5) * 128 * 1024, 128 * 1024)
  }

  /** The one sector register value whose range holds an offset. */
  function SectorOf(offset: nat): nat
    requires offset < FLASH_SIZE
  {
    var (bank, o) := (offset / 0x10_0000, offset % 0x10_0000);
    bank * 0x10 + BankSectorOf(o)
  }

  function BankSectorOf(o: nat): nat {
    if o < 0x1_0000 then o / 0x4000 else if o < 0x2_0000 then 4 else 4 + o / 0x2_0000
  }

  /** The sectors tile the flash: each offset lies in exactly one of them. */
  lemma {:induction false} SectorsTile(offset: nat, register: nat)
    requires offset < FLASH_SIZE && register < 0x20
    ensures (SectorRange(register).Some?
             && SectorRange(register).value.0 <= offset < SectorRange(register).value.0 + SectorRange(register).value.1)
            <==> register == SectorOf(offset)
    ensures SectorRange(register).Some? ==> SectorRange(register).value.0 + SectorRange(register).value.1 <= FLASH_SIZE
  {
    hide BankRange, BankSectorOf, SectorRange;
    var (bank, o) := (offset / 0x10_0000, offset % 0x10_0000);
    BankSectorsTile(o, register % 0x10);
    RangeInBank(register);
    assert offset == bank * 0x10_0000 + o && 0 <= bank < 2 && 0 <= register / 0x10 < 2;
    assert register == SectorOf(offset) <==> register / 0x10 == bank && register % 0x10 == BankSectorOf(o);
    if SectorRange(register).Some? {
      var (start, size) := BankRange(register % 0x10);
      assert SectorRange(register).value.0 == register / 0x10 * 0x10_0000 + start;
    }
  }

  /** The upper bit of the register selects the bank, the rest a sector of it. */
  lemma {:induction false} RangeInBank(register: nat)
    requires register < 0x20
    ensures SectorRange(register).Some? <==> register % 0x10 < 12
    ensures SectorRange(register).Some? ==>
              var (start, size) := BankRange(register % 0x10);
              SectorRange(register).value == (register / 0x10 * 0x10_0000 + start, size)
  {
    hide BankRange;
  }

  /** The twelve sectors of a bank, by size. */
  lemma {:induction false} BankSectorsTile(o: nat, sector: nat)
    requires o < 0x10_0000 && sector < 0x10
    ensures BankSectorOf(o) < 12
    ensures sector < 12 ==>
              var (start, size) := BankRange(sector);
              start + size <= 0x10_0000 && (start <= o < start + size <==> sector == BankSectorOf(o))
  {
  }

  /** What a sector erase leaves, base after base, and whether it got through. */
  function Erase(m: Memory, bases: seq<word>, offset: nat, size: nat): (r: (Memory, bool))
    ensures r.0.Keys == m.Keys
    decreases |bases|
  {
    if bases == [] then (m, true)
    else
      var n := FillExtent(m, At(bases[0], offset), size, 0);
      var filled := Filled(m, At(bases[0], offset), n, ERASED);
      if n < size then (filled, false) else Erase(filled, bases[1..], offset, size)
  }

  predicate InSector(bases: seq<word>, offset: nat, size: nat, a: nat) {
    exists i :: 0 <= i < |bases| && At(bases[i], offset) <= a < At(bases[i], offset) + size
  }

  lemma {:induction false} MappedByKeys(m: Memory, m': Memory, at: nat, n: nat)
    requires m.Keys == m'.Keys
    ensures Mapped(m, at, n) <==> Mapped(m', at, n)
  {
    assert forall a: nat :: a in m <==> a in m';
  }

  /** Erasing a sector sets exactly its bytes, at the flash address and at each
      alias, to 0xFF; it gets through exactly when all of them are mapped, and
      even a partial erase touches nothing else. */
  lemma {:induction false} EraseExact(m: Memory, bases: seq<word>, offset: nat, size: nat)
    ensures var (r, ok) := Erase(m, bases, offset, size);
            && (ok <==> forall i :: 0 <= i < |bases| ==> Mapped(m, At(bases[i], offset), size))
            && (ok ==> forall a: nat :: a in m && InSector(bases, offset, size, a) ==> r[a] == ERASED)
            && (forall a: nat :: a in m ==> r[a] == m[a] || (r[a] == ERASED && InSector(bases, offset, size, a)))
    decreases |bases|
  {
    hide FillExtent, Mapped;
    if bases != [] {
      var (base, rest) := (bases[0], bases[1..]);
      var n := FillExtent(m, At(base, offset), size, 0);
      var filled := Filled(m, At(base, offset), n, ERASED);
      EraseExact(filled, rest, offset, size);
      forall at: nat
        ensures Mapped(m, at, size) <==> Mapped(filled, at, size)
      {
        MappedByKeys(m, filled, at, size);
      }
      var (r, ok) := Erase(m, bases, offset, size);
      forall a: nat | a in m
        ensures r[a] == m[a] || (r[a] == ERASED && InSector(bases, offset, size, a))
        ensures ok && InSector(bases, offset, size, a) ==> r[a] == ERASED
      {
        SectorSplits(bases, offset, size, a);
      }
      assert ok <==> forall i :: 0 <= i < |bases| ==> Mapped(m, At(bases[i], offset), size) by {
        if ok {
          forall i | 0 <= i < |bases|
            ensures Mapped(m, At(bases[i], offset), size)
          {
            if i != 0 {
              assert rest[i - 1] == bases[i];
            }
          }
        }
      }
    }
  }

  lemma {:induction false} SectorSplits(bases: seq<word>, offset: nat, size: nat, a: nat)
    requires bases != []
    ensures InSector(bases, offset, size, a)
            <==> At(bases[0], offset) <= a < At(bases[0], offset) + size || InSector(bases[1..], offset, size, a)
  {
    if InSector(bases[1..], offset, size, a) {
      var i :| 0 <= i < |bases[1..]| && At(bases[1..][i], offset) <= a < At(bases[1..][i], offset) + size;
      assert bases[i + 1] == bases[1..][i];
    }
    if InSector(bases, offset, size, a) {
      var i :| 0 <= i < |bases| && At(bases[i], offset) <= a < At(bases[i], offset) + size;
      if i != 0 {
        assert bases[1..][i - 1] == bases[i];
      }
    }
  }

  // ---- The controller ----

  datatype Controller = Controller(acr: word, sr: word, cr: word, optcr: word, keyStage: nat, mem: Memory,
                                   file: Option<seq<byte>>)

  function Reset(mem: Memory, file: Option<seq<byte>>): Controller {
    Controller(0, 0, 0x8000_0000, 0x0fff_aaed, 0, mem, file)
  }

  predicate Locked(s: Controller) {
    Bit(s.cr, LOCK)
  }

  function WriteKey(s: Controller, value: word): Controller {
    if s.keyStage == 0 && value == KEY1 then s.(keyStage := 1)
    else if s.keyStage == 1 && value == KEY2 then s.(keyStage := 0, cr := ClearBit(s.cr, LOCK))
    else s.(keyStage := 0)
  }

  function SectorField(value: word): nat {
    value / 8 % 0x20
  }

  function EraseSector(s: Controller, config: Option<Config>, register: nat): Controller {
    if config.None? || SectorRange(register).None? then s.(sr := SetFlag(s.sr, OPERR))
    else
      var (offset, size) := SectorRange(register).value;
      var (mem, ok) := Erase(s.mem, Bases(config.value), offset, size);
      if ok then s.(mem := mem) else s.(mem := mem, sr := SetFlag(s.sr, OPERR))
  }

  predicate Persists(config: Option<Config>) {
    config.Some? && config.value.persistent.Some? && config.value.persistent.value.hasFile
  }

  function Persist(s: Controller, config: Option<Config>): Controller {
    if !Persists(config) then s
    else
      var p := config.value.persistent.value;
      if Mapped(s.mem, p.start, p.size) then s.(file := Some(BytesAt(s.mem, p.start, p.size)))
      else s.(sr := SetFlag(s.sr, OPERR))
  }

  predicate Starts(s: Controller, value: word) {
    !Locked(s) && Bit(value, STRT) && Bit(value, SER)
  }

  /** An unlocked controller is locked again. */
  predicate Locks(s: Controller, value: word) {
    !Locked(s) && Bit(value, LOCK)
  }

  function WriteControl(s: Controller, config: Option<Config>, value: word): Controller {
    if Locked(s) && !Bit(value, LOCK) then s
    else
      var t := s.(cr := ClearBit(value, STRT));
      var u := if Starts(s, value) then EraseSector(t, config, SectorField(value)) else t;
      if Locks(s, value) then Persist(u, config) else u
  }

  function WriteRegister(s: Controller, config: Option<Config>, offset: word, value: word): Controller {
    if offset == ACR then s.(acr := value)
    else if offset == KEYR then WriteKey(s, value)
    else if offset == SR then s.(sr := AndNot(s.sr, value))
    else if offset == CR then WriteControl(s, config, value)
    else if offset == OPTCR && !Bit(s.optcr, OPTLOCK) then s.(optcr := value)
    else s
  }

  function ReadRegister(s: Controller, offset: word): word {
    if offset == ACR then s.acr
    else if offset == SR then s.sr
    else if offset == CR then s.cr
    else if offset == OPTCR then s.optcr
    else 0
  }

  // ---- Runs ----

  datatype Event =
    | Register(offset: word, value: word)
    | Store(at: nat, b: byte) // a firmware store reaching mapped memory

  datatype History = Nothing | After(earlier: History, last: Event)

  function Step(s: Controller, config: Option<Config>, e: Event): Controller {
    match e
    case Register(offset, value) => WriteRegister(s, config, offset, value)
    case Store(at, b) => if at in s.mem then s.(mem := s.mem[at := b]) else s
  }

  function Run(s0: Controller, config: Option<Config>, h: History): Controller {
    match h
    case Nothing => s0
    case After(before, e) => Step(Run(s0, config, before), config, e)
  }

  /** How many of the latest KEYR writes (offset 4) in a row were KEY1. */
  function TrailingKey1(h: History): nat {
    match h
    case Nothing => 0
    case After(before, Register(offset, value)) =>
      if offset != 0x04 then TrailingKey1(before)
      else if value == 0x4567_0123 then 1 + TrailingKey1(before) else 0
    case After(before, Store(_, _)) => TrailingKey1(before)
  }

  /** The lock, read off the register writes alone: KEY2 opens it and LOCK (bit 31 of CR,
      offset 0x10) closes it. */
  predicate LockHeld(h: History) {
    match h
    case Nothing => true
    case After(before, Register(offset, value)) =>
      if offset == 0x04 && value == 0xcdef_89ab && TrailingKey1(before) % 2 == 1 then false
      else if offset == 0x10 then LockHeld(before) || Bit(value, 31)
      else LockHeld(before)
    case After(before, Store(_, _)) => LockHeld(before)
  }

  lemma {:induction false} ControlLock(s: Controller, config: Option<Config>, value: word)
    ensures var t := WriteControl(s, config, value);
            && (Locked(t) <==> Locked(s) || Bit(value, LOCK))
            && t.keyStage == s.keyStage && t.mem.Keys == s.mem.Keys && t.optcr == s.optcr
  {
    hide Bit, Erase, Mapped;
  }

  /** The key stage is the parity of the trailing run of KEY1 writes, and the lock
      follows the register writes. */
  lemma {:induction false} LockFollowsKeys(mem: Memory, file: Option<seq<byte>>, config: Option<Config>, h: History)
    ensures var s := Run(Reset(mem, file), config, h);
            && s.keyStage == TrailingKey1(h) % 2
            && (Locked(s) <==> LockHeld(h))
            && s.mem.Keys == mem.Keys
  {
    hide WriteControl, EraseSector, Persist;
    match h
    case Nothing =>
      assert Bit(0x8000_0000, 31) by { TopBit(); }
    case After(before, e) =>
      LockFollowsKeys(mem, file, config, before);
      var s := Run(Reset(mem, file), config, before);
      if e.Register? && e.offset == CR {
        ControlLock(s, config, e.value);
      } else {
        hide Bit;
      }
  }

  lemma {:induction false} TopBit()
    ensures Bit(0x8000_0000, 31)
  {
    assert Pow2(8) == 0x100;
    assert Pow2(16) == 0x100 * Pow2(8);
    assert Pow2(24) == 0x100 * Pow2(16);
    assert Shl(1, 31) == Pow2(31);
    assert Bit(Shl(1, 31), 31) by { assert Bit(1, 0); }
  }

  /** A bit of CR, read off the register writes: a write is dropped while the lock is held
      unless it sets LOCK, STRT (bit 16) is never kept, and unlocking clears LOCK. */
  predicate ControlBit(h: History, j: nat) {
    match h
    case Nothing => j == 31
    case After(before, Register(offset, value)) =>
      if offset == 0x10 && (!LockHeld(before) || Bit(value, 31)) then j != 16 && Bit(value, j)
      else if offset == 0x04 && value == 0xcdef_89ab && TrailingKey1(before) % 2 == 1
      then j != 31 && ControlBit(before, j)
      else ControlBit(before, j)
    case After(before, Store(_, _)) => ControlBit(before, j)
  }

  function LastAccess(h: History): word {
    match h
    case Nothing => 0
    case After(before, Register(offset, value)) => if offset == 0x00 then value else LastAccess(before)
    case After(before, Store(_, _)) => LastAccess(before)
  }

  /** What firmware reads back over any run: the access register holds what was last written,
      CR what the writes left of it, the option register keeps its reset value since nothing
      clears OPTLOCK, the key register shows nothing, and SR can only hold OPERR (bit 1). */
  lemma {:induction false} RegistersReadBack(mem: Memory, file: Option<seq<byte>>, config: Option<Config>, h: History,
                                             j: nat)
    ensures var s := Run(Reset(mem, file), config, h);
            && ReadRegister(s, 0x00) == LastAccess(h)
            && (Bit(ReadRegister(s, 0x10), j) <==> ControlBit(h, j))
            && ReadRegister(s, 0x14) == 0x0fff_aaed
            && ReadRegister(s, 0x04) == 0 && ReadRegister(s, 0x08) == 0
            && (Bit(ReadRegister(s, 0x0c), j) ==> j == 1)
  {
    hide Bit, WriteControl, Erase;
    match h
    case Nothing => ResetBits(j);
    case After(before, e) =>
      var s := Run(Reset(mem, file), config, before);
      RegistersReadBack(mem, file, config, before, j);
      LockFollowsKeys(mem, file, config, before);
      OptionLock();
      if e.Register? {
        ControlWriteIs(s, config, e.value, j);
      }
  }

  lemma {:induction false} OptionLock()
    ensures Bit(0x0fff_aaed, 0)
  {
  }

  lemma {:induction false} ResetBits(j: nat)
    ensures Bit(0x8000_0000, j) <==> j == 31
    ensures !Bit(0, j)
  {
    hide Bit;
    assert Pow2(8) == 0x100;
    assert Pow2(16) == 0x100 * Pow2(8);
    assert Pow2(24) == 0x100 * Pow2(16);
    assert Shl(1, 31) == Pow2(31);
    assert Shl(1, 31) == 0x8000_0000 by { assert Pow2(31) == 0x80 * Pow2(24); }
    OneBit();
  }

  lemma {:induction false} OneBit()
    ensures forall j: nat :: Bit(1, j) <==> j == 0
    ensures forall j: nat :: !Bit(0, j)
  {
  }

  lemma {:induction false} ControlWriteIs(s: Controller, config: Option<Config>, value: word, j: nat)
    ensures var t := WriteControl(s, config, value);
            && t.acr == s.acr && t.optcr == s.optcr
            && (Bit(t.cr, j) <==> if Locked(s) && !Bit(value, 31) then Bit(s.cr, j) else j != 16 && Bit(value, j))
            && (Bit(t.sr, j) ==> j == 1 || Bit(s.sr, j))
  {
    hide Bit, Erase, Mapped;
  }

  /** CR shows the lock as the writes left it and never a start bit, and the key register
      shows nothing. */
  lemma {:induction false} LockIsVisible(mem: Memory, file: Option<seq<byte>>, config: Option<Config>, h: History)
    ensures var s := Run(Reset(mem, file), config, h);
            && (Bit(ReadRegister(s, 0x10), 31) <==> LockHeld(h))
            && !Bit(ReadRegister(s, 0x10), 16)
            && ReadRegister(s, 0x04) == 0
  {
    LockFollowsKeys(mem, file, config, h);
    NeverStarted(mem, file, config, h);
  }

  lemma {:induction false} NeverStarted(mem: Memory, file: Option<seq<byte>>, config: Option<Config>, h: History)
    ensures !Bit(Run(Reset(mem, file), config, h).cr, STRT)
  {
    LockWord();
    hide Bit, Erase, Mapped, EraseSector, Persist;
    if h.After? {
      var s := Run(Reset(mem, file), config, h.earlier);
      NeverStarted(mem, file, config, h.earlier);
      if h.last.Register? && h.last.offset == CR {
        StartNotKept(s, config, h.last.value);
      }
    }
  }

  lemma {:induction false} StartNotKept(s: Controller, config: Option<Config>, value: word)
    ensures var t := WriteControl(s, config, value);
            t.cr == s.cr || !Bit(t.cr, STRT)
  {
    hide Bit, Erase, Mapped;
  }

  /** The lock opens only when KEY2 is written right after, among KEYR writes, an
      odd run of KEY1. */
  lemma {:induction false} UnlockNeedsKeys(mem: Memory, file: Option<seq<byte>>, config: Option<Config>, h: History,
                                           e: Event)
    requires Locked(Run(Reset(mem, file), config, h)) && !Locked(Run(Reset(mem, file), config, After(h, e)))
    ensures e == Register(0x04, 0xcdef_89ab) && TrailingKey1(h) % 2 == 1
  {
    hide Bit, Step;
    LockFollowsKeys(mem, file, config, h);
    LockFollowsKeys(mem, file, config, After(h, e));
  }

  /** A register write changes memory only as an erase started while unlocked, and
      then only to 0xFF inside the selected sector or one of its aliases; while
      locked it changes neither memory nor the backing file. */
  lemma {:induction false} ErasesOnlyUnlocked(s: Controller, config: Option<Config>, offset: word, value: word)
    ensures var t := WriteRegister(s, config, offset, value);
            && t.mem.Keys == s.mem.Keys
            && (t.mem != s.mem || t.file != s.file ==> offset == 0x10 && !Bit(s.cr, 31))
            && (t.mem != s.mem ==>
                  && Bit(value, 1) && Bit(value, 16) && config.Some? && SectorRange(SectorField(value)).Some?
                  && var (at, size) := SectorRange(SectorField(value)).value;
                     forall a: nat :: a in s.mem && t.mem[a] != s.mem[a] ==>
                       t.mem[a] == ERASED && InSector(Bases(config.value), at, size, a))
  {
    hide Bit, Erase, Mapped, InSector;
    if config.Some? && SectorRange(SectorField(value)).Some? {
      var (at, size) := SectorRange(SectorField(value)).value;
      EraseExact(s.mem, Bases(config.value), at, size);
    }
  }

  /** An erase of mapped flash sets the whole sector and each of its aliases. */
  lemma {:induction false} EraseCovers(s: Controller, config: Config, value: word, a: nat)
    requires Starts(s, value) && SectorRange(SectorField(value)).Some?
    requires var (at, size) := SectorRange(SectorField(value)).value;
             && (forall i :: 0 <= i < |Bases(config)| ==> Mapped(s.mem, At(Bases(config)[i], at), size))
             && InSector(Bases(config), at, size, a)
    ensures a in s.mem && WriteRegister(s, Some(config), CR, value).mem[a] == ERASED
  {
    hide Bit, Erase, Bases;
    var (at, size) := SectorRange(SectorField(value)).value;
    EraseExact(s.mem, Bases(config), at, size);
  }

  /** The first offset of each sector of a bank, and its end: four of 16 KiB, one of 64 KiB,
      seven of 128 KiB. */
  const SECTOR_STARTS: seq<nat> := [
    0x0_0000, 0x0_4000, 0x0_8000, 0x0_c000, 0x1_0000, 0x2_0000, 0x4_0000, 0x6_0000, 0x8_0000, 0xa_0000, 0xc_0000,
    0xe_0000, 0x10_0000]

  /** The offsets of the sector with number `n`: bit 4 is the bank, bits 0 to 3 the sector. */
  function FirstOffset(n: nat): nat
    requires n < 0x20 && n % 16 < 12
  {
    n / 16 * 0x10_0000 + SECTOR_STARTS[n % 16]
  }

  function EndOffset(n: nat): nat
    requires n < 0x20 && n % 16 < 12
  {
    n / 16 * 0x10_0000 + SECTOR_STARTS[n % 16 + 1]
  }

  function Length(n: nat): nat
    requires n < 0x20 && n % 16 < 12
  {
    EndOffset(n) - FirstOffset(n)
  }

  /** `a` is an address of the sector, seen from the flash address or an alias. */
  predicate Selected(c: Config, n: nat, a: nat)
    requires n < 0x20 && n % 16 < 12
  {
    || (c.start + FirstOffset(n)) % 0x1_0000_0000 <= a < (c.start + FirstOffset(n)) % 0x1_0000_0000 + Length(n)
    || exists i :: 0 <= i < |c.aliases|
         && (c.aliases[i] + FirstOffset(n)) % 0x1_0000_0000 <= a
            < (c.aliases[i] + FirstOffset(n)) % 0x1_0000_0000 + Length(n)
  }

  /** The sector number `n` is in bits 3 to 7. */
  ghost predicate Names(value: word, n: nat) {
    n < 0x20 && forall j: nat :: j < 5 ==> (Bit(value, 3 + j) <==> Bit(n, j))
  }

  lemma {:induction false} NumberInField(value: word, n: nat)
    requires Names(value, n)
    ensures SectorField(value) == n
  {
    hide Bit;
    var field := value / 8 % 0x20;
    assert Pow2(3) == 8 && Pow2(5) == 0x20;
    HighAndLow(value, 3, value / 8, value % 8);
    HighAndLow(value / 8, 5, value / 8 / 0x20, field);
    HighBitsClear(n, 5);
    HighBitsClear(field, 5);
    forall j: nat
      ensures Bit(field, j) <==> Bit(n, j)
    {
      if j < 5 {
        assert Bit(value, 3 + j) <==> Bit(value / 8, j);
      }
    }
    SameBits(field, n);
  }

  lemma {:induction false} RangeIs(n: nat)
    requires n < 0x20
    ensures SectorRange(n) == if n % 16 < 12 then Some((FirstOffset(n), Length(n))) else None
  {
    hide BankRange;
    RangeInBank(n);
    if n % 16 < 12 {
      BankRangeIs(n % 16);
    }
  }

  lemma {:induction false} BankRangeIs(k: nat)
    requires k < 12
    ensures BankRange(k) == (SECTOR_STARTS[k], SECTOR_STARTS[k + 1] - SECTOR_STARTS[k])
  {
  }

  lemma {:induction false} SelectedIs(c: Config, n: nat, a: nat)
    requires n < 0x20 && n % 16 < 12
    ensures Selected(c, n, a) <==> InSector(Bases(c), FirstOffset(n), Length(n), a)
  {
    hide FirstOffset, Length;
    SectorSplits(Bases(c), FirstOffset(n), Length(n), a);
    assert Bases(c)[1..] == c.aliases;
  }

  /** The sector is there to be erased, at every base. */
  ghost predicate SectorMapped(m: Memory, c: Config, n: nat)
    requires n < 0x20 && n % 16 < 12
  {
    forall a: nat :: Selected(c, n, a) ==> a in m
  }

  lemma {:induction false} SectorMappedIs(m: Memory, c: Config, n: nat)
    requires n < 0x20 && n % 16 < 12
    ensures var (at, size) := (FirstOffset(n), Length(n));
            SectorMapped(m, c, n) <==> forall i :: 0 <= i < |Bases(c)| ==> Mapped(m, At(Bases(c)[i], at), size)
  {
    hide FirstOffset, Length, Selected, Bases, At;
    var (at, size) := (FirstOffset(n), Length(n));
    forall a: nat
      ensures Selected(c, n, a) <==> InSector(Bases(c), at, size, a)
    {
      SelectedIs(c, n, a);
    }
    if SectorMapped(m, c, n) {
      forall i, a: nat | 0 <= i < |Bases(c)| && At(Bases(c)[i], at) <= a < At(Bases(c)[i], at) + size
        ensures a in m
      {
        assert InSector(Bases(c), at, size, a);
      }
    }
  }

  /** Starting an erase (CR written unlocked with SER and STRT, bits 1 and 16) with `n` in
      bits 3 to 7: every byte of sector `n`, at the flash address and at each alias, is set
      to 0xFF and no other byte changes; a number that names no sector, or a sector not
      wholly mapped at some base, raises OPERR (bit 1 of SR) instead. */
  lemma {:induction false} ErasesSelected(s: Controller, c: Config, value: word, n: nat)
    requires !Bit(s.cr, 31) && Bit(value, 1) && Bit(value, 16)
    requires Names(value, n)
    ensures var t := WriteRegister(s, Some(c), 0x10, value);
            && t.mem.Keys == s.mem.Keys
            && if n % 16 >= 12 then t.mem == s.mem && Bit(t.sr, 1)
               else if SectorMapped(s.mem, c, n) then
                 && (forall a: nat :: a in s.mem ==> t.mem[a] == if Selected(c, n, a) then 0xff else s.mem[a])
                 && (!Bit(value, 31) ==> t.sr == s.sr)
               else
                 && (forall a: nat :: a in s.mem && t.mem[a] != s.mem[a] ==> Selected(c, n, a) && t.mem[a] == 0xff)
                 && Bit(t.sr, 1)
  {
    hide Bit, Erase, SectorField, SectorRange, FirstOffset, Length, Selected, SectorMapped, Bases, InSector, Mapped,
         BytesAt, At;
    NumberInField(value, n);
    RangeIs(n);
    if n % 16 < 12 {
      SectorMappedIs(s.mem, c, n);
      EraseExact(s.mem, Bases(c), FirstOffset(n), Length(n));
      forall a: nat
        ensures Selected(c, n, a) <==> InSector(Bases(c), FirstOffset(n), Length(n), a)
      {
        SelectedIs(c, n, a);
      }
    }
  }

  /** The bases are erased in order: those before the first that is not wholly mapped are,
      whatever comes after them. */
  lemma {:induction false} ErasesInOrder(m: Memory, bases: seq<word>, offset: nat, size: nat, k: nat, a: nat)
    requires k < |bases| && forall i :: 0 <= i <= k ==> Mapped(m, At(bases[i], offset), size)
    requires At(bases[k], offset) <= a < At(bases[k], offset) + size
    ensures a in m && Erase(m, bases, offset, size).0[a] == 0xff
    decreases |bases|
  {
    hide FillExtent, Mapped;
    assert Mapped(m, At(bases[k], offset), size) && Mapped(m, At(bases[0], offset), size);
    MappedAt(m, At(bases[k], offset), size, a - At(bases[k], offset));
    var filled := Filled(m, At(bases[0], offset), size, ERASED);
    if k == 0 {
      EraseExact(filled, bases[1..], offset, size);
    } else {
      forall i | 0 <= i < k
        ensures Mapped(filled, At(bases[1..][i], offset), size)
      {
        assert bases[1..][i] == bases[i + 1];
        MappedByKeys(m, filled, At(bases[i + 1], offset), size);
      }
      ErasesInOrder(filled, bases[1..], offset, size, k - 1, a);
    }
  }

  /** So an erase that stops at a base where the sector is not wholly mapped has erased it at
      every base before, the flash address first and then the aliases in order. */
  lemma {:induction false} ErasedUpToFailure(s: Controller, c: Config, value: word, n: nat, k: nat, a: nat)
    requires !Bit(s.cr, 31) && Bit(value, 1) && Bit(value, 16) && Names(value, n) && n % 16 < 12
    requires k <= |c.aliases|
    requires forall i :: 0 <= i <= k ==> Mapped(s.mem, At(([c.start] + c.aliases)[i], FirstOffset(n)), Length(n))
    requires var at := At(([c.start] + c.aliases)[k], FirstOffset(n)); at <= a < at + Length(n)
    ensures a in s.mem && WriteRegister(s, Some(c), 0x10, value).mem[a] == 0xff
  {
    hide Bit, Erase, SectorField, SectorRange, FirstOffset, Length, Mapped, BytesAt, At;
    NumberInField(value, n);
    RangeIs(n);
    ErasesInOrder(s.mem, [c.start] + c.aliases, FirstOffset(n), Length(n), k, a);
  }

  /** A CR write fails to erase sector `n`, or to save the persistent range. */
  ghost predicate EraseFails(m: Memory, config: Option<Config>, n: nat)
    requires n < 0x20
  {
    match config
    case None => true
    case Some(c) => n % 16 >= 12 || !SectorMapped(m, c, n)
  }

  ghost predicate SaveFails(m: Memory, config: Option<Config>) {
    match config
    case None => false
    case Some(c) =>
      match c.persistent
      case None => false
      case Some(p) => p.hasFile && !Mapped(m, p.start, p.size)
  }

  /** Each register after a write: SR loses the ones written to it and gains OPERR, bit 1,
      exactly when an erase or a save that the write starts fails; OPTCR is written only
      while its bit 0 is clear; the others as written. */
  lemma {:induction false} StatusFollows(s: Controller, config: Option<Config>, offset: word, value: word, n: nat,
                                         j: nat)
    requires Names(value, n)
    ensures var t := WriteRegister(s, config, offset, value);
            && (Bit(t.sr, j) <==>
                  || (Bit(s.sr, j) && !(offset == 0x0c && Bit(value, j)))
                  || (j == 1 && offset == 0x10 && !Bit(s.cr, 31)
                      && ((Bit(value, 1) && Bit(value, 16) && EraseFails(s.mem, config, n))
                          || (Bit(value, 31) && SaveFails(s.mem, config)))))
            && t.acr == (if offset == 0x00 then value else s.acr)
            && t.optcr == (if offset == 0x14 && !Bit(s.optcr, 0) then value else s.optcr)
            && (offset != 0x04 && offset != 0x10 ==> t.cr == s.cr)
            && ReadRegister(t, 0x0c) == t.sr && ReadRegister(t, 0x14) == t.optcr
  {
    hide Bit, Erase, SectorField, SectorRange, Selected, SectorMapped, Mapped, BytesAt;
    NumberInField(value, n);
    if offset == 0x10 {
      ErasedStatus(s.(cr := ClearBit(value, 16)), config, n, j);
      SaveKept(s, config, value, n);
    }
  }

  lemma {:induction false} ErasedStatus(s: Controller, config: Option<Config>, n: nat, j: nat)
    requires n < 0x20
    ensures var t := EraseSector(s, config, n);
            && t.mem.Keys == s.mem.Keys
            && (Bit(t.sr, j) <==> Bit(s.sr, j) || (j == 1 && EraseFails(s.mem, config, n)))
            && t.cr == s.cr && t.acr == s.acr && t.optcr == s.optcr
  {
    hide Bit, Erase, SectorRange, FirstOffset, Length, Selected, SectorMapped, Mapped, Bases, At;
    RangeIs(n);
    if config.Some? && n % 16 < 12 {
      SectorMappedIs(s.mem, config.value, n);
      EraseExact(s.mem, Bases(config.value), FirstOffset(n), Length(n));
    }
  }

  /** Saving finds the same mappings before and after an erase. */
  lemma {:induction false} SaveKept(s: Controller, config: Option<Config>, value: word, n: nat)
    requires n < 0x20
    ensures var t := EraseSector(s.(cr := ClearBit(value, 16)), config, n);
            SaveFails(t.mem, config) <==> SaveFails(s.mem, config)
  {
    hide Bit, Erase, SectorRange, Mapped;
    var t := EraseSector(s.(cr := ClearBit(value, 16)), config, n);
    if config.Some? && config.value.persistent.Some? {
      var p := config.value.persistent.value;
      MappedByKeys(s.mem, t.mem, p.start, p.size);
    }
  }

  // ---- Restart ----

  /** Writing the file over each base in turn; the later one wins where two overlap. */
  function LoadAll(m: Memory, bases: seq<word>, offset: nat, bytes: seq<byte>): (r: Memory)
    ensures r.Keys == m.Keys
    decreases |bases|
  {
    if bases == [] then m
    else Written(LoadAll(m, bases[..|bases| - 1], offset, bytes), At(bases[|bases| - 1], offset), bytes)
  }

  /** How many bases, from the first, have the whole range mapped. */
  function LeadingMapped(m: Memory, bases: seq<word>, offset: nat, size: nat): (n: nat)
    ensures n <= |bases|
    ensures forall i :: 0 <= i < n ==> Mapped(m, At(bases[i], offset), size)
    ensures n < |bases| ==> !Mapped(m, At(bases[n], offset), size)
  {
    if bases == [] then 0
    else
      var (last, n) := (|bases| - 1, LeadingMapped(m, bases[..|bases| - 1], offset, size));
      if n == last && Mapped(m, At(bases[last], offset), size) then last + 1 else n
  }

  /** The memory after a load and whether it got through: a missing file is fine, a
      wrong length is refused, and the first base not mapped stops it. */
  function LoadPersistent(m: Memory, c: Config, file: Option<seq<byte>>): (r: (Memory, bool))
    requires ValidConfig(c)
    ensures r.0.Keys == m.Keys
  {
    if c.persistent.None? || !c.persistent.value.hasFile || file.None? then (m, true)
    else if |file.value| != c.persistent.value.size then (m, false)
    else
      var offset := c.persistent.value.start - c.start;
      var n := LeadingMapped(m, Bases(c), offset, |file.value|);
      (LoadAll(m, Bases(c)[..n], offset, file.value), n == |Bases(c)|)
  }

  /** Filling the regions that lie in flash, up to the first that is not mapped. */
  function Initialize(m: Memory, c: Config, regions: seq<Region>): (r: (Memory, bool))
    ensures r.0.Keys == m.Keys
    decreases |regions|
  {
    if regions == [] then (m, true)
    else
      var ((rest, ok), last) := (Initialize(m, c, regions[..|regions| - 1]), regions[|regions| - 1]);
      if !ok || !IsFlashMapping(c, last.start, last.size) then (rest, ok)
      else
        var n := FillExtent(rest, last.start, last.size, 0);
        (Filled(rest, last.start, n, ERASED), n == last.size)
  }

  predicate Window(base: word, offset: nat, n: nat, a: nat) {
    At(base, offset) <= a < At(base, offset) + n
  }

  ghost predicate WindowsDisjoint(bases: seq<word>, offset: nat, n: nat) {
    forall i, j :: 0 <= i < j < |bases| ==>
      At(bases[i], offset) + n <= At(bases[j], offset) || At(bases[j], offset) + n <= At(bases[i], offset)
  }

  lemma {:induction false} LoadedAt(m: Memory, bases: seq<word>, offset: nat, bytes: seq<byte>, i: nat, k: nat)
    requires i < |bases| && k < |bytes| && At(bases[i], offset) + k in m
    requires WindowsDisjoint(bases, offset, |bytes|)
    ensures LoadAll(m, bases, offset, bytes)[At(bases[i], offset) + k] == bytes[k]
    decreases |bases|
  {
    hide At;
    var last := |bases| - 1;
    if i < last {
      LoadedAt(m, bases[..last], offset, bytes, i, k);
      assert !Window(bases[last], offset, |bytes|, At(bases[i], offset) + k);
    }
  }

  /** The offset of the persistent range in the flash. */
  function RangeOffset(c: Config): nat
    requires ValidConfig(c) && c.persistent.Some?
  {
    c.persistent.value.start - c.start
  }

  /** Every base has the persistent range mapped, at places of its own. */
  ghost predicate RangesMapped(m: Memory, c: Config)
    requires ValidConfig(c) && c.persistent.Some?
  {
    && (forall i :: 0 <= i < |Bases(c)| ==> Mapped(m, At(Bases(c)[i], RangeOffset(c)), c.persistent.value.size))
    && WindowsDisjoint(Bases(c), RangeOffset(c), c.persistent.value.size)
  }

  /** A load over mapped ranges gets through, and then the flash and each alias hold
      the file's bytes. */
  lemma {:induction false} LoadRestores(m: Memory, c: Config, file: seq<byte>, i: nat)
    requires ValidConfig(c) && Persists(Some(c)) && RangesMapped(m, c) && |file| == c.persistent.value.size
    requires i < |Bases(c)|
    ensures var (loaded, ok) := LoadPersistent(m, c, Some(file));
            && ok && Mapped(loaded, At(Bases(c)[i], RangeOffset(c)), |file|)
            && BytesAt(loaded, At(Bases(c)[i], RangeOffset(c)), |file|) == file
  {
    hide LoadAll, Bases, At, Mapped;
    var (bases, offset) := (Bases(c), RangeOffset(c));
    var n := LeadingMapped(m, bases, offset, |file|);
    assert n == |bases| && bases[..n] == bases;
    var loaded := LoadPersistent(m, c, Some(file)).0;
    var at := At(bases[i], offset);
    MappedByKeys(m, loaded, at, |file|);
    forall k | 0 <= k < |file|
      ensures BytesAt(loaded, at, |file|)[k] == file[k]
    {
      MappedAt(m, at, |file|, k);
      LoadedAt(m, bases, offset, file, i, k);
    }
  }

  lemma {:induction false} MappedAt(m: Memory, at: nat, n: nat, k: nat)
    requires Mapped(m, at, n) && k < n
    ensures at + k in m
  {
  }

  /** The persistent range of a memory. */
  function Range(m: Memory, c: Config): seq<byte>
    requires Persists(Some(c)) && Mapped(m, c.persistent.value.start, c.persistent.value.size)
  {
    BytesAt(m, c.persistent.value.start, c.persistent.value.size)
  }

  /** The persistent range as it was right after the latest lock, if there was one: a CR
      write, offset 0x10, that found bit 31 clear and set it. */
  function Saved(s0: Controller, c: Config, h: History): Option<seq<byte>>
    requires Persists(Some(c)) && Mapped(s0.mem, c.persistent.value.start, c.persistent.value.size)
  {
    match h
    case Nothing => s0.file
    case After(before, e) =>
      if e.Register? && e.offset == 0x10 && !Bit(Run(s0, Some(c), before).cr, 31) && Bit(e.value, 31)
      then
        RunKeepsKeys(s0, Some(c), h);
        MappedByKeys(s0.mem, Run(s0, Some(c), h).mem, c.persistent.value.start, c.persistent.value.size);
        Some(Range(Run(s0, Some(c), h).mem, c))
      else Saved(s0, c, before)
  }

  lemma {:induction false} StepKeepsKeys(s: Controller, config: Option<Config>, e: Event)
    ensures Step(s, config, e).mem.Keys == s.mem.Keys
  {
    hide Bit, Erase, Mapped;
  }

  lemma {:induction false} RunKeepsKeys(s0: Controller, config: Option<Config>, h: History)
    ensures Run(s0, config, h).mem.Keys == s0.mem.Keys
  {
    hide Step;
    if h.After? {
      RunKeepsKeys(s0, config, h.earlier);
      StepKeepsKeys(Run(s0, config, h.earlier), config, h.last);
    }
  }

  lemma {:induction false} StepFile(s: Controller, c: Config, e: Event)
    requires Persists(Some(c)) && Mapped(s.mem, c.persistent.value.start, c.persistent.value.size)
    ensures Mapped(Step(s, Some(c), e).mem, c.persistent.value.start, c.persistent.value.size)
    ensures Step(s, Some(c), e).file
            == if e.Register? && e.offset == CR && Locks(s, e.value) then Some(Range(Step(s, Some(c), e).mem, c))
               else s.file
  {
    hide Bit, Erase, Mapped, SectorRange, BytesAt;
    var p := c.persistent.value;
    StepKeepsKeys(s, Some(c), e);
    MappedByKeys(s.mem, Step(s, Some(c), e).mem, p.start, p.size);
    if e.Register? && e.offset == CR && Locks(s, e.value) {
      var t := s.(cr := ClearBit(e.value, STRT));
      var u := if Starts(s, e.value) then EraseSector(t, Some(c), SectorField(e.value)) else t;
      MappedByKeys(s.mem, u.mem, p.start, p.size);
    }
  }

  /** Over any run the backing file holds the persistent range as it was at the
      latest lock, including an erase the locking write itself starts. */
  lemma {:induction false} FileIsSaved(s0: Controller, c: Config, h: History)
    requires Persists(Some(c)) && Mapped(s0.mem, c.persistent.value.start, c.persistent.value.size)
    ensures Run(s0, Some(c), h).file == Saved(s0, c, h)
  {
    hide Step, Mapped;
    if h.After? {
      FileIsSaved(s0, c, h.earlier);
      RunKeepsKeys(s0, Some(c), h.earlier);
      MappedByKeys(s0.mem, Run(s0, Some(c), h.earlier).mem, c.persistent.value.start, c.persistent.value.size);
      StepFile(Run(s0, Some(c), h.earlier), c, h.last);
    }
  }

  /** What a restart finds: freshly mapped memory, initialised and loaded. */
  function Restarted(boot: Memory, c: Config, regions: seq<Region>, file: Option<seq<byte>>): (r: (Memory, bool))
    requires ValidConfig(c)
    ensures r.0.Keys == boot.Keys
  {
    LoadPersistent(Initialize(boot, c, regions).0, c, file)
  }

  lemma {:induction false} RangesByKeys(m: Memory, m': Memory, c: Config)
    requires ValidConfig(c) && c.persistent.Some? && RangesMapped(m, c) && m.Keys == m'.Keys
    ensures RangesMapped(m', c) && Mapped(m, c.persistent.value.start, c.persistent.value.size)
  {
    hide Mapped, Bases;
    var n := c.persistent.value.size;
    forall i | 0 <= i < |Bases(c)|
      ensures Mapped(m', At(Bases(c)[i], RangeOffset(c)), n)
    {
      MappedByKeys(m, m', At(Bases(c)[i], RangeOffset(c)), n);
    }
    PrimaryRange(c);
  }

  lemma {:induction false} PrimaryRange(c: Config)
    requires ValidConfig(c) && c.persistent.Some?
    ensures |Bases(c)| > 0 && At(Bases(c)[0], RangeOffset(c)) == c.persistent.value.start
  {
  }

  /** Erase, program, lock and restart: whatever firmware did, a restart on any
      memory with the same mappings finds at the flash address and at every alias
      the persistent range as it was at the latest lock. */
  lemma {:induction false} RestartRestores(s0: Controller, c: Config, h: History, regions: seq<Region>, boot: Memory,
                                           i: nat)
    requires ValidConfig(c) && Persists(Some(c)) && boot.Keys == s0.mem.Keys && RangesMapped(s0.mem, c)
    requires s0.file.Some? ==> |s0.file.value| == c.persistent.value.size
    requires i < |Bases(c)|
    ensures Mapped(s0.mem, c.persistent.value.start, c.persistent.value.size)
    ensures Saved(s0, c, h).Some? ==>
              var ((loaded, ok), at) := (Restarted(boot, c, regions, Run(s0, Some(c), h).file),
                                         At(Bases(c)[i], RangeOffset(c)));
              && ok && Mapped(loaded, at, c.persistent.value.size)
              && BytesAt(loaded, at, c.persistent.value.size) == Saved(s0, c, h).value
  {
    hide Run, Saved, Initialize, LoadAll, Mapped, BytesAt, RangesMapped, At, Bases, LoadPersistent;
    var m := Initialize(boot, c, regions).0;
    RangesByKeys(s0.mem, m, c);
    FileIsSaved(s0, c, h);
    SavedLength(s0, c, h);
    if Saved(s0, c, h).Some? {
      LoadRestores(m, c, Saved(s0, c, h).value, i);
    }
  }

  /** Only the primary range is saved and it is loaded over every alias: after a lock
      and a restart a byte of an alias is what it was at the lock exactly when the
      primary byte was the same. */
  lemma {:induction false} AliasSurvivesIff(s0: Controller, c: Config, before: History, value: word,
                                            regions: seq<Region>, boot: Memory, i: nat, k: nat)
    requires ValidConfig(c) && Persists(Some(c)) && boot.Keys == s0.mem.Keys && RangesMapped(s0.mem, c)
    requires s0.file.Some? ==> |s0.file.value| == c.persistent.value.size
    requires i < |Bases(c)| && k < c.persistent.value.size && Locks(Run(s0, Some(c), before), value)
    ensures var h := After(before, Register(CR, value));
            var (m, primary, alias) := (Run(s0, Some(c), h).mem, c.persistent.value.start + k,
                                        At(Bases(c)[i], RangeOffset(c)) + k);
            var (loaded, ok) := Restarted(boot, c, regions, Run(s0, Some(c), h).file);
            && primary in m && alias in m && ok && alias in loaded
            && loaded[alias] == m[primary]
            && (loaded[alias] == m[alias] <==> m[alias] == m[primary])
  {
    hide Step, Bit, Initialize, LoadPersistent, Bases, At, RangesMapped, Mapped;
    var h := After(before, Register(CR, value));
    var (n, at) := (c.persistent.value.size, At(Bases(c)[i], RangeOffset(c)));
    var m := Run(s0, Some(c), h).mem;
    RunKeepsKeys(s0, Some(c), h);
    RangesByKeys(s0.mem, m, c);
    RangesByKeys(m, s0.mem, c);
    RangeAt(m, c, i);
    MappedAt(m, at, n, k);
    MappedAt(m, c.persistent.value.start, n, k);
    RestartRestores(s0, c, h, regions, boot, i);
    var loaded := Restarted(boot, c, regions, Run(s0, Some(c), h).file).0;
    assert BytesAt(loaded, at, n)[k] == Range(m, c)[k];
    MappedAt(loaded, at, n, k);
  }

  lemma {:induction false} RangeAt(m: Memory, c: Config, i: nat)
    requires ValidConfig(c) && c.persistent.Some? && RangesMapped(m, c) && i < |Bases(c)|
    ensures Mapped(m, At(Bases(c)[i], RangeOffset(c)), c.persistent.value.size)
  {
  }

  /** In particular a byte programmed through an alias only is lost: stored, locked
      and restarted, the alias reads the primary byte again. */
  lemma {:induction false} AliasProgramIsLost(s0: Controller, c: Config, regions: seq<Region>, boot: Memory, i: nat,
                                              k: nat, b: byte)
    requires ValidConfig(c) && Persists(Some(c)) && boot.Keys == s0.mem.Keys && RangesMapped(s0.mem, c)
    requires s0.file.Some? ==> |s0.file.value| == c.persistent.value.size
    requires 1 <= i < |Bases(c)| && k < c.persistent.value.size && !Locked(s0)
    ensures var (primary, alias) := (c.persistent.value.start + k, At(Bases(c)[i], RangeOffset(c)) + k);
            var h := After(After(Nothing, Store(alias, b)), Register(CR, 0x8000_0000));
            var (m, loaded) := (Run(s0, Some(c), h).mem, Restarted(boot, c, regions, Run(s0, Some(c), h).file).0);
            && primary in s0.mem && alias in m && m[alias] == b
            && alias in loaded && loaded[alias] == s0.mem[primary]
  {
    hide Restarted, Mapped, RangesMapped, At, Bases, Bit, Step, Run;
    var stored := After(Nothing, Store(At(Bases(c)[i], RangeOffset(c)) + k, b));
    AliasApart(s0.mem, c, i, k);
    LockWord();
    StoreRuns(s0, c, At(Bases(c)[i], RangeOffset(c)) + k, b);
    AliasSurvivesIff(s0, c, stored, 0x8000_0000, regions, boot, i, k);
    LockRuns(s0, c, stored);
  }

  lemma {:induction false} AliasApart(m: Memory, c: Config, i: nat, k: nat)
    requires ValidConfig(c) && c.persistent.Some? && RangesMapped(m, c) && 1 <= i < |Bases(c)|
             && k < c.persistent.value.size
    ensures var (primary, alias) := (c.persistent.value.start + k, At(Bases(c)[i], RangeOffset(c)) + k);
            primary in m && alias in m && primary != alias
  {
    hide Mapped, Bases, At;
    var n := c.persistent.value.size;
    RangesByKeys(m, m, c);
    MappedAt(m, At(Bases(c)[i], RangeOffset(c)), n, k);
    MappedAt(m, c.persistent.value.start, n, k);
    PrimaryRange(c);
    var (first, other) := (At(Bases(c)[0], RangeOffset(c)), At(Bases(c)[i], RangeOffset(c)));
    assert first + n <= other || other + n <= first;
  }

  lemma {:induction false} StoreRuns(s0: Controller, c: Config, at: nat, b: byte)
    requires at in s0.mem
    ensures Run(s0, Some(c), After(Nothing, Store(at, b))) == s0.(mem := s0.mem[at := b])
  {
  }

  lemma {:induction false} LockRuns(s0: Controller, c: Config, before: History)
    ensures Run(s0, Some(c), After(before, Register(CR, 0x8000_0000))).mem == Run(s0, Some(c), before).mem
  {
    hide WriteControl, Bit;
    LockWord();
    LockKeepsMemory(Run(s0, Some(c), before), c, 0x8000_0000);
  }

  lemma {:induction false} LockWord()
    ensures Bit(0x8000_0000, LOCK) && !Bit(0x8000_0000, STRT)
  {
    TopBit();
    assert Pow2(8) == 0x100;
    assert Pow2(16) == 0x100 * Pow2(8);
    assert Shl(0x8000, 16) == 0x8000_0000;
    assert Bit(Shl(0x8000, 16), 16) <==> Bit(0x8000, 0);
  }

  lemma {:induction false} LockKeepsMemory(s: Controller, c: Config, value: word)
    requires !Bit(value, STRT)
    ensures WriteControl(s, Some(c), value).mem == s.mem
  {
    hide Bit, Mapped, BytesAt;
  }

  lemma {:induction false} SavedLength(s0: Controller, c: Config, h: History)
    requires Persists(Some(c)) && Mapped(s0.mem, c.persistent.value.start, c.persistent.value.size)
    requires s0.file.Some? ==> |s0.file.value| == c.persistent.value.size
    ensures Saved(s0, c, h).Some? ==> |Saved(s0, c, h).value| == c.persistent.value.size
  {
    hide Step, Mapped;
    if h.After? {
      SavedLength(s0, c, h.earlier);
    }
  }

  // ---- The objects ----

  /** Writing a constant chunk is filling. */
  lemma {:induction false} ChunkFills(m: Memory, m': Memory, start: nat, done: nat, chunk: seq<byte>, value: byte)
    requires m == Filled(m', start, done, value) && forall i :: 0 <= i < |chunk| ==> chunk[i] == value
    ensures Written(m, start + done, chunk) == Filled(m', start, done + |chunk|, value)
  {
  }

  /** Fills in chunks of 64 KiB; equals the pointwise fill as far as memory is mapped. */
  method Fill(uc: AddressSpace, start: nat, size: nat, value: byte) returns (ok: bool)
    modifies uc
    ensures ok <==> Mapped(old(uc.mem), start, size)
    ensures uc.mem == Filled(old(uc.mem), start, FillExtent(old(uc.mem), start, size, 0), value)
    ensures ok ==> uc.mem == Filled(old(uc.mem), start, size, value)
  {
    hide FillExtent, Mapped, Written;
    ghost var m := uc.mem;
    ghost var extent := FillExtent(m, start, size, 0);
    var chunk := seq(if size < IO_CHUNK then size else IO_CHUNK, _ => value);
    var offset := 0;
    assert uc.mem == Filled(m, start, 0, value);
    while offset < size
      invariant offset <= size && extent == FillExtent(m, start, size, offset)
      invariant uc.mem == Filled(m, start, offset, value)
    {
      var count := if |chunk| < size - offset then |chunk| else size - offset;
      ghost var before := uc.mem;
      MappedByKeys(m, before, start + offset, count);
      ExtentSteps(m, start, size, offset);
      ChunkFills(before, m, start, offset, chunk[..count], value);
      var written := uc.MemWrite(start + offset, chunk[..count]);
      if !written {
        return false;
      }
      offset := offset + count;
    }
    ExtentEnds(m, start, size);
    return true;
  }

  lemma {:induction false} ExtentEnds(m: Memory, start: nat, size: nat)
    ensures FillExtent(m, start, size, size) == size
  {
  }

  lemma {:induction false} ExtentSteps(m: Memory, start: nat, size: nat, offset: nat)
    requires offset < size
    ensures var count := if size - offset < IO_CHUNK then size - offset else IO_CHUNK;
            FillExtent(m, start, size, offset)
            == if Mapped(m, start + offset, count) then FillExtent(m, start, size, offset + count) else offset
  {
  }

  lemma {:induction false} NothingLoaded(m: Memory, offset: nat, bytes: seq<byte>)
    ensures LoadAll(m, [], offset, bytes) == m
  {
  }

  lemma {:induction false} LoadAllNext(m: Memory, bases: seq<word>, offset: nat, bytes: seq<byte>, i: nat)
    requires i < |bases|
    ensures LoadAll(m, bases[..i + 1], offset, bytes)
            == Written(LoadAll(m, bases[..i], offset, bytes), At(bases[i], offset), bytes)
  {
    hide Written;
    assert bases[..i + 1][..i] == bases[..i];
  }

  method LoadPersistentFile(uc: AddressSpace, config: Config, file: Option<seq<byte>>) returns (ok: bool)
    requires ValidConfig(config)
    modifies uc
    ensures (uc.mem, ok) == LoadPersistent(old(uc.mem), config, file)
  {
    hide Mapped, Written, LoadAll, At, Bases;
    if config.persistent.None? || !config.persistent.value.hasFile || file.None? {
      return true;
    }
    var bytes := file.value;
    if |bytes| != config.persistent.value.size {
      return false;
    }
    ghost var m := uc.mem;
    var offset := config.persistent.value.start - config.start;
    var bases := Bases(config);
    ghost var n := LeadingMapped(m, bases, offset, |bytes|);
    NothingLoaded(m, offset, bytes);
    for i := 0 to |bases|
      invariant uc.mem == LoadAll(m, bases[..i], offset, bytes) && i <= n
    {
      MappedByKeys(m, uc.mem, At(bases[i], offset), |bytes|);
      LoadAllNext(m, bases, offset, bytes, i);
      var written := uc.MemWrite(At(bases[i], offset), bytes);
      if !written {
        return false;
      }
    }
    return true;
  }

  method InitializeMemory(uc: AddressSpace, config: Config, regions: seq<Region>) returns (ok: bool)
    modifies uc
    ensures (uc.mem, ok)
            == if ValidConfig(config) then Initialize(old(uc.mem), config, regions) else (old(uc.mem), false)
  {
    hide Mapped, FillExtent, Filled, IsFlashMapping;
    if !ValidConfig(config) {
      return false;
    }
    ghost var m := uc.mem;
    for i := 0 to |regions|
      invariant (uc.mem, true) == Initialize(m, config, regions[..i])
    {
      assert regions[..i + 1][..i] == regions[..i];
      if IsFlashMapping(config, regions[i].start, regions[i].size) {
        ok := Fill(uc, regions[i].start, regions[i].size, ERASED);
        if !ok {
          InitializeStops(m, config, regions, i + 1);
          return false;
        }
      }
    }
    assert regions[..|regions|] == regions;
    return true;
  }

  lemma {:induction false} InitializeStops(m: Memory, c: Config, regions: seq<Region>, n: nat)
    requires n <= |regions| && !Initialize(m, c, regions[..n]).1
    ensures Initialize(m, c, regions) == Initialize(m, c, regions[..n])
    decreases |regions|
  {
    hide FillExtent, Filled, IsFlashMapping;
    if n == |regions| {
      assert regions[..n] == regions;
    } else {
      assert regions[..|regions| - 1][..n] == regions[..n];
      InitializeStops(m, c, regions[..|regions| - 1], n);
    }
  }

  class Flash {
    var acr: word
    var sr: word
    var cr: word
    var optcr: word
    var keyStage: nat
    const internal: Option<Config>
    const uc: AddressSpace
    var file: Option<seq<byte>>

    ghost function State(): Controller
      reads this, uc
    {
      Controller(acr, sr, cr, optcr, keyStage, uc.mem, file)
    }

    constructor (internal: Option<Config>, uc: AddressSpace, file: Option<seq<byte>>)
      ensures this.internal == internal && this.uc == uc && State() == Reset(uc.mem, file)
    {
      acr, sr, cr, optcr, keyStage := 0, 0, 0x8000_0000, 0x0fff_aaed, 0;
      this.internal, this.uc, this.file := internal, uc, file;
    }

    method Read(offset: word) returns (value: word)
      ensures value == ReadRegister(State(), offset)
    {
      value := match offset
        case 0x00 => acr
        case 0x0c => sr
        case 0x10 => cr
        case 0x14 => optcr
        case _ => 0;
    }

    method Write(offset: word, value: word)
      modifies this, uc
      ensures State() == WriteRegister(old(State()), internal, offset, value)
    {
      hide Bit, AndNot, WriteControl;
      if offset == ACR {
        acr := value;
      } else if offset == KEYR {
        WriteKeyRegister(value);
      } else if offset == SR {
        sr := AndNot(sr, value);
      } else if offset == CR {
        WriteControlRegister(value);
      } else if offset == OPTCR && !Bit(optcr, OPTLOCK) {
        optcr := value;
      }
    }

    method WriteKeyRegister(value: word)
      modifies this
      ensures State() == WriteKey(old(State()), value)
    {
      hide Bit;
      if keyStage == 0 && value == KEY1 {
        keyStage := 1;
      } else if keyStage == 1 && value == KEY2 {
        keyStage := 0;
        cr := ClearBit(cr, LOCK);
      } else {
        keyStage := 0;
      }
    }

    method WriteControlRegister(value: word)
      modifies this, uc
      ensures State() == WriteControl(old(State()), internal, value)
    {
      hide Bit, Erase, SectorRange, Mapped;
      var wasLocked := Bit(cr, LOCK);
      if wasLocked && !Bit(value, LOCK) {
        return;
      }
      cr := ClearBit(value, STRT);
      if !wasLocked && Bit(value, STRT) && Bit(value, SER) {
        EraseOneSector(SectorField(value));
      }
      if !wasLocked && Bit(value, LOCK) {
        PersistRange();
      }
    }

    method EraseOneSector(register: nat)
      modifies this, uc
      ensures State() == EraseSector(old(State()), internal, register)
    {
      hide Bit, Erase, FillExtent, Mapped;
      var ok := false;
      if internal.Some? && SectorRange(register).Some? {
        var (offset, size) := SectorRange(register).value;
        ok := EraseBases(Bases(internal.value), offset, size);
      }
      if !ok {
        sr := SetFlag(sr, OPERR);
      }
    }

    method EraseBases(bases: seq<word>, offset: nat, size: nat) returns (ok: bool)
      modifies uc
      ensures Erase(old(uc.mem), bases, offset, size) == (uc.mem, ok)
    {
      hide FillExtent, Mapped, Filled;
      ghost var m := uc.mem;
      for i := 0 to |bases|
        invariant Erase(m, bases, offset, size) == Erase(uc.mem, bases[i..], offset, size)
      {
        assert bases[i..][0] == bases[i] && bases[i..][1..] == bases[i + 1..];
        ok := Fill(uc, At(bases[i], offset), size, ERASED);
        if !ok {
          return false;
        }
      }
      return true;
    }

    method PersistRange()
      modifies this
      ensures State() == Persist(old(State()), internal)
    {
      hide Bit, Mapped, BytesAt;
      if internal.None? || internal.value.persistent.None? || !internal.value.persistent.value.hasFile {
        return;
      }
      var p := internal.value.persistent.value;
      var bytes := uc.MemRead(p.start, p.size);
      if bytes.Some? {
        file := bytes;
      } else {
        sr := SetFlag(sr, OPERR);
      }
    }
  }
}
