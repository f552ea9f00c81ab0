/** The DMA controller: deferred completion of armed streams, the data they move, their
    flags and interrupts. */
module Dma {
  import opened Bits
  import opened GuestMemory
  import Nvic
  import NvicPending

  const STREAMS: nat := 8
  const TRANSFER_COMPLETE_DELAY: nat := 10_000
  const LISR: word := 0x00
  const HISR: word := 0x04
  const LIFCR: word := 0x08
  const HIFCR: word := 0x0c
  const EN: nat := 0
  const TCIE: nat := 4
  const CT: nat := 19

  /** A unit is one of the two with stream interrupts, or any other whose name starts
      with DMA. */
  datatype Unit = Dma1 | Dma2 | OtherDma

  datatype Stream = Stream(cr: word, nextCr: Option<word>, ndtr: word, par: word, m0ar: word, m1ar: word, fcr: word)

  function IdleStream(): Stream {
    Stream(0, None, 0, 0, 0, 0, 0)
  }

  // ---- Register map ----

  datatype Access = Reg(offset: word) | StreamReg(stream: nat, offset: word)

  function FromOffset(offset: word): Access {
    if offset < 0x28 then Reg(offset) else StreamReg((offset - 0x10) / 0x18, (offset - 0x10) % 0x18)
  }

  /** Offsets past the last stream have no stream to go to. */
  predicate Decoded(offset: word) {
    offset < 0xd0
  }

  function CrOffset(stream: nat): (r: word)
    requires stream < STREAMS
    ensures stream >= 1 ==> r == 0x10 + 0x18 * stream && 0x28 <= r
  {
    0x10 + 0x18 * stream
  }

  /** Each register of streams 1 to 7 has exactly one offset; stream 0 has none,
      its block being read as part of the flag registers. */
  lemma {:induction false} StreamOffsets(offset: word, stream: nat, register: word)
    requires register < 0x18
    ensures FromOffset(offset) == StreamReg(stream, register)
            <==> 1 <= stream && offset == 0x10 + 0x18 * stream + register
    ensures Decoded(offset) && FromOffset(offset).StreamReg? ==> 1 <= FromOffset(offset).stream < STREAMS
  {
  }

  // ---- Streams ----

  predicate IsWriteDir(cr: word) {
    !Bit(cr, 7) && Bit(cr, 6)
  }

  /** `cr ^ 1` */
  function ToggleEnable(cr: word): word {
    if cr % 2 == 1 then cr - 1 else cr + 1
  }

  /** Reading CR of an empty memory-to-peripheral stream schedules a toggled value. */
  function AfterStreamRead(s: Stream, offset: word): Stream {
    if offset != 0 then s
    else
      var t := if s.nextCr.Some? then s.(cr := s.nextCr.value, nextCr := None) else s;
      if IsWriteDir(t.cr) && t.ndtr == 0 then t.(nextCr := Some(ToggleEnable(t.cr))) else t
  }

  function StreamValue(s: Stream, offset: word): word {
    if offset == 0x00 then s.cr
    else if offset == 0x04 then s.ndtr
    else if offset == 0x08 then s.par
    else if offset == 0x0c then s.m0ar
    else if offset == 0x10 then s.m1ar
    else if offset == 0x14 then s.fcr
    else 0
  }

  function AfterStreamWrite(s: Stream, offset: word, value: word): Stream {
    if offset == 0x00 then s.(cr := value)
    else if offset == 0x04 then s.(ndtr := value % 0x1_0000)
    else if offset == 0x08 then s.(par := value)
    else if offset == 0x0c then s.(m0ar := value)
    else if offset == 0x10 then s.(m1ar := value)
    else if offset == 0x14 then s.(fcr := value)
    else s
  }

  predicate Arms(offset: word, value: word) {
    offset == 0x00 && Bit(value, EN)
  }

  function Finished(s: Stream): Stream {
    s.(cr := ClearBit(s.cr, EN), ndtr := 0, nextCr := None)
  }

  // ---- What a transfer moves ----

  datatype Direction = FromPeripheral | ToPeripheral | MemoryCopy | Invalid

  function DirectionOf(cr: word): Direction {
    if Bit(cr, 7) then if Bit(cr, 6) then Invalid else MemoryCopy
    else if IsWriteDir(cr) then ToPeripheral else FromPeripheral
  }

  function WordSize(cr: word): nat {
    if Bit(cr, 12) && !Bit(cr, 11) then 4 else if Bit(cr, 11) && !Bit(cr, 12) then 2 else 1
  }

  function DataSize(x: Stream): nat {
    WordSize(x.cr) * x.ndtr
  }

  /** CT selects the memory buffer. */
  function DataAddr(x: Stream): word {
    if Bit(x.cr, CT) then x.m1ar else x.m0ar
  }

  /** The block accesses a peripheral sees. */
  datatype BlockAccess = Fetch(offset: word, size: nat) | Deliver(offset: word, bytes: seq<byte>)

  /** `routes`: the peripheral at a bus address and the offset in it; `supplies`: what a
      peripheral answers to a fetch, given every block access it has seen. */
  datatype Wiring = Wiring(routes: word -> Option<(nat, word)>, supplies: (nat, seq<BlockAccess>) -> seq<byte>)

  datatype World = World(mem: Memory, logs: map<nat, seq<BlockAccess>>)

  function LogOf(w: World, id: nat): seq<BlockAccess> {
    if id in w.logs then w.logs[id] else []
  }

  function Logged(w: World, id: nat, a: BlockAccess): World {
    w.(logs := w.logs[id := LogOf(w, id) + [a]])
  }

  function Zeros(n: nat): seq<byte> {
    seq(n, _ => 0)
  }

  /** Memory that is not mapped reads as zeros and takes nothing. */
  function Block(m: Memory, at: word, n: nat): seq<byte> {
    if Mapped(m, at, n) then BytesAt(m, at, n) else Zeros(n)
  }

  function Stored(m: Memory, at: word, bytes: seq<byte>): Memory {
    if Mapped(m, at, |bytes|) then Written(m, at, bytes) else m
  }

  /** The data of a stream as its registers say when it completes. */
  function Transfer(x: Stream, w: World, k: Wiring): World {
    match DirectionOf(x.cr)
    case FromPeripheral =>
      (match k.routes(x.par)
       case Some((id, offset)) =>
         var t := Logged(w, id, Fetch(offset, DataSize(x)));
         t.(mem := Stored(w.mem, DataAddr(x), k.supplies(id, LogOf(t, id))))
       case None => w.(mem := Stored(w.mem, DataAddr(x), Zeros(DataSize(x)))))
    case ToPeripheral =>
      (match k.routes(x.par)
       case Some((id, offset)) => Logged(w, id, Deliver(offset, Block(w.mem, DataAddr(x), DataSize(x))))
       case None => w)
    case MemoryCopy => w.(mem := Stored(w.mem, DataAddr(x), Block(w.mem, x.par, DataSize(x))))
    case Invalid => w
  }

  lemma {:induction false} StoredReadsBack(m: Memory, at: word, bytes: seq<byte>)
    requires Mapped(m, at, |bytes|)
    ensures Mapped(Stored(m, at, bytes), at, |bytes|) && BytesAt(Stored(m, at, bytes), at, |bytes|) == bytes
    ensures forall a: nat :: a in m && !(at <= a < at + |bytes|) ==>
              a in Stored(m, at, bytes) && Stored(m, at, bytes)[a] == m[a]
  {
    var t := Stored(m, at, bytes);
    assert forall a: nat :: at <= a < at + |bytes| ==> a in m;
  }

  /** A transfer between mapped memory and a routed peripheral, or between two places in
      memory, moves exactly the bytes at its source, however source and destination
      overlap, and changes nothing else. CR bits 7 and 6 say which, bits 12 and 11 the
      size of an item, bit 19 which buffer; NDTR counts the items. */
  lemma {:induction false} TransferMoves(x: Stream, w: World, k: Wiring, id: nat, offset: word)
    requires Mapped(w.mem, if Bit(x.cr, 19) then x.m1ar else x.m0ar, ItemBytes(x.cr) * x.ndtr)
    requires !Bit(x.cr, 7) ==> k.routes(x.par) == Some((id, offset))
    requires !Bit(x.cr, 7) && !Bit(x.cr, 6) ==>
               |k.supplies(id, LogOf(w, id) + [Fetch(offset, ItemBytes(x.cr) * x.ndtr)])| == ItemBytes(x.cr) * x.ndtr
    ensures var (t, n, at) := (Transfer(x, w, k), ItemBytes(x.cr) * x.ndtr, if Bit(x.cr, 19) then x.m1ar else x.m0ar);
            && (forall a: nat :: a in w.mem && !(at <= a < at + n) ==> a in t.mem && t.mem[a] == w.mem[a])
            && Mapped(t.mem, at, n)
            && if !Bit(x.cr, 7) && !Bit(x.cr, 6) then
                 && LogOf(t, id) == LogOf(w, id) + [Fetch(offset, n)]
                 && BytesAt(t.mem, at, n) == k.supplies(id, LogOf(t, id))
               else if !Bit(x.cr, 7) then
                 && t.mem == w.mem && LogOf(t, id) == LogOf(w, id) + [Deliver(offset, BytesAt(w.mem, at, n))]
               else if !Bit(x.cr, 6) then
                 && t.logs == w.logs
                 && (Mapped(w.mem, x.par, n) ==> BytesAt(t.mem, at, n) == BytesAt(w.mem, x.par, n))
               else t == w
  {
    Fields(x);
    hide Bit, ItemBytes, DataSize, DataAddr, DirectionOf, Mapped, Stored, BytesAt, Written;
    var (at, n) := (DataAddr(x), DataSize(x));
    if DirectionOf(x.cr) == FromPeripheral {
      StoredReadsBack(w.mem, at, k.supplies(id, LogOf(w, id) + [Fetch(offset, n)]));
    }
    StoredReadsBack(w.mem, at, Block(w.mem, x.par, n));
  }

  /** The item size, CR bits 11 and 12: 00 a byte, 01 two, 10 four; 11 is taken as a byte. */
  function ItemBytes(cr: word): nat {
    match (Bit(cr, 12), Bit(cr, 11))
    case (false, false) => 1
    case (false, true) => 2
    case (true, false) => 4
    case (true, true) => 1
  }

  lemma {:induction false} Fields(x: Stream)
    ensures DataSize(x) == ItemBytes(x.cr) * x.ndtr && DataAddr(x) == if Bit(x.cr, 19) then x.m1ar else x.m0ar
    ensures DirectionOf(x.cr) == if Bit(x.cr, 7) then (if Bit(x.cr, 6) then Invalid else MemoryCopy)
                                 else if Bit(x.cr, 6) then ToPeripheral else FromPeripheral
  {
    hide Bit;
  }

  /** What is missing reads as zeros, and what cannot be stored is dropped. */
  lemma {:induction false} TransferFallsBack(x: Stream, w: World, k: Wiring)
    ensures var (t, n, at) := (Transfer(x, w, k), ItemBytes(x.cr) * x.ndtr, if Bit(x.cr, 19) then x.m1ar else x.m0ar);
            && (!Mapped(w.mem, at, n) && Bit(x.cr, 7) ==> t == w)
            && (k.routes(x.par).None? && !Bit(x.cr, 7) ==>
                  && t.logs == w.logs
                  && (Bit(x.cr, 6) || !Mapped(w.mem, at, n) ==> t == w)
                  && (!Bit(x.cr, 6) && Mapped(w.mem, at, n) ==> t.mem == Written(w.mem, at, seq(n, _ => 0))))
            && (Bit(x.cr, 7) && !Bit(x.cr, 6) && Mapped(w.mem, at, n) && !Mapped(w.mem, x.par, n) ==>
                  t.mem == Written(w.mem, at, seq(n, _ => 0)))
            && (!Bit(x.cr, 7) && Bit(x.cr, 6) && k.routes(x.par).Some? && !Mapped(w.mem, at, n) ==>
                  var (id, offset) := k.routes(x.par).value;
                  LogOf(t, id) == LogOf(w, id) + [Deliver(offset, seq(n, _ => 0))])
  {
    Fields(x);
    hide Bit, ItemBytes, DataSize, DataAddr, DirectionOf, Mapped, BytesAt, Written;
    assert Zeros(DataSize(x)) == seq(DataSize(x), _ => 0);
  }

  // ---- The controller ----

  /** A completed transfer: its stream, the stream's registers when it ran, the
      time, and the interrupt pended for it. */
  datatype Completion = Completion(stream: nat, transfer: Stream, now: long, irq: Option<int>)

  /** What a controller is built into. */
  datatype Setup = Setup(unit: Unit, wiring: Wiring, world: World)

  datatype Controller = Controller(unit: Unit, streams: seq<Stream>, lisr: word, hisr: word,
                                   completeAt: seq<Option<nat>>, lastNow: long, done: seq<Completion>, wiring: Wiring,
                                   world: World)

  function Reset(setup: Setup): (s: Controller)
    ensures WellFormed(s)
  {
    Controller(setup.unit, seq(STREAMS, _ => IdleStream()), 0, 0, seq(STREAMS, _ => None), 0, [], setup.wiring,
               setup.world)
  }

  predicate WellFormed(s: Controller) {
    |s.streams| == STREAMS && |s.completeAt| == STREAMS
  }

  /** Only DMA1 and DMA2 have stream interrupts. */
  function StreamIrq(unit: Unit, stream: nat): (irq: Option<int>)
    requires stream < STREAMS
    ensures irq.Some? ==> 0 <= irq.value < 112
  {
    match unit
    case Dma1 => Some(if stream < 7 then 11 + stream else 47)
    case Dma2 => Some(if stream < 5 then 56 + stream else 63 + stream)
    case OtherDma => None
  }

  /** The transfer-complete bit of a stream within its flag register. */
  function TcifBit(local: nat): (b: nat)
    requires local < 4
    ensures b < 32
  {
    (if local < 2 then local * 6 else 16 + (local - 2) * 6) + 5
  }

  predicate Tcif(s: Controller, stream: nat)
    requires stream < STREAMS
  {
    Bit(if stream < 4 then s.lisr else s.hisr, TcifBit(stream % 4))
  }

  function SetTcif(s: Controller, stream: nat): Controller
    requires stream < STREAMS
  {
    if stream < 4 then s.(lisr := SetFlag(s.lisr, TcifBit(stream % 4)))
    else s.(hisr := SetFlag(s.hisr, TcifBit(stream % 4)))
  }

  predicate Due(s: Controller, stream: nat, now: long)
    requires stream < |s.completeAt|
  {
    s.completeAt[stream].Some? && s.completeAt[stream].value <= now
  }

  function CompletionOf(s: Controller, stream: nat, now: long): Completion
    requires WellFormed(s) && stream < STREAMS
  {
    Completion(stream, s.streams[stream], now,
               if Bit(s.streams[stream].cr, TCIE) then StreamIrq(s.unit, stream) else None)
  }

  function Complete(s: Controller, stream: nat, now: long): (t: Controller)
    requires WellFormed(s) && stream < STREAMS
    ensures WellFormed(t)
  {
    SetTcif(s, stream).(completeAt := s.completeAt[stream := None],
                        streams := s.streams[stream := Finished(s.streams[stream])],
                        done := s.done + [CompletionOf(s, stream, now)],
                        world := Transfer(s.streams[stream], s.world, s.wiring))
  }

  /** The streams below `n` have been looked at. */
  function Advanced(s: Controller, now: long, n: nat): (t: Controller)
    requires WellFormed(s) && n <= STREAMS
    ensures WellFormed(t)
  {
    if n == 0 then s.(lastNow := now)
    else
      var t := Advanced(s, now, n - 1);
      if Due(t, n - 1, now) then Complete(t, n - 1, now) else t
  }

  function WriteRegister(s: Controller, offset: word, value: word): (t: Controller)
    requires WellFormed(s) && Decoded(offset)
    ensures WellFormed(t)
  {
    match FromOffset(offset)
    case Reg(o) =>
      if o == LIFCR then s.(lisr := AndNot(s.lisr, value))
      else if o == HIFCR then s.(hisr := AndNot(s.hisr, value))
      else s
    case StreamReg(i, o) =>
      var t := s.(streams := s.streams[i := AfterStreamWrite(s.streams[i], o, value)]);
      if Arms(o, value) then t.(completeAt := s.completeAt[i := Some(s.lastNow + TRANSFER_COMPLETE_DELAY)]) else t
  }

  function ReadValue(s: Controller, offset: word): word
    requires WellFormed(s) && Decoded(offset)
  {
    match FromOffset(offset)
    case Reg(o) => if o == LISR then s.lisr else if o == HISR then s.hisr else 0
    case StreamReg(i, o) => StreamValue(s.streams[i], o)
  }

  function AfterRead(s: Controller, offset: word): (t: Controller)
    requires WellFormed(s) && Decoded(offset)
    ensures WellFormed(t)
  {
    match FromOffset(offset)
    case Reg(_) => s
    case StreamReg(i, o) => s.(streams := s.streams[i := AfterStreamRead(s.streams[i], o)])
  }

  // ---- One advance ----

  lemma {:induction false} FlagsAreDistinct(s: Controller, i: nat, j: nat)
    requires i < STREAMS && j < STREAMS
    ensures Tcif(SetTcif(s, i), j) <==> i == j || Tcif(s, j)
  {
    hide Bit;
  }

  /** What an advance does to one stream, whatever the others are doing. */
  lemma {:induction false} AdvanceStream(s: Controller, now: long, n: nat, i: nat)
    requires WellFormed(s) && n <= STREAMS && i < STREAMS
    ensures var t := Advanced(s, now, n);
            && t.lastNow == now && t.unit == s.unit && t.wiring == s.wiring
            && if i < n && Due(s, i, now)
               then t.completeAt[i] == None && t.streams[i] == Finished(s.streams[i]) && Tcif(t, i)
               else t.completeAt[i] == s.completeAt[i] && t.streams[i] == s.streams[i] && (Tcif(t, i) <==> Tcif(s, i))
    decreases n
  {
    hide Tcif, SetTcif, Bit, Finished, CompletionOf, Complete;
    SameFlags(s, s.(lastNow := now), i);
    if n != 0 {
      AdvanceStream(s, now, n - 1, i);
      AdvanceStream(s, now, n - 1, n - 1);
      CompleteOne(Advanced(s, now, n - 1), n - 1, now, i);
    }
  }

  lemma {:induction false} SameFlags(s: Controller, t: Controller, i: nat)
    requires i < STREAMS && t.lisr == s.lisr && t.hisr == s.hisr
    ensures Tcif(t, i) <==> Tcif(s, i)
  {
    hide Bit;
  }

  /** Completing a stream leaves the other streams and their flags alone. */
  lemma {:induction false} CompleteOne(s: Controller, stream: nat, now: long, i: nat)
    requires WellFormed(s) && stream < STREAMS && i < STREAMS
    ensures var t := Complete(s, stream, now);
            && t.unit == s.unit && t.wiring == s.wiring && t.lastNow == s.lastNow
            && if i == stream
               then t.completeAt[i] == None && t.streams[i] == Finished(s.streams[i]) && Tcif(t, i)
               else t.completeAt[i] == s.completeAt[i] && t.streams[i] == s.streams[i] && (Tcif(t, i) <==> Tcif(s, i))
  {
    hide Tcif, SetTcif, Bit, Finished, CompletionOf, Transfer;
    CompleteFlags(s, stream, now, i);
    FlagsAreDistinct(s, stream, i);
  }

  lemma {:induction false} CompleteFlags(s: Controller, stream: nat, now: long, i: nat)
    requires WellFormed(s) && stream < STREAMS && i < STREAMS
    ensures Tcif(Complete(s, stream, now), i) <==> Tcif(SetTcif(s, stream), i)
    ensures Complete(s, stream, now).unit == s.unit && Complete(s, stream, now).lastNow == s.lastNow
    ensures Complete(s, stream, now).wiring == s.wiring
  {
    hide Bit, Finished, CompletionOf, Transfer;
  }

  /** The world after the due streams below `n` have moved their data, in order. */
  function DueTransfers(s: Controller, now: long, n: nat): World
    requires WellFormed(s) && n <= STREAMS
  {
    if n == 0 then s.world
    else
      var w := DueTransfers(s, now, n - 1);
      if Due(s, n - 1, now) then Transfer(s.streams[n - 1], w, s.wiring) else w
  }

  /** An advance moves the data of each due stream once, as its registers say then. */
  lemma {:induction false} AdvanceMoves(s: Controller, now: long, n: nat)
    requires WellFormed(s) && n <= STREAMS
    ensures Advanced(s, now, n).world == DueTransfers(s, now, n)
    decreases n
  {
    hide Tcif, SetTcif, Bit, Finished, CompletionOf, Transfer;
    if n != 0 {
      AdvanceMoves(s, now, n - 1);
      AdvanceStream(s, now, n - 1, n - 1);
      CompleteMoves(Advanced(s, now, n - 1), n - 1, now);
      hide Complete;
    }
  }

  lemma {:induction false} CompleteMoves(s: Controller, stream: nat, now: long)
    requires WellFormed(s) && stream < STREAMS
    ensures Complete(s, stream, now).world == Transfer(s.streams[stream], s.world, s.wiring)
  {
    hide Bit, Finished, CompletionOf, Transfer;
  }

  lemma {:induction false} OnlyOneMoves(s: Controller, now: long, n: nat, i: nat)
    requires WellFormed(s) && n <= STREAMS && i < STREAMS
    requires Due(s, i, now) && forall j :: 0 <= j < STREAMS && j != i ==> !Due(s, j, now)
    ensures DueTransfers(s, now, n) == if i < n then Transfer(s.streams[i], s.world, s.wiring) else s.world
    decreases n
  {
    hide Transfer;
    if n != 0 {
      OnlyOneMoves(s, now, n - 1, i);
    }
  }

  /** Where the reference manual puts the transfer-complete flags of streams 0 to 3 in LISR
      and of 4 to 7 in HISR, and the stream interrupts. */
  const FLAGS: seq<nat> := [5, 11, 21, 27]
  const DMA1_IRQS: seq<int> := [11, 12, 13, 14, 15, 16, 17, 47]
  const DMA2_IRQS: seq<int> := [56, 57, 58, 59, 60, 68, 69, 70]

  predicate FlagUp(s: Controller, i: nat)
    requires i < STREAMS
  {
    Bit(if i < 4 then s.lisr else s.hisr, FLAGS[i % 4])
  }

  function IrqOf(unit: Unit, i: nat): Option<int>
    requires i < STREAMS
  {
    match unit
    case Dma1 => Some(DMA1_IRQS[i])
    case Dma2 => Some(DMA2_IRQS[i])
    case OtherDma => None
  }

  lemma {:induction false} TablesHold(s: Controller, i: nat)
    requires i < STREAMS
    ensures FlagUp(s, i) <==> Tcif(s, i)
    ensures StreamIrq(s.unit, i) == IrqOf(s.unit, i)
  {
    hide Bit;
    assert TcifBit(i % 4) == FLAGS[i % 4];
  }

  /** The completions of one stream, in order. */
  function DoneOf(done: seq<Completion>, stream: nat): seq<Completion> {
    if done == [] then []
    else DoneOf(done[..|done| - 1], stream)
         + if done[|done| - 1].stream == stream then [done[|done| - 1]] else []
  }

  lemma {:induction false} DoneAppend(done: seq<Completion>, c: Completion, stream: nat)
    ensures DoneOf(done + [c], stream)
            == if c.stream == stream then DoneOf(done, stream) + [c] else DoneOf(done, stream)
  {
    assert (done + [c])[..|done + [c]| - 1] == done;
  }

  /** A due stream completes exactly once in an advance, with the interrupt its
      TCIE bit asks for; the others do not complete. */
  lemma {:induction false} AdvanceCompletes(s: Controller, now: long, n: nat, i: nat)
    requires WellFormed(s) && n <= STREAMS && i < STREAMS
    ensures DoneOf(Advanced(s, now, n).done, i)
            == if i < n && Due(s, i, now) then DoneOf(s.done, i) + [CompletionOf(s, i, now)] else DoneOf(s.done, i)
    decreases n
  {
    hide Tcif, SetTcif, Bit, Finished, StreamIrq, DoneOf;
    if n != 0 {
      AdvanceCompletes(s, now, n - 1, i);
      AdvanceStream(s, now, n - 1, n - 1);
      var t := Advanced(s, now, n - 1);
      if Due(t, n - 1, now) {
        DoneAppend(t.done, CompletionOf(t, n - 1, now), i);
      }
    }
  }

  // ---- Runs ----

  datatype Event =
    | Write(offset: word, value: word)
    | Read(at: word)
    | Advance(now: long)
    | Outside(world: World)        // firmware or another peripheral changes memory or a peripheral

  datatype History = Nothing | After(earlier: History, last: Event)

  ghost predicate ValidHistory(h: History) {
    match h
    case Nothing => true
    case After(before, e) => ValidHistory(before) && (e.Write? ==> Decoded(e.offset)) && (e.Read? ==> Decoded(e.at))
  }

  function Step(s: Controller, e: Event): (t: Controller)
    requires WellFormed(s) && (e.Write? ==> Decoded(e.offset)) && (e.Read? ==> Decoded(e.at))
    ensures WellFormed(t)
  {
    match e
    case Write(offset, value) => WriteRegister(s, offset, value)
    case Read(at) => AfterRead(s, at)
    case Advance(now) => Advanced(s, now, STREAMS)
    case Outside(world) => s.(world := world)
  }

  function Run(setup: Setup, h: History): (s: Controller)
    requires ValidHistory(h)
    ensures WellFormed(s)
  {
    match h
    case Nothing => Reset(setup)
    case After(before, e) => Step(Run(setup, before), e)
  }

  /** The latest advance. */
  function LastNow(h: History): long {
    match h
    case Nothing => 0
    case After(_, Advance(now)) => now
    case After(before, _) => LastNow(before)
  }

  /** An enabling write to the control register of a stream. */
  predicate Enables(e: Event, stream: nat)
    requires stream < STREAMS
  {
    e.Write? && e.offset == CrOffset(stream) && Bit(e.value, 0)
  }

  /** `h` continues `start` without enabling the stream again. */
  ghost predicate Continues(start: History, h: History, stream: nat)
    requires stream < STREAMS
  {
    h == start || (h.After? && Continues(start, h.earlier, stream) && !Enables(h.last, stream))
  }

  /** Some advance since `start` reached the deadline. */
  ghost predicate Reached(start: History, h: History, deadline: nat) {
    h != start && h.After? && ((h.last.Advance? && deadline <= h.last.now) || Reached(start, h.earlier, deadline))
  }

  lemma {:induction false} OtherWrites(s: Controller, offset: word, value: word, i: nat)
    requires WellFormed(s) && Decoded(offset) && 1 <= i < STREAMS && !Enables(Write(offset, value), i)
    ensures var t := WriteRegister(s, offset, value);
            && t.completeAt[i] == s.completeAt[i] && t.done == s.done && t.lastNow == s.lastNow
            && (Tcif(t, i) ==> Tcif(s, i))
  {
    hide Bit;
    StreamOffsets(offset, i, 0);
  }

  lemma {:induction false} LastNowIsKept(setup: Setup, h: History)
    requires ValidHistory(h)
    ensures Run(setup, h).lastNow == LastNow(h)
  {
    hide Bit;
    if h.After? {
      LastNowIsKept(setup, h.earlier);
      if h.last.Advance? {
        hide Advanced;
        AdvanceStream(Run(setup, h.earlier), h.last.now, STREAMS, 0);
      }
    }
  }

  lemma {:induction false} ArmingSets(setup: Setup, before: History, value: word, i: nat)
    requires ValidHistory(before) && 1 <= i < STREAMS && Bit(value, 0)
    ensures Decoded(CrOffset(i))
    ensures var start := After(before, Write(CrOffset(i), value));
            && Run(setup, start).completeAt[i] == Some(LastNow(before) + 10_000)
            && Run(setup, start).done == Run(setup, before).done
  {
    hide Bit;
    StreamOffsets(CrOffset(i), i, 0);
    LastNowIsKept(setup, before);
  }

  ghost predicate Waiting(s0: Controller, s: Controller, i: nat, deadline: nat)
    requires WellFormed(s0) && WellFormed(s) && i < STREAMS
  {
    s.completeAt[i] == Some(deadline) && DoneOf(s.done, i) == DoneOf(s0.done, i) && (Tcif(s, i) ==> Tcif(s0, i))
  }

  ghost predicate Completed(s0: Controller, s: Controller, i: nat)
    requires WellFormed(s0) && WellFormed(s) && i < STREAMS
  {
    s.completeAt[i] == None && |DoneOf(s.done, i)| == |DoneOf(s0.done, i)| + 1
  }

  lemma {:induction false} WaitsAtFirst(s: Controller, i: nat, deadline: nat)
    requires WellFormed(s) && i < STREAMS && s.completeAt[i] == Some(deadline)
    ensures Waiting(s, s, i, deadline)
  {
  }

  lemma {:induction false} StepDeadline(s0: Controller, s: Controller, e: Event, i: nat, deadline: nat)
    requires WellFormed(s0) && WellFormed(s) && 1 <= i < STREAMS && !Enables(e, i)
    requires (e.Write? ==> Decoded(e.offset)) && (e.Read? ==> Decoded(e.at))
    ensures Waiting(s0, s, i, deadline) ==>
              if e.Advance? && deadline <= e.now then Completed(s0, Step(s, e), i)
              else Waiting(s0, Step(s, e), i, deadline)
    ensures Completed(s0, s, i) ==> Completed(s0, Step(s, e), i)
  {
    hide Tcif, DoneOf, Advanced, WriteRegister, StreamIrq;
    match e
    case Write(offset, value) => OtherWrites(s, offset, value, i);
    case Read(at) => ReadKeeps(s, at, i);
    case Outside(world) => SameFlags(s, s.(world := world), i);
    case Advance(now) =>
      AdvanceStream(s, now, STREAMS, i);
      AdvanceCompletes(s, now, STREAMS, i);
  }

  lemma {:induction false} ReadKeeps(s: Controller, offset: word, i: nat)
    requires WellFormed(s) && Decoded(offset) && i < STREAMS
    ensures var t := AfterRead(s, offset);
            t.completeAt == s.completeAt && t.done == s.done && t.lastNow == s.lastNow && (Tcif(t, i) <==> Tcif(s, i))
  {
    hide Bit;
  }

  /** An armed stream (1 to 7) completes at the first advance that reaches its
      deadline, 10000 instructions after the last one before the arming, exactly
      once, and until then neither completes nor raises its flag: whatever else is
      written, read or advanced, clearing EN included. */
  lemma {:induction false} DeadlineHolds(setup: Setup, before: History, value: word, h: History, i: nat)
    requires 1 <= i < STREAMS && Bit(value, 0) && ValidHistory(h)
    requires ValidHistory(before) && Continues(After(before, Write(CrOffset(i), value)), h, i)
    ensures Decoded(CrOffset(i))
    ensures var (start, deadline) := (After(before, Write(CrOffset(i), value)),
                                      LastNow(before) + 10_000);
            var (s0, s) := (Run(setup, start), Run(setup, h));
            if Reached(start, h, deadline) then Completed(s0, s, i) else Waiting(s0, s, i, deadline)
  {
    assert Decoded(CrOffset(i));
    hide Bit, Step, Waiting, Completed, CrOffset;
    var (start, deadline) := (After(before, Write(CrOffset(i), value)), LastNow(before) + 10_000);
    var s0 := Run(setup, start);
    if h == start {
      ArmingSets(setup, before, value, i);
      WaitsAtFirst(s0, i, deadline);
    } else {
      DeadlineHolds(setup, before, value, h.earlier, i);
      StepDeadline(s0, Run(setup, h.earlier), h.last, i, deadline);
    }
  }

  /** The advance that completes a stream moves its data, sets its flag, clears EN and
      NDTR, and pends its interrupt exactly when TCIE is set; a stream that is not due
      keeps its flag, deadline and registers. */
  lemma {:induction false} CompletionEffect(s: Controller, now: long, i: nat)
    requires WellFormed(s) && i < STREAMS
    ensures Step(s, Advance(now)).world == DueTransfers(s, now, STREAMS)
    ensures var t := Step(s, Advance(now));
            if Due(s, i, now) then
              && FlagUp(t, i) && !Bit(t.streams[i].cr, 0) && t.streams[i].ndtr == 0 && t.completeAt[i] == None
              && DoneOf(t.done, i) == DoneOf(s.done, i)
                   + [Completion(i, s.streams[i], now,
                                 if Bit(s.streams[i].cr, 4) then IrqOf(s.unit, i) else None)]
            else
              && (FlagUp(t, i) <==> FlagUp(s, i)) && t.streams[i] == s.streams[i] && t.completeAt[i] == s.completeAt[i]
              && DoneOf(t.done, i) == DoneOf(s.done, i)
  {
    hide Bit, Tcif, FlagUp, Advanced, DoneOf, StreamIrq, IrqOf;
    TablesHold(s, i);
    TablesHold(Advanced(s, now, STREAMS), i);
    AdvanceStream(s, now, STREAMS, i);
    AdvanceCompletes(s, now, STREAMS, i);
    AdvanceMoves(s, now, STREAMS);
  }

  /** The two together: after any run in which no advance has reached the deadline,
      the first one that does completes the stream with all its effects: if no other
      is due, it moves the data found then, not when the stream was armed. */
  lemma {:induction false} CompletesAtDeadline(setup: Setup, before: History, value: word, h: History, i: nat,
                                               now: long)
    requires 1 <= i < STREAMS && Bit(value, 0) && ValidHistory(h)
    requires ValidHistory(before) && Continues(After(before, Write(CrOffset(i), value)), h, i)
    requires var deadline := LastNow(before) + 10_000;
             !Reached(After(before, Write(CrOffset(i), value)), h, deadline) && deadline <= now
    ensures Decoded(CrOffset(i))
    ensures var (s0, s) := (Run(setup, After(before, Write(CrOffset(i), value))), Run(setup, h));
            var t := Run(setup, After(h, Advance(now)));
            && FlagUp(t, i) && !Bit(t.streams[i].cr, 0) && t.streams[i].ndtr == 0 && t.completeAt[i] == None
            && DoneOf(t.done, i) == DoneOf(s0.done, i)
                 + [Completion(i, s.streams[i], now,
                               if Bit(s.streams[i].cr, 4) then IrqOf(setup.unit, i) else None)]
    ensures var s := Run(setup, h);
            (forall j :: 0 <= j < STREAMS && j != i ==> !Due(s, j, now)) ==>
              Run(setup, After(h, Advance(now))).world == Transfer(s.streams[i], s.world, setup.wiring)
  {
    hide Bit, Step, Tcif, FlagUp, DoneOf, StreamIrq, IrqOf, CrOffset, Transfer, DueTransfers;
    DeadlineHolds(setup, before, value, h, i);
    SetupIsKept(setup, h);
    CompletionEffect(Run(setup, h), now, i);
    if forall j :: 0 <= j < STREAMS && j != i ==> !Due(Run(setup, h), j, now) {
      OnlyOneMoves(Run(setup, h), now, STREAMS, i);
    }
  }

  lemma {:induction false} SetupIsKept(setup: Setup, h: History)
    requires ValidHistory(h)
    ensures Run(setup, h).unit == setup.unit && Run(setup, h).wiring == setup.wiring
  {
    hide Bit, Advanced;
    if h.After? {
      SetupIsKept(setup, h.earlier);
      if h.last.Advance? {
        AdvanceStream(Run(setup, h.earlier), h.last.now, STREAMS, 0);
      }
    }
  }

  /** No register access reaches stream 0: it never completes anything. */
  lemma {:induction false} StreamZeroIsIdle(setup: Setup, h: History)
    requires ValidHistory(h)
    ensures var s := Run(setup, h);
            s.streams[0] == IdleStream() && s.completeAt[0] == None && DoneOf(s.done, 0) == []
  {
    hide Bit, Advanced;
    if h.After? {
      StreamZeroIsIdle(setup, h.earlier);
      var s := Run(setup, h.earlier);
      match h.last {
        case Advance(now) =>
          AdvanceStream(s, now, STREAMS, 0);
          AdvanceCompletes(s, now, STREAMS, 0);
        case Write(offset, _) => StreamOffsets(offset, 0, 0);
        case Read(at) => StreamOffsets(at, 0, 0);
        case Outside(_) =>
      }
    }
  }

  // ---- What firmware reads ----

  /** The last value written at a register offset. */
  function LastWritten(h: History, offset: word): word {
    match h
    case Nothing => 0
    case After(before, Write(o, value)) => if o == offset then value else LastWritten(before, offset)
    case After(before, _) => LastWritten(before, offset)
  }

  /** The stream completes in the latest event. */
  ghost predicate CompletesNow(setup: Setup, h: History, i: nat)
    requires ValidHistory(h) && i < STREAMS
  {
    h.After? && h.last.Advance?
    && var at := Run(setup, h.earlier).completeAt[i]; at.Some? && at.value <= h.last.now
  }

  /** NDTR: the low 16 bits last written, or zero once the stream has completed. */
  ghost function CountLeft(setup: Setup, h: History, i: nat): word
    requires ValidHistory(h) && i < STREAMS
  {
    match h
    case Nothing => 0
    case After(before, e) =>
      if e.Write? && e.offset == 0x14 + 0x18 * i then e.value % 0x1_0000
      else if CompletesNow(setup, h, i) then 0
      else CountLeft(setup, before, i)
  }

  lemma {:induction false} StreamRegister(s: Controller, i: nat, k: word)
    requires WellFormed(s) && 1 <= i < STREAMS && k < 0x18
    ensures Decoded(0x10 + 0x18 * i + k)
    ensures ReadValue(s, 0x10 + 0x18 * i + k)
            == if k == 0 then s.streams[i].cr else if k == 4 then s.streams[i].ndtr
               else if k == 8 then s.streams[i].par else if k == 12 then s.streams[i].m0ar
               else if k == 16 then s.streams[i].m1ar else if k == 20 then s.streams[i].fcr else 0
  {
    StreamOffsets(0x10 + 0x18 * i + k, i, k);
  }

  /** How an event changes the plain registers of a stream. */
  lemma {:induction false} ConfigAfter(s: Controller, e: Event, i: nat)
    requires WellFormed(s) && 1 <= i < STREAMS && (e.Write? ==> Decoded(e.offset)) && (e.Read? ==> Decoded(e.at))
    ensures var (x, y, b) := (s.streams[i], Step(s, e).streams[i], 0x10 + 0x18 * i);
            && y.par == (if e.Write? && e.offset == b + 8 then e.value else x.par)
            && y.m0ar == (if e.Write? && e.offset == b + 12 then e.value else x.m0ar)
            && y.m1ar == (if e.Write? && e.offset == b + 16 then e.value else x.m1ar)
            && y.fcr == (if e.Write? && e.offset == b + 20 then e.value else x.fcr)
            && y.ndtr == (if e.Write? && e.offset == b + 4 then e.value % 0x1_0000
                          else if e.Advance? && s.completeAt[i].Some? && s.completeAt[i].value <= e.now then 0
                          else x.ndtr)
            && (e != Read(b) ==>
                  y.cr == if e.Write? && e.offset == b then e.value
                          else if e.Advance? && s.completeAt[i].Some? && s.completeAt[i].value <= e.now
                          then x.cr - x.cr % 2
                          else x.cr)
  {
    hide Bit, Advanced;
    match e
    case Write(offset, value) =>
      StreamOffsets(offset, i, 0);
      StreamOffsets(offset, i, 4);
      StreamOffsets(offset, i, 8);
      StreamOffsets(offset, i, 12);
      StreamOffsets(offset, i, 16);
      StreamOffsets(offset, i, 20);
    case Read(at) => StreamOffsets(at, i, 0);
    case Advance(now) => AdvanceStream(s, now, STREAMS, i);
    case Outside(_) =>
  }

  /** CR: the value last written, EN cleared once the stream has completed. */
  ghost function ControlLeft(setup: Setup, h: History, i: nat): word
    requires ValidHistory(h) && i < STREAMS
  {
    match h
    case Nothing => 0
    case After(before, e) =>
      if e.Write? && e.offset == 0x10 + 0x18 * i then e.value
      else if CompletesNow(setup, h, i) then ControlLeft(setup, before, i) - ControlLeft(setup, before, i) % 2
      else ControlLeft(setup, before, i)
  }

  predicate NoReadOf(h: History, offset: word) {
    match h
    case Nothing => true
    case After(before, e) => e != Read(offset) && NoReadOf(before, offset)
  }

  /** So is CR, over any run that has not read it; what reads do is `ControlToggles`. */
  lemma {:induction false} ControlReadsBack(setup: Setup, h: History, i: nat)
    requires ValidHistory(h) && 1 <= i < STREAMS && NoReadOf(h, 0x10 + 0x18 * i)
    ensures ReadValue(Run(setup, h), 0x10 + 0x18 * i) == ControlLeft(setup, h, i)
  {
    hide Step, ReadValue;
    StreamRegister(Run(setup, h), i, 0);
    if h.After? {
      StreamRegister(Run(setup, h.earlier), i, 0);
      ControlReadsBack(setup, h.earlier, i);
      ConfigAfter(Run(setup, h.earlier), h.last, i);
    }
  }

  /** Over any run the address registers and FCR of streams 1 to 7 read back what was last
      written there, and NDTR its low 16 bits until the stream completes, then zero. */
  lemma {:induction false} RegistersReadBack(setup: Setup, h: History, i: nat)
    requires ValidHistory(h) && 1 <= i < STREAMS
    ensures var (s, b) := (Run(setup, h), 0x10 + 0x18 * i);
            && ReadValue(s, b + 4) == CountLeft(setup, h, i)
            && ReadValue(s, b + 8) == LastWritten(h, b + 8)
            && ReadValue(s, b + 12) == LastWritten(h, b + 12)
            && ReadValue(s, b + 16) == LastWritten(h, b + 16)
            && ReadValue(s, b + 20) == LastWritten(h, b + 20)
  {
    hide Step, ReadValue;
    var s := Run(setup, h);
    StreamRegister(s, i, 4);
    StreamRegister(s, i, 8);
    StreamRegister(s, i, 12);
    StreamRegister(s, i, 16);
    StreamRegister(s, i, 20);
    if h.After? {
      var t := Run(setup, h.earlier);
      StreamRegister(t, i, 4);
      StreamRegister(t, i, 8);
      StreamRegister(t, i, 12);
      StreamRegister(t, i, 16);
      StreamRegister(t, i, 20);
      RegistersReadBack(setup, h.earlier, i);
      ConfigAfter(t, h.last, i);
    }
  }

  // ---- CR ----

  /** Reading CR `n` times. */
  function AfterReads(x: Stream, n: nat): Stream {
    if n == 0 then x else AfterStreamRead(AfterReads(x, n - 1), 0)
  }

  /** With EN (bit 0) the other way round. */
  function Flipped(cr: word): word {
    if cr % 2 == 1 then cr - 1 else cr + 1
  }

  lemma {:induction false} FlipKeepsRest(cr: word, k: nat)
    requires k >= 1
    ensures Flipped(cr) < 0x1_0000_0000 && Flipped(Flipped(cr)) == cr && (Bit(Flipped(cr), k) <==> Bit(cr, k))
  {
    assert Flipped(cr) / 2 == cr / 2;
    assert Bit(Flipped(cr), k) == (Flipped(cr) != 0 && Bit(Flipped(cr) / 2, k - 1));
    assert Bit(cr, k) == (cr != 0 && Bit(cr / 2, k - 1));
    if cr / 2 == 0 {
      assert !Bit(0, k - 1);
    }
  }

  /** An outbound stream (DIR 01) with nothing to send. */
  predicate NothingToSend(x: Stream) {
    !Bit(x.cr, 7) && Bit(x.cr, 6) && x.ndtr == 0
  }

  lemma {:induction false} OneToggle(x: Stream)
    requires NothingToSend(x)
    requires x.nextCr.Some? ==> x.nextCr.value == Flipped(x.cr)
    ensures var y := AfterStreamRead(x, 0);
            && y == x.(cr := y.cr, nextCr := Some(Flipped(y.cr))) && NothingToSend(y)
            && y.cr == if x.nextCr.Some? then Flipped(x.cr) else x.cr
  {
    hide Bit;
    FlipKeepsRest(x.cr, 6);
    FlipKeepsRest(x.cr, 7);
  }

  /** Successive reads of CR of such a stream return its value twice and then see EN set
      and clear in turn; reads of any other stream change nothing. */
  lemma {:induction false} ControlToggles(x: Stream, n: nat)
    requires x.nextCr == None
    ensures NothingToSend(x) ==>
              StreamValue(AfterReads(x, n), 0) == if n == 0 || n % 2 == 1 then x.cr else Flipped(x.cr)
    ensures !NothingToSend(x) ==> AfterReads(x, n) == x && StreamValue(AfterReads(x, n), 0) == x.cr
  {
    hide Bit;
    if NothingToSend(x) {
      TogglesFrom(x, n);
    } else if n != 0 {
      ControlToggles(x, n - 1);
    }
  }

  lemma {:induction false} TogglesFrom(x: Stream, n: nat)
    requires x.nextCr == None && NothingToSend(x)
    ensures var y := AfterReads(x, n);
            && NothingToSend(y) && y.cr == (if n == 0 || n % 2 == 1 then x.cr else Flipped(x.cr))
            && y.nextCr == if n == 0 then None else Some(Flipped(y.cr))
  {
    hide NothingToSend, Flipped;
    if n != 0 {
      TogglesFrom(x, n - 1);
      OneToggle(AfterReads(x, n - 1));
      FlipKeepsRest(x.cr, 6);
    }
  }

  /** Reading one register of the controller `n` times. */
  function ReadRepeatedly(s: Controller, offset: word, n: nat): (t: Controller)
    requires WellFormed(s) && Decoded(offset)
    ensures WellFormed(t)
  {
    if n == 0 then s else AfterRead(ReadRepeatedly(s, offset, n - 1), offset)
  }

  /** At the controller, reads of CR of streams 1 to 7 do just that to their stream and
      nothing to any other; and no other read changes anything. */
  lemma {:induction false} ReadsReachStream(s: Controller, i: nat, offset: word, n: nat)
    requires WellFormed(s) && 1 <= i < STREAMS && Decoded(offset)
    ensures Decoded(0x10 + 0x18 * i)
    ensures ReadRepeatedly(s, 0x10 + 0x18 * i, n) == s.(streams := s.streams[i := AfterReads(s.streams[i], n)])
    ensures ReadValue(ReadRepeatedly(s, 0x10 + 0x18 * i, n), 0x10 + 0x18 * i)
            == StreamValue(AfterReads(s.streams[i], n), 0)
    ensures offset < 0x28 || (offset - 0x10) % 0x18 != 0 ==> AfterRead(s, offset) == s
  {
    hide AfterStreamRead, StreamValue;
    StreamOffsets(0x10 + 0x18 * i, i, 0);
    if n != 0 {
      ReadsReachStream(s, i, offset, n - 1);
    }
    if offset >= 0x28 && (offset - 0x10) % 0x18 != 0 {
      OnlyControlReads(s.streams[(offset - 0x10) / 0x18], (offset - 0x10) % 0x18);
    }
  }

  lemma {:induction false} OnlyControlReads(x: Stream, k: nat)
    requires 0 < k < 0x18
    ensures AfterStreamRead(x, k) == x
  {
  }

  /** The clear registers, and the offsets where stream 0 would be, read as zero. */
  lemma {:induction false} NothingElseReads(s: Controller, offset: word)
    requires WellFormed(s) && 0x08 <= offset < 0x28
    ensures Decoded(offset) && ReadValue(s, offset) == 0
  {
  }

  /** A value left over from such reads replaces CR once. */
  lemma {:induction false} LeftoverIsTaken(x: Stream, next: word)
    requires x.nextCr == Some(next) && (Bit(next, 7) || !Bit(next, 6) || x.ndtr != 0)
    ensures StreamValue(x, 0) == x.cr && AfterStreamRead(x, 0) == x.(cr := next, nextCr := None)
  {
    hide Bit;
  }

  /** Whether the stream has completed since its flag was last cleared: by a write to LIFCR
      (streams 0 to 3) or HIFCR with its bit set. */
  ghost predicate Raised(setup: Setup, h: History, i: nat)
    requires ValidHistory(h) && i < STREAMS
  {
    match h
    case Nothing => false
    case After(before, e) =>
      if CompletesNow(setup, h, i) then true
      else if e.Write? && e.offset == (if i < 4 then 0x08 else 0x0c) && Bit(e.value, FLAGS[i % 4]) then false
      else Raised(setup, before, i)
  }

  lemma {:induction false} FlagAfter(s: Controller, e: Event, i: nat)
    requires WellFormed(s) && i < STREAMS && (e.Write? ==> Decoded(e.offset)) && (e.Read? ==> Decoded(e.at))
    ensures FlagUp(Step(s, e), i)
            <==> (e.Advance? && s.completeAt[i].Some? && s.completeAt[i].value <= e.now)
                 || (FlagUp(s, i)
                     && !(e.Write? && e.offset == (if i < 4 then 0x08 else 0x0c) && Bit(e.value, FLAGS[i % 4])))
  {
    hide Bit, Advanced, AfterStreamRead, AfterStreamWrite;
    match e
    case Write(offset, value) =>
    case Read(at) =>
    case Advance(now) =>
      hide FlagUp, Tcif;
      TablesHold(s, i);
      TablesHold(Step(s, e), i);
      AdvanceStream(s, now, STREAMS, i);
    case Outside(_) =>
  }

  /** LISR and HISR show exactly those flags, over any run. */
  lemma {:induction false} FlagsRead(setup: Setup, h: History, i: nat)
    requires ValidHistory(h) && i < STREAMS
    ensures Bit(ReadValue(Run(setup, h), if i < 4 then 0x00 else 0x04), FLAGS[i % 4]) <==> Raised(setup, h, i)
  {
    hide Step, Bit;
    FlagIsRead(Run(setup, h), i);
    if h.After? {
      FlagsRead(setup, h.earlier, i);
      FlagIsRead(Run(setup, h.earlier), i);
      FlagAfter(Run(setup, h.earlier), h.last, i);
    } else {
      assert !Bit(0, FLAGS[i % 4]) by {
        NoFlag(FLAGS[i % 4]);
      }
    }
  }

  /** LISR and HISR have no other bits. */
  lemma {:induction false} OnlyFlags(setup: Setup, h: History, j: nat)
    requires ValidHistory(h) && j !in FLAGS
    ensures !Bit(ReadValue(Run(setup, h), 0x00), j) && !Bit(ReadValue(Run(setup, h), 0x04), j)
  {
    hide Bit;
    NoFlag(j);
    if h.After? {
      hide Advanced, WriteRegister, AfterStreamRead;
      OnlyFlags(setup, h.earlier, j);
      var s := Run(setup, h.earlier);
      match h.last {
        case Write(offset, value) => NoFlagWritten(s, offset, value, j);
        case Read(at) =>
        case Advance(now) => NoFlagAdvanced(s, now, STREAMS, j);
        case Outside(_) =>
      }
    }
  }

  lemma {:induction false} NoFlagWritten(s: Controller, offset: word, value: word, j: nat)
    requires WellFormed(s) && Decoded(offset) && !Bit(s.lisr, j) && !Bit(s.hisr, j)
    ensures var t := WriteRegister(s, offset, value); !Bit(t.lisr, j) && !Bit(t.hisr, j)
  {
    hide Bit, AfterStreamWrite;
  }

  lemma {:induction false} NoFlagAdvanced(s: Controller, now: long, n: nat, j: nat)
    requires WellFormed(s) && n <= STREAMS && j !in FLAGS && !Bit(s.lisr, j) && !Bit(s.hisr, j)
    ensures var t := Advanced(s, now, n); !Bit(t.lisr, j) && !Bit(t.hisr, j)
  {
    hide Bit, Finished, Transfer, CompletionOf;
    if n != 0 {
      NoFlagAdvanced(s, now, n - 1, j);
      assert TcifBit((n - 1) % 4) == FLAGS[(n - 1) % 4];
    }
  }

  lemma {:induction false} FlagIsRead(s: Controller, i: nat)
    requires WellFormed(s) && i < STREAMS
    ensures Bit(ReadValue(s, if i < 4 then 0x00 else 0x04), FLAGS[i % 4]) <==> FlagUp(s, i)
  {
    hide Bit;
  }

  lemma {:induction false} NoFlag(k: nat)
    ensures !Bit(0, k)
  {
  }

  // ---- The object ----

  predicate ValidIrqs(done: seq<Completion>) {
    forall i :: 0 <= i < |done| ==> done[i].irq.Some? ==> 0 <= done[i].irq.value < 112
  }

  /** The interrupts of a list of completions, pended in order. */
  function Pended(n: NvicPending.Controller, done: seq<Completion>): NvicPending.Controller
    requires ValidIrqs(done)
  {
    if done == [] then n
    else
      var t := Pended(n, done[..|done| - 1]);
      match done[|done| - 1].irq
      case Some(irq) => NvicPending.SetPending(t, irq)
      case None => t
  }

  lemma {:induction false} PendedAppend(n: NvicPending.Controller, done: seq<Completion>, c: Completion)
    requires ValidIrqs(done) && ValidIrqs([c])
    ensures ValidIrqs(done + [c])
    ensures Pended(n, done + [c])
            == if c.irq.Some? then NvicPending.SetPending(Pended(n, done), c.irq.value) else Pended(n, done)
  {
    hide NvicPending.SetPending;
    assert (done + [c])[..|done + [c]| - 1] == done;
  }

  class Dma {
    const unit: Unit
    const wiring: Wiring
    const uc: AddressSpace
    var logs: map<nat, seq<BlockAccess>>
    const streams: array<Stream>
    const completeAt: array<Option<nat>>
    var lisr: word
    var hisr: word
    var lastNow: long
    ghost var done: seq<Completion>

    ghost predicate Valid() {
      streams.Length == STREAMS && completeAt.Length == STREAMS
    }

    ghost function Surroundings(): World
      reads this, uc
    {
      World(uc.mem, logs)
    }

    ghost function State(): Controller
      reads this, streams, completeAt, uc
    {
      Controller(unit, streams[..], lisr, hisr, completeAt[..], lastNow, done, wiring, Surroundings())
    }

    constructor (unit: Unit, wiring: Wiring, uc: AddressSpace)
      ensures Valid() && fresh(streams) && fresh(completeAt) && this.uc == uc
      ensures State() == Reset(Setup(unit, wiring, World(uc.mem, map[])))
    {
      this.unit, this.wiring, this.uc, logs := unit, wiring, uc, map[];
      streams := new Stream[STREAMS](_ => IdleStream());
      completeAt := new Option<nat>[STREAMS](_ => None);
      lisr, hisr, lastNow, done := 0, 0, 0, [];
    }

    method Read(offset: word) returns (value: word)
      requires Valid() && Decoded(offset)
      modifies streams
      ensures value == ReadValue(old(State()), offset)
      ensures State() == AfterRead(old(State()), offset)
    {
      hide StreamValue, AfterStreamRead;
      StreamOffsets(offset, 0, 0);
      match FromOffset(offset) {
        case Reg(o) => value := if o == LISR then lisr else if o == HISR then hisr else 0;
        case StreamReg(i, o) =>
          value := StreamValue(streams[i], o);
          streams[i] := AfterStreamRead(streams[i], o);
      }
    }

    method Write(offset: word, value: word)
      requires Valid() && Decoded(offset)
      modifies this, streams, completeAt
      ensures State() == WriteRegister(old(State()), offset, value)
    {
      hide Bit, AndNot, AfterStreamWrite;
      StreamOffsets(offset, 0, 0);
      match FromOffset(offset) {
        case Reg(o) =>
          if o == LIFCR {
            lisr := AndNot(lisr, value);
          } else if o == HIFCR {
            hisr := AndNot(hisr, value);
          }
        case StreamReg(i, o) =>
          streams[i] := AfterStreamWrite(streams[i], o, value);
          if Arms(o, value) {
            completeAt[i] := Some(lastNow + TRANSFER_COMPLETE_DELAY);
          }
      }
    }

    /** The block access a peripheral sees is added to its log. */
    method Access(id: nat, a: BlockAccess)
      modifies `logs
      ensures Surroundings() == Logged(old(Surroundings()), id, a)
    {
      logs := logs[id := (if id in logs then logs[id] else []) + [a]];
    }

    method DoXfer(x: Stream)
      modifies `logs, uc
      ensures Surroundings() == Transfer(x, old(Surroundings()), wiring)
    {
      hide Bit, DirectionOf, DataSize, DataAddr, Written, BytesAt;
      var (direction, at, size) := (DirectionOf(x.cr), DataAddr(x), DataSize(x));
      var peripheral := wiring.routes(x.par);
      var buf: seq<byte>;
      match direction {
        case FromPeripheral =>
          buf := Zeros(size);
          if peripheral.Some? {
            Access(peripheral.value.0, Fetch(peripheral.value.1, size));
            buf := wiring.supplies(peripheral.value.0, logs[peripheral.value.0]);
          }
        case ToPeripheral | MemoryCopy =>
          var read := uc.MemRead(if direction.ToPeripheral? then at else x.par, size);
          buf := if read.Some? then read.value else Zeros(size);
        case Invalid =>
          buf := [];
      }
      match direction {
        case ToPeripheral =>
          if peripheral.Some? {
            Access(peripheral.value.0, Deliver(peripheral.value.1, buf));
          }
        case FromPeripheral | MemoryCopy =>
          var _ := uc.MemWrite(at, buf); // a failure is only reported
        case Invalid =>
      }
    }

    method CompleteStream(i: nat, now: long, nvic: Nvic.Nvic)
      requires Valid() && i < STREAMS
      modifies this, streams, completeAt, uc, nvic
      ensures State() == Complete(old(State()), i, now)
      ensures nvic.State() == match old(CompletionOf(State(), i, now)).irq
                              case Some(irq) => NvicPending.SetPending(old(nvic.State()), irq)
                              case None => old(nvic.State())
    {
      hide Bit, NvicPending.SetPending, Finished, Transfer;
      ghost var s := State();
      completeAt[i] := None;
      var transfer := streams[i];
      DoXfer(transfer);
      var tcie := Bit(streams[i].cr, TCIE);
      streams[i] := Finished(streams[i]);
      if i < 4 {
        lisr := SetFlag(lisr, TcifBit(i % 4));
      } else {
        hisr := SetFlag(hisr, TcifBit(i % 4));
      }
      var irq := if tcie then StreamIrq(unit, i) else None;
      if irq.Some? {
        nvic.SetIntrPending(irq.value);
      }
      done := done + [Completion(i, transfer, now, irq)];
      assert streams[..] == s.streams[i := Finished(s.streams[i])];
      assert completeAt[..] == s.completeAt[i := None];
    }

    method AdvanceTo(now: long, nvic: Nvic.Nvic)
      requires Valid()
      modifies this, streams, completeAt, uc, nvic
      ensures State() == Advanced(old(State()), now, STREAMS)
      ensures |old(done)| <= |done| && done[..|old(done)|] == old(done) && ValidIrqs(done[|old(done)|..])
      ensures nvic.State() == Pended(old(nvic.State()), done[|old(done)|..])
    {
      hide Complete, Bit, NvicPending.SetPending, StreamIrq, Advanced, Pended;
      ghost var s, n := State(), nvic.State();
      ghost var added: seq<Completion> := [];
      lastNow := now;
      StartsAdvance(s, now, n);
      for i := 0 to STREAMS
        invariant State() == Advanced(s, now, i)
        invariant done == s.done + added && ValidIrqs(added)
        invariant nvic.State() == Pended(n, added)
      {
        NextAdvance(s, now, i);
        if completeAt[i].Some? && completeAt[i].value <= now {
          ghost var c := CompletionOf(State(), i, now);
          PendedAppend(n, added, c);
          CompleteLogs(State(), i, now);
          CompleteStream(i, now, nvic);
          added := added + [c];
        }
      }
      assert done[|s.done|..] == added;
    }

    static lemma {:induction false} StartsAdvance(s: Controller, now: long, n: NvicPending.Controller)
      requires WellFormed(s)
      ensures Advanced(s, now, 0) == s.(lastNow := now) && Pended(n, []) == n
    {
    }

    static lemma {:induction false} NextAdvance(s: Controller, now: long, i: nat)
      requires WellFormed(s) && i < STREAMS
      ensures Advanced(s, now, i + 1)
              == if Due(Advanced(s, now, i), i, now) then Complete(Advanced(s, now, i), i, now) else Advanced(s, now, i)
    {
      hide Complete;
    }

    static lemma {:induction false} CompleteLogs(s: Controller, i: nat, now: long)
      requires WellFormed(s) && i < STREAMS
      ensures Complete(s, i, now).done == s.done + [CompletionOf(s, i, now)]
    {
      hide Bit;
    }
  }
}
