/** A firmware driver that follows the hardware protocol, and the invariant that ties
    what it has read to the packets in the shared receive path. */
module OtgDriver {
  import opened Bits
  import opened ByteQueues
  import opened OtgModel
  import opened OtgRuns
  import opened OtgSession

  // ---- Packets ----

  /** A SETUP or OUT packet of the virtual host. */
  datatype Packet = Packet(setup: bool, ep: nat, bytes: seq<byte>)

  function QueuedPackets(h: History): seq<Packet> {
    match h
    case After(p, SetupQueued(ep, packet)) => QueuedPackets(p) + [Packet(true, ep, packet)]
    case After(p, OutQueued(ep, data)) => QueuedPackets(p) + [Packet(false, ep, data)]
    case After(p, _) => QueuedPackets(p)
    case Nothing => []
  }

  predicate Sane(p: Packet) {
    p.ep < NUM_ENDPOINTS && |p.bytes| <= BULK_PACKET
  }

  function DataWord(p: Packet): word
    requires Sane(p)
  {
    StatusWord(if p.setup then SETUP_DATA else OUT_DATA, |p.bytes|, p.ep)
  }

  function CompWord(p: Packet): word
    requires Sane(p)
  {
    StatusWord(if p.setup then SETUP_COMP else OUT_COMP, 0, p.ep)
  }

  predicate AllSane(packets: seq<Packet>) {
    forall i :: 0 <= i < |packets| ==> Sane(packets[i])
  }

  /** The statuses and the bytes of packets still to be received. */
  function StatusesOf(packets: seq<Packet>): seq<word>
    requires AllSane(packets)
  {
    if packets == [] then [] else [DataWord(packets[0]), CompWord(packets[0])] + StatusesOf(packets[1..])
  }

  function BytesOf(packets: seq<Packet>): seq<byte> {
    if packets == [] then [] else packets[0].bytes + BytesOf(packets[1..])
  }

  predicate IsBulk(p: Packet, ep: nat) {
    !p.setup && p.ep == ep
  }

  // ---- The driver ----

  /** `Reading`: a data status announced `count` bytes, of which `got` are read. */
  datatype Phase = Idle | Reading(setup: bool, ep: nat, count: nat, got: seq<byte>)

  /** `packets`: those received since the bus reset, whatever their endpoint. */
  datatype Driver = Driver(phase: Phase, packets: seq<Packet>)

  const FRESH_DRIVER := Driver(Idle, [])

  predicate PopsStatus(e: Event) {
    e.FirmwareRead? && Decode(e.offset) == Global(GRXSTSP)
  }

  predicate ReadsFifo(e: Event) {
    e.FirmwareRead? && Decode(e.offset) == Fifo(0)
  }

  predicate Arms(e: Event, ep: nat) {
    e.FirmwareWrite? && Decode(e.offset) == OutReg(ep, EP_CTL) && Bit(e.value, EPENA)
  }

  /** A write that completes the control-IN stage of the given request. */
  predicate Completes(s: Otg, e: Event, step: HostStep)
    requires Shape(s)
  {
    e.FirmwareWrite? && s.step == step && Next(s, e).step != step
  }

  predicate Unread(d: Driver) {
    d.phase.Reading? && |d.phase.got| < d.phase.count
  }

  /** No packet for `ep` waits in the receive path. */
  predicate NonePending(s: Otg, d: Driver, ep: nat) {
    && (forall w :: w in s.rxStatus ==> EndpointNumber(w) != ep)
    && (d.phase.Reading? ==> d.phase.ep != ep)
  }

  /** A status is popped only between payloads, the FIFO is read only for an
      announced payload, the bulk endpoint is armed only once the completion of its
      previous packet has been popped, and SET_LINE_CODING, whose 7 data bytes end
      inside a FIFO word, is completed only with the receive path drained. Every
      other access, every poll and every host action is unrestricted. */
  predicate Disciplined(s: Otg, d: Driver, e: Event, ep: nat)
    requires Shape(s)
  {
    && (PopsStatus(e) ==> !Unread(d))
    && (ReadsFifo(e) ==> Unread(d))
    && (Arms(e, ep) ==> NonePending(s, d, ep))
    && (Completes(s, e, AwaitingSetLineCodingStatus) ==> s.rxStatus == [])
  }

  /** What the driver does with the words it reads; a bus reset restarts it. */
  function DriverNext(s: Otg, d: Driver, e: Event): Driver
    requires Shape(s)
  {
    if Resets(s, e) then FRESH_DRIVER
    else if PopsStatus(e) then AfterStatus(d, ReadValue(s, e.offset))
    else if ReadsFifo(e) && Unread(d) then
      var n := Min(4, d.phase.count - |d.phase.got|);
      d.(phase := d.phase.(got := d.phase.got + LeBytes(ReadValue(s, e.offset))[..n]))
    else d
  }

  function AfterStatus(d: Driver, w: word): Driver {
    if PacketStatus(w) == SETUP_DATA || PacketStatus(w) == OUT_DATA then
      d.(phase := Reading(PacketStatus(w) == SETUP_DATA, EndpointNumber(w), ByteCount(w), []))
    else if (PacketStatus(w) == SETUP_COMP || PacketStatus(w) == OUT_COMP) && d.phase.Reading? then
      Driver(Idle, d.packets + [Packet(d.phase.setup, d.phase.ep, d.phase.got)])
    else d
  }

  // ---- The joint invariant ----

  /** The packets queued and not yet received. */
  function Flight(h: History, d: Driver): seq<Packet> {
    var all := QueuedPackets(h);
    if |d.packets| <= |all| then all[|d.packets|..] else []
  }

  /** Only the last packet in flight may end inside a FIFO word. */
  ghost predicate Aligned(flight: seq<Packet>) {
    forall i :: 0 <= i < |flight| - 1 ==> |flight[i].bytes| % 4 == 0
  }

  ghost predicate TailAligned(flight: seq<Packet>) {
    flight != [] ==> |flight[|flight| - 1].bytes| % 4 == 0
  }

  /** The receive path holds exactly the packets in flight, at the point the driver
      has reached in the first of them. */
  ghost predicate InStep(status: seq<word>, fifo: seq<byte>, phase: Phase, flight: seq<Packet>) {
    && AllSane(flight) && Aligned(flight)
    && match phase
       case Idle => status == StatusesOf(flight) && fifo == BytesOf(flight)
       case Reading(setup, ep, count, got) =>
         && flight != []
         && var p := flight[0];
            && p.setup == setup && p.ep == ep && |p.bytes| == count
            && |got| <= count && got == p.bytes[..|got|] && (|got| == count || |got| % 4 == 0)
            && status == [CompWord(p)] + StatusesOf(flight[1..])
            && fifo == p.bytes[|got|..] + BytesOf(flight[1..])
  }

  ghost predicate Tracks(h: History, status: seq<word>, fifo: seq<byte>, d: Driver) {
    d.packets <= QueuedPackets(h) && InStep(status, fifo, d.phase, Flight(h, d))
  }

  function Bulks(flight: seq<Packet>, ep: nat): nat {
    if flight == [] then 0
    else Bulks(flight[..|flight| - 1], ep) + if IsBulk(flight[|flight| - 1], ep) then 1 else 0
  }

  /** Who may have left the FIFO inside a word, and at most one bulk packet. */
  ghost predicate Orderly(flight: seq<Packet>, step: HostStep, enabled: bool, ep: nat) {
    && (TailAligned(flight) || step == AwaitingSetLineCodingStatus
        || (step == Configured && IsBulk(flight[|flight| - 1], ep)))
    && Bulks(flight, ep) + (if enabled then 1 else 0) <= 1
    && (step != Configured ==> Bulks(flight, ep) == 0)
  }

  ghost predicate Delivering(s: Otg, d: Driver, ep: nat)
    requires Shape(s)
  {
    && 1 <= ep < NUM_ENDPOINTS && s.bulkOut == Some(ep)
    && Tracks(s.history, s.rxStatus, s.rxFifo, d)
    && Orderly(Flight(s.history, d), s.step, Enabled(s.epOut[ep]), ep)
  }

  // ---- Appending to and taking from the flight ----

  lemma {:induction false} StatusesAppend(packets: seq<Packet>, p: Packet)
    requires AllSane(packets) && Sane(p)
    ensures StatusesOf(packets + [p]) == StatusesOf(packets) + [DataWord(p), CompWord(p)]
    ensures BytesOf(packets + [p]) == BytesOf(packets) + p.bytes
  {
    hide DataWord, CompWord;
    if packets == [] {
      assert [p][1..] == [];
      assert [] + [p] == [p];
    } else {
      StatusesAppend(packets[1..], p);
      assert (packets + [p])[1..] == packets[1..] + [p];
      var (first, rest) := (packets[0], StatusesOf(packets[1..]));
      assert [DataWord(first), CompWord(first)] + (rest + [DataWord(p), CompWord(p)])
          == [DataWord(first), CompWord(first)] + rest + [DataWord(p), CompWord(p)];
      assert first.bytes + (BytesOf(packets[1..]) + p.bytes) == first.bytes + BytesOf(packets[1..]) + p.bytes;
    }
  }

  lemma {:induction false} InStepAppend(status: seq<word>, fifo: seq<byte>, phase: Phase, flight: seq<Packet>,
                                        p: Packet)
    requires InStep(status, fifo, phase, flight) && TailAligned(flight) && Sane(p)
    ensures InStep(status + [DataWord(p), CompWord(p)], fifo + p.bytes, phase, flight + [p])
  {
    hide DataWord, CompWord, StatusesOf, BytesOf, Sane;
    if phase.Idle? {
      StatusesAppend(flight, p);
    } else {
      StatusesAppend(flight[1..], p);
      assert (flight + [p])[1..] == flight[1..] + [p];
      var (rest, bytes) := (StatusesOf(flight[1..]), BytesOf(flight[1..]));
      assert [CompWord(flight[0])] + rest + [DataWord(p), CompWord(p)]
          == [CompWord(flight[0])] + (rest + [DataWord(p), CompWord(p)]);
      assert flight[0].bytes[|phase.got|..] + bytes + p.bytes == flight[0].bytes[|phase.got|..] + (bytes + p.bytes);
    }
  }

  lemma {:induction false} PrefixGrows<T>(a: seq<T>, b: seq<T>, x: T)
    requires a <= b
    ensures a <= b + [x]
  {
  }

  /** One more packet queued behind a flight that ends at a word boundary. */
  lemma {:induction false} TracksAppend(h: History, t: History, status: seq<word>, fifo: seq<byte>, d: Driver,
                                        p: Packet)
    requires Tracks(h, status, fifo, d) && TailAligned(Flight(h, d)) && Sane(p)
    requires QueuedPackets(t) == QueuedPackets(h) + [p]
    ensures Tracks(t, status + [DataWord(p), CompWord(p)], fifo + p.bytes, d)
    ensures Flight(t, d) == Flight(h, d) + [p]
  {
    hide QueuedPackets, InStep, DataWord, CompWord;
    InStepAppend(status, fifo, d.phase, Flight(h, d), p);
    var (n, all) := (|d.packets|, QueuedPackets(h));
    assert (all + [p])[n..] == all[n..] + [p];
    assert d.packets <= all + [p] by { PrefixGrows(d.packets, all, p); }
  }

  lemma {:induction false} BulksAppend(flight: seq<Packet>, p: Packet, ep: nat)
    ensures Bulks(flight + [p], ep) == Bulks(flight, ep) + if IsBulk(p, ep) then 1 else 0
  {
    assert (flight + [p])[..|flight|] == flight;
  }

  lemma {:induction false} BulksDrop(flight: seq<Packet>, ep: nat)
    requires flight != []
    ensures Bulks(flight[1..], ep) == Bulks(flight, ep) - if IsBulk(flight[0], ep) then 1 else 0
  {
    var (front, last) := (flight[..|flight| - 1], flight[|flight| - 1]);
    if front != [] {
      BulksDrop(front, ep);
      assert flight[1..] == front[1..] + [last];
      BulksAppend(front[1..], last, ep);
    }
  }

  // ---- Reading a status ----

  lemma {:induction false} WordsDecode(p: Packet)
    requires Sane(p)
    ensures PacketStatus(DataWord(p)) == if p.setup then SETUP_DATA else OUT_DATA
    ensures ByteCount(DataWord(p)) == |p.bytes| && EndpointNumber(DataWord(p)) == p.ep
    ensures PacketStatus(CompWord(p)) == if p.setup then SETUP_COMP else OUT_COMP
    ensures EndpointNumber(CompWord(p)) == p.ep
  {
    StatusRoundTrip(if p.setup then SETUP_DATA else OUT_DATA, |p.bytes|, p.ep);
    StatusRoundTrip(if p.setup then SETUP_COMP else OUT_COMP, 0, p.ep);
  }

  lemma {:induction false} DataPopped(status: seq<word>, fifo: seq<byte>, d: Driver, flight: seq<Packet>)
    requires d.phase == Idle && status != [] && InStep(status, fifo, Idle, flight)
    ensures var t := AfterStatus(d, status[0]);
            t.packets == d.packets && InStep(status[1..], fifo, t.phase, flight)
  {
    hide DataWord, CompWord, PacketStatus, ByteCount, EndpointNumber;
    var p := flight[0];
    WordsDecode(p);
    assert p.bytes[0..] == p.bytes;
  }

  lemma {:induction false} CompPopped(status: seq<word>, fifo: seq<byte>, d: Driver, flight: seq<Packet>)
    requires d.phase.Reading? && !Unread(d) && InStep(status, fifo, d.phase, flight)
    ensures status != [] && flight != []
    ensures AfterStatus(d, status[0]) == Driver(Idle, d.packets + [flight[0]])
    ensures InStep(status[1..], fifo, Idle, flight[1..])
  {
    hide DataWord, CompWord, PacketStatus, ByteCount, EndpointNumber, StatusesOf, BytesOf;
    var p := flight[0];
    WordsDecode(p);
    assert p.bytes[|p.bytes|..] == [] && p.bytes[..|p.bytes|] == p.bytes;
    assert p == Packet(d.phase.setup, d.phase.ep, d.phase.got);
  }

  lemma {:induction false} FlightDrops(h: History, d: Driver, packets: seq<Packet>)
    requires d.packets <= QueuedPackets(h) && Flight(h, d) != [] && packets == d.packets + [Flight(h, d)[0]]
    ensures packets <= QueuedPackets(h) && Flight(h, Driver(Idle, packets)) == Flight(h, d)[1..]
  {
    hide QueuedPackets;
  }

  lemma {:induction false} OrderlyDrop(flight: seq<Packet>, step: HostStep, enabled: bool, ep: nat)
    requires Orderly(flight, step, enabled, ep) && flight != []
    ensures Orderly(flight[1..], step, enabled, ep)
  {
    BulksDrop(flight, ep);
  }

  /** Popping a status starts or finishes the first packet in flight. */
  lemma {:induction false} PopTracks(s: Otg, d: Driver, ep: nat)
    requires Shape(s) && Delivering(s, d, ep) && !Unread(d)
    ensures Shape(PopStatus(s))
    ensures Delivering(PopStatus(s), AfterStatus(d, if s.rxStatus == [] then 0 else s.rxStatus[0]), ep)
  {
    hide InStep, QueuedPackets, Orderly, Flight, AfterStatus;
    PopStatusKeepsShape(s);
    PopStatusFields(s, ep);
    var flight := Flight(s.history, d);
    if s.rxStatus == [] {
      NothingToPop(s.rxFifo, d, flight);
    } else if d.phase.Idle? {
      DataPopped(s.rxStatus, s.rxFifo, d, flight);
      SameFlight(s.history, PopStatus(s).history, d, AfterStatus(d, s.rxStatus[0]));
    } else {
      CompPopped(s.rxStatus, s.rxFifo, d, flight);
      FlightDrops(s.history, d, d.packets + [flight[0]]);
      SameFlight(s.history, PopStatus(s).history, Driver(Idle, d.packets + [flight[0]]),
                 Driver(Idle, d.packets + [flight[0]]));
      OrderlyDrop(flight, s.step, Enabled(s.epOut[ep]), ep);
    }
  }

  lemma {:induction false} SameFlight(h: History, t: History, d: Driver, e: Driver)
    requires QueuedPackets(t) == QueuedPackets(h) && e.packets == d.packets
    ensures Flight(t, e) == Flight(h, d)
  {
    hide QueuedPackets;
  }

  lemma {:induction false} NothingToPop(fifo: seq<byte>, d: Driver, flight: seq<Packet>)
    requires InStep([], fifo, d.phase, flight)
    ensures flight == [] && fifo == [] && d.phase == Idle && AfterStatus(d, 0) == d
  {
  }

  lemma {:induction false} PopStatusFields(s: Otg, ep: nat)
    requires Shape(s) && ep < NUM_ENDPOINTS
    ensures var t := PopStatus(s);
            && t.step == s.step && t.bulkOut == s.bulkOut && t.rxFifo == s.rxFifo && |t.epOut| == NUM_ENDPOINTS
            && t.rxStatus == (if s.rxStatus == [] then [] else s.rxStatus[1..])
            && QueuedPackets(t.history) == QueuedPackets(s.history)
            && Enabled(t.epOut[ep]) == Enabled(s.epOut[ep])
            && (s.rxStatus == [] ==> t == s)
  {
    hide Bit, PopStatus;
    PopChangesOnlyInterrupts(s);
  }

  // ---- Reading a FIFO word ----

  lemma {:induction false} PaddedKeeps(bytes: seq<byte>)
    requires |bytes| <= 4
    ensures Padded(bytes)[..|bytes|] == bytes && |Padded(bytes)| == 4
    decreases 4 - |bytes|
  {
    if |bytes| < 4 {
      PaddedKeeps(bytes + [0]);
      assert Padded(bytes)[..|bytes|] == Padded(bytes)[..|bytes| + 1][..|bytes|];
    }
  }

  /** The low bytes of the front word are the front of the FIFO. */
  lemma {:induction false} FrontWordBytes(fifo: seq<byte>)
    ensures var n := Min(4, |fifo|);
            LeBytes(FrontWord(fifo))[..n] == fifo[..n]
  {
    hide LeBytes, LeWord;
    var n := Min(4, |fifo|);
    PaddedKeeps(fifo[..n]);
    var b := Padded(fifo[..n]);
    LeBytesOfWord(b[0], b[1], b[2], b[3]);
    assert b == [b[0], b[1], b[2], b[3]];
  }

  lemma {:induction false} WordMoves(bytes: seq<byte>, got: nat, rest: seq<byte>, n: nat, read: seq<byte>)
    requires got + n <= |bytes| && n <= |read| && read[..n] == (bytes[got..] + rest)[..n]
    ensures bytes[..got] + read[..n] == bytes[..got + n]
    ensures (bytes[got..] + rest)[n..] == bytes[got + n..] + rest
  {
    assert (bytes[got..] + rest)[..n] == bytes[got..got + n];
  }

  /** One word of the announced payload: `n` payload bytes leave the FIFO, and
      nothing else, since only the last packet may end inside a word. */
  lemma {:induction false} WordRead(fifo: seq<byte>, d: Driver, flight: seq<Packet>, status: seq<word>, read: seq<byte>)
    requires Unread(d) && InStep(status, fifo, d.phase, flight)
    requires |read| == 4 && read[..Min(4, |fifo|)] == fifo[..Min(4, |fifo|)]
    ensures var n := Min(4, d.phase.count - |d.phase.got|);
            InStep(status, fifo[Min(4, |fifo|)..], d.phase.(got := d.phase.got + read[..n]), flight)
  {
    var (p, got) := (flight[0], d.phase.got);
    var n := Min(4, |p.bytes| - |got|);
    assert |flight| > 1 ==> |p.bytes| % 4 == 0;
    assert |flight| == 1 ==> BytesOf(flight[1..]) == [];
    hide StatusesOf, DataWord, CompWord, Sane, Aligned, BytesOf;
    assert Min(4, |fifo|) == n;
    WordMoves(p.bytes, |got|, BytesOf(flight[1..]), n, read);
  }

  lemma {:induction false} ReadTracks(s: Otg, d: Driver, ep: nat)
    requires Shape(s) && Delivering(s, d, ep) && Unread(d)
    ensures var n := Min(4, d.phase.count - |d.phase.got|);
            Delivering(PopRxWord(s), d.(phase := d.phase.(got := d.phase.got + LeBytes(FrontWord(s.rxFifo))[..n])), ep)
  {
    hide InStep, LeBytes, FrontWord, Orderly;
    FrontWordBytes(s.rxFifo);
    WordRead(s.rxFifo, d, Flight(s.history, d), s.rxStatus, LeBytes(FrontWord(s.rxFifo)));
  }

  // ---- Queueing ----

  lemma {:induction false} SetupTracks(s: Otg, d: Driver, packet: seq<byte>)
    requires Tracks(s.history, s.rxStatus, s.rxFifo, d) && TailAligned(Flight(s.history, d)) && |packet| == 8
    ensures var t := QueueSetup(s, 0, packet);
            && Tracks(t.history, t.rxStatus, t.rxFifo, d)
            && Flight(t.history, d) == Flight(s.history, d) + [Packet(true, 0, packet)]
  {
    hide StatusWord, Tracks, Flight;
    TracksAppend(s.history, QueueSetup(s, 0, packet).history, s.rxStatus, s.rxFifo, d, Packet(true, 0, packet));
  }

  lemma {:induction false} OutTracks(s: Otg, d: Driver, ep: nat, data: seq<byte>)
    requires Tracks(s.history, s.rxStatus, s.rxFifo, d) && TailAligned(Flight(s.history, d))
    requires ep < NUM_ENDPOINTS && |data| <= BULK_PACKET
    ensures var t := QueueOut(s, ep, data);
            && Tracks(t.history, t.rxStatus, t.rxFifo, d)
            && Flight(t.history, d) == Flight(s.history, d) + [Packet(false, ep, data)]
  {
    hide StatusWord, Tracks, Flight;
    TracksAppend(s.history, QueueOut(s, ep, data).history, s.rxStatus, s.rxFifo, d, Packet(false, ep, data));
  }

  /** Before SET_CONTROL_LINE_STATE may be sent, LINE_CODING must have been drained. */
  ghost predicate ReadyToAdvance(s: Otg) {
    s.step == AwaitingSetLineCodingStatus ==> s.rxStatus == []
  }

  /** The script's packets join the flight in order; only LINE_CODING leaves it
      inside a word, and only until it has been drained. */
  lemma {:induction false} AdvanceTracks(s: Otg, d: Driver, ep: nat)
    requires Shape(s) && Delivering(s, d, ep) && ReadyToAdvance(s)
    ensures Shape(Advance(s)) && Delivering(Advance(s), d, ep)
  {
    hide Tracks, Flight, QueueSetup, QueueOut, Bulks, Shape, StatusWord;
    AdvanceKeepsShape(s);
    AdvanceFields(s, ep);
    var flight := Flight(s.history, d);
    match s.step
    case AwaitingDeviceDescriptor =>
      OutTracks(s, d, 0, []);
      SetupTracks(QueueOut(s, 0, []), d, SET_ADDRESS);
      BulksAppend(flight, Packet(false, 0, []), ep);
      BulksAppend(flight + [Packet(false, 0, [])], Packet(true, 0, SET_ADDRESS), ep);
    case AwaitingSetAddressStatus =>
      SetupTracks(s, d, SET_CONFIGURATION);
      BulksAppend(flight, Packet(true, 0, SET_CONFIGURATION), ep);
    case AwaitingSetConfigurationStatus =>
      SetupTracks(s, d, SET_LINE_CODING);
      OutTracks(QueueSetup(s, 0, SET_LINE_CODING), d, 0, LINE_CODING);
      BulksAppend(flight, Packet(true, 0, SET_LINE_CODING), ep);
      BulksAppend(flight + [Packet(true, 0, SET_LINE_CODING)], Packet(false, 0, LINE_CODING), ep);
    case AwaitingSetLineCodingStatus =>
      NothingInFlight(s, d);
      SetupTracks(s, d, SET_CONTROL_LINE_STATE);
      BulksAppend(flight, Packet(true, 0, SET_CONTROL_LINE_STATE), ep);
    case _ =>
  }

  lemma {:induction false} NothingInFlight(s: Otg, d: Driver)
    requires Tracks(s.history, s.rxStatus, s.rxFifo, d) && s.rxStatus == []
    ensures Flight(s.history, d) == [] && s.rxFifo == [] && d.phase == Idle
  {
    NothingToPop(s.rxFifo, d, Flight(s.history, d));
  }

  lemma {:induction false} AdvanceFields(s: Otg, ep: nat)
    requires Shape(s) && ep < NUM_ENDPOINTS
    ensures var (t, u) := (Advance(s), Script(s));
            && t.step == NextStep(s.step) && t.bulkOut == s.bulkOut && t.epOut == s.epOut
            && t.rxStatus == u.rxStatus && t.rxFifo == u.rxFifo && t.history == u.history
  {
  }

  // ---- Each event keeps it ----

  /** Everything about a state that matters to delivery. */
  ghost predicate SameDelivery(s: Otg, t: Otg, ep: nat)
    requires Shape(s) && Shape(t) && ep < NUM_ENDPOINTS
  {
    && t.step == s.step && t.bulkOut == s.bulkOut
    && QueuedPackets(t.history) == QueuedPackets(s.history)
    && t.rxFifo == s.rxFifo && t.rxStatus == s.rxStatus
    && Enabled(t.epOut[ep]) == Enabled(s.epOut[ep])
  }

  lemma {:induction false} SameKeepsDelivering(s: Otg, t: Otg, d: Driver, ep: nat)
    requires Shape(s) && Shape(t) && Delivering(s, d, ep) && SameDelivery(s, t, ep)
    ensures Delivering(t, d, ep)
  {
    hide InStep, Orderly, QueuedPackets;
  }

  /** A completion on endpoint 0 advances the script; on another it is inert. */
  lemma {:induction false} CompleteInTracks(s: Otg, d: Driver, other: nat, ep: nat)
    requires Shape(s) && Delivering(s, d, ep) && other < NUM_ENDPOINTS && ep < NUM_ENDPOINTS
    requires other == 0 ==> ReadyToAdvance(s)
    ensures Shape(CompleteIn(s, other)) && Delivering(CompleteIn(s, other), d, ep)
  {
    hide Advance, Delivering;
    CompleteInKeepsShape(s, other);
    if other == 0 {
      var t := RaiseIn(s, 0, XFRC);
      var u := t.(txFifo := t.txFifo[0 := []]);
      SameKeepsDelivering(s, u, d, ep);
      AdvanceTracks(u, d, ep);
    } else {
      var t := RaiseIn(s, other, XFRC);
      assert QueuedPackets(t.history) == QueuedPackets(s.history);
      SameKeepsDelivering(s, CompleteIn(s, other), d, ep);
    }
  }

  lemma {:induction false} CompletionSteps(s: Otg)
    requires Shape(s) && s.step == AwaitingSetLineCodingStatus
    ensures CompleteIn(s, 0).step != s.step
  {
  }

  /** Appending, arming, disarming and raising on the IN side are inert. */
  lemma {:induction false} InSideIsInert(s: Otg, other: nat, value: word, ep: nat)
    requires Shape(s) && other < NUM_ENDPOINTS && ep < NUM_ENDPOINTS
    ensures Shape(AppendTxWord(s, other, value)) && SameDelivery(s, AppendTxWord(s, other, value), ep)
    ensures Shape(ArmIn(s, other, value)) && SameDelivery(s, ArmIn(s, other, value), ep)
    ensures Shape(DisarmIn(s, other)) && SameDelivery(s, DisarmIn(s, other), ep)
    ensures Shape(RaiseIn(s, other, TXFE)) && SameDelivery(s, RaiseIn(s, other, TXFE), ep)
  {
    hide Bit, LeBytes;
  }

  /** An access that completes SET_LINE_CODING finds the receive path drained. */
  ghost predicate DrainedIfCompleting(s: Otg, t: Otg) {
    s.step == AwaitingSetLineCodingStatus && t.step != s.step ==> s.rxStatus == []
  }

  lemma {:induction false} CompletionTracks(s: Otg, d: Driver, other: nat, ep: nat)
    requires Shape(s) && Delivering(s, d, ep) && other < NUM_ENDPOINTS && ep < NUM_ENDPOINTS
    requires DrainedIfCompleting(s, CompleteIn(s, other))
    ensures Shape(CompleteIn(s, other)) && Delivering(CompleteIn(s, other), d, ep)
  {
    hide CompleteIn, Delivering;
    if other == 0 && s.step == AwaitingSetLineCodingStatus {
      CompletionSteps(s);
    }
    CompleteInTracks(s, d, other, ep);
  }

  lemma {:induction false} DisarmTracks(s: Otg, d: Driver, other: nat, ep: nat)
    requires Shape(s) && Delivering(s, d, ep) && other < NUM_ENDPOINTS && ep < NUM_ENDPOINTS
    ensures Shape(DisarmIn(s, other)) && Delivering(DisarmIn(s, other), d, ep)
    ensures DisarmIn(s, other).step == s.step && DisarmIn(s, other).rxStatus == s.rxStatus
  {
    hide Delivering, Bit;
    SameKeepsDelivering(s, DisarmIn(s, other), d, ep);
  }

  lemma {:induction false} PushTracks(s: Otg, d: Driver, other: nat, value: word, ep: nat)
    requires Shape(s) && Delivering(s, d, ep) && other < NUM_ENDPOINTS && ep < NUM_ENDPOINTS
    requires DrainedIfCompleting(s, PushTxWord(s, other, value))
    ensures Shape(PushTxWord(s, other, value)) && Delivering(PushTxWord(s, other, value), d, ep)
  {
    hide CompleteIn, Delivering, AppendTxWord, DisarmIn, Enabled, XferSize;
    InSideIsInert(s, other, value, ep);
    var t := AppendTxWord(s, other, value);
    SameKeepsDelivering(s, t, d, ep);
    DisarmTracks(t, d, other, ep);
    if PushTxWord(s, other, value) != t {
      CompletionTracks(DisarmIn(t, other), d, other, ep);
    }
  }

  lemma {:induction false} WriteInTracks(s: Otg, d: Driver, other: nat, reg: nat, value: word, ep: nat)
    requires Shape(s) && Delivering(s, d, ep) && other < NUM_ENDPOINTS && ep < NUM_ENDPOINTS
    requires DrainedIfCompleting(s, WriteIn(s, other, reg, value))
    ensures Shape(WriteIn(s, other, reg, value)) && Delivering(WriteIn(s, other, reg, value), d, ep)
  {
    hide Delivering, AndNot, WriteInCtl, QueuedPackets, Bit, SetFlag, Flight, Tracks;
    if reg == EP_CTL {
      WriteInCtlTracks(s, d, other, value, ep);
    } else {
      InRegistersAreInert(s, WriteIn(s, other, reg, value), d, ep);
    }
  }

  lemma {:induction false} InRegistersAreInert(s: Otg, t: Otg, d: Driver, ep: nat)
    requires Shape(s) && Delivering(s, d, ep) && t == s.(epIn := t.epIn) && |t.epIn| == NUM_ENDPOINTS
    ensures Shape(t) && Delivering(t, d, ep)
  {
    hide QueuedPackets, Orderly, InStep;
  }

  lemma {:induction false} WriteInCtlTracks(s: Otg, d: Driver, other: nat, value: word, ep: nat)
    requires Shape(s) && Delivering(s, d, ep) && other < NUM_ENDPOINTS && ep < NUM_ENDPOINTS
    requires DrainedIfCompleting(s, WriteInCtl(s, other, value))
    ensures Shape(WriteInCtl(s, other, value)) && Delivering(WriteInCtl(s, other, value), d, ep)
  {
    hide CompleteIn, Delivering, ArmIn, DisarmIn, RaiseIn, Bit, XferSize, QueuedPackets;
    InSideIsInert(s, other, value, ep);
    var t := ArmIn(s, other, value);
    SameKeepsDelivering(s, t, d, ep);
    if !Bit(value, EPENA) || Enabled(s.epIn[other]) {
      SameKeepsDelivering(s, WriteInCtl(s, other, value), d, ep);
    } else if XferSize(s.epIn[other]) == 0 {
      DisarmTracks(t, d, other, ep);
      CompletionTracks(DisarmIn(t, other), d, other, ep);
    } else {
      InSideIsInert(t, other, value, ep);
      SameKeepsDelivering(t, RaiseIn(t, other, TXFE), d, ep);
    }
  }

  lemma {:induction false} UnmaskIsInert(s: Otg, newly: word, n: nat, ep: nat)
    requires Shape(s) && n <= NUM_ENDPOINTS && ep < NUM_ENDPOINTS
    ensures Shape(Unmask(s, newly, n)) && SameDelivery(s, Unmask(s, newly, n), ep)
  {
    hide Bit;
    UnmaskChangesOnlyInterrupts(s, newly, n);
    if n != 0 {
      UnmaskIsInert(s, newly, n - 1, ep);
      var t := Unmask(s, newly, n - 1);
      assert QueuedPackets(Note(t, InUnmasked(n - 1)).history) == QueuedPackets(t.history);
    }
  }

  lemma {:induction false} WriteGlobalTracks(s: Otg, d: Driver, o: word, value: word, ep: nat)
    requires Shape(s) && Delivering(s, d, ep) && ep < NUM_ENDPOINTS
    ensures Shape(WriteGlobal(s, o, value)) && Delivering(WriteGlobal(s, o, value), d, ep)
  {
    hide Unmask, Delivering, AndNot, ClearBit, Bit;
    UnmaskIsInert(s.(emptyMask := value), AndNot(value, s.emptyMask), NUM_ENDPOINTS, ep);
    SameKeepsDelivering(s, WriteGlobal(s, o, value), d, ep);
  }

  // ---- Arming ----

  lemma {:induction false} NamedInStatus(packets: seq<Packet>, i: nat)
    requires AllSane(packets) && i < |packets|
    ensures exists w :: w in StatusesOf(packets) && EndpointNumber(w) == packets[i].ep
  {
    hide DataWord, CompWord, EndpointNumber;
    if i == 0 {
      WordsDecode(packets[0]);
      assert DataWord(packets[0]) in StatusesOf(packets);
    } else {
      NamedInStatus(packets[1..], i - 1);
      var w :| w in StatusesOf(packets[1..]) && EndpointNumber(w) == packets[i].ep;
      assert w in StatusesOf(packets);
    }
  }

  lemma {:induction false} NoBulks(flight: seq<Packet>, ep: nat)
    requires forall i :: 0 <= i < |flight| ==> !IsBulk(flight[i], ep)
    ensures Bulks(flight, ep) == 0
  {
    if flight != [] {
      NoBulks(flight[..|flight| - 1], ep);
    }
  }

  /** Once every status of `ep` has been popped no packet for it is in flight. */
  lemma {:induction false} NonePendingNoBulks(s: Otg, d: Driver, ep: nat)
    requires Shape(s) && Delivering(s, d, ep) && NonePending(s, d, ep)
    ensures Bulks(Flight(s.history, d), ep) == 0
  {
    hide Orderly, EndpointNumber, StatusesOf, Shape;
    var flight := Flight(s.history, d);
    forall i | 0 <= i < |flight|
      ensures !IsBulk(flight[i], ep)
    {
      if d.phase.Idle? {
        NamedInStatus(flight, i);
      } else if i > 0 {
        NamedInStatus(flight[1..], i - 1);
        var w :| w in StatusesOf(flight[1..]) && EndpointNumber(w) == flight[1..][i - 1].ep;
        assert w in s.rxStatus;
      }
    }
    NoBulks(flight, ep);
  }

  lemma {:induction false} ControlWritten(s: Otg, d: Driver, other: nat, value: word, ep: nat)
    requires Shape(s) && Delivering(s, d, ep) && other < NUM_ENDPOINTS && ep < NUM_ENDPOINTS
    requires other == ep && Bit(value, EPENA) ==> NonePending(s, d, ep)
    ensures var t := Note(s.(epOut := s.epOut[other := s.epOut[other].(ctl := value)]), OutCtlWritten(other, value));
            Shape(t) && Delivering(t, d, ep)
  {
    hide Bit, InStep, NonePending, Bulks, TailAligned;
    if other == ep && Bit(value, EPENA) {
      NonePendingNoBulks(s, d, ep);
    }
    var t := Note(s.(epOut := s.epOut[other := s.epOut[other].(ctl := value)]), OutCtlWritten(other, value));
    assert QueuedPackets(t.history) == QueuedPackets(s.history);
  }

  /** In step 0 everything in flight ends at a word boundary, so another
      GET_DESCRIPTOR may join it. */
  lemma {:induction false} DescriptorTracks(s: Otg, d: Driver, ep: nat)
    requires Shape(s) && Delivering(s, d, ep) && s.step == AwaitingDeviceDescriptor
    ensures var t := QueueSetup(s, 0, GET_DEVICE_DESCRIPTOR);
            Shape(t) && Delivering(t, d, ep)
  {
    hide Tracks, Flight, Bulks, StatusWord;
    SetupKeepsShape(s, 0, GET_DEVICE_DESCRIPTOR);
    SetupTracks(s, d, GET_DEVICE_DESCRIPTOR);
    BulksAppend(Flight(s.history, d), Packet(true, 0, GET_DEVICE_DESCRIPTOR), ep);
  }

  lemma {:induction false} WriteOutTracks(s: Otg, d: Driver, other: nat, reg: nat, value: word, ep: nat)
    requires Shape(s) && Delivering(s, d, ep) && other < NUM_ENDPOINTS && ep < NUM_ENDPOINTS
    requires other == ep && reg == EP_CTL && Bit(value, EPENA) ==> NonePending(s, d, ep)
    ensures Shape(WriteOut(s, other, reg, value)) && Delivering(WriteOut(s, other, reg, value), d, ep)
  {
    hide Delivering, NonePending, AndNot, Bit, QueueSetup;
    if reg == EP_CTL {
      ControlWritten(s, d, other, value, ep);
      var t := Note(s.(epOut := s.epOut[other := s.epOut[other].(ctl := value)]), OutCtlWritten(other, value));
      if WriteOutCtl(s, other, value) != t {
        DescriptorTracks(t, d, ep);
      }
    } else {
      SameKeepsDelivering(s, WriteOut(s, other, reg, value), d, ep);
    }
  }

  lemma {:induction false} WriteTracks(s: Otg, d: Driver, e: Event, ep: nat)
    requires Shape(s) && Delivering(s, d, ep) && ep < NUM_ENDPOINTS && e.FirmwareWrite? && Disciplined(s, d, e, ep)
    ensures Shape(Next(s, e)) && Delivering(Next(s, e), d, ep)
  {
    hide PushTxWord, WriteIn, WriteOut, WriteGlobal, Delivering, NonePending, Shape, Unread;
    match Decode(e.offset)
    case Fifo(other) => PushTracks(s, d, other, e.value, ep);
    case InReg(other, reg) => WriteInTracks(s, d, other, reg, e.value, ep);
    case OutReg(other, reg) => WriteOutTracks(s, d, other, reg, e.value, ep);
    case Global(o) => WriteGlobalTracks(s, d, o, e.value, ep);
  }

  // ---- The host's packet, and the poll ----

  lemma {:induction false} ForwardTracks(s: Otg, d: Driver, ep: nat)
    requires Shape(s) && Delivering(s, d, ep)
    ensures Shape(ForwardBulkOut(s)) && Delivering(ForwardBulkOut(s), d, ep)
  {
    ForwardKeepsShape(s);
    if Forwards(s) {
      var (u, bytes) := (BeforeQueueing(s), ForwardedPacket(s));
      hide Tracks, Flight, Bulks, StatusWord, ForwardedPacket, Bit, BeforeQueueing;
      TakenFields(s, ep);
      TracksKept(s, u, d);
      OutTracks(u, d, ep, bytes);
      BulksAppend(Flight(s.history, d), Packet(false, ep, bytes), ep);
      OnlyOneBulk(Flight(s.history, d), ep);
    } else {
      hide Delivering;
      SameKeepsDelivering(s, ForwardBulkOut(s), d, ep);
    }
  }

  lemma {:induction false} TakenFields(s: Otg, ep: nat)
    requires Shape(s) && Forwards(s) && s.bulkOut == Some(ep)
    ensures var u := BeforeQueueing(s);
            && u.step == Configured && u.bulkOut == s.bulkOut && u.rxFifo == s.rxFifo && u.rxStatus == s.rxStatus
            && QueuedPackets(u.history) == QueuedPackets(s.history) && |u.epOut| == NUM_ENDPOINTS
            && Enabled(s.epOut[ep]) && !Enabled(u.epOut[ep]) && |ForwardedPacket(s)| <= BULK_PACKET
  {
    hide Bit;
  }

  lemma {:induction false} TracksKept(s: Otg, t: Otg, d: Driver)
    requires Tracks(s.history, s.rxStatus, s.rxFifo, d)
    requires QueuedPackets(t.history) == QueuedPackets(s.history) && t.rxFifo == s.rxFifo && t.rxStatus == s.rxStatus
    ensures Tracks(t.history, t.rxStatus, t.rxFifo, d) && Flight(t.history, d) == Flight(s.history, d)
  {
    hide InStep, QueuedPackets;
  }

  lemma {:induction false} OnlyOneBulk(flight: seq<Packet>, ep: nat)
    ensures flight != [] && IsBulk(flight[|flight| - 1], ep) ==> Bulks(flight, ep) >= 1
  {
  }

  lemma {:induction false} ResetTracks(s: Otg, ep: nat)
    requires Shape(s) && s.bulkOut == Some(ep)
    ensures Shape(BusReset(s)) && Delivering(BusReset(s), FRESH_DRIVER, ep)
  {
    NoBit(EPENA);
  }

  lemma {:induction false} NoBit(k: nat)
    ensures !Bit(0, k)
  {
  }

  lemma {:induction false} PollTracks(s: Otg, d: Driver, irqEnabled: bool, now: long, ep: nat)
    requires Shape(s) && Delivering(s, d, ep) && ep < NUM_ENDPOINTS
    ensures var e := if Attaching(s, irqEnabled) then FRESH_DRIVER else d;
            Shape(Poll(s, irqEnabled, now)) && Delivering(Poll(s, irqEnabled, now), e, ep)
  {
    hide Refresh, Delivering, ForwardBulkOut, SetFlag, Bit;
    RefreshTracks(s, d, irqEnabled, ep);
    var t, e := Refresh(s, irqEnabled), if Attaching(s, irqEnabled) then FRESH_DRIVER else d;
    SameKeepsDelivering(t, Sof(t, now), e, ep);
    ForwardTracks(Sof(t, now), e, ep);
  }

  lemma {:induction false} RefreshTracks(s: Otg, d: Driver, irqEnabled: bool, ep: nat)
    requires Shape(s) && Delivering(s, d, ep) && ep < NUM_ENDPOINTS
    ensures var e := if Attaching(s, irqEnabled) then FRESH_DRIVER else d;
            Shape(Refresh(s, irqEnabled)) && Delivering(Refresh(s, irqEnabled), e, ep)
  {
    hide Tracks, Orderly, BusReset, Bit;
    RefreshKeepsShape(s, irqEnabled);
    if Attaching(s, irqEnabled) {
      ResetTracks(s.(hostAttached := true), ep);
    } else {
      SameKeepsDelivering(s, Refresh(s, irqEnabled), d, ep);
    }
  }

  lemma {:induction false} NextKeepsDelivering(s: Otg, d: Driver, e: Event, ep: nat)
    requires Shape(s) && Delivering(s, d, ep) && ep < NUM_ENDPOINTS && Disciplined(s, d, e, ep)
    ensures Shape(Next(s, e)) && Delivering(Next(s, e), DriverNext(s, d, e), ep)
  {
    hide WriteState, PopStatus, Poll, Delivering, AfterStatus, FrontWord, PopRxWord, LeBytes, Shape;
    match e
    case FirmwareRead(offset) => ReadEventTracks(s, d, e, ep);
    case FirmwareWrite(offset, value) => WriteTracks(s, d, e, ep);
    case PollAt(irqEnabled, now) => PollTracks(s, d, irqEnabled, now, ep);
    case _ => HostEventTracks(s, d, e, ep);
  }

  lemma {:induction false} ReadEventTracks(s: Otg, d: Driver, e: Event, ep: nat)
    requires Shape(s) && Delivering(s, d, ep) && ep < NUM_ENDPOINTS && Disciplined(s, d, e, ep) && e.FirmwareRead?
    ensures Shape(Next(s, e)) && Delivering(Next(s, e), DriverNext(s, d, e), ep)
  {
    hide PopStatus, Delivering, AfterStatus, FrontWord, PopRxWord, LeBytes;
    NextKeepsShape(s, e);
    if PopsStatus(e) {
      PopTracks(s, d, ep);
    } else if ReadsFifo(e) {
      ReadTracks(s, d, ep);
    }
  }

  lemma {:induction false} HostEventTracks(s: Otg, d: Driver, e: Event, ep: nat)
    requires Shape(s) && Delivering(s, d, ep) && ep < NUM_ENDPOINTS && (e.HostSide? || e.NetworkSide?)
    ensures Shape(Next(s, e)) && Delivering(Next(s, e), d, ep)
  {
    hide Delivering;
    SameKeepsDelivering(s, Next(s, e), d, ep);
  }
}
