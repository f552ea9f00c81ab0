/** Delivery: a firmware driver that follows the hardware protocol extracts from
    the shared receive FIFO exactly the packets queued since the bus reset, and so
    exactly the bytes the controller took from the bridge. */
module OtgBulkOut {
  import opened Bits
  import opened ByteQueues
  import opened UsbCdcBridge
  import opened OtgModel
  import opened OtgRuns
  import opened OtgSession
  import opened OtgFlowControl
  import opened OtgDriver
  import CdcLink

  // ---- Whole runs ----

  function DriverRun(s: Otg, d: Driver, events: seq<Event>): Driver
    requires Shape(s)
    decreases |events|
  {
    if events == [] then d
    else
      var front, last := events[..|events| - 1], events[|events| - 1];
      DriverNext(Run(s, front), DriverRun(s, d, front), last)
  }

  ghost predicate DisciplinedRun(s: Otg, d: Driver, events: seq<Event>, ep: nat)
    requires Shape(s)
    decreases |events|
  {
    events != [] ==>
      var front, last := events[..|events| - 1], events[|events| - 1];
      DisciplinedRun(s, d, front, ep) && Disciplined(Run(s, front), DriverRun(s, d, front), last, ep)
  }

  /** From any point a driver may be at: armed or not, packets in flight or not. */
  lemma {:induction false} RunKeepsDelivering(s: Otg, d: Driver, events: seq<Event>, ep: nat)
    requires Shape(s) && ep < NUM_ENDPOINTS && Delivering(s, d, ep) && DisciplinedRun(s, d, events, ep)
    ensures Delivering(Run(s, events), DriverRun(s, d, events), ep)
    decreases |events|
  {
    hide Delivering, Next, DriverNext, Disciplined, Shape;
    if events != [] {
      var front, last := events[..|events| - 1], events[|events| - 1];
      RunKeepsDelivering(s, d, front, ep);
      NextKeepsDelivering(Run(s, front), DriverRun(s, d, front), last, ep);
    }
  }

  // ---- What the driver has extracted ----

  /** The payloads for an endpoint among received packets. */
  function PayloadsOf(packets: seq<Packet>, ep: nat): seq<byte> {
    if packets == [] then []
    else
      var (front, p) := (packets[..|packets| - 1], packets[|packets| - 1]);
      if IsBulk(p, ep) then PayloadsOf(front, ep) + p.bytes else PayloadsOf(front, ep)
  }

  /** The bulk bytes the driver has read, those of an unfinished packet included. */
  function Extracted(d: Driver, ep: nat): seq<byte> {
    PayloadsOf(d.packets, ep)
    + if d.phase.Reading? && !d.phase.setup && d.phase.ep == ep then d.phase.got else []
  }

  lemma {:induction false} PayloadsAppend(packets: seq<Packet>, p: Packet, ep: nat)
    ensures PayloadsOf(packets + [p], ep)
            == if IsBulk(p, ep) then PayloadsOf(packets, ep) + p.bytes else PayloadsOf(packets, ep)
  {
    assert (packets + [p])[..|packets|] == packets;
  }

  lemma {:induction false} PayloadsSplit(a: seq<Packet>, b: seq<Packet>, ep: nat)
    ensures PayloadsOf(a + b, ep) == PayloadsOf(a, ep) + PayloadsOf(b, ep)
    decreases |b|
  {
    if b == [] {
      assert a + b == a;
    } else {
      hide PayloadsOf, IsBulk;
      var (front, last) := (b[..|b| - 1], b[|b| - 1]);
      PayloadsSplit(a, front, ep);
      Regroup(a, front, last);
      assert b == front + [last];
      PayloadsAppend(a + front, last, ep);
      PayloadsAppend(front, last, ep);
      BytesRegroup(PayloadsOf(a, ep), PayloadsOf(front, ep), last.bytes);
    }
  }

  lemma {:induction false} Regroup(a: seq<Packet>, front: seq<Packet>, last: Packet)
    ensures (a + front) + [last] == a + (front + [last])
  {
  }

  lemma {:induction false} BytesRegroup(a: seq<byte>, b: seq<byte>, c: seq<byte>)
    ensures (a + b) + c == a + (b + c)
  {
  }

  lemma {:induction false} QueuedPayloads(h: History, ep: nat)
    ensures PayloadsOf(QueuedPackets(h), ep) == Payloads(h, ep)
  {
    match h
    case After(p, SetupQueued(e, packet)) =>
      QueuedPayloads(p, ep);
      PayloadsAppend(QueuedPackets(p), Packet(true, e, packet), ep);
    case After(p, OutQueued(e, data)) =>
      QueuedPayloads(p, ep);
      PayloadsAppend(QueuedPackets(p), Packet(false, e, data), ep);
    case After(p, _) => QueuedPayloads(p, ep);
    case Nothing =>
  }

  lemma {:induction false} NoBytes(flight: seq<Packet>, ep: nat)
    requires BytesOf(flight) == []
    ensures PayloadsOf(flight, ep) == []
  {
    if flight != [] {
      NoBytes(flight[1..], ep);
      assert flight == [flight[0]] + flight[1..];
      PayloadsSplit([flight[0]], flight[1..], ep);
      PayloadsAppend([], flight[0], ep);
      assert [] + [flight[0]] == [flight[0]];
    }
  }

  /** The flight begins with what is being read; with an empty FIFO it holds
      nothing more. */
  lemma {:induction false} FlightPayloads(status: seq<word>, fifo: seq<byte>, phase: Phase, flight: seq<Packet>,
                                          ep: nat)
    requires InStep(status, fifo, phase, flight)
    ensures var got := if phase.Reading? && !phase.setup && phase.ep == ep then phase.got else [];
            got <= PayloadsOf(flight, ep) && (fifo == [] ==> got == PayloadsOf(flight, ep))
  {
    hide StatusesOf, DataWord, CompWord, Aligned, Sane;
    if phase.Reading? {
      var (p, rest) := (flight[0], flight[1..]);
      assert flight == [p] + rest;
      PayloadsSplit([p], rest, ep);
      PayloadsAppend([], p, ep);
      assert [] + [p] == [p];
      if fifo == [] {
        NoBytes(rest, ep);
        assert |p.bytes[|phase.got|..]| == 0;
      }
    } else if fifo == [] {
      NoBytes(flight, ep);
    }
  }

  /** At any point of the delivery, what has been extracted is a prefix of the bytes
      taken from the bridge, and all of them once the FIFO is empty. */
  lemma {:induction false} ExtractedIsTaken(s: Otg, d: Driver, ep: nat)
    requires Shape(s) && ep < NUM_ENDPOINTS && Delivering(s, d, ep) && FlowInv(s, ep)
    ensures Extracted(d, ep) <= TakenBytes(s.history)
    ensures s.rxFifo == [] ==> Extracted(d, ep) == TakenBytes(s.history)
  {
    hide InStep, Orderly, PayloadsOf, QueuedPackets;
    var flight := Flight(s.history, d);
    QueuedPayloads(s.history, ep);
    assert QueuedPackets(s.history) == d.packets + flight;
    PayloadsSplit(d.packets, flight, ep);
    FlightPayloads(s.rxStatus, s.rxFifo, d.phase, flight, ep);
    var got := if d.phase.Reading? && !d.phase.setup && d.phase.ep == ep then d.phase.got else [];
    PrefixBehind(PayloadsOf(d.packets, ep), got, PayloadsOf(flight, ep));
  }

  lemma {:induction false} PrefixBehind(a: seq<byte>, b: seq<byte>, c: seq<byte>)
    requires b <= c
    ensures a + b <= a + c
  {
  }

  lemma {:induction false} RunKeepsFlow(s: Otg, events: seq<Event>, ep: nat)
    requires Shape(s) && s.bulkOut == Some(ep) && FlowInv(s, ep)
    ensures Run(s, events).bulkOut == Some(ep) && FlowInv(Run(s, events), ep)
    decreases |events|
  {
    hide FlowInv, Next, Shape;
    if events != [] {
      var front, last := events[..|events| - 1], events[|events| - 1];
      RunKeepsFlow(s, front, ep);
      NextKeepsFlow(Run(s, front), last, ep);
      BulkOutIsFixed(Run(s, front), last);
    }
  }

  /** A device on which nothing is in flight may be joined by a driver that has
      received everything queued so far, whether or not the endpoint is armed. */
  lemma {:induction false} IdleIsDelivering(s: Otg, ep: nat)
    requires Shape(s) && s.bulkOut == Some(ep) && s.rxStatus == [] && s.rxFifo == []
    ensures Delivering(s, Driver(Idle, QueuedPackets(s.history)), ep)
  {
    hide QueuedPackets;
    var all := QueuedPackets(s.history);
    assert all[|all|..] == [];
  }

  /** From any such point on, for any interleaving: the packets received are a prefix
      of those queued since the last bus reset, the bulk bytes extracted a prefix of
      the bytes taken from the bridge, and all of both once the path is drained. */
  lemma {:induction false} DeliveryContinues(s: Otg, d: Driver, events: seq<Event>, ep: nat)
    requires Shape(s) && ep < NUM_ENDPOINTS && Delivering(s, d, ep) && FlowInv(s, ep)
    requires DisciplinedRun(s, d, events, ep)
    ensures var (t, e) := (Run(s, events), DriverRun(s, d, events));
            && Delivering(t, e, ep) && FlowInv(t, ep)
            && e.packets <= QueuedPackets(t.history) && (t.rxStatus == [] ==> e.packets == QueuedPackets(t.history))
            && Extracted(e, ep) <= TakenBytes(t.history)
            && (t.rxFifo == [] ==> Extracted(e, ep) == TakenBytes(t.history))
  {
    BulkOutOf(s, d, ep);
    hide Run, DriverRun, DisciplinedRun, Shape, FlowInv, Extracted, Delivering, QueuedPackets;
    RunKeepsDelivering(s, d, events, ep);
    RunKeepsFlow(s, events, ep);
    ExtractedIsTaken(Run(s, events), DriverRun(s, d, events), ep);
    ReceivedIsQueued(Run(s, events), DriverRun(s, d, events), ep);
  }

  lemma {:induction false} BulkOutOf(s: Otg, d: Driver, ep: nat)
    requires Shape(s) && Delivering(s, d, ep)
    ensures s.bulkOut == Some(ep)
  {
  }

  lemma {:induction false} ReceivedIsQueued(s: Otg, d: Driver, ep: nat)
    requires Shape(s) && Delivering(s, d, ep)
    ensures d.packets <= QueuedPackets(s.history) && (s.rxStatus == [] ==> d.packets == QueuedPackets(s.history))
  {
    hide Orderly, QueuedPackets;
    if s.rxStatus == [] {
      NothingInFlight(s, d);
    }
  }

  /** Bulk OUT delivery, from power-on and through any number of bus resets: for any
      interleaving of firmware, polls and host, a disciplined driver has received
      exactly the packets queued since the last reset, in order, except for those
      still in flight; its bulk bytes are the bytes taken from the bridge, without
      loss, duplication or padding, except for those still in the FIFO. */
  lemma {:induction false} BulkOutDelivery(bridge: Bridge, bulkIn: Option<nat>, ep: nat, events: seq<Event>)
    requires Shape(Start(bridge, bulkIn, Some(ep)))
             && DisciplinedRun(Start(bridge, bulkIn, Some(ep)), FRESH_DRIVER, events, ep)
    ensures var s := Start(bridge, bulkIn, Some(ep));
            var (t, d) := (Run(s, events), DriverRun(s, FRESH_DRIVER, events));
            && d.packets <= QueuedPackets(t.history) && (t.rxStatus == [] ==> d.packets == QueuedPackets(t.history))
            && Extracted(d, ep) <= TakenBytes(t.history)
            && (t.rxFifo == [] ==> Extracted(d, ep) == TakenBytes(t.history))
  {
    var s := Start(bridge, bulkIn, Some(ep));
    StartIsDelivering(s, ep);
    hide Run, DriverRun, DisciplinedRun, Shape, FlowInv, Extracted, Delivering, QueuedPackets, Start;
    DeliveryContinues(s, FRESH_DRIVER, events, ep);
  }

  lemma {:induction false} StartIsDelivering(s: Otg, ep: nat)
    requires Shape(s) && s.bulkOut == Some(ep) && s.history == Nothing && s.rxStatus == [] && s.rxFifo == []
    requires s.epOut == IdleEndpoints()
    ensures ep < NUM_ENDPOINTS && Delivering(s, FRESH_DRIVER, ep) && FlowInv(s, ep)
  {
    NoBit(EPENA);
    IdleIsDelivering(s, ep);
  }

  // ---- One host session, end to end ----

  lemma {:induction false} RunKeepsTransfers(s: Otg, events: seq<Event>, taken: seq<byte>)
    requires Shape(s) && Undisturbed(s, events) && SessionTransfers(s, taken) && SessionInv(s)
    ensures SessionTransfers(Run(s, events), taken) && SessionInv(Run(s, events))
    decreases |events|
  {
    hide SessionTransfers, SessionInv, Next, Shape;
    if events != [] {
      var front, last := events[..|events| - 1], events[|events| - 1];
      RunKeepsTransfers(s, front, taken);
      NextKeepsTransfers(Run(s, front), last, taken);
      NextKeepsSession(Run(s, front), last);
    }
  }

  lemma {:induction false} ConnectStarts(s: Otg, d: Driver, ep: nat)
    requires Shape(s) && ep < NUM_ENDPOINTS && SessionInv(s) && Delivering(s, d, ep) && FlowInv(s, ep)
    requires s.bridge.Embedded? && s.bridge.link.stage == CdcLink.ProtocolReady
    ensures var t := Next(s, HostSide(CdcLink.DoConnect));
            && Shape(t) && Delivering(t, d, ep) && FlowInv(t, ep) && SessionInv(t)
            && SessionTransfers(t, TakenBytes(s.history))
  {
    hide Delivering, Bit, OutArms, Payloads;
    var t := Next(s, HostSide(CdcLink.DoConnect));
    NextKeepsSession(s, HostSide(CdcLink.DoConnect));
    SameKeepsDelivering(s, t, d, ep);
    assert TakenBytes(s.history) + [] == TakenBytes(s.history);
  }

  /** What a session delivers: `before` was taken when the host connected and `taken` by
      now, the host has written `written`, and `queued` still waits in the link. */
  ghost predicate Delivers(before: seq<byte>, extracted: seq<byte>, taken: seq<byte>, written: seq<byte>,
                           queued: seq<byte>,
                           drained: bool, open: bool, overflowed: bool) {
    && before <= taken
    && extracted <= taken && (drained ==> extracted == taken)
    && var session := taken[|before|..];
       && Subsequence(session, written)
       && (!overflowed ==> session <= written && (open ==> session + queued == written))
  }

  /** End to end, for a host that connects at any point a disciplined driver may be
      at: endpoint armed or not, packets in flight, earlier sessions over. What the
      driver has extracted is a prefix of the bytes taken before the session followed
      by bytes of the session, all of it once the FIFO is empty. The bytes of the
      session are an in-order subsequence of those the host's writes carried; as long as
      no write overflowed a prefix of them, and with what waits in the link all of them. */
  lemma {:induction false} HostBytesReachFirmware(s: Otg, d: Driver, events: seq<Event>, ep: nat)
    requires Shape(s) && ep < NUM_ENDPOINTS && SessionInv(s) && Delivering(s, d, ep) && FlowInv(s, ep)
    requires s.bridge.Embedded? && s.bridge.link.stage == CdcLink.ProtocolReady
    requires var t := Next(s, HostSide(CdcLink.DoConnect));
             Shape(t) && DisciplinedRun(t, d, events, ep) && Undisturbed(t, events)
    ensures var t := Next(s, HostSide(CdcLink.DoConnect));
            var (u, e) := (Run(t, events), DriverRun(t, d, events));
            && u.bridge.Embedded?
            && Delivers(TakenBytes(s.history), Extracted(e, ep), TakenBytes(u.history), HostWrote(t, events),
                        u.bridge.link.hostToDevice, u.rxFifo == [], u.bridge.link.connected, HostOverflowed(t, events))
  {
    ConnectStarts(s, d, ep);
    var t := Next(s, HostSide(CdcLink.DoConnect));
    assert t.bridge.Embedded? && t.bridge.link.down == CdcLink.Flow([], [], false);
    hide Next, Run, DriverRun, DisciplinedRun, Undisturbed, Shape, FlowInv, Extracted, Delivering, QueuedPackets,
         Subsequence, HostWrote, HostOverflowed, HostRead;
    RunKeepsTransfers(t, events, TakenBytes(s.history));
    DeliveryContinues(t, d, events, ep);
    HostRecordIsExact(t, events);
    SessionBytes(Run(t, events), TakenBytes(s.history), HostWrote(t, events));
  }

  lemma {:induction false} SessionBytes(u: Otg, before: seq<byte>, written: seq<byte>)
    requires SessionTransfers(u, before) && SessionInv(u) && u.bridge.link.down.written == [] + written
    ensures var (taken, link) := (TakenBytes(u.history), u.bridge.link);
            && before <= taken && taken[|before|..] == link.down.read && link.down.written == written
            && Subsequence(link.down.read, written)
            && (!link.down.lost ==> link.down.read <= written)
            && (link.connected && !link.down.lost ==> link.down.read + link.hostToDevice == written)
  {
    hide Subsequence, TakenBytes;
    assert [] + written == written;
  }

  /** In particular for any session of a life that began at power-on, however many
      resets and sessions came before it. */
  lemma {:induction false} EverySessionIsDelivered(bridge: Bridge, bulkIn: Option<nat>, ep: nat, before: seq<Event>,
                                                   events: seq<Event>)
    requires Shape(Start(bridge, bulkIn, Some(ep))) && Driven(bridge, AwaitingDeviceDescriptor)
    requires DisciplinedRun(Start(bridge, bulkIn, Some(ep)), FRESH_DRIVER, before, ep)
    requires var s := Run(Start(bridge, bulkIn, Some(ep)), before);
             var (t, d) := (Next(s, HostSide(CdcLink.DoConnect)),
                            DriverRun(Start(bridge, bulkIn, Some(ep)), FRESH_DRIVER, before));
             && s.bridge.Embedded? && s.bridge.link.stage == CdcLink.ProtocolReady
             && Shape(t) && DisciplinedRun(t, d, events, ep) && Undisturbed(t, events)
    ensures var s := Run(Start(bridge, bulkIn, Some(ep)), before);
            var d := DriverRun(Start(bridge, bulkIn, Some(ep)), FRESH_DRIVER, before);
            var t := Next(s, HostSide(CdcLink.DoConnect));
            var (u, e) := (Run(t, events), DriverRun(t, d, events));
            && u.bridge.Embedded?
            && Delivers(TakenBytes(s.history), Extracted(e, ep), TakenBytes(u.history), HostWrote(t, events),
                        u.bridge.link.hostToDevice, u.rxFifo == [], u.bridge.link.connected, HostOverflowed(t, events))
  {
    var start := Start(bridge, bulkIn, Some(ep));
    StartIsDelivering(start, ep);
    hide Next, Run, DriverRun, DisciplinedRun, Undisturbed, Shape, FlowInv, Extracted, Delivering, QueuedPackets,
         Subsequence, Start, Delivers, HostWrote, HostOverflowed;
    DeliveryContinues(start, FRESH_DRIVER, before, ep);
    SessionsAreIsolated(bridge, bulkIn, Some(ep), before);
    HostBytesReachFirmware(Run(start, before), DriverRun(start, FRESH_DRIVER, before), events, ep);
  }

  // ---- Why the discipline is needed ----

  /** `k` FIFO words read from the front. */
  function AfterWords(fifo: seq<byte>, k: nat): seq<byte>
    decreases k
  {
    if k == 0 then fifo else AfterWords(fifo[Min(4, |fifo|)..], k - 1)
  }

  lemma {:induction false} WordsDrop(fifo: seq<byte>, k: nat)
    ensures AfterWords(fifo, k) == fifo[Min(4 * k, |fifo|)..]
    decreases k
  {
    if k != 0 {
      WordsDrop(fifo[Min(4, |fifo|)..], k - 1);
    }
  }

  /** Reading a payload by whole words leaves the bytes queued behind it intact
      exactly when the payload is a multiple of four bytes or nothing follows:
      a second packet queued early loses its first bytes to the padding. */
  lemma {:induction false} WholeWordsIff(payload: seq<byte>, behind: seq<byte>)
    ensures AfterWords(payload + behind, (|payload| + 3) / 4) == behind <==> |payload| % 4 == 0 || behind == []
  {
    var k := (|payload| + 3) / 4;
    var fifo := payload + behind;
    WordsDrop(fifo, k);
    if |payload| % 4 == 0 {
      assert 4 * k == |payload|;
      assert fifo[|payload|..] == behind;
    } else {
      assert 4 * k > |payload|;
      if behind != [] {
        assert |AfterWords(fifo, k)| < |behind|;
      }
    }
  }

  /** So SET_LINE_CODING may not be completed with its data unread: the next request
      would join the FIFO behind 7 bytes and lose its first byte to them. */
  lemma {:induction false} LineCodingMustBeDrained(s: Otg)
    requires Shape(s) && s.step == AwaitingSetLineCodingStatus && s.rxFifo == LINE_CODING
    ensures Advance(s).rxFifo == LINE_CODING + SET_CONTROL_LINE_STATE
    ensures AfterWords(Advance(s).rxFifo, 2) != SET_CONTROL_LINE_STATE
  {
    WholeWordsIff(LINE_CODING, SET_CONTROL_LINE_STATE);
  }
}
