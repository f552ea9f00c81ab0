/** The device-to-host direction over whole lives: a firmware sender that fills what it
    has armed gets exactly its payloads to the bridge, and through it to the host. */
module OtgSender {
  import opened Bits
  import opened ByteQueues
  import opened UsbCdcBridge
  import opened OtgModel
  import opened OtgRuns
  import opened OtgSession
  import opened OtgBulkIn
  import OtgDeviceToHost
  import CdcLink

  // ---- The sender ----

  /** `Filling`: a transfer of `size` bytes is armed and the words in `got` pushed. */
  datatype Phase = Waiting | Filling(size: nat, got: seq<byte>)

  /** `sent`: the payloads completed since the bus reset. */
  datatype Sender = Sender(phase: Phase, sent: seq<seq<byte>>)

  const FRESH_SENDER := Sender(Waiting, [])

  predicate WritesIn(e: Event, ep: nat, reg: nat) {
    e.FirmwareWrite? && Decode(e.offset) == InReg(ep, reg)
  }

  predicate Arms(e: Event, ep: nat) {
    WritesIn(e, ep, EP_CTL) && Bit(e.value, EPENA)
  }

  /** Words are pushed only for an armed transfer, transfers are armed only on a
      configured device, and neither disarmed nor resized before they are complete.
      Every other access, every poll and every host action is unrestricted. */
  predicate Disciplined(s: Otg, d: Sender, e: Event, ep: nat)
    requires ep < |s.epIn|
  {
    && (Pushes(e, ep) ==> d.phase.Filling?)
    && (Arms(e, ep) ==> d.phase.Filling? || s.step == Configured)
    && (WritesIn(e, ep, EP_CTL) && d.phase.Filling? ==> Bit(e.value, EPENA))
    && (WritesIn(e, ep, EP_TSIZ) && d.phase.Filling? ==>
          XferSize(s.epIn[ep].(tsiz := e.value)) == XferSize(s.epIn[ep]))
  }

  /** A transfer of no bytes is complete when armed; any other once its words hold
      enough. The padding of the last word is not part of the payload. */
  function SenderNext(s: Otg, d: Sender, e: Event, ep: nat): Sender
    requires ep < |s.epIn|
  {
    if Resets(s, e) then FRESH_SENDER
    else if Arms(e, ep) && d.phase.Waiting? then
      var size := XferSize(s.epIn[ep]);
      if size == 0 then d.(sent := d.sent + [[]]) else d.(phase := Filling(size, []))
    else if Pushes(e, ep) && d.phase.Filling? then
      var got := d.phase.got + LeBytes(e.value);
      if |got| >= d.phase.size then Sender(Waiting, d.sent + [got[..d.phase.size]])
      else d.(phase := Filling(d.phase.size, got))
    else d
  }

  function SenderRun(s: Otg, d: Sender, events: seq<Event>, ep: nat): Sender
    requires Shape(s) && ep < NUM_ENDPOINTS
    decreases |events|
  {
    if events == [] then d
    else
      var front, last := events[..|events| - 1], events[|events| - 1];
      SenderNext(Run(s, front), SenderRun(s, d, front, ep), last, ep)
  }

  ghost predicate DisciplinedRun(s: Otg, d: Sender, events: seq<Event>, ep: nat)
    requires Shape(s) && ep < NUM_ENDPOINTS
    decreases |events|
  {
    events != [] ==>
      var front, last := events[..|events| - 1], events[|events| - 1];
      DisciplinedRun(s, d, front, ep) && Disciplined(Run(s, front), SenderRun(s, d, front, ep), last, ep)
  }

  /** The bytes of payloads, one after the other. */
  function Flat(payloads: seq<seq<byte>>): seq<byte> {
    if payloads == [] then [] else Flat(payloads[..|payloads| - 1]) + payloads[|payloads| - 1]
  }

  // ---- The joint invariant ----

  ghost predicate Sends(s: Otg, d: Sender, ep: nat)
    requires Shape(s)
  {
    && 1 <= ep < NUM_ENDPOINTS && s.bulkIn == Some(ep)
    && GivenBytes(s.history) == Flat(d.sent)
    && InCompletions(s.history, ep) == |d.sent|
    && InPhase(s, d.phase, ep)
  }

  ghost predicate InPhase(s: Otg, phase: Phase, ep: nat)
    requires Shape(s) && ep < NUM_ENDPOINTS
  {
    match phase
    case Waiting => !Enabled(s.epIn[ep]) && s.txFifo[ep] == []
    case Filling(size, got) =>
      && s.step == Configured && Enabled(s.epIn[ep]) && XferSize(s.epIn[ep]) == size
      && |got| < size && s.epIn[ep].sent == |got| && s.txFifo[ep] == got
  }

  lemma {:induction false} FlatAppend(payloads: seq<seq<byte>>, p: seq<byte>)
    ensures Flat(payloads + [p]) == Flat(payloads) + p
  {
    assert (payloads + [p])[..|payloads|] == payloads;
  }

  lemma {:induction false} FlatSplit(a: seq<seq<byte>>, b: seq<seq<byte>>)
    ensures Flat(a + b) == Flat(a) + Flat(b)
    decreases |b|
  {
    if b == [] {
      assert a + b == a;
    } else {
      var (front, last) := (b[..|b| - 1], b[|b| - 1]);
      FlatSplit(a, front);
      assert a + b == (a + front) + [last];
      FlatAppend(a + front, last);
      assert Flat(a) + (Flat(front) + last) == (Flat(a) + Flat(front)) + last;
    }
  }

  lemma {:induction false} FlatDrop(a: seq<seq<byte>>, all: seq<seq<byte>>)
    requires a <= all
    ensures |Flat(a)| <= |Flat(all)| && Flat(all)[|Flat(a)|..] == Flat(all[|a|..])
  {
    hide Flat;
    assert all == a + all[|a|..];
    FlatSplit(a, all[|a|..]);
  }

  lemma {:induction false} SameKeepsSends(s: Otg, t: Otg, d: Sender, ep: nat)
    requires Shape(s) && Shape(t) && Sends(s, d, ep) && SameTransfer(s, t, ep)
    ensures Sends(t, d, ep)
  {
    hide Bit, XferSize;
  }

  /** Arming a waiting endpoint begins a transfer, or sends an empty one. */
  lemma {:induction false} ArmKeepsSends(s: Otg, d: Sender, ep: nat, value: word)
    requires Shape(s) && Sends(s, d, ep) && d.phase.Waiting? && s.step == Configured && Bit(value, EPENA)
    ensures var size := XferSize(s.epIn[ep]);
            var e := if size == 0 then d.(sent := d.sent + [[]]) else d.(phase := Filling(size, []));
            Shape(WriteInCtl(s, ep, value)) && Sends(WriteInCtl(s, ep, value), e, ep)
  {
    hide CompleteIn, Bit, SetFlag, Flat;
    WriteInCtlKeepsShape(s, ep, value);
    var t := ArmIn(s, ep, value);
    assert GivenBytes(t.history) == GivenBytes(s.history)
           && InCompletions(t.history, ep) == InCompletions(s.history, ep);
    if XferSize(s.epIn[ep]) == 0 {
      EmptyTransfer(s, d, ep, value);
    }
  }

  lemma {:induction false} EmptyTransfer(s: Otg, d: Sender, ep: nat, value: word)
    requires Shape(s) && Sends(s, d, ep) && d.phase.Waiting? && s.step == Configured
    requires XferSize(s.epIn[ep]) == 0
    ensures var t := CompleteIn(DisarmIn(ArmIn(s, ep, value), ep), ep);
            Shape(t) && Sends(t, d.(sent := d.sent + [[]]), ep)
  {
    hide CompleteIn, Bit, ClearBit, Flat;
    var t := ArmIn(s, ep, value);
    assert GivenBytes(t.history) == GivenBytes(s.history)
           && InCompletions(t.history, ep) == InCompletions(s.history, ep);
    CompletionForwards(DisarmIn(t, ep), ep, 0);
    FlatAppend(d.sent, []);
  }

  /** A push fills the transfer further or completes it. */
  lemma {:induction false} PushKeepsSends(s: Otg, d: Sender, ep: nat, value: word)
    requires Shape(s) && Sends(s, d, ep) && d.phase.Filling?
    ensures var got := d.phase.got + LeBytes(value);
            var e := if |got| >= d.phase.size then Sender(Waiting, d.sent + [got[..d.phase.size]])
                 else d.(phase := Filling(d.phase.size, got));
            Shape(PushTxWord(s, ep, value)) && Sends(PushTxWord(s, ep, value), e, ep)
  {
    hide CompleteIn, Bit, ClearBit, LeBytes, Flat;
    PushTxWordKeepsShape(s, ep, value);
    var got := d.phase.got + LeBytes(value);
    if |got| >= d.phase.size {
      var t := DisarmIn(AppendTxWord(s, ep, value), ep);
      CompletionForwards(t, ep, d.phase.size);
      FlatAppend(d.sent, got[..d.phase.size]);
    }
  }

  lemma {:induction false} ResetSends(s: Otg, ep: nat)
    requires Shape(s) && 1 <= ep < NUM_ENDPOINTS && s.bulkIn == Some(ep)
    ensures Shape(BusReset(s)) && Sends(BusReset(s), FRESH_SENDER, ep)
  {
    NothingEnabled();
  }

  lemma {:induction false} NothingEnabled()
    ensures !Bit(0, EPENA)
  {
  }

  lemma {:induction false} ResettingPollSends(s: Otg, irqEnabled: bool, now: long, ep: nat)
    requires Shape(s) && 1 <= ep < NUM_ENDPOINTS && s.bulkIn == Some(ep) && Attaching(s, irqEnabled)
    ensures Shape(Poll(s, irqEnabled, now)) && Sends(Poll(s, irqEnabled, now), FRESH_SENDER, ep)
  {
    hide BusReset, Sends, ForwardBulkOut, Bit, SetFlag, XferSize;
    var t := BusReset(s.(hostAttached := true));
    ResetSends(s.(hostAttached := true), ep);
    var u := Sof(t, now);
    assert SameTransfer(t, u, ep);
    SameKeepsSends(t, u, FRESH_SENDER, ep);
    ForwardSameTransfer(u, ep);
    SameKeepsSends(u, ForwardBulkOut(u), FRESH_SENDER, ep);
  }

  lemma {:induction false} NextKeepsSends(s: Otg, d: Sender, e: Event, ep: nat)
    requires Shape(s) && ep < NUM_ENDPOINTS && Sends(s, d, ep) && Disciplined(s, d, e, ep)
    ensures Shape(Next(s, e)) && Sends(Next(s, e), SenderNext(s, d, e, ep), ep)
  {
    hide PushTxWord, WriteInCtl, WriteOut, WriteGlobal, Poll, ReadState, Decode, Bit, XferSize, LeBytes;
    if Resets(s, e) {
      ResettingPollSends(s, e.irqEnabled, e.now, ep);
    } else if Arms(e, ep) && d.phase.Waiting? {
      ArmKeepsSends(s, d, ep, e.value);
    } else if Pushes(e, ep) {
      PushKeepsSends(s, d, ep, e.value);
    } else {
      QuietKeepsTransfer(s, e, ep);
      SameKeepsSends(s, Next(s, e), d, ep);
    }
  }

  // ---- Whole runs ----

  lemma {:induction false} RunKeepsSends(s: Otg, d: Sender, events: seq<Event>, ep: nat)
    requires Shape(s) && ep < NUM_ENDPOINTS && Sends(s, d, ep) && DisciplinedRun(s, d, events, ep)
    ensures Sends(Run(s, events), SenderRun(s, d, events, ep), ep)
    decreases |events|
  {
    hide Sends, Next, SenderNext, Disciplined, Shape;
    if events != [] {
      var front, last := events[..|events| - 1], events[|events| - 1];
      RunKeepsSends(s, d, front, ep);
      NextKeepsSends(Run(s, front), SenderRun(s, d, front, ep), last, ep);
    }
  }

  lemma {:induction false} StartSends(s: Otg, ep: nat)
    requires Shape(s) && 1 <= ep < NUM_ENDPOINTS && s.bulkIn == Some(ep) && s.history == Nothing
    requires s.epIn == IdleEndpoints() && s.txFifo == EmptyFifos()
    ensures Sends(s, FRESH_SENDER, ep)
  {
    NothingEnabled();
  }

  /** Bulk IN delivery, from power-on and through any number of bus resets: for any
      interleaving of firmware, polls and host, a disciplined sender's payloads since
      the last reset are exactly what was given to the bridge, each with one XFRC. */
  lemma {:induction false} BulkInDelivery(bridge: Bridge, ep: nat, bulkOut: Option<nat>, events: seq<Event>)
    requires 1 <= ep < NUM_ENDPOINTS && Shape(Start(bridge, Some(ep), bulkOut))
    requires DisciplinedRun(Start(bridge, Some(ep), bulkOut), FRESH_SENDER, events, ep)
    ensures var s := Start(bridge, Some(ep), bulkOut);
            var (t, d) := (Run(s, events), SenderRun(s, FRESH_SENDER, events, ep));
            && GivenBytes(t.history) == Flat(d.sent)
            && InCompletions(t.history, ep) == |d.sent|
  {
    var s := Start(bridge, Some(ep), bulkOut);
    StartSends(s, ep);
    hide Start, Run, SenderRun, DisciplinedRun, Shape, Flat, GivenBytes, InCompletions, InPhase;
    RunKeepsSends(s, FRESH_SENDER, events, ep);
  }

  // ---- One host session, end to end ----

  /** Without a bus reset payloads are only added. */
  lemma {:induction false} SentGrows(s: Otg, d: Sender, events: seq<Event>, ep: nat)
    requires Shape(s) && ep < NUM_ENDPOINTS && Undisturbed(s, events)
    ensures d.sent <= SenderRun(s, d, events, ep).sent
    decreases |events|
  {
    hide Next, Shape, Bit, Decode, XferSize, LeBytes;
    if events != [] {
      SentGrows(s, d, events[..|events| - 1], ep);
    }
  }

  lemma {:induction false} ConnectKeepsSends(s: Otg, d: Sender, ep: nat)
    requires Shape(s) && Sends(s, d, ep)
    ensures var t := Next(s, HostSide(CdcLink.DoConnect)); Shape(t) && Sends(t, d, ep)
  {
    hide Bit, XferSize;
  }

  /** End to end, for a host that connects at any point such a sender may be at: what the
      host reads in the session is an in-order subsequence of the payloads completed in
      it, a prefix of them if the link never overflowed; and while it stays connected,
      with what waits in the link, all of them. */
  lemma {:induction false} PayloadsReachHost(s: Otg, d: Sender, events: seq<Event>, ep: nat)
    requires Shape(s) && ep < NUM_ENDPOINTS && SessionInv(s) && Sends(s, d, ep)
    requires s.bridge.Embedded? && s.bridge.link.stage == CdcLink.ProtocolReady
    requires var t := Next(s, HostSide(CdcLink.DoConnect));
             Shape(t) && DisciplinedRun(t, d, events, ep) && Undisturbed(t, events)
    ensures var t := Next(s, HostSide(CdcLink.DoConnect));
            var (u, e) := (Run(t, events), SenderRun(t, d, events, ep));
            && u.bridge.Embedded? && d.sent <= e.sent
            && OtgDeviceToHost.Serves(Flat(e.sent[|d.sent|..]), HostRead(t, events), u.bridge.link.deviceToHost,
                                      u.bridge.link.connected, OtgDeviceToHost.DeviceOverflowed(t, events))
  {
    var t := Next(s, HostSide(CdcLink.DoConnect));
    hide Next, Run, SenderRun, DisciplinedRun, Undisturbed, Shape, Flat, GivenBytes, InCompletions, InPhase,
         SessionInv, OtgDeviceToHost.Serves, HostRead, OtgDeviceToHost.DeviceOverflowed;
    ConnectKeepsSends(s, d, ep);
    RunKeepsSends(t, d, events, ep);
    SentGrows(t, d, events, ep);
    FlatDrop(d.sent, SenderRun(t, d, events, ep).sent);
    OtgDeviceToHost.FirmwareBytesReachHost(s, events);
  }

  /** So for every session of a life that began at power-on, whatever resets and
      sessions came before. */
  lemma {:induction false} EverySessionIsServed(bridge: Bridge, ep: nat, bulkOut: Option<nat>, before: seq<Event>,
                                                events: seq<Event>)
    requires 1 <= ep < NUM_ENDPOINTS && Shape(Start(bridge, Some(ep), bulkOut))
    requires Driven(bridge, AwaitingDeviceDescriptor)
    requires DisciplinedRun(Start(bridge, Some(ep), bulkOut), FRESH_SENDER, before, ep)
    requires var start := Start(bridge, Some(ep), bulkOut);
             var (s, d) := (Run(start, before), SenderRun(start, FRESH_SENDER, before, ep));
             var t := Next(s, HostSide(CdcLink.DoConnect));
             && s.bridge.Embedded? && s.bridge.link.stage == CdcLink.ProtocolReady
             && Shape(t) && DisciplinedRun(t, d, events, ep) && Undisturbed(t, events)
    ensures var start := Start(bridge, Some(ep), bulkOut);
            var (s, d) := (Run(start, before), SenderRun(start, FRESH_SENDER, before, ep));
            var t := Next(s, HostSide(CdcLink.DoConnect));
            var (u, e) := (Run(t, events), SenderRun(t, d, events, ep));
            && u.bridge.Embedded? && d.sent <= e.sent
            && OtgDeviceToHost.Serves(Flat(e.sent[|d.sent|..]), HostRead(t, events), u.bridge.link.deviceToHost,
                                      u.bridge.link.connected, OtgDeviceToHost.DeviceOverflowed(t, events))
  {
    var start := Start(bridge, Some(ep), bulkOut);
    StartSends(start, ep);
    hide Next, Run, SenderRun, DisciplinedRun, Undisturbed, Shape, Flat, Sends, Subsequence, Start;
    RunKeepsSends(start, FRESH_SENDER, before, ep);
    SessionsAreIsolated(bridge, Some(ep), bulkOut, before);
    PayloadsReachHost(Run(start, before), SenderRun(start, FRESH_SENDER, before, ep), events, ep);
  }
}
