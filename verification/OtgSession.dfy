/** Sessions of the CDC link while the OTG controller drives it: a host can only
    be connected to a configured device, and what crosses the bridge is what
    the controller took from it and gave to it. */
module OtgSession {
  import opened Bits
  import opened ByteQueues
  import opened UsbCdcBridge
  import opened OtgModel
  import opened OtgRuns
  import CdcLink

  ghost predicate Driven(bridge: Bridge, step: HostStep) {
    bridge.Embedded? ==>
      && CdcLink.LinkInv(bridge.link)
      && (bridge.link.stage == CdcLink.ProtocolReady ==> step == Configured)
  }

  ghost predicate SessionInv(s: Otg) {
    Driven(s.bridge, s.step)
  }

  lemma {:induction false} LinkStepKeepsDriven(bridge: Bridge, step: HostStep, a: CdcLink.Step)
    requires bridge.Embedded? && Driven(bridge, step)
    requires !a.DoSetStage?
    ensures Driven(Embedded(CdcLink.Apply(bridge.link, a)), step)
  {
    CdcLink.StepKeepsLink(bridge.link, a);
  }

  lemma {:induction false} StageKeepsDriven(bridge: Bridge, step: HostStep, next: HostStep, stage: CdcLink.Stage)
    requires Driven(bridge, step)
    requires stage == CdcLink.ProtocolReady ==> next == Configured
    ensures Driven(Staged(bridge, stage), next)
  {
    if bridge.Embedded? {
      CdcLink.StepKeepsLink(bridge.link, CdcLink.DoSetStage(stage));
    }
  }

  lemma {:induction false} ScriptKeepsBridge(s: Otg)
    ensures Script(s).bridge == s.bridge && Script(s).pendingBridgeWrites == s.pendingBridgeWrites
  {
  }

  lemma {:induction false} CompleteInKeepsSession(s: Otg, ep: nat)
    requires Shape(s) && SessionInv(s) && ep < NUM_ENDPOINTS
    ensures SessionInv(CompleteIn(s, ep))
  {
    hide Script;
    var t := RaiseIn(s, ep, XFRC);
    if ep == 0 {
      ScriptKeepsBridge(t.(txFifo := t.txFifo[0 := []]));
      StageKeepsDriven(s.bridge, s.step, NextStep(s.step), StageOf(NextStep(s.step)));
    } else if t.step == Configured && t.bulkIn == Some(ep) && s.bridge.Embedded? {
      var bytes := t.txFifo[ep][..Min(XferSize(t.epIn[ep]), |t.txFifo[ep]|)];
      LinkStepKeepsDriven(s.bridge, s.step, CdcLink.DoWriteFromDevice(bytes));
    }
  }

  lemma {:induction false} WriteGlobalKeepsSession(s: Otg, o: word, value: word)
    requires Shape(s) && SessionInv(s)
    ensures SessionInv(WriteGlobal(s, o, value))
  {
    hide Unmask, Staged;
    StageKeepsDriven(s.bridge, s.step, s.step, CdcLink.UsbStarted);
    UnmaskChangesOnlyInterrupts(s.(emptyMask := value), AndNot(value, s.emptyMask), NUM_ENDPOINTS);
  }

  lemma {:induction false} WriteKeepsSession(s: Otg, offset: word, value: word)
    requires Shape(s) && SessionInv(s)
    ensures SessionInv(WriteState(s, offset, value))
  {
    hide CompleteIn, WriteGlobal, Decode, Driven, Bit, AndNot, LeBytes, XferSize;
    match Decode(offset)
    case Fifo(ep) => CompleteInKeepsSession(DisarmIn(AppendTxWord(s, ep, value), ep), ep);
    case InReg(ep, reg) => CompleteInKeepsSession(DisarmIn(ArmIn(s, ep, value), ep), ep);
    case OutReg(ep, reg) =>
    case Global(o) => WriteGlobalKeepsSession(s, o, value);
  }

  lemma {:induction false} ForwardKeepsSession(s: Otg)
    requires Shape(s) && SessionInv(s)
    ensures SessionInv(ForwardBulkOut(s))
  {
    if OutReady(s) && s.bridge.Embedded? {
      LinkStepKeepsDriven(s.bridge, s.step, CdcLink.DoReadForDevice(PacketLimit(s)));
    }
  }

  lemma {:induction false} RefreshKeepsSession(s: Otg, irqEnabled: bool)
    requires SessionInv(s)
    ensures SessionInv(Refresh(s, irqEnabled))
  {
    hide Staged;
    StageKeepsDriven(s.bridge, s.step, AwaitingDeviceDescriptor, CdcLink.AwaitingDeviceDescriptor);
  }

  lemma {:induction false} NextKeepsSession(s: Otg, e: Event)
    requires Shape(s) && SessionInv(s)
    ensures SessionInv(Next(s, e))
  {
    hide WriteState, ForwardBulkOut, Driven, Bit, SetFlag;
    match e
    case FirmwareWrite(offset, value) => WriteKeepsSession(s, offset, value);
    case PollAt(irqEnabled, now) =>
      RefreshKeepsShape(s, irqEnabled);
      RefreshKeepsSession(s, irqEnabled);
      ForwardKeepsSession(Sof(Refresh(s, irqEnabled), now));
    case HostSide(a) =>
      if s.bridge.Embedded? && HostAction(a) {
        LinkStepKeepsDriven(s.bridge, s.step, a);
      }
    case NetworkSide(a) => NetworkKeepsDriven(s.bridge, s.step, a);
    case _ =>
  }

  lemma {:induction false} NetworkKeepsDriven(bridge: Bridge, step: HostStep, a: TcpStep)
    requires Driven(bridge, step)
    ensures bridge.Tcp? ==> Driven(TcpApply(bridge, a), step)
  {
  }

  /** Over any run of any firmware and any host: a ready link means a configured
      device, and each session of the link is isolated. */
  lemma {:induction false} SessionsAreIsolated(bridge: Bridge, bulkIn: Option<nat>, bulkOut: Option<nat>,
                                               events: seq<Event>)
    requires Shape(Start(bridge, bulkIn, bulkOut))
    requires Driven(bridge, AwaitingDeviceDescriptor)
    ensures var s := Run(Start(bridge, bulkIn, bulkOut), events);
            && SessionInv(s)
            && (s.bridge.Embedded? && s.bridge.link.stage == CdcLink.ProtocolReady ==> s.step == Configured)
            && (s.bridge.Embedded? ==> CdcLink.LinkInv(s.bridge.link))
    decreases |events|
  {
    if events != [] {
      SessionsAreIsolated(bridge, bulkIn, bulkOut, events[..|events| - 1]);
      NextKeepsSession(Run(Start(bridge, bulkIn, bulkOut), events[..|events| - 1]), events[|events| - 1]);
    }
  }

  /** A new run attaches to a link left in any reachable condition, by an earlier run
      or never used: it then starts as `SessionsAreIsolated` asks. */
  lemma {:induction false} AttachedLinkIsDriven(link: CdcLink.Link)
    requires CdcLink.LinkInv(link)
    ensures Driven(Embedded(CdcLink.AttachDevice(link)), AwaitingDeviceDescriptor)
  {
    hide CdcLink.FlowInv;
  }

  // ---- The converse fails: a configured device may have no ready link ----

  /** Enabling interrupts again on a configured device takes the link out of the
      ready stage and ends the session. */
  lemma {:induction false} ReenablingInterruptsEndsSession(s: Otg, value: word)
    requires Shape(s) && s.step == Configured && s.bridge.Embedded? && s.bridge.link.stage == CdcLink.ProtocolReady
    ensures var t := WriteState(s, GINTMSK, value);
            && t.step == Configured && t.bridge.Embedded?
            && (t.bridge.link.stage == CdcLink.ProtocolReady <==> s.intMask != 0 || value == 0)
            && (s.intMask == 0 && value != 0 ==> !t.bridge.link.connected)
  {
    hide PushTxWord, WriteIn, WriteOut, WriteEmptyMask;
    assert Decode(GINTMSK) == Global(GINTMSK);
  }

  predicate Resets(s: Otg, e: Event) {
    e.PollAt? && Attaching(s, e.irqEnabled)
  }

  /** A configured device whose link is not ready. */
  ghost predicate Stuck(s: Otg) {
    s.step == Configured && s.bridge.Embedded? && s.bridge.link.stage != CdcLink.ProtocolReady
  }

  lemma {:induction false} CompleteInKeepsStuck(s: Otg, ep: nat)
    requires Shape(s) && Stuck(s) && ep < NUM_ENDPOINTS
    ensures Stuck(CompleteIn(s, ep))
  {
  }

  lemma {:induction false} ReadKeepsStuck(s: Otg, offset: word)
    requires Shape(s) && Stuck(s)
    ensures Stuck(ReadState(s, offset))
  {
  }

  lemma {:induction false} ForwardKeepsStuck(s: Otg)
    requires Shape(s) && Stuck(s)
    ensures Stuck(ForwardBulkOut(s))
  {
  }

  lemma {:induction false} WriteKeepsStuck(s: Otg, offset: word, value: word)
    requires Shape(s) && Stuck(s)
    ensures Stuck(WriteState(s, offset, value))
  {
    hide CompleteIn, Unmask, Decode, Bit, AndNot, LeBytes, WritePlain, XferSize;
    match Decode(offset)
    case Fifo(ep) => CompleteInKeepsStuck(DisarmIn(AppendTxWord(s, ep, value), ep), ep);
    case InReg(ep, reg) => CompleteInKeepsStuck(DisarmIn(ArmIn(s, ep, value), ep), ep);
    case OutReg(ep, reg) =>
    case Global(o) =>
      UnmaskChangesOnlyInterrupts(s.(emptyMask := value), AndNot(value, s.emptyMask), NUM_ENDPOINTS);
  }

  /** Only a bus reset gets such a device out of it, whatever firmware does. */
  lemma {:induction false} StuckUntilReset(s: Otg, e: Event)
    requires Shape(s) && Stuck(s)
    requires !Resets(s, e)
    ensures Stuck(Next(s, e))
  {
    hide ReadState, WriteState, ForwardBulkOut;
    match e
    case FirmwareRead(offset) => ReadKeepsStuck(s, offset);
    case FirmwareWrite(offset, value) => WriteKeepsStuck(s, offset, value);
    case PollAt(irqEnabled, now) =>
      RefreshKeepsShape(s, irqEnabled);
      ForwardKeepsStuck(Sof(Refresh(s, irqEnabled), now));
    case _ =>
  }

  /** An attached device whose link is not ready: nobody is connected, and the reset
      that would help waits for the host to detach. */
  ghost predicate Lost(s: Otg) {
    && s.bridge.Embedded? && s.bridge.link.stage != CdcLink.ProtocolReady && !s.bridge.link.connected
    && s.step == Configured && (s.hostAttached || s.bridge.link.stage == CdcLink.Detached)
  }

  lemma {:induction false} CompleteInKeepsLost(s: Otg, ep: nat)
    requires Shape(s) && Lost(s) && ep < NUM_ENDPOINTS
    ensures Lost(CompleteIn(s, ep))
  {
  }

  lemma {:induction false} ReadKeepsLost(s: Otg, offset: word)
    requires Shape(s) && Lost(s)
    ensures Lost(ReadState(s, offset))
  {
    hide Decode, PopStatus;
    PopChangesOnlyInterrupts(s);
  }

  lemma {:induction false} WriteKeepsLost(s: Otg, offset: word, value: word)
    requires Shape(s) && Lost(s)
    ensures Lost(WriteState(s, offset, value))
  {
    hide CompleteIn, Unmask, Decode, Bit, AndNot, LeBytes, WritePlain, XferSize;
    match Decode(offset)
    case Fifo(ep) => CompleteInKeepsLost(DisarmIn(AppendTxWord(s, ep, value), ep), ep);
    case InReg(ep, reg) => CompleteInKeepsLost(DisarmIn(ArmIn(s, ep, value), ep), ep);
    case OutReg(ep, reg) =>
    case Global(o) =>
      UnmaskChangesOnlyInterrupts(s.(emptyMask := value), AndNot(value, s.emptyMask), NUM_ENDPOINTS);
  }

  lemma {:induction false} PollKeepsLost(s: Otg, irqEnabled: bool, now: long)
    requires Shape(s) && Lost(s)
    ensures Lost(Poll(s, irqEnabled, now))
  {
    hide SetFlag, ForwardBulkOut;
    RefreshKeepsShape(s, irqEnabled);
    ForwardKeepsLost(Sof(Refresh(s, irqEnabled), now));
  }

  lemma {:induction false} ForwardKeepsLost(s: Otg)
    requires Shape(s) && Lost(s)
    ensures Lost(ForwardBulkOut(s))
  {
    hide Bit, XferSize, StatusWord;
  }

  lemma {:induction false} NextKeepsLost(s: Otg, e: Event)
    requires Shape(s) && Lost(s)
    ensures Lost(Next(s, e))
  {
    hide ReadState, WriteState, Poll;
    match e
    case FirmwareRead(offset) => ReadKeepsLost(s, offset);
    case FirmwareWrite(offset, value) => WriteKeepsLost(s, offset, value);
    case PollAt(irqEnabled, now) => PollKeepsLost(s, irqEnabled, now);
    case _ =>
  }

  /** With an in-process link nothing brings such a device back: over any run of any
      firmware and any host it stays without a ready link and without a session. */
  lemma {:induction false} LostForever(s: Otg, events: seq<Event>)
    requires Shape(s) && Lost(s)
    ensures Lost(Run(s, events))
    decreases |events|
  {
    hide Lost, Next;
    if events != [] {
      LostForever(s, events[..|events| - 1]);
      NextKeepsLost(Run(s, events[..|events| - 1]), events[|events| - 1]);
    }
  }

  /** So one GINTMSK write, from clear to set on a configured and attached device, ends
      its sessions for good. */
  lemma {:induction false} ReenablingLosesDevice(s: Otg, value: word, events: seq<Event>)
    requires Shape(s) && s.step == Configured && s.bridge.Embedded? && s.bridge.link.stage == CdcLink.ProtocolReady
    requires s.hostAttached && s.intMask == 0 && value != 0
    ensures var t := WriteState(s, GINTMSK, value);
            Shape(t) && Lost(Run(t, events))
  {
    hide PushTxWord, WriteIn, WriteOut, WriteEmptyMask, Run;
    assert Decode(GINTMSK) == Global(GINTMSK);
    WriteKeepsShape(s, GINTMSK, value);
    LostForever(WriteState(s, GINTMSK, value), events);
  }

  /** One session: no new connection and no bus reset. */
  ghost predicate Undisturbed(s: Otg, events: seq<Event>)
    requires Shape(s)
    decreases |events|
  {
    events != [] ==>
      var front, e := events[..|events| - 1], events[|events| - 1];
      && Undisturbed(s, front)
      && (e.HostSide? ==> e.action != CdcLink.DoConnect)
      && !Resets(Run(s, front), e)
  }

  // ---- What crosses the bridge ----

  function TakenBytes(h: History): seq<byte> {
    match h
    case After(p, TakenFromBridge(bytes)) => TakenBytes(p) + bytes
    case After(p, _) => TakenBytes(p)
    case Nothing => []
  }

  function GivenBytes(h: History): seq<byte> {
    match h
    case After(p, GivenToBridge(bytes)) => GivenBytes(p) + bytes
    case After(p, _) => GivenBytes(p)
    case Nothing => []
  }

  /** Within one session the device has read exactly what the controller took,
      beyond `taken` bytes from before. */
  ghost predicate SessionTransfers(s: Otg, taken: seq<byte>) {
    s.bridge.Embedded? && TakenBytes(s.history) == taken + s.bridge.link.down.read
  }

  /** Operations other than a packet transfer from the bridge. */
  ghost predicate TakesNothing(s: Otg, t: Otg) {
    && TakenBytes(t.history) == TakenBytes(s.history)
    && (s.bridge.Embedded? ==> t.bridge.Embedded? && t.bridge.link.down.read == s.bridge.link.down.read)
  }

  lemma {:induction false} CompleteInTakesNothing(s: Otg, ep: nat)
    requires Shape(s) && ep < NUM_ENDPOINTS
    ensures TakesNothing(s, CompleteIn(s, ep))
  {
    hide Script;
    var t := RaiseIn(s, ep, XFRC);
    assert TakesNothing(s, t);
    if ep == 0 {
      ScriptTakesNothing(t.(txFifo := t.txFifo[0 := []]));
    }
  }

  lemma {:induction false} ScriptTakesNothing(s: Otg)
    ensures TakesNothing(s, Script(s))
  {
  }

  lemma {:induction false} WriteOutCtlTakesNothing(s: Otg, ep: nat, value: word)
    requires Shape(s) && ep < NUM_ENDPOINTS
    ensures TakesNothing(s, WriteOutCtl(s, ep, value))
  {
    var t := Note(s.(epOut := s.epOut[ep := s.epOut[ep].(ctl := value)]), OutCtlWritten(ep, value));
    assert TakesNothing(s, t);
    assert TakesNothing(t, QueueSetup(t, 0, GET_DEVICE_DESCRIPTOR));
  }

  lemma {:induction false} ReadTakesNothing(s: Otg, offset: word)
    requires Shape(s)
    ensures TakesNothing(s, ReadState(s, offset))
  {
    hide Decode, PopStatus;
    PopChangesOnlyInterrupts(s);
    assert TakenBytes(PopStatus(s).history) == TakenBytes(s.history);
  }

  lemma {:induction false} UnmaskTakesNothing(s: Otg, newly: word, n: nat)
    requires n <= NUM_ENDPOINTS && |s.epIn| == NUM_ENDPOINTS
    ensures TakesNothing(s, Unmask(s, newly, n))
  {
    if n != 0 {
      UnmaskTakesNothing(s, newly, n - 1);
    }
  }

  lemma {:induction false} WriteTakesNothing(s: Otg, offset: word, value: word)
    requires Shape(s)
    ensures TakesNothing(s, WriteState(s, offset, value))
  {
    hide PushTxWord, WriteIn, WriteOutCtl, WriteGlobal, AndNot;
    match Decode(offset)
    case Fifo(ep) => PushTakesNothing(s, ep, value);
    case InReg(ep, reg) => WriteInTakesNothing(s, ep, reg, value);
    case OutReg(ep, reg) => WriteOutCtlTakesNothing(s, ep, value);
    case Global(o) => WriteGlobalTakesNothing(s, o, value);
  }

  lemma {:induction false} PushTakesNothing(s: Otg, ep: nat, value: word)
    requires Shape(s) && ep < NUM_ENDPOINTS
    ensures TakesNothing(s, PushTxWord(s, ep, value))
  {
    hide CompleteIn, LeBytes, Bit, XferSize;
    CompleteInTakesNothing(DisarmIn(AppendTxWord(s, ep, value), ep), ep);
  }

  lemma {:induction false} WriteInTakesNothing(s: Otg, ep: nat, reg: nat, value: word)
    requires Shape(s) && ep < NUM_ENDPOINTS
    ensures TakesNothing(s, WriteIn(s, ep, reg, value))
  {
    hide CompleteIn, Bit, AndNot, XferSize;
    var t := ArmIn(s, ep, value);
    assert TakesNothing(s, t);
    CompleteInTakesNothing(DisarmIn(t, ep), ep);
  }

  lemma {:induction false} WriteGlobalTakesNothing(s: Otg, o: word, value: word)
    requires Shape(s)
    ensures TakesNothing(s, WriteGlobal(s, o, value))
  {
    hide Unmask, AndNot, WritePlain;
    UnmaskTakesNothing(s.(emptyMask := value), AndNot(value, s.emptyMask), NUM_ENDPOINTS);
  }

  lemma {:induction false} ForwardKeepsTransfers(s: Otg, taken: seq<byte>)
    requires Shape(s) && SessionTransfers(s, taken)
    ensures SessionTransfers(ForwardBulkOut(s), taken)
  {
    hide Bit, ClearBit, XferSize, StatusWord;
    if OutReady(s) {
      var read, bytes := s.bridge.link.down.read, ForwardedPacket(s);
      assert (taken + read) + bytes == taken + (read + bytes);
      if Forwards(s) {
        assert TakenBytes(BeforeQueueing(s).history) == TakenBytes(s.history) + bytes;
      }
    }
  }

  lemma {:induction false} NextKeepsTransfers(s: Otg, e: Event, taken: seq<byte>)
    requires Shape(s) && SessionTransfers(s, taken)
    requires !Resets(s, e) && (e.HostSide? ==> e.action != CdcLink.DoConnect)
    ensures SessionTransfers(Next(s, e), taken)
  {
    hide ReadState, WriteState, ForwardBulkOut;
    match e
    case FirmwareRead(offset) => ReadTakesNothing(s, offset);
    case FirmwareWrite(offset, value) => WriteTakesNothing(s, offset, value);
    case PollAt(irqEnabled, now) =>
      RefreshKeepsShape(s, irqEnabled);
      ForwardKeepsTransfers(Sof(Refresh(s, irqEnabled), now), taken);
    case _ =>
  }

  // ---- What the host did in a session, read off the events ----

  predicate HostMayWrite(s: Otg) {
    s.bridge.Embedded? && s.bridge.link.connected && s.bridge.link.stage == CdcLink.ProtocolReady
  }

  /** The bytes of the host's writes while it was connected to a ready device. */
  function HostWrote(s: Otg, events: seq<Event>): seq<byte>
    requires Shape(s)
    decreases |events|
  {
    if events == [] then []
    else
      var front := events[..|events| - 1];
      match events[|events| - 1]
      case HostSide(DoWriteFromHost(bytes)) =>
        if HostMayWrite(Run(s, front)) then HostWrote(s, front) + bytes else HostWrote(s, front)
      case _ => HostWrote(s, front)
  }

  /** Some such write found less room in the link's queue than it had bytes. */
  function HostOverflowed(s: Otg, events: seq<Event>): bool
    requires Shape(s)
    decreases |events|
  {
    if events == [] then false
    else
      var front := events[..|events| - 1];
      match events[|events| - 1]
      case HostSide(DoWriteFromHost(bytes)) =>
        || HostOverflowed(s, front)
        || (HostMayWrite(Run(s, front))
            && var l := Run(s, front).bridge.link; |l.hostToDevice| + |bytes| > l.capacity)
      case _ => HostOverflowed(s, front)
  }

  /** What the host's reads returned. */
  function HostRead(s: Otg, events: seq<Event>): seq<byte>
    requires Shape(s)
    decreases |events|
  {
    if events == [] then []
    else
      var front := events[..|events| - 1];
      match events[|events| - 1]
      case HostSide(DoReadForHost(maximum)) =>
        if Run(s, front).bridge.Embedded?
        then HostRead(s, front) + CdcLink.Front(Run(s, front).bridge.link.deviceToHost, maximum)
        else HostRead(s, front)
      case _ => HostRead(s, front)
  }

  /** The controller's side of the link does not touch the host's record. */
  ghost predicate SameHost(s: Otg, t: Otg) {
    s.bridge.Embedded? ==>
      && t.bridge.Embedded?
      && t.bridge.link.down.written == s.bridge.link.down.written && t.bridge.link.down.lost == s.bridge.link.down.lost
      && t.bridge.link.up.read == s.bridge.link.up.read
  }

  lemma {:induction false} CompleteInSameHost(s: Otg, ep: nat)
    requires Shape(s) && ep < NUM_ENDPOINTS
    ensures SameHost(s, CompleteIn(s, ep))
  {
    hide Script;
    var t := RaiseIn(s, ep, XFRC);
    ScriptKeepsBridge(t.(txFifo := t.txFifo[0 := []]));
  }

  lemma {:induction false} WriteSameHost(s: Otg, offset: word, value: word)
    requires Shape(s)
    ensures SameHost(s, WriteState(s, offset, value))
  {
    hide CompleteIn, Unmask, Decode, Bit, AndNot, LeBytes, WritePlain, XferSize;
    match Decode(offset)
    case Fifo(ep) => CompleteInSameHost(DisarmIn(AppendTxWord(s, ep, value), ep), ep);
    case InReg(ep, reg) => CompleteInSameHost(DisarmIn(ArmIn(s, ep, value), ep), ep);
    case OutReg(ep, reg) =>
    case Global(o) =>
      UnmaskChangesOnlyInterrupts(s.(emptyMask := value), AndNot(value, s.emptyMask), NUM_ENDPOINTS);
  }

  lemma {:induction false} ReadSameHost(s: Otg, offset: word)
    requires Shape(s)
    ensures SameHost(s, ReadState(s, offset))
  {
    hide Decode, PopStatus;
    PopChangesOnlyInterrupts(s);
  }

  lemma {:induction false} ForwardSameHost(s: Otg)
    requires Shape(s)
    ensures SameHost(s, ForwardBulkOut(s))
  {
    hide Bit, XferSize, StatusWord;
  }

  lemma {:induction false} PollSameHost(s: Otg, irqEnabled: bool, now: long)
    requires Shape(s)
    ensures SameHost(s, Poll(s, irqEnabled, now))
  {
    hide SetFlag, ForwardBulkOut;
    RefreshKeepsShape(s, irqEnabled);
    ForwardSameHost(Sof(Refresh(s, irqEnabled), now));
  }

  /** One event changes it as the event says. */
  lemma {:induction false} NextHost(s: Otg, e: Event)
    requires Shape(s) && s.bridge.Embedded? && (e.HostSide? ==> e.action != CdcLink.DoConnect)
    ensures var (t, l) := (Next(s, e), s.bridge.link);
            && t.bridge.Embedded?
            && var (d, u) := (t.bridge.link.down, t.bridge.link.up);
               match e
               case HostSide(DoWriteFromHost(bytes)) =>
                 if HostMayWrite(s)
                 then d.written == l.down.written + bytes
                      && d.lost == (l.down.lost || |l.hostToDevice| + |bytes| > l.capacity) && u.read == l.up.read
                 else SameHost(s, t)
               case HostSide(DoReadForHost(maximum)) =>
                 d.written == l.down.written && d.lost == l.down.lost
                 && u.read == l.up.read + CdcLink.Front(l.deviceToHost, maximum)
               case _ => SameHost(s, t)
  {
    hide WriteState, ReadState, Poll, Capped;
    match e
    case FirmwareRead(offset) => ReadSameHost(s, offset);
    case FirmwareWrite(offset, value) => WriteSameHost(s, offset, value);
    case PollAt(irqEnabled, now) => PollSameHost(s, irqEnabled, now);
    case HostSide(a) =>
      CdcLink.DownRecord(s.bridge.link, a);
      CdcLink.UpRecord(s.bridge.link, a);
      hide CdcLink.Apply;
    case _ =>
  }

  /** Over a session the link's record grows by exactly what the events say. */
  lemma {:induction false} HostRecordIsExact(s: Otg, events: seq<Event>)
    requires Shape(s) && s.bridge.Embedded? && Undisturbed(s, events)
    ensures var (u, l) := (Run(s, events), s.bridge.link);
            && u.bridge.Embedded?
            && u.bridge.link.down.written == l.down.written + HostWrote(s, events)
            && u.bridge.link.down.lost == (l.down.lost || HostOverflowed(s, events))
            && u.bridge.link.up.read == l.up.read + HostRead(s, events)
    decreases |events|
  {
    hide Next, HostMayWrite, Resets, Shape;
    if events == [] {
      assert s.bridge.link.down.written + [] == s.bridge.link.down.written;
      assert s.bridge.link.up.read + [] == s.bridge.link.up.read;
    } else {
      var (front, last) := (events[..|events| - 1], events[|events| - 1]);
      HostRecordIsExact(s, front);
      NextHost(Run(s, front), last);
    }
  }
}
