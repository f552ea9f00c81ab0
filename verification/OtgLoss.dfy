/** A run from power-on that ends with a device lost for good: firmware that disables
    its interrupts once configured, and enables them again. */
module OtgLoss {
  import opened Bits
  import opened UsbCdcBridge
  import opened OtgModel
  import opened OtgRuns
  import opened OtgSession
  import CdcLink

  const DIEPCTL0: word := 0x900
  const ENABLE: word := 0x8000_0000

  /** Firmware enables interrupts, the poll attaches the host, five control-IN transfers
      without data complete the enumeration, and interrupts are disabled. */
  const TO_THE_BRINK: seq<Event> := [
    FirmwareWrite(GINTMSK, 1), PollAt(true, 0),
    FirmwareWrite(DIEPCTL0, ENABLE), FirmwareWrite(DIEPCTL0, ENABLE), FirmwareWrite(DIEPCTL0, ENABLE),
    FirmwareWrite(DIEPCTL0, ENABLE), FirmwareWrite(DIEPCTL0, ENABLE),
    FirmwareWrite(GINTMSK, 0)]

  lemma {:induction false} RunAppend(s: Otg, events: seq<Event>, e: Event)
    requires Shape(s)
    ensures Run(s, events + [e]) == Next(Run(s, events), e)
  {
    hide Next;
    assert (events + [e])[..|events|] == events;
  }

  /** Where the enumeration stands: interrupts enabled, host attached, EP0 idle. */
  ghost predicate Enumerating(s: Otg, step: HostStep, link: CdcLink.Link) {
    && |s.epIn| == NUM_ENDPOINTS && !Enabled(s.epIn[0]) && XferSize(s.epIn[0]) == 0
    && s.hostAttached && s.intMask == 1 && s.step == step && s.bridge == Embedded(link)
  }

  lemma {:induction false} HostAttaches(bulkIn: Option<nat>, bulkOut: Option<nat>)
    requires Shape(Start(Embedded(CdcLink.AttachDevice(CdcLink.Initial())), bulkIn, bulkOut))
    ensures var s := Start(Embedded(CdcLink.AttachDevice(CdcLink.Initial())), bulkIn, bulkOut);
            var t := WriteState(s, GINTMSK, 1);
            && Shape(t)
            && Enumerating(Poll(t, true, 0), AwaitingDeviceDescriptor,
                           CdcLink.Initial().(stage := CdcLink.AwaitingDeviceDescriptor))
  {
    var s := Start(Embedded(CdcLink.AttachDevice(CdcLink.Initial())), bulkIn, bulkOut);
    WriteKeepsShape(s, GINTMSK, 1);
    InterruptsEnabled(s);
    hide WriteState, Start, Enumerating, Poll;
    PollAttaches(WriteState(s, GINTMSK, 1), CdcLink.Initial().(stage := CdcLink.UsbStarted));
  }

  lemma {:induction false} InterruptsEnabled(s: Otg)
    requires Shape(s) && s.intMask == 0 && s.bridge == Embedded(CdcLink.AttachDevice(CdcLink.Initial()))
    ensures var t := WriteState(s, GINTMSK, 1);
            && t.intMask == 1 && t.bridge == Embedded(CdcLink.Initial().(stage := CdcLink.UsbStarted))
            && t.hostAttached == s.hostAttached && t.lastSof == s.lastSof
  {
    hide PushTxWord, WriteIn, WriteOut, WriteEmptyMask;
    assert Decode(GINTMSK) == Global(GINTMSK);
  }

  lemma {:induction false} PollAttaches(s: Otg, link: CdcLink.Link)
    requires Shape(s) && s.intMask == 1 && s.bridge == Embedded(link) && !s.hostAttached && s.lastSof == 0
    requires link == CdcLink.Initial().(stage := CdcLink.UsbStarted)
    ensures Enumerating(Poll(s, true, 0), AwaitingDeviceDescriptor, link.(stage := CdcLink.AwaitingDeviceDescriptor))
  {
    hide SetFlag, Bit, ForwardedPacket, QueueOut, BeforeQueueing;
    RefreshKeepsShape(s, true);
    NotEnabled();
    assert !OutReady(Sof(Refresh(s, true), 0));
  }

  lemma {:induction false} NotEnabled()
    ensures !Bit(0, EPENA)
  {
  }

  lemma {:induction false} TopBit()
    ensures Bit(ENABLE, EPENA)
  {
    assert Pow2(8) == 0x100;
    assert Pow2(16) == 0x100 * Pow2(8);
    assert Pow2(24) == 0x100 * Pow2(16);
    assert Shl(1, 31) == Pow2(31) && Bit(Shl(1, 31), 31) <==> Bit(1, 0);
  }

  /** Enabling EP0 for a transfer of no bytes completes it at once. */
  lemma {:induction false} EmptyWriteCompletes(s: Otg)
    requires Shape(s) && !Enabled(s.epIn[0]) && XferSize(s.epIn[0]) == 0
    ensures WriteState(s, DIEPCTL0, ENABLE) == CompleteIn(DisarmIn(ArmIn(s, 0, ENABLE), 0), 0)
  {
    hide CompleteIn, DisarmIn, ArmIn, Bit, XferSize, PushTxWord, WriteOut, WriteGlobal;
    TopBit();
    assert Decode(DIEPCTL0) == InReg(0, EP_CTL);
  }

  /** The controller when the script is about to advance. */
  function Finishing(s: Otg): Otg
    requires |s.epIn| == NUM_ENDPOINTS && |s.txFifo| == NUM_ENDPOINTS
  {
    var t := RaiseIn(DisarmIn(ArmIn(s, 0, ENABLE), 0), 0, XFRC);
    t.(txFifo := t.txFifo[0 := []])
  }

  lemma {:induction false} CompletionIsAdvance(s: Otg)
    requires |s.epIn| == NUM_ENDPOINTS && |s.txFifo| == NUM_ENDPOINTS
    ensures CompleteIn(DisarmIn(ArmIn(s, 0, ENABLE), 0), 0) == Advance(Finishing(s))
  {
    hide Advance, SetFlag, ClearBit;
  }

  lemma {:induction false} FinishingKeeps(s: Otg, step: HostStep, link: CdcLink.Link)
    requires |s.epIn| == NUM_ENDPOINTS && |s.txFifo| == NUM_ENDPOINTS && Enumerating(s, step, link)
    ensures Enumerating(Finishing(s), step, link)
  {
    hide SetFlag, Bit, ClearBit, XferSize;
    var e := Finishing(s).epIn[0];
    assert e == s.epIn[0].(ctl := ClearBit(ENABLE, EPENA), sent := 0, intr := SetFlag(s.epIn[0].intr, XFRC));
    EndpointFinishes(s.epIn[0], e);
  }

  lemma {:induction false} EndpointFinishes(was: Endpoint, e: Endpoint)
    requires e.tsiz == was.tsiz && e.ctl == ClearBit(ENABLE, EPENA)
    ensures !Enabled(e) && XferSize(e) == XferSize(was)
  {
    hide Bit;
  }

  lemma {:induction false} AdvanceSteps(s: Otg, step: HostStep, link: CdcLink.Link)
    requires Enumerating(s, step, link) && step != Configured && link.stage != CdcLink.Detached
    requires !link.connected && link.hostToDevice == [] && link.deviceToHost == []
    ensures Enumerating(Advance(s), NextStep(step), link.(stage := StageOf(NextStep(step))))
  {
    hide Script, Bit, XferSize;
    ScriptKeepsEndpoints(s);
    ScriptKeepsBridge(s);
  }

  /** One such write is one step of the script. */
  lemma {:induction false} CompletesStep(s: Otg, step: HostStep, link: CdcLink.Link)
    requires Shape(s) && Enumerating(s, step, link) && step != Configured && link.stage != CdcLink.Detached
    requires !link.connected && link.hostToDevice == [] && link.deviceToHost == []
    ensures var t := WriteState(s, DIEPCTL0, ENABLE);
            Shape(t) && Enumerating(t, NextStep(step), link.(stage := StageOf(NextStep(step))))
  {
    hide WriteState, CompleteIn, Advance, Shape, Bit, XferSize, DisarmIn, ArmIn, Finishing;
    WriteShape(s);
    ArmedShape(s);
    EmptyWriteCompletes(s);
    CompletionIsAdvance(s);
    FinishingKeeps(s, step, link);
    AdvanceSteps(Finishing(s), step, link);
  }

  lemma {:induction false} ArmedShape(s: Otg)
    requires |s.epIn| == NUM_ENDPOINTS && |s.txFifo| == NUM_ENDPOINTS
    ensures var t := DisarmIn(ArmIn(s, 0, ENABLE), 0); |t.epIn| == NUM_ENDPOINTS && |t.txFifo| == NUM_ENDPOINTS
  {
    hide ClearBit;
  }

  lemma {:induction false} WriteShape(s: Otg)
    requires Shape(s)
    ensures Shape(WriteState(s, DIEPCTL0, ENABLE)) && |s.epIn| == NUM_ENDPOINTS && |s.txFifo| == NUM_ENDPOINTS
  {
    hide WriteState;
    WriteKeepsShape(s, DIEPCTL0, ENABLE);
  }

  lemma {:induction false} ScriptKeepsEndpoints(s: Otg)
    ensures Script(s).epIn == s.epIn && Script(s).hostAttached == s.hostAttached && Script(s).intMask == s.intMask
    ensures Script(s).step == s.step
  {
  }

  lemma {:induction false} MaskCleared(s: Otg, link: CdcLink.Link)
    requires Shape(s) && Enumerating(s, Configured, link) && link.stage == CdcLink.ProtocolReady
    ensures var t := WriteState(s, GINTMSK, 0);
            Shape(t) && t.step == Configured && t.bridge == Embedded(link) && t.hostAttached && t.intMask == 0
  {
    hide PushTxWord, WriteIn, WriteOut, WriteEmptyMask;
    assert Decode(GINTMSK) == Global(GINTMSK);
    WriteKeepsShape(s, GINTMSK, 0);
  }

  /** From power-on these events lead to where the next GINTMSK write loses the device,
      whatever happens afterwards. */
  lemma {:induction false} DeviceCanBeLost(bulkIn: Option<nat>, bulkOut: Option<nat>, value: word, events: seq<Event>)
    requires Shape(Start(Embedded(CdcLink.AttachDevice(CdcLink.Initial())), bulkIn, bulkOut)) && value != 0
    ensures var s := Run(Start(Embedded(CdcLink.AttachDevice(CdcLink.Initial())), bulkIn, bulkOut), TO_THE_BRINK);
            && s.step == Configured && s.bridge.Embedded? && s.bridge.link.stage == CdcLink.ProtocolReady
            && s.hostAttached && s.intMask == 0
            && Shape(WriteState(s, GINTMSK, value)) && Lost(Run(WriteState(s, GINTMSK, value), events))
  {
    hide WriteState, Poll, Run, Enumerating, Shape, Lost, Start, StageOf, NextStep;
    var start := Start(Embedded(CdcLink.AttachDevice(CdcLink.Initial())), bulkIn, bulkOut);
    var link := CdcLink.Initial().(stage := CdcLink.AwaitingDeviceDescriptor);
    HostAttaches(bulkIn, bulkOut);
    BrinkRuns(start);
    var s2 := Run(start, TO_THE_BRINK[..2]);
    EnumerationCompletes(s2, link);
    MaskCleared(Run(s2, TO_THE_BRINK[2..7]), link.(stage := CdcLink.ProtocolReady));
    ReenablingLosesDevice(Run(start, TO_THE_BRINK), value, events);
  }

  /** The run, part by part. */
  lemma {:induction false} BrinkRuns(s: Otg)
    requires Shape(s)
    ensures Shape(WriteState(s, GINTMSK, 1))
    ensures Run(s, TO_THE_BRINK[..2]) == Poll(WriteState(s, GINTMSK, 1), true, 0)
    ensures Run(s, TO_THE_BRINK) == WriteState(Run(Run(s, TO_THE_BRINK[..2]), TO_THE_BRINK[2..7]), GINTMSK, 0)
  {
    hide WriteState, Poll, Shape, Run;
    WriteKeepsShape(s, GINTMSK, 1);
    NothingRun(s);
    RunAppend(s, [], TO_THE_BRINK[0]);
    RunAppend(s, [TO_THE_BRINK[0]], TO_THE_BRINK[1]);
    assert [] + [TO_THE_BRINK[0]] == [TO_THE_BRINK[0]];
    assert TO_THE_BRINK[..2] == [TO_THE_BRINK[0]] + [TO_THE_BRINK[1]];
    RunJoins(s, TO_THE_BRINK[..2], TO_THE_BRINK[2..7]);
    assert TO_THE_BRINK == (TO_THE_BRINK[..2] + TO_THE_BRINK[2..7]) + [TO_THE_BRINK[7]];
    RunAppend(s, TO_THE_BRINK[..2] + TO_THE_BRINK[2..7], TO_THE_BRINK[7]);
  }

  lemma {:induction false} NothingRun(s: Otg)
    requires Shape(s)
    ensures Run(s, []) == s
  {
  }

  lemma {:induction false} RunJoins(s: Otg, a: seq<Event>, b: seq<Event>)
    requires Shape(s)
    ensures Run(s, a + b) == Run(Run(s, a), b)
    decreases |b|
  {
    hide Next, Shape;
    if b == [] {
      assert a + b == a;
    } else {
      var (front, last) := (b[..|b| - 1], b[|b| - 1]);
      RunJoins(s, a, front);
      assert a + b == (a + front) + [last];
      RunAppend(s, a + front, last);
    }
  }

  lemma {:induction false} EnumerationCompletes(s: Otg, link: CdcLink.Link)
    requires Shape(s) && Enumerating(s, AwaitingDeviceDescriptor, link)
             && link.stage == CdcLink.AwaitingDeviceDescriptor
    requires !link.connected && link.hostToDevice == [] && link.deviceToHost == []
    ensures Enumerating(Run(s, TO_THE_BRINK[2..7]), Configured, link.(stage := CdcLink.ProtocolReady))
  {
    hide WriteState, Shape, Run, Enumerating;
    var e := FirmwareWrite(DIEPCTL0, ENABLE);
    NothingRun(s);
    var n1, n2, n3, n4 := [e], [e, e], [e, e, e], [e, e, e, e];
    assert n1 == [] + [e] && n2 == n1 + [e] && n3 == n2 + [e] && n4 == n3 + [e] && TO_THE_BRINK[2..7] == n4 + [e];
    RunAppend(s, [], e);
    RunAppend(s, n1, e);
    RunAppend(s, n2, e);
    RunAppend(s, n3, e);
    RunAppend(s, n4, e);
    CompletesStep(s, AwaitingDeviceDescriptor, link);
    CompletesStep(Run(s, n1), AwaitingSetAddressStatus, link.(stage := CdcLink.AwaitingSetAddressStatus));
    CompletesStep(Run(s, n2), AwaitingSetConfigurationStatus, link.(stage := CdcLink.AwaitingSetConfigurationStatus));
    CompletesStep(Run(s, n3), AwaitingSetLineCodingStatus, link.(stage := CdcLink.AwaitingSetLineCodingStatus));
    CompletesStep(Run(s, n4), AwaitingSetControlLineStateStatus,
                  link.(stage := CdcLink.AwaitingSetControlLineStateStatus));
  }
}
