/** The enumeration transcript: which control transfers the virtual host has
    put on the bus is fixed by two counts that firmware controls. */
module OtgEnumeration {
  import opened Bits
  import opened ByteQueues
  import opened UsbCdcBridge
  import opened OtgModel
  import opened OtgRuns
  import OtgRegisters

  datatype Packet = Setup(bytes: seq<byte>) | Data(bytes: seq<byte>)

  /** Everything sent to the control endpoint since the last bus reset. */
  function ControlTraffic(h: History): seq<Packet> {
    match h
    case After(p, SetupQueued(ep, packet)) => if ep == 0 then ControlTraffic(p) + [Setup(packet)] else ControlTraffic(p)
    case After(p, OutQueued(ep, data)) => if ep == 0 then ControlTraffic(p) + [Data(data)] else ControlTraffic(p)
    case After(p, _) => ControlTraffic(p)
    case Nothing => []
  }

  /** Control-IN transfers that firmware completed. */
  function ControlInCompletions(h: History): nat {
    match h
    case After(p, InRaised(ep, flag)) => ControlInCompletions(p) + if ep == 0 && flag == XFRC then 1 else 0
    case After(p, _) => ControlInCompletions(p)
    case Nothing => 0
  }

  /** The USBAEP bit of firmware's last DOEPCTL0 write. */
  function LastActive(h: History): bool {
    match h
    case After(p, OutCtlWritten(ep, value)) => if ep == 0 then Bit(value, USBAEP) else LastActive(p)
    case After(p, _) => LastActive(p)
    case Nothing => false
  }

  /** Rising edges of USBAEP before the first control-IN completion. */
  function EarlyActivations(h: History): nat {
    match h
    case After(p, OutCtlWritten(ep, value)) =>
      EarlyActivations(p)
      + if ep == 0 && Bit(value, USBAEP) && !LastActive(p) && ControlInCompletions(p) == 0 then 1 else 0
    case After(p, _) => EarlyActivations(p)
    case Nothing => 0
  }

  function StepAfter(completions: nat): HostStep {
    if completions == 0 then AwaitingDeviceDescriptor
    else if completions == 1 then AwaitingSetAddressStatus
    else if completions == 2 then AwaitingSetConfigurationStatus
    else if completions == 3 then AwaitingSetLineCodingStatus
    else if completions == 4 then AwaitingSetControlLineStateStatus
    else Configured
  }

  /** The fixed script: the status-stage ack of GET_DESCRIPTOR and SET_ADDRESS 5, then one
      request per completed control transfer: SET_CONFIGURATION 1, SET_LINE_CODING with
      115200 8N1, SET_CONTROL_LINE_STATE with DTR and RTS. */
  const SCRIPT: seq<Packet> := [
    Data([]), Setup([0x00, 0x05, 0x05, 0x00, 0x00, 0x00, 0x00, 0x00]),
    Setup([0x00, 0x09, 0x01, 0x00, 0x00, 0x00, 0x00, 0x00]),
    Setup([0x21, 0x20, 0x00, 0x00, 0x00, 0x00, 0x07, 0x00]), Data([0x00, 0xc2, 0x01, 0x00, 0x00, 0x00, 0x08]),
    Setup([0x21, 0x22, 0x03, 0x00, 0x00, 0x00, 0x00, 0x00])]

  function ScriptLength(completions: nat): (n: nat)
    ensures n <= |SCRIPT|
  {
    if completions == 0 then 0
    else if completions == 1 then 2
    else if completions == 2 then 3
    else if completions == 3 then 5
    else 6
  }

  /** GET_DESCRIPTOR once per early activation. */
  function Descriptors(activations: nat): seq<Packet> {
    seq(activations, i => Setup([0x80, 0x06, 0x00, 0x01, 0x00, 0x00, 0x12, 0x00]))
  }

  function Expected(activations: nat, completions: nat): seq<Packet> {
    Descriptors(activations) + SCRIPT[..ScriptLength(completions)]
  }

  ghost predicate Enumerating(h: History, step: HostStep, active: bool) {
    && ControlTraffic(h) == Expected(EarlyActivations(h), ControlInCompletions(h))
    && step == StepAfter(ControlInCompletions(h))
    && active == LastActive(h)
  }

  ghost predicate EnumerationInv(s: Otg)
    requires Shape(s)
  {
    Enumerating(s.history, s.step, Bit(s.epOut[0].ctl, USBAEP))
  }

  /** Entries that concern neither the control endpoint's traffic, nor its
      completions, nor its control register. */
  predicate Unrelated(e: Entry) {
    match e
    case SetupQueued(ep, _) => ep != 0
    case OutQueued(ep, _) => ep != 0
    case InRaised(ep, flag) => ep != 0 || flag != XFRC
    case OutCtlWritten(ep, _) => ep != 0
    case _ => true
  }

  lemma {:induction false} UnrelatedEntry(h: History, e: Entry, step: HostStep, active: bool)
    requires Enumerating(h, step, active) && Unrelated(e)
    ensures Enumerating(After(h, e), step, active)
  {
  }

  lemma {:induction false} ScriptGrows(a: nat, from: nat, to: nat, more: seq<Packet>)
    requires from <= to <= |SCRIPT| && SCRIPT[from..to] == more
    ensures Descriptors(a) + SCRIPT[..from] + more == Descriptors(a) + SCRIPT[..to]
  {
    assert SCRIPT[..from] + SCRIPT[from..to] == SCRIPT[..to];
  }

  /** The history once the script has reacted to a control-IN completion. */
  function Reacted(h: History, step: HostStep): History {
    match step
    case AwaitingDeviceDescriptor => After(After(h, OutQueued(0, [])), SetupQueued(0, SET_ADDRESS))
    case AwaitingSetAddressStatus => After(h, SetupQueued(0, SET_CONFIGURATION))
    case AwaitingSetConfigurationStatus => After(After(h, SetupQueued(0, SET_LINE_CODING)), OutQueued(0, LINE_CODING))
    case AwaitingSetLineCodingStatus => After(h, SetupQueued(0, SET_CONTROL_LINE_STATE))
    case _ => h
  }

  function Requests(step: HostStep): seq<Packet> {
    match step
    case AwaitingDeviceDescriptor => [Data([]), Setup(SET_ADDRESS)]
    case AwaitingSetAddressStatus => [Setup(SET_CONFIGURATION)]
    case AwaitingSetConfigurationStatus => [Setup(SET_LINE_CODING), Data(LINE_CODING)]
    case AwaitingSetLineCodingStatus => [Setup(SET_CONTROL_LINE_STATE)]
    case _ => []
  }

  lemma {:induction false} ReactionTraffic(h: History, step: HostStep)
    ensures var r := Reacted(h, step);
            && ControlTraffic(r) == ControlTraffic(h) + Requests(step)
            && ControlInCompletions(r) == ControlInCompletions(h)
            && EarlyActivations(r) == EarlyActivations(h)
            && LastActive(r) == LastActive(h)
  {
  }

  lemma {:induction false} ScriptSlice(completions: nat)
    ensures var (from, to) := (ScriptLength(completions), ScriptLength(completions + 1));
            from <= to && SCRIPT[from..to] == Requests(StepAfter(completions))
  {
  }

  lemma {:induction false} ReactionKeepsEnumerating(h: History, step: HostStep, active: bool)
    requires Enumerating(h, step, active)
    ensures Enumerating(Reacted(After(h, InRaised(0, XFRC)), step), NextStep(step), active)
  {
    var a, c := EarlyActivations(h), ControlInCompletions(h);
    ReactionTraffic(After(h, InRaised(0, XFRC)), step);
    ScriptSlice(c);
    ScriptGrows(a, ScriptLength(c), ScriptLength(c + 1), Requests(step));
  }

  /** A control-IN completion advances the script by exactly one request. */
  lemma {:induction false} CompletionAdvances(s: Otg)
    requires Shape(s) && EnumerationInv(s)
    ensures var t := Advance(RaiseIn(s, 0, XFRC));
            && t.epOut == s.epOut
            && Enumerating(t.history, t.step, Bit(s.epOut[0].ctl, USBAEP))
  {
    hide Expected, Reacted, Script, SetFlag, Bit;
    ReactionKeepsEnumerating(s.history, s.step, Bit(s.epOut[0].ctl, USBAEP));
    ScriptHistory(RaiseIn(s, 0, XFRC));
  }

  lemma {:induction false} ScriptHistory(s: Otg)
    ensures Script(s).history == Reacted(s.history, s.step) && Script(s).epOut == s.epOut
  {
  }

  lemma {:induction false} CompleteInKeepsEnumeration(s: Otg, ep: nat)
    requires Shape(s) && EnumerationInv(s) && ep < NUM_ENDPOINTS
    ensures Shape(CompleteIn(s, ep)) && EnumerationInv(CompleteIn(s, ep))
  {
    hide Bit, SetFlag, Forwarded;
    CompleteInKeepsShape(s, ep);
    var active := Bit(s.epOut[0].ctl, USBAEP);
    if ep == 0 {
      CompletionAdvances(s.(txFifo := s.txFifo[0 := []]));
    } else {
      var t := RaiseIn(s, ep, XFRC);
      UnrelatedEntry(s.history, InRaised(ep, XFRC), s.step, active);
      if t.step == Configured && t.bulkIn == Some(ep) {
        var bytes := t.txFifo[ep][..Min(XferSize(t.epIn[ep]), |t.txFifo[ep]|)];
        UnrelatedEntry(t.history, GivenToBridge(bytes), s.step, active);
      }
    }
  }

  lemma {:induction false} WriteInCtlKeepsEnumeration(s: Otg, ep: nat, value: word)
    requires Shape(s) && EnumerationInv(s) && ep < NUM_ENDPOINTS
    ensures Shape(WriteInCtl(s, ep, value)) && EnumerationInv(WriteInCtl(s, ep, value))
  {
    WriteInCtlKeepsShape(s, ep, value);
    var active := Bit(s.epOut[0].ctl, USBAEP);
    if Bit(value, EPENA) && !Enabled(s.epIn[ep]) {
      var t := ArmIn(s, ep, value);
      UnrelatedEntry(s.history, InArmed(ep), s.step, active);
      if XferSize(s.epIn[ep]) == 0 {
        CompleteInKeepsEnumeration(DisarmIn(t, ep), ep);
      } else if Bit(s.emptyMask, ep) {
        UnrelatedEntry(t.history, InRaised(ep, TXFE), s.step, active);
      }
    }
  }

  /** In step 0 nothing but GET_DESCRIPTORs has been sent. */
  lemma {:induction false} ActivationKeepsEnumerating(h: History, step: HostStep, active: bool, value: word)
    requires Enumerating(h, step, active)
    ensures var w := After(h, OutCtlWritten(0, value));
            if Bit(value, USBAEP) && !active && step == AwaitingDeviceDescriptor
            then Enumerating(After(w, SetupQueued(0, GET_DEVICE_DESCRIPTOR)), step, true)
            else Enumerating(w, step, Bit(value, USBAEP))
  {
    var a, c := EarlyActivations(h), ControlInCompletions(h);
    if Bit(value, USBAEP) && !active && step == AwaitingDeviceDescriptor {
      assert Descriptors(a) + [Setup(GET_DEVICE_DESCRIPTOR)] == Descriptors(a + 1);
      assert SCRIPT[..0] == [];
      assert Descriptors(a) + [] == Descriptors(a) && Descriptors(a + 1) + [] == Descriptors(a + 1);
    }
  }

  lemma {:induction false} WriteOutCtlKeepsEnumeration(s: Otg, ep: nat, value: word)
    requires Shape(s) && EnumerationInv(s) && ep < NUM_ENDPOINTS
    ensures Shape(WriteOutCtl(s, ep, value)) && EnumerationInv(WriteOutCtl(s, ep, value))
  {
    WriteOutCtlKeepsShape(s, ep, value);
    var active := Bit(s.epOut[0].ctl, USBAEP);
    if ep == 0 {
      ActivationKeepsEnumerating(s.history, s.step, active, value);
    } else {
      UnrelatedEntry(s.history, OutCtlWritten(ep, value), s.step, active);
    }
  }

  lemma {:induction false} UnmaskKeepsEnumeration(s: Otg, newly: word, n: nat)
    requires Shape(s) && EnumerationInv(s) && n <= NUM_ENDPOINTS
    ensures Shape(Unmask(s, newly, n)) && EnumerationInv(Unmask(s, newly, n))
  {
    hide Enumerating;
    UnmaskChangesOnlyInterrupts(s, newly, n);
    if n != 0 {
      UnmaskKeepsEnumeration(s, newly, n - 1);
      UnmaskChangesOnlyInterrupts(s, newly, n - 1);
      var t := Unmask(s, newly, n - 1);
      var active := Bit(s.epOut[0].ctl, USBAEP);
      UnrelatedEntry(t.history, InUnmasked(n - 1), s.step, active);
      UnrelatedEntry(After(t.history, InUnmasked(n - 1)), InRaised(n - 1, TXFE), s.step, active);
    }
  }

  lemma {:induction false} PopEntriesUnrelated(h: History, w: word, ep: nat, flag: nat, step: HostStep, active: bool)
    requires Enumerating(h, step, active)
    ensures Enumerating(After(h, StatusPopped(w)), step, active)
    ensures Enumerating(After(After(h, StatusPopped(w)), OutRaised(ep, flag)), step, active)
  {
    UnrelatedEntry(h, StatusPopped(w), step, active);
    UnrelatedEntry(After(h, StatusPopped(w)), OutRaised(ep, flag), step, active);
  }

  lemma {:induction false} PopStatusKeepsEnumeration(s: Otg)
    requires Shape(s) && EnumerationInv(s)
    ensures Shape(PopStatus(s)) && EnumerationInv(PopStatus(s))
  {
    hide Enumerating;
    PopStatusKeepsShape(s);
    if s.rxStatus != [] {
      var w := s.rxStatus[0];
      assert w in s.rxStatus;
      var active, ep := Bit(s.epOut[0].ctl, USBAEP), EndpointNumber(w);
      PopEntriesUnrelated(s.history, w, ep, STUP, s.step, active);
      PopEntriesUnrelated(s.history, w, ep, XFRC, s.step, active);
    }
  }

  lemma {:induction false} ForwardKeepsEnumeration(s: Otg)
    requires Shape(s) && EnumerationInv(s)
    ensures Shape(ForwardBulkOut(s)) && EnumerationInv(ForwardBulkOut(s))
  {
    ForwardKeepsShape(s);
    if Forwards(s) {
      var active, bytes := Bit(s.epOut[0].ctl, USBAEP), ForwardedPacket(s);
      UnrelatedEntry(s.history, TakenFromBridge(bytes), s.step, active);
      UnrelatedEntry(After(s.history, TakenFromBridge(bytes)), OutQueued(s.bulkOut.value, bytes), s.step, active);
    }
  }

  lemma {:induction false} PushKeepsEnumeration(s: Otg, ep: nat, value: word)
    requires Shape(s) && EnumerationInv(s) && ep < NUM_ENDPOINTS
    ensures Shape(PushTxWord(s, ep, value)) && EnumerationInv(PushTxWord(s, ep, value))
  {
    CompleteInKeepsEnumeration(DisarmIn(AppendTxWord(s, ep, value), ep), ep);
  }

  lemma {:induction false} GlobalKeepsEnumeration(s: Otg, o: word, value: word)
    requires Shape(s) && EnumerationInv(s)
    ensures Shape(WriteGlobal(s, o, value)) && EnumerationInv(WriteGlobal(s, o, value))
  {
    hide Unmask;
    UnmaskKeepsEnumeration(s.(emptyMask := value), AndNot(value, s.emptyMask), NUM_ENDPOINTS);
  }

  lemma {:induction false} WriteInKeepsEnumeration(s: Otg, ep: nat, reg: nat, value: word)
    requires Shape(s) && EnumerationInv(s) && ep < NUM_ENDPOINTS
    ensures Shape(WriteIn(s, ep, reg, value)) && EnumerationInv(WriteIn(s, ep, reg, value))
  {
    hide WriteInCtl, Enumerating, AndNot, Bit;
    WriteInCtlKeepsEnumeration(s, ep, value);
  }

  lemma {:induction false} WriteOutKeepsEnumeration(s: Otg, ep: nat, reg: nat, value: word)
    requires Shape(s) && EnumerationInv(s) && ep < NUM_ENDPOINTS
    ensures Shape(WriteOut(s, ep, reg, value)) && EnumerationInv(WriteOut(s, ep, reg, value))
  {
    hide WriteOutCtl, Enumerating, AndNot, Bit;
    WriteOutCtlKeepsEnumeration(s, ep, value);
  }

  lemma {:induction false} WriteKeepsEnumeration(s: Otg, offset: word, value: word)
    requires Shape(s) && EnumerationInv(s)
    ensures Shape(WriteState(s, offset, value)) && EnumerationInv(WriteState(s, offset, value))
  {
    hide PushTxWord, WriteIn, WriteOut, WriteGlobal, Shape, EnumerationInv;
    match Decode(offset)
    case Fifo(ep) => PushKeepsEnumeration(s, ep, value);
    case InReg(ep, reg) => WriteInKeepsEnumeration(s, ep, reg, value);
    case OutReg(ep, reg) => WriteOutKeepsEnumeration(s, ep, reg, value);
    case Global(o) => GlobalKeepsEnumeration(s, o, value);
  }

  lemma {:induction false} PopRxWordKeepsEnumeration(s: Otg)
    requires Shape(s) && EnumerationInv(s)
    ensures Shape(PopRxWord(s)) && EnumerationInv(PopRxWord(s))
  {
    UnrelatedEntry(s.history, FifoPopped(s.rxFifo[..Min(4, |s.rxFifo|)]), s.step, Bit(s.epOut[0].ctl, USBAEP));
  }

  lemma {:induction false} RefreshKeepsEnumeration(s: Otg, irqEnabled: bool)
    requires Shape(s) && EnumerationInv(s)
    ensures Shape(Refresh(s, irqEnabled)) && EnumerationInv(Refresh(s, irqEnabled))
  {
    RefreshKeepsShape(s, irqEnabled);
    StartEnumerates();
  }

  lemma {:induction false} StartEnumerates()
    ensures Enumerating(Nothing, AwaitingDeviceDescriptor, false) && !Bit(0, USBAEP)
  {
    assert Descriptors(0) + SCRIPT[..0] == [];
  }

  lemma {:induction false} NextKeepsEnumeration(s: Otg, e: Event)
    requires Shape(s) && EnumerationInv(s)
    ensures Shape(Next(s, e)) && EnumerationInv(Next(s, e))
  {
    hide WriteState, PopStatus, PopRxWord, ForwardBulkOut;
    match e
    case FirmwareRead(offset) =>
      PopStatusKeepsEnumeration(s);
      PopRxWordKeepsEnumeration(s);
    case FirmwareWrite(offset, value) =>
      WriteKeepsEnumeration(s, offset, value);
    case PollAt(irqEnabled, now) =>
      RefreshKeepsEnumeration(s, irqEnabled);
      ForwardKeepsEnumeration(Sof(Refresh(s, irqEnabled), now));
    case _ =>
  }

  /** Over any run of any firmware: since start or the last bus reset the host
      has sent GET_DESCRIPTOR once per early USBAEP edge and then the script's
      prefix fixed by the number of control-IN completions; the zero-length
      status ack precedes SET_ADDRESS and occurs once; the device is configured
      exactly when at least five completions have happened. */
  lemma {:induction false} EnumerationTranscript(bridge: Bridge, bulkIn: Option<nat>, bulkOut: Option<nat>,
                                                 events: seq<Event>)
    requires Shape(Start(bridge, bulkIn, bulkOut))
    ensures var s := Run(Start(bridge, bulkIn, bulkOut), events);
            var (a, c) := (EarlyActivations(s.history), ControlInCompletions(s.history));
            && EnumerationInv(s)
            && ControlTraffic(s.history) == Expected(a, c)
            && (s.step == Configured <==> c >= 5)
    decreases |events|
  {
    hide Next, Expected, Shape;
    if events == [] {
      StartEnumerates();
    } else {
      EnumerationTranscript(bridge, bulkIn, bulkOut, events[..|events| - 1]);
      NextKeepsEnumeration(Run(Start(bridge, bulkIn, bulkOut), events[..|events| - 1]), events[|events| - 1]);
    }
  }

  /** IN transfers of the control endpoint that ended since the last reset: the last word of
      an armed one was written, or an empty one was armed. */
  function ControlTransfers(start: Otg, events: seq<Event>): nat
    requires Shape(start)
    decreases |events|
  {
    if events == [] then 0
    else
      var (front, e) := (events[..|events| - 1], events[|events| - 1]);
      var s := Run(start, front);
      if OtgRegisters.ResetBy(s, e) then 0
      else ControlTransfers(start, front) + if OtgRegisters.Completes(s, e, 0) then 1 else 0
  }

  /** Over any run the step of the enumeration is the number of those transfers. */
  lemma {:induction false} StepIsReadOff(bridge: Bridge, bulkIn: Option<nat>, bulkOut: Option<nat>, events: seq<Event>)
    requires Shape(Start(bridge, bulkIn, bulkOut))
    ensures var start := Start(bridge, bulkIn, bulkOut);
            Run(start, events).step == StepAfter(ControlTransfers(start, events))
    decreases |events|
  {
    hide Next, OtgRegisters.ResetBy, OtgRegisters.Completes, OtgRegisters.Gives;
    if events != [] {
      var (front, e) := (events[..|events| - 1], events[|events| - 1]);
      StepIsReadOff(bridge, bulkIn, bulkOut, front);
      OtgRegisters.TransmitFollowsEvent(Run(Start(bridge, bulkIn, bulkOut), front), e, 0);
    }
  }
}
