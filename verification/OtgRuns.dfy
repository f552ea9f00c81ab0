/** Invariants of the OTG controller over every run: any firmware, any poll
    schedule, any host. */
module OtgRuns {
  import opened Bits
  import opened UsbCdcBridge
  import opened OtgModel
  import CdcLink

  // ---- Runs ----

  datatype Event =
    | FirmwareRead(offset: word)
    | FirmwareWrite(offset: word, value: word)
    | PollAt(irqEnabled: bool, now: long)
    | HostSide(action: CdcLink.Step)     // a host thread on the in-process link
    | NetworkSide(socket: TcpStep)       // the TCP socket of the bridge

  /** Only the controller drives the device side of the link. */
  predicate HostAction(a: CdcLink.Step) {
    a.DoConnect? || a.DoDisconnect? || a.DoWriteFromHost? || a.DoReadForHost? || a.DoDetach?
  }

  predicate NetworkAction(a: TcpStep) {
    !a.Pushed? && !a.TakenByDevice?
  }

  function Next(s: Otg, e: Event): Otg
    requires Shape(s)
  {
    match e
    case FirmwareRead(offset) => ReadState(s, offset)
    case FirmwareWrite(offset, value) => WriteState(s, offset, value)
    case PollAt(irqEnabled, now) => Poll(s, irqEnabled, now)
    case HostSide(a) =>
      if s.bridge.Embedded? && HostAction(a) then s.(bridge := Embedded(CdcLink.Apply(s.bridge.link, a))) else s
    case NetworkSide(a) =>
      if s.bridge.Tcp? && NetworkAction(a) then s.(bridge := TcpApply(s.bridge, a)) else s
  }

  function Run(s: Otg, events: seq<Event>): (r: Otg)
    requires Shape(s)
    ensures Shape(r)
    decreases |events|
  {
    if events == [] then s
    else
      var t := Run(s, events[..|events| - 1]);
      NextKeepsShape(t, events[|events| - 1]);
      Next(t, events[|events| - 1])
  }

  // ---- Shape ----

  /** Queueing a packet for an existing endpoint keeps the shape. */
  lemma {:induction false} SetupKeepsShape(s: Otg, ep: nat, packet: seq<byte>)
    requires Shape(s) && ep < NUM_ENDPOINTS
    ensures Shape(QueueSetup(s, ep, packet))
  {
    StatusRoundTrip(SETUP_DATA, 8, ep);
    StatusRoundTrip(SETUP_COMP, 0, ep);
  }

  lemma {:induction false} OutKeepsShape(s: Otg, ep: nat, data: seq<byte>)
    requires Shape(s) && ep < NUM_ENDPOINTS && |data| < 0x800
    ensures Shape(QueueOut(s, ep, data))
  {
    StatusRoundTrip(OUT_DATA, |data|, ep);
    StatusRoundTrip(OUT_COMP, 0, ep);
  }

  lemma {:induction false} AdvanceKeepsShape(s: Otg)
    requires Shape(s)
    ensures Shape(Advance(s))
  {
    hide StatusWord, EndpointNumber, Staged;
    match s.step
    case AwaitingDeviceDescriptor =>
      OutKeepsShape(s, 0, []);
      SetupKeepsShape(QueueOut(s, 0, []), 0, SET_ADDRESS);
    case AwaitingSetAddressStatus => SetupKeepsShape(s, 0, SET_CONFIGURATION);
    case AwaitingSetConfigurationStatus =>
      SetupKeepsShape(s, 0, SET_LINE_CODING);
      OutKeepsShape(QueueSetup(s, 0, SET_LINE_CODING), 0, LINE_CODING);
    case AwaitingSetLineCodingStatus => SetupKeepsShape(s, 0, SET_CONTROL_LINE_STATE);
    case _ =>
  }

  lemma {:induction false} CompleteInKeepsShape(s: Otg, ep: nat)
    requires Shape(s) && ep < NUM_ENDPOINTS
    ensures Shape(CompleteIn(s, ep))
  {
    if ep == 0 {
      var t := RaiseIn(s, ep, XFRC);
      AdvanceKeepsShape(t.(txFifo := t.txFifo[0 := []]));
    }
  }

  lemma {:induction false} PushTxWordKeepsShape(s: Otg, ep: nat, value: word)
    requires Shape(s) && ep < NUM_ENDPOINTS
    ensures Shape(PushTxWord(s, ep, value))
  {
    var t := AppendTxWord(s, ep, value);
    CompleteInKeepsShape(DisarmIn(t, ep), ep);
  }

  lemma {:induction false} WriteInCtlKeepsShape(s: Otg, ep: nat, value: word)
    requires Shape(s) && ep < NUM_ENDPOINTS
    ensures Shape(WriteInCtl(s, ep, value))
  {
    var t := ArmIn(s, ep, value);
    CompleteInKeepsShape(DisarmIn(t, ep), ep);
  }

  lemma {:induction false} WriteOutCtlKeepsShape(s: Otg, ep: nat, value: word)
    requires Shape(s) && ep < NUM_ENDPOINTS
    ensures Shape(WriteOutCtl(s, ep, value))
  {
    var t := Note(s.(epOut := s.epOut[ep := s.epOut[ep].(ctl := value)]), OutCtlWritten(ep, value));
    SetupKeepsShape(t, 0, GET_DEVICE_DESCRIPTOR);
  }

  lemma {:induction false} UnmaskChangesOnlyInterrupts(s: Otg, newly: word, n: nat)
    requires n <= NUM_ENDPOINTS && |s.epIn| == NUM_ENDPOINTS
    ensures var r := Unmask(s, newly, n);
            && r == s.(epIn := r.epIn, history := r.history)
            && (forall i :: 0 <= i < NUM_ENDPOINTS ==> r.epIn[i] == s.epIn[i].(intr := r.epIn[i].intr))
            && (forall i :: n <= i < NUM_ENDPOINTS ==> r.epIn[i] == s.epIn[i])
  {
    if n != 0 {
      UnmaskChangesOnlyInterrupts(s, newly, n - 1);
    }
  }

  /** The history after popping `w`, with or without a completion interrupt. */
  predicate PopNoted(h: History, w: word, t: History) {
    || t == After(h, StatusPopped(w))
    || (t.After? && t.entry.OutRaised? && t.earlier == After(h, StatusPopped(w)))
  }

  lemma {:induction false} PopChangesOnlyInterrupts(s: Otg)
    requires Shape(s)
    ensures var r := PopStatus(s);
            && |r.epOut| == NUM_ENDPOINTS
            && (forall i :: 0 <= i < NUM_ENDPOINTS ==> r.epOut[i] == s.epOut[i].(intr := r.epOut[i].intr))
            && if s.rxStatus == [] then r == s
               else r == s.(rxStatus := s.rxStatus[1..], epOut := r.epOut, history := r.history)
                    && PopNoted(s.history, s.rxStatus[0], r.history)
  {
    hide PacketStatus, EndpointNumber, SetFlag;
    if s.rxStatus != [] {
      assert s.rxStatus[0] in s.rxStatus;
    }
  }

  lemma {:induction false} PopStatusKeepsShape(s: Otg)
    requires Shape(s)
    ensures Shape(PopStatus(s))
  {
    hide PopStatus, PopNoted, EndpointNumber;
    PopChangesOnlyInterrupts(s);
    if s.rxStatus != [] {
      assert forall w :: w in s.rxStatus[1..] ==> w in s.rxStatus;
    }
  }

  lemma {:induction false} ForwardKeepsShape(s: Otg)
    requires Shape(s)
    ensures Shape(ForwardBulkOut(s))
  {
    if Forwards(s) {
      OutKeepsShape(BeforeQueueing(s), s.bulkOut.value, ForwardedPacket(s));
    }
  }

  lemma {:induction false} WriteKeepsShape(s: Otg, offset: word, value: word)
    requires Shape(s)
    ensures Shape(WriteState(s, offset, value))
  {
    hide PushTxWord, WriteInCtl, WriteOutCtl, Unmask, Bit, AndNot, LeBytes, WritePlain, XferSize, EndpointNumber,
         Decode;
    match Decode(offset)
    case Fifo(ep) => PushTxWordKeepsShape(s, ep, value);
    case InReg(ep, reg) =>
      if reg == EP_CTL { WriteInCtlKeepsShape(s, ep, value); }
    case OutReg(ep, reg) =>
      if reg == EP_CTL { WriteOutCtlKeepsShape(s, ep, value); }
    case Global(o) =>
      UnmaskChangesOnlyInterrupts(s.(emptyMask := value), AndNot(value, s.emptyMask), NUM_ENDPOINTS);
  }

  /** No access indexes outside the endpoint arrays, whatever firmware does: in
      particular every status it pops names an existing endpoint. */
  lemma {:induction false} NextKeepsShape(s: Otg, e: Event)
    requires Shape(s)
    ensures Shape(Next(s, e))
  {
    match e
    case FirmwareRead(offset) => PopStatusKeepsShape(s);
    case FirmwareWrite(offset, value) => WriteKeepsShape(s, offset, value);
    case PollAt(irqEnabled, now) =>
      RefreshKeepsShape(s, irqEnabled);
      ForwardKeepsShape(Sof(Refresh(s, irqEnabled), now));
    case _ =>
  }
}
