/** Flow control of bulk OUT for any firmware: one packet per arm, and every
    byte taken from the bridge is queued for firmware exactly once. */
module OtgFlowControl {
  import opened Bits
  import opened UsbCdcBridge
  import opened OtgModel
  import opened OtgRuns
  import opened OtgSession
  import OtgReceive

  /** DOEPCTL writes of an endpoint that set EPENA. */
  function OutArms(h: History, ep: nat): nat {
    match h
    case After(p, OutCtlWritten(e, value)) => OutArms(p, ep) + if e == ep && Bit(value, EPENA) then 1 else 0
    case After(p, _) => OutArms(p, ep)
    case Nothing => 0
  }

  /** The payloads queued for an endpoint, in order. */
  function Payloads(h: History, ep: nat): seq<byte> {
    match h
    case After(p, OutQueued(e, data)) => if e == ep then Payloads(p, ep) + data else Payloads(p, ep)
    case After(p, _) => Payloads(p, ep)
    case Nothing => []
  }

  ghost predicate FlowInv(s: Otg, ep: nat)
    requires Shape(s) && ep < NUM_ENDPOINTS
  {
    && OtgReceive.OutsQueued(s.history, ep) + (if Enabled(s.epOut[ep]) then 1 else 0) <= OutArms(s.history, ep)
    && Payloads(s.history, ep) == TakenBytes(s.history)
  }

  /** An operation that neither arms `ep` nor queues for it. */
  ghost predicate SameFlow(s: Otg, t: Otg, ep: nat)
    requires ep < |s.epOut| && ep < |t.epOut|
  {
    && OtgReceive.OutsQueued(t.history, ep) == OtgReceive.OutsQueued(s.history, ep)
    && OutArms(t.history, ep) == OutArms(s.history, ep)
    && Payloads(t.history, ep) == Payloads(s.history, ep)
    && TakenBytes(t.history) == TakenBytes(s.history)
    && Enabled(t.epOut[ep]) == Enabled(s.epOut[ep])
  }

  lemma {:induction false} SetupSameFlow(s: Otg, to: nat, packet: seq<byte>, ep: nat)
    requires to < 16 && ep < |s.epOut|
    ensures SameFlow(s, QueueSetup(s, to, packet), ep)
  {
  }

  lemma {:induction false} OutSameFlow(s: Otg, to: nat, data: seq<byte>, ep: nat)
    requires to < 16 && ep < |s.epOut| && |data| < 0x2000 && to != ep
    ensures SameFlow(s, QueueOut(s, to, data), ep)
  {
  }

  lemma {:induction false} ScriptSameFlow(s: Otg, ep: nat)
    requires 1 <= ep < |s.epOut|
    ensures |Script(s).epOut| == |s.epOut| && SameFlow(s, Script(s), ep)
  {
    match s.step
    case AwaitingDeviceDescriptor =>
      OutSameFlow(s, 0, [], ep);
      SetupSameFlow(QueueOut(s, 0, []), 0, SET_ADDRESS, ep);
    case AwaitingSetConfigurationStatus =>
      SetupSameFlow(s, 0, SET_LINE_CODING, ep);
      OutSameFlow(QueueSetup(s, 0, SET_LINE_CODING), 0, LINE_CODING, ep);
    case _ =>
  }

  lemma {:induction false} CompleteInSameFlow(s: Otg, other: nat, ep: nat)
    requires Shape(s) && other < NUM_ENDPOINTS && 1 <= ep < NUM_ENDPOINTS
    ensures |CompleteIn(s, other).epOut| == NUM_ENDPOINTS && SameFlow(s, CompleteIn(s, other), ep)
  {
    hide Script;
    var t := RaiseIn(s, other, XFRC);
    assert SameFlow(s, t, ep);
    if other == 0 {
      ScriptSameFlow(t.(txFifo := t.txFifo[0 := []]), ep);
    }
  }

  lemma {:induction false} UnmaskSameFlow(s: Otg, newly: word, n: nat, ep: nat)
    requires Shape(s) && n <= NUM_ENDPOINTS && ep < NUM_ENDPOINTS
    ensures |Unmask(s, newly, n).epOut| == NUM_ENDPOINTS && SameFlow(s, Unmask(s, newly, n), ep)
  {
    if n != 0 {
      UnmaskSameFlow(s, newly, n - 1, ep);
      UnmaskChangesOnlyInterrupts(s, newly, n - 1);
      var u := Note(Unmask(s, newly, n - 1), InUnmasked(n - 1));
      assert SameFlow(s, u, ep);
    }
  }

  lemma {:induction false} PopSameCounts(h: History, w: word, t: History, ep: nat)
    requires PopNoted(h, w, t)
    ensures OtgReceive.OutsQueued(t, ep) == OtgReceive.OutsQueued(h, ep) && OutArms(t, ep) == OutArms(h, ep)
    ensures Payloads(t, ep) == Payloads(h, ep) && TakenBytes(t) == TakenBytes(h)
  {
    var u := After(h, StatusPopped(w));
    assert Payloads(u, ep) == Payloads(h, ep);
  }

  lemma {:induction false} ReadSameFlow(s: Otg, offset: word, ep: nat)
    requires Shape(s) && ep < NUM_ENDPOINTS
    ensures |ReadState(s, offset).epOut| == NUM_ENDPOINTS && SameFlow(s, ReadState(s, offset), ep)
  {
    hide Bit, Decode, PopStatus;
    PopChangesOnlyInterrupts(s);
    if s.rxStatus != [] {
      PopSameCounts(s.history, s.rxStatus[0], PopStatus(s).history, ep);
    }
  }

  lemma {:induction false} WriteOutKeepsFlow(s: Otg, other: nat, reg: nat, value: word, ep: nat)
    requires Shape(s) && other < NUM_ENDPOINTS && 1 <= ep < NUM_ENDPOINTS && FlowInv(s, ep)
    ensures Shape(WriteOut(s, other, reg, value)) && FlowInv(WriteOut(s, other, reg, value), ep)
  {
    hide AndNot, StatusWord;
    WriteOutCtlKeepsShape(s, other, value);
    if reg == EP_CTL {
      var t := Note(s.(epOut := s.epOut[other := s.epOut[other].(ctl := value)]), OutCtlWritten(other, value));
      assert FlowInv(t, ep);
      SetupSameFlow(t, 0, GET_DEVICE_DESCRIPTOR, ep);
    }
  }

  lemma {:induction false} WriteInKeepsFlow(s: Otg, other: nat, reg: nat, value: word, ep: nat)
    requires Shape(s) && other < NUM_ENDPOINTS && 1 <= ep < NUM_ENDPOINTS && FlowInv(s, ep)
    ensures Shape(WriteIn(s, other, reg, value)) && FlowInv(WriteIn(s, other, reg, value), ep)
  {
    hide CompleteIn;
    WriteInCtlKeepsShape(s, other, value);
    var t := ArmIn(s, other, value);
    assert SameFlow(s, t, ep);
    CompleteInSameFlow(DisarmIn(t, other), other, ep);
  }

  lemma {:induction false} PushKeepsFlow(s: Otg, other: nat, value: word, ep: nat)
    requires Shape(s) && other < NUM_ENDPOINTS && 1 <= ep < NUM_ENDPOINTS && FlowInv(s, ep)
    ensures Shape(PushTxWord(s, other, value)) && FlowInv(PushTxWord(s, other, value), ep)
  {
    hide CompleteIn;
    PushTxWordKeepsShape(s, other, value);
    CompleteInSameFlow(DisarmIn(AppendTxWord(s, other, value), other), other, ep);
  }

  lemma {:induction false} WriteGlobalKeepsFlow(s: Otg, o: word, value: word, ep: nat)
    requires Shape(s) && ep < NUM_ENDPOINTS && FlowInv(s, ep)
    ensures Shape(WriteGlobal(s, o, value)) && FlowInv(WriteGlobal(s, o, value), ep)
  {
    hide Unmask;
    UnmaskSameFlow(s.(emptyMask := value), AndNot(value, s.emptyMask), NUM_ENDPOINTS, ep);
    UnmaskChangesOnlyInterrupts(s.(emptyMask := value), AndNot(value, s.emptyMask), NUM_ENDPOINTS);
  }

  lemma {:induction false} WriteKeepsFlow(s: Otg, offset: word, value: word, ep: nat)
    requires Shape(s) && 1 <= ep < NUM_ENDPOINTS && FlowInv(s, ep)
    ensures Shape(WriteState(s, offset, value)) && FlowInv(WriteState(s, offset, value), ep)
  {
    hide PushTxWord, WriteIn, WriteOut, WriteGlobal, Shape, FlowInv;
    match Decode(offset)
    case Fifo(other) => PushKeepsFlow(s, other, value, ep);
    case InReg(other, reg) => WriteInKeepsFlow(s, other, reg, value, ep);
    case OutReg(other, reg) => WriteOutKeepsFlow(s, other, reg, value, ep);
    case Global(o) => WriteGlobalKeepsFlow(s, o, value, ep);
  }

  lemma {:induction false} ForwardKeepsFlow(s: Otg, ep: nat)
    requires Shape(s) && s.bulkOut == Some(ep) && FlowInv(s, ep)
    ensures Shape(ForwardBulkOut(s)) && FlowInv(ForwardBulkOut(s), ep)
  {
    ForwardKeepsShape(s);
    if Forwards(s) {
      var u := BeforeQueueing(s);
      assert OutArms(u.history, ep) == OutArms(s.history, ep) && Payloads(u.history, ep) == Payloads(s.history, ep);
      assert OtgReceive.OutsQueued(u.history, ep) == OtgReceive.OutsQueued(s.history, ep);
      assert TakenBytes(u.history) == TakenBytes(s.history) + ForwardedPacket(s);
    }
  }

  lemma {:induction false} NextKeepsFlow(s: Otg, e: Event, ep: nat)
    requires Shape(s) && s.bulkOut == Some(ep) && FlowInv(s, ep)
    ensures Shape(Next(s, e)) && FlowInv(Next(s, e), ep)
  {
    hide ReadState, WriteState, ForwardBulkOut, Bit, SetFlag;
    NextKeepsShape(s, e);
    match e
    case FirmwareRead(offset) => ReadSameFlow(s, offset, ep);
    case FirmwareWrite(offset, value) => WriteKeepsFlow(s, offset, value, ep);
    case PollAt(irqEnabled, now) =>
      RefreshKeepsShape(s, irqEnabled);
      ResetFlow(s, ep);
      ForwardKeepsFlow(Sof(Refresh(s, irqEnabled), now), ep);
    case _ =>
  }

  lemma {:induction false} ResetFlow(s: Otg, ep: nat)
    requires Shape(s) && ep < NUM_ENDPOINTS
    ensures Shape(BusReset(s)) && FlowInv(BusReset(s), ep)
  {
  }

  lemma {:induction false} BulkOutIsFixed(s: Otg, e: Event)
    requires Shape(s)
    ensures Next(s, e).bulkOut == s.bulkOut
  {
    hide WriteState, Bit, SetFlag, Staged, Drained, Available, XferSize, StatusWord;
    match e
    case FirmwareWrite(offset, value) => WriteKeepsBulkOut(s, offset, value);
    case PollAt(irqEnabled, now) => RefreshKeepsShape(s, irqEnabled);
    case _ =>
  }

  lemma {:induction false} CompleteInKeepsBulkOut(s: Otg, ep: nat)
    requires Shape(s) && ep < NUM_ENDPOINTS
    ensures CompleteIn(s, ep).bulkOut == s.bulkOut
  {
  }

  lemma {:induction false} WriteKeepsBulkOut(s: Otg, offset: word, value: word)
    requires Shape(s)
    ensures WriteState(s, offset, value).bulkOut == s.bulkOut
  {
    hide CompleteIn, Unmask, Decode, Bit, AndNot, LeBytes, WritePlain, XferSize;
    match Decode(offset)
    case Fifo(ep) => CompleteInKeepsBulkOut(DisarmIn(AppendTxWord(s, ep, value), ep), ep);
    case InReg(ep, reg) => CompleteInKeepsBulkOut(DisarmIn(ArmIn(s, ep, value), ep), ep);
    case OutReg(ep, reg) =>
    case Global(o) =>
      UnmaskChangesOnlyInterrupts(s.(emptyMask := value), AndNot(value, s.emptyMask), NUM_ENDPOINTS);
  }

  /** A poll queues at most one bulk packet, only while the endpoint is armed, of 1
      to min(64, XFRSIZ) bytes: the front of what the host sent. It disarms the
      endpoint and leaves the rest of the transfer in XFRSIZ. */
  lemma {:induction false} PacketFitsTransfer(s: Otg, ep: nat)
    requires Shape(s) && s.bulkOut == Some(ep)
    ensures Shape(ForwardBulkOut(s))
    ensures var (t, before) := (ForwardBulkOut(s), s.epOut[ep]);
            if Forwards(s) then
              var bytes := ForwardedPacket(s);
              && Enabled(before) && 1 <= |bytes| <= BULK_PACKET && |bytes| <= XferSize(before)
              && bytes <= Available(s.bridge)
              && t.rxFifo == s.rxFifo + bytes && |t.rxStatus| == |s.rxStatus| + 2
              && OtgReceive.OutsQueued(t.history, ep) == OtgReceive.OutsQueued(s.history, ep) + 1
              && !Enabled(t.epOut[ep]) && XferSize(t.epOut[ep]) == XferSize(before) - |bytes|
            else
              && t.rxFifo == s.rxFifo && t.rxStatus == s.rxStatus && t.epOut == s.epOut && t.history == s.history
  {
    ForwardKeepsShape(s);
    if Forwards(s) {
      var u := BeforeQueueing(s);
      assert OtgReceive.OutsQueued(u.history, ep) == OtgReceive.OutsQueued(s.history, ep);
    }
  }

  /** Over any run of any firmware: since the last reset, bulk packets queued
      never exceed the DOEPCTL writes that armed the endpoint, and their
      payloads concatenate to the bytes taken from the bridge. */
  lemma {:induction false} OnePacketPerArm(bridge: Bridge, bulkIn: Option<nat>, ep: nat, events: seq<Event>)
    requires Shape(Start(bridge, bulkIn, Some(ep)))
    ensures var s := Run(Start(bridge, bulkIn, Some(ep)), events);
            && s.bulkOut == Some(ep) && FlowInv(s, ep)
            && OtgReceive.OutsQueued(s.history, ep) <= OutArms(s.history, ep)
            && Payloads(s.history, ep) == TakenBytes(s.history)
    decreases |events|
  {
    if events != [] {
      var t := Run(Start(bridge, bulkIn, Some(ep)), events[..|events| - 1]);
      OnePacketPerArm(bridge, bulkIn, ep, events[..|events| - 1]);
      NextKeepsFlow(t, events[|events| - 1], ep);
      BulkOutIsFixed(t, events[|events| - 1]);
    }
  }
}
