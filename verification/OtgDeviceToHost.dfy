/** The device-to-host direction across both modules: what a host reads in one
    session is what firmware's bulk IN transfers forwarded in that session. */
module OtgDeviceToHost {
  import opened Bits
  import opened ByteQueues
  import opened UsbCdcBridge
  import opened OtgModel
  import opened OtgRuns
  import opened OtgSession
  import CdcLink

  /** Beyond `given` bytes from before, the session's link holds what the controller
      gave it, up to the moment the host disconnected. */
  ghost predicate SessionGives(s: Otg, given: seq<byte>) {
    && s.bridge.Embedded?
    && given + s.bridge.link.up.written <= GivenBytes(s.history)
    && (s.bridge.link.connected ==> GivenBytes(s.history) == given + s.bridge.link.up.written)
  }

  /** Operations that forward nothing and do not open a session. */
  ghost predicate GivesNothing(s: Otg, t: Otg) {
    && GivenBytes(t.history) == GivenBytes(s.history)
    && (s.bridge.Embedded? ==>
          && t.bridge.Embedded? && t.bridge.link.up.written == s.bridge.link.up.written
          && (t.bridge.link.connected ==> s.bridge.link.connected))
  }

  lemma {:induction false} ScriptGivesNothing(s: Otg)
    ensures GivesNothing(s, Script(s))
  {
  }

  lemma {:induction false} AdvanceGivesNothing(s: Otg)
    ensures GivesNothing(s, Advance(s))
  {
    hide Script;
    ScriptGivesNothing(s);
  }

  /** A completion forwards the transfer, or nothing. */
  lemma {:induction false} CompleteInGives(s: Otg, ep: nat, given: seq<byte>)
    requires Shape(s) && ep < NUM_ENDPOINTS && SessionGives(s, given)
    ensures SessionGives(CompleteIn(s, ep), given)
  {
    hide Advance;
    var t := RaiseIn(s, ep, XFRC);
    assert GivesNothing(s, t);
    if ep == 0 {
      AdvanceGivesNothing(t.(txFifo := t.txFifo[0 := []]));
    } else if t.step == Configured && t.bulkIn == Some(ep) {
      var bytes := t.txFifo[ep][..Min(XferSize(t.epIn[ep]), |t.txFifo[ep]|)];
      var written := s.bridge.link.up.written;
      assert given + written + bytes == given + (written + bytes);
    }
  }

  lemma {:induction false} WriteOutCtlGivesNothing(s: Otg, ep: nat, value: word)
    requires Shape(s) && ep < NUM_ENDPOINTS
    ensures GivesNothing(s, WriteOutCtl(s, ep, value))
  {
    var t := Note(s.(epOut := s.epOut[ep := s.epOut[ep].(ctl := value)]), OutCtlWritten(ep, value));
    assert GivesNothing(s, t);
    assert GivesNothing(t, QueueSetup(t, 0, GET_DEVICE_DESCRIPTOR));
  }

  lemma {:induction false} ReadGivesNothing(s: Otg, offset: word)
    requires Shape(s)
    ensures GivesNothing(s, ReadState(s, offset))
  {
    if s.rxStatus != [] {
      assert s.rxStatus[0] in s.rxStatus;
      assert GivesNothing(s, Note(s.(rxStatus := s.rxStatus[1..]), StatusPopped(s.rxStatus[0])));
    }
  }

  lemma {:induction false} UnmaskGivesNothing(s: Otg, newly: word, n: nat)
    requires n <= NUM_ENDPOINTS && |s.epIn| == NUM_ENDPOINTS
    ensures GivesNothing(s, Unmask(s, newly, n))
  {
    if n != 0 {
      UnmaskGivesNothing(s, newly, n - 1);
    }
  }

  lemma {:induction false} WriteInGives(s: Otg, ep: nat, reg: nat, value: word, given: seq<byte>)
    requires Shape(s) && ep < NUM_ENDPOINTS && SessionGives(s, given)
    ensures SessionGives(WriteIn(s, ep, reg, value), given)
  {
    hide CompleteIn, ClearBit, SetFlag;
    var t := ArmIn(s, ep, value);
    assert GivesNothing(s, t);
    CompleteInGives(DisarmIn(t, ep), ep, given);
    assert GivesNothing(t, RaiseIn(t, ep, TXFE));
  }

  lemma {:induction false} WriteGlobalGives(s: Otg, o: word, value: word, given: seq<byte>)
    requires Shape(s) && SessionGives(s, given)
    ensures SessionGives(WriteGlobal(s, o, value), given)
  {
    hide Unmask, AndNot, WritePlain, Bit, SetFlag;
    UnmaskGivesNothing(s.(emptyMask := value), AndNot(value, s.emptyMask), NUM_ENDPOINTS);
  }

  lemma {:induction false} WriteGives(s: Otg, offset: word, value: word, given: seq<byte>)
    requires Shape(s) && SessionGives(s, given)
    ensures SessionGives(WriteState(s, offset, value), given)
  {
    hide CompleteIn, WriteOutCtl, WriteIn, WriteGlobal;
    match Decode(offset)
    case Fifo(ep) =>
      var t := AppendTxWord(s, ep, value);
      assert GivesNothing(s, t);
      CompleteInGives(DisarmIn(t, ep), ep, given);
    case InReg(ep, reg) => WriteInGives(s, ep, reg, value, given);
    case OutReg(ep, reg) => WriteOutCtlGivesNothing(s, ep, value);
    case Global(o) => WriteGlobalGives(s, o, value, given);
  }

  lemma {:induction false} ForwardGivesNothing(s: Otg)
    requires Shape(s)
    ensures GivesNothing(s, ForwardBulkOut(s))
  {
  }

  lemma {:induction false} NextGives(s: Otg, e: Event, given: seq<byte>)
    requires Shape(s) && SessionGives(s, given)
    requires !Resets(s, e)
    requires e.HostSide? ==> e.action != CdcLink.DoConnect
    ensures SessionGives(Next(s, e), given)
  {
    hide ReadState, WriteState, ForwardBulkOut, Bit, SetFlag;
    match e
    case FirmwareRead(offset) => ReadGivesNothing(s, offset);
    case FirmwareWrite(offset, value) => WriteGives(s, offset, value, given);
    case PollAt(irqEnabled, now) =>
      RefreshKeepsShape(s, irqEnabled);
      ForwardGivesNothing(Sof(Refresh(s, irqEnabled), now));
    case _ =>
  }

  lemma {:induction false} RunGives(s: Otg, events: seq<Event>, given: seq<byte>)
    requires Shape(s) && Undisturbed(s, events) && SessionGives(s, given) && SessionInv(s)
    ensures SessionGives(Run(s, events), given) && SessionInv(Run(s, events))
    decreases |events|
  {
    hide Next, SessionGives, SessionInv;
    if events != [] {
      var front, last := events[..|events| - 1], events[|events| - 1];
      RunGives(s, front, given);
      NextGives(Run(s, front), last, given);
      NextKeepsSession(Run(s, front), last);
    }
  }

  // ---- When the queue overflows ----

  /** What `b` has beyond `a`. */
  function Beyond(a: seq<byte>, b: seq<byte>): seq<byte> {
    if |a| <= |b| then b[|a|..] else []
  }

  /** Some forwarded bytes found less room in the link's queue than they needed. */
  function DeviceOverflowed(s: Otg, events: seq<Event>): bool
    requires Shape(s)
    decreases |events|
  {
    if events == [] then false
    else
      var (u, t) := (Run(s, events[..|events| - 1]), Run(s, events));
      || DeviceOverflowed(s, events[..|events| - 1])
      || (u.bridge.Embedded? && Overflows(u.bridge.link, Beyond(GivenBytes(u.history), GivenBytes(t.history))))
  }

  predicate Overflows(l: CdcLink.Link, bytes: seq<byte>) {
    l.connected && |l.deviceToHost| + |bytes| > l.capacity
  }

  ghost predicate LostFollows(s: Otg, t: Otg) {
    s.bridge.Embedded? ==>
      && t.bridge.Embedded?
      && t.bridge.link.up.lost
         == (s.bridge.link.up.lost || Overflows(s.bridge.link, Beyond(GivenBytes(s.history), GivenBytes(t.history))))
  }

  /** Nothing forwarded and the record of losses as it was. */
  ghost predicate NoLoss(s: Otg, t: Otg) {
    && GivenBytes(t.history) == GivenBytes(s.history)
    && (s.bridge.Embedded? ==> t.bridge.Embedded? && t.bridge.link.up.lost == s.bridge.link.up.lost)
  }

  lemma {:induction false} NoLossFollows(s: Otg, t: Otg)
    requires SessionInv(s) && NoLoss(s, t)
    ensures LostFollows(s, t)
  {
    hide GivenBytes, CdcLink.FlowInv;
  }

  /** Through a step that leaves link and transcript alone. */
  lemma {:induction false} ThenFollows(s: Otg, t: Otg, u: Otg)
    requires t.bridge == s.bridge && GivenBytes(t.history) == GivenBytes(s.history) && LostFollows(t, u)
    ensures LostFollows(s, u)
  {
    hide GivenBytes, Overflows;
  }

  lemma {:induction false} AdvanceNoLoss(s: Otg)
    ensures NoLoss(s, Advance(s))
  {
    hide Script;
    ScriptGivesNothing(s);
    ScriptKeepsBridge(s);
  }

  lemma {:induction false} ForwardLoss(s: Otg, ep: nat)
    requires ep < |s.epIn| && ep < |s.txFifo|
    ensures LostFollows(s, ForwardIn(s, ep))
  {
    var bytes := s.txFifo[ep][..Min(XferSize(s.epIn[ep]), |s.txFifo[ep]|)];
    hide XferSize;
    assert (GivenBytes(s.history) + bytes)[|GivenBytes(s.history)|..] == bytes;
  }

  lemma {:induction false} CompleteInLoss(s: Otg, ep: nat)
    requires Shape(s) && ep < NUM_ENDPOINTS && SessionInv(s)
    ensures LostFollows(s, CompleteIn(s, ep))
  {
    hide Advance, ForwardIn, SetFlag, LostFollows, CdcLink.LinkInv;
    var t := RaiseIn(s, ep, XFRC);
    assert GivenBytes(t.history) == GivenBytes(s.history);
    NoLossFollows(s, t);
    if ep == 0 {
      AdvanceNoLoss(t.(txFifo := t.txFifo[0 := []]));
      NoLossFollows(s, CompleteIn(s, ep));
    } else if t.step == Configured && t.bulkIn == Some(ep) {
      ForwardLoss(t, ep);
      ThenFollows(s, t, ForwardIn(t, ep));
    }
  }

  lemma {:induction false} PushLoss(s: Otg, ep: nat, value: word)
    requires Shape(s) && ep < NUM_ENDPOINTS && SessionInv(s)
    ensures LostFollows(s, PushTxWord(s, ep, value))
  {
    hide CompleteIn, LeBytes, Bit, XferSize, LostFollows;
    var t := DisarmIn(AppendTxWord(s, ep, value), ep);
    NoLossFollows(s, AppendTxWord(s, ep, value));
    CompleteInLoss(t, ep);
    ThenFollows(s, t, CompleteIn(t, ep));
  }

  lemma {:induction false} WriteInLoss(s: Otg, ep: nat, reg: nat, value: word)
    requires Shape(s) && ep < NUM_ENDPOINTS && SessionInv(s)
    ensures LostFollows(s, WriteIn(s, ep, reg, value))
  {
    hide CompleteIn, AndNot, Bit, SetFlag, XferSize, LostFollows;
    var t := ArmIn(s, ep, value);
    assert GivenBytes(t.history) == GivenBytes(s.history);
    var u := DisarmIn(t, ep);
    CompleteInLoss(u, ep);
    ThenFollows(s, u, CompleteIn(u, ep));
    if WriteIn(s, ep, reg, value) != CompleteIn(u, ep) {
      NoLossFollows(s, WriteIn(s, ep, reg, value));
    }
  }

  lemma {:induction false} WriteOutLoss(s: Otg, ep: nat, reg: nat, value: word)
    requires Shape(s) && ep < NUM_ENDPOINTS && SessionInv(s)
    ensures LostFollows(s, WriteOut(s, ep, reg, value))
  {
    hide AndNot, Bit, LostFollows, StatusWord;
    var t := Note(s.(epOut := s.epOut[ep := s.epOut[ep].(ctl := value)]), OutCtlWritten(ep, value));
    assert GivenBytes(t.history) == GivenBytes(s.history);
    NoLossFollows(s, WriteOut(s, ep, reg, value));
  }

  lemma {:induction false} MaskNoLoss(s: Otg, value: word)
    requires Shape(s)
    ensures NoLoss(s, WriteGlobal(s, 0x018, value))
  {
    hide Bit, AndNot, GivenBytes;
  }

  lemma {:induction false} EmptyMaskNoLoss(s: Otg, value: word)
    requires Shape(s)
    ensures NoLoss(s, WriteEmptyMask(s, value))
  {
    hide Unmask, AndNot, GivenBytes;
    UnmaskGivesNothing(s.(emptyMask := value), AndNot(value, s.emptyMask), NUM_ENDPOINTS);
    UnmaskChangesOnlyInterrupts(s.(emptyMask := value), AndNot(value, s.emptyMask), NUM_ENDPOINTS);
  }

  lemma {:induction false} WriteGlobalLoss(s: Otg, o: word, value: word)
    requires Shape(s) && SessionInv(s)
    ensures LostFollows(s, WriteGlobal(s, o, value))
  {
    hide WriteEmptyMask, AndNot, WritePlain, Staged, LostFollows, GivenBytes, SessionInv;
    MaskNoLoss(s, value);
    EmptyMaskNoLoss(s, value);
    NoLossFollows(s, WriteGlobal(s, o, value));
  }

  lemma {:induction false} WriteLoss(s: Otg, offset: word, value: word)
    requires Shape(s) && SessionInv(s)
    ensures LostFollows(s, WriteState(s, offset, value))
  {
    hide PushTxWord, WriteIn, WriteOut, WriteGlobal, LostFollows, SessionInv;
    match Decode(offset)
    case Fifo(ep) => PushLoss(s, ep, value);
    case InReg(ep, reg) => WriteInLoss(s, ep, reg, value);
    case OutReg(ep, reg) => WriteOutLoss(s, ep, reg, value);
    case Global(o) => WriteGlobalLoss(s, o, value);
  }

  lemma {:induction false} ReadNoLoss(s: Otg, offset: word)
    requires Shape(s)
    ensures NoLoss(s, ReadState(s, offset))
  {
    hide Decode, PopStatus;
    PopChangesOnlyInterrupts(s);
    assert GivenBytes(PopStatus(s).history) == GivenBytes(s.history);
  }

  lemma {:induction false} ForwardNoLoss(s: Otg)
    requires Shape(s)
    ensures NoLoss(s, ForwardBulkOut(s))
  {
    hide Bit, StatusWord, XferSize, ClearBit;
    if Forwards(s) {
      assert GivenBytes(BeforeQueueing(s).history) == GivenBytes(s.history);
    }
  }

  lemma {:induction false} PollNoLoss(s: Otg, irqEnabled: bool, now: long)
    requires Shape(s) && !Resets(s, PollAt(irqEnabled, now))
    ensures NoLoss(s, Poll(s, irqEnabled, now))
  {
    hide Bit, SetFlag, ForwardBulkOut, Attaching;
    RefreshKeepsShape(s, irqEnabled);
    ForwardNoLoss(Sof(Refresh(s, irqEnabled), now));
  }

  lemma {:induction false} NextLoss(s: Otg, e: Event)
    requires Shape(s) && SessionInv(s) && !Resets(s, e) && (e.HostSide? ==> e.action != CdcLink.DoConnect)
    ensures LostFollows(s, Next(s, e))
  {
    hide WriteState, ReadState, Poll, LostFollows, CdcLink.LinkInv;
    match e
    case FirmwareRead(offset) =>
      ReadNoLoss(s, offset);
      NoLossFollows(s, Next(s, e));
    case FirmwareWrite(offset, value) => WriteLoss(s, offset, value);
    case PollAt(irqEnabled, now) =>
      PollNoLoss(s, irqEnabled, now);
      NoLossFollows(s, Next(s, e));
    case HostSide(a) =>
      if s.bridge.Embedded? {
        CdcLink.UpRecord(s.bridge.link, a);
      }
      hide CdcLink.Apply;
      NoLossFollows(s, Next(s, e));
    case _ => NoLossFollows(s, Next(s, e));
  }

  lemma {:induction false} LossIsExact(s: Otg, events: seq<Event>)
    requires Shape(s) && SessionInv(s) && s.bridge.Embedded? && Undisturbed(s, events)
    ensures var u := Run(s, events);
            && SessionInv(u) && u.bridge.Embedded?
            && u.bridge.link.up.lost == (s.bridge.link.up.lost || DeviceOverflowed(s, events))
    decreases |events|
  {
    hide Next, SessionInv, Resets, Overflows, GivenBytes, Shape;
    if events != [] {
      var (front, last) := (events[..|events| - 1], events[|events| - 1]);
      LossIsExact(s, front);
      NextLoss(Run(s, front), last);
      NextKeepsSession(Run(s, front), last);
    }
  }

  // ---- End to end ----

  /** End to end: whatever firmware does in a session, the bytes the host's reads return
      in it are an in-order subsequence of those the controller forwarded for firmware
      since the host connected. As long as the queue never overflowed they are a prefix
      of them, and while the host stays connected, with what waits in the link, all. */
  lemma {:induction false} FirmwareBytesReachHost(s: Otg, events: seq<Event>)
    requires Shape(s) && SessionInv(s)
    requires s.bridge.Embedded? && s.bridge.link.stage == CdcLink.ProtocolReady
    requires var t := Next(s, HostSide(CdcLink.DoConnect));
             Shape(t) && Undisturbed(t, events)
    ensures var t := Next(s, HostSide(CdcLink.DoConnect));
            var u := Run(t, events);
            && u.bridge.Embedded? && GivenBytes(s.history) <= GivenBytes(u.history)
            && Serves(GivenBytes(u.history)[|GivenBytes(s.history)|..], HostRead(t, events), u.bridge.link.deviceToHost,
                      u.bridge.link.connected, DeviceOverflowed(t, events))
  {
    var t := Next(s, HostSide(CdcLink.DoConnect));
    NextKeepsSession(s, HostSide(CdcLink.DoConnect));
    var base := GivenBytes(s.history);
    assert base + [] == base && t.bridge.link.up == CdcLink.Flow([], [], false);
    RunGives(t, events, base);
    HostRecordIsExact(t, events);
    LossIsExact(t, events);
    var u := Run(t, events);
    hide Next, Run, Undisturbed, Shape, HostWrote, HostOverflowed, HostRead, DeviceOverflowed, Subsequence, GivenBytes;
    LinkServes(u, base);
    assert [] + HostRead(t, events) == HostRead(t, events);
  }

  /** What a session serves: `forwarded` to the link, `read` by the host, `queued`. */
  ghost predicate Serves(forwarded: seq<byte>, read: seq<byte>, queued: seq<byte>, open: bool, overflowed: bool) {
    && Subsequence(read, forwarded)
    && (!overflowed ==> read <= forwarded && (open ==> read + queued == forwarded))
  }

  lemma {:induction false} LinkServes(u: Otg, base: seq<byte>)
    requires SessionGives(u, base) && SessionInv(u)
    ensures base <= GivenBytes(u.history)
    ensures Serves(GivenBytes(u.history)[|base|..], u.bridge.link.up.read, u.bridge.link.deviceToHost,
                   u.bridge.link.connected, u.bridge.link.up.lost)
  {
    hide Subsequence, GivenBytes;
    var (all, written) := (GivenBytes(u.history), u.bridge.link.up.written);
    var forwarded := all[|base|..];
    PrefixSplits(base, written, all);
    SubsequenceSkips(u.bridge.link.up.read, written, forwarded[|written|..]);
  }

  lemma {:induction false} PrefixSplits(base: seq<byte>, written: seq<byte>, all: seq<byte>)
    requires base + written <= all
    ensures base <= all && written <= all[|base|..]
    ensures written + all[|base|..][|written|..] == all[|base|..]
    ensures all == base + written ==> all[|base|..] == written
  {
    assert forall i :: 0 <= i < |base| ==> (base + written)[i] == base[i];
    assert forall i :: 0 <= i < |written| ==> (base + written)[|base| + i] == written[i];
  }
}
