/** Bulk IN round trip: the words firmware pushes for an armed transfer reach the
    bridge as exactly the payload bytes, once, when the last word is pushed. */
module OtgBulkIn {
  import opened Bits
  import opened ByteQueues
  import opened UsbCdcBridge
  import opened OtgModel
  import opened OtgRuns
  import opened OtgSession

  /** XFRC interrupts raised for an IN endpoint. */
  function InCompletions(h: History, ep: nat): nat {
    match h
    case After(p, InRaised(e, flag)) => InCompletions(p, ep) + if e == ep && flag == XFRC then 1 else 0
    case After(p, _) => InCompletions(p, ep)
    case Nothing => 0
  }

  /** Words needed for `n` bytes. */
  function Words(n: nat): nat {
    (n + 3) / 4
  }

  /** The `k`-th word firmware pushes carries the `k`-th group of payload bytes;
      the padding of the last word is arbitrary. */
  predicate CarriesGroup(payload: seq<byte>, k: nat, value: word) {
    4 * k < |payload| &&
    var n := Min(4, |payload| - 4 * k);
    LeBytes(value)[..n] == payload[4 * k..4 * k + n]
  }

  /** What was there before the transfer was armed. */
  datatype Before = Before(given: seq<byte>, completions: nat)

  /** A transfer of `payload` on endpoint `ep` after `k` of its words. */
  ghost predicate InFlight(s: Otg, ep: nat, payload: seq<byte>, k: nat, b: Before)
    requires Shape(s)
  {
    && s.step == Configured && s.bulkIn == Some(ep) && 1 <= ep < NUM_ENDPOINTS
    && k < Words(|payload|)
    && Enabled(s.epIn[ep])
    && XferSize(s.epIn[ep]) == |payload|
    && s.epIn[ep].sent == 4 * k
    && s.txFifo[ep] == payload[..4 * k]
    && GivenBytes(s.history) == b.given
    && InCompletions(s.history, ep) == b.completions
  }

  /** The transfer is over. */
  ghost predicate Completed(s: Otg, ep: nat, payload: seq<byte>, b: Before)
    requires Shape(s)
  {
    && s.step == Configured && s.bulkIn == Some(ep) && 1 <= ep < NUM_ENDPOINTS
    && !Enabled(s.epIn[ep])
    && s.txFifo[ep] == []
    && GivenBytes(s.history) == b.given + payload
    && InCompletions(s.history, ep) == b.completions + 1
  }

  /** The transfer after `k` words, in flight or over. */
  ghost predicate Progress(s: Otg, ep: nat, payload: seq<byte>, k: nat, b: Before)
    requires Shape(s)
  {
    if k < Words(|payload|) then InFlight(s, ep, payload, k, b)
    else k == Words(|payload|) && Completed(s, ep, payload, b)
  }

  /** Arming an empty endpoint starts a transfer. */
  lemma {:induction false} ArmStarts(s: Otg, ep: nat, payload: seq<byte>, ctl: word)
    requires Shape(s) && s.step == Configured && s.bulkIn == Some(ep) && 1 <= ep < NUM_ENDPOINTS
    requires 0 < |payload| && XferSize(s.epIn[ep]) == |payload|
    requires s.txFifo[ep] == [] && !Enabled(s.epIn[ep]) && Bit(ctl, EPENA)
    ensures Shape(WriteIn(s, ep, EP_CTL, ctl))
    ensures InFlight(WriteIn(s, ep, EP_CTL, ctl), ep, payload, 0,
                     Before(GivenBytes(s.history), InCompletions(s.history, ep)))
  {
    hide CompleteIn;
    var t := ArmIn(s, ep, ctl);
    assert GivenBytes(t.history) == GivenBytes(s.history)
           && InCompletions(t.history, ep) == InCompletions(s.history, ep);
    assert payload[..0] == [];
  }

  /** A word that does not finish the transfer is only buffered. */
  lemma {:induction false} WordBuffered(s: Otg, ep: nat, payload: seq<byte>, k: nat, b: Before, value: word)
    requires Shape(s) && InFlight(s, ep, payload, k, b) && CarriesGroup(payload, k, value)
    requires k + 1 < Words(|payload|)
    ensures Shape(PushTxWord(s, ep, value)) && InFlight(PushTxWord(s, ep, value), ep, payload, k + 1, b)
  {
    hide CompleteIn;
    assert LeBytes(value) == payload[4 * k..4 * k + 4];
    assert payload[..4 * k] + payload[4 * k..4 * k + 4] == payload[..4 * (k + 1)];
  }

  /** The bytes forwarded when the last word arrives. */
  lemma {:induction false} LastWordCompletesPayload(payload: seq<byte>, k: nat, value: word)
    requires CarriesGroup(payload, k, value) && k + 1 == Words(|payload|)
    ensures |payload| <= 4 * k + 4
    ensures (payload[..4 * k] + LeBytes(value))[..|payload|] == payload
  {
    var n := |payload| - 4 * k;
    assert LeBytes(value)[..n] == payload[4 * k..];
    assert (payload[..4 * k] + LeBytes(value))[..|payload|] == payload[..4 * k] + LeBytes(value)[..n];
  }

  /** Completing a full bulk endpoint forwards the FIFO up to the transfer size. */
  lemma {:induction false} CompletionForwards(s: Otg, ep: nat, n: nat)
    requires Shape(s) && s.step == Configured && s.bulkIn == Some(ep) && 1 <= ep < NUM_ENDPOINTS
    requires XferSize(s.epIn[ep]) == n && n <= |s.txFifo[ep]|
    ensures var (t, bytes) := (CompleteIn(s, ep), s.txFifo[ep][..n]);
            && Shape(t) && t.step == Configured && t.bulkIn == Some(ep)
            && t.txFifo[ep] == [] && t.epIn[ep].ctl == s.epIn[ep].ctl
            && GivenBytes(t.history) == GivenBytes(s.history) + bytes
            && InCompletions(t.history, ep) == InCompletions(s.history, ep) + 1
            && t.bridge == Forwarded(s.bridge, bytes)
            && t.pendingBridgeWrites == s.pendingBridgeWrites + (if s.bridge.NoBridge? then bytes else [])
  {
    var t := RaiseIn(s, ep, XFRC);
    assert InCompletions(t.history, ep) == InCompletions(s.history, ep) + 1;
    assert GivenBytes(t.history) == GivenBytes(s.history);
    assert s.pendingBridgeWrites + [] == s.pendingBridgeWrites;
  }

  /** The last word forwards exactly the payload, without the padding, raises
      XFRC once and disarms the endpoint. */
  lemma {:induction false} LastWordForwards(s: Otg, ep: nat, payload: seq<byte>, k: nat, b: Before, value: word)
    requires Shape(s) && InFlight(s, ep, payload, k, b) && CarriesGroup(payload, k, value)
    requires k + 1 == Words(|payload|)
    ensures var t := PushTxWord(s, ep, value);
            && Shape(t) && Completed(t, ep, payload, b)
            && t.bridge == Forwarded(s.bridge, payload)
            && t.pendingBridgeWrites == s.pendingBridgeWrites + (if s.bridge.NoBridge? then payload else [])
  {
    hide CompleteIn, LeBytes, Bit, ClearBit;
    LastWordCompletesPayload(payload, k, value);
    var t := DisarmIn(AppendTxWord(s, ep, value), ep);
    assert t.txFifo[ep] == payload[..4 * k] + LeBytes(value);
    CompletionForwards(t, ep, |payload|);
  }

  // ---- Interleaving ----

  /** Events that leave the endpoint's transfer alone: anything but pushes to its FIFO, a
      bus reset, and writes to its registers that change EPENA or, while a transfer is
      on, its size. */
  predicate Quiet(s: Otg, e: Event, ep: nat)
    requires ep < |s.epIn|
  {
    && !Resets(s, e)
    && (e.FirmwareWrite? ==>
          && Decode(e.offset) != Fifo(ep)
          && (Decode(e.offset).InReg? && Decode(e.offset).ep == ep ==>
              QuietWrite(s, Decode(e.offset).reg, e.value, ep)))
  }

  predicate QuietWrite(s: Otg, reg: nat, value: word, ep: nat)
    requires ep < |s.epIn|
  {
    && (reg == EP_CTL ==> (Bit(value, EPENA) <==> Enabled(s.epIn[ep])))
    && (reg == EP_TSIZ && Enabled(s.epIn[ep]) ==> XferSize(s.epIn[ep].(tsiz := value)) == XferSize(s.epIn[ep]))
  }

  ghost predicate SameTransfer(s: Otg, t: Otg, ep: nat)
    requires ep < |s.epIn| && ep < |t.epIn| && ep < |s.txFifo| && ep < |t.txFifo|
  {
    && (s.step == Configured ==> t.step == Configured) && t.bulkIn == s.bulkIn
    && Enabled(t.epIn[ep]) == Enabled(s.epIn[ep])
    && (Enabled(s.epIn[ep]) ==> XferSize(t.epIn[ep]) == XferSize(s.epIn[ep]) && t.epIn[ep].sent == s.epIn[ep].sent)
    && t.txFifo[ep] == s.txFifo[ep]
    && GivenBytes(t.history) == GivenBytes(s.history)
    && InCompletions(t.history, ep) == InCompletions(s.history, ep)
  }

  lemma {:induction false} SetupSameTransfer(s: Otg, packet: seq<byte>, ep: nat)
    requires ep < |s.epIn| && ep < |s.txFifo|
    ensures SameTransfer(s, QueueSetup(s, 0, packet), ep)
  {
    hide Bit, StatusWord;
  }

  lemma {:induction false} OutSameTransfer(s: Otg, data: seq<byte>, ep: nat)
    requires ep < |s.epIn| && ep < |s.txFifo| && |data| < 0x2000
    ensures SameTransfer(s, QueueOut(s, 0, data), ep)
  {
    hide Bit, StatusWord;
  }

  lemma {:induction false} ScriptSameTransfer(s: Otg, ep: nat)
    requires ep < |s.epIn| && ep < |s.txFifo|
    ensures Script(s).epIn == s.epIn && Script(s).txFifo == s.txFifo && Script(s).step == s.step
    ensures SameTransfer(s, Script(s), ep)
  {
    hide Bit, StatusWord, XferSize;
    match s.step
    case AwaitingDeviceDescriptor =>
      OutSameTransfer(s, [], ep);
      SetupSameTransfer(QueueOut(s, 0, []), SET_ADDRESS, ep);
    case AwaitingSetConfigurationStatus =>
      SetupSameTransfer(s, SET_LINE_CODING, ep);
      OutSameTransfer(QueueSetup(s, 0, SET_LINE_CODING), LINE_CODING, ep);
    case _ =>
  }

  lemma {:induction false} OtherCompletion(s: Otg, other: nat, ep: nat)
    requires Shape(s) && s.bulkIn == Some(ep) && other < NUM_ENDPOINTS && ep != other
    ensures Shape(CompleteIn(s, other)) && SameTransfer(s, CompleteIn(s, other), ep)
  {
    hide Script, Bit, SetFlag, XferSize, StageOf;
    CompleteInKeepsShape(s, other);
    var t := RaiseIn(s, other, XFRC);
    assert SameTransfer(s, t, ep);
    if other == 0 {
      ScriptSameTransfer(t.(txFifo := t.txFifo[0 := []]), ep);
    }
  }

  lemma {:induction false} UnmaskSameTransfer(s: Otg, newly: word, n: nat, ep: nat)
    requires Shape(s) && n <= NUM_ENDPOINTS && ep < NUM_ENDPOINTS
    ensures Shape(Unmask(s, newly, n)) && SameTransfer(s, Unmask(s, newly, n), ep)
  {
    hide Bit, SetFlag;
    UnmaskChangesOnlyInterrupts(s, newly, n);
    if n != 0 {
      UnmaskSameTransfer(s, newly, n - 1, ep);
      UnmaskChangesOnlyInterrupts(s, newly, n - 1);
      var u := Note(Unmask(s, newly, n - 1), InUnmasked(n - 1));
      assert SameTransfer(s, u, ep);
    }
  }

  lemma {:induction false} WriteInSameTransfer(s: Otg, other: nat, reg: nat, value: word, ep: nat)
    requires Shape(s) && s.bulkIn == Some(ep) && other < NUM_ENDPOINTS
    requires other == ep ==> QuietWrite(s, reg, value, ep)
    ensures Shape(WriteIn(s, other, reg, value)) && SameTransfer(s, WriteIn(s, other, reg, value), ep)
  {
    hide CompleteIn, AndNot, Bit, SetFlag;
    WriteInCtlKeepsShape(s, other, value);
    if other != ep {
      var t := ArmIn(s, other, value);
      assert SameTransfer(s, t, ep);
      OtherCompletion(DisarmIn(t, other), other, ep);
    }
  }

  lemma {:induction false} PushSameTransfer(s: Otg, other: nat, value: word, ep: nat)
    requires Shape(s) && s.bulkIn == Some(ep) && other < NUM_ENDPOINTS && other != ep
    ensures Shape(PushTxWord(s, other, value)) && SameTransfer(s, PushTxWord(s, other, value), ep)
  {
    hide CompleteIn;
    OtherCompletion(DisarmIn(AppendTxWord(s, other, value), other), other, ep);
  }

  lemma {:induction false} WriteOutSameTransfer(s: Otg, other: nat, reg: nat, value: word, ep: nat)
    requires Shape(s) && other < NUM_ENDPOINTS && ep < NUM_ENDPOINTS
    ensures Shape(WriteOut(s, other, reg, value)) && SameTransfer(s, WriteOut(s, other, reg, value), ep)
  {
    hide Bit, AndNot, XferSize, QueueSetup;
    WriteOutCtlKeepsShape(s, other, value);
    var t := Note(s.(epOut := s.epOut[other := s.epOut[other].(ctl := value)]), OutCtlWritten(other, value));
    assert SameTransfer(s, t, ep);
    SetupSameTransfer(t, GET_DEVICE_DESCRIPTOR, ep);
  }

  lemma {:induction false} WriteGlobalSameTransfer(s: Otg, o: word, value: word, ep: nat)
    requires Shape(s) && ep < NUM_ENDPOINTS
    ensures Shape(WriteGlobal(s, o, value)) && SameTransfer(s, WriteGlobal(s, o, value), ep)
  {
    hide Unmask;
    UnmaskSameTransfer(s.(emptyMask := value), AndNot(value, s.emptyMask), NUM_ENDPOINTS, ep);
  }

  lemma {:induction false} ReadSameTransfer(s: Otg, offset: word, ep: nat)
    requires Shape(s) && ep < NUM_ENDPOINTS
    ensures Shape(ReadState(s, offset)) && SameTransfer(s, ReadState(s, offset), ep)
  {
    hide Bit, Decode, PopStatus;
    PopStatusKeepsShape(s);
    PopChangesOnlyInterrupts(s);
    assert GivenBytes(PopStatus(s).history) == GivenBytes(s.history);
    assert InCompletions(PopStatus(s).history, ep) == InCompletions(s.history, ep);
  }

  lemma {:induction false} ForwardSameTransfer(s: Otg, ep: nat)
    requires Shape(s) && ep < NUM_ENDPOINTS
    ensures Shape(ForwardBulkOut(s)) && SameTransfer(s, ForwardBulkOut(s), ep)
  {
    ForwardKeepsShape(s);
    if Forwards(s) {
      assert SameTransfer(s, BeforeQueueing(s), ep);
    }
  }

  lemma {:induction false} QuietKeepsTransfer(s: Otg, e: Event, ep: nat)
    requires Shape(s) && s.bulkIn == Some(ep) && Quiet(s, e, ep)
    ensures Shape(Next(s, e)) && SameTransfer(s, Next(s, e), ep)
  {
    hide PushTxWord, WriteIn, WriteOut, WriteGlobal, ReadState, ForwardBulkOut, Bit, SetFlag, Decode, QuietWrite,
         XferSize;
    match e
    case FirmwareRead(offset) => ReadSameTransfer(s, offset, ep);
    case FirmwareWrite(offset, value) =>
      match Decode(offset) {
        case Fifo(other) => PushSameTransfer(s, other, value, ep);
        case InReg(other, reg) => WriteInSameTransfer(s, other, reg, value, ep);
        case OutReg(other, reg) => WriteOutSameTransfer(s, other, reg, value, ep);
        case Global(o) => WriteGlobalSameTransfer(s, o, value, ep);
      }
    case PollAt(irqEnabled, now) =>
      RefreshKeepsShape(s, irqEnabled);
      ForwardSameTransfer(Sof(Refresh(s, irqEnabled), now), ep);
    case _ =>
  }

  predicate Pushes(e: Event, ep: nat) {
    e.FirmwareWrite? && Decode(e.offset) == Fifo(ep)
  }

  function PushCount(events: seq<Event>, ep: nat): nat
    decreases |events|
  {
    if events == [] then 0
    else PushCount(events[..|events| - 1], ep) + if Pushes(events[|events| - 1], ep) then 1 else 0
  }

  /** Firmware pushes the payload's words in order and no more, interleaved with
      any quiet events. */
  ghost predicate PushesPayload(s: Otg, events: seq<Event>, ep: nat, payload: seq<byte>)
    requires Shape(s) && ep < NUM_ENDPOINTS
    decreases |events|
  {
    events != [] ==>
      var front, e := events[..|events| - 1], events[|events| - 1];
      && PushesPayload(s, front, ep, payload)
      && if Pushes(e, ep) then CarriesGroup(payload, PushCount(front, ep), e.value) else Quiet(Run(s, front), e, ep)
  }

  /** Bulk IN round trip: after any interleaving that has pushed `k` words of an
      armed `n`-byte transfer, nothing has been forwarded and XFRC not been
      raised while k < ceil(n/4); at k = ceil(n/4) exactly the payload has been
      forwarded and XFRC raised exactly once. */
  lemma {:induction false} BulkInRoundTrip(s: Otg, events: seq<Event>, ep: nat, payload: seq<byte>, b: Before)
    requires Shape(s) && ep < NUM_ENDPOINTS && InFlight(s, ep, payload, 0, b) && PushesPayload(s, events, ep, payload)
    ensures Progress(Run(s, events), ep, payload, PushCount(events, ep), b)
    decreases |events|
  {
    if events != [] {
      var front, e := events[..|events| - 1], events[|events| - 1];
      BulkInRoundTrip(s, front, ep, payload, b);
      var t, k := Run(s, front), PushCount(front, ep);
      if !Pushes(e, ep) {
        QuietKeepsTransfer(t, e, ep);
      } else if k + 1 < Words(|payload|) {
        WordBuffered(t, ep, payload, k, b, e.value);
      } else {
        LastWordForwards(t, ep, payload, k, b, e.value);
      }
    }
  }
}
