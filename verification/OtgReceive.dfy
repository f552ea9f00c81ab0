/** Conservation in the receive path: whatever firmware does, the status queue
    and the RX FIFO hold exactly the packets queued since the last bus reset
    that firmware has not read, and an endpoint completion interrupt is raised
    exactly when its completion status is popped. */
module OtgReceive {
  import opened Bits
  import opened ByteQueues
  import opened UsbCdcBridge
  import opened OtgModel
  import opened OtgRuns

  // ---- Transcripts read off the history ----

  /** Every status word queued: a data status and its completion per packet. */
  function QueuedWords(h: History): seq<word> {
    match h
    case After(p, SetupQueued(ep, _)) =>
      if ep < 16 then QueuedWords(p) + [StatusWord(SETUP_DATA, 8, ep), StatusWord(SETUP_COMP, 0, ep)]
      else QueuedWords(p)
    case After(p, OutQueued(ep, data)) =>
      if ep < 16 && |data| < 0x2000
      then QueuedWords(p) + [StatusWord(OUT_DATA, |data|, ep), StatusWord(OUT_COMP, 0, ep)] else QueuedWords(p)
    case After(p, _) => QueuedWords(p)
    case Nothing => []
  }

  function QueuedBytes(h: History): seq<byte> {
    match h
    case After(p, SetupQueued(_, packet)) => QueuedBytes(p) + packet
    case After(p, OutQueued(_, data)) => QueuedBytes(p) + data
    case After(p, _) => QueuedBytes(p)
    case Nothing => []
  }

  function PoppedWords(h: History): seq<word> {
    match h
    case After(p, StatusPopped(w)) => PoppedWords(p) + [w]
    case After(p, _) => PoppedWords(p)
    case Nothing => []
  }

  function PoppedBytes(h: History): seq<byte> {
    match h
    case After(p, FifoPopped(bytes)) => PoppedBytes(p) + bytes
    case After(p, _) => PoppedBytes(p)
    case Nothing => []
  }

  /** The OUT endpoint interrupts raised, as (endpoint, flag) pairs. */
  function OutRaises(h: History): seq<(nat, nat)> {
    match h
    case After(p, OutRaised(ep, flag)) => OutRaises(p) + [(ep, flag)]
    case After(p, _) => OutRaises(p)
    case Nothing => []
  }

  /** The interrupt a status word stands for when it is popped. */
  function CompletionOf(w: word): seq<(nat, nat)> {
    if PacketStatus(w) == SETUP_COMP then [(EndpointNumber(w), STUP)]
    else if PacketStatus(w) == OUT_COMP then [(EndpointNumber(w), XFRC)]
    else []
  }

  function CompletionsOf(words: seq<word>): seq<(nat, nat)> {
    if words == [] then [] else CompletionsOf(words[..|words| - 1]) + CompletionOf(words[|words| - 1])
  }

  /** Setup packets are 8 bytes and no payload overflows the BCNT field. */
  ghost predicate Sane(h: History) {
    match h
    case After(p, SetupQueued(ep, packet)) => Sane(p) && ep < NUM_ENDPOINTS && |packet| == 8
    case After(p, OutQueued(ep, data)) => Sane(p) && ep < NUM_ENDPOINTS && |data| <= BULK_PACKET
    case After(p, _) => Sane(p)
    case Nothing => true
  }

  ghost predicate Received(h: History, status: seq<word>, fifo: seq<byte>) {
    && Sane(h)
    && QueuedWords(h) == PoppedWords(h) + status
    && QueuedBytes(h) == PoppedBytes(h) + fifo
    && OutRaises(h) == CompletionsOf(PoppedWords(h))
  }

  ghost predicate ReceiveInv(s: Otg) {
    Received(s.history, s.rxStatus, s.rxFifo)
  }

  // ---- Each operation keeps it ----

  /** A packet grows both queues by what it adds to the transcripts. */
  lemma {:induction false} PacketKeepsReceived(h: History, e: Entry, status: seq<word>, fifo: seq<byte>,
                                               words: seq<word>, bytes: seq<byte>)
    requires Received(h, status, fifo) && Sane(After(h, e)) && (e.SetupQueued? || e.OutQueued?)
    requires QueuedWords(After(h, e)) == QueuedWords(h) + words && QueuedBytes(After(h, e)) == QueuedBytes(h) + bytes
    ensures Received(After(h, e), status + words, fifo + bytes)
  {
    hide QueuedWords, QueuedBytes, CompletionsOf, Sane;
    assert (PoppedWords(h) + status) + words == PoppedWords(h) + (status + words);
    assert (PoppedBytes(h) + fifo) + bytes == PoppedBytes(h) + (fifo + bytes);
  }

  lemma {:induction false} SetupKeepsReceive(s: Otg, ep: nat, packet: seq<byte>)
    requires ReceiveInv(s) && ep < NUM_ENDPOINTS && |packet| == 8
    ensures ReceiveInv(QueueSetup(s, ep, packet))
  {
    hide StatusWord, PoppedWords, PoppedBytes, OutRaises, CompletionsOf;
    var words := [StatusWord(SETUP_DATA, 8, ep), StatusWord(SETUP_COMP, 0, ep)];
    PacketKeepsReceived(s.history, SetupQueued(ep, packet), s.rxStatus, s.rxFifo, words, packet);
  }

  lemma {:induction false} OutKeepsReceive(s: Otg, ep: nat, data: seq<byte>)
    requires ReceiveInv(s) && ep < NUM_ENDPOINTS && |data| <= BULK_PACKET
    ensures ReceiveInv(QueueOut(s, ep, data))
  {
    hide StatusWord, PoppedWords, PoppedBytes, OutRaises, CompletionsOf;
    var words := [StatusWord(OUT_DATA, |data|, ep), StatusWord(OUT_COMP, 0, ep)];
    PacketKeepsReceived(s.history, OutQueued(ep, data), s.rxStatus, s.rxFifo, words, data);
  }

  lemma {:induction false} AdvanceKeepsReceive(s: Otg)
    requires ReceiveInv(s)
    ensures ReceiveInv(Advance(s))
  {
    match s.step
    case AwaitingDeviceDescriptor =>
      OutKeepsReceive(s, 0, []);
      SetupKeepsReceive(QueueOut(s, 0, []), 0, SET_ADDRESS);
    case AwaitingSetAddressStatus => SetupKeepsReceive(s, 0, SET_CONFIGURATION);
    case AwaitingSetConfigurationStatus =>
      SetupKeepsReceive(s, 0, SET_LINE_CODING);
      OutKeepsReceive(QueueSetup(s, 0, SET_LINE_CODING), 0, LINE_CODING);
    case AwaitingSetLineCodingStatus => SetupKeepsReceive(s, 0, SET_CONTROL_LINE_STATE);
    case _ =>
  }

  /** Entries that neither queue nor pop nor raise an OUT interrupt. */
  lemma {:induction false} QuietEntry(h: History, e: Entry, status: seq<word>, fifo: seq<byte>)
    requires Received(h, status, fifo)
    requires e.InRaised? || e.InArmed? || e.InUnmasked? || e.OutCtlWritten? || e.TakenFromBridge? || e.GivenToBridge?
    ensures Received(After(h, e), status, fifo)
  {
  }

  lemma {:induction false} CompleteInKeepsReceive(s: Otg, ep: nat)
    requires Shape(s) && ReceiveInv(s) && ep < NUM_ENDPOINTS
    ensures ReceiveInv(CompleteIn(s, ep))
  {
    var t := RaiseIn(s, ep, XFRC);
    QuietEntry(s.history, InRaised(ep, XFRC), s.rxStatus, s.rxFifo);
    if ep == 0 {
      AdvanceKeepsReceive(t.(txFifo := t.txFifo[0 := []]));
    } else if t.step == Configured && t.bulkIn == Some(ep) {
      var bytes := t.txFifo[ep][..Min(XferSize(t.epIn[ep]), |t.txFifo[ep]|)];
      QuietEntry(t.history, GivenToBridge(bytes), t.rxStatus, t.rxFifo);
    }
  }

  lemma {:induction false} WriteInCtlKeepsReceive(s: Otg, ep: nat, value: word)
    requires Shape(s) && ReceiveInv(s) && ep < NUM_ENDPOINTS
    ensures ReceiveInv(WriteInCtl(s, ep, value))
  {
    if Bit(value, EPENA) && !Enabled(s.epIn[ep]) {
      var t := ArmIn(s, ep, value);
      QuietEntry(s.history, InArmed(ep), s.rxStatus, s.rxFifo);
      if XferSize(s.epIn[ep]) == 0 {
        CompleteInKeepsReceive(DisarmIn(t, ep), ep);
      } else if Bit(s.emptyMask, ep) {
        QuietEntry(t.history, InRaised(ep, TXFE), s.rxStatus, s.rxFifo);
      }
    }
  }

  lemma {:induction false} WriteOutCtlKeepsReceive(s: Otg, ep: nat, value: word)
    requires Shape(s) && ReceiveInv(s) && ep < NUM_ENDPOINTS
    ensures ReceiveInv(WriteOutCtl(s, ep, value))
  {
    var t := Note(s.(epOut := s.epOut[ep := s.epOut[ep].(ctl := value)]), OutCtlWritten(ep, value));
    QuietEntry(s.history, OutCtlWritten(ep, value), s.rxStatus, s.rxFifo);
    SetupKeepsReceive(t, 0, GET_DEVICE_DESCRIPTOR);
  }

  lemma {:induction false} UnmaskKeepsReceive(s: Otg, newly: word, n: nat)
    requires ReceiveInv(s) && n <= NUM_ENDPOINTS && |s.epIn| == NUM_ENDPOINTS
    ensures ReceiveInv(Unmask(s, newly, n))
  {
    if n != 0 {
      UnmaskKeepsReceive(s, newly, n - 1);
      UnmaskChangesOnlyInterrupts(s, newly, n - 1);
      var h := Unmask(s, newly, n - 1).history;
      QuietEntry(h, InUnmasked(n - 1), s.rxStatus, s.rxFifo);
      QuietEntry(After(h, InUnmasked(n - 1)), InRaised(n - 1, TXFE), s.rxStatus, s.rxFifo);
    }
  }

  lemma {:induction false} CompletionsAppend(words: seq<word>, w: word)
    ensures CompletionsOf(words + [w]) == CompletionsOf(words) + CompletionOf(w)
  {
    assert (words + [w])[..|words + [w]| - 1] == words;
  }

  /** Popping a word, and raising the interrupt it stands for if any. */
  lemma {:induction false} PopKeepsReceived(h: History, status: seq<word>, fifo: seq<byte>, raised: seq<(nat, nat)>)
    requires Received(h, status, fifo) && status != [] && CompletionOf(status[0]) == raised
    ensures raised == [] ==> Received(After(h, StatusPopped(status[0])), status[1..], fifo)
    ensures |raised| == 1 ==>
              Received(After(After(h, StatusPopped(status[0])), OutRaised(raised[0].0, raised[0].1)), status[1..], fifo)
  {
    var w, rest := status[0], status[1..];
    var popped := PoppedWords(h);
    CompletionsAppend(popped, w);
    assert popped + status == (popped + [w]) + rest;
    if raised == [] {
      assert CompletionsOf(popped) + [] == CompletionsOf(popped);
    } else {
      assert raised == [(raised[0].0, raised[0].1)];
    }
  }

  lemma {:induction false} PopStatusKeepsReceive(s: Otg)
    requires Shape(s) && ReceiveInv(s)
    ensures ReceiveInv(PopStatus(s))
  {
    if s.rxStatus != [] {
      var w := s.rxStatus[0];
      assert w in s.rxStatus;
      PopKeepsReceived(s.history, s.rxStatus, s.rxFifo, CompletionOf(w));
    }
  }

  lemma {:induction false} PopRxWordKeepsReceive(s: Otg)
    requires ReceiveInv(s)
    ensures ReceiveInv(PopRxWord(s))
  {
    var n := Min(4, |s.rxFifo|);
    var popped := PoppedBytes(s.history);
    assert popped + s.rxFifo == (popped + s.rxFifo[..n]) + s.rxFifo[n..];
  }

  lemma {:induction false} ForwardKeepsReceive(s: Otg)
    requires Shape(s) && ReceiveInv(s)
    ensures ReceiveInv(ForwardBulkOut(s))
  {
    if Forwards(s) {
      var bytes := ForwardedPacket(s);
      QuietEntry(s.history, TakenFromBridge(bytes), s.rxStatus, s.rxFifo);
      OutKeepsReceive(BeforeQueueing(s), s.bulkOut.value, bytes);
    }
  }

  lemma {:induction false} WriteKeepsReceive(s: Otg, offset: word, value: word)
    requires Shape(s) && ReceiveInv(s)
    ensures ReceiveInv(WriteState(s, offset, value))
  {
    hide CompleteIn, WriteInCtl, WriteOutCtl, Unmask, Decode, Bit, AndNot, LeBytes, WritePlain, XferSize;
    match Decode(offset)
    case Fifo(ep) => CompleteInKeepsReceive(DisarmIn(AppendTxWord(s, ep, value), ep), ep);
    case InReg(ep, reg) => WriteInCtlKeepsReceive(s, ep, value);
    case OutReg(ep, reg) => WriteOutCtlKeepsReceive(s, ep, value);
    case Global(o) => UnmaskKeepsReceive(s.(emptyMask := value), AndNot(value, s.emptyMask), NUM_ENDPOINTS);
      UnmaskChangesOnlyInterrupts(s.(emptyMask := value), AndNot(value, s.emptyMask), NUM_ENDPOINTS);
  }

  lemma {:induction false} NextKeepsReceive(s: Otg, e: Event)
    requires Shape(s) && ReceiveInv(s)
    ensures ReceiveInv(Next(s, e))
  {
    hide WriteState, PopStatus, PopRxWord, ForwardBulkOut, Bit, SetFlag, Decode;
    match e
    case FirmwareRead(offset) =>
      PopStatusKeepsReceive(s);
      PopRxWordKeepsReceive(s);
    case FirmwareWrite(offset, value) =>
      WriteKeepsReceive(s, offset, value);
    case PollAt(irqEnabled, now) =>
      RefreshKeepsShape(s, irqEnabled);
      ForwardKeepsReceive(Sof(Refresh(s, irqEnabled), now));
    case _ =>
  }

  // ---- What it means for the completions ----

  function SetupsQueued(h: History, ep: nat): nat {
    match h
    case After(p, SetupQueued(e, _)) => SetupsQueued(p, ep) + if e == ep then 1 else 0
    case After(p, _) => SetupsQueued(p, ep)
    case Nothing => 0
  }

  function OutsQueued(h: History, ep: nat): nat {
    match h
    case After(p, OutQueued(e, _)) => OutsQueued(p, ep) + if e == ep then 1 else 0
    case After(p, _) => OutsQueued(p, ep)
    case Nothing => 0
  }

  lemma {:induction false} CompletionsConcat(a: seq<word>, b: seq<word>)
    ensures CompletionsOf(a + b) == CompletionsOf(a) + CompletionsOf(b)
    decreases |b|
  {
    hide CompletionOf;
    if b == [] {
      assert a + b == a;
    } else {
      var front, w := b[..|b| - 1], b[|b| - 1];
      CompletionsConcat(a, front);
      assert b == front + [w];
      assert a + b == (a + front) + [w];
      CompletionsAppend(a + front, w);
      CompletionsAppend(front, w);
      ConcatAssociates(a, front, w);
    }
  }

  lemma {:induction false} ConcatAssociates(a: seq<word>, front: seq<word>, w: word)
    requires CompletionsOf(a + front) == CompletionsOf(a) + CompletionsOf(front)
    ensures CompletionsOf(a + front) + CompletionOf(w) == CompletionsOf(a) + (CompletionsOf(front) + CompletionOf(w))
  {
  }

  /** One more packet adds its completion. */
  lemma {:induction false} PairCompletions(words: seq<word>, data: word, comp: word, c: (nat, nat), x: (nat, nat))
    requires CompletionOf(data) == [] && CompletionOf(comp) == [c]
    ensures multiset(CompletionsOf(words + [data, comp]))[x]
            == multiset(CompletionsOf(words))[x] + if c == x then 1 else 0
  {
    hide CompletionOf;
    CompletionsAppend(words, data);
    CompletionsAppend(words + [data], comp);
    assert (words + [data]) + [comp] == words + [data, comp];
    assert CompletionsOf(words) + [] == CompletionsOf(words);
  }

  lemma {:induction false} SetupCompletions(p: History, e: nat, ep: nat)
    requires Sane(p) && e < NUM_ENDPOINTS
    ensures var words := QueuedWords(p) + [StatusWord(SETUP_DATA, 8, e), StatusWord(SETUP_COMP, 0, e)];
            && multiset(CompletionsOf(words))[(ep, STUP)]
               == multiset(CompletionsOf(QueuedWords(p)))[(ep, STUP)] + (if e == ep then 1 else 0)
            && multiset(CompletionsOf(words))[(ep, XFRC)] == multiset(CompletionsOf(QueuedWords(p)))[(ep, XFRC)]
  {
    var data, comp := StatusWord(SETUP_DATA, 8, e), StatusWord(SETUP_COMP, 0, e);
    StatusRoundTrip(SETUP_DATA, 8, e);
    StatusRoundTrip(SETUP_COMP, 0, e);
    PairCompletions(QueuedWords(p), data, comp, (e, STUP), (ep, STUP));
    PairCompletions(QueuedWords(p), data, comp, (e, STUP), (ep, XFRC));
  }

  lemma {:induction false} OutCompletions(p: History, e: nat, n: nat, ep: nat)
    requires Sane(p) && e < NUM_ENDPOINTS && n <= BULK_PACKET
    ensures var words := QueuedWords(p) + [StatusWord(OUT_DATA, n, e), StatusWord(OUT_COMP, 0, e)];
            && multiset(CompletionsOf(words))[(ep, STUP)] == multiset(CompletionsOf(QueuedWords(p)))[(ep, STUP)]
            && multiset(CompletionsOf(words))[(ep, XFRC)]
               == multiset(CompletionsOf(QueuedWords(p)))[(ep, XFRC)] + (if e == ep then 1 else 0)
  {
    var data, comp := StatusWord(OUT_DATA, n, e), StatusWord(OUT_COMP, 0, e);
    StatusRoundTrip(OUT_DATA, n, e);
    StatusRoundTrip(OUT_COMP, 0, e);
    PairCompletions(QueuedWords(p), data, comp, (e, XFRC), (ep, STUP));
    PairCompletions(QueuedWords(p), data, comp, (e, XFRC), (ep, XFRC));
  }

  lemma {:induction false} QueuedCompletions(h: History, ep: nat)
    requires Sane(h)
    ensures multiset(CompletionsOf(QueuedWords(h)))[(ep, STUP)] == SetupsQueued(h, ep)
    ensures multiset(CompletionsOf(QueuedWords(h)))[(ep, XFRC)] == OutsQueued(h, ep)
    decreases h
  {
    if h.After? {
      QueuedCompletions(h.earlier, ep);
      match h.entry
      case SetupQueued(e, _) => SetupCompletions(h.earlier, e, ep);
      case OutQueued(e, data) => OutCompletions(h.earlier, e, |data|, ep);
      case _ =>
    }
  }

  /** Per endpoint, completions raised plus completion statuses still queued
      are the packets queued: none is raised early, twice or never. */
  lemma {:induction false} CompletionsConserved(s: Otg, ep: nat)
    requires ReceiveInv(s)
    ensures multiset(OutRaises(s.history))[(ep, STUP)] + multiset(CompletionsOf(s.rxStatus))[(ep, STUP)]
            == SetupsQueued(s.history, ep)
    ensures multiset(OutRaises(s.history))[(ep, XFRC)] + multiset(CompletionsOf(s.rxStatus))[(ep, XFRC)]
            == OutsQueued(s.history, ep)
  {
    QueuedCompletions(s.history, ep);
    CompletionsConcat(PoppedWords(s.history), s.rxStatus);
  }

  /** The words of one packet: its data status, then its completion. */
  ghost predicate PacketPair(data: word, comp: word) {
    && EndpointNumber(data) == EndpointNumber(comp)
    && ByteCount(comp) == 0
    && ((PacketStatus(data) == SETUP_DATA && PacketStatus(comp) == SETUP_COMP && ByteCount(data) == 8)
        || (PacketStatus(data) == OUT_DATA && PacketStatus(comp) == OUT_COMP && ByteCount(data) <= BULK_PACKET))
  }

  ghost predicate Paired(words: seq<word>) {
    && |words| % 2 == 0
    && forall i :: 0 <= i < |words| / 2 ==> PacketPair(words[2 * i], words[2 * i + 1])
  }

  lemma {:induction false} PairedAppend(words: seq<word>, data: word, comp: word)
    requires Paired(words) && PacketPair(data, comp)
    ensures Paired(words + [data, comp])
  {
    var all := words + [data, comp];
    forall i | 0 <= i < |all| / 2
      ensures PacketPair(all[2 * i], all[2 * i + 1])
    {
      if i < |words| / 2 {
        assert PacketPair(words[2 * i], words[2 * i + 1]);
      }
    }
  }

  lemma {:induction false} QueuedWordsPaired(h: History)
    requires Sane(h)
    ensures Paired(QueuedWords(h))
    decreases h
  {
    match h
    case After(p, SetupQueued(e, _)) =>
      QueuedWordsPaired(p);
      StatusRoundTrip(SETUP_DATA, 8, e);
      StatusRoundTrip(SETUP_COMP, 0, e);
      PairedAppend(QueuedWords(p), StatusWord(SETUP_DATA, 8, e), StatusWord(SETUP_COMP, 0, e));
    case After(p, OutQueued(e, data)) =>
      QueuedWordsPaired(p);
      StatusRoundTrip(OUT_DATA, |data|, e);
      StatusRoundTrip(OUT_COMP, 0, e);
      PairedAppend(QueuedWords(p), StatusWord(OUT_DATA, |data|, e), StatusWord(OUT_COMP, 0, e));
    case After(p, _) =>
      QueuedWordsPaired(p);
    case Nothing =>
  }

  /** The status queue is a suffix of data/completion pairs. */
  lemma {:induction false} StatusQueueHoldsPairs(s: Otg) returns (queued: seq<word>)
    requires ReceiveInv(s)
    ensures Paired(queued)
    ensures |s.rxStatus| <= |queued| && s.rxStatus == queued[|queued| - |s.rxStatus|..]
  {
    queued := QueuedWords(s.history);
    QueuedWordsPaired(s.history);
  }

  /** Over any run of any firmware: unread statuses and bytes are exactly the
      tail of what was queued since the last reset, and completions are raised
      exactly for the completion statuses already popped. */
  lemma {:induction false} ReceiveConserved(bridge: Bridge, bulkIn: Option<nat>, bulkOut: Option<nat>,
                                            events: seq<Event>)
    requires Shape(Start(bridge, bulkIn, bulkOut))
    ensures ReceiveInv(Run(Start(bridge, bulkIn, bulkOut), events))
    decreases |events|
  {
    if events != [] {
      ReceiveConserved(bridge, bulkIn, bulkOut, events[..|events| - 1]);
      NextKeepsReceive(Run(Start(bridge, bulkIn, bulkOut), events[..|events| - 1]), events[|events| - 1]);
    }
  }
}
