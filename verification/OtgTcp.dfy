/** TCP clients of the controller: its runs drive the bridge as a sequence of bridge
    steps, so what the bridge promises its clients holds of firmware's bytes. */
module OtgTcp {
  import opened Bits
  import opened ByteQueues
  import opened UsbCdcBridge
  import opened OtgModel
  import opened OtgRuns
  import opened OtgSession
  import CdcLink
  import OtgDriver
  import OtgBulkOut
  import OtgSender
  import OtgBulkIn

  /** What `b` has beyond `a`. */
  function Beyond(a: seq<byte>, b: seq<byte>): seq<byte> {
    if |a| <= |b| then b[|a|..] else []
  }

  /** The bridge step an event amounts to. */
  function MoveOf(s: Otg, e: Event): TcpStep
    requires Shape(s)
  {
    match e
    case FirmwareWrite(offset, value) =>
      Pushed(Beyond(GivenBytes(s.history), GivenBytes(WriteState(s, offset, value).history)))
    case PollAt(irqEnabled, now) =>
      RefreshKeepsShape(s, irqEnabled);
      var t := Sof(Refresh(s, irqEnabled), now);
      TakenByDevice(if OutReady(t) then PacketLimit(t) else 0)
    case NetworkSide(a) => if NetworkAction(a) then a else TakenByDevice(0)
    case _ => TakenByDevice(0)
  }

  function Moves(s: Otg, events: seq<Event>): (moves: seq<TcpStep>)
    requires Shape(s)
    ensures |moves| == |events|
    decreases |events|
  {
    if events == [] then []
    else Moves(s, events[..|events| - 1]) + [MoveOf(Run(s, events[..|events| - 1]), events[|events| - 1])]
  }

  // ---- What a write forwards ----

  /** The bridge has been given what the transcript has more. */
  ghost predicate Gave(s: Otg, t: Otg) {
    && GivenBytes(s.history) <= GivenBytes(t.history)
    && (s.bridge.Tcp? ==> t.bridge == Forwarded(s.bridge, Beyond(GivenBytes(s.history), GivenBytes(t.history))))
  }

  /** Nothing given, and a TCP bridge left alone. */
  ghost predicate Still(s: Otg, t: Otg) {
    GivenBytes(t.history) == GivenBytes(s.history) && (s.bridge.Tcp? ==> t.bridge == s.bridge)
  }

  lemma {:induction false} StillGave(s: Otg, t: Otg)
    requires Still(s, t)
    ensures Gave(s, t)
  {
  }

  lemma {:induction false} StillThenGave(s: Otg, t: Otg, u: Otg)
    requires Still(s, t) && Gave(t, u)
    ensures Gave(s, u)
  {
    hide GivenBytes, Forwarded;
  }

  lemma {:induction false} ScriptIsStill(s: Otg)
    ensures Still(s, Script(s))
  {
  }

  lemma {:induction false} CompleteInGave(s: Otg, ep: nat)
    requires Shape(s) && ep < NUM_ENDPOINTS
    ensures Gave(s, CompleteIn(s, ep))
  {
    hide Script, StageOf, SetFlag;
    var t := RaiseIn(s, ep, XFRC);
    assert Still(s, t);
    if ep == 0 {
      var u := t.(txFifo := t.txFifo[0 := []]);
      ScriptIsStill(u);
      StillGave(s, CompleteIn(s, ep));
    } else if t.step == Configured && t.bulkIn == Some(ep) {
      ForwardGave(t, ep);
      StillThenGave(s, t, ForwardIn(t, ep));
    } else {
      StillGave(s, t);
    }
  }

  lemma {:induction false} ForwardGave(s: Otg, ep: nat)
    requires ep < |s.epIn| && ep < |s.txFifo|
    ensures Gave(s, ForwardIn(s, ep))
  {
    var bytes := s.txFifo[ep][..Min(XferSize(s.epIn[ep]), |s.txFifo[ep]|)];
    hide XferSize, Forwarded;
    assert (GivenBytes(s.history) + bytes)[|GivenBytes(s.history)|..] == bytes;
  }

  lemma {:induction false} PushGave(s: Otg, ep: nat, value: word)
    requires Shape(s) && ep < NUM_ENDPOINTS
    ensures Gave(s, PushTxWord(s, ep, value))
  {
    hide CompleteIn, LeBytes, Bit, XferSize, Gave;
    var t := AppendTxWord(s, ep, value);
    assert Still(s, t) && Still(s, DisarmIn(t, ep));
    StillGave(s, t);
    CompleteInGave(DisarmIn(t, ep), ep);
    StillThenGave(s, DisarmIn(t, ep), CompleteIn(DisarmIn(t, ep), ep));
  }

  lemma {:induction false} WriteInGave(s: Otg, ep: nat, reg: nat, value: word)
    requires Shape(s) && ep < NUM_ENDPOINTS
    ensures Gave(s, WriteIn(s, ep, reg, value))
  {
    hide CompleteIn, AndNot, Bit, SetFlag, XferSize, Gave;
    var t := ArmIn(s, ep, value);
    assert Still(s, t) && Still(s, DisarmIn(t, ep));
    CompleteInGave(DisarmIn(t, ep), ep);
    StillThenGave(s, DisarmIn(t, ep), CompleteIn(DisarmIn(t, ep), ep));
    var u := WriteIn(s, ep, reg, value);
    if reg != EP_CTL || u != CompleteIn(DisarmIn(t, ep), ep) {
      StillGave(s, u);
    }
  }

  lemma {:induction false} WriteOutGave(s: Otg, ep: nat, reg: nat, value: word)
    requires Shape(s) && ep < NUM_ENDPOINTS
    ensures Gave(s, WriteOut(s, ep, reg, value))
  {
    hide AndNot, Bit, Gave, StatusWord;
    var t := Note(s.(epOut := s.epOut[ep := s.epOut[ep].(ctl := value)]), OutCtlWritten(ep, value));
    assert Still(s, t);
    StillGave(s, WriteOut(s, ep, reg, value));
  }

  lemma {:induction false} UnmaskIsStill(s: Otg, newly: word, n: nat)
    requires n <= NUM_ENDPOINTS && |s.epIn| == NUM_ENDPOINTS
    ensures Still(s, Unmask(s, newly, n))
  {
    hide Bit, SetFlag;
    if n != 0 {
      UnmaskIsStill(s, newly, n - 1);
      var u := Note(Unmask(s, newly, n - 1), InUnmasked(n - 1));
      assert Still(s, u);
    }
  }

  lemma {:induction false} WriteGlobalGave(s: Otg, o: word, value: word)
    requires Shape(s)
    ensures Gave(s, WriteGlobal(s, o, value))
  {
    hide Unmask, AndNot, WritePlain, Gave;
    UnmaskIsStill(s.(emptyMask := value), AndNot(value, s.emptyMask), NUM_ENDPOINTS);
    StillGave(s, WriteGlobal(s, o, value));
  }

  lemma {:induction false} WriteGave(s: Otg, offset: word, value: word)
    requires Shape(s)
    ensures Gave(s, WriteState(s, offset, value))
  {
    hide PushTxWord, WriteIn, WriteOut, WriteGlobal, Gave;
    match Decode(offset)
    case Fifo(ep) => PushGave(s, ep, value);
    case InReg(ep, reg) => WriteInGave(s, ep, reg, value);
    case OutReg(ep, reg) => WriteOutGave(s, ep, reg, value);
    case Global(o) => WriteGlobalGave(s, o, value);
  }

  lemma {:induction false} ReadIsStill(s: Otg, offset: word)
    requires Shape(s)
    ensures Still(s, ReadState(s, offset))
  {
    hide Decode, PopStatus;
    PopChangesOnlyInterrupts(s);
    assert GivenBytes(PopStatus(s).history) == GivenBytes(s.history);
  }

  // ---- Every event is its move ----

  function TakenIn(b: Bridge, move: TcpStep): seq<byte>
    requires b.Tcp?
  {
    if move.TakenByDevice? then CdcLink.Taken(b.toDevice, move.maximum) else []
  }

  function GivenIn(move: TcpStep): seq<byte> {
    if move.Pushed? then move.bytes else []
  }

  /** The bridge makes the event's move; the transcripts record it, from nothing after a
      bus reset. */
  ghost predicate Moved(s: Otg, t: Otg, e: Event)
    requires Shape(s) && s.bridge.Tcp?
  {
    && t.bridge == TcpApply(s.bridge, MoveOf(s, e))
    && (if Resets(s, e) then TakenBytes(t.history) == TakenIn(s.bridge, MoveOf(s, e)) && GivenBytes(t.history) == []
        else
          && TakenBytes(t.history) == TakenBytes(s.history) + TakenIn(s.bridge, MoveOf(s, e))
          && GivenBytes(t.history) == GivenBytes(s.history) + GivenIn(MoveOf(s, e)))
  }

  lemma {:induction false} NoMove(s: Otg)
    requires s.bridge.Tcp?
    ensures TcpApply(s.bridge, TakenByDevice(0)) == s.bridge && TakenIn(s.bridge, TakenByDevice(0)) == []
    ensures TakenBytes(s.history) + [] == TakenBytes(s.history) && GivenBytes(s.history) + [] == GivenBytes(s.history)
  {
  }

  lemma {:induction false} WriteMoves(s: Otg, offset: word, value: word)
    requires Shape(s) && s.bridge.Tcp?
    ensures Moved(s, WriteState(s, offset, value), FirmwareWrite(offset, value))
  {
    hide WriteState, Forwarded;
    NoMove(s);
    WriteGave(s, offset, value);
    WriteTakesNothing(s, offset, value);
  }

  lemma {:induction false} ReadMoves(s: Otg, offset: word)
    requires Shape(s) && s.bridge.Tcp?
    ensures Moved(s, ReadState(s, offset), FirmwareRead(offset))
  {
    hide ReadState;
    NoMove(s);
    ReadIsStill(s, offset);
    ReadTakesNothing(s, offset);
  }

  lemma {:induction false} ForwardMoves(s: Otg)
    requires Shape(s) && s.bridge.Tcp?
    ensures var (t, move) := (ForwardBulkOut(s), TakenByDevice(if OutReady(s) then PacketLimit(s) else 0));
            && t.bridge == TcpApply(s.bridge, move)
            && TakenBytes(t.history) == TakenBytes(s.history) + TakenIn(s.bridge, move)
            && GivenBytes(t.history) == GivenBytes(s.history)
  {
    hide Bit, ClearBit, XferSize, StatusWord;
    NoMove(s);
    if Forwards(s) {
      var u := BeforeQueueing(s);
      assert TakenBytes(u.history) == TakenBytes(s.history) + ForwardedPacket(s);
      assert GivenBytes(u.history) == GivenBytes(s.history);
    }
  }

  lemma {:induction false} PollMoves(s: Otg, irqEnabled: bool, now: long)
    requires Shape(s) && s.bridge.Tcp?
    ensures Moved(s, Poll(s, irqEnabled, now), PollAt(irqEnabled, now))
  {
    hide ForwardBulkOut, OutReady, SetFlag, TcpApply, TakenIn;
    RefreshKeepsShape(s, irqEnabled);
    NoMove(s);
    ForwardMoves(Sof(Refresh(s, irqEnabled), now));
  }

  lemma {:induction false} NextMoves(s: Otg, e: Event)
    requires Shape(s) && s.bridge.Tcp?
    ensures Moved(s, Next(s, e), e)
  {
    hide WriteState, ReadState, Poll;
    match e
    case FirmwareRead(offset) => ReadMoves(s, offset);
    case FirmwareWrite(offset, value) => WriteMoves(s, offset, value);
    case PollAt(irqEnabled, now) => PollMoves(s, irqEnabled, now);
    case _ => NoMove(s);
  }

  // ---- Whole lives ----

  /** A run of the controller is a run of the bridge; what the controller took and gave
      since the last bus reset is the end of what the bridge saw taken and given. */
  lemma {:induction false} RunIsTcpRun(capacity: nat, bulkIn: Option<nat>, bulkOut: Option<nat>, events: seq<Event>)
    requires Shape(Start(Tcp(false, [], [], capacity), bulkIn, bulkOut))
    ensures var start := Start(Tcp(false, [], [], capacity), bulkIn, bulkOut);
            var (s, moves) := (Run(start, events), Moves(start, events));
            && s.bridge == TcpRun(capacity, moves)
            && IsSuffix(TakenBytes(s.history), LedgerOf(capacity, moves).taken)
            && IsSuffix(GivenBytes(s.history), LedgerOf(capacity, moves).given)
    decreases |events|
  {
    hide Next, MoveOf, TcpApply, IsSuffix, Shape;
    var start := Start(Tcp(false, [], [], capacity), bulkIn, bulkOut);
    if events == [] {
      NothingYet();
    } else {
      var (front, last) := (events[..|events| - 1], events[|events| - 1]);
      RunIsTcpRun(capacity, bulkIn, bulkOut, front);
      var (s, moves) := (Run(start, front), Moves(start, front));
      NextMoves(s, last);
      LedgerMoves(capacity, moves, MoveOf(s, last));
      SuffixesFollow(s, Next(s, last), last, LedgerOf(capacity, moves));
    }
  }

  lemma {:induction false} NothingYet()
    ensures IsSuffix<byte>([], [])
  {
  }

  lemma {:induction false} LedgerMoves(capacity: nat, moves: seq<TcpStep>, move: TcpStep)
    ensures var (b, l, more) := (TcpRun(capacity, moves), LedgerOf(capacity, moves), moves + [move]);
            && TcpRun(capacity, more) == TcpApply(b, move)
            && LedgerOf(capacity, more).taken == l.taken + TakenIn(b, move)
            && LedgerOf(capacity, more).given == l.given + GivenIn(move)
  {
    hide TcpApply;
    assert (moves + [move])[..|moves|] == moves;
  }

  lemma {:induction false} SuffixesFollow(s: Otg, t: Otg, e: Event, l: Ledger)
    requires Shape(s) && s.bridge.Tcp? && Moved(s, t, e)
    requires IsSuffix(TakenBytes(s.history), l.taken) && IsSuffix(GivenBytes(s.history), l.given)
    ensures IsSuffix(TakenBytes(t.history), l.taken + TakenIn(s.bridge, MoveOf(s, e)))
    ensures IsSuffix(GivenBytes(t.history), l.given + GivenIn(MoveOf(s, e)))
  {
    hide MoveOf, TcpApply;
    SuffixGrows(TakenBytes(s.history), l.taken, TakenIn(s.bridge, MoveOf(s, e)));
    SuffixGrows(GivenBytes(s.history), l.given, GivenIn(MoveOf(s, e)));
  }

  /** End to end from a TCP client: a disciplined driver has extracted a prefix of the
      bytes taken since the last bus reset, all of them once the FIFO is empty. If no more
      was taken since the reset than in the present client's session, they are an in-order
      subsequence of what was received from it; if as much, and the queue never
      overflowed, a prefix. */
  lemma {:induction false} ClientBytesReachFirmware(capacity: nat, bulkIn: Option<nat>, ep: nat, events: seq<Event>)
    requires capacity >= 1 && Shape(Start(Tcp(false, [], [], capacity), bulkIn, Some(ep)))
    requires OtgBulkOut.DisciplinedRun(Start(Tcp(false, [], [], capacity), bulkIn, Some(ep)), OtgDriver.FRESH_DRIVER,
                                       events, ep)
    ensures var start := Start(Tcp(false, [], [], capacity), bulkIn, Some(ep));
            var (s, d) := (Run(start, events), OtgBulkOut.DriverRun(start, OtgDriver.FRESH_DRIVER, events));
            var (extracted, taken, down) :=
              (OtgBulkOut.Extracted(d, ep), TakenBytes(s.history), LedgerOf(capacity, Moves(start, events)).down);
            && extracted <= taken && (s.rxFifo == [] ==> extracted == taken)
            && (|taken| <= |down.read| ==> Subsequence(extracted, down.written))
            && (|taken| == |down.read| && !down.lost ==> extracted <= down.written)
  {
    var start := Start(Tcp(false, [], [], capacity), bulkIn, Some(ep));
    hide Run, Moves, MoveOf, OtgBulkOut.DriverRun, OtgBulkOut.DisciplinedRun, OtgBulkOut.Extracted,
         OtgDriver.QueuedPackets, Shape, LedgerOf, Subsequence, TcpInv;
    OtgBulkOut.BulkOutDelivery(Tcp(false, [], [], capacity), bulkIn, ep, events);
    RunIsTcpRun(capacity, bulkIn, Some(ep), events);
    var (s, l) := (Run(start, events), LedgerOf(capacity, Moves(start, events)));
    ClientsAreServed(capacity, Moves(start, events));
    ReadIsTaken(TcpRun(capacity, Moves(start, events)), l);
    var extracted := OtgBulkOut.Extracted(OtgBulkOut.DriverRun(start, OtgDriver.FRESH_DRIVER, events), ep);
    if |TakenBytes(s.history)| <= |l.down.read| {
      SuffixesNest(TakenBytes(s.history), l.down.read, l.taken);
      SuffixIsSubsequence(TakenBytes(s.history), l.down.read, l.down.written);
      PrefixIsSubsequence(extracted, TakenBytes(s.history), l.down.written);
    }
  }

  lemma {:induction false} ReadIsTaken(b: Bridge, l: Ledger)
    requires TcpInv(b, l)
    ensures IsSuffix(l.down.read, l.taken) && IsSuffix(l.up.written, l.given)
  {
    hide IsSuffix;
  }

  /** End to end to a TCP client: a disciplined sender's payloads since the last bus reset
      are exactly the bytes given since. Those forwarded to the present client end like
      them; what it has been sent is an in-order subsequence of what was forwarded while
      nobody was connected and since, beginning with the former if nothing overflowed. */
  lemma {:induction false} PayloadsReachClient(capacity: nat, ep: nat, bulkOut: Option<nat>, events: seq<Event>)
    requires capacity >= 1 && 1 <= ep < NUM_ENDPOINTS && Shape(Start(Tcp(false, [], [], capacity), Some(ep), bulkOut))
    requires OtgSender.DisciplinedRun(Start(Tcp(false, [], [], capacity), Some(ep), bulkOut), OtgSender.FRESH_SENDER,
                                      events, ep)
    ensures var start := Start(Tcp(false, [], [], capacity), Some(ep), bulkOut);
            var (payloads, l) := (OtgSender.Flat(OtgSender.SenderRun(start, OtgSender.FRESH_SENDER, events, ep).sent),
                                  LedgerOf(capacity, Moves(start, events)));
            && (IsSuffix(payloads, l.up.written) || IsSuffix(l.up.written, payloads))
            && l.idle <= l.up.written && Subsequence(l.up.read, l.up.written)
            && (!l.up.lost ==> l.up.read <= l.up.written && (|l.idle| <= |l.up.read| ==> l.idle <= l.up.read))
  {
    var start := Start(Tcp(false, [], [], capacity), Some(ep), bulkOut);
    hide Run, Moves, MoveOf, OtgSender.SenderRun, OtgSender.DisciplinedRun, OtgSender.Flat, OtgBulkIn.InCompletions,
         Shape, LedgerOf, Subsequence, TcpInv;
    OtgSender.BulkInDelivery(Tcp(false, [], [], capacity), ep, bulkOut, events);
    RunIsTcpRun(capacity, Some(ep), bulkOut, events);
    var (s, l) := (Run(start, events), LedgerOf(capacity, Moves(start, events)));
    ClientsAreServed(capacity, Moves(start, events));
    ReadIsTaken(TcpRun(capacity, Moves(start, events)), l);
    if |GivenBytes(s.history)| <= |l.up.written| {
      SuffixesNest(GivenBytes(s.history), l.up.written, l.given);
    } else {
      SuffixesNest(l.up.written, GivenBytes(s.history), l.given);
    }
  }
}
