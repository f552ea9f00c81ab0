/** No interrupt of the controller is lost or made up: the level bits of GINTSTS
    always mirror their cause, and every armed IN transfer whose empty-FIFO
    interrupt is unmasked has been signalled. */
module OtgInterrupts {
  import opened Bits
  import opened UsbCdcBridge
  import opened OtgModel
  import opened OtgRuns

  // ---- Level bits ----

  /** The stored status only ever holds the bus-reset and start-of-frame flags. */
  ghost predicate StoredStatusInv(s: Otg) {
    forall j: nat :: Bit(s.intStatus, j) ==> j == 3 || j == 12
  }

  ghost predicate UnmaskedIn(s: Otg)
    requires Shape(s)
  {
    exists ep :: 0 <= ep < NUM_ENDPOINTS && s.epIn[ep].intr != 0 && Bit(s.plain.daintMask, ep)
  }

  ghost predicate UnmaskedOut(s: Otg)
    requires Shape(s)
  {
    exists ep :: 0 <= ep < NUM_ENDPOINTS && s.epOut[ep].intr != 0 && Bit(s.plain.daintMask, 16 + ep)
  }

  lemma {:induction false} HalfMasks()
    ensures forall j: nat :: Bit(0xffff, j) <==> j < 16
    ensures forall j: nat :: Bit(0xffff_0000, j) <==> 16 <= j < 32
  {
    assert Pow2(8) == 256;
    assert Pow2(16) == 256 * Pow2(8);
    Ones(16, 0xffff);
    assert Shl(0xffff, 16) == 0xffff * Pow2(16);
  }

  lemma {:induction false} DaintHalves(s: Otg)
    requires Shape(s)
    ensures And(And(Daint(s), s.plain.daintMask), 0xffff) != 0 <==> UnmaskedIn(s)
    ensures And(And(Daint(s), s.plain.daintMask), 0xffff_0000) != 0 <==> UnmaskedOut(s)
  {
    DaintLow(s);
    DaintHigh(s);
  }

  lemma {:induction false} DaintLow(s: Otg)
    requires Shape(s)
    ensures And(And(Daint(s), s.plain.daintMask), 0xffff) != 0 <==> UnmaskedIn(s)
  {
    HalfMasks();
    var low := And(And(Daint(s), s.plain.daintMask), 0xffff);
    assert forall j: nat :: !Bit(0, j);
    if low != 0 {
      NonZeroHasBit(low);
      var j: nat :| Bit(low, j);
      assert Bit(Daint(s), j) && j < 16 && Bit(s.plain.daintMask, j);
    }
    if UnmaskedIn(s) {
      var ep :| 0 <= ep < NUM_ENDPOINTS && s.epIn[ep].intr != 0 && Bit(s.plain.daintMask, ep);
      assert Bit(Daint(s), ep);
      assert Bit(low, ep);
    }
  }

  lemma {:induction false} DaintHigh(s: Otg)
    requires Shape(s)
    ensures And(And(Daint(s), s.plain.daintMask), 0xffff_0000) != 0 <==> UnmaskedOut(s)
  {
    HalfMasks();
    var high := And(And(Daint(s), s.plain.daintMask), 0xffff_0000);
    assert forall j: nat :: !Bit(0, j);
    if high != 0 {
      NonZeroHasBit(high);
      var j: nat :| Bit(high, j);
      assert Bit(Daint(s), j) && 16 <= j && Bit(s.plain.daintMask, 16 + (j - 16));
    }
    if UnmaskedOut(s) {
      var ep :| 0 <= ep < NUM_ENDPOINTS && s.epOut[ep].intr != 0 && Bit(s.plain.daintMask, 16 + ep);
      assert Bit(Daint(s), 16 + ep);
      assert Bit(high, 16 + ep);
    }
  }

  /** What firmware reads in GINTSTS, bit by bit. */
  lemma {:induction false} LevelInterrupts(s: Otg)
    requires Shape(s) && StoredStatusInv(s)
    ensures Bit(EffectiveStatus(s), 4) <==> s.rxStatus != []
    ensures Bit(EffectiveStatus(s), 18) <==> UnmaskedIn(s)
    ensures Bit(EffectiveStatus(s), 19) <==> UnmaskedOut(s)
    ensures forall j: nat :: j != 4 && j != 18 && j != 19 ==> (Bit(EffectiveStatus(s), j) <==> Bit(s.intStatus, j))
  {
    hide Daint, UnmaskedIn, UnmaskedOut, And, SetFlag, Bit;
    DaintHalves(s);
  }

  /** The causes of an interrupt request: a receive status is queued (bit 4 of GINTMSK), an
      endpoint of either direction has an unmasked interrupt (bits 18 and 19), or a start of
      frame (bit 3) or a bus reset (bit 12) is waiting. */
  ghost predicate Requested(s: Otg)
    requires Shape(s)
  {
    || (Bit(s.intMask, 4) && s.rxStatus != [])
    || (Bit(s.intMask, 18) && UnmaskedIn(s))
    || (Bit(s.intMask, 19) && UnmaskedOut(s))
    || (Bit(s.intMask, 3) && Bit(s.intStatus, 3))
    || (Bit(s.intMask, 12) && Bit(s.intStatus, 12))
  }

  /** The interrupt is requested exactly for one of these causes. */
  lemma {:induction false} RequestedIff(s: Otg)
    requires Shape(s) && StoredStatusInv(s)
    ensures InterruptPending(s) <==> Requested(s)
  {
    hide Daint, UnmaskedIn, UnmaskedOut, EffectiveStatus;
    LevelInterrupts(s);
    var bits := And(EffectiveStatus(s), s.intMask);
    assert forall j: nat :: !Bit(0, j);
    if bits != 0 {
      NonZeroHasBit(bits);
      var j: nat :| Bit(bits, j);
      assert Bit(EffectiveStatus(s), j) && Bit(s.intMask, j);
    }
    assert forall j: nat :: Bit(EffectiveStatus(s), j) && Bit(s.intMask, j) ==> Bit(bits, j);
  }

  /** Acknowledging anything in GINTSTS leaves the three level bits as they were. */
  lemma {:induction false} AckCannotClearLevels(s: Otg, value: word)
    requires Shape(s) && StoredStatusInv(s)
    ensures var t := WriteState(s, 0x014, value);
            && Shape(t) && StoredStatusInv(t)
            && (forall j: nat :: j in {4, 18, 19} ==> (Bit(EffectiveStatus(t), j) <==> Bit(EffectiveStatus(s), j)))
            && (forall j: nat :: j in {3, 12} ==>
                  (Bit(EffectiveStatus(t), j) <==> Bit(EffectiveStatus(s), j) && !Bit(value, j)))
  {
    hide PushTxWord, WriteIn, WriteOut, WriteEmptyMask, EffectiveStatus;
    var t := WriteState(s, GINTSTS, value);
    assert Decode(GINTSTS) == Global(GINTSTS);
    LevelInterrupts(s);
    LevelInterrupts(t);
  }

  lemma {:induction false} CompleteInKeepsStatus(s: Otg, ep: nat)
    requires Shape(s) && ep < NUM_ENDPOINTS
    ensures CompleteIn(s, ep).intStatus == s.intStatus && CompleteIn(s, ep).emptyMask == s.emptyMask
  {
  }

  lemma {:induction false} PopStatusKeepsStatus(s: Otg)
    requires Shape(s)
    ensures PopStatus(s).intStatus == s.intStatus
  {
  }

  lemma {:induction false} NextKeepsStatus(s: Otg, e: Event)
    requires Shape(s) && StoredStatusInv(s)
    ensures StoredStatusInv(Next(s, e))
  {
    hide WriteState, PopStatus, Decode, Poll;
    match e
    case FirmwareRead(_) => PopStatusKeepsStatus(s);
    case FirmwareWrite(offset, value) => WriteKeepsStatus(s, offset, value);
    case PollAt(irqEnabled, now) => PollKeepsStatus(s, irqEnabled, now);
    case _ =>
  }

  lemma {:induction false} PollKeepsStatus(s: Otg, irqEnabled: bool, now: long)
    requires Shape(s) && StoredStatusInv(s)
    ensures StoredStatusInv(Poll(s, irqEnabled, now))
  {
    hide Staged, Drained, Available, StatusWord, XferSize, ClearBit;
    RefreshKeepsShape(s, irqEnabled);
  }

  lemma {:induction false} WriteKeepsStatus(s: Otg, offset: word, value: word)
    requires Shape(s) && StoredStatusInv(s)
    ensures StoredStatusInv(WriteState(s, offset, value))
  {
    hide CompleteIn, Unmask, Decode, LeBytes, WritePlain, XferSize;
    match Decode(offset)
    case Fifo(ep) => CompleteInKeepsStatus(DisarmIn(AppendTxWord(s, ep, value), ep), ep);
    case InReg(ep, reg) => CompleteInKeepsStatus(DisarmIn(ArmIn(s, ep, value), ep), ep);
    case OutReg(ep, reg) =>
    case Global(o) =>
      UnmaskChangesOnlyInterrupts(s.(emptyMask := value), AndNot(value, s.emptyMask), NUM_ENDPOINTS);
  }

  // ---- TXFE ----

  /** TXFE has been raised for `ep` since it was last armed or unmasked. */
  predicate Signalled(h: History, ep: nat) {
    match h
    case After(p, InRaised(e, flag)) => (e == ep && flag == TXFE) || Signalled(p, ep)
    case After(p, InArmed(e)) => e != ep && Signalled(p, ep)
    case After(p, InUnmasked(e)) => e != ep && Signalled(p, ep)
    case After(p, _) => Signalled(p, ep)
    case Nothing => false
  }

  ghost predicate TxEmptyInv(s: Otg)
    requires Shape(s)
  {
    forall ep :: 0 <= ep < NUM_ENDPOINTS && Enabled(s.epIn[ep]) && Bit(s.emptyMask, ep) ==> Signalled(s.history, ep)
  }

  /** Operations that arm or unmask nothing keep every signal. */
  ghost predicate KeepsSignals(s: Otg, t: Otg)
    requires |s.epIn| == NUM_ENDPOINTS && |t.epIn| == NUM_ENDPOINTS
  {
    && t.emptyMask == s.emptyMask
    && (forall ep :: 0 <= ep < NUM_ENDPOINTS ==> (Enabled(t.epIn[ep]) ==> Enabled(s.epIn[ep])))
    && (forall ep :: 0 <= ep < NUM_ENDPOINTS ==> (Signalled(s.history, ep) ==> Signalled(t.history, ep)))
  }

  lemma {:induction false} AdvanceKeepsSignals(s: Otg)
    requires |s.epIn| == NUM_ENDPOINTS
    ensures |Advance(s).epIn| == NUM_ENDPOINTS && KeepsSignals(s, Advance(s))
  {
  }

  lemma {:induction false} CompleteInKeepsSignals(s: Otg, ep: nat)
    requires Shape(s) && ep < NUM_ENDPOINTS
    ensures Shape(CompleteIn(s, ep)) && KeepsSignals(s, CompleteIn(s, ep))
  {
    CompleteInKeepsShape(s, ep);
    var t := RaiseIn(s, ep, XFRC);
    if ep == 0 {
      AdvanceKeepsSignals(t.(txFifo := t.txFifo[0 := []]));
    }
  }

  lemma {:induction false} DisarmedIsSilent(s: Otg, t: Otg, ep: nat)
    requires Shape(s) && Shape(t) && ep < NUM_ENDPOINTS && TxEmptyInv(s)
    requires t.emptyMask == s.emptyMask && !Enabled(t.epIn[ep])
    requires forall i :: 0 <= i < NUM_ENDPOINTS && i != ep ==> t.epIn[i] == s.epIn[i]
    requires forall i :: 0 <= i < NUM_ENDPOINTS && i != ep ==> (Signalled(s.history, i) ==> Signalled(t.history, i))
    ensures TxEmptyInv(t)
  {
  }

  lemma {:induction false} PushKeepsTxEmpty(s: Otg, ep: nat, value: word)
    requires Shape(s) && TxEmptyInv(s) && ep < NUM_ENDPOINTS
    ensures Shape(PushTxWord(s, ep, value)) && TxEmptyInv(PushTxWord(s, ep, value))
  {
    PushTxWordKeepsShape(s, ep, value);
    var t := AppendTxWord(s, ep, value);
    assert TxEmptyInv(t);
    var u := DisarmIn(t, ep);
    DisarmedIsSilent(t, u, ep);
    CompleteInKeepsSignals(u, ep);
  }

  lemma {:induction false} ArmedKeepsTxEmpty(s: Otg, ep: nat, value: word)
    requires Shape(s) && TxEmptyInv(s) && ep < NUM_ENDPOINTS
    ensures Bit(s.emptyMask, ep) ==> TxEmptyInv(RaiseIn(ArmIn(s, ep, value), ep, TXFE))
    ensures !Bit(s.emptyMask, ep) ==> TxEmptyInv(ArmIn(s, ep, value))
  {
  }

  lemma {:induction false} EmptyArmKeepsTxEmpty(s: Otg, ep: nat, value: word)
    requires Shape(s) && TxEmptyInv(s) && ep < NUM_ENDPOINTS
    ensures Shape(CompleteIn(DisarmIn(ArmIn(s, ep, value), ep), ep))
    ensures TxEmptyInv(CompleteIn(DisarmIn(ArmIn(s, ep, value), ep), ep))
  {
    hide CompleteIn;
    var u := DisarmIn(ArmIn(s, ep, value), ep);
    DisarmedIsSilent(s, u, ep);
    CompleteInKeepsSignals(u, ep);
  }

  lemma {:induction false} WriteInCtlKeepsTxEmpty(s: Otg, ep: nat, value: word)
    requires Shape(s) && TxEmptyInv(s) && ep < NUM_ENDPOINTS
    ensures Shape(WriteInCtl(s, ep, value)) && TxEmptyInv(WriteInCtl(s, ep, value))
  {
    WriteInCtlKeepsShape(s, ep, value);
    if Bit(value, EPENA) && !Enabled(s.epIn[ep]) {
      hide CompleteIn, ArmIn, RaiseIn, DisarmIn, TxEmptyInv;
      EmptyArmKeepsTxEmpty(s, ep, value);
      ArmedKeepsTxEmpty(s, ep, value);
    } else {
      hide CompleteIn, ArmIn, RaiseIn, DisarmIn;
    }
  }

  lemma {:induction false} UnmaskKeepsEnabled(s: Otg, newly: word, n: nat)
    requires Shape(s) && n <= NUM_ENDPOINTS
    ensures var r := Unmask(s, newly, n);
            forall ep :: 0 <= ep < NUM_ENDPOINTS ==> Enabled(r.epIn[ep]) == Enabled(s.epIn[ep])
  {
    hide Bit, Unmask;
    UnmaskChangesOnlyInterrupts(s, newly, n);
  }

  /** Below `n` every armed and newly unmasked endpoint has been signalled;
      above, nothing changed. */
  lemma {:induction false} UnmaskSignals(s: Otg, newly: word, n: nat)
    requires Shape(s) && n <= NUM_ENDPOINTS
    ensures var r := Unmask(s, newly, n);
            && (forall ep :: 0 <= ep < n && Bit(newly, ep) && Enabled(s.epIn[ep]) ==> Signalled(r.history, ep))
            && (forall ep :: 0 <= ep < NUM_ENDPOINTS && (ep >= n || !Bit(newly, ep)) && Signalled(s.history, ep) ==>
                  Signalled(r.history, ep))
  {
    hide Bit, SetFlag, Enabled;
    if n != 0 {
      UnmaskSignals(s, newly, n - 1);
      UnmaskKeepsEnabled(s, newly, n - 1);
    }
  }

  lemma {:induction false} EmptyMaskKeepsTxEmpty(s: Otg, value: word)
    requires Shape(s) && TxEmptyInv(s)
    ensures Shape(WriteEmptyMask(s, value)) && TxEmptyInv(WriteEmptyMask(s, value))
  {
    var t, newly := s.(emptyMask := value), AndNot(value, s.emptyMask);
    UnmaskChangesOnlyInterrupts(t, newly, NUM_ENDPOINTS);
    UnmaskSignals(t, newly, NUM_ENDPOINTS);
    UnmaskKeepsEnabled(t, newly, NUM_ENDPOINTS);
  }

  lemma {:induction false} WriteInKeepsTxEmpty(s: Otg, ep: nat, reg: nat, value: word)
    requires Shape(s) && TxEmptyInv(s) && ep < NUM_ENDPOINTS
    ensures Shape(WriteIn(s, ep, reg, value)) && TxEmptyInv(WriteIn(s, ep, reg, value))
  {
    WriteInCtlKeepsTxEmpty(s, ep, value);
  }

  lemma {:induction false} WriteOutKeepsTxEmpty(s: Otg, ep: nat, reg: nat, value: word)
    requires Shape(s) && TxEmptyInv(s) && ep < NUM_ENDPOINTS
    ensures Shape(WriteOut(s, ep, reg, value)) && TxEmptyInv(WriteOut(s, ep, reg, value))
  {
    WriteOutCtlKeepsShape(s, ep, value);
  }

  lemma {:induction false} WriteGlobalKeepsTxEmpty(s: Otg, o: word, value: word)
    requires Shape(s) && TxEmptyInv(s)
    ensures Shape(WriteGlobal(s, o, value)) && TxEmptyInv(WriteGlobal(s, o, value))
  {
    hide WriteEmptyMask;
    EmptyMaskKeepsTxEmpty(s, value);
  }

  lemma {:induction false} WriteKeepsTxEmpty(s: Otg, offset: word, value: word)
    requires Shape(s) && TxEmptyInv(s)
    ensures Shape(WriteState(s, offset, value)) && TxEmptyInv(WriteState(s, offset, value))
  {
    hide PushTxWord, WriteIn, WriteOut, WriteGlobal, Shape, TxEmptyInv;
    match Decode(offset)
    case Fifo(ep) => PushKeepsTxEmpty(s, ep, value);
    case InReg(ep, reg) => WriteInKeepsTxEmpty(s, ep, reg, value);
    case OutReg(ep, reg) => WriteOutKeepsTxEmpty(s, ep, reg, value);
    case Global(o) => WriteGlobalKeepsTxEmpty(s, o, value);
  }

  lemma {:induction false} PopStatusKeepsTxEmpty(s: Otg)
    requires Shape(s) && TxEmptyInv(s)
    ensures Shape(PopStatus(s)) && TxEmptyInv(PopStatus(s))
  {
    PopStatusKeepsShape(s);
  }

  lemma {:induction false} ForwardKeepsTxEmpty(s: Otg)
    requires Shape(s) && TxEmptyInv(s)
    ensures Shape(ForwardBulkOut(s)) && TxEmptyInv(ForwardBulkOut(s))
  {
    ForwardKeepsShape(s);
  }

  lemma {:induction false} NextKeepsTxEmpty(s: Otg, e: Event)
    requires Shape(s) && TxEmptyInv(s)
    ensures Shape(Next(s, e)) && TxEmptyInv(Next(s, e))
  {
    hide WriteState, PopStatus, ForwardBulkOut, Decode;
    match e
    case FirmwareRead(offset) => PopStatusKeepsTxEmpty(s);
    case FirmwareWrite(offset, value) => WriteKeepsTxEmpty(s, offset, value);
    case PollAt(irqEnabled, now) =>
      RefreshKeepsShape(s, irqEnabled);
      var t := Sof(Refresh(s, irqEnabled), now);
      assert Shape(t) && TxEmptyInv(t);
      ForwardKeepsTxEmpty(t);
    case _ =>
  }

  /** Over any run of any firmware the status word firmware reads is exact and
      no armed, unmasked IN transfer waits for a TXFE that was never raised. */
  lemma {:induction false} NoLostInterrupts(bridge: Bridge, bulkIn: Option<nat>, bulkOut: Option<nat>,
                                            events: seq<Event>)
    requires Shape(Start(bridge, bulkIn, bulkOut))
    ensures var s := Run(Start(bridge, bulkIn, bulkOut), events);
            && StoredStatusInv(s) && TxEmptyInv(s)
            && (Bit(EffectiveStatus(s), 4) <==> s.rxStatus != [])
            && (Bit(EffectiveStatus(s), 18) <==> UnmaskedIn(s))
            && (Bit(EffectiveStatus(s), 19) <==> UnmaskedOut(s))
            && (InterruptPending(s) <==> Requested(s))
    decreases |events|
  {
    if events == [] {
      assert forall j: nat :: !Bit(0, j);
    } else {
      var t := Run(Start(bridge, bulkIn, bulkOut), events[..|events| - 1]);
      NoLostInterrupts(bridge, bulkIn, bulkOut, events[..|events| - 1]);
      NextKeepsStatus(t, events[|events| - 1]);
      NextKeepsTxEmpty(t, events[|events| - 1]);
    }
    LevelInterrupts(Run(Start(bridge, bulkIn, bulkOut), events));
    RequestedIff(Run(Start(bridge, bulkIn, bulkOut), events));
  }
}
