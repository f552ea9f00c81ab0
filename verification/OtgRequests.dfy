/** Interrupts of the OTG controller read off the events of a run alone: which flags firmware
    finds in the endpoint interrupt registers, what is waiting in GINTSTS, and when the
    controller requests its interrupt. */
module OtgRequests {
  import opened Bits
  import opened UsbCdcBridge
  import opened OtgModel
  import opened OtgRuns
  import opened OtgRegisters
  import OtgInterrupts

  // ---- What is pending ----

  /** The flag of OUT endpoint `ep` was raised, by firmware popping a completion of that
      endpoint, and since then neither acknowledged by firmware nor reset. */
  predicate OutPending(start: Otg, events: seq<Event>, ep: nat, flag: nat)
    requires Shape(start)
    decreases |events|
  {
    if events == [] then false
    else
      var (front, e) := (events[..|events| - 1], events[|events| - 1]);
      var s := Run(start, front);
      && !ResetBy(s, e)
      && (OutRaises(s, e, ep, flag) || (OutPending(start, front, ep, flag) && !Acks(e, 0xb08 + 0x20 * ep, flag)))
  }

  /** The flag of IN endpoint `ep` was raised, by a transfer that ended or an empty FIFO, and
      since then neither acknowledged nor reset. */
  predicate InPending(start: Otg, events: seq<Event>, ep: nat, flag: nat)
    requires Shape(start) && ep < 6
    decreases |events|
  {
    if events == [] then false
    else
      var (front, e) := (events[..|events| - 1], events[|events| - 1]);
      var s := Run(start, front);
      && !ResetBy(s, e)
      && (InRaises(s, e, ep, flag) || (InPending(start, front, ep, flag) && !Acks(e, 0x908 + 0x20 * ep, flag)))
  }

  /** The last value written to a global register, zero before the first. */
  function LastWritten(events: seq<Event>, offset: word): word
    decreases |events|
  {
    if events == [] then 0
    else
      var (front, e) := (events[..|events| - 1], events[|events| - 1]);
      if e.FirmwareWrite? && e.offset == offset then e.value else LastWritten(front, offset)
  }

  /** The status words of what the host sent, less those popped since or cleared by a reset. */
  function Unread(start: Otg, events: seq<Event>): seq<int>
    requires Shape(start)
    decreases |events|
  {
    if events == [] then []
    else
      var (front, e) := (events[..|events| - 1], events[|events| - 1]);
      var (s, queue) := (Run(start, front), Unread(start, front));
      (if ResetBy(s, e) then [] else if e == FirmwareRead(0x020) && queue != [] then queue[1..] else queue)
      + StatusesOf(Sends(s, e))
  }

  /** A start of frame (bit 3) or a bus reset (bit 12) happened and was not acknowledged. */
  predicate Waits(start: Otg, events: seq<Event>, flag: nat)
    requires Shape(start)
    decreases |events|
  {
    if events == [] then false
    else
      var (front, e) := (events[..|events| - 1], events[|events| - 1]);
      var s := Run(start, front);
      || (flag == 12 && ResetBy(s, e))
      || (flag == 3 && Frames(s, e))
      || (Waits(start, front, flag) && !Acks(e, 0x014, flag))
  }

  // ---- The registers hold exactly that ----

  /** Over any run of any firmware: a bit of an OUT endpoint's interrupt register is set
      exactly when that interrupt is pending. */
  lemma {:induction false} OutRegisterIsExact(bridge: Bridge, bulkIn: Option<nat>, bulkOut: Option<nat>,
                                              events: seq<Event>, ep: nat, flag: nat)
    requires Shape(Start(bridge, bulkIn, bulkOut)) && ep < 6
    ensures var (start, s) := (Start(bridge, bulkIn, bulkOut), Run(Start(bridge, bulkIn, bulkOut), events));
            Bit(s.epOut[ep].intr, flag) <==> OutPending(start, events, ep, flag)
    decreases |events|
  {
    hide Next, ResetBy, OutRaises, Acks, Bit;
    var start := Start(bridge, bulkIn, bulkOut);
    NoBits();
    if events != [] {
      var (front, e) := (events[..|events| - 1], events[|events| - 1]);
      OutRegisterIsExact(bridge, bulkIn, bulkOut, front, ep, flag);
      OutFollowsEvent(Run(start, front), e, ep);
    }
  }

  lemma {:induction false} NoBits()
    ensures forall j: nat :: !Bit(0, j)
  {
  }

  /** The same for an IN endpoint. */
  lemma {:induction false} InRegisterIsExact(bridge: Bridge, bulkIn: Option<nat>, bulkOut: Option<nat>,
                                             events: seq<Event>, ep: nat, flag: nat)
    requires Shape(Start(bridge, bulkIn, bulkOut)) && ep < 6
    ensures var (start, s) := (Start(bridge, bulkIn, bulkOut), Run(Start(bridge, bulkIn, bulkOut), events));
            Bit(s.epIn[ep].intr, flag) <==> InPending(start, events, ep, flag)
    decreases |events|
  {
    hide Next, ResetBy, InRaises, Acks, Arms, Fills, Completes, Bit;
    var start := Start(bridge, bulkIn, bulkOut);
    NoBits();
    if events != [] {
      var (front, e) := (events[..|events| - 1], events[|events| - 1]);
      InRegisterIsExact(bridge, bulkIn, bulkOut, front, ep, flag);
      InFollowsEvent(Run(start, front), e, ep);
    }
  }

  /** The registers that hold what firmware last wrote. */
  lemma {:induction false} MasksAreLastWritten(bridge: Bridge, bulkIn: Option<nat>, bulkOut: Option<nat>,
                                               events: seq<Event>)
    requires Shape(Start(bridge, bulkIn, bulkOut))
    ensures var s := Run(Start(bridge, bulkIn, bulkOut), events);
            && s.intMask == LastWritten(events, 0x018) && s.emptyMask == LastWritten(events, 0x834)
            && s.plain.dcfg == LastWritten(events, 0x800) && s.plain.dctl == LastWritten(events, 0x804)
            && s.plain.diepMask == LastWritten(events, 0x810) && s.plain.doepMask == LastWritten(events, 0x814)
            && s.plain.daintMask == LastWritten(events, 0x81c)
    decreases |events|
  {
    hide Next;
    if events != [] {
      var (front, e) := (events[..|events| - 1], events[|events| - 1]);
      MasksAreLastWritten(bridge, bulkIn, bulkOut, front);
      GlobalsFollowEvent(Run(Start(bridge, bulkIn, bulkOut), front), e);
    }
  }

  lemma {:induction false} OthersAreLastWritten(bridge: Bridge, bulkIn: Option<nat>, bulkOut: Option<nat>,
                                                events: seq<Event>, o: word, j: nat)
    requires Shape(Start(bridge, bulkIn, bulkOut))
    ensures var other := Run(Start(bridge, bulkIn, bulkOut), events).plain.other;
            && (o !in {0x010, 0x800, 0x804, 0x810, 0x814, 0x81c, 0x014, 0x018, 0x834} && IsGlobal(o) ==>
                  Lookup(other, o) == LastWritten(events, o))
            && (Bit(Lookup(other, 0x010), j) <==> j != 0 && j != 4 && j != 5 && Bit(LastWritten(events, 0x010), j))
    decreases |events|
  {
    hide Next, Bit, Lookup;
    if events == [] {
      NoBits();
      NothingStored();
    } else {
      var (front, e) := (events[..|events| - 1], events[|events| - 1]);
      OthersAreLastWritten(bridge, bulkIn, bulkOut, front, o, j);
      GlobalsFollowEvent(Run(Start(bridge, bulkIn, bulkOut), front), e);
    }
  }

  lemma {:induction false} NothingStored()
    ensures forall o: word :: Lookup(map[], o) == 0
  {
  }

  /** Every global register but the status registers, the status queue and GRSTCTL reads back
      what was last written there, also after a reset; GRSTCTL always shows bit 31 (AHB idle)
      and never its self-clearing bits 0, 4 and 5. */
  lemma {:induction false} RegistersReadBack(bridge: Bridge, bulkIn: Option<nat>, bulkOut: Option<nat>,
                                             events: seq<Event>, o: word, j: nat)
    requires Shape(Start(bridge, bulkIn, bulkOut))
    ensures var s := Run(Start(bridge, bulkIn, bulkOut), events);
            && (IsGlobal(o) && o !in {0x010, 0x014, 0x01c, 0x020, 0x818} ==> ReadValue(s, o) == LastWritten(events, o))
            && (Bit(ReadValue(s, 0x010), j) <==>
                  j == 31 || (j != 0 && j != 4 && j != 5 && Bit(LastWritten(events, 0x010), j)))
  {
    hide Run, Start, Bit, Lookup, LastWritten, EffectiveStatus, Daint, ReadValue;
    var s := Run(Start(bridge, bulkIn, bulkOut), events);
    MasksAreLastWritten(bridge, bulkIn, bulkOut, events);
    OthersAreLastWritten(bridge, bulkIn, bulkOut, events, o, j);
    GlobalReads(s, o);
    GlobalReads(s, 0x010);
  }

  lemma {:induction false} StatusesAreUnread(bridge: Bridge, bulkIn: Option<nat>, bulkOut: Option<nat>,
                                             events: seq<Event>)
    requires Shape(Start(bridge, bulkIn, bulkOut))
    ensures var start := Start(bridge, bulkIn, bulkOut);
            Run(start, events).rxStatus == Unread(start, events)
    decreases |events|
  {
    hide Next, ResetBy, Sends, StatusesOf, PayloadsOf;
    if events != [] {
      var (front, e) := (events[..|events| - 1], events[|events| - 1]);
      StatusesAreUnread(bridge, bulkIn, bulkOut, front);
      ReceiveFollowsEvent(Run(Start(bridge, bulkIn, bulkOut), front), e);
    }
  }

  lemma {:induction false} StoredIsWaiting(bridge: Bridge, bulkIn: Option<nat>, bulkOut: Option<nat>,
                                           events: seq<Event>, flag: nat)
    requires Shape(Start(bridge, bulkIn, bulkOut))
    ensures var start := Start(bridge, bulkIn, bulkOut);
            Bit(Run(start, events).intStatus, flag) <==> Waits(start, events, flag)
    decreases |events|
  {
    hide Next, ResetBy, Frames, Acks, Bit;
    NoBits();
    if events != [] {
      var (front, e) := (events[..|events| - 1], events[|events| - 1]);
      StoredIsWaiting(bridge, bulkIn, bulkOut, front, flag);
      GlobalsFollowEvent(Run(Start(bridge, bulkIn, bulkOut), front), e);
    }
  }

  /** When the last start of frame was signalled, zero before the first. */
  function LastFrame(start: Otg, events: seq<Event>): long
    requires Shape(start)
    decreases |events|
  {
    if events == [] then 0
    else
      var (front, e) := (events[..|events| - 1], events[|events| - 1]);
      if Frames(Run(start, front), e) then e.now else LastFrame(start, front)
  }

  /** A poll signals a start of frame exactly when the host is attached, before or by this
      poll, and 1000 instructions have passed since the last one. */
  lemma {:induction false} FramesAreSpaced(bridge: Bridge, bulkIn: Option<nat>, bulkOut: Option<nat>,
                                           events: seq<Event>, irqEnabled: bool, now: long)
    requires Shape(Start(bridge, bulkIn, bulkOut))
    ensures var (start, e) := (Start(bridge, bulkIn, bulkOut), PollAt(irqEnabled, now));
            var s := Run(start, events);
            && s.lastSof == LastFrame(start, events)
            && (Frames(s, e) <==>
                  && (ResetBy(s, e) || (s.hostAttached && HostPresent(s.bridge)))
                  && (now - LastFrame(start, events)) % 0x1_0000_0000_0000_0000 >= 1000)
    decreases |events|
  {
    hide Next, ResetBy, HostPresent;
    if events != [] {
      var (front, e) := (events[..|events| - 1], events[|events| - 1]);
      FramesAreSpaced(bridge, bulkIn, bulkOut, front, irqEnabled, now);
      GlobalsFollowEvent(Run(Start(bridge, bulkIn, bulkOut), front), e);
    }
  }

  // ---- The level bits and the request ----

  /** Some interrupt of an OUT endpoint is pending and its DAINTMSK bit, from bit 16, was set
      when last written. */
  ghost predicate AnyOut(start: Otg, events: seq<Event>)
    requires Shape(start)
  {
    exists ep: nat, flag: nat ::
      ep < 6 && OutPending(start, events, ep, flag) && Bit(LastWritten(events, 0x81c), 16 + ep)
  }

  ghost predicate AnyIn(start: Otg, events: seq<Event>)
    requires Shape(start)
  {
    exists ep: nat, flag: nat :: ep < 6 && InPending(start, events, ep, flag) && Bit(LastWritten(events, 0x81c), ep)
  }

  lemma {:induction false} OutLevel(bridge: Bridge, bulkIn: Option<nat>, bulkOut: Option<nat>, events: seq<Event>)
    requires Shape(Start(bridge, bulkIn, bulkOut))
    ensures var start := Start(bridge, bulkIn, bulkOut);
            OtgInterrupts.UnmaskedOut(Run(start, events)) <==> AnyOut(start, events)
  {
    hide Run, Bit, OutPending, LastWritten, Start;
    var start := Start(bridge, bulkIn, bulkOut);
    var s := Run(start, events);
    MasksAreLastWritten(bridge, bulkIn, bulkOut, events);
    if OtgInterrupts.UnmaskedOut(s) {
      var ep :| 0 <= ep < 6 && s.epOut[ep].intr != 0 && Bit(s.plain.daintMask, 16 + ep);
      NonZeroHasBit(s.epOut[ep].intr);
      var flag: nat :| Bit(s.epOut[ep].intr, flag);
      OutRegisterIsExact(bridge, bulkIn, bulkOut, events, ep, flag);
    }
    if AnyOut(start, events) {
      var ep: nat, flag: nat :| ep < 6 && OutPending(start, events, ep, flag)
                                && Bit(LastWritten(events, 0x81c), 16 + ep);
      OutRegisterIsExact(bridge, bulkIn, bulkOut, events, ep, flag);
      NoBits();
    }
  }

  lemma {:induction false} InLevel(bridge: Bridge, bulkIn: Option<nat>, bulkOut: Option<nat>, events: seq<Event>)
    requires Shape(Start(bridge, bulkIn, bulkOut))
    ensures var start := Start(bridge, bulkIn, bulkOut);
            OtgInterrupts.UnmaskedIn(Run(start, events)) <==> AnyIn(start, events)
  {
    hide Run, Bit, InPending, LastWritten, Start;
    var start := Start(bridge, bulkIn, bulkOut);
    var s := Run(start, events);
    MasksAreLastWritten(bridge, bulkIn, bulkOut, events);
    if OtgInterrupts.UnmaskedIn(s) {
      var ep :| 0 <= ep < 6 && s.epIn[ep].intr != 0 && Bit(s.plain.daintMask, ep);
      NonZeroHasBit(s.epIn[ep].intr);
      var flag: nat :| Bit(s.epIn[ep].intr, flag);
      InRegisterIsExact(bridge, bulkIn, bulkOut, events, ep, flag);
    }
    if AnyIn(start, events) {
      var ep: nat, flag: nat :| ep < 6 && InPending(start, events, ep, flag) && Bit(LastWritten(events, 0x81c), ep);
      InRegisterIsExact(bridge, bulkIn, bulkOut, events, ep, flag);
      NoBits();
    }
  }

  /** What firmware reads in GINTSTS after any run: RXFLVL (bit 4), IEPINT (bit 18) and
      OEPINT (bit 19) by what is unread or pending now, SOF and USB_RESET until
      acknowledged, and no other bit. */
  lemma {:induction false} StatusIsReadOff(bridge: Bridge, bulkIn: Option<nat>, bulkOut: Option<nat>,
                                           events: seq<Event>, j: nat)
    requires Shape(Start(bridge, bulkIn, bulkOut))
    ensures var start := Start(bridge, bulkIn, bulkOut);
            Bit(ReadValue(Run(start, events), 0x014), j) <==>
            match j
            case 4 => Unread(start, events) != []
            case 18 => AnyIn(start, events)
            case 19 => AnyOut(start, events)
            case 3 => Waits(start, events, 3)
            case 12 => Waits(start, events, 12)
            case _ => false
  {
    hide Run, Bit, AnyIn, AnyOut, Unread, Waits, Start, EffectiveStatus, OtgInterrupts.TxEmptyInv,
         OtgInterrupts.UnmaskedIn, OtgInterrupts.UnmaskedOut, InterruptPending, ReadValue;
    var s := Run(Start(bridge, bulkIn, bulkOut), events);
    OtgInterrupts.NoLostInterrupts(bridge, bulkIn, bulkOut, events);
    OtgInterrupts.LevelInterrupts(s);
    GlobalReads(s, 0x014);
    StatusesAreUnread(bridge, bulkIn, bulkOut, events);
    InLevel(bridge, bulkIn, bulkOut, events);
    OutLevel(bridge, bulkIn, bulkOut, events);
    StoredIsWaiting(bridge, bulkIn, bulkOut, events, j);
  }

  /** The causes of a request, from the events alone: each level or stored cause with the
      bit of the last GINTMSK write. */
  ghost predicate Demanded(start: Otg, events: seq<Event>)
    requires Shape(start)
  {
    var mask := LastWritten(events, 0x018);
    || (Bit(mask, 4) && Unread(start, events) != [])
    || (Bit(mask, 18) && AnyIn(start, events))
    || (Bit(mask, 19) && AnyOut(start, events))
    || (Bit(mask, 3) && Waits(start, events, 3))
    || (Bit(mask, 12) && Waits(start, events, 12))
  }

  /** After any run, in particular after every poll, the controller requests its interrupt
      exactly when something it was asked to report is waiting. */
  lemma {:induction false} RequestIsReadOff(bridge: Bridge, bulkIn: Option<nat>, bulkOut: Option<nat>,
                                            events: seq<Event>)
    requires Shape(Start(bridge, bulkIn, bulkOut))
    ensures var start := Start(bridge, bulkIn, bulkOut);
            InterruptPending(Run(start, events)) <==> Demanded(start, events)
  {
    hide Run, Bit, AnyIn, AnyOut, Unread, Waits, Start, OtgInterrupts.TxEmptyInv, OtgInterrupts.StoredStatusInv,
         OtgInterrupts.UnmaskedIn, OtgInterrupts.UnmaskedOut, InterruptPending, EffectiveStatus;
    OtgInterrupts.NoLostInterrupts(bridge, bulkIn, bulkOut, events);
    MasksAreLastWritten(bridge, bulkIn, bulkOut, events);
    StatusesAreUnread(bridge, bulkIn, bulkOut, events);
    InLevel(bridge, bulkIn, bulkOut, events);
    OutLevel(bridge, bulkIn, bulkOut, events);
    StoredIsWaiting(bridge, bulkIn, bulkOut, events, 3);
    StoredIsWaiting(bridge, bulkIn, bulkOut, events, 12);
  }
}
