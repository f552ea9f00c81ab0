/** The register interface of the OTG controller, in the offsets, bit numbers and bytes of
    the device: what firmware reads, and what one access or poll does to each part of the
    state, organised by what causes it. */
module OtgRegisters {
  import opened Bits
  import opened ByteQueues
  import opened UsbCdcBridge
  import opened OtgModel
  import opened OtgRuns
  import CdcLink

  // ---- The register map ----

  /** Which register an offset names: a 4 KiB FIFO window per endpoint, 0x20 bytes per
      endpoint from 0x900 (IN) and 0xb00 (OUT), and everything else global. */
  lemma {:induction false} RegisterMap(offset: word, ep: nat, reg: nat)
    requires ep < 6 && reg < 0x20
    ensures Decode(offset) == Fifo(ep) <==> 0x1000 * (ep + 1) <= offset < 0x1000 * (ep + 2)
    ensures Decode(offset) == InReg(ep, reg) <==> offset == 0x900 + 0x20 * ep + reg
    ensures Decode(offset) == OutReg(ep, reg) <==> offset == 0xb00 + 0x20 * ep + reg
    ensures Decode(offset) == Global(offset)
            <==> !(0x900 <= offset < 0x9c0) && !(0xb00 <= offset < 0xbc0) && !(0x1000 <= offset < 0x7000)
    ensures Decode(offset).InReg? || Decode(offset).OutReg? ==> Decode(offset).reg < 0x20
  {
  }

  /** Reading an endpoint register. */
  lemma {:induction false} EndpointReads(s: Otg, ep: nat, reg: nat)
    requires Shape(s) && ep < 6 && reg < 0x20
    ensures ReadValue(s, 0x900 + 0x20 * ep + reg)
            == match reg
               case 0x00 => s.epIn[ep].ctl
               case 0x08 => s.epIn[ep].intr
               case 0x10 => s.epIn[ep].tsiz
               case 0x18 => 16
               case _ => 0
    ensures ReadValue(s, 0xb00 + 0x20 * ep + reg)
            == match reg
               case 0x00 => s.epOut[ep].ctl
               case 0x08 => s.epOut[ep].intr
               case 0x10 => s.epOut[ep].tsiz
               case _ => 0
  {
    hide Decode;
    RegisterMap(0x900 + 0x20 * ep + reg, ep, reg);
    RegisterMap(0xb00 + 0x20 * ep + reg, ep, reg);
  }

  predicate IsGlobal(offset: word) {
    !(0x900 <= offset < 0x9c0) && !(0xb00 <= offset < 0xbc0) && !(0x1000 <= offset < 0x7000)
  }

  /** Reading a global register. The FIFO window of the control endpoint gives the front of
      the receive FIFO, the other windows nothing. */
  lemma {:induction false} GlobalReads(s: Otg, offset: word)
    requires Shape(s)
    ensures IsGlobal(offset) ==> ReadValue(s, offset)
                                 == match offset
                                    case 0x010 => SetFlag(Lookup(s.plain.other, 0x010), 31)
                                    case 0x014 => EffectiveStatus(s)
                                    case 0x018 => s.intMask
                                    case 0x01c => if s.rxStatus == [] then 0 else s.rxStatus[0]
                                    case 0x020 => if s.rxStatus == [] then 0 else s.rxStatus[0]
                                    case 0x800 => s.plain.dcfg
                                    case 0x804 => s.plain.dctl
                                    case 0x810 => s.plain.diepMask
                                    case 0x814 => s.plain.doepMask
                                    case 0x818 => Daint(s)
                                    case 0x81c => s.plain.daintMask
                                    case 0x834 => s.emptyMask
                                    case _ => Lookup(s.plain.other, offset)
    ensures 0x2000 <= offset < 0x7000 ==> ReadValue(s, offset) == 0
    ensures 0x1000 <= offset < 0x2000 ==> LeBytes(ReadValue(s, offset)) == (s.rxFifo + [0, 0, 0, 0])[..4]
  {
    hide Decode, EffectiveStatus, Daint, LeBytes, LeWord, Padded;
    RegisterMap(offset, 0, 0);
    if 0x1000 <= offset < 0x2000 {
      var front := s.rxFifo[..Min(4, |s.rxFifo|)];
      PaddedWithZeros(front);
      assert (front + [0, 0, 0, 0])[..4] == (s.rxFifo + [0, 0, 0, 0])[..4];
      var b := Padded(front);
      LeBytesOfWord(b[0], b[1], b[2], b[3]);
      assert b == [b[0], b[1], b[2], b[3]];
    } else if 0x2000 <= offset < 0x7000 {
      RegisterMap(offset, offset / 0x1000 - 1, 0);
    }
  }

  /** DAINT holds a bit per endpoint with an interrupt: IN from bit 0, OUT from bit 16. */
  lemma {:induction false} DaintBits(s: Otg, j: nat)
    requires Shape(s)
    ensures Bit(Daint(s), j) <==>
            (j < 6 && s.epIn[j].intr != 0) || (16 <= j < 22 && s.epOut[j - 16].intr != 0)
  {
    hide EndpointBits;
    assert !Bit(0, j);
  }

  // ---- Causes, read off an event and the state it finds ----

  /** A poll that attaches the host and so resets the bus. */
  predicate ResetBy(s: Otg, e: Event) {
    e.PollAt? && e.irqEnabled && s.intMask != 0 && !s.hostAttached && HostPresent(s.bridge)
  }

  /** A device attached to the in-process link, or a TCP client. */
  predicate HostPresent(b: Bridge) {
    match b
    case NoBridge => false
    case Embedded(link) => link.stage != CdcLink.Detached
    case Tcp(client, _, _, _) => client
  }

  /** DIEPCTL is written with EPENA, and did not have it. */
  predicate Arms(s: Otg, e: Event, ep: nat)
    requires ep < |s.epIn|
  {
    e.FirmwareWrite? && e.offset == 0x900 + 0x20 * ep && Bit(e.value, 31) && !Bit(s.epIn[ep].ctl, 31)
  }

  /** A word is written into the FIFO window of the endpoint. */
  predicate Fills(e: Event, ep: nat) {
    e.FirmwareWrite? && 0x1000 * (ep + 1) <= e.offset < 0x1000 * (ep + 2)
  }

  /** An IN transfer ends: the last word of an armed one, or the arming of an empty one. */
  predicate Completes(s: Otg, e: Event, ep: nat)
    requires ep < |s.epIn|
  {
    || (Arms(s, e, ep) && s.epIn[ep].tsiz % 0x8_0000 == 0)
    || (Fills(e, ep) && Bit(s.epIn[ep].ctl, 31)
        && (s.epIn[ep].sent + 4) % 0x1_0000_0000 >= s.epIn[ep].tsiz % 0x8_0000)
  }

  /** An armed transfer with room in its FIFO meets its mask bit: whichever comes last. */
  predicate SignalsEmpty(s: Otg, e: Event, ep: nat)
    requires ep < |s.epIn|
  {
    || (Arms(s, e, ep) && s.epIn[ep].tsiz % 0x8_0000 != 0 && Bit(s.emptyMask, ep))
    || (e.FirmwareWrite? && e.offset == 0x834 && Bit(e.value, ep) && !Bit(s.emptyMask, ep) && Bit(s.epIn[ep].ctl, 31))
  }

  /** Interrupts of an IN endpoint: XFRC is bit 0, TXFE bit 7. */
  predicate InRaises(s: Otg, e: Event, ep: nat, flag: nat)
    requires ep < |s.epIn|
  {
    (flag == 0 && Completes(s, e, ep)) || (flag == 7 && SignalsEmpty(s, e, ep))
  }

  /** Interrupts of an OUT endpoint: a read of GRXSTSP returned a completion status of the
      endpoint, 4 for a SETUP (STUP, bit 3) or 3 for data (XFRC, bit 0). */
  predicate OutRaises(s: Otg, e: Event, ep: nat, flag: nat) {
    && e == FirmwareRead(0x020) && s.rxStatus != []
    && var w := s.rxStatus[0];
       && w % 16 == ep
       && ((flag == 3 && w / 0x2_0000 % 16 == 4) || (flag == 0 && w / 0x2_0000 % 16 == 3))
  }

  /** A write of ones to the endpoint's interrupt register. */
  predicate Acks(e: Event, register: nat, flag: nat) {
    e.FirmwareWrite? && e.offset == register && Bit(e.value, flag)
  }

  /** A poll moves a packet from the bridge to the armed bulk OUT endpoint `ep`. */
  predicate Delivers(s: Otg, e: Event, ep: nat)
    requires ep < |s.epOut|
  {
    && e.PollAt? && !ResetBy(s, e) && s.step == Configured && s.bulkOut == Some(ep) && !s.bridge.NoBridge?
    && Bit(s.epOut[ep].ctl, 31) && s.epOut[ep].tsiz % 0x8_0000 != 0 && Waiting(s.bridge) != []
  }

  function Waiting(b: Bridge): seq<byte> {
    match b
    case NoBridge => []
    case Embedded(link) => link.hostToDevice
    case Tcp(_, toDevice, _, _) => toDevice
  }

  /** At most 64 bytes and at most the transfer size, from the front. */
  function FrontPacket(s: Otg, ep: nat): seq<byte>
    requires ep < |s.epOut|
  {
    var limit := if s.epOut[ep].tsiz % 0x8_0000 < 64 then s.epOut[ep].tsiz % 0x8_0000 else 64;
    if |Waiting(s.bridge)| < limit then Waiting(s.bridge) else Waiting(s.bridge)[..limit]
  }

  /** DOEPCTL0 is written with USBAEP for the first time before the enumeration starts. */
  predicate Activates(s: Otg, e: Event)
    requires |s.epOut| == 6
  {
    && e.FirmwareWrite? && e.offset == 0xb00 && Bit(e.value, 15) && !Bit(s.epOut[0].ctl, 15)
    && s.step == AwaitingDeviceDescriptor
  }

  // ---- The receive path ----

  datatype HostPacket = Setup(ep: nat, bytes: seq<byte>) | Data(ep: nat, bytes: seq<byte>)

  /** What the host sends when a control-IN transfer completes: the status stage of
      GET_DESCRIPTOR and SET_ADDRESS 5, then SET_CONFIGURATION 1, SET_LINE_CODING with
      115200 8N1, and SET_CONTROL_LINE_STATE with DTR and RTS. */
  function Requests(step: HostStep): seq<HostPacket> {
    match step
    case AwaitingDeviceDescriptor => [Data(0, []), Setup(0, [0x00, 0x05, 0x05, 0x00, 0x00, 0x00, 0x00, 0x00])]
    case AwaitingSetAddressStatus => [Setup(0, [0x00, 0x09, 0x01, 0x00, 0x00, 0x00, 0x00, 0x00])]
    case AwaitingSetConfigurationStatus =>
      [Setup(0, [0x21, 0x20, 0x00, 0x00, 0x00, 0x00, 0x07, 0x00]),
       Data(0, [0x00, 0xc2, 0x01, 0x00, 0x00, 0x00, 0x08])]
    case AwaitingSetLineCodingStatus => [Setup(0, [0x21, 0x22, 0x03, 0x00, 0x00, 0x00, 0x00, 0x00])]
    case _ => []
  }

  /** The packets an event makes the host send. */
  function Sends(s: Otg, e: Event): seq<HostPacket>
    requires Shape(s)
  {
    if Activates(s, e) then [Setup(0, [0x80, 0x06, 0x00, 0x01, 0x00, 0x00, 0x12, 0x00])]
    else if Completes(s, e, 0) then Requests(s.step)
    else if s.bulkOut.Some? && Delivers(s, e, s.bulkOut.value)
    then [Data(s.bulkOut.value, FrontPacket(s, s.bulkOut.value))]
    else []
  }

  /** The two status words of a packet: PKTSTS in bits 17 to 20, the byte count from bit 4,
      the endpoint in bits 0 to 3. */
  function StatusesOf(packets: seq<HostPacket>): seq<int> {
    if packets == [] then []
    else
      StatusesOf(packets[..|packets| - 1])
      + match packets[|packets| - 1]
        case Setup(ep, _) => [6 * 0x2_0000 + 8 * 0x10 + ep, 4 * 0x2_0000 + ep]
        case Data(ep, bytes) => [2 * 0x2_0000 + |bytes| * 0x10 + ep, 3 * 0x2_0000 + ep]
  }

  function PayloadsOf(packets: seq<HostPacket>): seq<byte> {
    if packets == [] then [] else PayloadsOf(packets[..|packets| - 1]) + packets[|packets| - 1].bytes
  }

  /** `t` is `s` after receiving `packets`. */
  ghost predicate Receives(s: Otg, t: Otg, packets: seq<HostPacket>) {
    t.rxStatus == s.rxStatus + StatusesOf(packets) && t.rxFifo == s.rxFifo + PayloadsOf(packets)
  }

  function StepAfter(step: HostStep): HostStep {
    match step
    case AwaitingDeviceDescriptor => AwaitingSetAddressStatus
    case AwaitingSetAddressStatus => AwaitingSetConfigurationStatus
    case AwaitingSetConfigurationStatus => AwaitingSetLineCodingStatus
    case AwaitingSetLineCodingStatus => AwaitingSetControlLineStateStatus
    case _ => Configured
  }

  /** The stage the host thread sees in each step. */
  function StageIn(step: HostStep): CdcLink.Stage {
    match step
    case AwaitingDeviceDescriptor => CdcLink.AwaitingDeviceDescriptor
    case AwaitingSetAddressStatus => CdcLink.AwaitingSetAddressStatus
    case AwaitingSetConfigurationStatus => CdcLink.AwaitingSetConfigurationStatus
    case AwaitingSetLineCodingStatus => CdcLink.AwaitingSetLineCodingStatus
    case AwaitingSetControlLineStateStatus => CdcLink.AwaitingSetControlLineStateStatus
    case Configured => CdcLink.ProtocolReady
  }

  lemma {:induction false} SetupIsReceived(s: Otg, ep: nat, packet: seq<byte>)
    requires ep < 16
    ensures Receives(s, QueueSetup(s, ep, packet), [Setup(ep, packet)])
  {
    assert [Setup(ep, packet)][..0] == [];
  }

  lemma {:induction false} DataIsReceived(s: Otg, ep: nat, data: seq<byte>)
    requires ep < 16 && |data| < 0x2000
    ensures Receives(s, QueueOut(s, ep, data), [Data(ep, data)])
  {
    assert [Data(ep, data)][..0] == [];
  }

  lemma {:induction false} BothAreReceived(s: Otg, t: Otg, u: Otg, p: HostPacket, q: HostPacket)
    requires Receives(s, t, [p]) && Receives(t, u, [q])
    ensures Receives(s, u, [p, q])
  {
    hide StatusesOf, PayloadsOf;
    TwoPackets(p, q);
    assert (s.rxStatus + StatusesOf([p])) + StatusesOf([q]) == s.rxStatus + (StatusesOf([p]) + StatusesOf([q]));
    assert (s.rxFifo + PayloadsOf([p])) + PayloadsOf([q]) == s.rxFifo + (PayloadsOf([p]) + PayloadsOf([q]));
  }

  lemma {:induction false} TwoPackets(p: HostPacket, q: HostPacket)
    ensures StatusesOf([p, q]) == StatusesOf([p]) + StatusesOf([q])
    ensures PayloadsOf([p, q]) == PayloadsOf([p]) + PayloadsOf([q])
  {
    assert [p, q][..1] == [p] && [q][..0] == [];
    assert StatusesOf([]) == [] && PayloadsOf([]) == [];
  }

  lemma {:induction false} ScriptIs(s: Otg)
    ensures var t := Script(s);
            && Receives(s, t, Requests(s.step))
            && t == s.(rxStatus := t.rxStatus, rxFifo := t.rxFifo, history := t.history)
  {
    hide StatusesOf, PayloadsOf, StatusWord;
    match s.step
    case AwaitingDeviceDescriptor =>
      var t := QueueOut(s, 0, []);
      DataIsReceived(s, 0, []);
      SetupIsReceived(t, 0, SET_ADDRESS);
      BothAreReceived(s, t, Script(s), Data(0, []), Setup(0, SET_ADDRESS));
    case AwaitingSetAddressStatus => SetupIsReceived(s, 0, SET_CONFIGURATION);
    case AwaitingSetConfigurationStatus =>
      var t := QueueSetup(s, 0, SET_LINE_CODING);
      SetupIsReceived(s, 0, SET_LINE_CODING);
      DataIsReceived(t, 0, LINE_CODING);
      BothAreReceived(s, t, Script(s), Setup(0, SET_LINE_CODING), Data(0, LINE_CODING));
    case AwaitingSetLineCodingStatus => SetupIsReceived(s, 0, SET_CONTROL_LINE_STATE);
    case _ => NothingReceived(s);
  }

  lemma {:induction false} NothingReceived(s: Otg)
    ensures Receives(s, s, [])
  {
  }

  /** A completed transfer: XFRC of its endpoint, and for the control endpoint the next
      step of the host, for the bulk endpoint of a configured device its bytes. */
  lemma {:induction false} CompletionIs(s: Otg, ep: nat)
    requires Shape(s) && ep < 6
    ensures var t := CompleteIn(s, ep);
            var bytes := s.txFifo[ep][..Min(s.epIn[ep].tsiz % 0x8_0000, |s.txFifo[ep]|)];
            var bulk := 0 < ep && s.step == Configured && s.bulkIn == Some(ep);
            && t.epIn == s.epIn[ep := s.epIn[ep].(intr := SetFlag(s.epIn[ep].intr, 0))]
            && t == s.(epIn := t.epIn, rxStatus := t.rxStatus, rxFifo := t.rxFifo, history := t.history,
                       txFifo := if ep == 0 || bulk then s.txFifo[ep := []] else s.txFifo,
                       step := if ep == 0 then StepAfter(s.step) else s.step,
                       pendingBridgeWrites := if bulk && s.bridge.NoBridge? then s.pendingBridgeWrites + bytes
                                              else s.pendingBridgeWrites,
                       bridge := if ep == 0 && s.step != Configured then Staged(s.bridge, StageIn(StepAfter(s.step)))
                                 else if bulk then Forwarded(s.bridge, bytes) else s.bridge)
            && Receives(s, t, if ep == 0 then Requests(s.step) else [])
  {
    hide SetFlag, Script, StatusesOf, PayloadsOf;
    NothingReceived(s);
    if ep == 0 {
      var t := RaiseIn(s, 0, XFRC);
      ScriptIs(t.(txFifo := t.txFifo[0 := []]));
    }
  }

  // ---- Endpoint registers ----

  /** An IN endpoint after an event: its size register holds what was written, its control
      register too except that EPENA falls when the transfer completes, and each interrupt
      is there when it was raised, or was there and not acknowledged. */
  ghost predicate InFollows(s: Otg, e: Event, ep: nat, t: Otg)
    requires Shape(s) && Shape(t) && ep < 6
  {
    var (b, a) := (s.epIn[ep], t.epIn[ep]);
    if ResetBy(s, e) then a == Endpoint(0, 0, 0, 0)
    else
      var written := e.FirmwareWrite? && e.offset == 0x900 + 0x20 * ep;
      && a.tsiz == (if e.FirmwareWrite? && e.offset == 0x910 + 0x20 * ep then e.value else b.tsiz)
      && a.sent == (if Arms(s, e, ep) then 0 else if Fills(e, ep) then (b.sent + 4) % 0x1_0000_0000 else b.sent)
      && (forall j: nat :: Bit(a.ctl, j) <==>
            (if written then Bit(e.value, j) else Bit(b.ctl, j)) && !(j == 31 && Completes(s, e, ep)))
      && (forall j: nat :: Bit(a.intr, j) <==>
            InRaises(s, e, ep, j) || (Bit(b.intr, j) && !Acks(e, 0x908 + 0x20 * ep, j)))
  }

  lemma {:induction false} UnmaskIs(s: Otg, newly: word, n: nat, ep: nat)
    requires n <= 6 && |s.epIn| == 6 && ep < 6
    ensures var e := s.epIn[ep];
            Unmask(s, newly, n).epIn[ep]
            == if ep < n && Bit(newly, ep) && Bit(e.ctl, 31) then e.(intr := SetFlag(e.intr, 7)) else e
  {
    hide Bit, SetFlag;
    if n != 0 {
      UnmaskIs(s, newly, n - 1, ep);
      UnmaskIs(s, newly, n - 1, n - 1);
    }
  }

  // The four operations on the IN endpoints

  lemma {:induction false} FillIs(s: Otg, k: nat, value: word, ep: nat)
    requires Shape(s) && k < 6 && ep < 6
    ensures var (t, e) := (PushTxWord(s, k, value), s.epIn[k]);
            var ends := Bit(e.ctl, 31) && (e.sent + 4) % 0x1_0000_0000 >= e.tsiz % 0x8_0000;
            && |t.epIn| == 6
            && t.epIn[ep] == if k != ep then s.epIn[ep]
                             else if ends then Endpoint(ClearBit(e.ctl, 31), SetFlag(e.intr, 0), e.tsiz,
                                                        (e.sent + 4) % 0x1_0000_0000)
                             else e.(sent := (e.sent + 4) % 0x1_0000_0000)
  {
    hide Bit, CompleteIn, SetFlag, ClearBit, LeBytes;
    CompletionIs(DisarmIn(AppendTxWord(s, k, value), k), k);
  }

  lemma {:induction false} ControlIs(s: Otg, k: nat, value: word, ep: nat)
    requires Shape(s) && k < 6 && ep < 6
    ensures var (t, e) := (WriteInCtl(s, k, value), s.epIn[k]);
            var arms := Bit(value, 31) && !Bit(e.ctl, 31);
            && |t.epIn| == 6
            && t.epIn[ep] == if k != ep then s.epIn[ep]
                             else if !arms then e.(ctl := value)
                             else if e.tsiz % 0x8_0000 == 0
                             then Endpoint(ClearBit(value, 31), SetFlag(e.intr, 0), e.tsiz, 0)
                             else if Bit(s.emptyMask, k) then Endpoint(value, SetFlag(e.intr, 7), e.tsiz, 0)
                             else Endpoint(value, e.intr, e.tsiz, 0)
  {
    hide Bit, CompleteIn, SetFlag, ClearBit;
    CompletionIs(DisarmIn(ArmIn(s, k, value), k), k);
  }

  lemma {:induction false} InWriteIs(s: Otg, k: nat, reg: nat, value: word, ep: nat)
    requires Shape(s) && k < 6 && ep < 6
    ensures var (t, e) := (WriteIn(s, k, reg, value), s.epIn[k]);
            && |t.epIn| == 6
            && (k != ep ==> t.epIn[ep] == s.epIn[ep])
            && (k == ep ==>
                  match reg
                  case 0x00 => t.epIn[ep] == WriteInCtl(s, k, value).epIn[ep]
                  case 0x08 => t.epIn[ep] == e.(intr := AndNot(e.intr, value))
                  case 0x10 => t.epIn[ep] == e.(tsiz := value)
                  case _ => t.epIn[ep] == e)
  {
    hide WriteInCtl, AndNot;
    ControlIs(s, k, value, ep);
  }

  lemma {:induction false} OtherWritesKeepIn(s: Otg, offset: word, value: word, ep: nat)
    requires Shape(s) && ep < 6 && (Decode(offset).OutReg? || (Decode(offset).Global? && offset != 0x834))
    ensures WriteState(s, offset, value).epIn == s.epIn
  {
    hide Decode, Bit, AndNot, WritePlain, StatusWord;
  }

  lemma {:induction false} EmptyMaskIs(s: Otg, value: word, ep: nat)
    requires Shape(s) && ep < 6
    ensures var (t, e) := (WriteGlobal(s, 0x834, value), s.epIn[ep]);
            && |t.epIn| == 6
            && t.epIn[ep] == if Bit(value, ep) && !Bit(s.emptyMask, ep) && Bit(e.ctl, 31)
                             then e.(intr := SetFlag(e.intr, 7)) else e
  {
    hide Bit, SetFlag, Unmask;
    UnmaskIs(s.(emptyMask := value), AndNot(value, s.emptyMask), 6, ep);
  }

  // Which of them an access is

  lemma {:induction false} FillFollows(s: Otg, offset: word, value: word, ep: nat)
    requires Shape(s) && ep < 6 && Decode(offset).Fifo?
    requires Shape(WriteState(s, offset, value))
    ensures InFollows(s, FirmwareWrite(offset, value), ep, WriteState(s, offset, value))
  {
    hide Decode, Bit, PushTxWord, SetFlag, ClearBit, Shape;
    RegisterMap(offset, ep, 0);
    RegisterMap(offset, ep, 8);
    RegisterMap(offset, ep, 16);
    FillIs(s, Decode(offset).ep, value, ep);
  }

  lemma {:induction false} InWriteFollows(s: Otg, offset: word, value: word, ep: nat)
    requires Shape(s) && ep < 6 && Decode(offset).InReg?
    requires Shape(WriteState(s, offset, value))
    ensures InFollows(s, FirmwareWrite(offset, value), ep, WriteState(s, offset, value))
  {
    hide Decode, Bit, WriteIn, WriteInCtl, SetFlag, ClearBit, AndNot, Shape;
    RegisterMap(offset, ep, 0);
    RegisterMap(offset, ep, 8);
    RegisterMap(offset, ep, 16);
    InWriteIs(s, Decode(offset).ep, Decode(offset).reg, value, ep);
    ControlIs(s, Decode(offset).ep, value, ep);
  }

  lemma {:induction false} ReadKeepsIn(s: Otg, offset: word)
    requires Shape(s)
    ensures ReadState(s, offset).epIn == s.epIn
  {
    hide Decode, PopStatus;
    PopChangesOnlyInterrupts(s);
  }

  /** The causes of a reset, and what a poll does to the rest of the state. */
  lemma {:induction false} AttachingIs(s: Otg, irqEnabled: bool, now: long)
    requires Shape(s)
    ensures Attaching(s, irqEnabled) <==> ResetBy(s, PollAt(irqEnabled, now))
  {
  }

  lemma {:induction false} PollKeepsIn(s: Otg, irqEnabled: bool, now: long)
    requires Shape(s)
    ensures Poll(s, irqEnabled, now).epIn == if Attaching(s, irqEnabled) then IdleEndpoints() else s.epIn
  {
    hide Attaching, Bit, SetFlag, XferSize, StatusWord, Drained, Available, Staged, ClientConnected;
    RefreshKeepsShape(s, irqEnabled);
  }

  /** One event changes an IN endpoint as its causes say. */
  lemma {:induction false} InFollowsEvent(s: Otg, e: Event, ep: nat)
    requires Shape(s) && ep < 6
    ensures Shape(Next(s, e)) && InFollows(s, e, ep, Next(s, e))
  {
    hide ReadState, WriteState, Poll, Decode, Bit, SetFlag, Attaching, Shape;
    NextKeepsShape(s, e);
    match e
    case FirmwareRead(offset) => ReadKeepsIn(s, offset);
    case FirmwareWrite(offset, value) => WriteFollows(s, offset, value, ep);
    case PollAt(irqEnabled, now) =>
      AttachingIs(s, irqEnabled, now);
      PollKeepsIn(s, irqEnabled, now);
    case _ =>
  }

  lemma {:induction false} WriteFollows(s: Otg, offset: word, value: word, ep: nat)
    requires Shape(s) && ep < 6
    requires Shape(WriteState(s, offset, value))
    ensures InFollows(s, FirmwareWrite(offset, value), ep, WriteState(s, offset, value))
  {
    hide Decode, Bit, WriteIn, WriteOut, PushTxWord, WriteGlobal, SetFlag, Shape;
    RegisterMap(offset, ep, 0);
    RegisterMap(offset, ep, 8);
    RegisterMap(offset, ep, 16);
    match Decode(offset)
    case Fifo(_) => FillFollows(s, offset, value, ep);
    case InReg(_, _) => InWriteFollows(s, offset, value, ep);
    case OutReg(_, _) => OtherWritesKeepIn(s, offset, value, ep);
    case Global(o) =>
      if o == 0x834 {
        EmptyMaskIs(s, value, ep);
      } else {
        OtherWritesKeepIn(s, offset, value, ep);
      }
  }

  /** An OUT endpoint after an event: a delivered packet disarms it and counts its bytes
      off the size. */
  ghost predicate OutFollows(s: Otg, e: Event, ep: nat, t: Otg)
    requires Shape(s) && Shape(t) && ep < 6
  {
    var (b, a) := (s.epOut[ep], t.epOut[ep]);
    if ResetBy(s, e) then a == Endpoint(0, 0, 0, 0)
    else
      var written := e.FirmwareWrite? && e.offset == 0xb00 + 0x20 * ep;
      && a.tsiz == (if e.FirmwareWrite? && e.offset == 0xb10 + 0x20 * ep then e.value
                    else if Delivers(s, e, ep) then b.tsiz - |FrontPacket(s, ep)| else b.tsiz)
      && a.sent == b.sent
      && (forall j: nat :: Bit(a.ctl, j) <==>
            (if written then Bit(e.value, j) else Bit(b.ctl, j)) && !(j == 31 && Delivers(s, e, ep)))
      && (forall j: nat :: Bit(a.intr, j) <==>
            OutRaises(s, e, ep, j) || (Bit(b.intr, j) && !Acks(e, 0xb08 + 0x20 * ep, j)))
  }

  lemma {:induction false} PopIs(s: Otg, ep: nat)
    requires Shape(s) && ep < 6
    ensures var (t, e) := (PopStatus(s), s.epOut[ep]);
            && |t.epOut| == 6
            && t.epOut[ep] == if OutRaises(s, FirmwareRead(0x020), ep, 3) then e.(intr := SetFlag(e.intr, 3))
                              else if OutRaises(s, FirmwareRead(0x020), ep, 0) then e.(intr := SetFlag(e.intr, 0))
                              else e
  {
    hide SetFlag;
    if s.rxStatus != [] {
      assert s.rxStatus[0] in s.rxStatus;
    }
  }

  lemma {:induction false} ReadFollows(s: Otg, offset: word, ep: nat)
    requires Shape(s) && ep < 6
    requires Shape(ReadState(s, offset))
    ensures OutFollows(s, FirmwareRead(offset), ep, ReadState(s, offset))
  {
    hide Decode, Bit, SetFlag, Shape, PopStatus;
    RegisterMap(offset, ep, 0);
    PopIs(s, ep);
  }

  lemma {:induction false} OutWriteIs(s: Otg, k: nat, reg: nat, value: word, ep: nat)
    requires Shape(s) && k < 6 && ep < 6
    ensures var (t, e) := (WriteOut(s, k, reg, value), s.epOut[k]);
            && |t.epOut| == 6
            && (k != ep ==> t.epOut[ep] == s.epOut[ep])
            && (k == ep ==>
                  match reg
                  case 0x00 => t.epOut[ep] == e.(ctl := value)
                  case 0x08 => t.epOut[ep] == e.(intr := AndNot(e.intr, value))
                  case 0x10 => t.epOut[ep] == e.(tsiz := value)
                  case _ => t.epOut[ep] == e)
  {
    hide Bit, AndNot, StatusWord;
  }

  lemma {:induction false} OutWriteFollows(s: Otg, offset: word, value: word, ep: nat)
    requires Shape(s) && ep < 6 && Decode(offset).OutReg?
    requires Shape(WriteState(s, offset, value))
    ensures OutFollows(s, FirmwareWrite(offset, value), ep, WriteState(s, offset, value))
  {
    hide Decode, Bit, WriteOut, AndNot, Shape;
    RegisterMap(offset, ep, 0);
    RegisterMap(offset, ep, 8);
    RegisterMap(offset, ep, 16);
    OutWriteIs(s, Decode(offset).ep, Decode(offset).reg, value, ep);
  }

  lemma {:induction false} OtherWritesKeepOut(s: Otg, offset: word, value: word)
    requires Shape(s) && !Decode(offset).OutReg?
    ensures WriteState(s, offset, value).epOut == s.epOut
  {
    hide Decode, Bit, AndNot, WritePlain, StatusWord, CompleteIn, Unmask;
    match Decode(offset)
    case Fifo(k) => CompletionIs(DisarmIn(AppendTxWord(s, k, value), k), k);
    case InReg(k, reg) => CompletionIs(DisarmIn(ArmIn(s, k, value), k), k);
    case Global(o) =>
      UnmaskChangesOnlyInterrupts(s.(emptyMask := value), AndNot(value, s.emptyMask), NUM_ENDPOINTS);
    case _ =>
  }

  /** When a poll moves a packet: with the host not being attached just now. */
  lemma {:induction false} ForwardsIs(s: Otg, irqEnabled: bool, now: long, ep: nat)
    requires Shape(s) && ep < 6 && !Attaching(s, irqEnabled)
    ensures var u := Sof(Refresh(s, irqEnabled), now);
            && Shape(u) && u == s.(hostAttached := u.hostAttached, lastSof := u.lastSof, intStatus := u.intStatus)
            && (u.bulkOut == Some(ep) && Forwards(u) <==> Delivers(s, PollAt(irqEnabled, now), ep))
            && (Delivers(s, PollAt(irqEnabled, now), ep) ==> ForwardedPacket(u) == FrontPacket(s, ep))
            && (Forwards(u) ==> u.bulkOut.Some? && |ForwardedPacket(u)| <= 64)
            && (u.bulkOut.None? ==> ForwardBulkOut(u) == u)
  {
    hide Attaching, Bit, SetFlag;
    AttachingIs(s, irqEnabled, now);
  }

  lemma {:induction false} NothingForwarded(s: Otg, irqEnabled: bool, now: long)
    requires Shape(s) && Attaching(s, irqEnabled)
    ensures var u := Sof(Refresh(s, irqEnabled), now);
            Shape(u) && ForwardBulkOut(u) == u && u.epOut == IdleEndpoints() && u.rxStatus == [] && u.rxFifo == []
  {
    hide Attaching, Bit, SetFlag;
  }

  lemma {:induction false} ForwardIs(s: Otg, ep: nat)
    requires Shape(s) && ep < 6
    ensures var (t, e) := (ForwardBulkOut(s), s.epOut[ep]);
            && |t.epOut| == 6
            && t.epOut[ep] == if s.bulkOut == Some(ep) && Forwards(s)
                              then e.(ctl := ClearBit(e.ctl, 31), tsiz := e.tsiz - |ForwardedPacket(s)|) else e
  {
    hide ForwardedPacket, StatusWord, ClearBit, Bit;
  }

  lemma {:induction false} PollFollows(s: Otg, irqEnabled: bool, now: long, ep: nat)
    requires Shape(s) && ep < 6
    requires Shape(Poll(s, irqEnabled, now))
    ensures OutFollows(s, PollAt(irqEnabled, now), ep, Poll(s, irqEnabled, now))
  {
    hide Attaching, Bit, ForwardBulkOut, Delivers, Refresh, Sof, ResetBy, Forwards, ForwardedPacket, FrontPacket;
    AttachingIs(s, irqEnabled, now);
    RefreshKeepsShape(s, irqEnabled);
    if Attaching(s, irqEnabled) {
      NothingForwarded(s, irqEnabled, now);
    } else {
      ForwardsIs(s, irqEnabled, now, ep);
      ForwardIs(Sof(Refresh(s, irqEnabled), now), ep);
    }
  }

  /** One event changes an OUT endpoint as its causes say. */
  lemma {:induction false} OutFollowsEvent(s: Otg, e: Event, ep: nat)
    requires Shape(s) && ep < 6
    ensures Shape(Next(s, e)) && OutFollows(s, e, ep, Next(s, e))
  {
    hide ReadState, WriteState, Poll, Decode, Bit, SetFlag, Attaching, Shape;
    NextKeepsShape(s, e);
    match e
    case FirmwareRead(offset) => ReadFollows(s, offset, ep);
    case FirmwareWrite(offset, value) =>
      if Decode(offset).OutReg? {
        OutWriteFollows(s, offset, value, ep);
      } else {
        RegisterMap(offset, ep, 0);
        RegisterMap(offset, ep, 8);
        RegisterMap(offset, ep, 16);
        OtherWritesKeepOut(s, offset, value);
      }
    case PollAt(irqEnabled, now) => PollFollows(s, irqEnabled, now, ep);
    case _ =>
  }

  // ---- The receive path after an event ----

  /** The queues lose what firmware popped and gain what the host sends. */
  ghost predicate ReceiveFollows(s: Otg, e: Event, t: Otg)
    requires Shape(s)
  {
    && t.rxStatus == (if ResetBy(s, e) then []
                      else if e == FirmwareRead(0x020) && s.rxStatus != [] then s.rxStatus[1..]
                      else s.rxStatus) + StatusesOf(Sends(s, e))
    && t.rxFifo == (if ResetBy(s, e) then []
                    else if e.FirmwareRead? && 0x1000 <= e.offset < 0x2000
                    then if |s.rxFifo| < 4 then [] else s.rxFifo[4..]
                    else s.rxFifo) + PayloadsOf(Sends(s, e))
  }

  lemma {:induction false} ReadReceives(s: Otg, offset: word)
    requires Shape(s)
    ensures ReceiveFollows(s, FirmwareRead(offset), ReadState(s, offset))
  {
    hide Decode, PopStatus;
    RegisterMap(offset, 0, 0);
    PopChangesOnlyInterrupts(s);
  }

  lemma {:induction false} WriteReceives(s: Otg, offset: word, value: word)
    requires Shape(s)
    ensures ReceiveFollows(s, FirmwareWrite(offset, value), WriteState(s, offset, value))
  {
    hide Decode, Bit, PushTxWord, WriteIn, WriteOut, WriteGlobal, StatusesOf, PayloadsOf;
    RegisterMap(offset, 0, 0);
    NothingReceived(s);
    match Decode(offset)
    case Fifo(k) => FillReceives(s, k, value);
    case InReg(k, reg) => InWriteReceives(s, k, reg, value);
    case OutReg(k, reg) => OutWriteReceives(s, k, reg, value);
    case Global(o) => GlobalKeepsQueues(s, o, value);
  }

  lemma {:induction false} FillReceives(s: Otg, k: nat, value: word)
    requires Shape(s) && k < 6
    ensures var e := s.epIn[k];
            var ends := Bit(e.ctl, 31) && (e.sent + 4) % 0x1_0000_0000 >= e.tsiz % 0x8_0000;
            Receives(s, PushTxWord(s, k, value), if k == 0 && ends then Requests(s.step) else [])
  {
    hide Bit, CompleteIn, StatusesOf, PayloadsOf;
    NothingReceived(s);
    CompletionIs(DisarmIn(AppendTxWord(s, k, value), k), k);
  }

  lemma {:induction false} InWriteReceives(s: Otg, k: nat, reg: nat, value: word)
    requires Shape(s) && k < 6
    ensures var e := s.epIn[k];
            var ends := reg == 0 && Bit(value, 31) && !Bit(e.ctl, 31) && e.tsiz % 0x8_0000 == 0;
            Receives(s, WriteIn(s, k, reg, value), if k == 0 && ends then Requests(s.step) else [])
  {
    hide Bit, CompleteIn, StatusesOf, PayloadsOf, AndNot;
    NothingReceived(s);
    CompletionIs(DisarmIn(ArmIn(s, k, value), k), k);
  }

  lemma {:induction false} OutWriteReceives(s: Otg, k: nat, reg: nat, value: word)
    requires Shape(s) && k < 6
    ensures var activates := k == 0 && reg == 0 && Bit(value, 15) && !Bit(s.epOut[0].ctl, 15)
                             && s.step == AwaitingDeviceDescriptor;
            Receives(s, WriteOut(s, k, reg, value),
                     if activates then [Setup(0, [0x80, 0x06, 0x00, 0x01, 0x00, 0x00, 0x12, 0x00])] else [])
  {
    hide Bit, AndNot, StatusesOf, PayloadsOf, QueueSetup;
    NothingReceived(s);
    var t := Note(s.(epOut := s.epOut[k := s.epOut[k].(ctl := value)]), OutCtlWritten(k, value));
    SetupIsReceived(t, 0, GET_DEVICE_DESCRIPTOR);
  }

  lemma {:induction false} GlobalKeepsQueues(s: Otg, o: word, value: word)
    requires Shape(s)
    ensures var t := WriteGlobal(s, o, value);
            t.rxStatus == s.rxStatus && t.rxFifo == s.rxFifo && t.txFifo == s.txFifo && t.step == s.step
  {
    hide AndNot, WritePlain, Unmask;
    UnmaskChangesOnlyInterrupts(s.(emptyMask := value), AndNot(value, s.emptyMask), NUM_ENDPOINTS);
  }

  lemma {:induction false} PollReceives(s: Otg, irqEnabled: bool, now: long)
    requires Shape(s)
    ensures ReceiveFollows(s, PollAt(irqEnabled, now), Poll(s, irqEnabled, now))
  {
    hide Attaching, Bit, Delivers, Refresh, Sof, ResetBy, ForwardedPacket, FrontPacket, StatusesOf, PayloadsOf,
         OutReady, QueueOut;
    AttachingIs(s, irqEnabled, now);
    RefreshKeepsShape(s, irqEnabled);
    NothingReceived(s);
    var u := Sof(Refresh(s, irqEnabled), now);
    if Attaching(s, irqEnabled) {
      NothingForwarded(s, irqEnabled, now);
      NothingReceived(u);
      NothingDelivered(s, PollAt(irqEnabled, now));
    } else if s.bulkOut.Some? {
      ForwardsIs(s, irqEnabled, now, s.bulkOut.value);
      if Forwards(u) {
        DataIsReceived(BeforeQueueing(u), u.bulkOut.value, ForwardedPacket(u));
      }
    } else {
      ForwardsIs(s, irqEnabled, now, 0);
    }
  }

  lemma {:induction false} NothingDelivered(s: Otg, e: Event)
    requires Shape(s) && ResetBy(s, e)
    ensures Sends(s, e) == [] && !Completes(s, e, 0)
  {
  }

  /** One event changes the receive path as the event and the host say. */
  lemma {:induction false} ReceiveFollowsEvent(s: Otg, e: Event)
    requires Shape(s)
    ensures ReceiveFollows(s, e, Next(s, e))
  {
    hide ReadState, WriteState, Poll, ReceiveFollows;
    match e
    case FirmwareRead(offset) => ReadReceives(s, offset);
    case FirmwareWrite(offset, value) => WriteReceives(s, offset, value);
    case PollAt(irqEnabled, now) => PollReceives(s, irqEnabled, now);
    case _ => OutsideReceives(s, e);
  }

  lemma {:induction false} OutsideReceives(s: Otg, e: Event)
    requires Shape(s) && (e.HostSide? || e.NetworkSide?)
    ensures ReceiveFollows(s, e, Next(s, e))
  {
    hide TcpApply, CdcLink.Apply;
    NothingReceived(s);
  }

  // ---- The transmit path, the enumeration and the bridge after an event ----

  /** The bytes of an IN FIFO once the event has filled it. */
  function Filled(s: Otg, e: Event, ep: nat): seq<byte>
    requires ep < |s.txFifo|
  {
    if Fills(e, ep) then s.txFifo[ep] + LeBytes(e.value) else s.txFifo[ep]
  }

  /** The transfer that ends is one of the bulk endpoint of a configured device. */
  predicate Gives(s: Otg, e: Event, ep: nat)
    requires ep < |s.epIn|
  {
    0 < ep && s.step == Configured && s.bulkIn == Some(ep) && Completes(s, e, ep)
  }

  function Cut(bytes: seq<byte>, size: nat): seq<byte> {
    if |bytes| < size then bytes else bytes[..size]
  }

  /** What the host is given: the FIFO, cut to the transfer size. */
  function Given(s: Otg, e: Event, ep: nat): seq<byte>
    requires ep < |s.epIn| && ep < |s.txFifo|
  {
    Cut(Filled(s, e, ep), s.epIn[ep].tsiz % 0x8_0000)
  }

  /** FIFOs take the words written to them, and are empty after a reset, a control transfer
      or a bulk transfer. The enumeration moves on with each control transfer. */
  ghost predicate TransmitFollows(s: Otg, e: Event, ep: nat, t: Otg)
    requires Shape(s) && ep < 6 && |t.txFifo| == 6
  {
    && t.txFifo[ep] == (if ResetBy(s, e) || (ep == 0 && Completes(s, e, 0)) || Gives(s, e, ep) then []
                        else Filled(s, e, ep))
    && t.step == (if ResetBy(s, e) then AwaitingDeviceDescriptor
                  else if Completes(s, e, 0) then StepAfter(s.step) else s.step)
  }

  lemma {:induction false} FillTransmits(s: Otg, k: nat, value: word, ep: nat)
    requires Shape(s) && k < 6 && ep < 6
    ensures var (t, e) := (PushTxWord(s, k, value), s.epIn[k]);
            var ends := Bit(e.ctl, 31) && (e.sent + 4) % 0x1_0000_0000 >= e.tsiz % 0x8_0000;
            && |t.txFifo| == 6
            && t.txFifo[ep] == (if k != ep then s.txFifo[ep]
                                else if ends && (k == 0 || (s.step == Configured && s.bulkIn == Some(k))) then []
                                else s.txFifo[ep] + LeBytes(value))
            && t.step == if k == 0 && ends then StepAfter(s.step) else s.step
  {
    hide Bit, CompleteIn, LeBytes;
    CompletionIs(DisarmIn(AppendTxWord(s, k, value), k), k);
  }

  lemma {:induction false} InWriteTransmits(s: Otg, k: nat, reg: nat, value: word, ep: nat)
    requires Shape(s) && k < 6 && ep < 6
    ensures var (t, e) := (WriteIn(s, k, reg, value), s.epIn[k]);
            var ends := reg == 0 && Bit(value, 31) && !Bit(e.ctl, 31) && e.tsiz % 0x8_0000 == 0;
            && |t.txFifo| == 6
            && t.txFifo[ep] == (if k == ep && ends && (k == 0 || (s.step == Configured && s.bulkIn == Some(k))) then []
                                else s.txFifo[ep])
            && t.step == if k == 0 && ends then StepAfter(s.step) else s.step
  {
    hide Bit, CompleteIn, AndNot;
    CompletionIs(DisarmIn(ArmIn(s, k, value), k), k);
  }

  lemma {:induction false} FillWriteTransmits(s: Otg, offset: word, value: word, ep: nat)
    requires Shape(s) && ep < 6 && Decode(offset).Fifo?
    ensures |WriteState(s, offset, value).txFifo| == 6
    ensures TransmitFollows(s, FirmwareWrite(offset, value), ep, WriteState(s, offset, value))
  {
    hide Decode, Bit, PushTxWord, LeBytes, StepAfter;
    RegisterMap(offset, ep, 0);
    RegisterMap(offset, 0, 0);
    FillTransmits(s, Decode(offset).ep, value, ep);
  }

  lemma {:induction false} ControlWriteTransmits(s: Otg, offset: word, value: word, ep: nat)
    requires Shape(s) && ep < 6 && Decode(offset).InReg?
    ensures |WriteState(s, offset, value).txFifo| == 6
    ensures TransmitFollows(s, FirmwareWrite(offset, value), ep, WriteState(s, offset, value))
  {
    hide Decode, Bit, WriteIn, LeBytes, StepAfter;
    RegisterMap(offset, ep, 0);
    RegisterMap(offset, 0, 0);
    InWriteTransmits(s, Decode(offset).ep, Decode(offset).reg, value, ep);
  }

  lemma {:induction false} WriteTransmits(s: Otg, offset: word, value: word, ep: nat)
    requires Shape(s) && ep < 6
    ensures |WriteState(s, offset, value).txFifo| == 6
    ensures TransmitFollows(s, FirmwareWrite(offset, value), ep, WriteState(s, offset, value))
  {
    hide Decode, Bit, WriteOut, WriteGlobal, LeBytes, StepAfter;
    RegisterMap(offset, ep, 0);
    RegisterMap(offset, 0, 0);
    match Decode(offset)
    case Fifo(k) => FillWriteTransmits(s, offset, value, ep);
    case InReg(k, reg) => ControlWriteTransmits(s, offset, value, ep);
    case OutReg(k, reg) => OutWriteKeepsRest(s, k, reg, value);
    case Global(o) => GlobalKeepsQueues(s, o, value);
  }

  lemma {:induction false} OutWriteKeepsRest(s: Otg, k: nat, reg: nat, value: word)
    requires Shape(s) && k < 6
    ensures var t := WriteOut(s, k, reg, value);
            t == s.(epOut := t.epOut, rxStatus := t.rxStatus, rxFifo := t.rxFifo, history := t.history)
  {
    hide Bit, AndNot, StatusWord;
  }

  lemma {:induction false} PollTransmits(s: Otg, irqEnabled: bool, now: long)
    requires Shape(s)
    ensures var t := Poll(s, irqEnabled, now);
            && t.txFifo == (if Attaching(s, irqEnabled) then EmptyFifos() else s.txFifo)
            && t.step == if Attaching(s, irqEnabled) then AwaitingDeviceDescriptor else s.step
  {
    hide Attaching, Bit, SetFlag, XferSize, StatusWord, Drained, Available, Staged, ClientConnected;
    RefreshKeepsShape(s, irqEnabled);
  }

  /** One event changes the transmit path and the enumeration as the event says. */
  lemma {:induction false} TransmitFollowsEvent(s: Otg, e: Event, ep: nat)
    requires Shape(s) && ep < 6
    ensures |Next(s, e).txFifo| == 6 && TransmitFollows(s, e, ep, Next(s, e))
  {
    hide WriteState, Poll, Attaching, PopStatus, Bit, LeBytes;
    match e
    case FirmwareRead(_) => PopChangesOnlyInterrupts(s);
    case FirmwareWrite(offset, value) => WriteTransmits(s, offset, value, ep);
    case PollAt(irqEnabled, now) =>
      AttachingIs(s, irqEnabled, now);
      PollTransmits(s, irqEnabled, now);
    case _ =>
  }

  /** Finished bulk transfers go to the bridge, or wait if there is none; the stage of the
      in-process link follows the reset, the steps and the first interrupt mask; and a
      delivered packet leaves the queue. Nothing else an access or a poll does reaches it. */
  ghost predicate BridgeFollows(s: Otg, e: Event, t: Otg)
    requires Shape(s)
  {
    if s.bulkIn.Some? && Gives(s, e, s.bulkIn.value) then
      var bytes := Given(s, e, s.bulkIn.value);
      if s.bridge.NoBridge? then t.bridge == NoBridge && t.pendingBridgeWrites == s.pendingBridgeWrites + bytes
      else t.bridge == Forwarded(s.bridge, bytes) && t.pendingBridgeWrites == s.pendingBridgeWrites
    else
      && t.pendingBridgeWrites == s.pendingBridgeWrites
      && t.bridge == if ResetBy(s, e) then Staged(s.bridge, CdcLink.AwaitingDeviceDescriptor)
                     else if Completes(s, e, 0) && s.step != Configured
                     then Staged(s.bridge, StageIn(StepAfter(s.step)))
                     else if e.FirmwareWrite? && e.offset == 0x018 && s.intMask == 0 && e.value != 0
                     then Staged(s.bridge, CdcLink.UsbStarted)
                     else if s.bulkOut.Some? && Delivers(s, e, s.bulkOut.value)
                     then Drained(s.bridge, |FrontPacket(s, s.bulkOut.value)|)
                     else s.bridge
  }

  /** The bridge and the waiting bytes after an IN transfer of `k` ends, or does not. */
  ghost predicate Ended(s: Otg, t: Otg, k: nat, ends: bool, bytes: seq<byte>) {
    if ends && 0 < k && s.step == Configured && s.bulkIn == Some(k) then
      if s.bridge.NoBridge? then t.bridge == NoBridge && t.pendingBridgeWrites == s.pendingBridgeWrites + bytes
      else t.bridge == Forwarded(s.bridge, bytes) && t.pendingBridgeWrites == s.pendingBridgeWrites
    else
      && t.pendingBridgeWrites == s.pendingBridgeWrites
      && t.bridge == if ends && k == 0 && s.step != Configured then Staged(s.bridge, StageIn(StepAfter(s.step)))
                     else s.bridge
  }

  lemma {:induction false} CompletionEnds(s: Otg, k: nat)
    requires Shape(s) && k < 6
    ensures Ended(s, CompleteIn(s, k), k, true, Cut(s.txFifo[k], s.epIn[k].tsiz % 0x8_0000))
  {
    hide Staged, StageIn, StepAfter, CompleteIn;
    CompletionIs(s, k);
    var size := s.epIn[k].tsiz % 0x8_0000;
    assert s.txFifo[k][..Min(size, |s.txFifo[k]|)] == Cut(s.txFifo[k], size);
  }

  lemma {:induction false} AppendIs(s: Otg, k: nat, value: word)
    requires Shape(s) && k < 6
    ensures var t := AppendTxWord(s, k, value);
            && t == s.(txFifo := t.txFifo, epIn := t.epIn)
            && Shape(t) && t.txFifo[k] == s.txFifo[k] + LeBytes(value)
            && t.epIn[k] == s.epIn[k].(sent := (s.epIn[k].sent + 4) % 0x1_0000_0000)
  {
    hide LeBytes;
  }

  lemma {:induction false} FillEnds(s: Otg, k: nat, value: word)
    requires Shape(s) && k < 6
    ensures var e := s.epIn[k];
            Ended(s, PushTxWord(s, k, value), k,
                  Bit(e.ctl, 31) && (e.sent + 4) % 0x1_0000_0000 >= e.tsiz % 0x8_0000,
                  Cut(s.txFifo[k] + LeBytes(value), e.tsiz % 0x8_0000))
  {
    hide Bit, CompleteIn, LeBytes, Staged, Forwarded, StageIn, StepAfter, AppendTxWord;
    AppendIs(s, k, value);
    CompletionEnds(DisarmIn(AppendTxWord(s, k, value), k), k);
  }

  lemma {:induction false} ArmEnds(s: Otg, k: nat, reg: nat, value: word)
    requires Shape(s) && k < 6
    ensures var e := s.epIn[k];
            Ended(s, WriteIn(s, k, reg, value), k,
                  reg == 0 && Bit(value, 31) && !Bit(e.ctl, 31) && e.tsiz % 0x8_0000 == 0,
                  Cut(s.txFifo[k], e.tsiz % 0x8_0000))
  {
    hide Bit, CompleteIn, AndNot, Staged, Forwarded, StageIn, StepAfter;
    CompletionEnds(DisarmIn(ArmIn(s, k, value), k), k);
  }

  lemma {:induction false} FillBridges(s: Otg, offset: word, value: word)
    requires Shape(s) && Decode(offset).Fifo?
    ensures BridgeFollows(s, FirmwareWrite(offset, value), WriteState(s, offset, value))
  {
    hide Decode, Bit, PushTxWord, LeBytes, Staged, Forwarded, Drained, StageIn, StepAfter, FrontPacket, Waiting;
    RegisterMap(offset, 0, 0);
    if s.bulkIn.Some? {
      RegisterMap(offset, s.bulkIn.value, 0);
    }
    FillEnds(s, Decode(offset).ep, value);
  }

  lemma {:induction false} InWriteBridges(s: Otg, offset: word, value: word)
    requires Shape(s) && Decode(offset).InReg?
    ensures BridgeFollows(s, FirmwareWrite(offset, value), WriteState(s, offset, value))
  {
    hide Decode, Bit, WriteIn, Staged, Forwarded, Drained, StageIn, StepAfter, FrontPacket, Waiting;
    RegisterMap(offset, 0, 0);
    if s.bulkIn.Some? {
      RegisterMap(offset, s.bulkIn.value, 0);
    }
    ArmEnds(s, Decode(offset).ep, Decode(offset).reg, value);
  }

  lemma {:induction false} OutWriteBridges(s: Otg, offset: word, value: word)
    requires Shape(s) && Decode(offset).OutReg?
    ensures BridgeFollows(s, FirmwareWrite(offset, value), WriteState(s, offset, value))
  {
    hide Decode, Bit, WriteOut, Staged, Forwarded, Drained, StageIn, StepAfter, FrontPacket, Waiting;
    RegisterMap(offset, 0, 0);
    if s.bulkIn.Some? {
      RegisterMap(offset, s.bulkIn.value, 0);
    }
    OutWriteKeepsRest(s, Decode(offset).ep, Decode(offset).reg, value);
  }

  lemma {:induction false} GlobalBridges(s: Otg, offset: word, value: word)
    requires Shape(s) && Decode(offset).Global?
    ensures BridgeFollows(s, FirmwareWrite(offset, value), WriteState(s, offset, value))
  {
    hide Decode, Bit, Unmask, AndNot, WritePlain, Staged, Forwarded, Drained, StageIn, StepAfter, FrontPacket, Waiting;
    RegisterMap(offset, 0, 0);
    if s.bulkIn.Some? {
      RegisterMap(offset, s.bulkIn.value, 0);
    }
    UnmaskChangesOnlyInterrupts(s.(emptyMask := value), AndNot(value, s.emptyMask), NUM_ENDPOINTS);
  }

  /** Draining past the end of the queue drains all of it. */
  lemma {:induction false} DrainedIs(b: Bridge, maximum: nat)
    ensures var n := if maximum < |Waiting(b)| then maximum else |Waiting(b)|;
            Drained(b, maximum) == Drained(b, n)
    ensures Waiting(b) == [] ==> Drained(b, maximum) == b
  {
    if b.Embedded? && Waiting(b) == [] {
      assert b.link.down.read + [] == b.link.down.read;
    }
  }

  lemma {:induction false} PollBridges(s: Otg, irqEnabled: bool, now: long)
    requires Shape(s)
    ensures BridgeFollows(s, PollAt(irqEnabled, now), Poll(s, irqEnabled, now))
  {
    hide Attaching, Bit, Sof, Refresh, ResetBy, Staged, Drained, XferSize, StatusWord, ClientConnected, Waiting;
    AttachingIs(s, irqEnabled, now);
    RefreshKeepsShape(s, irqEnabled);
    var u := Sof(Refresh(s, irqEnabled), now);
    if Attaching(s, irqEnabled) {
      NothingForwarded(s, irqEnabled, now);
      ResetBridges(s, irqEnabled, now);
    } else {
      PollDrains(s, irqEnabled, now);
    }
  }

  lemma {:induction false} ResetBridges(s: Otg, irqEnabled: bool, now: long)
    requires Shape(s) && Attaching(s, irqEnabled)
    ensures var u := Sof(Refresh(s, irqEnabled), now);
            u.bridge == Staged(s.bridge, CdcLink.AwaitingDeviceDescriptor)
            && u.pendingBridgeWrites == s.pendingBridgeWrites
  {
    hide Attaching, SetFlag, Staged;
  }

  lemma {:induction false} PollDrains(s: Otg, irqEnabled: bool, now: long)
    requires Shape(s) && !Attaching(s, irqEnabled)
    ensures var u := Poll(s, irqEnabled, now);
            && u.pendingBridgeWrites == s.pendingBridgeWrites
            && u.bridge == if s.bulkOut.Some? && Delivers(s, PollAt(irqEnabled, now), s.bulkOut.value)
                           then Drained(s.bridge, |FrontPacket(s, s.bulkOut.value)|) else s.bridge
  {
    hide Attaching, Bit, Sof, Refresh, ResetBy, Drained, StatusWord, ClientConnected;
    AttachingIs(s, irqEnabled, now);
    var u := Sof(Refresh(s, irqEnabled), now);
    if s.bulkOut.Some? {
      ForwardsIs(s, irqEnabled, now, s.bulkOut.value);
      if OutReady(u) {
        DrainedIs(s.bridge, PacketLimit(u));
      }
    } else {
      ForwardsIs(s, irqEnabled, now, 0);
    }
  }

  lemma {:induction false} BridgeFollowsEvent(s: Otg, e: Event)
    requires Shape(s) && !e.HostSide? && !e.NetworkSide?
    ensures BridgeFollows(s, e, Next(s, e))
  {
    hide WriteState, Poll, PopStatus, BridgeFollows, Decode;
    match e
    case FirmwareRead(offset) => ReadBridges(s, offset);
    case FirmwareWrite(offset, value) =>
      match Decode(offset) {
        case Fifo(_) => FillBridges(s, offset, value);
        case InReg(_, _) => InWriteBridges(s, offset, value);
        case OutReg(_, _) => OutWriteBridges(s, offset, value);
        case Global(_) => GlobalBridges(s, offset, value);
      }
    case PollAt(irqEnabled, now) => PollBridges(s, irqEnabled, now);
  }

  lemma {:induction false} ReadBridges(s: Otg, offset: word)
    requires Shape(s)
    ensures BridgeFollows(s, FirmwareRead(offset), ReadState(s, offset))
  {
    hide PopStatus, Decode;
    PopChangesOnlyInterrupts(s);
  }

  // ---- The global registers after an event ----

  /** A poll with an attached host and 1000 instructions since the last start of frame. */
  predicate Frames(s: Otg, e: Event) {
    && e.PollAt? && (ResetBy(s, e) || (s.hostAttached && HostPresent(s.bridge)))
    && (e.now - s.lastSof) % 0x1_0000_0000_0000_0000 >= 1000
  }

  function WrittenTo(e: Event, offset: word, before: word): word {
    if e.FirmwareWrite? && e.offset == offset then e.value else before
  }

  /** USB_RESET is bit 12 and SOF bit 3; both stay until acknowledged. The masks and the
      device registers hold what was last written to them, through resets. */
  ghost predicate GlobalsFollow(s: Otg, e: Event, t: Otg) {
    && (forall j: nat :: Bit(t.intStatus, j) <==>
          (j == 12 && ResetBy(s, e)) || (j == 3 && Frames(s, e)) || (Bit(s.intStatus, j) && !Acks(e, 0x014, j)))
    && t.intMask == WrittenTo(e, 0x018, s.intMask)
    && t.emptyMask == WrittenTo(e, 0x834, s.emptyMask)
    && t.hostAttached == (ResetBy(s, e) || (s.hostAttached && (e.PollAt? ==> HostPresent(s.bridge))))
    && t.lastSof == (if Frames(s, e) then e.now else s.lastSof)
    && t.bulkIn == s.bulkIn && t.bulkOut == s.bulkOut
  }

  ghost predicate PlainFollows(s: Otg, e: Event, t: Otg) {
    && t.plain.dcfg == WrittenTo(e, 0x800, s.plain.dcfg)
    && t.plain.dctl == WrittenTo(e, 0x804, s.plain.dctl)
    && t.plain.diepMask == WrittenTo(e, 0x810, s.plain.diepMask)
    && t.plain.doepMask == WrittenTo(e, 0x814, s.plain.doepMask)
    && t.plain.daintMask == WrittenTo(e, 0x81c, s.plain.daintMask)
    && (forall o: word :: o !in {0x010, 0x800, 0x804, 0x810, 0x814, 0x81c, 0x014, 0x018, 0x834} && IsGlobal(o) ==>
          Lookup(t.plain.other, o) == WrittenTo(e, o, Lookup(s.plain.other, o)))
    && (forall j: nat :: Bit(Lookup(t.plain.other, 0x010), j) <==>
          if e.FirmwareWrite? && e.offset == 0x010 then Bit(e.value, j) && j != 0 && j != 4 && j != 5
          else Bit(Lookup(s.plain.other, 0x010), j))
  }

  /** The fields that only writes of global registers and polls change. */
  ghost predicate SameGlobals(s: Otg, t: Otg) {
    && t.intStatus == s.intStatus && t.intMask == s.intMask && t.emptyMask == s.emptyMask && t.plain == s.plain
    && t.hostAttached == s.hostAttached && t.lastSof == s.lastSof && t.bulkIn == s.bulkIn && t.bulkOut == s.bulkOut
  }

  lemma {:induction false} FillKeepsGlobals(s: Otg, k: nat, value: word)
    requires Shape(s) && k < 6
    ensures SameGlobals(s, PushTxWord(s, k, value))
  {
    hide Bit, CompleteIn, LeBytes, XferSize;
    CompletionIs(DisarmIn(AppendTxWord(s, k, value), k), k);
  }

  lemma {:induction false} InWriteKeepsGlobals(s: Otg, k: nat, reg: nat, value: word)
    requires Shape(s) && k < 6
    ensures SameGlobals(s, WriteIn(s, k, reg, value))
  {
    hide Bit, CompleteIn, AndNot, XferSize;
    CompletionIs(DisarmIn(ArmIn(s, k, value), k), k);
  }

  lemma {:induction false} OtherWritesKeepGlobals(s: Otg, offset: word, value: word)
    requires Shape(s) && !Decode(offset).Global?
    ensures SameGlobals(s, WriteState(s, offset, value))
  {
    hide Decode, PushTxWord, WriteIn, WriteOut;
    match Decode(offset)
    case Fifo(k) => FillKeepsGlobals(s, k, value);
    case InReg(k, reg) => InWriteKeepsGlobals(s, k, reg, value);
    case OutReg(k, reg) => OutWriteKeepsRest(s, k, reg, value);
  }

  lemma {:induction false} GlobalWriteIs(s: Otg, o: word, value: word)
    requires Shape(s) && IsGlobal(o)
    ensures GlobalsFollow(s, FirmwareWrite(o, value), WriteGlobal(s, o, value))
  {
    hide Unmask, Bit, Staged, WritePlain;
    UnmaskChangesOnlyInterrupts(s.(emptyMask := value), AndNot(value, s.emptyMask), NUM_ENDPOINTS);
  }

  lemma {:induction false} PlainWriteIs(s: Otg, o: word, value: word)
    requires Shape(s) && IsGlobal(o)
    ensures PlainFollows(s, FirmwareWrite(o, value), WriteGlobal(s, o, value))
  {
    hide Unmask, Bit, Staged, WritePlain;
    UnmaskChangesOnlyInterrupts(s.(emptyMask := value), AndNot(value, s.emptyMask), NUM_ENDPOINTS);
    if o !in {0x014, 0x018, 0x834} {
      WritePlainIs(s, o, value);
    }
  }

  lemma {:induction false} WritePlainIs(s: Otg, o: word, value: word)
    requires o !in {0x014, 0x018, 0x834} && IsGlobal(o)
    ensures PlainFollows(s, FirmwareWrite(o, value), s.(plain := WritePlain(s.plain, o, value)))
  {
    hide Bit;
  }

  lemma {:induction false} RefreshIs(s: Otg, irqEnabled: bool, now: long)
    requires Shape(s)
    ensures var (t, e) := (Refresh(s, irqEnabled), PollAt(irqEnabled, now));
            && SameGlobals(s.(hostAttached := t.hostAttached, intStatus := t.intStatus), t)
            && t.hostAttached == (ResetBy(s, e) || (s.hostAttached && HostPresent(s.bridge)))
            && t.intStatus == if ResetBy(s, e) then SetFlag(s.intStatus, 12) else s.intStatus
  {
    hide Staged, Bit, SetFlag;
  }

  lemma {:induction false} SofIs(s: Otg, irqEnabled: bool, now: long)
    requires Shape(s)
    ensures var (t, u, e) := (Refresh(s, irqEnabled), Sof(Refresh(s, irqEnabled), now), PollAt(irqEnabled, now));
            && Shape(u)
            && u == t.(lastSof := if Frames(s, e) then now else s.lastSof,
                       intStatus := if Frames(s, e) then SetFlag(t.intStatus, 3) else t.intStatus)
  {
    hide Refresh, ResetBy, HostPresent, SetFlag;
    RefreshKeepsShape(s, irqEnabled);
    RefreshIs(s, irqEnabled, now);
  }

  lemma {:induction false} SofFollows(s: Otg, irqEnabled: bool, now: long)
    requires Shape(s)
    ensures var u := Sof(Refresh(s, irqEnabled), now);
            Shape(u) && GlobalsFollow(s, PollAt(irqEnabled, now), u) && u.plain == s.plain
  {
    hide Refresh, Sof, ResetBy, HostPresent, Frames, Bit;
    RefreshIs(s, irqEnabled, now);
    SofIs(s, irqEnabled, now);
  }

  lemma {:induction false} ForwardKeepsGlobals(s: Otg)
    requires Shape(s)
    ensures SameGlobals(s, ForwardBulkOut(s))
  {
    hide OutReady, ForwardedPacket, StatusWord;
  }

  lemma {:induction false} NoWriteKeepsPlain(s: Otg, e: Event, t: Otg)
    requires !e.FirmwareWrite? && t.plain == s.plain
    ensures PlainFollows(s, e, t)
  {
  }

  lemma {:induction false} QuietKeepsGlobals(s: Otg, e: Event, t: Otg)
    requires SameGlobals(s, t) && !e.PollAt? && (e.FirmwareWrite? ==> !IsGlobal(e.offset))
    ensures GlobalsFollow(s, e, t) && PlainFollows(s, e, t)
  {
  }

  /** One event changes the global registers as the event says. */
  lemma {:induction false} GlobalsFollowEvent(s: Otg, e: Event)
    requires Shape(s)
    ensures GlobalsFollow(s, e, Next(s, e)) && PlainFollows(s, e, Next(s, e))
  {
    hide WriteGlobal, PopStatus, ForwardBulkOut, Decode, GlobalsFollow, PlainFollows, Sof, Refresh, PushTxWord, WriteIn,
         WriteOut;
    match e
    case FirmwareRead(offset) =>
      PopChangesOnlyInterrupts(s);
      QuietKeepsGlobals(s, e, Next(s, e));
    case FirmwareWrite(offset, value) =>
      RegisterMap(offset, 0, 0);
      if Decode(offset).Global? {
        GlobalWriteIs(s, offset, value);
        PlainWriteIs(s, offset, value);
      } else {
        OtherWritesKeepGlobals(s, offset, value);
        QuietKeepsGlobals(s, e, Next(s, e));
      }
    case PollAt(irqEnabled, now) => PollKeepsGlobals(s, irqEnabled, now);
    case _ => QuietKeepsGlobals(s, e, Next(s, e));
  }

  lemma {:induction false} PollKeepsGlobals(s: Otg, irqEnabled: bool, now: long)
    requires Shape(s)
    ensures var t := Poll(s, irqEnabled, now);
            GlobalsFollow(s, PollAt(irqEnabled, now), t) && PlainFollows(s, PollAt(irqEnabled, now), t)
  {
    hide Sof, Refresh, ForwardBulkOut, Frames, ResetBy, HostPresent, Bit;
    RefreshKeepsShape(s, irqEnabled);
    SofFollows(s, irqEnabled, now);
    ForwardKeepsGlobals(Sof(Refresh(s, irqEnabled), now));
    NoWriteKeepsPlain(s, PollAt(irqEnabled, now), Poll(s, irqEnabled, now));
  }
}
