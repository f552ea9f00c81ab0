/** The OTG-FS device controller and its scripted virtual host as a state
    machine: what each register access and each poll does to the state. The
    imperative controller in `OtgFs` is proved against these functions. */
module OtgModel {
  import opened Bits
  import opened ByteQueues
  import opened UsbCdcBridge
  import CdcLink

  const NUM_ENDPOINTS: nat := 6
  const BULK_PACKET: nat := 64
  const VIRTUAL_DEVICE_ADDRESS: byte := 5
  const SOF_PERIOD_INSTRUCTIONS: nat := 1000
  const DTXFSTS_AVAILABLE_WORDS: word := 16

  // Bit positions of the register flags
  const SOF: nat := 3
  const RXFLVL: nat := 4
  const USB_RESET: nat := 12
  const IEPINT: nat := 18
  const OEPINT: nat := 19
  const EPENA: nat := 31
  const USBAEP: nat := 15
  const XFRC: nat := 0
  const STUP: nat := 3
  const TXFE: nat := 7

  datatype Endpoint = Endpoint(ctl: word, intr: word, tsiz: word, sent: word)

  const IDLE := Endpoint(0, 0, 0, 0)

  function IdleEndpoints(): (r: seq<Endpoint>)
    ensures |r| == NUM_ENDPOINTS && forall i :: 0 <= i < |r| ==> r[i] == IDLE
  {
    seq(NUM_ENDPOINTS, i => IDLE)
  }

  function EmptyFifos(): (r: seq<seq<byte>>)
    ensures |r| == NUM_ENDPOINTS && forall i :: 0 <= i < |r| ==> r[i] == []
  {
    seq(NUM_ENDPOINTS, i => [])
  }

  function XferSize(e: Endpoint): (n: nat)
    ensures n < 0x8_0000
  {
    e.tsiz % 0x8_0000
  }

  predicate Enabled(e: Endpoint) {
    Bit(e.ctl, EPENA)
  }

  // ---- Receive status words ----

  const SETUP_DATA: nat := 6
  const SETUP_COMP: nat := 4
  const OUT_DATA: nat := 2
  const OUT_COMP: nat := 3

  function StatusWord(pktsts: nat, count: nat, ep: nat): (w: word)
    requires pktsts < 16 && count < 0x2000 && ep < 16
  {
    pktsts * 0x2_0000 + count * 0x10 + ep
  }

  function PacketStatus(w: word): nat {
    w / 0x2_0000 % 16
  }

  function ByteCount(w: word): nat {
    w / 0x10 % 0x800
  }

  function EndpointNumber(w: word): (ep: nat)
    ensures ep < 16
  {
    w % 16
  }

  /** An encoded word decodes to its three fields: PKTSTS from bit 17, the byte count from
      bit 4, the endpoint from bit 0. */
  lemma {:induction false} StatusRoundTrip(pktsts: nat, count: nat, ep: nat)
    requires pktsts < 16 && count < 0x800 && ep < 16
    ensures var w := StatusWord(pktsts, count, ep);
            && PacketStatus(w) == pktsts && ByteCount(w) == count && EndpointNumber(w) == ep
            && w / 0x2_0000 % 16 == pktsts && w / 0x10 % 0x800 == count && w % 16 == ep
  {
    var w := StatusWord(pktsts, count, ep);
    assert w == 16 * (pktsts * 0x2000 + count) + ep;
    assert w / 16 == pktsts * 0x2000 + count;
    assert w / 0x2_0000 == pktsts;
    assert (pktsts * 0x2000 + count) % 0x800 == count;
  }

  // ---- State ----

  datatype HostStep =
    | AwaitingDeviceDescriptor
    | AwaitingSetAddressStatus
    | AwaitingSetConfigurationStatus
    | AwaitingSetLineCodingStatus
    | AwaitingSetControlLineStateStatus
    | Configured

  /** What happened since start-up or the last bus reset, in order. */
  datatype Entry =
    | SetupQueued(ep: nat, packet: seq<byte>)
    | OutQueued(ep: nat, data: seq<byte>)
    | StatusPopped(status: word)
    | FifoPopped(bytes: seq<byte>)
    | InRaised(ep: nat, flag: nat)
    | OutRaised(ep: nat, flag: nat)
    | InArmed(ep: nat)
    | InUnmasked(ep: nat)
    | OutCtlWritten(ep: nat, value: word)
    | TakenFromBridge(bytes: seq<byte>)
    | GivenToBridge(bytes: seq<byte>)

  datatype History = Nothing | After(earlier: History, entry: Entry)

  /** Registers that only hold what was written to them, by name or by offset. */
  datatype Plain = Plain(other: map<word, word>, dcfg: word, dctl: word, diepMask: word, doepMask: word,
                         daintMask: word)

  datatype Otg = Otg(
    bridge: Bridge,
    pendingBridgeWrites: seq<byte>,
    plain: Plain,
    intStatus: word,
    intMask: word,
    hostAttached: bool,
    emptyMask: word,
    epIn: seq<Endpoint>,
    epOut: seq<Endpoint>,
    rxFifo: seq<byte>,
    rxStatus: seq<word>,
    txFifo: seq<seq<byte>>,
    step: HostStep,
    bulkIn: Option<nat>,
    bulkOut: Option<nat>,
    lastSof: long,
    history: History)

  /** The fixed array sizes, a bulk OUT endpoint that is not the control
      endpoint, and receive statuses that name existing endpoints. */
  ghost predicate Shape(s: Otg) {
    && |s.epIn| == NUM_ENDPOINTS
    && |s.epOut| == NUM_ENDPOINTS
    && |s.txFifo| == NUM_ENDPOINTS
    && (s.bulkIn.Some? ==> s.bulkIn.value < NUM_ENDPOINTS)
    && (s.bulkOut.Some? ==> 1 <= s.bulkOut.value < NUM_ENDPOINTS)
    && (forall w :: w in s.rxStatus ==> EndpointNumber(w) < NUM_ENDPOINTS)
  }

  function Start(bridge: Bridge, bulkIn: Option<nat>, bulkOut: Option<nat>): Otg {
    Otg(bridge, [], Plain(map[], 0, 0, 0, 0, 0), 0, 0, false, 0, IdleEndpoints(), IdleEndpoints(),
        [], [], EmptyFifos(), AwaitingDeviceDescriptor, bulkIn, bulkOut, 0, Nothing)
  }

  function Note(s: Otg, e: Entry): Otg {
    s.(history := After(s.history, e))
  }

  function RaiseIn(s: Otg, ep: nat, flag: nat): (r: Otg)
    requires ep < |s.epIn| && flag < 32
  {
    Note(s.(epIn := s.epIn[ep := s.epIn[ep].(intr := SetFlag(s.epIn[ep].intr, flag))]), InRaised(ep, flag))
  }

  function RaiseOut(s: Otg, ep: nat, flag: nat): (r: Otg)
    requires ep < |s.epOut| && flag < 32
  {
    Note(s.(epOut := s.epOut[ep := s.epOut[ep].(intr := SetFlag(s.epOut[ep].intr, flag))]), OutRaised(ep, flag))
  }

  // ---- Packets from the virtual host ----

  function QueueSetup(s: Otg, ep: nat, packet: seq<byte>): Otg
    requires ep < 16
  {
    Note(s.(rxFifo := s.rxFifo + packet,
            rxStatus := s.rxStatus + [StatusWord(SETUP_DATA, 8, ep), StatusWord(SETUP_COMP, 0, ep)]),
         SetupQueued(ep, packet))
  }

  function QueueOut(s: Otg, ep: nat, data: seq<byte>): Otg
    requires ep < 16 && |data| < 0x2000
  {
    Note(s.(rxFifo := s.rxFifo + data,
            rxStatus := s.rxStatus + [StatusWord(OUT_DATA, |data|, ep), StatusWord(OUT_COMP, 0, ep)]),
         OutQueued(ep, data))
  }

  function QueueControlOut(s: Otg, ep: nat, packet: seq<byte>, data: seq<byte>): Otg
    requires ep < 16 && |data| < 0x2000
  {
    var t := QueueSetup(s, ep, packet);
    if data == [] then t else QueueOut(t, ep, data)
  }

  const GET_DEVICE_DESCRIPTOR: seq<byte> := [0x80, 0x06, 0x00, 0x01, 0x00, 0x00, 0x12, 0x00]
  const SET_ADDRESS: seq<byte> := [0x00, 0x05, VIRTUAL_DEVICE_ADDRESS, 0x00, 0x00, 0x00, 0x00, 0x00]
  const SET_CONFIGURATION: seq<byte> := [0x00, 0x09, 0x01, 0x00, 0x00, 0x00, 0x00, 0x00]
  const SET_LINE_CODING: seq<byte> := [0x21, 0x20, 0x00, 0x00, 0x00, 0x00, 0x07, 0x00]
  const LINE_CODING: seq<byte> := [0x00, 0xc2, 0x01, 0x00, 0x00, 0x00, 0x08] // 115200 8N1
  const SET_CONTROL_LINE_STATE: seq<byte> := [0x21, 0x22, 0x03, 0x00, 0x00, 0x00, 0x00, 0x00] // DTR and RTS

  function NextStep(step: HostStep): HostStep {
    match step
    case AwaitingDeviceDescriptor => AwaitingSetAddressStatus
    case AwaitingSetAddressStatus => AwaitingSetConfigurationStatus
    case AwaitingSetConfigurationStatus => AwaitingSetLineCodingStatus
    case AwaitingSetLineCodingStatus => AwaitingSetControlLineStateStatus
    case AwaitingSetControlLineStateStatus => Configured
    case Configured => Configured
  }

  function StageOf(step: HostStep): CdcLink.Stage {
    match step
    case AwaitingDeviceDescriptor => CdcLink.AwaitingDeviceDescriptor
    case AwaitingSetAddressStatus => CdcLink.AwaitingSetAddressStatus
    case AwaitingSetConfigurationStatus => CdcLink.AwaitingSetConfigurationStatus
    case AwaitingSetLineCodingStatus => CdcLink.AwaitingSetLineCodingStatus
    case AwaitingSetControlLineStateStatus => CdcLink.AwaitingSetControlLineStateStatus
    case Configured => CdcLink.ProtocolReady
  }

  /** The requests sent when a step completes. The control-IN data stage of
      GET_DESCRIPTOR is acknowledged by a zero-length OUT packet first. */
  function Script(s: Otg): Otg {
    match s.step
    case AwaitingDeviceDescriptor => QueueSetup(QueueOut(s, 0, []), 0, SET_ADDRESS)
    case AwaitingSetAddressStatus => QueueSetup(s, 0, SET_CONFIGURATION)
    case AwaitingSetConfigurationStatus => QueueControlOut(s, 0, SET_LINE_CODING, LINE_CODING)
    case AwaitingSetLineCodingStatus => QueueSetup(s, 0, SET_CONTROL_LINE_STATE)
    case _ => s
  }

  function Advance(s: Otg): Otg {
    var next := NextStep(s.step);
    var t := Script(s).(step := next);
    if next == s.step then t else t.(bridge := Staged(t.bridge, StageOf(next)))
  }

  /** A bus reset forgets every endpoint, the FIFOs and the enumeration. The
      interrupt masks and the plain registers survive it. */
  function Cleared(s: Otg): Otg {
    s.(intStatus := SetFlag(s.intStatus, USB_RESET),
       step := AwaitingDeviceDescriptor,
       epIn := IdleEndpoints(),
       epOut := IdleEndpoints(),
       rxFifo := [],
       rxStatus := [],
       txFifo := EmptyFifos(),
       history := Nothing)
  }

  function BusReset(s: Otg): Otg {
    Cleared(s.(bridge := Staged(s.bridge, CdcLink.AwaitingDeviceDescriptor)))
  }

  // ---- FIFOs ----

  function Padded(bytes: seq<byte>): (r: seq<byte>)
    ensures |r| == if |bytes| < 4 then 4 else |bytes|
    decreases 4 - |bytes|
  {
    if |bytes| < 4 then Padded(bytes + [0]) else bytes
  }

  /** Padding supplies zeros for the missing bytes. */
  lemma {:induction false} PaddedWithZeros(bytes: seq<byte>)
    requires |bytes| <= 4
    ensures Padded(bytes) == (bytes + [0, 0, 0, 0])[..4]
    decreases 4 - |bytes|
  {
    if |bytes| < 4 {
      PaddedWithZeros(bytes + [0]);
    }
  }

  function FrontWord(fifo: seq<byte>): word {
    var b := Padded(fifo[..Min(4, |fifo|)]);
    LeWord(b[0], b[1], b[2], b[3])
  }

  function PopRxWord(s: Otg): Otg {
    var n := Min(4, |s.rxFifo|);
    Note(s.(rxFifo := s.rxFifo[n..]), FifoPopped(s.rxFifo[..n]))
  }

  /** The IN FIFO goes to the bridge, cut to the transfer size. */
  function ForwardIn(s: Otg, ep: nat): Otg
    requires ep < |s.epIn| && ep < |s.txFifo|
  {
    var bytes := s.txFifo[ep][..Min(XferSize(s.epIn[ep]), |s.txFifo[ep]|)];
    var u := Note(s.(txFifo := s.txFifo[ep := []]), GivenToBridge(bytes));
    if u.bridge.NoBridge? then u.(pendingBridgeWrites := u.pendingBridgeWrites + bytes)
    else u.(bridge := Forwarded(u.bridge, bytes))
  }

  function CompleteIn(s: Otg, ep: nat): Otg
    requires ep < |s.epIn| && ep < |s.txFifo|
  {
    var t := RaiseIn(s, ep, XFRC);
    if ep == 0 then Advance(t.(txFifo := t.txFifo[0 := []]))
    else if t.step == Configured && t.bulkIn == Some(ep) then ForwardIn(t, ep)
    else t
  }

  function DisarmIn(s: Otg, ep: nat): Otg
    requires ep < |s.epIn|
  {
    s.(epIn := s.epIn[ep := s.epIn[ep].(ctl := ClearBit(s.epIn[ep].ctl, EPENA))])
  }

  function AppendTxWord(s: Otg, ep: nat, value: word): Otg
    requires ep < |s.epIn| && ep < |s.txFifo|
  {
    s.(txFifo := s.txFifo[ep := s.txFifo[ep] + LeBytes(value)],
       epIn := s.epIn[ep := s.epIn[ep].(sent := (s.epIn[ep].sent + 4) % 0x1_0000_0000)])
  }

  function PushTxWord(s: Otg, ep: nat, value: word): Otg
    requires ep < |s.epIn| && ep < |s.txFifo|
  {
    var t := AppendTxWord(s, ep, value);
    if Enabled(s.epIn[ep]) && t.epIn[ep].sent >= XferSize(s.epIn[ep]) then CompleteIn(DisarmIn(t, ep), ep) else t
  }

  /** A packet may be taken only while the bulk OUT endpoint is armed. */
  predicate OutReady(s: Otg)
    requires Shape(s)
  {
    && s.step == Configured
    && s.bulkOut.Some?
    && !s.bridge.NoBridge?
    && Enabled(s.epOut[s.bulkOut.value])
    && XferSize(s.epOut[s.bulkOut.value]) != 0
  }

  function PacketLimit(s: Otg): nat
    requires Shape(s) && OutReady(s)
  {
    Min(BULK_PACKET, XferSize(s.epOut[s.bulkOut.value]))
  }

  function ForwardedPacket(s: Otg): seq<byte>
    requires Shape(s) && OutReady(s)
  {
    CdcLink.Taken(Available(s.bridge), PacketLimit(s))
  }

  predicate Forwards(s: Otg)
    requires Shape(s)
  {
    OutReady(s) && ForwardedPacket(s) != []
  }

  /** The packet taken and the endpoint disarmed, before the RX FIFO is filled. */
  function BeforeQueueing(s: Otg): Otg
    requires Shape(s) && Forwards(s)
  {
    var ep, bytes := s.bulkOut.value, ForwardedPacket(s);
    var e := s.epOut[ep].(ctl := ClearBit(s.epOut[ep].ctl, EPENA), tsiz := s.epOut[ep].tsiz - |bytes|);
    Note(s.(bridge := Drained(s.bridge, PacketLimit(s)), epOut := s.epOut[ep := e]), TakenFromBridge(bytes))
  }

  /** One packet per arm, then the host waits for firmware to re-arm. */
  function ForwardBulkOut(s: Otg): Otg
    requires Shape(s)
  {
    if !OutReady(s) then s
    else if ForwardedPacket(s) == [] then s.(bridge := Drained(s.bridge, PacketLimit(s)))
    else QueueOut(BeforeQueueing(s), s.bulkOut.value, ForwardedPacket(s))
  }

  // ---- Interrupt status ----

  /** DAINT bits contributed by the first `n` endpoints of one direction. */
  function EndpointBits(eps: seq<Endpoint>, n: nat, base: nat, acc: word): (r: word)
    requires n <= |eps| && base + n <= 32
    ensures forall j: nat :: Bit(r, j) <==> Bit(acc, j) || (base <= j < base + n && eps[j - base].intr != 0)
  {
    if n == 0 then acc
    else
      var r := EndpointBits(eps, n - 1, base, acc);
      if eps[n - 1].intr != 0 then SetFlag(r, base + n - 1) else r
  }

  function Daint(s: Otg): word
    requires Shape(s)
  {
    EndpointBits(s.epOut, NUM_ENDPOINTS, 16, EndpointBits(s.epIn, NUM_ENDPOINTS, 0, 0))
  }

  function EffectiveStatus(s: Otg): word
    requires Shape(s)
  {
    var daint := And(Daint(s), s.plain.daintMask);
    var s0 := if s.rxStatus != [] then SetFlag(s.intStatus, RXFLVL) else s.intStatus;
    var s1 := if And(daint, 0xffff) != 0 then SetFlag(s0, IEPINT) else s0;
    if And(daint, 0xffff_0000) != 0 then SetFlag(s1, OEPINT) else s1
  }

  predicate InterruptPending(s: Otg)
    requires Shape(s)
  {
    And(EffectiveStatus(s), s.intMask) != 0
  }

  // ---- Register map ----

  datatype Target =
    | Fifo(ep: nat)
    | InReg(ep: nat, reg: nat)
    | OutReg(ep: nat, reg: nat)
    | Global(offset: word)

  const DIEP_BASE: nat := 0x900
  const DOEP_BASE: nat := 0xb00
  const FIFO_BASE: nat := 0x1000
  const FIFO_WINDOW: nat := 0x1000
  const EP_STRIDE: nat := 0x20
  const EP_CTL: nat := 0x00
  const EP_INT: nat := 0x08
  const EP_TSIZ: nat := 0x10
  const DTXFSTS: nat := 0x18

  const GRSTCTL: nat := 0x010
  const GINTSTS: nat := 0x014
  const GINTMSK: nat := 0x018
  const GRXSTSR: nat := 0x01c
  const GRXSTSP: nat := 0x020
  const DCFG: nat := 0x800
  const DCTL: nat := 0x804
  const DIEPMSK: nat := 0x810
  const DOEPMSK: nat := 0x814
  const DAINT: nat := 0x818
  const DAINTMSK: nat := 0x81c
  const DIEPEMPMSK: nat := 0x834

  function DecodeEndpoint(base: nat, offset: word): Option<(nat, nat)> {
    if offset < base then None
    else if (offset - base) / EP_STRIDE < NUM_ENDPOINTS
    then Some(((offset - base) / EP_STRIDE, (offset - base) % EP_STRIDE))
    else None
  }

  function FifoEndpoint(offset: word): Option<nat> {
    if offset < FIFO_BASE then None
    else if (offset - FIFO_BASE) / FIFO_WINDOW < NUM_ENDPOINTS then Some((offset - FIFO_BASE) / FIFO_WINDOW)
    else None
  }

  function Decode(offset: word): (t: Target)
    ensures t.Fifo? || t.InReg? || t.OutReg? ==> t.ep < NUM_ENDPOINTS
    ensures t.Global? ==> t.offset == offset
  {
    match FifoEndpoint(offset)
    case Some(ep) => Fifo(ep)
    case None =>
      match DecodeEndpoint(DIEP_BASE, offset)
      case Some((ep, reg)) => InReg(ep, reg)
      case None =>
        match DecodeEndpoint(DOEP_BASE, offset)
        case Some((ep, reg)) => OutReg(ep, reg)
        case None => Global(offset)
  }

  function Lookup(m: map<word, word>, offset: word): word {
    if offset in m then m[offset] else 0
  }

  // ---- Register reads ----

  /** Popping a completion status raises the matching endpoint interrupt. */
  function PopStatus(s: Otg): Otg
    requires Shape(s)
  {
    if s.rxStatus == [] then s
    else
      var w := s.rxStatus[0];
      var t := Note(s.(rxStatus := s.rxStatus[1..]), StatusPopped(w));
      if PacketStatus(w) == SETUP_COMP then RaiseOut(t, EndpointNumber(w), STUP)
      else if PacketStatus(w) == OUT_COMP then RaiseOut(t, EndpointNumber(w), XFRC)
      else t
  }

  function ReadState(s: Otg, offset: word): Otg
    requires Shape(s)
  {
    match Decode(offset)
    case Fifo(ep) => if ep == 0 then PopRxWord(s) else s
    case Global(o) => if o == GRXSTSP then PopStatus(s) else s
    case _ => s
  }

  function ReadValue(s: Otg, offset: word): word
    requires Shape(s)
  {
    match Decode(offset)
    case Fifo(ep) => if ep == 0 then FrontWord(s.rxFifo) else 0
    case InReg(ep, reg) =>
      if reg == EP_CTL then s.epIn[ep].ctl
      else if reg == EP_INT then s.epIn[ep].intr
      else if reg == EP_TSIZ then s.epIn[ep].tsiz
      else if reg == DTXFSTS then DTXFSTS_AVAILABLE_WORDS
      else 0
    case OutReg(ep, reg) =>
      if reg == EP_CTL then s.epOut[ep].ctl
      else if reg == EP_INT then s.epOut[ep].intr
      else if reg == EP_TSIZ then s.epOut[ep].tsiz
      else 0
    case Global(o) => ReadGlobal(s, o)
  }

  function ReadGlobal(s: Otg, o: word): word
    requires Shape(s)
  {
    if o == GRSTCTL then SetFlag(Lookup(s.plain.other, o), 31)
    else if o == GINTSTS then EffectiveStatus(s)
    else if o == GINTMSK then s.intMask
    else if o == GRXSTSP || o == GRXSTSR then if s.rxStatus == [] then 0 else s.rxStatus[0]
    else if o == DCFG then s.plain.dcfg
    else if o == DCTL then s.plain.dctl
    else if o == DIEPMSK then s.plain.diepMask
    else if o == DOEPMSK then s.plain.doepMask
    else if o == DAINT then Daint(s)
    else if o == DAINTMSK then s.plain.daintMask
    else if o == DIEPEMPMSK then s.emptyMask
    else Lookup(s.plain.other, o)
  }

  // ---- Register writes ----

  function ArmIn(s: Otg, ep: nat, value: word): Otg
    requires ep < |s.epIn|
  {
    Note(s.(epIn := s.epIn[ep := s.epIn[ep].(ctl := value, sent := 0)]), InArmed(ep))
  }

  function WriteInCtl(s: Otg, ep: nat, value: word): Otg
    requires ep < |s.epIn| && ep < |s.txFifo|
  {
    if Bit(value, EPENA) && !Enabled(s.epIn[ep]) then
      var t := ArmIn(s, ep, value);
      if XferSize(s.epIn[ep]) == 0 then CompleteIn(DisarmIn(t, ep), ep)
      else if Bit(s.emptyMask, ep) then RaiseIn(t, ep, TXFE)
      else t
    else s.(epIn := s.epIn[ep := s.epIn[ep].(ctl := value)])
  }

  function WriteOutCtl(s: Otg, ep: nat, value: word): Otg
    requires Shape(s) && ep < NUM_ENDPOINTS
  {
    var t := Note(s.(epOut := s.epOut[ep := s.epOut[ep].(ctl := value)]), OutCtlWritten(ep, value));
    if ep == 0 && Bit(value, USBAEP) && !Bit(s.epOut[0].ctl, USBAEP) && s.step == AwaitingDeviceDescriptor
    then QueueSetup(t, 0, GET_DEVICE_DESCRIPTOR)
    else t
  }

  /** TXFE for the newly unmasked, armed endpoints below `n`. */
  function Unmask(s: Otg, newly: word, n: nat): (r: Otg)
    requires n <= NUM_ENDPOINTS && |s.epIn| == NUM_ENDPOINTS
    ensures |r.epIn| == NUM_ENDPOINTS
  {
    if n == 0 then s
    else
      var t := Unmask(s, newly, n - 1);
      if !Bit(newly, n - 1) then t
      else
        var u := Note(t, InUnmasked(n - 1));
        if Enabled(u.epIn[n - 1]) then RaiseIn(u, n - 1, TXFE) else u
  }

  function WriteEmptyMask(s: Otg, value: word): Otg
    requires Shape(s)
  {
    Unmask(s.(emptyMask := value), AndNot(value, s.emptyMask), NUM_ENDPOINTS)
  }

  /** The reset and flush requests of GRSTCTL clear themselves. */
  function WritePlain(p: Plain, o: word, value: word): Plain {
    if o == GRSTCTL then p.(other := p.other[o := ClearBit(ClearBit(ClearBit(value, 0), 4), 5)])
    else if o == DCFG then p.(dcfg := value)
    else if o == DCTL then p.(dctl := value)
    else if o == DIEPMSK then p.(diepMask := value)
    else if o == DOEPMSK then p.(doepMask := value)
    else if o == DAINTMSK then p.(daintMask := value)
    else p.(other := p.other[o := value])
  }

  function WriteGlobal(s: Otg, o: word, value: word): Otg
    requires Shape(s)
  {
    if o == GINTSTS then s.(intStatus := AndNot(s.intStatus, value))
    else if o == GINTMSK then
      (if s.intMask == 0 && value != 0 then s.(bridge := Staged(s.bridge, CdcLink.UsbStarted))
       else s).(intMask := value)
    else if o == DIEPEMPMSK then WriteEmptyMask(s, value)
    else s.(plain := WritePlain(s.plain, o, value))
  }

  function WriteIn(s: Otg, ep: nat, reg: nat, value: word): Otg
    requires Shape(s) && ep < NUM_ENDPOINTS
  {
    var e := s.epIn[ep];
    if reg == EP_CTL then WriteInCtl(s, ep, value)
    else if reg == EP_INT then s.(epIn := s.epIn[ep := e.(intr := AndNot(e.intr, value))])
    else if reg == EP_TSIZ then s.(epIn := s.epIn[ep := e.(tsiz := value)])
    else s
  }

  function WriteOut(s: Otg, ep: nat, reg: nat, value: word): Otg
    requires Shape(s) && ep < NUM_ENDPOINTS
  {
    var e := s.epOut[ep];
    if reg == EP_CTL then WriteOutCtl(s, ep, value)
    else if reg == EP_INT then s.(epOut := s.epOut[ep := e.(intr := AndNot(e.intr, value))])
    else if reg == EP_TSIZ then s.(epOut := s.epOut[ep := e.(tsiz := value)])
    else s
  }

  function WriteState(s: Otg, offset: word, value: word): Otg
    requires Shape(s)
  {
    match Decode(offset)
    case Fifo(ep) => PushTxWord(s, ep, value)
    case InReg(ep, reg) => WriteIn(s, ep, reg, value)
    case OutReg(ep, reg) => WriteOut(s, ep, reg, value)
    case Global(o) => WriteGlobal(s, o, value)
  }

  // ---- Poll ----

  /** Whether the next poll attaches the host and so resets the bus. */
  predicate Attaching(s: Otg, irqEnabled: bool) {
    ClientConnected(s.bridge) && s.intMask != 0 && irqEnabled && !s.hostAttached
  }

  function Refresh(s: Otg, irqEnabled: bool): Otg {
    if Attaching(s, irqEnabled) then BusReset(s.(hostAttached := true))
    else if !ClientConnected(s.bridge) then s.(hostAttached := false)
    else s
  }

  function Sof(s: Otg, now: long): Otg {
    if s.hostAttached && (now - s.lastSof) % 0x1_0000_0000_0000_0000 >= SOF_PERIOD_INSTRUCTIONS
    then s.(lastSof := now, intStatus := SetFlag(s.intStatus, SOF))
    else s
  }

  function Poll(s: Otg, irqEnabled: bool, now: long): Otg
    requires Shape(s)
  {
    RefreshKeepsShape(s, irqEnabled);
    ForwardBulkOut(Sof(Refresh(s, irqEnabled), now))
  }

  // ---- The shape is preserved ----

  lemma {:induction false} RefreshKeepsShape(s: Otg, irqEnabled: bool)
    requires Shape(s)
    ensures Shape(Refresh(s, irqEnabled))
  {
  }
}
