/** The OTG-FS controller object: register handlers that update its fields in
    place, each proved to do exactly what the state machine of `OtgModel` says. */
module OtgFs {
  import opened Bits
  import opened ByteQueues
  import opened OtgModel
  import opened UsbCdcBridge
  import OtgRuns
  import OtgInterrupts
  import CdcLink

  class OtgFs {
    const bridge: UsbCdcTcp?
    var registers: map<word, word>
    var globalInterruptStatus: word
    var globalInterruptMask: word
    var hostAttached: bool
    var dcfg: word
    var dctl: word
    var diepMask: word
    var doepMask: word
    var daintMask: word
    var diepEmptyMask: word
    var epIn: seq<Endpoint>
    var epOut: seq<Endpoint>
    var rxFifo: seq<byte>
    var rxStatus: seq<word>
    var txFifo: seq<seq<byte>>
    var virtualHostStep: HostStep
    const bulkInEndpoint: Option<nat>
    const bulkOutEndpoint: Option<nat>
    var pendingBridgeWrites: seq<byte>
    var lastSofInstruction: long
    ghost var history: History

    ghost function BridgeFootprint(): set<object> {
      if bridge == null then {} else bridge.Footprint()
    }

    ghost function Footprint(): set<object> {
      {this} + BridgeFootprint()
    }

    ghost function BridgeState(): Bridge
      reads BridgeFootprint()
    {
      if bridge == null then NoBridge else bridge.State()
    }

    ghost function State(): Otg
      reads Footprint()
    {
      Otg(BridgeState(), pendingBridgeWrites, Plain(registers, dcfg, dctl, diepMask, doepMask, daintMask),
          globalInterruptStatus, globalInterruptMask, hostAttached,
          diepEmptyMask, epIn, epOut, rxFifo, rxStatus, txFifo, virtualHostStep, bulkInEndpoint, bulkOutEndpoint,
          lastSofInstruction, history)
    }

    constructor (bridge: UsbCdcTcp?, bulkIn: Option<nat>, bulkOut: Option<nat>)
      ensures this.bridge == bridge
      ensures State() == Start(if bridge == null then NoBridge else bridge.State(), bulkIn, bulkOut)
    {
      this.bridge := bridge;
      registers := map[];
      globalInterruptStatus, globalInterruptMask, hostAttached := 0, 0, false;
      dcfg, dctl, diepMask, doepMask, daintMask, diepEmptyMask := 0, 0, 0, 0, 0, 0;
      epIn, epOut := IdleEndpoints(), IdleEndpoints();
      rxFifo, rxStatus, txFifo := [], [], EmptyFifos();
      virtualHostStep := AwaitingDeviceDescriptor;
      bulkInEndpoint, bulkOutEndpoint := bulkIn, bulkOut;
      pendingBridgeWrites, lastSofInstruction := [], 0;
      history := Nothing;
    }

    method RaiseInEndpointInterrupt(ep: nat, flag: nat)
      requires ep < |epIn| && flag < 32
      modifies this
      ensures State() == RaiseIn(old(State()), ep, flag)
    {
      epIn := epIn[ep := epIn[ep].(intr := SetFlag(epIn[ep].intr, flag))];
      history := After(history, InRaised(ep, flag));
    }

    method RaiseOutEndpointInterrupt(ep: nat, flag: nat)
      requires ep < |epOut| && flag < 32
      modifies this
      ensures State() == RaiseOut(old(State()), ep, flag)
    {
      epOut := epOut[ep := epOut[ep].(intr := SetFlag(epOut[ep].intr, flag))];
      history := After(history, OutRaised(ep, flag));
    }

    // ---- Packets from the virtual host ----

    method VirtualHostSetup(ep: nat, packet: seq<byte>)
      requires ep < 16
      modifies this
      ensures State() == QueueSetup(old(State()), ep, packet)
    {
      hide StatusWord;
      rxFifo, history := rxFifo + packet, After(history, SetupQueued(ep, packet));
      rxStatus := rxStatus + [StatusWord(SETUP_DATA, 8, ep), StatusWord(SETUP_COMP, 0, ep)];
    }

    method VirtualHostOut(ep: nat, data: seq<byte>)
      requires ep < 16 && |data| < 0x2000
      modifies this
      ensures State() == QueueOut(old(State()), ep, data)
    {
      hide StatusWord;
      rxFifo, history := rxFifo + data, After(history, OutQueued(ep, data));
      rxStatus := rxStatus + [StatusWord(OUT_DATA, |data|, ep), StatusWord(OUT_COMP, 0, ep)];
    }

    method VirtualHostControlOut(ep: nat, packet: seq<byte>, data: seq<byte>)
      requires ep < 16 && |data| < 0x2000
      modifies this
      ensures State() == QueueControlOut(old(State()), ep, packet, data)
    {
      VirtualHostSetup(ep, packet);
      if data != [] {
        VirtualHostOut(ep, data);
      }
    }

    method AdvanceVirtualHost()
      modifies Footprint()
      ensures State() == Advance(old(State()))
    {
      hide Script, StageOf;
      var previous := virtualHostStep;
      RunScript();
      if virtualHostStep != previous && bridge != null {
        bridge.SetProtocolStage(StageOf(virtualHostStep));
      }
    }

    /** The packets of the current step, and the step after it. */
    method RunScript()
      modifies this
      ensures State() == Script(old(State())).(step := NextStep(old(virtualHostStep)))
    {
      hide QueueSetup, QueueOut, QueueControlOut;
      match virtualHostStep {
        case AwaitingDeviceDescriptor =>
          VirtualHostOut(0, []);
          VirtualHostSetup(0, SET_ADDRESS);
          virtualHostStep := AwaitingSetAddressStatus;
        case AwaitingSetAddressStatus =>
          VirtualHostSetup(0, SET_CONFIGURATION);
          virtualHostStep := AwaitingSetConfigurationStatus;
        case AwaitingSetConfigurationStatus =>
          VirtualHostControlOut(0, SET_LINE_CODING, LINE_CODING);
          virtualHostStep := AwaitingSetLineCodingStatus;
        case AwaitingSetLineCodingStatus =>
          VirtualHostSetup(0, SET_CONTROL_LINE_STATE);
          virtualHostStep := AwaitingSetControlLineStateStatus;
        case AwaitingSetControlLineStateStatus =>
          virtualHostStep := Configured;
        case Configured =>
      }
    }

    method VirtualHostReset()
      modifies Footprint()
      ensures State() == BusReset(old(State()))
    {
      hide Cleared;
      if bridge != null {
        bridge.SetProtocolStage(CdcLink.AwaitingDeviceDescriptor);
      }
      ClearState();
    }

    method ClearState()
      modifies this
      ensures State() == Cleared(old(State()))
    {
      hide SetFlag, IdleEndpoints, EmptyFifos;
      globalInterruptStatus := SetFlag(globalInterruptStatus, USB_RESET);
      virtualHostStep := AwaitingDeviceDescriptor;
      epIn, epOut := IdleEndpoints(), IdleEndpoints();
      history := Nothing;
      ClearFifos();
    }

    method ClearFifos()
      modifies this
      ensures State() == old(State()).(rxFifo := [], rxStatus := [], txFifo := EmptyFifos())
    {
      hide EmptyFifos;
      rxFifo, rxStatus, txFifo := [], [], EmptyFifos();
    }

    // ---- FIFOs ----

    /** Pops four bytes, zeros standing in for missing ones. */
    method PopRxFifoWord() returns (w: word)
      modifies this
      ensures State() == PopRxWord(old(State()))
      ensures w == FrontWord(old(rxFifo))
    {
      ghost var front := rxFifo[..Min(4, |rxFifo|)];
      var bytes: seq<byte>;
      bytes, rxFifo := PopFour(rxFifo);
      PaddedWithZeros(front);
      w := LeWord(bytes[0], bytes[1], bytes[2], bytes[3]);
      history := After(history, FifoPopped(front));
    }

    static method PopFour(fifo: seq<byte>) returns (bytes: seq<byte>, rest: seq<byte>)
      ensures |bytes| == 4 && bytes == (fifo[..Min(4, |fifo|)] + [0, 0, 0, 0])[..4]
      ensures rest == fifo[Min(4, |fifo|)..]
    {
      hide Popped, Left;
      NoByte(fifo);
      bytes, rest := [], fifo;
      for i := 0 to 4
        invariant bytes == Popped(fifo, i) && rest == Left(fifo, i)
      {
        NextByte(fifo, i);
        if rest != [] {
          bytes, rest := bytes + [rest[0]], rest[1..];
        } else {
          bytes := bytes + [0];
        }
      }
      PoppedIs(fifo);
    }

    /** `n` bytes from the front, zeros standing in for missing ones. */
    static ghost function Popped(fifo: seq<byte>, n: nat): (r: seq<byte>)
      ensures |r| == n
    {
      if n == 0 then [] else Popped(fifo, n - 1) + [if n - 1 < |fifo| then fifo[n - 1] else 0]
    }

    /** What is left after popping `n` bytes. */
    static ghost function Left(fifo: seq<byte>, n: nat): seq<byte> {
      fifo[Min(n, |fifo|)..]
    }

    static lemma {:induction false} NoByte(fifo: seq<byte>)
      ensures Popped(fifo, 0) == [] && Left(fifo, 0) == fifo
    {
    }

    static lemma {:induction false} NextByte(fifo: seq<byte>, n: nat)
      ensures Left(fifo, n) != [] ==>
                && Popped(fifo, n + 1) == Popped(fifo, n) + [Left(fifo, n)[0]]
                && Left(fifo, n + 1) == Left(fifo, n)[1..]
      ensures Left(fifo, n) == [] ==> Popped(fifo, n + 1) == Popped(fifo, n) + [0] && Left(fifo, n + 1) == []
    {
    }

    static lemma {:induction false} PoppedIs(fifo: seq<byte>)
      ensures Left(fifo, 4) == fifo[Min(4, |fifo|)..]
      ensures Popped(fifo, 4) == (fifo[..Min(4, |fifo|)] + [0, 0, 0, 0])[..4]
    {
      assert Popped(fifo, 4)[..3] == Popped(fifo, 3) && Popped(fifo, 3)[..2] == Popped(fifo, 2);
      assert Popped(fifo, 2)[..1] == Popped(fifo, 1) && Popped(fifo, 1)[..0] == [];
    }

    method CompleteInTransfer(ep: nat)
      requires ep < |epIn| && ep < |txFifo|
      modifies Footprint()
      ensures State() == CompleteIn(old(State()), ep)
    {
      hide Advance, ForwardIn, SetFlag;
      RaiseInEndpointInterrupt(ep, XFRC);
      if ep == 0 {
        txFifo := txFifo[0 := []];
        AdvanceVirtualHost();
      } else if virtualHostStep == Configured && Some(ep) == bulkInEndpoint {
        ForwardBulkIn(ep);
      }
    }

    method ForwardBulkIn(ep: nat)
      requires ep < |epIn| && ep < |txFifo|
      modifies Footprint()
      ensures State() == ForwardIn(old(State()), ep)
    {
      hide Forwarded, XferSize;
      var bytes := DrainTransfer(ep);
      if bridge != null {
        bridge.PushFromDevice(bytes);
      } else {
        pendingBridgeWrites := pendingBridgeWrites + bytes;
      }
    }

    /** Empties an IN FIFO, cut to the transfer size. */
    method DrainTransfer(ep: nat) returns (bytes: seq<byte>)
      requires ep < |epIn| && ep < |txFifo|
      modifies this
      ensures bytes == old(txFifo[ep])[..Min(XferSize(old(epIn[ep])), |old(txFifo[ep])|)]
      ensures State() == Note(old(State()).(txFifo := old(txFifo)[ep := []]), GivenToBridge(bytes))
    {
      hide XferSize;
      var size := XferSize(epIn[ep]);
      bytes := txFifo[ep][..Min(size, |txFifo[ep]|)];
      txFifo, history := txFifo[ep := []], After(history, GivenToBridge(bytes));
    }

    method PushTxFifoWord(ep: nat, value: word)
      requires ep < |epIn| && ep < |txFifo|
      modifies Footprint()
      ensures State() == PushTxWord(old(State()), ep, value)
    {
      hide CompleteIn, LeBytes;
      ghost var s := State();
      txFifo := txFifo[ep := txFifo[ep] + LeBytes(value)];
      var wasEnabled := Enabled(epIn[ep]);
      epIn := epIn[ep := epIn[ep].(sent := (epIn[ep].sent + 4) % 0x1_0000_0000)];
      assert State() == AppendTxWord(s, ep, value);
      if wasEnabled && epIn[ep].sent >= XferSize(epIn[ep]) {
        DisarmInEndpoint(ep);
        CompleteInTransfer(ep);
      }
    }

    method ForwardBulkOut()
      requires Shape(State())
      modifies Footprint()
      ensures State() == OtgModel.ForwardBulkOut(old(State()))
    {
      hide Drained, Available, StatusWord, QueueOut, XferSize, Enabled, ClearBit;
      ghost var s := State();
      if virtualHostStep != Configured || bulkOutEndpoint.None? || bridge == null {
        return;
      }
      var ep := bulkOutEndpoint.value;
      if !Enabled(epOut[ep]) {
        return;
      }
      var requested := XferSize(epOut[ep]);
      if requested == 0 {
        return;
      }
      var bytes := bridge.TakeForDevice(Min(BULK_PACKET, requested));
      if bytes == [] {
        return;
      }
      TakePacket(ep, bytes);
      assert State() == BeforeQueueing(s);
      VirtualHostOut(ep, bytes);
    }

    /** Disarms the endpoint and reduces its transfer by the packet taken. */
    method TakePacket(ep: nat, bytes: seq<byte>)
      requires ep < |epOut| && |bytes| <= XferSize(epOut[ep])
      modifies this
      ensures var e := old(epOut[ep]).(ctl := ClearBit(old(epOut[ep]).ctl, EPENA),
                                       tsiz := old(epOut[ep]).tsiz - |bytes|);
              State() == Note(old(State()).(epOut := old(epOut)[ep := e]), TakenFromBridge(bytes))
    {
      hide ClearBit;
      var requested := XferSize(epOut[ep]);
      var remaining := requested - |bytes|;
      epOut := epOut[ep := epOut[ep].(ctl := ClearBit(epOut[ep].ctl, EPENA))];
      epOut := epOut[ep := epOut[ep].(tsiz := epOut[ep].tsiz - requested + remaining)];
      history := After(history, TakenFromBridge(bytes));
    }

    method RefreshVirtualHostAttachment(firmwareIrqEnabled: bool)
      modifies Footprint()
      ensures State() == Refresh(old(State()), firmwareIrqEnabled)
    {
      var present := false;
      if bridge != null {
        present := bridge.IsClientConnected();
      }
      var ready := globalInterruptMask != 0 && firmwareIrqEnabled;
      if present && ready && !hostAttached {
        hostAttached := true;
        VirtualHostReset();
      } else if !present {
        hostAttached := false;
      }
    }

    // ---- Interrupt status ----

    method ReadDaint() returns (value: word)
      requires Shape(State())
      ensures value == Daint(State())
    {
      value := 0;
      for i := 0 to NUM_ENDPOINTS
        invariant value == EndpointBits(epIn, i, 0, 0)
      {
        if epIn[i].intr != 0 {
          value := SetFlag(value, i);
        }
      }
      ghost var low := value;
      for i := 0 to NUM_ENDPOINTS
        invariant value == EndpointBits(epOut, i, 16, low)
      {
        if epOut[i].intr != 0 {
          value := SetFlag(value, 16 + i);
        }
      }
    }

    method EffectiveGintsts() returns (status: word)
      requires Shape(State())
      ensures status == EffectiveStatus(State())
    {
      var daint := ReadDaint();
      daint := And(daint, daintMask);
      status := globalInterruptStatus;
      if rxStatus != [] {
        status := SetFlag(status, RXFLVL);
      }
      if And(daint, 0xffff) != 0 {
        status := SetFlag(status, IEPINT);
      }
      if And(daint, 0xffff_0000) != 0 {
        status := SetFlag(status, OEPINT);
      }
    }

    // ---- Register access ----

    method PopRxStatus() returns (w: word)
      requires Shape(State())
      modifies this
      ensures State() == PopStatus(old(State()))
      ensures w == if old(rxStatus) == [] then 0 else old(rxStatus)[0]
    {
      hide PacketStatus, EndpointNumber, SetFlag;
      if rxStatus == [] {
        return 0;
      }
      w := rxStatus[0];
      assert w in State().rxStatus;
      rxStatus := rxStatus[1..];
      history := After(history, StatusPopped(w));
      if PacketStatus(w) == SETUP_COMP {
        RaiseOutEndpointInterrupt(EndpointNumber(w), STUP);
      } else if PacketStatus(w) == OUT_COMP {
        RaiseOutEndpointInterrupt(EndpointNumber(w), XFRC);
      }
    }

    method RegisterRead(offset: word) returns (value: word)
      requires Shape(State())
      modifies this
      ensures State() == ReadState(old(State()), offset)
      ensures value == ReadValue(old(State()), offset)
    {
      match FifoEndpoint(offset) {
        case Some(ep) =>
          if ep == 0 {
            value := PopRxFifoWord();
            return;
          }
          return 0;
        case None =>
      }
      match DecodeEndpoint(DIEP_BASE, offset) {
        case Some((ep, reg)) =>
          return if reg == EP_CTL then epIn[ep].ctl
                 else if reg == EP_INT then epIn[ep].intr
                 else if reg == EP_TSIZ then epIn[ep].tsiz
                 else if reg == DTXFSTS then DTXFSTS_AVAILABLE_WORDS
                 else 0;
        case None =>
      }
      match DecodeEndpoint(DOEP_BASE, offset) {
        case Some((ep, reg)) =>
          return if reg == EP_CTL then epOut[ep].ctl
                 else if reg == EP_INT then epOut[ep].intr
                 else if reg == EP_TSIZ then epOut[ep].tsiz
                 else 0;
        case None =>
      }
      if offset == GRXSTSP {
        value := PopRxStatus();
      } else {
        value := ReadGlobalRegister(offset);
      }
    }

    method ReadGlobalRegister(offset: word) returns (value: word)
      requires Shape(State())
      ensures offset != GRXSTSP ==> value == ReadGlobal(State(), offset)
    {
      if offset == GRSTCTL {
        value := SetFlag(Lookup(registers, offset), 31);
      } else if offset == GINTSTS {
        value := EffectiveGintsts();
      } else if offset == GINTMSK {
        value := globalInterruptMask;
      } else if offset == GRXSTSR {
        value := if rxStatus == [] then 0 else rxStatus[0];
      } else if offset == DCFG {
        value := dcfg;
      } else if offset == DCTL {
        value := dctl;
      } else if offset == DIEPMSK {
        value := diepMask;
      } else if offset == DOEPMSK {
        value := doepMask;
      } else if offset == DAINT {
        value := ReadDaint();
      } else if offset == DAINTMSK {
        value := daintMask;
      } else if offset == DIEPEMPMSK {
        value := diepEmptyMask;
      } else {
        value := Lookup(registers, offset);
      }
    }

    method WriteInControl(ep: nat, value: word)
      requires ep < |epIn| && ep < |txFifo|
      modifies Footprint()
      ensures State() == WriteInCtl(old(State()), ep, value)
    {
      hide CompleteIn, RaiseIn, Bit, ClearBit;
      ghost var s := State();
      var arming := Bit(value, EPENA) && !Enabled(epIn[ep]);
      epIn := epIn[ep := epIn[ep].(ctl := value)];
      if arming {
        BeginTransfer(ep);
        assert State() == ArmIn(s, ep, value);
        if XferSize(epIn[ep]) == 0 {
          DisarmInEndpoint(ep);
          CompleteInTransfer(ep);
        } else if Bit(diepEmptyMask, ep) {
          RaiseInEndpointInterrupt(ep, TXFE);
        }
      }
    }

    method BeginTransfer(ep: nat)
      requires ep < |epIn|
      modifies this
      ensures State() == ArmIn(old(State()), ep, old(epIn[ep].ctl))
    {
      epIn, history := epIn[ep := epIn[ep].(sent := 0)], After(history, InArmed(ep));
    }

    method DisarmInEndpoint(ep: nat)
      requires ep < |epIn|
      modifies this
      ensures State() == DisarmIn(old(State()), ep)
    {
      hide ClearBit;
      epIn := epIn[ep := epIn[ep].(ctl := ClearBit(epIn[ep].ctl, EPENA))];
    }

    method WriteOutControl(ep: nat, value: word)
      requires Shape(State()) && ep < NUM_ENDPOINTS
      modifies this
      ensures State() == WriteOutCtl(old(State()), ep, value)
    {
      var wasActive := Bit(epOut[ep].ctl, USBAEP);
      epOut := epOut[ep := epOut[ep].(ctl := value)];
      history := After(history, OutCtlWritten(ep, value));
      if ep == 0 && Bit(value, USBAEP) && !wasActive && virtualHostStep == AwaitingDeviceDescriptor {
        VirtualHostSetup(0, GET_DEVICE_DESCRIPTOR);
      }
    }

    method WriteEmptyMaskRegister(value: word)
      requires Shape(State())
      modifies this
      ensures State() == WriteEmptyMask(old(State()), value)
    {
      var newly := AndNot(value, diepEmptyMask);
      diepEmptyMask := value;
      ghost var s := State();
      for ep := 0 to NUM_ENDPOINTS
        invariant |epIn| == NUM_ENDPOINTS
        invariant State() == Unmask(s, newly, ep)
      {
        if Bit(newly, ep) {
          SignalUnmasked(ep);
        }
      }
    }

    /** TXFE for an endpoint just unmasked, if it is armed. */
    method SignalUnmasked(ep: nat)
      requires ep < |epIn|
      modifies this
      ensures var t := Note(old(State()), InUnmasked(ep));
              State() == if Enabled(t.epIn[ep]) then RaiseIn(t, ep, TXFE) else t
    {
      hide Bit, SetFlag;
      history := After(history, InUnmasked(ep));
      if Enabled(epIn[ep]) {
        RaiseInEndpointInterrupt(ep, TXFE);
      }
    }

    method WriteGlobalRegister(offset: word, value: word)
      requires Shape(State())
      modifies Footprint()
      ensures State() == WriteGlobal(old(State()), offset, value)
    {
      hide WriteEmptyMask, WritePlain, AndNot;
      if offset == GINTSTS {
        globalInterruptStatus := AndNot(globalInterruptStatus, value);
      } else if offset == GINTMSK {
        if globalInterruptMask == 0 && value != 0 && bridge != null {
          bridge.SetProtocolStage(CdcLink.UsbStarted);
        }
        globalInterruptMask := value;
      } else if offset == DIEPEMPMSK {
        WriteEmptyMaskRegister(value);
      } else {
        WritePlainRegister(offset, value);
      }
    }

    method WritePlainRegister(offset: word, value: word)
      modifies this
      ensures State() == old(State()).(plain := WritePlain(old(State().plain), offset, value))
    {
      hide ClearBit;
      ghost var t := State().(plain := WritePlain(State().plain, offset, value));
      if offset == DCFG {
        dcfg := value;
      } else if offset == DCTL {
        dctl := value;
      } else if offset == DIEPMSK {
        diepMask := value;
      } else if offset == DOEPMSK {
        doepMask := value;
      } else if offset == DAINTMSK {
        daintMask := value;
      } else {
        registers := registers[offset := if offset == GRSTCTL then ClearBit(ClearBit(ClearBit(value, 0), 4), 5)
                               else value];
      }
      assert State() == t;
    }

    method WriteInRegister(ep: nat, reg: nat, value: word)
      requires Shape(State()) && ep < NUM_ENDPOINTS
      modifies Footprint()
      ensures State() == WriteIn(old(State()), ep, reg, value)
    {
      hide WriteInCtl, AndNot;
      if reg == EP_CTL {
        WriteInControl(ep, value);
      } else if reg == EP_INT {
        epIn := epIn[ep := epIn[ep].(intr := AndNot(epIn[ep].intr, value))];
      } else if reg == EP_TSIZ {
        epIn := epIn[ep := epIn[ep].(tsiz := value)];
      }
    }

    method WriteOutRegister(ep: nat, reg: nat, value: word)
      requires Shape(State()) && ep < NUM_ENDPOINTS
      modifies this
      ensures State() == WriteOut(old(State()), ep, reg, value)
    {
      hide WriteOutCtl, AndNot;
      if reg == EP_CTL {
        WriteOutControl(ep, value);
      } else if reg == EP_INT {
        epOut := epOut[ep := epOut[ep].(intr := AndNot(epOut[ep].intr, value))];
      } else if reg == EP_TSIZ {
        epOut := epOut[ep := epOut[ep].(tsiz := value)];
      }
    }

    method RegisterWrite(offset: word, value: word)
      requires Shape(State())
      modifies Footprint()
      ensures State() == WriteState(old(State()), offset, value)
    {
      hide PushTxWord, WriteIn, WriteOut, WriteGlobal;
      match FifoEndpoint(offset) {
        case Some(ep) =>
          PushTxFifoWord(ep, value);
          return;
        case None =>
      }
      match DecodeEndpoint(DIEP_BASE, offset) {
        case Some((ep, reg)) =>
          WriteInRegister(ep, reg, value);
          return;
        case None =>
      }
      match DecodeEndpoint(DOEP_BASE, offset) {
        case Some((ep, reg)) =>
          WriteOutRegister(ep, reg, value);
          return;
        case None =>
      }
      WriteGlobalRegister(offset, value);
    }

    // ---- Poll ----

    /** `pends`: the OTG interrupt is set pending at the NVIC, for the causes `Requested`
        lists. */
    method Poll(irqEnabled: bool, now: long) returns (pends: bool)
      requires Shape(State())
      modifies Footprint()
      ensures State() == OtgModel.Poll(old(State()), irqEnabled, now)
      ensures Shape(State()) && pends == InterruptPending(State())
      ensures OtgInterrupts.StoredStatusInv(old(State())) ==> (pends <==> OtgInterrupts.Requested(State()))
    {
      hide BusReset, OtgModel.ForwardBulkOut, Refresh, EffectiveStatus, Sof, And, OtgInterrupts.StoredStatusInv,
           OtgInterrupts.Requested;
      ghost var start := State();
      RefreshKeepsShape(State(), irqEnabled);
      RefreshVirtualHostAttachment(irqEnabled);
      SofKeepsShape(State(), now);
      StartOfFrame(now);
      OtgRuns.ForwardKeepsShape(State());
      ForwardBulkOut();
      var status := EffectiveGintsts();
      pends := And(status, globalInterruptMask) != 0;
      if OtgInterrupts.StoredStatusInv(start) {
        OtgInterrupts.NextKeepsStatus(start, OtgRuns.PollAt(irqEnabled, now));
        OtgInterrupts.RequestedIff(State());
      }
    }

    static lemma {:induction false} SofKeepsShape(s: Otg, now: long)
      requires Shape(s)
      ensures Shape(Sof(s, now))
    {
      hide SetFlag;
    }

    /** A start-of-frame interrupt when a host is attached and a period has passed. */
    method StartOfFrame(now: long)
      modifies this
      ensures State() == Sof(old(State()), now)
    {
      hide SetFlag;
      if hostAttached && (now - lastSofInstruction) % 0x1_0000_0000_0000_0000 >= SOF_PERIOD_INSTRUCTIONS {
        lastSofInstruction := now;
        globalInterruptStatus := SetFlag(globalInterruptStatus, SOF);
      }
    }
  }
}
