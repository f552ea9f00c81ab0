# STM32 emulator: verified models of its protocol and state machines

The emulator runs STM32 firmware against peripherals that are themselves state
machines. This project models the ones where firmware, the poll loop and a host
interleave freely, and proves what holds over every such interleaving. Words are
natural numbers with explicit wrap-around and truncation; their bits are defined
in `Bits.dfy`.

Each stateful source file is a class whose methods update its fields in place.
Every method is proved to take its state to what a specification function says,
and the main results are lemmas over arbitrary runs of those functions. A run is
any sequence of firmware accesses, polls and host actions. The specification functions
themselves are held to what registers, bytes and events show: those lemmas name offsets,
bits and values outright, or count over the events of a run.

- USB device: `OtgModel` (specification of the OTG-FS controller and its virtual
  host), `OtgFs` (the object), `OtgRuns` (runs), `OtgRegisters` (what each event does,
  in the offsets, bits and bytes firmware sees), `OtgDriver` and `OtgSender` (firmware
  that receives and that sends, with their invariants), and one file per result:
  `OtgEnumeration`, `OtgReceive`, `OtgInterrupts`, `OtgRequests`, `OtgBulkOut`,
  `OtgFlowControl`, `OtgBulkIn`, `OtgStale`, `OtgSession`, `OtgLoss`, `OtgDeviceToHost`,
  `OtgTcp`. `CdcLink` is the in-process link to a host thread, `UsbCdcBridge` the bridge
  in front of it or of a TCP client, `ByteQueues` the three bounded queues.
- Interrupt controller: `ExceptionFrames` (frames, EXC_RETURN, context switching),
  `NvicPending` (pending and enabled sets), `Nvic` (the objects), `Router` (the bus:
  lookup, sub-word accesses, bit-band aliases).
- `Gpio` with `EcuIo`, `OutputLog` and `LineFraming`; `SwSpi`, and `GpioSpi` for the two
  together; `Flash` and `Dma` over `GuestMemory`; `Tim5`.

The verifier checks the whole project through `dfyconfig.toml`.

What the proofs found in the code, against its comments or its tests' intent:

- A configured device that clears GINTMSK and sets it again loses the ready stage
  and its host session (`OtgSession.ReenablingInterruptsEndsSession`). Only a bus reset
  could bring it back (`OtgSession.StuckUntilReset`), and once attached it never gets
  one from an in-process host: it is lost for the rest of the run
  (`OtgSession.LostForever`, `OtgSession.ReenablingLosesDevice`), as a run from power-on
  shows (`OtgLoss.DeviceCanBeLost`).
- Clearing the TCP bridge's queues on disconnect keeps clients apart only if the
  firmware sends nothing until the next one connects
  (`UsbCdcBridge.IdleBridgeIsEmptyUnlessPushed`): otherwise what it sent meanwhile is
  the first the next client gets (`UsbCdcBridge.ClientsAreServed`).
- A bulk IN transfer completed before the device is configured raises XFRC but stays in
  the FIFO, and the next transfer forwards it in place of its own bytes
  (`OtgStale.EarlyWordStays`, `OtgStale.EarlyWordIsForwarded`). A transfer forwards its
  own bytes if and only if the FIFO was empty when it was armed
  (`OtgStale.OwnPayloadIff`).
- Re-attaching a device leaves an open link session open while the link is not
  ready (`CdcLink.OpenMeansReadyUnlessReattached`).
- Whole-word FIFO reads lose bytes of a packet queued behind an odd-sized one
  (`OtgBulkOut.WholeWordsIff`). So the one-packet-per-arm rule is needed, and so is
  that firmware drains the 7 bytes of SET_LINE_CODING before completing it
  (`OtgBulkOut.LineCodingMustBeDrained`).
- STIR keeps nine bits and the pending word wraps, so a number of 112 or more pends
  another exception: 123 pends SVCall (`NvicPending.StirPendsIff`,
  `NvicPending.StirMayPendSvcall`). A build with overflow checks stops there instead.
- Two routed slots may start at the same address, and then which one answers there is
  up to the search: so it is on the two STM32F407 boards, whose device description
  declares the interrupt controller that the core registration adds again
  (`Router.LookupDeterminedIff`, `Router.SharedStartIsAmbiguous`). Only the debug
  table is checked for overlaps.
- A bit-band write stores a byte of which only the target bit is kept, and cannot clear
  that one (`Router.BitBandFaithfulIff`, `Router.BitBandLosesBits`).
- An exception return rewrites CONTROL from EXC_RETURN, so every bit but SPSEL and
  FPCA is lost (`ExceptionFrames.ControlSurvivesIff`): a thread that ran unprivileged
  is privileged afterwards (`ExceptionFrames.UnprivilegedIsLost`).
- A TIM5 target more than 2^31 ticks ahead counts as passed at once
  (`Tim5.PassedAtOnceIff`).
- A BSRR write that sets and resets the same pin leaves the register at 1 and
  reports 0 last (`Gpio.BsrrAgreesIff`); an inbound value for an output name hides
  the pin's next change (`Gpio.OdrAgreesIff`).
- Clearing EN of an armed DMA stream does not cancel its completion
  (`Dma.DeadlineHolds`), and no access reaches stream 0 (`Dma.StreamZeroIsIdle`).
- A byte of a flash alias survives a restart if and only if the primary byte was the
  same (`Flash.AliasSurvivesIff`): only the primary range is saved, and it is loaded
  over every alias, so a byte programmed through an alias is lost
  (`Flash.AliasProgramIsLost`).
- A comment in `nvic.rs` and a test name call every NVIC register but the priority
  bytes a stub; ISER and ICER at 0x100 and 0x180 are storage, and are modelled so.

## Model

| member | source | states |
|---|---|---|
| Bits.LeWordBits | src/peripherals/nvic.rs:192-197 | byte k of a little-endian word holds its bits from 8k on; every word in memory, in the FIFOs and in the priority array is one |
| ByteQueues.PushChunked | src/ext_devices/embedded_cdc.rs:250-261 | the chunked push leaves the newest `capacity` bytes of queue and input, whatever their sizes |
| ByteQueues.PushVec | src/ext_devices/ecu_io.rs:444-450 | so does the append-then-drain push |
| ByteQueues.PushByteWise | src/ext_devices/usb_cdc_tcp.rs:348-355 | the byte-by-byte push follows its step function, and keeps the newest bytes of a queue within a non-zero capacity |
| ByteQueues.ByteWiseKeepsNewest | src/ext_devices/usb_cdc_tcp.rs:348-355 | newest bytes within a non-zero capacity; above it or at zero, which neither caller reaches, the length test is never met again |
| ByteQueues.ByteWiseAgreesIff | src/ext_devices/ecu_io.rs:453-460 | the byte-wise push agrees with the other two if and only if the queue is within capacity and the capacity is not zero or nothing is pushed |
| ByteQueues.PushTwice | src/ext_devices/embedded_cdc.rs:250-261 | pushing a then b is pushing a ++ b |
| CdcLink.SessionIsolation | src/ext_devices/embedded_cdc.rs:58-237 | over any run of the link's atomic steps: queues within capacity and empty while nobody is connected; each side reads an in-order subsequence of what the other wrote in the same session, a prefix if nothing overflowed |
| CdcLink.StateIsExact | src/ext_devices/embedded_cdc.rs:58-213 | over any run: the stage is the one last set, Detached until attached; the link is open from a connect to a ready device until either side ends it; the capacity is 65536 |
| CdcLink.RecordIsExact | src/ext_devices/embedded_cdc.rs:58-237 | the link's record of a session is what the steps say: the bytes of every host write while connected and ready, of every device write while connected, of every read, and whether one of those writes did not fit |
| CdcLink.WrittenIsRead | src/ext_devices/embedded_cdc.rs:115-237 | with all of these read off the steps: each side reads an in-order subsequence of what the other wrote in the session; while it lasts and nothing overflowed, what was read and what is queued are together exactly what was written |
| CdcLink.OpenMeansReadyUnlessReattached | src/ext_devices/embedded_cdc.rs:173-200 | an open session on a ready link stays that way, except under exactly one step: attach while connected |
| CdcLink.EmbeddedCdcLink.Connect | src/ext_devices/embedded_cdc.rs:58-71 | refuses unless the protocol is ready; otherwise opens a session with both queues empty |
| CdcLink.EmbeddedCdcLink.Disconnect | src/ext_devices/embedded_cdc.rs:73-83 | closes the session and empties both queues |
| CdcLink.EmbeddedCdcLink.WriteFromHost | src/ext_devices/embedded_cdc.rs:115-127 | error when closed; otherwise the capped push, all bytes reported written |
| CdcLink.EmbeddedCdcLink.ReadForHost | src/ext_devices/embedded_cdc.rs:154-161 | the loop takes exactly the front of the queue, up to the buffer size |
| CdcLink.EmbeddedCdcLink.AttachDevice | src/ext_devices/embedded_cdc.rs:173-181 | sets the stage and nothing else |
| CdcLink.EmbeddedCdcLink.SetProtocolStage | src/ext_devices/embedded_cdc.rs:183-200 | a detached link stays detached; leaving the ready stage ends the session |
| CdcLink.EmbeddedCdcLink.DetachDevice | src/ext_devices/embedded_cdc.rs:202-213 | detaches and ends the session |
| CdcLink.EmbeddedCdcLink.WriteFromDevice | src/ext_devices/embedded_cdc.rs:215-227 | dropped when nobody is connected, otherwise the capped push |
| CdcLink.EmbeddedCdcLink.ReadForDevice | src/ext_devices/embedded_cdc.rs:229-237 | takes the front of the inbound queue |
| UsbCdcBridge.IdleBridgeIsEmptyUnlessPushed | src/ext_devices/usb_cdc_tcp.rs:340-346 | queues stay within capacity; a bridge without a client holds outbound bytes if and only if the device pushed some since the last client left |
| UsbCdcBridge.ClientsAreServed | src/ext_devices/usb_cdc_tcp.rs:133-355 | over any life of the TCP bridge, client after client: what the device takes in a client's session is an in-order subsequence of what was received from it, and what the client is sent is one of the bytes forwarded while nobody was connected followed by those of the session; prefixes if nothing overflowed |
| UsbCdcBridge.LedgerIsExact | src/ext_devices/usb_cdc_tcp.rs:133-355 | the ledger of a client session is what the steps say: connected from an accept to a close, what the client sent while connected, and what was forwarded since the client before it left |
| UsbCdcBridge.UsbCdcTcp.PushFromDevice | src/ext_devices/usb_cdc_tcp.rs:133-139 | goes to the link when there is one, else to the byte-wise queue |
| UsbCdcBridge.UsbCdcTcp.TakeForDevice | src/ext_devices/usb_cdc_tcp.rs:141-148 | returns and removes the front of the inbound bytes |
| UsbCdcBridge.UsbCdcTcp.SetProtocolStage | src/ext_devices/usb_cdc_tcp.rs:150-154 | passes the stage to the link; a TCP bridge ignores it |
| UsbCdcBridge.UsbCdcTcp.IsClientConnected | src/ext_devices/usb_cdc_tcp.rs:156-160 | device present on the link, or a TCP client |
| UsbCdcBridge.UsbCdcTcp.MarkDisconnected | src/ext_devices/usb_cdc_tcp.rs:340-346 | drops the client and both queues |
| OtgModel.StatusRoundTrip | src/peripherals/otg_fs.rs:349-351 | an encoded receive status decodes to its PKTSTS (bits 17 to 20), BCNT (from bit 4) and EPNUM (bits 0 to 3) |
| OtgRuns.NextKeepsShape | src/peripherals/otg_fs.rs:561-728 | no access of any firmware indexes outside the endpoint arrays; popped statuses name existing endpoints |
| OtgRegisters.RegisterMap | src/peripherals/otg_fs.rs:218-233 | which register an offset names: FIFO windows of 4 KiB from 0x1000, six endpoints of 0x20 bytes from 0x900 and 0xb00, everything else global |
| OtgRegisters.EndpointReads | src/peripherals/otg_fs.rs:561-583 | the control, interrupt and size register of each endpoint at 0, 8 and 0x10 of its block, 16 at 0x18 of an IN block, zero elsewhere |
| OtgRegisters.GlobalReads | src/peripherals/otg_fs.rs:561-614 | the value at every global offset, and of the FIFO windows: four bytes of the receive FIFO, zeros standing in, for endpoint 0 |
| OtgRegisters.DaintBits | src/peripherals/otg_fs.rs:235-248 | bit ep of DAINT if and only if IN endpoint ep has an interrupt, bit 16 + ep if and only if OUT endpoint ep has one |
| OtgRegisters.InFollowsEvent | src/peripherals/otg_fs.rs:315-654 | one event and an IN endpoint: size and control hold what is written, EPENA falls exactly when the transfer ends, the count of pushed bytes restarts with an arming, XFRC is raised exactly by the end of a transfer and TXFE by an armed one meeting its mask bit, and both fall to a 1 written to them or a reset |
| OtgRegisters.OutFollowsEvent | src/peripherals/otg_fs.rs:508-683 | one event and an OUT endpoint: STUP and XFRC are raised exactly by firmware popping that endpoint's completion status, and fall to a 1 written to them or a reset; a delivered packet clears EPENA and counts its bytes off the size |
| OtgRegisters.ReceiveFollowsEvent | src/peripherals/otg_fs.rs:307-548 | one event and the receive path: the status queue and the FIFO lose what is popped and gain, in bytes and status words, what the event makes the host send: GET_DESCRIPTOR on activation, the script's requests on each control-IN transfer, or one packet of the bridge |
| OtgRegisters.TransmitFollowsEvent | src/peripherals/otg_fs.rs:315-491 | one event and an IN FIFO: it takes the words written to it and is empty after a reset, a control transfer or a forwarded bulk transfer; and the enumeration step moves on with each control transfer |
| OtgRegisters.BridgeFollowsEvent | src/peripherals/otg_fs.rs:282-548 | one access or poll and the bridge: a finished bulk transfer hands over its FIFO cut to its size, the stage follows resets, steps and the first GINTMSK write, a delivered packet leaves the queue, and nothing else reaches it |
| OtgRegisters.GlobalsFollowEvent | src/peripherals/otg_fs.rs:493-780 | one event and the global registers: USB_RESET by the poll that attaches the host, SOF by a poll 1000 instructions after the last with a host attached, both until acknowledged; every other register as written, GRSTCTL without bits 0, 4 and 5; attachment follows the host |
| OtgEnumeration.EnumerationTranscript | src/peripherals/otg_fs.rs:437-491 | over any run: the control traffic since the last reset is GET_DESCRIPTOR once per EP0 USBAEP rising edge in step 0, then the prefix of the script, byte by byte (status ack, SET_ADDRESS 5, SET_CONFIGURATION 1, SET_LINE_CODING with its data, SET_CONTROL_LINE_STATE), fixed by the number of EP0 IN completions; configured if and only if there were at least five |
| OtgEnumeration.StepIsReadOff | src/peripherals/otg_fs.rs:315-491 | over any run the enumeration step is the number of control-IN transfers that firmware ended since the last reset, by the last word of an armed one or by arming an empty one |
| OtgReceive.ReceiveConserved | src/peripherals/otg_fs.rs:353-404 | over any run: statuses and bytes still unread are exactly the tail of what was queued since the last reset, and OUT interrupts recorded as raised are exactly those of the completion statuses popped; that the registers hold them is `OtgRequests.OutRegisterIsExact` |
| OtgReceive.CompletionsConserved | src/peripherals/otg_fs.rs:586-603 | per endpoint, STUP (XFRC) recorded as raised plus SETUP_COMP (OUT_COMP) still queued equals packets queued, so none fires early, twice or never |
| OtgReceive.StatusQueueHoldsPairs | src/peripherals/otg_fs.rs:353-404 | the status queue is a suffix of matching data and completion pairs |
| OtgInterrupts.LevelInterrupts | src/peripherals/otg_fs.rs:235-268 | RXFLVL if and only if a status is queued; IEPINT and OEPINT if and only if an unmasked endpoint has a pending bit; other bits as stored |
| OtgInterrupts.RequestedIff | src/peripherals/otg_fs.rs:278-280 | the controller requests its interrupt if and only if: a status is queued and GINTMSK bit 4 set; or an endpoint interrupt is unmasked in DAINTMSK and bit 18 (IN) or 19 (OUT) set; or SOF or USB_RESET is stored and bit 3 or 12 set |
| OtgInterrupts.AckCannotClearLevels | src/peripherals/otg_fs.rs:684 | no acknowledgement changes a level bit; it clears exactly the RESET and SOF bits written as 1 |
| OtgInterrupts.NoLostInterrupts | src/peripherals/otg_fs.rs:616-728 | over any run: the stored status holds only RESET and SOF, the level bits and the interrupt request are exact, and every armed IN transfer with its empty-FIFO mask set has had TXFE raised since the later of its arm and its unmask |
| OtgRequests.OutRegisterIsExact | src/peripherals/otg_fs.rs:274-603 | over any run from power-on: a bit of DOEPINT is set if and only if firmware popped a completion of that endpoint that stands for it and has since neither written a 1 there nor been reset |
| OtgRequests.InRegisterIsExact | src/peripherals/otg_fs.rs:270-722 | a bit of DIEPINT is set if and only if a transfer ended (XFRC) or an armed one met its mask bit (TXFE) and there has since been neither a 1 written there nor a reset |
| OtgRequests.StatusIsReadOff | src/peripherals/otg_fs.rs:250-268 | what firmware reads in GINTSTS, bit by bit and from the events alone: RXFLVL by unread statuses, IEPINT and OEPINT by interrupts pending and not acknowledged under the last DAINTMSK, SOF and USB_RESET until acknowledged, and nothing else |
| OtgRequests.RequestIsReadOff | src/peripherals/otg_fs.rs:278-280 | after any run, every poll included, the interrupt is requested if and only if one of those is waiting and its bit was set in the last GINTMSK write |
| OtgRequests.RegistersReadBack | src/peripherals/otg_fs.rs:561-728 | over any run, resets included: every global register but GINTSTS, the status queue, DAINT and GRSTCTL reads what firmware last wrote there; GRSTCTL always shows bit 31 and never its self-clearing bits 0, 4 and 5 |
| OtgRequests.FramesAreSpaced | src/peripherals/otg_fs.rs:754-775 | a poll signals a start of frame if and only if the host is attached, before or by it, and 1000 instructions have passed since the last one |
| OtgFlowControl.OnePacketPerArm | src/peripherals/otg_fs.rs:508-548 | over any run of any firmware: bulk packets queued since reset never exceed the control writes that set EPENA, and their payloads concatenate to the bytes taken from the bridge |
| OtgFlowControl.PacketFitsTransfer | src/peripherals/otg_fs.rs:524-547 | a poll queues at most one bulk packet, only while armed, of 1 to min(64, XFRSIZ) front bytes of what the host sent; it disarms the endpoint and reduces XFRSIZ by the packet |
| OtgDriver.NextKeepsDelivering | src/peripherals/otg_fs.rs:353-404 | every firmware access, poll, bus reset and host action of a disciplined driver keeps the invariant: the receive path holds exactly the packets it has not received, at the point it has reached in the first of them |
| OtgBulkOut.BulkOutDelivery | src/peripherals/otg_fs.rs:508-548 | from power-on, through any number of bus resets and any interleaving: a driver that pops a status only between payloads, reads the FIFO only for an announced payload, re-arms only after OUT_COMP and completes SET_LINE_CODING only once drained has received exactly the packets queued since the reset, control packets included, less those in flight; its bulk bytes are exactly those taken from the bridge, less what is still in the FIFO |
| OtgBulkOut.DeliveryContinues | src/peripherals/otg_fs.rs:508-548 | the same from any state such a driver may be in: armed or not, packets in flight or not |
| OtgBulkOut.IdleIsDelivering | src/peripherals/otg_fs.rs:508-548 | every state with an empty receive path is one, armed or not |
| OtgBulkOut.HostBytesReachFirmware | src/peripherals/otg_fs.rs:508-548 | across link and controller, for a host that connects in any such state, with what it wrote read off its own actions: the driver's bytes are a prefix of those taken before the session and then those of the session, all of them once the FIFO is empty; the latter are an in-order subsequence of what the host wrote, a prefix if no write overflowed, and then with what is still queued all of it |
| OtgBulkOut.EverySessionIsDelivered | src/peripherals/otg_fs.rs:437-548 | so for every session of a life that began at power-on, whatever resets and sessions came before |
| OtgBulkOut.WholeWordsIff | src/peripherals/otg_fs.rs:307-313 | whole-word reads of a payload leave the bytes behind it intact if and only if its length is a multiple of four or nothing is behind it |
| OtgBulkOut.LineCodingMustBeDrained | src/peripherals/otg_fs.rs:464-491 | completing SET_LINE_CODING with its 7 bytes unread queues the next request behind them, where two word reads do not leave it intact |
| OtgBulkIn.ArmStarts | src/peripherals/otg_fs.rs:623-646 | arming an empty configured bulk IN endpoint starts a transfer of exactly XFRSIZ bytes |
| OtgBulkIn.LastWordForwards | src/peripherals/otg_fs.rs:315-347 | the last word forwards exactly the payload, without the padding, raises XFRC once and disarms |
| OtgBulkIn.BulkInRoundTrip | src/peripherals/otg_fs.rs:315-347 | for any interleaving with other accesses, control writes that leave EPENA as it is, polls and host actions: nothing is forwarded before word ceil(n/4), and at it exactly the n payload bytes are, with XFRC raised exactly once |
| OtgSender.NextKeepsSends | src/peripherals/otg_fs.rs:315-347 | every event of a disciplined sender, bus resets included, keeps the invariant: the bytes given to the bridge are its completed payloads, and the IN FIFO holds what it has pushed of the current one |
| OtgSender.BulkInDelivery | src/peripherals/otg_fs.rs:315-347 | from power-on, through any number of bus resets and any interleaving: a sender that arms only on a configured device, pushes only into an armed transfer and neither disarms nor resizes it has had exactly its payloads since the reset given to the bridge, in order, each with one XFRC |
| OtgSender.PayloadsReachHost | src/peripherals/otg_fs.rs:315-347 | across controller and link, for a host that connects at any point: what its reads returned is an in-order subsequence of the payloads completed in the session, a prefix if the link never overflowed, and while it stays connected with what is queued all of them |
| OtgSender.EverySessionIsServed | src/peripherals/otg_fs.rs:282-347 | so for every session of a life that began at power-on |
| OtgStale.OwnPayloadIff | src/peripherals/otg_fs.rs:315-347 | a transfer forwards its own bytes, whatever they are, if and only if the IN FIFO was empty when it was armed |
| OtgStale.StaleComesFirst | src/peripherals/otg_fs.rs:315-347 | it forwards what was in the FIFO and then its own words, cut to its size |
| OtgStale.EarlyWordStays | src/peripherals/otg_fs.rs:329-347 | a one-word transfer before the device is configured raises XFRC, forwards nothing and stays in the FIFO |
| OtgStale.EarlyWordIsForwarded | src/peripherals/otg_fs.rs:329-347 | after any events that leave the endpoint alone, the next configured one-word transfer forwards that word and not its own |
| OtgTcp.RunIsTcpRun | src/peripherals/otg_fs.rs:329-548 | every run of the controller drives a TCP bridge as a sequence of the bridge's own steps, and the bytes it took and gave since the last bus reset are the end of what the bridge saw |
| OtgTcp.ClientBytesReachFirmware | src/peripherals/otg_fs.rs:508-548 | end to end from a TCP client: a disciplined driver's bytes are a prefix of those taken since the reset, all once the FIFO is empty; if no more were taken than in the client's session, an in-order subsequence of what was received from it |
| OtgTcp.PayloadsReachClient | src/peripherals/otg_fs.rs:315-347 | end to end to a TCP client: of a disciplined sender's payloads since the reset and the bytes forwarded to the client one is the end of the other, and the client is sent an in-order subsequence of the latter, idle bytes first |
| OtgSession.SessionsAreIsolated | src/peripherals/otg_fs.rs:464-490 | over any run of firmware and host, on a fresh link or one left by an earlier run: a ready link implies a configured device, and the link's session invariant holds |
| OtgSession.AttachedLinkIsDriven | src/ext_devices/embedded_cdc.rs:173-181 | attaching to any link that satisfies its invariant gives a start for such a run |
| OtgSession.HostRecordIsExact | src/ext_devices/embedded_cdc.rs:115-161 | over a session of link and controller, what the link records of the host is what the host's actions say: the bytes of each write while connected and ready, whether one did not fit, and what each read returned |
| OtgSession.ReenablingInterruptsEndsSession | src/peripherals/otg_fs.rs:685-695 | a GINTMSK write keeps a configured device's link ready if and only if the mask was already set or stays zero; otherwise the session ends |
| OtgSession.StuckUntilReset | src/peripherals/otg_fs.rs:437-463 | a configured device whose link is not ready stays so under every event but the poll that resets the bus |
| OtgSession.LostForever | src/peripherals/otg_fs.rs:493-507 | with an in-process link, an attached device without a ready link stays so, and without a host session, over any run of any firmware and host |
| OtgSession.ReenablingLosesDevice | src/peripherals/otg_fs.rs:685-695 | so one GINTMSK write from clear to set on a configured attached device ends its sessions for good |
| OtgLoss.DeviceCanBeLost | src/peripherals/otg_fs.rs:493-695 | a run from power-on that reaches this: interrupts enabled, host attached, five control-IN transfers without data, interrupts disabled |
| OtgDeviceToHost.FirmwareBytesReachHost | src/peripherals/otg_fs.rs:329-347 | across controller and link: what a host's reads return in one session is an in-order subsequence of the bulk IN bytes forwarded since it connected; if nothing overflowed a prefix, and while it stays connected with what is queued all of them |
| OtgDeviceToHost.LossIsExact | src/ext_devices/embedded_cdc.rs:215-227 | in a session the link counts bytes to the host as lost if and only if some forwarded ones did not fit its queue while connected |
| OtgFs.OtgFs.VirtualHostReset | src/peripherals/otg_fs.rs:282-305 | clears endpoints, FIFOs, statuses and enumeration, raises USB_RESET and stages the link |
| OtgFs.OtgFs.PopRxFifoWord | src/peripherals/otg_fs.rs:307-313 | the loop removes up to four bytes and returns them little-endian, zero-padded |
| OtgFs.OtgFs.PushTxFifoWord | src/peripherals/otg_fs.rs:315-324 | appends the word's bytes and completes the transfer once enough were sent while armed |
| OtgFs.OtgFs.CompleteInTransfer | src/peripherals/otg_fs.rs:329-347 | raises XFRC; endpoint 0 advances the host, the configured bulk endpoint forwards the FIFO cut to the transfer size |
| OtgFs.OtgFs.VirtualHostSetup | src/peripherals/otg_fs.rs:353-358 | queues the packet, its data status and its completion |
| OtgFs.OtgFs.VirtualHostControlOut | src/peripherals/otg_fs.rs:373-385 | a setup packet, and a data packet unless the data is empty |
| OtgFs.OtgFs.AdvanceVirtualHost | src/peripherals/otg_fs.rs:437-491 | one script step, staged on the link when the step changed |
| OtgFs.OtgFs.RefreshVirtualHostAttachment | src/peripherals/otg_fs.rs:493-507 | attaches and resets when a host is present and firmware has enabled both interrupts; detaches when the host is gone |
| OtgFs.OtgFs.ForwardBulkOut | src/peripherals/otg_fs.rs:508-548 | at most one packet per arm, as specified |
| OtgFs.OtgFs.ForwardBulkIn | src/peripherals/otg_fs.rs:329-347 | empties the IN FIFO, cut to the transfer size, into the bridge or, without one, into the pending writes |
| OtgFs.OtgFs.ReadDaint | src/peripherals/otg_fs.rs:235-248 | the loops collect one bit per endpoint with pending interrupts |
| OtgFs.OtgFs.EffectiveGintsts | src/peripherals/otg_fs.rs:250-268 | stored status with the level bits computed fresh |
| OtgFs.OtgFs.PopRxStatus | src/peripherals/otg_fs.rs:586-603 | pops one status and raises STUP or XFRC for a completion |
| OtgFs.OtgFs.RegisterRead | src/peripherals/otg_fs.rs:561-614 | value and side effects of every readable register |
| OtgFs.OtgFs.WriteInControl | src/peripherals/otg_fs.rs:623-647 | arming resets the sent count, completes a zero-length transfer at once, and raises TXFE when unmasked |
| OtgFs.OtgFs.WriteOutControl | src/peripherals/otg_fs.rs:656-676 | the first USBAEP edge of endpoint 0 in step 0 queues GET_DESCRIPTOR |
| OtgFs.OtgFs.WriteEmptyMaskRegister | src/peripherals/otg_fs.rs:705-722 | the loop raises TXFE for exactly the newly unmasked armed endpoints |
| OtgFs.OtgFs.RegisterWrite | src/peripherals/otg_fs.rs:616-728 | effect of every writable register |
| OtgFs.OtgFs.Poll | src/peripherals/otg_fs.rs:755-781 | attachment, throttled SOF, one bulk OUT packet, and the interrupt exactly for the causes of `OtgInterrupts.Requested` |
| ExceptionFrames.FrameSizes | src/peripherals/nvic.rs:340-369 | frames are exactly 32 or 104 bytes |
| ExceptionFrames.ExcReturnDecodes | src/peripherals/nvic.rs:239-247 | an EXC_RETURN value is recognised and decodes to the stack and frame type it was made from |
| ExceptionFrames.ControlSurvivesIff | src/peripherals/nvic.rs:307-316 | SPSEL and FPCA survive entry and return; the whole CONTROL register does if and only if no other bit was set |
| ExceptionFrames.UnprivilegedIsLost | src/peripherals/nvic.rs:307-316 | CONTROL 3 comes back as 2 from an entry and return |
| ExceptionFrames.ReturnIs | src/peripherals/nvic.rs:290-338 | a return with LR of at least 0xffffff00 goes by its bits 2 and 4 and sets CONTROL from them, any other by CONTROL bits 1 and 2, which it keeps; word k of the frame comes back in its register and the stack pointer moves past 32 or 104 bytes |
| ExceptionFrames.EntryFrame | src/peripherals/nvic.rs:371-402 | entry stores the frame right below the interrupted stack pointer and leaves all other memory alone |
| ExceptionFrames.ResumeRestores | src/peripherals/nvic.rs:290-338 | a return restores R0-R3, R12, LR, PC, xPSR (S0-S15, FPSCR for extended frames), the stack pointer, SPSEL and FPCA, and touches neither memory nor other registers |
| ExceptionFrames.ContextSwitch | src/peripherals/nvic.rs:200-338 | for any number of threads on disjoint stacks, handlers nested on them to any depth and any interleaving of execution, preemption and resumption, what is resumed continues with what it was preempted with |
| NvicPending.DispatchesLowestEligible | src/peripherals/nvic.rs:113-186 | dispatch removes exactly the lowest-numbered member of pending and (architectural or enabled); in-interrupt, masked, mid-IT-block or nothing eligible removes nothing |
| NvicPending.NothingLost | src/peripherals/nvic.rs:86-141 | over any run: pending if and only if raised after the last dispatch; enabled if and only if the last word write carrying the bit went to ISER; SysTick raises more than one period apart |
| NvicPending.FollowsEvents | src/peripherals/nvic.rs:86-186 | over any run, from the events alone: enabled by the last ISER or ICER word write carrying the bit, pending if raised and not taken since, each boundary takes the lowest pending enabled one unless a handler runs, interrupts are masked or an IT block is open, and SysTick fires by its period |
| NvicPending.EnableReadback | src/peripherals/nvic.rs:437-443 | both enable banks read back the bits last set and not cleared since |
| Nvic.EnableRegistersRead | src/peripherals/nvic.rs:437-443 | each of the eight enable words shows the 32 enable bits of its index |
| Nvic.PriorityRegisters | src/peripherals/nvic.rs:437-467 | the 240 priority bytes are read and written as little-endian words from 0x400 |
| Nvic.OtherRegisters | src/peripherals/nvic.rs:437-467 | every other offset reads zero and ignores writes |
| Nvic.EntryTakes | src/peripherals/nvic.rs:188-268 | exception entry: PC is the little-endian word of the four bytes at the vector table plus four times the exception number, modulo 2^32; xPSR keeps every bit but 10 to 15, 25 and 26, which are cleared; LR is the EXC_RETURN of the interrupted stack and frame; the frame lies right below its stack pointer, word by word; IPSR is the number and everything else is kept |
| Nvic.Processor.PushRegs | src/peripherals/nvic.rs:371-402 | the push loops over the register lists store exactly the frame and move the selected stack pointer |
| Nvic.Processor.PopRegs | src/peripherals/nvic.rs:404-433 | the pop loops restore exactly the frame's registers and skip the reserved word |
| NvicPending.StirPendsIff | src/peripherals/nvic.rs:524-534 | a STIR write pends exactly one exception, the one named if and only if the number is below 112 |
| NvicPending.StirMayPendSvcall | src/peripherals/nvic.rs:91-96 | STIR 123 pends SVCall |
| Nvic.Nvic.SetIntrPending | src/peripherals/nvic.rs:91-96 | sets one pending bit, the shift taken modulo 128 |
| Nvic.Nvic.WriteStir | src/peripherals/nvic.rs:524-534 | pends the interrupt in the low nine bits, at offset zero only |
| Nvic.Nvic.GetAndClearNextDispatchable | src/peripherals/nvic.rs:113-130 | returns and clears the lowest dispatchable bit |
| Nvic.Nvic.MaybeSetSystickIntrPending | src/peripherals/nvic.rs:132-141 | raises SysTick when more than a period has passed |
| Nvic.Nvic.RunPendingInterrupts | src/peripherals/nvic.rs:156-186 | the early exits and the dispatch, on controller and processor together; what is dispatched is entered as `Nvic.EntryTakes` says |
| Nvic.Nvic.RunInterrupt | src/peripherals/nvic.rs:188-268 | entry to the given exception as `Nvic.EntryTakes` says: vector, frame, ITSTATE, EXC_RETURN, IPSR and PC |
| Nvic.Nvic.EnterSvcall | src/peripherals/nvic.rs:286-288 | enters exception 11, so by the vector at the table plus 44, without the pending queue or the in-interrupt check |
| Nvic.Nvic.ReturnFromInterrupt | src/peripherals/nvic.rs:290-338 | both return paths, register by register, and the in-interrupt state cleared |
| Nvic.Nvic.Read | src/peripherals/nvic.rs:437-453 | enable banks and priority bytes; zero elsewhere |
| Nvic.Nvic.Write | src/peripherals/nvic.rs:455-467 | set, clear and the four priority bytes; nothing elsewhere |
| Router.BinarySearchByStart | src/peripherals/mod.rs:477-479 | on a table sorted by start, equal starts allowed: finds some slot starting at the address if there is one, else the number of slots starting before it |
| Router.GetPeripheral | src/peripherals/mod.rs:473-484 | a slot starting at the address, else the last one starting before it if it reaches that far; one definite slot unless two start there, and a linear scan's for disjoint slots |
| Router.LookupDeterminedIff | src/peripherals/mod.rs:386-389 | the last slot starting at or before the address is always a possible result, and the only one at every address if and only if no two slots start at the same one |
| Router.LookupAgreesIff | src/peripherals/mod.rs:473-484 | every possible result equals a linear scan's at every address if and only if no two slots overlap |
| Router.SharedStartIsAmbiguous | src/peripherals/mod.rs:330-363 | the F407 table with two interrupt controllers at 0xE000E100: either may answer for ISER0, while the core one gets the priority bytes |
| Router.CheckOverlaps | src/peripherals/mod.rs:386-400 | the neighbour check, which the source makes of the debug table and not of the routed one, passes if and only if all slots are disjoint |
| Router.MergedBytes | src/peripherals/mod.rs:581-587 | a merged word takes exactly the written bytes from the value and the rest from the old word |
| Router.ReadsBytes | src/peripherals/mod.rs:531-562 | a read returns the bytes of the access in its low bytes, then the rest of the word, then zeros |
| Router.WritesBytes | src/peripherals/mod.rs:564-591 | a write changes exactly the bytes of the access |
| Router.FlatMemory | src/peripherals/mod.rs:531-591 | any sequence of 1 to 4 byte accesses inside words leaves each priority byte as the latest write covering it left it |
| Router.FlatReads | src/peripherals/mod.rs:531-562 | every read along the way returns those bytes |
| Router.AlignedIsInWord | src/peripherals/mod.rs:536-543 | naturally aligned 1, 2 and 4 byte accesses meet the router's own assertion |
| Router.RoutedToPriorities | src/peripherals/mod.rs:531-591 | through the whole bus, on any table whose last slot starting at 0xE000E100 is the core one and none starts inside it: an access inside a priority word is that access to the flat bytes and touches nothing else |
| Router.BusIsFlat | src/peripherals/mod.rs:531-591 | over any sequence of bus accesses, to the priority bytes and anywhere else, bit-band aliases included, on any table where only the core slot reaches those bytes: each holds what the latest write covering it put there, and reads return them |
| Router.StorageKeepsBytes | src/peripherals/mod.rs:564-591 | for a peripheral that is plain storage, a byte read back after a sub-word or word write is the byte written if covered, and what it was before if not |
| Router.AliasOf | src/peripherals/mod.rs:508-518 | the bit-band alias of bit b of the byte at a is the word at 0x42000000 plus 32 times its offset plus 4b, any of its four addresses and no other |
| Router.AliasAccess | src/peripherals/mod.rs:531-570 | through the bus, an access to the alias of a bit reads that bit of the byte, and writes back the byte with only that bit kept or set |
| Router.ReachesPeripheral | src/peripherals/mod.rs:531-591 | any other access reaches the slot found at its word, or at its very address in the banks from 0x60000000 to 0xa0000000, with the offset from its start: bytes of the word read, a read and a merge for a partial write, nothing without a slot |
| Router.ReachesNvic | src/peripherals/mod.rs:531-591 | so does one to interrupt controller registers |
| Router.BitBandFaithfulIff | src/peripherals/mod.rs:564-570 | a bit-band write changes the target bit to the value and nothing else if and only if no other bit of the byte was set and a set bit was not to be cleared |
| Router.BitBandLosesBits | src/peripherals/mod.rs:564-570 | setting bit 0 of a 2 loses bit 1; clearing bit 0 of a 1 leaves it set |
| Router.Peripherals.ReadWord | src/peripherals/mod.rs:473-562 | look up with the search, shared starts included, and read that peripheral's word; zero without one |
| Router.Peripherals.WriteWord | src/peripherals/mod.rs:473-591 | look up with the search, shared starts included, and write that peripheral's word; nothing without one |
| Router.Peripherals.Read | src/peripherals/mod.rs:531-562 | bit-band alias or align, read the word, shift down, on every address |
| Router.Peripherals.Write | src/peripherals/mod.rs:564-591 | bit-band alias or align, read and merge for sub-word sizes, write the word, on every address |
| Flash.SectorsTile | src/peripherals/flash.rs:210-229 | each flash offset lies in exactly one of the 24 sectors, and no sector leaves the flash |
| Flash.MappingIff | src/peripherals/flash.rs:156-162 | a region counts as flash if and only if it lies in the 2 MiB from the flash address or from an alias, below 0xffffffff |
| Flash.ValidConfigIff | src/peripherals/flash.rs:130-154 | a configuration is accepted if and only if it has 2 MiB and its persistent range, if any, lies inside them |
| Flash.FillStopsAtChunk | src/peripherals/flash.rs:164-174 | a fill gets through or stops at a multiple of 64 KiB before the first chunk not wholly mapped |
| Flash.EraseExact | src/peripherals/flash.rs:231-242 | an erase sets exactly the sector's bytes at the primary address and each alias to 0xFF; it succeeds if and only if all are mapped, and a partial erase touches nothing else |
| Flash.LockFollowsKeys | src/peripherals/flash.rs:176-193 | over any run the key stage is the parity of the trailing run of KEY1 writes and the lock follows the register writes |
| Flash.RegistersReadBack | src/peripherals/flash.rs:187-325 | over any run: ACR reads the last write, CR each bit as the accepted writes left it and never STRT, OPTCR its reset value since nothing clears OPTLOCK, the key registers zero, SR at most OPERR |
| Flash.UnlockNeedsKeys | src/peripherals/flash.rs:176-185 | the lock opens only by KEY2 directly after an odd run of KEY1 in KEYR |
| Flash.ErasesOnlyUnlocked | src/peripherals/flash.rs:187-208 | register writes change memory only as an erase started while unlocked, inside the selected sector or its aliases; a locked controller changes neither memory nor file |
| Flash.ErasesSelected | src/peripherals/flash.rs:187-250 | for every number n below 0x20 in bits 3 to 7 of a CR write that starts an erase: exactly the bytes whose offset has sector number n (four of 16 KiB, one of 64, seven of 128 per bank, bounds written out) become 0xFF at every base; a number that names no sector or an unmapped sector raises OPERR |
| Flash.StatusFollows | src/peripherals/flash.rs:187-325 | each register after a write: SR loses what is written to it and gains OPERR exactly when an erase or save the write starts fails, OPTCR changes only while OPTLOCK is clear, ACR as written |
| Flash.ErasedUpToFailure | src/peripherals/flash.rs:231-242 | an erase that stops at an unmapped base has erased the sector at every base before it |
| Flash.EraseCovers | src/peripherals/flash.rs:194-242 | a started erase of mapped flash reaches every byte of the sector at every base |
| Flash.FileIsSaved | src/peripherals/flash.rs:202-301 | over any run the backing file is the persistent range as it was right after the latest lock |
| Flash.RestartRestores | src/peripherals/flash.rs:82-128 | after any run and a restart on the same mappings, the flash address and every alias hold the persistent range as of the latest lock |
| Flash.AliasSurvivesIff | src/peripherals/flash.rs:82-128 | after a locking write and a restart, a byte of a base is what it was at the lock if and only if the primary byte was the same |
| Flash.AliasProgramIsLost | src/peripherals/flash.rs:252-301 | stored through an alias, locked and restarted, a byte reads what the primary range held |
| Flash.LockIsVisible | src/peripherals/flash.rs:305-314 | firmware reads in CR the lock the writes left and never a start bit, and zero in KEYR |
| Flash.Fill | src/peripherals/flash.rs:164-174 | the 64 KiB chunk loop equals the pointwise fill, and stops at the first unmapped chunk |
| Flash.InitializeMemory | src/peripherals/flash.rs:66-80 | refuses a bad configuration; otherwise erases exactly the regions lying in flash, in order, and fails at the first chunk that is not mapped |
| Flash.LoadPersistentFile | src/peripherals/flash.rs:82-128 | a missing file is fine, a wrong length an error that changes nothing, otherwise the file over each base up to the first that is not mapped |
| Flash.Flash.Write | src/peripherals/flash.rs:316-325 | every register write, with write-1-to-clear SR and the OPTCR lock |
| Flash.Flash.WriteKeyRegister | src/peripherals/flash.rs:176-185 | the key automaton |
| Flash.Flash.WriteControlRegister | src/peripherals/flash.rs:187-208 | lock discipline, then erase, then persist |
| Flash.Flash.EraseOneSector | src/peripherals/flash.rs:231-250 | erase over all bases, OPERR for a missing configuration, a bad sector or unmapped memory |
| Flash.Flash.PersistRange | src/peripherals/flash.rs:252-301 | the file becomes the primary range, or OPERR when it is not mapped |
| SwSpi.RefinesByteExchange | src/peripherals/sw_spi.rs:74-138 | for any interleaving of CS, CLK and MOSI writes the device has received exactly the MSB-first groups of eight MOSI levels at clock rises, selection by selection, and MISO during byte k+1 carries the reply to byte k, zeros during the first byte |
| SwSpi.MisoIsReply | src/peripherals/sw_spi.rs:113-118 | what firmware reads on MISO is that reply bit, and low while not selected |
| SwSpi.TransferReadsReplies | src/peripherals/sw_spi.rs:88-125 | a full-duplex driver that samples MISO after each clock rise reads back a zero byte and then the device's reply to each byte but the last |
| SwSpi.SameLevelIgnored | src/peripherals/sw_spi.rs:88-111 | writing the clock level it already has changes nothing |
| SwSpi.TransferDelivers | src/peripherals/sw_spi.rs:88-125 | a driver that selects the device and bangs out any bytes gets exactly those bytes to it |
| SwSpi.SoftwareSpi.WriteCsPin | src/peripherals/sw_spi.rs:74-86 | a falling edge clears the shift registers and levels |
| SwSpi.SoftwareSpi.WriteClkPin | src/peripherals/sw_spi.rs:88-111 | a rise shifts both registers and exchanges a byte on the eighth |
| SwSpi.SoftwareSpi.ReadMiso | src/peripherals/sw_spi.rs:113-118 | low while not selected |
| SwSpi.SoftwareSpi.WriteMosiPin | src/peripherals/sw_spi.rs:120-125 | ignored while not selected |
| SwSpi.SoftwareSpi.Xfer | src/peripherals/sw_spi.rs:127-138 | one write and one read of the device, zero without one |
| Gpio.IterPortRegChanges | src/peripherals/gpio.rs:109-126 | the trailing-zeros loop ends and visits exactly the changed fields up to number 16, with their new values |
| Gpio.ChangesAreExact | src/peripherals/gpio.rs:109-126 | those visits are each changed field once, in ascending order |
| Gpio.RegistersFollowWrites | src/peripherals/gpio.rs:212-237 | over any run each bit of the eleven output registers is what ODR and BSRR writes left in it, set before reset |
| Gpio.OdrAgreesIff | src/peripherals/gpio.rs:212-219 | after an ODR write a watched pin's logged level equals its bit if and only if the bit did not change or the new level was not already the known value |
| Gpio.BsrrAgreesIff | src/peripherals/gpio.rs:220-237 | after a BSRR write it does if and only if the pin is not in both masks |
| Gpio.LogFollowsPins | src/peripherals/gpio.rs:212-237 | over any run of ODR writes, disjoint BSRR writes and inbound values for other names, each watched pin's logged level equals its output bit |
| Gpio.PortWritesKeepLog | src/peripherals/gpio.rs:212-237 | over any run of port writes the event log keeps its invariant: consecutive numbers, chained previous values, bounded backlog |
| Gpio.GpioPorts.WritePin | src/peripherals/gpio.rs:69-75 | calls back everything on the pin, in order: ECU outputs and the lines of other devices |
| Gpio.GpioPorts.ReadPort | src/peripherals/gpio.rs:59-67 | bit set if and only if a callback of the pin answers high: an ECU input, or a line of another device |
| Gpio.Gpio.WriteOutputs | src/peripherals/gpio.rs:212-219 | callbacks for the changed bits, then the register |
| Gpio.Gpio.WriteSetReset | src/peripherals/gpio.rs:220-237 | set callbacks, reset callbacks, then reset before set in the register |
| GpioSpi.DriveIsEvent | src/peripherals/gpio.rs:220-237 | a BSRR write that moves one line of the peripheral, whatever it does to other pins, is exactly that pin write |
| GpioSpi.PortWritesDeliver | src/peripherals/sw_spi.rs:40-125 | across ports and software SPI: firmware that selects the device and bangs out bytes with BSRR writes, on any pins of any ports, gets exactly those bytes to it |
| GpioSpi.PortReadsReturnReplies | src/peripherals/sw_spi.rs:40-125 | full duplex through the ports: an input read after each clock rise shows on the MISO pin the replies bit by bit, one byte behind |
| OutputLog.LogIsConsistent | src/ext_devices/embedded_ecu_io.rs:99-118 | over any run: consecutive sequence numbers modulo 2^64, each event's previous value is its name's preceding value and differs from the new one, and the host is owed the latest events it has not taken up to 8192 |
| OutputLog.TakenAreConsecutive | src/ext_devices/embedded_ecu_io.rs:59-66 | a batch the host takes is bounded and numbered consecutively |
| OutputLog.FollowsEvents | src/ext_devices/embedded_ecu_io.rs:43-118 | over any run, from the events alone: presence, the last value of every output, the changes numbered by those before them modulo 2^64, the newest 8192 changes not taken and the newest 1024 inputs not taken |
| OutputLog.EmbeddedEcuIoLink.PublishOutput | src/ext_devices/embedded_ecu_io.rs:99-118 | drops repeats, evicts the oldest when full, wraps the sequence |
| OutputLog.EmbeddedEcuIoLink.TakeOutputEvents | src/ext_devices/embedded_ecu_io.rs:59-66 | drains all pending events |
| OutputLog.EmbeddedEcuIoLink.SetInput | src/ext_devices/embedded_ecu_io.rs:43-49 | appends, evicting the oldest when full |
| OutputLog.EmbeddedEcuIoLink.DetachFromDevice | src/ext_devices/embedded_ecu_io.rs:82-88 | clears everything but the sequence counter |
| EcuIo.EcuIo.ReportOutput | src/ext_devices/ecu_io.rs:303-325 | publishes only changes of the known value, to the link or as a line to a connected client |
| EcuIo.EcuIo.SetValue | src/ext_devices/ecu_io.rs:327-333 | ignores unknown names |
| EcuIo.EcuIo.ProcessCompleteLines | src/ext_devices/ecu_io.rs:392-401 | the drain loop ends, handles exactly the complete lines in order and leaves the unterminated tail |
| EcuIo.HandleInPieces | src/ext_devices/ecu_io.rs:403-411 | handling lines in two batches is handling them in one |
| EcuIo.LastLineWins | src/ext_devices/ecu_io.rs:327-411 | after any lines a signal has the value of the last line that sets it, if it is a known one |
| EcuIo.ChangesAreLogged | src/ext_devices/ecu_io.rs:303-325 | from start-up and over any reports: each output has the level last reported, as 0 or 1, and the link has logged exactly the changes, in order |
| LineFraming.SplitIsUnique | src/ext_devices/ecu_io.rs:392-395 | the lines and tail are the only way to write the stream as newline-free lines, newlines and a newline-free rest |
| LineFraming.ChunkIndependent | src/ext_devices/ecu_io.rs:360-401 | however the stream is cut into reads and polls, while the buffer stays within its cap the lines handled are the newline split of the whole stream and the buffer its tail |
| LineFraming.FramingKeptIff | src/ext_devices/ecu_io.rs:444-450 | a read leaves the lines and the tail those of the whole stream if and only if it stays within the cap |
| Tim5.CntCountsEnabledTicks | src/peripherals/tim5.rs:80-113 | over any run of enable, disable and counter writes, CNT is the last value written plus the 54-instruction ticks passed while enabled since, modulo 2^32 |
| Tim5.PassedIff | src/peripherals/tim5.rs:119-121 | the signed comparison holds exactly in the half period after the target, modulo 2^32 |
| Tim5.LatchesIff | src/peripherals/tim5.rs:155-158 | while the flag is clear a poll latches it exactly in those half periods |
| Tim5.PassedAtOnceIff | src/peripherals/tim5.rs:119-121 | a target d < 2^32 ticks ahead counts as passed when written if and only if d is 0 or more than 2^31 |
| Tim5.NeverEarly | src/peripherals/tim5.rs:155-162 | from any point after the arming at which the flag is clear, a target armed 1 to 2^31 ticks ahead is not matched before that many enabled ticks, whatever else is written except CNT and CCR1 |
| Tim5.ArmedWhileMatched | src/peripherals/tim5.rs:155-158 | a run that arms a target 1000 ticks ahead while the flag of the old one is set |
| Tim5.MatchesAtFirstPoll | src/peripherals/tim5.rs:155-162 | the first poll at or after the target matches if polls are less than 2^31 ticks apart |
| Tim5.RegistersReadBack | src/peripherals/tim5.rs:125-162 | over any run: CR1, DIER and CCR1 read the last write, SR bit 1 if and only if a poll matched an armed target since it was last cleared, no other bit or offset reads as anything, and an interrupt is due if and only if SR bit 1 and DIER bit 1 are set |
| Tim5.Tim5.Write | src/peripherals/tim5.rs:136-148 | every register write |
| Tim5.Tim5.Read | src/peripherals/tim5.rs:125-134 | every register read |
| Tim5.Tim5.WriteControl | src/peripherals/tim5.rs:96-105 | enabling continues from the held count, disabling freezes it |
| Tim5.Tim5.WriteCounter | src/peripherals/tim5.rs:107-113 | sets the running or the held count |
| Tim5.Tim5.Poll | src/peripherals/tim5.rs:155-162 | latches the match and pends IRQ 50 exactly while flag and enable are set |
| Dma.StreamOffsets | src/peripherals/dma.rs:381-392 | each register of streams 1 to 7 has exactly one offset, stream 0 none |
| Dma.RegistersReadBack | src/peripherals/dma.rs:291-358 | over any run the address and FIFO registers of streams 1 to 7 read the last write, NDTR its low 16 bits until the stream completes and then zero |
| Dma.ControlReadsBack | src/peripherals/dma.rs:291-358 | so does CR, EN cleared by the completion, over any run that has not read it |
| Dma.ControlToggles | src/peripherals/dma.rs:291-320 | successive reads of CR of an outbound stream with nothing to send return its value twice and then see EN set and clear in turn; reads of any other stream change nothing |
| Dma.ReadsReachStream | src/peripherals/dma.rs:125-132 | at the controller, reads of CR do just that to their stream and nothing to any other, and no other read changes anything |
| Dma.FlagsAreDistinct | src/peripherals/dma.rs:46-53 | setting one stream's flag changes no other stream's |
| Dma.FlagsRead | src/peripherals/dma.rs:46-146 | over any run LISR and HISR show, in bits 5, 11, 21 and 27, exactly the streams that completed since their flag was last cleared |
| Dma.OnlyFlags | src/peripherals/dma.rs:46-146 | and no other bit |
| Dma.DeadlineHolds | src/peripherals/dma.rs:134-146 | for streams 1 to 7, whatever else happens: the first advance reaching 10000 after the last one before the arming completes the stream exactly once, and until then it neither completes nor sets its flag |
| Dma.TransferMoves | src/peripherals/dma.rs:166-289 | between mapped memory and a routed peripheral, and from memory to memory wherever both lie, a transfer moves exactly the bytes at its source, in the direction of CR bits 6 and 7 and the item size of bits 11 and 12, however source and destination overlap, and changes nothing else |
| Dma.TransferFallsBack | src/peripherals/dma.rs:201-289 | what is missing reads as zeros and what cannot be stored or routed is dropped, in every direction |
| Dma.AdvanceMoves | src/peripherals/dma.rs:66-88 | an advance moves the data of each due stream once, in stream order, as its registers say then |
| Dma.CompletionEffect | src/peripherals/dma.rs:66-97 | the completing advance moves the data, sets TCIF, clears EN and NDTR and pends the stream's IRQ if and only if TCIE; a stream not due keeps flag, deadline and registers |
| Dma.CompletesAtDeadline | src/peripherals/dma.rs:66-146 | the two combined: after any run without an advance at the deadline, memory changes included, the first one that reaches it has exactly those effects, and if no other stream is due moves the data found then, not when it was armed |
| Dma.StreamZeroIsIdle | src/peripherals/dma.rs:381-392 | no run of register accesses ever arms or changes stream 0 |
| Dma.Dma.DoXfer | src/peripherals/dma.rs:166-289 | the transfer of one stream: fetch or read, zeros for what fails, deliver or write |
| Dma.Dma.AdvanceTo | src/peripherals/dma.rs:66-88 | the loop transfers and completes exactly the due streams in order and pends their interrupts |
| Dma.Dma.Write | src/peripherals/dma.rs:134-146 | flag clears, stream registers, and the deadline when EN is written |
| Dma.Dma.Read | src/peripherals/dma.rs:125-132 | register values, with the toggling CR of an empty outbound stream |

## Left out

- ExceptionFrames.ContextSwitch: assumes that the `SP` register write hits the bank SPSEL selects and that PRIMASK, BASEPRI, IPSR and xPSR behave as plain fields; translation blocks, `emu_stop` and the emulator's real register banking are not modelled.
- Nvic.Nvic.RunInterrupt: needs a mapped vector word and a mapped stack, where the source panics; the vector address wraps at 32 bits, as in builds without overflow checks.
- Nvic.Nvic.SetIntrPending: the shift wraps, as in builds without overflow checks; a build with them panics for a number of 112 or more.
- Nvic.Nvic.EnterSvcall: no claim that exceptions never nest, since an `svc` inside a handler does; `ExceptionFrames.ContextSwitch` covers that.
- NvicPending.NothingLost: the instruction clock is assumed not to run backwards.
- OtgFs.OtgFs.Poll: logging, the diagnostic blocks and the call into the interrupt controller are left out; the method returns whether IRQ 67 is pended, and takes its enable bit as a parameter.
- OtgModel.StatusRoundTrip: for byte counts that fit the BCNT field, which `OtgReceive` shows is always so.
- OtgBulkIn.BulkInRoundTrip: assumes that during the transfer the bus is not reset, EPENA not cleared and the transfer size not changed. `OtgSender.BulkInDelivery` allows resets.
- OtgSender.BulkInDelivery: for senders that keep the four rules of `OtgSender.Disciplined`; without the one on configuration old words come first (`OtgStale.EarlyWordIsForwarded`). All other accesses are unrestricted. A payload is what was pushed, cut to the size armed.
- OtgTcp.ClientBytesReachFirmware: a client that replaces another between two polls causes no bus reset, so the bytes since the reset may then span both; the condition on their number tells.
- OtgSession.LostForever: for the in-process link; a TCP client that leaves detaches the host, and the next one resets the bus.
- OtgBulkOut.BulkOutDelivery: for drivers that keep the four rules of `OtgDriver.Disciplined`; without them bytes are lost (`OtgBulkOut.WholeWordsIff`, `OtgBulkOut.LineCodingMustBeDrained`). All other accesses are unrestricted. Conservation for undisciplined firmware is `OtgReceive.ReceiveConserved`.
- Bulk endpoint numbers are taken to lie in 1 to 5 for OUT; `set_bulk_endpoints` accepts any.
- CdcLink.EmbeddedCdcLink.ReadForHost: the timed wait on the condition variable is not modelled; the method is the step taken after it. Mutex operations are atomic steps.
- UsbCdcBridge.UsbCdcTcp.MarkDisconnected: sockets, grace periods and heartbeats appear only as network steps (accept, receive, send, close) of `UsbCdcBridge.IdleBridgeIsEmptyUnlessPushed`.
- Router.Peripherals.Read and Router.Peripherals.Write: for accesses that meet the router's own assertion. Which of several slots with one start answers is whatever the search finds; the results above hold for any choice. Peripherals other than the interrupt controller answer by any function of the accesses they have seen.
- Router.FlatMemory: not claimed for write-1 or read-side-effect registers, where a merged sub-word write is not faithful; `Router.StorageKeepsBytes` is for plain storage.
- Flash.RestartRestores: for bases whose persistent windows are mapped and do not overlap; memory images and patches loaded at start-up and host file errors other than a missing file are left out.
- Flash.Flash.Write: an alias plus an offset wraps at 32 bits, as in builds without overflow checks; a build with them panics there.
- SwSpi.RefinesByteExchange: the device is any function from the bytes it received to its answer.
- Gpio.IterPortRegChanges: returns its visits in order instead of taking a closure; the callers then make the callbacks. Mode, type, speed, pull, lock and alternate-function registers, which only log their changes, are left out.
- Gpio.LogFollowsPins: each output name belongs to one pin, and the embedded link is present.
- EcuIo.EcuIo.ProcessCompleteLines: decoding, trimming and integer parsing of a line are one parameter; the trigger wheel (floating point) appears only as the stamp passed through to an event. A client's unfinished line stays in the buffer when it disconnects.
- LineFraming.ChunkIndependent: holds while no read goes over the 65536-byte cap; above it the oldest bytes are dropped.
- OutputLog.LogIsConsistent: since the device was last attached; detaching clears the log but not the counter.
- Gpio.GpioPorts.ReadPort: the levels of other devices' lines are a parameter, and what they do when called is left to them; `GpioSpi` shows it for one software SPI.
- GpioSpi.PortWritesDeliver: for drivers that move one line of the peripheral per write, with BSRR.
- Dma.Dma.DoXfer: a peripheral answers a block fetch by any function of the block accesses it has seen; its ordinary registers are not part of that.
- Dma.DeadlineHolds: deadlines are not wrapped at 64 bits; offsets past stream 7, where the source indexes out of range, are excluded.
- RCC, PWR, RTC, CAN, I2C, USART, EXTI, ADC, displays, DWT, TIM6, TIM11 and the launcher would only add one-branch members.
