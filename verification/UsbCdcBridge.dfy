/** The USB CDC bridge the OTG controller talks to: either a thin wrapper around
    the in-process link or a pair of byte queues served over one TCP client. */
module UsbCdcBridge {
  import opened Bits
  import opened ByteQueues
  import CdcLink

  datatype Bridge =
    | NoBridge
    | Embedded(link: CdcLink.Link)
    | Tcp(client: bool, toDevice: seq<byte>, fromDevice: seq<byte>, capacity: nat)

  function Forwarded(b: Bridge, bytes: seq<byte>): Bridge {
    match b
    case NoBridge => b
    case Embedded(link) => Embedded(CdcLink.Apply(link, CdcLink.DoWriteFromDevice(bytes)))
    case Tcp(_, _, _, _) => b.(fromDevice := PushEach(b.fromDevice, bytes, b.capacity))
  }

  function Available(b: Bridge): seq<byte> {
    match b
    case NoBridge => []
    case Embedded(link) => link.hostToDevice
    case Tcp(_, _, _, _) => b.toDevice
  }

  function Drained(b: Bridge, maximum: nat): Bridge {
    match b
    case NoBridge => b
    case Embedded(link) => Embedded(CdcLink.Apply(link, CdcLink.DoReadForDevice(maximum)))
    case Tcp(_, _, _, _) => b.(toDevice := b.toDevice[Min(maximum, |b.toDevice|)..])
  }

  function Staged(b: Bridge, stage: CdcLink.Stage): Bridge {
    match b
    case Embedded(link) => Embedded(CdcLink.Apply(link, CdcLink.DoSetStage(stage)))
    case _ => b
  }

  function ClientConnected(b: Bridge): bool {
    match b
    case NoBridge => false
    case Embedded(link) => link.stage != CdcLink.Detached
    case Tcp(_, _, _, _) => b.client
  }

  // ---- What the network side of the TCP bridge does ----

  datatype TcpStep =
    | Accepted(graceOver: bool)  // a new connection arrives
    | Received(bytes: seq<byte>)
    | Sent(count: nat)
    | Closed
    | Pushed(bytes: seq<byte>)   // the device side forwards a transfer
    | TakenByDevice(maximum: nat)

  function TcpApply(b: Bridge, step: TcpStep): Bridge
    requires b.Tcp?
  {
    match step
    case Accepted(graceOver) =>
      if b.client && !graceOver then b
      else if b.client then b.(client := true, toDevice := [], fromDevice := [])
      else b.(client := true)
    case Received(bytes) => if b.client then b.(toDevice := PushEach(b.toDevice, bytes, b.capacity)) else b
    case Sent(count) => if b.client then b.(fromDevice := b.fromDevice[Min(count, |b.fromDevice|)..]) else b
    case Closed => if b.client then b.(client := false, toDevice := [], fromDevice := []) else b
    case Pushed(bytes) => Forwarded(b, bytes)
    case TakenByDevice(maximum) => Drained(b, maximum)
  }

  function TcpRun(capacity: nat, steps: seq<TcpStep>): (b: Bridge)
    ensures b.Tcp? && b.capacity == capacity
    decreases |steps|
  {
    if steps == [] then Tcp(false, [], [], capacity)
    else TcpApply(TcpRun(capacity, steps[..|steps| - 1]), steps[|steps| - 1])
  }

  /** Whether the device forwarded anything since the last client left. */
  function PushedWhileIdle(capacity: nat, steps: seq<TcpStep>): bool
    decreases |steps|
  {
    if steps == [] then false
    else
      var front, last := steps[..|steps| - 1], steps[|steps| - 1];
      !TcpRun(capacity, steps).client
      && ((last.Pushed? && last.bytes != []) || PushedWhileIdle(capacity, front))
  }

  /** A bridge without a client holds no inbound bytes, and holds outbound ones
      exactly when the device forwarded some after the client left: those are
      then sent to the next client, so clearing the queues on disconnect keeps
      sessions apart only if the firmware stays silent in between. */
  lemma {:induction false} IdleBridgeIsEmptyUnlessPushed(capacity: nat, steps: seq<TcpStep>)
    requires capacity >= 1
    ensures var b := TcpRun(capacity, steps);
            && |b.fromDevice| <= capacity && |b.toDevice| <= capacity
            && (!b.client ==> b.toDevice == [] && (b.fromDevice != [] <==> PushedWhileIdle(capacity, steps)))
    decreases |steps|
  {
    if steps != [] {
      var front, last := steps[..|steps| - 1], steps[|steps| - 1];
      IdleBridgeIsEmptyUnlessPushed(capacity, front);
      var b := TcpRun(capacity, front);
      match last
      case Received(bytes) => ByteWiseKeepsNewest(b.toDevice, bytes, capacity);
      case Pushed(bytes) => ByteWiseKeepsNewest(b.fromDevice, bytes, capacity);
      case _ =>
    }
  }

  // ---- Sessions of TCP clients ----

  /** What crossed the bridge. `down` and `up` are the present client's session: received
      from it and taken by the device, forwarded by the device and sent to it. `idle` is
      what the device forwarded while nobody was connected before it. `taken` and `given`
      are all the device ever took and forwarded. */
  datatype Ledger = Ledger(down: CdcLink.Flow, up: CdcLink.Flow, idle: seq<byte>, taken: seq<byte>, given: seq<byte>)

  const BLANK := Ledger(CdcLink.FRESH, CdcLink.FRESH, [], [], [])

  function Recorded(b: Bridge, l: Ledger, step: TcpStep): Ledger
    requires b.Tcp?
  {
    match step
    case Accepted(graceOver) =>
      if b.client && graceOver then l.(down := CdcLink.FRESH, up := CdcLink.FRESH, idle := []) else l
    case Received(bytes) =>
      if b.client then l.(down := CdcLink.Written(l.down, b.toDevice, bytes, b.capacity)) else l
    case Sent(count) =>
      if b.client then l.(up := l.up.(read := l.up.read + CdcLink.Taken(b.fromDevice, count))) else l
    case Closed => if b.client then l.(down := CdcLink.FRESH, up := CdcLink.FRESH, idle := []) else l
    case Pushed(bytes) =>
      l.(up := CdcLink.Written(l.up, b.fromDevice, bytes, b.capacity), given := l.given + bytes,
         idle := if b.client then l.idle else l.idle + bytes)
    case TakenByDevice(maximum) =>
      var bytes := CdcLink.Taken(b.toDevice, maximum);
      l.(down := l.down.(read := l.down.read + bytes), taken := l.taken + bytes)
  }

  function LedgerOf(capacity: nat, steps: seq<TcpStep>): Ledger
    decreases |steps|
  {
    if steps == [] then BLANK
    else
      var front, last := steps[..|steps| - 1], steps[|steps| - 1];
      Recorded(TcpRun(capacity, front), LedgerOf(capacity, front), last)
  }

  /** Each direction of the session is a flow through its queue, and a part of all that
      ever crossed; what is forwarded to a client begins with the idle bytes. */
  ghost predicate TcpInv(b: Bridge, l: Ledger) {
    && b.Tcp? && |b.toDevice| <= b.capacity && |b.fromDevice| <= b.capacity
    && CdcLink.FlowInv(l.down, b.toDevice, true) && CdcLink.FlowInv(l.up, b.fromDevice, true)
    && IsSuffix(l.down.read, l.taken) && IsSuffix(l.up.written, l.given)
    && l.idle <= l.up.written
    && (!b.client ==> b.toDevice == [] && l.down == CdcLink.FRESH && l.up.read == [] && l.up.written == l.idle)
  }

  lemma {:induction false} StepKeepsTcp(b: Bridge, l: Ledger, step: TcpStep)
    requires TcpInv(b, l) && b.capacity >= 1
    ensures TcpInv(TcpApply(b, step), Recorded(b, l, step))
  {
    hide CdcLink.FlowInv, PushEach, IsSuffix;
    FreshFlows(l);
    match step
    case Received(bytes) =>
      ByteWiseKeepsNewest(b.toDevice, bytes, b.capacity);
      CdcLink.PushKeepsFlow(l.down, b.toDevice, bytes, b.capacity);
    case Pushed(bytes) =>
      ByteWiseKeepsNewest(b.fromDevice, bytes, b.capacity);
      CdcLink.PushKeepsFlow(l.up, b.fromDevice, bytes, b.capacity);
      SuffixGrows(l.up.written, l.given, bytes);
    case Sent(count) => CdcLink.PopKeepsFlow(l.up, b.fromDevice, Min(count, |b.fromDevice|));
    case TakenByDevice(maximum) =>
      CdcLink.PopKeepsFlow(l.down, b.toDevice, Min(maximum, |b.toDevice|));
      SuffixGrows(l.down.read, l.taken, CdcLink.Taken(b.toDevice, maximum));
    case _ =>
  }

  lemma {:induction false} FreshFlows(l: Ledger)
    ensures CdcLink.FlowInv(CdcLink.FRESH, [], true) && IsSuffix([], l.taken) && IsSuffix([], l.given)
  {
  }

  /** Over any life of the bridge, client after client: the device takes in a client's
      session an in-order subsequence of what was received from it, and sends it one of
      the bytes forwarded while nobody was connected followed by those of the session;
      prefixes if nothing overflowed. */
  lemma {:induction false} ClientsAreServed(capacity: nat, steps: seq<TcpStep>)
    requires capacity >= 1
    ensures var (b, l) := (TcpRun(capacity, steps), LedgerOf(capacity, steps));
            && TcpInv(b, l)
            && Subsequence(l.down.read, l.down.written) && (!l.down.lost ==> l.down.read <= l.down.written)
            && Subsequence(l.up.read, l.up.written) && (!l.up.lost ==> l.up.read <= l.up.written)
            && l.idle <= l.up.written
            && (!l.up.lost && |l.idle| <= |l.up.read| ==> l.idle <= l.up.read)
    decreases |steps|
  {
    hide TcpApply, Recorded;
    if steps == [] {
      FreshFlows(BLANK);
    } else {
      var front, last := steps[..|steps| - 1], steps[|steps| - 1];
      ClientsAreServed(capacity, front);
      StepKeepsTcp(TcpRun(capacity, front), LedgerOf(capacity, front), last);
    }
  }

  /** Whether a client is connected, read off the steps: one was accepted, and has not closed
      its connection since. */
  function ConnectedAfter(steps: seq<TcpStep>): bool
    decreases |steps|
  {
    if steps == [] then false
    else
      match steps[|steps| - 1]
      case Accepted(_) => true
      case Closed => false
      case _ => ConnectedAfter(steps[..|steps| - 1])
  }

  /** What the present client sent, and what was forwarded since the one before it left. A
      new client that takes over starts afresh. */
  function ClientSent(steps: seq<TcpStep>): seq<byte>
    decreases |steps|
  {
    if steps == [] then []
    else
      var (front, last) := (steps[..|steps| - 1], steps[|steps| - 1]);
      match last
      case Accepted(graceOver) => if ConnectedAfter(front) && !graceOver then ClientSent(front) else []
      case Closed => []
      case Received(bytes) => if ConnectedAfter(front) then ClientSent(front) + bytes else ClientSent(front)
      case _ => ClientSent(front)
  }

  function DeviceForwarded(steps: seq<TcpStep>): seq<byte>
    decreases |steps|
  {
    if steps == [] then []
    else
      var (front, last) := (steps[..|steps| - 1], steps[|steps| - 1]);
      match last
      case Accepted(graceOver) => if ConnectedAfter(front) && graceOver then [] else DeviceForwarded(front)
      case Closed => if ConnectedAfter(front) then [] else DeviceForwarded(front)
      case Pushed(bytes) => DeviceForwarded(front) + bytes
      case _ => DeviceForwarded(front)
  }

  lemma {:induction false} StepLedger(b: Bridge, l: Ledger, step: TcpStep)
    requires TcpInv(b, l)
    ensures var (t, m) := (TcpApply(b, step), Recorded(b, l, step));
            match step
            case Accepted(graceOver) =>
              && t.client
              && m.down.written == (if b.client && !graceOver then l.down.written else [])
              && m.up.written == (if b.client && graceOver then [] else l.up.written)
            case Closed => !t.client && m.down.written == [] && m.up.written == if b.client then [] else l.up.written
            case Received(bytes) =>
              && t.client == b.client && m.up.written == l.up.written
              && m.down.written == if b.client then l.down.written + bytes else l.down.written
            case Pushed(bytes) =>
              t.client == b.client && m.up.written == l.up.written + bytes && m.down.written == l.down.written
            case _ => t.client == b.client && m.up.written == l.up.written && m.down.written == l.down.written
  {
    hide PushEach, CdcLink.FlowInv, IsSuffix;
  }

  /** The ledger of a client's session is what the steps say. */
  lemma {:induction false} LedgerIsExact(capacity: nat, steps: seq<TcpStep>)
    requires capacity >= 1
    ensures var (b, l) := (TcpRun(capacity, steps), LedgerOf(capacity, steps));
            && b.client == ConnectedAfter(steps)
            && l.down.written == ClientSent(steps) && l.up.written == DeviceForwarded(steps)
    decreases |steps|
  {
    hide TcpApply, Recorded, TcpInv;
    if steps != [] {
      var (front, last) := (steps[..|steps| - 1], steps[|steps| - 1]);
      LedgerIsExact(capacity, front);
      ClientsAreServed(capacity, front);
      StepLedger(TcpRun(capacity, front), LedgerOf(capacity, front), last);
    }
  }

  class UsbCdcTcp {
    const embedded: CdcLink.EmbeddedCdcLink?
    var client: bool
    var toDevice: seq<byte>
    var fromDevice: seq<byte>
    const maxBufferedBytes: nat

    ghost function Footprint(): set<object> {
      if embedded == null then {this} else {this, embedded}
    }

    ghost function State(): Bridge
      reads Footprint()
    {
      if embedded != null then Embedded(embedded.State()) else Tcp(client, toDevice, fromDevice, maxBufferedBytes)
    }

    /** The bridge refuses a zero capacity; the link is the pending one, if any. */
    constructor (maxBufferedBytes: nat, link: CdcLink.EmbeddedCdcLink?)
      requires maxBufferedBytes > 0
      modifies link
      ensures embedded == link && fresh(Footprint() - {link})
      ensures State() == if link == null then Tcp(false, [], [], maxBufferedBytes)
                         else Embedded(CdcLink.Apply(old(link.State()), CdcLink.DoAttach))
    {
      this.maxBufferedBytes := maxBufferedBytes;
      embedded := link;
      client, toDevice, fromDevice := false, [], [];
      new;
      if link != null {
        link.AttachDevice();
      }
    }

    method PushFromDevice(bytes: seq<byte>)
      modifies Footprint()
      ensures State() == Forwarded(old(State()), bytes)
    {
      if embedded != null {
        embedded.WriteFromDevice(bytes);
        return;
      }
      fromDevice := PushByteWise(fromDevice, bytes, maxBufferedBytes);
    }

    method TakeForDevice(maximum: nat) returns (bytes: seq<byte>)
      modifies Footprint()
      ensures State() == Drained(old(State()), maximum)
      ensures bytes == CdcLink.Taken(Available(old(State())), maximum)
    {
      if embedded != null {
        bytes := embedded.ReadForDevice(maximum);
        return;
      }
      var count := Min(maximum, |toDevice|);
      bytes := toDevice[..count];
      toDevice := toDevice[count..];
    }

    method SetProtocolStage(stage: CdcLink.Stage)
      modifies Footprint()
      ensures State() == Staged(old(State()), stage)
    {
      if embedded != null {
        embedded.SetProtocolStage(stage);
      }
    }

    method IsClientConnected() returns (r: bool)
      ensures r == ClientConnected(State())
    {
      if embedded != null {
        r := embedded.DevicePresent();
      } else {
        r := client;
      }
    }

    method MarkDisconnected()
      requires client && embedded == null
      modifies this
      ensures State() == TcpApply(old(State()), Closed)
    {
      client := false;
      toDevice := [];
      fromDevice := [];
    }
  }
}
