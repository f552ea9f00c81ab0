/** The in-process CDC link between a host thread and the emulated device: two
    bounded byte queues, a connection flag and the enumeration stage. Every
    method takes the link's mutex, so each is one atomic step. */
module CdcLink {
  import opened Bits
  import opened ByteQueues

  datatype Stage =
    | Detached
    | DevicePresent
    | UsbStarted
    | AwaitingDeviceDescriptor
    | AwaitingSetAddressStatus
    | AwaitingSetConfigurationStatus
    | AwaitingSetLineCodingStatus
    | AwaitingSetControlLineStateStatus
    | ProtocolReady

  const DEFAULT_MAX_BUFFERED_BYTES: nat := 65_536

  /** One direction of a session: what went in and what came out since the host
      connected, and whether a push ever exceeded the capacity. */
  datatype Flow = Flow(written: seq<byte>, read: seq<byte>, lost: bool)

  const FRESH := Flow([], [], false)

  datatype Link = Link(hostToDevice: seq<byte>, deviceToHost: seq<byte>, connected: bool,
                       stage: Stage, capacity: nat, down: Flow, up: Flow)

  function Initial(): Link {
    Link([], [], false, Detached, DEFAULT_MAX_BUFFERED_BYTES, FRESH, FRESH)
  }

  function Connect(l: Link): Link {
    if l.stage != ProtocolReady then l
    else l.(connected := true, hostToDevice := [], deviceToHost := [], down := FRESH, up := FRESH)
  }

  function Disconnect(l: Link): Link {
    l.(connected := false, hostToDevice := [], deviceToHost := [])
  }

  function Written(f: Flow, queue: seq<byte>, bytes: seq<byte>, capacity: nat): Flow {
    f.(written := f.written + bytes, lost := f.lost || |queue| + |bytes| > capacity)
  }

  function WriteFromHost(l: Link, bytes: seq<byte>): Link {
    if !l.connected || l.stage != ProtocolReady then l
    else l.(hostToDevice := Capped(l.hostToDevice, bytes, l.capacity),
            down := Written(l.down, l.hostToDevice, bytes, l.capacity))
  }

  function WriteFromDevice(l: Link, bytes: seq<byte>): Link {
    if !l.connected then l
    else l.(deviceToHost := Capped(l.deviceToHost, bytes, l.capacity),
            up := Written(l.up, l.deviceToHost, bytes, l.capacity))
  }

  function Taken(queue: seq<byte>, maximum: nat): seq<byte> {
    queue[..Min(maximum, |queue|)]
  }

  function ReadForHost(l: Link, maximum: nat): Link {
    var bytes := Taken(l.deviceToHost, maximum);
    l.(deviceToHost := l.deviceToHost[|bytes|..], up := l.up.(read := l.up.read + bytes))
  }

  function ReadForDevice(l: Link, maximum: nat): Link {
    var bytes := Taken(l.hostToDevice, maximum);
    l.(hostToDevice := l.hostToDevice[|bytes|..], down := l.down.(read := l.down.read + bytes))
  }

  /** Note that re-attaching a device leaves the connection flag alone. */
  function AttachDevice(l: Link): Link {
    l.(stage := DevicePresent)
  }

  function SetStage(l: Link, stage: Stage): Link {
    var next := if l.stage == Detached then Detached else stage;
    if next == ProtocolReady then l.(stage := next)
    else l.(stage := next, connected := false, hostToDevice := [], deviceToHost := [])
  }

  function DetachDevice(l: Link): Link {
    Disconnect(l).(stage := Detached)
  }

  // ---- Session isolation ----

  /** What one direction of a session promises: reads are an in-order
      subsequence of the same session's writes, a prefix when nothing was ever
      dropped; while the session is open the queue holds the newest unread
      bytes. */
  ghost predicate FlowInv(f: Flow, queue: seq<byte>, open: bool) {
    && Subsequence(f.read, f.written)
    && (!f.lost ==> f.read <= f.written)
    && (open ==>
          && |queue| <= |f.written|
          && queue == f.written[|f.written| - |queue|..]
          && Subsequence(f.read, f.written[..|f.written| - |queue|])
          && (!f.lost ==> f.read + queue == f.written))
  }

  ghost predicate LinkInv(l: Link) {
    && |l.hostToDevice| <= l.capacity
    && |l.deviceToHost| <= l.capacity
    && (!l.connected ==> l.hostToDevice == [] && l.deviceToHost == [])
    && (l.stage == Detached ==> !l.connected)
    && FlowInv(l.down, l.hostToDevice, l.connected)
    && FlowInv(l.up, l.deviceToHost, l.connected)
  }

  /** Splitting an open direction into what has left the queue and what is in it. */
  lemma {:induction false} Regroup(consumed: seq<byte>, moved: seq<byte>, rest: seq<byte>)
    ensures (consumed + (moved + rest))[..|consumed| + |moved|] == consumed + moved
    ensures (consumed + (moved + rest))[|consumed| + |moved|..] == rest
    ensures consumed + (moved + rest) == (consumed + moved) + rest
  {
  }

  lemma {:induction false} PushRegroups(consumed: seq<byte>, queue: seq<byte>, bytes: seq<byte>,
                                        dropped: seq<byte>, kept: seq<byte>)
    requires queue + bytes == dropped + kept
    ensures (consumed + queue) + bytes == consumed + (dropped + kept)
  {
    assert (consumed + queue) + bytes == consumed + (queue + bytes);
  }

  lemma {:induction false} PushKeepsOrder(read: seq<byte>, consumed: seq<byte>, queue: seq<byte>, bytes: seq<byte>,
                                          dropped: seq<byte>, kept: seq<byte>)
    requires queue + bytes == dropped + kept
    requires Subsequence(read, consumed) && Subsequence(read, consumed + queue)
    ensures var written := (consumed + queue) + bytes;
            && Subsequence(read, written)
            && |kept| <= |written|
            && kept == written[|written| - |kept|..]
            && Subsequence(read, written[..|written| - |kept|])
  {
    PushRegroups(consumed, queue, bytes, dropped, kept);
    Regroup(consumed, dropped, kept);
    SubsequenceSkips(read, consumed + queue, bytes);
    SubsequenceSkips(read, consumed, dropped);
  }

  lemma {:induction false} PushKeepsFlow(f: Flow, queue: seq<byte>, bytes: seq<byte>, capacity: nat)
    requires FlowInv(f, queue, true)
    ensures FlowInv(Written(f, queue, bytes, capacity), Capped(queue, bytes, capacity), true)
  {
    var kept := Capped(queue, bytes, capacity);
    var dropped := CappedSplits(queue, bytes, capacity);
    var consumed := f.written[..|f.written| - |queue|];
    assert f.written == consumed + queue;
    PushKeepsOrder(f.read, consumed, queue, bytes, dropped, kept);
    if !Written(f, queue, bytes, capacity).lost {
      PushRegroups(f.read, queue, bytes, dropped, kept);
      assert f.read + kept == f.written + bytes;
    }
  }

  lemma {:induction false} PopKeepsFlow(f: Flow, queue: seq<byte>, n: nat)
    requires FlowInv(f, queue, true) && n <= |queue|
    ensures FlowInv(f.(read := f.read + queue[..n]), queue[n..], true)
  {
    var consumed := f.written[..|f.written| - |queue|];
    var bytes, rest := queue[..n], queue[n..];
    assert f.written == consumed + (bytes + rest) by {
      assert f.written == consumed + queue;
    }
    Regroup(consumed, bytes, rest);
    SubsequenceExtends(f.read, consumed, bytes);
    SubsequenceSkips(f.read + bytes, consumed + bytes, rest);
    if !f.lost {
      assert (f.read + bytes) + rest == f.written by {
        assert bytes + rest == queue;
        assert (f.read + bytes) + rest == f.read + (bytes + rest);
      }
    }
  }

  /** One atomic step of any of the parties that share the link. */
  datatype Step =
    | DoConnect
    | DoDisconnect
    | DoWriteFromHost(bytes: seq<byte>)
    | DoReadForHost(maximum: nat)
    | DoWriteFromDevice(bytes: seq<byte>)
    | DoReadForDevice(maximum: nat)
    | DoAttach
    | DoSetStage(stage: Stage)
    | DoDetach

  function Apply(l: Link, step: Step): Link {
    match step
    case DoConnect => Connect(l)
    case DoDisconnect => Disconnect(l)
    case DoWriteFromHost(bytes) => WriteFromHost(l, bytes)
    case DoReadForHost(maximum) => ReadForHost(l, maximum)
    case DoWriteFromDevice(bytes) => WriteFromDevice(l, bytes)
    case DoReadForDevice(maximum) => ReadForDevice(l, maximum)
    case DoAttach => AttachDevice(l)
    case DoSetStage(stage) => SetStage(l, stage)
    case DoDetach => DetachDevice(l)
  }

  function Run(l: Link, steps: seq<Step>): Link
    decreases |steps|
  {
    if steps == [] then l else Apply(Run(l, steps[..|steps| - 1]), steps[|steps| - 1])
  }

  lemma {:induction false} StepKeepsLink(l: Link, step: Step)
    requires LinkInv(l)
    ensures LinkInv(Apply(l, step))
  {
    hide FlowInv, Capped, Taken;
    ClosingKeepsFlow(l.down, l.hostToDevice, l.connected);
    ClosingKeepsFlow(l.up, l.deviceToHost, l.connected);
    match step
    case DoWriteFromHost(bytes) =>
      PushIfOpen(l.down, l.hostToDevice, bytes, l);
    case DoWriteFromDevice(bytes) =>
      PushIfOpen(l.up, l.deviceToHost, bytes, l);
    case DoReadForHost(maximum) =>
      PopAny(l.up, l.deviceToHost, maximum, l.connected);
    case DoReadForDevice(maximum) =>
      PopAny(l.down, l.hostToDevice, maximum, l.connected);
    case _ =>
  }

  lemma {:induction false} ClosingKeepsFlow(f: Flow, queue: seq<byte>, open: bool)
    requires FlowInv(f, queue, open)
    ensures FlowInv(f, [], false) && FlowInv(FRESH, [], true)
  {
  }

  lemma {:induction false} PushIfOpen(f: Flow, queue: seq<byte>, bytes: seq<byte>, l: Link)
    requires FlowInv(f, queue, l.connected)
    ensures l.connected ==> FlowInv(Written(f, queue, bytes, l.capacity), Capped(queue, bytes, l.capacity), true)
    ensures |Capped(queue, bytes, l.capacity)| <= l.capacity
  {
    if l.connected {
      PushKeepsFlow(f, queue, bytes, l.capacity);
    }
  }

  lemma {:induction false} PopAny(f: Flow, queue: seq<byte>, maximum: nat, open: bool)
    requires FlowInv(f, queue, open) && (!open ==> queue == [])
    ensures |Taken(queue, maximum)| <= |queue| && (queue == [] ==> Taken(queue, maximum) == [])
    ensures FlowInv(f.(read := f.read + Taken(queue, maximum)), queue[|Taken(queue, maximum)|..], open)
  {
    if open {
      PopKeepsFlow(f, queue, Min(maximum, |queue|));
    } else {
      assert f.read + Taken(queue, maximum) == f.read;
    }
  }

  /** Session isolation over any run of the link: both queues stay within their
      capacity and are empty while no host is connected, and each side reads an
      in-order subsequence (a prefix if nothing overflowed) of what the other
      side wrote in the same session. */
  lemma {:induction false} SessionIsolation(steps: seq<Step>)
    ensures LinkInv(Run(Initial(), steps))
    decreases |steps|
  {
    if steps != [] {
      SessionIsolation(steps[..|steps| - 1]);
      StepKeepsLink(Run(Initial(), steps[..|steps| - 1]), steps[|steps| - 1]);
    }
  }

  /** A session is open only on a ready link, except that re-attaching the
      device under an open session leaves the flag (and the queues) in place:
      that is the one step which breaks it. */
  lemma {:induction false} OpenMeansReadyUnlessReattached(l: Link, step: Step)
    requires LinkInv(l) && (l.connected ==> l.stage == ProtocolReady)
    ensures (Apply(l, step).connected ==> Apply(l, step).stage == ProtocolReady)
            <==> !(step == DoAttach && l.connected)
  {
    match step
    case DoSetStage(_) =>
    case _ =>
  }

  // ---- What the parties did, read off the steps ----

  /** The stage: what the controller set last, unless the device is gone. */
  function StageAfter(steps: seq<Step>): Stage
    decreases |steps|
  {
    if steps == [] then Detached
    else
      var front := steps[..|steps| - 1];
      match steps[|steps| - 1]
      case DoAttach => DevicePresent
      case DoDetach => Detached
      case DoSetStage(stage) => if StageAfter(front) == Detached then Detached else stage
      case _ => StageAfter(front)
  }

  /** A host has connected to a ready link since, and neither side has ended it. */
  function OpenAfter(steps: seq<Step>): bool
    decreases |steps|
  {
    if steps == [] then false
    else
      var front := steps[..|steps| - 1];
      match steps[|steps| - 1]
      case DoConnect => StageAfter(front) == ProtocolReady || OpenAfter(front)
      case DoDisconnect | DoDetach => false
      case DoSetStage(_) => StageAfter(steps) == ProtocolReady && OpenAfter(front)
      case _ => OpenAfter(front)
  }

  /** What a read of `maximum` bytes returns of a queue. */
  function Front(queue: seq<byte>, maximum: nat): seq<byte> {
    if maximum <= |queue| then queue[..maximum] else queue
  }

  /** The host's writes that were accepted since it connected. */
  function HostWrote(steps: seq<Step>): seq<byte>
    decreases |steps|
  {
    if steps == [] then []
    else
      var front := steps[..|steps| - 1];
      match steps[|steps| - 1]
      case DoConnect => if StageAfter(front) == ProtocolReady then [] else HostWrote(front)
      case DoWriteFromHost(bytes) =>
        if OpenAfter(front) && StageAfter(front) == ProtocolReady then HostWrote(front) + bytes else HostWrote(front)
      case _ => HostWrote(front)
  }

  function DeviceWrote(steps: seq<Step>): seq<byte>
    decreases |steps|
  {
    if steps == [] then []
    else
      var front := steps[..|steps| - 1];
      match steps[|steps| - 1]
      case DoConnect => if StageAfter(front) == ProtocolReady then [] else DeviceWrote(front)
      case DoWriteFromDevice(bytes) => if OpenAfter(front) then DeviceWrote(front) + bytes else DeviceWrote(front)
      case _ => DeviceWrote(front)
  }

  /** What the reads have returned since the host connected. */
  function HostRead(steps: seq<Step>): seq<byte>
    decreases |steps|
  {
    if steps == [] then []
    else
      var front := steps[..|steps| - 1];
      match steps[|steps| - 1]
      case DoConnect => if StageAfter(front) == ProtocolReady then [] else HostRead(front)
      case DoReadForHost(maximum) => HostRead(front) + Front(Run(Initial(), front).deviceToHost, maximum)
      case _ => HostRead(front)
  }

  function DeviceRead(steps: seq<Step>): seq<byte>
    decreases |steps|
  {
    if steps == [] then []
    else
      var front := steps[..|steps| - 1];
      match steps[|steps| - 1]
      case DoConnect => if StageAfter(front) == ProtocolReady then [] else DeviceRead(front)
      case DoReadForDevice(maximum) => DeviceRead(front) + Front(Run(Initial(), front).hostToDevice, maximum)
      case _ => DeviceRead(front)
  }

  /** Some accepted write since the host connected found too little room. */
  function HostOverflowed(steps: seq<Step>): bool
    decreases |steps|
  {
    if steps == [] then false
    else
      var front := steps[..|steps| - 1];
      match steps[|steps| - 1]
      case DoConnect => StageAfter(front) != ProtocolReady && HostOverflowed(front)
      case DoWriteFromHost(bytes) =>
        || HostOverflowed(front)
        || (OpenAfter(front) && StageAfter(front) == ProtocolReady
            && |Run(Initial(), front).hostToDevice| + |bytes| > 65536)
      case _ => HostOverflowed(front)
  }

  function DeviceOverflowed(steps: seq<Step>): bool
    decreases |steps|
  {
    if steps == [] then false
    else
      var front := steps[..|steps| - 1];
      match steps[|steps| - 1]
      case DoConnect => StageAfter(front) != ProtocolReady && DeviceOverflowed(front)
      case DoWriteFromDevice(bytes) =>
        DeviceOverflowed(front) || (OpenAfter(front) && |Run(Initial(), front).deviceToHost| + |bytes| > 65536)
      case _ => DeviceOverflowed(front)
  }

  lemma {:induction false} StateIsExact(steps: seq<Step>)
    ensures var l := Run(Initial(), steps);
            l.stage == StageAfter(steps) && l.connected == OpenAfter(steps) && l.capacity == 65536
    decreases |steps|
  {
    hide Capped, Written, Taken;
    if steps != [] {
      StateIsExact(steps[..|steps| - 1]);
    }
  }

  /** How one step changes the host-to-device record. */
  lemma {:induction false} DownRecord(l: Link, step: Step)
    ensures var d := Apply(l, step).down;
            match step
            case DoConnect => d == if l.stage == ProtocolReady then Flow([], [], false) else l.down
            case DoWriteFromHost(bytes) =>
              d == if l.connected && l.stage == ProtocolReady
                   then Flow(l.down.written + bytes, l.down.read,
                             l.down.lost || |l.hostToDevice| + |bytes| > l.capacity)
                   else l.down
            case DoReadForDevice(maximum) => d == l.down.(read := l.down.read + Front(l.hostToDevice, maximum))
            case _ => d == l.down
  {
    hide Capped;
  }

  lemma {:induction false} UpRecord(l: Link, step: Step)
    ensures var u := Apply(l, step).up;
            match step
            case DoConnect => u == if l.stage == ProtocolReady then Flow([], [], false) else l.up
            case DoWriteFromDevice(bytes) =>
              u == if l.connected
                   then Flow(l.up.written + bytes, l.up.read, l.up.lost || |l.deviceToHost| + |bytes| > l.capacity)
                   else l.up
            case DoReadForHost(maximum) => u == l.up.(read := l.up.read + Front(l.deviceToHost, maximum))
            case _ => u == l.up
  {
    hide Capped;
  }

  /** The link's own record of a session is what the steps say. */
  lemma {:induction false} RecordIsExact(steps: seq<Step>)
    ensures var l := Run(Initial(), steps);
            && l.down == Flow(HostWrote(steps), DeviceRead(steps), HostOverflowed(steps))
            && l.up == Flow(DeviceWrote(steps), HostRead(steps), DeviceOverflowed(steps))
    decreases |steps|
  {
    hide Apply, Front, StageAfter, OpenAfter;
    if steps != [] {
      var (front, last) := (steps[..|steps| - 1], steps[|steps| - 1]);
      RecordIsExact(front);
      StateIsExact(front);
      DownRecord(Run(Initial(), front), last);
      UpRecord(Run(Initial(), front), last);
    }
  }

  /** Each side of a session reads an in-order subsequence of what the other wrote in it;
      and as long as the session lasts and nothing overflowed, what it has read and what
      waits in the queue are together exactly what was written. */
  lemma {:induction false} WrittenIsRead(steps: seq<Step>)
    ensures var l := Run(Initial(), steps);
            && Subsequence(DeviceRead(steps), HostWrote(steps)) && Subsequence(HostRead(steps), DeviceWrote(steps))
            && (!HostOverflowed(steps) ==> DeviceRead(steps) <= HostWrote(steps))
            && (!DeviceOverflowed(steps) ==> HostRead(steps) <= DeviceWrote(steps))
            && (OpenAfter(steps) && !HostOverflowed(steps) ==> DeviceRead(steps) + l.hostToDevice == HostWrote(steps))
            && (OpenAfter(steps) && !DeviceOverflowed(steps) ==> HostRead(steps) + l.deviceToHost == DeviceWrote(steps))
  {
    RecordIsExact(steps);
    StateIsExact(steps);
    SessionIsolation(steps);
    hide HostWrote, HostRead, DeviceWrote, DeviceRead, HostOverflowed, DeviceOverflowed, OpenAfter, StageAfter, Run,
         Subsequence;
  }

  // ---- The shared object ----

  class EmbeddedCdcLink {
    var hostToDevice: seq<byte>
    var deviceToHost: seq<byte>
    var hostConnected: bool
    var stage: Stage
    const maxBufferedBytes: nat
    ghost var down: Flow
    ghost var up: Flow

    ghost function State(): Link
      reads this
    {
      Link(hostToDevice, deviceToHost, hostConnected, stage, maxBufferedBytes, down, up)
    }

    constructor ()
      ensures State() == Initial()
    {
      hostToDevice, deviceToHost, hostConnected, stage := [], [], false, Detached;
      maxBufferedBytes := DEFAULT_MAX_BUFFERED_BYTES;
      down, up := FRESH, FRESH;
    }

    /** False is the source's error: the firmware protocol is not ready. */
    method Connect() returns (ok: bool)
      modifies this
      ensures State() == Apply(old(State()), DoConnect)
      ensures ok <==> old(stage) == ProtocolReady
    {
      if stage != ProtocolReady {
        return false;
      }
      hostConnected := true;
      hostToDevice := [];
      deviceToHost := [];
      down, up := FRESH, FRESH;
      return true;
    }

    method Disconnect()
      modifies this
      ensures State() == Apply(old(State()), DoDisconnect)
    {
      hostConnected := false;
      hostToDevice := [];
      deviceToHost := [];
    }

    method IsConnected() returns (r: bool)
      ensures r <==> hostConnected && stage == ProtocolReady
    {
      r := hostConnected && stage == ProtocolReady;
    }

    method DevicePresent() returns (r: bool)
      ensures r <==> stage != Detached
    {
      r := stage != Detached;
    }

    method WriteFromHost(bytes: seq<byte>) returns (written: Option<nat>)
      modifies this
      ensures State() == Apply(old(State()), DoWriteFromHost(bytes))
      ensures written == if old(hostConnected && stage == ProtocolReady) then Some(|bytes|) else None
    {
      if !hostConnected || stage != ProtocolReady {
        return None;
      }
      down := Written(down, hostToDevice, bytes, maxBufferedBytes);
      hostToDevice := PushChunked(hostToDevice, bytes, maxBufferedBytes);
      return Some(|bytes|);
    }

    /** The step taken once the wait for data is over. */
    method ReadForHost(maximum: nat) returns (bytes: seq<byte>)
      modifies this
      ensures State() == Apply(old(State()), DoReadForHost(maximum))
      ensures bytes == Taken(old(deviceToHost), maximum)
    {
      bytes := [];
      var count := Min(maximum, |deviceToHost|);
      var rest := deviceToHost;
      for i := 0 to count
        invariant |deviceToHost| >= count && rest == deviceToHost[i..] && bytes == deviceToHost[..i]
        invariant unchanged(this)
      {
        bytes := bytes + [rest[0]];
        rest := rest[1..];
      }
      up := up.(read := up.read + bytes);
      deviceToHost := rest;
    }

    method AttachDevice()
      modifies this
      ensures State() == Apply(old(State()), DoAttach)
    {
      stage := Stage.DevicePresent;
    }

    method SetProtocolStage(newStage: Stage)
      modifies this
      ensures State() == Apply(old(State()), DoSetStage(newStage))
    {
      if stage != Detached {
        stage := newStage;
      }
      if stage != ProtocolReady {
        hostConnected := false;
        hostToDevice := [];
        deviceToHost := [];
      }
    }

    method DetachDevice()
      modifies this
      ensures State() == Apply(old(State()), DoDetach)
    {
      stage := Detached;
      hostConnected := false;
      hostToDevice := [];
      deviceToHost := [];
    }

    method WriteFromDevice(bytes: seq<byte>)
      modifies this
      ensures State() == Apply(old(State()), DoWriteFromDevice(bytes))
    {
      if !hostConnected {
        return;
      }
      up := Written(up, deviceToHost, bytes, maxBufferedBytes);
      deviceToHost := PushChunked(deviceToHost, bytes, maxBufferedBytes);
    }

    method ReadForDevice(maximum: nat) returns (bytes: seq<byte>)
      modifies this
      ensures State() == Apply(old(State()), DoReadForDevice(maximum))
      ensures bytes == Taken(old(hostToDevice), maximum)
    {
      var count := Min(maximum, |hostToDevice|);
      bytes := hostToDevice[..count];
      hostToDevice := hostToDevice[count..];
      down := down.(read := down.read + bytes);
    }
  }
}
