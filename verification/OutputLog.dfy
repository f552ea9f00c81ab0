/** The embedded ECU I/O link: the latest value of each output and a bounded log of
    its transitions with wrapping sequence numbers. */
module OutputLog {
  import opened Bits
  import opened ByteQueues

  const MAX_PENDING_INPUTS: nat := 1024
  const MAX_PENDING_OUTPUT_EVENTS: nat := 8192

  /** When a transition happened: the instruction clock, and the crank angle if a
      trigger wheel is configured. */
  datatype Stamp = Stamp(instructionCount: long, wheelAngle: Option<int>)

  datatype OutputEvent = OutputEvent(sequence: long, stamp: Stamp, name: string, previousValue: Option<int>, value: int)

  /** `log`: every event since the device was last detached, `taken` of which the
      host had drained by its latest call. */
  datatype Link = Link(devicePresent: bool, pendingInputs: seq<(string, int)>, outputs: map<string, int>,
                       outputEvents: seq<OutputEvent>, nextSequence: long, log: seq<OutputEvent>, taken: nat)

  function NewLink(): Link {
    Link(false, [], map[], [], 0, [], 0)
  }

  function Get(values: map<string, int>, name: string): Option<int> {
    if name in values then Some(values[name]) else None
  }

  function WrappingNext(sequence: long): long {
    (sequence + 1) % 0x1_0000_0000_0000_0000
  }

  function Publish(l: Link, name: string, value: int, stamp: Stamp): Link {
    var previous := Get(l.outputs, name);
    var t := l.(outputs := l.outputs[name := value]);
    if previous == Some(value) then t
    else
      var e := OutputEvent(l.nextSequence, stamp, name, previous, value);
      t.(outputEvents := PushOne(l.outputEvents, e, MAX_PENDING_OUTPUT_EVENTS),
         nextSequence := WrappingNext(l.nextSequence),
         log := l.log + [e])
  }

  function Take(l: Link): Link {
    l.(outputEvents := [], taken := |l.log|)
  }

  function Detach(l: Link): Link {
    l.(devicePresent := false, pendingInputs := [], outputs := map[], outputEvents := [], log := [], taken := 0)
  }

  // ---- What the log says ----

  /** The value of the latest event of a name. */
  function LastValue(log: seq<OutputEvent>, name: string): Option<int> {
    if log == [] then None
    else if log[|log| - 1].name == name then Some(log[|log| - 1].value)
    else LastValue(log[..|log| - 1], name)
  }

  /** Sequence numbers count up by one, wrapping at 64 bits. */
  ghost predicate Consecutive(events: seq<OutputEvent>) {
    forall i {:trigger events[i].sequence} :: 0 < i < |events| ==>
      events[i].sequence == (events[i - 1].sequence + 1) % 0x1_0000_0000_0000_0000
  }

  /** Each event names the value its name had before, and changes it. */
  ghost predicate Chained(log: seq<OutputEvent>) {
    forall i {:trigger log[i].previousValue} :: 0 <= i < |log| ==>
      && log[i].previousValue == LastValue(log[..i], log[i].name)
      && log[i].previousValue != Some(log[i].value)
  }

  ghost predicate LinkInv(l: Link) {
    && l.taken <= |l.log|
    && l.outputEvents == LastN(l.log[l.taken..], MAX_PENDING_OUTPUT_EVENTS)
    && Consecutive(l.log)
    && (l.log != [] ==> l.nextSequence == WrappingNext(l.log[|l.log| - 1].sequence))
    && Chained(l.log)
    && Current(l.outputs, l.log)
  }

  ghost predicate Current(outputs: map<string, int>, log: seq<OutputEvent>) {
    forall name :: Get(outputs, name) == LastValue(log, name)
  }

  datatype Event =
    | Input(name: string, value: int)
    | Output(name: string, value: int, stamp: Stamp)
    | HostTakes
    | DeviceTakes
    | Attach
    | DetachDevice

  datatype History = Nothing | After(earlier: History, last: Event)

  function Step(l: Link, e: Event): Link {
    match e
    case Input(name, value) => l.(pendingInputs := PushOne(l.pendingInputs, (name, value), MAX_PENDING_INPUTS))
    case Output(name, value, stamp) => Publish(l, name, value, stamp)
    case HostTakes => Take(l)
    case DeviceTakes => l.(pendingInputs := [])
    case Attach => l.(devicePresent := true)
    case DetachDevice => Detach(l)
  }

  function Run(h: History): Link {
    match h
    case Nothing => NewLink()
    case After(before, e) => Step(Run(before), e)
  }

  lemma {:induction false} ChainGrows(outputs: map<string, int>, log: seq<OutputEvent>, e: OutputEvent)
    requires Chained(log) && Current(outputs, log)
    requires e.previousValue == Get(outputs, e.name) && e.previousValue != Some(e.value)
    ensures Chained(log + [e]) && Current(outputs[e.name := e.value], log + [e])
  {
    var more := log + [e];
    assert more[..|more| - 1] == log && more[|more| - 1] == e;
    forall i | 0 <= i < |more|
      ensures more[i].previousValue == LastValue(more[..i], more[i].name)
              && more[i].previousValue != Some(more[i].value)
    {
      if i < |log| {
        assert more[..i] == log[..i];
        assert log[i].previousValue == LastValue(log[..i], log[i].name);
      }
    }
    var now := outputs[e.name := e.value];
    forall name
      ensures Get(now, name) == LastValue(more, name)
    {
      assert Get(outputs, name) == LastValue(log, name);
      assert LastValue(more, name) == if e.name == name then Some(e.value) else LastValue(log, name);
    }
  }

  lemma {:induction false} RetainedSlides(log: seq<OutputEvent>, taken: nat, e: OutputEvent)
    requires taken <= |log|
    ensures PushOne(LastN(log[taken..], MAX_PENDING_OUTPUT_EVENTS), e, MAX_PENDING_OUTPUT_EVENTS)
            == LastN((log + [e])[taken..], MAX_PENDING_OUTPUT_EVENTS)
  {
    var untaken := log[taken..];
    assert (log + [e])[taken..] == untaken + [e];
  }

  lemma {:induction false} PublishKeeps(l: Link, name: string, value: int, stamp: Stamp)
    requires LinkInv(l)
    ensures LinkInv(Publish(l, name, value, stamp))
  {
    hide LastN, PushOne, Chained, LastValue, Current, WrappingNext;
    if Get(l.outputs, name) == Some(value) {
      assert l.outputs[name := value] == l.outputs;
    } else {
      var e := OutputEvent(l.nextSequence, stamp, name, Get(l.outputs, name), value);
      ChainGrows(l.outputs, l.log, e);
      RetainedSlides(l.log, l.taken, e);
      NumberGrows(l.log, e);
      hide Consecutive;
    }
  }

  lemma {:induction false} NumberGrows(log: seq<OutputEvent>, e: OutputEvent)
    requires Consecutive(log) && (log != [] ==> e.sequence == WrappingNext(log[|log| - 1].sequence))
    ensures Consecutive(log + [e])
  {
  }

  /** Over any run the log's sequence numbers are consecutive, each event's previous
      value is the value of the event before it for that name, and the host is
      still owed the latest events it has not taken, up to the bound. */
  lemma {:induction false} LogIsConsistent(h: History)
    ensures LinkInv(Run(h))
  {
    hide Publish, LinkInv;
    match h
    case Nothing => StartsEmpty(NewLink());
    case After(before, e) =>
      LogIsConsistent(before);
      StepKeeps(Run(before), e);
  }

  lemma {:induction false} StepKeeps(l: Link, e: Event)
    requires LinkInv(l)
    ensures LinkInv(Step(l, e))
  {
    match e
    case Output(name, value, stamp) =>
      hide Publish, LinkInv;
      PublishKeeps(l, name, value, stamp);
    case DetachDevice =>
      hide LinkInv;
      StartsEmpty(Detach(l));
    case HostTakes =>
      TakeKeeps(l);
    case _ => hide Publish, PushOne, LastN, Chained, Consecutive, LastValue, Current;
  }

  lemma {:induction false} TakeKeeps(l: Link)
    requires LinkInv(l)
    ensures LinkInv(Take(l))
  {
    hide Chained, Consecutive, Current, WrappingNext;
    assert l.log[|l.log|..] == [];
  }

  lemma {:induction false} StartsEmpty(l: Link)
    requires l.log == [] && l.taken == 0 && l.outputs == map[] && l.outputEvents == []
    ensures LinkInv(l)
  {
  }

  lemma {:induction false} SuffixIsConsecutive(events: seq<OutputEvent>, skip: nat)
    requires Consecutive(events) && skip <= |events|
    ensures Consecutive(events[skip..])
  {
    var rest := events[skip..];
    forall i | 0 < i < |rest|
      ensures rest[i].sequence == (rest[i - 1].sequence + 1) % 0x1_0000_0000_0000_0000
    {
      assert events[skip + i].sequence == (events[skip + i - 1].sequence + 1) % 0x1_0000_0000_0000_0000;
    }
  }

  /** What the host takes is at most the bound and numbered consecutively. */
  lemma {:induction false} TakenAreConsecutive(h: History)
    ensures Consecutive(Run(h).outputEvents)
    ensures |Run(h).outputEvents| <= 8192
  {
    hide Step, Chained, Current;
    LogIsConsistent(h);
    var l := Run(h);
    SuffixIsConsecutive(l.log, l.taken);
    SuffixIsConsecutive(l.log[l.taken..], |l.log[l.taken..]| - |l.outputEvents|);
  }

  // ---- The link, read off the events ----

  /** The value last published for a name since the device was last detached. */
  function LastOutput(h: History, name: string): Option<int> {
    match h
    case Nothing => None
    case After(before, Output(n, value, _)) => if n == name then Some(value) else LastOutput(before, name)
    case After(before, DetachDevice) => None
    case After(before, _) => LastOutput(before, name)
  }

  predicate IsChange(before: History, e: Event) {
    e.Output? && LastOutput(before, e.name) != Some(e.value)
  }

  /** How many changes were ever published; detaching does not restart the count. */
  function ChangeCount(h: History): nat {
    match h
    case Nothing => 0
    case After(before, e) => ChangeCount(before) + if IsChange(before, e) then 1 else 0
  }

  /** The changes since the last detach, each numbered by those before it, modulo 2^64. */
  function Transitions(h: History): seq<OutputEvent> {
    match h
    case Nothing => []
    case After(before, DetachDevice) => []
    case After(before, Output(name, value, stamp)) =>
      if LastOutput(before, name) == Some(value) then Transitions(before)
      else
        var number := ChangeCount(before) % 0x1_0000_0000_0000_0000;
        Transitions(before) + [OutputEvent(number, stamp, name, LastOutput(before, name), value)]
    case After(before, _) => Transitions(before)
  }

  /** Those the host has not taken. */
  function Untaken(h: History): seq<OutputEvent> {
    match h
    case Nothing => []
    case After(before, HostTakes) => []
    case After(before, DetachDevice) => []
    case After(before, e) => Untaken(before) + Transitions(h)[|Transitions(before)|..]
  }

  /** The inputs set since the device last took them or was detached. */
  function Inputs(h: History): seq<(string, int)> {
    match h
    case Nothing => []
    case After(before, Input(name, value)) => Inputs(before) + [(name, value)]
    case After(before, DeviceTakes) => []
    case After(before, DetachDevice) => []
    case After(before, _) => Inputs(before)
  }

  function Present(h: History): bool {
    match h
    case Nothing => false
    case After(before, Attach) => true
    case After(before, DetachDevice) => false
    case After(before, _) => Present(before)
  }

  ghost predicate AsRead(l: Link, h: History) {
    FieldsAsRead(l, h) && QueuesAsRead(l, h)
  }

  ghost predicate FieldsAsRead(l: Link, h: History) {
    && l.devicePresent == Present(h)
    && (forall name :: Get(l.outputs, name) == LastOutput(h, name))
    && l.nextSequence == ChangeCount(h) % 0x1_0000_0000_0000_0000
    && l.log == Transitions(h)
  }

  ghost predicate QueuesAsRead(l: Link, h: History) {
    l.pendingInputs == LastN(Inputs(h), 1024) && l.outputEvents == LastN(Untaken(h), 8192)
  }

  /** Over any run the link is what the events say: the newest 1024 inputs not yet taken, the
      last value of every output, and of the changes not yet taken the newest 8192. */
  lemma {:induction false} FollowsEvents(h: History)
    ensures AsRead(Run(h), h)
  {
    hide Step, AsRead;
    match h
    case Nothing => NothingAsRead();
    case After(before, e) =>
      FollowsEvents(before);
      StepAsRead(Run(before), before, e);
  }

  lemma {:induction false} NothingAsRead()
    ensures AsRead(NewLink(), Nothing)
  {
  }

  lemma {:induction false} StepAsRead(l: Link, before: History, e: Event)
    requires AsRead(l, before)
    ensures AsRead(Step(l, e), After(before, e))
  {
    match e
    case Input(name, value) => InputAsRead(l, before, name, value);
    case Output(_, _, _) => OutputAsRead(l, before, e);
    case DetachDevice => NothingLast();
    case _ => TakeAsRead(l, before, e);
  }

  lemma {:induction false} TakeAsRead(l: Link, before: History, e: Event)
    requires AsRead(l, before) && (e.HostTakes? || e.DeviceTakes? || e.Attach?)
    ensures AsRead(Step(l, e), After(before, e))
  {
    hide LastN;
    NothingLast();
    NothingNew(before, e);
  }

  lemma {:induction false} NothingNew(before: History, e: Event)
    requires !e.DetachDevice? && !IsChange(before, e)
    ensures var h := After(before, e);
            && Transitions(h) == Transitions(before) && ChangeCount(h) == ChangeCount(before)
            && Untaken(h) == if e.HostTakes? then [] else Untaken(before)
  {
    assert Transitions(before)[|Transitions(before)|..] == [];
    assert Untaken(before) + [] == Untaken(before);
  }

  lemma {:induction false} NothingLast()
    ensures LastN<OutputEvent>([], 8192) == [] && LastN<(string, int)>([], 1024) == []
  {
  }

  lemma {:induction false} InputAsRead(l: Link, before: History, name: string, value: int)
    requires AsRead(l, before)
    ensures AsRead(Step(l, Input(name, value)), After(before, Input(name, value)))
  {
    assert Transitions(before)[|Transitions(before)|..] == [];
    assert Untaken(before) + [] == Untaken(before);
  }

  lemma {:induction false} PushedLast(untaken: seq<OutputEvent>, e: OutputEvent)
    ensures PushOne(LastN(untaken, 8192), e, 8192) == LastN(untaken + [e], 8192)
  {
  }

  lemma {:induction false} OutputAsRead(l: Link, before: History, e: Event)
    requires AsRead(l, before) && e.Output?
    ensures AsRead(Step(l, e), After(before, e))
  {
    hide QueuesAsRead, Untaken;
    OutputQueues(l, before, e);
    assert Get(l.outputs, e.name) == LastOutput(before, e.name);
    if IsChange(before, e) {
      NewTransition(before, e.name, e.value, e.stamp);
    } else {
      NothingNew(before, e);
    }
    var t, h := Step(l, e), After(before, e);
    assert t.nextSequence == ChangeCount(h) % 0x1_0000_0000_0000_0000;
    assert forall name :: Get(t.outputs, name) == LastOutput(h, name);
  }

  lemma {:induction false} OutputQueues(l: Link, before: History, e: Event)
    requires AsRead(l, before) && e.Output?
    ensures QueuesAsRead(Step(l, e), After(before, e))
  {
    hide Transitions, Untaken;
    assert Get(l.outputs, e.name) == LastOutput(before, e.name);
    if IsChange(before, e) {
      NewTransition(before, e.name, e.value, e.stamp);
      PushedLast(Untaken(before), OutputEvent(l.nextSequence, e.stamp, e.name, LastOutput(before, e.name), e.value));
    } else {
      NothingNew(before, e);
    }
  }

  lemma {:induction false} NewTransition(before: History, name: string, value: int, stamp: Stamp)
    requires LastOutput(before, name) != Some(value)
    ensures var (h, number) := (After(before, Output(name, value, stamp)),
                                ChangeCount(before) % 0x1_0000_0000_0000_0000);
            var n := OutputEvent(number, stamp, name, LastOutput(before, name), value);
            && Transitions(h) == Transitions(before) + [n] && ChangeCount(h) == ChangeCount(before) + 1
            && Untaken(h) == Untaken(before) + [n]
  {
    var log := Transitions(before);
    var number := ChangeCount(before) % 0x1_0000_0000_0000_0000;
    var n := OutputEvent(number, stamp, name, LastOutput(before, name), value);
    assert (log + [n])[|log|..] == [n];
  }

  // ---- The object ----

  class EmbeddedEcuIoLink {
    var devicePresent: bool
    var pendingInputs: seq<(string, int)>
    var outputs: map<string, int>
    var outputEvents: seq<OutputEvent>
    var nextSequence: long
    ghost var log: seq<OutputEvent>
    ghost var taken: nat

    ghost function State(): Link
      reads this
    {
      Link(devicePresent, pendingInputs, outputs, outputEvents, nextSequence, log, taken)
    }

    constructor ()
      ensures State() == NewLink()
    {
      devicePresent, pendingInputs, outputs, outputEvents, nextSequence := false, [], map[], [], 0;
      log, taken := [], 0;
    }

    method SetInput(name: string, value: int)
      modifies this
      ensures State() == Step(old(State()), Input(name, value))
    {
      if |pendingInputs| == MAX_PENDING_INPUTS {
        pendingInputs := pendingInputs[1..];
      }
      pendingInputs := pendingInputs + [(name, value)];
    }

    method TakeInputs() returns (inputs: seq<(string, int)>)
      modifies this
      ensures State() == Step(old(State()), DeviceTakes) && inputs == old(pendingInputs)
    {
      inputs := pendingInputs;
      pendingInputs := [];
    }

    method TakeOutputEvents() returns (events: seq<OutputEvent>)
      modifies this
      ensures State() == Step(old(State()), HostTakes) && events == old(outputEvents)
    {
      events := outputEvents;
      outputEvents := [];
      taken := |log|;
    }

    method AttachDevice()
      modifies this
      ensures State() == Step(old(State()), Attach)
    {
      devicePresent := true;
    }

    method DetachFromDevice()
      modifies this
      ensures State() == Step(old(State()), DetachDevice)
    {
      devicePresent := false;
      pendingInputs := [];
      outputs := map[];
      outputEvents := [];
      log, taken := [], 0;
    }

    method PublishOutput(name: string, value: int, stamp: Stamp)
      modifies this
      ensures State() == Publish(old(State()), name, value, stamp)
    {
      var previousValue := Get(outputs, name);
      outputs := outputs[name := value];
      if previousValue == Some(value) {
        return;
      }
      if |outputEvents| == MAX_PENDING_OUTPUT_EVENTS {
        outputEvents := outputEvents[1..];
      }
      var sequence := nextSequence;
      nextSequence := WrappingNext(nextSequence);
      var e := OutputEvent(sequence, stamp, name, previousValue, value);
      outputEvents := outputEvents + [e];
      log := log + [e];
    }
  }
}
