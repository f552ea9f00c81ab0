/** The ECU I/O device: line-framed inputs from a client and de-duplicated outputs
    towards the embedded link or the client. */
module EcuIo {
  import opened Bits
  import opened ByteQueues
  import opened LineFraming
  import opened OutputLog

  /** The device's view of its signals, and the embedded link. */
  datatype Ecu = Ecu(values: map<string, int>, link: Link)

  function LevelValue(level: bool): int {
    if level then 1 else 0
  }

  /** Reports an output level; only a change of the known value is published. */
  function Report(e: Ecu, name: string, level: bool, stamp: Stamp): Ecu {
    var t := e.(values := e.values[name := LevelValue(level)]);
    if Get(e.values, name) == Some(LevelValue(level)) then t
    else t.(link := Publish(e.link, name, LevelValue(level), stamp))
  }

  function Inbound(values: map<string, int>, known: set<string>, name: string, value: int): map<string, int> {
    if name in known then values[name := value] else values
  }

  /** What a line means: trimming, decoding and integer parsing are a parameter. */
  type LineParser = seq<byte> -> Option<(string, int)>

  /** The values after handling lines in order. */
  function HandleLines(values: map<string, int>, known: set<string>, parse: LineParser, lines: seq<seq<byte>>):
    map<string, int>
  {
    if lines == [] then values
    else
      var before := HandleLines(values, known, parse, lines[..|lines| - 1]);
      match parse(lines[|lines| - 1])
      case Some((name, value)) => Inbound(before, known, name, value)
      case None => before
  }

  lemma {:induction false} NoLines(values: map<string, int>, known: set<string>, parse: LineParser)
    ensures HandleLines(values, known, parse, []) == values
  {
  }

  lemma {:induction false} OneMoreLine(values: map<string, int>, known: set<string>, parse: LineParser,
                                       lines: seq<seq<byte>>, line: seq<byte>)
    ensures HandleLines(values, known, parse, lines + [line])
            == match parse(line)
               case Some((name, value)) => Inbound(HandleLines(values, known, parse, lines), known, name, value)
               case None => HandleLines(values, known, parse, lines)
  {
    assert (lines + [line])[..|lines + [line]| - 1] == lines;
  }

  /** Handling lines in two batches is handling them in one, so the signal values
      do not depend on how the stream was cut either. */
  lemma {:induction false} HandleInPieces(values: map<string, int>, known: set<string>, parse: LineParser,
                                          a: seq<seq<byte>>, b: seq<seq<byte>>)
    ensures HandleLines(HandleLines(values, known, parse, a), known, parse, b)
            == HandleLines(values, known, parse, a + b)
    decreases |b|
  {
    if b == [] {
      assert a + b == a;
    } else {
      var (front, last) := (b[..|b| - 1], b[|b| - 1]);
      HandleInPieces(values, known, parse, a, front);
      OneMoreLine(values, known, parse, a + front, last);
      assert a + front + [last] == a + b;
    }
  }

  // ---- What the signals are, read off the lines and the reports ----

  /** The value of the last line that sets a known signal. */
  function LastSet(known: set<string>, parse: LineParser, lines: seq<seq<byte>>, name: string): Option<int> {
    if lines == [] then None
    else
      match parse(lines[|lines| - 1])
      case Some((n, value)) =>
        if n == name && n in known then Some(value) else LastSet(known, parse, lines[..|lines| - 1], name)
      case None => LastSet(known, parse, lines[..|lines| - 1], name)
  }

  /** A signal has the value the last line gave it, if any did and the signal is known. */
  lemma {:induction false} LastLineWins(values: map<string, int>, known: set<string>, parse: LineParser,
                                        lines: seq<seq<byte>>, name: string)
    ensures Get(HandleLines(values, known, parse, lines), name)
            == match LastSet(known, parse, lines, name)
               case Some(value) => Some(value)
               case None => Get(values, name)
    decreases |lines|
  {
    if lines != [] {
      LastLineWins(values, known, parse, lines[..|lines| - 1], name);
    }
  }

  datatype ReportEvent = ReportEvent(name: string, level: bool, stamp: Stamp)

  function RunReports(e: Ecu, reports: seq<ReportEvent>): Ecu {
    if reports == [] then e
    else
      var last := reports[|reports| - 1];
      Report(RunReports(e, reports[..|reports| - 1]), last.name, last.level, last.stamp)
  }

  /** The level last reported for an output. */
  function LastLevel(reports: seq<ReportEvent>, name: string): Option<bool> {
    if reports == [] then None
    else if reports[|reports| - 1].name == name then Some(reports[|reports| - 1].level)
    else LastLevel(reports[..|reports| - 1], name)
  }

  /** The reports that differ from the one before for the same output. */
  function ChangesOf(reports: seq<ReportEvent>): seq<ReportEvent> {
    if reports == [] then []
    else
      var (front, last) := (reports[..|reports| - 1], reports[|reports| - 1]);
      ChangesOf(front) + if LastLevel(front, last.name) == Some(last.level) then [] else [last]
  }

  /** An event of the link's log stands for a report: 1 for a high level, 0 for a low one. */
  ghost predicate Stands(o: OutputEvent, r: ReportEvent) {
    o.name == r.name && o.stamp == r.stamp && o.value == if r.level then 1 else 0
  }

  /** From start-up, each output has the level last reported, and the link has logged exactly
      the changes, in order. */
  lemma {:induction false} ChangesAreLogged(reports: seq<ReportEvent>)
    ensures var (e, changes) := (RunReports(Ecu(map[], NewLink()), reports), ChangesOf(reports));
            && e.values == e.link.outputs
            && (forall name :: Get(e.values, name)
                               == match LastLevel(reports, name)
                                  case None => None
                                  case Some(level) => Some(if level then 1 else 0))
            && |e.link.log| == |changes|
            && forall i :: 0 <= i < |changes| ==> Stands(e.link.log[i], changes[i])
    decreases |reports|
  {
    hide PushOne;
    if reports != [] {
      var (front, last) := (reports[..|reports| - 1], reports[|reports| - 1]);
      ChangesAreLogged(front);
      var e := RunReports(Ecu(map[], NewLink()), front);
      assert Get(e.values, last.name) == match LastLevel(front, last.name)
                                         case None => None
                                         case Some(level) => Some(if level then 1 else 0);
    }
  }

  class EcuIo {
    const embedded: EmbeddedEcuIoLink?
    const knownNames: set<string>
    const parse: LineParser
    const render: (string, int) -> seq<byte> // "name=value" and a newline
    var values: map<string, int>
    var recvBuffer: seq<byte>
    var outgoing: seq<byte>
    var clientConnected: bool
    ghost var handled: seq<seq<byte>>

    constructor (embedded: EmbeddedEcuIoLink?, knownNames: set<string>, parse: LineParser,
                 render: (string, int) -> seq<byte>)
      ensures this.embedded == embedded && this.knownNames == knownNames && this.parse == parse && this.render == render
      ensures values == map[] && Framing() == LineFraming.Run(LineFraming.Nothing)
      ensures outgoing == [] && !clientConnected
    {
      this.embedded, this.knownNames, this.parse, this.render := embedded, knownNames, parse, render;
      values, recvBuffer, outgoing, clientConnected, handled := map[], [], [], false, [];
    }

    ghost function Framing(): Framer
      reads this
    {
      Framer(recvBuffer, handled)
    }

    ghost function State(): Ecu
      requires embedded != null
      reads this, embedded
    {
      Ecu(values, embedded.State())
    }

    method ReportOutput(name: string, level: bool, stamp: Stamp)
      modifies this`values, this`outgoing, embedded
      ensures embedded != null ==> State() == Report(old(State()), name, level, stamp) && unchanged(`outgoing)
      ensures embedded == null ==>
                && values == old(values)[name := LevelValue(level)]
                && outgoing == if old(Get(values, name)) != Some(LevelValue(level)) && clientConnected
                               then PushEach(old(outgoing), render(name, LevelValue(level)), MAX_BUFFERED_BYTES)
                               else old(outgoing)
    {
      var newValue := LevelValue(level);
      var changed := Get(values, name) != Some(newValue);
      values := values[name := newValue];
      if changed {
        if embedded != null {
          embedded.PublishOutput(name, newValue, stamp);
          return;
        }
      }
      if embedded == null && changed && clientConnected {
        outgoing := PushByteWise(outgoing, render(name, newValue), MAX_BUFFERED_BYTES);
      }
    }

    method SetValue(name: string, value: int)
      modifies this`values
      ensures values == Inbound(old(values), knownNames, name, value)
    {
      if name !in knownNames {
        return;
      }
      values := values[name := value];
    }

    method DigitalLevel(name: string) returns (level: bool)
      ensures level <==> name in values && values[name] != 0
    {
      level := name in values && values[name] != 0;
    }

    /** One read from the client. */
    method ReceiveBytes(bytes: seq<byte>)
      modifies this`recvBuffer
      ensures Framing() == Receive(old(Framing()), bytes)
    {
      recvBuffer := PushVec(recvBuffer, bytes, MAX_BUFFERED_BYTES);
    }

    /** Drains line after line until no newline is left. */
    method ProcessCompleteLines()
      modifies this`recvBuffer, this`values, this`handled
      ensures Framing() == Process(old(Framing()))
      ensures values == HandleLines(old(values), knownNames, parse, Lines(old(recvBuffer)))
    {
      hide Position, Lines, Tail, HandleLines;
      NoLines(values, knownNames, parse);
      ghost var start := recvBuffer;
      ghost var lines: seq<seq<byte>> := [];
      var pos := Position(recvBuffer);
      while pos.Some?
        invariant pos == Position(recvBuffer)
        invariant lines + Lines(recvBuffer) == Lines(start) && Tail(recvBuffer) == Tail(start)
        invariant handled == old(handled) + lines
        invariant values == HandleLines(old(values), knownNames, parse, lines)
        decreases |recvBuffer|
      {
        ghost var before := recvBuffer;
        var line := recvBuffer[..pos.value];
        recvBuffer := recvBuffer[pos.value + 1..];
        HandleLine(line);
        LineTaken(lines, before, |line|);
        OneMoreLine(old(values), knownNames, parse, lines, line);
        lines := lines + [line];
        handled := handled + [line];
        pos := Position(recvBuffer);
      }
      NothingLeft(recvBuffer);
      assert lines + [] == lines;
    }

    static lemma {:induction false} NothingLeft(buffer: seq<byte>)
      requires Position(buffer).None?
      ensures Lines(buffer) == [] && Tail(buffer) == buffer
    {
    }

    method HandleLine(line: seq<byte>)
      modifies this`values
      ensures values == match parse(line)
                        case Some((name, value)) => Inbound(old(values), knownNames, name, value)
                        case None => old(values)
    {
      var parsed := parse(line);
      if parsed.Some? {
        SetValue(parsed.value.0, parsed.value.1);
      }
    }
  }
}
