/** Splitting a byte stream into lines, and why it does not matter how the stream
    is cut into reads. */
module LineFraming {
  import opened Bits
  import opened ByteQueues

  const NEWLINE: byte := 10
  const MAX_BUFFERED_BYTES: nat := 65536

  /** The position of the first newline. */
  function Position(s: seq<byte>): (p: Option<nat>)
    ensures p.Some? ==> p.value < |s| && s[p.value] == NEWLINE && forall i :: 0 <= i < p.value ==> s[i] != NEWLINE
    ensures p.None? <==> NEWLINE !in s
  {
    if s == [] then None
    else if s[0] == NEWLINE then Some(0)
    else match Position(s[1..])
      case Some(p) => Some(p + 1)
      case None => None
  }

  /** The complete lines of a stream, without their newlines. */
  function Lines(s: seq<byte>): seq<seq<byte>>
    decreases |s|
  {
    match Position(s)
    case Some(p) => [s[..p]] + Lines(s[p + 1..])
    case None => []
  }

  /** The unterminated rest. */
  function Tail(s: seq<byte>): seq<byte>
    decreases |s|
  {
    match Position(s)
    case Some(p) => Tail(s[p + 1..])
    case None => s
  }

  /** The lines, each followed by a newline (byte 10). */
  function Joined(lines: seq<seq<byte>>): seq<byte> {
    if lines == [] then [] else lines[0] + [10] + Joined(lines[1..])
  }

  ghost predicate NoNewlines(lines: seq<seq<byte>>) {
    forall i :: 0 <= i < |lines| ==> 10 !in lines[i]
  }

  lemma {:induction false} PositionIs(s: seq<byte>, p: nat)
    requires p < |s| && s[p] == NEWLINE && forall i :: 0 <= i < p ==> s[i] != NEWLINE
    ensures Position(s) == Some(p)
  {
    assert NEWLINE in s;
  }

  lemma {:induction false} FirstLine(first: seq<byte>, rest: seq<byte>)
    requires NEWLINE !in first
    ensures Position(first + [NEWLINE] + rest) == Some(|first|)
    ensures Lines(first + [NEWLINE] + rest) == [first] + Lines(rest)
    ensures Tail(first + [NEWLINE] + rest) == Tail(rest)
  {
    var s := first + [NEWLINE] + rest;
    PositionIs(s, |first|);
    assert s[..|first|] == first && s[|first| + 1..] == rest;
  }

  /** The split is the only one: newline-free lines, each followed by a newline,
      and a newline-free rest. */
  lemma {:induction false} SplitIsUnique(s: seq<byte>, lines: seq<seq<byte>>, rest: seq<byte>)
    requires NoNewlines(lines) && 10 !in rest && s == Joined(lines) + rest
    ensures Lines(s) == lines && Tail(s) == rest
    decreases |lines|
  {
    hide Position;
    if lines == [] {
      assert s == rest;
    } else {
      var more := Joined(lines[1..]) + rest;
      assert s == lines[0] + [NEWLINE] + more;
      FirstLine(lines[0], more);
      SplitIsUnique(more, lines[1..], rest);
    }
  }

  /** Cutting a stream at its first newline. */
  lemma {:induction false} Cut(s: seq<byte>) returns (first: seq<byte>, rest: seq<byte>)
    requires Position(s).Some?
    ensures s == first + [NEWLINE] + rest && NEWLINE !in first && |rest| < |s|
    ensures Lines(s) == [first] + Lines(rest) && Tail(s) == Tail(rest)
  {
    var p := Position(s).value;
    hide Position;
    first, rest := s[..p], s[p + 1..];
  }

  lemma {:induction false} JoinedCons(first: seq<byte>, lines: seq<seq<byte>>, rest: seq<byte>)
    ensures Joined([first] + lines) + rest == first + [NEWLINE] + (Joined(lines) + rest)
  {
    assert ([first] + lines)[1..] == lines;
  }

  /** And every stream splits that way. */
  lemma {:induction false} SplitJoins(s: seq<byte>)
    ensures s == Joined(Lines(s)) + Tail(s)
    ensures NoNewlines(Lines(s)) && 10 !in Tail(s)
    decreases |s|
  {
    if Position(s).Some? {
      hide Position, Lines, Tail, Joined;
      var first, rest := Cut(s);
      SplitJoins(rest);
      JoinedCons(first, Lines(rest), Tail(rest));
    }
  }

  /** Splitting a stream in two pieces, the rest of the first carried over. */
  lemma {:induction false} LinesCarryOver(a: seq<byte>, b: seq<byte>)
    ensures Lines(a + b) == Lines(a) + Lines(Tail(a) + b)
    ensures Tail(a + b) == Tail(Tail(a) + b)
    decreases |a|
  {
    if Position(a).Some? {
      hide Position, Lines, Tail;
      var first, rest := Cut(a);
      LinesCarryOver(rest, b);
      Regroup(first, rest, b);
      FirstLine(first, rest + b);
      var more := Lines(Tail(rest) + b);
      assert [first] + (Lines(rest) + more) == [first] + Lines(rest) + more;
    }
  }

  lemma {:induction false} Regroup(first: seq<byte>, rest: seq<byte>, b: seq<byte>)
    ensures first + [NEWLINE] + rest + b == first + [NEWLINE] + (rest + b)
  {
  }

  /** Taking one more line off a buffer whose first newline is at `p`. */
  lemma {:induction false} LineTaken(lines: seq<seq<byte>>, buffer: seq<byte>, p: nat)
    requires Position(buffer) == Some(p)
    ensures lines + Lines(buffer) == lines + [buffer[..p]] + Lines(buffer[p + 1..])
    ensures Tail(buffer) == Tail(buffer[p + 1..])
  {
    hide Position;
    var more := Lines(buffer[p + 1..]);
    assert lines + ([buffer[..p]] + more) == lines + [buffer[..p]] + more;
  }

  // ---- Runs ----

  /** `handled`: the lines taken off the buffer so far. */
  datatype Framer = Framer(buffer: seq<byte>, handled: seq<seq<byte>>)

  datatype Event =
    | Read(bytes: seq<byte>)  // a read from the client
    | ProcessLines            // at the end of a poll

  datatype History = Nothing | After(earlier: History, last: Event)

  function Receive(f: Framer, bytes: seq<byte>): Framer {
    f.(buffer := Capped(f.buffer, bytes, MAX_BUFFERED_BYTES))
  }

  function Process(f: Framer): Framer {
    Framer(Tail(f.buffer), f.handled + Lines(f.buffer))
  }

  function Run(h: History): Framer {
    match h
    case Nothing => Framer([], [])
    case After(before, Read(bytes)) => Receive(Run(before), bytes)
    case After(before, ProcessLines) => Process(Run(before))
  }

  function Stream(h: History): seq<byte> {
    match h
    case Nothing => []
    case After(before, Read(bytes)) => Stream(before) + bytes
    case After(before, ProcessLines) => Stream(before)
  }

  /** No read ever pushed the buffer over its cap of 64 KiB. */
  predicate WithinCap(h: History) {
    match h
    case Nothing => true
    case After(before, Read(bytes)) => WithinCap(before) && |Run(before).buffer| + |bytes| <= 65536
    case After(before, ProcessLines) => WithinCap(before)
  }

  lemma {:induction false} TailHasNoLines(s: seq<byte>)
    ensures Lines(Tail(s)) == [] && Tail(Tail(s)) == Tail(s)
    decreases |s|
  {
    if Position(s).Some? {
      TailHasNoLines(s[Position(s).value + 1..]);
    }
  }

  /** However the stream is cut into reads and polls, the lines handled and those
      still in the buffer are the newline split of the whole stream. */
  lemma {:induction false} ChunkIndependent(h: History)
    requires WithinCap(h)
    ensures Run(h).handled + Lines(Run(h).buffer) == Lines(Stream(h))
    ensures Tail(Run(h).buffer) == Tail(Stream(h))
    ensures h.After? && h.last == ProcessLines ==> Run(h) == Framer(Tail(Stream(h)), Lines(Stream(h)))
  {
    hide Lines, Tail;
    match h
    case Nothing =>
    case After(before, Read(bytes)) =>
      ChunkIndependent(before);
      var f := Run(before);
      LinesCarryOver(f.buffer, bytes);
      LinesCarryOver(Stream(before), bytes);
      assert Run(h).buffer == f.buffer + bytes;
      var carried := Lines(Tail(f.buffer) + bytes);
      assert f.handled + (Lines(f.buffer) + carried) == f.handled + Lines(f.buffer) + carried;
    case After(before, ProcessLines) =>
      ChunkIndependent(before);
      TailHasNoLines(Run(before).buffer);
  }

  /** A read is framed as if there were no cap exactly when it stays within it: over
      the cap, the lines or the tail come out different. */
  lemma {:induction false} FramingKeptIff(f: Framer, bytes: seq<byte>)
    ensures var (whole, kept) := (f.buffer + bytes, Receive(f, bytes).buffer);
            (Lines(kept) == Lines(whole) && Tail(kept) == Tail(whole)) <==> |whole| <= 65536
  {
    hide Lines, Tail;
    var (whole, kept) := (f.buffer + bytes, Receive(f, bytes).buffer);
    if |whole| > MAX_BUFFERED_BYTES && Lines(kept) == Lines(whole) && Tail(kept) == Tail(whole) {
      SplitJoins(whole);
      SplitJoins(kept);
      assert false;
    }
  }
}
