/** GPIO ports: the loop over changed register fields, the output writes that call
    back on them, and the agreement of the logged outputs with the output registers. */
module Gpio {
  import opened Bits
  import opened OutputLog
  import opened EcuIo

  const NUM_PORTS: nat := 11

  // ---- Fields and their changes ----

  /** Field `pin` of a register of `stride`-bit fields. */
  function Field(v: word, pin: nat, stride: nat): (r: nat)
    ensures forall k: nat :: Bit(r, k) <==> k < stride && Bit(v, pin * stride + k)
  {
    Low(Shr(v, pin * stride), stride)
  }

  datatype Visit = Visit(pin: nat, value: nat)

  predicate Differs(was: word, becomes: word, pin: nat, stride: nat) {
    Field(was, pin, stride) != Field(becomes, pin, stride)
  }

  /** The changed fields below `n`, ascending, each with its new value. */
  function ChangesBelow(was: word, becomes: word, stride: nat, n: nat): seq<Visit> {
    if n == 0 then []
    else ChangesBelow(was, becomes, stride, n - 1)
         + if Differs(was, becomes, n - 1, stride) then [Visit(n - 1, Field(becomes, n - 1, stride))] else []
  }

  /** Fields above number 16 are not visited. */
  function Changes(was: word, becomes: word, stride: nat): seq<Visit> {
    ChangesBelow(was, becomes, stride, 17)
  }

  ghost predicate Ascending(visits: seq<Visit>) {
    forall i, j :: 0 <= i < j < |visits| ==> visits[i].pin < visits[j].pin
  }

  /** The visits are exactly the changed fields, each once, in ascending order. */
  lemma {:induction false} ChangesAreExact(was: word, becomes: word, stride: nat, n: nat)
    ensures Ascending(ChangesBelow(was, becomes, stride, n))
    ensures forall v :: v in ChangesBelow(was, becomes, stride, n)
                   <==> v.pin < n && Differs(was, becomes, v.pin, stride) && v.value == Field(becomes, v.pin, stride)
  {
    hide Differs, Field;
    if n != 0 {
      ChangesAreExact(was, becomes, stride, n - 1);
      var before := ChangesBelow(was, becomes, stride, n - 1);
      assert forall i :: 0 <= i < |before| ==> before[i] in before;
    }
  }

  /** Whole fields without a differing bit are not visited. */
  lemma {:induction false} SkipsEqual(was: word, becomes: word, stride: nat, a: nat, b: nat)
    requires a <= b && forall j: nat :: a * stride <= j < b * stride ==> (Bit(was, j) <==> Bit(becomes, j))
    ensures ChangesBelow(was, becomes, stride, a) == ChangesBelow(was, becomes, stride, b)
    decreases b
  {
    hide Bit, Field;
    if a < b {
      FieldsInside(stride, b - 1, b);
      if a < b - 1 {
        FieldsInside(stride, a, b - 1);
      }
      SkipsEqual(was, becomes, stride, a, b - 1);
      EqualField(was, becomes, b - 1, stride);
    }
  }

  lemma {:induction false} FieldsInside(stride: nat, p: nat, q: nat)
    requires p < q
    ensures p * stride + stride <= q * stride
    decreases q
  {
    assert q * stride == (q - 1) * stride + stride;
    if p + 1 < q {
      FieldsInside(stride, p, q - 1);
    }
  }

  lemma {:induction false} EqualField(was: word, becomes: word, pin: nat, stride: nat)
    requires forall j: nat :: pin * stride <= j < pin * stride + stride ==> (Bit(was, j) <==> Bit(becomes, j))
    ensures !Differs(was, becomes, pin, stride)
  {
    hide Bit;
    SameBits(Field(was, pin, stride), Field(becomes, pin, stride));
  }

  lemma {:induction false} DifferingBit(was: word, becomes: word, pin: nat, stride: nat, bit: nat)
    requires pin * stride <= bit < pin * stride + stride && (Bit(was, bit) <==> !Bit(becomes, bit))
    ensures Differs(was, becomes, pin, stride)
  {
    hide Bit;
    var k := bit - pin * stride;
    assert Bit(Field(was, pin, stride), k) <==> !Bit(Field(becomes, pin, stride), k);
  }

  lemma {:induction false} AllOnes()
    ensures forall j: nat :: Bit(0xffff_ffff, j) <==> j < 32
  {
    assert Pow2(8) == 0x100;
    assert Pow2(16) == 0x100 * Pow2(8);
    assert Pow2(24) == 0x100 * Pow2(16);
    assert Pow2(32) == 0x100 * Pow2(24);
    Ones(32, 0xffff_ffff);
  }

  /** `!stride_mask << shift`: everything from `shift` up but one field. */
  function ClearingMask(stride: nat, shift: nat): (r: nat)
    requires stride <= 8
    ensures forall j: nat :: Bit(r, j) <==> shift + stride <= j < 32
  {
    AllOnes();
    Ones(stride, Pow2(stride) - 1);
    Low(Shl(AndNot(0xffff_ffff, Pow2(stride) - 1), shift), 32)
  }

  /** The bits that still differ, all of them from field `from` up. */
  ghost predicate Remaining(changes: word, was: word, becomes: word, limit: nat) {
    && (forall j: nat :: Bit(changes, j) <==> limit <= j && (Bit(was, j) <==> !Bit(becomes, j)))
  }

  lemma {:induction false} XorStarts(was: word, becomes: word)
    ensures Xor(was, becomes) < 0x1_0000_0000
    ensures Remaining(Xor(was, becomes), was, becomes, 0)
  {
    hide Xor;
    WordBits(was);
    WordBits(becomes);
    HighBitsClear(was, 32);
    HighBitsClear(becomes, 32);
    FitsWidth(Xor(was, becomes), 32);
    WordBits(Xor(was, becomes));
  }

  lemma {:induction false} FieldCleared(changes: word, was: word, becomes: word, limit: nat, stride: nat, pin: nat)
    requires Remaining(changes, was, becomes, limit) && limit <= pin * stride && stride <= 8
    requires forall j: nat :: j < pin * stride ==> !Bit(changes, j)
    ensures Remaining(And(changes, ClearingMask(stride, pin * stride)), was, becomes, pin * stride + stride)
  {
    hide And, ClearingMask;
    WordBits(was);
    WordBits(becomes);
    HighBitsClear(was, 32);
    HighBitsClear(becomes, 32);
  }

  lemma {:induction false} NothingBelow(was: word, becomes: word, stride: nat)
    ensures ChangesBelow(was, becomes, stride, 0) == []
  {
  }

  /** Walks the changed fields by their lowest differing bit, clearing field after
      field; ends with every changed field visited. The visits are what the source
      passes to its closure, in order. */
  method IterPortRegChanges(was: word, becomes: word, stride: nat) returns (visits: seq<Visit>)
    requires stride in {1, 2, 4}
    ensures visits == Changes(was, becomes, stride)
  {
    hide Bit, Field, Xor, And, ClearingMask, Remaining, ChangesBelow, Differs;
    NothingBelow(was, becomes, stride);
    XorStarts(was, becomes);
    var changes: word := Xor(was, becomes);
    visits := [];
    ghost var next: nat := 0;
    while changes != 0
      invariant Remaining(changes, was, becomes, next * stride)
      invariant visits == ChangesBelow(was, becomes, stride, if next <= 17 then next else 17)
      decreases changes
    {
      var rightMostBit := TrailingZeros(changes);
      var pin := rightMostBit / stride;
      NextVisit(changes, was, becomes, stride, next, rightMostBit, pin);
      NextClears(changes, was, becomes, stride, next, rightMostBit, pin);
      if pin <= 16 {
        var v := Field(becomes, pin, stride);
        visits := visits + [Visit(pin, v)];
      }
      changes := And(changes, ClearingMask(stride, pin * stride));
      next := pin + 1;
    }
    LastField(was, becomes, stride, next);
  }

  /** One turn of the loop: the field of the lowest differing bit is the next one
      to visit, and clearing it leaves the differences above it. */
  lemma {:induction false} NextVisit(changes: word, was: word, becomes: word, stride: nat, next: nat, bit: nat,
                                     pin: nat)
    requires stride in {1, 2, 4} && Remaining(changes, was, becomes, next * stride)
    requires Bit(changes, bit) && (forall j: nat :: j < bit ==> !Bit(changes, j)) && pin == bit / stride
    ensures var before := ChangesBelow(was, becomes, stride, if next <= 17 then next else 17);
            ChangesBelow(was, becomes, stride, if pin + 1 <= 17 then pin + 1 else 17)
            == if pin <= 16 then before + [Visit(pin, Field(becomes, pin, stride))] else before
  {
    hide Bit, Field, Differs;
    FieldOfBit(stride, bit, pin);
    assert Bit(changes, bit) && next * stride <= bit;
    FieldOrder(stride, next, bit, pin);
    SkipsEqual(was, becomes, stride, next, pin);
    if pin <= 16 {
      DifferingBit(was, becomes, pin, stride, bit);
    } else if next <= 17 {
      SkipsEqual(was, becomes, stride, next, 17);
    }
  }

  lemma {:induction false} NextClears(changes: word, was: word, becomes: word, stride: nat, next: nat, bit: nat,
                                      pin: nat)
    requires stride in {1, 2, 4} && Remaining(changes, was, becomes, next * stride)
    requires Bit(changes, bit) && (forall j: nat :: j < bit ==> !Bit(changes, j)) && pin == bit / stride
    ensures And(changes, ClearingMask(stride, pin * stride)) < changes
    ensures Remaining(And(changes, ClearingMask(stride, pin * stride)), was, becomes, (pin + 1) * stride)
  {
    hide Bit, And, ClearingMask;
    FieldOfBit(stride, bit, pin);
    assert Bit(changes, bit) && next * stride <= bit;
    FieldOrder(stride, next, bit, pin);
    FieldCleared(changes, was, becomes, next * stride, stride, pin);
    var rest := And(changes, ClearingMask(stride, pin * stride));
    assert !Bit(rest, bit);
  }

  lemma {:induction false} FieldOfBit(stride: nat, bit: nat, pin: nat)
    requires stride in {1, 2, 4} && pin == bit / stride
    ensures pin * stride <= bit < pin * stride + stride && (pin + 1) * stride == pin * stride + stride
  {
  }

  lemma {:induction false} FieldOrder(stride: nat, next: nat, bit: nat, pin: nat)
    requires stride in {1, 2, 4} && pin == bit / stride && next * stride <= bit
    ensures next <= pin && next * stride <= pin * stride && (pin >= 17 ==> 17 * stride <= bit)
  {
  }

  lemma {:induction false} LastField(was: word, becomes: word, stride: nat, next: nat)
    requires Remaining(0, was, becomes, next * stride)
    ensures next <= 17 ==> ChangesBelow(was, becomes, stride, next) == Changes(was, becomes, stride)
  {
    hide Field, ChangesBelow;
    assert forall j: nat :: !Bit(0, j);
    if next <= 17 {
      hide Bit;
      SkipsEqual(was, becomes, stride, next, 17);
    }
  }

  // ---- Output pins and their log ----

  /** A callback: writes to a pin are reported under a name. */
  datatype Watcher = Watcher(port: nat, pin: nat, name: string)

  predicate ValidWatchers(ws: seq<Watcher>) {
    && (forall i :: 0 <= i < |ws| ==> ws[i].port < NUM_PORTS && ws[i].pin < 16)
    && (forall i, j :: 0 <= i < j < |ws| ==> ws[i].name != ws[j].name)
  }

  predicate Watches(w: Watcher, port: nat, pin: nat) {
    w.port == port && w.pin == pin
  }

  /** Calls back every watcher of a pin. */
  function WritePort(e: Ecu, ws: seq<Watcher>, port: nat, pin: nat, level: bool, stamp: Stamp): Ecu {
    if ws == [] then e
    else
      var (t, w) := (WritePort(e, ws[..|ws| - 1], port, pin, level, stamp), ws[|ws| - 1]);
      if Watches(w, port, pin) then Report(t, w.name, level, stamp) else t
  }

  /** The level a visit writes: fixed, or whatever the field now holds. */
  function LevelOf(v: Visit, level: Option<bool>): bool {
    if level.Some? then level.value else v.value != 0
  }

  function WriteVisits(e: Ecu, ws: seq<Watcher>, port: nat, visits: seq<Visit>, level: Option<bool>,
                       stamp: Stamp): Ecu {
    if visits == [] then e
    else
      var (t, v) := (WriteVisits(e, ws, port, visits[..|visits| - 1], level, stamp), visits[|visits| - 1]);
      WritePort(t, ws, port, v.pin, LevelOf(v, level), stamp)
  }

  /** The output registers of all ports, and the ECU device. */
  datatype Outputs = Outputs(od: seq<word>, ecu: Ecu)

  function SetMask(value: word): word {
    value % 0x1_0000
  }

  function ResetMask(value: word): word {
    value / 0x1_0000
  }

  function OdAfterBsrr(od: word, value: word): (r: word)
    ensures forall j: nat :: Bit(r, j) <==> Bit(SetMask(value), j) || (Bit(od, j) && !Bit(ResetMask(value), j))
  {
    WordBits(od);
    WordBits(SetMask(value));
    HighBitsClear(od, 32);
    HighBitsClear(SetMask(value), 32);
    var r := Or(AndNot(od, ResetMask(value)), SetMask(value));
    FitsWidth(r, 32);
    WordBits(r);
    r
  }

  function BsrrReports(e: Ecu, ws: seq<Watcher>, port: nat, value: word, stamp: Stamp): Ecu {
    var t := WriteVisits(e, ws, port, Changes(0, SetMask(value), 1), Some(true), stamp);
    WriteVisits(t, ws, port, Changes(0, ResetMask(value), 1), Some(false), stamp)
  }

  datatype Event =
    | WriteOdr(port: nat, value: word, stamp: Stamp)
    | WriteBsrr(port: nat, value: word, stamp: Stamp)
    | InboundValue(name: string, input: int)
    | HostTakesEvents

  datatype History = Nothing | After(earlier: History, last: Event)

  predicate ValidEvent(e: Event) {
    (e.WriteOdr? ==> e.port < NUM_PORTS) && (e.WriteBsrr? ==> e.port < NUM_PORTS)
  }

  function Step(s: Outputs, ws: seq<Watcher>, known: set<string>, e: Event): (t: Outputs)
    requires |s.od| == NUM_PORTS && ValidEvent(e)
    ensures |t.od| == NUM_PORTS
  {
    match e
    case WriteOdr(port, value, stamp) =>
      Outputs(s.od[port := value], WriteVisits(s.ecu, ws, port, Changes(s.od[port], value, 1), None, stamp))
    case WriteBsrr(port, value, stamp) =>
      Outputs(s.od[port := OdAfterBsrr(s.od[port], value)], BsrrReports(s.ecu, ws, port, value, stamp))
    case InboundValue(name, input) => s.(ecu := s.ecu.(values := Inbound(s.ecu.values, known, name, input)))
    case HostTakesEvents => s.(ecu := s.ecu.(link := Take(s.ecu.link)))
  }

  function PowerOn(): Outputs {
    Outputs(seq(NUM_PORTS, _ => 0), Ecu(map[], NewLink()))
  }

  ghost predicate ValidHistory(h: History) {
    match h
    case Nothing => true
    case After(before, e) => ValidHistory(before) && ValidEvent(e)
  }

  function Run(ws: seq<Watcher>, known: set<string>, h: History): (s: Outputs)
    requires ValidHistory(h)
    ensures |s.od| == NUM_PORTS
  {
    match h
    case Nothing => PowerOn()
    case After(before, e) => Step(Run(ws, known, before), ws, known, e)
  }

  /** A bit of an output register, read off the writes: an ODR write gives it, a BSRR write
      sets the pins of its lower half and then clears, of the others, those of its upper. */
  predicate OutputBit(h: History, port: nat, j: nat) {
    match h
    case Nothing => false
    case After(before, WriteOdr(p, value, _)) => if p == port then Bit(value, j) else OutputBit(before, port, j)
    case After(before, WriteBsrr(p, value, _)) =>
      if p == port then (j < 16 && Bit(value, j)) || (OutputBit(before, port, j) && !Bit(value, j + 16))
      else OutputBit(before, port, j)
    case After(before, _) => OutputBit(before, port, j)
  }

  lemma {:induction false} MaskBits(value: word, j: nat)
    ensures Bit(SetMask(value), j) <==> j < 16 && Bit(value, j)
    ensures Bit(ResetMask(value), j) <==> Bit(value, j + 16)
  {
    hide Bit;
    assert Pow2(8) == 0x100;
    assert Pow2(16) == 0x100 * Pow2(8);
    HighAndLow(value, 16, value / 0x1_0000, value % 0x1_0000);
    HighBitsClear(value % 0x1_0000, 16);
    assert Bit(value, j + 16) <==> Bit(value / 0x1_0000, j);
  }

  /** Over any run the eleven output registers hold what the writes left in them. */
  lemma {:induction false} RegistersFollowWrites(ws: seq<Watcher>, known: set<string>, h: History, port: nat, j: nat)
    requires ValidHistory(h) && port < 11
    ensures var od := Run(ws, known, h).od;
            |od| == 11 && (Bit(od[port], j) <==> OutputBit(h, port, j))
  {
    hide Bit, SetMask, ResetMask, WriteVisits, BsrrReports, Changes;
    if h.After? {
      RegistersFollowWrites(ws, known, h.earlier, port, j);
      if h.last.WriteBsrr? {
        MaskBits(h.last.value, j);
      }
    } else {
      NoBit(j);
    }
  }

  // ---- Following one output through a write ----

  /** The known value and the published value of an output. */
  type Tracked = (Option<int>, Option<int>)

  function Track(e: Ecu, name: string): Tracked {
    (Get(e.values, name), Get(e.link.outputs, name))
  }

  /** Reports publish only when they differ from the known value. */
  function AfterReports(t: Tracked, levels: seq<bool>): Tracked {
    if levels == [] then t
    else
      var (before, v) := (AfterReports(t, levels[..|levels| - 1]), Some(LevelValue(levels[|levels| - 1])));
      (v, if before.0 == v then before.1 else v)
  }

  /** The levels a list of visits reports for a pin. */
  function LevelsAt(visits: seq<Visit>, pin: nat, level: Option<bool>): seq<bool> {
    if visits == [] then []
    else
      var v := visits[|visits| - 1];
      LevelsAt(visits[..|visits| - 1], pin, level) + if v.pin == pin then [LevelOf(v, level)] else []
  }

  lemma {:induction false} ReportTracks(e: Ecu, name: string, level: bool, stamp: Stamp, other: string)
    ensures Track(Report(e, name, level, stamp), name) == AfterReports(Track(e, name), [level])
    ensures other != name ==> Track(Report(e, name, level, stamp), other) == Track(e, other)
  {
    assert AfterReports(Track(e, name), []) == Track(e, name);
    assert [level][..0] == [];
  }

  lemma {:induction false} WritePortTracks(e: Ecu, ws: seq<Watcher>, port: nat, pin: nat, level: bool, stamp: Stamp,
                                           name: string)
    requires forall i, j :: 0 <= i < j < |ws| ==> ws[i].name != ws[j].name
    ensures forall w :: w in ws && w.name == name ==>
              Track(WritePort(e, ws, port, pin, level, stamp), name)
              == if Watches(w, port, pin) then AfterReports(Track(e, name), [level]) else Track(e, name)
    ensures (forall w :: w in ws ==> w.name != name) ==>
              Track(WritePort(e, ws, port, pin, level, stamp), name) == Track(e, name)
    decreases |ws|
  {
    hide AfterReports, Report, Track;
    if ws != [] {
      var (before, last) := (ws[..|ws| - 1], ws[|ws| - 1]);
      assert forall w :: w in ws <==> w in before || w == last;
      assert forall w :: w in before ==> w.name != last.name;
      WritePortTracks(e, before, port, pin, level, stamp, name);
      ReportTracks(WritePort(e, before, port, pin, level, stamp), last.name, level, stamp, name);
    }
  }

  lemma {:induction false} ReportsAppend(t: Tracked, a: seq<bool>, level: bool)
    ensures AfterReports(t, a + [level]) == AfterReports(AfterReports(t, a), [level])
  {
    assert (a + [level])[..|a|] == a;
    assert [level][..0] == [];
    assert AfterReports(AfterReports(t, a), []) == AfterReports(t, a);
  }

  /** Through any list of visits, an output follows exactly the levels its own pin
      is visited with. */
  lemma {:induction false} VisitsTrack(e: Ecu, ws: seq<Watcher>, port: nat, visits: seq<Visit>, level: Option<bool>,
                                       stamp: Stamp, w: Watcher)
    requires ValidWatchers(ws) && w in ws
    ensures Track(WriteVisits(e, ws, port, visits, level, stamp), w.name)
            == AfterReports(Track(e, w.name), if w.port == port then LevelsAt(visits, w.pin, level) else [])
    decreases |visits|
  {
    hide WritePort, Track, AfterReports, LevelOf;
    if visits == [] {
      OneReport(Track(e, w.name), true);
    } else {
      var (front, v) := (visits[..|visits| - 1], visits[|visits| - 1]);
      VisitsTrack(e, ws, port, front, level, stamp, w);
      var t := WriteVisits(e, ws, port, front, level, stamp);
      WritePortTracks(t, ws, port, v.pin, LevelOf(v, level), stamp, w.name);
      ReportsAppend(Track(e, w.name), LevelsAt(front, w.pin, level), LevelOf(v, level));
      assert LevelsAt(front, w.pin, level) + [] == LevelsAt(front, w.pin, level);
    }
  }

  lemma {:induction false} PinField(v: word, pin: nat)
    ensures Field(v, pin, 1) != 0 <==> Bit(v, pin)
  {
    hide Field;
    var f := Field(v, pin, 1);
    if Bit(v, pin) {
      assert Bit(f, 0) && !Bit(0, 0);
    } else {
      ZeroBits(f);
    }
  }

  lemma {:induction false} PinDiffers(was: word, becomes: word, pin: nat)
    ensures Differs(was, becomes, pin, 1) <==> (Bit(was, pin) <==> !Bit(becomes, pin))
  {
    hide Bit, Field;
    if Bit(was, pin) <==> Bit(becomes, pin) {
      EqualField(was, becomes, pin, 1);
    } else {
      DifferingBit(was, becomes, pin, 1, pin);
    }
  }

  lemma {:induction false} NoLevels(pin: nat, level: Option<bool>)
    ensures LevelsAt([], pin, level) == []
  {
  }

  lemma {:induction false} LevelsAppend(visits: seq<Visit>, v: Visit, pin: nat, level: Option<bool>)
    ensures LevelsAt(visits + [v], pin, level)
            == if v.pin == pin then LevelsAt(visits, pin, level) + [LevelOf(v, level)] else LevelsAt(visits, pin, level)
  {
    assert (visits + [v])[..|visits + [v]| - 1] == visits;
  }

  lemma {:induction false} ChangesAppend(was: word, becomes: word, n: nat)
    ensures ChangesBelow(was, becomes, 1, n + 1)
            == if Differs(was, becomes, n, 1) then ChangesBelow(was, becomes, 1, n) + [Visit(n, Field(becomes, n, 1))]
               else ChangesBelow(was, becomes, 1, n)
  {
    hide Field, Differs;
  }

  /** A pin is visited once if its bit changes, and not otherwise. */
  lemma {:induction false} ChangeLevels(was: word, becomes: word, n: nat, pin: nat, level: Option<bool>)
    ensures LevelsAt(ChangesBelow(was, becomes, 1, n), pin, level)
            == if pin < n && (Bit(was, pin) <==> !Bit(becomes, pin))
               then [if level.Some? then level.value else Bit(becomes, pin)]
               else []
  {
    hide Bit, Field, Differs, ChangesBelow, LevelsAt;
    if n == 0 {
      NothingBelow(was, becomes, 1);
      NoLevels(pin, level);
    } else {
      ChangeLevels(was, becomes, n - 1, pin, level);
      ChangesAppend(was, becomes, n - 1);
      LevelsAppend(ChangesBelow(was, becomes, 1, n - 1), Visit(n - 1, Field(becomes, n - 1, 1)), pin, level);
      if pin == n - 1 {
        PinDiffers(was, becomes, pin);
        PinField(becomes, pin);
      }
    }
  }

  // ---- Agreement ----

  function Logged(e: Ecu, name: string): int {
    if name in e.link.outputs then e.link.outputs[name] else 0
  }

  /** The logged level of a watched pin is its output bit. */
  ghost predicate PinAgrees(s: Outputs, w: Watcher)
    requires w.port < |s.od|
  {
    Logged(s.ecu, w.name) == LevelValue(Bit(s.od[w.port], w.pin))
  }

  /** Nobody but the pin itself has set the known value. */
  ghost predicate Untouched(s: Outputs, w: Watcher) {
    Track(s.ecu, w.name).0 == Track(s.ecu, w.name).1
  }

  lemma {:induction false} OneReport(t: Tracked, level: bool)
    ensures AfterReports(t, [level])
            == (Some(LevelValue(level)), if t.0 == Some(LevelValue(level)) then t.1 else Some(LevelValue(level)))
    ensures AfterReports(t, []) == t
  {
    assert [level][..0] == [];
    assert AfterReports(t, []) == t;
  }

  /** After an ODR write a watched pin agrees exactly when its bit did not change
      or the new level was not already its known value. */
  lemma {:induction false} OdrAgreesIff(s: Outputs, ws: seq<Watcher>, known: set<string>, port: nat, value: word,
                                        stamp: Stamp, w: Watcher)
    requires |s.od| == NUM_PORTS && ValidWatchers(ws) && w in ws && port < NUM_PORTS && PinAgrees(s, w)
    ensures var (t, level) := (Step(s, ws, known, WriteOdr(port, value, stamp)), LevelValue(Bit(value, w.pin)));
            && (PinAgrees(t, w)
                <==> (w.port != port || (Bit(s.od[port], w.pin) <==> Bit(value, w.pin))
                      || Get(s.ecu.values, w.name) != Some(level)))
            && (Untouched(s, w) ==> Untouched(t, w) && PinAgrees(t, w))
  {
    var was := s.od[port];
    assert Changes(was, value, 1) == ChangesBelow(was, value, 1, 17);
    hide Bit, Changes, WriteVisits, AfterReports;
    VisitsTrack(s.ecu, ws, port, Changes(was, value, 1), None, stamp, w);
    ChangeLevels(was, value, 17, w.pin, None);
    OneReport(Track(s.ecu, w.name), Bit(value, w.pin));
  }

  lemma {:induction false} BsrrTracks(e: Ecu, ws: seq<Watcher>, port: nat, value: word, stamp: Stamp, w: Watcher)
    requires ValidWatchers(ws) && w in ws
    ensures Track(BsrrReports(e, ws, port, value, stamp), w.name)
            == if w.port != port then Track(e, w.name)
               else
                 var t := AfterReports(Track(e, w.name), if Bit(SetMask(value), w.pin) then [true] else []);
                 AfterReports(t, if Bit(ResetMask(value), w.pin) then [false] else [])
  {
    var (sets, reset) := (Changes(0, SetMask(value), 1), Changes(0, ResetMask(value), 1));
    assert sets == ChangesBelow(0, SetMask(value), 1, 17) && reset == ChangesBelow(0, ResetMask(value), 1, 17);
    hide Bit, Changes, WriteVisits, AfterReports, Track;
    var t := WriteVisits(e, ws, port, sets, Some(true), stamp);
    VisitsTrack(e, ws, port, sets, Some(true), stamp, w);
    VisitsTrack(t, ws, port, reset, Some(false), stamp, w);
    NoBit(w.pin);
    ChangeLevels(0, SetMask(value), 17, w.pin, Some(true));
    ChangeLevels(0, ResetMask(value), 17, w.pin, Some(false));
    OneReport(Track(e, w.name), true);
    OneReport(Track(t, w.name), true);
  }

  lemma {:induction false} NoBit(k: nat)
    ensures !Bit(0, k)
  {
  }

  /** A set and reset of the same pin leaves the register bit set but reports the
      reset last: after a BSRR write a watched pin agrees exactly when the two
      masks do not both name it. */
  lemma {:induction false} BsrrAgreesIff(s: Outputs, ws: seq<Watcher>, known: set<string>, port: nat, value: word,
                                         stamp: Stamp, w: Watcher)
    requires |s.od| == NUM_PORTS && ValidWatchers(ws) && w in ws && port < NUM_PORTS && PinAgrees(s, w)
             && Untouched(s, w)
    ensures var t := Step(s, ws, known, WriteBsrr(port, value, stamp));
            && (PinAgrees(t, w) <==> w.port != port || !(Bit(SetMask(value), w.pin) && Bit(ResetMask(value), w.pin)))
            && Untouched(t, w)
  {
    hide Bit, SetMask, ResetMask, BsrrReports, AfterReports;
    BsrrTracks(s.ecu, ws, port, value, stamp, w);
    var tracked := Track(s.ecu, w.name);
    OneReport(tracked, true);
    OneReport(tracked, false);
    OneReport(AfterReports(tracked, [true]), false);
  }

  /** BSRR masks do not overlap, and no inbound value names an output. */
  predicate Disciplined(ws: seq<Watcher>, e: Event) {
    match e
    case WriteBsrr(_, value, _) => forall k: nat :: k < 16 ==> !(Bit(SetMask(value), k) && Bit(ResetMask(value), k))
    case InboundValue(name, _) => forall w :: w in ws ==> w.name != name
    case _ => true
  }

  ghost predicate AllDisciplined(ws: seq<Watcher>, h: History) {
    match h
    case Nothing => true
    case After(before, e) => AllDisciplined(ws, before) && Disciplined(ws, e)
  }

  /** Over any run of ODR writes, BSRR writes with disjoint masks and inbound values
      for other names, each watched pin's logged level equals its output bit. */
  lemma {:induction false} LogFollowsPins(ws: seq<Watcher>, known: set<string>, h: History, w: Watcher)
    requires ValidWatchers(ws) && ValidHistory(h) && AllDisciplined(ws, h) && w in ws
    ensures PinAgrees(Run(ws, known, h), w) && Untouched(Run(ws, known, h), w)
  {
    hide Bit, Changes, WriteVisits, BsrrReports, OdAfterBsrr, SetMask, ResetMask;
    match h
    case Nothing => NoBit(w.pin);
    case After(before, e) =>
      LogFollowsPins(ws, known, before, w);
      var s := Run(ws, known, before);
      match e {
        case WriteOdr(port, value, stamp) => OdrAgreesIff(s, ws, known, port, value, stamp, w);
        case WriteBsrr(port, value, stamp) => BsrrAgreesIff(s, ws, known, port, value, stamp, w);
        case _ =>
      }
  }

  // ---- The log stays consistent ----

  lemma {:induction false} WritePortKeepsLog(e: Ecu, ws: seq<Watcher>, port: nat, pin: nat, level: bool, stamp: Stamp)
    requires LinkInv(e.link)
    ensures LinkInv(WritePort(e, ws, port, pin, level, stamp).link)
  {
    hide LinkInv, Publish;
    if ws != [] {
      var (t, w) := (WritePort(e, ws[..|ws| - 1], port, pin, level, stamp), ws[|ws| - 1]);
      WritePortKeepsLog(e, ws[..|ws| - 1], port, pin, level, stamp);
      PublishKeeps(t.link, w.name, LevelValue(level), stamp);
    }
  }

  lemma {:induction false} VisitsKeepLog(e: Ecu, ws: seq<Watcher>, port: nat, visits: seq<Visit>, level: Option<bool>,
                                         stamp: Stamp)
    requires LinkInv(e.link)
    ensures LinkInv(WriteVisits(e, ws, port, visits, level, stamp).link)
  {
    hide LinkInv, WritePort;
    if visits != [] {
      var (front, v) := (visits[..|visits| - 1], visits[|visits| - 1]);
      VisitsKeepLog(e, ws, port, front, level, stamp);
      WritePortKeepsLog(WriteVisits(e, ws, port, front, level, stamp), ws, port, v.pin, LevelOf(v, level), stamp);
    }
  }

  /** Over any run of port writes, disciplined or not, the event log keeps
      consecutive sequence numbers and chained values. */
  lemma {:induction false} PortWritesKeepLog(ws: seq<Watcher>, known: set<string>, h: History)
    requires ValidHistory(h)
    ensures LinkInv(Run(ws, known, h).ecu.link)
  {
    hide LinkInv, WriteVisits, Changes, OdAfterBsrr;
    match h
    case Nothing => StartsEmpty(NewLink());
    case After(before, e) =>
      PortWritesKeepLog(ws, known, before);
      var s := Run(ws, known, before);
      match e {
        case WriteOdr(port, value, stamp) => VisitsKeepLog(s.ecu, ws, port, Changes(s.od[port], value, 1), None, stamp);
        case WriteBsrr(port, value, stamp) =>
          var sets := Changes(0, SetMask(value), 1);
          VisitsKeepLog(s.ecu, ws, port, sets, Some(true), stamp);
          VisitsKeepLog(WriteVisits(s.ecu, ws, port, sets, Some(true), stamp), ws, port,
                        Changes(0, ResetMask(value), 1), Some(false), stamp);
        case HostTakesEvents => OutputLog.StepKeeps(s.ecu.link, OutputLog.HostTakes);
        case InboundValue(_, _) =>
      }
  }

  // ---- Callbacks ----

  /** A callback on a pin: an output or input of the ECU device, or a line of another
      device. */
  datatype Callback =
    | EcuPin(port: nat, pin: nat, name: string)
    | LinePin(port: nat, pin: nat, id: nat)

  predicate On(c: Callback, port: nat, pin: nat) {
    c.port == port && c.pin == pin
  }

  function WatchersOf(cs: seq<Callback>): seq<Watcher> {
    if cs == [] then []
    else
      var c := cs[|cs| - 1];
      WatchersOf(cs[..|cs| - 1]) + if c.EcuPin? then [Watcher(c.port, c.pin, c.name)] else []
  }

  /** The calls other devices get when a pin is written, in order. */
  function LineCalls(cs: seq<Callback>, port: nat, pin: nat, level: bool): seq<(nat, bool)> {
    if cs == [] then []
    else
      var c := cs[|cs| - 1];
      LineCalls(cs[..|cs| - 1], port, pin, level) + if c.LinePin? && On(c, port, pin) then [(c.id, level)] else []
  }

  function VisitCalls(cs: seq<Callback>, port: nat, visits: seq<Visit>, level: Option<bool>): seq<(nat, bool)> {
    if visits == [] then []
    else
      var v := visits[|visits| - 1];
      VisitCalls(cs, port, visits[..|visits| - 1], level) + LineCalls(cs, port, v.pin, LevelOf(v, level))
  }

  function BsrrCalls(cs: seq<Callback>, port: nat, value: word): seq<(nat, bool)> {
    VisitCalls(cs, port, Changes(0, SetMask(value), 1), Some(true))
    + VisitCalls(cs, port, Changes(0, ResetMask(value), 1), Some(false))
  }

  predicate ValidPins(cs: seq<Callback>) {
    forall i :: 0 <= i < |cs| ==> cs[i].port < NUM_PORTS && cs[i].pin < 16
  }

  lemma {:induction false} NextCallback(e: Ecu, cs: seq<Callback>, i: nat, port: nat, pin: nat, level: bool,
                                        stamp: Stamp)
    requires i < |cs|
    ensures WritePort(e, WatchersOf(cs[..i + 1]), port, pin, level, stamp)
            == if cs[i].EcuPin? && On(cs[i], port, pin)
               then Report(WritePort(e, WatchersOf(cs[..i]), port, pin, level, stamp), cs[i].name, level, stamp)
               else WritePort(e, WatchersOf(cs[..i]), port, pin, level, stamp)
    ensures LineCalls(cs[..i + 1], port, pin, level)
            == LineCalls(cs[..i], port, pin, level)
               + if cs[i].LinePin? && On(cs[i], port, pin) then [(cs[i].id, level)] else []
  {
    hide Report;
    var more := cs[..i + 1];
    assert more[..|more| - 1] == cs[..i] && more[|more| - 1] == cs[i];
    if cs[i].EcuPin? {
      var ws := WatchersOf(cs[..i]) + [Watcher(cs[i].port, cs[i].pin, cs[i].name)];
      assert WatchersOf(more) == ws && ws[..|ws| - 1] == WatchersOf(cs[..i]);
    } else {
      assert WatchersOf(more) == WatchersOf(cs[..i]);
    }
  }

  lemma {:induction false} NextVisited(e: Ecu, cs: seq<Callback>, port: nat, visits: seq<Visit>, i: nat,
                                       level: Option<bool>, stamp: Stamp)
    requires i < |visits|
    ensures var (v, ws) := (visits[i], WatchersOf(cs));
            && WriteVisits(e, ws, port, visits[..i + 1], level, stamp)
               == WritePort(WriteVisits(e, ws, port, visits[..i], level, stamp), ws, port, v.pin, LevelOf(v, level),
                            stamp)
            && VisitCalls(cs, port, visits[..i + 1], level)
               == VisitCalls(cs, port, visits[..i], level) + LineCalls(cs, port, v.pin, LevelOf(v, level))
  {
    hide WritePort, LineCalls;
    assert visits[..i + 1][..i] == visits[..i];
  }

  // ---- The objects ----

  class GpioPorts {
    const ecu: EcuIo
    const writeCallbacks: seq<Callback>
    const readCallbacks: seq<Callback>
    var lineCalls: seq<(nat, bool)> // what the other devices have been called with

    ghost predicate Valid() {
      ecu.embedded != null && ValidPins(writeCallbacks) && ValidPins(readCallbacks)
    }

    ghost function Watchers(): seq<Watcher> {
      WatchersOf(writeCallbacks)
    }

    constructor (ecu: EcuIo, writeCallbacks: seq<Callback>, readCallbacks: seq<Callback>)
      ensures this.ecu == ecu && this.writeCallbacks == writeCallbacks && this.readCallbacks == readCallbacks
      ensures lineCalls == []
    {
      this.ecu, this.writeCallbacks, this.readCallbacks, lineCalls := ecu, writeCallbacks, readCallbacks, [];
    }

    /** Calls back everything on the pin, in order of registration. */
    method WritePin(port: nat, pin: nat, level: bool, stamp: Stamp)
      requires Valid()
      modifies `lineCalls, ecu`values, ecu`outgoing, ecu.embedded
      ensures ecu.State() == WritePort(old(ecu.State()), Watchers(), port, pin, level, stamp)
      ensures lineCalls == old(lineCalls) + LineCalls(writeCallbacks, port, pin, level)
    {
      hide Report, WritePort, WatchersOf, LineCalls;
      ghost var e := ecu.State();
      NoCallback(e, port, pin, level, stamp);
      ghost var calls: seq<(nat, bool)> := [];
      for i := 0 to |writeCallbacks|
        invariant ecu.State() == WritePort(e, WatchersOf(writeCallbacks[..i]), port, pin, level, stamp)
        invariant calls == LineCalls(writeCallbacks[..i], port, pin, level)
        invariant lineCalls == old(lineCalls) + calls
      {
        NextCallback(e, writeCallbacks, i, port, pin, level, stamp);
        var c := writeCallbacks[i];
        if On(c, port, pin) {
          match c {
            case EcuPin(_, _, name) => ecu.ReportOutput(name, level, stamp);
            case LinePin(_, _, id) =>
              lineCalls := lineCalls + [(id, level)];
              calls := calls + [(id, level)];
          }
        }
      }
      assert writeCallbacks[..|writeCallbacks|] == writeCallbacks;
    }

    static lemma {:induction false} NoCallback(e: Ecu, port: nat, pin: nat, level: bool, stamp: Stamp)
      ensures WritePort(e, WatchersOf([]), port, pin, level, stamp) == e && LineCalls([], port, pin, level) == []
    {
    }

    /** Bit by bit, whether a callback of the pin answers high: an input of the ECU device,
        or a line of another device, whose level is a parameter. */
    method ReadPort(port: nat, lines: nat -> bool) returns (v: nat)
      requires Valid()
      ensures forall k: nat :: Bit(v, k) <==> PinHigh(readCallbacks, port, k, ecu.values, lines)
    {
      hide Bit, PinHigh;
      v := 0;
      NoBits();
      NoneHigh(ecu.values, lines);
      for i := 0 to |readCallbacks|
        invariant forall k: nat :: Bit(v, k) <==> PinHigh(readCallbacks[..i], port, k, ecu.values, lines)
      {
        var c := readCallbacks[i];
        NextHigh(readCallbacks, i, ecu.values, lines);
        if c.port == port {
          var level: bool;
          match c {
            case EcuPin(_, _, name) => level := ecu.DigitalLevel(name);
            case LinePin(_, _, id) => level := lines(id);
          }
          if level {
            v := SetBit(v, c.pin);
          }
        }
      }
      assert readCallbacks[..|readCallbacks|] == readCallbacks;
    }
  }

  /** Some callback of the pin answers high. */
  predicate PinHigh(cs: seq<Callback>, port: nat, pin: nat, values: map<string, int>, lines: nat -> bool) {
    exists i :: 0 <= i < |cs| && On(cs[i], port, pin) && Answers(cs[i], values, lines)
  }

  lemma {:induction false} NoneHigh(values: map<string, int>, lines: nat -> bool)
    ensures forall port: nat, pin: nat :: !PinHigh([], port, pin, values, lines)
  {
  }

  lemma {:induction false} NextHigh(cs: seq<Callback>, i: nat, values: map<string, int>, lines: nat -> bool)
    requires i < |cs|
    ensures forall port: nat, pin: nat ::
              PinHigh(cs[..i + 1], port, pin, values, lines)
              <==> PinHigh(cs[..i], port, pin, values, lines) || (On(cs[i], port, pin) && Answers(cs[i], values, lines))
  {
    var more := cs[..i + 1];
    assert more[..i] == cs[..i] && more[i] == cs[i];
    assert forall j :: 0 <= j < i ==> more[j] == cs[..i][j];
  }

  predicate Answers(c: Callback, values: map<string, int>, lines: nat -> bool) {
    match c
    case EcuPin(_, _, name) => name in values && values[name] != 0
    case LinePin(_, _, id) => lines(id)
  }

  lemma {:induction false} NoBits()
    ensures forall k: nat :: !Bit(0, k)
  {
  }

  class Gpio {
    const port: nat
    const ports: GpioPorts
    var od: word

    constructor (port: nat, ports: GpioPorts)
      ensures this.port == port && this.ports == ports && od == 0
    {
      this.port, this.ports, od := port, ports, 0;
    }

    /** Calls back each visited pin in turn. */
    method WriteVisited(visits: seq<Visit>, level: Option<bool>, stamp: Stamp)
      requires ports.Valid()
      modifies ports`lineCalls, ports.ecu`values, ports.ecu`outgoing, ports.ecu.embedded
      ensures ports.ecu.State() == WriteVisits(old(ports.ecu.State()), ports.Watchers(), port, visits, level, stamp)
      ensures ports.lineCalls == old(ports.lineCalls) + VisitCalls(ports.writeCallbacks, port, visits, level)
    {
      hide WritePort, WatchersOf, LineCalls;
      ghost var e := ports.ecu.State();
      ghost var calls: seq<(nat, bool)> := [];
      for i := 0 to |visits|
        invariant ports.ecu.State() == WriteVisits(e, ports.Watchers(), port, visits[..i], level, stamp)
        invariant calls == VisitCalls(ports.writeCallbacks, port, visits[..i], level)
        invariant ports.lineCalls == old(ports.lineCalls) + calls
      {
        NextVisited(e, ports.writeCallbacks, port, visits, i, level, stamp);
        var v := visits[i];
        calls := calls + LineCalls(ports.writeCallbacks, port, v.pin, LevelOf(v, level));
        ports.WritePin(port, v.pin, LevelOf(v, level), stamp);
      }
      assert visits[..|visits|] == visits;
    }

    method WriteOutputs(value: word, stamp: Stamp)
      requires ports.Valid()
      modifies `od, ports`lineCalls, ports.ecu`values, ports.ecu`outgoing, ports.ecu.embedded
      ensures od == value
      ensures ports.ecu.State() == WriteVisits(old(ports.ecu.State()), ports.Watchers(), port,
                                               Changes(old(od), value, 1), None, stamp)
      ensures ports.lineCalls == old(ports.lineCalls)
                + VisitCalls(ports.writeCallbacks, port, Changes(old(od), value, 1), None)
    {
      var visits := IterPortRegChanges(od, value, 1);
      WriteVisited(visits, None, stamp);
      od := value;
    }

    method WriteSetReset(value: word, stamp: Stamp)
      requires ports.Valid()
      modifies `od, ports`lineCalls, ports.ecu`values, ports.ecu`outgoing, ports.ecu.embedded
      ensures od == OdAfterBsrr(old(od), value)
      ensures ports.ecu.State() == BsrrReports(old(ports.ecu.State()), ports.Watchers(), port, value, stamp)
      ensures ports.lineCalls == old(ports.lineCalls) + BsrrCalls(ports.writeCallbacks, port, value)
    {
      hide Changes, WriteVisits, VisitCalls, Bit, Or, AndNot;
      var reset := value / 0x1_0000;
      var sets := value % 0x1_0000;
      var visits := IterPortRegChanges(0, sets, 1);
      WriteVisited(visits, Some(true), stamp);
      visits := IterPortRegChanges(0, reset, 1);
      WriteVisited(visits, Some(false), stamp);
      od := OdAfterBsrr(od, value);
    }
  }
}
