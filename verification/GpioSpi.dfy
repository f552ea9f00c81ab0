/** Bit-banged SPI through the port registers: what BSRR writes do to the software SPI
    wired to three output pins, what an input pin reads back, and so how firmware and the
    device behind it talk. */
module GpioSpi {
  import opened Bits
  import opened Gpio
  import SwSpi

  /** The callbacks of the peripheral: chip select, clock and MOSI, and MISO to read. */
  const CS: nat := 0
  const CLK: nat := 1
  const MOSI: nat := 2
  const MISO: nat := 3

  function PinEvent(id: nat, level: bool): Option<SwSpi.Event> {
    if id == CS then Some(SwSpi.WriteCs(level))
    else if id == CLK then Some(SwSpi.WriteClk(level))
    else if id == MOSI then Some(SwSpi.WriteMosi(level))
    else None
  }

  /** The peripheral's pin writes among the calls to other devices. */
  function AfterCalls(h: SwSpi.History, calls: seq<(nat, bool)>): SwSpi.History {
    if calls == [] then h
    else
      var (before, (id, level)) := (AfterCalls(h, calls[..|calls| - 1]), calls[|calls| - 1]);
      match PinEvent(id, level)
      case Some(e) => SwSpi.After(before, e)
      case None => before
  }

  // ---- Wiring ----

  /** The pins of the peripheral, as port and number. */
  datatype Pins = Pins(cs: (nat, nat), clk: (nat, nat), mosi: (nat, nat))

  function PinOf(p: Pins, id: nat): (nat, nat) {
    if id == CS then p.cs else if id == CLK then p.clk else p.mosi
  }

  /** A callback that writes to the peripheral. */
  predicate IsSpi(c: Callback) {
    c.LinePin? && c.id <= MOSI
  }

  /** Each line is wired once, to its pin. Other callbacks may be anywhere. */
  ghost predicate Wired(cs: seq<Callback>, p: Pins) {
    && (forall id :: 0 <= id <= MOSI ==> LinePin(PinOf(p, id).0, PinOf(p, id).1, id) in cs)
    && (forall i :: 0 <= i < |cs| && IsSpi(cs[i]) ==> On(cs[i], PinOf(p, cs[i].id).0, PinOf(p, cs[i].id).1))
    && (forall i, j :: 0 <= i < j < |cs| && IsSpi(cs[i]) && IsSpi(cs[j]) ==> cs[i].id != cs[j].id)
  }

  // ---- One write ----

  lemma {:induction false} CallsAppend(h: SwSpi.History, a: seq<(nat, bool)>, b: seq<(nat, bool)>)
    ensures AfterCalls(h, a + b) == AfterCalls(AfterCalls(h, a), b)
    decreases |b|
  {
    if b == [] {
      assert a + b == a;
    } else {
      CallsAppend(h, a, b[..|b| - 1]);
      assert (a + b)[..|a + b| - 1] == a + b[..|b| - 1];
    }
  }

  /** A write to a pin without lines of the peripheral leaves it alone. */
  lemma {:induction false} ForeignPin(h: SwSpi.History, cs: seq<Callback>, port: nat, pin: nat, level: bool)
    requires forall i :: 0 <= i < |cs| && IsSpi(cs[i]) ==> !On(cs[i], port, pin)
    ensures AfterCalls(h, LineCalls(cs, port, pin, level)) == h
  {
    if cs != [] {
      var (front, c) := (cs[..|cs| - 1], cs[|cs| - 1]);
      ForeignPin(h, front, port, pin, level);
      LastCall(h, cs, port, pin, level);
    }
  }

  lemma {:induction false} LastCall(h: SwSpi.History, cs: seq<Callback>, port: nat, pin: nat, level: bool)
    requires cs != []
    ensures var (c, before) := (cs[|cs| - 1], AfterCalls(h, LineCalls(cs[..|cs| - 1], port, pin, level)));
            AfterCalls(h, LineCalls(cs, port, pin, level))
            == if IsSpi(c) && On(c, port, pin) then SwSpi.After(before, PinEvent(c.id, level).value) else before
  {
    var (c, calls) := (cs[|cs| - 1], LineCalls(cs[..|cs| - 1], port, pin, level));
    if c.LinePin? && On(c, port, pin) {
      assert (calls + [(c.id, level)])[..|calls|] == calls;
    } else {
      assert calls + [] == calls;
    }
  }

  /** A write to a pin with one line of it is one event. */
  lemma {:induction false} OwnPin(h: SwSpi.History, cs: seq<Callback>, port: nat, pin: nat, id: nat, level: bool)
    requires id <= MOSI && LinePin(port, pin, id) in cs
    requires forall i :: 0 <= i < |cs| && IsSpi(cs[i]) && On(cs[i], port, pin) ==> cs[i].id == id
    requires forall i, j :: 0 <= i < j < |cs| && IsSpi(cs[i]) && IsSpi(cs[j]) ==> cs[i].id != cs[j].id
    ensures AfterCalls(h, LineCalls(cs, port, pin, level)) == SwSpi.After(h, PinEvent(id, level).value)
  {
    var (front, c) := (cs[..|cs| - 1], cs[|cs| - 1]);
    LastCall(h, cs, port, pin, level);
    if IsSpi(c) && On(c, port, pin) {
      ForeignPin(h, front, port, pin, level);
    } else {
      OwnPin(h, front, port, pin, id, level);
    }
  }

  /** The pins of a mask, visited in order, when at most one of them has a line. */
  lemma {:induction false} MaskEvents(h: SwSpi.History, cs: seq<Callback>, p: Pins, port: nat, mask: word, n: nat,
                                      id: nat, level: bool)
    requires Wired(cs, p) && id <= MOSI && PinOf(p, id).0 == port
    requires forall other :: 0 <= other <= MOSI && other != id && PinOf(p, other).0 == port ==>
               !Bit(mask, PinOf(p, other).1)
    ensures AfterCalls(h, VisitCalls(cs, port, ChangesBelow(0, mask, 1, n), Some(level)))
            == if PinOf(p, id).1 < n && Bit(mask, PinOf(p, id).1) then SwSpi.After(h, PinEvent(id, level).value) else h
  {
    hide Bit, Field, LineCalls, AfterCalls, PinEvent, PinOf, VisitCalls, ChangesBelow;
    if n == 0 {
      NothingBelow(0, mask, 1);
      NoVisits(h, cs, port, level);
    } else {
      MaskEvents(h, cs, p, port, mask, n - 1, id, level);
      var visits := ChangesBelow(0, mask, 1, n - 1);
      ChangesAppend(0, mask, n - 1);
      PinDiffers(0, mask, n - 1);
      NoBit(n - 1);
      if Bit(mask, n - 1) {
        LastVisit(h, cs, port, visits, Visit(n - 1, Field(mask, n - 1, 1)), level);
        PinCalls(AfterCalls(h, VisitCalls(cs, port, visits, Some(level))), cs, p, port, n - 1, id, level);
      }
    }
  }

  lemma {:induction false} NoVisits(h: SwSpi.History, cs: seq<Callback>, port: nat, level: bool)
    ensures AfterCalls(h, VisitCalls(cs, port, [], Some(level))) == h
  {
  }

  lemma {:induction false} LastVisit(h: SwSpi.History, cs: seq<Callback>, port: nat, visits: seq<Visit>, v: Visit,
                                     level: bool)
    ensures AfterCalls(h, VisitCalls(cs, port, visits + [v], Some(level)))
            == AfterCalls(AfterCalls(h, VisitCalls(cs, port, visits, Some(level))), LineCalls(cs, port, v.pin, level))
  {
    hide AfterCalls, LineCalls;
    assert (visits + [v])[..|visits|] == visits;
    CallsAppend(h, VisitCalls(cs, port, visits, Some(level)), LineCalls(cs, port, v.pin, level));
  }

  /** A visited pin on which at most line `id` lies. */
  lemma {:induction false} PinCalls(h: SwSpi.History, cs: seq<Callback>, p: Pins, port: nat, pin: nat, id: nat,
                                    level: bool)
    requires Wired(cs, p) && id <= MOSI
    requires forall other :: 0 <= other <= MOSI && other != id ==> PinOf(p, other) != (port, pin)
    ensures AfterCalls(h, LineCalls(cs, port, pin, level))
            == if PinOf(p, id) == (port, pin) then SwSpi.After(h, PinEvent(id, level).value) else h
  {
    hide AfterCalls, LineCalls, PinEvent, PinOf;
    if PinOf(p, id) == (port, pin) {
      OwnPin(h, cs, port, pin, id, level);
    } else {
      ForeignPin(h, cs, port, pin, level);
    }
  }

  /** A BSRR write: the port and the value. */
  type PortWrite = (nat, word)

  /** It moves one line to a level and leaves the other two alone, whatever it does to
      pins without one. */
  ghost predicate Drives(w: PortWrite, p: Pins, id: nat, level: bool) {
    var (sets, resets, pin) := (SetMask(w.1), ResetMask(w.1), PinOf(p, id));
    && w.0 == pin.0 && pin.1 < 16
    && Bit(sets, pin.1) == level && Bit(resets, pin.1) == !level
    && (forall other :: 0 <= other <= MOSI && other != id && PinOf(p, other).0 == w.0 ==>
          !Bit(sets, PinOf(p, other).1) && !Bit(resets, PinOf(p, other).1))
  }

  /** Such a write is one event of the peripheral. */
  lemma {:induction false} DriveIsEvent(h: SwSpi.History, cs: seq<Callback>, p: Pins, w: PortWrite, id: nat,
                                        level: bool)
    requires Wired(cs, p) && id <= MOSI && Drives(w, p, id, level)
    ensures AfterCalls(h, BsrrCalls(cs, w.0, w.1)) == SwSpi.After(h, PinEvent(id, level).value)
  {
    var (sets, resets) := (SetMask(w.1), ResetMask(w.1));
    assert Changes(0, sets, 1) == ChangesBelow(0, sets, 1, 17)
           && Changes(0, resets, 1) == ChangesBelow(0, resets, 1, 17);
    hide Bit, AfterCalls, VisitCalls, ChangesBelow, Changes, PinEvent, PinOf, Wired, SetMask, ResetMask;
    MaskEvents(h, cs, p, w.0, sets, 17, id, true);
    var t := AfterCalls(h, VisitCalls(cs, w.0, ChangesBelow(0, sets, 1, 17), Some(true)));
    MaskEvents(t, cs, p, w.0, resets, 17, id, false);
    CallsAppend(h, VisitCalls(cs, w.0, Changes(0, sets, 1), Some(true)),
                VisitCalls(cs, w.0, Changes(0, resets, 1), Some(false)));
  }

  // ---- A driver ----

  function CallsOf(cs: seq<Callback>, writes: seq<PortWrite>): seq<(nat, bool)> {
    if writes == [] then []
    else
      var w := writes[|writes| - 1];
      CallsOf(cs, writes[..|writes| - 1]) + BsrrCalls(cs, w.0, w.1)
  }

  /** The peripheral after firmware's writes. */
  function AfterWrites(h: SwSpi.History, cs: seq<Callback>, writes: seq<PortWrite>): SwSpi.History {
    AfterCalls(h, CallsOf(cs, writes))
  }

  /** MOSI, then a clock pulse, for each bit. */
  ghost predicate Bangs(writes: seq<PortWrite>, p: Pins, bits: seq<bool>) {
    && |writes| == 3 * |bits|
    && forall n {:trigger bits[n]} :: 0 <= n < |bits| ==>
         && Drives(writes[3 * n], p, MOSI, bits[n])
         && Drives(writes[3 * n + 1], p, CLK, true)
         && Drives(writes[3 * n + 2], p, CLK, false)
  }

  lemma {:induction false} NoWrites(h: SwSpi.History, cs: seq<Callback>)
    ensures AfterWrites(h, cs, []) == h
  {
  }

  lemma {:induction false} OneWrite(h: SwSpi.History, cs: seq<Callback>, p: Pins, writes: seq<PortWrite>, w: PortWrite,
                                    id: nat, level: bool)
    requires Wired(cs, p) && id <= MOSI && Drives(w, p, id, level)
    ensures AfterWrites(h, cs, writes + [w]) == SwSpi.After(AfterWrites(h, cs, writes), PinEvent(id, level).value)
  {
    hide Wired, Drives, AfterCalls, BsrrCalls, PinEvent;
    assert (writes + [w])[..|writes|] == writes;
    CallsAppend(h, CallsOf(cs, writes), BsrrCalls(cs, w.0, w.1));
    DriveIsEvent(AfterWrites(h, cs, writes), cs, p, w, id, level);
  }

  /** Such writes are the driver's pin writes, after a select and `k` bits. */
  lemma {:induction false} BangsAreBits(h: SwSpi.History, cs: seq<Callback>, p: Pins, select: PortWrite,
                                        writes: seq<PortWrite>, bits: seq<bool>, k: nat)
    requires Wired(cs, p) && Drives(select, p, CS, false) && Bangs(writes, p, bits) && k <= |bits|
    ensures AfterWrites(h, cs, [select] + writes[..3 * k])
            == SwSpi.BangBits(SwSpi.After(h, SwSpi.WriteCs(false)), bits[..k])
    decreases k
  {
    hide Wired, Drives, AfterWrites;
    if k == 0 {
      NoWrites(h, cs);
      OneWrite(h, cs, p, [], select, CS, false);
      assert [] + [select] == [select] && [select] + writes[..0] == [select] && bits[..0] == [];
    } else {
      var n := k - 1;
      BangsAreBits(h, cs, p, select, writes, bits, n);
      RiseReached(h, cs, p, select, writes, bits, n);
      var before := [select] + writes[..3 * n + 2];
      assert bits[n] == bits[n];
      OneWrite(h, cs, p, before, writes[3 * n + 2], CLK, false);
      assert before + [writes[3 * n + 2]] == [select] + writes[..3 * k];
      assert bits[..k][..n] == bits[..n];
    }
  }

  /** The clock rise of bit `n`. */
  lemma {:induction false} RiseReached(h: SwSpi.History, cs: seq<Callback>, p: Pins, select: PortWrite,
                                       writes: seq<PortWrite>, bits: seq<bool>, n: nat)
    requires Wired(cs, p) && Bangs(writes, p, bits) && n < |bits|
    requires AfterWrites(h, cs, [select] + writes[..3 * n])
             == SwSpi.BangBits(SwSpi.After(h, SwSpi.WriteCs(false)), bits[..n])
    ensures AfterWrites(h, cs, [select] + writes[..3 * n + 2])
            == SwSpi.RiseOf(SwSpi.After(h, SwSpi.WriteCs(false)), bits, n)
  {
    hide Wired, Drives, AfterWrites, SwSpi.BangBits;
    assert bits[n] == bits[n];
    var before := [select] + writes[..3 * n];
    OneWrite(h, cs, p, before, writes[3 * n], MOSI, bits[n]);
    OneWrite(h, cs, p, before + [writes[3 * n]], writes[3 * n + 1], CLK, true);
    assert before + [writes[3 * n]] + [writes[3 * n + 1]] == [select] + writes[..3 * n + 2];
  }

  /** End to end: firmware that selects the device and bangs out bytes with BSRR writes,
      on any pins of any ports, gets exactly those bytes to the device. */
  lemma {:induction false} PortWritesDeliver(h: SwSpi.History, cs: seq<Callback>, p: Pins, select: PortWrite,
                                             writes: seq<PortWrite>, data: seq<byte>, device: SwSpi.Device)
    requires Wired(cs, p) && SwSpi.CsHigh(h)
    requires Drives(select, p, CS, false) && Bangs(writes, p, SwSpi.BitsOf(data))
    ensures SwSpi.Run(AfterWrites(h, cs, [select] + writes), device).exchanged == SwSpi.Run(h, device).exchanged + data
  {
    hide Wired, Drives, AfterWrites, SwSpi.Run, SwSpi.BitsOf, SwSpi.BangBits;
    var bits := SwSpi.BitsOf(data);
    BangsAreBits(h, cs, p, select, writes, bits, |bits|);
    assert writes[..3 * |bits|] == writes && bits[..|bits|] == bits;
    SwSpi.TransferDelivers(h, data, device);
  }

  // ---- Reading back ----

  /** MISO is all there is to read on its pin. */
  ghost predicate WiredMiso(rs: seq<Callback>, miso: (nat, nat)) {
    && LinePin(miso.0, miso.1, MISO) in rs
    && forall i :: 0 <= i < |rs| && On(rs[i], miso.0, miso.1) ==> rs[i] == LinePin(miso.0, miso.1, MISO)
  }

  lemma {:induction false} MisoIsRead(rs: seq<Callback>, miso: (nat, nat), values: map<string, int>, lines: nat -> bool)
    requires WiredMiso(rs, miso)
    ensures PinHigh(rs, miso.0, miso.1, values, lines) == lines(MISO)
  {
    var i :| 0 <= i < |rs| && rs[i] == LinePin(miso.0, miso.1, MISO);
    assert On(rs[i], miso.0, miso.1);
  }

  /** Full duplex through the ports: an input read after the clock rise of bit `n` shows on
      the MISO pin that bit of the replies, which come one byte behind. `lines` are the
      levels of the other devices' lines at that moment. */
  lemma {:induction false} PortReadsReturnReplies(h: SwSpi.History, cs: seq<Callback>, rs: seq<Callback>, p: Pins,
                                                  miso: (nat, nat), select: PortWrite, writes: seq<PortWrite>,
                                                  data: seq<byte>, device: SwSpi.Device, n: nat,
                                                  values: map<string, int>, lines: nat -> bool)
    requires Wired(cs, p) && WiredMiso(rs, miso) && SwSpi.CsHigh(h) && n < 8 * |data|
    requires Drives(select, p, CS, false) && Bangs(writes, p, SwSpi.BitsOf(data))
    requires lines(MISO) == SwSpi.Miso(SwSpi.Run(AfterWrites(h, cs, [select] + writes[..3 * n + 2]), device))
    ensures PinHigh(rs, miso.0, miso.1, values, lines)
            == SwSpi.BitsOf(SwSpi.RepliesBehind(SwSpi.Run(h, device).exchanged, data, device))[n]
  {
    hide Wired, Drives, AfterWrites, WiredMiso, PinHigh, SwSpi.Run, SwSpi.BitsOf, SwSpi.BangBits, SwSpi.RiseOf,
         SwSpi.Miso;
    var bits := SwSpi.BitsOf(data);
    BangsAreBits(h, cs, p, select, writes, bits, n);
    RiseReached(h, cs, p, select, writes, bits, n);
    SwSpi.ReadBit(h, data, device, n);
    SwSpi.BitsOfAt(SwSpi.RepliesBehind(SwSpi.Run(h, device).exchanged, data, device), n);
    MisoIsRead(rs, miso, values, lines);
  }
}
