/** The bit-banged SPI peripheral: a shift-register machine driven by pin writes,
    and its refinement to an exchange of whole bytes. */
module SwSpi {
  import opened Bits

  /** A firmware pin write reaching the peripheral. */
  datatype Event = WriteCs(level: bool) | WriteClk(level: bool) | WriteMosi(level: bool)

  /** Pin writes so far, the latest outermost. */
  datatype History = Nothing | After(earlier: History, last: Event)

  /** `exchanged`: the bytes handed to the device so far. */
  datatype Spi = Spi(dataMosi: byte, dataMiso: byte, bitIndex: nat, cs: bool, clk: bool, mosi: bool, miso: bool,
                     exchanged: seq<byte>)

  /** What the device answers, given every byte it has received. */
  type Device = seq<byte> -> byte

  function PowerOn(): Spi {
    Spi(0, 0, 0, false, false, false, false, [])
  }

  // ---- The shift registers ----

  /** `v << 1` on an 8-bit register. */
  function ShiftLeft(v: byte): (r: byte)
    ensures forall j: nat :: Bit(r, j) <==> 1 <= j < 8 && Bit(v, j - 1)
  {
    assert Pow2(8) == 0x100;
    Low(Shl(v, 1), 8)
  }

  function ShiftIn(v: byte, bit: bool): (r: byte)
    ensures forall j: nat :: Bit(r, j) <==> if j == 0 then bit else j < 8 && Bit(v, j - 1)
  {
    assert Pow2(8) == 0x100;
    if bit
    then
      FitsWidth(SetBit(ShiftLeft(v), 0), 8);
      SetBit(ShiftLeft(v), 0)
    else ShiftLeft(v)
  }

  function ChipSelect(s: Spi, level: bool): Spi {
    if s.cs && !level
    then PowerOn().(exchanged := s.exchanged)
    else s.(cs := level)
  }

  function Exchange(s: Spi, device: Device): Spi {
    var all := s.exchanged + [s.dataMosi];
    s.(bitIndex := 0, exchanged := all, dataMiso := device(all))
  }

  function ClockRise(s: Spi, device: Device): Spi {
    var t := s.(miso := Bit(s.dataMiso, 7), dataMiso := ShiftLeft(s.dataMiso), dataMosi := ShiftIn(s.dataMosi, s.mosi),
                bitIndex := s.bitIndex + 1);
    if t.bitIndex == 8 then Exchange(t, device) else t
  }

  function Clock(s: Spi, level: bool, device: Device): Spi {
    if s.cs then s
    else if !s.clk && level then ClockRise(s, device).(clk := true)
    else s.(clk := level)
  }

  function Step(s: Spi, e: Event, device: Device): Spi {
    match e
    case WriteCs(level) => ChipSelect(s, level)
    case WriteClk(level) => Clock(s, level, device)
    case WriteMosi(level) => if s.cs then s else s.(mosi := level)
  }

  function Miso(s: Spi): bool {
    !s.cs && s.miso
  }

  function Run(h: History, device: Device): Spi {
    match h
    case Nothing => PowerOn()
    case After(before, e) => Step(Run(before, device), e, device)
  }

  // ---- The byte exchange it refines, read off the pin writes alone ----

  predicate CsHigh(h: History) {
    match h
    case Nothing => false
    case After(_, WriteCs(level)) => level
    case After(before, _) => CsHigh(before)
  }

  /** The last event selects the device. */
  predicate Falls(h: History) {
    h.After? && h.last == WriteCs(false) && CsHigh(h.earlier)
  }

  /** Levels as the peripheral sees them: low after a select, and frozen while it
      is not selected. */
  predicate ClkHigh(h: History) {
    match h
    case Nothing => false
    case After(before, WriteClk(level)) => if CsHigh(before) then ClkHigh(before) else level
    case After(before, _) => !Falls(h) && ClkHigh(before)
  }

  predicate MosiHigh(h: History) {
    match h
    case Nothing => false
    case After(before, WriteMosi(level)) => if CsHigh(before) then MosiHigh(before) else level
    case After(before, _) => !Falls(h) && MosiHigh(before)
  }

  predicate Rises(h: History) {
    h.After? && h.last == WriteClk(true) && !CsHigh(h.earlier) && !ClkHigh(h.earlier)
  }

  /** MOSI levels at the clock rises since the device was last selected. */
  function Samples(h: History): seq<bool> {
    match h
    case Nothing => []
    case After(before, _) =>
      if Falls(h) then [] else if Rises(h) then Samples(before) + [MosiHigh(before)] else Samples(before)
  }

  /** Eight levels, most significant first. */
  function MsbByte(bits: seq<bool>): (r: byte)
    requires |bits| == 8
    ensures forall j: nat :: Bit(r, j) <==> j < 8 && bits[7 - j]
  {
    assert Pow2(8) == 0x100;
    FromMsb(bits)
  }

  function FromMsb(bits: seq<bool>): (r: nat)
    ensures forall j: nat :: Bit(r, j) <==> j < |bits| && bits[|bits| - 1 - j]
    ensures r < Pow2(|bits|)
  {
    if bits == [] then 0
    else
      var init := bits[..|bits| - 1];
      var r := 2 * FromMsb(init) + if bits[|bits| - 1] then 1 else 0;
      assert forall j: nat :: Bit(r, j) <==> if j == 0 then bits[|bits| - 1] else Bit(FromMsb(init), j - 1);
      r
  }

  /** The complete bytes among the samples. */
  function Groups(samples: seq<bool>): (r: seq<byte>)
    ensures |r| == |samples| / 8
    ensures forall k: nat :: k < |r| ==> r[k] == MsbByte(samples[8 * k..8 * k + 8])
  {
    seq(|samples| / 8, k requires 0 <= k < |samples| / 8 => MsbByte(samples[8 * k..8 * k + 8]))
  }

  /** Bytes of the selections that are over. */
  function Finished(h: History): seq<byte> {
    match h
    case Nothing => []
    case After(before, _) => if Falls(h) then Finished(before) + Groups(Samples(before)) else Finished(before)
  }

  function Received(h: History): seq<byte> {
    Finished(h) + Groups(Samples(h))
  }

  /** What the device answered to byte `k` of this selection. */
  function Reply(h: History, device: Device, k: nat): byte
    requires k < |Groups(Samples(h))|
  {
    device(Finished(h) + Groups(Samples(h))[..k + 1])
  }

  /** MISO after the latest clock rise: during byte `k + 1`, the bits of the reply
      to byte `k`, most significant first; zeros during the first byte. */
  predicate MisoLevel(h: History, device: Device) {
    var n := |Samples(h)|;
    n > 8 && Bit(Reply(h, device, (n - 1) / 8 - 1), 7 - (n - 1) % 8)
  }

  // ---- Refinement ----

  /** The reply being shifted out. */
  ghost function Shifting(h: History, device: Device): byte {
    var n := |Samples(h)|;
    if n < 8 then 0 else Reply(h, device, n / 8 - 1)
  }

  ghost predicate Refines(s: Spi, h: History, device: Device) {
    && s.cs == CsHigh(h) && s.clk == ClkHigh(h) && s.mosi == MosiHigh(h)
    && s.bitIndex == |Samples(h)| % 8
    && s.exchanged == Received(h)
    && s.miso == MisoLevel(h, device)
    && HoldsSamples(s.dataMosi, Samples(h))
    && HoldsReply(s.dataMiso, |Samples(h)| % 8, Shifting(h, device))
  }

  /** The latest samples, the newest in bit 0. */
  ghost predicate HoldsSamples(v: byte, samples: seq<bool>) {
    forall j: nat :: j < 8 ==> (Bit(v, j) <==> j < |samples| && samples[|samples| - 1 - j])
  }

  /** A reply shifted left `n` times. */
  ghost predicate HoldsReply(v: byte, n: nat, reply: byte) {
    forall j: nat :: j < 8 ==> (Bit(v, j) <==> n <= j && Bit(reply, j - n))
  }

  lemma {:induction false} GroupsGrow(samples: seq<bool>, bit: bool)
    ensures Groups(samples + [bit]) == Groups(samples)
              + if |samples| % 8 == 7 then [MsbByte((samples + [bit])[|samples| - 7..])] else []
  {
    var more := samples + [bit];
    forall k: nat | k < |Groups(samples)|
      ensures Groups(more)[k] == Groups(samples)[k]
    {
      assert more[8 * k..8 * k + 8] == samples[8 * k..8 * k + 8];
    }
    if |samples| % 8 == 7 {
      var k := |samples| / 8;
      assert more[8 * k..8 * k + 8] == more[|samples| - 7..];
    }
  }

  lemma {:induction false} SamplesShift(v: byte, samples: seq<bool>, bit: bool)
    requires HoldsSamples(v, samples)
    ensures HoldsSamples(ShiftIn(v, bit), samples + [bit])
    ensures |samples| >= 7 ==> ShiftIn(v, bit) == MsbByte((samples + [bit])[|samples| - 7..])
  {
    hide ShiftIn, Bit;
    var r := ShiftIn(v, bit);
    if |samples| >= 7 {
      assert Pow2(8) == 0x100;
      HighBitsClear(r, 8);
      SameBits(r, MsbByte((samples + [bit])[|samples| - 7..]));
    }
  }

  lemma {:induction false} ReplyShifts(v: byte, n: nat, reply: byte)
    requires HoldsReply(v, n, reply) && n < 8
    ensures Bit(v, 7) == Bit(reply, 7 - n)
    ensures HoldsReply(ShiftLeft(v), n + 1, reply)
  {
    hide Bit, ShiftLeft;
  }

  /** A clock rise: one more sample, one more MISO bit, and on the eighth one more
      byte exchanged. */
  lemma {:induction false} RiseRefines(s: Spi, h: History, device: Device)
    requires Refines(s, h, device) && !CsHigh(h) && !ClkHigh(h)
    ensures Refines(Step(s, WriteClk(true), device), After(h, WriteClk(true)), device)
  {
    hide Bit, MsbByte, Groups, ShiftIn, ShiftLeft, HoldsSamples, HoldsReply, CsHigh, ClkHigh, MosiHigh;
    var after := After(h, WriteClk(true));
    RiseMoves(s, h, device);
    RiseShifts(s, h, device);
    if |Samples(h)| % 8 == 7 {
      EighthRise(s, h, device);
    } else {
      GroupsGrow(Samples(h), MosiHigh(h));
      assert Received(after) == Received(h);
    }
  }

  lemma {:induction false} RiseMoves(s: Spi, h: History, device: Device)
    requires Refines(s, h, device) && !CsHigh(h) && !ClkHigh(h)
    ensures var (after, t) := (After(h, WriteClk(true)), Clock(s, true, device));
            && t.cs == CsHigh(after) && t.clk == ClkHigh(after) && t.mosi == MosiHigh(after)
            && Samples(after) == Samples(h) + [MosiHigh(h)] && Finished(after) == Finished(h)
            && t.bitIndex == |Samples(after)| % 8
            && HoldsSamples(t.dataMosi, Samples(after))
  {
    hide Bit, MsbByte, Groups, ShiftIn, ShiftLeft, HoldsSamples, HoldsReply, MisoLevel, Shifting, Received, Reply;
    hide CsHigh, ClkHigh, MosiHigh, Samples, Finished, Clock;
    RiseSamples(h);
    RiseFields(s, device);
    SamplesShift(s.dataMosi, Samples(h), s.mosi);
    NextIndex(|Samples(h)|);
  }

  lemma {:induction false} NextIndex(n: nat)
    ensures (n + 1) % 8 == if n % 8 == 7 then 0 else n % 8 + 1
  {
  }

  lemma {:induction false} RiseFields(s: Spi, device: Device)
    requires !s.cs && !s.clk
    ensures var t := Clock(s, true, device);
            && !t.cs && t.clk && t.mosi == s.mosi && t.dataMosi == ShiftIn(s.dataMosi, s.mosi)
            && t.bitIndex == if s.bitIndex == 7 then 0 else s.bitIndex + 1
  {
    hide Bit, ShiftIn, ShiftLeft;
  }

  lemma {:induction false} RiseSamples(h: History)
    requires !CsHigh(h) && !ClkHigh(h)
    ensures var after := After(h, WriteClk(true));
            && !CsHigh(after) && ClkHigh(after) && MosiHigh(after) == MosiHigh(h)
            && Samples(after) == Samples(h) + [MosiHigh(h)] && Finished(after) == Finished(h)
  {
    hide Groups;
  }

  /** The next bit of the reply goes out, the rest of it moves up. */
  lemma {:induction false} RiseShifts(s: Spi, h: History, device: Device)
    requires Refines(s, h, device) && !CsHigh(h) && !ClkHigh(h)
    ensures var (after, t) := (After(h, WriteClk(true)), Clock(s, true, device));
            && t.miso == MisoLevel(after, device)
            && (|Samples(h)| % 8 != 7 ==> HoldsReply(t.dataMiso, |Samples(h)| % 8 + 1, Shifting(after, device)))
  {
    hide Bit, MsbByte, Groups, ShiftIn, ShiftLeft, HoldsSamples, HoldsReply, CsHigh, ClkHigh, MosiHigh;
    var after := After(h, WriteClk(true));
    var (samples, n) := (Samples(h), |Samples(h)|);
    var more := samples + [MosiHigh(h)];
    assert Samples(after) == more && Finished(after) == Finished(h);
    GroupsGrow(samples, MosiHigh(h));
    ReplyShifts(s.dataMiso, n % 8, Shifting(h, device));
    if n >= 8 {
      assert Groups(more)[..n / 8] == Groups(samples)[..n / 8];
      assert Reply(after, device, n / 8 - 1) == Reply(h, device, n / 8 - 1);
    } else {
      NoBits();
    }
  }

  /** On the eighth rise the collected byte goes out and the reply comes in. */
  lemma {:induction false} EighthRise(s: Spi, h: History, device: Device)
    requires Refines(s, h, device) && !CsHigh(h) && !ClkHigh(h) && |Samples(h)| % 8 == 7
    ensures var (after, t) := (After(h, WriteClk(true)), Clock(s, true, device));
            && t.exchanged == Received(after)
            && HoldsReply(t.dataMiso, 0, Shifting(after, device))
  {
    hide Bit, MsbByte, Groups, ShiftIn, ShiftLeft, HoldsSamples, CsHigh, ClkHigh, MosiHigh;
    var after := After(h, WriteClk(true));
    var samples := Samples(h);
    var more := samples + [MosiHigh(h)];
    assert Samples(after) == more && Finished(after) == Finished(h);
    GroupsGrow(samples, MosiHigh(h));
    SamplesShift(s.dataMosi, samples, s.mosi);
    assert Received(after) == s.exchanged + [ShiftIn(s.dataMosi, s.mosi)];
    assert Groups(more)[..|more| / 8] == Groups(more);
  }

  lemma {:induction false} NoBits()
    ensures forall j: nat :: !Bit(0, j)
  {
  }

  lemma {:induction false} StartsRefined(device: Device)
    ensures Refines(PowerOn(), Nothing, device)
  {
    NoBits();
  }

  lemma {:induction false} FallRefines(s: Spi, h: History, device: Device)
    requires Refines(s, h, device) && CsHigh(h)
    ensures Refines(Step(s, WriteCs(false), device), After(h, WriteCs(false)), device)
  {
    hide Bit;
    NoBits();
    assert Groups([]) == [];
  }

  lemma {:induction false} OtherRefines(s: Spi, h: History, e: Event, device: Device)
    requires Refines(s, h, device) && !Falls(After(h, e)) && !Rises(After(h, e))
    ensures Refines(Step(s, e, device), After(h, e), device)
  {
    hide Bit, Groups, HoldsSamples, HoldsReply;
    var after := After(h, e);
    assert Samples(after) == Samples(h) && Finished(after) == Finished(h);
  }

  /** For any interleaving of chip-select, clock and MOSI writes, the device has
      received exactly the MSB-first groups of eight MOSI levels at clock rises,
      selection by selection, and MISO carries its replies one byte behind. */
  lemma {:induction false} RefinesByteExchange(h: History, device: Device)
    ensures Refines(Run(h, device), h, device)
  {
    hide Bit, Refines, Step;
    match h
    case Nothing =>
      StartsRefined(device);
    case After(before, e) =>
      var s := Run(before, device);
      RefinesByteExchange(before, device);
      if Falls(h) {
        FallRefines(s, before, device);
      } else if Rises(h) {
        RiseRefines(s, before, device);
      } else {
        OtherRefines(s, before, e, device);
      }
  }

  /** What firmware reads on MISO: nothing while the device is not selected, else the
      reply to the previous byte, bit by bit. */
  lemma {:induction false} MisoIsReply(h: History, device: Device)
    ensures Miso(Run(h, device)) == (!CsHigh(h) && MisoLevel(h, device))
  {
    hide Step, HoldsSamples, HoldsReply, MisoLevel;
    RefinesByteExchange(h, device);
  }

  /** Writing the level the clock already has changes nothing. */
  lemma {:induction false} SameLevelIgnored(h: History, device: Device)
    ensures var again := After(h, WriteClk(ClkHigh(h)));
            && Run(again, device) == Run(h, device)
            && Samples(again) == Samples(h) && Received(again) == Received(h)
  {
    hide Bit, Groups;
    RefinesByteExchange(h, device);
  }

  // ---- A driver ----

  /** How firmware shifts one bit out. */
  function BangBit(h: History, bit: bool): History {
    After(After(After(h, WriteMosi(bit)), WriteClk(true)), WriteClk(false))
  }

  function BangBits(h: History, bits: seq<bool>): History {
    if bits == [] then h else BangBit(BangBits(h, bits[..|bits| - 1]), bits[|bits| - 1])
  }

  function MsbBits(b: byte): (bits: seq<bool>)
    ensures |bits| == 8
  {
    seq(8, i requires 0 <= i < 8 => Bit(b, 7 - i))
  }

  function BitsOf(data: seq<byte>): (bits: seq<bool>)
    ensures |bits| == 8 * |data|
  {
    if data == [] then [] else BitsOf(data[..|data| - 1]) + MsbBits(data[|data| - 1])
  }

  lemma {:induction false} MsbRoundTrip(b: byte)
    ensures MsbByte(MsbBits(b)) == b
  {
    assert Pow2(8) == 0x100;
    HighBitsClear(b, 8);
    SameBits(MsbByte(MsbBits(b)), b);
  }

  lemma {:induction false} GroupsOfBytes(data: seq<byte>)
    ensures Groups(BitsOf(data)) == data
  {
    hide Bit, MsbByte, MsbBits;
    if data != [] {
      var (before, b) := (data[..|data| - 1], data[|data| - 1]);
      GroupsOfBytes(before);
      MsbRoundTrip(b);
      var bits := BitsOf(data);
      forall k: nat | k < |data|
        ensures Groups(bits)[k] == data[k]
      {
        if k < |before| {
          assert bits[8 * k..8 * k + 8] == BitsOf(before)[8 * k..8 * k + 8];
          assert Groups(BitsOf(before))[k] == data[k];
        } else {
          assert bits[8 * k..8 * k + 8] == MsbBits(b);
        }
      }
    }
  }

  lemma {:induction false} BangAppends(h: History, bits: seq<bool>)
    requires !CsHigh(h) && !ClkHigh(h)
    ensures var after := BangBits(h, bits);
            && !CsHigh(after) && !ClkHigh(after)
            && Samples(after) == Samples(h) + bits && Finished(after) == Finished(h)
    decreases |bits|
  {
    hide Groups;
    if bits == [] {
      assert Samples(h) + [] == Samples(h);
    } else {
      var (init, bit) := (bits[..|bits| - 1], bits[|bits| - 1]);
      BangAppends(h, init);
      var e0 := BangBits(h, init);
      var e1 := After(e0, WriteMosi(bit));
      var e2 := After(e1, WriteClk(true));
      assert !ClkHigh(e1) && Samples(e1) == Samples(e0) && Finished(e1) == Finished(e0);
      assert ClkHigh(e2) && Samples(e2) == Samples(e0) + [bit] && Finished(e2) == Finished(e0);
      assert Samples(h) + init + [bit] == Samples(h) + bits;
    }
  }

  lemma {:induction false} ExchangedIs(h: History, device: Device)
    ensures Run(h, device).exchanged == Received(h)
  {
    hide Step;
    RefinesByteExchange(h, device);
  }

  /** A driver that selects the device and bangs out any bytes gets exactly those
      bytes to it, after whatever it had received before. */
  lemma {:induction false} TransferDelivers(h: History, data: seq<byte>, device: Device)
    requires CsHigh(h)
    ensures Run(BangBits(After(h, WriteCs(false)), BitsOf(data)), device).exchanged == Run(h, device).exchanged + data
  {
    hide Groups, Refines, Bit, BangBits, Run, Step;
    var selected := After(h, WriteCs(false));
    var after := BangBits(selected, BitsOf(data));
    BangAppends(selected, BitsOf(data));
    assert [] + BitsOf(data) == BitsOf(data);
    GroupsOfBytes(data);
    ExchangedIs(after, device);
    ExchangedIs(h, device);
  }

  /** The driver's clock rise for bit `n`. */
  function RiseOf(h: History, bits: seq<bool>, n: nat): History
    requires n < |bits|
  {
    After(After(BangBits(h, bits[..n]), WriteMosi(bits[n])), WriteClk(true))
  }

  /** MISO as the driver reads it after each clock rise. */
  function ReadBack(h: History, bits: seq<bool>, device: Device): (r: seq<bool>)
    ensures |r| == |bits|
    ensures forall n: nat :: n < |bits| ==> r[n] == Miso(Run(RiseOf(h, bits, n), device))
  {
    seq(|bits|, n requires 0 <= n < |bits| => Miso(Run(RiseOf(h, bits, n), device)))
  }

  /** The bytes a full-duplex driver gets back: a zero, then the replies one behind. */
  function RepliesBehind(base: seq<byte>, data: seq<byte>, device: Device): (r: seq<byte>)
    ensures |r| == |data|
    ensures forall k: nat :: k < |data| ==> r[k] == if k == 0 then 0 else device(base + data[..k])
  {
    seq(|data|, k requires 0 <= k < |data| => if k == 0 then 0 else device(base + data[..k]))
  }

  lemma {:induction false} BitsOfAt(data: seq<byte>, n: nat)
    requires n < 8 * |data|
    ensures BitsOf(data)[n] == Bit(data[n / 8], 7 - n % 8)
  {
    hide Bit;
    var last := |data| - 1;
    if n < 8 * last {
      BitsOfAt(data[..last], n);
    }
  }

  lemma {:induction false} RiseSampled(h: History, bits: seq<bool>, n: nat)
    requires !CsHigh(h) && !ClkHigh(h) && Samples(h) == [] && n < |bits|
    ensures var rise := RiseOf(h, bits, n);
            !CsHigh(rise) && Samples(rise) == bits[..n + 1] && Finished(rise) == Finished(h)
  {
    hide Groups;
    BangAppends(h, bits[..n]);
    var e0 := BangBits(h, bits[..n]);
    var e1 := After(e0, WriteMosi(bits[n]));
    assert !ClkHigh(e1) && Samples(e1) == Samples(e0) && Finished(e1) == Finished(e0);
    assert bits[..n] + [bits[n]] == bits[..n + 1];
  }

  lemma {:induction false} GroupsOfPrefix(data: seq<byte>, n: nat, k: nat)
    requires n <= 8 * |data| && k <= n / 8
    ensures k <= |data| && Groups(BitsOf(data)[..n])[..k] == data[..k]
  {
    hide Bit, MsbByte, MsbBits;
    GroupsOfBytes(data);
    var (bits, whole) := (BitsOf(data), Groups(BitsOf(data)));
    forall j | 0 <= j < k
      ensures Groups(bits[..n])[j] == data[j]
    {
      assert bits[..n][8 * j..8 * j + 8] == bits[8 * j..8 * j + 8];
      assert whole[j] == MsbByte(bits[8 * j..8 * j + 8]);
    }
  }

  /** Full duplex: while a driver bangs out bytes it reads, bit by bit, the device's
      reply to each of them during the next one, and zeros during the first. */
  lemma {:induction false} TransferReadsReplies(h: History, data: seq<byte>, device: Device)
    requires CsHigh(h)
    ensures ReadBack(After(h, WriteCs(false)), BitsOf(data), device)
            == BitsOf(RepliesBehind(Run(h, device).exchanged, data, device))
  {
    hide Bit, Groups, Run, RiseOf, BitsOf, Samples, Finished;
    var (selected, bits) := (After(h, WriteCs(false)), BitsOf(data));
    var replies := RepliesBehind(Run(h, device).exchanged, data, device);
    var read := ReadBack(selected, bits, device);
    forall n: nat | n < |bits|
      ensures read[n] == BitsOf(replies)[n]
    {
      ReadBit(h, data, device, n);
      BitsOfAt(replies, n);
    }
  }

  lemma {:induction false} ReadBit(h: History, data: seq<byte>, device: Device, n: nat)
    requires CsHigh(h) && n < 8 * |data|
    ensures Miso(Run(RiseOf(After(h, WriteCs(false)), BitsOf(data), n), device))
            == Bit(RepliesBehind(Run(h, device).exchanged, data, device)[n / 8], 7 - n % 8)
  {
    var (selected, bits, k) := (After(h, WriteCs(false)), BitsOf(data), n / 8);
    assert Samples(selected) == [] && Finished(selected) == Received(h) && !ClkHigh(selected);
    hide Bit, Run, RiseOf, BitsOf, Samples, Finished, Groups, CsHigh, ClkHigh, Received;
    RiseSampled(selected, bits, n);
    ExchangedIs(h, device);
    MisoIsReply(RiseOf(selected, bits, n), device);
    LevelAfter(RiseOf(selected, bits, n), Received(h), data, device, n);
    hide MisoLevel;
    if k == 0 {
      NoBits();
    }
  }

  /** The MISO level after `n + 1` bits of the driver. */
  lemma {:induction false} LevelAfter(h: History, base: seq<byte>, data: seq<byte>, device: Device, n: nat)
    requires n < 8 * |data| && Samples(h) == BitsOf(data)[..n + 1] && Finished(h) == base
    ensures MisoLevel(h, device) <==> n >= 8 && Bit(device(base + data[..n / 8]), 7 - n % 8)
  {
    hide Bit, BitsOf, Samples, Finished, Groups;
    if n >= 8 {
      GroupsOfPrefix(data, n + 1, n / 8);
    }
  }

  // ---- The objects ----

  /** A serial device: its answers are any function of the bytes it was sent. */
  class SerialDevice {
    const answer: Device
    var received: seq<byte>

    constructor (answer: Device)
      ensures this.answer == answer && received == []
    {
      this.answer, received := answer, [];
    }

    method Write(b: byte)
      modifies this
      ensures received == old(received) + [b]
    {
      received := received + [b];
    }

    method Read() returns (b: byte)
      ensures b == answer(received)
    {
      b := answer(received);
    }
  }

  class SoftwareSpi {
    var dataMosi: byte
    var dataMiso: byte
    var bitIndex: nat
    var cs: bool
    var clk: bool
    var mosi: bool
    var miso: bool
    const extDevice: SerialDevice?
    ghost var exchanged: seq<byte>

    ghost function State(): Spi
      reads this
    {
      Spi(dataMosi, dataMiso, bitIndex, cs, clk, mosi, miso, exchanged)
    }

    /** Without a device, every transfer reads zero. */
    ghost function Answer(): Device {
      if extDevice == null then (_: seq<byte>) => 0 else extDevice.answer
    }

    ghost predicate Valid()
      reads this, extDevice
    {
      extDevice != null ==> extDevice.received == exchanged
    }

    constructor (device: SerialDevice?)
      requires device != null ==> device.received == []
      ensures Valid() && extDevice == device && State() == PowerOn()
    {
      dataMosi, dataMiso, bitIndex := 0, 0, 0;
      cs, clk, mosi, miso := false, false, false, false;
      extDevice := device;
      exchanged := [];
    }

    method WriteCsPin(value: bool)
      requires Valid()
      modifies this
      ensures Valid() && State() == Step(old(State()), WriteCs(value), Answer())
    {
      if cs && !value {
        dataMosi := 0;
        dataMiso := 0;
        bitIndex := 0;
        clk := false;
        mosi := false;
        miso := false;
      }
      cs := value;
    }

    method WriteClkPin(value: bool)
      requires Valid()
      modifies this, extDevice
      ensures Valid() && State() == Step(old(State()), WriteClk(value), Answer())
    {
      hide Bit, ShiftLeft, ShiftIn;
      if cs {
        return;
      }
      if !clk && value {
        miso := Bit(dataMiso, 7);
        dataMiso := ShiftLeft(dataMiso);
        dataMosi := ShiftIn(dataMosi, mosi);
        bitIndex := bitIndex + 1;
        if bitIndex == 8 {
          bitIndex := 0;
          dataMiso := Xfer(dataMosi);
        }
      }
      clk := value;
    }

    method ReadMiso() returns (level: bool)
      ensures level == Miso(State())
    {
      if cs {
        return false;
      }
      return miso;
    }

    method WriteMosiPin(value: bool)
      requires Valid()
      modifies this
      ensures Valid() && State() == Step(old(State()), WriteMosi(value), Answer())
    {
      if cs {
        return;
      }
      mosi := value;
    }

    method Xfer(b: byte) returns (reply: byte)
      requires Valid()
      modifies this`exchanged, extDevice
      ensures Valid() && exchanged == old(exchanged) + [b] && reply == Answer()(exchanged)
    {
      if extDevice != null {
        extDevice.Write(b);
        reply := extDevice.Read();
      } else {
        reply := 0;
      }
      exchanged := exchanged + [b];
    }
  }
}
