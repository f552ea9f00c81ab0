/** The bus router: finding the peripheral of an address by binary search, and
    sub-word accesses done as word accesses with shifting and merging. */
module Router {
  import opened Bits
  import Nvic
  import NvicPending

  // ---- Looking up a peripheral ----

  datatype Slot<+T> = Slot(start: word, end: word, peripheral: T)

  /** Both ends belong to the slot. */
  predicate Covers<T>(s: Slot<T>, addr: word) {
    s.start <= addr <= s.end
  }

  /** What registration leaves behind: tables sorted by start, where two slots may
      start at the same address. */
  ghost predicate Sorted<T>(slots: seq<Slot<T>>) {
    && (forall i :: 0 <= i < |slots| ==> slots[i].start <= slots[i].end)
    && (forall i, j :: 0 <= i < j < |slots| ==> slots[i].start <= slots[j].start)
  }

  ghost predicate DistinctStarts<T>(slots: seq<Slot<T>>) {
    forall i, j :: 0 <= i < j < |slots| ==> slots[i].start != slots[j].start
  }

  ghost predicate Disjoint<T>(slots: seq<Slot<T>>) {
    forall i, j :: 0 <= i < j < |slots| ==> slots[i].end < slots[j].start
  }

  /** The simple form: the position of the first slot that covers the address. */
  function LinearScan<T>(slots: seq<Slot<T>>, addr: word): (r: Option<nat>)
    ensures r.Some? ==> r.value < |slots| && Covers(slots[r.value], addr)
    ensures r.Some? ==> forall i :: 0 <= i < r.value ==> !Covers(slots[i], addr)
    ensures r.None? ==> forall i :: 0 <= i < |slots| ==> !Covers(slots[i], addr)
  {
    if slots == [] then None
    else
      var (last, r) := (|slots| - 1, LinearScan(slots[..|slots| - 1], addr));
      if r.Some? then r else if Covers(slots[last], addr) then Some(last) else None
  }

  /** How many slots start at or before the address. */
  ghost function StartsUpTo<T>(slots: seq<Slot<T>>, addr: word): (n: nat)
    requires Sorted(slots)
    ensures n <= |slots|
    ensures forall i :: 0 <= i < |slots| ==> (slots[i].start <= addr <==> i < n)
  {
    if slots == [] then 0
    else if addr < slots[|slots| - 1].start then StartsUpTo(slots[..|slots| - 1], addr)
    else |slots|
  }

  lemma {:induction false} StartsAre<T>(slots: seq<Slot<T>>, addr: word, n: nat)
    requires Sorted(slots) && n <= |slots|
    requires forall i :: 0 <= i < |slots| ==> (slots[i].start <= addr <==> i < n)
    ensures StartsUpTo(slots, addr) == n
  {
    if slots != [] && addr < slots[|slots| - 1].start {
      StartsAre(slots[..|slots| - 1], addr, n);
    }
  }

  /** What a binary search by start may yield: any slot starting exactly there, or
      else the last one starting before, if it reaches that far. */
  ghost predicate MayFind<T>(slots: seq<Slot<T>>, addr: word, r: Option<nat>) {
    match r
    case Some(i) =>
      && i < |slots| && Covers(slots[i], addr)
      && (slots[i].start == addr || IsLast(slots, addr, i))
    case None => forall i: nat :: i < |slots| && IsLast(slots, addr, i) ==> slots[i].end < addr
  }

  /** The last slot starting at or before the address. */
  ghost predicate IsLast<T>(slots: seq<Slot<T>>, addr: word, i: nat)
    requires i < |slots|
  {
    slots[i].start <= addr && forall j :: i < j < |slots| ==> addr < slots[j].start
  }

  /** The last slot starting at or before the address, if it covers it. */
  ghost function Found<T>(slots: seq<Slot<T>>, addr: word): (r: Option<nat>)
    requires Sorted(slots)
    ensures r.Some? ==> r.value < |slots| && Covers(slots[r.value], addr)
  {
    var n := StartsUpTo(slots, addr);
    if n != 0 && addr <= slots[n - 1].end then Some(n - 1) else None
  }

  /** At most one slot starts exactly at the address. */
  ghost predicate Determined<T>(slots: seq<Slot<T>>, addr: word) {
    forall i, j :: 0 <= i < j < |slots| && slots[i].start == addr ==> slots[j].start != addr
  }

  /** One way to bisect. Which of several slots starting at an address it hits is its
      own business, so nothing below depends on it. */
  function Bisect<T>(slots: seq<Slot<T>>, addr: word, low: nat, high: nat): (r: (bool, nat))
    requires low <= high <= |slots|
    ensures if r.0 then r.1 < |slots| else r.1 <= |slots|
    decreases high - low
  {
    if low == high then (false, low)
    else
      var mid := (low + high) / 2;
      if slots[mid].start == addr then (true, mid)
      else if slots[mid].start < addr then Bisect(slots, addr, mid + 1, high)
      else Bisect(slots, addr, low, mid)
  }

  lemma {:induction false} BisectNext<T>(slots: seq<Slot<T>>, addr: word, low: nat, high: nat)
    requires low < high <= |slots|
    ensures var mid := (low + high) / 2;
            Bisect(slots, addr, low, high)
            == if slots[mid].start == addr then (true, mid)
               else if slots[mid].start < addr then Bisect(slots, addr, mid + 1, high)
               else Bisect(slots, addr, low, mid)
  {
  }

  lemma {:induction false} BisectEnds<T>(slots: seq<Slot<T>>, addr: word, at: nat)
    requires at <= |slots|
    ensures Bisect(slots, addr, at, at) == (false, at)
  {
  }

  /** The slot a bisecting search finds for an address. */
  function Searched<T>(slots: seq<Slot<T>>, addr: word): Option<nat> {
    var (found, index) := Bisect(slots, addr, 0, |slots|);
    if !found && index == 0 then None
    else
      var i := if found then index else index - 1;
      if addr <= slots[i].end then Some(i) else None
  }

  /** `binary_search_by_key`: the position of a slot starting there, or where one
      would be inserted. */
  method BinarySearchByStart<T>(slots: seq<Slot<T>>, addr: word) returns (found: bool, index: nat)
    requires Sorted(slots)
    ensures found ==> index < |slots| && slots[index].start == addr
    ensures !found ==> index == StartsUpTo(slots, addr)
    ensures found <==> exists i :: 0 <= i < |slots| && slots[i].start == addr
    ensures (found, index) == Bisect(slots, addr, 0, |slots|)
  {
    hide StartsUpTo, Bisect;
    BisectFinds(slots, addr, 0, |slots|);
    var low, high := 0, |slots|;
    while low < high
      invariant 0 <= low <= high <= |slots|
      invariant Bisect(slots, addr, 0, |slots|) == Bisect(slots, addr, low, high)
    {
      BisectNext(slots, addr, low, high);
      var mid := (low + high) / 2;
      if slots[mid].start == addr {
        return true, mid;
      } else if slots[mid].start < addr {
        low := mid + 1;
      } else {
        high := mid;
      }
    }
    BisectEnds(slots, addr, low);
    StartsAre(slots, addr, low);
    return false, low;
  }

  method GetPeripheral<T>(slots: seq<Slot<T>>, addr: word) returns (slot: Option<nat>)
    requires Sorted(slots)
    ensures slot == Searched(slots, addr) && MayFind(slots, addr, slot)
    ensures Determined(slots, addr) ==> slot == Found(slots, addr)
    ensures Disjoint(slots) ==> slot == LinearScan(slots, addr)
  {
    hide Bisect, MayFind, Found, Determined, Disjoint, LinearScan;
    SearchedIsPossible(slots, addr);
    var found, index := BinarySearchByStart(slots, addr);
    if !found && index == 0 {
      slot := None;
    } else {
      var i := if found then index else index - 1;
      slot := if addr <= slots[i].end then Some(i) else None;
    }
    if Determined(slots, addr) {
      OnlyFound(slots, addr, slot);
    }
    if Disjoint(slots) {
      OnlyScanned(slots, addr, slot);
    }
  }

  lemma {:induction false} BisectFinds<T>(slots: seq<Slot<T>>, addr: word, low: nat, high: nat)
    requires Sorted(slots) && low <= high <= |slots|
    requires forall i :: 0 <= i < low ==> slots[i].start < addr
    requires forall i :: high <= i < |slots| ==> addr < slots[i].start
    ensures var (found, index) := Bisect(slots, addr, low, high);
            if found then slots[index].start == addr
            else forall i :: 0 <= i < |slots| ==> if i < index then slots[i].start < addr else addr < slots[i].start
    decreases high - low
  {
    hide Bisect;
    BisectEnds(slots, addr, low);
    if low < high {
      BisectNext(slots, addr, low, high);
      var mid := (low + high) / 2;
      if slots[mid].start < addr {
        BisectFinds(slots, addr, mid + 1, high);
      } else if addr < slots[mid].start {
        BisectFinds(slots, addr, low, mid);
      }
    }
  }

  lemma {:induction false} SearchedIsPossible<T>(slots: seq<Slot<T>>, addr: word)
    requires Sorted(slots)
    ensures MayFind(slots, addr, Searched(slots, addr))
  {
    hide Bisect;
    BisectFinds(slots, addr, 0, |slots|);
  }

  lemma {:induction false} OnlyFound<T>(slots: seq<Slot<T>>, addr: word, r: Option<nat>)
    requires Sorted(slots) && Determined(slots, addr) && MayFind(slots, addr, r)
    ensures r == Found(slots, addr)
  {
    var n := StartsUpTo(slots, addr);
    if n != 0 {
      assert IsLast(slots, addr, n - 1);
    }
  }

  lemma {:induction false} FoundIsPossible<T>(slots: seq<Slot<T>>, addr: word)
    requires Sorted(slots)
    ensures MayFind(slots, addr, Found(slots, addr))
  {
  }

  /** Taking the last slot that starts at or before the address is always a possible
      result, and at every address the only one exactly when no two slots start at the
      same address. */
  lemma {:induction false} LookupDeterminedIff<T>(slots: seq<Slot<T>>)
    requires Sorted(slots)
    ensures forall addr :: MayFind(slots, addr, Found(slots, addr))
    ensures (forall addr, r :: MayFind(slots, addr, r) ==> r == Found(slots, addr)) <==> DistinctStarts(slots)
  {
    hide MayFind, Found;
    forall addr
      ensures MayFind(slots, addr, Found(slots, addr))
    {
      FoundIsPossible(slots, addr);
    }
    if DistinctStarts(slots) {
      forall addr, r | MayFind(slots, addr, r)
        ensures r == Found(slots, addr)
      {
        OnlyFound(slots, addr, r);
      }
    } else {
      var i, j :| 0 <= i < j < |slots| && slots[i].start == slots[j].start;
      StartIsPossible(slots, i);
      StartIsPossible(slots, j);
    }
  }

  lemma {:induction false} StartIsPossible<T>(slots: seq<Slot<T>>, i: nat)
    requires Sorted(slots) && i < |slots|
    ensures MayFind(slots, slots[i].start, Some(i))
  {
  }

  lemma {:induction false} OnlyScanned<T>(slots: seq<Slot<T>>, addr: word, r: Option<nat>)
    requires Sorted(slots) && Disjoint(slots) && MayFind(slots, addr, r)
    ensures r == LinearScan(slots, addr)
  {
    var scan := LinearScan(slots, addr);
    if scan.Some? {
      assert IsLast(slots, addr, scan.value);
    }
  }

  /** The search finds what a scan finds at every address exactly when no two slots
      overlap; an address inside two of them goes to the later one. */
  lemma {:induction false} LookupAgreesIff<T>(slots: seq<Slot<T>>)
    requires Sorted(slots)
    ensures (forall addr, r :: MayFind(slots, addr, r) ==> r == LinearScan(slots, addr)) <==> Disjoint(slots)
  {
    if Disjoint(slots) {
      forall addr, r | MayFind(slots, addr, r)
        ensures r == LinearScan(slots, addr)
      {
        OnlyScanned(slots, addr, r);
      }
    } else {
      var i, j :| 0 <= i < j < |slots| && slots[j].start <= slots[i].end;
      assert Covers(slots[i], slots[j].start);
      assert MayFind(slots, slots[j].start, Some(j));
    }
  }

  /** The registration assertion, made of the debug table only: comparing neighbours
      is enough to find any overlap. The routed table is sorted but not checked. */
  method CheckOverlaps<T>(slots: seq<Slot<T>>) returns (ok: bool)
    requires forall i :: 0 <= i < |slots| ==> slots[i].start <= slots[i].end
    ensures ok <==> Disjoint(slots)
    ensures ok ==> Sorted(slots) && DistinctStarts(slots)
  {
    var i := 1;
    while i < |slots|
      invariant 1 <= i
      invariant forall k, l :: 0 <= k < l < i && l < |slots| ==> slots[k].end < slots[l].start
    {
      if !(slots[i - 1].end < slots[i].start) {
        return false;
      }
      i := i + 1;
    }
    return true;
  }

  // ---- Sub-word accesses ----

  /** `v << n` on a 32-bit register. */
  function Shl32(v: word, n: nat): (r: word)
    ensures forall j: nat :: Bit(r, j) <==> n <= j < 32 && Bit(v, j - n)
  {
    WordBits(Low(Shl(v, n), 32));
    Low(Shl(v, n), 32)
  }

  /** The bits a `size`-byte write at `offset` may change. */
  function WriteMask(offset: nat, size: nat): (r: word)
    requires size < 4
    ensures forall j: nat :: Bit(r, j) <==> 8 * offset <= j < 8 * (offset + size) && j < 32
  {
    var ones := Pow2(8 * size) - 1;
    MaskBits(size, ones);
    Shl32(ones, 8 * offset)
  }

  lemma {:induction false} MaskBits(size: nat, ones: nat)
    requires size < 4 && ones == Pow2(8 * size) - 1
    ensures ones < 0x1_0000_0000
    ensures forall j: nat :: Bit(ones, j) <==> j < 8 * size
  {
    assert Pow2(8) == 0x100;
    assert Pow2(16) == 0x100 * Pow2(8);
    assert Pow2(24) == 0x100 * Pow2(16);
    Ones(8 * size, ones);
  }

  lemma {:induction false} Fits32(v: nat)
    requires forall j: nat :: Bit(v, j) ==> j < 32
    ensures v < 0x1_0000_0000
  {
    FitsWidth(v, 32);
    WordBits(v);
  }

  /** `(old & !mask) | (value & mask)` */
  function Select(current: word, value: word, mask: word): (r: word)
    ensures forall j: nat :: Bit(r, j) <==> if Bit(mask, j) then Bit(value, j) else Bit(current, j)
  {
    WordBits(current);
    HighBitsClear(current, 32);
    WordBits(value);
    HighBitsClear(value, 32);
    Fits32(Or(AndNot(current, mask), And(value, mask)));
    Or(AndNot(current, mask), And(value, mask))
  }

  /** The word that is written in place of `old`. */
  function Merged(current: word, value: word, offset: nat, size: nat): (r: word)
    requires offset + size <= 4
  {
    if size == 4 then value else Select(current, Shl32(value, 8 * offset), WriteMask(offset, size))
  }

  lemma {:induction false} MergedBits(current: word, value: word, offset: nat, size: nat)
    requires offset + size <= 4 && size < 4
    ensures forall j: nat :: Bit(Merged(current, value, offset, size), j)
                        <==> if 8 * offset <= j < 8 * (offset + size) then Bit(value, j - 8 * offset)
                             else Bit(current, j)
  {
    hide Bit, Select, Shl32, WriteMask;
  }

  /** The word a sub-word read returns; bytes above the access are not masked. */
  function Fetched(w: word, offset: nat): (r: word)
    ensures forall j: nat :: Bit(r, j) <==> Bit(w, j + 8 * offset)
  {
    Shr(w, 8 * offset)
  }

  lemma {:induction false} ShrAdds(v: nat, a: nat, b: nat)
    ensures Shr(v, a + b) == Shr(Shr(v, a), b)
    decreases a
  {
    if a != 0 {
      ShrAdds(v / 2, a - 1, b);
    }
  }

  lemma {:induction false} MultipleGrows(m: int, d: int)
    requires 0 < m
    ensures d >= 1 ==> m * d >= m
    ensures d <= -1 ==> m * d <= -m
  {
  }

  lemma {:induction false} QuotientIs(v: nat, m: nat, q: nat, r: nat)
    requires 0 < m && v == m * q + r && r < m
    ensures v / m == q && v % m == r
  {
    var d := v / m - q;
    assert v == m * (v / m) + v % m;
    assert m * d == r - v % m;
    MultipleGrows(m, d);
  }

  lemma {:induction false} HalvesDivide(v: nat, m: nat)
    requires 0 < m
    ensures v / (2 * m) == v / 2 / m && v % (2 * m) == 2 * (v / 2 % m) + v % 2
  {
    var (q, r) := (v / 2 / m, v / 2 % m);
    assert v / 2 == m * q + r;
    assert v == 2 * m * q + (2 * r + v % 2);
    QuotientIs(v, 2 * m, q, 2 * r + v % 2);
  }

  /** Shifting divides and masking takes the remainder. */
  lemma {:induction false} ShiftsDivide(v: nat, n: nat)
    ensures Shr(v, n) == v / Pow2(n) && Low(v, n) == v % Pow2(n)
    decreases n
  {
    hide Bit;
    if n != 0 {
      ShiftsDivide(v / 2, n - 1);
      HalvesDivide(v, Pow2(n - 1));
    }
  }

  lemma {:induction false} ByteSteps(v: nat)
    ensures Shr(v, 8) == v / 0x100 && Low(v, 8) == v % 0x100
  {
    hide Shr, Low, Bit;
    assert Pow2(8) == 0x100;
    ShiftsDivide(v, 8);
  }

  function ByteOf(v: nat, k: nat): nat {
    if k == 0 then v % 0x100 else ByteOf(v / 0x100, k - 1)
  }

  lemma {:induction false} NoShift(v: nat)
    ensures Shr(v, 0) == v
  {
  }

  lemma {:induction false} ByteOfIsShifted(v: nat, k: nat)
    ensures ByteOf(v, k) == Low(Shr(v, 8 * k), 8)
    decreases k
  {
    hide Bit, Low, Shr;
    NoShift(v);
    if k == 0 {
      ByteSteps(v);
    } else {
      assert 8 + 8 * (k - 1) == 8 * k;
      ByteOfIsShifted(v / 0x100, k - 1);
      ByteSteps(v);
      ShrAdds(v, 8, 8 * (k - 1));
    }
  }

  lemma {:induction false} ByteIs(w: word, k: nat)
    requires k < 4
    ensures LeBytes(w)[k] == ByteOf(w, k)
  {
    var v1 := w / 0x100;
    var v2 := v1 / 0x100;
    var v3 := v2 / 0x100;
    assert v3 < 0x100;
    assert ByteOf(w, 1) == ByteOf(v1, 0);
    assert ByteOf(w, 2) == ByteOf(v1, 1) == ByteOf(v2, 0);
    assert ByteOf(w, 3) == ByteOf(v1, 2) == ByteOf(v2, 1) == ByteOf(v3, 0);
  }

  /** Byte `k` of a word holds its bits `8k` to `8k + 7`. */
  lemma {:induction false} ByteBits(w: word, k: nat)
    requires k < 4
    ensures forall j: nat :: Bit(LeBytes(w)[k], j) <==> j < 8 && Bit(w, 8 * k + j)
  {
    hide LeBytes, Bit, Low, Shr;
    ByteIs(w, k);
    ByteOfIsShifted(w, k);
  }

  lemma {:induction false} MergedInside(current: word, value: word, offset: nat, size: nat, k: nat)
    requires offset + size <= 4 && size < 4 && offset <= k < offset + size
    ensures LeBytes(Merged(current, value, offset, size))[k] == LeBytes(value)[k - offset]
  {
    hide Merged, LeBytes, Bit;
    var r := Merged(current, value, offset, size);
    MergedBits(current, value, offset, size);
    ByteBits(r, k);
    ByteBits(value, k - offset);
    var (b, c) := (LeBytes(r)[k], LeBytes(value)[k - offset]);
    forall j: nat
      ensures Bit(b, j) <==> Bit(c, j)
    {
      if j < 8 {
        assert Bit(r, 8 * k + j) <==> Bit(value, 8 * (k - offset) + j);
      }
    }
    SameBits(b, c);
  }

  lemma {:induction false} MergedOutside(current: word, value: word, offset: nat, size: nat, k: nat)
    requires offset + size <= 4 && size < 4 && k < 4 && !(offset <= k < offset + size)
    ensures LeBytes(Merged(current, value, offset, size))[k] == LeBytes(current)[k]
  {
    hide Merged, LeBytes, Bit;
    var r := Merged(current, value, offset, size);
    MergedBits(current, value, offset, size);
    ByteBits(r, k);
    ByteBits(current, k);
    SameBits(LeBytes(r)[k], LeBytes(current)[k]);
  }

  /** Bytes inside the access come from the value, the others stay. */
  lemma {:induction false} MergedBytes(current: word, value: word, offset: nat, size: nat, k: nat)
    requires offset + size <= 4 && k < 4
    ensures LeBytes(Merged(current, value, offset, size))[k]
            == if offset <= k < offset + size then LeBytes(value)[k - offset] else LeBytes(current)[k]
  {
    hide LeBytes;
    if size < 4 {
      hide Merged;
      if offset <= k < offset + size {
        MergedInside(current, value, offset, size, k);
      } else {
        MergedOutside(current, value, offset, size, k);
      }
    }
  }

  lemma {:induction false} FetchedBytes(w: word, offset: nat, k: nat)
    requires offset < 4 && k < 4
    ensures LeBytes(Fetched(w, offset))[k] == if offset + k < 4 then LeBytes(w)[offset + k] else 0
  {
    hide Fetched, LeBytes;
    var r := Fetched(w, offset);
    ByteBits(r, k);
    WordBits(w);
    HighBitsClear(w, 32);
    if offset + k < 4 {
      ByteBits(w, offset + k);
      SameBits(LeBytes(r)[k], LeBytes(w)[offset + k]);
    } else {
      ZeroBits(LeBytes(r)[k]);
    }
  }

  // ---- The priority bytes behind the router ----

  const NVIC_BASE: word := 0xe000_e000
  const PRIORITY_BASE: word := 0xe000_e400

  /** One access of 1 to 4 bytes, inside a word, at priority byte `at`. */
  datatype Access =
    | ReadAt(at: nat, size: nat)
    | WriteAt(at: nat, size: nat, value: word)

  predicate InWord(a: Access) {
    1 <= a.size && a.at % 4 + a.size <= 4 && a.at < Nvic.IPR_COUNT
  }

  predicate NaturallyAligned(a: Access) {
    a.size in {1, 2, 4} && a.at % a.size == 0 && a.at < Nvic.IPR_COUNT
  }

  lemma {:induction false} AlignedIsInWord(a: Access)
    requires NaturallyAligned(a)
    ensures InWord(a)
  {
    if a.size == 2 {
      assert a.at % 4 == 0 || a.at % 4 == 2;
    }
  }

  function WordOffset(at: nat): word
    requires at < Nvic.IPR_COUNT
  {
    Nvic.IPR_OFFSET + at - at % 4
  }

  function ReadResult(p: seq<byte>, a: Access): word
    requires |p| == Nvic.IPR_COUNT && InWord(a)
  {
    Fetched(Nvic.PriorityWord(p, WordOffset(a.at)), a.at % 4)
  }

  function AfterAccess(p: seq<byte>, a: Access): (r: seq<byte>)
    requires |p| == Nvic.IPR_COUNT && InWord(a)
    ensures |r| == Nvic.IPR_COUNT
  {
    match a
    case ReadAt(_, _) => p
    case WriteAt(at, size, value) =>
      var merged := Merged(Nvic.PriorityWord(p, WordOffset(at)), value, at % 4, size);
      Nvic.WithPriorityWord(p, WordOffset(at), merged)
  }

  /** A read returns the bytes of the access in its low bytes; above them come the
      other bytes of the same word, then zeros. */
  lemma {:induction false} ReadsBytes(p: seq<byte>, a: Access, k: nat)
    requires |p| == Nvic.IPR_COUNT && InWord(a) && k < 4
    ensures a.at + 4 - a.at % 4 <= |p|
    ensures LeBytes(ReadResult(p, a))[k] == if a.at % 4 + k < 4 then p[a.at + k] else 0
    ensures k < a.size ==> LeBytes(ReadResult(p, a))[k] == p[a.at + k]
  {
    hide LeBytes, LeWord, Fetched;
    var base := a.at - a.at % 4;
    FetchedBytes(Nvic.PriorityWord(p, WordOffset(a.at)), a.at % 4, k);
    LeBytesOfWord(p[base], p[base + 1], p[base + 2], p[base + 3]);
  }

  /** A write changes exactly the bytes of the access. */
  lemma {:induction false} WritesBytes(p: seq<byte>, a: Access, i: nat)
    requires |p| == Nvic.IPR_COUNT && InWord(a) && a.WriteAt? && i < |p|
    ensures AfterAccess(p, a)[i] == if a.at <= i < a.at + a.size then LeBytes(a.value)[i - a.at] else p[i]
  {
    hide LeBytes, LeWord, Merged;
    var base := a.at - a.at % 4;
    if base <= i < base + 4 {
      LeBytesOfWord(p[base], p[base + 1], p[base + 2], p[base + 3]);
      MergedBytes(Nvic.PriorityWord(p, WordOffset(a.at)), a.value, a.at % 4, a.size, i - base);
    }
  }

  lemma {:induction false} ReadKeepsAll(p: seq<byte>, a: Access)
    requires |p| == Nvic.IPR_COUNT && InWord(a) && a.ReadAt?
    ensures AfterAccess(p, a) == p
  {
  }

  ghost predicate AllInWord(accesses: seq<Access>) {
    forall k :: 0 <= k < |accesses| ==> InWord(accesses[k])
  }

  function RunAccesses(p: seq<byte>, accesses: seq<Access>): (r: seq<byte>)
    requires |p| == Nvic.IPR_COUNT && AllInWord(accesses)
    ensures |r| == Nvic.IPR_COUNT
    decreases |accesses|
  {
    if accesses == [] then p
    else AfterAccess(RunAccesses(p, accesses[..|accesses| - 1]), accesses[|accesses| - 1])
  }

  /** Flat memory: the byte of the latest write that covers it. */
  function LastWritten(p: seq<byte>, accesses: seq<Access>, i: nat): byte
    requires i < |p| && AllInWord(accesses)
    decreases |accesses|
  {
    if accesses == [] then p[i]
    else
      var a := accesses[|accesses| - 1];
      if a.WriteAt? && a.at <= i < a.at + a.size then LeBytes(a.value)[i - a.at]
      else LastWritten(p, accesses[..|accesses| - 1], i)
  }

  /** Any sequence of sub-word and word accesses leaves the priority bytes a flat
      little-endian memory would hold. */
  lemma {:induction false} FlatMemory(p: seq<byte>, accesses: seq<Access>, i: nat)
    requires |p| == Nvic.IPR_COUNT && AllInWord(accesses) && i < |p|
    ensures RunAccesses(p, accesses)[i] == LastWritten(p, accesses, i)
    decreases |accesses|
  {
    hide AfterAccess, LeBytes;
    if accesses != [] {
      var (before, a) := (accesses[..|accesses| - 1], accesses[|accesses| - 1]);
      FlatMemory(p, before, i);
      if a.WriteAt? {
        WritesBytes(RunAccesses(p, before), a, i);
      } else {
        ReadKeepsAll(RunAccesses(p, before), a);
      }
    }
  }

  /** And every read along the way returns what that memory holds. */
  lemma {:induction false} FlatReads(p: seq<byte>, accesses: seq<Access>, a: Access, k: nat)
    requires |p| == Nvic.IPR_COUNT && AllInWord(accesses) && InWord(a) && k < a.size
    ensures a.at + k < |p|
    ensures LeBytes(ReadResult(RunAccesses(p, accesses), a))[k] == LastWritten(p, accesses, a.at + k)
  {
    hide ReadResult, LeBytes;
    ReadsBytes(RunAccesses(p, accesses), a, k);
    FlatMemory(p, accesses, a.at + k);
  }

  // ---- The bus ----

  /** A slot's peripheral: the interrupt controller, seen from `baseOffset` of its
      register block, or one whose behaviour is not modelled here. */
  datatype Target = NvicRegisters(baseOffset: word) | Other(id: nat)

  datatype RegisterAccess = Get(offset: word) | Set(offset: word, value: word)

  /** What any other peripheral answers, given everything it has been asked. */
  type Answers = (nat, seq<RegisterAccess>) -> word

  /** The controller, its priority bytes, and what reached the other peripherals. */
  datatype Bus = Bus(nvic: NvicPending.Controller, priorities: seq<byte>, logs: map<nat, seq<RegisterAccess>>)

  type Table = seq<Slot<Target>>

  /** The routed table, what the search finds in it at each address, and the other
      peripherals. */
  datatype Wiring = Wiring(slots: Table, find: word -> Option<nat>, answers: Answers)

  /** Interrupt controller slots lie in the system region, at word boundaries. */
  ghost predicate ValidTable(slots: Table) {
    && Sorted(slots)
    && forall i :: 0 <= i < |slots| && slots[i].peripheral.NvicRegisters? ==>
         && slots[i].start % 4 == 0 && slots[i].peripheral.baseOffset % 4 == 0
         && 0xe000_0000 <= slots[i].start
         && slots[i].end - slots[i].start + slots[i].peripheral.baseOffset < 0x1_0000_0000
  }

  /** Where several slots start at one address, any of them may be found there. */
  ghost predicate ValidWiring(w: Wiring) {
    ValidTable(w.slots) && forall addr :: MayFind(w.slots, addr, w.find(addr))
  }

  ghost predicate ValidBus(b: Bus) {
    |b.priorities| == Nvic.IPR_COUNT
  }

  function LogOf(b: Bus, id: nat): seq<RegisterAccess> {
    if id in b.logs then b.logs[id] else []
  }

  function Logged(b: Bus, id: nat, a: RegisterAccess): Bus {
    b.(logs := b.logs[id := LogOf(b, id) + [a]])
  }

  /** Addresses outside the external memory banks are reduced to words. */
  predicate IsRegister(addr: word) {
    !(0x6000_0000 <= addr < 0xa000_0000)
  }

  function AlignAddr4(addr: word): (word, nat) {
    (addr - addr % 4, addr % 4)
  }

  function Aligned(addr: word): (r: (word, nat))
    ensures IsRegister(r.0) ==> r.0 % 4 == 0
  {
    if IsRegister(addr) then AlignAddr4(addr) else (addr, 0)
  }

  /** The byte and bit an alias address stands for. */
  function BitBanding(addr: word): Option<(word, nat)> {
    if 0x4200_0000 <= addr < 0x4400_0000 then Some((0x4000_0000 + (addr - 0x4200_0000) / 32, addr % 32 / 4)) else None
  }

  /** The router's own assertion. */
  predicate Routable(addr: word, size: nat) {
    BitBanding(addr).None? ==> Aligned(addr).1 + size <= 4
  }

  lemma {:induction false} NvicOffset(w: Wiring, addr: word)
    requires ValidWiring(w) && (IsRegister(addr) ==> addr % 4 == 0) && w.find(addr).Some?
    ensures var i := w.find(addr).value;
            && i < |w.slots| && Covers(w.slots[i], addr)
            && (w.slots[i].peripheral.NvicRegisters? ==>
                  var offset := addr - w.slots[i].start + w.slots[i].peripheral.baseOffset;
                  offset % 4 == 0 && offset < 0x1_0000_0000 && 0xe000_0000 <= addr)
  {
    hide IsLast, Sorted;
    assert MayFind(w.slots, addr, w.find(addr));
    Multiples(addr, w.slots[w.find(addr).value].start);
  }

  lemma {:induction false} Multiples(a: word, b: word)
    ensures a % 4 == 0 && b % 4 == 0 ==> (a - b) % 4 == 0
  {
  }

  ghost function GetWord(w: Wiring, b: Bus, addr: word): (r: (word, Bus))
    requires ValidWiring(w) && ValidBus(b) && (IsRegister(addr) ==> addr % 4 == 0)
    ensures r.1.priorities == b.priorities && r.1.nvic == b.nvic
  {
    match w.find(addr)
    case None => (0, b)
    case Some(i) =>
      NvicOffset(w, addr);
      var offset := addr - w.slots[i].start;
      match w.slots[i].peripheral
      case NvicRegisters(base) => (Nvic.RegisterValue(b.nvic, b.priorities, offset + base), b)
      case Other(id) => (w.answers(id, LogOf(b, id) + [Get(offset)]), Logged(b, id, Get(offset)))
  }

  ghost function SetWord(w: Wiring, b: Bus, addr: word, value: word): (r: Bus)
    requires ValidWiring(w) && ValidBus(b) && (IsRegister(addr) ==> addr % 4 == 0)
    ensures ValidBus(r)
  {
    match w.find(addr)
    case None => b
    case Some(i) =>
      NvicOffset(w, addr);
      var offset := addr - w.slots[i].start;
      match w.slots[i].peripheral
      case NvicRegisters(base) =>
        b.(nvic := NvicPending.WriteEnable(b.nvic, offset + base, value),
           priorities := Nvic.WithPriorityWord(b.priorities, offset + base, value))
      case Other(id) => Logged(b, id, Set(offset, value))
  }

  ghost function PlainRead(w: Wiring, b: Bus, addr: word): (r: (word, Bus))
    requires ValidWiring(w) && ValidBus(b)
    ensures r.1.priorities == b.priorities && r.1.nvic == b.nvic
  {
    var (aligned, offset) := Aligned(addr);
    var (v, t) := GetWord(w, b, aligned);
    (Fetched(v, offset), t)
  }

  ghost function PlainWrite(w: Wiring, b: Bus, addr: word, size: nat, value: word): (r: Bus)
    requires ValidWiring(w) && ValidBus(b) && Aligned(addr).1 + size <= 4
    ensures ValidBus(r)
  {
    var (aligned, offset) := Aligned(addr);
    if IsRegister(addr) && size < 4 then
      var (current, t) := GetWord(w, b, aligned);
      SetWord(w, t, aligned, Merged(current, value, offset, size))
    else SetWord(w, b, aligned, value)
  }

  /** The byte a bit-band write stores: only the target bit of the old one is kept. */
  function Banded(current: word, bit: nat, value: word): (r: word)
    requires bit < 8
    ensures forall j: nat :: Bit(r, j) <==> j == bit && (Bit(current, bit) || value % 2 == 1)
  {
    NoBits();
    if Bit(current, bit) || value % 2 == 1 then SetFlag(0, bit) else 0
  }

  lemma {:induction false} NoBits()
    ensures forall j: nat :: !Bit(0, j)
  {
  }

  ghost function BusRead(w: Wiring, b: Bus, addr: word): (r: (word, Bus))
    requires ValidWiring(w) && ValidBus(b)
    ensures r.1.priorities == b.priorities && r.1.nvic == b.nvic
  {
    match BitBanding(addr)
    case Some((target, bit)) =>
      var (v, t) := PlainRead(w, b, target);
      (if Bit(v, bit) then 1 else 0, t)
    case None => PlainRead(w, b, addr)
  }

  ghost function BusWrite(w: Wiring, b: Bus, addr: word, size: nat, value: word): (r: Bus)
    requires ValidWiring(w) && ValidBus(b) && Routable(addr, size)
    ensures ValidBus(r)
  {
    match BitBanding(addr)
    case Some((target, bit)) =>
      var (v, t) := PlainRead(w, b, target);
      PlainWrite(w, t, target, 1, Banded(v, bit, value))
    case None => PlainWrite(w, b, addr, size, value)
  }

  /** The alias of bit `bit` of the byte at `target`, for the first megabyte from
      0x40000000: 32 bytes of alias per byte, four per bit. Any of the four will do, and no
      other address is an alias of it. */
  lemma {:induction false} AliasOf(target: word, bit: nat, addr: word)
    requires 0x4000_0000 <= target < 0x4010_0000 && bit < 8
    ensures BitBanding(addr) == Some((target, bit))
            <==> 0x4200_0000 + 32 * (target - 0x4000_0000) + 4 * bit <= addr
                 < 0x4200_0000 + 32 * (target - 0x4000_0000) + 4 * bit + 4
    ensures BitBanding(addr).None? <==> addr < 0x4200_0000 || 0x4400_0000 <= addr
  {
  }

  /** An access to the alias of a bit, on the whole bus: a read is that bit of a read of the
      byte, and a write reads the byte and writes one back in which only that bit may be set. */
  lemma {:induction false} AliasAccess(w: Wiring, b: Bus, target: word, bit: nat, addr: word, size: nat, value: word)
    requires ValidWiring(w) && ValidBus(b) && 0x4000_0000 <= target < 0x4010_0000 && bit < 8
    requires addr / 4 == 0x1080_0000 + 8 * (target - 0x4000_0000) + bit
    ensures var (v, t) := BusRead(w, b, target);
            && ValidBus(t) && Routable(addr, size) && Routable(target, 1)
            && BusRead(w, b, addr) == (if Bit(v, bit) then 1 else 0, t)
            && BusWrite(w, b, addr, size, value)
               == BusWrite(w, t, target, 1, if Bit(v, bit) || value % 2 == 1 then SetFlag(0, bit) else 0)
  {
    hide Bit, SetFlag, PlainRead, PlainWrite, BitBanding;
    AliasOf(target, bit, addr);
    AliasOf(target, bit, target);
  }

  /** The word address an access uses: its own in the external memory banks, from 0x60000000
      up to 0xa0000000, else the one of its word. */
  function WordAt(addr: word): word {
    if 0x6000_0000 <= addr < 0xa000_0000 then addr else addr - addr % 4
  }

  /** An access that is no alias reaches the slot found at that address, with the offset from
      its start: a read takes the bytes from the word read, and a write of less than a word
      outside the external banks reads it first and merges. Without a slot there, reads
      return zero and writes do nothing. */
  lemma {:induction false} ReachesPeripheral(w: Wiring, b: Bus, addr: word, size: nat, value: word)
    requires ValidWiring(w) && ValidBus(b)
    requires (addr < 0x4200_0000 || 0x4400_0000 <= addr) && addr - WordAt(addr) + size <= 4
    ensures Routable(addr, size)
    ensures match w.find(WordAt(addr))
            case None =>
              BusRead(w, b, addr) == (Fetched(0, addr - WordAt(addr)), b) && BusWrite(w, b, addr, size, value) == b
            case Some(i) =>
              i < |w.slots| && 0 <= WordAt(addr) - w.slots[i].start < 0x1_0000_0000
              && match w.slots[i].peripheral
                 case NvicRegisters(_) => true
                 case Other(id) =>
                   var offset: word := WordAt(addr) - w.slots[i].start;
                   var whole := w.answers(id, LogOf(b, id) + [Get(offset)]);
                   && BusRead(w, b, addr) == (Fetched(whole, addr - WordAt(addr)), Logged(b, id, Get(offset)))
                   && BusWrite(w, b, addr, size, value)
                      == if size >= 4 || 0x6000_0000 <= addr < 0xa000_0000 then Logged(b, id, Set(offset, value))
                         else Logged(Logged(b, id, Get(offset)), id,
                                     Set(offset, Merged(whole, value, addr - WordAt(addr), size)))
  {
    hide Merged, Fetched, Bit;
    AliasOf(0x4000_0000, 0, addr);
    if w.find(WordAt(addr)).Some? {
      NvicOffset(w, WordAt(addr));
    }
  }

  /** So does one that reaches interrupt controller registers, at the offset of their slot. */
  lemma {:induction false} ReachesNvic(w: Wiring, b: Bus, addr: word, size: nat, value: word, i: nat)
    requires ValidWiring(w) && ValidBus(b) && addr % 4 + size <= 4
    requires w.find(WordAt(addr)) == Some(i)
    requires i < |w.slots| && w.slots[i].peripheral.NvicRegisters?
    ensures Routable(addr, size)
    ensures var o := WordAt(addr) - w.slots[i].start + w.slots[i].peripheral.baseOffset;
            && 0 <= o < 0x1_0000_0000 && o % 4 == 0
            && (addr < 0x4200_0000 || 0x4400_0000 <= addr ==>
                  var whole := Nvic.RegisterValue(b.nvic, b.priorities, o);
                  var merged := if size >= 4 then value else Merged(whole, value, addr % 4, size);
                  && BusRead(w, b, addr) == (Fetched(whole, addr % 4), b)
                  && BusWrite(w, b, addr, size, value)
                     == b.(nvic := NvicPending.WriteEnable(b.nvic, o, merged),
                           priorities := Nvic.WithPriorityWord(b.priorities, o, merged)))
  {
    hide Merged, Fetched, Bit, NvicPending.WriteEnable, Nvic.WithPriorityWord, Nvic.RegisterValue;
    AliasOf(0x4000_0000, 0, addr);
    NvicOffset(w, WordAt(addr));
  }

  /** A bit-band write changes the target bit to the value and no other bit of the
      byte exactly when no other bit was set and it was not meant to clear a set bit. */
  lemma {:induction false} BitBandFaithfulIff(current: word, bit: nat, value: word)
    requires bit < 8
    ensures (forall j: nat :: j < 8 ==>
               (Bit(Banded(current, bit, value), j) <==> if j == bit then value % 2 == 1 else Bit(current, j)))
            <==> (forall j: nat :: j < 8 && j != bit ==> !Bit(current, j)) && (Bit(current, bit) ==> value % 2 == 1)
  {
    hide Bit;
    var r := Banded(current, bit, value);
    if forall j: nat :: j < 8 ==> (Bit(r, j) <==> if j == bit then value % 2 == 1 else Bit(current, j)) {
      forall j: nat | j < 8 && j != bit
        ensures !Bit(current, j)
      {
        assert !Bit(r, j);
      }
      assert Bit(r, bit) <==> value % 2 == 1;
    }
  }

  /** For instance setting bit 0 of a byte that holds 2 loses bit 1, and clearing bit
      0 of a byte that holds 1 leaves it set. */
  lemma {:induction false} BitBandLosesBits()
    ensures Bit(2, 1) && !Bit(Banded(2, 0, 1), 1)
    ensures Bit(Banded(1, 0, 0), 0)
  {
    assert Bit(2, 1) == Bit(1, 0);
  }

  // ---- Routing to the priority bytes ----

  /** The slot of the core registration, and nothing later in its way: it is the last
      one starting where it does, and no slot starts inside it. */
  ghost predicate CoreNvicRouted(slots: Table, k: nat) {
    && k < |slots| && slots[k] == Slot(0xe000_e100, 0xe000_e4ef, NvicRegisters(0x100))
    && forall j :: k < j < |slots| ==> 0xe000_e4ef < slots[j].start
  }

  lemma {:induction false} PrioritySlot(w: Wiring, k: nat, addr: word)
    requires ValidWiring(w) && CoreNvicRouted(w.slots, k) && 0xe000_e100 < addr <= 0xe000_e4ef
    ensures w.find(addr) == Some(k)
  {
    assert MayFind(w.slots, addr, w.find(addr));
    assert IsLast(w.slots, addr, k);
  }

  /** Through the whole router, an access inside a priority word is that access to the
      flat bytes, and touches nothing else. */
  lemma {:induction false} RoutedToPriorities(w: Wiring, b: Bus, k: nat, a: Access)
    requires ValidWiring(w) && ValidBus(b) && CoreNvicRouted(w.slots, k) && InWord(a)
    ensures Routable(PRIORITY_BASE + a.at, a.size)
    ensures a.ReadAt? ==> BusRead(w, b, PRIORITY_BASE + a.at) == (ReadResult(b.priorities, a), b)
    ensures a.WriteAt? ==> BusWrite(w, b, PRIORITY_BASE + a.at, a.size, a.value)
                           == b.(priorities := AfterAccess(b.priorities, a))
  {
    hide Merged, Fetched, Nvic.PriorityWord, Nvic.WithPriorityWord, Bit, BitBanding, Aligned, IsRegister, GetWord,
         SetWord, ValidWiring, CoreNvicRouted;
    var (offset, current) := (WordOffset(a.at), Nvic.PriorityWord(b.priorities, WordOffset(a.at)));
    PriorityAddress(a.at);
    PriorityRead(w, b, k, offset);
    if a.WriteAt? {
      PriorityWrite(w, b, k, offset, Merged(current, a.value, a.at % 4, a.size));
      if a.size == 4 {
        MergedWhole(current, a.value);
      }
    }
  }

  /** Whole words, at a priority register's offset. */
  lemma {:induction false} PriorityRead(w: Wiring, b: Bus, k: nat, offset: word)
    requires ValidWiring(w) && ValidBus(b) && CoreNvicRouted(w.slots, k)
    requires Nvic.IPR_OFFSET <= offset < Nvic.IPR_OFFSET + Nvic.IPR_COUNT && offset % 4 == 0
    ensures GetWord(w, b, NVIC_BASE + offset) == (Nvic.PriorityWord(b.priorities, offset), b)
  {
    hide Nvic.PriorityWord, MayFind;
    PrioritySlot(w, k, NVIC_BASE + offset);
    OffsetIsPlain(b, offset);
  }

  lemma {:induction false} PriorityWrite(w: Wiring, b: Bus, k: nat, offset: word, value: word)
    requires ValidWiring(w) && ValidBus(b) && CoreNvicRouted(w.slots, k)
    requires Nvic.IPR_OFFSET <= offset < Nvic.IPR_OFFSET + Nvic.IPR_COUNT && offset % 4 == 0
    ensures SetWord(w, b, NVIC_BASE + offset, value)
            == b.(priorities := Nvic.WithPriorityWord(b.priorities, offset, value))
  {
    hide Nvic.WithPriorityWord, MayFind;
    PrioritySlot(w, k, NVIC_BASE + offset);
    OffsetIsPlain(b, offset);
  }

  lemma {:induction false} PriorityAddress(at: nat)
    requires at < Nvic.IPR_COUNT
    ensures var addr: word := PRIORITY_BASE + at;
            BitBanding(addr).None? && IsRegister(addr) && Aligned(addr) == (addr - at % 4, at % 4)
  {
  }

  lemma {:induction false} MergedWhole(current: word, value: word)
    ensures Merged(current, value, 0, 4) == value
  {
  }

  lemma {:induction false} OffsetIsPlain(b: Bus, offset: word)
    requires ValidBus(b) && offset % 4 == 0 && 0x400 <= offset < 0x4f0
    ensures Nvic.RegisterValue(b.nvic, b.priorities, offset) == Nvic.PriorityWord(b.priorities, offset)
    ensures forall value: word :: NvicPending.WriteEnable(b.nvic, offset, value) == b.nvic
  {
  }

  // ---- Whole sequences of bus accesses ----

  /** An access of 1 to 4 bytes anywhere on the bus. */
  datatype BusAccess =
    | ReadBus(addr: word, size: nat)
    | WriteBus(addr: word, size: nat, value: word)

  predicate Accepted(x: BusAccess) {
    1 <= x.size <= 4 && Routable(x.addr, x.size)
  }

  ghost predicate AllAccepted(xs: seq<BusAccess>) {
    forall i :: 0 <= i < |xs| ==> Accepted(xs[i])
  }

  ghost function BusStep(w: Wiring, b: Bus, x: BusAccess): (r: Bus)
    requires ValidWiring(w) && ValidBus(b) && Accepted(x)
    ensures ValidBus(r)
  {
    match x
    case ReadBus(addr, _) => BusRead(w, b, addr).1
    case WriteBus(addr, size, value) => BusWrite(w, b, addr, size, value)
  }

  ghost function BusRun(w: Wiring, b: Bus, xs: seq<BusAccess>): (r: Bus)
    requires ValidWiring(w) && ValidBus(b) && AllAccepted(xs)
    ensures ValidBus(r)
    decreases |xs|
  {
    if xs == [] then b else BusStep(w, BusRun(w, b, xs[..|xs| - 1]), xs[|xs| - 1])
  }

  predicate OnPriorities(addr: word) {
    0xe000_e400 <= addr < 0xe000_e4f0
  }

  function ToPriorities(x: BusAccess): Access
    requires OnPriorities(x.addr)
  {
    match x
    case ReadBus(addr, size) => ReadAt(addr - PRIORITY_BASE, size)
    case WriteBus(addr, size, value) => WriteAt(addr - PRIORITY_BASE, size, value)
  }

  /** The accesses to priority bytes among those to the whole bus. */
  function PriorityAccesses(xs: seq<BusAccess>): (r: seq<Access>)
    requires AllAccepted(xs)
    ensures AllInWord(r)
  {
    if xs == [] then []
    else
      var (front, x) := (PriorityAccesses(xs[..|xs| - 1]), xs[|xs| - 1]);
      if OnPriorities(x.addr) then
        StaysInWord(x);
        front + [ToPriorities(x)]
      else front
  }

  lemma {:induction false} StaysInWord(x: BusAccess)
    requires Accepted(x) && OnPriorities(x.addr)
    ensures InWord(ToPriorities(x))
  {
  }

  /** No slot but the core one reaches the priority registers. */
  ghost predicate OnlyCore(slots: Table, k: nat) {
    forall i :: 0 <= i < |slots| && i != k && slots[i].peripheral.NvicRegisters? ==>
      slots[i].end - slots[i].start + slots[i].peripheral.baseOffset < Nvic.IPR_OFFSET
  }

  lemma {:induction false} OtherWordKeeps(w: Wiring, b: Bus, k: nat, addr: word, value: word)
    requires ValidWiring(w) && ValidBus(b) && CoreNvicRouted(w.slots, k) && OnlyCore(w.slots, k)
    requires (IsRegister(addr) ==> addr % 4 == 0) && !OnPriorities(addr)
    ensures SetWord(w, b, addr, value).priorities == b.priorities
  {
    hide NvicPending.WriteEnable, MayFind;
    if w.find(addr).Some? {
      NvicOffset(w, addr);
    }
  }

  /** Alignment never leads into the priority bytes or out of them. */
  lemma {:induction false} SameSide(addr: word)
    ensures OnPriorities(Aligned(addr).0) <==> OnPriorities(addr)
    ensures BitBanding(addr).Some? ==> !OnPriorities(addr) && !OnPriorities(BitBanding(addr).value.0)
                                       && Aligned(BitBanding(addr).value.0).1 + 1 <= 4
  {
  }

  lemma {:induction false} OtherWriteKeeps(w: Wiring, b: Bus, k: nat, addr: word, size: nat, value: word)
    requires ValidWiring(w) && ValidBus(b) && CoreNvicRouted(w.slots, k) && OnlyCore(w.slots, k)
    requires Aligned(addr).1 + size <= 4 && !OnPriorities(addr)
    ensures PlainWrite(w, b, addr, size, value).priorities == b.priorities
  {
    hide GetWord, SetWord, Merged, Aligned, ValidWiring, CoreNvicRouted, OnlyCore, OnPriorities;
    var (aligned, offset) := Aligned(addr);
    SameSide(addr);
    var (current, t) := GetWord(w, b, aligned);
    if IsRegister(addr) && size < 4 {
      OtherWordKeeps(w, t, k, aligned, Merged(current, value, offset, size));
    } else {
      OtherWordKeeps(w, b, k, aligned, value);
    }
  }

  /** One access anywhere: the priority bytes change as flat bytes do, or not at all. */
  lemma {:induction false} StepOnPriorities(w: Wiring, b: Bus, k: nat, x: BusAccess)
    requires ValidWiring(w) && ValidBus(b) && CoreNvicRouted(w.slots, k) && OnlyCore(w.slots, k) && Accepted(x)
    ensures OnPriorities(x.addr) ==> InWord(ToPriorities(x))
    ensures BusStep(w, b, x).priorities
            == if OnPriorities(x.addr) then AfterAccess(b.priorities, ToPriorities(x)) else b.priorities
  {
    hide PlainRead, PlainWrite, AfterAccess, Banded, ValidWiring, CoreNvicRouted, OnlyCore, Aligned;
    SameSide(x.addr);
    if OnPriorities(x.addr) {
      StaysInWord(x);
      RoutedToPriorities(w, b, k, ToPriorities(x));
      ReadKeepsAll(b.priorities, ReadAt(x.addr - PRIORITY_BASE, x.size));
    } else if x.WriteBus? {
      match BitBanding(x.addr) {
        case Some((target, bit)) =>
          var (v, t) := PlainRead(w, b, target);
          OtherWriteKeeps(w, t, k, target, 1, Banded(v, bit, x.value));
        case None => OtherWriteKeeps(w, b, k, x.addr, x.size, x.value);
      }
    }
  }

  lemma {:induction false} RunOnPriorities(w: Wiring, b: Bus, k: nat, xs: seq<BusAccess>)
    requires ValidWiring(w) && ValidBus(b) && CoreNvicRouted(w.slots, k) && OnlyCore(w.slots, k) && AllAccepted(xs)
    ensures BusRun(w, b, xs).priorities == RunAccesses(b.priorities, PriorityAccesses(xs))
    decreases |xs|
  {
    hide BusStep, AfterAccess, ValidWiring, CoreNvicRouted, OnlyCore, OnPriorities;
    if xs != [] {
      var (front, x) := (xs[..|xs| - 1], xs[|xs| - 1]);
      RunOnPriorities(w, b, k, front);
      StepOnPriorities(w, BusRun(w, b, front), k, x);
      if OnPriorities(x.addr) {
        var all := PriorityAccesses(front) + [ToPriorities(x)];
        assert all[..|all| - 1] == PriorityAccesses(front);
      }
    }
  }

  /** The priority bytes are a flat little-endian memory on the bus: after any sequence
      of accesses, to them and to anything else, each holds what the latest write that
      covers it put there, and a read returns those bytes. */
  lemma {:induction false} BusIsFlat(w: Wiring, b: Bus, k: nat, xs: seq<BusAccess>, a: Access, i: nat)
    requires ValidWiring(w) && ValidBus(b) && CoreNvicRouted(w.slots, k) && OnlyCore(w.slots, k) && AllAccepted(xs)
    requires InWord(a) && i < a.size
    ensures a.at + i < Nvic.IPR_COUNT
    ensures BusRun(w, b, xs).priorities[a.at + i] == LastWritten(b.priorities, PriorityAccesses(xs), a.at + i)
    ensures a.ReadAt? ==> LeBytes(BusRead(w, BusRun(w, b, xs), 0xe000_e400 + a.at).0)[i]
                          == LastWritten(b.priorities, PriorityAccesses(xs), a.at + i)
  {
    hide BusRead, BusRun, ReadResult, LeBytes, RunAccesses, LastWritten, ValidWiring, CoreNvicRouted, OnlyCore;
    var accesses := PriorityAccesses(xs);
    RunOnPriorities(w, b, k, xs);
    FlatReads(b.priorities, accesses, a, i);
    FlatMemory(b.priorities, accesses, a.at + i);
    if a.ReadAt? {
      RoutedToPriorities(w, BusRun(w, b, xs), k, a);
    }
  }

  // ---- Other peripherals ----

  /** A sub-word write reaches any other peripheral as a read and then a write of the
      whole word; a word write as one write. */
  lemma {:induction false} OtherSeesWords(w: Wiring, b: Bus, addr: word, size: nat, value: word, i: nat, id: nat)
    requires ValidWiring(w) && ValidBus(b) && BitBanding(addr).None? && IsRegister(addr) && addr % 4 + size <= 4
    requires w.find(addr - addr % 4) == Some(i)
    ensures i < |w.slots| && w.slots[i].start <= addr - addr % 4 && Aligned(addr) == (addr - addr % 4, addr % 4)
    ensures w.slots[i].peripheral == Other(id) ==>
              var (offset, before) := (addr - addr % 4 - w.slots[i].start, LogOf(b, id));
              LogOf(BusWrite(w, b, addr, size, value), id)
              == before + if size == 4 then [Set(offset, value)]
                          else [Get(offset),
                                Set(offset, Merged(w.answers(id, before + [Get(offset)]), value, addr % 4, size))]
  {
    hide Merged, MayFind;
    NvicOffset(w, addr - addr % 4);
    var offset := addr - addr % 4 - w.slots[i].start;
    var before := LogOf(b, id);
    if size < 4 && w.slots[i].peripheral == Other(id) {
      var merged := Merged(w.answers(id, before + [Get(offset)]), value, addr % 4, size);
      assert before + [Get(offset)] + [Set(offset, merged)] == before + [Get(offset), Set(offset, merged)];
    }
  }

  /** The latest word written at an offset. */
  function LastSet(log: seq<RegisterAccess>, offset: word): word {
    if log == [] then 0
    else
      var a := log[|log| - 1];
      if a.Set? && a.offset == offset then a.value else LastSet(log[..|log| - 1], offset)
  }

  /** A peripheral that is plain storage: it answers with what was written. */
  ghost predicate Stores(answers: Answers, id: nat) {
    forall log, offset :: answers(id, log + [Get(offset)]) == LastSet(log, offset)
  }

  lemma {:induction false} LastSetAppend(log: seq<RegisterAccess>, a: RegisterAccess, offset: word)
    ensures LastSet(log + [a], offset) == if a.Set? && a.offset == offset then a.value else LastSet(log, offset)
  {
    assert (log + [a])[..|log|] == log;
  }

  /** A write, or a read and a write, of one word. */
  lemma {:induction false} LastSetAfter(before: seq<RegisterAccess>, log: seq<RegisterAccess>, offset: word,
                                        value: word, at: word)
    requires log == before + [Set(offset, value)] || log == before + [Get(offset), Set(offset, value)]
    ensures LastSet(log, at) == if at == offset then value else LastSet(before, at)
  {
    hide LastSet;
    LastSetAppend(before, Set(offset, value), at);
    LastSetAppend(before, Get(offset), at);
    LastSetAppend(before + [Get(offset)], Set(offset, value), at);
    assert before + [Get(offset), Set(offset, value)] == (before + [Get(offset)]) + [Set(offset, value)];
  }

  lemma {:induction false} ReadStored(w: Wiring, b: Bus, addr: word, i: nat, id: nat)
    requires ValidWiring(w) && ValidBus(b) && BitBanding(addr).None? && IsRegister(addr)
    requires w.find(addr - addr % 4) == Some(i) && Stores(w.answers, id)
    ensures i < |w.slots| && w.slots[i].start <= addr - addr % 4
    ensures w.slots[i].peripheral == Other(id) ==>
              BusRead(w, b, addr).0
              == Fetched(LastSet(LogOf(b, id), addr - addr % 4 - w.slots[i].start), addr % 4)
  {
    hide Fetched, MayFind;
    NvicOffset(w, addr - addr % 4);
  }

  /** Sub-word writes to storage behave as to memory: a byte read back afterwards is the
      byte written if the access covered it, and otherwise what it was before. */
  lemma {:induction false} StorageKeepsBytes(w: Wiring, b: Bus, addr: word, size: nat, value: word, i: nat, id: nat,
                                             x: word)
    requires ValidWiring(w) && ValidBus(b) && i < |w.slots| && w.slots[i].peripheral == Other(id)
    requires BitBanding(addr).None? && IsRegister(addr) && addr % 4 + size <= 4 && BitBanding(x).None? && IsRegister(x)
    requires w.find(addr - addr % 4) == Some(i) && w.find(x - x % 4) == Some(i) && Stores(w.answers, id)
    ensures Routable(addr, size)
    ensures LeBytes(BusRead(w, BusWrite(w, b, addr, size, value), x).0)[0]
            == if addr <= x < addr + size then LeBytes(value)[x - addr] else LeBytes(BusRead(w, b, x).0)[0]
  {
    hide BusRead, BusWrite, BitBanding, LeBytes, Merged, Fetched, ValidWiring, LastSet;
    OtherSeesWords(w, b, addr, size, value, i, id);
    var (t, before) := (BusWrite(w, b, addr, size, value), LogOf(b, id));
    var (offset, at) := (addr - addr % 4 - w.slots[i].start, x - x % 4 - w.slots[i].start);
    ReadStored(w, b, x, i, id);
    ReadStored(w, t, x, i, id);
    var current := LastSet(before, offset);
    var stored := if size == 4 then value else Merged(current, value, addr % 4, size);
    assert w.answers(id, before + [Get(offset)]) == current;
    LastSetAfter(before, LogOf(t, id), offset, stored, at);
    FetchedBytes(LastSet(LogOf(t, id), at), x % 4, 0);
    FetchedBytes(LastSet(before, at), x % 4, 0);
    StoredBytes(current, value, addr % 4, size, x % 4);
  }

  lemma {:induction false} StoredBytes(current: word, value: word, offset: nat, size: nat, k: nat)
    requires offset + size <= 4 && k < 4
    ensures LeBytes(if size == 4 then value else Merged(current, value, offset, size))[k]
            == if offset <= k < offset + size then LeBytes(value)[k - offset] else LeBytes(current)[k]
  {
    hide LeBytes, Merged;
    if size != 4 {
      MergedBytes(current, value, offset, size, k);
    }
  }

  // ---- A table that overlaps ----

  /** The interrupt controller as the STM32F407 boards register it: once where the
      device description puts it, without a base offset, and once by the core
      registration, at the same address. */
  const F407_NVIC: Table := [Slot(0xe000_e100, 0xe000_e450, NvicRegisters(0)),
                             Slot(0xe000_e100, 0xe000_e4ef, NvicRegisters(0x100))]

  /** On that table the first enable register may be routed to either slot, while the
      priority bytes reach the core one and no other. */
  lemma {:induction false} SharedStartIsAmbiguous()
    ensures ValidTable(F407_NVIC) && !DistinctStarts(F407_NVIC)
    ensures MayFind(F407_NVIC, 0xe000_e100, Some(0)) && MayFind(F407_NVIC, 0xe000_e100, Some(1))
    ensures CoreNvicRouted(F407_NVIC, 1) && OnlyCore(F407_NVIC, 1)
  {
    assert F407_NVIC[0].start == F407_NVIC[1].start;
  }

  class Peripherals {
    const slots: Table
    const answers: Answers
    const nvic: Nvic.Nvic
    var logs: map<nat, seq<RegisterAccess>>

    ghost predicate Valid() {
      ValidTable(slots) && nvic.Valid()
    }

    ghost function Wires(): Wiring {
      Wiring(slots, (addr: word) => Searched(slots, addr), answers)
    }

    lemma {:induction false} WiresAreValid()
      requires Valid()
      ensures ValidWiring(Wires())
    {
      forall addr: word
        ensures MayFind(slots, addr, Wires().find(addr))
      {
        SearchedIsPossible(slots, addr);
      }
    }

    ghost function State(): (b: Bus)
      requires Valid()
      reads this, nvic, nvic.priorities
      ensures ValidBus(b) && ValidWiring(Wires())
    {
      WiresAreValid();
      Bus(nvic.State(), nvic.priorities[..], logs)
    }

    constructor (slots: Table, answers: Answers)
      requires ValidTable(slots)
      ensures Valid() && this.slots == slots && this.answers == answers && fresh(nvic) && fresh(nvic.priorities)
      ensures logs == map[]
    {
      this.slots, this.answers, logs := slots, answers, map[];
      nvic := new Nvic.Nvic();
    }

    /** A whole-word read of whatever peripheral the search finds. */
    method ReadWord(addr: word) returns (value: word)
      requires Valid() && (IsRegister(addr) ==> addr % 4 == 0)
      modifies this
      ensures Valid() && (value, State()) == GetWord(Wires(), old(State()), addr)
    {
      hide Nvic.RegisterValue, Searched, MayFind, Sorted, Found, Determined, Disjoint, LinearScan;
      WiresAreValid();
      var slot := GetPeripheral(slots, addr);
      if slot.None? {
        return 0;
      }
      NvicOffset(Wires(), addr);
      var (offset, peripheral) := (addr - slots[slot.value].start, slots[slot.value].peripheral);
      match peripheral {
        case NvicRegisters(base) => value := nvic.Read(offset + base);
        case Other(id) =>
          var log := (if id in logs then logs[id] else []) + [Get(offset)];
          value := answers(id, log);
          logs := logs[id := log];
      }
    }

    method WriteWord(addr: word, value: word)
      requires Valid() && (IsRegister(addr) ==> addr % 4 == 0)
      modifies this, nvic, nvic.priorities
      ensures Valid() && State() == SetWord(Wires(), old(State()), addr, value)
    {
      hide Nvic.WithPriorityWord, NvicPending.WriteEnable, Searched, MayFind, Sorted, Found, Determined, Disjoint,
           LinearScan;
      WiresAreValid();
      var slot := GetPeripheral(slots, addr);
      if slot.None? {
        return;
      }
      NvicOffset(Wires(), addr);
      var (offset, peripheral) := (addr - slots[slot.value].start, slots[slot.value].peripheral);
      match peripheral {
        case NvicRegisters(base) => nvic.Write(offset + base, value);
        case Other(id) => logs := logs[id := (if id in logs then logs[id] else []) + [Set(offset, value)]];
      }
    }

    method ReadPlain(addr: word) returns (value: word)
      requires Valid()
      modifies this
      ensures Valid() && (value, State()) == PlainRead(Wires(), old(State()), addr)
    {
      hide GetWord, Fetched;
      var (aligned, byteOffset) := if IsRegister(addr) then AlignAddr4(addr) else (addr, 0);
      var v := ReadWord(aligned);
      value := Fetched(v, byteOffset);
    }

    method Read(addr: word, size: nat) returns (value: word)
      requires Valid() && Routable(addr, size)
      modifies this
      ensures Valid() && (value, State()) == BusRead(Wires(), old(State()), addr)
    {
      hide PlainRead, Bit;
      var band := BitBanding(addr);
      if band.Some? {
        var (target, bit) := band.value;
        var v := ReadPlain(target);
        return if Bit(v, bit) then 1 else 0;
      }
      value := ReadPlain(addr);
    }

    method WritePlain(addr: word, size: nat, value: word)
      requires Valid() && Aligned(addr).1 + size <= 4
      modifies this, nvic, nvic.priorities
      ensures Valid() && State() == PlainWrite(Wires(), old(State()), addr, size, value)
    {
      hide GetWord, SetWord, Select, WriteMask, Shl32;
      var (aligned, byteOffset) := if IsRegister(addr) then AlignAddr4(addr) else (addr, 0);
      var merged := value;
      if IsRegister(aligned) && size < 4 {
        var current := ReadWord(aligned);
        merged := Select(current, Shl32(value, 8 * byteOffset), WriteMask(byteOffset, size));
      }
      WriteWord(aligned, merged);
    }

    method Write(addr: word, size: nat, value: word)
      requires Valid() && Routable(addr, size)
      modifies this, nvic, nvic.priorities
      ensures Valid() && State() == BusWrite(Wires(), old(State()), addr, size, value)
    {
      hide PlainRead, PlainWrite, Banded;
      var band := BitBanding(addr);
      if band.Some? {
        var (target, bit) := band.value;
        var v := ReadPlain(target);
        WritePlain(target, 1, Banded(v, bit, value));
        return;
      }
      WritePlain(addr, size, value);
    }
  }
}
