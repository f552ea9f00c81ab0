/** Machine words as natural numbers, with their bits defined arithmetically.

    Every register of the emulator is a fixed-width unsigned word. The operators
    below are the ones the Rust code applies to them (`&`, `|`, `^`, `& !`, `<<`,
    `trailing_zeros`), each specified by what it does to every single bit. */
module Bits {
  type byte = x: int | 0 <= x < 0x100
  type word = x: int | 0 <= x < 0x1_0000_0000
  type long = x: int | 0 <= x < 0x1_0000_0000_0000_0000

  datatype Option<+T> = None | Some(value: T)

  /** Bit `k` of `v`, counting from the least significant. */
  predicate Bit(v: nat, k: nat)
    decreases v
  {
    if k == 0 then v % 2 == 1 else v != 0 && Bit(v / 2, k - 1)
  }

  /** Two to the power `n`. */
  function Pow2(n: nat): (r: nat)
    ensures r >= 1
  {
    if n == 0 then 1 else 2 * Pow2(n - 1)
  }

  function SetBit(v: nat, k: nat): (r: nat)
    ensures forall j: nat :: Bit(r, j) <==> j == k || Bit(v, j)
    ensures v <= r && 1 <= r
    decreases k
  {
    if k == 0 then v - v % 2 + 1 else 2 * SetBit(v / 2, k - 1) + v % 2
  }

  function ClearBit(v: nat, k: nat): (r: nat)
    ensures forall j: nat :: Bit(r, j) <==> j != k && Bit(v, j)
    ensures r <= v
    decreases v
  {
    if k == 0 then v - v % 2 else if v == 0 then 0 else 2 * ClearBit(v / 2, k - 1) + v % 2
  }

  function And(a: nat, b: nat): (r: nat)
    ensures forall j: nat :: Bit(r, j) <==> Bit(a, j) && Bit(b, j)
    ensures r <= a && r <= b
    decreases a
  {
    if a == 0 || b == 0 then 0 else 2 * And(a / 2, b / 2) + (a % 2) * (b % 2)
  }

  /** `a & !b` */
  function AndNot(a: nat, b: nat): (r: nat)
    ensures forall j: nat :: Bit(r, j) <==> Bit(a, j) && !Bit(b, j)
    ensures r <= a
    decreases a
  {
    if a == 0 then 0 else 2 * AndNot(a / 2, b / 2) + (if b % 2 == 1 then 0 else a % 2)
  }

  function Or(a: nat, b: nat): (r: nat)
    ensures forall j: nat :: Bit(r, j) <==> Bit(a, j) || Bit(b, j)
    ensures a <= r && b <= r
    decreases a + b
  {
    if a == 0 then b else if b == 0 then a
    else 2 * Or(a / 2, b / 2) + (if a % 2 == 1 then 1 else b % 2)
  }

  function Xor(a: nat, b: nat): (r: nat)
    ensures forall j: nat :: Bit(r, j) <==> Bit(a, j) != Bit(b, j)
    decreases a + b
  {
    if a == 0 then b else if b == 0 then a
    else 2 * Xor(a / 2, b / 2) + (if a % 2 == b % 2 then 0 else 1)
  }

  /** `v << n`, before truncation to the word width. */
  function Shl(v: nat, n: nat): (r: nat)
    ensures forall j: nat :: Bit(r, j) <==> n <= j && Bit(v, j - n)
    ensures r == v * Pow2(n)
  {
    if n == 0 then v else 2 * Shl(v, n - 1)
  }

  /** `v >> n` */
  function Shr(v: nat, n: nat): (r: nat)
    ensures forall j: nat :: Bit(r, j) <==> Bit(v, j + n)
    ensures r <= v
    decreases n
  {
    if n == 0 then v else Shr(v / 2, n - 1)
  }

  /** The low `n` bits: what a cast to an `n`-bit word keeps. */
  function Low(v: nat, n: nat): (r: nat)
    ensures forall j: nat :: Bit(r, j) <==> j < n && Bit(v, j)
    ensures r < Pow2(n)
    ensures r <= v
    decreases n
  {
    if n == 0 then 0 else 2 * Low(v / 2, n - 1) + v % 2
  }

  /** `trailing_zeros` of a non-zero word: its lowest set bit. */
  function TrailingZeros(v: nat): (k: nat)
    requires v != 0
    ensures Bit(v, k)
    ensures forall j: nat :: j < k ==> !Bit(v, j)
    decreases v
  {
    if v % 2 == 1 then 0 else 1 + TrailingZeros(v / 2)
  }

  /** A word is determined by its bits. */
  lemma {:induction false} SameBits(a: nat, b: nat)
    requires forall j: nat :: Bit(a, j) <==> Bit(b, j)
    ensures a == b
    decreases a + b
  {
    if a == 0 && b == 0 {
    } else {
      assert Bit(a, 0) <==> Bit(b, 0);
      forall j: nat
        ensures Bit(a / 2, j) <==> Bit(b / 2, j)
      {
        assert Bit(a, j + 1) <==> Bit(b, j + 1);
      }
      SameBits(a / 2, b / 2);
    }
  }

  /** A word with no bit set is zero. */
  lemma {:induction false} ZeroBits(v: nat)
    requires forall j: nat :: !Bit(v, j)
    ensures v == 0
  {
    if v != 0 {
      var _ := TrailingZeros(v);
    }
  }

  /** A word whose bits all lie below `n` fits in `n` bits. */
  lemma {:induction false} FitsWidth(v: nat, n: nat)
    requires forall j: nat :: n <= j ==> !Bit(v, j)
    ensures v < Pow2(n)
    decreases n
  {
    if n == 0 {
      ZeroBits(v);
    } else {
      forall j: nat | n - 1 <= j
        ensures !Bit(v / 2, j)
      {
        assert !Bit(v, j + 1);
      }
      FitsWidth(v / 2, n - 1);
    }
  }

  /** A word that fits in `n` bits has none at or above `n`. */
  lemma {:induction false} HighBitsClear(v: nat, n: nat)
    requires v < Pow2(n)
    ensures forall j: nat :: n <= j ==> !Bit(v, j)
    decreases n
  {
    if n != 0 {
      HighBitsClear(v / 2, n - 1);
    }
  }

  /** A word with a set bit is not zero. */
  lemma {:induction false} NonZeroHasBit(v: nat)
    requires v != 0
    ensures exists j: nat :: Bit(v, j)
  {
    assert Bit(v, TrailingZeros(v));
  }

  /** `n` ones. */
  lemma {:induction false} Ones(n: nat, v: nat)
    requires v == Pow2(n) - 1
    ensures forall j: nat :: Bit(v, j) <==> j < n
    decreases n
  {
    if n == 0 {
      assert forall j: nat :: !Bit(0, j);
    } else {
      Ones(n - 1, v / 2);
    }
  }

  lemma {:induction false} WordBits(v: nat)
    ensures v < 0x1_0000_0000 <==> v < Pow2(32)
  {
    assert Pow2(8) == 256;
    assert Pow2(16) == 256 * Pow2(8);
    assert Pow2(24) == 256 * Pow2(16);
    assert Pow2(32) == 256 * Pow2(24);
  }

  /** The bits of a number written as a high and a low part. */
  lemma {:induction false} HighAndLow(v: nat, k: nat, high: nat, low: nat)
    requires v == high * Pow2(k) + low && low < Pow2(k)
    ensures forall j: nat :: Bit(v, j) <==> if j < k then Bit(low, j) else Bit(high, j - k)
    decreases k
  {
    if k == 0 {
      assert v == high;
    } else {
      var upper := high * Pow2(k - 1) + low / 2;
      DoubledProduct(high, k);
      HighAndLow(upper, k - 1, high, low / 2);
      OneMoreBit(v, upper, low, k);
      hide Bit, Pow2;
      forall j: nat
        ensures Bit(v, j) <==> if j < k then Bit(low, j) else Bit(high, j - k)
      {
        if j != 0 {
          assert Bit(upper, j - 1) <==> if j < k then Bit(low / 2, j - 1) else Bit(high, (j - 1) - (k - 1));
        }
      }
    }
  }

  lemma {:induction false} DoubledProduct(high: nat, k: nat)
    requires k != 0
    ensures high * Pow2(k) == 2 * (high * Pow2(k - 1))
  {
  }

  lemma {:induction false} OneMoreBit(v: nat, upper: nat, low: nat, k: nat)
    requires v / 2 == upper && v % 2 == low % 2 && k != 0
    ensures forall j: nat :: Bit(v, j) <==> if j == 0 then Bit(low, 0) else Bit(upper, j - 1)
    ensures forall j: nat :: 0 < j ==> (Bit(low, j) <==> Bit(low / 2, j - 1))
  {
  }

  /** `v | (1 << k)` on a 32-bit register. */
  function SetFlag(v: word, k: nat): (r: word)
    requires k < 32
    ensures forall j: nat :: Bit(r, j) <==> j == k || Bit(v, j)
  {
    WordBits(v);
    HighBitsClear(v, 32);
    FitsWidth(SetBit(v, k), 32);
    WordBits(SetBit(v, k));
    SetBit(v, k)
  }

  // ---- Little-endian words ----

  function LeWord(b0: byte, b1: byte, b2: byte, b3: byte): (w: word) {
    b0 + 0x100 * (b1 + 0x100 * (b2 + 0x100 * b3))
  }

  function LeBytes(w: word): (b: seq<byte>)
    ensures |b| == 4
    ensures LeWord(b[0], b[1], b[2], b[3]) == w
  {
    var (w1, w2, w3) := (w / 0x100, w / 0x100 / 0x100, w / 0x100 / 0x100 / 0x100);
    [w % 0x100, w1 % 0x100, w2 % 0x100, w3]
  }

  /** Byte `k` of a word holds its bits from 8 * `k` on. */
  lemma {:induction false} LeWordBits(b0: byte, b1: byte, b2: byte, b3: byte, j: nat)
    ensures Bit(LeWord(b0, b1, b2, b3), j) <==>
            if j < 8 then Bit(b0, j) else if j < 16 then Bit(b1, j - 8) else if j < 24 then Bit(b2, j - 16)
            else Bit(b3, j - 24)
  {
    hide Bit;
    assert Pow2(8) == 0x100;
    HighAndLow(LeWord(b0, b1, b2, b3), 8, b1 + 0x100 * (b2 + 0x100 * b3), b0);
    HighAndLow(b1 + 0x100 * (b2 + 0x100 * b3), 8, b2 + 0x100 * b3, b1);
    HighAndLow(b2 + 0x100 * b3, 8, b3, b2);
  }

  lemma {:induction false} LowByte(b: byte, rest: nat)
    ensures (b + 0x100 * rest) % 0x100 == b && (b + 0x100 * rest) / 0x100 == rest
  {
  }

  lemma {:induction false} LeBytesOfWord(b0: byte, b1: byte, b2: byte, b3: byte)
    ensures LeBytes(LeWord(b0, b1, b2, b3)) == [b0, b1, b2, b3]
  {
    LowByte(b2, b3);
    LowByte(b1, b2 + 0x100 * b3);
    LowByte(b0, b1 + 0x100 * (b2 + 0x100 * b3));
  }
}
