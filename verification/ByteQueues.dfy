/** The three bounded byte queues of the emulator: the chunked one of the
    embedded CDC link, the byte-wise one of the TCP bridge and the vector one of
    the ECU line buffer. All are meant to keep the newest `capacity` bytes. */
module ByteQueues {
  import opened Bits

  /** The last `n` elements of `s`, or all of it when it is shorter. */
  function LastN<T>(s: seq<T>, n: nat): (r: seq<T>)
    ensures |r| == if |s| <= n then |s| else n
    ensures r <= s || r == s[|s| - |r|..]
  {
    if |s| <= n then s else s[|s| - n..]
  }

  /** What every bounded push is for: the newest bytes of the whole stream. */
  function Capped<T>(queue: seq<T>, bytes: seq<T>, capacity: nat): seq<T> {
    LastN(queue + bytes, capacity)
  }

  function Min(a: nat, b: nat): nat {
    if a < b then a else b
  }

  /** Chunked push of the embedded link: drain the overflow, then append. */
  method PushChunked(queue: seq<byte>, bytes: seq<byte>, capacity: nat) returns (r: seq<byte>)
    ensures r == Capped(queue, bytes, capacity)
  {
    var overflow := if |queue| + |bytes| < capacity then 0 else |queue| + |bytes| - capacity;
    r := queue[Min(overflow, |queue|)..];
    if |bytes| >= capacity {
      r := r + bytes[|bytes| - capacity..];
    } else {
      r := r + bytes;
    }
  }

  /** Vector push of the ECU line buffer: append, then drain the excess. */
  method PushVec(buffer: seq<byte>, bytes: seq<byte>, capacity: nat) returns (r: seq<byte>)
    ensures r == Capped(buffer, bytes, capacity)
  {
    r := buffer + bytes;
    if |r| > capacity {
      var excess := |r| - capacity;
      r := r[excess..];
    }
  }

  /** One step of the byte-wise push. Popping an empty queue does nothing. */
  function PushOne<T>(queue: seq<T>, b: T, capacity: nat): seq<T> {
    (if |queue| == capacity && queue != [] then queue[1..] else queue) + [b]
  }

  function PushEach<T>(queue: seq<T>, bytes: seq<T>, capacity: nat): seq<T>
    decreases |bytes|
  {
    if bytes == [] then queue
    else PushOne(PushEach(queue, bytes[..|bytes| - 1], capacity), bytes[|bytes| - 1], capacity)
  }

  /** Byte-wise push of the TCP bridge and of the ECU output queue. */
  method PushByteWise(queue: seq<byte>, bytes: seq<byte>, capacity: nat) returns (r: seq<byte>)
    ensures r == PushEach(queue, bytes, capacity)
    ensures 1 <= capacity && |queue| <= capacity ==> r == Capped(queue, bytes, capacity)
  {
    r := queue;
    for i := 0 to |bytes|
      invariant r == PushEach(queue, bytes[..i], capacity)
    {
      assert bytes[..i + 1][..i] == bytes[..i];
      if |r| == capacity {
        if r != [] {
          r := r[1..];
        }
      }
      r := r + [bytes[i]];
    }
    assert bytes[..|bytes|] == bytes;
    ByteWiseKeepsNewest(queue, bytes, capacity);
  }

  /** Below its capacity a byte-wise push keeps the newest bytes; otherwise the
      length test is never met again and the queue grows without bound. */
  lemma {:induction false} ByteWiseKeepsNewest<T>(queue: seq<T>, bytes: seq<T>, capacity: nat)
    ensures 1 <= capacity && |queue| <= capacity ==>
              PushEach(queue, bytes, capacity) == Capped(queue, bytes, capacity)
    ensures |queue| > capacity ==> PushEach(queue, bytes, capacity) == queue + bytes
    ensures capacity == 0 ==> PushEach(queue, bytes, capacity) == queue + bytes
    decreases |bytes|
  {
    if bytes == [] {
      assert queue + bytes == queue;
    } else {
      var front, b := bytes[..|bytes| - 1], bytes[|bytes| - 1];
      ByteWiseKeepsNewest(queue, front, capacity);
      assert queue + bytes == (queue + front) + [b];
      NewestSlides(queue + front, b, capacity);
    }
  }

  lemma {:induction false} NewestSlides<T>(whole: seq<T>, b: T, capacity: nat)
    ensures capacity >= 1 ==> PushOne(LastN(whole, capacity), b, capacity) == LastN(whole + [b], capacity)
    ensures |whole| > capacity || capacity == 0 ==> PushOne(whole, b, capacity) == whole + [b]
  {
    if |whole| >= capacity >= 1 {
      assert whole[|whole| - capacity..][1..] + [b] == (whole + [b])[|whole| + 1 - capacity..];
    }
  }

  /** The byte-wise push agrees with the other two exactly when the queue is
      within a non-zero capacity (or nothing is pushed). */
  lemma {:induction false} ByteWiseAgreesIff<T>(queue: seq<T>, bytes: seq<T>, capacity: nat)
    ensures PushEach(queue, bytes, capacity) == Capped(queue, bytes, capacity)
            <==> |queue| <= capacity && (capacity >= 1 || bytes == [])
  {
    ByteWiseKeepsNewest(queue, bytes, capacity);
    if |queue| > capacity {
      assert |PushEach(queue, bytes, capacity)| > capacity;
    }
  }

  /** Two bounded pushes are one push of the concatenation, so it does not
      matter how a stream is cut into pieces. */
  lemma {:induction false} PushTwice<T>(queue: seq<T>, a: seq<T>, b: seq<T>, capacity: nat)
    ensures Capped(Capped(queue, a, capacity), b, capacity) == Capped(queue, a + b, capacity)
  {
    var whole := queue + a;
    assert queue + (a + b) == whole + b;
    if |whole| > capacity {
      var d := |whole| - capacity;
      assert whole[d..] + b == (whole + b)[d..];
      assert (whole + b)[d..][|b|..] == (whole + b)[d + |b|..];
    }
  }

  /** Splitting a bounded push: what it dropped, and what it kept. */
  lemma {:induction false} CappedSplits<T>(queue: seq<T>, bytes: seq<T>, capacity: nat) returns (dropped: seq<T>)
    ensures queue + bytes == dropped + Capped(queue, bytes, capacity)
    ensures |queue| + |bytes| <= capacity ==> dropped == []
  {
    dropped := (queue + bytes)[..|queue + bytes| - |Capped(queue, bytes, capacity)|];
  }

  /** `a` is the end of `b`. */
  predicate IsSuffix<T(==)>(a: seq<T>, b: seq<T>) {
    |a| <= |b| && a == b[|b| - |a|..]
  }

  lemma {:induction false} SuffixGrows<T>(a: seq<T>, b: seq<T>, c: seq<T>)
    requires IsSuffix(a, b)
    ensures IsSuffix(a + c, b + c)
  {
    assert (b + c)[|b| - |a|..] == b[|b| - |a|..] + c;
  }

  /** Of two ends the shorter is an end of the longer. */
  lemma {:induction false} SuffixesNest<T>(a: seq<T>, b: seq<T>, all: seq<T>)
    requires IsSuffix(a, all) && IsSuffix(b, all) && |a| <= |b|
    ensures IsSuffix(a, b)
  {
  }

  /** `a` occurs in `b` in order, possibly with gaps. */
  ghost predicate Subsequence<T(!new)>(a: seq<T>, b: seq<T>)
    decreases |b|
  {
    a == []
    || (b != []
        && var rest := b[..|b| - 1];
           || (a[|a| - 1] == b[|b| - 1] && Subsequence(a[..|a| - 1], rest))
           || Subsequence(a, rest))
  }

  lemma {:induction false} SuffixIsSubsequence<T(!new)>(a: seq<T>, b: seq<T>, c: seq<T>)
    requires IsSuffix(a, b) && Subsequence(b, c)
    ensures Subsequence(a, c)
    decreases |c|
  {
    if a != [] {
      var rest := c[..|c| - 1];
      if b[|b| - 1] == c[|c| - 1] && Subsequence(b[..|b| - 1], rest) {
        SuffixIsSubsequence(a[..|a| - 1], b[..|b| - 1], rest);
      } else {
        SuffixIsSubsequence(a, b, rest);
      }
    }
  }

  lemma {:induction false} PrefixIsSubsequence<T(!new)>(a: seq<T>, b: seq<T>, c: seq<T>)
    requires a <= b && Subsequence(b, c)
    ensures Subsequence(a, c)
    decreases |c|
  {
    if a != [] {
      var rest := c[..|c| - 1];
      if b[|b| - 1] == c[|c| - 1] && Subsequence(b[..|b| - 1], rest) {
        if a == b {
          assert Subsequence(a, c);
        } else {
          PrefixIsSubsequence(a, b[..|b| - 1], rest);
        }
      } else {
        PrefixIsSubsequence(a, b, rest);
      }
    }
  }

  lemma {:induction false} SubsequenceSkips<T(!new)>(a: seq<T>, b: seq<T>, c: seq<T>)
    requires Subsequence(a, b)
    ensures Subsequence(a, b + c)
    decreases |c|
  {
    if c == [] {
      assert b + c == b;
    } else {
      SubsequenceSkips(a, b, c[..|c| - 1]);
      assert (b + c)[..|b + c| - 1] == b + c[..|c| - 1];
    }
  }

  lemma {:induction false} SubsequenceExtends<T(!new)>(a: seq<T>, b: seq<T>, c: seq<T>)
    requires Subsequence(a, b)
    ensures Subsequence(a + c, b + c)
    decreases |c|
  {
    if c == [] {
      assert a + c == a && b + c == b;
    } else {
      SubsequenceExtends(a, b, c[..|c| - 1]);
      assert (b + c)[..|b + c| - 1] == b + c[..|c| - 1];
      assert (a + c)[..|a + c| - 1] == a + c[..|c| - 1];
    }
  }
}
