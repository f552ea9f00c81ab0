/** Why a sender arms only on a configured device: a transfer completed before that
    raises XFRC but leaves its words in the FIFO, in front of the next payload. */
module OtgStale {
  import opened Bits
  import opened OtgModel
  import opened OtgRuns
  import opened OtgSession
  import opened OtgBulkIn

  /** The bytes of pushed words. */
  function BytesOf(words: seq<word>): (r: seq<byte>)
    ensures |r| == 4 * |words|
  {
    if words == [] then [] else BytesOf(words[..|words| - 1]) + LeBytes(words[|words| - 1])
  }

  function PushAll(s: Otg, ep: nat, words: seq<word>): (r: Otg)
    requires Shape(s) && ep < NUM_ENDPOINTS
    ensures Shape(r)
  {
    if words == [] then s
    else
      var t := PushAll(s, ep, words[..|words| - 1]);
      PushTxWordKeepsShape(t, ep, words[|words| - 1]);
      PushTxWord(t, ep, words[|words| - 1])
  }

  /** Armed for `n` bytes on a configured device, with `fifo` waiting and `sent` counted. */
  ghost predicate Armed(s: Otg, ep: nat, n: nat, fifo: seq<byte>, sent: nat)
    requires Shape(s)
  {
    && s.step == Configured && s.bulkIn == Some(ep) && 1 <= ep < NUM_ENDPOINTS
    && Enabled(s.epIn[ep]) && XferSize(s.epIn[ep]) == n && s.epIn[ep].sent == sent && s.txFifo[ep] == fifo
  }

  lemma {:induction false} OneMoreWord(s: Otg, ep: nat, n: nat, fifo: seq<byte>, sent: nat, value: word)
    requires Shape(s) && Armed(s, ep, n, fifo, sent) && sent + 4 < n
    ensures var t := PushTxWord(s, ep, value);
            && Shape(t) && Armed(t, ep, n, fifo + LeBytes(value), sent + 4)
            && GivenBytes(t.history) == GivenBytes(s.history)
  {
    hide CompleteIn, Bit, LeBytes;
  }

  lemma {:induction false} LastWord(s: Otg, ep: nat, n: nat, fifo: seq<byte>, sent: nat, value: word)
    requires Shape(s) && Armed(s, ep, n, fifo, sent) && sent < n <= sent + 4 && sent <= |fifo|
    ensures var t := PushTxWord(s, ep, value);
            && Shape(t) && !Enabled(t.epIn[ep]) && t.txFifo[ep] == []
            && GivenBytes(t.history) == GivenBytes(s.history) + (fifo + LeBytes(value))[..n]
  {
    hide CompleteIn, Bit, ClearBit, LeBytes;
    CompletionForwards(DisarmIn(AppendTxWord(s, ep, value), ep), ep, n);
  }

  lemma {:induction false} WordsBefore(s: Otg, ep: nat, n: nat, words: seq<word>)
    requires Shape(s) && ep < NUM_ENDPOINTS && Armed(s, ep, n, s.txFifo[ep], 0) && |words| < Words(n)
    ensures var t := PushAll(s, ep, words);
            && Armed(t, ep, n, s.txFifo[ep] + BytesOf(words), 4 * |words|)
            && GivenBytes(t.history) == GivenBytes(s.history)
    decreases |words|
  {
    assert ep < |s.txFifo|;
    hide PushTxWord, LeBytes, Shape;
    assert s.txFifo[ep] + [] == s.txFifo[ep];
    if words != [] {
      var (front, last) := (words[..|words| - 1], words[|words| - 1]);
      WordsBefore(s, ep, n, front);
      OneMoreWord(PushAll(s, ep, front), ep, n, s.txFifo[ep] + BytesOf(front), 4 * |front|, last);
      LastJoins(s.txFifo[ep], words);
    }
  }

  lemma {:induction false} LastJoins(stale: seq<byte>, words: seq<word>)
    requires words != []
    ensures stale + BytesOf(words[..|words| - 1]) + LeBytes(words[|words| - 1]) == stale + BytesOf(words)
  {
    hide LeBytes;
  }

  /** A transfer forwards what was in the FIFO when it was armed, and then its own words,
      cut to its size. */
  lemma {:induction false} StaleComesFirst(s: Otg, ep: nat, n: nat, words: seq<word>)
    requires Shape(s) && ep < NUM_ENDPOINTS && 0 < n && Armed(s, ep, n, s.txFifo[ep], 0) && |words| == Words(n)
    ensures var t := PushAll(s, ep, words);
            && !Enabled(t.epIn[ep]) && t.txFifo[ep] == []
            && GivenBytes(t.history) == GivenBytes(s.history) + (s.txFifo[ep] + BytesOf(words))[..n]
  {
    assert ep < |s.txFifo|;
    hide PushTxWord, LeBytes, Shape, GivenBytes, BytesOf;
    var (front, last) := (words[..|words| - 1], words[|words| - 1]);
    WordsBefore(s, ep, n, front);
    LastWord(PushAll(s, ep, front), ep, n, s.txFifo[ep] + BytesOf(front), 4 * |front|, last);
    LastJoins(s.txFifo[ep], words);
  }

  lemma {:induction false} FirstByte(value: word, k: nat)
    requires 0 < k
    ensures BytesOf(seq(k, i => value))[0] == value % 0x100
  {
    var words := seq(k, i => value);
    if k > 1 {
      FirstByte(value, k - 1);
      assert words[..k - 1] == seq(k - 1, i => value);
    }
  }

  /** Whatever is pushed, a transfer forwards its own bytes exactly when the FIFO was
      empty when it was armed. */
  lemma {:induction false} OwnPayloadIff(s: Otg, ep: nat, n: nat)
    requires Shape(s) && ep < NUM_ENDPOINTS && 0 < n && Armed(s, ep, n, s.txFifo[ep], 0)
    ensures (forall words: seq<word> :: |words| == Words(n) ==>
               GivenBytes(PushAll(s, ep, words).history) == GivenBytes(s.history) + BytesOf(words)[..n])
            <==> s.txFifo[ep] == []
  {
    assert ep < |s.txFifo|;
    hide PushAll, BytesOf, GivenBytes, Shape, Armed;
    var stale := s.txFifo[ep];
    if stale == [] {
      forall words: seq<word> | |words| == Words(n)
        ensures GivenBytes(PushAll(s, ep, words).history) == GivenBytes(s.history) + BytesOf(words)[..n]
      {
        StaleComesFirst(s, ep, n, words);
        assert [] + BytesOf(words) == BytesOf(words);
      }
    } else {
      var value: word := if stale[0] == 0 then 1 else 0;
      var words := seq(Words(n), i => value);
      StaleComesFirst(s, ep, n, words);
      FirstByte(value, Words(n));
      FirstDiffers(GivenBytes(s.history), (stale + BytesOf(words))[..n], BytesOf(words)[..n]);
    }
  }

  lemma {:induction false} FirstDiffers(before: seq<byte>, a: seq<byte>, b: seq<byte>)
    requires a != [] && b != [] && a[0] != b[0]
    ensures before + a != before + b
  {
    assert (before + a)[|before|] == a[0] && (before + b)[|before|] == b[0];
  }

  // ---- How a word gets there ----

  /** A one-word transfer before the device is configured: XFRC, nothing forwarded, and
      its word stays in the FIFO. */
  lemma {:induction false} EarlyWordStays(s: Otg, ep: nat, value: word)
    requires Shape(s) && 1 <= ep < NUM_ENDPOINTS && s.step != Configured
    requires Enabled(s.epIn[ep]) && 0 < XferSize(s.epIn[ep]) <= 4 && s.epIn[ep].sent == 0 && s.txFifo[ep] == []
    ensures var t := PushTxWord(s, ep, value);
            && Shape(t) && t.bulkIn == s.bulkIn && !Enabled(t.epIn[ep]) && t.txFifo[ep] == LeBytes(value)
            && XferSize(t.epIn[ep]) == XferSize(s.epIn[ep])
            && GivenBytes(t.history) == GivenBytes(s.history)
            && InCompletions(t.history, ep) == InCompletions(s.history, ep) + 1
  {
    hide LeBytes, Bit, ClearBit, SetFlag;
    PushTxWordKeepsShape(s, ep, value);
    assert [] + LeBytes(value) == LeBytes(value);
  }

  ghost predicate QuietRun(s: Otg, events: seq<Event>, ep: nat)
    requires Shape(s) && ep < NUM_ENDPOINTS
    decreases |events|
  {
    events != [] ==>
      var front, last := events[..|events| - 1], events[|events| - 1];
      QuietRun(s, front, ep) && Quiet(Run(s, front), last, ep)
  }

  /** It stays through any events that leave the endpoint alone, enumeration included. */
  lemma {:induction false} QuietRunKeeps(s: Otg, events: seq<Event>, ep: nat)
    requires Shape(s) && 1 <= ep < NUM_ENDPOINTS && s.bulkIn == Some(ep) && QuietRun(s, events, ep)
    ensures Run(s, events).bulkIn == Some(ep) && SameTransfer(s, Run(s, events), ep)
    decreases |events|
  {
    hide Next, Shape, Bit, XferSize, Quiet, GivenBytes, InCompletions;
    if events != [] {
      var front, last := events[..|events| - 1], events[|events| - 1];
      QuietRunKeeps(s, front, ep);
      QuietKeepsTransfer(Run(s, front), last, ep);
    }
  }

  /** So the first word of the next configured transfer is forwarded as the old one. */
  lemma {:induction false} EarlyWordIsForwarded(s: Otg, ep: nat, early: word, events: seq<Event>, ctl: word, late: word)
    requires Shape(s) && 1 <= ep < NUM_ENDPOINTS && s.bulkIn == Some(ep) && s.step != Configured
    requires Enabled(s.epIn[ep]) && XferSize(s.epIn[ep]) == 4 && s.epIn[ep].sent == 0 && s.txFifo[ep] == []
    requires var t := PushTxWord(s, ep, early);
             && Shape(t) && QuietRun(t, events, ep) && Run(t, events).step == Configured
             && XferSize(Run(t, events).epIn[ep]) == 4 && Bit(ctl, EPENA)
    ensures var u := WriteIn(Run(PushTxWord(s, ep, early), events), ep, EP_CTL, ctl);
            && Shape(u)
            && GivenBytes(PushAll(u, ep, [late]).history) == GivenBytes(s.history) + LeBytes(early)
  {
    var t := PushTxWord(s, ep, early);
    EarlyWordStays(s, ep, early);
    QuietRunKeeps(t, events, ep);
    var r := Run(t, events);
    hide PushTxWord, CompleteIn, LeBytes, Run, QuietRun, GivenBytes, InCompletions, PushAll;
    ArmsWithFifo(r, ep, ctl);
    StaleComesFirst(WriteIn(r, ep, EP_CTL, ctl), ep, 4, [late]);
    assert (LeBytes(early) + BytesOf([late]))[..4] == LeBytes(early);
  }

  lemma {:induction false} ArmsWithFifo(s: Otg, ep: nat, ctl: word)
    requires Shape(s) && 1 <= ep < NUM_ENDPOINTS && s.bulkIn == Some(ep) && s.step == Configured
    requires !Enabled(s.epIn[ep]) && XferSize(s.epIn[ep]) == 4 && Bit(ctl, EPENA)
    ensures var t := WriteIn(s, ep, EP_CTL, ctl);
            && Shape(t) && Armed(t, ep, 4, s.txFifo[ep], 0) && GivenBytes(t.history) == GivenBytes(s.history)
  {
    hide CompleteIn, Bit, SetFlag;
    var t := ArmIn(s, ep, ctl);
    assert GivenBytes(t.history) == GivenBytes(s.history);
  }
}
