/** The agent's bounded buffer of telemetry samples. */
module Telemetry {
  import opened Wrappers
  import opened Clock

  const WINDOW: Time := 60 * SECOND

  const MAX_SAMPLES := 32

  datatype Sample = Sample(collectedAt: Time, cpu: Option<nat>, memory: Option<nat>, storage: Option<nat>)

  predicate IncompleteSample(s: Sample) {
    s.cpu.None? || s.memory.None? || s.storage.None?
  }

  /** The last `n` elements. */
  function LastOf(s: seq<Sample>, n: nat): (r: seq<Sample>) {
    if |s| <= n then s else s[|s| - n..]
  }

  /** Pops from the front while the front is expired. */
  function DropExpired(s: seq<Sample>, threshold: Time): (r: seq<Sample>) {
    if s != [] && s[0].collectedAt < threshold then DropExpired(s[1..], threshold) else s
  }

  /** All samples that are not expired. */
  function Unexpired(s: seq<Sample>, threshold: Time): (r: seq<Sample>) {
    if s == [] then []
    else (if s[0].collectedAt < threshold then [] else [s[0]]) + Unexpired(s[1..], threshold)
  }

  class TelemetryBuffer {
    var samples: seq<Sample>

    constructor ()
      ensures samples == []
    {
      samples := [];
    }

    method RemoveExpired(now: Time)
      modifies this
      ensures samples == DropExpired(old(samples), now - WINDOW)
    {
      var threshold := now - WINDOW;
      while samples != [] && samples[0].collectedAt < threshold
        invariant DropExpired(samples, threshold) == DropExpired(old(samples), threshold)
        decreases |samples|
      {
        samples := samples[1..];
      }
    }

    method Record(sample: Sample, now: Time)
      modifies this
      ensures samples == DropExpired(LastOf(old(samples) + [sample], MAX_SAMPLES), now - WINDOW)
    {
      samples := samples + [sample];
      while |samples| > MAX_SAMPLES
        invariant LastOf(samples, MAX_SAMPLES) == LastOf(old(samples) + [sample], MAX_SAMPLES)
        decreases |samples|
      {
        samples := samples[1..];
      }
      RemoveExpired(now);
    }

    method Window(now: Time) returns (window: seq<Sample>, partial: bool)
      modifies this
      ensures samples == DropExpired(old(samples), now - WINDOW) && window == samples
      ensures partial <==> !forall i :: 0 <= i < |window| ==>
                window[i].cpu.Some? && window[i].memory.Some? && window[i].storage.Some?
    {
      RemoveExpired(now);
      window := samples;
      partial := exists i :: 0 <= i < |window| && IncompleteSample(window[i]);
    }
  }

  // ---- front-popping against filtering ----

  /** No expired sample stands behind one that is not. */
  ghost predicate ExpiredFirst(s: seq<Sample>, threshold: Time) {
    forall i, j :: 0 <= i < j < |s| && s[j].collectedAt < threshold ==> s[i].collectedAt < threshold
  }

  lemma {:induction false} UnexpiredAre(s: seq<Sample>, threshold: Time)
    ensures forall i :: 0 <= i < |Unexpired(s, threshold)| ==> Unexpired(s, threshold)[i].collectedAt >= threshold
    ensures (forall i :: 0 <= i < |s| ==> s[i].collectedAt >= threshold) ==> Unexpired(s, threshold) == s
  {
    if s != [] {
      UnexpiredAre(s[1..], threshold);
    }
  }

  /** Popping from the front keeps exactly the unexpired samples if and only if the expired ones come first. */
  lemma {:induction false} PoppingIsFilteringExactly(s: seq<Sample>, threshold: Time)
    ensures DropExpired(s, threshold) == Unexpired(s, threshold) <==> ExpiredFirst(s, threshold)
  {
    if s != [] {
      if s[0].collectedAt < threshold {
        PoppingIsFilteringExactly(s[1..], threshold);
        assert forall i, j :: 0 <= i < j < |s[1..]| ==> s[1..][i] == s[i + 1] && s[1..][j] == s[j + 1];
        if ExpiredFirst(s[1..], threshold) {
          forall i, j | 0 <= i < j < |s| && s[j].collectedAt < threshold ensures s[i].collectedAt < threshold {
            if i > 0 { assert s[i] == s[1..][i - 1] && s[j] == s[1..][j - 1]; }
          }
        }
        if ExpiredFirst(s, threshold) {
          forall i, j | 0 <= i < j < |s[1..]| && s[1..][j].collectedAt < threshold
            ensures s[1..][i].collectedAt < threshold
          {
            assert s[1..][j] == s[j + 1] && s[1..][i] == s[i + 1];
          }
        }
      } else {
        UnexpiredAre(s, threshold);
        if ExpiredFirst(s, threshold) {
          forall j | 0 <= j < |s| ensures s[j].collectedAt >= threshold {
          }
        } else {
          var i, j :| 0 <= i < j < |s| && s[j].collectedAt < threshold && s[i].collectedAt >= threshold;
          assert s[j] in s;
        }
      }
    }
  }

  // ---- the buffer against the full history ----

  datatype Op = RecordOp(sample: Sample, now: Time) | WindowOp(now: Time)

  function BufferAfter(ops: seq<Op>): (s: seq<Sample>) {
    if ops == [] then []
    else
      var before, op := BufferAfter(ops[..|ops| - 1]), ops[|ops| - 1];
      DropExpired(if op.RecordOp? then LastOf(before + [op.sample], MAX_SAMPLES) else before, op.now - WINDOW)
  }

  function History(ops: seq<Op>): (s: seq<Sample>) {
    if ops == [] then []
    else
      var before, op := History(ops[..|ops| - 1]), ops[|ops| - 1];
      if op.RecordOp? then before + [op.sample] else before
  }

  /** The clock does not run backwards. */
  ghost predicate ClockForward(ops: seq<Op>) {
    forall i, j :: 0 <= i < j < |ops| ==> ops[i].now <= ops[j].now
  }

  ghost predicate InOrder(s: seq<Sample>) {
    forall i, j :: 0 <= i < j < |s| ==> s[i].collectedAt <= s[j].collectedAt
  }

  /** Number of expired samples at the front of a history. */
  function Expired(s: seq<Sample>, threshold: Time): (n: nat)
    ensures n <= |s|
    ensures n < |s| ==> s[n].collectedAt >= threshold
    ensures forall i :: 0 <= i < n ==> s[i].collectedAt < threshold
  {
    if s != [] && s[0].collectedAt < threshold then 1 + Expired(s[1..], threshold) else 0
  }

  function Max(a: int, b: int): (m: int) { if a < b then b else a }

  /** The buffer starts at this index of the history. */
  function Start(h: seq<Sample>, threshold: Time): (n: nat)
    ensures n <= |h|
  {
    Max(Expired(h, threshold), |h| - MAX_SAMPLES)
  }

  lemma {:induction false} DropFrom(h: seq<Sample>, k: nat, threshold: Time)
    requires InOrder(h) && k <= |h|
    ensures DropExpired(h[k..], threshold) == h[Max(k, Expired(h, threshold))..]
    decreases |h| - k
  {
    if k < |h| {
      assert h[k..][0] == h[k] && h[k..][1..] == h[k + 1..];
      if h[k].collectedAt < threshold {
        DropFrom(h, k + 1, threshold);
        assert k < Expired(h, threshold);
      }
    }
  }

  lemma WaitingTail(h: seq<Sample>, earlier: Time, threshold: Time)
    requires InOrder(h) && earlier <= threshold
    ensures DropExpired(h[Start(h, earlier)..], threshold) == h[Start(h, threshold)..]
  {
    DropFrom(h, Start(h, earlier), threshold);
    ExpiredGrows(h, h, earlier, threshold);
  }

  lemma ExpiredGrows(h: seq<Sample>, longer: seq<Sample>, earlier: Time, threshold: Time)
    requires h <= longer && earlier <= threshold
    ensures Expired(h, earlier) <= Expired(longer, threshold)
  {
    assert forall i :: 0 <= i < Expired(h, earlier) ==> longer[i] == h[i];
  }

  lemma LastOfTail(h: seq<Sample>, k: nat)
    requires k <= |h|
    ensures LastOf(h[k..], MAX_SAMPLES) == h[Max(k, |h| - MAX_SAMPLES)..]
  {
  }

  lemma DropFromLast(h: seq<Sample>, k: nat, threshold: Time)
    requires InOrder(h) && k <= |h|
    ensures var start := Max(Max(k, |h| - MAX_SAMPLES), Expired(h, threshold));
            DropExpired(LastOf(h[k..], MAX_SAMPLES), threshold) == h[start..]
  {
    LastOfTail(h, k);
    DropFrom(h, Max(k, |h| - MAX_SAMPLES), threshold);
  }

  lemma RecordingTail(h: seq<Sample>, sample: Sample, earlier: Time, threshold: Time)
    requires InOrder(h + [sample]) && earlier <= threshold
    ensures var longer := h + [sample];
            var kept := LastOf(h[Start(h, earlier)..] + [sample], MAX_SAMPLES);
            DropExpired(kept, threshold) == longer[Start(longer, threshold)..]
  {
    var longer, k := h + [sample], Start(h, earlier);
    TailPlus(h, sample, k);
    DropFromLast(longer, k, threshold);
    ExpiredGrows(h, longer, earlier, threshold);
    StartMerges(h, longer, earlier, threshold);
  }

  lemma TailPlus(h: seq<Sample>, sample: Sample, k: nat)
    requires k <= |h|
    ensures h[k..] + [sample] == (h + [sample])[k..]
  {
  }

  lemma StartMerges(h: seq<Sample>, longer: seq<Sample>, earlier: Time, threshold: Time)
    requires |longer| == |h| + 1 && Expired(h, earlier) <= Expired(longer, threshold)
    ensures Max(Max(Start(h, earlier), |longer| - MAX_SAMPLES), Expired(longer, threshold)) == Start(longer, threshold)
  {
  }

  lemma {:induction false} BufferIsTail(ops: seq<Op>)
    requires ops != [] && ClockForward(ops) && InOrder(History(ops))
    ensures BufferAfter(ops) == History(ops)[Start(History(ops), ops[|ops| - 1].now - WINDOW)..]
  {
    var earlier, op := ops[..|ops| - 1], ops[|ops| - 1];
    var h, threshold := History(earlier), op.now - WINDOW;
    if earlier == [] {
      if op.RecordOp? { RecordingTail([], op.sample, threshold, threshold); }
    } else {
      assert InOrder(h) by { assert forall i :: 0 <= i < |h| ==> h[i] == History(ops)[i]; }
      BufferIsTail(earlier);
      if op.RecordOp? {
        RecordingTail(h, op.sample, earlier[|earlier| - 1].now - WINDOW, threshold);
      } else {
        WaitingTail(h, earlier[|earlier| - 1].now - WINDOW, threshold);
      }
    }
  }

  lemma TailIsRecent(h: seq<Sample>, threshold: Time)
    requires InOrder(h)
    ensures h[Start(h, threshold)..] == Unexpired(LastOf(h, MAX_SAMPLES), threshold)
  {
    var k := Max(0, |h| - MAX_SAMPLES);
    assert LastOf(h, MAX_SAMPLES) == h[k..];
    DropFrom(h, k, threshold);
    assert InOrder(h[k..]);
    PoppingIsFilteringExactly(h[k..], threshold);
  }

  /**
   With an orderly clock a window is exactly the last 32 samples of the history that are not older than 60 seconds.
   */
  lemma {:induction false} WindowIsRecentHistory(ops: seq<Op>)
    requires ops != [] && ClockForward(ops) && InOrder(History(ops))
    ensures BufferAfter(ops) == Unexpired(LastOf(History(ops), 32), ops[|ops| - 1].now - 60 * SECOND)
  {
    BufferIsTail(ops);
    TailIsRecent(History(ops), ops[|ops| - 1].now - WINDOW);
  }

  // ---- capacity and delivery ----

  /** Samples at least two seconds apart. */
  ghost predicate Spaced(h: seq<Sample>) {
    forall i :: 0 < i < |h| ==> h[i].collectedAt >= h[i - 1].collectedAt + 2 * SECOND
  }

  lemma {:induction false} SpacedApart(h: seq<Sample>, i: nat, j: nat)
    requires Spaced(h) && i <= j < |h|
    ensures h[j].collectedAt >= h[i].collectedAt + (j - i) * 2 * SECOND
    decreases j - i
  {
    if i < j {
      SpacedApart(h, i, j - 1);
    }
  }

  lemma SpacedInOrder(h: seq<Sample>)
    requires Spaced(h)
    ensures InOrder(h)
  {
    forall i, j | 0 <= i < j < |h| ensures h[i].collectedAt <= h[j].collectedAt {
      SpacedApart(h, i, j);
    }
  }

  /** More than 32 samples two seconds apart span more than a minute. */
  lemma OverflowIsExpired(h: seq<Sample>, now: Time)
    requires Spaced(h) && |h| > MAX_SAMPLES && h[|h| - 1].collectedAt <= now
    ensures |h| - MAX_SAMPLES <= Expired(h, now - WINDOW)
  {
    var k := |h| - 1 - MAX_SAMPLES;
    SpacedInOrder(h);
    SpacedApart(h, k, |h| - 1);
    assert h[k].collectedAt < now - WINDOW;
  }

  lemma DropIsUnexpired(h: seq<Sample>, threshold: Time)
    requires InOrder(h)
    ensures h[Expired(h, threshold)..] == Unexpired(h, threshold)
  {
    DropFrom(h, 0, threshold);
    assert h[0..] == h;
    PoppingIsFilteringExactly(h, threshold);
  }

  lemma TailIsUnexpired(h: seq<Sample>, now: Time)
    requires Spaced(h) && forall i :: 0 <= i < |h| ==> h[i].collectedAt <= now
    ensures h[Start(h, now - WINDOW)..] == Unexpired(h, now - WINDOW)
  {
    SpacedInOrder(h);
    if |h| > MAX_SAMPLES {
      OverflowIsExpired(h, now);
    }
    DropIsUnexpired(h, now - WINDOW);
  }

  /** Samples two seconds apart, none from the future, are never evicted before they expire. */
  lemma {:induction false} NothingEvictedEarly(ops: seq<Op>)
    requires ops != [] && ClockForward(ops) && Spaced(History(ops))
    requires forall i :: 0 <= i < |History(ops)| ==> History(ops)[i].collectedAt <= ops[|ops| - 1].now
    ensures BufferAfter(ops) == Unexpired(History(ops), ops[|ops| - 1].now - 60 * SECOND)
  {
    SpacedInOrder(History(ops));
    BufferIsTail(ops);
    TailIsUnexpired(History(ops), ops[|ops| - 1].now);
  }

  lemma {:induction false} UnexpiredHas(s: seq<Sample>, threshold: Time, i: nat)
    requires i < |s| && s[i].collectedAt >= threshold
    ensures s[i] in Unexpired(s, threshold)
  {
    if i > 0 {
      UnexpiredHas(s[1..], threshold, i - 1);
    }
  }

  lemma {:induction false} RecordedInHistory(ops: seq<Op>, i: nat)
    requires i < |ops| && ops[i].RecordOp?
    ensures ops[i].sample in History(ops)
  {
    if i < |ops| - 1 {
      RecordedInHistory(ops[..|ops| - 1], i);
    }
  }

  /** Every recorded sample carries a collection time that its own recording had reached. */
  ghost predicate RecordedOnTime(ops: seq<Op>) {
    forall i :: 0 <= i < |ops| && ops[i].RecordOp? ==> ops[i].sample.collectedAt <= ops[i].now
  }

  lemma {:induction false} HistoryReached(ops: seq<Op>)
    requires ops != [] && ClockForward(ops) && RecordedOnTime(ops)
    ensures forall i :: 0 <= i < |History(ops)| ==> History(ops)[i].collectedAt <= ops[|ops| - 1].now
  {
    if |ops| > 1 {
      HistoryReached(ops[..|ops| - 1]);
    }
  }

  lemma {:induction false} PrefixHistory(ops: seq<Op>, n: nat)
    requires n <= |ops|
    ensures History(ops[..n]) <= History(ops)
    decreases |ops|
  {
    if n < |ops| {
      PrefixHistory(ops[..|ops| - 1], n);
      assert ops[..|ops| - 1][..n] == ops[..n];
    } else {
      assert ops[..n] == ops;
    }
  }

  /** The clock runs forward, and samples are recorded no earlier than collected, two seconds apart. */
  ghost predicate Orderly(ops: seq<Op>) {
    ClockForward(ops) && RecordedOnTime(ops) && Spaced(History(ops))
  }

  /**
   A sample is in the window taken by operation `w` if it was recorded before and is not older than 60 seconds then.
   */
  lemma DeliveredBy(ops: seq<Op>, i: nat, w: nat)
    requires Orderly(ops)
    requires i < w < |ops| && ops[i].RecordOp? && ops[i].sample.collectedAt >= ops[w].now - 60 * SECOND
    ensures ops[i].sample in BufferAfter(ops[..w + 1])
  {
    OrderlyPrefix(ops, w + 1);
    var taken := ops[..w + 1];
    assert taken[i] == ops[i] && taken[|taken| - 1] == ops[w];
    DeliveredLast(taken, i);
  }

  lemma DeliveredLast(ops: seq<Op>, i: nat)
    requires Orderly(ops)
    requires i < |ops| && ops[i].RecordOp? && ops[i].sample.collectedAt >= ops[|ops| - 1].now - WINDOW
    ensures ops[i].sample in BufferAfter(ops)
  {
    WindowIsUnexpiredHistory(ops);
    RecordedInHistory(ops, i);
    StillThere(History(ops), ops[i].sample, ops[|ops| - 1].now - WINDOW);
  }

  lemma OrderlyPrefix(ops: seq<Op>, n: nat)
    requires n <= |ops| && Orderly(ops)
    ensures Orderly(ops[..n])
  {
    PrefixHistory(ops, n);
    SpacedPrefix(History(ops[..n]), History(ops));
  }

  lemma WindowIsUnexpiredHistory(ops: seq<Op>)
    requires ops != [] && Orderly(ops)
    ensures BufferAfter(ops) == Unexpired(History(ops), ops[|ops| - 1].now - WINDOW)
  {
    HistoryReached(ops);
    NothingEvictedEarly(ops);
  }

  lemma SpacedPrefix(shorter: seq<Sample>, h: seq<Sample>)
    requires shorter <= h && Spaced(h)
    ensures Spaced(shorter)
  {
    forall i | 0 < i < |shorter| ensures shorter[i].collectedAt >= shorter[i - 1].collectedAt + 2 * SECOND {
      assert shorter[i] == h[i] && shorter[i - 1] == h[i - 1];
    }
  }

  lemma StillThere(h: seq<Sample>, sample: Sample, threshold: Time)
    requires sample in h && sample.collectedAt >= threshold
    ensures sample in Unexpired(h, threshold)
  {
    var k :| 0 <= k < |h| && h[k] == sample;
    UnexpiredHas(h, threshold, k);
  }

  /** With heartbeats at most 30 seconds apart, a sample recorded when collected is reported by the next two of them. */
  lemma DeliveredTwice(ops: seq<Op>, last: nat, i: nat, next: nat, second: nat)
    requires Orderly(ops)
    requires last < i < next < second < |ops|
    requires ops[last].WindowOp? && ops[next].WindowOp? && ops[second].WindowOp?
    requires ops[next].now <= ops[last].now + 30 * SECOND && ops[second].now <= ops[next].now + 30 * SECOND
    requires ops[i].RecordOp? && ops[i].sample.collectedAt == ops[i].now
    ensures ops[i].sample in BufferAfter(ops[..next + 1]) && ops[i].sample in BufferAfter(ops[..second + 1])
  {
    DeliveredBy(ops, i, next);
    DeliveredBy(ops, i, second);
  }
}
