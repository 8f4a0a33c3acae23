/** Drift-free schedules: a missed slot gives one catch-up run and the grid of slots never moves. */
module Schedule {
  import opened Wrappers
  import opened Clock

  /** `EveryMinutes(n)`, read as at least one minute. */
  function Interval(everyMinutes: nat): (d: Time)
    ensures d >= MINUTE && d % MINUTE == 0
    ensures d / MINUTE == everyMinutes || (everyMinutes == 0 && d == MINUTE)
  {
    (if everyMinutes < 1 then 1 else everyMinutes) * MINUTE
  }

  /** The slot that follows a run at `now`: the first one on the grid after both `slot` and `now`. */
  function NextSlot(slot: Time, interval: Time, now: Time): (next: Time)
    requires interval > 0
  {
    var late := now - slot;
    if late < 0 then slot + interval else slot + (late / interval + 1) * interval
  }

  ghost predicate OnGrid(t: Time, origin: Time, interval: Time)
    requires interval > 0
  {
    exists k: int :: t == origin + k * interval
  }

  class JobSchedule {
    const everyMinutes: nat
    var enabled: bool
    var lastRunAt: Option<Time>
    var nextRunAt: Time
    var lastError: Option<string>

    constructor (everyMinutes: nat, first: Time)
      ensures this.everyMinutes == everyMinutes && enabled && nextRunAt == first && lastRunAt.None? && lastError.None?
    {
      this.everyMinutes := everyMinutes;
      enabled, lastRunAt, nextRunAt, lastError := true, None, first, None;
    }

    predicate IsDue(now: Time)
      reads this
    {
      enabled && nextRunAt <= now
    }

    method AdvanceAfterRun(now: Time, error: Option<string>)
      modifies `lastRunAt, `nextRunAt, `lastError
      ensures lastRunAt == Some(now) && lastError == error
      ensures nextRunAt == NextSlot(old(nextRunAt), Interval(everyMinutes), now)
    {
      lastRunAt := Some(now);
      lastError := error;
      var interval := Interval(everyMinutes);
      var next := nextRunAt + interval;
      ghost var k := 1;
      while next <= now
        invariant next == nextRunAt + k * interval && k >= 1
        invariant k > 1 ==> next - interval <= now
        invariant nextRunAt == old(nextRunAt)
        decreases now - next
      {
        next := next + interval;
        k := k + 1;
        assert next == nextRunAt + k * interval;
      }
      FirstAfter(nextRunAt, interval, now, k);
      nextRunAt := next;
    }

    /** One turn of the dispatcher: a due schedule runs unless it has to wait for the worker. */
    method Poll(now: Time, waits: bool, error: Option<string>) returns (ran: bool)
      modifies `lastRunAt, `nextRunAt, `lastError
      ensures ran == (old(IsDue(now)) && !waits)
      ensures nextRunAt == if enabled && !waits then Polled(old(nextRunAt), Interval(everyMinutes), now)
                           else old(nextRunAt)
      ensures if ran then lastRunAt == Some(now) && lastError == error
              else lastRunAt == old(lastRunAt) && lastError == old(lastError)
    {
      ran := IsDue(now) && !waits;
      if ran {
        AdvanceAfterRun(now, error);
      }
    }
  }

  /** The loop's exit determines the number of steps. */
  lemma FirstAfter(slot: Time, interval: Time, now: Time, k: nat)
    requires interval > 0 && k >= 1
    requires slot + k * interval > now && (k > 1 ==> slot + k * interval - interval <= now)
    ensures slot + k * interval == NextSlot(slot, interval, now)
  {
    var late := now - slot;
    if late >= 0 {
      var q := late / interval;
      Quotient(late, interval);
      assert (k - 1) * interval <= late by { assert (k - 1) * interval == k * interval - interval; }
      SameQuotient(late, interval, q, k - 1);
    } else {
      if k > 1 { TimesInterval(1, k - 1, interval); }
    }
  }

  lemma TimesInterval(a: int, b: int, interval: int)
    requires a <= b && interval > 0
    ensures a * interval <= b * interval
  {
  }

  lemma SameQuotient(late: int, interval: int, p: int, q: int)
    requires interval > 0
    requires p * interval <= late < (p + 1) * interval && q * interval <= late < (q + 1) * interval
    ensures p == q
  {
    if p < q { TimesInterval(p + 1, q, interval); }
    if q < p { TimesInterval(q + 1, p, interval); }
  }

  lemma Quotient(n: int, interval: int)
    requires interval > 0
    ensures n / interval * interval <= n < (n / interval + 1) * interval
  {
  }

  /** Number of intervals that a run at `now` moves the slot on. */
  function Steps(slot: Time, interval: Time, now: Time): (k: int)
    requires interval > 0
    ensures NextSlot(slot, interval, now) == slot + k * interval
  {
    if now < slot then 1 else (now - slot) / interval + 1
  }

  lemma StepsReach(slot: Time, interval: Time, now: Time)
    requires interval > 0
    ensures var k := Steps(slot, interval, now);
            && k >= 1 && slot + k * interval > now && (slot <= now ==> slot + (k - 1) * interval <= now)
  {
    if slot <= now {
      Quotient(now - slot, interval);
    } else {
      assert slot + 1 * interval > now;
    }
  }

  /** The next slot is on the grid, strictly after `now`, and at most one interval away if the slot was due. */
  lemma NextSlotIsAfter(slot: Time, interval: Time, now: Time)
    requires interval > 0
    ensures var next := NextSlot(slot, interval, now);
            && OnGrid(next, slot, interval)
            && next > now && next >= slot + interval
            && (slot <= now ==> next <= now + interval)
  {
    var k := Steps(slot, interval, now);
    StepsReach(slot, interval, now);
    TimesInterval(1, k, interval);
    assert (k - 1) * interval == k * interval - interval;
  }

  /** No earlier slot of the grid lies after both the old slot and `now`. */
  lemma NextSlotIsFirst(slot: Time, interval: Time, now: Time, t: Time)
    requires interval > 0 && OnGrid(t, slot, interval) && t > now && t > slot
    ensures NextSlot(slot, interval, now) <= t
  {
    var k := Steps(slot, interval, now);
    StepsReach(slot, interval, now);
    var j :| t == slot + j * interval;
    if j <= 0 {
      TimesInterval(j, 0, interval);
    } else if j < k {
      TimesInterval(j, k - 1, interval);
    } else {
      TimesInterval(k, j, interval);
    }
  }

  // ---- polling ----

  /** The slot after a poll at `now`: a due schedule runs and advances. */
  function Polled(slot: Time, interval: Time, now: Time): (r: Time)
    requires interval > 0
  {
    if slot <= now then NextSlot(slot, interval, now) else slot
  }

  function SlotAfter(first: Time, interval: Time, polls: seq<Time>): (slot: Time)
    requires interval > 0
  {
    if polls == [] then first
    else Polled(SlotAfter(first, interval, polls[..|polls| - 1]), interval, polls[|polls| - 1])
  }

  function RunsAfter(first: Time, interval: Time, polls: seq<Time>): (n: nat)
    requires interval > 0
  {
    if polls == [] then 0
    else
      var before := polls[..|polls| - 1];
      RunsAfter(first, interval, before)
      + if SlotAfter(first, interval, before) <= polls[|polls| - 1] then 1 else 0
  }

  /** Slots never leave the grid of the first one, and each run moves on by at least one of them. */
  lemma {:induction false} SlotsAdvance(first: Time, interval: Time, polls: seq<Time>)
    requires interval > 0
    ensures OnGrid(SlotAfter(first, interval, polls), first, interval)
    ensures SlotAfter(first, interval, polls) >= first + RunsAfter(first, interval, polls) * interval
  {
    if polls == [] {
      assert first == first + 0 * interval;
    } else {
      var before, now := polls[..|polls| - 1], polls[|polls| - 1];
      var slot, runs := SlotAfter(first, interval, before), RunsAfter(first, interval, before);
      SlotsAdvance(first, interval, before);
      if slot <= now {
        NextSlotIsAfter(slot, interval, now);
        var next := NextSlot(slot, interval, now);
        var j :| slot == first + j * interval;
        var k :| next == slot + k * interval;
        assert next == first + (j + k) * interval;
        assert (runs + 1) * interval == runs * interval + interval;
      }
    }
  }

  /**
   However often and in whatever order it is polled up to time `end`, a schedule runs at most once per elapsed slot.
   */
  lemma {:induction false} RunsAreBounded(first: Time, interval: Time, polls: seq<Time>, end: Time)
    requires interval > 0 && forall i :: 0 <= i < |polls| ==> polls[i] <= end
    ensures end < first ==> RunsAfter(first, interval, polls) == 0
    ensures end >= first ==> RunsAfter(first, interval, polls) <= (end - first) / interval + 1
  {
    if polls != [] {
      var before, now := polls[..|polls| - 1], polls[|polls| - 1];
      RunsAreBounded(first, interval, before, end);
      SlotsAdvance(first, interval, before);
      var runs := RunsAfter(first, interval, before);
      if SlotAfter(first, interval, before) <= now {
        assert runs * interval <= end - first;
        assert runs * interval >= 0;
        AtMostQuotient(end - first, interval, runs);
      }
    }
  }

  lemma AtMostQuotient(n: int, interval: int, runs: nat)
    requires interval > 0 && n >= 0 && runs * interval <= n
    ensures runs <= n / interval
  {
    if runs > n / interval {
      TimesInterval(n / interval + 1, runs, interval);
      Quotient(n, interval);
    }
  }
}
