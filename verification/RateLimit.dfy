/**
 * The per-client fixed-window rate limiter of the bootstrap login.
 */
module RateLimit {
  import opened Wrappers

  const WINDOW_SECS: nat := 60
  const MAX_ATTEMPTS: nat := 5
  const NANOS: nat := 1_000_000_000
  /** The window in clock units. */
  const WINDOW: nat := 60_000_000_000

  datatype Entry = Entry(count: nat, start: nat)

  /** Whole seconds since `start`; a clock reading before `start` counts as zero. */
  function ElapsedSecs(start: nat, now: nat): nat {
    if now < start then 0 else (now - start) / NANOS
  }

  /** The decision for one call, and the entry it leaves. */
  function Decide(e: Option<Entry>, now: nat): (bool, Entry) {
    var entry := e.GetOr(Entry(0, now));
    if ElapsedSecs(entry.start, now) >= WINDOW_SECS then (true, Entry(1, now))
    else if entry.count < MAX_ATTEMPTS then (true, entry.(count := entry.count + 1))
    else (false, entry)
  }

  class RateLimiter {
    var entries: map<string, Entry>

    constructor ()
      ensures entries == map[]
    {
      entries := map[];
    }

    method CheckRateLimit(key: string, now: nat) returns (allowed: bool)
      modifies this
      ensures (entries, allowed) == CheckIn(old(entries), key, now)
    {
      if key !in entries { entries := entries[key := Entry(0, now)]; }
      var entry := entries[key];
      if ElapsedSecs(entry.start, now) >= WINDOW_SECS {
        entries := entries[key := Entry(1, now)];
        allowed := true;
      } else if entry.count < MAX_ATTEMPTS {
        entries := entries[key := entry.(count := entry.count + 1)];
        allowed := true;
      } else {
        allowed := false;
      }
      assert entries == CheckIn(old(entries), key, now).0;
    }
  }

  function Lookup(entries: map<string, Entry>, key: string): Option<Entry> {
    if key in entries then Some(entries[key]) else None
  }

  function CheckIn(entries: map<string, Entry>, key: string, now: nat): (map<string, Entry>, bool) {
    var (allowed, e) := Decide(Lookup(entries, key), now);
    (entries[key := e], allowed)
  }

  // ---- Runs on one key ------------------------------------------------------------------------

  /** Entry and decisions after the calls at the given times. */
  datatype Run = Run(entry: Option<Entry>, allowed: seq<bool>)

  function RunOf(times: seq<nat>): (r: Run)
    ensures |r.allowed| == |times|
  {
    if times == [] then Run(None, [])
    else
      var before := RunOf(times[..|times| - 1]);
      var (ok, e) := Decide(before.entry, times[|times| - 1]);
      Run(Some(e), before.allowed + [ok])
  }

  ghost predicate NonDecreasing(times: seq<nat>) {
    forall i, j :: 0 <= i <= j < |times| ==> times[i] <= times[j]
  }

  /** Allowed calls at times in [lo, hi). */
  function AllowedIn(times: seq<nat>, lo: nat, hi: nat): nat {
    if times == [] then 0
    else
      var n := |times| - 1;
      AllowedIn(times[..n], lo, hi)
      + (if lo <= times[n] < hi && RunOf(times).allowed[n] then 1 else 0)
  }

  lemma {:induction false} AllowedSplit(times: seq<nat>, lo: nat, mid: nat, hi: nat)
    requires lo <= mid <= hi
    ensures AllowedIn(times, lo, hi) == AllowedIn(times, lo, mid) + AllowedIn(times, mid, hi)
  {
    if times != [] { AllowedSplit(times[..|times| - 1], lo, mid, hi); }
  }

  /** Intervals past the last call add nothing. */
  lemma {:induction false} AllowedBeyond(times: seq<nat>, lo: nat, hi: nat)
    requires forall i :: 0 <= i < |times| ==> times[i] < lo
    ensures AllowedIn(times, lo, hi) == 0
  {
    if times != [] { AllowedBeyond(times[..|times| - 1], lo, hi); }
  }

  /** At most four allowed calls in the part of an interval around `start` that lies before it. */
  ghost predicate FewBefore(times: seq<nat>, start: nat) {
    forall t: nat :: t <= start < t + WINDOW ==> AllowedIn(times, t, start) <= MAX_ATTEMPTS - 1
  }

  /** What the entry says about the calls so far: `count` calls were allowed since `start`, one of
      them at `start` itself, and none after the window. */
  ghost predicate WindowFacts(times: seq<nat>, e: Entry, end: nat) {
    && 1 <= e.count <= MAX_ATTEMPTS
    && e.start < end
    && AllowedIn(times, e.start, end) == e.count
    && AllowedIn(times, e.start + 1, end) <= e.count - 1
    && AllowedIn(times, e.start + WINDOW, end) == 0
    && FewBefore(times, e.start)
  }

  /** Allowed calls in the half-open interval of one window length that begins at `t`. */
  function AllowedFrom(times: seq<nat>, t: nat): nat { AllowedIn(times, t, t + WINDOW) }

  ghost predicate Limited(times: seq<nat>) {
    forall t: nat :: AllowedFrom(times, t) <= 2 * MAX_ATTEMPTS - 1
  }

  lemma {:induction false} WindowInvariant(times: seq<nat>, end: nat)
    requires NonDecreasing(times) && (forall i :: 0 <= i < |times| ==> times[i] < end)
    ensures times != [] ==> RunOf(times).entry.Some? && WindowFacts(times, RunOf(times).entry.value, end)
    ensures Limited(times)
    decreases |times|
  {
    if times != [] {
      var n := |times| - 1;
      var front, now := times[..n], times[n];
      WindowInvariant(front, now + 1);
      if n == 0 {
        assert times == [now];
        FirstCall(now, end);
      } else {
        var e := RunOf(front).entry.value;
        WidenFacts(front, e, now + 1, end);
        DecideIsOutcome(e, now);
        Extend(front, now, Outcome(e, now).0);
        StepKeepsFacts(front, e, now, end);
        assert front + [now] == times;
      }
    }
  }

  lemma AllowedSnoc(front: seq<nat>, now: nat, lo: nat, hi: nat)
    ensures AllowedIn(front + [now], lo, hi)
         == AllowedIn(front, lo, hi) + (if lo <= now < hi && Decide(RunOf(front).entry, now).0 then 1 else 0)
    ensures RunOf(front + [now]).entry == Some(Decide(RunOf(front).entry, now).1)
  {
    assert (front + [now])[..|front + [now]| - 1] == front;
  }

  lemma FirstCall(now: nat, end: nat)
    requires now < end
    ensures RunOf([now]).entry == Some(Entry(1, now)) && WindowFacts([now], Entry(1, now), end) && Limited([now])
  {
    assert [] + [now] == [now];
    AllowedSnoc([], now, 0, 0);
    forall lo: nat, hi: nat ensures AllowedIn([now], lo, hi) == if lo <= now < hi then 1 else 0 {
      AllowedSnoc([], now, lo, hi);
    }
    assert forall t: nat :: AllowedFrom([now], t) <= 1;
  }

  /** The facts do not depend on how far past the last call one looks. */
  lemma WidenFacts(times: seq<nat>, e: Entry, end: nat, end': nat)
    requires WindowFacts(times, e, end) && end <= end' && forall i :: 0 <= i < |times| ==> times[i] < end
    ensures WindowFacts(times, e, end')
  {
    AllowedSplit(times, e.start, end, end');
    AllowedSplit(times, e.start + 1, end, end');
    if e.start + WINDOW <= end { AllowedSplit(times, e.start + WINDOW, end, end'); } else { AllowedBeyond(times, e.start + WINDOW, end'); }
    AllowedBeyond(times, end, end');
  }

  lemma DecideIsOutcome(e: Entry, now: nat)
    requires e.start <= now
    ensures Decide(Some(e), now) == Outcome(e, now)
  {
  }

  /** The decision, in clock units. */
  function Outcome(e: Entry, now: nat): (bool, Entry) {
    if now - e.start >= WINDOW then (true, Entry(1, now))
    else if e.count < MAX_ATTEMPTS then (true, Entry(e.count + 1, e.start))
    else (false, e)
  }

  lemma StepKeepsFacts(front: seq<nat>, e: Entry, now: nat, end: nat)
    requires WindowFacts(front, e, end) && Limited(front) && Extended(front, now, Outcome(e, now).0)
    requires e.start <= now < end && forall i :: 0 <= i < |front| ==> front[i] < now + 1
    ensures WindowFacts(front + [now], Outcome(e, now).1, end) && Limited(front + [now])
  {
    if now - e.start >= WINDOW {
      ResetKeepsFacts(front, e, now, end);
    } else if e.count < MAX_ATTEMPTS {
      CountKeepsFacts(front, e, now, end);
    } else {
      RefusalKeepsFacts(front, e, now, end);
    }
  }

  /** Calls that fell into the old window but strictly after its start number at most four. */
  lemma OldWindowTail(front: seq<nat>, e: Entry, t: nat, end: nat)
    requires WindowFacts(front, e, end) && e.start < t <= end
    ensures AllowedIn(front, t, end) <= e.count - 1
  {
    AllowedSplit(front, e.start + 1, t, end);
  }

  /** Counting to any bound past the last call gives the same number. */
  lemma ClipAtEnd(front: seq<nat>, lo: nat, past: nat, a: nat, b: nat)
    requires forall i :: 0 <= i < |front| ==> front[i] < past
    requires lo <= past <= a && past <= b
    ensures AllowedIn(front, lo, a) == AllowedIn(front, lo, b)
  {
    AllowedSplit(front, lo, past, a);
    AllowedSplit(front, lo, past, b);
    AllowedBeyond(front, past, a);
    AllowedBeyond(front, past, b);
  }

  /** Counts after one more call, which was allowed or not. */
  ghost predicate Extended(front: seq<nat>, now: nat, ok: bool) {
    forall lo: nat, hi: nat ::
      AllowedIn(front + [now], lo, hi) == AllowedIn(front, lo, hi) + (if lo <= now < hi && ok then 1 else 0)
  }

  lemma Extend(front: seq<nat>, now: nat, ok: bool)
    requires Decide(RunOf(front).entry, now).0 == ok
    ensures Extended(front, now, ok)
  {
    forall lo: nat, hi: nat { AllowedSnoc(front, now, lo, hi); }
  }

  lemma ResetKeepsFacts(front: seq<nat>, e: Entry, now: nat, end: nat)
    requires WindowFacts(front, e, end) && Limited(front) && Extended(front, now, true)
    requires e.start + WINDOW <= now < end && forall i :: 0 <= i < |front| ==> front[i] < now + 1
    ensures WindowFacts(front + [now], Entry(1, now), end) && Limited(front + [now])
  {
    ResetWindow(front, e, now, end);
    ResetLimit(front, e, now, end);
  }

  lemma ResetWindow(front: seq<nat>, e: Entry, now: nat, end: nat)
    requires WindowFacts(front, e, end) && Extended(front, now, true)
    requires e.start + WINDOW <= now < end && forall i :: 0 <= i < |front| ==> front[i] < now + 1
    ensures WindowFacts(front + [now], Entry(1, now), end)
  {
    var all := front + [now];
    AllowedSplit(front, e.start + WINDOW, now, end);
    assert AllowedIn(front, now, end) == 0;
    assert AllowedIn(all, now, end) == 1;
    AllowedBeyond(front, now + 1, end);
    AllowedBeyond(front, now + WINDOW, end);
    forall t: nat | t <= now < t + WINDOW ensures AllowedIn(all, t, now) <= MAX_ATTEMPTS - 1 {
      OldWindowTail(front, e, t, end);
      AllowedSplit(front, t, now, end);
    }
  }

  lemma ResetLimit(front: seq<nat>, e: Entry, now: nat, end: nat)
    requires WindowFacts(front, e, end) && Limited(front) && Extended(front, now, true)
    requires e.start + WINDOW <= now < end && forall i :: 0 <= i < |front| ==> front[i] < now + 1
    ensures Limited(front + [now])
  {
    forall t: nat ensures AllowedFrom(front + [now], t) <= 2 * MAX_ATTEMPTS - 1 {
      assert AllowedFrom(front, t) <= 2 * MAX_ATTEMPTS - 1;
      if t <= now < t + WINDOW {
        OldWindowTail(front, e, t, end);
        ClipAtEnd(front, t, now + 1, t + WINDOW, end);
      }
    }
  }

  lemma CountKeepsFacts(front: seq<nat>, e: Entry, now: nat, end: nat)
    requires WindowFacts(front, e, end) && Limited(front) && Extended(front, now, true)
    requires e.start <= now < end && now - e.start < WINDOW && forall i :: 0 <= i < |front| ==> front[i] < now + 1
    requires e.count < MAX_ATTEMPTS
    ensures WindowFacts(front + [now], Entry(e.count + 1, e.start), end) && Limited(front + [now])
  {
    CountWindow(front, e, now, end);
    CountLimit(front, e, now, end);
  }

  lemma CountWindow(front: seq<nat>, e: Entry, now: nat, end: nat)
    requires WindowFacts(front, e, end) && Extended(front, now, true)
    requires e.start <= now < end && now - e.start < WINDOW && e.count < MAX_ATTEMPTS
    ensures WindowFacts(front + [now], Entry(e.count + 1, e.start), end)
  {
    var all := front + [now];
    assert AllowedIn(all, e.start, end) == e.count + 1;
    assert AllowedIn(all, e.start + 1, end) <= e.count;
    assert AllowedIn(all, e.start + WINDOW, end) == 0;
    forall t: nat | t <= e.start < t + WINDOW ensures AllowedIn(all, t, e.start) <= MAX_ATTEMPTS - 1 {
      assert AllowedIn(front, t, e.start) <= MAX_ATTEMPTS - 1;
    }
  }

  lemma CountLimit(front: seq<nat>, e: Entry, now: nat, end: nat)
    requires WindowFacts(front, e, end) && Limited(front) && Extended(front, now, true)
    requires e.start <= now < end && now - e.start < WINDOW && forall i :: 0 <= i < |front| ==> front[i] < now + 1
    requires e.count < MAX_ATTEMPTS
    ensures Limited(front + [now])
  {
    forall t: nat ensures AllowedFrom(front + [now], t) <= 2 * MAX_ATTEMPTS - 1 {
      assert AllowedFrom(front, t) <= 2 * MAX_ATTEMPTS - 1;
      if t <= now < t + WINDOW {
        ClipAtEnd(front, t, now + 1, t + WINDOW, end);
        if t <= e.start { AllowedSplit(front, t, e.start, end); } else { OldWindowTail(front, e, t, end); }
      }
    }
  }

  lemma RefusalKeepsFacts(front: seq<nat>, e: Entry, now: nat, end: nat)
    requires WindowFacts(front, e, end) && Limited(front) && Extended(front, now, false)
    ensures WindowFacts(front + [now], e, end) && Limited(front + [now])
  {
    forall t: nat ensures AllowedFrom(front + [now], t) == AllowedFrom(front, t) {}
  }

  // ---- Theorems -------------------------------------------------------------------------------

  /** In any half-open interval of 60 seconds at most nine calls are allowed. */
  lemma AtMostNinePerWindow(times: seq<nat>, t: nat)
    requires NonDecreasing(times)
    ensures AllowedIn(times, t, t + WINDOW) <= 9
  {
    var end := if times == [] then 0 else times[|times| - 1] + 1;
    WindowInvariant(times, end);
    assert AllowedFrom(times, t) <= 9;
  }

  /** A call is refused exactly when it comes within 60 seconds of the start of the window and five
      calls were allowed since then. */
  lemma RefusedIffFiveAllowed(times: seq<nat>, now: nat)
    requires NonDecreasing(times + [now]) && times != []
    ensures var e := RunOf(times).entry;
      && e.Some? && e.value.start <= now
      && (!Decide(e, now).0 <==> now < e.value.start + WINDOW && AllowedIn(times, e.value.start, now + 1) == 5)
  {
    var all := times + [now];
    assert all[|times|] == now && forall i :: 0 <= i < |times| ==> all[i] == times[i];
    WindowInvariant(times, now + 1);
    DecideIsOutcome(RunOf(times).entry.value, now);
  }

  lemma OneMore(front: seq<nat>, e: Entry, now: nat, lo: nat)
    requires RunOf(front).entry == Some(e) && e.start <= now < e.start + WINDOW && e.count < MAX_ATTEMPTS
    requires lo <= now < lo + WINDOW
    ensures RunOf(front + [now]).entry == Some(Entry(e.count + 1, e.start))
    ensures AllowedFrom(front + [now], lo) == AllowedFrom(front, lo) + 1
  {
    DecideIsOutcome(e, now);
    AllowedSnoc(front, now, lo, lo + WINDOW);
  }

  const LATE: nat := 59 * NANOS
  const NINE := [0, LATE, LATE, LATE, LATE, WINDOW, WINDOW, WINDOW, WINDOW, WINDOW]

  /** Four calls at one time that fit into the window of the call before. */
  lemma FourMore(front: seq<nat>, start: nat, now: nat, lo: nat)
    requires RunOf(front).entry == Some(Entry(1, start)) && start <= now < start + WINDOW && lo <= now < lo + WINDOW
    ensures RunOf(front + [now, now, now, now]).entry == Some(Entry(5, start))
    ensures AllowedFrom(front + [now, now, now, now], lo) == AllowedFrom(front, lo) + 4
  {
    var one := front + [now];
    OneMore(front, Entry(1, start), now, lo);
    var two := one + [now];
    OneMore(one, Entry(2, start), now, lo);
    var three := two + [now];
    OneMore(two, Entry(3, start), now, lo);
    OneMore(three, Entry(4, start), now, lo);
    assert three + [now] == front + [now, now, now, now];
  }

  /** Nine calls within one interval do occur: the first opens a window, four follow at its very
      end, and five open and fill the next window. */
  lemma NineIsAttained()
    ensures NonDecreasing(NINE) && AllowedIn(NINE, LATE, LATE + WINDOW) == 9
  {
    FirstCall(0, 1);
    AllowedSnoc([], 0, LATE, LATE + WINDOW);
    assert [] + [0] == [0];
    FourMore([0], 0, LATE, LATE);
    var full := [0] + [LATE, LATE, LATE, LATE];
    DecideIsOutcome(Entry(5, 0), WINDOW);
    AllowedSnoc(full, WINDOW, LATE, LATE + WINDOW);
    FourMore(full + [WINDOW], WINDOW, WINDOW, LATE);
    assert full + [WINDOW] + [WINDOW, WINDOW, WINDOW, WINDOW] == NINE;
  }

  // ---- Many clients -----------------------------------------------------------------------------

  datatype CallAt = CallAt(key: string, time: nat)

  /** The table after a sequence of calls by different clients. */
  function TableOf(calls: seq<CallAt>): map<string, Entry> {
    if calls == [] then map[]
    else
      var c := calls[|calls| - 1];
      CheckIn(TableOf(calls[..|calls| - 1]), c.key, c.time).0
  }

  function TimesOf(calls: seq<CallAt>, key: string): seq<nat> {
    if calls == [] then []
    else
      var c := calls[|calls| - 1];
      TimesOf(calls[..|calls| - 1], key) + (if c.key == key then [c.time] else [])
  }

  /** Clients do not influence each other: a client's entry, and so every decision about it, is
      that of a run with its own calls only. */
  lemma {:induction false} ClientsAreIndependent(calls: seq<CallAt>, key: string)
    ensures Lookup(TableOf(calls), key) == RunOf(TimesOf(calls, key)).entry
  {
    if calls != [] {
      var front, c := calls[..|calls| - 1], calls[|calls| - 1];
      ClientsAreIndependent(front, key);
      if c.key == key {
        AllowedSnoc(TimesOf(front, key), c.time, 0, 0);
      } else {
        assert TimesOf(calls, key) == TimesOf(front, key);
      }
    }
  }
}
