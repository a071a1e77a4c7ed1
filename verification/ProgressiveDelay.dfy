/**
 The progressive delay over a sliding window that limits failed logins, verification emails and reset
 requests: auth.email-settings.ts, and the same rule in auth.service.ts for logins. Times are in
 milliseconds.
 */
module ProgressiveDelay {
  import opened Wrappers
  import opened Arithmetic

  type Time = int

  datatype Limit = Limit(free: nat, base: nat, cap: nat, window: nat)

  const HOUR := 60 * 60 * 1000

  /** ADR-002, D3: five failed logins, then 30 s doubling up to 15 minutes, over 24 hours. */
  const LOGIN := Limit(5, 30_000, 900_000, 24 * HOUR)
  const RESEND := Limit(3, 30_000, 900_000, 24 * HOUR)
  const FORGOT := Limit(3, 30_000, 900_000, 24 * HOUR)

  /** min(base * 2^(count - free), cap) */
  function Delay(limit: Limit, count: nat): nat
    requires count >= limit.free
  {
    Min(Doubled(limit.base, count - limit.free), limit.cap)
  }

  function RemainingDelay(limit: Limit, count: nat, last: Option<Time>, now: Time): int {
    if count < limit.free || last.None? then 0
    else last.value + Delay(limit, count) - now
  }

  // ----- What an attempt sees of the log -----

  /** How many events are after this instant. */
  function CountAfter(log: seq<Time>, from: Time): nat {
    if log == [] then 0
    else CountAfter(log[..|log| - 1], from) + if log[|log| - 1] > from then 1 else 0
  }

  /** The latest event after this instant; a log is in order. */
  function LastAfter(log: seq<Time>, from: Time): Option<Time> {
    if log != [] && log[|log| - 1] > from then Some(log[|log| - 1]) else None
  }

  /** How long an attempt would still have to wait. */
  function Wait(limit: Limit, log: seq<Time>, now: Time): int {
    RemainingDelay(limit, CountAfter(log, now - limit.window), LastAfter(log, now - limit.window), now)
  }

  predicate Ordered(log: seq<Time>) {
    forall i, j :: 0 <= i < j < |log| ==> log[i] <= log[j]
  }

  /** A log only attempts that were let through have written, one after the other. */
  predicate ValidLog(limit: Limit, log: seq<Time>) {
    && Ordered(log)
    && forall i :: 0 <= i < |log| ==> Wait(limit, log[..i], log[i]) <= 0
  }

  // ----- The bound -----

  lemma DelayMonotone(limit: Limit, a: nat, b: nat)
    requires limit.free <= a <= b
    ensures Delay(limit, a) <= Delay(limit, b)
  {
    DoubledMonotone(limit.base, a - limit.free, b - limit.free);
  }

  lemma {:induction false} CountsAtLeast(log: seq<Time>, from: Time, i: nat)
    requires Ordered(log) && i < |log| && log[i] > from
    ensures CountAfter(log, from) >= |log| - i
    decreases |log|
  {
    if |log| - 1 > i {
      CountsAtLeast(log[..|log| - 1], from, i);
    }
  }

  lemma {:induction false} CountsAtMost(log: seq<Time>, from: Time)
    ensures CountAfter(log, from) <= |log|
  {
    if log != [] {
      CountsAtMost(log[..|log| - 1], from);
    }
  }

  /** The delays served before n events can be in one window. */
  function TotalDelay(limit: Limit, n: nat): nat {
    if n <= limit.free then 0 else TotalDelay(limit, n - 1) + Delay(limit, n - 1)
  }

  /** Event number k of a window waited at least for the delay of k events. */
  lemma WaitedFor(limit: Limit, log: seq<Time>, i: nat, k: nat)
    requires ValidLog(limit, log) && i + k < |log| && k >= 1 && k >= limit.free
    requires log[i + k] - log[i] < limit.window
    ensures log[i + k] >= log[i + k - 1] + Delay(limit, k)
  {
    var before, now := log[..i + k], log[i + k];
    assert Wait(limit, before, now) <= 0;
    CountsAtLeast(before, now - limit.window, i);
    assert before[|before| - 1] == log[i + k - 1] >= log[i] > now - limit.window;
    DelayMonotone(limit, k, CountAfter(before, now - limit.window));
  }

  lemma SpanStep(limit: Limit, log: seq<Time>, i: nat, n: nat)
    requires ValidLog(limit, log) && limit.free >= 1 && 1 < n && i + n <= |log|
    requires log[i + n - 1] - log[i] < limit.window
    ensures log[i + n - 2] <= log[i + n - 1]
    ensures log[i + n - 1] - log[i + n - 2] >= TotalDelay(limit, n) - TotalDelay(limit, n - 1)
  {
    if n > limit.free {
      WaitedFor(limit, log, i, n - 1);
    }
  }

  lemma {:induction false} SpanAtLeast(limit: Limit, log: seq<Time>, i: nat, n: nat)
    requires ValidLog(limit, log) && limit.free >= 1 && 1 <= n && i + n <= |log|
    requires log[i + n - 1] - log[i] < limit.window
    ensures log[i + n - 1] - log[i] >= TotalDelay(limit, n)
    decreases n
  {
    if n > 1 {
      SpanStep(limit, log, i, n);
      SpanAtLeast(limit, log, i, n - 1);
    }
  }

  /** n events of the log lie in one window of this length, whatever instant it ends at. */
  ghost predicate InOneWindow(limit: Limit, log: seq<Time>, i: nat, n: nat) {
    i + n <= |log| && (n == 0 || log[i + n - 1] - log[i] < limit.window)
  }

  // ----- It is attained -----

  /** Each attempt made as soon as the delay allows. */
  function Greedy(limit: Limit, n: nat): (log: seq<Time>)
    ensures |log| == n
  {
    if n == 0 then [] else Greedy(limit, n - 1) + [TotalDelay(limit, n)]
  }

  lemma {:induction false} GreedyTimes(limit: Limit, n: nat, k: nat)
    requires k < n
    ensures Greedy(limit, n)[k] == TotalDelay(limit, k + 1)
    decreases n
  {
    if k < n - 1 {
      GreedyTimes(limit, n - 1, k);
    }
  }

  lemma {:induction false} TotalMonotone(limit: Limit, a: nat, b: nat)
    requires a <= b
    ensures TotalDelay(limit, a) <= TotalDelay(limit, b)
    decreases b
  {
    if a < b {
      TotalMonotone(limit, a, b - 1);
    }
  }

  lemma {:induction false} GreedyPrefix(limit: Limit, n: nat, k: nat)
    requires k <= n
    ensures Greedy(limit, n)[..k] == Greedy(limit, k)
    decreases n
  {
    if k < n {
      GreedyPrefix(limit, n - 1, k);
      assert Greedy(limit, n)[..k] == Greedy(limit, n - 1)[..k];
    }
  }

  lemma {:induction false} GreedyIsValid(limit: Limit, n: nat)
    requires limit.free >= 1 && TotalDelay(limit, n) < limit.window
    ensures ValidLog(limit, Greedy(limit, n))
    decreases n
  {
    var log := Greedy(limit, n);
    forall i, j | 0 <= i < j < n
      ensures log[i] <= log[j]
    {
      GreedyTimes(limit, n, i);
      GreedyTimes(limit, n, j);
      TotalMonotone(limit, i + 1, j + 1);
    }
    forall i | 0 <= i < n
      ensures Wait(limit, log[..i], log[i]) <= 0
    {
      GreedyTimes(limit, n, i);
      GreedyPrefix(limit, n, i);
      TotalMonotone(limit, i + 1, n);
      CountsAtMost(log[..i], log[i] - limit.window);
      if i >= limit.free {
        GreedyTimes(limit, n, i - 1);
        var count := CountAfter(log[..i], log[i] - limit.window);
        if count >= limit.free {
          DelayMonotone(limit, count, i);
        }
      }
    }
  }

  /** As many events fit in one window as their delays do, and no more. */
  lemma EventsInWindowExactly(limit: Limit, n: nat)
    requires limit.free >= 1 && limit.window >= 1
    ensures (exists log, i :: ValidLog(limit, log) && InOneWindow(limit, log, i, n))
         <==> TotalDelay(limit, n) < limit.window
  {
    forall log, i | ValidLog(limit, log) && InOneWindow(limit, log, i, n)
      ensures TotalDelay(limit, n) < limit.window
    {
      if n > 0 {
        SpanAtLeast(limit, log, i, n);
      }
    }
    if TotalDelay(limit, n) < limit.window {
      GreedyIsValid(limit, n);
      if n > 0 {
        GreedyTimes(limit, n, n - 1);
        GreedyTimes(limit, n, 0);
        TotalMonotone(limit, 0, 1);
      }
      assert InOneWindow(limit, Greedy(limit, n), 0, n);
    }
  }

  // ----- With the approved values -----

  predicate Approved(limit: Limit) {
    limit.free >= 1 && limit.base == 30_000 && limit.cap == 900_000 && limit.window == 24 * HOUR
  }

  lemma ApprovedDelays(limit: Limit, k: nat)
    requires Approved(limit)
    ensures Delay(limit, limit.free) == 30_000 && Delay(limit, limit.free + 1) == 60_000
    ensures Delay(limit, limit.free + 2) == 120_000 && Delay(limit, limit.free + 3) == 240_000
    ensures Delay(limit, limit.free + 4) == 480_000
    ensures Delay(limit, limit.free + 5 + k) == 900_000
  {
    assert Doubled(30_000, 1) == 60_000;
    assert Doubled(30_000, 2) == Doubled(60_000, 1) == 120_000;
    assert Doubled(30_000, 3) == Doubled(60_000, 2) == Doubled(120_000, 1) == 240_000;
    assert Doubled(30_000, 4) == Doubled(60_000, 3) == Doubled(120_000, 2) == Doubled(240_000, 1) == 480_000;
    assert Doubled(30_000, 5) == Doubled(60_000, 4) == Doubled(120_000, 3);
    assert Doubled(120_000, 3) == Doubled(240_000, 2) == Doubled(480_000, 1) == 960_000;
    DoubledMonotone(30_000, 5, 5 + k);
  }

  lemma {:induction false} ApprovedTotal(limit: Limit, k: nat)
    requires Approved(limit)
    ensures TotalDelay(limit, limit.free + 5 + k) == 930_000 + 900_000 * k
    decreases k
  {
    if k == 0 {
      ApprovedDelays(limit, 0);
      var f := limit.free;
      assert TotalDelay(limit, f + 1) == 30_000;
      assert TotalDelay(limit, f + 2) == 90_000;
      assert TotalDelay(limit, f + 3) == 210_000;
      assert TotalDelay(limit, f + 4) == 450_000;
    } else {
      ApprovedDelays(limit, k - 1);
      ApprovedTotal(limit, k - 1);
    }
  }

  /** At most free + 99 events in any 24 hours, and that many do happen. */
  lemma ApprovedBound(limit: Limit, n: nat)
    requires Approved(limit)
    ensures (exists log, i :: ValidLog(limit, log) && InOneWindow(limit, log, i, n)) <==> n <= limit.free + 99
  {
    EventsInWindowExactly(limit, n);
    ApprovedTotal(limit, 94);
    ApprovedTotal(limit, 95);
    if n <= limit.free + 99 {
      TotalMonotone(limit, n, limit.free + 99);
    } else {
      TotalMonotone(limit, limit.free + 100, n);
    }
  }

  /** 104 failed logins of an account in 24 hours, 102 verification emails or reset requests. */
  lemma DailyBounds(log: seq<Time>, i: nat, n: nat)
    ensures ValidLog(LOGIN, log) && InOneWindow(LOGIN, log, i, n) ==> n <= 104
    ensures ValidLog(RESEND, log) && InOneWindow(RESEND, log, i, n) ==> n <= 102
    ensures ValidLog(FORGOT, log) && InOneWindow(FORGOT, log, i, n) ==> n <= 102
  {
    ApprovedBound(LOGIN, n);
    ApprovedBound(RESEND, n);
    ApprovedBound(FORGOT, n);
  }
}
