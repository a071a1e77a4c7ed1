/**
 The attempts a progressive delay limits: runLoginAttempt, runEmailVerificationResend and
 runPasswordResetRequest with what auth.service.ts does inside them. Attempts of one key run one at a
 time (the advisory lock) on a clock that does not go back (PostgreSQL's).
 */
module AttemptLimiter {
  import opened Wrappers
  import opened ProgressiveDelay

  /** `counted` events are the ones the limit counts; refusals are recorded, but never counted. */
  datatype Entry = Entry(counted: bool, key: string, at: Time)

  /** The counted events of one key, in order. */
  function TimesOf(entries: seq<Entry>, key: string): seq<Time> {
    if entries == [] then []
    else
      var last := entries[|entries| - 1];
      TimesOf(entries[..|entries| - 1], key) + if last.counted && last.key == key then [last.at] else []
  }

  lemma TimesOfAppend(entries: seq<Entry>, e: Entry, key: string)
    ensures TimesOf(entries + [e], key) == TimesOf(entries, key) + if e.counted && e.key == key then [e.at] else []
  {
    assert (entries + [e])[..|entries|] == entries;
  }

  lemma CountAfterAppend(log: seq<Time>, t: Time, from: Time)
    ensures CountAfter(log + [t], from) == CountAfter(log, from) + if t > from then 1 else 0
  {
    assert (log + [t])[..|log|] == log;
  }

  predicate AllBefore(entries: seq<Entry>, now: Time) {
    forall i :: 0 <= i < |entries| ==> entries[i].at <= now
  }

  lemma {:induction false} TimesBefore(entries: seq<Entry>, key: string, now: Time)
    requires AllBefore(entries, now)
    ensures forall i :: 0 <= i < |TimesOf(entries, key)| ==> TimesOf(entries, key)[i] <= now
  {
    if entries != [] {
      TimesBefore(entries[..|entries| - 1], key, now);
    }
  }

  lemma ValidLogAppend(limit: Limit, log: seq<Time>, now: Time)
    requires ValidLog(limit, log) && Wait(limit, log, now) <= 0
    requires forall i :: 0 <= i < |log| ==> log[i] <= now
    ensures ValidLog(limit, log + [now])
  {
    var next := log + [now];
    forall i | 0 <= i < |next|
      ensures Wait(limit, next[..i], next[i]) <= 0
    {
      assert next[..i] == log[..i];
      assert log[..|log|] == log;
    }
  }

  /** Math.max(1, Math.ceil(remaining / 1000)), for a remaining time. */
  function RetryAfter(remaining: int): int
    requires remaining > 0
  {
    (remaining + 999) / 1000
  }

  lemma {:induction false} CountShrinks(log: seq<Time>, from: Time, later: Time)
    requires from <= later
    ensures CountAfter(log, later) <= CountAfter(log, from)
  {
    if log != [] {
      CountShrinks(log[..|log| - 1], from, later);
    }
  }

  /** Whoever waits what the answer says is let through; while no event leaves the window, nobody sooner. */
  lemma RetryAfterIsEnough(limit: Limit, log: seq<Time>, now: Time, later: Time)
    requires Wait(limit, log, now) > 0
    ensures now + 1000 * RetryAfter(Wait(limit, log, now)) <= later ==> Wait(limit, log, later) <= 0
    ensures now <= later < log[|log| - 1] + limit.window
            && CountAfter(log, later - limit.window) == CountAfter(log, now - limit.window)
            ==> (Wait(limit, log, later) > 0 <==> later < now + Wait(limit, log, now))
  {
    if now <= later {
      var before, after := CountAfter(log, now - limit.window), CountAfter(log, later - limit.window);
      CountShrinks(log, now - limit.window, later - limit.window);
      if after >= limit.free {
        DelayMonotone(limit, after, before);
      }
    }
  }

  function MaxAfter(log: seq<Time>, from: Time): Option<Time> {
    if log == [] then None
    else
      var t, before := log[|log| - 1], MaxAfter(log[..|log| - 1], from);
      if t <= from then before
      else if before.Some? && before.value > t then before
      else Some(t)
  }

  lemma MaxAfterAppend(log: seq<Time>, t: Time, from: Time)
    ensures var before := MaxAfter(log, from);
            MaxAfter(log + [t], from) == if t <= from then before
                                         else if before.Some? && before.value > t then before else Some(t)
  {
    assert (log + [t])[..|log|] == log;
  }

  predicate IsRecent(e: Entry, key: string, from: Time) {
    e.counted && e.key == key && e.at > from
  }

  lemma RecentNext(entries: seq<Entry>, i: nat, key: string, from: Time)
    requires i < |entries|
    ensures var log, next, e := TimesOf(entries[..i], key), TimesOf(entries[..i + 1], key), entries[i];
            && CountAfter(next, from) == CountAfter(log, from) + (if IsRecent(e, key, from) then 1 else 0)
            && MaxAfter(next, from) == var before := MaxAfter(log, from);
                                       if !IsRecent(e, key, from) then before
                                       else if before.Some? && before.value > e.at then before else Some(e.at)
  {
    var e := entries[i];
    assert entries[..i + 1] == entries[..i] + [e];
    TimesOfAppend(entries[..i], e, key);
    assert TimesOf(entries[..i], key) + [] == TimesOf(entries[..i], key);
    if e.counted && e.key == key {
      CountAfterAppend(TimesOf(entries[..i], key), e.at, from);
      MaxAfterAppend(TimesOf(entries[..i], key), e.at, from);
    }
  }

  /** In a log in order, the latest event is the last one. */
  lemma {:induction false} MaxIsLast(log: seq<Time>, from: Time)
    requires Ordered(log)
    ensures MaxAfter(log, from) == LastAfter(log, from)
    ensures MaxAfter(log, from).Some? ==> MaxAfter(log, from).value <= log[|log| - 1]
  {
    if log != [] {
      MaxIsLast(log[..|log| - 1], from);
    }
  }

  /** A new entry keeps every key's log one the delay allows. */
  lemma StillValid(limit: Limit, entries: seq<Entry>, e: Entry, key: string)
    requires ValidLog(limit, TimesOf(entries, key)) && AllBefore(entries, e.at)
    requires e.counted && e.key == key ==> Wait(limit, TimesOf(entries, key), e.at) <= 0
    ensures ValidLog(limit, TimesOf(entries + [e], key))
  {
    TimesOfAppend(entries, e, key);
    if e.counted && e.key == key {
      TimesBefore(entries, key, e.at);
      ValidLogAppend(limit, TimesOf(entries, key), e.at);
    } else {
      assert TimesOf(entries, key) + [] == TimesOf(entries, key);
    }
  }

  datatype Outcome = Throttled(retryAfterSeconds: int) | LetThrough

  class Limiter {
    const limit: Limit
    const recordsRefusals: bool  // auth.login.rate_limited; the other two record nothing
    var entries: seq<Entry>

    constructor (limit: Limit, recordsRefusals: bool)
      ensures Valid() && entries == [] && this.limit == limit
    {
      this.limit, this.recordsRefusals, entries := limit, recordsRefusals, [];
    }

    /** What was let through for every key, and only that, is a log the delay allows. */
    ghost predicate Valid()
      reads this
    {
      forall key: string :: ValidLog(limit, TimesOf(entries, key))
    }

    /** The count and the latest of the counted events of a key after an instant. */
    method Recent(key: string, from: Time) returns (count: nat, last: Option<Time>)
      requires Ordered(TimesOf(entries, key))
      ensures count == CountAfter(TimesOf(entries, key), from) && last == LastAfter(TimesOf(entries, key), from)
    {
      count, last := 0, None;
      for i := 0 to |entries|
        invariant count == CountAfter(TimesOf(entries[..i], key), from)
        invariant last == MaxAfter(TimesOf(entries[..i], key), from)
      {
        var e := entries[i];
        RecentNext(entries, i, key, from);
        if e.counted && e.key == key && e.at > from {
          count := count + 1;
          last := Some(if last.Some? && last.value > e.at then last.value else e.at);
        }
      }
      assert entries[..|entries|] == entries;
      MaxIsLast(TimesOf(entries, key), from);
    }

    /** How long an attempt of this key would still have to wait. */
    method Remaining(key: string, now: Time) returns (remaining: int)
      requires Valid()
      ensures remaining == Wait(limit, TimesOf(entries, key), now)
    {
      assert ValidLog(limit, TimesOf(entries, key));
      var count, last := Recent(key, now - limit.window);
      remaining := RemainingDelay(limit, count, last, now);
    }

    /**
     One attempt: refused while the delay is not over; otherwise let through, and recorded if it
     counts (a failed login; any accepted email or reset request).
     */
    method Attempt(key: string, now: Time, counts: bool) returns (outcome: Outcome)
      requires Valid() && AllBefore(entries, now)
      modifies this
      ensures Valid() && AllBefore(entries, now)
      ensures var wait := Wait(limit, old(TimesOf(entries, key)), now);
              outcome == if wait > 0 then Throttled(RetryAfter(wait)) else LetThrough
      ensures TimesOf(entries, key)
           == old(TimesOf(entries, key)) + if outcome.LetThrough? && counts then [now] else []
      ensures forall other :: other != key ==> TimesOf(entries, other) == old(TimesOf(entries, other))
    {
      var remaining := Remaining(key, now);
      if remaining > 0 {
        outcome := Throttled(RetryAfter(remaining));
        if recordsRefusals {
          Record(Entry(false, key, now));
        }
      } else {
        outcome := LetThrough;
        if counts {
          Record(Entry(true, key, now));
        }
      }
    }

    method Record(e: Entry)
      requires Valid() && AllBefore(entries, e.at)
      requires e.counted ==> Wait(limit, TimesOf(entries, e.key), e.at) <= 0
      modifies this
      ensures Valid() && AllBefore(entries, e.at)
      ensures TimesOf(entries, e.key) == old(TimesOf(entries, e.key)) + if e.counted then [e.at] else []
      ensures forall key :: key != e.key ==> TimesOf(entries, key) == old(TimesOf(entries, key))
    {
      forall key
        ensures ValidLog(limit, TimesOf(entries + [e], key))
        ensures key != e.key ==> TimesOf(entries + [e], key) == TimesOf(entries, key)
      {
        StillValid(limit, entries, e, key);
        TimesOfAppend(entries, e, key);
      }
      TimesOfAppend(entries, e, e.key);
      entries := entries + [e];
    }
  }
}
