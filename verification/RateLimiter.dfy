/**
 The fixed-window limiter of security/rate-limiter.ts, and the map without any sweep it stands for.
 Times are in milliseconds.
 */
module RateLimiter {
  import opened Wrappers

  type Time = int

  datatype Bucket = Bucket(count: nat, resetAt: Time)

  datatype Answer = Answer(allowed: bool, retryAfterSeconds: int)

  datatype Call = Call(key: string, now: Time)

  /** Math.ceil(ms / 1000), also for a negative number. */
  function CeilSeconds(ms: int): int {
    (ms + 999) / 1000
  }

  // ----- The limiter without a sweep -----

  function Live(buckets: map<string, Bucket>, key: string, now: Time): Option<Bucket> {
    if key in buckets && buckets[key].resetAt > now then Some(buckets[key]) else None
  }

  function AnswerTo(max: int, bucket: Option<Bucket>, now: Time): Answer {
    if bucket.None? || bucket.value.count < max then Answer(true, 0)
    else Answer(false, CeilSeconds(bucket.value.resetAt - now))
  }

  function BucketAfter(max: int, window: nat, bucket: Option<Bucket>, now: Time): Bucket {
    if bucket.None? then Bucket(1, now + window)
    else if bucket.value.count < max then bucket.value.(count := bucket.value.count + 1)
    else bucket.value
  }

  function Consumed(max: int, window: nat, buckets: map<string, Bucket>, c: Call): map<string, Bucket> {
    buckets[c.key := BucketAfter(max, window, Live(buckets, c.key, c.now), c.now)]
  }

  /** The buckets of a limiter that never forgets one. */
  function NeverSwept(max: int, window: nat, calls: seq<Call>): map<string, Bucket> {
    if calls == [] then map[]
    else Consumed(max, window, NeverSwept(max, window, calls[..|calls| - 1]), calls[|calls| - 1])
  }

  // ----- The limiter with its lazy sweep -----

  datatype Limiter = Limiter(buckets: map<string, Bucket>, nextSweepAt: Time)

  function Swept(buckets: map<string, Bucket>, now: Time): map<string, Bucket> {
    map key | key in buckets && buckets[key].resetAt > now :: buckets[key]
  }

  function SweptIfDue(window: nat, l: Limiter, now: Time): Limiter {
    if now < l.nextSweepAt then l else Limiter(Swept(l.buckets, now), now + window)
  }

  function After(max: int, window: nat, l: Limiter, c: Call): Limiter {
    var swept := SweptIfDue(window, l, c.now);
    swept.(buckets := Consumed(max, window, swept.buckets, c))
  }

  function AfterAll(max: int, window: nat, calls: seq<Call>): Limiter {
    if calls == [] then Limiter(map[], 0)
    else After(max, window, AfterAll(max, window, calls[..|calls| - 1]), calls[|calls| - 1])
  }

  class FixedWindowRateLimiter {
    var buckets: map<string, Bucket>
    var nextSweepAt: Time
    const max: int
    const windowMs: nat

    constructor (max: int, windowMs: nat)
      ensures View() == AfterAll(max, windowMs, []) && this.max == max && this.windowMs == windowMs
    {
      this.max, this.windowMs := max, windowMs;
      buckets, nextSweepAt := map[], 0;
    }

    function View(): Limiter
      reads this
    {
      Limiter(buckets, nextSweepAt)
    }

    /** Drops expired buckets at most once per window. */
    method SweepExpired(now: Time)
      modifies this
      ensures View() == SweptIfDue(windowMs, old(View()), now)
    {
      if now < nextSweepAt {
        return;
      }
      var keys := buckets.Keys;
      while keys != {}
        invariant keys <= old(buckets).Keys && nextSweepAt == old(nextSweepAt)
        invariant buckets
               == map key | key in old(buckets) && (key in keys || old(buckets)[key].resetAt > now) :: old(buckets)[key]
        decreases |keys|
      {
        var key :| key in keys;
        if buckets[key].resetAt <= now {
          buckets := buckets - {key};
        }
        keys := keys - {key};
      }
      nextSweepAt := now + windowMs;
    }

    method Consume(key: string, now: Time) returns (r: Answer)
      modifies this
      ensures View() == After(max, windowMs, old(View()), Call(key, now))
      ensures r == AnswerTo(max, Live(SweptIfDue(windowMs, old(View()), now).buckets, key, now), now)
    {
      SweepExpired(now);
      if key !in buckets || buckets[key].resetAt <= now {
        buckets := buckets[key := Bucket(1, now + windowMs)];
        return Answer(true, 0);
      }
      var bucket := buckets[key];
      if bucket.count < max {
        buckets := buckets[key := bucket.(count := bucket.count + 1)];
        return Answer(true, 0);
      }
      assert buckets[key := bucket] == buckets;
      return Answer(false, CeilSeconds(bucket.resetAt - now));
    }
  }

  // ----- The sweep is invisible -----

  predicate InOrder(calls: seq<Call>) {
    forall i, j :: 0 <= i < j < |calls| ==> calls[i].now <= calls[j].now
  }

  /** From this instant on, both maps answer alike. */
  predicate Agree(a: map<string, Bucket>, b: map<string, Bucket>, now: Time) {
    forall key :: key in a.Keys + b.Keys ==> Live(a, key, now) == Live(b, key, now)
  }

  lemma AgreeOn(a: map<string, Bucket>, b: map<string, Bucket>, now: Time, key: string)
    requires Agree(a, b, now)
    ensures Live(a, key, now) == Live(b, key, now)
  {
  }

  lemma AgreeAfter(max: int, window: nat, l: Limiter, b: map<string, Bucket>, before: Time, c: Call)
    requires Agree(l.buckets, b, before) && before <= c.now
    ensures Agree(SweptIfDue(window, l, c.now).buckets, b, c.now)
    ensures Agree(After(max, window, l, c).buckets, Consumed(max, window, b, c), c.now)
  {
    var s := SweptIfDue(window, l, c.now).buckets;
    forall key
      ensures Live(s, key, c.now) == Live(b, key, c.now)
      ensures Live(Consumed(max, window, s, c), key, c.now) == Live(Consumed(max, window, b, c), key, c.now)
    {
      AgreeOn(l.buckets, b, before, key);
      AgreeOn(l.buckets, b, before, c.key);
    }
  }

  lemma {:induction false} AgreeAfterAll(max: int, window: nat, calls: seq<Call>, now: Time)
    requires InOrder(calls) && (calls != [] ==> calls[|calls| - 1].now <= now)
    ensures Agree(AfterAll(max, window, calls).buckets, NeverSwept(max, window, calls), now)
    decreases |calls|
  {
    if calls != [] {
      var before, c := calls[..|calls| - 1], calls[|calls| - 1];
      AgreeAfterAll(max, window, before, c.now);
      var l, b := AfterAll(max, window, before), NeverSwept(max, window, before);
      AgreeAfter(max, window, l, b, c.now, c);
      forall key
        ensures Live(After(max, window, l, c).buckets, key, now) == Live(Consumed(max, window, b, c), key, now)
      {
        AgreeOn(After(max, window, l, c).buckets, Consumed(max, window, b, c), c.now, key);
      }
    }
  }

  /** Whatever calls came before, the next answer is that of a map never swept. */
  lemma SweepIsInvisible(max: int, window: nat, calls: seq<Call>, c: Call)
    requires InOrder(calls + [c])
    ensures AnswerTo(max, Live(SweptIfDue(window, AfterAll(max, window, calls), c.now).buckets, c.key, c.now), c.now)
         == AnswerTo(max, Live(NeverSwept(max, window, calls), c.key, c.now), c.now)
  {
    forall i, j | 0 <= i < j < |calls|
      ensures calls[i].now <= calls[j].now
    {
      assert (calls + [c])[i] == calls[i] && (calls + [c])[j] == calls[j];
    }
    if calls != [] {
      assert (calls + [c])[|calls| - 1] == calls[|calls| - 1] && (calls + [c])[|calls|] == c;
    }
    AgreeAfterAll(max, window, calls, c.now);
    var l, b := AfterAll(max, window, calls), NeverSwept(max, window, calls);
    AgreeAfter(max, window, l, b, c.now, c);
    AgreeOn(SweptIfDue(window, l, c.now).buckets, b, c.now, c.key);
  }

  /** Every bucket tracked after a call was opened less than two windows before it. */
  lemma {:induction false} TrackedIsRecent(max: int, window: nat, calls: seq<Call>, key: string)
    requires window >= 1 && InOrder(calls) && calls != [] && calls[0].now >= 0
    ensures var l, now := AfterAll(max, window, calls), calls[|calls| - 1].now;
            && now < l.nextSweepAt <= now + window
            && (key in l.buckets ==> l.buckets[key].resetAt > l.nextSweepAt - window)
            && (key in l.buckets ==> now - (l.buckets[key].resetAt - window) < 2 * window)
    decreases |calls|
  {
    var before, c := calls[..|calls| - 1], calls[|calls| - 1];
    if before != [] {
      TrackedIsRecent(max, window, before, key);
      TrackedIsRecent(max, window, before, c.key);
      assert before[|before| - 1].now <= c.now;
    }
  }

  // ----- What it admits -----

  /** The last of these calls was let through. */
  predicate Allowed(max: int, window: nat, calls: seq<Call>)
    requires calls != []
  {
    var c := calls[|calls| - 1];
    AnswerTo(max, Live(NeverSwept(max, window, calls[..|calls| - 1]), c.key, c.now), c.now).allowed
  }

  /** The calls of a key let through from an instant on. */
  function Admitted(max: int, window: nat, calls: seq<Call>, key: string, from: Time): nat {
    if calls == [] then 0
    else
      var c := calls[|calls| - 1];
      Admitted(max, window, calls[..|calls| - 1], key, from)
      + if c.key == key && c.now >= from && Allowed(max, window, calls) then 1 else 0
  }

  /** A window opened inside the interval follows one whose opening call is outside it. */
  lemma {:induction false} AdmittedSoFar(max: nat, window: nat, calls: seq<Call>, key: string, from: Time)
    requires max >= 1 && InOrder(calls) && (calls != [] ==> calls[|calls| - 1].now < from + window)
    ensures var buckets, n := NeverSwept(max, window, calls), Admitted(max, window, calls, key, from);
            && (calls != [] && calls[|calls| - 1].now < from ==> n == 0)
            && if key !in buckets then n == 0
               else
                 && 1 <= buckets[key].count <= max
                 && n <= buckets[key].count - 1 + if buckets[key].resetAt - window < from then 0 else max
    decreases |calls|
  {
    if calls != [] {
      AdmittedSoFar(max, window, calls[..|calls| - 1], key, from);
    }
  }

  /** Any interval as long as the window admits at most 2 * max - 1 calls of a key. */
  lemma AtMostTwiceLessOne(max: nat, window: nat, calls: seq<Call>, key: string, from: Time)
    requires max >= 1 && InOrder(calls) && (calls != [] ==> calls[|calls| - 1].now < from + window)
    ensures Admitted(max, window, calls, key, from) <= 2 * max - 1
  {
    AdmittedSoFar(max, window, calls, key, from);
  }

  /** The same call made n more times. */
  function Repeated(calls: seq<Call>, c: Call, n: nat): (all: seq<Call>)
    ensures |all| == |calls| + n
    decreases n
  {
    if n == 0 then calls else Repeated(calls, c, n - 1) + [c]
  }

  function Opened(window: nat, bucket: Option<Bucket>, now: Time): Bucket {
    if bucket.None? then Bucket(0, now + window) else bucket.value
  }

  /** The bucket a call of this key and time finds, or opens. */
  function Found(max: int, window: nat, calls: seq<Call>, c: Call): Bucket {
    Opened(window, Live(NeverSwept(max, window, calls), c.key, c.now), c.now)
  }

  lemma OneMore(max: int, window: nat, calls: seq<Call>, c: Call, from: Time)
    requires window >= 1 && c.now >= from && Found(max, window, calls, c).count < max
    ensures var b := Found(max, window, calls, c); Found(max, window, calls + [c], c) == b.(count := b.count + 1)
    ensures Admitted(max, window, calls + [c], c.key, from) == Admitted(max, window, calls, c.key, from) + 1
  {
    assert (calls + [c])[..|calls|] == calls;
  }

  /** n more calls of one key and time, with room for them: all are let through. */
  ghost predicate AdmitsMore(max: int, window: nat, calls: seq<Call>, all: seq<Call>, c: Call, from: Time, n: nat) {
    && Found(max, window, all, c).count == Found(max, window, calls, c).count + n
    && Found(max, window, all, c).resetAt == Found(max, window, calls, c).resetAt
    && Admitted(max, window, all, c.key, from) == Admitted(max, window, calls, c.key, from) + n
  }

  lemma AdmitsOneMore(max: int, window: nat, calls: seq<Call>, all: seq<Call>, c: Call, from: Time, n: nat)
    requires window >= 1 && c.now >= from && Found(max, window, calls, c).count + n < max
    requires AdmitsMore(max, window, calls, all, c, from, n)
    ensures AdmitsMore(max, window, calls, all + [c], c, from, n + 1)
  {
    OneMore(max, window, all, c, from);
  }

  lemma {:induction false} RepeatedAdmits(max: int, window: nat, calls: seq<Call>, c: Call, from: Time, n: nat)
    requires window >= 1 && c.now >= from && Found(max, window, calls, c).count + n <= max
    ensures AdmitsMore(max, window, calls, Repeated(calls, c, n), c, from, n)
    decreases n
  {
    if n > 0 {
      RepeatedAdmits(max, window, calls, c, from, n - 1);
      AdmitsOneMore(max, window, calls, Repeated(calls, c, n - 1), c, from, n - 1);
    }
  }

  lemma {:induction false} RepeatedInOrder(calls: seq<Call>, c: Call, n: nat)
    requires InOrder(calls) && (calls != [] ==> calls[|calls| - 1].now <= c.now)
    ensures InOrder(Repeated(calls, c, n)) && (n > 0 ==> Repeated(calls, c, n)[|calls| + n - 1] == c)
    decreases n
  {
    if n > 0 {
      RepeatedInOrder(calls, c, n - 1);
    }
  }

  lemma FirstCall(max: int, window: nat, c: Call, from: Time)
    requires c.now < from
    ensures NeverSwept(max, window, [c]) == map[c.key := Bucket(1, c.now + window)]
    ensures Admitted(max, window, [c], c.key, from) == 0
  {
    assert [c][..0] == [];
  }

  /** One call, max - 1 more at the end of its window, and max when the next one opens: the bound is met. */
  lemma TwiceLessOneIsAdmitted(max: nat, window: nat, key: string) returns (calls: seq<Call>, from: Time)
    requires max >= 1 && window >= 2
    ensures InOrder(calls) && calls != [] && calls[|calls| - 1].now < from + window
    ensures Admitted(max, window, calls, key, from) == 2 * max - 1
  {
    from := window - 1;
    var first := [Call(key, 0)];
    FirstCall(max, window, first[0], from);
    var late := Repeated(first, Call(key, window - 1), max - 1);
    RepeatedAdmits(max, window, first, Call(key, window - 1), from, max - 1);
    RepeatedInOrder(first, Call(key, window - 1), max - 1);
    assert NeverSwept(max, window, late)[key].resetAt == window;
    calls := Repeated(late, Call(key, window), max);
    RepeatedAdmits(max, window, late, Call(key, window), from, max);
    RepeatedInOrder(late, Call(key, window), max);
  }
}
