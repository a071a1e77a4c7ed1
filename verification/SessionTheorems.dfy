/** What the rotation and the sliding expiry of sessions guarantee in every reachable state. */
module SessionTheorems {
  import opened Wrappers
  import opened Arithmetic
  import opened Sessions
  import opened SessionMachine

  /** The role-free sliding expiry is the role-aware one, after any touches and rotations, stale ones too. */
  lemma SlidingRefinesRole(s: State, id: Id)
    requires Reachable(s) && id in s.sessions
    ensures var x := s.sessions[id]; x.idleExpiresAt == Min(x.lastSeenAt + IdleMs(x.role), x.absoluteExpiresAt)
  {
    ReachableOk(s);
  }

  // ----- Chains -----

  /** Down to the first session of the chain: rotation extends no session's lifetime. */
  lemma {:induction false} RootOf(s: State, id: Id)
    requires TableOk(s) && id in s.sessions
    ensures var x := s.sessions[id];
            && x.root in s.sessions && s.sessions[x.root].generation == 0
            && s.sessions[x.root].absoluteExpiresAt == x.absoluteExpiresAt
            && s.sessions[x.root].user == x.user && s.sessions[x.root].role == x.role
    decreases s.sessions[id].generation
  {
    if s.sessions[id].generation > 0 {
      assert HasPredecessor(s.sessions, s.sessions[id]);
      var p :| p in s.sessions && Follows(s.sessions[p], s.sessions[id]);
      RootOf(s, p);
    }
  }

  /** All the sessions of a chain are one user's, and expire together at the latest. */
  lemma ChainExpiresTogether(s: State, x: Id, y: Id)
    requires Reachable(s) && x in s.sessions && y in s.sessions && s.sessions[x].root == s.sessions[y].root
    ensures s.sessions[x].absoluteExpiresAt == s.sessions[y].absoluteExpiresAt
    ensures s.sessions[x].user == s.sessions[y].user
  {
    ReachableOk(s);
    RootOf(s, x);
    RootOf(s, y);
  }

  /** A session has at most one successor. */
  lemma AtMostOneSuccessor(s: State, id: Id, x: Id, y: Id)
    requires Reachable(s) && id in s.sessions && x in s.sessions && y in s.sessions
    requires Follows(s.sessions[id], s.sessions[x]) && Follows(s.sessions[id], s.sessions[y])
    ensures x == y
  {
    ReachableOk(s);
    assert SamePlace(s.sessions[x], s.sessions[y]);
  }

  /** Two rotations further on, a session is past its grace period. */
  lemma {:induction false} Superseded(s: State, x: Id, y: Id)
    requires TableOk(s) && x in s.sessions && y in s.sessions && s.sessions[x].root == s.sessions[y].root
    requires s.sessions[x].generation + 2 <= s.sessions[y].generation
    ensures !Valid(s.sessions[x], s.now)
    decreases s.sessions[y].generation
  {
    assert HasPredecessor(s.sessions, s.sessions[y]);
    var p :| p in s.sessions && Follows(s.sessions[p], s.sessions[y]);
    if s.sessions[p].generation == s.sessions[x].generation + 1 {
      assert HasPredecessor(s.sessions, s.sessions[p]);
      var q :| q in s.sessions && Follows(s.sessions[q], s.sessions[p]);
      assert SamePlace(s.sessions[q], s.sessions[x]);
      assert SessionOk(s.sessions[p], s.now) && SessionOk(s.sessions[y], s.now);
    } else {
      Superseded(s, x, p);
    }
  }

  /** At most two sessions of a chain are valid at any instant. */
  lemma AtMostTwoValid(s: State, x: Id, y: Id, z: Id)
    requires Reachable(s) && x in s.sessions && y in s.sessions && z in s.sessions
    requires x != y && y != z && x != z
    requires s.sessions[x].root == s.sessions[y].root == s.sessions[z].root
    ensures !(Valid(s.sessions[x], s.now) && Valid(s.sessions[y], s.now) && Valid(s.sessions[z], s.now))
  {
    ReachableOk(s);
    assert !SamePlace(s.sessions[x], s.sessions[y]) && !SamePlace(s.sessions[y], s.sessions[z]);
    assert !SamePlace(s.sessions[x], s.sessions[z]);
    Ordered(s, x, y);
    Ordered(s, y, z);
    Ordered(s, x, z);
  }

  lemma Ordered(s: State, x: Id, y: Id)
    requires TableOk(s) && x in s.sessions && y in s.sessions && s.sessions[x].root == s.sessions[y].root
    ensures s.sessions[x].generation + 2 <= s.sessions[y].generation ==> !Valid(s.sessions[x], s.now)
    ensures s.sessions[y].generation + 2 <= s.sessions[x].generation ==> !Valid(s.sessions[y], s.now)
  {
    if s.sessions[x].generation + 2 <= s.sessions[y].generation {
      Superseded(s, x, y);
    }
    if s.sessions[y].generation + 2 <= s.sessions[x].generation {
      Superseded(s, y, x);
    }
  }

  /** The rotated session stays as it was for the grace period; the cleanup takes validity from nobody else. */
  lemma CleanupIsInvisible(s: State, r: nat, id: Id, t: Time)
    requires Reachable(s) && Enabled(s, Rotate(r)) && id in s.sessions && s.now <= t
    ensures var q, next := s.requests[r], Next(s, Rotate(r));
            && id in next.sessions
            && (Valid(next.sessions[id], t) <==>
                  Valid(s.sessions[id], t)
                  && (id == q.id && CanRotate(s.sessions, q.id, q.snap.user) ==> t < q.at + GRACE))
  {
    ReachableOk(s);
    assert RequestOk(s.requests[r], s.sessions, s.now) && SessionOk(s.sessions[id], s.now);
  }

  // ----- How many rotations -----

  /**
   A chain has at most as many rotations as its rotation interval goes into its lifetime, and one less
   while each is stamped before the lifetime is over.
   */
  lemma RotationsBounded(s: State, id: Id)
    requires Reachable(s) && id in s.sessions
    ensures var x := s.sessions[id];
            && RotationsMs(x.role, x.generation) <= AbsoluteMs(x.role)
            && (x.createdAt < x.absoluteExpiresAt ==> RotationsMs(x.role, x.generation) < AbsoluteMs(x.role))
  {
    ReachableOk(s);
    assert SessionOk(s.sessions[id], s.now);
  }

  /** For a USER: 720, and 719 that give a session anybody can use. The 720th session is never valid. */
  lemma UserRotations(s: State, id: Id, t: Time)
    requires Reachable(s) && id in s.sessions && s.sessions[id].role == USER
    ensures s.sessions[id].generation <= 720
    ensures s.sessions[id].generation == 720 ==> s.sessions[id].createdAt >= s.sessions[id].absoluteExpiresAt
    ensures s.sessions[id].generation == 720 && t >= s.sessions[id].createdAt ==> !Valid(s.sessions[id], t)
  {
    RotationsBounded(s, id);
  }

  /** A rotation gives a session that can be used exactly when it is stamped before the chain expires. */
  lemma RotationIsUsableExactly(s: State, r: nat)
    requires Reachable(s) && Enabled(s, Rotate(r)) && CanRotate(s.sessions, s.requests[r].id, s.requests[r].snap.user)
    ensures var q, next := s.requests[r], Next(s, Rotate(r));
            && s.nextId in next.sessions && s.nextId !in s.sessions
            && next.sessions[s.nextId].absoluteExpiresAt == s.sessions[q.id].absoluteExpiresAt
            && (Valid(next.sessions[s.nextId], q.at) <==> q.at < s.sessions[q.id].absoluteExpiresAt)
  {
    ReachableOk(s);
    assert RequestOk(s.requests[r], s.sessions, s.now);
  }

  // ----- The 720th happens -----

  lemma {:induction false} RunAppend(s: State, run: seq<Act>, a: Act)
    requires CanRun(s, run) && Enabled(Run(s, run), a)
    ensures CanRun(s, run + [a]) && Run(s, run + [a]) == Next(Run(s, run), a)
    decreases |run|
  {
    if run == [] {
      assert [] + [a] == [a];
    } else {
      assert (run + [a])[1..] == run[1..] + [a];
      RunAppend(Next(s, run[0]), run[1..], a);
    }
  }

  lemma Then(s: State, a: Act)
    requires Reachable(s) && Enabled(s, a)
    ensures Reachable(Next(s, a))
  {
    var now, run :| CanRun(Initial(now), run) && s == Run(Initial(now), run);
    RunAppend(Initial(now), run, a);
  }

  /** A login with nothing else in between. */
  lemma LoggedIn(s: State, user: UserId, role: Role) returns (next: State, id: Id)
    requires Reachable(s) && s.logins == map[]
    ensures Reachable(next) && id == s.nextId && next.nextId == s.nextId + 1 && next.now == s.now
    ensures next.requests == s.requests && next.sessions == s.sessions[id := Fresh(id, user, role, s.now)]
  {
    Then(s, Grant(0, user, role));
    var s1 := Next(s, Grant(0, user, role));
    Then(s1, Date(0));
    var s2 := Next(s1, Date(0));
    Then(s2, Insert(0));
    next, id := Next(s2, Insert(0)), s.nextId;
  }

  /** The n-th session of a USER who rotates every hour, on the hour. */
  predicate Hourly(s: State, id: Id, n: nat) {
    && s.requests == map[] && s.now == 3_600_000 * n && id in s.sessions && id < s.nextId
    && s.sessions[id] == Session(0, USER, s.now, s.now, Min(s.now + 7 * DAY, 30 * DAY), 30 * DAY, None, None,
                                 s.sessions[id].root, n)
  }

  /** A request finds its session at this instant. */
  lemma Arrived(s: State, id: Id, at: Time) returns (next: State)
    requires Reachable(s) && s.requests == map[] && id in s.sessions && s.now <= at
    ensures Reachable(next) && next == s.(now := at, requests := map[0 := Found(id, s.sessions[id])])
  {
    Then(s, Tick(at));
    var s1 := Next(s, Tick(at));
    Then(s1, Find(0, id));
    next := Next(s1, Find(0, id));
  }

  /** And passes the checks, its idle expiry slid. */
  lemma Admitted(s: State, id: Id, snap: Session) returns (next: State)
    requires Reachable(s) && s.requests == map[0 := Found(id, snap)] && Valid(snap, s.now)
    ensures Reachable(next)
    ensures next == s.(requests := map[0 := Current(id, snap)],
                       sessions := Touched(s.sessions, id, s.now, Slid(snap, s.now)))
  {
    Then(s, Check(0));
    var s1 := Next(s, Check(0));
    Then(s1, Touch(0));
    next := Next(s1, Touch(0));
  }

  /** A request that has passed the checks at this instant, the session's idle expiry slid. */
  lemma Authenticated(s: State, id: Id, n: nat, at: Time) returns (next: State)
    requires Reachable(s) && Hourly(s, id, n) && s.now <= at < 30 * DAY && at < s.now + 7 * DAY
    ensures Reachable(next) && next.now == at && next.nextId == s.nextId && id in next.sessions
    ensures next.requests == map[0 := Current(id, s.sessions[id])]
    ensures next.sessions == Touched(s.sessions, id, at, Slid(s.sessions[id], at))
  {
    var s1 := Arrived(s, id, at);
    next := Admitted(s1, id, s.sessions[id]);
  }

  /** The same request, rotating at this later instant. */
  lemma RotatedAt(s: State, id: Id, snap: Session, at: Time) returns (next: State)
    requires Reachable(s) && s.requests == map[0 := Current(id, snap)] && s.now <= at
    requires CanRotate(s.sessions, id, snap.user) && RotationDue(snap, at)
    ensures Reachable(next) && next.now == at && next.requests == map[] && next.nextId == s.nextId + 1
    ensures s.nextId in next.sessions && next.sessions[s.nextId] == Successor(snap, at)
  {
    Then(s, Tick(at));
    var s1 := Next(s, Tick(at));
    Then(s1, CheckDue(0));
    var s2 := Next(s1, CheckDue(0));
    Then(s2, Stamp(0));
    var s3 := Next(s2, Stamp(0));
    Then(s3, Rotate(0));
    next := Next(s3, Rotate(0));
  }

  lemma {:induction false} HourlyChain(n: nat) returns (s: State, id: Id)
    requires n <= 719
    ensures Reachable(s) && Hourly(s, id, n)
    decreases n
  {
    if n == 0 {
      var s0 := Initial(0);
      assert CanRun(s0, []) && s0 == Run(s0, []);
      s, id := LoggedIn(s0, 0, USER);
    } else {
      var before, last := HourlyChain(n - 1);
      var s1 := Authenticated(before, last, n - 1, 3_600_000 * n);
      s := RotatedAt(s1, last, before.sessions[last], 3_600_000 * n);
      id := s1.nextId;
    }
  }

  /**
   719 rotations an hour apart, and a request that is authenticated in the last millisecond of the
   chain's lifetime but rotates after it: a 720th session, dead from the start.
   */
  lemma OneRotationTooMany() returns (s: State, id: Id)
    ensures Reachable(s) && id in s.sessions && s.sessions[id].role == USER && s.sessions[id].generation == 720
  {
    var before, last := HourlyChain(719);
    var s1 := Authenticated(before, last, 719, 30 * DAY - 1);
    s := RotatedAt(s1, last, before.sessions[last], 30 * DAY);
    id := s1.nextId;
  }
}
