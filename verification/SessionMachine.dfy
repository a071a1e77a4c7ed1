/**
 Sessions under concurrent requests. A request finds its session, looks at the clock, writes what it
 slid, and may later rotate: each of these is one step, on what it read before, while other requests,
 logins, logouts, password resets and the clock go on. A login checks the password, looks at the clock and
 inserts its session in three steps as well. The clock does not go back.
 */
module SessionMachine {
  import opened Wrappers
  import opened Arithmetic
  import opened Sessions

  /** Where a request is, with the session as it read it and the instants it read. */
  datatype Request =
    | Found(id: Id, snap: Session)
    | Checked(id: Id, snap: Session, at: Time)
    | Current(id: Id, snap: Session)
    | Due(id: Id, snap: Session)
    | Stamped(id: Id, snap: Session, at: Time)

  /** A login whose password was right, at the user's password number `password`. */
  datatype Login =
    | Granted(user: UserId, role: Role, password: nat)
    | Dated(user: UserId, role: Role, password: nat, at: Time)

  /**
   `passwords` counts the resets each user has completed. `checked` only records the past: the number of
   the password each first session of a chain was given for.
   */
  datatype State = State(
    sessions: Table,
    requests: map<nat, Request>,
    logins: map<nat, Login>,
    passwords: map<UserId, nat>,
    checked: map<Id, nat>,
    nextId: nat,
    now: Time)

  datatype Act =
    | Grant(login: nat, user: UserId, role: Role)
    | Date(login: nat)
    | Insert(login: nat)
    | Abandon(login: nat)  // the login ends, or its process does
    | Reset(user: UserId)
    | Find(request: nat, id: Id)
    | Check(request: nat)
    | Touch(request: nat)
    | CheckDue(request: nat)
    | Stamp(request: nat)
    | Rotate(request: nat)
    | Leave(request: nat)  // the request ends, or its process does
    | Revoke(id: Id)
    | RevokeAll(user: UserId)
    | Tick(time: Time)

  predicate Enabled(s: State, a: Act) {
    match a
    case Grant(l, _, _) => l !in s.logins
    case Date(l) => l in s.logins && s.logins[l].Granted?
    case Insert(l) => l in s.logins && s.logins[l].Dated?
    case Find(r, id) => r !in s.requests && id in s.sessions
    case Check(r) => r in s.requests && s.requests[r].Found?
    case Touch(r) => r in s.requests && s.requests[r].Checked?
    case CheckDue(r) => r in s.requests && s.requests[r].Current?
    case Stamp(r) => r in s.requests && s.requests[r].Due?
    case Rotate(r) => r in s.requests && s.requests[r].Stamped?
    case Tick(time) => s.now <= time
    case _ => true
  }

  function Put(s: State, r: nat, request: Request): State {
    s.(requests := s.requests[r := request])
  }

  function Drop(s: State, r: nat): State {
    s.(requests := s.requests - {r})
  }

  function NumberOf<K(==)>(numbers: map<K, nat>, k: K): nat {
    if k in numbers then numbers[k] else 0
  }

  /** createSessionForUser's insertion, with the instant it read before. */
  function Inserted(s: State, l: nat): State
    requires Enabled(s, Insert(l))
  {
    var login := s.logins[l];
    s.(sessions := s.sessions[s.nextId := Fresh(s.nextId, login.user, login.role, login.at)],
       checked := s.checked[s.nextId := login.password],
       logins := s.logins - {l},
       nextId := s.nextId + 1)
  }

  function Next(s: State, a: Act): State
    requires Enabled(s, a)
  {
    match a
    case Grant(l, user, role) => s.(logins := s.logins[l := Granted(user, role, NumberOf(s.passwords, user))])
    case Date(l) =>
      var login := s.logins[l];
      s.(logins := s.logins[l := Dated(login.user, login.role, login.password, s.now)])
    case Insert(l) => Inserted(s, l)
    case Abandon(l) => s.(logins := s.logins - {l})
    case Reset(user) =>
      s.(sessions := AllRevoked(s.sessions, user, s.now),
         passwords := s.passwords[user := NumberOf(s.passwords, user) + 1])
    case Find(r, id) => Put(s, r, Found(id, s.sessions[id]))
    case Check(r) =>
      var q := s.requests[r];
      if Valid(q.snap, s.now) then Put(s, r, Checked(q.id, q.snap, s.now)) else Drop(s, r)
    case Touch(r) =>
      var q := s.requests[r];
      Put(s.(sessions := Touched(s.sessions, q.id, q.at, Slid(q.snap, q.at))), r, Current(q.id, q.snap))
    case CheckDue(r) =>
      var q := s.requests[r];
      if RotationDue(q.snap, s.now) then Put(s, r, Due(q.id, q.snap)) else Drop(s, r)
    case Stamp(r) => Put(s, r, Stamped(s.requests[r].id, s.requests[r].snap, s.now))
    case Rotate(r) =>
      var q := s.requests[r];
      var rotates := CanRotate(s.sessions, q.id, q.snap.user);
      Drop(s.(sessions := Rotated(s.sessions, q.id, q.snap.user, q.at, s.nextId, Successor(q.snap, q.at)),
              nextId := if rotates then s.nextId + 1 else s.nextId), r)
    case Leave(r) => Drop(s, r)
    case Revoke(id) => s.(sessions := Revoked(s.sessions, id, s.now))
    case RevokeAll(user) => s.(sessions := AllRevoked(s.sessions, user, s.now))
    case Tick(time) => s.(now := time)
  }

  predicate CanRun(s: State, run: seq<Act>)
    decreases |run|
  {
    run == [] || (Enabled(s, run[0]) && CanRun(Next(s, run[0]), run[1..]))
  }

  function Run(s: State, run: seq<Act>): State
    requires CanRun(s, run)
    decreases |run|
  {
    if run == [] then s else Run(Next(s, run[0]), run[1..])
  }

  function Initial(now: Time): State {
    State(map[], map[], map[], map[], map[], 0, now)
  }

  ghost predicate Reachable(s: State) {
    exists now, run :: CanRun(Initial(now), run) && s == Run(Initial(now), run)
  }

  // ----- What is true of every session -----

  /** n rotations take at least this long. */
  function RotationsMs(role: Role, n: nat): int {
    if role == USER then 3_600_000 * n else 900_000 * n
  }

  /** The sliding expiry as a function of the role: what the role-free one is meant to keep. */
  predicate SlidesByRole(s: Session) {
    s.idleExpiresAt == Min(s.lastSeenAt + IdleMs(s.role), s.absoluteExpiresAt)
  }

  predicate SessionOk(s: Session, now: Time) {
    && SlidesByRole(s)
    && s.lastSeenAt <= now && s.createdAt <= now
    && (s.rotatedAt.Some? ==> s.createdAt + RotationMs(s.role) <= s.rotatedAt.value <= now)
    && s.absoluteExpiresAt - AbsoluteMs(s.role) + RotationsMs(s.role, s.generation) <= s.createdAt
    && (s.generation > 0 ==> RotationsMs(s.role, s.generation - 1) < AbsoluteMs(s.role))
  }

  /** What a request read and the row now: the same session, further on. */
  predicate SameSession(snap: Session, s: Session) {
    && s.user == snap.user && s.role == snap.role && s.createdAt == snap.createdAt
    && s.absoluteExpiresAt == snap.absoluteExpiresAt && s.root == snap.root && s.generation == snap.generation
  }

  predicate RequestOk(q: Request, table: Table, now: Time) {
    && q.id in table && SameSession(q.snap, table[q.id])
    && SlidesByRole(q.snap) && q.snap.lastSeenAt <= now
    && (q.Checked? ==> q.snap.lastSeenAt <= q.at <= now)
    && (!q.Found? ==> q.snap.createdAt < q.snap.absoluteExpiresAt)
    && (q.Stamped? ==> q.snap.createdAt + RotationMs(q.snap.role) <= q.at <= now)
    && (q.Due? ==> q.snap.createdAt + RotationMs(q.snap.role) <= now)
  }

  predicate Follows(p: Session, s: Session) {
    && p.rotatedAt == Some(s.createdAt) && s.generation == p.generation + 1
    && s.root == p.root && s.user == p.user && s.role == p.role && s.absoluteExpiresAt == p.absoluteExpiresAt
  }

  predicate HasPredecessor(table: Table, s: Session) {
    s.generation > 0 ==> exists p :: p in table && Follows(table[p], s)
  }

  predicate Chained(table: Table) {
    forall id {:trigger HasPredecessor(table, table[id])} :: id in table ==> HasPredecessor(table, table[id])
  }

  predicate SamePlace(s: Session, t: Session) {
    s.root == t.root && s.generation == t.generation
  }

  /** A chain has one session of each generation. */
  predicate OneEach(table: Table) {
    forall x, y :: x in table && y in table && SamePlace(table[x], table[y]) ==> x == y
  }

  predicate IdsOk(s: State) {
    forall id :: id in s.sessions ==>
      id < s.nextId && s.sessions[id].root < s.nextId && (s.sessions[id].generation == 0 ==> s.sessions[id].root == id)
  }

  predicate TableOk(s: State) {
    && (forall id :: id in s.sessions ==> SessionOk(s.sessions[id], s.now))
    && Chained(s.sessions) && OneEach(s.sessions) && IdsOk(s)
  }

  predicate RequestsOk(s: State) {
    forall r :: r in s.requests ==> RequestOk(s.requests[r], s.sessions, s.now)
  }

  predicate LoginOk(login: Login, passwords: map<UserId, nat>, now: Time) {
    && (login.Dated? ==> login.at <= now)
    && login.password <= NumberOf(passwords, login.user)
  }

  predicate LoginsOk(s: State) {
    forall l :: l in s.logins ==> LoginOk(s.logins[l], s.passwords, s.now)
  }

  predicate Inv(s: State) {
    TableOk(s) && RequestsOk(s) && LoginsOk(s)
  }

  // ----- Steps that change sessions one by one -----

  /** The rows are the same sessions as before, further on: nothing is added. */
  predicate Onward(table: Table, next: Table) {
    && table.Keys == next.Keys
    && forall id :: id in table ==> SameSession(table[id], next[id]) && next[id].rotatedAt == table[id].rotatedAt
  }

  lemma OnwardKeeps(s: State, next: State)
    requires Inv(s) && Onward(s.sessions, next.sessions) && next.nextId == s.nextId && s.now <= next.now
    requires forall id :: id in next.sessions ==> SessionOk(next.sessions[id], next.now)
    ensures TableOk(next)
    ensures forall r :: r in s.requests ==> RequestOk(s.requests[r], next.sessions, next.now)
  {
    forall id | id in next.sessions
      ensures HasPredecessor(next.sessions, next.sessions[id])
    {
      if next.sessions[id].generation > 0 {
        assert HasPredecessor(s.sessions, s.sessions[id]);
        var p :| p in s.sessions && Follows(s.sessions[p], s.sessions[id]);
        assert Follows(next.sessions[p], next.sessions[id]);
      }
    }
  }

  /** The role-free slide is the role-aware one, even from a stale read. */
  lemma SlideRefinesRole(snap: Session, at: Time)
    requires SlidesByRole(snap) && snap.lastSeenAt <= at
    ensures Slid(snap, at) == Min(at + IdleMs(snap.role), snap.absoluteExpiresAt)
  {
  }

  lemma TouchedOk(table: Table, id: Id, at: Time, idleExpiresAt: Time, now: Time)
    requires id in table && at <= now && forall x :: x in table ==> SessionOk(table[x], now)
    requires idleExpiresAt == Min(at + IdleMs(table[id].role), table[id].absoluteExpiresAt)
    ensures Onward(table, Touched(table, id, at, idleExpiresAt))
    ensures forall x :: x in table ==> SessionOk(Touched(table, id, at, idleExpiresAt)[x], now)
  {
  }

  lemma TouchKeeps(s: State, r: nat)
    requires Inv(s) && Enabled(s, Touch(r))
    ensures Inv(Next(s, Touch(r)))
  {
    var q, next := s.requests[r], Next(s, Touch(r));
    assert RequestOk(q, s.sessions, s.now);
    SlideRefinesRole(q.snap, q.at);
    assert SessionOk(s.sessions[q.id], s.now);
    TouchedOk(s.sessions, q.id, q.at, Slid(q.snap, q.at), s.now);
    OnwardKeeps(s, next);
    assert LoginsOk(next);
  }

  lemma RevocationRow(s: Session, at: Time, now: Time)
    requires SessionOk(s, now)
    ensures SessionOk(s.(revokedAt := Some(at)), now)
  {
  }

  lemma RevocationIsOnward(s: State, a: Act)
    requires a.Revoke? || a.RevokeAll? || a.Reset?
    ensures Onward(s.sessions, Next(s, a).sessions)
    ensures forall id :: id in s.sessions ==>
              || Next(s, a).sessions[id] == s.sessions[id]
              || Next(s, a).sessions[id] == s.sessions[id].(revokedAt := Some(s.now))
  {
  }

  lemma RevocationKeeps(s: State, a: Act)
    requires Inv(s) && (a.Revoke? || a.RevokeAll? || a.Reset?)
    ensures Inv(Next(s, a))
  {
    var next := Next(s, a);
    RevocationIsOnward(s, a);
    forall id | id in next.sessions
      ensures SessionOk(next.sessions[id], next.now)
    {
      RevocationRow(s.sessions[id], s.now, s.now);
    }
    OnwardKeeps(s, next);
  }

  lemma ReadingChangesNothing(s: State, a: Act)
    requires Enabled(s, a) && (a.Find? || a.Check? || a.CheckDue? || a.Stamp? || a.Leave?)
    ensures Next(s, a) == s.(requests := Next(s, a).requests)
  {
  }

  lemma RequestsAside(s: State, requests: map<nat, Request>)
    requires TableOk(s) && LoginsOk(s)
    ensures TableOk(s.(requests := requests)) && LoginsOk(s.(requests := requests))
  {
  }

  /** Steps that change no session and not the clock. */
  lemma ReadingKeeps(s: State, a: Act)
    requires Inv(s) && Enabled(s, a) && (a.Find? || a.Check? || a.CheckDue? || a.Stamp? || a.Leave?)
    ensures Inv(Next(s, a))
  {
    ReadingKeepsRequests(s, a);
    ReadingChangesNothing(s, a);
    RequestsAside(s, Next(s, a).requests);
  }

  lemma ReadingKeepsRequests(s: State, a: Act)
    requires RequestsOk(s) && Enabled(s, a) && (a.Find? || a.Check? || a.CheckDue? || a.Stamp? || a.Leave?)
    requires forall id :: id in s.sessions ==> SessionOk(s.sessions[id], s.now)
    ensures RequestsOk(Next(s, a))
  {
  }

  lemma TickKeeps(s: State, time: Time)
    requires Inv(s) && s.now <= time
    ensures Inv(Next(s, Tick(time)))
  {
    OnwardKeeps(s, Next(s, Tick(time)));
  }

  // ----- Steps that add a session -----

  /** Steps of a login before its session exists. */
  lemma LoginStepKeeps(s: State, a: Act)
    requires Inv(s) && Enabled(s, a) && (a.Grant? || a.Date? || a.Abandon?)
    ensures Inv(Next(s, a))
  {
  }

  lemma FreshOk(id: Id, user: UserId, role: Role, at: Time, now: Time)
    requires at <= now
    ensures SessionOk(Fresh(id, user, role, at), now)
  {
  }

  /** A first session of a new chain. */
  lemma NewRootKeeps(s: State, next: State, first: Session)
    requires TableOk(s) && next.sessions == s.sessions[s.nextId := first] && next.nextId == s.nextId + 1
    requires next.now == s.now && SessionOk(first, s.now) && first.root == s.nextId && first.generation == 0
    ensures TableOk(next)
  {
    forall id | id in next.sessions
      ensures SessionOk(next.sessions[id], next.now) && HasPredecessor(next.sessions, next.sessions[id])
    {
      if id in s.sessions && s.sessions[id].generation > 0 {
        assert HasPredecessor(s.sessions, s.sessions[id]);
        var p :| p in s.sessions && Follows(s.sessions[p], s.sessions[id]);
        assert Follows(next.sessions[p], next.sessions[id]);
      }
    }
  }

  lemma InsertKeeps(s: State, l: nat)
    requires Inv(s) && Enabled(s, Insert(l))
    ensures Inv(Next(s, Insert(l)))
  {
    var login := s.logins[l];
    assert LoginOk(login, s.passwords, s.now);
    FreshOk(s.nextId, login.user, login.role, login.at, s.now);
    NewRootKeeps(s, Next(s, Insert(l)), Fresh(s.nextId, login.user, login.role, login.at));
  }

  /** Before it is rotated, a session has no successor. */
  lemma NoSuccessorYet(s: State, id: Id, other: Id)
    requires TableOk(s) && id in s.sessions && s.sessions[id].rotatedAt.None? && other in s.sessions
    ensures !(s.sessions[other].root == s.sessions[id].root
              && s.sessions[other].generation == s.sessions[id].generation + 1)
  {
    if s.sessions[other].generation > 0 {
      assert HasPredecessor(s.sessions, s.sessions[other]);
      var p :| p in s.sessions && Follows(s.sessions[p], s.sessions[other]);
      assert p != id;
    }
  }

  predicate Rotates(s: State, q: Request, next: State) {
    && q.Stamped? && RequestOk(q, s.sessions, s.now) && CanRotate(s.sessions, q.id, q.snap.user)
    && next.sessions == Rotated(s.sessions, q.id, q.snap.user, q.at, s.nextId, Successor(q.snap, q.at))
    && next.nextId == s.nextId + 1 && next.now == s.now
  }

  lemma RotationKeys(s: State, q: Request, next: State)
    requires IdsOk(s) && Rotates(s, q, next)
    ensures s.nextId !in s.sessions && next.sessions.Keys == s.sessions.Keys + {s.nextId}
    ensures next.sessions[s.nextId] == Successor(q.snap, q.at)
  {
  }

  /** A row a rotation finds: marked if it is the rotated one, and perhaps revoked. */
  lemma RotationRow(s: State, q: Request, next: State, id: Id)
    requires IdsOk(s) && Rotates(s, q, next) && id in s.sessions && SessionOk(s.sessions[id], s.now)
    ensures id in next.sessions && SameSession(s.sessions[id], next.sessions[id])
    ensures next.sessions[id].rotatedAt == if id == q.id then Some(q.at) else s.sessions[id].rotatedAt
    ensures SessionOk(next.sessions[id], s.now)
  {
    assert next.sessions[id]
        == CleanedUp(if id == q.id then s.sessions[id].(rotatedAt := Some(q.at)) else s.sessions[id],
                     q.snap.user, q.at);
  }

  lemma SuccessorOk(snap: Session, at: Time, now: Time)
    requires snap.absoluteExpiresAt - AbsoluteMs(snap.role) + RotationsMs(snap.role, snap.generation) <= snap.createdAt
    requires snap.createdAt < snap.absoluteExpiresAt && snap.createdAt + RotationMs(snap.role) <= at <= now
    ensures SessionOk(Successor(snap, at), now)
  {
  }

  lemma RotationKeepsChained(s: State, q: Request, next: State, id: Id)
    requires TableOk(s) && Rotates(s, q, next) && id in next.sessions
    ensures HasPredecessor(next.sessions, next.sessions[id])
  {
    RotationKeys(s, q, next);
    RotationRow(s, q, next, q.id);
    if id == s.nextId {
      assert Follows(next.sessions[q.id], next.sessions[id]);
    } else {
      RotationRow(s, q, next, id);
      if s.sessions[id].generation > 0 {
        assert HasPredecessor(s.sessions, s.sessions[id]);
        var p :| p in s.sessions && Follows(s.sessions[p], s.sessions[id]);
        RotationRow(s, q, next, p);
        assert Follows(next.sessions[p], next.sessions[id]);
      }
    }
  }

  lemma RotationKeepsOneEach(s: State, q: Request, next: State)
    requires TableOk(s) && Rotates(s, q, next)
    ensures OneEach(next.sessions)
  {
    RotationKeys(s, q, next);
    forall x | x in s.sessions
      ensures SamePlace(next.sessions[x], s.sessions[x]) && !SamePlace(next.sessions[x], next.sessions[s.nextId])
    {
      RotationRow(s, q, next, x);
      NoSuccessorYet(s, q.id, x);
    }
  }

  lemma RotationKeepsIds(s: State, q: Request, next: State)
    requires TableOk(s) && Rotates(s, q, next)
    ensures IdsOk(next)
    ensures forall id :: id in next.sessions ==> SessionOk(next.sessions[id], next.now)
  {
    RotationKeys(s, q, next);
    assert SessionOk(s.sessions[q.id], s.now);
    SuccessorOk(q.snap, q.at, s.now);
    forall id | id in s.sessions
      ensures SameSession(s.sessions[id], next.sessions[id]) && SessionOk(next.sessions[id], next.now)
    {
      RotationRow(s, q, next, id);
    }
  }

  lemma RotationKeepsRequests(s: State, q: Request, next: State)
    requires Inv(s) && Rotates(s, q, next)
    ensures forall r :: r in s.requests ==> RequestOk(s.requests[r], next.sessions, next.now)
  {
    forall r | r in s.requests
      ensures RequestOk(s.requests[r], next.sessions, next.now)
    {
      RotationRow(s, q, next, s.requests[r].id);
    }
  }

  lemma RotateKeeps(s: State, r: nat)
    requires Inv(s) && Enabled(s, Rotate(r))
    ensures Inv(Next(s, Rotate(r)))
  {
    var q, next := s.requests[r], Next(s, Rotate(r));
    if CanRotate(s.sessions, q.id, q.snap.user) {
      forall id | id in next.sessions
        ensures HasPredecessor(next.sessions, next.sessions[id])
      {
        RotationKeepsChained(s, q, next, id);
      }
      RotationKeepsOneEach(s, q, next);
      RotationKeepsIds(s, q, next);
      RotationKeepsRequests(s, q, next);
    }
  }

  lemma StepKeeps(s: State, a: Act)
    requires Inv(s) && Enabled(s, a)
    ensures Inv(Next(s, a))
  {
    match a
    case Insert(l) => InsertKeeps(s, l);
    case Touch(r) => TouchKeeps(s, r);
    case Rotate(r) => RotateKeeps(s, r);
    case Revoke(_) => RevocationKeeps(s, a);
    case RevokeAll(_) => RevocationKeeps(s, a);
    case Reset(_) => RevocationKeeps(s, a);
    case Tick(time) => TickKeeps(s, time);
    case _ =>
      if a.Grant? || a.Date? || a.Abandon? {
        LoginStepKeeps(s, a);
      } else {
        ReadingKeeps(s, a);
      }
  }

  lemma {:induction false} RunKeeps(s: State, run: seq<Act>)
    requires Inv(s) && CanRun(s, run)
    ensures Inv(Run(s, run))
    decreases |run|
  {
    if run != [] {
      StepKeeps(s, run[0]);
      RunKeeps(Next(s, run[0]), run[1..]);
    }
  }

  lemma ReachableOk(s: State)
    requires Reachable(s)
    ensures Inv(s)
  {
    var now, run :| CanRun(Initial(now), run) && s == Run(Initial(now), run);
    RunKeeps(Initial(now), run);
  }
}
