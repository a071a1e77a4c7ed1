/**
 Sessions: their durations, validity, sliding expiry and rotation (auth.session.ts), and the
 repository's operations on the table (auth.repository.ts, auth.repository.fake.ts). Times are in
 milliseconds.
 */
module Sessions {
  import opened Wrappers
  import opened Arithmetic

  type Time = int
  type UserId = nat
  type Id = nat

  datatype Role = USER | PROFESSIONAL | ADMIN | SUPER_ADMIN

  const HOUR := 3_600_000
  const DAY := 86_400_000
  const GRACE := 60_000

  function IdleMs(role: Role): int {
    match role case USER => 7 * DAY case PROFESSIONAL => DAY case ADMIN => DAY case SUPER_ADMIN => 12 * HOUR
  }

  function AbsoluteMs(role: Role): int {
    match role case USER => 30 * DAY case PROFESSIONAL => 7 * DAY case ADMIN => 7 * DAY case SUPER_ADMIN => 3 * DAY
  }

  function RotationMs(role: Role): int {
    if role == USER then HOUR else 900_000
  }

  /**
   A row of `sessions`. `root` and `generation` are no columns: they only record which session, and
   after how many rotations, it comes from.
   */
  datatype Session = Session(
    user: UserId,
    role: Role,
    createdAt: Time,
    lastSeenAt: Time,
    idleExpiresAt: Time,
    absoluteExpiresAt: Time,
    revokedAt: Option<Time>,
    rotatedAt: Option<Time>,
    root: Id,
    generation: nat)

  type Table = map<Id, Session>

  /** createSessionForUser. */
  function Fresh(id: Id, user: UserId, role: Role, now: Time): Session {
    Session(user, role, now, now, now + IdleMs(role), now + AbsoluteMs(role), None, None, id, 0)
  }

  /** The checks of loadValidSession. */
  predicate Valid(s: Session, now: Time) {
    && s.revokedAt.None?
    && (s.rotatedAt.Some? ==> now < s.rotatedAt.value + GRACE)
    && now < s.idleExpiresAt
    && now < s.absoluteExpiresAt
  }

  /** The slid idle expiry: the idle window the session already had, without knowing the role. */
  function Slid(s: Session, now: Time): Time {
    Min(now + (s.idleExpiresAt - s.lastSeenAt), s.absoluteExpiresAt)
  }

  predicate RotationDue(s: Session, now: Time) {
    s.rotatedAt.None? && now - s.createdAt >= RotationMs(s.role)
  }

  /** rotateSessionForUser: a new identifier, the same absolute expiry. */
  function Successor(s: Session, now: Time): Session {
    Session(s.user, s.role, now, now, Min(now + IdleMs(s.role), s.absoluteExpiresAt), s.absoluteExpiresAt,
            None, None, s.root, s.generation + 1)
  }

  // ----- The repository's operations, on the table -----

  function Touched(table: Table, id: Id, lastSeenAt: Time, idleExpiresAt: Time): Table {
    if id !in table then table
    else table[id := table[id].(lastSeenAt := lastSeenAt, idleExpiresAt := idleExpiresAt)]
  }

  function Revoked(table: Table, id: Id, at: Time): Table {
    if id in table && table[id].revokedAt.None? then table[id := table[id].(revokedAt := Some(at))] else table
  }

  function RevokedIf(s: Session, user: UserId, at: Time): Session {
    if s.user == user && s.revokedAt.None? then s.(revokedAt := Some(at)) else s
  }

  function AllRevoked(table: Table, user: UserId, at: Time): Table {
    map id | id in table :: RevokedIf(table[id], user, at)
  }

  /** What a rotation revokes on its way: the user's sessions past their grace period. */
  function CleanedUp(s: Session, user: UserId, at: Time): Session {
    if s.user == user && s.revokedAt.None? && s.rotatedAt.Some? && s.rotatedAt.value <= at - GRACE
    then s.(revokedAt := Some(at)) else s
  }

  predicate CanRotate(table: Table, id: Id, user: UserId) {
    id in table && table[id].user == user && table[id].revokedAt.None? && table[id].rotatedAt.None?
  }

  /** Marks the session rotated, cleans up, and adds its successor; or nothing at all. */
  function Rotated(table: Table, id: Id, user: UserId, at: Time, newId: Id, created: Session): Table {
    if !CanRotate(table, id, user) then table
    else
      var marked := table[id := table[id].(rotatedAt := Some(at))];
      (map x | x in marked :: CleanedUp(marked[x], user, at))[newId := created]
  }

  // ----- The same over a mutable map -----

  class SessionStore {
    var sessions: Table
    var nextId: Id

    constructor ()
      ensures sessions == map[] && nextId == 0
    {
      sessions, nextId := map[], 0;
    }

    method CreateSession(created: Session) returns (id: Id)
      modifies this
      ensures id == old(nextId) && nextId == old(nextId) + 1
      ensures sessions == old(sessions)[id := created]
    {
      id := nextId;
      sessions := sessions[id := created];
      nextId := nextId + 1;
    }

    method TouchSession(id: Id, lastSeenAt: Time, idleExpiresAt: Time)
      modifies `sessions
      ensures sessions == Touched(old(sessions), id, lastSeenAt, idleExpiresAt)
    {
      if id in sessions {
        sessions := sessions[id := sessions[id].(lastSeenAt := lastSeenAt, idleExpiresAt := idleExpiresAt)];
      }
    }

    method RevokeSession(id: Id, at: Time) returns (revoked: bool)
      modifies `sessions
      ensures sessions == Revoked(old(sessions), id, at)
      ensures revoked == (id in old(sessions) && old(sessions)[id].revokedAt.None?)
    {
      if id !in sessions || sessions[id].revokedAt.Some? {
        return false;
      }
      sessions := sessions[id := sessions[id].(revokedAt := Some(at))];
      return true;
    }

    /** Only a session of the user's own that is not revoked nor expired. */
    method RevokeOwnSession(id: Id, user: UserId, now: Time) returns (revoked: bool)
      modifies `sessions
      ensures revoked == (&& id in old(sessions) && var s := old(sessions)[id];
                          && s.user == user && s.revokedAt.None? && now < s.idleExpiresAt && now < s.absoluteExpiresAt)
      ensures sessions == if revoked then Revoked(old(sessions), id, now) else old(sessions)
    {
      if id !in sessions {
        return false;
      }
      var s := sessions[id];
      if s.user != user || s.revokedAt.Some? || now >= s.idleExpiresAt || now >= s.absoluteExpiresAt {
        return false;
      }
      revoked := RevokeSession(id, now);
    }

    method RotateSession(previous: Id, user: UserId, now: Time, created: Session) returns (id: Option<Id>)
      modifies this
      ensures id == if CanRotate(old(sessions), previous, user) then Some(old(nextId)) else None
      ensures sessions == Rotated(old(sessions), previous, user, now, old(nextId), created)
    {
      if previous !in sessions {
        return None;
      }
      var s := sessions[previous];
      if s.user != user || s.revokedAt.Some? || s.rotatedAt.Some? {
        return None;
      }
      sessions := sessions[previous := s.(rotatedAt := Some(now))];
      CleanUp(user, now);
      var newId := CreateSession(created);
      return Some(newId);
    }

    /** createSessionForUser, at login. */
    method CreateSessionForUser(user: UserId, role: Role, now: Time) returns (id: Id)
      modifies this
      ensures id == old(nextId) && nextId == old(nextId) + 1
      ensures sessions == old(sessions)[id := Fresh(id, user, role, now)]
      ensures Valid(sessions[id], now)
    {
      id := CreateSession(Session(user, role, now, now, now + IdleMs(role), now + AbsoluteMs(role),
                                  None, None, nextId, 0));
    }

    /** The service's rotateSession: a new session if the loaded one is due and nobody rotated it meanwhile. */
    method RotateSessionForUser(id: Id, loaded: Session, checkedAt: Time, now: Time) returns (created: Option<Id>)
      modifies this
      ensures created.Some? <==> RotationDue(loaded, checkedAt) && CanRotate(old(sessions), id, loaded.user)
      ensures sessions == if created.None? then old(sessions)
                          else Rotated(old(sessions), id, loaded.user, now, created.value, Successor(loaded, now))
    {
      if loaded.rotatedAt.Some? || checkedAt - loaded.createdAt < RotationMs(loaded.role) {
        return None;
      }
      var idleExpiresAt := Min(now + IdleMs(loaded.role), loaded.absoluteExpiresAt);
      created := RotateSession(id, loaded.user, now,
                               Session(loaded.user, loaded.role, now, now, idleExpiresAt, loaded.absoluteExpiresAt,
                                       None, None, loaded.root, loaded.generation + 1));
    }

    method CleanUp(user: UserId, now: Time)
      modifies `sessions
      ensures sessions == map x | x in old(sessions) :: CleanedUp(old(sessions)[x], user, now)
    {
      var ids := sessions.Keys;
      while ids != {}
        invariant ids <= old(sessions).Keys
        invariant sessions
               == map x | x in old(sessions) ::
                    if x in ids then old(sessions)[x] else CleanedUp(old(sessions)[x], user, now)
        decreases |ids|
      {
        var id :| id in ids;
        var s := sessions[id];
        if s.user == user && s.revokedAt.None? && s.rotatedAt.Some? && s.rotatedAt.value <= now - GRACE {
          sessions := sessions[id := s.(revokedAt := Some(now))];
        }
        ids := ids - {id};
      }
    }

    method RevokeAllOwnSessions(user: UserId, at: Time) returns (count: nat)
      modifies `sessions
      ensures sessions == AllRevoked(old(sessions), user, at)
      ensures count == |set id | id in old(sessions)
                              && old(sessions)[id].user == user && old(sessions)[id].revokedAt.None?|
    {
      var targets := set id | id in sessions && sessions[id].user == user && sessions[id].revokedAt.None?;
      count := |targets|;
      var left := targets;
      while left != {}
        invariant left <= targets
        invariant sessions
               == map id | id in old(sessions) ::
                    if id in left then old(sessions)[id] else RevokedIf(old(sessions)[id], user, at)
        decreases |left|
      {
        var id :| id in left;
        sessions := sessions[id := sessions[id].(revokedAt := Some(at))];
        left := left - {id};
      }
    }

    /** loadValidSession with the session already found: refused, or slid forward. */
    method LoadValidSession(id: Id, now: Time) returns (session: Option<Session>)
      modifies `sessions
      ensures session == if id in old(sessions) && Valid(old(sessions)[id], now) then Some(old(sessions)[id]) else None
      ensures sessions == if session.None? then old(sessions)
                          else Touched(old(sessions), id, now, Slid(session.value, now))
    {
      if id !in sessions {
        return None;
      }
      var s := sessions[id];
      if s.revokedAt.Some? {
        return None;
      }
      if s.rotatedAt.Some? && now >= s.rotatedAt.value + GRACE {
        return None;
      }
      if now >= s.idleExpiresAt || now >= s.absoluteExpiresAt {
        return None;
      }
      var idleWindow := s.idleExpiresAt - s.lastSeenAt;
      TouchSession(id, now, Min(now + idleWindow, s.absoluteExpiresAt));
      return Some(s);
    }
  }
}
