/**
 What logging out everywhere and resetting the password end for good: every session of the user's that had
 begun, whatever requests are in flight. And what a reset may leave: a session for the old password, if and
 only if a login that had checked it could still insert one.
 */
module SessionEndings {
  import opened Wrappers
  import opened Arithmetic
  import opened Sessions
  import opened SessionMachine
  import opened SessionTheorems

  // ----- Sessions that had begun -----

  /** Every session of the user's whose chain began before this id is revoked. */
  predicate EndedBefore(s: State, user: UserId, bound: Id) {
    bound <= s.nextId &&
    forall id :: id in s.sessions && s.sessions[id].user == user && s.sessions[id].root < bound ==>
      s.sessions[id].revokedAt.Some?
  }

  /** No session is added, none is given another chain, and none that is over becomes usable. */
  predicate NoneRevived(s: State, next: State) {
    && next.sessions.Keys == s.sessions.Keys && next.checked == s.checked && s.now <= next.now
    && forall id :: id in s.sessions ==>
         && SameSession(s.sessions[id], next.sessions[id])
         && (s.sessions[id].revokedAt.Some? ==> next.sessions[id].revokedAt.Some?)
  }

  lemma SessionsStayEnded(s: State, next: State, user: UserId, bound: Id)
    requires EndedBefore(s, user, bound) && NoneRevived(s, next) && s.nextId <= next.nextId
    ensures EndedBefore(next, user, bound)
  {
  }

  lemma TouchRevivesNone(s: State, r: nat)
    requires Enabled(s, Touch(r)) && RequestOk(s.requests[r], s.sessions, s.now)
    ensures var q, next := s.requests[r], Next(s, Touch(r));
            && NoneRevived(s, next) && next.nextId == s.nextId && q.id in s.sessions
            && (forall x :: x in s.sessions && x != q.id ==> next.sessions[x] == s.sessions[x])
            && next.logins == s.logins && next.passwords == s.passwords
            && next.requests == s.requests[r := Current(q.id, q.snap)]
  {
  }

  lemma RevocationRevivesNone(s: State, a: Act)
    requires a.Revoke? || a.RevokeAll? || a.Reset?
    ensures NoneRevived(s, Next(s, a)) && Next(s, a).nextId == s.nextId
  {
    RevocationIsOnward(s, a);
  }

  lemma QuietRevivesNone(s: State, a: Act)
    requires Enabled(s, a) && !a.Insert? && !a.Touch? && !a.Rotate? && !a.Revoke? && !a.RevokeAll? && !a.Reset?
    ensures NoneRevived(s, Next(s, a)) && Next(s, a).nextId == s.nextId
  {
  }

  lemma RevivesNone(s: State, a: Act)
    requires Enabled(s, a) && !a.Insert? && !a.Rotate?
    requires a.Touch? ==> RequestOk(s.requests[a.request], s.sessions, s.now)
    ensures NoneRevived(s, Next(s, a)) && Next(s, a).nextId == s.nextId
  {
    if a.Touch? {
      TouchRevivesNone(s, a.request);
    } else if a.Revoke? || a.RevokeAll? || a.Reset? {
      RevocationRevivesNone(s, a);
    } else {
      QuietRevivesNone(s, a);
    }
  }

  lemma InsertKeepsEnded(s: State, l: nat, user: UserId, bound: Id)
    requires Enabled(s, Insert(l)) && EndedBefore(s, user, bound)
    ensures EndedBefore(Next(s, Insert(l)), user, bound)
  {
  }

  /** A row a rotation leaves is as it was, marked perhaps, or revoked. */
  lemma RotatedRow(s: State, q: Request, next: State, id: Id)
    requires IdsOk(s) && Rotates(s, q, next) && id in s.sessions
    ensures id in next.sessions && SameSession(s.sessions[id], next.sessions[id])
    ensures next.sessions[id].idleExpiresAt == s.sessions[id].idleExpiresAt
    ensures s.sessions[id].revokedAt.Some? ==> next.sessions[id].revokedAt.Some?
  {
    assert next.sessions[id]
        == CleanedUp(if id == q.id then s.sessions[id].(rotatedAt := Some(q.at)) else s.sessions[id],
                     q.snap.user, q.at);
  }

  lemma RotationKeepsEnded(s: State, r: nat, user: UserId, bound: Id)
    requires IdsOk(s) && Enabled(s, Rotate(r)) && RequestOk(s.requests[r], s.sessions, s.now)
    requires EndedBefore(s, user, bound)
    ensures EndedBefore(Next(s, Rotate(r)), user, bound)
  {
    var q, next := s.requests[r], Next(s, Rotate(r));
    if CanRotate(s.sessions, q.id, q.snap.user) {
      RotationKeys(s, q, next);
      forall id | id in s.sessions
        ensures SameSession(s.sessions[id], next.sessions[id])
        ensures s.sessions[id].revokedAt.Some? ==> next.sessions[id].revokedAt.Some?
      {
        RotatedRow(s, q, next, id);
      }
    }
  }

  lemma StepKeepsEnded(s: State, a: Act, user: UserId, bound: Id)
    requires Inv(s) && Enabled(s, a) && EndedBefore(s, user, bound)
    ensures EndedBefore(Next(s, a), user, bound)
  {
    if a.Insert? {
      InsertKeepsEnded(s, a.login, user, bound);
    } else if a.Rotate? {
      RotationKeepsEnded(s, a.request, user, bound);
    } else {
      RevivesNone(s, a);
      SessionsStayEnded(s, Next(s, a), user, bound);
    }
  }

  lemma {:induction false} EndedForever(s: State, run: seq<Act>, user: UserId, bound: Id)
    requires Inv(s) && CanRun(s, run) && EndedBefore(s, user, bound)
    ensures EndedBefore(Run(s, run), user, bound)
    decreases |run|
  {
    if run != [] {
      StepKeepsEnded(s, run[0], user, bound);
      StepKeeps(s, run[0]);
      EndedForever(Next(s, run[0]), run[1..], user, bound);
    }
  }

  predicate EndsAll(a: Act, user: UserId) {
    a == RevokeAll(user) || a == Reset(user)
  }

  /**
   After a user has logged out everywhere or reset the password, no session of a chain begun before is ever
   valid again: not by a slide from a stale read, not by a rotation in flight, not at any instant.
   */
  lemma NeverValidAgain(s: State, a: Act, user: UserId, run: seq<Act>, id: Id, t: Time)
    requires Reachable(s) && EndsAll(a, user) && CanRun(Next(s, a), run)
    ensures var final := Run(Next(s, a), run);
            id in final.sessions && final.sessions[id].user == user && final.sessions[id].root < s.nextId ==>
              !Valid(final.sessions[id], t)
  {
    ReachableOk(s);
    StepKeeps(s, a);
    EndedForever(Next(s, a), run, user, s.nextId);
  }

  // ----- Logins that had checked the old password -----

  /** A session of the user's given for an earlier password than this one. */
  predicate Older(s: State, user: UserId, password: nat, x: Session) {
    x.user == user && NumberOf(s.checked, x.root) < password
  }

  /** Once inserted, the login's session could be used: it would not have expired already. */
  predicate CanEnter(login: Login, now: Time) {
    login.Granted? || now < login.at + IdleMs(login.role)
  }

  predicate SessionOver(s: State, user: UserId, password: nat, x: Session) {
    Older(s, user, password, x) ==> x.revokedAt.Some? || x.idleExpiresAt <= s.now
  }

  predicate RequestOver(s: State, user: UserId, password: nat, q: Request) {
    q.id in s.sessions && Older(s, user, password, s.sessions[q.id]) ==>
      s.sessions[q.id].revokedAt.Some? || (q.Found? && q.snap.idleExpiresAt <= s.now)
  }

  predicate LoginOver(s: State, user: UserId, password: nat, login: Login) {
    login.user == user && login.password < password ==> !CanEnter(login, s.now)
  }

  /** Nothing given for an earlier password can be used, or lead to anything that can. */
  predicate Over(s: State, user: UserId, password: nat) {
    && password <= NumberOf(s.passwords, user)
    && (forall id :: id in s.sessions ==> SessionOver(s, user, password, s.sessions[id]))
    && (forall r :: r in s.requests ==> RequestOver(s, user, password, s.requests[r]))
    && (forall l :: l in s.logins ==> LoginOver(s, user, password, s.logins[l]))
  }

  lemma InsertKeepsOver(s: State, l: nat, user: UserId, password: nat)
    requires Inv(s) && Enabled(s, Insert(l)) && Over(s, user, password)
    ensures Over(Next(s, Insert(l)), user, password)
  {
    var next := Next(s, Insert(l));
    assert LoginOver(s, user, password, s.logins[l]);
    forall id | id in next.sessions
      ensures SessionOver(next, user, password, next.sessions[id])
    {
      assert id in s.sessions ==> SessionOver(s, user, password, s.sessions[id]);
    }
    forall r | r in next.requests
      ensures RequestOver(next, user, password, next.requests[r])
    {
      assert RequestOk(s.requests[r], s.sessions, s.now);
      assert RequestOver(s, user, password, s.requests[r]);
    }
  }

  lemma RequestsStayOver(s: State, next: State, user: UserId, password: nat)
    requires NoneRevived(s, next)
    requires forall r :: r in s.requests ==> RequestOver(s, user, password, s.requests[r])
    ensures forall r :: r in s.requests ==> RequestOver(next, user, password, s.requests[r])
  {
    forall r | r in s.requests
      ensures RequestOver(next, user, password, s.requests[r])
    {
      assert RequestOver(s, user, password, s.requests[r]);
    }
  }

  lemma TouchKeepsOver(s: State, r: nat, user: UserId, password: nat)
    requires Inv(s) && Enabled(s, Touch(r)) && Over(s, user, password)
    ensures Over(Next(s, Touch(r)), user, password)
  {
    assert RequestOk(s.requests[r], s.sessions, s.now);
    TouchRevivesNone(s, r);
    TouchedKeepsOver(s, r, user, password, Next(s, Touch(r)));
  }

  lemma TouchedKeepsOver(s: State, r: nat, user: UserId, password: nat, next: State)
    requires Over(s, user, password) && NoneRevived(s, next) && r in s.requests && s.requests[r].Checked?
    requires s.requests[r].id in s.sessions
    requires forall x :: x in s.sessions && x != s.requests[r].id ==> next.sessions[x] == s.sessions[x]
    requires next.logins == s.logins && next.passwords == s.passwords
    requires next.requests == s.requests[r := Current(s.requests[r].id, s.requests[r].snap)]
    ensures Over(next, user, password)
  {
    assert RequestOver(s, user, password, s.requests[r]);
    RequestsStayOver(s, next, user, password);
    TouchedStayOver(s, next, s.requests[r].id, user, password);
    LoginsStayOver(s, next, user, password);
  }

  /** One session is changed, and if it is older it is revoked. */
  lemma TouchedStayOver(s: State, next: State, id: Id, user: UserId, password: nat)
    requires Over(s, user, password) && NoneRevived(s, next) && id in s.sessions
    requires Older(s, user, password, s.sessions[id]) ==> s.sessions[id].revokedAt.Some?
    requires forall x :: x in s.sessions && x != id ==> next.sessions[x] == s.sessions[x]
    ensures forall x :: x in next.sessions ==> SessionOver(next, user, password, next.sessions[x])
  {
    forall x | x in next.sessions
      ensures SessionOver(next, user, password, next.sessions[x])
    {
      assert SessionOver(s, user, password, s.sessions[x]);
    }
  }

  lemma LoginsStayOver(s: State, next: State, user: UserId, password: nat)
    requires next.logins == s.logins && s.now <= next.now
    requires forall l :: l in s.logins ==> LoginOver(s, user, password, s.logins[l])
    ensures forall l :: l in next.logins ==> LoginOver(next, user, password, next.logins[l])
  {
    forall l | l in next.logins
      ensures LoginOver(next, user, password, next.logins[l])
    {
      assert LoginOver(s, user, password, s.logins[l]);
    }
  }

  /** A rotation that takes place is of a session that is not over, and neither is its successor. */
  lemma RotatedIsNotOlder(s: State, r: nat, user: UserId, password: nat)
    requires Inv(s) && Enabled(s, Rotate(r)) && Over(s, user, password)
    requires CanRotate(s.sessions, s.requests[r].id, s.requests[r].snap.user)
    ensures !Older(s, user, password, Successor(s.requests[r].snap, s.requests[r].at))
  {
    var q := s.requests[r];
    assert RequestOver(s, user, password, q) && RequestOk(q, s.sessions, s.now);
  }

  lemma RotationKeepsSessionsOver(s: State, r: nat, user: UserId, password: nat, next: State)
    requires Inv(s) && Enabled(s, Rotate(r)) && Over(s, user, password) && Rotates(s, s.requests[r], next)
    requires next.checked == s.checked
    ensures forall id :: id in next.sessions ==> SessionOver(next, user, password, next.sessions[id])
  {
    var q := s.requests[r];
    RotationKeys(s, q, next);
    RotatedIsNotOlder(s, r, user, password);
    forall id | id in s.sessions
      ensures SessionOver(next, user, password, next.sessions[id])
    {
      assert SessionOver(s, user, password, s.sessions[id]);
      RotatedRow(s, q, next, id);
    }
  }

  lemma RotationKeepsRequestsOver(s: State, r: nat, user: UserId, password: nat, next: State)
    requires Inv(s) && Enabled(s, Rotate(r)) && Over(s, user, password) && Rotates(s, s.requests[r], next)
    requires next.checked == s.checked
    ensures forall k :: k in s.requests ==> RequestOver(next, user, password, s.requests[k])
  {
    forall k | k in s.requests
      ensures RequestOver(next, user, password, s.requests[k])
    {
      assert RequestOver(s, user, password, s.requests[k]) && RequestOk(s.requests[k], s.sessions, s.now);
      RotatedRow(s, s.requests[r], next, s.requests[k].id);
    }
  }

  lemma RotateKeepsOver(s: State, r: nat, user: UserId, password: nat)
    requires Inv(s) && Enabled(s, Rotate(r)) && Over(s, user, password)
    ensures Over(Next(s, Rotate(r)), user, password)
  {
    var q, next := s.requests[r], Next(s, Rotate(r));
    LoginsStayOver(s, next, user, password);
    if CanRotate(s.sessions, q.id, q.snap.user) {
      assert RequestOk(q, s.sessions, s.now);
      RotationKeepsSessionsOver(s, r, user, password, next);
      RotationKeepsRequestsOver(s, r, user, password, next);
    } else {
      assert next == s.(requests := next.requests);
      SameSessionsStayOver(s, next, user, password);
    }
  }

  /** With the sessions as they were, a request that goes on or comes needs looking at only by itself. */
  lemma SameSessionsStayOver(s: State, next: State, user: UserId, password: nat)
    requires Over(s, user, password) && next.sessions == s.sessions && next.checked == s.checked
    requires s.now <= next.now && next.requests.Keys <= s.requests.Keys
    requires forall r :: r in next.requests ==> next.requests[r] == s.requests[r]
    ensures forall id :: id in next.sessions ==> SessionOver(next, user, password, next.sessions[id])
    ensures forall r :: r in next.requests ==> RequestOver(next, user, password, next.requests[r])
  {
    forall id | id in next.sessions
      ensures SessionOver(next, user, password, next.sessions[id])
    {
      assert SessionOver(s, user, password, s.sessions[id]);
    }
    forall r | r in next.requests
      ensures RequestOver(next, user, password, next.requests[r])
    {
      assert RequestOver(s, user, password, s.requests[r]);
    }
  }

  lemma ReadingRequestOver(s: State, a: Act, r: nat, user: UserId, password: nat)
    requires Enabled(s, a) && Over(s, user, password) && r in Next(s, a).requests
    requires a.Find? || a.Check? || a.CheckDue? || a.Stamp? || a.Leave?
    ensures RequestOver(s, user, password, Next(s, a).requests[r])
  {
    if r in s.requests {
      assert RequestOver(s, user, password, s.requests[r]);
    } else {
      assert SessionOver(s, user, password, s.sessions[a.id]);
    }
  }

  lemma ReadingKeepsOver(s: State, a: Act, user: UserId, password: nat)
    requires Enabled(s, a) && Over(s, user, password)
    requires a.Find? || a.Check? || a.CheckDue? || a.Stamp? || a.Leave?
    ensures Over(Next(s, a), user, password)
  {
    forall r | r in Next(s, a).requests
      ensures RequestOver(s, user, password, Next(s, a).requests[r])
    {
      ReadingRequestOver(s, a, r, user, password);
    }
    ReadingChangesNothing(s, a);
    OtherRequestsOver(s, Next(s, a).requests, user, password);
  }

  lemma OtherRequestsOver(s: State, requests: map<nat, Request>, user: UserId, password: nat)
    requires Over(s, user, password)
    requires forall r :: r in requests ==> RequestOver(s, user, password, requests[r])
    ensures Over(s.(requests := requests), user, password)
  {
    var next := s.(requests := requests);
    LoginsStayOver(s, next, user, password);
    SameSessionsStayOver(s, next.(requests := map[]), user, password);
    forall r | r in requests
      ensures RequestOver(next, user, password, requests[r])
    {
      assert RequestOver(s, user, password, requests[r]);
    }
  }

  lemma RevocationKeepsOver(s: State, a: Act, user: UserId, password: nat)
    requires Over(s, user, password) && (a.Revoke? || a.RevokeAll? || a.Reset?)
    ensures Over(Next(s, a), user, password)
  {
    var next := Next(s, a);
    RevocationIsOnward(s, a);
    LoginsStayOver(s, next, user, password);
    RequestsStayOver(s, next, user, password);
    forall id | id in next.sessions
      ensures SessionOver(next, user, password, next.sessions[id])
    {
      assert SessionOver(s, user, password, s.sessions[id]);
    }
  }

  lemma LoginKeepsOver(s: State, a: Act, user: UserId, password: nat)
    requires Over(s, user, password) && Enabled(s, a) && (a.Grant? || a.Date? || a.Abandon? || a.Tick?)
    ensures Over(Next(s, a), user, password)
  {
    var next := Next(s, a);
    SameSessionsStayOver(s, next, user, password);
    forall l | l in next.logins
      ensures LoginOver(next, user, password, next.logins[l])
    {
      assert l in s.logins ==> LoginOver(s, user, password, s.logins[l]);
    }
  }

  lemma StepKeepsOver(s: State, a: Act, user: UserId, password: nat)
    requires Inv(s) && Enabled(s, a) && Over(s, user, password)
    ensures Over(Next(s, a), user, password)
  {
    match a
    case Insert(l) => InsertKeepsOver(s, l, user, password);
    case Touch(r) => TouchKeepsOver(s, r, user, password);
    case Rotate(r) => RotateKeepsOver(s, r, user, password);
    case Revoke(_) => RevocationKeepsOver(s, a, user, password);
    case RevokeAll(_) => RevocationKeepsOver(s, a, user, password);
    case Reset(_) => RevocationKeepsOver(s, a, user, password);
    case _ =>
      if a.Grant? || a.Date? || a.Abandon? || a.Tick? {
        LoginKeepsOver(s, a, user, password);
      } else {
        ReadingKeepsOver(s, a, user, password);
      }
  }

  lemma {:induction false} OverForever(s: State, run: seq<Act>, user: UserId, password: nat)
    requires Inv(s) && CanRun(s, run) && Over(s, user, password)
    ensures Over(Run(s, run), user, password)
    decreases |run|
  {
    if run != [] {
      StepKeepsOver(s, run[0], user, password);
      StepKeeps(s, run[0]);
      OverForever(Next(s, run[0]), run[1..], user, password);
    }
  }

  // ----- Exactly when a reset ends the old password -----

  /** No session given for an earlier password is valid. */
  predicate NoneValid(s: State, user: UserId, password: nat) {
    forall id :: id in s.sessions && Older(s, user, password, s.sessions[id]) ==> !Valid(s.sessions[id], s.now)
  }

  /** No login of the user's that has checked its password can still insert a usable session. */
  predicate NobodyEntering(s: State, user: UserId) {
    forall l :: l in s.logins && s.logins[l].user == user ==> !CanEnter(s.logins[l], s.now)
  }

  lemma ResetIsOver(s: State, user: UserId)
    requires Inv(s) && NobodyEntering(s, user)
    ensures Over(Next(s, Reset(user)), user, NumberOf(s.passwords, user) + 1)
  {
    var next, password := Next(s, Reset(user)), NumberOf(s.passwords, user) + 1;
    forall id | id in next.sessions
      ensures SessionOver(next, user, password, next.sessions[id])
    {
    }
    forall r | r in next.requests
      ensures RequestOver(next, user, password, next.requests[r])
    {
    }
    forall l | l in next.logins
      ensures LoginOver(next, user, password, next.logins[l])
    {
    }
  }

  /** What a login in flight does next: at most look at the clock, and insert its session. */
  function Entrance(s: State, l: nat): seq<Act>
    requires l in s.logins
  {
    if s.logins[l].Granted? then [Date(l), Insert(l)] else [Insert(l)]
  }

  /** The session of a login in flight, inserted at once. */
  lemma Enters(s: State, l: nat) returns (final: State)
    requires Inv(s) && l in s.logins && CanEnter(s.logins[l], s.now)
    ensures CanRun(s, Entrance(s, l)) && final == Run(s, Entrance(s, l))
    ensures s.nextId in final.sessions && final.sessions[s.nextId].user == s.logins[l].user
    ensures final.sessions[s.nextId].root == s.nextId && Valid(final.sessions[s.nextId], final.now)
    ensures NumberOf(final.checked, s.nextId) == s.logins[l].password
  {
    var dated := if s.logins[l].Granted? then Next(s, Date(l)) else s;
    final := Next(dated, Insert(l));
    assert CanRun(final, []) && Run(final, []) == final;
    assert [Insert(l)][1..] == [];
    assert CanRun(dated, [Insert(l)]) && Run(dated, [Insert(l)]) == final;
    assert [Date(l), Insert(l)][1..] == [Insert(l)];
  }

  lemma SomebodyEnters(s: State, user: UserId, l: nat)
    requires Inv(s) && l in s.logins && s.logins[l].user == user && CanEnter(s.logins[l], s.now)
    ensures var next := Next(s, Reset(user));
            && CanRun(next, Entrance(next, l))
            && !NoneValid(Run(next, Entrance(next, l)), user, NumberOf(s.passwords, user) + 1)
  {
    var next := Next(s, Reset(user));
    assert LoginOk(s.logins[l], s.passwords, s.now);
    StepKeeps(s, Reset(user));
    var final := Enters(next, l);
    assert Older(final, user, NumberOf(s.passwords, user) + 1, final.sessions[next.nextId]);
  }

  /**
   After a reset, no session that was given for an earlier password is ever valid, in any continuation, if
   and only if no login was between checking the old password and inserting a session that could be used.
   */
  lemma OldPasswordEndsExactly(s: State, user: UserId)
    requires Reachable(s)
    ensures var next := Next(s, Reset(user));
            (forall run :: CanRun(next, run) ==> NoneValid(Run(next, run), user, NumberOf(next.passwords, user)))
              <==> NobodyEntering(s, user)
  {
    var next, password := Next(s, Reset(user)), NumberOf(s.passwords, user) + 1;
    ReachableOk(s);
    StepKeeps(s, Reset(user));
    if NobodyEntering(s, user) {
      ResetIsOver(s, user);
      forall run | CanRun(next, run)
        ensures NoneValid(Run(next, run), user, password)
      {
        OverForever(next, run, user, password);
        OverIsNoneValid(Run(next, run), user, password);
      }
    } else {
      var l :| l in s.logins && s.logins[l].user == user && CanEnter(s.logins[l], s.now);
      SomebodyEnters(s, user, l);
    }
  }

  lemma OverIsNoneValid(s: State, user: UserId, password: nat)
    requires Over(s, user, password)
    ensures NoneValid(s, user, password)
  {
    forall id | id in s.sessions && Older(s, user, password, s.sessions[id])
      ensures !Valid(s.sessions[id], s.now)
    {
      assert SessionOver(s, user, password, s.sessions[id]);
    }
  }

  /** Such a login is reachable: a run in which the old password opens a session after the reset. */
  lemma OldPasswordEnters(user: UserId, role: Role) returns (s: State, id: Id)
    ensures Reachable(s) && id in s.sessions && s.sessions[id].user == user && Valid(s.sessions[id], s.now)
    ensures NumberOf(s.checked, s.sessions[id].root) == 0 && NumberOf(s.passwords, user) == 1
  {
    var s0 := Initial(0);
    assert CanRun(s0, []) && s0 == Run(s0, []);
    Then(s0, Grant(0, user, role));
    var s1 := Next(s0, Grant(0, user, role));
    Then(s1, Reset(user));
    var s2 := Next(s1, Reset(user));
    Then(s2, Date(0));
    var s3 := Next(s2, Date(0));
    Then(s3, Insert(0));
    s, id := Next(s3, Insert(0)), 0;
  }
}
