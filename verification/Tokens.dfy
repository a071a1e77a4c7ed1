/**
 Single-use tokens of email verification and password reset: their replacement when an email is
 dispatched (outbox.repository.ts, outbox.repository.fake.ts), their consumption and the reset that one
 of them allows (auth.repository.ts). Only their hashes are stored, and a new one is never an old one's.
 */
module Tokens {
  import opened Wrappers
  import S = Sessions
  import M = SessionMachine
  import E = SessionEndings

  type Time = int
  type UserId = nat
  type Hash = nat

  datatype Kind = EMAIL_VERIFICATION | PASSWORD_RESET

  datatype Token = Token(user: UserId, hash: Hash, expiresAt: Time, usedAt: Option<Time>, createdAt: Time)

  predicate Unused(t: Token, user: UserId) {
    t.user == user && t.usedAt.None?
  }

  function UsedUp(t: Token, user: UserId, now: Time): Token {
    if Unused(t, user) then t.(usedAt := Some(now)) else t
  }

  /** Every unused token of the user is used up. */
  function AllUsed(tokens: seq<Token>, user: UserId, now: Time): seq<Token> {
    seq(|tokens|, i requires 0 <= i < |tokens| => UsedUp(tokens[i], user, now))
  }

  function Replaced(tokens: seq<Token>, user: UserId, hash: Hash, expiresAt: Time, now: Time): seq<Token> {
    AllUsed(tokens, user, now) + [Token(user, hash, expiresAt, None, now)]
  }

  predicate Usable(t: Token, hash: Hash, now: Time) {
    t.hash == hash && t.usedAt.None? && now < t.expiresAt
  }

  /** The first token this hash can use now, or the number of tokens. */
  function Find(tokens: seq<Token>, hash: Hash, now: Time): (k: nat)
    ensures k <= |tokens|
    ensures k < |tokens| ==> Usable(tokens[k], hash, now)
    ensures forall i :: 0 <= i < k ==> !Usable(tokens[i], hash, now)
  {
    if tokens == [] || Usable(tokens[0], hash, now) then 0
    else
      var k := Find(tokens[1..], hash, now);
      assert forall i :: 0 < i <= k ==> tokens[i] == tokens[1..][i - 1];
      k + 1
  }

  function Consumed(tokens: seq<Token>, hash: Hash, now: Time): seq<Token> {
    var k := Find(tokens, hash, now);
    if k == |tokens| then tokens else tokens[k := tokens[k].(usedAt := Some(now))]
  }

  // ----- The same over mutable lists -----

  class TokenStore {
    var verification: seq<Token>
    var reset: seq<Token>
    var sessions: S.Table
    var passwords: map<UserId, string>

    constructor ()
      ensures verification == [] && reset == [] && sessions == map[] && passwords == map[]
    {
      verification, reset, sessions, passwords := [], [], map[], map[];
    }

    method ReplaceVerificationToken(user: UserId, hash: Hash, expiresAt: Time, now: Time)
      modifies `verification
      ensures verification == Replaced(old(verification), user, hash, expiresAt, now)
    {
      var tokens := UseUp(verification, user, now);
      verification := tokens + [Token(user, hash, expiresAt, None, now)];
    }

    method ReplaceResetToken(user: UserId, hash: Hash, expiresAt: Time, now: Time)
      modifies `reset
      ensures reset == Replaced(old(reset), user, hash, expiresAt, now)
    {
      var tokens := UseUp(reset, user, now);
      reset := tokens + [Token(user, hash, expiresAt, None, now)];
    }

    static method UseUp(list: seq<Token>, user: UserId, now: Time) returns (tokens: seq<Token>)
      ensures tokens == AllUsed(list, user, now)
    {
      tokens := list;
      for i := 0 to |list|
        invariant |tokens| == |list|
        invariant forall k :: 0 <= k < i ==> tokens[k] == UsedUp(list[k], user, now)
        invariant forall k :: i <= k < |list| ==> tokens[k] == list[k]
      {
        if tokens[i].user == user && tokens[i].usedAt.None? {
          tokens := tokens[i := tokens[i].(usedAt := Some(now))];
        }
      }
    }

    static method FindUsable(tokens: seq<Token>, hash: Hash, now: Time) returns (k: nat)
      ensures k == Find(tokens, hash, now)
    {
      k := 0;
      while k < |tokens| && !(tokens[k].hash == hash && tokens[k].usedAt.None? && now < tokens[k].expiresAt)
        invariant k <= |tokens|
        invariant Find(tokens, hash, now) == k + Find(tokens[k..], hash, now)
      {
        assert tokens[k..][1..] == tokens[k + 1..];
        k := k + 1;
      }
      assert k < |tokens| ==> tokens[k..][0] == tokens[k];
    }

    method ConsumeVerificationToken(hash: Hash, now: Time) returns (user: Option<UserId>)
      modifies `verification
      ensures verification == Consumed(old(verification), hash, now)
      ensures user == var k := Find(old(verification), hash, now);
                      if k < |old(verification)| then Some(old(verification)[k].user) else None
    {
      var k := FindUsable(verification, hash, now);
      if k == |verification| {
        return None;
      }
      user := Some(verification[k].user);
      verification := verification[k := verification[k].(usedAt := Some(now))];
    }

    /** resetPassword: the token, the password, every other token and every session, in one transaction. */
    method ResetPassword(hash: Hash, password: string, now: Time) returns (user: Option<UserId>)
      modifies this
      ensures verification == old(verification)
      ensures user == var k := Find(old(reset), hash, now);
                      if k < |old(reset)| then Some(old(reset)[k].user) else None
      ensures user.None? ==> reset == old(reset) && sessions == old(sessions) && passwords == old(passwords)
      ensures user.Some? ==>
                && reset == AllUsed(old(reset), user.value, now)
                && sessions == S.AllRevoked(old(sessions), user.value, now)
                && passwords == old(passwords)[user.value := password]
    {
      var k := FindUsable(reset, hash, now);
      if k == |reset| {
        return None;
      }
      var u := reset[k].user;
      ghost var before := reset;
      reset := reset[k := reset[k].(usedAt := Some(now))];
      passwords := passwords[u := password];
      reset := UseUp(reset, u, now);
      assert AllUsed(before[k := before[k].(usedAt := Some(now))], u, now) == AllUsed(before, u, now);
      sessions := map id | id in sessions :: S.RevokedIf(sessions[id], u, now);
      return Some(u);
    }
  }

  // ----- Over every run -----

  /**
   The tokens of one kind, how often each has been used by whoever held it, and the sessions with all that
   goes on around them. A password is reset by a token and in no other way.
   */
  datatype State = State(tokens: seq<Token>, uses: map<Hash, nat>, sessions: M.State) {
    function Now(): Time {
      sessions.now
    }
  }

  datatype Act =
    | Replace(user: UserId, hash: Hash, expiresAt: Time)
    | Consume(hash: Hash)
    | Reset(hash: Hash)
    | Session(act: M.Act)  // the clock included

  predicate Enabled(s: State, a: Act) {
    match a
    case Replace(_, hash, _) => forall i :: 0 <= i < |s.tokens| ==> s.tokens[i].hash != hash
    case Session(act) => M.Enabled(s.sessions, act) && !act.Reset?
    case _ => true
  }

  function UsesOf(uses: map<Hash, nat>, hash: Hash): nat {
    if hash in uses then uses[hash] else 0
  }

  function Next(s: State, a: Act): State
    requires Enabled(s, a)
  {
    match a
    case Replace(user, hash, expiresAt) => s.(tokens := Replaced(s.tokens, user, hash, expiresAt, s.Now()))
    case Consume(hash) =>
      if Find(s.tokens, hash, s.Now()) == |s.tokens| then s
      else s.(tokens := Consumed(s.tokens, hash, s.Now()), uses := s.uses[hash := UsesOf(s.uses, hash) + 1])
    case Reset(hash) =>
      var k := Find(s.tokens, hash, s.Now());
      if k == |s.tokens| then s
      else
        var user := s.tokens[k].user;
        s.(tokens := AllUsed(s.tokens, user, s.Now()), uses := s.uses[hash := UsesOf(s.uses, hash) + 1],
           sessions := M.Next(s.sessions, M.Reset(user)))
    case Session(act) => s.(sessions := M.Next(s.sessions, act))
  }

  predicate OneUnused(tokens: seq<Token>) {
    forall i, j :: 0 <= i < j < |tokens| && tokens[i].user == tokens[j].user ==>
      tokens[i].usedAt.Some? || tokens[j].usedAt.Some?
  }

  predicate DistinctHashes(tokens: seq<Token>) {
    forall i, j :: 0 <= i < j < |tokens| ==> tokens[i].hash != tokens[j].hash
  }

  /** A token that has been used was used once, and one not yet used never. */
  predicate UsesOk(s: State) {
    && (forall i :: 0 <= i < |s.tokens| ==>
          UsesOf(s.uses, s.tokens[i].hash) <= if s.tokens[i].usedAt.Some? then 1 else 0)
    && (forall hash :: hash in s.uses ==> exists i :: 0 <= i < |s.tokens| && s.tokens[i].hash == hash)
  }

  predicate Inv(s: State) {
    OneUnused(s.tokens) && DistinctHashes(s.tokens) && UsesOk(s)
  }

  /** The same tokens, some of them now used. */
  predicate UsedMore(tokens: seq<Token>, next: seq<Token>) {
    && |next| == |tokens|
    && forall i :: 0 <= i < |tokens| ==>
         && next[i].user == tokens[i].user && next[i].hash == tokens[i].hash
         && (tokens[i].usedAt.Some? ==> next[i].usedAt.Some?)
  }

  lemma UseKeeps(s: State, next: State, k: nat)
    requires Inv(s) && UsedMore(s.tokens, next.tokens) && k < |s.tokens|
    requires s.tokens[k].usedAt.None? && next.tokens[k].usedAt.Some?
    requires next.uses == s.uses[s.tokens[k].hash := UsesOf(s.uses, s.tokens[k].hash) + 1]
    ensures Inv(next)
  {
    forall i | 0 <= i < |next.tokens|
      ensures UsesOf(next.uses, next.tokens[i].hash) <= if next.tokens[i].usedAt.Some? then 1 else 0
    {
      assert i != k ==> next.tokens[i].hash != s.tokens[k].hash;
    }
    forall hash | hash in next.uses
      ensures exists i :: 0 <= i < |next.tokens| && next.tokens[i].hash == hash
    {
      if hash == s.tokens[k].hash {
        assert next.tokens[k].hash == hash;
      } else {
        var i :| 0 <= i < |s.tokens| && s.tokens[i].hash == hash;
        assert next.tokens[i].hash == hash;
      }
    }
  }

  lemma ReplaceKeeps(s: State, user: UserId, hash: Hash, expiresAt: Time)
    requires Inv(s) && Enabled(s, Replace(user, hash, expiresAt))
    ensures Inv(Next(s, Replace(user, hash, expiresAt)))
  {
    var next := Next(s, Replace(user, hash, expiresAt));
    forall h | h in next.uses
      ensures exists i :: 0 <= i < |next.tokens| && next.tokens[i].hash == h
    {
      var i :| 0 <= i < |s.tokens| && s.tokens[i].hash == h;
      assert next.tokens[i].hash == h;
    }
  }

  lemma StepKeeps(s: State, a: Act)
    requires Inv(s) && Enabled(s, a)
    ensures Inv(Next(s, a))
  {
    match a
    case Replace(user, hash, expiresAt) => ReplaceKeeps(s, user, hash, expiresAt);
    case Consume(hash) =>
      var k := Find(s.tokens, hash, s.Now());
      if k < |s.tokens| {
        UseKeeps(s, Next(s, a), k);
      }
    case Reset(hash) =>
      var k := Find(s.tokens, hash, s.Now());
      if k < |s.tokens| {
        UseKeeps(s, Next(s, a), k);
      }
    case Session(_) =>
  }

  predicate CanRun(s: State, run: seq<Act>)
    decreases |run|
  {
    run == [] || (Enabled(s, run[0]) && CanRun(Next(s, run[0]), run[1..]))
  }

  function Run(s: State, run: seq<Act>): State
    requires CanRun(s, run)
    decreases |run|
  {
    if run == [] then s else Run(Next(s, run[0]), run[1..])
  }

  lemma {:induction false} RunKeeps(s: State, run: seq<Act>)
    requires Inv(s) && CanRun(s, run)
    ensures Inv(Run(s, run))
    decreases |run|
  {
    if run != [] {
      StepKeeps(s, run[0]);
      RunKeeps(Next(s, run[0]), run[1..]);
    }
  }

  function Initial(now: Time): State {
    State([], map[], M.Initial(now))
  }

  ghost predicate Reachable(s: State) {
    exists now, run :: CanRun(Initial(now), run) && s == Run(Initial(now), run)
  }

  lemma ReachableOk(s: State)
    requires Reachable(s)
    ensures Inv(s) && M.Reachable(s.sessions)
  {
    var now, run :| CanRun(Initial(now), run) && s == Run(Initial(now), run);
    RunKeeps(Initial(now), run);
    SessionsRun(Initial(now), run);
  }

  /** In every reachable state a user has at most one unused token, and each token was used at most once. */
  lemma SingleUse(s: State, hash: Hash, i: nat, j: nat)
    requires Reachable(s)
    ensures UsesOf(s.uses, hash) <= 1
    ensures i < j < |s.tokens| && Unused(s.tokens[i], s.tokens[j].user) ==> s.tokens[j].usedAt.Some?
  {
    ReachableOk(s);
  }

  // ----- What a reset ends -----

  /** What an action is for the sessions: a reset that is refused is nothing. */
  function SessionActs(s: State, a: Act): seq<M.Act> {
    match a
    case Session(act) => [act]
    case Reset(hash) =>
      var k := Find(s.tokens, hash, s.Now());
      if k == |s.tokens| then [] else [M.Reset(s.tokens[k].user)]
    case _ => []
  }

  function SessionRun(s: State, run: seq<Act>): seq<M.Act>
    requires CanRun(s, run)
    decreases |run|
  {
    if run == [] then [] else SessionActs(s, run[0]) + SessionRun(Next(s, run[0]), run[1..])
  }

  /** Seen from the sessions, a run is a run of theirs. */
  lemma {:induction false} SessionsRun(s: State, run: seq<Act>)
    requires CanRun(s, run)
    ensures M.CanRun(s.sessions, SessionRun(s, run))
    ensures M.Run(s.sessions, SessionRun(s, run)) == Run(s, run).sessions
    decreases |run|
  {
    if run != [] {
      var next := Next(s, run[0]);
      var acts, rest := SessionActs(s, run[0]), SessionRun(next, run[1..]);
      SessionsRun(next, run[1..]);
      if acts == [] {
        assert acts + rest == rest;
      } else {
        assert (acts + rest)[0] == acts[0] && (acts + rest)[1..] == rest;
      }
    }
  }

  /** A token keeps its place, its user and its hash, and a used one stays used. */
  lemma {:induction false} UsedMoreForever(s: State, run: seq<Act>, i: nat)
    requires CanRun(s, run) && i < |s.tokens|
    ensures var final := Run(s, run);
            && i < |final.tokens| && final.tokens[i].hash == s.tokens[i].hash
            && (s.tokens[i].usedAt.Some? ==> final.tokens[i].usedAt.Some?)
    decreases |run|
  {
    if run != [] {
      UsedMoreForever(Next(s, run[0]), run[1..], i);
    }
  }

  /**
   After a completed reset, whatever happens: every token the user had is used for good, and no session of a
   chain of the user's that had begun is ever valid.
   */
  lemma ResetEndsEverything(s: State, hash: Hash, run: seq<Act>, i: nat, id: S.Id, t: Time)
    requires Reachable(s) && Find(s.tokens, hash, s.Now()) < |s.tokens| && CanRun(Next(s, Reset(hash)), run)
    ensures var user, final := s.tokens[Find(s.tokens, hash, s.Now())].user, Run(Next(s, Reset(hash)), run);
            && (i < |s.tokens| && s.tokens[i].user == user ==>
                  i < |final.tokens| && final.tokens[i].hash == s.tokens[i].hash && final.tokens[i].usedAt.Some?)
            && (&& id in final.sessions.sessions && final.sessions.sessions[id].user == user
                && final.sessions.sessions[id].root < s.sessions.nextId
                ==> !S.Valid(final.sessions.sessions[id], t))
  {
    var user, next := s.tokens[Find(s.tokens, hash, s.Now())].user, Next(s, Reset(hash));
    ReachableOk(s);
    SessionsRun(next, run);
    E.NeverValidAgain(s.sessions, M.Reset(user), user, SessionRun(next, run), id, t);
    if i < |s.tokens| {
      UsedMoreForever(next, run, i);
    }
  }

  /** A used token is refused for good: whatever happens, using it again changes nothing. */
  lemma {:induction false} UsedStaysUsed(s: State, run: seq<Act>, hash: Hash)
    requires Inv(s) && CanRun(s, run)
    requires exists i :: 0 <= i < |s.tokens| && s.tokens[i].hash == hash && s.tokens[i].usedAt.Some?
    ensures Next(Run(s, run), Consume(hash)) == Run(s, run) && Next(Run(s, run), Reset(hash)) == Run(s, run)
    decreases |run|
  {
    var i :| 0 <= i < |s.tokens| && s.tokens[i].hash == hash && s.tokens[i].usedAt.Some?;
    if run == [] {
      assert forall j :: 0 <= j < |s.tokens| && j != i ==> s.tokens[j].hash != hash;
    } else {
      var next := Next(s, run[0]);
      StepKeeps(s, run[0]);
      assert next.tokens[i].hash == hash && next.tokens[i].usedAt.Some?;
      UsedStaysUsed(next, run[1..], hash);
    }
  }
}
