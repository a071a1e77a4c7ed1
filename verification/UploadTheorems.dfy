/** The quota, and what is known of rows and objects, over every run of concurrent uploads. */
module UploadTheorems {
  import opened Wrappers
  import opened Bytes
  import opened Uploads

  lemma StepActionKeeps(s: State, n: nat, o: Outcome, writable: bool)
    requires Inv(s) && Enabled(s, Step(n, o, writable))
    ensures Inv(Next(s, Step(n, o, writable)))
  {
    assert UploadOk(s, s.uploads[n]);
    UploadsAfterStep(s, n, o, writable);
    RowsAfterStep(s, n, o, writable);
    ObjectsAfterStep(s, n, o, writable);
    forall user: UserId
      ensures Used(Next(s, Step(n, o, writable)).rows, user) <= QUOTA_BYTES
    {
      QuotaAfterStep(s, n, o, writable, user);
    }
  }

  lemma BeginKeeps(s: State, a: Act)
    requires Inv(s) && Enabled(s, a) && a.Begin?
    ensures Inv(Next(s, a))
  {
    var next := Next(s, a);
    forall n | n in s.uploads
      ensures UploadOk(next, s.uploads[n])
    {
      assert UploadOk(s, s.uploads[n]);
    }
    forall id | id in next.objects
      ensures Explained(next, id)
    {
      assert Explained(s, id);
      if InFlight(s, id) {
        var m :| m in s.uploads && s.uploads[m].id == id;
        assert next.uploads[m].id == id;
      }
    }
  }

  lemma GoneKeeps(s: State, a: Act, n: nat)
    requires Inv(s) && Enabled(s, a) && (a == End(n) || a == Crash(n))
    ensures Inv(Next(s, a))
  {
    var next := Next(s, a);
    assert UploadOk(s, s.uploads[n]);
    forall m | m in next.uploads
      ensures UploadOk(next, next.uploads[m])
    {
      assert UploadOk(s, s.uploads[m]);
    }
    forall id | id in next.objects
      ensures Explained(next, id)
    {
      assert Explained(s, id);
      if InFlight(s, id) {
        var m :| m in s.uploads && s.uploads[m].id == id;
        if m != n {
          assert next.uploads[m].id == id;
        }
      }
    }
  }

  lemma StepKeeps(s: State, a: Act)
    requires Inv(s) && Enabled(s, a)
    ensures Inv(Next(s, a))
  {
    match a
    case Begin(_, _, _) => BeginKeeps(s, a);
    case Step(n, o, writable) => StepActionKeeps(s, n, o, writable);
    case End(n) => GoneKeeps(s, a, n);
    case Crash(n) => GoneKeeps(s, a, n);
  }

  lemma {:induction false} RunKeeps(s: State, run: seq<Act>)
    requires Inv(s) && CanRun(s, run)
    ensures Inv(Run(s, run))
    decreases |run|
  {
    if run != [] {
      StepKeeps(s, run[0]);
      RunKeeps(Next(s, run[0]), run[1..]);
    }
  }

  lemma ReachableOk(s: State)
    requires Reachable(s)
    ensures Inv(s)
  {
    var run :| CanRun(Initial(), run) && s == Run(Initial(), run);
    RunKeeps(Initial(), run);
  }

  /** Whatever uploads run at once, a user's files never exceed the quota. */
  lemma QuotaHolds(s: State, user: UserId)
    requires Reachable(s)
    ensures Used(s.rows, user) <= QUOTA_BYTES
  {
    ReachableOk(s);
  }

  /**
   An object without a row belongs to an upload in flight, or to a removal that failed and was logged;
   or to a process that died before it could do either.
   */
  lemma ObjectsAreExplained(s: State, id: DocId)
    requires Reachable(s) && id in s.objects && !HasRow(s.rows, id)
    ensures InFlight(s, id) || id in s.logged || id in s.crashed
  {
    ReachableOk(s);
    assert Explained(s, id);
  }

  /** An object without a row is somebody's to remove, or it is logged. */
  predicate Tidy(s: State) {
    forall id :: id in s.objects && !HasRow(s.rows, id) ==> InFlight(s, id) || id in s.logged
  }

  /** The process dies with its object stored, no row written, and nothing logged. */
  predicate LeavesOrphan(s: State, a: Act) {
    && a.Crash? && a.upload in s.uploads
    && var id := s.uploads[a.upload].id; id in s.objects && !HasRow(s.rows, id) && id !in s.logged
  }

  /** A step leaves no object unexplained exactly when it is not such a death. */
  lemma OrphanedExactly(s: State, a: Act)
    requires Reachable(s) && Tidy(s) && Enabled(s, a)
    ensures Tidy(Next(s, a)) <==> !LeavesOrphan(s, a)
  {
    ReachableOk(s);
    if LeavesOrphan(s, a) {
      assert !InFlight(Next(s, a), s.uploads[a.upload].id);
    } else {
      StepKeepsTidy(s, a);
    }
  }

  lemma StillInFlight(s: State, a: Act, id: DocId)
    requires Enabled(s, a) && InFlight(s, id)
    requires (a.End? || a.Crash?) ==> s.uploads[a.upload].id != id
    ensures InFlight(Next(s, a), id)
  {
    var n :| n in s.uploads && s.uploads[n].id == id;
    assert Next(s, a).uploads[n].id == id;
  }

  lemma StepKeepsTidy(s: State, a: Act)
    requires Inv(s) && Tidy(s) && Enabled(s, a) && !LeavesOrphan(s, a)
    ensures Tidy(Next(s, a))
  {
    var next := Next(s, a);
    if a.Step? {
      StepSparesOthers(s, a.upload, a.outcome, a.writable);
      assert next.uploads[a.upload].id == s.uploads[a.upload].id;
    }
    forall id | id in next.objects && !HasRow(next.rows, id)
      ensures InFlight(next, id) || id in next.logged
    {
      if !a.Begin? && s.uploads[a.upload].id == id {
        assert UploadOk(s, s.uploads[a.upload]);
      } else if InFlight(s, id) {
        StillInFlight(s, a, id);
      }
    }
  }

  predicate NobodyDies(run: seq<Act>) {
    forall a :: a in run ==> !a.Crash?
  }

  lemma {:induction false} TidyRun(s: State, run: seq<Act>)
    requires Inv(s) && Tidy(s) && CanRun(s, run) && NobodyDies(run)
    ensures Tidy(Run(s, run))
    decreases |run|
  {
    if run != [] {
      assert run[0] in run;
      StepKeepsTidy(s, run[0]);
      StepKeeps(s, run[0]);
      TidyRun(Next(s, run[0]), run[1..]);
    }
  }

  /** While no process dies, every object without a row is an upload's in flight, or its removal was logged. */
  lemma ObjectsAreTidy(run: seq<Act>, id: DocId)
    requires CanRun(Initial(), run) && NobodyDies(run)
    ensures var s := Run(Initial(), run);
            id in s.objects && !HasRow(s.rows, id) ==> InFlight(s, id) || id in s.logged
  {
    TidyRun(Initial(), run);
  }

  /** For every acceptable file, a run that leaves its object with no row, nobody to remove it and no log. */
  lemma OrphanedByCrash(user: UserId, content: Buffer) returns (s: State, a: Act)
    requires TypeToUpload(content).Some?
    ensures Reachable(s) && Tidy(s) && Enabled(s, a)
    ensures var next := Next(s, a); next.objects == map[0 := content] && next.rows == [] && next.uploads == map[]
    ensures Next(s, a).logged == {} && !Tidy(Next(s, a))
  {
    s := Stored(user, content);
    a := Crash(0);
    assert 0 in Next(s, a).objects && !HasRow(Next(s, a).rows, 0) && !InFlight(Next(s, a), 0);
  }

  lemma {:induction false} RunAppend(s: State, run: seq<Act>, a: Act)
    requires CanRun(s, run) && Enabled(Run(s, run), a)
    ensures CanRun(s, run + [a]) && Run(s, run + [a]) == Next(Run(s, run), a)
    decreases |run|
  {
    if run == [] {
      assert [] + [a] == [a];
    } else {
      assert (run + [a])[1..] == run[1..] + [a];
      RunAppend(Next(s, run[0]), run[1..], a);
    }
  }

  lemma Then(s: State, a: Act)
    requires Reachable(s) && Enabled(s, a)
    ensures Reachable(Next(s, a))
  {
    var run :| CanRun(Initial(), run) && s == Run(Initial(), run);
    RunAppend(Initial(), run, a);
  }

  /** Any acceptable file, in storage and without its row yet. */
  lemma Stored(user: UserId, content: Buffer) returns (s: State)
    requires TypeToUpload(content).Some?
    ensures Reachable(s) && s.rows == [] && s.objects == map[0 := content] && s.logged == {}
    ensures s.uploads == map[0 := Upload(0, user, content, TypeToUpload(content).value, Creating)]
  {
    var s0 := Initial();
    assert CanRun(s0, []) && s0 == Run(s0, []);
    Then(s0, Begin(0, user, content));
    var s1 := Next(s0, Begin(0, user, content));
    Then(s1, Step(0, Done, true));
    var s2 := Next(s1, Step(0, Done, true));
    Then(s2, Step(0, Done, true));
    s := Next(s2, Step(0, Done, true));
  }

  /** An upload answered with its document has its row and its object, and keeps them. */
  lemma AcceptedIsKept(s: State, id: DocId)
    requires Reachable(s) && id in s.accepted
    ensures HasRow(s.rows, id) && id in s.objects
  {
    ReachableOk(s);
  }

  /** A row without its object was written by a call that threw. */
  lemma RowWithoutObject(s: State, i: nat)
    requires Reachable(s) && i < |s.rows| && s.rows[i].id !in s.objects
    ensures s.rows[i].id in s.uncertain && s.rows[i].id !in s.accepted
  {
    ReachableOk(s);
  }

  // ----- Whether every row's object exists -----

  predicate RowsHaveObjects(s: State) {
    forall i :: 0 <= i < |s.rows| ==> s.rows[i].id in s.objects
  }

  /** The upload undoes a row it does not know it has written. */
  predicate RemovesWritten(s: State, a: Act) {
    && a.Step? && a.upload in s.uploads && Happened(a.outcome)
    && s.uploads[a.upload].pc.Removing? && HasRow(s.rows, s.uploads[a.upload].id)
  }

  lemma StepKeepsObjects(s: State, a: Act)
    requires Inv(s) && RowsHaveObjects(s) && Enabled(s, a) && !RemovesWritten(s, a)
    ensures RowsHaveObjects(Next(s, a))
  {
    if a.Step? {
      var u, next := s.uploads[a.upload], Next(s, a);
      assert UploadOk(s, u);
      forall i | 0 <= i < |next.rows|
        ensures next.rows[i].id in next.objects
      {
        if i < |s.rows| {
          assert next.rows[i] == s.rows[i];
          assert s.rows[i].id == u.id ==> HasRow(s.rows, u.id);
        }
      }
    }
  }

  /** A step leaves every row its object exactly when it is not such a removal. */
  lemma RowLosesObjectExactly(s: State, a: Act)
    requires Reachable(s) && RowsHaveObjects(s) && Enabled(s, a)
    ensures RowsHaveObjects(Next(s, a)) <==> !RemovesWritten(s, a)
  {
    ReachableOk(s);
    if RemovesWritten(s, a) {
      var id := s.uploads[a.upload].id;
      var i :| 0 <= i < |s.rows| && s.rows[i].id == id;
      assert Next(s, a).rows[i].id !in Next(s, a).objects;
    } else {
      StepKeepsObjects(s, a);
    }
  }

  // ----- Over whole runs -----

  /** The action writes a row and then tells its upload that it failed. */
  predicate WritesAndThrows(s: State, a: Act)
    requires Enabled(s, a)
  {
    a.Step? && a.outcome.Threw? && Creates(s, s.uploads[a.upload], a.outcome, a.writable)
  }

  predicate AllHonest(s: State, run: seq<Act>)
    requires CanRun(s, run)
    decreases |run|
  {
    run == [] || (!WritesAndThrows(s, run[0]) && AllHonest(Next(s, run[0]), run[1..]))
  }

  lemma {:induction false} HonestRunIsCertain(s: State, run: seq<Act>)
    requires Inv(s) && s.uncertain == {} && CanRun(s, run) && AllHonest(s, run)
    ensures Inv(Run(s, run)) && Run(s, run).uncertain == {}
    decreases |run|
  {
    if run != [] {
      StepKeeps(s, run[0]);
      HonestRunIsCertain(Next(s, run[0]), run[1..]);
    }
  }

  /** While no call writes its row and then throws, every row has its object, and was answered for. */
  lemma RowsKeepTheirObjects(run: seq<Act>, i: nat)
    requires CanRun(Initial(), run) && AllHonest(Initial(), run) && i < |Run(Initial(), run).rows|
    ensures var s := Run(Initial(), run); s.rows[i].id in s.objects && s.rows[i].id in s.accepted
  {
    HonestRunIsCertain(Initial(), run);
  }

  /** And from any state in which one just has, the upload's next call can remove the object. */
  lemma AnyWrittenAndThrownIsLost(s: State, a: Act)
    requires Reachable(s) && Enabled(s, a) && WritesAndThrows(s, a)
    ensures var next, removal := Next(s, a), Step(a.upload, Done, a.writable);
            Enabled(next, removal) && HasRow(next.rows, s.uploads[a.upload].id)
            && !RowsHaveObjects(Next(next, removal))
  {
    var id, next := s.uploads[a.upload].id, Next(s, a);
    HasRowAppend(s.rows, RowOf(s.uploads[a.upload]), id);
    assert next.rows[|s.rows|].id == id;
    assert Next(next, Step(a.upload, Done, a.writable)).rows[|s.rows|].id !in
           Next(next, Step(a.upload, Done, a.writable)).objects;
  }

  /**
   For every acceptable file, a run that loses it: the row is committed, the call throws, and the upload
   removes the object.
   */
  lemma CommittedButThrown(user: UserId, content: Buffer) returns (s: State, a: Act)
    requires TypeToUpload(content).Some?
    ensures Reachable(s) && RowsHaveObjects(s) && Enabled(s, a)
    ensures !RowsHaveObjects(Next(s, a))
  {
    var s1 := Stored(user, content);
    Then(s1, Step(0, Threw(true), true));
    s := Next(s1, Step(0, Threw(true), true));
    assert s.rows == [Row(0, user, TypeToUpload(content).value, |content|)];
    a := Step(0, Done, true);
    assert Next(s, a).rows[0].id !in Next(s, a).objects;
  }
}
