/**
 Uploads of documents (documents.service.ts, documents.repository.ts): the file goes to storage first,
 then its row is written under the user's quota, and what could not be completed is undone. Any number
 of uploads run at once, any call may throw after taking effect, and any process may die.
 */
module Uploads {
  import opened Wrappers
  import opened Bytes
  import opened FileType

  type UserId = nat
  type DocId = nat

  const MAX_BYTES := 10_485_760
  const QUOTA_BYTES := 104_857_600

  /** A row of `documents`; its object's key ends in its id. */
  datatype Row = Row(id: DocId, user: UserId, fileType: FileType, size: nat)

  function Used(rows: seq<Row>, user: UserId): nat {
    if rows == [] then 0
    else Used(rows[..|rows| - 1], user) + if rows[|rows| - 1].user == user then rows[|rows| - 1].size else 0
  }

  predicate HasRow(rows: seq<Row>, id: DocId) {
    exists i :: 0 <= i < |rows| && rows[i].id == id
  }

  // ----- One upload in flight -----

  datatype Pc =
    | Checking   // the first look at the quota
    | Putting
    | Creating
    | Removing   // removeOrphan
    | Accepted
    | Refused    // answered with an error

  datatype Upload = Upload(id: DocId, user: UserId, content: Buffer, fileType: FileType, pc: Pc)

  /** `logged` are the storage.orphan_object events; the last three only record the past. */
  datatype State = State(
    rows: seq<Row>,
    objects: map<DocId, Buffer>,
    uploads: map<nat, Upload>,
    logged: set<DocId>,
    nextId: DocId,
    crashed: set<DocId>,
    uncertain: set<DocId>,  // created, but the call threw
    accepted: set<DocId>)

  datatype Act =
    | Begin(upload: nat, user: UserId, content: Buffer)
    | Step(upload: nat, outcome: Outcome, writable: bool)  // whether the case is still the user's draft
    | End(upload: nat)
    | Crash(upload: nat)

  predicate Enabled(s: State, a: Act) {
    match a
    case Begin(u, _, _) => u !in s.uploads
    case Step(u, _, _) => u in s.uploads && !s.uploads[u].pc.Accepted? && !s.uploads[u].pc.Refused?
    case End(u) => u in s.uploads && (s.uploads[u].pc.Accepted? || s.uploads[u].pc.Refused?)
    case Crash(u) => u in s.uploads
  }

  /** The checks on the file itself: not empty, not too large, of an accepted type. */
  function TypeToUpload(content: Buffer): Option<FileType> {
    if content == [] || |content| > MAX_BYTES then None else DetectFileType(content)
  }

  datatype Created = CaseNotWritable | QuotaExceeded | RowCreated

  /** createDocument's transaction, which holds the user's lock. */
  function CreateResult(rows: seq<Row>, user: UserId, size: nat, writable: bool): Created {
    if !writable then CaseNotWritable
    else if Used(rows, user) + size > QUOTA_BYTES then QuotaExceeded
    else RowCreated
  }

  function RowOf(u: Upload): Row {
    Row(u.id, u.user, u.fileType, |u.content|)
  }

  predicate Creates(s: State, u: Upload, o: Outcome, writable: bool) {
    u.pc.Creating? && Happened(o) && CreateResult(s.rows, u.user, |u.content|, writable).RowCreated?
  }

  function PcAfter(s: State, u: Upload, o: Outcome, writable: bool): Pc {
    match u.pc
    case Checking => if o.Threw? || Used(s.rows, u.user) + |u.content| > QUOTA_BYTES then Refused else Putting
    case Putting => if o.Threw? then Removing else Creating
    case Creating => if o.Done? && Creates(s, u, o, writable) then Accepted else Removing
    case _ => Refused
  }

  function ObjectsAfter(objects: map<DocId, Buffer>, u: Upload, o: Outcome): map<DocId, Buffer> {
    if !Happened(o) then objects
    else if u.pc.Putting? then objects[u.id := u.content]
    else if u.pc.Removing? then objects - {u.id}
    else objects
  }

  function Next(s: State, a: Act): State
    requires Enabled(s, a)
  {
    match a
    case Begin(n, user, content) =>
      var fileType := TypeToUpload(content);
      if fileType.None? then s
      else
        s.(uploads := s.uploads[n := Upload(s.nextId, user, content, fileType.value, Checking)],
           nextId := s.nextId + 1)
    case Step(n, o, writable) =>
      var u := s.uploads[n];
      var created := Creates(s, u, o, writable);
      s.(rows := if created then s.rows + [RowOf(u)] else s.rows,
         objects := ObjectsAfter(s.objects, u, o),
         uploads := s.uploads[n := u.(pc := PcAfter(s, u, o, writable))],
         logged := if u.pc.Removing? && o.Threw? then s.logged + {u.id} else s.logged,
         uncertain := if created && o.Threw? then s.uncertain + {u.id} else s.uncertain,
         accepted := if created && o.Done? then s.accepted + {u.id} else s.accepted)
    case End(n) => s.(uploads := s.uploads - {n})
    case Crash(n) => s.(uploads := s.uploads - {n}, crashed := s.crashed + {s.uploads[n].id})
  }

  function Initial(): State {
    State([], map[], map[], {}, 0, {}, {}, {})
  }

  predicate CanRun(s: State, run: seq<Act>)
    decreases |run|
  {
    run == [] || (Enabled(s, run[0]) && CanRun(Next(s, run[0]), run[1..]))
  }

  function Run(s: State, run: seq<Act>): State
    requires CanRun(s, run)
    decreases |run|
  {
    if run == [] then s else Run(Next(s, run[0]), run[1..])
  }

  ghost predicate Reachable(s: State) {
    exists run :: CanRun(Initial(), run) && s == Run(Initial(), run)
  }

  // ----- The invariant -----

  /** What is true of an upload in flight, by where it is. */
  predicate UploadOk(s: State, u: Upload) {
    && u.id < s.nextId
    && TypeToUpload(u.content) == Some(u.fileType)
    && (u.pc.Checking? ==> u.id !in s.objects)
    && (u.pc.Creating? ==> u.id in s.objects && s.objects[u.id] == u.content)
    && (u.pc.Checking? || u.pc.Putting? || u.pc.Creating? ==> !HasRow(s.rows, u.id))
    && (u.pc.Accepted? <==> u.id in s.accepted)
    && (u.pc.Refused? && u.id in s.objects && !HasRow(s.rows, u.id) ==> u.id in s.logged)
    && (u.pc.Putting? ==> u.id !in s.objects)
  }

  predicate UploadsOk(s: State) {
    && (forall n :: n in s.uploads ==> UploadOk(s, s.uploads[n]))
    && (forall n, m :: n in s.uploads && m in s.uploads && n != m ==> s.uploads[n].id != s.uploads[m].id)
  }

  predicate InFlight(s: State, id: DocId) {
    exists n :: n in s.uploads && s.uploads[n].id == id
  }

  predicate RowsOk(s: State) {
    && (forall i :: 0 <= i < |s.rows| ==> s.rows[i].id < s.nextId)
    && (forall i, j :: 0 <= i < j < |s.rows| ==> s.rows[i].id != s.rows[j].id)
    && (forall i :: 0 <= i < |s.rows| ==> s.rows[i].id in s.accepted + s.uncertain)
    && (forall id :: id in s.uncertain ==> id !in s.accepted && HasRow(s.rows, id))
    && (forall id :: id in s.accepted ==> HasRow(s.rows, id) && id in s.objects)
  }

  predicate Explained(s: State, id: DocId) {
    HasRow(s.rows, id) || InFlight(s, id) || id in s.logged || id in s.crashed
  }

  predicate ObjectsOk(s: State) {
    forall id :: id in s.objects ==> id < s.nextId && Explained(s, id)
  }

  ghost predicate Inv(s: State) {
    && UploadsOk(s) && RowsOk(s) && ObjectsOk(s)
    && forall user: UserId :: Used(s.rows, user) <= QUOTA_BYTES
  }

  lemma HasRowAppend(rows: seq<Row>, r: Row, id: DocId)
    ensures HasRow(rows + [r], id) <==> HasRow(rows, id) || r.id == id
  {
    if HasRow(rows, id) {
      var i :| 0 <= i < |rows| && rows[i].id == id;
      assert (rows + [r])[i].id == id;
    }
    if r.id == id {
      assert (rows + [r])[|rows|].id == id;
    }
  }

  lemma UsedAppend(rows: seq<Row>, r: Row, user: UserId)
    ensures Used(rows + [r], user) == Used(rows, user) + if r.user == user then r.size else 0
  {
    assert (rows + [r])[..|rows|] == rows;
  }

  lemma QuotaAfterStep(s: State, n: nat, o: Outcome, writable: bool, user: UserId)
    requires n in s.uploads && Enabled(s, Step(n, o, writable)) && Used(s.rows, user) <= QUOTA_BYTES
    ensures Used(Next(s, Step(n, o, writable)).rows, user) <= QUOTA_BYTES
  {
    UsedAppend(s.rows, RowOf(s.uploads[n]), user);
  }

  /** What a step leaves of the rows, the objects and the records, for everybody but its upload. */
  ghost predicate SparesOthers(s: State, next: State, id: DocId) {
    && next.nextId == s.nextId
    && (forall x: DocId :: x != id ==> (HasRow(next.rows, x) <==> HasRow(s.rows, x)))
    && (forall x: DocId :: x != id ==> (x in next.objects <==> x in s.objects))
    && (forall x: DocId :: x != id && x in s.objects ==> next.objects[x] == s.objects[x])
    && (forall x: DocId :: x != id ==> (x in next.accepted <==> x in s.accepted))
    && (forall x: DocId :: x != id ==> (x in next.logged <==> x in s.logged))
    && next.crashed == s.crashed
  }

  lemma StepSparesOthers(s: State, n: nat, o: Outcome, writable: bool)
    requires Enabled(s, Step(n, o, writable))
    ensures SparesOthers(s, Next(s, Step(n, o, writable)), s.uploads[n].id)
  {
    forall x | x != s.uploads[n].id
      ensures HasRow(Next(s, Step(n, o, writable)).rows, x) <==> HasRow(s.rows, x)
    {
      HasRowAppend(s.rows, RowOf(s.uploads[n]), x);
    }
  }

  lemma OtherUploadOk(s: State, next: State, id: DocId, u: Upload)
    requires SparesOthers(s, next, id) && UploadOk(s, u) && u.id != id
    ensures UploadOk(next, u)
  {
  }

  lemma OwnUploadOk(s: State, n: nat, o: Outcome, writable: bool)
    requires Enabled(s, Step(n, o, writable)) && UploadOk(s, s.uploads[n])
    ensures var next := Next(s, Step(n, o, writable)); UploadOk(next, next.uploads[n])
  {
    HasRowAppend(s.rows, RowOf(s.uploads[n]), s.uploads[n].id);
  }

  lemma UploadsAfterStep(s: State, n: nat, o: Outcome, writable: bool)
    requires UploadsOk(s) && Enabled(s, Step(n, o, writable))
    ensures UploadsOk(Next(s, Step(n, o, writable)))
  {
    var next := Next(s, Step(n, o, writable));
    StepSparesOthers(s, n, o, writable);
    OwnUploadOk(s, n, o, writable);
    forall m | m in next.uploads && m != n
      ensures UploadOk(next, next.uploads[m])
    {
      OtherUploadOk(s, next, s.uploads[n].id, s.uploads[m]);
    }
  }

  lemma RowsAfterStep(s: State, n: nat, o: Outcome, writable: bool)
    requires RowsOk(s) && Enabled(s, Step(n, o, writable)) && UploadOk(s, s.uploads[n])
    ensures RowsOk(Next(s, Step(n, o, writable)))
  {
    var u, next := s.uploads[n], Next(s, Step(n, o, writable));
    StepSparesOthers(s, n, o, writable);
    HasRowAppend(s.rows, RowOf(u), u.id);
    if Creates(s, u, o, writable) {
      assert !HasRow(s.rows, u.id);
      assert u.id !in s.accepted;
    }
  }

  lemma ObjectsAfterStep(s: State, n: nat, o: Outcome, writable: bool)
    requires ObjectsOk(s) && Enabled(s, Step(n, o, writable)) && UploadOk(s, s.uploads[n])
    ensures ObjectsOk(Next(s, Step(n, o, writable)))
  {
    var u, next := s.uploads[n], Next(s, Step(n, o, writable));
    StepSparesOthers(s, n, o, writable);
    assert next.uploads[n].id == u.id;
    assert InFlight(next, u.id);
    forall id | id in next.objects
      ensures id < next.nextId && Explained(next, id)
    {
      if id != u.id {
        assert Explained(s, id);
        if InFlight(s, id) {
          var m :| m in s.uploads && s.uploads[m].id == id;
          assert next.uploads[m].id == id;
        }
      }
    }
  }
}
