/**
 uploadDocument as a program, and the table its row goes to. Other uploads act between its calls; it is
 proved to walk through the steps of the machine in Uploads.
 */
module UploadHandler {
  import opened Wrappers
  import opened Bytes
  import opened FileType
  import opened Uploads

  /** The documents table, under the per-user lock. */
  class DocumentsRepository {
    var rows: seq<Row>

    constructor ()
      ensures rows == []
    {
      rows := [];
    }

    method UsedBytes(user: UserId) returns (used: nat)
      ensures used == Used(rows, user)
    {
      used := 0;
      for i := 0 to |rows|
        invariant used == Used(rows[..i], user)
      {
        assert rows[..i + 1][..i] == rows[..i];
        if rows[i].user == user {
          used := used + rows[i].size;
        }
      }
      assert rows[..|rows|] == rows;
    }

    /** The row is written only for a case still writable, and only within the quota. */
    method CreateDocument(row: Row, writable: bool) returns (created: Created)
      modifies this
      ensures created == CreateResult(old(rows), row.user, row.size, writable)
      ensures rows == if created.RowCreated? then old(rows) + [row] else old(rows)
      ensures created.RowCreated? ==> Used(rows, row.user) <= QUOTA_BYTES
    {
      if !writable {
        return CaseNotWritable;
      }
      var used := UsedBytes(row.user);
      if used + row.size > QUOTA_BYTES {
        return QuotaExceeded;
      }
      UsedAppend(rows, row, row.user);
      rows := rows + [row];
      return RowCreated;
    }
  }

  // ----- The handler -----

  /** What others do before the upload's next call, and how that call goes. */
  datatype Moment = Moment(others: seq<Act>, outcome: Outcome, writable: bool)

  predicate Spares(others: seq<Act>, h: nat) {
    forall a :: a in others ==> a.upload != h
  }

  lemma {:induction false} OthersSpare(s: State, others: seq<Act>, h: nat)
    requires CanRun(s, others) && Spares(others, h) && h in s.uploads
    ensures h in Run(s, others).uploads && Run(s, others).uploads[h] == s.uploads[h]
    decreases |others|
  {
    if others != [] {
      assert others[0] in others;
      OthersSpare(Next(s, others[0]), others[1..], h);
    }
  }

  lemma {:induction false} RunJoin(s: State, a: seq<Act>, b: seq<Act>)
    requires CanRun(s, a) && CanRun(Run(s, a), b)
    ensures CanRun(s, a + b) && Run(s, a + b) == Run(Run(s, a), b)
    decreases |a|
  {
    if a == [] {
      assert a + b == b;
    } else {
      assert (a + b)[1..] == a[1..] + b;
      RunJoin(Next(s, a[0]), a[1..], b);
    }
  }

  lemma RunOne(s: State, a: Act)
    requires Enabled(s, a)
    ensures CanRun(s, [a]) && Run(s, [a]) == Next(s, a)
  {
    assert [a][1..] == [];
    assert Run(Next(s, a), []) == Next(s, a);
  }

  predicate Ended(pc: Pc) {
    pc.Accepted? || pc.Refused?
  }

  /** The moments can follow one another while the upload has not ended. */
  predicate Playable(s: State, h: nat, moments: seq<Moment>)
    decreases |moments|
  {
    moments == [] || (h in s.uploads && Ended(s.uploads[h].pc)) ||
    var m := moments[0];
    && CanRun(s, m.others) && Spares(m.others, h)
    && Enabled(Run(s, m.others), Step(h, m.outcome, m.writable))
    && Playable(Next(Run(s, m.others), Step(h, m.outcome, m.writable)), h, moments[1..])
  }

  datatype Answer =
    | Document(id: DocId)
    | EmptyFile | TooLarge | TypeNotAllowed
    | OverQuota | CaseNotFound | StorageUnavailable | Failed

  /** The answer to an upload whose step at this point refuses it. */
  function RefusalOf(s: State, u: Uploads.Upload, m: Moment): Answer {
    match u.pc
    case Checking => if m.outcome.Threw? then Failed else OverQuota
    case Putting => StorageUnavailable
    case _ =>
      if m.outcome.Threw? then Failed
      else if CreateResult(s.rows, u.user, |u.content|, m.writable).QuotaExceeded? then OverQuota
      else CaseNotFound
  }

  class Platform {
    var s: State
    var moments: seq<Moment>
    ghost var run: seq<Act>
    ghost var refusal: Answer  // what the last call would be refused with
    const h: nat
    ghost const start: State

    /** The upload begins: the file has passed the checks on itself. */
    constructor (s: State, h: nat, user: UserId, content: Buffer, moments: seq<Moment>)
      requires h !in s.uploads && TypeToUpload(content).Some?
      requires Playable(Next(s, Begin(h, user, content)), h, moments)
      ensures Valid() && start == s && this.h == h && this.moments == moments
      ensures Upload() == Uploads.Upload.Upload(s.nextId, user, content, TypeToUpload(content).value, Checking)
    {
      this.h, this.moments, this.s := h, moments, Next(s, Begin(h, user, content));
      start, run, refusal := s, [Begin(h, user, content)], Failed;
      new;
      assert Run(this.s, []) == this.s;
    }

    ghost predicate Valid()
      reads this
    {
      && CanRun(start, run) && s == Run(start, run)
      && h in s.uploads && Playable(s, h, moments)
    }

    function Upload(): Uploads.Upload
      requires h in s.uploads
      reads this
    {
      s.uploads[h]
    }

    /** Others act, then the upload's call happens: one step of the machine. */
    method Call() returns (before: State, m: Moment)
      requires Valid() && moments != [] && !Ended(Upload().pc)
      modifies this
      ensures Valid() && m == old(moments[0]) && moments == old(moments)[1..]
      ensures h in before.uploads && before.uploads[h] == old(Upload())
      ensures Enabled(before, Step(h, m.outcome, m.writable)) && s == Next(before, Step(h, m.outcome, m.writable))
      ensures refusal == if old(Upload().pc).Removing? then old(refusal) else RefusalOf(before, old(Upload()), m)
    {
      m := moments[0];
      before := Run(s, m.others);
      OthersSpare(s, m.others, h);
      ghost var u := Upload();
      ghost var a := Step(h, m.outcome, m.writable);
      RunJoin(start, run, m.others);
      RunOne(before, a);
      RunJoin(start, run + m.others, [a]);
      s := Next(before, Step(h, m.outcome, m.writable));
      moments := moments[1..];
      run := run + m.others + [a];
      refusal := if u.pc.Removing? then refusal else RefusalOf(before, u, m);
    }

    method UsedBytes() returns (r: Option<nat>)
      requires Valid() && moments != [] && Upload().pc == Checking
      modifies this
      ensures Valid() && |moments| == |old(moments)| - 1 && Upload() == old(Upload()).(pc := Upload().pc)
      ensures Upload().pc == if r.None? || r.value + |Upload().content| > QUOTA_BYTES then Refused else Putting
      ensures refusal == if r.None? then Failed else OverQuota
    {
      var before, m := Call();
      return if m.outcome.Threw? then None else Some(Used(before.rows, Upload().user));
    }

    method PutObject() returns (stored: bool)
      requires Valid() && moments != [] && Upload().pc == Putting
      modifies this
      ensures Valid() && |moments| == |old(moments)| - 1
      ensures Upload() == old(Upload()).(pc := if stored then Creating else Removing)
      ensures refusal == StorageUnavailable
    {
      var _, m := Call();
      return m.outcome.Done?;
    }

    method CreateDocument() returns (r: Option<Created>)
      requires Valid() && moments != [] && Upload().pc == Creating
      modifies this
      ensures Valid() && |moments| == |old(moments)| - 1
      ensures Upload() == old(Upload()).(pc := if r == Some(RowCreated) then Accepted else Removing)
      ensures r == Some(RowCreated) ==> Upload().id in s.accepted && HasRow(s.rows, Upload().id)
      ensures refusal == if r.None? then Failed else if r.value.QuotaExceeded? then OverQuota else CaseNotFound
    {
      var before, m := Call();
      HasRowAppend(before.rows, RowOf(Upload()), Upload().id);
      return if m.outcome.Threw? then None
             else Some(CreateResult(before.rows, Upload().user, |Upload().content|, m.writable));
    }

    method DeleteObject() returns (removed: bool)
      requires Valid() && moments != [] && Upload().pc == Removing
      modifies this
      ensures Valid() && Upload() == old(Upload()).(pc := Refused) && refusal == old(refusal)
      ensures Upload().id in s.objects ==> !removed && Upload().id in s.logged
    {
      var before, m := Call();
      return m.outcome.Done?;
    }
  }

  /** removeOrphan: a removal that fails is logged with the object's key, and nothing else. */
  method RemoveOrphan(p: Platform)
    requires p.Valid() && p.moments != [] && p.Upload().pc == Removing
    modifies p
    ensures p.Valid() && p.Upload() == old(p.Upload()).(pc := Refused) && p.refusal == old(p.refusal)
    ensures p.Upload().id in p.s.objects ==> p.Upload().id in p.s.logged
  {
    var _ := p.DeleteObject();
  }

  /** The checks on the file itself, in their order. */
  method CheckFile(content: Buffer) returns (refusal: Option<Answer>)
    ensures refusal.None? <==> TypeToUpload(content).Some?
    ensures refusal == Some(EmptyFile) <==> content == []
    ensures refusal == Some(TooLarge) <==> |content| > MAX_BYTES
    ensures refusal == Some(TypeNotAllowed) <==>
              0 < |content| <= MAX_BYTES && forall t: FileType :: !(Signature(t) <= content)
    ensures refusal.Some? ==> refusal.value in {EmptyFile, TooLarge, TypeNotAllowed}
  {
    if |content| == 0 {
      return Some(EmptyFile);
    }
    if |content| > MAX_BYTES {
      return Some(TooLarge);
    }
    if DetectFileType(content).None? {
      return Some(TypeNotAllowed);
    }
    return None;
  }

  /** Calls an upload makes at most: look at the quota, store, create, remove. */
  const MAX_CALLS := 4

  /**
   An upload once its file is accepted. It answers with a document exactly when it ends accepted, with its
   row written, and otherwise with what refused it.
   */
  method UploadDocument(p: Platform) returns (answer: Answer)
    requires p.Valid() && |p.moments| >= MAX_CALLS && p.Upload().pc == Checking
    modifies p
    ensures p.Valid() && p.Upload() == old(p.Upload()).(pc := if answer.Document? then Accepted else Refused)
    ensures !answer.Document? ==> answer == p.refusal
    ensures answer.Document? ==> answer.id == p.Upload().id && answer.id in p.s.accepted && HasRow(p.s.rows, answer.id)
  {
    var used := p.UsedBytes();
    if used.None? {
      return Failed;
    }
    if used.value + |p.Upload().content| > QUOTA_BYTES {
      return OverQuota;
    }
    var stored := p.PutObject();
    if !stored {
      RemoveOrphan(p);
      return StorageUnavailable;
    }
    var created := p.CreateDocument();
    if created.None? {
      RemoveOrphan(p);
      return Failed;
    }
    if created.value != RowCreated {
      RemoveOrphan(p);
      return if created.value == QuotaExceeded then OverQuota else CaseNotFound;
    }
    return Document(p.Upload().id);
  }
}
