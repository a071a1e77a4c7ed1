/**
 The email outbox and one dispatch run over it: dispatch.ts, and dispatchNext of
 outbox.repository.fake.ts with its deferred writes.
 */
module Outbox {
  import opened Wrappers
  import T = Tokens

  type Time = int
  type EntryId = nat

  datatype Kind = EMAIL_VERIFICATION | PASSWORD_RESET | PASSWORD_RESET_COMPLETED

  datatype Entry = Entry(id: EntryId, kind: Kind, user: T.UserId, createdAt: Time, sentAt: Option<Time>)

  /** A token replacement the composer asked for: kept only if the email goes out. */
  datatype Write = Write(kind: T.Kind, user: T.UserId, hash: T.Hash, expiresAt: Time)

  /** How the next call of dispatchNext goes, when there is an entry for it. */
  datatype Ending =
    | FailsBefore                       // it throws before the entry is handled
    | FailsHandling                     // no composer, or the composer or the transport throws
    | FailsCommitting                   // the email is out, but the transaction does not commit
    | Works(writes: seq<Write>)

  // ----- The order of the entries -----

  predicate Pending(e: Entry, exclude: seq<EntryId>) {
    e.sentAt.None? && e.id !in exclude
  }

  /** ORDER BY created_at, id */
  predicate Earlier(a: Entry, b: Entry) {
    a.createdAt < b.createdAt || (a.createdAt == b.createdAt && a.id < b.id)
  }

  predicate Distinct(entries: seq<Entry>) {
    forall i, j :: 0 <= i < j < |entries| ==> entries[i].id != entries[j].id
  }

  /** This entry is the first of the pending ones. */
  predicate IsOldest(entries: seq<Entry>, exclude: seq<EntryId>, k: nat) {
    && k < |entries| && Pending(entries[k], exclude)
    && forall i :: 0 <= i < |entries| && Pending(entries[i], exclude) && i != k ==> Earlier(entries[k], entries[i])
  }

  // ----- What one run does -----

  /** The entries of a run's end: those sent are marked, and nothing else is different. */
  predicate Marked(before: seq<Entry>, after: seq<Entry>, sent: seq<EntryId>, now: Time) {
    && |after| == |before|
    && forall i :: 0 <= i < |before| ==>
         after[i] == if before[i].id in sent then before[i].(sentAt := Some(now)) else before[i]
  }

  predicate NoneTwice(ids: seq<EntryId>) {
    forall i, j :: 0 <= i < j < |ids| ==> ids[i] != ids[j]
  }

  predicate IsNext(entries: seq<Entry>, exclude: seq<EntryId>, id: EntryId) {
    exists k :: 0 <= k < |entries| && IsOldest(entries, exclude, k) && entries[k].id == id
  }

  /** These are the oldest pending entries, oldest first. */
  predicate OldestFirst(entries: seq<Entry>, ids: seq<EntryId>) {
    forall i :: 0 <= i < |ids| ==> IsNext(entries, ids[..i], ids[i])
  }

  /** The entries sent in a run were attempted in it, so they are as pending as before for the rest of it. */
  lemma SameNext(before: seq<Entry>, after: seq<Entry>, sent: seq<EntryId>, attempted: seq<EntryId>, now: Time,
                 id: EntryId)
    requires Marked(before, after, sent, now) && forall x :: x in sent ==> x in attempted
    ensures IsNext(after, attempted, id) <==> IsNext(before, attempted, id)
    ensures forall i :: 0 <= i < |before| ==> (Pending(after[i], attempted) <==> Pending(before[i], attempted))
  {
    assert forall i :: 0 <= i < |before| ==> (Pending(after[i], attempted) <==> Pending(before[i], attempted));
    forall k | 0 <= k < |before|
      ensures IsOldest(after, attempted, k) <==> IsOldest(before, attempted, k)
    {
    }
    if IsNext(after, attempted, id) {
      var k :| 0 <= k < |after| && IsOldest(after, attempted, k) && after[k].id == id;
      assert IsOldest(before, attempted, k) && before[k].id == id;
    }
    if IsNext(before, attempted, id) {
      var k :| 0 <= k < |before| && IsOldest(before, attempted, k) && before[k].id == id;
      assert IsOldest(after, attempted, k) && after[k].id == id;
    }
  }

  lemma NextIsNew(entries: seq<Entry>, ids: seq<EntryId>, id: EntryId)
    requires NoneTwice(ids) && OldestFirst(entries, ids) && IsNext(entries, ids, id)
    ensures NoneTwice(ids + [id]) && OldestFirst(entries, ids + [id])
  {
    var all := ids + [id];
    forall i | 0 <= i < |all|
      ensures IsNext(entries, all[..i], all[i])
    {
      assert all[..i] == ids[..i];
      assert ids[..|ids|] == ids;
    }
  }

  lemma MarkedMore(a: seq<Entry>, b: seq<Entry>, c: seq<Entry>, sent: seq<EntryId>, more: seq<EntryId>, now: Time)
    requires Marked(a, b, sent, now) && Marked(b, c, more, now)
    ensures Marked(a, c, sent + more, now)
  {
  }

  /** The tokens of one kind after these replacements, in order. */
  function Written(kind: T.Kind, tokens: seq<T.Token>, writes: seq<Write>, now: Time): seq<T.Token> {
    if writes == [] then tokens
    else
      var before, w := Written(kind, tokens, writes[..|writes| - 1], now), writes[|writes| - 1];
      if w.kind == kind then T.Replaced(before, w.user, w.hash, w.expiresAt, now) else before
  }

  lemma {:induction false} WrittenKeepsOneUnused(kind: T.Kind, tokens: seq<T.Token>, writes: seq<Write>, now: Time)
    requires T.OneUnused(tokens)
    ensures T.OneUnused(Written(kind, tokens, writes, now))
  {
    if writes != [] {
      WrittenKeepsOneUnused(kind, tokens, writes[..|writes| - 1], now);
    }
  }

  lemma KeepsOneUnused(verification: seq<T.Token>, reset: seq<T.Token>, ending: Ending, now: Time)
    ensures forall writes :: writes == [] || (ending.Works? && writes == ending.writes) ==>
              && (T.OneUnused(verification) ==>
                    T.OneUnused(Written(T.Kind.EMAIL_VERIFICATION, verification, writes, now)))
              && (T.OneUnused(reset) ==> T.OneUnused(Written(T.Kind.PASSWORD_RESET, reset, writes, now)))
  {
    if ending.Works? {
      if T.OneUnused(verification) {
        WrittenKeepsOneUnused(T.Kind.EMAIL_VERIFICATION, verification, ending.writes, now);
      }
      if T.OneUnused(reset) {
        WrittenKeepsOneUnused(T.Kind.PASSWORD_RESET, reset, ending.writes, now);
      }
    }
  }

  class FakeOutbox {
    var entries: seq<Entry>
    const tokens: T.TokenStore

    constructor (tokens: T.TokenStore)
      ensures entries == [] && this.tokens == tokens
    {
      entries := [];
      this.tokens := tokens;
    }

    method Enqueue(id: EntryId, kind: Kind, user: T.UserId, now: Time)
      requires Distinct(entries) && forall i :: 0 <= i < |entries| ==> entries[i].id != id
      modifies `entries
      ensures Distinct(entries) && entries == old(entries) + [Entry(id, kind, user, now, None)]
    {
      entries := entries + [Entry(id, kind, user, now, None)];
    }

    /** filter, sort and take the first, as one pass. */
    method Oldest(exclude: seq<EntryId>) returns (k: nat)
      requires Distinct(entries)
      ensures k <= |entries|
      ensures k < |entries| ==> IsOldest(entries, exclude, k)
      ensures k == |entries| ==> forall i :: 0 <= i < |entries| ==> !Pending(entries[i], exclude)
    {
      k := |entries|;
      for i := 0 to |entries|
        invariant k == |entries| || k < i
        invariant k == |entries| ==> forall j :: 0 <= j < i ==> !Pending(entries[j], exclude)
        invariant k < |entries| ==> Pending(entries[k], exclude)
        invariant k < |entries| ==>
                    forall j :: 0 <= j < i && Pending(entries[j], exclude) && j != k ==> Earlier(entries[k], entries[j])
      {
        if Pending(entries[i], exclude) && (k == |entries| || Earlier(entries[i], entries[k])) {
          k := i;
        }
      }
    }

    method Apply(writes: seq<Write>, now: Time)
      modifies tokens`verification, tokens`reset
      ensures tokens.verification == Written(T.Kind.EMAIL_VERIFICATION, old(tokens.verification), writes, now)
      ensures tokens.reset == Written(T.Kind.PASSWORD_RESET, old(tokens.reset), writes, now)
    {
      for i := 0 to |writes|
        invariant tokens.verification == Written(T.Kind.EMAIL_VERIFICATION, old(tokens.verification), writes[..i], now)
        invariant tokens.reset == Written(T.Kind.PASSWORD_RESET, old(tokens.reset), writes[..i], now)
      {
        assert writes[..i + 1][..i] == writes[..i];
        var w := writes[i];
        match w.kind
        case EMAIL_VERIFICATION => tokens.ReplaceVerificationToken(w.user, w.hash, w.expiresAt, now);
        case PASSWORD_RESET => tokens.ReplaceResetToken(w.user, w.hash, w.expiresAt, now);
      }
      assert writes[..|writes|] == writes;
    }

    /**
     One entry: handled, and marked sent only if everything went well; otherwise as if nothing had
     been asked for. `attempted` is what the caller's handler was given.
     */
    method DispatchNext(exclude: seq<EntryId>, ending: Ending, now: Time)
      returns (handled: Result<bool, ()>, attempted: Option<EntryId>)
      requires Distinct(entries)
      modifies `entries, tokens`verification, tokens`reset
      ensures Distinct(entries)
      ensures ending.FailsBefore? ==> handled.Failure? && attempted.None?
      ensures attempted.None? ==> entries == old(entries)
      ensures attempted.None? && !ending.FailsBefore? ==>
                && handled == Success(false)
                && forall i :: 0 <= i < |entries| ==> !Pending(entries[i], exclude)
      ensures attempted.Some? ==>
                && IsNext(old(entries), exclude, attempted.value)
                && handled == (if ending.Works? then Success(true) else Failure(()))
                && Marked(old(entries), entries, if ending.Works? then [attempted.value] else [], now)
      ensures var writes := if ending.Works? && attempted.Some? then ending.writes else [];
              && tokens.verification == Written(T.Kind.EMAIL_VERIFICATION, old(tokens.verification), writes, now)
              && tokens.reset == Written(T.Kind.PASSWORD_RESET, old(tokens.reset), writes, now)
    {
      if ending.FailsBefore? {
        return Failure(()), None;
      }
      var k := Oldest(exclude);
      if k == |entries| {
        return Success(false), None;
      }
      attempted := Some(entries[k].id);
      if ending.FailsHandling? || ending.FailsCommitting? {
        return Failure(()), attempted;
      }
      Apply(ending.writes, now);
      entries := entries[k := entries[k].(sentAt := Some(now))];
      return Success(true), attempted;
    }

    /**
     dispatchPendingEmails. Whatever goes wrong, no entry is tried twice, the oldest are tried first,
     exactly those that went out are marked sent, and no more than `limit` calls are made; a run that
     makes fewer has tried every entry that was pending.
     */
    method DispatchPendingEmails(limit: nat, endings: seq<Ending>, now: Time)
      returns (sent: nat, failed: nat, attempted: seq<EntryId>, ghost out: seq<EntryId>)
      requires Distinct(entries) && |endings| >= limit
      modifies `entries, tokens`verification, tokens`reset
      ensures Distinct(entries) && sent + failed <= limit
      ensures NoneTwice(attempted) && OldestFirst(old(entries), attempted) && |attempted| <= sent + failed
      ensures |out| == sent && NoneTwice(out) && (forall id :: id in out ==> id in attempted)
      ensures Marked(old(entries), entries, out, now)
      ensures sent + failed < limit ==>
                forall i :: 0 <= i < |entries| ==> !Pending(old(entries)[i], attempted)
      ensures (forall i :: 0 <= i < limit ==> !endings[i].FailsBefore?) ==> |attempted| == sent + failed
      ensures old(T.OneUnused(tokens.verification)) ==> T.OneUnused(tokens.verification)
      ensures old(T.OneUnused(tokens.reset)) ==> T.OneUnused(tokens.reset)
    {
      sent, failed, attempted, out := 0, 0, [], [];
      ghost var start := entries;
      while sent + failed < limit
        invariant sent + failed <= limit && |attempted| <= sent + failed
        invariant Distinct(entries) && Marked(start, entries, out, now)
        invariant NoneTwice(attempted) && OldestFirst(start, attempted)
        invariant |out| == sent && NoneTwice(out) && forall id :: id in out ==> id in attempted
        invariant (forall i :: 0 <= i < sent + failed ==> !endings[i].FailsBefore?) ==> |attempted| == sent + failed
        invariant old(T.OneUnused(tokens.verification)) ==> T.OneUnused(tokens.verification)
        invariant old(T.OneUnused(tokens.reset)) ==> T.OneUnused(tokens.reset)
        decreases limit - sent - failed
      {
        ghost var before := entries;
        KeepsOneUnused(tokens.verification, tokens.reset, endings[sent + failed], now);
        var handled, id := DispatchNext(attempted, endings[sent + failed], now);
        if id.Some? {
          SameNext(start, before, out, attempted, now, id.value);
          NextIsNew(start, attempted, id.value);
          MarkedMore(start, before, entries, out, if handled.Success? then [id.value] else [], now);
          attempted := attempted + [id.value];
        }
        if handled == Success(false) {
          SameNext(start, before, out, attempted, now, 0);
          break;
        }
        if handled.Success? {
          out := out + [id.value];
          sent := sent + 1;
        } else {
          failed := failed + 1;
        }
      }
    }
  }
}
