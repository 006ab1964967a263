/** Stored issue drafts and who may submit them (docs/worker.ts): the claims that the limiter object grants and
    the steps of the submit handlers that hold them. */
module IssueDrafts {
  import opened Common

  const CLAIM_TTL := 2 * 60 * 1000
  const WINDOW := 60 * 60 * 1000

  datatype Status = Ready | Submitting | Submitted

  datatype Issue = Issue(number: int, url: string)

  datatype Record = Record(status: Status, expiresAt: int, claimExpiresAt: Option<int>, issue: Option<Issue>, images: nat)

  datatype Claim = Missing | Completed(issue: Issue) | Expired | Busy | Claimed(draft: Record)

  /** The answer to a claim and the stored record after it. */
  function ClaimOf(record: Option<Record>, now: int): (Claim, Option<Record>) {
    match record
    case None => (Missing, None)
    case Some(draft) =>
      if draft.status.Submitted? && draft.issue.Some? && Usable(draft.issue.value) then (Completed(draft.issue.value), record)
      else if draft.expiresAt <= now then (Expired, None)
      else if draft.status.Submitting? && (if draft.claimExpiresAt.Some? then draft.claimExpiresAt.value else 0) > now then
        (Busy, record)
      else
        var claimed := draft.(status := Submitting, claimExpiresAt := Some(now + CLAIM_TTL));
        (Claimed(claimed), Some(claimed))
  }

  function ReleaseOf(record: Option<Record>): Option<Record> {
    if record.Some? && record.value.status.Submitting? then
      Some(record.value.(status := Ready, claimExpiresAt := None))
    else record
  }

  predicate Usable(issue: Issue) {
    issue.number != 0 && issue.url != ""
  }

  function CompleteOf(record: Option<Record>, issue: Issue, now: int): Option<Record>
    requires Usable(issue)
  {
    if record.Some? then
      Some(record.value.(status := Submitted, claimExpiresAt := None, issue := Some(issue), expiresAt := now + WINDOW))
    else None
  }

  /** The drafts part of the limiter object. */
  class DraftStore {
    var drafts: map<string, Record>

    constructor ()
      ensures drafts == map[]
    {
      drafts := map[];
    }

    ghost function Stored(id: string): Option<Record>
      reads this
    {
      if id in drafts then Some(drafts[id]) else None
    }

    method Create(id: string, draft: Record)
      modifies this
      ensures Stored(id) == Some(draft)
      ensures forall other :: other != id ==> Stored(other) == old(Stored(other))
    {
      drafts := drafts[id := draft];
    }

    method Claim(id: string, now: int) returns (answer: Claim)
      modifies this
      ensures (answer, Stored(id)) == ClaimOf(old(Stored(id)), now)
      ensures forall other :: other != id ==> Stored(other) == old(Stored(other))
    {
      if id !in drafts {
        return Missing;
      }
      var draft := drafts[id];
      if draft.status.Submitted? && draft.issue.Some? && Usable(draft.issue.value) {
        return Completed(draft.issue.value);
      }
      if draft.expiresAt <= now {
        drafts := drafts - {id};
        return Expired;
      }
      if draft.status.Submitting? && (if draft.claimExpiresAt.Some? then draft.claimExpiresAt.value else 0) > now {
        return Busy;
      }
      var claimed := draft.(status := Submitting, claimExpiresAt := Some(now + CLAIM_TTL));
      drafts := drafts[id := claimed];
      return Claimed(claimed);
    }

    method Release(id: string)
      modifies this
      ensures Stored(id) == ReleaseOf(old(Stored(id)))
      ensures forall other :: other != id ==> Stored(other) == old(Stored(other))
    {
      if id in drafts && drafts[id].status.Submitting? {
        drafts := drafts[id := drafts[id].(status := Ready, claimExpiresAt := None)];
      }
    }

    method Complete(id: string, issue: Issue, now: int) returns (done: bool)
      modifies this
      ensures done <==> issue.number != 0 && issue.url != ""
      ensures Stored(id) == if done then CompleteOf(old(Stored(id)), issue, now) else old(Stored(id))
      ensures forall other :: other != id ==> Stored(other) == old(Stored(other))
    {
      if issue.number == 0 || issue.url == "" {
        return false;
      }
      if id in drafts {
        drafts := drafts[id := drafts[id].(status := Submitted, claimExpiresAt := None, issue := Some(issue),
                                           expiresAt := now + WINDOW)];
      }
      return true;
    }

    method DeleteAll()
      modifies this
      ensures forall id :: Stored(id) == None
    {
      drafts := map[];
    }
  }
}
