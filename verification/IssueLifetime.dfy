/** One limiter object with both things it stores (docs/worker.ts): the window of allowed requests, whose alarm deletes
    everything, and the drafts. A draft is stored by a handler that was allowed a request some time before. */
module IssueLifetime {
  import opened Common
  import opened IssueDrafts
  import opened IssueLimiter
  import W = IssueWindow

  const DRAFT_TTL: nat := 30 * 60 * 1000

  datatype Object = Object(store: W.Store, drafts: map<string, Record>)

  const EMPTY := Object(W.EMPTY, map[])

  datatype Event =
    | Consume(now: int)
    | Create(id: string, allowedAt: int, now: int, images: nat)
    | Claim(id: string, now: int)
    | Release(id: string)
    | Complete(id: string, issue: Issue, now: int)
    | Alarm(now: int)

  function Stored(o: Object, id: string): Option<Record> {
    if id in o.drafts then Some(o.drafts[id]) else None
  }

  function Put(o: Object, id: string, record: Option<Record>): Object {
    o.(drafts := if record.Some? then o.drafts[id := record.value] else o.drafts - {id})
  }

  function NewDraft(now: int, images: nat): Record {
    Record(Ready, now + DRAFT_TTL, None, None, images)
  }

  /** A handler stores a draft after a request that was allowed; the window and its alarm keep to their own times. */
  predicate Feasible(o: Object, e: Event) {
    match e
    case Consume(now) => W.Feasible(o.store, W.Request(now))
    case Alarm(now) => W.Feasible(o.store, W.Alarm(now))
    case Create(_, allowedAt, now, _) => allowedAt in o.store.allowed && allowedAt <= now
    case Complete(_, issue, _) => Usable(issue)
    case _ => true
  }

  function Step(o: Object, e: Event): Object
    requires Feasible(o, e)
  {
    match e
    case Consume(now) => o.(store := W.Step(o.store, W.Request(now)))
    case Alarm(now) => Object(W.Step(o.store, W.Alarm(now)), map[])
    case Create(id, _, now, images) => Put(o, id, Some(NewDraft(now, images)))
    case Claim(id, now) => Put(o, id, ClaimOf(Stored(o, id), now).1)
    case Release(id) => Put(o, id, ReleaseOf(Stored(o, id)))
    case Complete(id, issue, now) => Put(o, id, CompleteOf(Stored(o, id), issue, now))
  }

  predicate AllFeasible(o: Object, events: seq<Event>)
    decreases |events|
  {
    events == [] || (Feasible(o, events[0]) && AllFeasible(Step(o, events[0]), events[1..]))
  }

  function Play(o: Object, events: seq<Event>): Object
    requires AllFeasible(o, events)
    decreases |events|
  {
    if events == [] then o else Play(Step(o, events[0]), events[1..])
  }

  /** Drafts are stored within `delay` of the request they were allowed by. */
  predicate Prompt(events: seq<Event>, delay: nat) {
    forall i :: 0 <= i < |events| && events[i].Create? ==> events[i].now <= events[i].allowedAt + delay
  }

  // ---- what every run keeps ----

  /** A draft that was not submitted expires within a bounded time of the last allowed request. */
  predicate Bounded(allowed: seq<int>, draft: Record, delay: nat) {
    || Finished(draft)
    || (!draft.status.Submitted? && allowed != [] && draft.expiresAt <= Last(allowed) + delay + DRAFT_TTL)
  }

  predicate Finished(draft: Record) {
    draft.status.Submitted? && draft.issue.Some? && Usable(draft.issue.value)
  }

  ghost predicate Inv(o: Object, delay: nat) {
    W.Inv(o.store) && forall id :: id in o.drafts ==> Bounded(o.store.allowed, o.drafts[id], delay)
  }

  lemma {:induction false} NotAfterLast(allowed: seq<int>, time: int)
    requires Sorted(allowed) && time in allowed
    ensures allowed != [] && time <= Last(allowed)
    decreases |allowed|
  {
    if time != Last(allowed) {
      NotAfterLast(Init(allowed), time);
    }
  }

  lemma LastGrows(s: W.Store, now: int)
    requires W.Inv(s) && W.Feasible(s, W.Request(now)) && s.allowed != []
    ensures var allowed := W.Step(s, W.Request(now)).allowed; allowed != [] && Last(s.allowed) <= Last(allowed)
  {
  }

  lemma StepKeepsInv(o: Object, e: Event, delay: nat)
    requires Inv(o, delay) && Feasible(o, e) && (e.Create? ==> e.now <= e.allowedAt + delay)
    ensures Inv(Step(o, e), delay)
  {
    match e
    case Consume(now) =>
      W.RequestKeepsInv(o.store, now);
      if o.store.allowed != [] {
        LastGrows(o.store, now);
      }
    case Alarm(now) => W.AlarmKeepsInv(o.store, now);
    case Create(_, allowedAt, _, _) => NotAfterLast(o.store.allowed, allowedAt);
    case Claim(id, _) => assert id in o.drafts ==> Bounded(o.store.allowed, o.drafts[id], delay);
    case Release(id) => assert id in o.drafts ==> Bounded(o.store.allowed, o.drafts[id], delay);
    case Complete(id, _, _) =>
  }

  lemma {:induction false} PlayKeepsInv(o: Object, events: seq<Event>, delay: nat)
    requires Inv(o, delay) && AllFeasible(o, events) && Prompt(events, delay)
    ensures Inv(Play(o, events), delay)
    decreases |events|
  {
    if events != [] {
      StepKeepsInv(o, events[0], delay);
      PlayKeepsInv(Step(o, events[0]), events[1..], delay);
    }
  }

  // ---- the alarm and the drafts ----

  /** An alarm of the run deletes a draft that was neither submitted nor has expired. */
  predicate LosesDraft(o: Object, events: seq<Event>)
    requires AllFeasible(o, events)
    decreases |events|
  {
    events != [] && (LosesNow(o, events[0]) || LosesDraft(Step(o, events[0]), events[1..]))
  }

  predicate LosesNow(o: Object, e: Event) {
    e.Alarm? && exists id :: id in o.drafts && Live(o.drafts[id], e.now)
  }

  predicate Live(draft: Record, now: int) {
    !draft.status.Submitted? && draft.expiresAt > now
  }

  lemma AlarmLosesNothing(o: Object, e: Event, delay: nat)
    requires Inv(o, delay) && Feasible(o, e) && delay <= DRAFT_TTL + W.ALARM_SLACK
    ensures !LosesNow(o, e)
  {
    if e.Alarm? {
      forall id | id in o.drafts
        ensures !Live(o.drafts[id], e.now)
      {
        assert Bounded(o.store.allowed, o.drafts[id], delay);
      }
    }
  }

  lemma {:induction false} PromptLosesNothing(o: Object, events: seq<Event>, delay: nat)
    requires Inv(o, delay) && AllFeasible(o, events) && Prompt(events, delay) && delay <= DRAFT_TTL + W.ALARM_SLACK
    ensures !LosesDraft(o, events)
    decreases |events|
  {
    if events != [] {
      AlarmLosesNothing(o, events[0], delay);
      StepKeepsInv(o, events[0], delay);
      PromptLosesNothing(Step(o, events[0]), events[1..], delay);
    }
  }

  /** A draft stored too late after its request. */
  const LATE: seq<Event> := [Consume(1), Create("x", 1, DRAFT_TTL + W.ALARM_SLACK + 2, 0), Alarm(1 + W.WINDOW + W.ALARM_SLACK)]

  lemma LateLosesDraft()
    ensures AllFeasible(EMPTY, LATE) && Prompt(LATE, DRAFT_TTL + W.ALARM_SLACK + 1) && LosesDraft(EMPTY, LATE)
  {
    var first := Object(W.Store([1], Some(1 + W.WINDOW + W.ALARM_SLACK), 1, [1]), map[]);
    assert Step(EMPTY, LATE[0]) == first;
    var draft := NewDraft(DRAFT_TTL + W.ALARM_SLACK + 2, 0);
    var second := first.(drafts := map["x" := draft]);
    assert Step(first, LATE[1]) == second;
    assert "x" in second.drafts && second.drafts["x"] == draft;
    assert LosesNow(second, LATE[2]);
    assert LATE[1..][1..] == LATE[2..] && LATE[2..][1..] == [];
    assert AllFeasible(second, LATE[2..]) && LosesDraft(second, LATE[2..]);
  }

  ghost predicate NeverLoses(delay: nat) {
    forall events :: AllFeasible(EMPTY, events) && Prompt(events, delay) ==> !LosesDraft(EMPTY, events)
  }

  /** The alarm deletes no live draft in any run exactly when every draft is stored within thirty minutes and one second
      of its request. */
  lemma NeverLosesIff(delay: nat)
    ensures NeverLoses(delay) <==> delay <= 1801000
  {
    if delay <= DRAFT_TTL + W.ALARM_SLACK {
      forall events | AllFeasible(EMPTY, events) && Prompt(events, delay)
        ensures !LosesDraft(EMPTY, events)
      {
        EmptyInv(delay);
        PromptLosesNothing(EMPTY, events, delay);
      }
    } else {
      LateLosesDraft();
      assert Prompt(LATE, delay);
    }
  }

  lemma EmptyInv(delay: nat)
    ensures Inv(EMPTY, delay)
  {
  }

  // ---- found until it expires ----

  /** Before `end` nobody completes the draft, stores another one in its place, or looks for it later than that. */
  predicate Quiet(e: Event, id: string, end: int) {
    match e
    case Alarm(now) => now < end
    case Claim(other, now) => other == id ==> now < end
    case Create(other, _, _, _) => other != id
    case Complete(other, _, _) => other != id
    case _ => true
  }

  predicate Waiting(o: Object, id: string, end: int) {
    id in o.drafts && !o.drafts[id].status.Submitted? && o.drafts[id].expiresAt == end
  }

  lemma StepKeepsDraft(o: Object, e: Event, id: string, end: int, delay: nat)
    requires Inv(o, delay) && Feasible(o, e) && delay <= DRAFT_TTL + W.ALARM_SLACK && Waiting(o, id, end) && Quiet(e, id, end)
    ensures Waiting(Step(o, e), id, end)
  {
    AlarmLosesNothing(o, e, delay);
    assert e.Alarm? ==> Live(o.drafts[id], e.now);
  }

  lemma {:induction false} KeepsWaiting(o: Object, events: seq<Event>, id: string, end: int, delay: nat)
    requires Inv(o, delay) && AllFeasible(o, events) && Prompt(events, delay) && delay <= DRAFT_TTL + W.ALARM_SLACK
    requires Waiting(o, id, end) && forall i :: 0 <= i < |events| ==> Quiet(events[i], id, end)
    ensures Waiting(Play(o, events), id, end)
    decreases |events|
  {
    if events != [] {
      StepKeepsDraft(o, events[0], id, end, delay);
      StepKeepsInv(o, events[0], delay);
      KeepsWaiting(Step(o, events[0]), events[1..], id, end, delay);
    }
  }

  /** Through releases, claims of its own and of other drafts, further requests and the alarm, a draft that was stored
      in time, and is not submitted, is found until it expires: whatever happened before it was stored. */
  lemma FoundUntilItExpires(before: seq<Event>, create: Event, after: seq<Event>, delay: nat)
    requires delay <= DRAFT_TTL + W.ALARM_SLACK && AllFeasible(EMPTY, before) && Prompt(before, delay)
    requires create.Create? && Feasible(Play(EMPTY, before), create) && create.now <= create.allowedAt + delay
    requires AllFeasible(Step(Play(EMPTY, before), create), after) && Prompt(after, delay)
    requires forall i :: 0 <= i < |after| ==> Quiet(after[i], create.id, create.now + DRAFT_TTL)
    ensures Waiting(Play(Step(Play(EMPTY, before), create), after), create.id, create.now + DRAFT_TTL)
  {
    EmptyInv(delay);
    PlayKeepsInv(EMPTY, before, delay);
    StepKeepsInv(Play(EMPTY, before), create, delay);
    KeepsWaiting(Step(Play(EMPTY, before), create), after, create.id, create.now + DRAFT_TTL, delay);
  }

  /** A submitted draft is not so safe: the alarm of the request that allowed it deletes it before the expiresAt that
      complete wrote, and a later claim is answered as if it had never been. */
  lemma SubmittedIsLost(issue: Issue) returns (events: seq<Event>, alarm: int)
    requires Usable(issue)
    ensures AllFeasible(EMPTY, events) && Prompt(events, 0) && "x" in Play(EMPTY, events).drafts
    ensures var o := Play(EMPTY, events);
      && o.drafts["x"].status.Submitted? && o.drafts["x"].expiresAt > alarm
      && Feasible(o, Alarm(alarm)) && ClaimOf(Stored(Step(o, Alarm(alarm)), "x"), alarm).0 == Missing
      && ClaimOf(Stored(o, "x"), alarm).0 == Completed(issue)
  {
    alarm := 1 + W.WINDOW + W.ALARM_SLACK;
    var sent := W.ALARM_SLACK + 2;
    events := [Consume(1), Create("x", 1, 1, 0), Complete("x", issue, sent)];
    var first := Object(W.Store([1], Some(alarm), 1, [1]), map[]);
    assert Step(EMPTY, events[0]) == first;
    var second := first.(drafts := map["x" := NewDraft(1, 0)]);
    assert Step(first, events[1]) == second;
    var third := Step(second, events[2]);
    assert events[2..][1..] == [] && AllFeasible(third, []) && Play(third, []) == third;
    assert AllFeasible(second, events[2..]) && Play(second, events[2..]) == third;
    assert events[1..][1..] == events[2..];
    assert AllFeasible(first, events[1..]) && Play(first, events[1..]) == third;
    assert third.drafts["x"] == Record(Submitted, sent + IssueDrafts.WINDOW, None, Some(issue), 0);
  }
}
