/** Any number of submit handlers at work on one draft, step by step (handleIssueSubmit in docs/worker.ts). */
module IssueSubmit {
  import opened Common
  import opened IssueDrafts

  /** Where a handler stands. A claim is sent with the time at which the handler read the clock. */
  datatype Pc =
    | Start
    | Asked(now: int)
    | Holding(claimedAt: int)
    | Failing(claimedAt: int)
    | Created(claimedAt: int, issue: Issue)
    | Answered(answer: Claim)
    | Over

  /** A handler between the grant of its claim and the arrival of its complete or release call. */
  predicate Active(pc: Pc) {
    pc.Holding? || pc.Failing? || pc.Created?
  }

  /** The stored record of the draft, the handlers, the clock, and the GitHub issues made from the draft. */
  datatype State = State(record: Option<Record>, handlers: map<nat, Pc>, clock: int, issues: seq<Issue>)

  datatype Event =
    | Tick(delay: nat)
    | Ask(h: nat)
    | ClaimArrives(h: nat)
    | Fail(h: nat)
    | CreateIssue(h: nat, issue: Issue)
    | ReleaseArrives(h: nat)
    | ReleaseLost(h: nat)
    | CompleteArrives(h: nat, sentAt: int)
    | CompleteLost(h: nat)
    | CleanUp

  predicate Enabled(s: State, e: Event) {
    match e
    case Tick(_) => true
    case CleanUp => true
    case Ask(h) => h in s.handlers && s.handlers[h].Start?
    case ClaimArrives(h) => h in s.handlers && s.handlers[h].Asked?
    case Fail(h) => h in s.handlers && s.handlers[h].Holding?
    case CreateIssue(h, issue) => h in s.handlers && s.handlers[h].Holding? && Usable(issue)
    case ReleaseArrives(h) => h in s.handlers && s.handlers[h].Failing?
    case ReleaseLost(h) => h in s.handlers && s.handlers[h].Failing?
    case CompleteArrives(h, sentAt) => h in s.handlers && s.handlers[h].Created? && Usable(s.handlers[h].issue)
    case CompleteLost(h) => h in s.handlers && s.handlers[h].Created?
  }

  /** What the answer to a claim means for its handler. */
  function AfterClaim(answer: Claim, now: int): Pc {
    if answer.Claimed? then Holding(now) else Answered(answer)
  }

  function Next(s: State, e: Event): State
    requires Enabled(s, e)
  {
    match e
    case Tick(delay) => s.(clock := s.clock + delay)
    case CleanUp => s.(record := None)
    case Ask(h) => s.(handlers := s.handlers[h := Asked(s.clock)])
    case ClaimArrives(h) =>
      var now := s.handlers[h].now;
      var (answer, record) := ClaimOf(s.record, now);
      s.(record := record, handlers := s.handlers[h := AfterClaim(answer, now)])
    case Fail(h) => s.(handlers := s.handlers[h := Failing(s.handlers[h].claimedAt)])
    case CreateIssue(h, issue) =>
      s.(handlers := s.handlers[h := Created(s.handlers[h].claimedAt, issue)], issues := s.issues + [issue])
    case ReleaseArrives(h) => s.(record := ReleaseOf(s.record), handlers := s.handlers[h := Over])
    case ReleaseLost(h) => s.(handlers := s.handlers[h := Over])
    case CompleteArrives(h, sentAt) =>
      s.(record := CompleteOf(s.record, s.handlers[h].issue, sentAt), handlers := s.handlers[h := Over])
    case CompleteLost(h) => s.(handlers := s.handlers[h := Over])
  }

  /** No claim has run out on a handler that still holds it. */
  ghost predicate Timely(s: State) {
    forall h :: h in s.handlers && Active(s.handlers[h]) ==> s.clock < s.handlers[h].claimedAt + CLAIM_TTL
  }

  /** A run whose events can happen, in which no claim runs out on its holder and no complete call is lost. */
  ghost predicate Orderly(s: State, events: seq<Event>)
    decreases |events|
  {
    events == [] ||
    (&& Enabled(s, events[0]) && !events[0].CompleteLost? && Timely(Next(s, events[0]))
     && Orderly(Next(s, events[0]), events[1..]))
  }

  ghost function Run(s: State, events: seq<Event>): State
    requires Orderly(s, events)
    decreases |events|
  {
    if events == [] then s else Run(Next(s, events[0]), events[1..])
  }

  /** A draft that was just stored, and handlers that have not begun. */
  ghost predicate Initial(s: State) {
    && s.record.Some? && s.record.value.status.Ready? && s.record.value.issue.None? && s.record.value.claimExpiresAt.None?
    && s.issues == []
    && forall h :: h in s.handlers ==> s.handlers[h].Start?
  }

  // ---- what every orderly run keeps ----

  ghost predicate OneHolder(s: State) {
    forall g, h :: g in s.handlers && h in s.handlers && Active(s.handlers[g]) && Active(s.handlers[h]) ==> g == h
  }

  /** A holder's draft is held for it, or gone for good. */
  ghost predicate Held(s: State) {
    forall h :: h in s.handlers && Active(s.handlers[h]) ==>
      s.record.None?
      || (s.record.value.status.Submitting? && s.record.value.claimExpiresAt == Some(s.handlers[h].claimedAt + CLAIM_TTL))
  }

  /** Handlers do not ask in the future, and one that may still create an issue is the first. */
  ghost predicate Honest(s: State) {
    forall h :: h in s.handlers ==>
      match s.handlers[h]
      case Asked(now) => now <= s.clock
      case Holding(_) => s.issues == []
      case Failing(_) => s.issues == []
      case Created(_, issue) => s.issues == [issue] && Usable(issue)
      case _ => true
  }

  ghost predicate IsCreator(s: State, h: nat) {
    h in s.handlers && s.handlers[h].Created?
  }

  /** The one issue is in the record, or its creator is about to put it there, or the record is gone. */
  ghost predicate Accounted(s: State) {
    && |s.issues| <= 1
    && (s.record.Some? && s.record.value.status.Submitted?
        ==> |s.issues| == 1 && s.record.value.issue == Some(s.issues[0]) && Usable(s.issues[0]))
    && (s.record.Some? && !s.record.value.status.Submitted? && s.issues != []
        ==> exists h :: IsCreator(s, h))
  }

  ghost predicate Inv(s: State) {
    OneHolder(s) && Held(s) && Honest(s) && Accounted(s)
  }

  /** A claim is granted only while nobody holds the draft and no issue was made from it. */
  lemma GrantIsFirst(s: State, now: int)
    requires Inv(s) && Timely(s) && now <= s.clock && ClaimOf(s.record, now).0.Claimed?
    ensures s.issues == [] && forall g :: g in s.handlers ==> !Active(s.handlers[g])
  {
  }

  lemma ClaimKeepsInv(s: State, h: nat)
    requires Inv(s) && Timely(s) && Enabled(s, ClaimArrives(h))
    ensures Inv(Next(s, ClaimArrives(h)))
  {
    var now := s.handlers[h].now;
    if ClaimOf(s.record, now).0.Claimed? {
      GrantIsFirst(s, now);
    } else {
      CreatorStays(s, ClaimArrives(h));
    }
  }

  /** The creator of the issue stays until its complete call arrives. */
  lemma CreatorStays(s: State, e: Event)
    requires Enabled(s, e) && Inv(s) && !e.CompleteLost? && !e.CompleteArrives?
    ensures s.record.Some? && !s.record.value.status.Submitted? && s.issues != [] ==> exists h :: IsCreator(Next(s, e), h)
  {
    if s.record.Some? && !s.record.value.status.Submitted? && s.issues != [] {
      var h :| IsCreator(s, h);
      assert IsCreator(Next(s, e), h);
    }
  }

  lemma StepKeepsInv(s: State, e: Event)
    requires Inv(s) && Timely(s) && Enabled(s, e) && !e.CompleteLost?
    ensures Inv(Next(s, e))
  {
    match e
    case ClaimArrives(h) => ClaimKeepsInv(s, h);
    case CreateIssue(h, _) => assert IsCreator(Next(s, e), h);
    case CompleteArrives(_, _) =>
    case _ => CreatorStays(s, e);
  }

  lemma {:induction false} RunKeepsInv(s: State, events: seq<Event>)
    requires Inv(s) && Timely(s) && Orderly(s, events)
    ensures Inv(Run(s, events)) && Timely(Run(s, events))
    decreases |events|
  {
    if events != [] {
      StepKeepsInv(s, events[0]);
      RunKeepsInv(Next(s, events[0]), events[1..]);
    }
  }

  /** However many handlers work on a draft and however their steps interleave, an orderly run makes at most
      one issue from it. */
  lemma AtMostOneIssue(s: State, events: seq<Event>)
    requires Initial(s) && Orderly(s, events)
    ensures |Run(s, events).issues| <= 1
  {
    RunKeepsInv(s, events);
  }

  /** Once the issue is made, no claim is granted any more: an answer names that issue, or says that the draft
      is gone or that its submission is under way. */
  lemma NoClaimAfterTheIssue(s: State, events: seq<Event>, h: nat)
    requires Initial(s) && Orderly(s, events) && Run(s, events).issues != []
    requires Enabled(Run(s, events), ClaimArrives(h))
    ensures var end := Run(s, events);
      Next(end, ClaimArrives(h)).handlers[h] in
        {Answered(Completed(end.issues[0])), Answered(Missing), Answered(Expired), Answered(Busy)}
  {
    RunKeepsInv(s, events);
    var end := Run(s, events);
    var now := end.handlers[h].now;
    if ClaimOf(end.record, now).0.Claimed? {
      GrantIsFirst(end, now);
    }
  }

  /** Once the complete call has arrived at a stored draft, every answer names the issue until the clean-up. */
  lemma CompletedAnswersTheIssue(s: State, h: nat, sentAt: int, now: int)
    requires Enabled(s, CompleteArrives(h, sentAt)) && s.record.Some?
    ensures ClaimOf(Next(s, CompleteArrives(h, sentAt)).record, now)
         == (Completed(s.handlers[h].issue), Next(s, CompleteArrives(h, sentAt)).record)
  {
  }

  // ---- who gets the draft ----

  /** The stored draft is the one that was stored first: it has its images, until it is submitted its end, and a claim
      exactly while it is under submission. */
  ghost predicate SameDraft(first: Record, s: State) {
    s.record.Some? ==>
      && var draft := s.record.value;
      && draft.images == first.images
      && (!draft.status.Submitted? ==> draft.expiresAt == first.expiresAt && draft.issue.None?)
      && (draft.claimExpiresAt.Some? <==> draft.status.Submitting?)
  }

  ghost predicate HeldBy(s: State, h: nat) {
    h in s.handlers && Active(s.handlers[h])
  }

  /** A draft is under submission only for a handler that holds it. */
  ghost predicate HasHolder(s: State) {
    s.record.Some? && s.record.value.status.Submitting? ==> exists h :: HeldBy(s, h)
  }

  lemma StepKeepsDraft(first: Record, s: State, e: Event)
    requires Inv(s) && Timely(s) && Enabled(s, e) && SameDraft(first, s)
    ensures SameDraft(first, Next(s, e))
  {
  }

  /** The holder stays until its call arrives, which ends the submission. */
  lemma StepKeepsHolder(s: State, e: Event)
    requires Inv(s) && Timely(s) && Enabled(s, e) && !e.CompleteLost? && !e.ReleaseLost? && HasHolder(s)
    ensures HasHolder(Next(s, e))
  {
    var s' := Next(s, e);
    if s'.record.Some? && s'.record.value.status.Submitting? {
      if e.ClaimArrives? && s'.handlers[e.h].Holding? {
        assert HeldBy(s', e.h);
      } else {
        var h :| HeldBy(s, h);
        assert HeldBy(s', h);
      }
    }
  }

  lemma {:induction false} RunKeepsDraft(first: Record, s: State, events: seq<Event>)
    requires Inv(s) && Timely(s) && Orderly(s, events) && SameDraft(first, s)
    ensures SameDraft(first, Run(s, events))
    decreases |events|
  {
    if events != [] {
      StepKeepsInv(s, events[0]);
      StepKeepsDraft(first, s, events[0]);
      RunKeepsDraft(first, Next(s, events[0]), events[1..]);
    }
  }

  predicate NoReleaseLost(events: seq<Event>) {
    forall i :: 0 <= i < |events| ==> !events[i].ReleaseLost?
  }

  lemma {:induction false} RunKeepsHolder(s: State, events: seq<Event>)
    requires Inv(s) && Timely(s) && Orderly(s, events) && NoReleaseLost(events) && HasHolder(s)
    ensures HasHolder(Run(s, events))
    decreases |events|
  {
    if events != [] {
      StepKeepsInv(s, events[0]);
      StepKeepsHolder(s, events[0]);
      RunKeepsHolder(Next(s, events[0]), events[1..]);
    }
  }

  /** The draft is handed over for submission, with its images and its end, for two minutes from `now` on. */
  predicate Granted(first: Record, now: int, answer: Claim, record: Option<Record>) {
    && answer.Claimed? && record == Some(answer.draft)
    && answer.draft == Record(Submitting, first.expiresAt, Some(now + 120000), None, first.images)
  }

  /** Nobody holds the draft, or the holder's two minutes are over. */
  ghost predicate Open(s: State, now: int) {
    forall h :: HeldBy(s, h) ==> s.handlers[h].claimedAt + 120000 <= now
  }

  /** Every answer to a claim, in every orderly run in which no release call is lost: a draft that is gone is missing, a
      submitted one answers with its issue, an expired one is deleted, one that is held is busy, and any other is granted. */
  lemma AnswerIs(s: State, events: seq<Event>, now: int)
    requires Initial(s) && Orderly(s, events) && NoReleaseLost(events)
    ensures var end := Run(s, events);
      var (answer, record) := ClaimOf(end.record, now);
      if end.record.None? then answer == Missing && record.None?
      else if end.record.value.status.Submitted? then
        |end.issues| == 1 && answer == Completed(end.issues[0]) && record == end.record
      else if now >= s.record.value.expiresAt then answer == Expired && record.None?
      else if !Open(end, now) then answer == Busy && record == end.record
      else Granted(s.record.value, now, answer, record)
  {
    RunKeepsInv(s, events);
    RunKeepsDraft(s.record.value, s, events);
    RunKeepsHolder(s, events);
    var end := Run(s, events);
    if end.record.Some? && end.record.value.status.Submitting? {
      var h :| HeldBy(end, h);
    }
  }

  /** A failed submission gives the draft back: in every orderly run, once the holder's release call has arrived at the
      stored draft, a claim sent at `now` is granted if and only if the draft has not expired by then, and otherwise it
      is told so; the granted draft has the images and the end that it was stored with. */
  lemma ReleaseGivesBack(s: State, events: seq<Event>, h: nat, now: int)
    requires Initial(s) && Orderly(s, events)
    requires Enabled(Run(s, events), ReleaseArrives(h)) && Run(s, events).record.Some?
    ensures var released := Next(Run(s, events), ReleaseArrives(h)).record;
      var (answer, record) := ClaimOf(released, now);
      && released == Some(Record(Ready, s.record.value.expiresAt, None, None, s.record.value.images))
      && if now < s.record.value.expiresAt then Granted(s.record.value, now, answer, record) else answer == Expired && record.None?
  {
    RunKeepsInv(s, events);
    RunKeepsDraft(s.record.value, s, events);
  }

  /** And a successful one keeps it, for one hour from the call on, with the issue that was made from it. */
  lemma CompleteKeeps(s: State, events: seq<Event>, h: nat, sentAt: int)
    requires Initial(s) && Orderly(s, events)
    requires Enabled(Run(s, events), CompleteArrives(h, sentAt)) && Run(s, events).record.Some?
    ensures var end := Run(s, events);
      && end.issues == [end.handlers[h].issue]
      && Next(end, CompleteArrives(h, sentAt)).record
         == Some(Record(Submitted, sentAt + 3600000, None, Some(end.issues[0]), s.record.value.images))
  {
    RunKeepsInv(s, events);
    RunKeepsDraft(s.record.value, s, events);
  }

  // ---- both assumptions are needed ----

  /** Exactly when the protection fails: while a handler holds a stored draft, and likewise after its complete or
      release call was lost, a claim is granted if and only if it was sent after the holder's claim ran out and
      before the draft expires. */
  lemma SecondGrantIff(s: State, events: seq<Event>, h: nat, now: int)
    requires Initial(s) && Orderly(s, events)
    requires var end := Run(s, events); h in end.handlers && Active(end.handlers[h]) && end.record.Some?
    ensures var end := Run(s, events);
      && (ClaimOf(end.record, now).0.Claimed?
          <==> end.handlers[h].claimedAt + CLAIM_TTL <= now < end.record.value.expiresAt)
      && (end.handlers[h].Created? ==> Next(end, CompleteLost(h)).record == end.record)
      && (end.handlers[h].Failing? ==> Next(end, ReleaseLost(h)).record == end.record)
  {
    RunKeepsInv(s, events);
  }

  /** The end of a run whose events can happen, and in which, if so wished, no claim runs out on its holder. */
  ghost function Replay(s: State, events: seq<Event>, timely: bool): Option<State>
    decreases |events|
  {
    if timely && !Timely(s) then None
    else if events == [] then Some(s)
    else if !Enabled(s, events[0]) then None
    else Replay(Next(s, events[0]), events[1..], timely)
  }

  const FRESH := State(Some(Record(Ready, 30 * 60 * 1000, None, None, 0)), map[1 := Start, 2 := Start], 1, [])
  const ISSUE := Issue(1, "u")

  predicate NoneLost(events: seq<Event>) {
    forall i :: 0 <= i < |events| ==> !events[i].CompleteLost? && !events[i].ReleaseLost?
  }

  /** One more event at the end of a run. */
  lemma {:induction false} ReplaySnoc(start: State, events: seq<Event>, s: State, e: Event, timely: bool)
    requires Replay(start, events, timely) == Some(s) && Enabled(s, e) && (timely ==> Timely(Next(s, e)))
    ensures Replay(start, events + [e], timely) == Some(Next(s, e))
    decreases |events|
  {
    if events == [] {
      assert (events + [e])[1..] == [];
    } else {
      assert (events + [e])[1..] == events[1..] + [e];
      ReplaySnoc(Next(start, events[0]), events[1..], s, e, timely);
    }
  }

  lemma Then(events: seq<Event>, s: State, e: Event, timely: bool) returns (events': seq<Event>, s': State)
    requires Replay(FRESH, events, timely) == Some(s) && Enabled(s, e) && (timely ==> Timely(Next(s, e)))
    ensures s' == Next(s, e) && Replay(FRESH, events', timely) == Some(s')
    ensures NoneLost(events) && !e.CompleteLost? && !e.ReleaseLost? ==> NoneLost(events')
  {
    ReplaySnoc(FRESH, events, s, e, timely);
    events', s' := events + [e], Next(s, e);
  }

  /** The draft of FRESH under a claim. */
  function Taken(claimedAt: int): Option<Record> {
    Some(Record(Submitting, 30 * 60 * 1000, Some(claimedAt + CLAIM_TTL), None, 0))
  }

  lemma FirstClaim(timely: bool) returns (events: seq<Event>, end: State)
    ensures end == State(Taken(1), map[1 := Holding(1), 2 := Start], 1, [])
    ensures Replay(FRESH, events, timely) == Some(end) && NoneLost(events)
  {
    events, end := [], FRESH;
    events, end := Then(events, end, Ask(1), timely);
    events, end := Then(events, end, ClaimArrives(1), timely);
  }

  /** When a claim runs out on its holder, another handler makes a second issue, though no call was lost. */
  lemma SlowHolderMakesTwo() returns (events: seq<Event>, end: State)
    ensures Initial(FRESH) && Replay(FRESH, events, false) == Some(end) && |end.issues| == 2 && NoneLost(events)
  {
    events, end := FirstClaim(false);
    events, end := Then(events, end, Tick(CLAIM_TTL), false);
    events, end := Then(events, end, Ask(2), false);
    events, end := Then(events, end, ClaimArrives(2), false);
    assert end.handlers == map[1 := Holding(1), 2 := Holding(1 + CLAIM_TTL)] && end.issues == [];
    events, end := Then(events, end, CreateIssue(1, ISSUE), false);
    events, end := Then(events, end, CreateIssue(2, ISSUE), false);
  }

  /** When a complete call is lost, the draft can be submitted again, though every handler was in time. */
  lemma LostCompleteMakesTwo() returns (events: seq<Event>, end: State)
    ensures Initial(FRESH) && Replay(FRESH, events, true) == Some(end) && |end.issues| == 2
  {
    events, end := FirstCompleteLost();
    events, end := Then(events, end, Tick(CLAIM_TTL), true);
    events, end := Then(events, end, Ask(2), true);
    events, end := Then(events, end, ClaimArrives(2), true);
    assert end.handlers == map[1 := Over, 2 := Holding(1 + CLAIM_TTL)] && end.issues == [ISSUE];
    events, end := Then(events, end, CreateIssue(2, ISSUE), true);
  }

  lemma FirstCompleteLost() returns (events: seq<Event>, end: State)
    ensures end == State(Taken(1), map[1 := Over, 2 := Start], 1, [ISSUE])
    ensures Replay(FRESH, events, true) == Some(end)
  {
    events, end := FirstClaim(true);
    events, end := Then(events, end, CreateIssue(1, ISSUE), true);
    events, end := Then(events, end, CompleteLost(1), true);
  }
}
