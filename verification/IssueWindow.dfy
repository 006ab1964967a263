/** The stored window of the limiter object (docs/worker.ts) over a run of requests and clean-up alarms. */
module IssueWindow {
  import opened Common
  import opened IssueLimiter

  const LIMIT: nat := 8
  const WINDOW: nat := 60 * 60 * 1000
  const ALARM_SLACK: nat := 1000

  /** What the object stores, and, for the proof, every time at which it allowed a request. */
  datatype Store = Store(rate: seq<int>, alarm: Option<int>, clock: int, allowed: seq<int>)

  datatype Event = Request(now: int) | Alarm(now: int)

  const EMPTY := Store([], None, 0, [])

  /** The limiter object: a request is one transaction on the stored window and sets the alarm behind it. */
  class Limiter {
    var rate: seq<int>
    var alarm: Option<int>
    ghost var clock: int
    ghost var allowed: seq<int>

    constructor ()
      ensures View() == EMPTY
    {
      rate, alarm, clock, allowed := [], None, 0, [];
    }

    ghost function View(): Store
      reads this
    {
      Store(rate, alarm, clock, allowed)
    }

    method Consume(now: int) returns (v: Verdict)
      modifies this
      ensures v == IssueLimiter.Consume(old(rate), now, LIMIT, WINDOW)
      ensures View() == Step(old(View()), Request(now))
    {
      v := ConsumeRollingLimit(rate, now, LIMIT, WINDOW);
      if v.allowed {
        rate := v.timestamps;
        allowed := allowed + [now];
      }
      if v.timestamps != [] && Last(v.timestamps) != 0 {
        alarm := Some(Last(v.timestamps) + WINDOW + ALARM_SLACK);
      }
      clock := now;
    }

    method DeleteAll(now: int)
      modifies this
      ensures View() == Step(old(View()), Alarm(now))
    {
      rate, alarm, clock := [], None, now;
    }
  }

  /** Time goes on, starts after zero, and an alarm does not go off early. */
  predicate Feasible(s: Store, e: Event) {
    e.now >= s.clock && e.now > 0 && (e.Alarm? ==> s.alarm.Some? && e.now >= s.alarm.value)
  }

  function Step(s: Store, e: Event): Store {
    match e
    case Alarm(now) => s.(rate := [], alarm := None, clock := now)
    case Request(now) =>
      var v := IssueLimiter.Consume(s.rate, now, LIMIT, WINDOW);
      Store(if v.allowed then v.timestamps else s.rate, AlarmAfter(v, s.alarm), now,
            if v.allowed then s.allowed + [now] else s.allowed)
  }

  function AlarmAfter(v: Verdict, alarm: Option<int>): Option<int> {
    if v.timestamps == [] || Last(v.timestamps) == 0 then alarm else Some(Last(v.timestamps) + WINDOW + ALARM_SLACK)
  }

  function Play(s: Store, events: seq<Event>): Store
    decreases |events|
  {
    if events == [] then s else Play(Step(s, events[0]), events[1..])
  }

  predicate AllFeasible(s: Store, events: seq<Event>)
    decreases |events|
  {
    events == [] || (Feasible(s, events[0]) && AllFeasible(Step(s, events[0]), events[1..]))
  }

  /** How many of the times lie in the window that ends at `to`. */
  function InWindow(times: seq<int>, to: int): nat {
    CountIn(times, to - WINDOW, to)
  }

  /** From now on the stored window stands for all allowed times; the alarm is set behind the last of them; and
      no window has more of them than the limit. */
  ghost predicate Inv(s: Store) {
    && Sorted(s.allowed)
    && (s.allowed != [] ==> 0 < Last(s.allowed) <= s.clock)
    && (forall now :: now >= s.clock ==> Active(s.rate, now, WINDOW) == Active(s.allowed, now, WINDOW))
    && (s.alarm.Some? ==> s.allowed != [] && s.alarm.value == Last(s.allowed) + WINDOW + ALARM_SLACK)
    && (forall to :: InWindow(s.allowed, to) <= LIMIT)
  }

  /** The verdict is the one that the history of all allowed times gives. */
  lemma VerdictOfHistory(s: Store, now: int)
    requires Inv(s) && now >= s.clock
    ensures var active := Active(s.allowed, now, WINDOW);
      && IssueLimiter.Consume(s.rate, now, LIMIT, WINDOW) == IssueLimiter.Consume(s.allowed, now, LIMIT, WINDOW)
      && Sort(active) == active && Sorted(active)
      && |active| == InWindow(s.allowed, now) <= LIMIT
      && (active != [] ==> s.allowed != [] && Last(active) == Last(s.allowed))
  {
    ActiveSorted(s.allowed, now, WINDOW);
    SortOfSorted(Active(s.allowed, now, WINDOW));
    CountLater(s.allowed, now, now, WINDOW);
    assert InWindow(s.allowed, now) <= LIMIT;
  }

  lemma AllowKeepsAgreement(s: Store, now: int, later: int)
    requires Inv(s) && now >= s.clock && later >= now
    ensures Active(Active(s.allowed, now, WINDOW) + [now], later, WINDOW) == Active(s.allowed + [now], later, WINDOW)
  {
    ActiveOfActive(s.allowed, now, later, WINDOW);
    Snoc(s.allowed, now);
    Snoc(Active(s.allowed, now, WINDOW), now);
  }

  lemma AllowKeepsCount(s: Store, now: int, to: int)
    requires Inv(s) && now >= s.clock && |Active(s.allowed, now, WINDOW)| < LIMIT
    ensures InWindow(s.allowed + [now], to) <= LIMIT
  {
    Snoc(s.allowed, now);
    assert InWindow(s.allowed, to) <= LIMIT;
    if now <= to {
      CountLater(s.allowed, now, to, WINDOW);
    }
  }

  lemma AllowKeepsInv(s: Store, now: int, active: seq<int>)
    requires Inv(s) && Feasible(s, Request(now)) && active == Active(s.allowed, now, WINDOW) && |active| < LIMIT
    ensures Inv(Store(active + [now], Some(now + WINDOW + ALARM_SLACK), now, s.allowed + [now]))
  {
    Snoc(s.allowed, now);
    forall later | later >= now
      ensures Active(active + [now], later, WINDOW) == Active(s.allowed + [now], later, WINDOW)
    {
      AllowKeepsAgreement(s, now, later);
    }
    forall to
      ensures InWindow(s.allowed + [now], to) <= LIMIT
    {
      AllowKeepsCount(s, now, to);
    }
  }

  /** What a request does to the store, in terms of the history. */
  lemma StepOfRequest(s: Store, now: int)
    requires Inv(s) && Feasible(s, Request(now))
    ensures var active := Active(s.allowed, now, WINDOW);
      Step(s, Request(now))
      == if |active| < LIMIT then Store(active + [now], Some(now + WINDOW + ALARM_SLACK), now, s.allowed + [now])
         else s.(alarm := Some(Last(active) + WINDOW + ALARM_SLACK), clock := now)
  {
    VerdictOfHistory(s, now);
    var active := Active(s.allowed, now, WINDOW);
    assert Active(s.rate, now, WINDOW) == active;
    Snoc(active, now);
  }

  lemma RequestKeepsInv(s: Store, now: int)
    requires Inv(s) && Feasible(s, Request(now))
    ensures Inv(Step(s, Request(now)))
  {
    var active := Active(s.allowed, now, WINDOW);
    StepOfRequest(s, now);
    if |active| < LIMIT {
      AllowKeepsInv(s, now, active);
    } else {
      VerdictOfHistory(s, now);
    }
  }

  lemma AlarmKeepsInv(s: Store, now: int)
    requires Inv(s) && Feasible(s, Alarm(now))
    ensures Inv(Step(s, Alarm(now)))
  {
    forall later | later >= now
      ensures Active([], later, WINDOW) == Active(s.allowed, later, WINDOW)
    {
      NoneActive(s.allowed, later, WINDOW);
    }
  }

  lemma {:induction false} PlayKeepsInv(s: Store, events: seq<Event>)
    requires Inv(s) && AllFeasible(s, events)
    ensures Inv(Play(s, events))
    decreases |events|
  {
    if events != [] {
      match events[0] {
        case Request(now) => RequestKeepsInv(s, now);
        case Alarm(now) => AlarmKeepsInv(s, now);
      }
      PlayKeepsInv(Step(s, events[0]), events[1..]);
    }
  }

  /** Over any run of requests and alarms, no window of an hour has more than eight allowed requests, wherever
      it lies. */
  lemma WindowNeverOverfull(events: seq<Event>, to: int)
    requires AllFeasible(EMPTY, events)
    ensures CountIn(Play(EMPTY, events).allowed, to - 3600000, to) <= 8
  {
    PlayKeepsInv(EMPTY, events);
    assert InWindow(Play(EMPTY, events).allowed, to) <= LIMIT;
  }

  /** After any run, a request is denied exactly when the window that ends with it is full of allowed ones. */
  lemma DeniedIffFull(events: seq<Event>, now: int)
    requires AllFeasible(EMPTY, events) && now >= Play(EMPTY, events).clock
    ensures var s := Play(EMPTY, events);
      !IssueLimiter.Consume(s.rate, now, LIMIT, WINDOW).allowed <==> CountIn(s.allowed, now - 3600000, now) == 8
  {
    PlayKeepsInv(EMPTY, events);
    VerdictOfHistory(Play(EMPTY, events), now);
  }

  /** The verdicts of a run, one per request. */
  function Verdicts(s: Store, events: seq<Event>): seq<Verdict>
    decreases |events|
  {
    if events == [] then []
    else
      var later := Verdicts(Step(s, events[0]), events[1..]);
      if events[0].Request? then [IssueLimiter.Consume(s.rate, events[0].now, LIMIT, WINDOW)] + later else later
  }

  /** The run without its alarms. */
  function Requests(events: seq<Event>): seq<Event> {
    if events == [] then []
    else if events[0].Request? then [events[0]] + Requests(events[1..])
    else Requests(events[1..])
  }

  /** Two stores with the same history answer a request alike and have the same history afterwards. */
  lemma SameHistory(s: Store, t: Store, now: int)
    requires Inv(s) && Inv(t) && s.allowed == t.allowed && Feasible(s, Request(now)) && t.clock <= now
    ensures IssueLimiter.Consume(s.rate, now, LIMIT, WINDOW) == IssueLimiter.Consume(t.rate, now, LIMIT, WINDOW)
    ensures Step(s, Request(now)).allowed == Step(t, Request(now)).allowed
    ensures Inv(Step(s, Request(now))) && Inv(Step(t, Request(now)))
  {
    VerdictOfHistory(s, now);
    VerdictOfHistory(t, now);
    RequestKeepsInv(s, now);
    RequestKeepsInv(t, now);
  }

  lemma {:induction false} AlarmsDoNotMatter(s: Store, t: Store, events: seq<Event>)
    requires Inv(s) && Inv(t) && s.allowed == t.allowed && t.clock <= s.clock && AllFeasible(s, events)
    ensures Verdicts(s, events) == Verdicts(t, Requests(events))
    ensures Play(s, events).allowed == Play(t, Requests(events)).allowed
    decreases |events|
  {
    if events != [] {
      match events[0]
      case Alarm(now) =>
        AlarmKeepsInv(s, now);
        AlarmsDoNotMatter(Step(s, events[0]), t, events[1..]);
      case Request(now) =>
        SameHistory(s, t, now);
        AlarmsDoNotMatter(Step(s, events[0]), Step(t, events[0]), events[1..]);
        assert Requests(events)[1..] == Requests(events[1..]);
    }
  }

  /** The clean-up changes no decision: in any run, every verdict, and so the times of all allowed requests, are
      those of the same requests without a single alarm. */
  lemma CleanUpChangesNoVerdict(events: seq<Event>)
    requires AllFeasible(EMPTY, events)
    ensures Verdicts(EMPTY, events) == Verdicts(EMPTY, Requests(events))
    ensures Play(EMPTY, events).allowed == Play(EMPTY, Requests(events)).allowed
  {
    AlarmsDoNotMatter(EMPTY, EMPTY, events);
  }

  /** In particular a verdict is the same whether the alarm went off just before it or not. */
  lemma AlarmKeepsNextVerdict(events: seq<Event>, alarm: int, now: int)
    requires AllFeasible(EMPTY, events) && Feasible(Play(EMPTY, events), Alarm(alarm)) && now >= alarm
    ensures var s := Play(EMPTY, events);
      IssueLimiter.Consume(Step(s, Alarm(alarm)).rate, now, LIMIT, WINDOW) == IssueLimiter.Consume(s.rate, now, LIMIT, WINDOW)
  {
    var s := Play(EMPTY, events);
    PlayKeepsInv(EMPTY, events);
    AlarmKeepsInv(s, alarm);
    VerdictOfHistory(s, now);
    VerdictOfHistory(Step(s, Alarm(alarm)), now);
  }

  /** A denied request leaves the window alone and is told the first instant at which a retry is allowed. */
  lemma ResetAtIsExact(events: seq<Event>, now: int, retry: int)
    requires AllFeasible(EMPTY, events) && Play(EMPTY, events).clock <= now <= retry
    requires !IssueLimiter.Consume(Play(EMPTY, events).rate, now, LIMIT, WINDOW).allowed
    ensures var s := Play(EMPTY, events);
      var v := IssueLimiter.Consume(s.rate, now, LIMIT, WINDOW);
      && Step(s, Request(now)).rate == s.rate
      && (IssueLimiter.Consume(s.rate, retry, LIMIT, WINDOW).allowed <==> retry >= v.resetAt)
  {
    PlayKeepsInv(EMPTY, events);
    var s := Play(EMPTY, events);
    var active := Active(s.allowed, now, WINDOW);
    VerdictOfHistory(s, now);
    VerdictOfHistory(s, retry);
    ActiveOfActive(s.allowed, now, retry, WINDOW);
    FirstLeaves(active, retry, WINDOW);
    assert Active(s.rate, now, WINDOW) == active;
    assert Active(s.rate, retry, WINDOW) == Active(active, retry, WINDOW);
  }

  /** The window has fewer allowed requests than at `now` as soon as the first of them has left it. */
  lemma FewerIff(s: Store, now: int, later: int, active: seq<int>)
    requires Inv(s) && s.clock <= now <= later && active == Active(s.allowed, now, WINDOW) && active != []
    ensures InWindow(s.allowed, later) < InWindow(s.allowed, now) <==> later >= active[0] + WINDOW
  {
    VerdictOfHistory(s, now);
    VerdictOfHistory(s, later);
    ActiveOfActive(s.allowed, now, later, WINDOW);
    FirstLeaves(active, later, WINDOW);
  }

  lemma ResetOf(s: Store, now: int)
    requires Inv(s) && Feasible(s, Request(now)) && IssueLimiter.Consume(s.rate, now, LIMIT, WINDOW).allowed
    ensures var active := Active(s.allowed, now, WINDOW) + [now];
      IssueLimiter.Consume(s.rate, now, LIMIT, WINDOW).resetAt == active[0] + WINDOW
  {
    VerdictOfHistory(s, now);
  }

  /** An allowed request is told the first instant at which, without further requests, one of the allowed ones has left
      the window. */
  lemma ResetOfAllowedIsExact(events: seq<Event>, now: int, later: int)
    requires AllFeasible(EMPTY, events) && Feasible(Play(EMPTY, events), Request(now)) && now <= later
    requires IssueLimiter.Consume(Play(EMPTY, events).rate, now, LIMIT, WINDOW).allowed
    ensures var s := Play(EMPTY, events);
      var allowed := Step(s, Request(now)).allowed;
      && allowed == s.allowed + [now]
      && (CountIn(allowed, later - 3600000, later) < CountIn(allowed, now - 3600000, now)
          <==> later >= IssueLimiter.Consume(s.rate, now, LIMIT, WINDOW).resetAt)
  {
    PlayKeepsInv(EMPTY, events);
    var s := Play(EMPTY, events);
    AllowedStep(s, now);
    ResetOf(s, now);
    FewerAfter(s, Step(s, Request(now)), now, later);
  }

  lemma AllowedStep(s: Store, now: int)
    requires Inv(s) && Feasible(s, Request(now)) && IssueLimiter.Consume(s.rate, now, LIMIT, WINDOW).allowed
    ensures var after := Step(s, Request(now));
      Inv(after) && after.clock == now && after.allowed == s.allowed + [now]
  {
    RequestKeepsInv(s, now);
  }

  lemma FewerAfter(s: Store, after: Store, now: int, later: int)
    requires Inv(after) && after.clock == now <= later && after.allowed == s.allowed + [now]
    ensures CountIn(after.allowed, later - 3600000, later) < CountIn(after.allowed, now - 3600000, now)
       <==> later >= (Active(s.allowed, now, WINDOW) + [now])[0] + WINDOW
  {
    Snoc(s.allowed, now);
    FewerIff(after, now, later, Active(s.allowed, now, WINDOW) + [now]);
  }

  lemma RemainingOf(s: Store, now: int)
    requires Inv(s) && now >= s.clock
    ensures var count, v := |Active(s.allowed, now, WINDOW)|, IssueLimiter.Consume(s.rate, now, LIMIT, WINDOW);
      (v.allowed <==> count < LIMIT) && (v.allowed ==> v.remaining == LIMIT - 1 - count)
  {
    VerdictOfHistory(s, now);
  }

  lemma OneMoreActive(s: Store, now: int)
    requires Inv(s) && Feasible(s, Request(now)) && |Active(s.allowed, now, WINDOW)| < LIMIT
    ensures Inv(Step(s, Request(now))) && Step(s, Request(now)).clock == now
    ensures |Active(Step(s, Request(now)).allowed, now, WINDOW)| == |Active(s.allowed, now, WINDOW)| + 1
  {
    RequestKeepsInv(s, now);
    StepOfRequest(s, now);
    Snoc(s.allowed, now);
  }

  /** The remaining count of an allowed request is exact: it is positive exactly when one more request at the same
      instant is allowed, and that one is told one less. */
  lemma RemainingIsExact(events: seq<Event>, now: int)
    requires AllFeasible(EMPTY, events) && Feasible(Play(EMPTY, events), Request(now))
    requires IssueLimiter.Consume(Play(EMPTY, events).rate, now, LIMIT, WINDOW).allowed
    ensures var s := Play(EMPTY, events);
      var v := IssueLimiter.Consume(s.rate, now, LIMIT, WINDOW);
      var again := IssueLimiter.Consume(Step(s, Request(now)).rate, now, LIMIT, WINDOW);
      (again.allowed <==> v.remaining > 0) && (again.allowed ==> again.remaining == v.remaining - 1)
  {
    PlayKeepsInv(EMPTY, events);
    var s := Play(EMPTY, events);
    RemainingOf(s, now);
    OneMoreActive(s, now);
    RemainingOf(Step(s, Request(now)), now);
  }
}
