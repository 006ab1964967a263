/** Every decision of the WebView2 recovery policy, told by the events of the run alone: which process failure earns a
    reload, which a restart, and which only a log line. */
module WebViewDecisions {
  import opened Common
  import opened WebViewRecovery
  import opened WebViewBudget
  import opened WebViewProtocol

  // ---- the history ----

  /** When reloads were committed. */
  function Commits(evs: seq<Event>): seq<int>
    decreases |evs|
  {
    if evs == [] then []
    else
      var (init, last) := (evs[..|evs| - 1], evs[|evs| - 1]);
      if last.Reloaded? then Commits(init) + [last.now] else Commits(init)
  }

  predicate Hang(ev: Event) {
    ev.Failed? && ev.kind.RendererUnresponsive?
  }

  /** When the renderer did not respond. */
  function Hangs(evs: seq<Event>): seq<int>
    decreases |evs|
  {
    if evs == [] then []
    else
      var (init, last) := (evs[..|evs| - 1], evs[|evs| - 1]);
      if Hang(last) then Hangs(init) + [last.now] else Hangs(init)
  }

  /** The event that opened the window in which event `n` lies: a window opens with the first event that does not lie
      in the one before. */
  function Opener(p: Policy, ts: seq<int>, n: nat): (o: nat)
    requires n < |ts|
    ensures o <= n
  {
    if n == 0 then 0
    else
      var o := Opener(p, ts, n - 1);
      if ts[n] - ts[o] >= p.unresponsiveWindow then n else o
  }

  /** Which event of its window event `n` is, from one on. */
  function Place(p: Policy, ts: seq<int>, n: nat): (place: nat)
    requires n < |ts|
    ensures place >= 1
  {
    n - Opener(p, ts, n) + 1
  }

  /** Batches of the threshold follow each other from the opener of a window on: whether the event at this place
      completes one, and how many events of an incomplete one there are up to it. */
  predicate Completes(place: nat, threshold: nat) {
    threshold <= 1 || place % threshold == 0
  }

  function InBatch(place: nat, threshold: nat): nat {
    if threshold <= 1 then 0 else place % threshold
  }

  /** How many reloads the policy still knows of: the last, and those that were in the window when it was committed. */
  function Remembered(p: Policy, commits: seq<int>): nat {
    if commits == [] then 0
    else
      var (init, last) := (commits[..|commits| - 1], commits[|commits| - 1]);
      ActiveIn(init, last, p.window) + 1
  }

  function Earned(p: Policy, commits: seq<int>, now: int, detail: Detail): (Action, Detail) {
    match CanReloadByHistory(p, commits, now)
    case Allowed => (Reload, detail)
    case Cooldown => (LogOnly, Throttled)
    case Exhausted => (LogOnly, BudgetExhausted(Remembered(p, commits), p.window))
  }

  /** What a failure at `now` is answered with after these events. */
  function Decision(p: Policy, evs: seq<Event>, kind: Kind, now: int): (Action, Detail) {
    match kind
    case Browser => (if BrowserExits(evs) then LogOnly else Restart, BrowserExited)
    case Renderer => Earned(p, Commits(evs), now, RendererExited)
    case RendererUnresponsive =>
      var place := Place(p, Hangs(evs) + [now], |Hangs(evs)|);
      if Completes(place, p.threshold) then
        Earned(p, Commits(evs), now, UnresponsiveTriggered(if p.threshold == 0 then 1 else p.threshold, p.threshold))
      else (LogOnly, UnresponsiveArmed(InBatch(place, p.threshold), p.threshold))
    case Gpu => (LogOnly, GpuExited)
    case FrameRenderer => (LogOnly, FrameExited)
    case Other => (LogOnly, OtherExited)
  }

  // ---- the logs of a run are its history ----

  lemma {:induction false} LogsAreHistory(p: Policy, t0: int, evs: seq<Event>)
    ensures Play(p, Start(t0), evs).commits == Commits(evs) && Play(p, Start(t0), evs).seen == Hangs(evs)
    decreases |evs|
  {
    if evs != [] {
      var (init, last) := (evs[..|evs| - 1], evs[|evs| - 1]);
      assert evs == init + [last];
      PlayAppend(p, Start(t0), init, last);
      LogsAreHistory(p, t0, init);
    }
  }

  lemma {:induction false} FeasibleInit(p: Policy, r: Run, evs: seq<Event>, ev: Event, k: nat)
    requires Feasible(p, r, evs + [ev], k)
    ensures Feasible(p, r, evs, k) && Possible(Play(p, r, evs), ev)
    decreases |evs|
  {
    if evs != [] {
      assert (evs + [ev])[1..] == evs[1..] + [ev] && (evs + [ev])[0] == evs[0];
      FeasibleInit(p, Step(p, r, evs[0]), evs[1..], ev, k);
    }
  }

  // ---- the unresponsive counter ----

  /** The counter after the events: the place in the window, less the batches that are complete. */
  predicate Counted(p: Policy, seen: seq<int>, count: nat, start: Option<int>) {
    if seen == [] then count == 0 && start.None?
    else
      var n := |seen| - 1;
      && start == Some(seen[Opener(p, seen, n)])
      && count == InBatch(Place(p, seen, n), p.threshold)
  }

  lemma {:induction false} OpenerOfPrefix(p: Policy, ts: seq<int>, now: int, n: nat)
    requires n < |ts|
    ensures Opener(p, ts + [now], n) == Opener(p, ts, n)
    decreases n
  {
    if n > 0 {
      OpenerOfPrefix(p, ts, now, n - 1);
    }
  }

  lemma ModNext(x: nat, t: nat)
    requires t >= 2
    ensures (x + 1) % t == if x % t + 1 == t then 0 else x % t + 1
  {
    var q, m := x / t, x % t;
    assert x + 1 == t * q + (m + 1);
    if m + 1 == t {
      assert x + 1 == t * (q + 1);
      ModUnique(x + 1, t, q + 1, 0);
    } else {
      ModUnique(x + 1, t, q, m + 1);
    }
  }

  lemma ModUnique(n: nat, t: nat, q: nat, m: nat)
    requires t >= 1 && n == t * q + m && m < t
    ensures n % t == m
  {
    var d := n / t - q;
    assert n == t * (n / t) + n % t;
    assert t * d == m - n % t;
    assert d >= 1 ==> t * d >= t;
    assert d <= -1 ==> t * d <= 0 - t;
  }

  lemma BatchNext(place: nat, threshold: nat)
    ensures var c := InBatch(place, threshold) + 1;
      if Completes(place + 1, threshold) then
        c >= threshold && c == (if threshold == 0 then 1 else threshold) && InBatch(place + 1, threshold) == 0
      else c < threshold && InBatch(place + 1, threshold) == c
  {
    if threshold >= 2 {
      ModNext(place, threshold);
    }
  }

  /** The next event opens a window of its own, or has the next place in the last one. */
  lemma PlaceNext(p: Policy, seen: seq<int>, now: int)
    ensures var (ts, n) := (seen + [now], |seen|);
      if seen == [] || now - seen[Opener(p, seen, n - 1)] >= p.unresponsiveWindow
      then Opener(p, ts, n) == n && Place(p, ts, n) == 1
      else Opener(p, ts, n) == Opener(p, seen, n - 1) && Place(p, ts, n) == Place(p, seen, n - 1) + 1
  {
    if seen != [] {
      OpenerOfPrefix(p, seen, now, |seen| - 1);
    }
  }

  /** The next event finds the counter at the place before it. */
  lemma CountByHistory(p: Policy, m: Machine, seen: seq<int>, now: int)
    requires Counted(p, seen, m.count, m.windowStart) && (seen != [] ==> seen[|seen| - 1] <= now) && Sorted(seen)
    ensures var counted := CountUnresponsive(p, m, now);
      && counted.windowStart == Some((seen + [now])[Opener(p, seen + [now], |seen|)])
      && counted.count == InBatch(Place(p, seen + [now], |seen|) - 1, p.threshold) + 1
  {
    PlaceNext(p, seen, now);
    BatchNext(0, p.threshold);
    if seen != [] {
      var o := Opener(p, seen, |seen| - 1);
      assert o < |seen| - 1 ==> seen[o] <= seen[|seen| - 1];
    }
  }

  lemma HangCounted(p: Policy, m: Machine, seen: seq<int>, now: int)
    requires Counted(p, seen, m.count, m.windowStart) && (seen != [] ==> seen[|seen| - 1] <= now) && Sorted(seen)
    ensures var m' := HandleFailure(p, m, RendererUnresponsive, now).0;
      Counted(p, seen + [now], m'.count, m'.windowStart)
  {
    CountByHistory(p, m, seen, now);
    BatchNext(Place(p, seen + [now], |seen|) - 1, p.threshold);
  }

  lemma {:induction false} CounterIsHistory(p: Policy, t0: int, evs: seq<Event>, k: nat)
    requires Feasible(p, Start(t0), evs, k)
    ensures var r := Play(p, Start(t0), evs); Counted(p, r.seen, r.m.count, r.m.windowStart)
    decreases |evs|
  {
    if evs != [] {
      var (init, last) := (evs[..|evs| - 1], evs[|evs| - 1]);
      assert evs == init + [last];
      PlayAppend(p, Start(t0), init, last);
      FeasibleInit(p, Start(t0), init, last, k);
      CounterIsHistory(p, t0, init, k);
      var r := Play(p, Start(t0), init);
      if Hang(last) {
        PlayBacked(p, Start(t0), init, k);
        HangCounted(p, r.m, r.seen, last.now);
      } else {
        OtherEventsDoNotCount(p, r, last);
      }
    }
  }

  // ---- the deque ----

  lemma {:induction false} PrunedTwice(ts: seq<int>, x: int, a: int, b: int, span: nat)
    requires a <= b
    ensures Pruned(Pruned(ts, a, span) + [x], b, span) == Pruned(ts + [x], b, span)
    decreases |ts|
  {
    if ts != [] && Elapsed(ts[0], a, span) {
      PrunedTwice(ts[1..], x, a, b, span);
      assert (ts + [x])[1..] == ts[1..] + [x];
    }
  }

  /** The deque is the last commit, behind what was left of the others when it was committed. */
  predicate Kept(commits: seq<int>, reloads: seq<int>, window: nat) {
    if commits == [] then reloads == []
    else
      var (init, last) := (commits[..|commits| - 1], commits[|commits| - 1]);
      reloads == Pruned(init, last, window) + [last]
  }

  lemma CommitKept(commits: seq<int>, reloads: seq<int>, now: int, window: nat)
    requires Kept(commits, reloads, window) && (commits != [] ==> commits[|commits| - 1] <= now)
    ensures Kept(commits + [now], Pruned(reloads, now, window) + [now], window)
  {
    assert (commits + [now])[..|commits|] == commits;
    if commits != [] {
      var (init, last) := (commits[..|commits| - 1], commits[|commits| - 1]);
      PrunedTwice(init, last, last, now, window);
      assert init + [last] == commits;
    }
  }

  lemma {:induction false} DequeIsHistory(p: Policy, t0: int, evs: seq<Event>, k: nat)
    requires Feasible(p, Start(t0), evs, k)
    ensures var r := Play(p, Start(t0), evs); Kept(r.commits, r.m.reloads, p.window)
    decreases |evs|
  {
    if evs != [] {
      var (init, last) := (evs[..|evs| - 1], evs[|evs| - 1]);
      assert evs == init + [last];
      PlayAppend(p, Start(t0), init, last);
      FeasibleInit(p, Start(t0), init, last, k);
      DequeIsHistory(p, t0, init, k);
      var r := Play(p, Start(t0), init);
      if last.Reloaded? {
        PlayRemembers(p, Start(t0), init, k);
        CommitKept(r.commits, r.m.reloads, last.now, p.window);
      } else {
        FailureKeepsReloads(p, r, last);
      }
    }
  }

  /** Of instants in order, pruning leaves those that are still in the window. */
  lemma {:induction false} PrunedCount(ts: seq<int>, now: int, span: nat)
    requires Sorted(ts)
    ensures |Pruned(ts, now, span)| == ActiveIn(ts, now, span)
    decreases |ts|
  {
    if ts != [] {
      if Elapsed(ts[0], now, span) {
        PrunedCount(ts[1..], now, span);
        ActiveInSuffix(ts, 1, now, span);
      } else {
        AllActive(ts, now, span);
      }
    }
  }

  lemma {:induction false} AllActive(ts: seq<int>, now: int, span: nat)
    requires Sorted(ts) && (ts != [] ==> !Elapsed(ts[0], now, span))
    ensures ActiveIn(ts, now, span) == |ts|
    decreases |ts|
  {
    if |ts| > 1 {
      assert ts[0] <= ts[|ts| - 1];
      AllActive(ts[..|ts| - 1], now, span);
    }
  }

  lemma RememberedIs(p: Policy, commits: seq<int>, reloads: seq<int>)
    requires Kept(commits, reloads, p.window) && Sorted(commits)
    ensures |reloads| == Remembered(p, commits)
  {
    if commits != [] {
      PrunedCount(commits[..|commits| - 1], commits[|commits| - 1], p.window);
    }
  }

  // ---- the decisions ----

  lemma EarnedIs(p: Policy, m: Machine, commits: seq<int>, now: int, detail: Detail)
    requires CanReload(p, m, now) == CanReloadByHistory(p, commits, now) && |m.reloads| == Remembered(p, commits)
    ensures RendererRecovery(p, m, now, detail) == Earned(p, commits, now, detail)
  {
  }

  lemma HangDecided(p: Policy, m: Machine, commits: seq<int>, seen: seq<int>, now: int)
    requires CanReload(p, m, now) == CanReloadByHistory(p, commits, now) && |m.reloads| == Remembered(p, commits)
    requires Counted(p, seen, m.count, m.windowStart) && (seen != [] ==> seen[|seen| - 1] <= now) && Sorted(seen)
    ensures var (_, action, detail) := HandleFailure(p, m, RendererUnresponsive, now);
      var place := Place(p, seen + [now], |seen|);
      (action, detail) ==
      if Completes(place, p.threshold) then
        Earned(p, commits, now, UnresponsiveTriggered(if p.threshold == 0 then 1 else p.threshold, p.threshold))
      else (LogOnly, UnresponsiveArmed(InBatch(place, p.threshold), p.threshold))
  {
    CountByHistory(p, m, seen, now);
    BatchNext(Place(p, seen + [now], |seen|) - 1, p.threshold);
    var counted := CountUnresponsive(p, m, now);
    var reset := counted.(count := 0);
    assert CanReload(p, reset, now) == CanReload(p, m, now);
    EarnedIs(p, reset, commits, now, UnresponsiveTriggered(counted.count, p.threshold));
  }

  /** The machine says what the events say. */
  ghost predicate Told(p: Policy, m: Machine, commits: seq<int>, seen: seq<int>, fatal: bool, now: int) {
    && CanReload(p, m, now) == CanReloadByHistory(p, commits, now) && |m.reloads| == Remembered(p, commits)
    && Counted(p, seen, m.count, m.windowStart) && (seen != [] ==> seen[|seen| - 1] <= now) && Sorted(seen)
    && m.browserFatal == fatal
  }

  lemma RunIsTold(p: Policy, t0: int, evs: seq<Event>, k: nat, now: int)
    requires Feasible(p, Start(t0), evs, k) && Play(p, Start(t0), evs).clock <= now
    ensures Told(p, Play(p, Start(t0), evs).m, Commits(evs), Hangs(evs), BrowserExits(evs), now)
  {
    var r := Play(p, Start(t0), evs);
    LogsAreHistory(p, t0, evs);
    FatalIsBrowserExits(p, t0, evs);
    DequeDecidesLikeHistory(p, t0, evs, k, now);
    DequeIsHistory(p, t0, evs, k);
    PlayRemembers(p, Start(t0), evs, k);
    RememberedIs(p, r.commits, r.m.reloads);
    CounterIsHistory(p, t0, evs, k);
    PlayBacked(p, Start(t0), evs, k);
  }

  lemma ToldDecides(p: Policy, m: Machine, evs: seq<Event>, commits: seq<int>, seen: seq<int>, kind: Kind, now: int)
    requires commits == Commits(evs) && seen == Hangs(evs) && Told(p, m, commits, seen, BrowserExits(evs), now)
    ensures var (_, action, detail) := HandleFailure(p, m, kind, now);
      (action, detail) == Decision(p, evs, kind, now)
  {
    match kind
    case Renderer => EarnedIs(p, m, commits, now, RendererExited);
    case RendererUnresponsive => HangDecided(p, m, commits, seen, now);
    case _ =>
  }

  /** After any run, every failure is answered as its events say. */
  lemma DecidedByHistory(p: Policy, t0: int, evs: seq<Event>, k: nat, kind: Kind, now: int)
    requires Feasible(p, Start(t0), evs, k) && Play(p, Start(t0), evs).clock <= now
    ensures var (_, action, detail) := HandleFailure(p, Play(p, Start(t0), evs).m, kind, now);
      (action, detail) == Decision(p, evs, kind, now)
  {
    RunIsTold(p, t0, evs, k, now);
    ToldDecides(p, Play(p, Start(t0), evs).m, evs, Commits(evs), Hangs(evs), kind, now);
  }

  /** After any run, a failure earns a reload if and only if the cooldown and the budget allow one and it is the exit of
      the renderer, or the unresponsive event that completes a batch of its window. */
  lemma ReloadIff(p: Policy, t0: int, evs: seq<Event>, k: nat, kind: Kind, now: int)
    requires Feasible(p, Start(t0), evs, k) && Play(p, Start(t0), evs).clock <= now
    ensures HandleFailure(p, Play(p, Start(t0), evs).m, kind, now).1.Reload? <==>
      && CanReloadByHistory(p, Commits(evs), now).Allowed?
      && (kind.Renderer? ||
          (kind.RendererUnresponsive? && Completes(Place(p, Hangs(evs) + [now], |Hangs(evs)|), p.threshold)))
  {
    DecidedByHistory(p, t0, evs, k, kind, now);
  }

  /** The history of unresponsive events alone. */
  lemma OnlyHangs(evs: seq<Event>, a: int, b: int)
    requires evs == [Failed(RendererUnresponsive, a), Failed(RendererUnresponsive, b)]
    ensures Hangs(evs[..1]) == [a] && Hangs(evs) == [a, b] && Commits(evs[..1]) == [] && Commits(evs) == []
  {
    assert evs[..1][..0] == [] && evs[..|evs| - 1] == evs[..1];
    assert [] + [a] == [a] && [a] + [b] == [a, b];
  }

  lemma ThreePlaces(p: Policy, a: int, b: int, c: int)
    requires p.unresponsiveWindow == 60 && a <= b <= c
    ensures Place(p, [a], 0) == 1 && Place(p, [a, b], 1) <= 2 && (Place(p, [a, b, c], 2) == 3 <==> c - a < 60)
    ensures Place(p, [a, b, c], 2) <= 3
  {
    assert Opener(p, [a, b], 0) == 0 && Opener(p, [a, b, c], 0) == 0;
    assert Opener(p, [a, b, c], 1) == if b - a >= 60 then 1 else 0;
  }

  /** The shipped policy: of three unresponsive events, the third earns a reload if and only if it comes within sixty
      seconds of the first; the others never do. */
  lemma ShippedThirdHang(a: int, b: int, c: int)
    requires a <= b <= c
    ensures var evs := [Failed(RendererUnresponsive, a), Failed(RendererUnresponsive, b)];
      && Decision(DEFAULT_POLICY, [], RendererUnresponsive, a).0 == LogOnly
      && Decision(DEFAULT_POLICY, evs[..1], RendererUnresponsive, b).0 == LogOnly
      && Decision(DEFAULT_POLICY, evs, RendererUnresponsive, c).0 == if c - a < 60 then Reload else LogOnly
  {
    OnlyHangs([Failed(RendererUnresponsive, a), Failed(RendererUnresponsive, b)], a, b);
    ThreePlaces(DEFAULT_POLICY, a, b, c);
    assert [] + [a] == [a] && [a] + [b] == [a, b] && [a, b] + [c] == [a, b, c];
  }

  // ---- failures that are only logged ----

  predicate Bystander(ev: Event) {
    ev.Failed? && ev.kind in {Gpu, FrameRenderer, Other}
  }

  function WithoutBystanders(evs: seq<Event>): seq<Event> {
    if evs == [] then []
    else if Bystander(evs[0]) then WithoutBystanders(evs[1..])
    else [evs[0]] + WithoutBystanders(evs[1..])
  }

  /** The run stands where the other stands, at a clock that is not ahead. */
  predicate StandsAt(r: Run, r': Run) {
    r' == r.(clock := r'.clock) && r'.clock <= r.clock
  }

  lemma StepStandsAt(p: Policy, r: Run, r': Run, ev: Event)
    requires StandsAt(r, r') && Possible(r, ev)
    ensures if Bystander(ev) then StandsAt(Step(p, r, ev), r') && HandleFailure(p, r.m, ev.kind, ev.now).0 == r.m
            else StandsAt(Step(p, r, ev), Step(p, r', ev)) && Possible(r', ev)
  {
  }

  /** Failures of the GPU process, of a subframe and of other processes leave no trace: without them the rest of a run
      can happen too, and leads to the same machine, commits and outstanding decisions. */
  lemma {:induction false} BystandersLeaveNoTrace(p: Policy, r: Run, r': Run, evs: seq<Event>, k: nat)
    requires StandsAt(r, r') && Feasible(p, r, evs, k)
    ensures Feasible(p, r', WithoutBystanders(evs), k)
    ensures StandsAt(Play(p, r, evs), Play(p, r', WithoutBystanders(evs)))
    decreases |evs|
  {
    if evs != [] {
      StepStandsAt(p, r, r', evs[0]);
      if Bystander(evs[0]) {
        BystandersLeaveNoTrace(p, Step(p, r, evs[0]), r', evs[1..], k);
      } else {
        BystandersLeaveNoTrace(p, Step(p, r, evs[0]), Step(p, r', evs[0]), evs[1..], k);
        assert WithoutBystanders(evs)[1..] == WithoutBystanders(evs[1..]);
      }
    }
  }
}
