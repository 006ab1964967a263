/** How close committed reloads can be in a WebView2 recovery run, exactly: with at most `k` decisions outstanding,
    reloads come in rounds of at most `k`, one cooldown apart. */
module WebViewRounds {
  import opened Common
  import opened WebViewRecovery
  import opened WebViewBudget

  // ---- no closer than rounds of k ----

  /** Of any `k + 1` commits in a row, the first and the last are the gap apart. */
  predicate Gapped(commits: seq<int>, k: nat, gap: nat) {
    forall i, j :: 0 <= i < |commits| && i + k <= j < |commits| ==> commits[j] - commits[i] >= gap
  }

  /** Commits and decisions that follow commit number `i` are fewer than `k`, or one of the decisions was made the
      cooldown after it. */
  predicate Spent(p: Policy, r: Run, k: nat, i: nat)
    requires i < |r.commits|
  {
    |r.commits| - 1 - i + r.outstanding < k || r.clock - r.commits[i] >= p.cooldown
  }

  predicate Paced(p: Policy, r: Run, k: nat) {
    Gapped(r.commits, k, p.cooldown) && forall i :: 0 <= i < |r.commits| ==> Spent(p, r, k, i)
  }

  lemma DecisionPaced(p: Policy, r: Run, k: nat, kind: Kind, now: int)
    requires Paced(p, r, k) && Remembers(p, r) && r.clock <= now && HandleFailure(p, r.m, kind, now).1.Reload?
    ensures forall i :: 0 <= i < |r.commits| ==> now - r.commits[i] >= p.cooldown
  {
    DecisionSeesRoom(p, r, kind, now);
    forall i | 0 <= i < |r.commits|
      ensures now - r.commits[i] >= p.cooldown
    {
      assert i < |r.commits| - 1 ==> r.commits[i] <= r.commits[|r.commits| - 1];
    }
  }

  lemma CommitPaced(p: Policy, r: Run, k: nat, now: int)
    requires Paced(p, r, k) && 0 < r.outstanding <= k && r.clock <= now
    ensures Paced(p, Step(p, r, Reloaded(now)), k)
  {
    var r' := Step(p, r, Reloaded(now));
    forall i, j | 0 <= i < |r'.commits| && i + k <= j < |r'.commits|
      ensures r'.commits[j] - r'.commits[i] >= p.cooldown
    {
      if j == |r.commits| {
        assert i < j && Spent(p, r, k, i);
      }
    }
    forall i | 0 <= i < |r'.commits|
      ensures Spent(p, r', k, i)
    {
      assert i < |r.commits| ==> Spent(p, r, k, i);
    }
  }

  lemma StillPaced(p: Policy, r: Run, r': Run, k: nat)
    requires Paced(p, r, k) && r'.commits == r.commits && r'.outstanding <= r.outstanding && r.clock <= r'.clock
    ensures Paced(p, r', k)
  {
    forall i | 0 <= i < |r'.commits|
      ensures Spent(p, r', k, i)
    {
      assert Spent(p, r, k, i);
    }
  }

  lemma StepPaced(p: Policy, r: Run, ev: Event, k: nat)
    requires k >= 1 && Paced(p, r, k) && Remembers(p, r) && Possible(r, ev) && r.outstanding <= k
    ensures Paced(p, Step(p, r, ev), k)
  {
    match ev
    case Failed(kind, now) =>
      if HandleFailure(p, r.m, kind, now).1.Reload? {
        DecisionPaced(p, r, k, kind, now);
      } else {
        StillPaced(p, r, Step(p, r, ev), k);
      }
    case Reloaded(now) => CommitPaced(p, r, k, now);
    case ReloadFailed(_) => StillPaced(p, r, Step(p, r, ev), k);
  }

  lemma {:induction false} PlayPaced(p: Policy, r: Run, evs: seq<Event>, k: nat)
    requires k >= 1 && Paced(p, r, k) && Remembers(p, r) && Feasible(p, r, evs, k)
    ensures Paced(p, Play(p, r, evs), k) && Remembers(p, Play(p, r, evs))
    decreases |evs|
  {
    if evs != [] {
      StepRemembers(p, r, evs[0]);
      StepPaced(p, r, evs[0], k);
      PlayPaced(p, Step(p, r, evs[0]), evs[1..], k);
    }
  }

  /** With at most `k` decisions outstanding, any `k + 1` committed reloads in a row take the cooldown. */
  lemma RoundsOfK(p: Policy, t0: int, evs: seq<Event>, k: nat)
    requires k >= 1 && Feasible(p, Start(t0), evs, k)
    ensures Gapped(Play(p, Start(t0), evs).commits, k, p.cooldown) && Sorted(Play(p, Start(t0), evs).commits)
  {
    PlayPaced(p, Start(t0), evs, k);
  }

  predicate Spaced(commits: seq<int>, gap: nat) {
    forall i :: 0 <= i < |commits| - 1 ==> commits[i + 1] - commits[i] >= gap
  }

  /** One decision at a time: committed reloads are at least the cooldown apart. */
  lemma ReloadCooldown(p: Policy, t0: int, evs: seq<Event>)
    requires Feasible(p, Start(t0), evs, 1)
    ensures Spaced(Play(p, Start(t0), evs).commits, p.cooldown)
  {
    RoundsOfK(p, t0, evs, 1);
  }

  /** The time that the whole rounds among `n` commits take. */
  function Rest(n: nat, k: nat, gap: nat): nat
    requires k >= 1
  {
    if n < k then 0 else Rest(n - k, k, gap) + gap
  }

  lemma {:induction false} RestIs(n: nat, k: nat, gap: nat)
    requires k >= 1
    ensures Rest(n, k, gap) == n / k * gap
    decreases n
  {
    if n < k {
      DivUnique(n, k, 0, n);
    } else {
      RestIs(n - k, k, gap);
      var q, m := (n - k) / k, (n - k) % k;
      DivUnique(n, k, q + 1, m);
      assert (q + 1) * gap == q * gap + gap;
    }
  }

  lemma DivUnique(n: nat, k: nat, q: nat, m: nat)
    requires k >= 1 && n == k * q + m && m < k
    ensures n / k == q
  {
    var d := n / k - q;
    assert n == k * (n / k) + n % k;
    assert k * d == m - n % k;
    assert d >= 1 ==> k * d >= k;
    assert d <= -1 ==> k * d <= 0 - k;
  }

  /** Commits in a row take a gap for every whole round between the first and the last. */
  lemma {:induction false} GapsAdd(commits: seq<int>, k: nat, gap: nat, i: nat, j: nat)
    requires k >= 1 && Gapped(commits, k, gap) && Sorted(commits) && i <= j < |commits|
    ensures commits[j] - commits[i] >= Rest(j - i, k, gap)
    decreases j
  {
    if j - i < k {
      assert i < j ==> commits[i] <= commits[j];
    } else {
      GapsAdd(commits, k, gap, i, j - k);
      assert j - k - i == j - i - k;
      assert commits[j] - commits[j - k] >= gap;
    }
  }

  /** A policy without a reload to give commits none. */
  lemma {:induction false} NothingAllowed(p: Policy, r: Run, evs: seq<Event>, k: nat)
    requires p.maxReloads == 0 && r.outstanding == 0 && r.commits == [] && Feasible(p, r, evs, k)
    ensures Play(p, r, evs).commits == []
    decreases |evs|
  {
    if evs != [] {
      NothingAllowed(p, Step(p, r, evs[0]), evs[1..], k);
    }
  }

  // ---- and as close as that ----

  /** The events are possible from `r` with at most `k` decisions outstanding, and lead to `end`. */
  predicate Leads(p: Policy, r: Run, evs: seq<Event>, k: nat, end: Run) {
    Feasible(p, r, evs, k) && Play(p, r, evs) == end
  }

  lemma LeadsFirst(p: Policy, r: Run, ev: Event, evs: seq<Event>, k: nat, next: Run, end: Run)
    requires r.outstanding <= k && Possible(r, ev) && Step(p, r, ev) == next && Leads(p, next, evs, k, end)
    ensures Leads(p, r, [ev] + evs, k, end)
  {
    assert ([ev] + evs)[1..] == evs;
  }

  lemma {:induction false} LeadsOn(p: Policy, r: Run, a: seq<Event>, b: seq<Event>, k: nat, mid: Run, end: Run)
    requires Leads(p, r, a, k, mid) && Leads(p, mid, b, k, end)
    ensures Leads(p, r, a + b, k, end)
    decreases |a|
  {
    if a == [] {
      assert a + b == b;
    } else {
      LeadsOn(p, Step(p, r, a[0]), a[1..], b, k, mid, end);
      LeadsFirst(p, r, a[0], a[1..] + b, k, Step(p, r, a[0]), end);
      assert a + b == [a[0]] + (a[1..] + b);
    }
  }

  lemma {:induction false} NothingElapsed(ts: seq<int>, now: int, span: nat)
    requires forall i :: 0 <= i < |ts| ==> !Elapsed(ts[i], now, span)
    ensures ActiveIn(ts, now, span) == |ts| && Pruned(ts, now, span) == ts
    decreases |ts|
  {
    if ts != [] {
      NothingElapsed(ts[..|ts| - 1], now, span);
    }
  }

  /** A run with these commits, none of which has left the deque. */
  function Settled(commits: seq<int>, clock: int, outstanding: nat): Run {
    Run(NEW_MACHINE.(reloads := commits, lastReload := if commits == [] then None else Some(commits[|commits| - 1])),
        clock, outstanding, commits, [], [])
  }

  function Repeat(ev: Event, n: nat): seq<Event> {
    if n == 0 then [] else [ev] + Repeat(ev, n - 1)
  }

  function Same(now: int, n: nat): seq<int> {
    seq(n, _ => now)
  }

  /** While nothing commits, an allowed decision stays allowed. */
  lemma {:induction false} DecideMany(p: Policy, r: Run, n: nat, k: nat)
    requires CanReload(p, r.m, r.clock).Allowed? && r.outstanding + n <= k
    ensures Leads(p, r, Repeat(Failed(Renderer, r.clock), n), k, r.(outstanding := r.outstanding + n))
    decreases n
  {
    if n > 0 {
      DecideMany(p, r.(outstanding := r.outstanding + 1), n - 1, k);
      assert Repeat(Failed(Renderer, r.clock), n)[1..] == Repeat(Failed(Renderer, r.clock), n - 1);
    }
  }

  /** No commit has left the window at `now`, which is not empty. */
  predicate Current(commits: seq<int>, now: int, window: nat) {
    window > 0 && forall i :: 0 <= i < |commits| ==> !Elapsed(commits[i], now, window)
  }

  lemma CommitOne(p: Policy, commits: seq<int>, now: int, n: nat)
    requires n >= 1 && Current(commits, now, p.window)
    ensures Step(p, Settled(commits, now, n), Reloaded(now)) == Settled(commits + [now], now, n - 1)
    ensures Current(commits + [now], now, p.window)
  {
    NothingElapsed(commits, now, p.window);
  }

  lemma {:induction false} CommitMany(p: Policy, commits: seq<int>, now: int, n: nat, k: nat)
    requires n <= k && Current(commits, now, p.window)
    ensures Leads(p, Settled(commits, now, n), Repeat(Reloaded(now), n), k, Settled(commits + Same(now, n), now, 0))
    decreases n
  {
    if n == 0 {
      assert commits + Same(now, 0) == commits;
    } else {
      CommitOne(p, commits, now, n);
      CommitMany(p, commits + [now], now, n - 1, k);
      assert commits + [now] + Same(now, n - 1) == commits + Same(now, n);
      LeadsFirst(p, Settled(commits, now, n), Reloaded(now), Repeat(Reloaded(now), n - 1), k,
                 Settled(commits + [now], now, n - 1), Settled(commits + Same(now, n), now, 0));
    }
  }

  lemma FirstDecision(p: Policy, commits: seq<int>, clock: int, now: int, k: nat)
    requires k >= 1 && clock <= now && |commits| < p.maxReloads && Current(commits, now, p.window)
    requires commits != [] ==> Elapsed(commits[|commits| - 1], now, p.cooldown)
    ensures Leads(p, Settled(commits, clock, 0), [Failed(Renderer, now)], k, Settled(commits, now, 1))
    ensures CanReload(p, Settled(commits, now, 1).m, now).Allowed?
  {
    NothingElapsed(commits, now, p.window);
    assert Step(p, Settled(commits, clock, 0), Failed(Renderer, now)) == Settled(commits, now, 1);
  }

  /** One round: `n` decisions and their `n` commits, all at `now`. */
  lemma Round(p: Policy, commits: seq<int>, clock: int, now: int, n: nat, k: nat) returns (evs: seq<Event>)
    requires 1 <= n <= k && clock <= now && |commits| < p.maxReloads && Current(commits, now, p.window)
    requires commits != [] ==> Elapsed(commits[|commits| - 1], now, p.cooldown)
    ensures Leads(p, Settled(commits, clock, 0), evs, k, Settled(commits + Same(now, n), now, 0))
  {
    var start, one, all := Settled(commits, clock, 0), Settled(commits, now, 1), Settled(commits, now, n);
    FirstDecision(p, commits, clock, now, k);
    DecideMany(p, one, n - 1, k);
    var first, more, commit := [Failed(Renderer, now)], Repeat(Failed(Renderer, now), n - 1), Repeat(Reloaded(now), n);
    LeadsOn(p, start, first, more, k, one, all);
    CommitMany(p, commits, now, n, k);
    LeadsOn(p, start, first + more, commit, k, all, Settled(commits + Same(now, n), now, 0));
    evs := first + more + commit;
  }

  /** The instants of `n` commits in rounds of `k`, the first of which may be smaller. */
  function Times(n: nat, k: nat, gap: nat): (ts: seq<int>)
    requires k >= 1
    ensures |ts| == n
  {
    if n == 0 then [] else if n <= k then Same(0, n) else Times(n - k, k, gap) + Same(Rest(n - 1, k, gap), k)
  }

  lemma {:induction false} TimesShape(n: nat, k: nat, gap: nat)
    requires n >= 1 && k >= 1
    ensures var ts := Times(n, k, gap);
      ts[0] == 0 && ts[n - 1] == Rest(n - 1, k, gap) && forall i :: 0 <= i < n ==> 0 <= ts[i] <= Rest(n - 1, k, gap)
    decreases n
  {
    if n > k {
      TimesShape(n - k, k, gap);
      assert n - k - 1 == n - 1 - k;
    }
  }

  /** The rounds can happen, if they fit the window and the allowance holds until the last of them. */
  lemma {:induction false} Rounds(p: Policy, n: nat, k: nat) returns (evs: seq<Event>)
    requires n >= 1 && k >= 1 && p.maxReloads >= 1 && n <= p.maxReloads + k - 1 && Rest(n - 1, k, p.cooldown) < p.window
    ensures Leads(p, Start(0), evs, k, Settled(Times(n, k, p.cooldown), Rest(n - 1, k, p.cooldown), 0))
    decreases n
  {
    if n <= k {
      evs := Round(p, [], 0, 0, n, k);
      assert [] + Same(0, n) == Same(0, n);
    } else {
      var now := Rest(n - 1, k, p.cooldown);
      assert n - k - 1 == n - 1 - k;
      var before := Rounds(p, n - k, k);
      TimesShape(n - k, k, p.cooldown);
      var last := Round(p, Times(n - k, k, p.cooldown), Rest(n - k - 1, k, p.cooldown), now, k, k);
      var mid := Settled(Times(n - k, k, p.cooldown), Rest(n - k - 1, k, p.cooldown), 0);
      LeadsOn(p, Start(0), before, last, k, mid, Settled(Times(n, k, p.cooldown), now, 0));
      evs := before + last;
    }
  }

  /** A run with at most `k` decisions outstanding that commits `n` reloads, from number `i` on, within one window. */
  predicate Crowds(p: Policy, k: nat, n: nat, t0: int, evs: seq<Event>, i: nat)
    requires n >= 1
  {
    && Feasible(p, Start(t0), evs, k)
    && var commits := Play(p, Start(t0), evs).commits;
       i + n <= |commits| && commits[i + n - 1] - commits[i] < p.window
  }

  ghost predicate Crowded(p: Policy, k: nat, n: nat)
    requires n >= 1
  {
    exists t0, evs, i :: Crowds(p, k, n, t0, evs, i)
  }

  /** Rounds of `k`, one cooldown apart, fit `n` commits into one window before the allowance is used up. */
  predicate Fit(p: Policy, k: nat, n: nat)
    requires n >= 1 && k >= 1
  {
    p.maxReloads >= 1 && n <= p.maxReloads + k - 1 && (n - 1) / k * p.cooldown < p.window
  }

  /** The exact budget of every policy: with at most `k` decisions outstanding, `n` committed reloads can fall within
      one window if and only if they fit there in rounds. */
  lemma CommitsInWindowIff(p: Policy, k: nat, n: nat)
    requires k >= 1 && n >= 1
    ensures Crowded(p, k, n) <==> Fit(p, k, n)
  {
    if Crowded(p, k, n) {
      var t0, evs, i :| Crowds(p, k, n, t0, evs, i);
      CrowdsFit(p, k, n, t0, evs, i);
    }
    if Fit(p, k, n) {
      FitCrowds(p, k, n);
    }
  }

  lemma FitCrowds(p: Policy, k: nat, n: nat)
    requires k >= 1 && n >= 1 && Fit(p, k, n)
    ensures Crowded(p, k, n)
  {
    RestIs(n - 1, k, p.cooldown);
    var evs := Rounds(p, n, k);
    TimesShape(n, k, p.cooldown);
    assert Crowds(p, k, n, 0, evs, 0);
  }

  lemma CrowdsFit(p: Policy, k: nat, n: nat, t0: int, evs: seq<Event>, i: nat)
    requires k >= 1 && n >= 1 && Crowds(p, k, n, t0, evs, i)
    ensures Fit(p, k, n)
  {
    var commits := Play(p, Start(t0), evs).commits;
    if p.maxReloads == 0 {
      NothingAllowed(p, Start(t0), evs, k);
    }
    ReloadBudget(p, t0, evs, k);
    RoundsOfK(p, t0, evs, k);
    GapsAdd(commits, k, p.cooldown, i, i + n - 1);
    RestIs(n - 1, k, p.cooldown);
  }

  /** The bound of ReloadBudget is reached by exactly the policies of which the rounds before the last fit the
      window. */
  lemma BudgetReachedIff(p: Policy, k: nat)
    requires k >= 1 && p.maxReloads >= 1
    ensures Crowded(p, k, p.maxReloads + k - 1) <==> (p.maxReloads + k - 2) / k * p.cooldown < p.window
  {
    CommitsInWindowIff(p, k, p.maxReloads + k - 1);
  }

  /** The shipped policy: with one decision at a time any ten minutes have at most three reloads, thirty seconds
      apart; with `k` at a time some run has k + 2 of them in ten minutes, and none has more. */
  lemma ShippedBudget(t0: int, evs: seq<Event>, k: nat)
    requires k >= 1 && Feasible(DEFAULT_POLICY, Start(t0), evs, k)
    ensures WithinBudget(Play(DEFAULT_POLICY, Start(t0), evs).commits, 600, k + 2)
    ensures k == 1 ==> Spaced(Play(DEFAULT_POLICY, Start(t0), evs).commits, 30)
    ensures Crowded(DEFAULT_POLICY, k, k + 2)
  {
    ReloadBudget(DEFAULT_POLICY, t0, evs, k);
    if k == 1 {
      ReloadCooldown(DEFAULT_POLICY, t0, evs);
    }
    AtMostTwo(k);
    BudgetReachedIff(DEFAULT_POLICY, k);
  }

  lemma AtMostTwo(k: nat)
    requires k >= 1
    ensures (k + 1) / k <= 2
  {
    if k == 1 {
      DivUnique(2, 1, 2, 0);
    } else {
      DivUnique(k + 1, k, 1, 1);
    }
  }

  /** With two decisions outstanding the cooldown is not kept: both may commit at once. */
  lemma CooldownNeedsOneAtATime(p: Policy, k: nat) returns (evs: seq<Event>)
    requires k >= 2 && p.maxReloads >= 1 && p.cooldown >= 1 && p.window >= 1
    ensures Feasible(p, Start(0), evs, k) && !Spaced(Play(p, Start(0), evs).commits, p.cooldown)
  {
    evs := Round(p, [], 0, 0, 2, k);
    var commits := Play(p, Start(0), evs).commits;
    assert commits == [] + Same(0, 2);
    assert commits[0 + 1] - commits[0] == 0;
  }
}
