/** What whole runs of the WebView2 recovery policy guarantee.

    A run interleaves process failures with the outcomes of reloads decided earlier: a
    decision and the commit of its reload are separate steps, so several decisions can be
    outstanding.  Time never goes back. */
module WebViewBudget {
  import opened Common
  import opened WebViewRecovery

  datatype Event =
    | Failed(kind: Kind, now: int)
    | Reloaded(now: int)                // a decided reload succeeded
    | ReloadFailed(error: ExecError)    // a decided reload failed

  datatype Run = Run(
    m: Machine,
    clock: int,
    outstanding: nat,                   // reloads decided, not yet settled
    commits: seq<int>,                  // every committed reload, oldest first
    seen: seq<int>,                     // every unresponsive event
    triggers: seq<(nat, nat)>)          // unresponsive triggers, as ranges of `seen`

  function Start(t0: int): Run {
    Run(NEW_MACHINE, t0, 0, [], [], [])
  }

  function Step(p: Policy, r: Run, ev: Event): Run {
    match ev
    case Failed(kind, now) =>
      var (m, action, detail) := HandleFailure(p, r.m, kind, now);
      var seen := if kind.RendererUnresponsive? then r.seen + [now] else r.seen;
      var fired := kind.RendererUnresponsive? && CountUnresponsive(p, r.m, now).count >= p.threshold;
      Run(m, now, if action.Reload? then r.outstanding + 1 else r.outstanding, r.commits, seen,
          if fired then r.triggers + [Batch(|seen|, CountUnresponsive(p, r.m, now).count)] else r.triggers)
    case Reloaded(now) =>
      r.(m := RecordSuccess(p, r.m, now), clock := now, outstanding := Less(r.outstanding), commits := r.commits + [now])
    case ReloadFailed(error) => r.(m := SettleFailure(r.m, error).0, outstanding := Less(r.outstanding))
  }

  function Less(n: nat): nat {
    if n == 0 then 0 else n - 1
  }

  /** The last `count` of `total` events. */
  function Batch(total: nat, count: nat): (nat, nat) {
    (if count <= total then total - count else 0, total)
  }

  /** Time does not go back, and only a decided reload has an outcome. */
  predicate Possible(r: Run, ev: Event) {
    match ev
    case Failed(_, now) => r.clock <= now
    case Reloaded(now) => r.clock <= now && r.outstanding > 0
    case ReloadFailed(_) => r.outstanding > 0
  }

  function Play(p: Policy, r: Run, evs: seq<Event>): Run
    decreases |evs|
  {
    if evs == [] then r else Play(p, Step(p, r, evs[0]), evs[1..])
  }

  /** The events can happen in this order, with at most `k` decisions outstanding at any time. */
  predicate Feasible(p: Policy, r: Run, evs: seq<Event>, k: nat)
    decreases |evs|
  {
    r.outstanding <= k && (evs == [] || (Possible(r, evs[0]) && Feasible(p, Step(p, r, evs[0]), evs[1..], k)))
  }

  // ---- the deque agrees with the full history of commits ----

  predicate Sorted(ts: seq<int>) {
    forall i, j :: 0 <= i < j < |ts| ==> ts[i] <= ts[j]
  }

  /** The deque is the history without commits that no window can reach any more. */
  predicate Recalls(commits: seq<int>, reloads: seq<int>, clock: int, span: nat) {
    && Sorted(commits) && (commits != [] ==> commits[|commits| - 1] <= clock)
    && |reloads| <= |commits| && reloads == commits[|commits| - |reloads|..]
    && (forall i :: 0 <= i < |commits| - |reloads| ==> Elapsed(commits[i], clock, span))
  }

  predicate Remembers(p: Policy, r: Run) {
    && Recalls(r.commits, r.m.reloads, r.clock, p.window)
    && r.m.lastReload == if r.commits == [] then None else Some(r.commits[|r.commits| - 1])
  }

  lemma {:induction false} PrunedSuffix(ts: seq<int>, now: int, span: nat) returns (n: nat)
    ensures n <= |ts| && Pruned(ts, now, span) == ts[n..]
    ensures forall i :: 0 <= i < n ==> Elapsed(ts[i], now, span)
  {
    n := 0;
    if ts != [] && Elapsed(ts[0], now, span) {
      var k := PrunedSuffix(ts[1..], now, span);
      n := k + 1;
      assert forall i :: 0 < i < n ==> ts[i] == ts[1..][i - 1];
    }
  }

  /** Pruning what is left of a history leaves a shorter suffix, and drops only what has elapsed. */
  lemma PrunedHistory(commits: seq<int>, d: nat, clock: int, now: int, span: nat) returns (e: nat)
    requires d <= |commits| && clock <= now && forall i :: 0 <= i < d ==> Elapsed(commits[i], clock, span)
    ensures e <= |commits| && Pruned(commits[d..], now, span) == commits[e..]
    ensures forall i :: 0 <= i < e ==> Elapsed(commits[i], now, span)
  {
    var n := PrunedSuffix(commits[d..], now, span);
    e := d + n;
    assert commits[d..][n..] == commits[e..];
    forall i | 0 <= i < e
      ensures Elapsed(commits[i], now, span)
    {
      if i >= d {
        assert commits[i] == commits[d..][i - d];
      }
    }
  }

  lemma SortedSnoc(commits: seq<int>, now: int)
    requires Sorted(commits) && (commits != [] ==> commits[|commits| - 1] <= now)
    ensures Sorted(commits + [now])
  {
    forall i, j | 0 <= i < j < |commits| + 1
      ensures (commits + [now])[i] <= (commits + [now])[j]
    {
      assert i < |commits| - 1 ==> commits[i] <= commits[|commits| - 1];
    }
  }

  /** The tail of a history from `e` on, and the new commit. */
  lemma TailRecalls(commits: seq<int>, e: nat, now: int, span: nat)
    requires Sorted(commits + [now]) && e <= |commits| && forall i :: 0 <= i < e ==> Elapsed(commits[i], now, span)
    ensures Recalls(commits + [now], commits[e..] + [now], now, span)
  {
    assert (commits + [now])[e..] == commits[e..] + [now];
  }

  lemma CommitRecalls(commits: seq<int>, reloads: seq<int>, clock: int, now: int, span: nat)
    requires Recalls(commits, reloads, clock, span) && clock <= now
    ensures Recalls(commits + [now], Pruned(reloads, now, span) + [now], now, span)
  {
    var e := PrunedHistory(commits, |commits| - |reloads|, clock, now, span);
    SortedSnoc(commits, now);
    TailRecalls(commits, e, now, span);
  }

  lemma StepRemembers(p: Policy, r: Run, ev: Event)
    requires Remembers(p, r) && Possible(r, ev)
    ensures Remembers(p, Step(p, r, ev))
  {
    if ev.Reloaded? {
      CommitRecalls(r.commits, r.m.reloads, r.clock, ev.now, p.window);
    } else {
      FailureKeepsReloads(p, r, ev);
    }
  }

  lemma FailureKeepsReloads(p: Policy, r: Run, ev: Event)
    requires !ev.Reloaded? && Possible(r, ev)
    ensures var r' := Step(p, r, ev);
            r'.m.reloads == r.m.reloads && r'.m.lastReload == r.m.lastReload && r'.commits == r.commits && r.clock <= r'.clock
  {
  }

  lemma {:induction false} PlayRemembers(p: Policy, r: Run, evs: seq<Event>, k: nat)
    requires Remembers(p, r) && Feasible(p, r, evs, k)
    ensures Remembers(p, Play(p, r, evs))
    decreases |evs|
  {
    if evs != [] {
      StepRemembers(p, r, evs[0]);
      PlayRemembers(p, Step(p, r, evs[0]), evs[1..], k);
    }
  }

  /** Commits that have rolled out of the window do not count. */
  lemma {:induction false} ActiveInSuffix(ts: seq<int>, n: nat, now: int, span: nat)
    requires n <= |ts| && forall i :: 0 <= i < n ==> Elapsed(ts[i], now, span)
    ensures ActiveIn(ts, now, span) == ActiveIn(ts[n..], now, span)
    decreases |ts|
  {
    if n < |ts| {
      ActiveInSuffix(ts[..|ts| - 1], n, now, span);
      assert ts[..|ts| - 1][n..] == ts[n..][..|ts| - n - 1];
    } else if ts != [] {
      ActiveInSuffix(ts[..|ts| - 1], n - 1, now, span);
      assert ts[..|ts| - 1][n - 1..] == [];
    }
  }

  /** Eligibility by the unbounded history: the last commit and every commit in the window. */
  function CanReloadByHistory(p: Policy, commits: seq<int>, now: int): Eligibility {
    if commits != [] && !Elapsed(commits[|commits| - 1], now, p.cooldown) then Cooldown
    else if ActiveIn(commits, now, p.window) >= p.maxReloads then Exhausted
    else Allowed
  }

  /** The pruned deque decides exactly as the full history would, at any later time. */
  lemma DequeDecidesLikeHistory(p: Policy, t0: int, evs: seq<Event>, k: nat, now: int)
    requires Feasible(p, Start(t0), evs, k) && Play(p, Start(t0), evs).clock <= now
    ensures var r := Play(p, Start(t0), evs);
            CanReload(p, r.m, now) == CanReloadByHistory(p, r.commits, now)
  {
    PlayRemembers(p, Start(t0), evs, k);
    var r := Play(p, Start(t0), evs);
    var d := |r.commits| - |r.m.reloads|;
    ActiveInSuffix(r.commits, d, now, p.window);
  }

  // ---- the rolling budget ----

  lemma {:induction false} ActiveInFresh(ts: seq<int>, i: nat, now: int, span: nat)
    requires i <= |ts| && forall j :: i <= j < |ts| ==> !Elapsed(ts[j], now, span)
    ensures ActiveIn(ts, now, span) >= |ts| - i
    decreases |ts|
  {
    if i < |ts| {
      ActiveInFresh(ts[..|ts| - 1], i, now, span);
    }
  }

  lemma {:induction false} ActiveInLater(ts: seq<int>, now: int, later: int, span: nat)
    requires now <= later
    ensures ActiveIn(ts, later, span) <= ActiveIn(ts, now, span)
    decreases |ts|
  {
    if ts != [] {
      ActiveInLater(ts[..|ts| - 1], now, later, span);
    }
  }

  /** Any commits inside a span shorter than the window are at most `bound` many. */
  predicate WithinBudget(commits: seq<int>, span: nat, bound: int) {
    forall i, j :: 0 <= i <= j < |commits| && commits[j] - commits[i] < span ==> j - i + 1 <= bound
  }

  /** Commits in the window and outstanding decisions together stay under the bound. */
  predicate Budgeted(p: Policy, r: Run, k: nat) {
    && ActiveIn(r.commits, r.clock, p.window) + r.outstanding <= p.maxReloads + k - 1
    && WithinBudget(r.commits, p.window, p.maxReloads + k - 1)
  }

  lemma StepBudgeted(p: Policy, r: Run, ev: Event, k: nat)
    requires k >= 1 && Budgeted(p, r, k) && Remembers(p, r) && Possible(r, ev) && Step(p, r, ev).outstanding <= k
    ensures Budgeted(p, Step(p, r, ev), k)
  {
    var r' := Step(p, r, ev);
    ActiveInLater(r.commits, r.clock, r'.clock, p.window);
    match ev
    case Failed(kind, now) =>
      if r'.outstanding > r.outstanding {
        DecisionSeesRoom(p, r, kind, now);
      }
    case Reloaded(now) =>
      CommitsPast(p, r, now);
      CommitWithinBudget(r.commits, now, p.window, p.maxReloads + k - 1);
      OneMoreActive(r.commits, now, p.window);
    case ReloadFailed(_) =>
  }

  lemma CommitsPast(p: Policy, r: Run, now: int)
    requires Remembers(p, r) && r.clock <= now
    ensures forall i :: 0 <= i < |r.commits| ==> r.commits[i] <= now
  {
    forall i | 0 <= i < |r.commits|
      ensures r.commits[i] <= now
    {
      assert i < |r.commits| - 1 ==> r.commits[i] <= r.commits[|r.commits| - 1];
    }
  }

  /** A reload is decided only when the commits in the window leave room for one more. */
  lemma DecisionSeesRoom(p: Policy, r: Run, kind: Kind, now: int)
    requires Remembers(p, r) && r.clock <= now && HandleFailure(p, r.m, kind, now).1.Reload?
    ensures ActiveIn(r.commits, now, p.window) < p.maxReloads
    ensures r.commits != [] ==> now - r.commits[|r.commits| - 1] >= p.cooldown
  {
    assert r.m.(windowStart := r.m.windowStart) == r.m;
    ActiveInSuffix(r.commits, |r.commits| - |r.m.reloads|, now, p.window);
  }

  lemma CommitWithinBudget(commits: seq<int>, now: int, window: nat, bound: int)
    requires WithinBudget(commits, window, bound) && (forall i :: 0 <= i < |commits| ==> commits[i] <= now)
    requires ActiveIn(commits, now, window) + 1 <= bound && Sorted(commits)
    ensures WithinBudget(commits + [now], window, bound)
  {
    var more := commits + [now];
    forall i, j | 0 <= i <= j < |more| && more[j] - more[i] < window
      ensures j - i + 1 <= bound
    {
      if j < |commits| {
        assert more[j] == commits[j] && more[i] == commits[i];
      } else {
        NewestInSpan(commits, i, now, window);
      }
    }
  }

  /** The commits from number `i` on, if it is still in the window, are all in the window. */
  lemma NewestInSpan(commits: seq<int>, i: nat, now: int, window: nat)
    requires Sorted(commits) && i <= |commits| && (forall j :: 0 <= j < |commits| ==> commits[j] <= now)
    requires i < |commits| ==> now - commits[i] < window
    ensures |commits| - i <= ActiveIn(commits, now, window)
  {
    forall j | i <= j < |commits|
      ensures !Elapsed(commits[j], now, window)
    {
      assert i < j ==> commits[i] <= commits[j];
    }
    ActiveInFresh(commits, i, now, window);
  }

  lemma OneMoreActive(commits: seq<int>, now: int, window: nat)
    ensures ActiveIn(commits + [now], now, window) <= ActiveIn(commits, now, window) + 1
  {
    assert (commits + [now])[..|commits|] == commits;
  }

  lemma {:induction false} PlayBudgeted(p: Policy, r: Run, evs: seq<Event>, k: nat)
    requires k >= 1 && Budgeted(p, r, k) && Remembers(p, r) && Feasible(p, r, evs, k)
    ensures Budgeted(p, Play(p, r, evs), k)
    decreases |evs|
  {
    if evs != [] {
      StepRemembers(p, r, evs[0]);
      StepBudgeted(p, r, evs[0], k);
      PlayBudgeted(p, Step(p, r, evs[0]), evs[1..], k);
    }
  }

  /** With at most `k` decisions outstanding, any span shorter than the window holds at most
      maxReloads + k - 1 committed reloads; for k = 1 that is the documented budget. */
  lemma ReloadBudget(p: Policy, t0: int, evs: seq<Event>, k: nat)
    requires k >= 1 && Feasible(p, Start(t0), evs, k)
    ensures WithinBudget(Play(p, Start(t0), evs).commits, p.window, p.maxReloads + k - 1)
  {
    PlayBudgeted(p, Start(t0), evs, k);
  }
}
