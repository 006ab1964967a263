/** Further guarantees of whole WebView2 recovery runs: what backs an unresponsive trigger, what failed
    reloads change, and how often a restart is asked for. */
module WebViewProtocol {
  import opened Common
  import opened WebViewRecovery
  import opened WebViewBudget

  // ---- unresponsive triggers ----

  /** Seen events number `lo` up to `hi` lie in one unresponsive window. */
  predicate InWindow(p: Policy, seen: seq<int>, lo: nat, hi: nat) {
    lo < hi <= |seen| && (seen[hi - 1] - seen[lo] < p.unresponsiveWindow || seen[hi - 1] == seen[lo])
  }

  /** The instant lies in the unresponsive window that began at `start`. */
  predicate Since(p: Policy, start: int, instant: int) {
    instant == start || 0 < instant - start < p.unresponsiveWindow
  }

  /** The last `count` seen events lie in the current window. */
  predicate Counting(p: Policy, seen: seq<int>, clock: int, count: nat, start: Option<int>) {
    && Sorted(seen) && (seen != [] ==> seen[|seen| - 1] <= clock)
    && count <= |seen| && (start.None? ==> count == 0)
    && (start.Some? ==> start.value <= clock && forall i :: |seen| - count <= i < |seen| ==> Since(p, start.value, seen[i]))
  }

  predicate Batched(p: Policy, seen: seq<int>, batch: (nat, nat)) {
    batch.1 - batch.0 >= p.threshold && InWindow(p, seen, batch.0, batch.1)
  }

  /** Each trigger is backed by enough events of one window; triggers share no event, and the
      last `count` events were not used by any. */
  predicate Backed(p: Policy, seen: seq<int>, count: nat, triggers: seq<(nat, nat)>) {
    && (forall k :: 0 <= k < |triggers| ==> Batched(p, seen, triggers[k]) && triggers[k].1 <= |seen| - count)
    && (forall k, l :: 0 <= k < l < |triggers| ==> triggers[k].1 <= triggers[l].0)
  }

  predicate RunBacked(p: Policy, r: Run) {
    Counting(p, r.seen, r.clock, r.m.count, r.m.windowStart) && Backed(p, r.seen, r.m.count, r.triggers)
  }

  /** What an unresponsive event does to the counter. */
  lemma CountMore(p: Policy, m: Machine, seen: seq<int>, clock: int, now: int)
    requires Counting(p, seen, clock, m.count, m.windowStart) && clock <= now
    ensures var counted := CountUnresponsive(p, m, now);
            && Counting(p, seen + [now], now, counted.count, counted.windowStart)
            && 1 <= counted.count <= m.count + 1
  {
  }

  lemma CountedInWindow(p: Policy, seen: seq<int>, clock: int, count: nat, start: Option<int>)
    requires Counting(p, seen, clock, count, start) && count >= 1
    ensures InWindow(p, seen, |seen| - count, |seen|)
  {
    assert Since(p, start.value, seen[|seen| - count]) && Since(p, start.value, seen[|seen| - 1]);
    assert count > 1 ==> seen[|seen| - count] <= seen[|seen| - 1];
  }

  /** A new event that does not trigger leaves the batches alone. */
  lemma LogGrows(p: Policy, seen: seq<int>, now: int, count: nat, count': nat, triggers: seq<(nat, nat)>)
    requires Backed(p, seen, count, triggers) && count' <= count + 1
    ensures Backed(p, seen + [now], count', triggers)
  {
    forall k | 0 <= k < |triggers|
      ensures Batched(p, seen + [now], triggers[k]) && triggers[k].1 <= |seen| + 1 - count'
    {
      assert Batched(p, seen, triggers[k]);
    }
  }

  /** One that triggers adds its batch, and counting starts again. */
  lemma TriggerFires(p: Policy, seen: seq<int>, count: nat, triggers: seq<(nat, nat)>)
    requires Backed(p, seen, count, triggers) && p.threshold <= count <= |seen| && InWindow(p, seen, |seen| - count, |seen|)
    ensures Backed(p, seen, 0, triggers + [Batch(|seen|, count)])
  {
    var batch, more := Batch(|seen|, count), triggers + [Batch(|seen|, count)];
    assert Batched(p, seen, batch);
    forall k | 0 <= k < |more|
      ensures Batched(p, seen, more[k]) && more[k].1 <= |seen|
    {
      assert k < |triggers| ==> more[k] == triggers[k];
    }
    forall k, l | 0 <= k < l < |more|
      ensures more[k].1 <= more[l].0
    {
      assert more[k] == triggers[k];
      assert l < |triggers| ==> more[l] == triggers[l];
    }
  }

  lemma UnresponsiveBacked(p: Policy, r: Run, now: int)
    requires RunBacked(p, r) && r.clock <= now
    ensures RunBacked(p, Step(p, r, Failed(RendererUnresponsive, now)))
  {
    var counted, seen := CountUnresponsive(p, r.m, now), r.seen + [now];
    CountMore(p, r.m, r.seen, r.clock, now);
    LogGrows(p, r.seen, now, r.m.count, counted.count, r.triggers);
    if counted.count >= p.threshold {
      CountedInWindow(p, seen, now, counted.count, counted.windowStart);
      TriggerFires(p, seen, counted.count, r.triggers);
    }
  }

  lemma StepBacked(p: Policy, r: Run, ev: Event)
    requires RunBacked(p, r) && Possible(r, ev)
    ensures RunBacked(p, Step(p, r, ev))
  {
    if ev.Failed? && ev.kind.RendererUnresponsive? {
      UnresponsiveBacked(p, r, ev.now);
    } else {
      OtherEventsDoNotCount(p, r, ev);
    }
  }

  lemma OtherEventsDoNotCount(p: Policy, r: Run, ev: Event)
    requires Possible(r, ev) && !(ev.Failed? && ev.kind.RendererUnresponsive?)
    ensures var r' := Step(p, r, ev);
            r'.seen == r.seen && r'.triggers == r.triggers && r'.m.count == r.m.count && r'.m.windowStart == r.m.windowStart &&
            r.clock <= r'.clock
  {
  }

  lemma {:induction false} PlayBacked(p: Policy, r: Run, evs: seq<Event>, k: nat)
    requires RunBacked(p, r) && Feasible(p, r, evs, k)
    ensures RunBacked(p, Play(p, r, evs))
    decreases |evs|
  {
    if evs != [] {
      StepBacked(p, r, evs[0]);
      PlayBacked(p, Step(p, r, evs[0]), evs[1..], k);
    }
  }

  /** Every unresponsive trigger of a run has its own batch of at least `threshold` events,
      all inside one unresponsive window. */
  lemma TriggersAreBacked(p: Policy, t0: int, evs: seq<Event>, k: nat)
    requires Feasible(p, Start(t0), evs, k)
    ensures var r := Play(p, Start(t0), evs); Backed(p, r.seen, r.m.count, r.triggers)
  {
    PlayBacked(p, Start(t0), evs, k);
  }

  /** The events of the current count, the new one last, are a batch as soon as they are enough. */
  lemma FiresOnBatch(p: Policy, m: Machine, seen: seq<int>, clock: int, now: int)
    requires Counting(p, seen, clock, m.count, m.windowStart) && clock <= now
    requires CountUnresponsive(p, m, now).count >= p.threshold
    ensures var batch := Batch(|seen| + 1, CountUnresponsive(p, m, now).count);
            batch.1 == |seen| + 1 && Batched(p, seen + [now], batch)
  {
    var counted := CountUnresponsive(p, m, now);
    CountMore(p, m, seen, clock, now);
    CountedInWindow(p, seen + [now], now, counted.count, counted.windowStart);
  }

  /** A reload decided for unresponsiveness adds one trigger to the run, and the batch that backs it ends with this
      event. */
  lemma TriggeredReloadIsRecorded(p: Policy, t0: int, evs: seq<Event>, k: nat, now: int)
    requires Feasible(p, Start(t0), evs, k) && Play(p, Start(t0), evs).clock <= now
    requires HandleFailure(p, Play(p, Start(t0), evs).m, RendererUnresponsive, now).1.Reload?
    ensures var r := Play(p, Start(t0), evs);
            var batch := Batch(|r.seen| + 1, CountUnresponsive(p, r.m, now).count);
            && Step(p, r, Failed(RendererUnresponsive, now)).triggers == r.triggers + [batch]
            && batch.1 == |r.seen| + 1 && Batched(p, r.seen + [now], batch)
  {
    var r := Play(p, Start(t0), evs);
    PlayBacked(p, Start(t0), evs, k);
    FiresOnBatch(p, r.m, r.seen, r.clock, now);
  }

  // ---- failed reloads ----

  /** The decisions of a run, one per process failure. */
  function Decisions(p: Policy, m: Machine, evs: seq<Event>): seq<(Action, Detail)>
    decreases |evs|
  {
    if evs == [] then []
    else
      match evs[0]
      case Failed(kind, now) =>
        var (m', action, detail) := HandleFailure(p, m, kind, now);
        [(action, detail)] + Decisions(p, m', evs[1..])
      case Reloaded(now) => Decisions(p, RecordSuccess(p, m, now), evs[1..])
      case ReloadFailed(error) => Decisions(p, SettleFailure(m, error).0, evs[1..])
  }

  function WithoutFailures(evs: seq<Event>): seq<Event> {
    if evs == [] then []
    else if evs[0].ReloadFailed? then WithoutFailures(evs[1..])
    else [evs[0]] + WithoutFailures(evs[1..])
  }

  /** The failure counter plays no part in a decision. */
  lemma CounterIsIgnored(p: Policy, m: Machine, n: nat, kind: Kind, now: int)
    ensures var (a, b) := (HandleFailure(p, m, kind, now), HandleFailure(p, m.(failures := n), kind, now));
            b.0 == a.0.(failures := n) && b.1 == a.1 && b.2 == a.2
  {
  }

  /** Erasing every failed reload execution from a run changes no decision of the run. */
  lemma {:induction false} FailuresChangeNoDecision(p: Policy, m: Machine, n: nat, evs: seq<Event>)
    ensures Decisions(p, m, evs) == Decisions(p, m.(failures := n), WithoutFailures(evs))
    decreases |evs|
  {
    if evs != [] {
      match evs[0]
      case Failed(kind, now) =>
        CounterIsIgnored(p, m, n, kind, now);
        FailuresChangeNoDecision(p, HandleFailure(p, m, kind, now).0, n, evs[1..]);
        assert WithoutFailures(evs)[1..] == WithoutFailures(evs[1..]);
      case Reloaded(now) =>
        FailuresChangeNoDecision(p, RecordSuccess(p, m, now), 0, evs[1..]);
        assert WithoutFailures(evs)[1..] == WithoutFailures(evs[1..]);
      case ReloadFailed(error) =>
        FailuresChangeNoDecision(p, SettleFailure(m, error).0, n, evs[1..]);
    }
  }

  /** window.reload() errors since the last successful reload of the run. */
  function TrailingErrors(evs: seq<Event>): nat
    decreases |evs|
  {
    if evs == [] then 0
    else
      var (init, last) := (evs[..|evs| - 1], evs[|evs| - 1]);
      if last.Reloaded? then 0
      else TrailingErrors(init) + if last == ReloadFailed(ReloadError) then 1 else 0
  }

  lemma {:induction false} PlayAppend(p: Policy, r: Run, evs: seq<Event>, ev: Event)
    ensures Play(p, r, evs + [ev]) == Step(p, Play(p, r, evs), ev)
    decreases |evs|
  {
    if evs == [] {
      assert [ev][1..] == [];
    } else {
      PlayAppend(p, Step(p, r, evs[0]), evs[1..], ev);
      assert (evs + [ev])[1..] == evs[1..] + [ev];
    }
  }

  lemma {:induction false} CounterIsTrailingErrors(p: Policy, t0: int, evs: seq<Event>)
    ensures Play(p, Start(t0), evs).m.failures == TrailingErrors(evs)
    decreases |evs|
  {
    if evs != [] {
      var (init, last) := (evs[..|evs| - 1], evs[|evs| - 1]);
      assert evs == init + [last];
      PlayAppend(p, Start(t0), init, last);
      CounterIsTrailingErrors(p, t0, init);
    }
  }

  /** A failed reload escalates to a restart exactly when it could not be attempted at all, or
      when it is at least the third error in a row without a success in between. */
  lemma EscalationRule(p: Policy, t0: int, evs: seq<Event>, error: ExecError)
    ensures SettleFailure(Play(p, Start(t0), evs).m, error).1.EscalateRestart? <==>
            error != ReloadError || TrailingErrors(evs + [ReloadFailed(ReloadError)]) >= 3
  {
    CounterIsTrailingErrors(p, t0, evs);
    assert (evs + [ReloadFailed(ReloadError)])[..|evs|] == evs;
  }

  function Restarts(ds: seq<(Action, Detail)>): nat {
    if ds == [] then 0 else (if ds[0].0.Restart? then 1 else 0) + Restarts(ds[1..])
  }

  /** Of all its process failures a run answers at most one with a restart. */
  lemma {:induction false} RestartsAtMostOnce(p: Policy, m: Machine, evs: seq<Event>)
    ensures Restarts(Decisions(p, m, evs)) <= if m.browserFatal then 0 else 1
    decreases |evs|
  {
    if evs != [] {
      match evs[0]
      case Failed(kind, now) =>
        var next := HandleFailure(p, m, kind, now);
        RestartsAtMostOnce(p, next.0, evs[1..]);
        assert Decisions(p, m, evs)[1..] == Decisions(p, next.0, evs[1..]);
      case Reloaded(now) => RestartsAtMostOnce(p, RecordSuccess(p, m, now), evs[1..]);
      case ReloadFailed(error) => RestartsAtMostOnce(p, SettleFailure(m, error).0, evs[1..]);
    }
  }

  // ---- restart requests ----

  /** The event is answered with a request for a restart: a process failure by the decision, a failed reload by its
      settlement. */
  predicate AsksRestart(p: Policy, m: Machine, ev: Event) {
    match ev
    case Failed(kind, now) => HandleFailure(p, m, kind, now).1.Restart?
    case Reloaded(_) => false
    case ReloadFailed(error) => SettleFailure(m, error).1.EscalateRestart?
  }

  function RestartRequests(p: Policy, t0: int, evs: seq<Event>): nat
    decreases |evs|
  {
    if evs == [] then 0
    else
      var (init, last) := (evs[..|evs| - 1], evs[|evs| - 1]);
      RestartRequests(p, t0, init) + if AsksRestart(p, Play(p, Start(t0), init).m, last) then 1 else 0
  }

  predicate BrowserExit(ev: Event) {
    ev.Failed? && ev.kind.Browser?
  }

  predicate BrowserExits(evs: seq<Event>) {
    exists i :: 0 <= i < |evs| && BrowserExit(evs[i])
  }

  /** The failed reloads of a run that could not be attempted, or were the third or later error in a row. */
  function Escalations(evs: seq<Event>): nat
    decreases |evs|
  {
    if evs == [] then 0
    else
      var last := evs[|evs| - 1];
      Escalations(evs[..|evs| - 1]) +
      if last.ReloadFailed? && (last.error != ReloadError || TrailingErrors(evs) >= 3) then 1 else 0
  }

  lemma LastExit(evs: seq<Event>)
    requires evs != []
    ensures BrowserExits(evs) <==> BrowserExits(evs[..|evs| - 1]) || BrowserExit(evs[|evs| - 1])
  {
    var init := evs[..|evs| - 1];
    if BrowserExits(init) {
      var i :| 0 <= i < |init| && BrowserExit(init[i]);
      assert BrowserExit(evs[i]);
    }
    if BrowserExits(evs) && !BrowserExit(evs[|evs| - 1]) {
      var i :| 0 <= i < |evs| && BrowserExit(evs[i]);
      assert BrowserExit(init[i]);
    }
  }

  lemma FatalAfter(p: Policy, r: Run, ev: Event)
    ensures Step(p, r, ev).m.browserFatal <==> r.m.browserFatal || BrowserExit(ev)
  {
  }

  lemma {:induction false} FatalIsBrowserExits(p: Policy, t0: int, evs: seq<Event>)
    ensures Play(p, Start(t0), evs).m.browserFatal <==> BrowserExits(evs)
    decreases |evs|
  {
    if evs != [] {
      var (init, last) := (evs[..|evs| - 1], evs[|evs| - 1]);
      assert evs == init + [last];
      PlayAppend(p, Start(t0), init, last);
      FatalIsBrowserExits(p, t0, init);
      FatalAfter(p, Play(p, Start(t0), init), last);
      LastExit(evs);
    }
  }

  /** What one more event adds, told by the history alone. */
  lemma OneMoreRequest(p: Policy, m: Machine, init: seq<Event>, last: Event)
    requires m.browserFatal == BrowserExits(init) && m.failures == TrailingErrors(init)
    ensures AsksRestart(p, m, last) <==>
            || (BrowserExit(last) && !BrowserExits(init))
            || (last.ReloadFailed? && (last.error != ReloadError || TrailingErrors(init) + 1 >= 3))
  {
  }

  /** A run asks for one restart if the browser process ever exits, and one more for every reload that escalates:
      the flag that keeps the first single does not bound the others. */
  lemma {:induction false} RestartRequestsAreCounted(p: Policy, t0: int, evs: seq<Event>)
    ensures RestartRequests(p, t0, evs) == (if BrowserExits(evs) then 1 else 0) + Escalations(evs)
    decreases |evs|
  {
    if evs != [] {
      var (init, last) := (evs[..|evs| - 1], evs[|evs| - 1]);
      RestartRequestsAreCounted(p, t0, init);
      FatalIsBrowserExits(p, t0, init);
      CounterIsTrailingErrors(p, t0, init);
      OneMoreRequest(p, Play(p, Start(t0), init).m, init, last);
      LastExit(evs);
    }
  }

  /** Two decided reloads whose window cannot be found: the shipped policy then asks for two restarts, with no browser
      exit. */
  lemma TwoRestartRequests(t0: int) returns (evs: seq<Event>)
    ensures Feasible(DEFAULT_POLICY, Start(t0), evs, 2) && !BrowserExits(evs)
    ensures RestartRequests(DEFAULT_POLICY, t0, evs) == 2
  {
    var (failed, missing) := (Failed(Renderer, t0), ReloadFailed(MainWindowNotFound));
    evs := [failed, failed, missing, missing];
    var one, two := Start(t0).(outstanding := 1), Start(t0).(outstanding := 2);
    assert Step(DEFAULT_POLICY, Start(t0), failed) == one && Step(DEFAULT_POLICY, one, failed) == two;
    assert Step(DEFAULT_POLICY, two, missing) == one && Step(DEFAULT_POLICY, one, missing) == Start(t0);
    assert Feasible(DEFAULT_POLICY, one, [missing], 2) by { assert [missing][1..] == []; }
    assert Feasible(DEFAULT_POLICY, two, [missing, missing], 2) by { assert [missing, missing][1..] == [missing]; }
    assert Feasible(DEFAULT_POLICY, one, [failed, missing, missing], 2) by {
      assert [failed, missing, missing][1..] == [missing, missing];
    }
    assert evs[1..] == [failed, missing, missing];
    RestartRequestsAreCounted(DEFAULT_POLICY, t0, evs);
    assert Escalations([failed]) == 0 by { assert [failed][..0] == []; }
    assert Escalations([failed, failed]) == 0 by { assert [failed, failed][..1] == [failed]; }
    assert Escalations([failed, failed, missing]) == 1 by {
      assert [failed, failed, missing][..2] == [failed, failed];
    }
    assert evs[..3] == [failed, failed, missing];
  }
}
