/** The WebView2 recovery policy (src-tauri/src/webview2_recovery.rs): which process failure
    earns a reload, a restart, or a log line.  Instants and durations are integers of one
    unit; an elapsed time exists only when `now` is not before the instant. */
module WebViewRecovery {
  import opened Common

  const ESCALATION_THRESHOLD := 3

  datatype Policy = Policy(cooldown: nat, window: nat, maxReloads: nat, unresponsiveWindow: nat, threshold: nat)

  const DEFAULT_POLICY := Policy(30, 600, 3, 60, 3)

  datatype Kind = Browser | Renderer | RendererUnresponsive | Gpu | FrameRenderer | Other

  datatype Action = Reload | Restart | LogOnly

  datatype Detail =
    | BrowserExited | RendererExited
    | UnresponsiveArmed(count: nat, threshold: nat) | UnresponsiveTriggered(count: nat, threshold: nat)
    | GpuExited | FrameExited | OtherExited
    | Throttled | BudgetExhausted(reloads: nat, window: nat)

  datatype Eligibility = Allowed | Cooldown | Exhausted

  datatype ExecError = ScheduleMainThread | MainWindowNotFound | ReloadError

  datatype Disposition = Committed | RetryNext | EscalateRestart

  datatype Machine = Machine(
    reloads: seq<int>,                // committed reloads still in the deque
    lastReload: Option<int>,
    windowStart: Option<int>,         // of the unresponsive window
    count: nat,                       // unresponsive events in it
    browserFatal: bool,
    failures: nat)                    // consecutive window.reload() errors

  const NEW_MACHINE := Machine([], None, None, 0, false, 0)

  /** checked_duration_since(..).is_some_and(elapsed >= span) */
  predicate Elapsed(since: int, now: int, span: nat) {
    since <= now && now - since >= span
  }

  /** How many of the instants are still inside the window. */
  function ActiveIn(ts: seq<int>, now: int, span: nat): nat {
    if ts == [] then 0 else ActiveIn(ts[..|ts| - 1], now, span) + if Elapsed(ts[|ts| - 1], now, span) then 0 else 1
  }

  function CanReload(p: Policy, m: Machine, now: int): Eligibility {
    if m.lastReload.Some? && !Elapsed(m.lastReload.value, now, p.cooldown) then Cooldown
    else if ActiveIn(m.reloads, now, p.window) >= p.maxReloads then Exhausted
    else Allowed
  }

  function RendererRecovery(p: Policy, m: Machine, now: int, detail: Detail): (Action, Detail) {
    match CanReload(p, m, now)
    case Allowed => (Reload, detail)
    case Cooldown => (LogOnly, Throttled)
    case Exhausted => (LogOnly, BudgetExhausted(|m.reloads|, p.window))
  }

  /** The unresponsive counter after one more event, before the threshold is looked at. */
  function CountUnresponsive(p: Policy, m: Machine, now: int): Machine {
    var expired := m.windowStart.None? || Elapsed(m.windowStart.value, now, p.unresponsiveWindow);
    if expired then m.(windowStart := Some(now), count := 1) else m.(count := m.count + 1)
  }

  function HandleFailure(p: Policy, m: Machine, kind: Kind, now: int): (Machine, Action, Detail) {
    match kind
    case Browser => (m.(browserFatal := true), if m.browserFatal then LogOnly else Restart, BrowserExited)
    case Renderer =>
      var (action, detail) := RendererRecovery(p, m, now, RendererExited);
      (m, action, detail)
    case RendererUnresponsive =>
      var counted := CountUnresponsive(p, m, now);
      if counted.count >= p.threshold then
        var reset := counted.(count := 0);
        var (action, detail) := RendererRecovery(p, reset, now, UnresponsiveTriggered(counted.count, p.threshold));
        (reset, action, detail)
      else (counted, LogOnly, UnresponsiveArmed(counted.count, p.threshold))
    case Gpu => (m, LogOnly, GpuExited)
    case FrameRenderer => (m, LogOnly, FrameExited)
    case Other => (m, LogOnly, OtherExited)
  }

  /** The deque without the leading reloads that rolled out of the window. */
  function Pruned(ts: seq<int>, now: int, span: nat): seq<int> {
    if ts != [] && Elapsed(ts[0], now, span) then Pruned(ts[1..], now, span) else ts
  }

  function RecordSuccess(p: Policy, m: Machine, now: int): Machine {
    m.(reloads := Pruned(m.reloads, now, p.window) + [now], lastReload := Some(now), failures := 0)
  }

  function RecordFailure(m: Machine): (Machine, bool) {
    (m.(failures := m.failures + 1), m.failures + 1 >= ESCALATION_THRESHOLD)
  }

  /** settle_reload_execution for a failed attempt. */
  function SettleFailure(m: Machine, error: ExecError): (Machine, Disposition) {
    match error
    case ReloadError =>
      var (m', escalate) := RecordFailure(m);
      (m', if escalate then EscalateRestart else RetryNext)
    case _ => (m, EscalateRestart)
  }

  /** The WebView2Recovery object. */
  class Recovery {
    const policy: Policy
    var reloads: seq<int>
    var lastReload: Option<int>
    var windowStart: Option<int>
    var count: nat
    var browserFatal: bool
    var failures: nat

    function View(): Machine
      reads this
    {
      Machine(reloads, lastReload, windowStart, count, browserFatal, failures)
    }

    constructor (policy: Policy)
      ensures View() == NEW_MACHINE && this.policy == policy
    {
      this.policy := policy;
      reloads, lastReload, windowStart := [], None, None;
      count, browserFatal, failures := 0, false, 0;
    }

    method HandleProcessFailed(kind: Kind, now: int) returns (action: Action, detail: Detail)
      modifies this
      ensures (View(), action, detail) == HandleFailure(policy, old(View()), kind, now)
    {
      match kind
      case Browser =>
        if browserFatal {
          action, detail := LogOnly, BrowserExited;
        } else {
          browserFatal := true;
          action, detail := Restart, BrowserExited;
        }
      case Renderer =>
        var (a, d) := RendererRecovery(policy, View(), now, RendererExited);
        action, detail := a, d;
      case RendererUnresponsive =>
        var expired := windowStart.None? || Elapsed(windowStart.value, now, policy.unresponsiveWindow);
        if expired {
          windowStart := Some(now);
          count := 0;
        }
        count := count + 1;
        var reached := count;
        if reached >= policy.threshold {
          count := 0;
          var (a, d) := RendererRecovery(policy, View(), now, UnresponsiveTriggered(reached, policy.threshold));
          action, detail := a, d;
        } else {
          action, detail := LogOnly, UnresponsiveArmed(reached, policy.threshold);
        }
      case Gpu => action, detail := LogOnly, GpuExited;
      case FrameRenderer => action, detail := LogOnly, FrameExited;
      case Other => action, detail := LogOnly, OtherExited;
    }

    method RecordReloadSuccess(now: int)
      modifies this
      ensures View() == RecordSuccess(policy, old(View()), now)
    {
      while reloads != [] && Elapsed(reloads[0], now, policy.window)
        invariant Pruned(reloads, now, policy.window) == Pruned(old(reloads), now, policy.window)
        invariant View().(reloads := old(reloads)) == old(View())
        decreases |reloads|
      {
        reloads := reloads[1..];
      }
      reloads := reloads + [now];
      lastReload := Some(now);
      failures := 0;
    }

    method RecordReloadExecutionFailure() returns (escalate: bool)
      modifies `failures
      ensures (View(), escalate) == RecordFailure(old(View()))
    {
      failures := failures + 1;
      escalate := failures >= ESCALATION_THRESHOLD;
    }

    method SettleReloadExecution(now: int, error: Option<ExecError>) returns (disposition: Disposition)
      modifies this
      ensures error.None? ==> View() == RecordSuccess(policy, old(View()), now) && disposition == Committed
      ensures error.Some? ==> (View(), disposition) == SettleFailure(old(View()), error.value)
    {
      if error.None? {
        RecordReloadSuccess(now);
        return Committed;
      }
      if error.value == ReloadError {
        var escalate := RecordReloadExecutionFailure();
        disposition := if escalate then EscalateRestart else RetryNext;
      } else {
        disposition := EscalateRestart;
      }
    }
  }
}
